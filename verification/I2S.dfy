/** The 2-bit ternary weight layout and its three dot-product kernels (src/bitnet_kernels.rs and the
    device kernel in src/cuda.rs). */
module I2S {
  import opened Prelude

  // ---- Layout: 128 values per 32-byte tile, four interleaved strides of 32 -------------------------

  function ByteIndex(i: nat): nat {
    i / 128 * 32 + i % 128 % 32
  }

  function Slot(i: nat): (s: nat)
    ensures s < 4
  {
    i % 128 / 32
  }

  lemma ByteInBounds(i: nat, bytes: nat)
    requires bytes % 32 == 0 && i < 4 * bytes
    ensures ByteIndex(i) < bytes
  {
    var tiles := bytes / 32;
    assert bytes == 32 * tiles && i / 128 < tiles;
  }

  /** No two values share a byte and a slot. */
  lemma PlaceInjective(i: nat, j: nat)
    requires ByteIndex(i) == ByteIndex(j) && Slot(i) == Slot(j)
    ensures i == j
  {
    assert i % 128 == 32 * Slot(i) + i % 128 % 32;
    assert j % 128 == 32 * Slot(j) + j % 128 % 32;
    assert ByteIndex(i) / 32 == i / 128 && ByteIndex(j) / 32 == j / 128;
    assert i == 128 * (i / 128) + i % 128;
  }

  // ---- Codes --------------------------------------------------------------------------------------

  function Code(byte: bv8, slot: nat): bv8
    requires slot < 4
  {
    match slot
    case 0 => (byte >> 6) & 3
    case 1 => (byte >> 4) & 3
    case 2 => (byte >> 2) & 3
    case 3 => byte & 3
  }

  function Stored(byte: bv8, slot: nat, code: bv8): bv8
    requires slot < 4 && code <= 3
  {
    match slot
    case 0 => byte | (code << 6)
    case 1 => byte | (code << 4)
    case 2 => byte | (code << 2)
    case 3 => byte | code
  }

  function Weight(code: bv8): int {
    if code == 0 then -1 else if code == 2 then 1 else 0
  }

  function CodeOf(value: int): bv8 {
    if value == -1 then 0 else if value == 0 then 1 else 2
  }

  /** Storing into an empty slot sets it and leaves the other three alone. */
  lemma StoredCode(byte: bv8, slot: nat, code: bv8, other: nat)
    requires slot < 4 && other < 4 && code <= 3 && Code(byte, slot) == 0
    ensures Code(Stored(byte, slot, code), other) == if other == slot then code else Code(byte, other)
  {
    if slot == 0 {
      StoredAt6(byte, code);
    } else if slot == 1 {
      StoredAt4(byte, code);
    } else if slot == 2 {
      StoredAt2(byte, code);
    } else {
      StoredAt0(byte, code);
    }
  }

  lemma StoredAt6(byte: bv8, code: bv8)
    requires code <= 3 && (byte >> 6) & 3 == 0
    ensures var b := byte | (code << 6);
            (b >> 6) & 3 == code && (b >> 4) & 3 == (byte >> 4) & 3 && (b >> 2) & 3 == (byte >> 2) & 3
            && b & 3 == byte & 3
  {
  }

  lemma StoredAt4(byte: bv8, code: bv8)
    requires code <= 3 && (byte >> 4) & 3 == 0
    ensures var b := byte | (code << 4);
            (b >> 4) & 3 == code && (b >> 6) & 3 == (byte >> 6) & 3 && (b >> 2) & 3 == (byte >> 2) & 3
            && b & 3 == byte & 3
  {
  }

  lemma StoredAt2(byte: bv8, code: bv8)
    requires code <= 3 && (byte >> 2) & 3 == 0
    ensures var b := byte | (code << 2);
            (b >> 2) & 3 == code && (b >> 6) & 3 == (byte >> 6) & 3 && (b >> 4) & 3 == (byte >> 4) & 3
            && b & 3 == byte & 3
  {
  }

  lemma StoredAt0(byte: bv8, code: bv8)
    requires code <= 3 && byte & 3 == 0
    ensures var b := byte | code;
            b & 3 == code && (b >> 6) & 3 == (byte >> 6) & 3 && (b >> 4) & 3 == (byte >> 4) & 3
            && (b >> 2) & 3 == (byte >> 2) & 3
  {
  }

  // ---- Decoding -----------------------------------------------------------------------------------

  predicate Aligned(packed: seq<bv8>) {
    |packed| % 32 == 0
  }

  function CodeAt(packed: seq<bv8>, i: nat): bv8
    requires Aligned(packed) && i < 4 * |packed|
  {
    ByteInBounds(i, |packed|);
    Code(packed[ByteIndex(i)], Slot(i))
  }

  function Ternary(packed: seq<bv8>, i: nat): (t: int)
    requires Aligned(packed) && i < 4 * |packed|
    ensures -1 <= t <= 1
  {
    Weight(CodeAt(packed, i))
  }

  /** Value `32 * slot + j` of a tile sits in byte `j`, the first slot in the highest two bits: 00 is minus one, 01
      zero, 10 one and 11 zero. */
  lemma TernaryIs(packed: seq<bv8>, tile: nat, slot: nat, j: nat)
    requires Aligned(packed) && tile * 32 + 32 <= |packed| && slot < 4 && j < 32
    ensures 128 * tile + 32 * slot + j < 4 * |packed|
    ensures var byte := packed[32 * tile + j];
            var code := if slot == 0 then byte >> 6
                        else if slot == 1 then (byte >> 4) & 3
                        else if slot == 2 then (byte >> 2) & 3
                        else byte & 3;
            Ternary(packed, 128 * tile + 32 * slot + j) == if code == 0 then -1 else if code == 2 then 1 else 0
  {
    PlaceOf(tile, slot, j);
    TopCode(packed[32 * tile + j]);
  }

  lemma PlaceOf(tile: nat, slot: nat, j: nat)
    requires slot < 4 && j < 32
    ensures ByteIndex(128 * tile + 32 * slot + j) == 32 * tile + j && Slot(128 * tile + 32 * slot + j) == slot
  {
    var within := 32 * slot + j;
    assert within < 128 && within % 32 == j && within / 32 == slot;
    assert (128 * tile + within) / 128 == tile && (128 * tile + within) % 128 == within;
  }

  lemma TopCode(byte: bv8)
    ensures (byte >> 6) & 3 == byte >> 6
  {
  }

  /** The byte 00 01 10 11 holds minus one, zero, one and zero, 32 values apart. */
  lemma ByteDecodes(packed: seq<bv8>)
    requires |packed| == 32 && packed[5] == 0x1B
    ensures Ternary(packed, 5) == -1 && Ternary(packed, 37) == 0
    ensures Ternary(packed, 69) == 1 && Ternary(packed, 101) == 0
  {
    TernaryIs(packed, 0, 0, 5);
    TernaryIs(packed, 0, 1, 5);
    TernaryIs(packed, 0, 2, 5);
    TernaryIs(packed, 0, 3, 5);
  }

  predicate IsTernary(values: seq<int>) {
    forall i | 0 <= i < |values| :: -1 <= values[i] <= 1
  }

  /** The first `n` values are stored and every later place is still empty. */
  ghost predicate EncodedTo(values: seq<int>, packed: seq<bv8>, n: nat) {
    && Aligned(packed) && |values| == 4 * |packed|
    && forall i: nat | i < |values| :: CodeAt(packed, i) == if i < n then CodeOf(values[i]) else 0
  }

  lemma EncodeNext(values: seq<int>, packed: seq<bv8>, n: nat, next: seq<bv8>)
    requires EncodedTo(values, packed, n) && n < |values| && ByteIndex(n) < |packed|
    requires next == packed[ByteIndex(n) := Stored(packed[ByteIndex(n)], Slot(n), CodeOf(values[n]))]
    ensures EncodedTo(values, next, n + 1)
  {
    forall i: nat | i < |values|
      ensures CodeAt(next, i) == if i < n + 1 then CodeOf(values[i]) else 0
    {
      ByteInBounds(i, |packed|);
      assert CodeAt(packed, n) == 0 && CodeAt(packed, i) == if i < n then CodeOf(values[i]) else 0;
      if ByteIndex(i) == ByteIndex(n) {
        StoredCode(packed[ByteIndex(n)], Slot(n), CodeOf(values[n]), Slot(i));
        if Slot(i) == Slot(n) {
          PlaceInjective(i, n);
        }
      }
    }
  }

  /** The encoder; decoding inverts it on every ternary sequence of whole tiles. */
  method Encode(values: seq<int>) returns (packed: seq<bv8>)
    requires |values| % 128 == 0 && IsTernary(values)
    ensures Aligned(packed) && 4 * |packed| == |values|
    ensures forall i: nat | i < |values| :: Ternary(packed, i) == values[i]
  {
    packed := seq(|values| / 4, _ => 0);
    EmptyEncodes(values, packed);
    for i := 0 to |values|
      invariant EncodedTo(values, packed, i)
    {
      ByteInBounds(i, |packed|);
      var next := packed[ByteIndex(i) := Stored(packed[ByteIndex(i)], Slot(i), CodeOf(values[i]))];
      EncodeNext(values, packed, i, next);
      packed := next;
    }
  }

  lemma EmptyCode(byte: bv8, slot: nat)
    requires byte == 0 && slot < 4
    ensures Code(byte, slot) == 0
  {
  }

  lemma WholeTiles(n: nat)
    requires n % 128 == 0
    ensures n / 4 % 32 == 0 && 4 * (n / 4) == n
  {
    var tiles := n / 128;
    assert n == 128 * tiles && n / 4 == 32 * tiles;
  }

  lemma EmptyEncodes(values: seq<int>, packed: seq<bv8>)
    requires |values| % 128 == 0 && |packed| == |values| / 4 && forall i | 0 <= i < |packed| :: packed[i] == 0
    ensures EncodedTo(values, packed, 0)
  {
    WholeTiles(|values|);
    forall i: nat | i < |values|
      ensures CodeAt(packed, i) == 0
    {
      ByteInBounds(i, |packed|);
      EmptyCode(packed[ByteIndex(i)], Slot(i));
    }
  }

  // ---- Validation ---------------------------------------------------------------------------------

  datatype Matrix = Matrix(packed: seq<bv8>, inputWidth: nat, outputRows: nat)

  const USIZE: nat := 0x1_0000_0000_0000_0000

  ghost predicate ValidMatrix(m: Matrix) {
    Aligned(m.packed) && m.inputWidth > 0 && m.outputRows > 0 && 4 * |m.packed| == m.inputWidth * m.outputRows
  }

  /** A whole number of tiles followed by a 32-byte trailer whose first four bytes are a finite scale. */
  predicate WellShaped(bytes: seq<bv8>, elements: nat, isFinite: seq<bv8> -> bool) {
    && elements < USIZE && elements % 128 == 0 && |bytes| == elements / 4 + 32
    && isFinite(bytes[elements / 4..elements / 4 + 4])
  }

  /** `I2SMatrix::new`: accepts exactly the non-zero shapes whose bytes are well shaped. */
  method NewMatrix(bytes: seq<bv8>, inputWidth: nat, outputRows: nat,
                   isFinite: seq<bv8> -> bool) returns (r: Result<Matrix>)
    ensures var elements, packed := inputWidth * outputRows, inputWidth * outputRows / 4;
            r.Ok? <==>
            && inputWidth > 0 && outputRows > 0 && elements < 0x1_0000_0000_0000_0000 && elements % 128 == 0
            && |bytes| == packed + 32 && isFinite(bytes[packed..packed + 4])
    ensures r.Ok? ==> r.value == Matrix(bytes[..|bytes| - 32], inputWidth, outputRows) && ValidMatrix(r.value)
  {
    if inputWidth == 0 || outputRows == 0 {
      return Err;
    }
    var elements := inputWidth * outputRows;
    if !WellShaped(bytes, elements, isFinite) {
      return Err;
    }
    WholeTiles(elements);
    r := Ok(Matrix(bytes[..elements / 4], inputWidth, outputRows));
  }

  /** Every index a kernel touches for a row lies inside the packed bytes. */
  lemma RowInBounds(m: Matrix, row: nat)
    requires ValidMatrix(m) && row < m.outputRows
    ensures row * m.inputWidth + m.inputWidth <= 4 * |m.packed|
  {
    RowEnd(row, m.outputRows, m.inputWidth);
  }

  lemma {:induction false} RowEnd(row: nat, rows: nat, width: nat)
    requires row < rows
    ensures row * width + width <= width * rows
    decreases rows - row
  {
    assert (row + 1) * width == row * width + width;
    if row + 1 < rows {
      RowEnd(row + 1, rows, width);
    }
  }

  // ---- Dot products -------------------------------------------------------------------------------

  /** The reference: the decoded row times the input, over the first `n` columns. */
  ghost function Dot(packed: seq<bv8>, base: nat, input: seq<int>, n: nat): int
    requires Aligned(packed) && n <= |input| && base + n <= 4 * |packed|
  {
    if n == 0 then 0 else Dot(packed, base, input, n - 1) + Ternary(packed, base + n - 1) * input[n - 1]
  }

  /** What a dot product is: an input that is zero outside column `k` gives that column's product, and inputs add up. */
  lemma {:induction false} DotOfColumn(packed: seq<bv8>, base: nat, input: seq<int>, n: nat, k: nat)
    requires Aligned(packed) && k < n <= |input| && base + n <= 4 * |packed|
    requires forall c | 0 <= c < n && c != k :: input[c] == 0
    ensures Dot(packed, base, input, n) == Ternary(packed, base + k) * input[k]
  {
    if n - 1 > k {
      DotOfColumn(packed, base, input, n - 1, k);
      ZeroColumn(packed, base, input, n - 1);
    } else {
      DotOfZeros(packed, base, input, k);
    }
  }

  lemma ZeroColumn(packed: seq<bv8>, base: nat, input: seq<int>, n: nat)
    requires Aligned(packed) && n < |input| && base + n < 4 * |packed| && input[n] == 0
    ensures Dot(packed, base, input, n + 1) == Dot(packed, base, input, n)
  {
    assert Ternary(packed, base + n) * input[n] == 0;
  }

  lemma {:induction false} DotOfZeros(packed: seq<bv8>, base: nat, input: seq<int>, n: nat)
    requires Aligned(packed) && n <= |input| && base + n <= 4 * |packed| && forall c | 0 <= c < n :: input[c] == 0
    ensures Dot(packed, base, input, n) == 0
  {
    if n > 0 {
      DotOfZeros(packed, base, input, n - 1);
      ZeroColumn(packed, base, input, n - 1);
    }
  }

  lemma {:induction false} DotAddsUp(packed: seq<bv8>, base: nat, x: seq<int>, y: seq<int>, sum: seq<int>, n: nat)
    requires Aligned(packed) && |x| == |y| == |sum| && n <= |x| && base + n <= 4 * |packed|
    requires forall c | 0 <= c < |sum| :: sum[c] == x[c] + y[c]
    ensures Dot(packed, base, sum, n) == Dot(packed, base, x, n) + Dot(packed, base, y, n)
  {
    if n > 0 {
      DotAddsUp(packed, base, x, y, sum, n - 1);
      var t := Ternary(packed, base + n - 1);
      assert t * (x[n - 1] + y[n - 1]) == t * x[n - 1] + t * y[n - 1];
    }
  }

  predicate Int8s(input: seq<int>) {
    forall i | 0 <= i < |input| :: -128 <= input[i] <= 127
  }

  /** No partial sum of a row narrower than 2^24 leaves the 32-bit range. */
  lemma {:induction false} DotFits(packed: seq<bv8>, base: nat, input: seq<int>, n: nat)
    requires Aligned(packed) && n <= |input| && base + n <= 4 * |packed| && Int8s(input)
    ensures -128 * n <= Dot(packed, base, input, n) <= 128 * n
  {
    if n > 0 {
      DotFits(packed, base, input, n - 1);
      var t := Ternary(packed, base + n - 1);
      assert t == -1 || t == 0 || t == 1;
    }
  }

  /** The direct kernel, also the tail of the table kernels: columns `from..` one at a time. */
  method DirectDot(packed: seq<bv8>, base: nat, input: seq<int>, from: nat, start: int) returns (sum: int)
    requires Aligned(packed) && base + |input| <= 4 * |packed| && from <= |input|
    requires start == Dot(packed, base, input, from)
    ensures sum == Dot(packed, base, input, |input|)
  {
    sum := start;
    for column := from to |input|
      invariant sum == Dot(packed, base, input, column)
    {
      sum := sum + Ternary(packed, base + column) * input[column];
    }
  }

  /** The nine signed sums of two inputs, indexed by two ternary digits. */
  function PairTable(a: int, b: int): (t: seq<int>)
    ensures |t| == 9
  {
    [-a - b, -a, -a + b, -b, 0, b, a - b, a, a + b]
  }

  lemma PairEntry(a: int, b: int, left: int, right: int)
    requires -1 <= left <= 1 && -1 <= right <= 1
    ensures 0 <= (left + 1) * 3 + (right + 1) < 9
    ensures PairTable(a, b)[(left + 1) * 3 + (right + 1)] == left * a + right * b
  {
    assert left == -1 || left == 0 || left == 1;
    assert right == -1 || right == 0 || right == 1;
  }

  /** The two-weight table kernel. */
  method PairDot(packed: seq<bv8>, base: nat, input: seq<int>) returns (sum: int)
    requires Aligned(packed) && base + |input| <= 4 * |packed|
    ensures sum == Dot(packed, base, input, |input|)
  {
    sum := 0;
    var column := 0;
    while column + 1 < |input|
      invariant column <= |input| && sum == Dot(packed, base, input, column)
    {
      var left, right := Ternary(packed, base + column), Ternary(packed, base + column + 1);
      PairEntry(input[column], input[column + 1], left, right);
      sum := sum + PairTable(input[column], input[column + 1])[(left + 1) * 3 + (right + 1)];
      column := column + 2;
    }
    sum := DirectDot(packed, base, input, column, sum);
  }

  function TripleEntry(i: nat, x: int, y: int, z: int): int {
    (i / 9 - 1) * x + (i / 3 % 3 - 1) * y + (i % 3 - 1) * z
  }

  /** The 27-entry table, filled by three nested loops over the digits. */
  method TripleTable(x: int, y: int, z: int) returns (t: array<int>)
    ensures fresh(t) && t.Length == 27 && forall i | 0 <= i < 27 :: t[i] == TripleEntry(i, x, y, z)
  {
    t := new int[27];
    for a := 0 to 3
      invariant forall i | 0 <= i < 9 * a :: t[i] == TripleEntry(i, x, y, z)
    {
      for b := 0 to 3
        invariant forall i | 0 <= i < 9 * a + 3 * b :: t[i] == TripleEntry(i, x, y, z)
      {
        for c := 0 to 3
          invariant forall i | 0 <= i < 9 * a + 3 * b + c :: t[i] == TripleEntry(i, x, y, z)
        {
          t[a * 9 + b * 3 + c] := (a - 1) * x + (b - 1) * y + (c - 1) * z;
          Digits(a, b, c);
        }
      }
    }
  }

  lemma Digits(a: nat, b: nat, c: nat)
    requires a < 3 && b < 3 && c < 3
    ensures var i := a * 9 + b * 3 + c; 0 <= i < 27 && i / 9 == a && i / 3 % 3 == b && i % 3 == c
  {
    assert (a * 9 + b * 3 + c) / 3 == a * 3 + b;
  }

  lemma TripleEntryIs(d0: int, d1: int, d2: int, x: int, y: int, z: int)
    requires -1 <= d0 <= 1 && -1 <= d1 <= 1 && -1 <= d2 <= 1
    ensures var i := (d0 + 1) * 9 + (d1 + 1) * 3 + (d2 + 1);
            0 <= i < 27 && TripleEntry(i, x, y, z) == d0 * x + d1 * y + d2 * z
  {
    Digits(d0 + 1, d1 + 1, d2 + 1);
  }

  /** The three-weight table kernel. */
  method TripleDot(packed: seq<bv8>, base: nat, input: seq<int>) returns (sum: int)
    requires Aligned(packed) && base + |input| <= 4 * |packed|
    ensures sum == Dot(packed, base, input, |input|)
  {
    sum := 0;
    var column := 0;
    while column + 2 < |input|
      invariant column <= |input| && sum == Dot(packed, base, input, column)
    {
      var i := base + column;
      var d0, d1, d2 := Ternary(packed, i), Ternary(packed, i + 1), Ternary(packed, i + 2);
      var x, y, z := input[column], input[column + 1], input[column + 2];
      var table := TripleTable(x, y, z);
      TripleEntryIs(d0, d1, d2, x, y, z);
      DotThree(packed, base, input, column);
      sum := sum + table[(d0 + 1) * 9 + (d1 + 1) * 3 + (d2 + 1)];
      column := column + 3;
    }
    sum := DirectDot(packed, base, input, column, sum);
  }

  lemma DotThree(packed: seq<bv8>, base: nat, input: seq<int>, n: nat)
    requires Aligned(packed) && n + 3 <= |input| && base + n + 3 <= 4 * |packed|
    ensures Dot(packed, base, input, n + 3)
            == Dot(packed, base, input, n) + (Ternary(packed, base + n) * input[n]
               + Ternary(packed, base + n + 1) * input[n + 1] + Ternary(packed, base + n + 2) * input[n + 2])
  {
    assert Dot(packed, base, input, n + 1) == Dot(packed, base, input, n) + Ternary(packed, base + n) * input[n];
    assert Dot(packed, base, input, n + 2)
           == Dot(packed, base, input, n + 1) + Ternary(packed, base + n + 1) * input[n + 1];
  }

  datatype Mode = Auto | Direct | Tl1 | Tl2

  /** `row_dot` before scaling: every mode gives the dot product with the decoded row. */
  method RowDot(m: Matrix, row: nat, input: seq<int>, mode: Mode) returns (sum: int)
    requires ValidMatrix(m) && row < m.outputRows && |input| == m.inputWidth
    ensures row * m.inputWidth + |input| <= 4 * |m.packed|
    ensures sum == Dot(m.packed, row * m.inputWidth, input, |input|)
  {
    RowInBounds(m, row);
    var base := row * m.inputWidth;
    match mode
    case Tl1 => sum := PairDot(m.packed, base, input);
    case Tl2 => sum := TripleDot(m.packed, base, input);
    case _ => sum := DirectDot(m.packed, base, input, 0, 0);
  }
}
