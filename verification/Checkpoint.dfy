/** Checks on a draft-head checkpoint before use (src/eagle3.rs): the tensors tile the payload, and the
    delta-coded draft vocabulary agrees with its membership mask. */
module Checkpoint {
  import opened Prelude

  const U64: nat := 0x1_0000_0000_0000_0000

  // ---- Tensor sizes ---------------------------------------------------------------------------------

  ghost function Product(shape: seq<nat>): nat {
    if shape == [] then 1 else Product(shape[..|shape| - 1]) * shape[|shape| - 1]
  }

  /** One dimension counts itself, and the dimensions multiply. */
  lemma {:induction false} ProductSplits(d: nat, a: seq<nat>, b: seq<nat>)
    ensures Product([d]) == d && Product(a + b) == Product(a) * Product(b)
    decreases |b|
  {
    assert Product([]) == 1;
    if b == [] {
      assert a + b == a;
    } else {
      var n := |b| - 1;
      ProductSplits(d, a, b[..n]);
      assert (a + b)[..|a + b| - 1] == a + b[..n];
      Regroup(Product(a), Product(b[..n]), b[n]);
    }
  }

  lemma Regroup(x: nat, y: nat, z: nat)
    ensures x * y * z == x * (y * z)
  {
  }

  /** No multiplication on the way overflows 64 bits. */
  ghost predicate SizeFits(shape: seq<nat>, width: nat) {
    && (forall k | 0 <= k <= |shape| :: Product(shape[..k]) <= 0xFFFF_FFFF_FFFF_FFFF)
    && Product(shape) * width <= 0xFFFF_FFFF_FFFF_FFFF
  }

  /** `tensor_bytes`. */
  method TensorBytes(shape: seq<nat>, width: nat) returns (r: Result<nat>)
    ensures r.Ok? <==> SizeFits(shape, width)
    ensures r.Ok? ==> r.value == Product(shape) * width
  {
    var elements := 1;
    for i := 0 to |shape|
      invariant elements == Product(shape[..i])
      invariant forall k | 0 <= k <= i :: Product(shape[..k]) < U64
    {
      assert shape[..i + 1][..i] == shape[..i];
      elements := elements * shape[i];
      assert elements == Product(shape[..i + 1]);
      if elements >= U64 {
        return Err;
      }
    }
    assert shape[..|shape|] == shape;
    if elements * width >= U64 {
      return Err;
    }
    r := Ok(elements * width);
  }

  // ---- Tiling ---------------------------------------------------------------------------------------

  datatype Spec = Spec(shape: seq<nat>, width: nat)

  datatype Range = Range(start: nat, end: nat)

  ghost predicate Covers(ranges: seq<Range>, i: nat, o: nat) {
    i < |ranges| && ranges[i].start <= o < ranges[i].end
  }

  ghost predicate Covered(ranges: seq<Range>, o: nat) {
    exists i: nat :: Covers(ranges, i, o)
  }

  /** Every payload offset lies in exactly one range, and no range leaves the payload. */
  ghost predicate Tiles(ranges: seq<Range>, payload: nat) {
    && (forall i | 0 <= i < |ranges| :: ranges[i].start <= ranges[i].end <= payload)
    && (forall o: nat | o < payload :: Covered(ranges, o))
    && (forall i: nat, j: nat, o: nat | Covers(ranges, i, o) && Covers(ranges, j, o) :: i == j)
  }

  /** Where the cursor stands before the `k`-th range in order. */
  ghost function Cursor(ranges: seq<Range>, order: seq<nat>, k: nat): nat
    requires k <= |order| && forall j | 0 <= j < |order| :: order[j] < |ranges|
  {
    if k == 0 then 0 else ranges[order[k - 1]].end
  }

  /** The ranges in order of their starts, each index once. */
  ghost predicate ByStart(ranges: seq<Range>, order: seq<nat>) {
    && Permutes(order, |ranges|)
    && (forall j, k | 0 <= j < k < |order| :: ranges[order[j]].start <= ranges[order[k]].start)
  }

  ghost predicate Contiguous(ranges: seq<Range>, order: seq<nat>, n: nat)
    requires n <= |order| && forall j | 0 <= j < |order| :: order[j] < |ranges|
  {
    forall k: nat | k < n :: StartsAtCursor(ranges, order, k)
  }

  ghost predicate StartsAtCursor(ranges: seq<Range>, order: seq<nat>, k: nat)
    requires forall j | 0 <= j < |order| :: order[j] < |ranges|
  {
    k < |order| && ranges[order[k]].start == Cursor(ranges, order, k)
  }

  ghost predicate Ascend(ranges: seq<Range>) {
    forall i | 0 <= i < |ranges| :: ranges[i].start <= ranges[i].end
  }

  /** The cursor only moves forward. */
  lemma {:induction false} CursorGrows(ranges: seq<Range>, order: seq<nat>, j: nat, k: nat)
    requires ByStart(ranges, order) && Ascend(ranges) && j <= k <= |order| && Contiguous(ranges, order, k)
    ensures Cursor(ranges, order, j) <= Cursor(ranges, order, k)
    decreases k - j
  {
    if j < k {
      CursorGrows(ranges, order, j, k - 1);
      assert StartsAtCursor(ranges, order, k - 1);
    }
  }

  /** Every offset below the cursor has been passed by some range. */
  lemma {:induction false} CursorCovers(ranges: seq<Range>, order: seq<nat>, k: nat, o: nat) returns (j: nat)
    requires ByStart(ranges, order) && k <= |order| && Contiguous(ranges, order, k) && o < Cursor(ranges, order, k)
    ensures j < k && Covers(ranges, order[j], o)
  {
    assert StartsAtCursor(ranges, order, k - 1);
    if o < Cursor(ranges, order, k - 1) {
      j := CursorCovers(ranges, order, k - 1, o);
    } else {
      j := k - 1;
    }
  }

  lemma CoveredOnce(ranges: seq<Range>, order: seq<nat>, a: nat, b: nat, o: nat)
    requires ByStart(ranges, order) && Ascend(ranges) && Contiguous(ranges, order, |order|)
    requires a < b < |order| && Covers(ranges, order[a], o)
    ensures !Covers(ranges, order[b], o)
  {
    CursorGrows(ranges, order, a + 1, b);
    assert StartsAtCursor(ranges, order, b);
  }

  lemma ContiguousTiles(ranges: seq<Range>, order: seq<nat>, payload: nat)
    requires ByStart(ranges, order) && Ascend(ranges) && Contiguous(ranges, order, |order|)
    requires Cursor(ranges, order, |order|) == payload
    ensures Tiles(ranges, payload)
  {
    forall i: nat | i < |ranges|
      ensures ranges[i].end <= payload
    {
      assert i in order;
      var k :| 0 <= k < |order| && order[k] == i;
      CursorGrows(ranges, order, k + 1, |order|);
    }
    forall o: nat | o < payload
      ensures Covered(ranges, o)
    {
      var j := CursorCovers(ranges, order, |order|, o);
    }
    forall i: nat, j: nat, o: nat | Covers(ranges, i, o) && Covers(ranges, j, o)
      ensures i == j
    {
      assert i in order && j in order;
      var a: nat, b: nat :| a < |order| && b < |order| && order[a] == i && order[b] == j;
      if a < b {
        CoveredOnce(ranges, order, a, b, o);
      } else if b < a {
        CoveredOnce(ranges, order, b, a, o);
      }
    }
  }

  ghost predicate NonEmpty(ranges: seq<Range>) {
    forall i | 0 <= i < |ranges| :: ranges[i].start < ranges[i].end
  }

  /** In a tiling by non-empty ranges no offset is left behind at any place of the order. */
  lemma {:induction false} TilesContiguous(ranges: seq<Range>, order: seq<nat>, payload: nat, k: nat)
    requires ByStart(ranges, order) && NonEmpty(ranges) && Tiles(ranges, payload) && k <= |order|
    ensures Contiguous(ranges, order, k)
  {
    if k > 0 {
      TilesContiguous(ranges, order, payload, k - 1);
      NextStartsAtCursor(ranges, order, payload, k - 1);
    }
  }

  lemma NextStartsAtCursor(ranges: seq<Range>, order: seq<nat>, payload: nat, k: nat)
    requires ByStart(ranges, order) && NonEmpty(ranges) && Tiles(ranges, payload) && k < |order|
    requires Contiguous(ranges, order, k)
    ensures StartsAtCursor(ranges, order, k)
  {
    var cursor, next := Cursor(ranges, order, k), ranges[order[k]];
    if k > 0 {
      NotTwice(ranges, payload, order[k], order[k - 1], next.start);
    }
    if next.start > cursor {
      UncoveredAtCursor(ranges, order, k, cursor);
    }
  }

  lemma NotTwice(ranges: seq<Range>, payload: nat, i: nat, j: nat, at: nat)
    requires Tiles(ranges, payload) && i < |ranges| && j < |ranges| && i != j && Covers(ranges, i, at)
    ensures !Covers(ranges, j, at)
  {
  }

  lemma UncoveredAtCursor(ranges: seq<Range>, order: seq<nat>, k: nat, cursor: nat)
    requires ByStart(ranges, order) && Ascend(ranges) && k <= |order| && Contiguous(ranges, order, k)
    requires cursor == Cursor(ranges, order, k) && (k < |order| ==> ranges[order[k]].start > cursor)
    ensures !Covered(ranges, cursor)
  {
    forall i: nat
      ensures !Covers(ranges, i, cursor)
    {
      if i < |ranges| {
        assert i in order;
        var j: nat :| j < |order| && order[j] == i;
        if j < k {
          CursorGrows(ranges, order, j + 1, k);
        }
      }
    }
  }

  /** The sort-and-cursor walk accepts non-empty ranges exactly when they tile the payload. */
  lemma WalkAcceptsIff(ranges: seq<Range>, order: seq<nat>, payload: nat)
    requires ByStart(ranges, order) && NonEmpty(ranges)
    ensures Contiguous(ranges, order, |order|) && Cursor(ranges, order, |order|) == payload <==> Tiles(ranges, payload)
  {
    if Contiguous(ranges, order, |order|) && Cursor(ranges, order, |order|) == payload {
      ContiguousTiles(ranges, order, payload);
    }
    if Tiles(ranges, payload) {
      TilesContiguous(ranges, order, payload, |order|);
      var cursor := Cursor(ranges, order, |order|);
      UncoveredAtCursor(ranges, order, |order|, cursor);
      assert cursor <= payload;
    }
  }

  function StartOrder(ranges: seq<Range>): (nat, nat) -> bool {
    (a: nat, b: nat) =>
      a < |ranges| && b < |ranges|
      && (ranges[a].start < ranges[b].start || (ranges[a].start == ranges[b].start && a < b))
  }

  lemma StartOrderTotal(ranges: seq<Range>)
    ensures StrictTotalOn(StartOrder(ranges), Indices(|ranges|))
  {
    IndicesMembers(|ranges|);
  }

  function SortByStart(ranges: seq<Range>): (order: seq<nat>)
    ensures ByStart(ranges, order)
  {
    var less := StartOrder(ranges);
    StartOrderTotal(ranges);
    SortedIndices(less, |ranges|);
    var order := SortBy(less, Indices(|ranges|));
    assert forall i, j | 0 <= i < j < |order| :: less(order[i], order[j]);
    order
  }

  /** Each range ascends, stays in the payload and has its tensor's size. */
  ghost predicate SizedAt(specs: seq<Spec>, ranges: seq<Range>, payload: nat, i: nat) {
    && i < |specs| && i < |ranges|
    && ranges[i].start <= ranges[i].end <= payload
    && SizeFits(specs[i].shape, specs[i].width)
    && ranges[i].end - ranges[i].start == Product(specs[i].shape) * specs[i].width
  }

  ghost predicate Sized(specs: seq<Spec>, ranges: seq<Range>, payload: nat) {
    forall i: nat | i < |specs| :: SizedAt(specs, ranges, payload, i)
  }

  /** The range part of `parse_and_validate_header`, one range per pinned tensor. */
  method ValidateRanges(specs: seq<Spec>, ranges: seq<Range>, payload: nat) returns (ok: bool)
    requires |specs| == |ranges|
    ensures ok ==> Sized(specs, ranges, payload) && Tiles(ranges, payload)
    ensures NonEmpty(ranges) ==> (ok <==> Sized(specs, ranges, payload) && Tiles(ranges, payload))
  {
    for i := 0 to |specs|
      invariant forall k: nat | k < i :: SizedAt(specs, ranges, payload, k)
    {
      var bad := ranges[i].start > ranges[i].end || ranges[i].end > payload;
      var expected := TensorBytes(specs[i].shape, specs[i].width);
      if bad || expected.Err? || ranges[i].end - ranges[i].start != expected.value {
        assert !SizedAt(specs, ranges, payload, i);
        return false;
      }
      assert SizedAt(specs, ranges, payload, i);
    }
    assert forall i: nat | i < |ranges| :: SizedAt(specs, ranges, payload, i) && ranges[i].start <= ranges[i].end;
    ok := Walk(ranges, payload);
  }

  method Walk(ranges: seq<Range>, payload: nat) returns (ok: bool)
    requires Ascend(ranges)
    ensures ok ==> Tiles(ranges, payload)
    ensures NonEmpty(ranges) ==> (ok <==> Tiles(ranges, payload))
  {
    var order := SortByStart(ranges);
    ok := WalkInOrder(ranges, order, payload);
    if NonEmpty(ranges) {
      WalkAcceptsIff(ranges, order, payload);
    }
    if ok {
      ContiguousTiles(ranges, order, payload);
    }
  }

  method WalkInOrder(ranges: seq<Range>, order: seq<nat>, payload: nat) returns (ok: bool)
    requires ByStart(ranges, order)
    ensures ok <==> Contiguous(ranges, order, |order|) && Cursor(ranges, order, |order|) == payload
  {
    var cursor := 0;
    for k := 0 to |order|
      invariant cursor == Cursor(ranges, order, k) && Contiguous(ranges, order, k)
    {
      if ranges[order[k]].start != cursor {
        assert !StartsAtCursor(ranges, order, k);
        return false;
      }
      assert StartsAtCursor(ranges, order, k);
      cursor := ranges[order[k]].end;
    }
    ok := cursor == payload;
  }

  // ---- The draft vocabulary -------------------------------------------------------------------------

  /** Row `i` of the delta-coded map names target token `deltas[i] + i`. */
  ghost predicate TokenOk(deltas: seq<int>, target: nat, i: nat) {
    i < |deltas| && 0 <= deltas[i] + i < target
  }

  ghost predicate InjectiveTo(deltas: seq<int>, n: nat) {
    forall i: nat, j: nat | i < j < n && j < |deltas| :: deltas[i] + i != deltas[j] + j
  }

  /** Row `k` is in range and decoded. */
  ghost predicate DecodedAt(deltas: seq<int>, target: nat, absolute: seq<nat>, k: nat) {
    TokenOk(deltas, target, k) && k < |absolute| && absolute[k] == deltas[k] + k
  }

  lemma DecodesOn(deltas: seq<int>, target: nat, absolute: seq<nat>, token: nat)
    requires |absolute| < |deltas| && InjectiveTo(deltas, |absolute|)
    requires token == deltas[|absolute|] + |absolute| < target && token !in absolute
    requires forall k: nat | k < |absolute| :: DecodedAt(deltas, target, absolute, k)
    ensures InjectiveTo(deltas, |absolute| + 1)
    ensures var next := absolute + [token]; forall k: nat | k < |next| :: DecodedAt(deltas, target, next, k)
  {
    var next := absolute + [token];
    forall k: nat | k < |next|
      ensures DecodedAt(deltas, target, next, k)
    {
      assert k < |absolute| ==> DecodedAt(deltas, target, absolute, k);
    }
    forall i: nat | i < |absolute|
      ensures deltas[i] + i != token
    {
      assert DecodedAt(deltas, target, absolute, i) && absolute[i] in absolute;
    }
  }

  lemma AllDecoded(deltas: seq<int>, target: nat, absolute: seq<nat>)
    requires |absolute| == |deltas| && InjectiveTo(deltas, |deltas|)
    requires forall k: nat | k < |deltas| :: DecodedAt(deltas, target, absolute, k)
    ensures IsMap(deltas, absolute, target) && forall i: nat | i < |deltas| :: TokenOk(deltas, target, i)
  {
    forall i: nat | i < |deltas|
      ensures TokenOk(deltas, target, i) && absolute[i] < target && absolute[i] == deltas[i] + i
    {
      assert DecodedAt(deltas, target, absolute, i);
    }
  }

  /** Ids are stored as 32-bit words. */
  function Narrow(token: int): nat {
    token % 0x1_0000_0000
  }

  ghost predicate NarrowedAt(deltas: seq<int>, narrowed: seq<nat>, k: nat) {
    k < |deltas| && k < |narrowed| && narrowed[k] == (deltas[k] + k) % 0x1_0000_0000
  }

  /** What is stored of an accepted map is that map exactly when all its ids have 32 bits. */
  lemma NarrowedIsMapIff(deltas: seq<int>, target: nat, narrowed: seq<nat>)
    requires InjectiveTo(deltas, |deltas|) && forall i: nat | i < |deltas| :: TokenOk(deltas, target, i)
    requires |narrowed| == |deltas| && forall k: nat | k < |deltas| :: NarrowedAt(deltas, narrowed, k)
    ensures InDomain(narrowed, target)
    ensures IsMap(deltas, narrowed, target) <==> forall i | 0 <= i < |deltas| :: deltas[i] + i < 0x1_0000_0000
  {
    forall i: nat | i < |deltas|
      ensures narrowed[i] < target && (narrowed[i] == deltas[i] + i <==> deltas[i] + i < 0x1_0000_0000)
    {
      assert TokenOk(deltas, target, i) && NarrowedAt(deltas, narrowed, i);
    }
  }

  lemma NarrowsOn(deltas: seq<int>, narrowed: seq<nat>, word: nat)
    requires |narrowed| < |deltas| && word == Narrow(deltas[|narrowed|] + |narrowed|)
    requires forall k: nat | k < |narrowed| :: NarrowedAt(deltas, narrowed, k)
    ensures var next := narrowed + [word]; forall k: nat | k < |next| :: NarrowedAt(deltas, next, k)
  {
    var next := narrowed + [word];
    forall k: nat | k < |next|
      ensures NarrowedAt(deltas, next, k)
    {
      assert k < |narrowed| ==> NarrowedAt(deltas, narrowed, k);
    }
  }

  lemma SmallTargetIsMap(deltas: seq<int>, target: nat, narrowed: seq<nat>)
    requires InjectiveTo(deltas, |deltas|) && forall i: nat | i < |deltas| :: TokenOk(deltas, target, i)
    requires |narrowed| == |deltas| && forall k: nat | k < |deltas| :: NarrowedAt(deltas, narrowed, k)
    ensures InDomain(narrowed, target) && (target <= 0x1_0000_0000 ==> IsMap(deltas, narrowed, target))
  {
    NarrowedIsMapIff(deltas, target, narrowed);
    forall i: nat | i < |deltas|
      ensures deltas[i] + i < target
    {
      assert TokenOk(deltas, target, i);
    }
  }

  /** `decode_d2t`, on the decoded 32-bit deltas: accepts exactly an injection into the target vocabulary, and
      stores it faithfully in any vocabulary of 32-bit ids. */
  method DecodeD2t(deltas: seq<int>, draft: nat, target: nat) returns (r: Result<seq<nat>>)
    ensures r.Ok? <==>
            && |deltas| == draft && (forall i: nat | i < |deltas| :: TokenOk(deltas, target, i))
            && InjectiveTo(deltas, |deltas|)
    ensures r.Ok? ==> |r.value| == |deltas| && forall k: nat | k < |deltas| :: NarrowedAt(deltas, r.value, k)
    ensures r.Ok? ==> InDomain(r.value, target)
    ensures r.Ok? && target <= 0x1_0000_0000 ==> IsMap(deltas, r.value, target)
  {
    if |deltas| != draft {
      return Err;
    }
    var seen := new bool[target](_ => false);
    var narrowed: seq<nat> := [];
    ghost var absolute: seq<nat> := [];
    for i := 0 to |deltas|
      invariant |absolute| == |narrowed| == i && InjectiveTo(deltas, i)
      invariant forall k: nat | k < i :: NarrowedAt(deltas, narrowed, k)
      invariant forall k: nat | k < i :: DecodedAt(deltas, target, absolute, k)
      invariant forall t: nat | t < target :: seen[t] <==> t in absolute
    {
      var token := deltas[i] + i;
      if token < 0 || token >= target {
        assert !TokenOk(deltas, target, i);
        return Err;
      }
      if seen[token] {
        ghost var k: nat :| k < i && absolute[k] == token;
        assert DecodedAt(deltas, target, absolute, k);
        return Err;
      }
      DecodesOn(deltas, target, absolute, token);
      seen[token] := true;
      NarrowsOn(deltas, narrowed, Narrow(token));
      absolute, narrowed := absolute + [token], narrowed + [Narrow(token)];
    }
    AllDecoded(deltas, target, absolute);
    SmallTargetIsMap(deltas, target, narrowed);
    r := Ok(narrowed);
  }

  ghost predicate IsMap(deltas: seq<int>, map_: seq<nat>, target: nat) {
    && |map_| == |deltas| && InDomain(map_, target) && Distinct(map_)
    && forall i | 0 <= i < |map_| :: map_[i] == deltas[i] + i
  }

  ghost predicate InDomain(map_: seq<nat>, target: nat) {
    forall i | 0 <= i < |map_| :: map_[i] < target
  }

  // ---- The membership mask --------------------------------------------------------------------------

  ghost function Marked(mask: seq<bool>): set<nat> {
    set t: nat | t < |mask| && mask[t]
  }

  ghost function Image(map_: seq<nat>): set<nat> {
    set i | 0 <= i < |map_| :: map_[i]
  }

  function CountMarks(mask: seq<bool>): nat {
    if mask == [] then 0
    else CountMarks(mask[..|mask| - 1]) + if mask[|mask| - 1] then 1 else 0
  }

  lemma {:induction false} CountIsCardinality(mask: seq<bool>)
    ensures CountMarks(mask) == |Marked(mask)|
  {
    if mask != [] {
      var n := |mask| - 1;
      CountIsCardinality(mask[..n]);
      assert Marked(mask) == Marked(mask[..n]) + if mask[n] then {n} else {};
    }
  }

  lemma {:induction false} ImageCardinality(map_: seq<nat>)
    requires Distinct(map_)
    ensures |Image(map_)| == |map_|
  {
    if map_ != [] {
      var n := |map_| - 1;
      ImageCardinality(map_[..n]);
      assert Image(map_) == Image(map_[..n]) + {map_[n]};
      assert map_[n] !in Image(map_[..n]);
    }
  }

  /** What the check establishes of a decoded mask: as many marks as draft rows, and each row marked. */
  ghost predicate Agrees(mask: seq<bool>, map_: seq<nat>) {
    CountMarks(mask) == |map_| && forall i | 0 <= i < |map_| :: map_[i] < |mask| && mask[map_[i]]
  }

  /** For an injective in-range map, that pair of one-way tests holds exactly when the mask marks the
      map's image and nothing else. */
  lemma MaskIsImageIff(mask: seq<bool>, map_: seq<nat>)
    requires Distinct(map_) && InDomain(map_, |mask|)
    ensures Agrees(mask, map_) <==> Marked(mask) == Image(map_)
  {
    CountIsCardinality(mask);
    ImageCardinality(map_);
    if Agrees(mask, map_) {
      assert Image(map_) <= Marked(mask);
      SubsetCardinality(Image(map_), Marked(mask));
    }
    if Marked(mask) == Image(map_) {
      forall i | 0 <= i < |map_|
        ensures mask[map_[i]]
      {
        assert map_[i] in Image(map_);
      }
    }
  }

  ghost predicate Boolean(bytes: seq<nat>, n: nat) {
    forall t: nat | t < n && t < |bytes| :: bytes[t] <= 1
  }

  /** `decode_and_validate_t2d`. */
  method DecodeT2d(bytes: seq<nat>, target: nat, map_: seq<nat>) returns (r: Result<seq<bool>>)
    requires InDomain(map_, target)
    ensures r.Ok? <==> |bytes| == target && Boolean(bytes, target) && Agrees(AsMask(bytes), map_)
    ensures r.Ok? ==> r.value == AsMask(bytes)
  {
    if |bytes| != target {
      return Err;
    }
    var mask := [];
    for t := 0 to target
      invariant |mask| == t && Boolean(bytes, t) && forall k | 0 <= k < t :: mask[k] == (bytes[k] == 1)
    {
      if bytes[t] > 1 {
        return Err;
      }
      mask := mask + [bytes[t] == 1];
    }
    assert mask == AsMask(bytes);
    if CountMarks(mask) != |map_| {
      return Err;
    }
    for i := 0 to |map_|
      invariant forall k | 0 <= k < i :: mask[map_[k]]
    {
      if !mask[map_[i]] {
        return Err;
      }
    }
    r := Ok(mask);
  }

  ghost function AsMask(bytes: seq<nat>): (mask: seq<bool>)
    ensures |mask| == |bytes| && forall t | 0 <= t < |bytes| :: mask[t] == (bytes[t] == 1)
  {
    seq(|bytes|, t requires 0 <= t < |bytes| => bytes[t] == 1)
  }

  /** Some row maps to target token `t`. */
  ghost predicate Named(deltas: seq<int>, t: nat) {
    exists i: nat :: i < |deltas| && deltas[i] + i == t
  }

  /** Every byte says whether its token is named. */
  ghost predicate Marks(deltas: seq<int>, bytes: seq<nat>) {
    forall t: nat | t < |bytes| :: MarkedAt(deltas, bytes, t)
  }

  ghost predicate MarkedAt(deltas: seq<int>, bytes: seq<nat>, t: nat) {
    t < |bytes| && bytes[t] == if Named(deltas, t) then 1 else 0
  }

  /** The mask check passes exactly when the bytes are the ones and zeros of the map's image. */
  lemma MarksIff(deltas: seq<int>, bytes: seq<nat>, target: nat, map_: seq<nat>)
    requires IsMap(deltas, map_, target) && |bytes| == target
    ensures Boolean(bytes, target) && Agrees(AsMask(bytes), map_) <==> Marks(deltas, bytes)
  {
    var mask := AsMask(bytes);
    MaskIsImageIff(mask, map_);
    forall t: nat
      ensures t in Image(map_) <==> Named(deltas, t)
    {
      if i: nat :| i < |deltas| && deltas[i] + i == t {
        assert map_[i] == t;
      }
    }
    if Boolean(bytes, target) && Agrees(mask, map_) {
      forall t: nat | t < |bytes|
        ensures MarkedAt(deltas, bytes, t)
      {
        assert t in Marked(mask) <==> t in Image(map_);
      }
    }
    if Marks(deltas, bytes) {
      forall t: nat | t < target
        ensures bytes[t] <= 1 && (t in Marked(mask) <==> t in Image(map_))
      {
        assert MarkedAt(deltas, bytes, t);
      }
      assert Marked(mask) == Image(map_);
    }
  }

  /** Every row names a target token, and no two rows the same. */
  ghost predicate Names(deltas: seq<int>, target: nat) {
    && (forall i | 0 <= i < |deltas| :: 0 <= deltas[i] + i < target)
    && forall i, j | 0 <= i < j < |deltas| :: deltas[i] + i != deltas[j] + j
  }

  lemma NamesIff(deltas: seq<int>, target: nat)
    ensures Names(deltas, target)
            <==> (forall i: nat | i < |deltas| :: TokenOk(deltas, target, i)) && InjectiveTo(deltas, |deltas|)
  {
    if forall i: nat | i < |deltas| :: TokenOk(deltas, target, i) {
      forall i | 0 <= i < |deltas|
        ensures 0 <= deltas[i] + i < target
      {
        assert TokenOk(deltas, target, i);
      }
    }
  }

  /** Both decoders in sequence. On a vocabulary of 32-bit ids they succeed exactly when every row names a token of
      its own and the bytes are ones at the named tokens and zeros elsewhere; the map is then that injection and the
      mask marks exactly its image. */
  method DecodeVocabulary(deltas: seq<int>, bytes: seq<nat>, draft: nat, target: nat)
    returns (r: Result<(seq<nat>, seq<bool>)>)
    ensures target <= 0x1_0000_0000 ==>
              (r.Ok? <==> |deltas| == draft && |bytes| == target && Names(deltas, target) && Marks(deltas, bytes))
    ensures r.Ok? ==>
              && |deltas| == |r.value.0| == draft && |bytes| == |r.value.1| == target && Names(deltas, target)
              && (forall t | 0 <= t < target :: r.value.1[t] <==> bytes[t] == 1)
              && (target <= 0x1_0000_0000 ==>
                    IsMap(deltas, r.value.0, target) && Marked(r.value.1) == Image(r.value.0))
  {
    NamesIff(deltas, target);
    var d2t := DecodeD2t(deltas, draft, target);
    if d2t.Err? {
      return Err;
    }
    var t2d := DecodeT2d(bytes, target, d2t.value);
    if target <= 0x1_0000_0000 && |bytes| == target {
      MarksIff(deltas, bytes, target, d2t.value);
    }
    if t2d.Err? {
      return Err;
    }
    if target <= 0x1_0000_0000 {
      MaskIsImageIff(t2d.value, d2t.value);
    }
    r := Ok((d2t.value, t2d.value));
  }
}
