/** Target-authoritative updates of the draft head: eager after every verify round, or queued and
    materialized once (src/eagle3_runtime.rs, src/metal.rs). */
module Catchup {
  import opened Prelude
  import opened TokenTree
  import opened Frontier
  import opened DraftCursor

  const TAPS := 3
  const AUX_WIDTH := 9216   // three taps of the hidden width
  const USIZE_MAX := 0xFFFF_FFFF_FFFF_FFFF

  /** A rank-2 capture, row-major. */
  datatype Tensor = Tensor(rows: nat, width: nat, data: seq<real>)

  predicate Shaped(t: Tensor) {
    |t.data| == t.rows * t.width
  }

  // ---- Interleaving the three taps ----------------------------------------------------------

  predicate Captures(captures: seq<Tensor>) {
    && |captures| == TAPS
    && forall t | t in captures :: Shaped(t) && t.rows == captures[0].rows && t.width == HIDDEN_SIZE
  }

  function TapRow(t: Tensor, row: nat): (v: Vec)
    requires Shaped(t) && t.width == HIDDEN_SIZE && row < t.rows
    ensures |v| == HIDDEN_SIZE
  {
    t.data[row * HIDDEN_SIZE..row * HIDDEN_SIZE + HIDDEN_SIZE]
  }

  /** One encoder row: the low, middle and high taps of the same target row, side by side. */
  function FeatureRow(captures: seq<Tensor>, row: nat): (v: Vec)
    requires Captures(captures) && row < captures[0].rows
    ensures |v| == AUX_WIDTH
  {
    TapRow(captures[0], row) + TapRow(captures[1], row) + TapRow(captures[2], row)
  }

  /** A flat feature buffer as its rows. */
  ghost function Rows(features: seq<real>): (r: seq<Vec>)
    requires |features| % AUX_WIDTH == 0
    ensures |r| == |features| / AUX_WIDTH
  {
    if features == [] then []
    else
      var n := |features| - AUX_WIDTH;
      Rows(features[..n]) + [features[n..]]
  }

  lemma RowsSnoc(a: seq<real>, row: Vec)
    requires |a| % AUX_WIDTH == 0 && |row| == AUX_WIDTH
    ensures |a + row| % AUX_WIDTH == 0 && Rows(a + row) == Rows(a) + [row]
  {
    assert (a + row)[..|a|] == a && (a + row)[|a|..] == row;
  }

  lemma {:induction false} RowsAppend(a: seq<real>, b: seq<real>)
    requires |a| % AUX_WIDTH == 0 && |b| % AUX_WIDTH == 0
    ensures |a + b| % AUX_WIDTH == 0 && Rows(a + b) == Rows(a) + Rows(b)
    decreases |b|
  {
    if b == [] {
      assert a + b == a;
    } else {
      var n := |b| - AUX_WIDTH;
      RowsAppend(a, b[..n]);
      RowsSnoc(a + b[..n], b[n..]);
      assert a + b == (a + b[..n]) + b[n..];
    }
  }

  lemma WidthArithmetic(len: nat, n: nat)
    requires len % AUX_WIDTH == 0 && n <= len / AUX_WIDTH
    ensures n * AUX_WIDTH <= len
    ensures (n * AUX_WIDTH) % AUX_WIDTH == 0 && (n * AUX_WIDTH) / AUX_WIDTH == n
  {
  }

  lemma {:induction false} RowsPrefix(features: seq<real>, k: nat)
    requires |features| % AUX_WIDTH == 0 && k % AUX_WIDTH == 0 && k <= |features|
    ensures Rows(features[..k]) == Rows(features)[..k / AUX_WIDTH]
    decreases |features|
  {
    if k == |features| {
      assert features[..k] == features;
    } else {
      var n := |features| - AUX_WIDTH;
      RowsPrefix(features[..n], k);
      assert features[..n][..k] == features[..k];
      assert Rows(features) == Rows(features[..n]) + [features[n..]];
    }
  }

  /** `interleave_target_layer_inputs`: `[tap][row][hidden]` to `[row][tap || tap || tap]`. */
  method Interleave(captures: seq<Tensor>) returns (r: Result<seq<real>>)
    requires forall t | t in captures :: Shaped(t)
    ensures r.Ok? <==> Captures(captures)
    ensures r.Ok? <==>
            |captures| == 3 && forall t | t in captures :: t.rows == captures[0].rows && t.width == 3072
    ensures r.Ok? ==>
              && |r.value| % AUX_WIDTH == 0 && |Rows(r.value)| == captures[0].rows
              && forall i | 0 <= i < captures[0].rows :: Rows(r.value)[i] == FeatureRow(captures, i)
  {
    if |captures| != TAPS
       || exists t | t in captures :: t.rows != captures[0].rows || t.width != HIDDEN_SIZE {
      return Err;
    }
    var features := [];
    for row := 0 to captures[0].rows
      invariant |features| % AUX_WIDTH == 0 && Rows(features) == FirstRows(captures, row)
    {
      RowsSnoc(features, FeatureRow(captures, row));
      features := AppendTaps(captures, row, features);
    }
    FirstRowsIndex(captures, captures[0].rows);
    r := Ok(features);
  }

  /** Number by number: row `i` of the buffer has 9216 places, 3072 for each tap in turn. */
  lemma InterleavedNumber(captures: seq<Tensor>, features: seq<real>, i: nat, tap: nat, h: nat)
    requires Captures(captures) && |features| % 9216 == 0 && |Rows(features)| == captures[0].rows
    requires i < captures[0].rows && Rows(features)[i] == FeatureRow(captures, i) && tap < 3 && h < 3072
    ensures |captures| == 3 && i * 3072 + h < |captures[tap].data| && i * 9216 + tap * 3072 + h < |features|
    ensures features[i * 9216 + tap * 3072 + h] == captures[tap].data[i * 3072 + h]
  {
    RowAt(features, i);
    ShapedRow(captures[tap], i);
    assert features[i * 9216..i * 9216 + 9216][tap * 3072 + h] == FeatureRow(captures, i)[tap * 3072 + h];
    assert FeatureRow(captures, i)[tap * 3072 + h] == TapRow(captures[tap], i)[h];
  }

  lemma ShapedRow(t: Tensor, row: nat)
    requires Shaped(t) && t.width == 3072 && row < t.rows
    ensures row * 3072 + 3072 <= |t.data|
  {
  }

  /** The inner loop: one row of each tap in turn. */
  method AppendTaps(captures: seq<Tensor>, row: nat, before: seq<real>) returns (features: seq<real>)
    requires Captures(captures) && row < captures[0].rows
    ensures features == before + FeatureRow(captures, row)
  {
    features := before;
    for tap := 0 to TAPS
      invariant tap == 0 ==> features == before
      invariant tap == 1 ==> features == before + TapRow(captures[0], row)
      invariant tap == 2 ==> features == before + (TapRow(captures[0], row) + TapRow(captures[1], row))
      invariant tap == 3 ==> features == before + FeatureRow(captures, row)
    {
      features := features + TapRow(captures[tap], row);
    }
  }

  ghost function FirstRows(captures: seq<Tensor>, n: nat): (r: seq<Vec>)
    requires Captures(captures) && n <= captures[0].rows
    ensures |r| == n
  {
    if n == 0 then [] else FirstRows(captures, n - 1) + [FeatureRow(captures, n - 1)]
  }

  lemma {:induction false} FirstRowsIndex(captures: seq<Tensor>, n: nat)
    requires Captures(captures) && n <= captures[0].rows
    ensures forall i | 0 <= i < n :: FirstRows(captures, n)[i] == FeatureRow(captures, i)
  {
    if n > 0 {
      FirstRowsIndex(captures, n - 1);
    }
  }

  // ---- The head after authoritative rows ------------------------------------------------------

  /** The head with its feature-fusion projection, which acts row by row. */
  datatype Eagle = Eagle(head: HeadModel, fuse: Vec -> Vec)

  datatype HeadState = HeadState(cells: seq<Cell>, seed: Option<Output>)

  /** The rows accepted tokens add: token `i` with the target features at its own position. */
  ghost function Extend(e: Eagle, cells: seq<Cell>, tokens: seq<Token>, rows: seq<Vec>): (r: seq<Cell>)
    requires |tokens| == |rows|
    ensures |r| == |cells| + |tokens|
  {
    if tokens == [] then cells
    else
      var n := |tokens| - 1;
      var c := Extend(e, cells, tokens[..n], rows[..n]);
      c + [e.head.cell(e.head.embed(tokens[n]), e.fuse(rows[n]), |c|)]
  }

  /** The newest row's output, which predicts the first token of the next round. */
  ghost function Seed(e: Eagle, cells: seq<Cell>, token: Token, row: Vec): Output {
    e.head.output(cells, e.head.embed(token), e.fuse(row))
  }

  ghost function Accept(e: Eagle, capacity: nat, s: HeadState, tokens: seq<Token>, rows: seq<Vec>): Result<HeadState> {
    if tokens == [] || |tokens| > |rows| || |s.cells| + |tokens| > capacity then Err
    else
      var n := |tokens|;
      var cells := Extend(e, s.cells, tokens, rows[..n]);
      Ok(HeadState(cells, Some(Seed(e, cells, tokens[n - 1], rows[n - 1]))))
  }

  /** The cells below stay, and each token adds one of its own embedding, its own row and the next position. */
  lemma {:induction false} ExtendedCell(e: Eagle, cells: seq<Cell>, tokens: seq<Token>, rows: seq<Vec>, k: nat)
    requires |tokens| == |rows|
    ensures Extend(e, cells, tokens, rows)[..|cells|] == cells
    ensures k < |tokens| ==>
              Extend(e, cells, tokens, rows)[|cells| + k]
              == e.head.cell(e.head.embed(tokens[k]), e.fuse(rows[k]), |cells| + k)
    decreases |tokens|
  {
    if tokens != [] {
      var n := |tokens| - 1;
      ExtendedCell(e, cells, tokens[..n], rows[..n], k);
    }
  }

  ghost predicate PairedAt(e: Eagle, before: seq<Cell>, after: seq<Cell>, tokens: seq<Token>, rows: seq<Vec>, k: nat) {
    && k < |tokens| && k < |rows| && |before| + k < |after|
    && after[|before| + k] == e.head.cell(e.head.embed(tokens[k]), e.fuse(rows[k]), |before| + k)
  }

  /** An accepted round pairs each token with the target row of the same place, and the seed is the head's answer to
      the last of these pairs. */
  lemma AcceptedPairs(e: Eagle, capacity: nat, s: HeadState, tokens: seq<Token>, rows: seq<Vec>)
    ensures Accept(e, capacity, s, tokens, rows).Ok?
            <==> 0 < |tokens| <= |rows| && |s.cells| + |tokens| <= capacity
    ensures Accept(e, capacity, s, tokens, rows).Ok? ==>
              var after, n := Accept(e, capacity, s, tokens, rows).value, |tokens|;
              && |after.cells| == |s.cells| + n && after.cells[..|s.cells|] == s.cells
              && (forall k: nat | k < n :: PairedAt(e, s.cells, after.cells, tokens, rows, k))
              && after.seed == Some(e.head.output(after.cells, e.head.embed(tokens[n - 1]), e.fuse(rows[n - 1])))
  {
    if 0 < |tokens| <= |rows| && |s.cells| + |tokens| <= capacity {
      ExtendedCell(e, s.cells, tokens, rows[..|tokens|], 0);
      forall k: nat | k < |tokens|
        ensures PairedAt(e, s.cells, Accept(e, capacity, s, tokens, rows).value.cells, tokens, rows, k)
      {
        ExtendedCell(e, s.cells, tokens, rows[..|tokens|], k);
      }
    }
  }

  lemma {:induction false} ExtendAppend(e: Eagle, cells: seq<Cell>, ts: seq<Token>, rs: seq<Vec>,
                                        us: seq<Token>, qs: seq<Vec>)
    requires |ts| == |rs| && |us| == |qs|
    ensures Extend(e, cells, ts + us, rs + qs) == Extend(e, Extend(e, cells, ts, rs), us, qs)
    decreases |us|
  {
    if us == [] {
      assert ts + us == ts && rs + qs == rs;
    } else {
      var n := |us| - 1;
      ExtendAppend(e, cells, ts, rs, us[..n], qs[..n]);
      var all, more := ts + us, rs + qs;
      assert all[..|all| - 1] == ts + us[..n] && more[..|more| - 1] == rs + qs[..n];
      assert all[|all| - 1] == us[n] && more[|more| - 1] == qs[n];
    }
  }

  // ---- Eager against deferred -----------------------------------------------------------------

  /** A verify round that a drafter may accept or queue: its emitted tokens and its captured rows, of
      which only the leading ones are authoritative. */
  datatype VerifyRound = VerifyRound(emitted: seq<Token>, rows: seq<Vec>)

  ghost predicate Admissible(r: VerifyRound) {
    0 < |r.emitted| <= |r.rows|
  }

  ghost predicate AllAdmissible(rounds: seq<VerifyRound>) {
    forall r | r in rounds :: Admissible(r)
  }

  lemma AdmissibleSnoc(rounds: seq<VerifyRound>, r: VerifyRound)
    requires AllAdmissible(rounds) && Admissible(r)
    ensures AllAdmissible(rounds + [r])
  {
  }

  /** `accept_authoritative` after every round. */
  ghost function Eager(e: Eagle, capacity: nat, s: HeadState, rounds: seq<VerifyRound>): Result<HeadState> {
    if rounds == [] then Ok(s)
    else
      match Eager(e, capacity, s, rounds[..|rounds| - 1])
      case Err => Err
      case Ok(t) => Accept(e, capacity, t, rounds[|rounds| - 1].emitted, rounds[|rounds| - 1].rows)
  }

  ghost function QueuedTokens(rounds: seq<VerifyRound>): seq<Token> {
    if rounds == [] then [] else QueuedTokens(rounds[..|rounds| - 1]) + rounds[|rounds| - 1].emitted
  }

  ghost function QueuedRows(rounds: seq<VerifyRound>): (q: seq<Vec>)
    requires AllAdmissible(rounds)
    ensures |q| == |QueuedTokens(rounds)|
  {
    if rounds == [] then []
    else
      var last := rounds[|rounds| - 1];
      assert Admissible(last);
      QueuedRows(rounds[..|rounds| - 1]) + last.rows[..|last.emitted|]
  }

  /** Queue every round, materialize once. */
  ghost function Deferred(e: Eagle, capacity: nat, s: HeadState, rounds: seq<VerifyRound>): Result<HeadState>
    requires AllAdmissible(rounds)
  {
    if rounds == [] then Ok(s) else Accept(e, capacity, s, QueuedTokens(rounds), QueuedRows(rounds))
  }

  lemma AcceptTwice(e: Eagle, capacity: nat, s: HeadState, ts: seq<Token>, rs: seq<Vec>, r: VerifyRound)
    requires Admissible(r) && 0 < |ts| == |rs|
    ensures var last := r.rows[..|r.emitted|];
            Accept(e, capacity, s, ts + r.emitted, rs + last)
            == match Accept(e, capacity, s, ts, rs)
               case Err => Err
               case Ok(t) => Accept(e, capacity, t, r.emitted, r.rows)
  {
    var us, qs := r.emitted, r.rows[..|r.emitted|];
    ExtendAppend(e, s.cells, ts, rs, us, qs);
    assert rs[..|ts|] == rs && (rs + qs)[..|ts + us|] == rs + qs;
  }

  /** For every sequence of rounds, one materialization of the queue is the eager history: the same head
      rows and the same stable seed when it fits, and a failure exactly when some eager update would
      have failed. */
  lemma {:induction false} DeferredEqualsEager(e: Eagle, capacity: nat, s: HeadState, rounds: seq<VerifyRound>)
    requires AllAdmissible(rounds)
    ensures Deferred(e, capacity, s, rounds) == Eager(e, capacity, s, rounds)
    decreases |rounds|
  {
    if rounds != [] {
      var n := |rounds| - 1;
      var early, last := rounds[..n], rounds[n];
      assert Admissible(last);
      DeferredEqualsEager(e, capacity, s, early);
      if early == [] {
        assert QueuedTokens(rounds) == last.emitted && QueuedRows(rounds) == last.rows[..|last.emitted|];
        assert last.rows[..|last.emitted|][..|last.emitted|] == last.rows[..|last.emitted|];
      } else {
        assert |QueuedTokens(early)| > 0 by {
          assert Admissible(early[|early| - 1]);
        }
        AcceptTwice(e, capacity, s, QueuedTokens(early), QueuedRows(early), last);
      }
    }
  }

  lemma QueuedNonEmpty(rounds: seq<VerifyRound>)
    requires AllAdmissible(rounds)
    ensures QueuedTokens(rounds) == [] <==> rounds == []
  {
    if rounds != [] {
      assert Admissible(rounds[|rounds| - 1]);
    }
  }

  /** The queue's effective watermark is always the eager watermark. */
  lemma {:induction false} EffectiveFilledIsEager(e: Eagle, capacity: nat, s: HeadState, rounds: seq<VerifyRound>)
    requires AllAdmissible(rounds)
    requires Eager(e, capacity, s, rounds).Ok?
    ensures |Eager(e, capacity, s, rounds).value.cells| == |s.cells| + |QueuedTokens(rounds)|
  {
    DeferredEqualsEager(e, capacity, s, rounds);
  }

  // ---- The drafter and the queue as objects -----------------------------------------------------

  lemma {:induction false} RowAt(features: seq<real>, i: nat)
    requires |features| % AUX_WIDTH == 0 && i < |features| / AUX_WIDTH
    ensures i * AUX_WIDTH + AUX_WIDTH <= |features|
    ensures Rows(features)[i] == features[i * AUX_WIDTH..i * AUX_WIDTH + AUX_WIDTH]
    decreases |features|
  {
    var n := |features| - AUX_WIDTH;
    if i < n / AUX_WIDTH {
      RowAt(features[..n], i);
      assert Rows(features)[i] == Rows(features[..n])[i];
    } else {
      assert i * AUX_WIDTH == n;
    }
  }

  lemma ExtendSnoc(e: Eagle, cells: seq<Cell>, tokens: seq<Token>, rows: seq<Vec>, i: nat)
    requires i < |tokens| <= |rows|
    ensures var before := Extend(e, cells, tokens[..i], rows[..i]);
            Extend(e, cells, tokens[..i + 1], rows[..i + 1])
            == before + [e.head.cell(e.head.embed(tokens[i]), e.fuse(rows[i]), |before|)]
  {
    assert tokens[..i + 1][..i] == tokens[..i] && rows[..i + 1][..i] == rows[..i];
  }

  /** Embeddings and fused features are as wide as the head. */
  ghost predicate WellSized(e: Eagle) {
    (forall t :: |e.head.embed(t)| == HIDDEN_SIZE) && (forall v :: |e.fuse(v)| == HIDDEN_SIZE)
  }

  /** The device runs each of the first `n` calls. */
  predicate Runs(device: nat -> bool, n: nat) {
    forall i: nat | i < n :: device(i)
  }

  class Drafter {
    const head: Head
    var stableSeed: Option<Output>

    ghost function State(): HeadState
      requires head.Valid()
      reads this, head, head.slots
    {
      HeadState(head.Cells(), stableSeed)
    }

    constructor (maxPositions: nat)
      ensures head.Valid() && fresh(head) && fresh(head.slots) && State() == HeadState([], None)
    {
      head := new Head(maxPositions);
      stableSeed := None;
    }

    /** Rows before the last one only leave their K/V behind. */
    method AppendSilently(e: Eagle, features: seq<real>, emitted: seq<Token>, n: nat, device: nat -> bool)
      returns (ok: bool)
      requires head.Valid() && |features| % AUX_WIDTH == 0 && n < |emitted| <= |features| / AUX_WIDTH
      modifies head, head.slots
      ensures head.Valid() && head.filled >= old(head.filled)
      ensures head.Cells()[..old(head.filled)] == old(head.Cells())
      ensures ok ==> head.Cells() == Extend(e, old(head.Cells()), emitted[..n], Rows(features)[..n])
      ensures WellSized(e) ==> (ok <==> old(head.filled) + n <= head.slots.Length && Runs(device, n))
    {
      ghost var start := head.Cells();
      for i := 0 to n
        invariant head.Valid() && head.filled >= old(head.filled)
        invariant head.Cells()[..old(head.filled)] == start
        invariant head.Cells() == Extend(e, start, emitted[..i], Rows(features)[..i])
        invariant Runs(device, i)
      {
        RowAt(features, i);
        ExtendSnoc(e, start, emitted, Rows(features), i);
        var row := features[i * AUX_WIDTH..i * AUX_WIDTH + AUX_WIDTH];
        ok := head.AppendKvOnly(e.head, e.head.embed(emitted[i]), e.fuse(row), device(i));
        if !ok {
          return;
        }
      }
      ok := true;
    }

    /** The last row through the whole head. */
    method ForwardLast(e: Eagle, features: seq<real>, emitted: seq<Token>, ghost start: seq<Cell>, device: bool)
      returns (r: Result<Output>)
      requires head.Valid() && |features| % AUX_WIDTH == 0 && 0 < |emitted| <= |features| / AUX_WIDTH
      requires head.Cells() == Extend(e, start, emitted[..|emitted| - 1], Rows(features)[..|emitted| - 1])
      modifies head, head.slots
      ensures head.Valid() && head.filled >= old(head.filled)
      ensures head.Cells()[..old(head.filled)] == old(head.Cells())
      ensures WellSized(e) ==> (r.Ok? <==> old(head.filled) < head.slots.Length && device)
      ensures r.Ok? ==>
                && var n := |emitted|;
                   && head.Cells() == Extend(e, start, emitted, Rows(features)[..n])
                   && r.value == Seed(e, head.Cells(), emitted[n - 1], Rows(features)[n - 1])
    {
      var n := |emitted| - 1;
      RowAt(features, n);
      ExtendSnoc(e, start, emitted, Rows(features), n);
      assert emitted[..n + 1] == emitted;
      var row := features[n * AUX_WIDTH..n * AUX_WIDTH + AUX_WIDTH];
      r := head.ForwardToken(e.head, e.head.embed(emitted[n]), e.fuse(row), head.filled, device);
    }

    /** All rows, up to the first call that fails. */
    method ForwardRows(e: Eagle, features: seq<real>, emitted: seq<Token>, device: nat -> bool)
      returns (r: Result<Output>)
      requires head.Valid() && |features| % AUX_WIDTH == 0 && 0 < |emitted| <= |features| / AUX_WIDTH
      modifies head, head.slots
      ensures head.Valid() && head.filled >= old(head.filled)
      ensures head.Cells()[..old(head.filled)] == old(head.Cells())
      ensures WellSized(e) ==>
                (r.Ok? <==> old(head.filled) + |emitted| <= head.slots.Length && Runs(device, |emitted|))
      ensures r.Ok? ==>
                && var n := |emitted|;
                   && head.Cells() == Extend(e, old(head.Cells()), emitted, Rows(features)[..n])
                   && r.value == Seed(e, head.Cells(), emitted[n - 1], Rows(features)[n - 1])
    {
      var n := |emitted| - 1;
      ghost var start := head.Cells();
      var ok := AppendSilently(e, features, emitted, n, device);
      if !ok {
        return Err;
      }
      r := ForwardLast(e, features, emitted, start, device(n));
    }

    /** `accept_authoritative_features` through `forward_batch_last_output`: all rows and a fresh seed, or
        nothing. */
    method AcceptFeatures(e: Eagle, features: seq<real>, emitted: seq<Token>, device: nat -> bool) returns (ok: bool)
      requires head.Valid()
      modifies this, head, head.slots
      ensures head.Valid()
      ensures WellSized(e) ==>
                (ok <==>
                 && emitted != [] && |features| % AUX_WIDTH == 0 && |emitted| <= |features| / AUX_WIDTH
                 && old(head.filled) + |emitted| <= head.slots.Length && Runs(device, |emitted|))
      ensures !ok ==> State() == old(State())
      ensures ok ==>
                && |features| % AUX_WIDTH == 0
                && Accept(e, head.slots.Length, old(State()), emitted, Rows(features)) == Ok(State())
    {
      if emitted == [] || |features| % AUX_WIDTH != 0 || |emitted| > |features| / AUX_WIDTH {
        return false;
      }
      var start := head.filled;
      ghost var cells := head.Cells();
      var out := ForwardRows(e, features, emitted, device);
      if out.Ok? {
        stableSeed := Some(out.value);
        return true;
      }
      var restored := head.RollbackTo(start);
      assert head.Cells() == cells;
      ok := false;
    }

    /** The eager update: only the rows paired with emitted tokens survive. */
    method AcceptAuthoritative(e: Eagle, captures: seq<Tensor>, emitted: seq<Token>, device: nat -> bool)
      returns (ok: bool)
      requires head.Valid() && forall t | t in captures :: Shaped(t)
      modifies this, head, head.slots
      ensures head.Valid()
      ensures !ok ==> State() == old(State())
      ensures WellSized(e) ==>
                (ok <==>
                 && Captures(captures) && 0 < |emitted| <= captures[0].rows
                 && old(head.filled) + |emitted| <= head.slots.Length && Runs(device, |emitted|))
      ensures ok ==>
                && Captures(captures)
                && Accept(e, head.slots.Length, old(State()), emitted, FeatureRows(captures)) == Ok(State())
    {
      var features := Interleave(captures);
      if features.Err? {
        return false;
      }
      assert Rows(features.value) == FeatureRows(captures);
      ok := AcceptFeatures(e, features.value, emitted, device);
    }

    /** Materialize the queue and refresh the seed once; the queue is cleared only on success. */
    method AcceptCatchup(e: Eagle, pending: AuthoritativeCatchup, device: nat -> bool) returns (r: Result<nat>)
      requires head.Valid() && pending.Valid()
      modifies this, head, head.slots, pending
      ensures head.Valid() && pending.Valid()
      ensures r.Err? ==> State() == old(State()) && unchanged(pending)
      ensures WellSized(e) ==>
                (r.Ok? <==>
                 || old(pending.emitted) == []
                 || (&& old(head.filled) + |old(pending.emitted)| <= head.slots.Length
                     && Runs(device, |old(pending.emitted)|)))
      ensures r.Ok? ==> r.value == |old(pending.emitted)| && pending.rounds == []
      ensures r.Ok? ==> Eager(e, head.slots.Length, old(State()), old(pending.rounds)) == Ok(State())
    {
      var rows := |pending.emitted|;
      DeferredEqualsEager(e, head.slots.Length, State(), pending.rounds);
      QueuedNonEmpty(pending.rounds);
      if rows == 0 {
        return Ok(0);
      }
      var ok := AcceptFeatures(e, pending.features, pending.emitted, device);
      if !ok {
        return Err;
      }
      pending.emitted, pending.features, pending.rounds := [], [], [];
      r := Ok(rows);
    }
  }

  ghost function FeatureRows(captures: seq<Tensor>): (r: seq<Vec>)
    requires Captures(captures)
    ensures |r| == captures[0].rows && forall i | 0 <= i < |r| :: r[i] == FeatureRow(captures, i)
  {
    seq(captures[0].rows, i requires 0 <= i < captures[0].rows => FeatureRow(captures, i))
  }

  /** What a queue of rounds holds: their emitted tokens, and the authoritative rows paired with them. */
  ghost predicate Queues(rounds: seq<VerifyRound>, emitted: seq<Token>, features: seq<real>) {
    && AllAdmissible(rounds) && |features| % AUX_WIDTH == 0
    && emitted == QueuedTokens(rounds) && Rows(features) == QueuedRows(rounds)
  }

  lemma QueuesMore(rounds: seq<VerifyRound>, emitted: seq<Token>, features: seq<real>, r: VerifyRound, more: seq<real>)
    requires Queues(rounds, emitted, features) && Admissible(r)
    requires |more| % AUX_WIDTH == 0 && Rows(more) == r.rows[..|r.emitted|]
    ensures Queues(rounds + [r], emitted + r.emitted, features + more)
  {
    AdmissibleSnoc(rounds, r);
    RowsAppend(features, more);
    assert (rounds + [r])[..|rounds|] == rounds;
  }

  class AuthoritativeCatchup {
    var emitted: seq<Token>
    var features: seq<real>
    /** The rounds queued since the last materialization. */
    ghost var rounds: seq<VerifyRound>

    ghost predicate Valid()
      reads this
    {
      Queues(rounds, emitted, features)
    }

    constructor ()
      ensures Valid() && rounds == []
    {
      emitted, features, rounds := [], [], [];
    }

    /** The watermark represented by the materialized prefix plus the queue: the one the eager history has. */
    method EffectiveFilled(materialized: nat, ghost e: Eagle, ghost capacity: nat, ghost s: HeadState)
      returns (r: Result<nat>)
      requires Valid() && materialized == |s.cells|
      ensures r.Ok? <==> materialized + |QueuedTokens(rounds)| <= 0xFFFF_FFFF_FFFF_FFFF
      ensures r.Ok? ==> r.value == materialized + |QueuedTokens(rounds)|
      ensures r.Ok? && Eager(e, capacity, s, rounds).Ok? ==> r.value == |Eager(e, capacity, s, rounds).value.cells|
    {
      if Eager(e, capacity, s, rounds).Ok? {
        EffectiveFilledIsEager(e, capacity, s, rounds);
      }
      r := if materialized + |emitted| <= USIZE_MAX then Ok(materialized + |emitted|) else Err;
    }

    /** Queue a round's authoritative prefix; a refused round changes nothing. */
    method Push(captures: seq<Tensor>, round: seq<Token>) returns (ok: bool)
      requires Valid() && forall t | t in captures :: Shaped(t)
      modifies this
      ensures Valid() && ok == Takes(captures, round)
      ensures !ok ==> unchanged(this)
      ensures ok ==> rounds == old(rounds) + [VerifyRound(round, FeatureRows(captures))]
    {
      var prefix := AuthoritativePrefix(captures, round);
      if prefix.None? {
        return false;
      }
      QueuesMore(rounds, emitted, features, VerifyRound(round, FeatureRows(captures)), prefix.value);
      emitted, features := emitted + round, features + prefix.value;
      rounds := rounds + [VerifyRound(round, FeatureRows(captures))];
      ok := true;
    }
  }

  /** The interleaved features paired with the emitted tokens, and no more. */
  method AuthoritativePrefix(captures: seq<Tensor>, round: seq<Token>) returns (r: Option<seq<real>>)
    requires forall t | t in captures :: Shaped(t)
    ensures r.Some? == Takes(captures, round)
    ensures r.Some? ==> |r.value| % AUX_WIDTH == 0 && Rows(r.value) == FeatureRows(captures)[..|round|]
  {
    if round == [] {
      return None;
    }
    var all := Interleave(captures);
    if all.Err? || |round| > |all.value| / AUX_WIDTH {
      return None;
    }
    var admitted := |round| * AUX_WIDTH;
    assert Rows(all.value) == FeatureRows(captures);
    WidthArithmetic(|all.value|, |round|);
    RowsPrefix(all.value, admitted);
    r := Some(all.value[..admitted]);
  }

  // ---- Whole runs on the objects ------------------------------------------------------------------

  /** A verify round as it reaches the drafter. */
  datatype Capture = Capture(taps: seq<Tensor>, emitted: seq<Token>)

  ghost predicate AllShaped(input: seq<Capture>) {
    forall i | 0 <= i < |input| :: forall t | t in input[i].taps :: Shaped(t)
  }

  /** A round either drafter accepts: three equally shaped taps with a row for every emitted token. */
  ghost predicate Takes(taps: seq<Tensor>, emitted: seq<Token>) {
    Captures(taps) && Admissible(VerifyRound(emitted, FeatureRows(taps)))
  }

  /** The rounds of a run, refused ones dropped. */
  ghost function Taken(input: seq<Capture>): (rounds: seq<VerifyRound>) {
    if input == [] then []
    else
      var n := |input| - 1;
      var c := input[n];
      Taken(input[..n]) + if Takes(c.taps, c.emitted) then [VerifyRound(c.emitted, FeatureRows(c.taps))] else []
  }

  lemma {:induction false} TakenAdmissible(input: seq<Capture>)
    ensures AllAdmissible(Taken(input))
  {
    if input != [] {
      TakenAdmissible(input[..|input| - 1]);
    }
  }

  lemma TakenSnoc(input: seq<Capture>, i: nat)
    requires i < |input|
    ensures var c, before := input[i], Taken(input[..i]);
            Taken(input[..i + 1])
            == if Takes(c.taps, c.emitted) then before + [VerifyRound(c.emitted, FeatureRows(c.taps))] else before
  {
    assert input[..i + 1][..i] == input[..i];
  }

  /** The effective watermark after the first `k` rounds is the eager one, wherever the eager run got. */
  ghost predicate MarkIsEager(e: Eagle, capacity: nat, s: HeadState, input: seq<Capture>, marks: seq<Result<nat>>,
                              k: nat) {
    k < |marks| && k < |input| &&
    var eager := Eager(e, capacity, s, Taken(input[..k + 1]));
    eager.Ok? && marks[k].Ok? ==> marks[k].value == |eager.value.cells|
  }

  /** Queue a whole run and materialize it once. Refused rounds leave no trace, the effective watermark
      follows the eager one throughout, and success leaves exactly the eager state. */
  method DeferredRun(d: Drafter, e: Eagle, q: AuthoritativeCatchup, input: seq<Capture>, device: nat -> bool)
    returns (ok: bool, marks: seq<Result<nat>>)
    requires d.head.Valid() && q.Valid() && q.rounds == [] && AllShaped(input)
    modifies d, d.head, d.head.slots, q
    ensures d.head.Valid() && q.Valid()
    ensures |marks| == |input|
    ensures forall k: nat | k < |input| :: MarkIsEager(e, d.head.slots.Length, old(d.State()), input, marks, k)
    ensures !ok ==> d.State() == old(d.State()) && q.rounds == Taken(input)
    ensures WellSized(e) ==>
              var n := |QueuedTokens(Taken(input))|;
              (ok <==> n == 0 || (old(d.head.filled) + n <= d.head.slots.Length && Runs(device, n)))
    ensures ok ==> q.rounds == [] && Eager(e, d.head.slots.Length, old(d.State()), Taken(input)) == Ok(d.State())
  {
    ghost var s, capacity := d.State(), d.head.slots.Length;
    marks := [];
    for i := 0 to |input|
      invariant d.head.Valid() && d.State() == s && q.Valid() && q.rounds == Taken(input[..i]) && |marks| == i
      invariant forall k: nat | k < i :: MarkIsEager(e, capacity, s, input, marks, k)
    {
      TakenSnoc(input, i);
      var _ := q.Push(input[i].taps, input[i].emitted);
      var mark := q.EffectiveFilled(d.head.filled, e, capacity, s);
      MarksSnoc(e, capacity, s, input, marks, mark);
      marks := marks + [mark];
    }
    assert input[..|input|] == input;
    var r := d.AcceptCatchup(e, q, device);
    ok := r.Ok?;
  }

  lemma MarksSnoc(e: Eagle, capacity: nat, s: HeadState, input: seq<Capture>, marks: seq<Result<nat>>,
                  mark: Result<nat>)
    requires |marks| < |input|
    requires forall k: nat | k < |marks| :: MarkIsEager(e, capacity, s, input, marks, k)
    requires var eager := Eager(e, capacity, s, Taken(input[..|marks| + 1]));
             eager.Ok? && mark.Ok? ==> mark.value == |eager.value.cells|
    ensures forall k: nat | k < |marks| + 1 :: MarkIsEager(e, capacity, s, input, marks + [mark], k)
  {
    forall k: nat | k < |marks| + 1
      ensures MarkIsEager(e, capacity, s, input, marks + [mark], k)
    {
      assert k < |marks| ==> MarkIsEager(e, capacity, s, input, marks, k);
    }
  }

  /** The eager run has seen the first `i` rounds. */
  ghost predicate Following(e: Eagle, capacity: nat, s: HeadState, input: seq<Capture>, i: nat, now: HeadState) {
    && i <= |input| && Eager(e, capacity, s, Taken(input[..i])) == Ok(now)
    && |now.cells| == |s.cells| + |QueuedTokens(Taken(input[..i]))|
  }

  lemma FollowingOn(e: Eagle, capacity: nat, s: HeadState, input: seq<Capture>, i: nat, now: HeadState,
                    after: HeadState)
    requires Following(e, capacity, s, input, i, now) && i < |input|
    requires var c := input[i];
             if Takes(c.taps, c.emitted) then Accept(e, capacity, now, c.emitted, FeatureRows(c.taps)) == Ok(after)
             else after == now
    ensures Following(e, capacity, s, input, i + 1, after)
  {
    var c := input[i];
    TakenSnoc(input, i);
    if Takes(c.taps, c.emitted) {
      var r := VerifyRound(c.emitted, FeatureRows(c.taps));
      EagerSnoc(e, capacity, s, Taken(input[..i]), r);
      QueuedSnoc(Taken(input[..i]), r);
    }
  }

  /** One round of the eager run: it goes on unless a round that should be accepted is not. */
  method EagerStep(d: Drafter, e: Eagle, input: seq<Capture>, i: nat, device: (nat, nat) -> bool, ghost s: HeadState)
    returns (fine: bool)
    requires d.head.Valid() && AllShaped(input) && i < |input|
    requires Following(e, d.head.slots.Length, s, input, i, d.State())
    modifies d, d.head, d.head.slots
    ensures d.head.Valid()
    ensures fine ==> Following(e, d.head.slots.Length, s, input, i + 1, d.State())
    ensures WellSized(e) ==>
              (fine <==>
               && RoundRuns(input[i], i, device)
               && |s.cells| + |QueuedTokens(Taken(input[..i + 1]))| <= d.head.slots.Length)
  {
    var c := input[i];
    ghost var now := d.State();
    TakenSnoc(input, i);
    if Takes(c.taps, c.emitted) {
      QueuedSnoc(Taken(input[..i]), VerifyRound(c.emitted, FeatureRows(c.taps)));
    }
    var calls := (n: nat) => device(i, n);
    if Takes(c.taps, c.emitted) {
      assert Runs(calls, |c.emitted|) <==> RoundRuns(c, i, device) by {
        assert forall n: nat :: calls(n) == device(i, n);
      }
    }
    fine := d.AcceptAuthoritative(e, c.taps, c.emitted, calls);
    var refused := Refuses(c.taps, c.emitted);
    fine := fine || refused;
    if fine {
      FollowingOn(e, d.head.slots.Length, s, input, i, now, d.State());
    }
  }

  /** Accept every round as it comes. It completes exactly when the accepted rows fit and the device runs them all. */
  method EagerRun(d: Drafter, e: Eagle, input: seq<Capture>, device: (nat, nat) -> bool) returns (ok: bool)
    requires d.head.Valid() && AllShaped(input)
    modifies d, d.head, d.head.slots
    ensures d.head.Valid()
    ensures WellSized(e) ==>
              (ok <==>
               && old(d.head.filled) + |QueuedTokens(Taken(input))| <= d.head.slots.Length
               && AllRun(input, |input|, device))
    ensures ok ==> Eager(e, d.head.slots.Length, old(d.State()), Taken(input)) == Ok(d.State())
  {
    ghost var s := d.State();
    for i := 0 to |input|
      invariant d.head.Valid() && Following(e, d.head.slots.Length, s, input, i, d.State())
      invariant WellSized(e) ==> AllRun(input, i, device)
    {
      TakenGrows(input, i + 1);
      OneMoreRuns(input, i, device);
      var fine := EagerStep(d, e, input, i, device, s);
      if !fine {
        return false;
      }
    }
    assert input[..|input|] == input;
    ok := true;
  }

  /** The device runs the round's rows, if the round is one that is taken. */
  ghost predicate RoundRuns(c: Capture, i: nat, device: (nat, nat) -> bool) {
    Takes(c.taps, c.emitted) ==> forall n: nat | n < |c.emitted| :: device(i, n)
  }

  ghost predicate AllRun(input: seq<Capture>, n: nat, device: (nat, nat) -> bool) {
    n <= |input| && forall i: nat | i < n :: RoundRuns(input[i], i, device)
  }

  /** A round that does not run is in the way of the whole run. */
  lemma OneMoreRuns(input: seq<Capture>, i: nat, device: (nat, nat) -> bool)
    requires i < |input|
    ensures AllRun(input, i + 1, device) <==> AllRun(input, i, device) && RoundRuns(input[i], i, device)
    ensures !RoundRuns(input[i], i, device) ==> !AllRun(input, |input|, device)
  {
  }

  lemma QueuedSnoc(rounds: seq<VerifyRound>, r: VerifyRound)
    ensures QueuedTokens(rounds + [r]) == QueuedTokens(rounds) + r.emitted
  {
    assert (rounds + [r])[..|rounds|] == rounds;
  }

  lemma {:induction false} TakenGrows(input: seq<Capture>, i: nat)
    requires i <= |input|
    ensures |QueuedTokens(Taken(input[..i]))| <= |QueuedTokens(Taken(input))|
    decreases |input| - i
  {
    if i < |input| {
      var c := input[i];
      TakenGrows(input, i + 1);
      TakenSnoc(input, i);
      if Takes(c.taps, c.emitted) {
        QueuedSnoc(Taken(input[..i]), VerifyRound(c.emitted, FeatureRows(c.taps)));
      }
    } else {
      assert input[..i] == input;
    }
  }

  ghost function AllRows(taps: seq<Tensor>): seq<Vec> {
    if Captures(taps) then FeatureRows(taps) else []
  }

  /** The checks that refuse a round before the device is involved. */
  method Refuses(taps: seq<Tensor>, emitted: seq<Token>) returns (r: bool)
    ensures r == !Takes(taps, emitted)
  {
    r := !Captures(taps) || |emitted| == 0 || |emitted| > taps[0].rows;
  }

  lemma EagerSnoc(e: Eagle, capacity: nat, s: HeadState, rounds: seq<VerifyRound>, r: VerifyRound)
    ensures Eager(e, capacity, s, rounds + [r])
            == match Eager(e, capacity, s, rounds)
               case Err => Err
               case Ok(t) => Accept(e, capacity, t, r.emitted, r.rows)
  {
    assert (rounds + [r])[..|rounds|] == rounds;
  }

  /** Deferred equals eager, on two drafters that start alike and see the same run. */
  method CompareRuns(eager: Drafter, deferred: Drafter, e: Eagle, q: AuthoritativeCatchup, input: seq<Capture>,
                     eagerDevice: (nat, nat) -> bool, device: nat -> bool)
    returns (a: bool, b: bool)
    requires eager.head.Valid() && deferred.head.Valid() && q.Valid() && q.rounds == [] && AllShaped(input)
    requires eager != deferred && eager.head != deferred.head && eager.head.slots != deferred.head.slots
    requires eager.State() == deferred.State() && eager.head.slots.Length == deferred.head.slots.Length
    modifies eager, eager.head, eager.head.slots, deferred, deferred.head, deferred.head.slots, q
    ensures eager.head.Valid() && deferred.head.Valid()
    ensures a && b ==> eager.State() == deferred.State()
    ensures WellSized(e) && (forall i, n :: eagerDevice(i, n)) && (forall n :: device(n)) ==>
              (a <==> old(eager.head.filled) + |QueuedTokens(Taken(input))| <= eager.head.slots.Length) && (a ==> b)
  {
    a := EagerRun(eager, e, input, eagerDevice);
    ghost var after := eager.State();
    var marks;
    b, marks := DeferredRun(deferred, e, q, input, device);
    assert eager.State() == after;
  }
}
