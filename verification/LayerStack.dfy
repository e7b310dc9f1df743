/** A causal decoder stack, the layer-range session that caches its K/V rows
    (src/inference.rs), and the single-node greedy reference (examples/parity_node.rs). */
module LayerStack {
  import opened Prelude
  import opened KvRoom

  type Row = seq<real>
  type KV = seq<real>

  /** Row mathematics: `mix` is one layer's output row given the K/V rows up to and including its own
      position. */
  datatype Llama = Llama(
    layers: nat,
    vocab: nat,
    width: nat,
    embed: nat -> Row,
    kv: (nat, Row, nat) -> KV,
    mix: (nat, Row, nat, seq<KV>) -> Row,
    logits: Row -> seq<real>)

  /** Hidden rows are `width` floats wide, and logits are for tokens that have an embedding. */
  ghost predicate ValidModel(m: Llama) {
    && m.vocab > 0 && (forall row :: |m.logits(row)| <= m.vocab)
    && (forall token :: |m.embed(token)| == m.width)
    && (forall l, row, pos, kvs :: |m.mix(l, row, pos, kvs)| == m.width)
  }

  predicate Embeddable(m: Llama, tokens: seq<nat>) {
    forall i | 0 <= i < |tokens| :: tokens[i] < m.vocab
  }

  // ---- Argmax -----------------------------------------------------------------------------------

  /** The first index holding the largest value; zero for an empty row. */
  ghost predicate FirstLargest(row: seq<real>, best: nat) {
    if row == [] then best == 0
    else
      && best < |row|
      && (forall i | 0 <= i < best :: row[i] < row[best])
      && (forall i | best <= i < |row| :: row[i] <= row[best])
  }

  function Argmax(row: seq<real>): nat {
    if |row| <= 1 then 0
    else
      var n := |row| - 1;
      var b := Argmax(row[..n]);
      if b < n && row[n] > row[b] then n else b
  }

  lemma {:induction false} ArgmaxIsFirstLargest(row: seq<real>)
    ensures FirstLargest(row, Argmax(row))
  {
    if |row| > 1 {
      ArgmaxIsFirstLargest(row[..|row| - 1]);
    }
  }

  /** `argmax`: a scan keeping the first strict maximum. */
  method ScanArgmax(row: seq<real>) returns (best: nat)
    ensures best == Argmax(row)
  {
    best := 0;
    for i := 0 to |row|
      invariant FirstLargest(row[..i], best)
    {
      if i == 0 || row[i] > row[best] {
        best := i;
      }
    }
    assert row[..|row|] == row;
    ArgmaxIsFirstLargest(row);
  }

  // ---- The whole-sequence specification --------------------------------------------------------

  function KVs(m: Llama, l: nat, h: seq<Row>, start: nat): (r: seq<KV>)
    ensures |r| == |h| && forall i | 0 <= i < |h| :: r[i] == m.kv(l, h[i], start + i)
  {
    seq(|h|, i requires 0 <= i < |h| => m.kv(l, h[i], start + i))
  }

  /** Layer `l` over rows at positions `start..`, attending to `cache` below each position. */
  function Mixed(m: Llama, l: nat, h: seq<Row>, start: nat, cache: seq<KV>): (r: seq<Row>)
    requires start + |h| <= |cache|
    ensures |r| == |h| && forall i | 0 <= i < |h| :: r[i] == m.mix(l, h[i], start + i, cache[..start + i + 1])
  {
    seq(|h|, i requires 0 <= i < |h| => m.mix(l, h[i], start + i, cache[..start + i + 1]))
  }

  function Embeds(m: Llama, tokens: seq<nat>): (r: seq<Row>)
    ensures |r| == |tokens| && forall i | 0 <= i < |tokens| :: r[i] == m.embed(tokens[i])
  {
    seq(|tokens|, i requires 0 <= i < |tokens| => m.embed(tokens[i]))
  }

  /** The hidden rows of the whole token sequence after `l` layers, with no cache and no split. */
  ghost function Hidden(m: Llama, tokens: seq<nat>, l: nat): (h: seq<Row>)
    ensures |h| == |tokens|
  {
    if l == 0 then Embeds(m, tokens)
    else
      var h := Hidden(m, tokens, l - 1);
      Mixed(m, l - 1, h, 0, KVs(m, l - 1, h, 0))
  }

  ghost function NextToken(m: Llama, tokens: seq<nat>): nat
    requires tokens != []
  {
    Argmax(m.logits(Hidden(m, tokens, m.layers)[|tokens| - 1]))
  }

  /** The first `n` tokens of the greedy continuation. */
  ghost function Greedy(m: Llama, prompt: seq<nat>, n: nat): (r: seq<nat>)
    requires prompt != []
    ensures |r| == n
  {
    if n == 0 then []
    else
      var g := Greedy(m, prompt, n - 1);
      g + [NextToken(m, prompt + g)]
  }

  /** Generated tokens that are a beginning of the greedy continuation. */
  ghost predicate IsGreedy(m: Llama, prompt: seq<nat>, gen: seq<nat>)
    requires prompt != []
  {
    gen == Greedy(m, prompt, |gen|)
  }

  lemma GreedySnoc(m: Llama, prompt: seq<nat>, gen: seq<nat>, token: nat)
    requires prompt != [] && IsGreedy(m, prompt, gen) && token == NextToken(m, prompt + gen)
    ensures IsGreedy(m, prompt, gen + [token])
  {
  }

  /** Causality: the rows of a prefix do not depend on what follows it. */
  lemma {:induction false} HiddenPrefix(m: Llama, tokens: seq<nat>, n: nat, l: nat)
    requires n <= |tokens|
    ensures Hidden(m, tokens[..n], l) == Hidden(m, tokens, l)[..n]
  {
    if l == 0 {
      assert Embeds(m, tokens[..n]) == Embeds(m, tokens)[..n];
    } else {
      HiddenPrefix(m, tokens, n, l - 1);
      MixedPrefix(m, l - 1, Hidden(m, tokens, l - 1), n);
    }
  }

  lemma MixedPrefix(m: Llama, l: nat, h: seq<Row>, n: nat)
    requires n <= |h|
    ensures KVs(m, l, h[..n], 0) == KVs(m, l, h, 0)[..n]
    ensures Mixed(m, l, h[..n], 0, KVs(m, l, h[..n], 0)) == Mixed(m, l, h, 0, KVs(m, l, h, 0))[..n]
  {
    var kvs := KVs(m, l, h, 0);
    assert KVs(m, l, h[..n], 0) == kvs[..n];
    forall i | 0 <= i < n
      ensures Mixed(m, l, h[..n], 0, kvs[..n])[i] == Mixed(m, l, h, 0, kvs)[i]
    {
      assert kvs[..n][..i + 1] == kvs[..i + 1];
    }
  }

  // ---- The cached layer range --------------------------------------------------------------------

  /** Per-layer K/V rows and the watermark; rows at or above `position` are stale. */
  datatype Cache = Cache(slots: seq<seq<KV>>, position: nat)

  ghost predicate CacheOk(m: Llama, lo: nat, hi: nat, c: Cache) {
    lo <= hi <= m.layers == |c.slots| && Writable(c.slots, lo, hi, c.position)
  }

  /** The committed rows are those of `tokens`. */
  ghost predicate Holds(m: Llama, lo: nat, hi: nat, c: Cache, tokens: seq<nat>) {
    CacheOk(m, lo, hi, c) && c.position == |tokens| && HoldsLayers(m, lo, hi, c.slots, tokens)
  }

  ghost predicate HoldsLayers(m: Llama, lo: nat, hi: nat, slots: seq<seq<KV>>, tokens: seq<nat>) {
    forall l: nat | lo <= l < hi :: HoldsAt(m, slots, tokens, l)
  }

  ghost predicate HoldsAt(m: Llama, slots: seq<seq<KV>>, tokens: seq<nat>, l: nat) {
    l < |slots| && HoldsLayer(m, slots[l], tokens, l)
  }

  ghost predicate HoldsLayer(m: Llama, slot: seq<KV>, tokens: seq<nat>, l: nat) {
    |tokens| <= |slot| && slot[..|tokens|] == KVs(m, l, Hidden(m, tokens, l), 0)
  }

  /** Overwrite from `start`, keeping whatever stale rows lie beyond. */
  function Written(slot: seq<KV>, start: nat, rows: seq<KV>): (r: seq<KV>)
    requires start <= |slot|
    ensures |r| >= start + |rows| && |r| >= |slot|
    ensures r[..start] == slot[..start] && r[start..start + |rows|] == rows
  {
    slot[..start] + rows + (if start + |rows| <= |slot| then slot[start + |rows|..] else [])
  }

  /** The layer's rows once the new ones are stored at the watermark. */
  function LayerSlot(m: Llama, l: nat, slot: seq<KV>, start: nat, h: seq<Row>): (r: seq<KV>)
    requires start <= |slot|
    ensures start + |h| <= |r| && r[..start] == slot[..start]
  {
    Written(slot, start, KVs(m, l, h, start))
  }

  function LayerOut(m: Llama, l: nat, slot: seq<KV>, start: nat, h: seq<Row>): (r: seq<Row>)
    requires start <= |slot|
    ensures |r| == |h|
  {
    Mixed(m, l, h, start, LayerSlot(m, l, slot, start, h))
  }

  ghost predicate Writable(slots: seq<seq<KV>>, lo: nat, hi: nat, start: nat) {
    lo <= hi <= |slots| && forall k | lo <= k < hi :: start <= |slots[k]|
  }

  /** The rows that leave layers `lo..l` run in order over the cache. */
  ghost function Through(m: Llama, lo: nat, l: nat, slots: seq<seq<KV>>, start: nat, h: seq<Row>): (r: seq<Row>)
    requires Writable(slots, lo, l, start)
    ensures |r| == |h|
    decreases l
  {
    if l == lo then h else LayerOut(m, l - 1, slots[l - 1], start, Through(m, lo, l - 1, slots, start, h))
  }

  /** What running layers `lo..hi` leaves in a layer's slot: its new rows if it ran, else no change. */
  ghost function SlotAfter(m: Llama, lo: nat, hi: nat, slots: seq<seq<KV>>, start: nat, h: seq<Row>,
                           k: nat): (r: seq<KV>)
    requires Writable(slots, lo, hi, start) && k < |slots|
    ensures lo <= k < hi ==> start + |h| <= |r| && r[..start] == slots[k][..start]
    ensures !(lo <= k < hi) ==> r == slots[k]
  {
    if lo <= k < hi then LayerSlot(m, k, slots[k], start, Through(m, lo, k, slots, start, h)) else slots[k]
  }

  ghost predicate Ran(m: Llama, lo: nat, hi: nat, before: seq<seq<KV>>, start: nat, h: seq<Row>, after: seq<seq<KV>>) {
    && Writable(before, lo, hi, start) && |after| == |before|
    && forall k: nat | k < |after| :: RanAt(m, lo, hi, before, start, h, after, k)
  }

  ghost predicate RanAt(m: Llama, lo: nat, hi: nat, before: seq<seq<KV>>, start: nat, h: seq<Row>,
                        after: seq<seq<KV>>, k: nat)
    requires Writable(before, lo, hi, start) && k < |before|
  {
    k < |after| && after[k] == SlotAfter(m, lo, hi, before, start, h, k)
  }

  /** `h` is the rows of `tokens` from `start` on, entering layer `l`. */
  ghost predicate Entering(m: Llama, tokens: seq<nat>, l: nat, start: nat, h: seq<Row>) {
    start + |h| == |tokens| && forall i: nat | i < |h| :: EntersAt(m, tokens, l, start, h, i)
  }

  ghost predicate EntersAt(m: Llama, tokens: seq<nat>, l: nat, start: nat, h: seq<Row>, i: nat) {
    i < |h| && start + i < |tokens| && h[i] == Hidden(m, tokens, l)[start + i]
  }

  lemma EnteringRows(m: Llama, tokens: seq<nat>, l: nat, start: nat, h: seq<Row>)
    requires start <= |tokens|
    ensures Entering(m, tokens, l, start, h) <==> h == Hidden(m, tokens, l)[start..]
  {
    var rows := Hidden(m, tokens, l)[start..];
    if Entering(m, tokens, l, start, h) {
      forall i: nat | i < |h|
        ensures h[i] == rows[i]
      {
        assert EntersAt(m, tokens, l, start, h, i);
      }
    }
  }

  /** A layer over the new rows of `tokens`, on a cache holding the rows below them, is that part of the
      whole-sequence layer. */
  lemma LayerIsHidden(m: Llama, l: nat, slot: seq<KV>, start: nat, h: seq<Row>, tokens: seq<nat>)
    requires Entering(m, tokens, l, start, h) && start <= |slot| && HoldsLayer(m, slot, tokens[..start], l)
    ensures HoldsLayer(m, LayerSlot(m, l, slot, start, h), tokens, l)
    ensures Entering(m, tokens, l + 1, start, LayerOut(m, l, slot, start, h))
  {
    EnteringRows(m, tokens, l, start, h);
    EnteringRows(m, tokens, l + 1, start, LayerOut(m, l, slot, start, h));
    var all := Hidden(m, tokens, l);
    var kvs := KVs(m, l, all, 0);
    HiddenPrefix(m, tokens, start, l);
    MixedPrefix(m, l, all, start);
    assert KVs(m, l, h, start) == kvs[start..];
    var after := LayerSlot(m, l, slot, start, h);
    assert after[..|tokens|] == kvs by {
      assert after[..|tokens|] == after[..start] + after[start..|tokens|];
    }
    MixedSuffix(m, l, all, start, after, kvs);
  }

  lemma MixedSuffix(m: Llama, l: nat, h: seq<Row>, start: nat, slot: seq<KV>, kvs: seq<KV>)
    requires start <= |h| == |kvs| <= |slot| && slot[..|kvs|] == kvs
    ensures Mixed(m, l, h[start..], start, slot) == Mixed(m, l, h, 0, kvs)[start..]
  {
    forall i | 0 <= i < |h| - start
      ensures Mixed(m, l, h[start..], start, slot)[i] == Mixed(m, l, h, 0, kvs)[start..][i]
    {
      assert slot[..|kvs|][..start + i + 1] == slot[..start + i + 1];
    }
  }

  lemma HoldsFewer(m: Llama, lo: nat, l: nat, slots: seq<seq<KV>>, tokens: seq<nat>)
    requires lo < l && HoldsLayers(m, lo, l, slots, tokens)
    ensures HoldsLayers(m, lo, l - 1, slots, tokens) && HoldsAt(m, slots, tokens, l - 1)
  {
  }

  lemma ThroughStep(m: Llama, lo: nat, k: nat, slots: seq<seq<KV>>, start: nat, h: seq<Row>, tokens: seq<nat>,
                    l: nat, out: seq<Row>)
    requires lo <= k < |slots| && l == k + 1 && Writable(slots, lo, k, start) && start <= |tokens|
             && start <= |slots[k]|
    requires HoldsLayer(m, slots[k], tokens[..start], k)
             && Entering(m, tokens, k, start, Through(m, lo, k, slots, start, h))
    requires out == LayerOut(m, k, slots[k], start, Through(m, lo, k, slots, start, h))
    ensures Entering(m, tokens, l, start, out)
  {
    LayerIsHidden(m, k, slots[k], start, Through(m, lo, k, slots, start, h), tokens);
  }

  /** Incremental forwarding of a layer range refines the whole-sequence forward. */
  lemma {:induction false} ThroughIsHidden(m: Llama, lo: nat, l: nat, slots: seq<seq<KV>>, start: nat, h: seq<Row>,
                                           tokens: seq<nat>, out: seq<Row>)
    requires Writable(slots, lo, l, start) && Entering(m, tokens, lo, start, h)
    requires HoldsLayers(m, lo, l, slots, tokens[..start]) && out == Through(m, lo, l, slots, start, h)
    ensures Entering(m, tokens, l, start, out)
    decreases l
  {
    if l > lo {
      HoldsFewer(m, lo, l, slots, tokens[..start]);
      ThroughIsHidden(m, lo, l - 1, slots, start, h, tokens, Through(m, lo, l - 1, slots, start, h));
      ThroughStep(m, lo, l - 1, slots, start, h, tokens, l, out);
    }
  }

  /** Rows above the watermark are never read: two caches that agree below it give the same outputs,
      whatever stale rows either holds. */
  lemma {:induction false} StaleRowsUnread(m: Llama, lo: nat, l: nat, a: seq<seq<KV>>, b: seq<seq<KV>>, start: nat,
                                           h: seq<Row>)
    requires Writable(a, lo, l, start) && Writable(b, lo, l, start)
    requires forall k | lo <= k < l :: a[k][..start] == b[k][..start]
    ensures Through(m, lo, l, a, start, h) == Through(m, lo, l, b, start, h)
    decreases l
  {
    if l > lo {
      StaleRowsUnread(m, lo, l - 1, a, b, start, h);
      SameOut(m, l - 1, a[l - 1], b[l - 1], start, Through(m, lo, l - 1, a, start, h));
    }
  }

  lemma SameOut(m: Llama, l: nat, a: seq<KV>, b: seq<KV>, start: nat, h: seq<Row>)
    requires start <= |a| && start <= |b| && a[..start] == b[..start]
    ensures LayerOut(m, l, a, start, h) == LayerOut(m, l, b, start, h)
  {
    SameReads(m, l, h, start, LayerSlot(m, l, a, start, h), LayerSlot(m, l, b, start, h));
  }

  lemma SameReads(m: Llama, l: nat, h: seq<Row>, start: nat, s: seq<KV>, t: seq<KV>)
    requires start + |h| <= |s| && start + |h| <= |t|
    requires s[..start] == t[..start] && s[start..start + |h|] == t[start..start + |h|]
    ensures Mixed(m, l, h, start, s) == Mixed(m, l, h, start, t)
  {
    var n := start + |h|;
    assert s[..n] == s[..start] + s[start..n] == t[..n];
    forall i | 0 <= i < |h|
      ensures Mixed(m, l, h, start, s)[i] == Mixed(m, l, h, start, t)[i]
    {
      assert s[..n][..start + i + 1] == s[..start + i + 1] && t[..n][..start + i + 1] == t[..start + i + 1];
    }
  }

  /** A failed call leaves the watermark and every committed row as they were. */
  ghost predicate KeepsCommitted(m: Llama, lo: nat, hi: nat, before: Cache, after: Cache) {
    && CacheOk(m, lo, hi, before) && CacheOk(m, lo, hi, after) && after.position == before.position
    && forall l | lo <= l < hi :: after.slots[l][..before.position] == before.slots[l][..before.position]
  }

  /** A successful call at the watermark. */
  ghost predicate Forwards(m: Llama, lo: nat, hi: nat, before: Cache, start: nat, h: seq<Row>, after: Cache,
                           out: seq<Row>) {
    && CacheOk(m, lo, hi, before) && start == before.position
    && Ran(m, lo, hi, before.slots, start, h, after.slots)
    && after.position == start + |h| && Leaving(m, lo, hi, before.slots, start, h, out)
  }

  /** `out` is the rows that leave the range. */
  ghost predicate Leaving(m: Llama, lo: nat, hi: nat, slots: seq<seq<KV>>, start: nat, h: seq<Row>, out: seq<Row>)
    requires Writable(slots, lo, hi, start)
  {
    |out| == |h| && forall i: nat | i < |h| :: LeavesAt(m, lo, hi, slots, start, h, out, i)
  }

  ghost predicate LeavesAt(m: Llama, lo: nat, hi: nat, slots: seq<seq<KV>>, start: nat, h: seq<Row>, out: seq<Row>,
                           i: nat)
    requires Writable(slots, lo, hi, start)
  {
    i < |out| == |h| && out[i] == Through(m, lo, hi, slots, start, h)[i]
  }

  lemma LeavingRows(m: Llama, lo: nat, hi: nat, slots: seq<seq<KV>>, start: nat, h: seq<Row>, out: seq<Row>)
    requires Writable(slots, lo, hi, start)
    ensures Leaving(m, lo, hi, slots, start, h, out) <==> out == Through(m, lo, hi, slots, start, h)
  {
    var rows := Through(m, lo, hi, slots, start, h);
    if Leaving(m, lo, hi, slots, start, h, out) {
      forall i: nat | i < |h|
        ensures out[i] == rows[i]
      {
        assert LeavesAt(m, lo, hi, slots, start, h, out, i);
      }
    }
  }

  lemma ForwardsHidden(m: Llama, lo: nat, hi: nat, before: Cache, start: nat, h: seq<Row>, tokens: seq<nat>,
                       after: Cache, out: seq<Row>)
    requires Entering(m, tokens, lo, start, h) && Holds(m, lo, hi, before, tokens[..start])
    requires Forwards(m, lo, hi, before, start, h, after, out)
    ensures Entering(m, tokens, hi, start, out) && Holds(m, lo, hi, after, tokens)
  {
    LeavingRows(m, lo, hi, before.slots, start, h, out);
    ThroughIsHidden(m, lo, hi, before.slots, start, h, tokens, out);
    ForwardsKeepOk(m, lo, hi, before, start, h, after, out);
    forall k: nat | lo <= k < hi
      ensures HoldsAt(m, after.slots, tokens, k)
    {
      assert HoldsAt(m, before.slots, tokens[..start], k) && RanAt(m, lo, hi, before.slots, start, h, after.slots, k);
      ThroughIsHidden(m, lo, k, before.slots, start, h, tokens, Through(m, lo, k, before.slots, start, h));
      LayerIsHidden(m, k, before.slots[k], start, Through(m, lo, k, before.slots, start, h), tokens);
    }
  }

  lemma ForwardsKeepOk(m: Llama, lo: nat, hi: nat, before: Cache, start: nat, h: seq<Row>, after: Cache, out: seq<Row>)
    requires Forwards(m, lo, hi, before, start, h, after, out)
    ensures CacheOk(m, lo, hi, after) && |out| == |h|
  {
    forall k: nat | lo <= k < hi
      ensures after.position <= |after.slots[k]|
    {
      assert RanAt(m, lo, hi, before.slots, start, h, after.slots, k);
    }
  }

  /** The rows a call at the watermark would leave; whether the session has room for them is its own check. */
  lemma ForwardsExist(m: Llama, lo: nat, hi: nat, before: Cache, h: seq<Row>) returns (after: Cache, out: seq<Row>)
    requires CacheOk(m, lo, hi, before)
    ensures Forwards(m, lo, hi, before, before.position, h, after, out)
  {
    var slots, start := before.slots, before.position;
    after := Cache(seq(|slots|, k requires 0 <= k < |slots| => SlotAfter(m, lo, hi, slots, start, h, k)), start + |h|);
    out := Through(m, lo, hi, slots, start, h);
    LeavingRows(m, lo, hi, slots, start, h, out);
    forall k: nat | k < |after.slots|
      ensures RanAt(m, lo, hi, slots, start, h, after.slots, k)
    {
    }
  }

  lemma NotYetRun(m: Llama, lo: nat, l: nat, hi: nat, before: seq<seq<KV>>, start: nat, h: seq<Row>,
                  after: seq<seq<KV>>)
    requires l < hi && Writable(before, lo, hi, start) && Ran(m, lo, l, before, start, h, after)
    ensures |after| == |before| && after[l] == before[l] && start <= |after[l]|
  {
    assert RanAt(m, lo, l, before, start, h, after, l);
  }

  lemma RanStep(m: Llama, lo: nat, l: nat, l': nat, before: seq<seq<KV>>, start: nat, h: seq<Row>,
                after: seq<seq<KV>>, next: seq<seq<KV>>)
    requires l' == l + 1 && Writable(before, lo, l', start) && Ran(m, lo, l, before, start, h, after)
    requires start <= |after[l]|
             && next == after[l := LayerSlot(m, l, after[l], start, Through(m, lo, l, before, start, h))]
    ensures Ran(m, lo, l', before, start, h, next)
  {
    forall k: nat | k < |next|
      ensures RanAt(m, lo, l', before, start, h, next, k)
    {
      RanStepAt(m, lo, l, l', before, start, h, after, next, k);
    }
  }

  lemma RanStepAt(m: Llama, lo: nat, l: nat, l': nat, before: seq<seq<KV>>, start: nat, h: seq<Row>,
                  after: seq<seq<KV>>, next: seq<seq<KV>>, k: nat)
    requires l' == l + 1 && Writable(before, lo, l', start) && Ran(m, lo, l, before, start, h, after) && l < |before|
    requires start <= |after[l]|
             && next == after[l := LayerSlot(m, l, after[l], start, Through(m, lo, l, before, start, h))]
    requires k < |next|
    ensures RanAt(m, lo, l', before, start, h, next, k)
  {
    assert RanAt(m, lo, l, before, start, h, after, k);
  }

  lemma RanKeeps(m: Llama, lo: nat, l: nat, hi: nat, before: Cache, h: seq<Row>, after: Cache)
    requires CacheOk(m, lo, hi, before) && l <= hi && Ran(m, lo, l, before.slots, before.position, h, after.slots)
    requires after.position == before.position
    ensures KeepsCommitted(m, lo, hi, before, after)
  {
    forall k: nat | lo <= k < hi
      ensures before.position <= |after.slots[k]|
              && after.slots[k][..before.position] == before.slots[k][..before.position]
    {
      assert RanAt(m, lo, l, before.slots, before.position, h, after.slots, k);
    }
  }

  /** None of the layers fails on the device. */
  ghost predicate Healthy(lo: nat, hi: nat, faults: set<nat>) {
    forall l: nat | lo <= l < hi :: l !in faults
  }

  /** The layer loop after `l` layers. */
  ghost predicate RanTo(m: Llama, lo: nat, l: nat, slots: seq<seq<KV>>, start: nat, h: seq<Row>,
                        after: seq<seq<KV>>, out: seq<Row>)
  {
    && Writable(slots, lo, l, start)
    && Ran(m, lo, l, slots, start, h, after) && out == Through(m, lo, l, slots, start, h)
  }

  /** One layer: its rows are stored and its output goes on. */
  method RunLayer(m: Llama, ghost lo: nat, l: nat, ghost slots: seq<seq<KV>>, start: nat, ghost h: seq<Row>,
                  after: seq<seq<KV>>, out: seq<Row>)
    returns (next: seq<seq<KV>>, rows: seq<Row>)
    requires Writable(slots, lo, l + 1, start) && lo <= l && RanTo(m, lo, l, slots, start, h, after, out)
    ensures RanTo(m, lo, l + 1, slots, start, h, next, rows)
  {
    NotYetRun(m, lo, l, l + 1, slots, start, h, after);
    next := after[l := LayerSlot(m, l, after[l], start, out)];
    rows := LayerOut(m, l, after[l], start, out);
    RanStep(m, lo, l, l + 1, slots, start, h, after, next);
  }

  /** The layer loop; `ran` is the layer it stopped at. Every layer asks for the same room. */
  method RunLayers(m: Llama, lo: nat, hi: nat, slots: seq<seq<KV>>, start: nat, h: seq<Row>, room: bool,
                   faults: set<nat>)
    returns (ok: bool, after: seq<seq<KV>>, out: seq<Row>, ran: nat)
    requires Writable(slots, lo, hi, start)
    ensures lo <= ran <= hi && RanTo(m, lo, ran, slots, start, h, after, out)
    ensures ok ==> ran == hi
    ensures ok <==> (lo < hi ==> room) && Healthy(lo, hi, faults)
  {
    after, out, ran := slots, h, lo;
    while ran < hi
      invariant lo <= ran <= hi && RanTo(m, lo, ran, slots, start, h, after, out)
      invariant lo < ran ==> room
      invariant Healthy(lo, ran, faults)
    {
      if !room || ran in faults {
        return false, after, out, ran;
      }
      after, out := RunLayer(m, lo, ran, slots, start, h, after, out);
      ran := ran + 1;
    }
    ok := true;
  }

  /** A session over layers `lo..hi`. */
  class Shard {
    const m: Llama
    const lo: nat
    const hi: nat
    const kv: KvPlan
    var slots: seq<seq<KV>>
    var position: nat
    var reserved: nat

    ghost function State(): Cache
      reads this
    {
      Cache(slots, position)
    }

    ghost predicate Valid()
      reads this
    {
      CacheOk(m, lo, hi, State()) && Admits(kv, reserved) && Grown(kv, reserved) == reserved
    }

    constructor (m: Llama, lo: nat, hi: nat, kv: KvPlan)
      requires lo <= hi <= m.layers
      ensures Valid() && this.m == m && this.lo == lo && this.hi == hi && this.kv == kv && position == 0
    {
      this.m, this.lo, this.hi, this.kv := m, lo, hi, kv;
      slots, position, reserved := seq(m.layers, _ => []), 0, 0;
      NothingReserved(kv);
    }

    /** `ensure_position_capacity`: what is already allocated never changes the answer. */
    method EnsureCapacity(required: nat) returns (ok: bool)
      requires Valid()
      modifies this`reserved
      ensures Valid() && ok == Admits(kv, required)
      ensures reserved == if ok && required > old(reserved) then Grown(kv, required) else old(reserved)
    {
      if required > kv.context {
        return false;
      }
      if required <= reserved {
        AdmitsShorter(kv, required, reserved);
        return true;
      }
      GrownIsFixed(kv, required);
      var target := Grown(kv, required);
      if Saturated(target * kv.rowBytes) > kv.budget {
        return false;
      }
      reserved := target;
      ok := true;
    }

    /** `forward_layer_range_from_hidden`: refused unless the rows start at the watermark and the cache has
        room for them; a layer may fail part-way, after earlier layers have already written their rows. */
    method ForwardLayerRange(h: seq<Row>, start: nat, faults: set<nat>) returns (r: Result<seq<Row>>)
      requires Valid()
      modifies this
      ensures Valid()
      ensures start != old(position) ==> r.Err? && State() == old(State())
      ensures r.Ok? <==> start == old(position) && RoomFor(kv, lo, hi, start + |h|) && Healthy(lo, hi, faults)
      ensures r.Ok? ==> Forwards(m, lo, hi, old(State()), start, h, State(), r.value)
      ensures r.Err? ==> KeepsCommitted(m, lo, hi, old(State()), State())
      ensures reserved != old(reserved) ==> lo < hi && start == old(position) && old(reserved) < start + |h|
    {
      if start != position {
        return Err;
      }
      ghost var before := State();
      var room := false;
      if lo < hi {
        room := EnsureCapacity(start + |h|);
      }
      var ok, after, out, ran := RunLayers(m, lo, hi, slots, start, h, room, faults);
      slots := after;
      if !ok {
        RanKeeps(m, lo, ran, hi, before, h, State());
        return Err;
      }
      position := position + |h|;
      LeavingRows(m, lo, hi, before.slots, start, h, out);
      ForwardsKeepOk(m, lo, hi, before, start, h, State(), out);
      r := Ok(out);
    }
  }

  /** The last row's greedy token, from rows of the whole stack. */
  lemma LastRowToken(m: Llama, tokens: seq<nat>, start: nat, out: seq<Row>)
    requires start < |tokens| && Entering(m, tokens, m.layers, start, out)
    ensures |out| > 0 && Argmax(m.logits(out[|out| - 1])) == NextToken(m, tokens)
  {
    assert EntersAt(m, tokens, m.layers, start, out, |out| - 1);
  }

  /** Rows embedded for the tail of `tokens`. */
  lemma EmbedsSuffix(m: Llama, tokens: seq<nat>, start: nat)
    requires start <= |tokens|
    ensures Entering(m, tokens, 0, start, Embeds(m, tokens[start..]))
  {
    EnteringRows(m, tokens, 0, start, Embeds(m, tokens[start..]));
  }

  /** One forward of the whole stack for the tail of `prompt + gen`, followed by the last row's argmax. */
  method NextGreedy(full: Shard, ghost tokens: seq<nat>, tail: seq<nat>, pos: nat, faults: set<nat>)
    returns (r: Result<nat>)
    requires full.Valid() && full.lo == 0 && full.hi == full.m.layers
    requires pos < |tokens| && tail == tokens[pos..]
    requires full.position == pos ==> Holds(full.m, 0, full.hi, full.State(), tokens[..pos])
    modifies full
    ensures full.Valid()
    ensures r.Ok? <==>
            && Embeddable(full.m, tail) && pos == old(full.position)
            && RoomFor(full.kv, 0, full.hi, |tokens|) && Healthy(0, full.hi, faults)
    ensures r.Ok? ==> r.value == NextToken(full.m, tokens) && Holds(full.m, 0, full.hi, full.State(), tokens)
  {
    if !Embeddable(full.m, tail) {
      return Err;
    }
    ghost var before := full.State();
    EmbedsSuffix(full.m, tokens, pos);
    var out := full.ForwardLayerRange(Embeds(full.m, tail), pos, faults);
    if out.Err? {
      return Err;
    }
    ForwardsHidden(full.m, 0, full.hi, before, pos, Embeds(full.m, tail), tokens, full.State(), out.value);
    LastRowToken(full.m, tokens, pos, out.value);
    var token := ScanArgmax(full.m.logits(out.value[|out.value| - 1]));
    r := Ok(token);
  }

  /** A run always emits the prefill's token. */
  function Count(maxTokens: nat): nat {
    if maxTokens == 0 then 1 else maxTokens
  }

  /** The last generated token is all that the cache does not hold yet. */
  lemma Tail(prompt: seq<nat>, gen: seq<nat>, last: nat, pos: nat)
    requires gen != [] && last == gen[|gen| - 1] && pos == |prompt| + (|gen| - 1)
    ensures (prompt + gen)[..pos] == prompt + gen[..|gen| - 1] && [last] == (prompt + gen)[pos..]
  {
  }

  /** A generated token can be embedded again. */
  lemma NextEmbeddable(m: Llama, tokens: seq<nat>)
    requires ValidModel(m) && tokens != []
    ensures NextToken(m, tokens) < m.vocab
  {
    var row := Hidden(m, tokens, m.layers)[|tokens| - 1];
    ArgmaxIsFirstLargest(m.logits(row));
  }

  /** A single session can generate `n` tokens: their ids and positions are ones it has. */
  predicate FitsAlone(m: Llama, kv: KvPlan, prompt: seq<nat>, n: nat) {
    Embeddable(m, prompt) && (n > 0 ==> RoomFor(kv, 0, m.layers, |prompt| + n - 1))
  }

  lemma FitsAloneShorter(m: Llama, kv: KvPlan, prompt: seq<nat>, a: nat, b: nat)
    requires a <= b && FitsAlone(m, kv, prompt, b)
    ensures FitsAlone(m, kv, prompt, a)
  {
    if 0 < a && 0 < m.layers {
      AdmitsShorter(kv, |prompt| + a - 1, |prompt| + b - 1);
    }
  }

  /** No device failure in the first `n` calls. */
  ghost predicate HealthyRun(m: Llama, faults: nat -> set<nat>, n: nat) {
    forall i: nat | i < n :: Healthy(0, m.layers, faults(i))
  }

  /** What stands between a session and the first `n` tokens. */
  ghost predicate CanGenerate(m: Llama, kv: KvPlan, prompt: seq<nat>, faults: nat -> set<nat>, n: nat) {
    FitsAlone(m, kv, prompt, n) && HealthyRun(m, faults, n)
  }

  lemma CanGenerateFewer(m: Llama, kv: KvPlan, prompt: seq<nat>, faults: nat -> set<nat>, a: nat, b: nat)
    requires a <= b
    ensures CanGenerate(m, kv, prompt, faults, b) ==> CanGenerate(m, kv, prompt, faults, a)
  {
    if CanGenerate(m, kv, prompt, faults, b) {
      FitsAloneShorter(m, kv, prompt, a, b);
    }
  }

  /** The reference run after `gen`: all but its last token are in the cache. */
  ghost predicate Generated(m: Llama, prompt: seq<nat>, c: Cache, gen: seq<nat>)
    requires prompt != []
  {
    && gen != [] && IsGreedy(m, prompt, gen) && Holds(m, 0, m.layers, c, prompt + gen[..|gen| - 1])
    && (ValidModel(m) ==> Embeddable(m, gen))
  }

  lemma AllButLastHeld(m: Llama, prompt: seq<nat>, c: Cache, gen: seq<nat>, last: nat, pos: nat)
    requires prompt != [] && Generated(m, prompt, c, gen) && last == gen[|gen| - 1] && pos == |prompt| + (|gen| - 1)
    ensures var tokens := prompt + gen;
            && c.position == pos && [last] == tokens[pos..] && Holds(m, 0, m.layers, c, tokens[..pos])
            && (ValidModel(m) ==> Embeddable(m, [last]))
  {
    Tail(prompt, gen, last, pos);
  }

  lemma CanGenerateNext(m: Llama, kv: KvPlan, prompt: seq<nat>, faults: nat -> set<nat>, n: nat)
    requires n > 0 && CanGenerate(m, kv, prompt, faults, n)
    ensures CanGenerate(m, kv, prompt, faults, n + 1)
            <==> RoomFor(kv, 0, m.layers, |prompt| + n) && Healthy(0, m.layers, faults(n))
  {
  }

  lemma OneMore(m: Llama, prompt: seq<nat>, c: Cache, gen: seq<nat>, token: nat)
    requires prompt != [] && IsGreedy(m, prompt, gen) && token == NextToken(m, prompt + gen)
    requires Holds(m, 0, m.layers, c, prompt + gen) && (ValidModel(m) ==> Embeddable(m, gen))
    ensures Generated(m, prompt, c, gen + [token])
  {
    assert (gen + [token])[..|gen|] == gen;
    GreedySnoc(m, prompt, gen, token);
    if ValidModel(m) {
      NextEmbeddable(m, prompt + gen);
    }
  }

  /** The prefill and its token. */
  method ReferenceFirst(full: Shard, prompt: seq<nat>, faults: nat -> set<nat>) returns (r: Result<nat>)
    requires full.Valid() && full.lo == 0 && full.hi == full.m.layers && prompt != []
    modifies full
    ensures full.Valid()
    ensures r.Ok? <==> old(full.position) == 0 && CanGenerate(full.m, full.kv, prompt, faults, 1)
    ensures r.Ok? ==> Generated(full.m, prompt, full.State(), [r.value])
  {
    if full.position == 0 {
      NothingHeld(full.m, 0, full.hi, full.State());
    }
    assert prompt[..0] == [] && prompt[0..] == prompt && prompt + [] == prompt;
    r := NextGreedy(full, prompt, prompt, 0, faults(0));
    if r.Ok? {
      OneMore(full.m, prompt, full.State(), [], r.value);
      assert [] + [r.value] == [r.value];
    }
  }

  /** One more token of the reference run. */
  method ReferenceStep(full: Shard, prompt: seq<nat>, gen: seq<nat>, faults: nat -> set<nat>) returns (r: Result<nat>)
    requires full.Valid() && full.lo == 0 && full.hi == full.m.layers && prompt != []
    requires Generated(full.m, prompt, full.State(), gen)
    requires CanGenerate(full.m, full.kv, prompt, faults, |gen|)
    modifies full
    ensures full.Valid()
    ensures r.Ok? ==> CanGenerate(full.m, full.kv, prompt, faults, |gen| + 1)
    ensures r.Err? && ValidModel(full.m) ==> !CanGenerate(full.m, full.kv, prompt, faults, |gen| + 1)
    ensures r.Ok? ==> Generated(full.m, prompt, full.State(), gen + [r.value])
  {
    var last, pos := gen[|gen| - 1], |prompt| + (|gen| - 1);
    AllButLastHeld(full.m, prompt, full.State(), gen, last, pos);
    CanGenerateNext(full.m, full.kv, prompt, faults, |gen|);
    r := NextGreedy(full, prompt + gen, [last], pos, faults(|gen|));
    if r.Ok? {
      OneMore(full.m, prompt, full.State(), gen, r.value);
    }
  }

  /** `reference`: single-node greedy decoding; an error stands for the source's panic. On a fresh session it
      succeeds exactly when the run fits the session and no device call fails. */
  method Reference(full: Shard, prompt: seq<nat>, maxTokens: nat, faults: nat -> set<nat>)
    returns (r: Result<seq<nat>>)
    requires full.Valid() && full.lo == 0 && full.hi == full.m.layers && prompt != []
    modifies full
    ensures ValidModel(full.m) ==>
              (r.Ok? <==>
               && old(full.position) == 0 && (forall k | 0 <= k < |prompt| :: prompt[k] < full.m.vocab)
               && (full.m.layers > 0 ==>
                     Admits(full.kv, |prompt| + (if maxTokens == 0 then 1 else maxTokens) - 1))
               && forall i: nat | i < (if maxTokens == 0 then 1 else maxTokens) :: Healthy(0, full.m.layers, faults(i)))
    ensures r.Ok? ==> |r.value| == (if maxTokens == 0 then 1 else maxTokens) && IsGreedy(full.m, prompt, r.value)
  {
    CanGenerateIff(full.m, full.kv, prompt, faults, if maxTokens == 0 then 1 else maxTokens);
    r := ReferenceLoop(full, prompt, maxTokens, faults);
  }

  lemma CanGenerateIff(m: Llama, kv: KvPlan, prompt: seq<nat>, faults: nat -> set<nat>, n: nat)
    requires n > 0
    ensures CanGenerate(m, kv, prompt, faults, n)
            <==>
            && (forall k | 0 <= k < |prompt| :: prompt[k] < m.vocab)
            && (m.layers > 0 ==> Admits(kv, |prompt| + n - 1))
            && forall i: nat | i < n :: Healthy(0, m.layers, faults(i))
  {
  }

  method ReferenceLoop(full: Shard, prompt: seq<nat>, maxTokens: nat, faults: nat -> set<nat>)
    returns (r: Result<seq<nat>>)
    requires full.Valid() && full.lo == 0 && full.hi == full.m.layers && prompt != []
    modifies full
    ensures ValidModel(full.m) ==>
              (r.Ok? <==>
               old(full.position) == 0 && CanGenerate(full.m, full.kv, prompt, faults, Count(maxTokens)))
    ensures r.Ok? ==> |r.value| == Count(maxTokens) && IsGreedy(full.m, prompt, r.value)
  {
    ghost var m, kv, n := full.m, full.kv, Count(maxTokens);
    CanGenerateFewer(m, kv, prompt, faults, 1, n);
    var first := ReferenceFirst(full, prompt, faults);
    if first.Err? {
      return Err;
    }
    var gen := [first.value];
    while |gen| < maxTokens
      invariant full.Valid() && |gen| <= n && Generated(m, prompt, full.State(), gen)
      invariant CanGenerate(m, kv, prompt, faults, |gen|)
    {
      CanGenerateFewer(m, kv, prompt, faults, |gen| + 1, n);
      var next := ReferenceStep(full, prompt, gen, faults);
      if next.Err? {
        return Err;
      }
      gen := gen + [next.value];
    }
    r := Ok(gen);
  }

  lemma NothingHeld(m: Llama, lo: nat, hi: nat, c: Cache)
    requires CacheOk(m, lo, hi, c) && c.position == 0
    ensures Holds(m, lo, hi, c, [])
  {
    forall l: nat | lo <= l < hi
      ensures HoldsAt(m, c.slots, [], l)
    {
      assert KVs(m, l, Hidden(m, [], l), 0) == [];
    }
  }
}
