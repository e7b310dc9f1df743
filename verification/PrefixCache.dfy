/** The unified `[prompt | canvas]` forward of the block-diffusion decoder and its prefix-KV step cache
    (src/diffusion_gemma.rs). */
module PrefixCache {
  import opened Prelude

  type Row = seq<real>
  type KV = seq<real>

  /** Self-conditioning input of a step: the previous step's raw canvas logits and inverse temperature,
      or nothing on the gated-off first step. */
  datatype SelfCond = Off | On(logits: seq<Row>, tempInv: real)

  /** Row mathematics. Attention sees exactly the allowed K/V pairs, keyed by absolute position; `readable` says which
      token ids have an embedding row in the mapped file. */
  datatype Net = Net(
    layers: nat,
    canvasLength: nat,
    window: nat,
    readable: nat -> bool,
    sliding: nat -> bool,
    embedPrompt: nat -> Row,
    embedCanvas: (nat, SelfCond, nat) -> Row,
    kv: (nat, Row, nat) -> KV,
    attend: (nat, Row, nat, map<nat, KV>) -> Row,
    feedForward: (nat, bool, Row) -> Row,
    logits: Row -> Row)

  predicate Readable(net: Net, tokens: seq<nat>) {
    forall i | 0 <= i < |tokens| :: net.readable(tokens[i])
  }

  // ---- The region mask ----------------------------------------------------------------------

  /** Prompt queries are causal over the prompt (window-clipped on sliding layers); canvas queries see
      the whole canvas and, on sliding layers, only the last `window - 1` prompt positions. */
  predicate Allow(net: Net, layer: nat, p: nat, query: nat, key: nat) {
    if query >= p then
      !net.sliding(layer) || key >= p || key >= p - net.window + 1
    else
      key <= query && (!net.sliding(layer) || key + net.window > query)
  }

  function Allowed(net: Net, layer: nat, p: nat, query: nat, kvs: seq<KV>): map<nat, KV> {
    map k: nat | k < |kvs| && Allow(net, layer, p, query, k) :: kvs[k]
  }

  // ---- The plain full forward -----------------------------------------------------------------

  function KVs(net: Net, layer: nat, h: seq<Row>, row0: nat): (r: seq<KV>)
    ensures |r| == |h|
  {
    seq(|h|, i requires 0 <= i < |h| => net.kv(layer, h[i], row0 + i))
  }

  /** One row of one layer: masked attention over the context, then the region-aware feed-forward. */
  function LayerRow(net: Net, layer: nat, p: nat, row: Row, pos: nat, context: seq<KV>): Row {
    net.feedForward(layer, pos < p, net.attend(layer, row, pos, Allowed(net, layer, p, pos, context)))
  }

  ghost function Embedded(net: Net, prompt: seq<nat>, canvas: seq<nat>, sc: SelfCond): (h: seq<Row>)
    ensures |h| == |prompt| + |canvas|
  {
    seq(|prompt| + |canvas|, i requires 0 <= i < |prompt| + |canvas| =>
      if i < |prompt| then net.embedPrompt(prompt[i]) else net.embedCanvas(canvas[i - |prompt|], sc, i - |prompt|))
  }

  /** The hidden rows of the whole `[prompt | canvas]` context after `l` layers. */
  ghost function Hidden(net: Net, prompt: seq<nat>, canvas: seq<nat>, sc: SelfCond, l: nat): (h: seq<Row>)
    ensures |h| == |prompt| + |canvas|
  {
    if l == 0 then Embedded(net, prompt, canvas, sc)
    else
      FullLayer(net, l - 1, |prompt|, Hidden(net, prompt, canvas, sc, l - 1))
  }

  ghost function FullLayer(net: Net, layer: nat, p: nat, h: seq<Row>): (r: seq<Row>)
    ensures |r| == |h|
    ensures forall i | 0 <= i < |h| :: r[i] == LayerRow(net, layer, p, h[i], i, KVs(net, layer, h, 0))
  {
    seq(|h|, i requires 0 <= i < |h| => LayerRow(net, layer, p, h[i], i, KVs(net, layer, h, 0)))
  }

  /** The reference: canvas-row logits of the plain full forward. */
  ghost function FullLogits(net: Net, prompt: seq<nat>, canvas: seq<nat>, sc: SelfCond): (r: seq<Row>)
    ensures |r| == |canvas|
  {
    var h := Hidden(net, prompt, canvas, sc, net.layers);
    seq(|canvas|, i requires 0 <= i < |canvas| => net.logits(h[|prompt| + i]))
  }

  // ---- What each row sees ---------------------------------------------------------------------

  /** Position `k` as row `q` of a layer sees it. On a global layer the canvas sees everything and a prompt row what
      is not after it. A sliding layer also cuts the prompt off `window` positions back, counted from the row for
      prompt rows and from the start of the canvas for canvas rows; it never cuts the canvas. */
  predicate Sees(sliding: bool, window: nat, p: nat, q: nat, k: nat) {
    && (q < p ==> k <= q && (sliding ==> q < k + window))
    && (q >= p && sliding && k < p ==> p < k + window)
  }

  lemma AllowedKeys(net: Net, layer: nat, p: nat, q: nat, kvs: seq<KV>)
    ensures forall k: nat :: k in Allowed(net, layer, p, q, kvs)
                             <==> k < |kvs| && Sees(net.sliding(layer), net.window, p, q, k)
  {
    forall k: nat
      ensures k in Allowed(net, layer, p, q, kvs)
              <==> k < |kvs| && Sees(net.sliding(layer), net.window, p, q, k)
    {
      assert Allow(net, layer, p, q, k) <==> Sees(net.sliding(layer), net.window, p, q, k);
    }
  }

  /** Row `q` of layer `l + 1` attends to exactly the positions it sees, each with the K/V of that position's row at its
      own absolute position, and goes through the feed-forward of its side of the region split. */
  lemma RowEquation(net: Net, prompt: seq<nat>, canvas: seq<nat>, sc: SelfCond, l: nat, q: nat, kvs: map<nat, KV>)
    requires q < |prompt| + |canvas|
    requires forall k: nat :: k in kvs <==> k < |prompt| + |canvas| && Sees(net.sliding(l), net.window, |prompt|, q, k)
    requires forall k: nat | k in kvs :: kvs[k] == net.kv(l, Hidden(net, prompt, canvas, sc, l)[k], k)
    ensures Hidden(net, prompt, canvas, sc, l + 1)[q]
            == net.feedForward(l, q < |prompt|, net.attend(l, Hidden(net, prompt, canvas, sc, l)[q], q, kvs))
  {
    LayerRowEquation(net, l, |prompt|, Hidden(net, prompt, canvas, sc, l), q, kvs);
  }

  lemma LayerRowEquation(net: Net, l: nat, p: nat, h: seq<Row>, q: nat, kvs: map<nat, KV>)
    requires q < |h|
    requires forall k: nat :: k in kvs <==> k < |h| && Sees(net.sliding(l), net.window, p, q, k)
    requires forall k: nat | k in kvs :: kvs[k] == net.kv(l, h[k], k)
    ensures FullLayer(net, l, p, h)[q] == net.feedForward(l, q < p, net.attend(l, h[q], q, kvs))
  {
    var all := KVs(net, l, h, 0);
    AllowedKeys(net, l, p, q, all);
    forall k: nat | k in kvs
      ensures k in Allowed(net, l, p, q, all) && Allowed(net, l, p, q, all)[k] == kvs[k]
    {
      assert all[k] == net.kv(l, h[k], 0 + k);
    }
    assert Allowed(net, l, p, q, all) == kvs;
  }

  /** One layer that writes, in every row, whether the row sees position `k`. */
  ghost function Eye(sliding: bool, window: nat, k: nat, c: nat): Net {
    Net(1, c, window, _ => true, _ => sliding, _ => [], (_, _, _) => [], (_, _, _) => [],
        (_, _, _, kvs) => [if k in kvs then 1.0 else 0.0], (_, _, row) => row, row => row)
  }

  lemma EyeRow(sliding: bool, window: nat, k: nat, c: nat, p: nat, h: seq<Row>, q: nat)
    requires q < |h| && k < |h|
    ensures FullLayer(Eye(sliding, window, k, c), 0, p, h)[q]
            == [if Sees(sliding, window, p, q, k) then 1.0 else 0.0]
  {
    var net := Eye(sliding, window, k, c);
    var all := KVs(net, 0, h, 0);
    AllowedKeys(net, 0, p, q, all);
    LayerRowEquation(net, 0, p, h, q, Allowed(net, 0, p, q, all));
  }

  /** A prompt row sees exactly what is not after it and, on a sliding layer, less than a window back. */
  lemma PromptSees(sliding: bool, window: nat, prompt: seq<nat>, canvas: seq<nat>, sc: SelfCond, q: nat, k: nat)
    requires q < |prompt| && k < |prompt| + |canvas|
    ensures Hidden(Eye(sliding, window, k, |canvas|), prompt, canvas, sc, 1)[q]
            == [if k <= q && (sliding ==> k + window > q) then 1.0 else 0.0]
  {
    var net := Eye(sliding, window, k, |canvas|);
    EyeRow(sliding, window, k, |canvas|, |prompt|, Hidden(net, prompt, canvas, sc, 0), q);
  }

  /** A canvas row sees the whole canvas and, in the logits, prompt position `k` on every global layer and on a sliding
      one exactly when it is less than a window before the canvas. */
  lemma CanvasSees(sliding: bool, window: nat, prompt: seq<nat>, canvas: seq<nat>, sc: SelfCond, j: nat, k: nat)
    requires j < |canvas| && k < |prompt| + |canvas|
    ensures FullLogits(Eye(sliding, window, k, |canvas|), prompt, canvas, sc)[j]
            == [if sliding && k < |prompt| && k + window <= |prompt| then 0.0 else 1.0]
  {
    var net := Eye(sliding, window, k, |canvas|);
    EyeRow(sliding, window, k, |canvas|, |prompt|, Hidden(net, prompt, canvas, sc, 0), |prompt| + j);
    assert Hidden(net, prompt, canvas, sc, 1)
           == FullLayer(net, 0, |prompt|, Hidden(net, prompt, canvas, sc, 0));
  }

  /** Prompt ids and canvas ids go through their own embeddings, the canvas with its own positions. */
  lemma FirstRows(net: Net, prompt: seq<nat>, canvas: seq<nat>, sc: SelfCond)
    ensures |Hidden(net, prompt, canvas, sc, 0)| == |prompt| + |canvas|
    ensures forall i | 0 <= i < |prompt| :: Hidden(net, prompt, canvas, sc, 0)[i] == net.embedPrompt(prompt[i])
    ensures forall j | 0 <= j < |canvas| ::
              Hidden(net, prompt, canvas, sc, 0)[|prompt| + j] == net.embedCanvas(canvas[j], sc, j)
  {
    assert Hidden(net, prompt, canvas, sc, 0) == Embedded(net, prompt, canvas, sc);
  }

  /** The logits are read off the canvas rows of the last layer. */
  lemma LastRows(net: Net, prompt: seq<nat>, canvas: seq<nat>, sc: SelfCond, j: nat)
    requires j < |canvas|
    ensures FullLogits(net, prompt, canvas, sc)[j]
            == net.logits(Hidden(net, prompt, canvas, sc, net.layers)[|prompt| + j])
  {
    LogitsOfRow(net, Hidden(net, prompt, canvas, sc, net.layers), |prompt|, j);
  }

  lemma LogitsOfRow(net: Net, rows: seq<Row>, skip: nat, j: nat)
    requires skip + j < |rows|
    ensures CanvasLogits(net, rows, skip)[j] == net.logits(rows[skip + j])
  {
  }

  // ---- Prompt rows do not see the canvas --------------------------------------------------------

  /** What a query attends to depends on the context only where the mask admits it. */
  lemma AllowedDependsOnAdmitted(net: Net, layer: nat, p: nat, query: nat, a: seq<KV>, b: seq<KV>)
    requires forall k: nat | Allow(net, layer, p, query, k) :: (k < |a| <==> k < |b|) && (k < |a| ==> a[k] == b[k])
    ensures Allowed(net, layer, p, query, a) == Allowed(net, layer, p, query, b)
  {
  }

  /** Mask invariance, by induction over the layers: the prompt's hidden rows are the same whatever the
      canvas holds and however the step is conditioned. */
  lemma {:induction false} PromptRowsInvariant(net: Net, prompt: seq<nat>, c1: seq<nat>, s1: SelfCond,
                                               c2: seq<nat>, s2: SelfCond, l: nat)
    ensures Hidden(net, prompt, c1, s1, l)[..|prompt|] == Hidden(net, prompt, c2, s2, l)[..|prompt|]
    decreases l
  {
    var p := |prompt|;
    if l == 0 {
      assert Embedded(net, prompt, c1, s1)[..p] == Embedded(net, prompt, c2, s2)[..p];
    } else {
      PromptRowsInvariant(net, prompt, c1, s1, c2, s2, l - 1);
      PromptLayerSame(net, l - 1, p, Hidden(net, prompt, c1, s1, l - 1), Hidden(net, prompt, c2, s2, l - 1));
    }
  }

  lemma PromptLayerSame(net: Net, layer: nat, p: nat, h1: seq<Row>, h2: seq<Row>)
    requires p <= |h1| && p <= |h2| && h1[..p] == h2[..p]
    ensures FullLayer(net, layer, p, h1)[..p] == FullLayer(net, layer, p, h2)[..p]
  {
    forall i | 0 <= i < p
      ensures FullLayer(net, layer, p, h1)[i] == FullLayer(net, layer, p, h2)[i]
    {
      PromptRowSame(net, layer, p, h1, h2, i);
    }
  }

  lemma PromptRowSame(net: Net, layer: nat, p: nat, h1: seq<Row>, h2: seq<Row>, i: nat)
    requires i < p <= |h1| && p <= |h2| && h1[..p] == h2[..p]
    ensures LayerRow(net, layer, p, h1[i], i, KVs(net, layer, h1, 0))
            == LayerRow(net, layer, p, h2[i], i, KVs(net, layer, h2, 0))
  {
    assert forall k | 0 <= k < p :: h1[k] == h1[..p][k] == h2[..p][k] == h2[k];
    AllowedDependsOnAdmitted(net, layer, p, i, KVs(net, layer, h1, 0), KVs(net, layer, h2, 0));
  }

  /** The prompt-side K/V of a layer: a function of the prompt alone. */
  ghost function PromptKV(net: Net, prompt: seq<nat>, l: nat): (r: seq<KV>)
    ensures |r| == |prompt|
  {
    KVs(net, l, Hidden(net, prompt, [], Off, l)[..|prompt|], 0)
  }

  lemma PromptKVOfStep(net: Net, prompt: seq<nat>, canvas: seq<nat>, sc: SelfCond, l: nat)
    ensures KVs(net, l, Hidden(net, prompt, canvas, sc, l), 0)[..|prompt|] == PromptKV(net, prompt, l)
  {
    PromptRowsInvariant(net, prompt, canvas, sc, [], Off, l);
    var h := Hidden(net, prompt, canvas, sc, l);
    assert KVs(net, l, h, 0)[..|prompt|] == KVs(net, l, h[..|prompt|], 0);
  }

  // ---- The step cache -------------------------------------------------------------------------

  /** Per-layer prompt K/V; an empty buffer means the layer's fast attention never completed. */
  datatype Cache = Cache(p: nat, kv: seq<seq<KV>>)

  /** The cache holds the K/V of this prompt. */
  ghost predicate Sealed(net: Net, prompt: seq<nat>, c: Cache) {
    && c.p == |prompt| && |c.kv| == net.layers
    && forall l | 0 <= l < net.layers :: c.kv[l] == PromptKV(net, prompt, l)
  }

  ghost predicate Usable(net: Net, prompt: seq<nat>, cache: Option<Cache>) {
    cache.Some? ==> Sealed(net, prompt, cache.value)
  }

  // ---- The cached pass ------------------------------------------------------------------------

  function CanvasEmbedded(net: Net, canvas: seq<nat>, sc: SelfCond): (h: seq<Row>)
    ensures |h| == |canvas| && forall i | 0 <= i < |canvas| :: h[i] == net.embedCanvas(canvas[i], sc, i)
  {
    seq(|canvas|, i requires 0 <= i < |canvas| => net.embedCanvas(canvas[i], sc, i))
  }

  /** One layer over rows at positions `row0..`, with `prefix` standing for the rows before them. */
  function SuffixRows(net: Net, layer: nat, p: nat, row0: nat, prefix: seq<KV>, h: seq<Row>): (r: seq<Row>)
    ensures |r| == |h|
  {
    var context := prefix + KVs(net, layer, h, row0);
    seq(|h|, i requires 0 <= i < |h| => LayerRow(net, layer, p, h[i], row0 + i, context))
  }

  /** The canvas rows after `l` layers of a pass that trusts the cache. It never looks at the prompt. */
  ghost function CachedHidden(net: Net, c: Cache, canvas: seq<nat>, sc: SelfCond, l: nat): (h: seq<Row>)
    requires l <= |c.kv|
    ensures |h| == |canvas|
  {
    if l == 0 then CanvasEmbedded(net, canvas, sc)
    else SuffixRows(net, l - 1, c.p, c.p, c.kv[l - 1], CachedHidden(net, c, canvas, sc, l - 1))
  }

  ghost function CachedLogits(net: Net, c: Cache, canvas: seq<nat>, sc: SelfCond): (r: seq<Row>)
    requires |c.kv| == net.layers
  {
    CanvasLogits(net, CachedHidden(net, c, canvas, sc, net.layers), 0)
  }

  /** Logits of the rows after the first `skip`. */
  function CanvasLogits(net: Net, rows: seq<Row>, skip: nat): (r: seq<Row>)
    requires skip <= |rows|
    ensures |r| == |rows| - skip && forall i | 0 <= i < |r| :: r[i] == net.logits(rows[skip + i])
  {
    seq(|rows| - skip, i requires 0 <= i < |rows| - skip => net.logits(rows[skip + i]))
  }

  /** A layer over a suffix of the context, given the true prefix K/V, yields that suffix of the full
      layer. With an empty prefix this is the full pass; with the prompt's K/V it is the cached pass. */
  lemma SuffixLayer(net: Net, prompt: seq<nat>, canvas: seq<nat>, sc: SelfCond, l: nat, row0: nat, prefix: seq<KV>)
    requires row0 == |prefix| <= |prompt| + |canvas|
    requires prefix == KVs(net, l, Hidden(net, prompt, canvas, sc, l), 0)[..row0]
    ensures SuffixRows(net, l, |prompt|, row0, prefix, Hidden(net, prompt, canvas, sc, l)[row0..])
            == Hidden(net, prompt, canvas, sc, l + 1)[row0..]
  {
    SuffixOfLayer(net, l, |prompt|, Hidden(net, prompt, canvas, sc, l), row0, prefix);
  }

  lemma SuffixOfLayer(net: Net, l: nat, p: nat, h: seq<Row>, row0: nat, prefix: seq<KV>)
    requires row0 == |prefix| <= |h| && prefix == KVs(net, l, h, 0)[..row0]
    ensures SuffixRows(net, l, p, row0, prefix, h[row0..]) == FullLayer(net, l, p, h)[row0..]
  {
    var rows, context := h[row0..], KVs(net, l, h, 0);
    assert prefix + KVs(net, l, rows, row0) == context;
    forall i | 0 <= i < |rows|
      ensures SuffixRows(net, l, p, row0, prefix, rows)[i] == FullLayer(net, l, p, h)[row0..][i]
    {
    }
  }

  /** With a cache sealed for `q` the cached pass is the full forward over `q`, whatever prompt was passed. */
  lemma {:induction false} CachedIsSealed(net: Net, q: seq<nat>, c: Cache, canvas: seq<nat>, sc: SelfCond, l: nat)
    requires Sealed(net, q, c) && l <= net.layers
    ensures CachedHidden(net, c, canvas, sc, l) == Hidden(net, q, canvas, sc, l)[|q|..]
  {
    if l == 0 {
      assert CanvasEmbedded(net, canvas, sc) == Embedded(net, q, canvas, sc)[|q|..];
    } else {
      CachedIsSealed(net, q, c, canvas, sc, l - 1);
      PromptKVOfStep(net, q, canvas, sc, l - 1);
      SuffixLayer(net, q, canvas, sc, l - 1, |q|, c.kv[l - 1]);
    }
  }

  lemma CachedLogitsSealed(net: Net, q: seq<nat>, c: Cache, canvas: seq<nat>, sc: SelfCond)
    requires Sealed(net, q, c)
    ensures CachedLogits(net, c, canvas, sc) == FullLogits(net, q, canvas, sc)
  {
    CachedIsSealed(net, q, c, canvas, sc, net.layers);
    LogitsOfSuffix(net, q, canvas, sc, CachedHidden(net, c, canvas, sc, net.layers), |q|);
  }

  // ---- When a cache may be used ---------------------------------------------------------------

  /** The cached pass over a cache sealed for `q` gives this prompt's logits. */
  ghost predicate Serves(net: Net, q: seq<nat>, prompt: seq<nat>, c: Cache, canvas: seq<nat>, sc: SelfCond) {
    Sealed(net, q, c) && |canvas| == net.canvasLength ==>
      CachedLogits(net, c, canvas, sc) == FullLogits(net, prompt, canvas, sc)
  }

  /** One attention layer that shows every canvas row the embedded prompt token at position `i`. */
  ghost function Spy(i: nat): Net {
    Net(1, 1, 0, _ => true, _ => false, t => [t as real], (_, _, _) => [], (_, row, _) => row,
        (_, _, _, kvs) => if i in kvs then kvs[i] else [], (_, _, row) => row, row => row)
  }

  lemma SpySees(prompt: seq<nat>, i: nat)
    requires i < |prompt|
    ensures FullLogits(Spy(i), prompt, [0], Off) == [[prompt[i] as real]]
  {
    var net, p := Spy(i), |prompt|;
    var h := Hidden(net, prompt, [0], Off, 0);
    var kvs := KVs(net, 0, h, 0);
    assert kvs[i] == h[i] == [prompt[i] as real];
    assert i in Allowed(net, 0, p, p, kvs);
    assert FullLayer(net, 0, p, h)[p] == [prompt[i] as real];
    assert Hidden(net, prompt, [0], Off, 1) == FullLayer(net, 0, p, h);
  }

  /** The guard of the step cache compares lengths only. Among prompts of one length that is exactly too
      little: a cache sealed for `q` serves `prompt` on every network and canvas if and only if they are the
      same prompt. */
  lemma CacheServesIff(q: seq<nat>, prompt: seq<nat>)
    requires |q| == |prompt|
    ensures (forall net, c, canvas, sc :: Serves(net, q, prompt, c, canvas, sc)) <==> q == prompt
  {
    if q == prompt {
      forall net, c, canvas, sc
        ensures Serves(net, q, prompt, c, canvas, sc)
      {
        if Sealed(net, q, c) {
          CachedLogitsSealed(net, q, c, canvas, sc);
        }
      }
    } else {
      var i: nat :| i < |q| && q[i] != prompt[i];
      WrongPromptServed(q, prompt, i);
    }
  }

  /** The failing input: two prompts that differ at one position, on the network that looks there. */
  lemma WrongPromptServed(q: seq<nat>, prompt: seq<nat>, i: nat)
    requires |q| == |prompt| && i < |q| && q[i] != prompt[i]
    ensures exists c: Cache :: c.p == |prompt| && !Serves(Spy(i), q, prompt, c, [0], Off)
  {
    var net := Spy(i);
    var c := Cache(|q|, [PromptKV(net, q, 0)]);
    CachedLogitsSealed(net, q, c, [0], Off);
    SpySees(q, i);
    SpySees(prompt, i);
    assert [q[i] as real] != [prompt[i] as real];
    assert !Serves(net, q, prompt, c, [0], Off);
  }

  // ---- The forward pass in its three modes --------------------------------------------------------

  /** Embeddings of the materialized rows: all of them, or the canvas rows only. */
  method Embed(net: Net, prompt: seq<nat>, canvas: seq<nat>, sc: SelfCond, row0: nat) returns (h: seq<Row>)
    requires row0 <= |prompt|
    ensures h == Embedded(net, prompt, canvas, sc)[row0..]
  {
    h := [];
    for pos := row0 to |prompt| + |canvas|
      invariant h == Embedded(net, prompt, canvas, sc)[row0..pos]
    {
      var e := if pos < |prompt| then net.embedPrompt(prompt[pos])
               else net.embedCanvas(canvas[pos - |prompt|], sc, pos - |prompt|);
      h := h + [e];
    }
  }

  /** One layer over the materialized rows, updated in place; `prefix` supplies the K/V of the rows that
      are not materialized. */
  method RunLayer(net: Net, layer: nat, p: nat, row0: nat, prefix: seq<KV>, h: array<Row>) returns (context: seq<KV>)
    modifies h
    ensures h[..] == SuffixRows(net, layer, p, row0, prefix, old(h[..]))
    ensures context == prefix + KVs(net, layer, old(h[..]), row0)
  {
    context := prefix + KVs(net, layer, h[..], row0);
    for i := 0 to h.Length
      invariant forall k | 0 <= k < i :: h[k] == LayerRow(net, layer, p, old(h[k]), row0 + k, context)
      invariant forall k | i <= k < h.Length :: h[k] == old(h[k])
    {
      h[i] := LayerRow(net, layer, p, h[i], row0 + i, context);
    }
  }

  lemma LogitsOfSuffix(net: Net, prompt: seq<nat>, canvas: seq<nat>, sc: SelfCond, rows: seq<Row>, row0: nat)
    requires row0 <= |prompt| && rows == Hidden(net, prompt, canvas, sc, net.layers)[row0..]
    ensures CanvasLogits(net, rows, |prompt| - row0) == FullLogits(net, prompt, canvas, sc)
  {
  }

  /** A layer's capture buffer: its prompt K/V where the fast attention completed, and untouched elsewhere. */
  ghost predicate CapturedAt(net: Net, prompt: seq<nat>, captured: seq<seq<KV>>, fast: nat -> bool, k: nat) {
    k < |captured| && captured[k] == if fast(k) then PromptKV(net, prompt, k) else []
  }

  ghost predicate CapturedSoFar(net: Net, prompt: seq<nat>, captured: seq<seq<KV>>, fast: nat -> bool, l: nat) {
    |captured| == l && forall k: nat | k < l :: CapturedAt(net, prompt, captured, fast, k)
  }

  lemma CaptureNext(net: Net, prompt: seq<nat>, captured: seq<seq<KV>>, fast: nat -> bool, kv: seq<KV>)
    requires CapturedSoFar(net, prompt, captured, fast, |captured|)
    requires kv == if fast(|captured|) then PromptKV(net, prompt, |captured|) else []
    ensures CapturedSoFar(net, prompt, captured + [kv], fast, |captured| + 1)
  {
    var longer := captured + [kv];
    forall k: nat | k < |longer|
      ensures CapturedAt(net, prompt, longer, fast, k)
    {
      assert k < |captured| ==> CapturedAt(net, prompt, captured, fast, k);
    }
  }

  /** Whether every layer's fast attention completes. */
  ghost predicate AllFast(net: Net, fast: nat -> bool) {
    FastBelow(fast, net.layers)
  }

  ghost predicate FastBelow(fast: nat -> bool, n: nat) {
    forall l: nat | l < n :: fast(l)
  }

  /** All buffers are full exactly when every layer was fast, and they are then the prompt's own K/V. */
  lemma SealedCapture(net: Net, prompt: seq<nat>, captured: seq<seq<KV>>, fast: nat -> bool)
    requires prompt != [] && CapturedSoFar(net, prompt, captured, fast, net.layers)
    ensures (forall l | 0 <= l < net.layers :: |captured[l]| == |prompt|) <==> AllFast(net, fast)
    ensures AllFast(net, fast) ==> Sealed(net, prompt, Cache(|prompt|, captured))
  {
    forall l: nat | l < net.layers
      ensures |captured[l]| == |prompt| <==> fast(l)
      ensures fast(l) ==> captured[l] == PromptKV(net, prompt, l)
    {
      assert CapturedAt(net, prompt, captured, fast, l);
    }
  }

  lemma CanvasOnly(net: Net, prompt: seq<nat>, canvas: seq<nat>, sc: SelfCond)
    ensures Embedded(net, prompt, canvas, sc)[|prompt|..] == CanvasEmbedded(net, canvas, sc)
  {
  }

  method Buffer(rows: seq<Row>) returns (h: array<Row>)
    ensures fresh(h) && h[..] == rows
  {
    h := new Row[|rows|](i requires 0 <= i < |rows| => rows[i]);
  }

  lemma CachedLayer(net: Net, cache: Cache, canvas: seq<nat>, sc: SelfCond, l: nat, h: seq<Row>)
    requires l < |cache.kv| && h == CachedHidden(net, cache, canvas, sc, l)
    ensures SuffixRows(net, l, cache.p, cache.p, cache.kv[l], h) == CachedHidden(net, cache, canvas, sc, l + 1)
  {
  }

  /** The canvas-only mode. A layer whose fast attention fails makes the whole pass bail: it has no rows to
      fall back on. */
  method ForwardCached(net: Net, prompt: seq<nat>, canvas: seq<nat>, sc: SelfCond, cache: Cache, fast: nat -> bool)
    returns (out: Option<seq<Row>>)
    requires cache.p == |prompt| && |cache.kv| == net.layers
    ensures out.Some? <==> AllFast(net, fast)
    ensures out.Some? ==> out.value == CachedLogits(net, cache, canvas, sc)
  {
    var rows := Embed(net, prompt, canvas, sc, |prompt|);
    CanvasOnly(net, prompt, canvas, sc);
    var h := Buffer(rows);
    var ok := RunCachedLayers(net, canvas, sc, cache, fast, h);
    out := if ok then Some(CanvasLogits(net, h[..], 0)) else None;
  }

  method RunCachedLayers(net: Net, ghost canvas: seq<nat>, ghost sc: SelfCond, cache: Cache, fast: nat -> bool,
                         h: array<Row>) returns (ok: bool)
    requires |cache.kv| == net.layers && h[..] == CachedHidden(net, cache, canvas, sc, 0)
    modifies h
    ensures ok <==> AllFast(net, fast)
    ensures ok ==> h[..] == CachedHidden(net, cache, canvas, sc, net.layers)
  {
    for l := 0 to net.layers
      invariant h[..] == CachedHidden(net, cache, canvas, sc, l)
      invariant FastBelow(fast, l)
    {
      if !fast(l) {
        return false;
      }
      RunCachedLayer(net, canvas, sc, cache, l, h);
    }
    ok := true;
  }

  method RunCachedLayer(net: Net, ghost canvas: seq<nat>, ghost sc: SelfCond, cache: Cache, l: nat, h: array<Row>)
    requires l < |cache.kv| && h[..] == CachedHidden(net, cache, canvas, sc, l)
    modifies h
    ensures h[..] == CachedHidden(net, cache, canvas, sc, l + 1)
  {
    CachedLayer(net, cache, canvas, sc, l, h[..]);
    var _ := RunLayer(net, l, cache.p, cache.p, cache.kv[l], h);
  }

  /** The full mode, with or without capture. Each layer may independently take the fast path or the
      per-position path (`fast` says which); only a completed fast layer writes its capture buffer. */
  method ForwardFull(net: Net, prompt: seq<nat>, canvas: seq<nat>, sc: SelfCond, fast: nat -> bool)
    returns (out: seq<Row>, captured: seq<seq<KV>>)
    ensures out == FullLogits(net, prompt, canvas, sc)
    ensures CapturedSoFar(net, prompt, captured, fast, net.layers)
  {
    captured := [];
    var rows := Embed(net, prompt, canvas, sc, 0);
    var h := Buffer(rows);
    for l := 0 to net.layers
      invariant h[..] == Hidden(net, prompt, canvas, sc, l)
      invariant CapturedSoFar(net, prompt, captured, fast, l)
    {
      FullStep(net, prompt, canvas, sc, l, h[..]);
      var context := RunLayer(net, l, |prompt|, 0, [], h);
      var kv := if fast(l) then context[..|prompt|] else [];
      CaptureNext(net, prompt, captured, fast, kv);
      captured := captured + [kv];
    }
    LogitsOfSuffix(net, prompt, canvas, sc, h[..], 0);
    out := CanvasLogits(net, h[..], |prompt|);
  }

  lemma FullStep(net: Net, prompt: seq<nat>, canvas: seq<nat>, sc: SelfCond, l: nat, h: seq<Row>)
    requires h == Hidden(net, prompt, canvas, sc, l)
    ensures SuffixRows(net, l, |prompt|, 0, [], h) == Hidden(net, prompt, canvas, sc, l + 1)
    ensures ([] + KVs(net, l, h, 0))[..|prompt|] == PromptKV(net, prompt, l)
  {
    assert h[0..] == h && [] + KVs(net, l, h, 0) == KVs(net, l, h, 0);
    SuffixLayer(net, prompt, canvas, sc, l, 0, []);
    PromptKVOfStep(net, prompt, canvas, sc, l);
  }

  /** What every mode checks first. */
  predicate InputsOk(net: Net, prompt: seq<nat>, canvas: seq<nat>) {
    prompt != [] && |canvas| == net.canvasLength
  }

  /** The cached mode behind its checks: it reads the canvas rows only. */
  method TryCached(net: Net, prompt: seq<nat>, canvas: seq<nat>, sc: SelfCond, cache: Cache, fast: nat -> bool)
    returns (r: Result<Option<seq<Row>>>)
    requires cache.p == |prompt|
    ensures |cache.kv| == net.layers ==> (r.Err? <==> !InputsOk(net, prompt, canvas) || !Readable(net, canvas))
    ensures |cache.kv| != net.layers ==> r == if InputsOk(net, prompt, canvas) then Ok(None) else Err
    ensures r.Ok? && |cache.kv| == net.layers ==> (r.value.Some? <==> AllFast(net, fast))
    ensures r.Ok? && r.value.Some? ==>
              |cache.kv| == net.layers && r.value.value == CachedLogits(net, cache, canvas, sc)
  {
    if !InputsOk(net, prompt, canvas) {
      return Err;
    }
    if |cache.kv| != net.layers {
      return Ok(None);
    }
    if !Readable(net, canvas) {
      return Err;
    }
    var out := ForwardCached(net, prompt, canvas, sc, cache, fast);
    r := Ok(out);
  }

  /** The full mode behind its checks, and the cache it seals. */
  method TryFull(net: Net, prompt: seq<nat>, canvas: seq<nat>, sc: SelfCond, fast: nat -> bool)
    returns (r: Result<seq<Row>>, sealed: Option<Cache>)
    ensures r.Ok? <==> InputsOk(net, prompt, canvas) && Readable(net, prompt) && Readable(net, canvas)
    ensures r.Ok? ==> r.value == FullLogits(net, prompt, canvas, sc)
    ensures Usable(net, prompt, sealed) && (sealed.Some? <==> r.Ok? && AllFast(net, fast))
  {
    sealed := None;
    if !InputsOk(net, prompt, canvas) || !Readable(net, prompt) || !Readable(net, canvas) {
      return Err, sealed;
    }
    var out, captured := ForwardFull(net, prompt, canvas, sc, fast);
    SealedCapture(net, prompt, captured, fast);
    if forall l | 0 <= l < net.layers :: |captured[l]| == |prompt| {
      sealed := Some(Cache(|prompt|, captured));
    }
    r := Ok(out);
  }

  /** The call is answered from the cache: its guard lets it through and no layer bails. */
  ghost predicate Served(net: Net, fastMode: bool, prompt: seq<nat>, canvas: seq<nat>, cache: Option<Cache>,
                         cachedFast: nat -> bool) {
    && fastMode && cache.Some? && cache.value.p == |prompt| && |cache.value.kv| == net.layers
    && Readable(net, canvas) && forall l: nat | l < net.layers :: cachedFast(l)
  }

  /** A refused call ends in the cached mode, before the cache is dropped. */
  ghost predicate Spared(net: Net, prompt: seq<nat>, canvas: seq<nat>, cache: Option<Cache>) {
    && cache.Some? && cache.value.p == |prompt|
    && (!InputsOk(net, prompt, canvas) || (|cache.value.kv| == net.layers && !Readable(net, canvas)))
  }

  /** `unified_forward_step`. The result is the plain forward's, except that a cache of matching length is
      trusted; with a cache sealed for this prompt there is no exception, whatever the fast path does
      (`cachedFast` and `fullFast` say in which layers it completes). A cache that served is kept; otherwise fast mode
      drops it, and hands on this prompt's own K/V exactly when the full pass ran with every layer fast. A refusal
      in the cached mode leaves the cache. */
  method ForwardStep(net: Net, fastMode: bool, prompt: seq<nat>, canvas: seq<nat>, sc: SelfCond, cache: Option<Cache>,
                     cachedFast: nat -> bool, fullFast: nat -> bool)
    returns (r: Result<seq<Row>>, next: Option<Cache>)
    ensures r.Ok? <==>
            && prompt != [] && |canvas| == net.canvasLength && Readable(net, canvas)
            && (Readable(net, prompt) || Served(net, fastMode, prompt, canvas, cache, cachedFast))
    ensures r.Ok? ==>
              if Served(net, fastMode, prompt, canvas, cache, cachedFast) then
                r.value == CachedLogits(net, cache.value, canvas, sc) && next == cache
              else
                && r.value == FullLogits(net, prompt, canvas, sc)
                && if !fastMode then next == cache
                   else Usable(net, prompt, next) && (next.Some? <==> forall l: nat | l < net.layers :: fullFast(l))
    ensures r.Err? ==>
              next == if !fastMode || Spared(net, prompt, canvas, cache) then cache else None
    ensures r.Ok? && Usable(net, prompt, cache) ==>
              r.value == FullLogits(net, prompt, canvas, sc) && Usable(net, prompt, next)
  {
    if !fastMode {
      var dropped;
      r, dropped := TryFull(net, prompt, canvas, sc, fullFast);
      return r, cache;
    }
    if cache.Some? && cache.value.p == |prompt| {
      var out := TryCached(net, prompt, canvas, sc, cache.value, cachedFast);
      if out.Err? {
        return Err, cache;
      }
      if out.value.Some? {
        if Usable(net, prompt, cache) {
          CachedLogitsSealed(net, prompt, cache.value, canvas, sc);
        }
        return Ok(out.value.value), cache;
      }
    }
    r, next := TryFull(net, prompt, canvas, sc, fullFast);
  }
}
