/** From an explored lattice to the draft head: the forest the target verifies, what it accepts, and the rows
    that acceptance commits (src/eagle3_runtime.rs). */
module ForestCommit {
  import opened Prelude
  import opened TokenTree
  import opened TargetCache
  import opened DraftLattice
  import opened Frontier
  import opened DraftCursor
  import opened Catchup
  import SpeculativeRun

  // ---- What the target accepts --------------------------------------------------------------------

  /** The accepted path as verifier rows and as lattice nodes. */
  datatype Acceptance = Acceptance(emitted: seq<Token>, leaf: nat, rows: seq<nat>, sources: seq<nat>)

  /** `accept_target_predictions`: an error exactly when the target returned the wrong number of rows. Draft
      scores have no say. */
  method AcceptTargetPredictions(s: ScoredTree, predictions: seq<Token>) returns (r: Result<Acceptance>)
    requires WellFormed(s.tree) && |s.source| == |s.tree.tokens|
    ensures r.Ok? <==> |predictions| == |s.tree.tokens|
    ensures r.Ok? ==>
              && Accepted(s.tree, predictions, r.value.rows, r.value.emitted)
              && r.value.leaf < |s.tree.tokens| && r.value.rows == PathTo(s.tree, r.value.leaf)
              && r.value.sources == Mapped(s.source, r.value.rows)
  {
    if |predictions| != |s.tree.tokens| {
      return Err;
    }
    var emitted, leaf := AcceptLongestPath(s.tree, predictions);
    var rows := RootPath(s.tree, leaf);
    r := Ok(Acceptance(emitted, leaf, rows, Mapped(s.source, rows)));
  }

  /** On a reranked lattice the accepted rows are a lattice branch, so every accepted token was drafted along
      one root path. */
  lemma AcceptedIsBranch(nodes: seq<Node>, s: ScoredTree, leaf: nat, rows: seq<nat>)
    requires Lattice(nodes) && LaidOut(nodes, s.source) && Renders(nodes, s.source, s)
    requires WellFormed(s.tree) && leaf < |s.tree.tokens| && rows == PathTo(s.tree, leaf)
    ensures s.source[leaf] < |nodes| && Mapped(s.source, rows) == SourcePath(nodes, s.source[leaf])
  {
    RenderedPaths(nodes, s.source, s, leaf);
  }

  // ---- Gathering the captures ---------------------------------------------------------------------

  /** `rows` of one capture, in that order. */
  function Gathered(t: Tensor, rows: seq<nat>): (r: seq<real>)
    requires Shaped(t) && forall k | 0 <= k < |rows| :: rows[k] < t.rows
    ensures |r| == |rows| * t.width
  {
    if rows == [] then []
    else
      var n := |rows| - 1;
      OneMoreTimes(n, t.width);
      Gathered(t, rows[..n]) + RowOf(t, rows[n])
  }

  lemma RowSlice(t: Tensor, row: nat)
    requires Shaped(t) && row < t.rows
    ensures row * t.width + t.width <= |t.data|
  {
    ProductMonotone(row + 1, t.rows, t.width);
    OneMoreTimes(row, t.width);
  }

  function RowOf(t: Tensor, row: nat): (v: Vec)
    requires Shaped(t) && row < t.rows
    ensures |v| == t.width
  {
    RowSlice(t, row);
    t.data[row * t.width..row * t.width + t.width]
  }

  ghost predicate InRange(captures: seq<Tensor>, rows: seq<nat>) {
    forall i | 0 <= i < |captures| :: RowsWithin(captures[i], rows)
  }

  predicate RowsWithin(t: Tensor, rows: seq<nat>) {
    forall k | 0 <= k < |rows| :: rows[k] < t.rows
  }

  /** `gather_layer_inputs`: the accepted path's rows of every capture, in path order; an error exactly when
      some row is outside some capture. */
  method GatherLayerInputs(captures: seq<Tensor>, rows: seq<nat>) returns (r: Result<seq<Tensor>>)
    requires forall t | t in captures :: Shaped(t)
    ensures r.Ok? <==> InRange(captures, rows)
    ensures r.Ok? ==> |r.value| == |captures| && forall i: nat | i < |captures| ::
              IsGathered(captures[i], rows, r.value[i])
  {
    var out := [];
    for i := 0 to |captures|
      invariant |out| == i && forall k: nat | k < i :: IsGathered(captures[k], rows, out[k])
      invariant forall k | 0 <= k < i :: RowsWithin(captures[k], rows)
    {
      assert captures[i] in captures;
      if !RowsWithin(captures[i], rows) {
        return Err;
      }
      out := out + [Tensor(|rows|, captures[i].width, Gathered(captures[i], rows))];
    }
    r := Ok(out);
  }

  ghost predicate IsGathered(t: Tensor, rows: seq<nat>, g: Tensor) {
    Shaped(t) && RowsWithin(t, rows) && g == Tensor(|rows|, t.width, Gathered(t, rows)) && Shaped(g)
  }

  lemma {:induction false} GatheredRow(t: Tensor, rows: seq<nat>, k: nat)
    requires Shaped(t) && RowsWithin(t, rows) && k < |rows| && t.width == HIDDEN_SIZE
    ensures (k + 1) * HIDDEN_SIZE <= |Gathered(t, rows)| && rows[k] * HIDDEN_SIZE + HIDDEN_SIZE <= |t.data|
    ensures Gathered(t, rows)[k * HIDDEN_SIZE..(k + 1) * HIDDEN_SIZE]
            == t.data[rows[k] * HIDDEN_SIZE..rows[k] * HIDDEN_SIZE + HIDDEN_SIZE]
    decreases |rows|
  {
    var n := |rows| - 1;
    RowSlice(t, rows[k]);
    RowSlice(t, rows[n]);
    var front := Gathered(t, rows[..n]);
    assert |front| == n * HIDDEN_SIZE;
    if k < n {
      GatheredRow(t, rows[..n], k);
      assert Gathered(t, rows)[k * HIDDEN_SIZE..(k + 1) * HIDDEN_SIZE] == front[k * HIDDEN_SIZE..(k + 1) * HIDDEN_SIZE];
    }
  }

  /** Three taps of the hidden width that have all the rows of the path, however many others. */
  predicate Gatherable(captures: seq<Tensor>, rows: seq<nat>) {
    && |captures| == 3 && (forall t | t in captures :: Shaped(t) && t.width == 3072)
    && forall i | 0 <= i < 3 :: RowsWithin(captures[i], rows)
  }

  /** The taps of row `k` of the path, side by side. */
  ghost function PathRow(captures: seq<Tensor>, rows: seq<nat>, k: nat): (v: Vec)
    requires Gatherable(captures, rows) && k < |rows|
  {
    TapRow(captures[0], rows[k]) + TapRow(captures[1], rows[k]) + TapRow(captures[2], rows[k])
  }

  /** Gathering rows and then interleaving the taps gives the interleaved rows of the path. */
  lemma GatheredFeatures(captures: seq<Tensor>, rows: seq<nat>, g: seq<Tensor>, k: nat)
    requires Gatherable(captures, rows) && |g| == |captures| && k < |rows|
    requires forall i: nat | i < |captures| :: IsGathered(captures[i], rows, g[i])
    ensures Captures(g) && g[0].rows == |rows|
    ensures FeatureRow(g, k) == PathRow(captures, rows, k)
    ensures Captures(captures) ==> FeatureRow(g, k) == FeatureRow(captures, rows[k])
  {
    assert IsGathered(captures[0], rows, g[0]) && IsGathered(captures[1], rows, g[1])
           && IsGathered(captures[2], rows, g[2]);
    GatheredIff(captures, rows, g);
    TapGathered(captures[0], rows, g[0], k);
    TapGathered(captures[1], rows, g[1], k);
    TapGathered(captures[2], rows, g[2], k);
  }

  /** What was gathered can be interleaved exactly when the captures were three taps of the hidden width. */
  lemma GatheredIff(captures: seq<Tensor>, rows: seq<nat>, g: seq<Tensor>)
    requires |g| == |captures| && forall i: nat | i < |captures| :: IsGathered(captures[i], rows, g[i])
    ensures Captures(g) <==> Gatherable(captures, rows)
    ensures Captures(g) ==> g[0].rows == |rows|
  {
    forall i: nat | i < |captures|
      ensures g[i] in g && Shaped(g[i]) && g[i].rows == |rows| && g[i].width == captures[i].width
      ensures captures[i] in captures && Shaped(captures[i]) && RowsWithin(captures[i], rows)
    {
      assert IsGathered(captures[i], rows, g[i]);
    }
    if Captures(g) {
      forall t | t in captures
        ensures t.width == 3072 && Shaped(t)
      {
        var i: nat :| i < |captures| && captures[i] == t;
        assert g[i] in g;
      }
    }
  }

  lemma TapGathered(t: Tensor, rows: seq<nat>, g: Tensor, k: nat)
    requires IsGathered(t, rows, g) && t.width == HIDDEN_SIZE && k < |rows|
    ensures TapRow(g, k) == TapRow(t, rows[k])
  {
    GatheredRow(t, rows, k);
    assert (k + 1) * HIDDEN_SIZE == k * HIDDEN_SIZE + HIDDEN_SIZE;
  }

  // ---- Committing the accepted path ---------------------------------------------------------------

  /** The interleaved capture rows of an accepted path. */
  ghost function PathFeatures(captures: seq<Tensor>, rows: seq<nat>): (r: seq<Vec>)
    requires Gatherable(captures, rows)
    ensures |r| == |rows|
  {
    seq(|rows|, k requires 0 <= k < |rows| => PathRow(captures, rows, k))
  }

  /** `accept_authoritative_forest`: gather, then the ordinary eager update. */
  method AcceptForest(d: Drafter, e: Eagle, captures: seq<Tensor>, a: Acceptance, device: nat -> bool)
    returns (ok: bool)
    requires d.head.Valid() && forall t | t in captures :: Shaped(t)
    requires |a.emitted| == |a.rows|
    modifies d, d.head, d.head.slots
    ensures d.head.Valid()
    ensures !ok ==> d.State() == old(d.State())
    ensures WellSized(e) ==>
              (ok <==>
               && Gatherable(captures, a.rows) && a.emitted != []
               && old(d.head.filled) + |a.emitted| <= d.head.slots.Length && Runs(device, |a.emitted|))
    ensures ok ==>
              && Gatherable(captures, a.rows)
              && Accept(e, d.head.slots.Length, old(d.State()), a.emitted, PathFeatures(captures, a.rows))
                 == Ok(d.State())
  {
    var g := GatherLayerInputs(captures, a.rows);
    if g.Err? {
      return false;
    }
    GatheredShaped(captures, a.rows, g.value);
    GatheredPath(captures, a.rows, g.value);
    ok := d.AcceptAuthoritative(e, g.value, a.emitted, device);
  }

  lemma GatheredShaped(captures: seq<Tensor>, rows: seq<nat>, g: seq<Tensor>)
    requires |g| == |captures| && forall i: nat | i < |captures| :: IsGathered(captures[i], rows, g[i])
    ensures forall t | t in g :: Shaped(t)
  {
    forall t | t in g
      ensures Shaped(t)
    {
      var i: nat :| i < |g| && g[i] == t;
      assert IsGathered(captures[i], rows, g[i]);
    }
  }

  lemma GatheredPath(captures: seq<Tensor>, rows: seq<nat>, g: seq<Tensor>)
    requires |g| == |captures| && forall i: nat | i < |captures| :: IsGathered(captures[i], rows, g[i])
    ensures Captures(g) <==> Gatherable(captures, rows)
    ensures Captures(g) ==> g[0].rows == |rows| && FeatureRows(g) == PathFeatures(captures, rows)
  {
    GatheredIff(captures, rows, g);
    forall k: nat | Captures(g) && k < |rows|
      ensures FeatureRows(g)[k] == PathFeatures(captures, rows)[k]
    {
      GatheredFeatures(captures, rows, g, k);
    }
  }

  // ---- The forest commits what linear verification would ------------------------------------------

  /** The target's features along a linear pass over `tokens`: one more token of context each row. */
  ghost function LinearFeatures(feature: seq<Token> -> Vec, committed: seq<Token>, tokens: seq<Token>): (r: seq<Vec>)
    ensures |r| == |tokens|
  {
    seq(|tokens|, k requires 0 <= k < |tokens| => feature(committed + tokens[..k + 1]))
  }

  /** The captures of a tree pass: every row holds the target's features after that node's own branch. */
  ghost predicate CapturedTree(feature: seq<Token> -> Vec, committed: seq<Token>, t: Tree, captures: seq<Tensor>)
    requires WellFormed(t)
  {
    && Captures(captures) && captures[0].rows == |t.tokens|
    && forall i: nat | i < |t.tokens| :: CapturedAt(feature, committed, t, captures, i)
  }

  ghost predicate CapturedAt(feature: seq<Token> -> Vec, committed: seq<Token>, t: Tree, captures: seq<Tensor>, i: nat)
    requires WellFormed(t) && i < |t.tokens|
  {
    Captures(captures) && i < captures[0].rows && FeatureRow(captures, i) == feature(NodeContext(committed, t, i))
  }

  /** Row `k` of the accepted path saw exactly what row `k` of a linear pass over that path sees. */
  lemma PathContext(committed: seq<Token>, t: Tree, path: seq<nat>, k: nat)
    requires WellFormed(t) && Chain(t, path) && k < |path|
    ensures NodeContext(committed, t, path[k]) == committed + PathTokens(t, path)[..k + 1]
  {
    assert Chain(t, path[..k + 1]);
    ChainIsPath(t, path[..k + 1]);
    assert PathTokens(t, path[..k + 1]) == PathTokens(t, path)[..k + 1];
  }

  lemma CapturesGather(captures: seq<Tensor>, rows: seq<nat>)
    requires Captures(captures) && RowsWithin(captures[0], rows)
    ensures Gatherable(captures, rows)
    ensures forall k: nat | k < |rows| :: PathRow(captures, rows, k) == FeatureRow(captures, rows[k])
  {
    assert captures[1] in captures && captures[2] in captures;
  }

  /** The rows gathered from a tree pass along a path are the rows of a linear pass over that path. */
  lemma ForestEqualsLinear(feature: seq<Token> -> Vec, committed: seq<Token>, t: Tree, path: seq<nat>,
                           captures: seq<Tensor>)
    requires WellFormed(t) && Chain(t, path) && CapturedTree(feature, committed, t, captures)
    ensures Gatherable(captures, path)
    ensures PathFeatures(captures, path) == LinearFeatures(feature, committed, PathTokens(t, path))
  {
    CapturesGather(captures, path);
    forall k: nat | k < |path|
      ensures PathFeatures(captures, path)[k] == LinearFeatures(feature, committed, PathTokens(t, path))[k]
    {
      PathContext(committed, t, path, k);
      assert CapturedAt(feature, committed, t, captures, path[k]);
    }
  }

  // ---- The target's captures ----------------------------------------------------------------------

  predicate TapShape(taps: seq<Vec>) {
    |taps| == TAPS && |taps[0]| == |taps[1]| == |taps[2]| == HIDDEN_SIZE
  }

  /** The target captures three layer inputs of the hidden width. */
  ghost predicate CapturesTaps(m: Target) {
    forall rows :: TapShape(m.taps(rows))
  }

  function Joined(taps: seq<Vec>): Vec
    requires TapShape(taps)
  {
    taps[0] + taps[1] + taps[2]
  }

  /** The target's features after a context. */
  ghost function Feature(m: Target): seq<Token> -> Vec
    requires CapturesTaps(m)
  {
    ctx => Joined(m.taps(TargetCache.Rows(m, ctx)))
  }

  function TapOf(taps: seq<Vec>, j: nat): (v: Vec)
    requires TapShape(taps) && j < TAPS
    ensures |v| == HIDDEN_SIZE
  {
    taps[j]
  }

  /** Tap `j` of every row, row-major. */
  function Stacked(captured: seq<seq<Vec>>, j: nat): (r: seq<real>)
    requires j < TAPS && forall i | 0 <= i < |captured| :: TapShape(captured[i])
    ensures |r| == |captured| * HIDDEN_SIZE
  {
    if captured == [] then []
    else
      var n := |captured| - 1;
      assert TapShape(captured[n]);
      Stacked(captured[..n], j) + TapOf(captured[n], j)
  }

  lemma {:induction false} StackedRow(captured: seq<seq<Vec>>, j: nat, i: nat)
    requires j < TAPS && forall k | 0 <= k < |captured| :: TapShape(captured[k])
    requires i < |captured|
    ensures i * HIDDEN_SIZE + HIDDEN_SIZE <= |Stacked(captured, j)|
    ensures Stacked(captured, j)[i * HIDDEN_SIZE..i * HIDDEN_SIZE + HIDDEN_SIZE] == TapOf(captured[i], j)
    decreases |captured|
  {
    var n := |captured| - 1;
    var front := Stacked(captured[..n], j);
    if i < n {
      StackedRow(captured[..n], j, i);
      assert Stacked(captured, j)[i * HIDDEN_SIZE..i * HIDDEN_SIZE + HIDDEN_SIZE]
             == front[i * HIDDEN_SIZE..i * HIDDEN_SIZE + HIDDEN_SIZE];
    }
  }

  function Tap(captured: seq<seq<Vec>>, j: nat): (t: Tensor)
    requires j < TAPS && forall i | 0 <= i < |captured| :: TapShape(captured[i])
    ensures Shaped(t) && t.rows == |captured| && t.width == HIDDEN_SIZE
  {
    Tensor(|captured|, HIDDEN_SIZE, Stacked(captured, j))
  }

  /** The layer-input snapshots as the verifier hands them over, one tensor per tap. */
  function Snapshots(captured: seq<seq<Vec>>): (captures: seq<Tensor>)
    requires forall i | 0 <= i < |captured| :: TapShape(captured[i])
    ensures Captures(captures) && captures[0].rows == |captured|
  {
    [Tap(captured, 0), Tap(captured, 1), Tap(captured, 2)]
  }

  lemma SnapshotRow(captured: seq<seq<Vec>>, i: nat)
    requires (forall k | 0 <= k < |captured| :: TapShape(captured[k])) && i < |captured|
    ensures FeatureRow(Snapshots(captured), i) == Joined(captured[i])
  {
    StackedRow(captured, 0, i);
    StackedRow(captured, 1, i);
    StackedRow(captured, 2, i);
  }

  /** What the masked batch captured is, row by row, what a linear decode of each branch captures. */
  lemma SnapshotsAreTruthful(m: Target, committed: seq<Token>, t: Tree, captured: seq<seq<Vec>>)
    requires CapturesTaps(m) && WellFormed(t) && |captured| == |t.tokens|
    requires forall i: nat | i < |captured| :: CapturedRow(m, committed, t, captured, i)
    ensures forall i | 0 <= i < |captured| :: TapShape(captured[i])
    ensures CapturedTree(Feature(m), committed, t, Snapshots(captured))
  {
    forall i: nat | i < |captured|
      ensures TapShape(captured[i]) && captured[i] == NodeTaps(m, committed, t, i)
    {
      assert CapturedRow(m, committed, t, captured, i);
    }
    forall i: nat | i < |t.tokens|
      ensures CapturedAt(Feature(m), committed, t, Snapshots(captured), i)
    {
      SnapshotRow(captured, i);
    }
  }

  /** `verify_tree_metal_with_layer_inputs`: predictions and snapshots of every row, with the accepted path
      compacted and committed; a tree that does not fit, or that the device declines, commits nothing. */
  method VerifyWithCaptures(s: Session, m: Target, t: Tree, device: bool)
    returns (r: Option<(seq<Token>, seq<Tensor>)>, ghost path: seq<nat>, ghost emitted: seq<Token>)
    requires s.Valid(m) && WellFormed(t) && CapturesTaps(m)
    modifies s, s.slots
    ensures s.Valid(m)
    ensures r.Some? <==> |t.tokens| <= 16 && old(s.filled) + |t.tokens| <= s.slots.Length && device
    ensures r.None? ==> s.committed == old(s.committed)
    ensures r.Some? ==>
              && Truthful(NextToken(m), old(s.committed), t, r.value.0) && Accepted(t, r.value.0, path, emitted)
              && CapturedTree(Feature(m), old(s.committed), t, r.value.1)
              && s.committed == old(s.committed) + PathTokens(t, path)
  {
    path, emitted := [], [];
    if |t.tokens| > TREE_MAX_NODES || s.filled + |t.tokens| > s.slots.Length {
      return None, path, emitted;
    }
    if !device {
      return None, path, emitted;
    }
    var predicted, captured := s.VerifyTree(m, t);
    SnapshotsAreTruthful(m, s.committed, t, captured);
    var tokens, leaf := AcceptLongestPath(t, predicted);
    var rows := RootPath(t, leaf);
    s.CommitPath(m, t, rows);
    r, path, emitted := Some((predicted, Snapshots(captured))), rows, tokens;
  }

  // ---- A whole forest round -----------------------------------------------------------------------

  /** Target cache and draft head after a round that accepted `a` through `t`: the cache holds the anchor and all but
      the last emitted token, those tokens are the target's own greedy stream, and the head is in the state that
      linear verification of the accepted path leaves it in. */
  ghost predicate RoundDone(m: Target, e: Eagle, capacity: nat, before: seq<Token>, after: seq<Token>, was: HeadState,
                            now: HeadState, anchor: Token, a: Acceptance)
    requires CapturesTaps(m)
  {
    && a.emitted != [] && IsGreedy(NextToken(m), before + [anchor], a.emitted)
    && after == before + ([anchor] + a.emitted[..|a.emitted| - 1])
    && Accept(e, capacity, was, a.emitted,
              LinearFeatures(Feature(m), before, [anchor] + a.emitted[..|a.emitted| - 1])) == Ok(now)
  }

  /** Verify a drafted tree, accept through it and update the head. A failure leaves the head alone. */
  method VerifyForest(d: Drafter, e: Eagle, s: Session, m: Target, scored: ScoredTree, target: bool,
                      head: nat -> bool)
    returns (r: Result<Acceptance>, ghost accepted: Option<Acceptance>)
    requires d.head.Valid() && s.Valid(m) && s.slots != d.head.slots && CapturesTaps(m)
    requires WellFormed(scored.tree) && |scored.source| == |scored.tree.tokens|
    modifies d, d.head, d.head.slots, s, s.slots
    ensures d.head.Valid() && s.Valid(m)
    ensures r.Err? ==> d.State() == old(d.State())
    ensures accepted.Some? <==>
            |scored.tree.tokens| <= 16 && old(s.filled) + |scored.tree.tokens| <= s.slots.Length && target
    ensures r.Ok? ==> accepted == Some(r.value)
    ensures WellSized(e) ==>
              (r.Ok? <==>
               && accepted.Some? && old(d.head.filled) + |accepted.value.emitted| <= d.head.slots.Length
               && Runs(head, |accepted.value.emitted|))
    ensures r.Ok? ==>
              RoundDone(m, e, d.head.slots.Length, old(s.committed), s.committed, old(d.State()), d.State(),
                        scored.tree.tokens[0], r.value)
  {
    accepted := None;
    var t := scored.tree;
    ghost var before := s.committed;
    var verified, path, emitted := VerifyWithCaptures(s, m, t, target);
    if verified.None? {
      return Err, accepted;
    }
    var (predicted, captures) := verified.value;
    r := AcceptTargetPredictions(scored, predicted);
    AcceptedUnique(t, predicted, path, emitted, r.value.rows, r.value.emitted);
    SpeculativeRun.AcceptedIsGreedy(NextToken(m), before, t, predicted, r.value.rows, r.value.emitted);
    ForestEqualsLinear(Feature(m), before, t, r.value.rows, captures);
    accepted := Some(r.value);
    var ok := AcceptForest(d, e, captures, r.value, head);
    if !ok {
      r := Err;
    }
  }

  /** The whole round: explore the frontier from the stable seed, rerank it, verify it, accept through it and
      update the head. Drafting goes through whenever nothing is wrong with the head's observations, its room or the
      device. Once a tree of at least two rows is drafted, only three things stop the round: a tree that does not fit, a
      device that declines (`target` answers for the batch, `head` for the update's calls), and a head without room for
      the accepted rows. */
  method ForestRound(d: Drafter, e: Eagle, s: Session, m: Target, exp: real -> real, anchor: Token, config: Config,
                     draft: nat -> bool, target: bool, head: nat -> bool)
    returns (r: Result<Acceptance>, ghost scored: Option<ScoredTree>, ghost accepted: Option<Acceptance>)
    requires d.head.Valid() && s.Valid(m) && s.slots != d.head.slots && CapturesTaps(m)
    modifies d, d.head, d.head.slots, s, s.slots
    ensures d.head.Valid() && s.Valid(m)
    ensures old(d.stableSeed).None? || !ValidConfig(config) || config.maxVerifyNodes < 2 ==> r.Err?
    ensures r.Err? ==> d.State() == old(d.State())
    ensures Smooth(e.head, exp, config, old(d.head.filled), d.head.slots.Length, draft) && old(d.stableSeed).Some?
            && SoundOutput(exp, old(d.stableSeed).value) ==>
              (scored.Some? <==> ValidConfig(config) && config.maxLatticeNodes > 1)
    ensures scored.Some? ==> |scored.value.tree.tokens| <= config.maxVerifyNodes <= 16
    ensures accepted.Some? <==>
            && scored.Some? && 2 <= |scored.value.tree.tokens|
            && old(s.filled) + |scored.value.tree.tokens| <= s.slots.Length && target
    ensures r.Ok? ==> accepted == Some(r.value)
    ensures WellSized(e) ==>
              (r.Ok? <==>
               && accepted.Some? && old(d.head.filled) + |accepted.value.emitted| <= d.head.slots.Length
               && Runs(head, |accepted.value.emitted|))
    ensures r.Ok? ==>
              RoundDone(m, e, d.head.slots.Length, old(s.committed), s.committed, old(d.State()), d.State(),
                        anchor, r.value)
  {
    scored, accepted := None, None;
    var drafted := DraftDynamicFrontier(d.head, e.head, exp, d.stableSeed, anchor, config, draft);
    if drafted.Failed? {
      return Err, scored, accepted;
    }
    var tree := Finish(drafted.frontier, anchor);
    scored := Some(tree);
    if |tree.tree.tokens| < 2 {
      return Err, scored, accepted;
    }
    r, accepted := VerifyForest(d, e, s, m, tree, target, head);
  }

  /** `finish`: the verifier tree of an explored frontier is rooted at the anchor. */
  method Finish(f: Frontier, ghost anchor: Token) returns (s: ScoredTree)
    requires f.Valid() && ValidConfig(f.config)
    requires Explored(f.config, anchor, f.nodes, f.expanded, f.recurrentG, f.order, f.seen)
    ensures WellFormed(s.tree) && |s.source| == |s.tree.tokens| <= f.config.maxVerifyNodes
    ensures s.tree.tokens[0] == anchor
    ensures && Strongest(f.nodes, f.config.maxDepth, f.config.maxVerifyNodes, s.source)
            && LaidOut(f.nodes, s.source) && Renders(f.nodes, s.source, s)
  {
    AnchorIsRoot(f.config, anchor, f.nodes, f.expanded, f.recurrentG, f.order, f.seen);
    var r := RerankConnected(f.nodes, f.config.maxVerifyNodes, f.config.maxDepth);
    s := r.value;
    RootFirst(f.nodes, s.source);
    assert RendersRow(f.nodes, s.source, s, 0);
  }
}
