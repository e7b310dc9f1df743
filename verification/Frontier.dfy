/** The budgeted best-first scheduler over the draft lattice (src/eagle3_runtime.rs). */
module Frontier {
  import opened Prelude
  import opened TokenTree
  import opened DraftLattice

  type Vec = seq<real>

  /** A device float as far as the host checks care. */
  datatype F32 = Finite(v: real) | NonFinite

  datatype TopCandidate = TopCandidate(draftToken: nat, targetToken: Token, logit: F32)

  datatype Output = Output(targetToken: Token, top: seq<TopCandidate>, vocabRows: nat,
                           logsumexp: F32, rawHidden: Vec)

  const HIDDEN_SIZE := 3072
  const DRAFT_VOCAB := 32000

  datatype Config = Config(maxVerifyNodes: nat, maxLatticeNodes: nat, maxDepth: nat,
                           candidatesPerParent: nat, maxHeadExpansions: nat)

  predicate ValidConfig(c: Config) {
    && 0 < c.maxVerifyNodes <= TREE_MAX_NODES && c.maxVerifyNodes <= c.maxLatticeNodes
    && 0 < c.maxDepth && 0 < c.candidatesPerParent && 0 < c.maxHeadExpansions
  }

  // ---- One head observation -------------------------------------------------------------------

  predicate RankedAfter(a: TopCandidate, b: TopCandidate) {
    && a.logit.Finite? && b.logit.Finite?
    && (a.logit.v > b.logit.v || (a.logit.v == b.logit.v && a.draftToken <= b.draftToken))
  }

  predicate WellRanked(top: seq<TopCandidate>) {
    && (forall i | 0 <= i < |top| :: top[i].logit.Finite?)
    && (forall i, j | 0 <= i < j < |top| ::
          top[i].draftToken != top[j].draftToken && top[i].targetToken != top[j].targetToken)
    && (forall i | 0 < i < |top| :: RankedAfter(top[i - 1], top[i]))
  }

  const NORMALIZER_SLACK := 0.00001

  function Value(f: F32): real {
    match f
    case Finite(v) => v
    case NonFinite => 0.0
  }

  /** A candidate's score against the full-vocabulary normalizer, capped at probability one. */
  function LogProb(out: Output, k: nat): (p: real)
    requires k < |out.top|
    ensures p <= 0.0
  {
    var d := Value(out.top[k].logit) - Value(out.logsumexp);
    if d > 0.0 then 0.0 else d
  }

  /** How many candidates an observation contributes when `room` lattice nodes are left. */
  function Retained(c: Config, out: Output, room: nat): (n: nat)
    ensures n <= |out.top| && n <= c.candidatesPerParent && n <= room
    ensures n == |out.top| || n == c.candidatesPerParent || n == room
  {
    var n := if |out.top| < c.candidatesPerParent then |out.top| else c.candidatesPerParent;
    if n < room then n else room
  }

  /** The first `n` candidates with their scores, never renormalized. */
  function Scores(out: Output, n: nat): (cs: seq<Candidate>)
    requires n <= |out.top|
    ensures |cs| == n && forall k | 0 <= k < n :: cs[k] == Candidate(out.top[k].targetToken, LogProb(out, k))
  {
    seq(n, k requires 0 <= k < n => Candidate(out.top[k].targetToken, LogProb(out, k)))
  }

  /** An observation that may be recorded: of the right width, in deterministic rank order, from a head that
      evaluated the whole draft vocabulary, with no retained candidate above its normalizer. */
  predicate Observable(c: Config, out: Output, room: nat) {
    && |out.rawHidden| == HIDDEN_SIZE && WellRanked(out.top) && out.vocabRows == DRAFT_VOCAB && out.logsumexp.Finite?
    && forall k | 0 <= k < Retained(c, out, room) :: Value(out.top[k].logit) - Value(out.logsumexp) <= NORMALIZER_SLACK
  }

  // ---- The scheduler's invariant --------------------------------------------------------------

  predicate Eligible(c: Config, nodes: seq<Node>, expanded: seq<bool>, i: nat) {
    i < |nodes| && i < |expanded| && !expanded[i] && nodes[i].depth < c.maxDepth
  }

  ghost predicate WithinBudgets(c: Config, nodes: seq<Node>, order: seq<nat>) {
    && |nodes| <= c.maxLatticeNodes && |order| <= c.maxHeadExpansions
    && forall i: nat | i < |nodes| :: DepthWithin(c, nodes, i)
  }

  ghost predicate DepthWithin(c: Config, nodes: seq<Node>, i: nat) {
    i < |nodes| && nodes[i].depth <= c.maxDepth
  }

  /** Nodes hang only under expanded parents, so the expanded set is closed under ancestors. */
  ghost predicate AncestorsExpanded(nodes: seq<Node>, order: seq<nat>) {
    && (forall x | x in order :: x < |nodes|)
    && forall i: nat | 0 < i < |nodes| :: ParentIn(nodes, order, i)
  }

  ghost predicate ParentIn(nodes: seq<Node>, order: seq<nat>, i: nat) {
    i < |nodes| && nodes[i].parent.Some? && nodes[i].parent.value in order
  }

  /** Parents were expanded in strictly descending strength, and each of them outranks everything
      still waiting. */
  ghost predicate BestFirst(c: Config, nodes: seq<Node>, expanded: seq<bool>, order: seq<nat>) {
    && Ranked(nodes, order)
    && forall e: nat, u: nat | e in order && Eligible(c, nodes, expanded, u) :: Outranks(nodes, e, u)
  }

  ghost predicate Ranked(nodes: seq<Node>, order: seq<nat>) {
    forall i: nat, j: nat | i < j < |order| :: RankedAt(nodes, order, i, j)
  }

  ghost predicate RankedAt(nodes: seq<Node>, order: seq<nat>, i: nat, j: nat) {
    i < |order| && j < |order| && Outranks(nodes, order[i], order[j])
  }

  /** The order is strict, so no parent is expanded twice. */
  lemma RankedDistinct(nodes: seq<Node>, order: seq<nat>)
    requires Ranked(nodes, order)
    ensures Distinct(order)
  {
    forall i: nat, j: nat | i < j < |order|
      ensures order[i] != order[j]
    {
      assert RankedAt(nodes, order, i, j);
    }
  }

  ghost predicate Tracks(expanded: seq<bool>, order: seq<nat>) {
    forall i: nat :: TracksAt(expanded, order, i)
  }

  ghost predicate TracksAt(expanded: seq<bool>, order: seq<nat>, i: nat) {
    i in order <==> i < |expanded| && expanded[i]
  }

  ghost predicate Inv(c: Config, nodes: seq<Node>, expanded: seq<bool>, order: seq<nat>) {
    && ValidConfig(c) && Lattice(nodes) && SiblingsDiffer(nodes) && |expanded| == |nodes|
    && Tracks(expanded, order) && WithinBudgets(c, nodes, order)
    && AncestorsExpanded(nodes, order) && BestFirst(c, nodes, expanded, order)
  }

  /** The globally strongest eligible node, unless an expansion or node budget is spent. */
  ghost predicate IsNextParent(c: Config, nodes: seq<Node>, expanded: seq<bool>, heads: nat, p: Option<nat>) {
    match p
    case None => heads >= c.maxHeadExpansions || |nodes| >= c.maxLatticeNodes
                 || forall u: nat :: !Eligible(c, nodes, expanded, u)
    case Some(i) =>
      && heads < c.maxHeadExpansions && |nodes| < c.maxLatticeNodes
      && Eligible(c, nodes, expanded, i)
      && forall u: nat | Eligible(c, nodes, expanded, u) && u != i :: Outranks(nodes, i, u)
  }

  function EligibleBelow(c: Config, nodes: seq<Node>, expanded: seq<bool>, n: nat): (r: seq<nat>)
    requires n <= |nodes| == |expanded|
    ensures Distinct(r) && forall x: nat :: x in r <==> x < n && Eligible(c, nodes, expanded, x)
  {
    if n == 0 then [] else
      var r := EligibleBelow(c, nodes, expanded, n - 1);
      if Eligible(c, nodes, expanded, n - 1) then r + [n - 1] else r
  }

  function NextParent(c: Config, nodes: seq<Node>, expanded: seq<bool>, heads: nat): (p: Option<nat>)
    requires |nodes| == |expanded|
    ensures IsNextParent(c, nodes, expanded, heads, p)
  {
    if heads >= c.maxHeadExpansions || |nodes| >= c.maxLatticeNodes then None
    else
      var all := EligibleBelow(c, nodes, expanded, |nodes|);
      var ranked := SortBy(RankOrder(nodes), all);
      assert StrictTotalOn(RankOrder(nodes), all);
      SortBySorted(RankOrder(nodes), all);
      assert forall u: nat | u in ranked && u != ranked[0] :: RankOrder(nodes)(ranked[0], u);
      if ranked == [] then None else Some(ranked[0])
  }

  /** In plain numbers: no waiting node within the depth limit is more probable than the scheduled one, none as
      probable is shallower, and none as probable and deep is older. */
  lemma NextParentScores(c: Config, nodes: seq<Node>, expanded: seq<bool>, heads: nat)
    requires |nodes| == |expanded|
    ensures var p := NextParent(c, nodes, expanded, heads);
            && (p.None? <==>
                || heads >= c.maxHeadExpansions || |nodes| >= c.maxLatticeNodes
                || forall u: nat | u < |nodes| :: expanded[u] || nodes[u].depth >= c.maxDepth)
            && (p.Some? ==> p.value < |nodes| && !expanded[p.value] && nodes[p.value].depth < c.maxDepth)
            && (p.Some? ==>
                  forall u: nat | u < |nodes| && !expanded[u] && nodes[u].depth < c.maxDepth ::
                    && nodes[u].score <= nodes[p.value].score
                    && (nodes[u].score == nodes[p.value].score ==> nodes[u].depth >= nodes[p.value].depth)
                    && (nodes[u].score == nodes[p.value].score && nodes[u].depth == nodes[p.value].depth ==>
                          u >= p.value))
  {
    var p := NextParent(c, nodes, expanded, heads);
    forall u: nat | u < |nodes|
      ensures Eligible(c, nodes, expanded, u) <==> !expanded[u] && nodes[u].depth < c.maxDepth
    {
    }
    assert p.Some? ==> Eligible(c, nodes, expanded, p.value);
  }

  /** The rank order is strict, so at most one node is scheduled. */
  lemma NextParentUnique(c: Config, nodes: seq<Node>, expanded: seq<bool>, heads: nat, p: Option<nat>, q: nat)
    requires IsNextParent(c, nodes, expanded, heads, p)
    ensures p == Some(q) <==> IsNextParent(c, nodes, expanded, heads, Some(q))
  {
    if IsNextParent(c, nodes, expanded, heads, Some(q)) && p.Some? {
      assert Eligible(c, nodes, expanded, q) && Eligible(c, nodes, expanded, p.value);
    }
  }

  lemma RankStable(nodes: seq<Node>, more: seq<Node>)
    requires nodes <= more
    ensures forall a: nat, b: nat | a < |nodes| && b < |nodes| :: Outranks(nodes, a, b) <==> Outranks(more, a, b)
  {
  }

  lemma {:induction false} OutranksTransitive(nodes: seq<Node>, a: nat, b: nat, c: nat)
    requires Outranks(nodes, a, b) && Outranks(nodes, b, c)
    ensures Outranks(nodes, a, c)
  {
  }

  function Unexpanded(n: nat): (r: seq<bool>)
    ensures |r| == n && forall i | 0 <= i < n :: !r[i]
  {
    seq(n, _ => false)
  }

  function Copies<T>(n: nat, x: T): (r: seq<T>)
    ensures |r| == n && forall i | 0 <= i < n :: r[i] == x
  {
    seq(n, _ => x)
  }

  /** The state after a successful expansion of the scheduled parent. */
  ghost predicate Expanded(nodes: seq<Node>, expanded: seq<bool>, order: seq<nat>, p: nat, cs: seq<Candidate>,
                           nodes': seq<Node>, expanded': seq<bool>, order': seq<nat>)
  {
    && p < |nodes| == |expanded|
    && nodes' == nodes + Children(nodes, p, cs)
    && expanded' == expanded[p := true] + Unexpanded(|cs|)
    && order' == order + [p]
  }

  lemma ExpandedTracks(nodes: seq<Node>, expanded: seq<bool>, order: seq<nat>, p: nat, cs: seq<Candidate>,
                       nodes': seq<Node>, expanded': seq<bool>, order': seq<nat>)
    requires Tracks(expanded, order) && Expanded(nodes, expanded, order, p, cs, nodes', expanded', order')
    requires !expanded[p]
    ensures Tracks(expanded', order')
  {
    forall i: nat
      ensures TracksAt(expanded', order', i)
    {
      assert TracksAt(expanded, order, i);
    }
  }

  lemma ExpandedWithin(c: Config, nodes: seq<Node>, expanded: seq<bool>, order: seq<nat>, p: nat, cs: seq<Candidate>,
                       nodes': seq<Node>, expanded': seq<bool>, order': seq<nat>)
    requires nodes != [] && WithinBudgets(c, nodes, order) && AncestorsExpanded(nodes, order)
    requires Expanded(nodes, expanded, order, p, cs, nodes', expanded', order')
    requires nodes[p].depth < c.maxDepth && |nodes'| <= c.maxLatticeNodes && |order| < c.maxHeadExpansions
    ensures WithinBudgets(c, nodes', order') && AncestorsExpanded(nodes', order')
  {
    forall i: nat | i < |nodes'|
      ensures DepthWithin(c, nodes', i) && (i > 0 ==> ParentIn(nodes', order', i))
    {
      if i < |nodes| {
        assert DepthWithin(c, nodes, i) && (i > 0 ==> ParentIn(nodes, order, i));
      }
    }
  }

  lemma ExpandedRanked(nodes: seq<Node>, nodes': seq<Node>, order: seq<nat>, p: nat)
    requires nodes <= nodes' && p < |nodes| && (forall x | x in order :: x < |nodes|)
    requires Ranked(nodes, order) && forall e | e in order :: Outranks(nodes, e, p)
    ensures Ranked(nodes', order + [p])
  {
    var order' := order + [p];
    RankStable(nodes, nodes');
    forall i: nat, j: nat | i < j < |order'|
      ensures RankedAt(nodes', order', i, j)
    {
      assert order[i] in order;
      if j < |order| {
        assert RankedAt(nodes, order, i, j) && order[j] in order;
      }
    }
  }

  lemma ChildOutranked(nodes: seq<Node>, p: nat, cs: seq<Candidate>, e: nat, u: nat)
    requires p < |nodes| && e < |nodes| && (e == p || Outranks(nodes, e, p))
    requires |nodes| <= u < |nodes| + |cs| && cs[u - |nodes|].logProb <= 0.0
    ensures Outranks(nodes + Children(nodes, p, cs), e, u)
  {
    var nodes' := nodes + Children(nodes, p, cs);
    assert nodes'[u] == Child(nodes, p, cs[u - |nodes|]);
    assert Outranks(nodes', p, u);
    if e != p {
      OutranksTransitive(nodes', e, p, u);
    }
  }

  lemma ExpandedBestFirst(c: Config, nodes: seq<Node>, expanded: seq<bool>, order: seq<nat>, p: nat, cs: seq<Candidate>,
                          nodes': seq<Node>, expanded': seq<bool>, order': seq<nat>)
    requires (forall x | x in order :: x < |nodes|) && BestFirst(c, nodes, expanded, order)
    requires Eligible(c, nodes, expanded, p)
    requires forall u: nat | Eligible(c, nodes, expanded, u) && u != p :: Outranks(nodes, p, u)
    requires Expanded(nodes, expanded, order, p, cs, nodes', expanded', order')
    requires forall k | 0 <= k < |cs| :: cs[k].logProb <= 0.0
    ensures BestFirst(c, nodes', expanded', order')
  {
    ExpandedRanked(nodes, nodes', order, p);
    forall e: nat, u: nat | e in order' && Eligible(c, nodes', expanded', u)
      ensures Outranks(nodes', e, u)
    {
      if u < |nodes| {
        RankStable(nodes, nodes');
        assert Eligible(c, nodes, expanded, u) && u != p;
      } else {
        ChildOutranked(nodes, p, cs, e, u);
      }
    }
  }

  /** Expanding the scheduled parent keeps everything: best-first order, ancestor closure, budgets. */
  lemma ExpansionKeepsInv(exp: real -> real, c: Config, nodes: seq<Node>, expanded: seq<bool>, order: seq<nat>,
                          p: nat, cs: seq<Candidate>, nodes': seq<Node>, expanded': seq<bool>, order': seq<nat>)
    requires Inv(c, nodes, expanded, order) && IsNextParent(c, nodes, expanded, |order|, Some(p))
    requires |cs| <= c.maxLatticeNodes - |nodes| && Expand(exp, nodes, p, cs) == Ok(nodes')
    requires Expanded(nodes, expanded, order, p, cs, nodes', expanded', order')
    ensures Inv(c, nodes', expanded', order')
  {
    ExpandKeeps(exp, nodes, p, cs);
    ExpandedTracks(nodes, expanded, order, p, cs, nodes', expanded', order');
    ExpandedWithin(c, nodes, expanded, order, p, cs, nodes', expanded', order');
    ExpandedBestFirst(c, nodes, expanded, order, p, cs, nodes', expanded', order');
  }

  /** Every ancestor of an expanded node is expanded. */
  lemma {:induction false} PathExpanded(nodes: seq<Node>, order: seq<nat>, x: nat)
    requires Lattice(nodes) && AncestorsExpanded(nodes, order) && x in order
    ensures x < |nodes| && forall y | y in SourcePath(nodes, x) :: y in order
    decreases x
  {
    if x > 0 {
      assert Hangs(nodes, x) && ParentIn(nodes, order, x);
      PathExpanded(nodes, order, nodes[x].parent.value);
    }
  }

  /** A validated configuration may still admit no expansion at all: exactly when its lattice budget is
      the root alone. Drafting then fails before the head is ever asked. */
  lemma RootExpansionRefusedIff(c: Config, anchor: Token)
    requires ValidConfig(c)
    ensures NextParent(c, [Node(anchor, None, 0, 0.0)], [false], 0) == None <==> c.maxLatticeNodes == 1
  {
    var nodes, expanded := [Node(anchor, None, 0, 0.0)], [false];
    assert Eligible(c, nodes, expanded, 0);
    assert IsNextParent(c, nodes, expanded, 0, NextParent(c, nodes, expanded, 0));
  }

  /** The smallest such configuration. */
  lemma SingleNodeRefused(anchor: Token)
    ensures var c := Config(1, 1, 1, 1, 1);
            ValidConfig(c) && NextParent(c, [Node(anchor, None, 0, 0.0)], [false], 0) == None
  {
    RootExpansionRefusedIff(Config(1, 1, 1, 1, 1), anchor);
  }

  // ---- The lattice that a sequence of observations builds -----------------------------------------

  function Room(c: Config, nodes: seq<Node>): (room: nat)
    ensures |nodes| <= c.maxLatticeNodes ==> room == c.maxLatticeNodes - |nodes|
  {
    if |nodes| < c.maxLatticeNodes then c.maxLatticeNodes - |nodes| else 0
  }

  /** The candidates an observation adds to this lattice. */
  function Added(c: Config, nodes: seq<Node>, out: Output): seq<Candidate> {
    Scores(out, Retained(c, out, Room(c, nodes)))
  }

  datatype Built = Built(nodes: seq<Node>, g: seq<Option<Vec>>)

  /** The lattice and the recurrent states that expanding `order` in turn gives, each parent with all the
      retained candidates of its own observation, in rank order. */
  ghost function Build(c: Config, anchor: Token, order: seq<nat>, seen: map<nat, Output>): (b: Built)
    ensures b.nodes != [] && |b.g| == |b.nodes|
  {
    if order == [] then Built([Node(anchor, None, 0, 0.0)], [None])
    else
      var n := |order| - 1;
      Attach(c, Build(c, anchor, order[..n], seen), order[n], seen)
  }

  ghost function Attach(c: Config, b: Built, x: nat, seen: map<nat, Output>): (r: Built)
    requires |b.g| == |b.nodes|
    ensures |r.g| == |r.nodes| && b.nodes <= r.nodes && b.g <= r.g
  {
    if x in seen && x < |b.nodes| then
      var cs := Added(c, b.nodes, seen[x]);
      Built(b.nodes + Children(b.nodes, x, cs), b.g + Copies(|cs|, Some(seen[x].rawHidden)))
    else b
  }

  /** Recording a further observation does not change what the earlier ones built. */
  lemma {:induction false} BuildIgnoresLater(c: Config, anchor: Token, order: seq<nat>, seen: map<nat, Output>,
                                             p: nat, out: Output)
    requires p !in order
    ensures Build(c, anchor, order, seen[p := out]) == Build(c, anchor, order, seen)
  {
    if order != [] {
      var n := |order| - 1;
      BuildIgnoresLater(c, anchor, order[..n], seen, p, out);
      assert order[n] in order;
    }
  }

  lemma BuildSnoc(c: Config, anchor: Token, order: seq<nat>, seen: map<nat, Output>, p: nat, out: Output)
    requires p !in order && p < |Build(c, anchor, order, seen).nodes|
    ensures var b := Build(c, anchor, order, seen);
            var cs := Added(c, b.nodes, out);
            Build(c, anchor, order + [p], seen[p := out])
            == Built(b.nodes + Children(b.nodes, p, cs), b.g + Copies(|cs|, Some(out.rawHidden)))
  {
    BuildIgnoresLater(c, anchor, order, seen, p, out);
    assert (order + [p])[..|order|] == order;
  }

  ghost predicate HasStates(b: Built) {
    |b.g| == |b.nodes| && forall i | 0 < i < |b.g| :: b.g[i].Some?
  }

  lemma AttachHasStates(c: Config, b: Built, x: nat, seen: map<nat, Output>)
    requires b.nodes != [] && HasStates(b)
    ensures HasStates(Attach(c, b, x, seen))
  {
  }

  /** Every node but the root carries its parent's recurrent state. */
  lemma {:induction false} BuildHasStates(c: Config, anchor: Token, order: seq<nat>, seen: map<nat, Output>)
    ensures HasStates(Build(c, anchor, order, seen))
  {
    if order != [] {
      var n := |order| - 1;
      BuildHasStates(c, anchor, order[..n], seen);
      AttachHasStates(c, Build(c, anchor, order[..n], seen), order[n], seen);
    }
  }

  /** The children of `x` are one block of the lattice: exactly the first `kept` candidates of its observation,
      in order. */
  ghost predicate Family(nodes: seq<Node>, x: nat, out: Output, start: nat, kept: nat) {
    && x < |nodes| && kept <= |out.top| && start + kept <= |nodes|
    && nodes[start..start + kept] == Children(nodes, x, Scores(out, kept))
    && ChildrenWithin(nodes, x, start, start + kept)
  }

  ghost predicate ChildrenWithin(nodes: seq<Node>, x: nat, lo: nat, hi: nat) {
    forall j | 0 <= j < |nodes| && !(lo <= j < hi) :: nodes[j].parent != Some(x)
  }

  lemma AttachFamily(c: Config, b: Built, x: nat, seen: map<nat, Output>)
    requires |b.g| == |b.nodes| && x in seen && x < |b.nodes| && ChildrenWithin(b.nodes, x, 0, 0)
    ensures Family(Attach(c, b, x, seen).nodes, x, seen[x], |b.nodes|, Retained(c, seen[x], Room(c, b.nodes)))
  {
    var kept := Retained(c, seen[x], Room(c, b.nodes));
    var nodes := Attach(c, b, x, seen).nodes;
    assert nodes[|b.nodes|..|b.nodes| + kept] == Children(b.nodes, x, Scores(seen[x], kept));
    assert Children(b.nodes, x, Scores(seen[x], kept)) == Children(nodes, x, Scores(seen[x], kept));
  }

  lemma AttachKeepsFamily(c: Config, b: Built, x: nat, seen: map<nat, Output>, y: nat, out: Output, start: nat,
                          kept: nat)
    requires |b.g| == |b.nodes| && x != y && Family(b.nodes, y, out, start, kept)
    ensures Family(Attach(c, b, x, seen).nodes, y, out, start, kept)
  {
    var nodes := Attach(c, b, x, seen).nodes;
    assert nodes[start..start + kept] == b.nodes[start..start + kept];
    assert Children(b.nodes, y, Scores(out, kept)) == Children(nodes, y, Scores(out, kept));
  }

  lemma AttachKeepsChildless(c: Config, b: Built, x: nat, seen: map<nat, Output>, y: nat)
    requires |b.g| == |b.nodes| && x != y && ChildrenWithin(b.nodes, y, 0, 0)
    ensures ChildrenWithin(Attach(c, b, x, seen).nodes, y, 0, 0)
  {
  }

  lemma {:induction false} NoChildrenYet(c: Config, anchor: Token, order: seq<nat>, seen: map<nat, Output>, x: nat)
    requires x !in order
    ensures ChildrenWithin(Build(c, anchor, order, seen).nodes, x, 0, 0)
  {
    if order != [] {
      var n := |order| - 1;
      assert order[n] in order;
      NoChildrenYet(c, anchor, order[..n], seen, x);
      AttachKeepsChildless(c, Build(c, anchor, order[..n], seen), order[n], seen, x);
    }
  }

  /** In the built lattice every expanded parent has exactly its retained candidates as children. */
  lemma {:induction false} FamilyOf(c: Config, anchor: Token, order: seq<nat>, seen: map<nat, Output>, k: nat, n: nat)
    requires Distinct(order) && k < n <= |order| && order[k] in seen
    requires order[k] < |Build(c, anchor, order[..k], seen).nodes|
    ensures var before, out := Build(c, anchor, order[..k], seen).nodes, seen[order[k]];
            Family(Build(c, anchor, order[..n], seen).nodes, order[k], out, |before|, Retained(c, out, Room(c, before)))
    decreases n
  {
    var b := Build(c, anchor, order[..n - 1], seen);
    assert order[..n][..n - 1] == order[..n - 1];
    if k < n - 1 {
      FamilyOf(c, anchor, order, seen, k, n - 1);
      var before, out := Build(c, anchor, order[..k], seen).nodes, seen[order[k]];
      AttachKeepsFamily(c, b, order[n - 1], seen, order[k], out, |before|, Retained(c, out, Room(c, before)));
    } else {
      assert order[k] !in order[..k];
      NoChildrenYet(c, anchor, order[..k], seen, order[k]);
      AttachFamily(c, b, order[k], seen);
    }
  }

  // ---- The frontier object ----------------------------------------------------------------------

  class Frontier {
    const config: Config
    var nodes: seq<Node>
    var expanded: seq<bool>
    var recurrentG: seq<Option<Vec>>
    var headExpansions: nat
    var forwards: nat
    /** The parents in the order they were expanded, and what the head said about each. */
    ghost var order: seq<nat>
    ghost var seen: map<nat, Output>

    ghost predicate Valid()
      reads this
    {
      && headExpansions == |order|
      && exists anchor: Token ::
           Explored(config, anchor, nodes, expanded, recurrentG, order, seen)
    }

    constructor (anchor: Token, config: Config)
      requires ValidConfig(config)
      ensures Valid() && this.config == config && order == [] && expanded == [false] && forwards == 0
      ensures nodes == [Node(anchor, None, 0, 0.0)] && seen == map[]
    {
      this.config := config;
      nodes, expanded, recurrentG := [Node(anchor, None, 0, 0.0)], [false], [None];
      headExpansions, forwards, order, seen := 0, 0, [], map[];
      new;
      assert Explored(config, anchor, nodes, expanded, recurrentG, order, seen);
    }

    /** Attach one observation to the scheduled parent: all its retained candidates at once, exactly when the
        parent is the scheduled one, the observation may be recorded and its probability mass is sound. Any
        error leaves the frontier unchanged. */
    method RecordExpansion(exp: real -> real, parent: nat, output: Output) returns (ok: bool)
      requires Valid()
      modifies this
      ensures Valid() && forwards == old(forwards)
      ensures ok == Recordable(exp, config, old(nodes), old(expanded), |old(order)|, parent, output)
      ensures !ok ==> unchanged(this)
      ensures ok ==>
                && order == old(order) + [parent] && seen == old(seen)[parent := output]
                && var cs := Added(config, old(nodes), output);
                   && nodes == old(nodes) + Children(old(nodes), parent, cs)
                   && recurrentG == old(recurrentG) + Copies(|cs|, Some(output.rawHidden))
    {
      var scores := CheckExpansion(exp, config, nodes, expanded, headExpansions, order, parent, output);
      if scores.None? {
        return false;
      }
      var cs := scores.value;
      var grown, states := nodes + Children(nodes, parent, cs), recurrentG + Copies(|cs|, Some(output.rawHidden));
      var marks := expanded[parent := true] + Unexpanded(|cs|);
      ghost var anchor :| Explored(config, anchor, nodes, expanded, recurrentG, order, seen);
      RecordKeeps(exp, config, nodes, expanded, recurrentG, order, seen, anchor, parent, output, grown, marks, states);
      Commit(grown, marks, states, parent, output, anchor);
      ok := true;
    }

    /** Count successful non-root head calls. */
    method Spend(n: nat)
      requires Valid()
      modifies this`forwards
      ensures Valid() && forwards == old(forwards) + n
    {
      ghost var anchor :| Explored(config, anchor, nodes, expanded, recurrentG, order, seen);
      forwards := forwards + n;
      assert Explored(config, anchor, nodes, expanded, recurrentG, order, seen);
    }

    /** The part of that contract a caller who only needs growth uses. */
    method Record(exp: real -> real, parent: nat, output: Output) returns (ok: bool)
      requires Valid()
      modifies this
      ensures Valid() && forwards == old(forwards) && Lattice(nodes) && |recurrentG| == |nodes|
      ensures !ok ==> unchanged(this)
      ensures old(nodes) <= nodes && old(recurrentG) <= recurrentG
      ensures ok == Recordable(exp, config, old(nodes), old(expanded), |old(order)|, parent, output)
      ensures ok ==> order == old(order) + [parent] && seen == old(seen)[parent := output]
    {
      ok := RecordExpansion(exp, parent, output);
    }

    method Commit(grown: seq<Node>, marks: seq<bool>, states: seq<Option<Vec>>, ghost parent: nat, ghost output: Output,
                  ghost anchor: Token)
      requires headExpansions == |order|
      requires Explored(config, anchor, grown, marks, states, order + [parent], seen[parent := output])
      modifies this
      ensures Valid() && forwards == old(forwards)
      ensures nodes == grown && recurrentG == states
      ensures order == old(order) + [parent] && seen == old(seen)[parent := output]
    {
      nodes, expanded, recurrentG, headExpansions := grown, marks, states, headExpansions + 1;
      order, seen := order + [parent], seen[parent := output];
      assert Explored(config, anchor, nodes, expanded, recurrentG, order, seen);
    }
  }

  /** The scheduled parent, an observation that may be recorded, and what `expand` itself still checks. */
  ghost predicate Recordable(exp: real -> real, c: Config, nodes: seq<Node>, expanded: seq<bool>, heads: nat,
                             parent: nat, output: Output) {
    && IsNextParent(c, nodes, expanded, heads, Some(parent))
    && Observable(c, output, Room(c, nodes))
    && parent < |nodes| && Sound(exp, nodes[parent], Added(c, nodes, output))
  }

  /** The checks of `record_expansion` and of `expand`, in their order. */
  method CheckExpansion(exp: real -> real, c: Config, nodes: seq<Node>, expanded: seq<bool>, heads: nat,
                        ghost order: seq<nat>, parent: nat, output: Output) returns (r: Option<seq<Candidate>>)
    requires Inv(c, nodes, expanded, order) && heads == |order|
    ensures r.Some? == Recordable(exp, c, nodes, expanded, heads, parent, output)
    ensures r.Some? ==> r.value == Added(c, nodes, output)
  {
    NextParentUnique(c, nodes, expanded, heads, NextParent(c, nodes, expanded, heads), parent);
    if NextParent(c, nodes, expanded, heads) != Some(parent) || !Observable(c, output, c.maxLatticeNodes - |nodes|) {
      return None;
    }
    var scores := Scores(output, Retained(c, output, c.maxLatticeNodes - |nodes|));
    ExpandIff(exp, c, nodes, expanded, order, parent, output);
    var grown := Expand(exp, nodes, parent, scores);
    r := if grown.Ok? then Some(scores) else None;
  }

  lemma RecordKeeps(exp: real -> real, c: Config, nodes: seq<Node>, expanded: seq<bool>, g: seq<Option<Vec>>,
                    order: seq<nat>, seen: map<nat, Output>, anchor: Token, p: nat, out: Output,
                    nodes': seq<Node>, expanded': seq<bool>, g': seq<Option<Vec>>)
    requires Explored(c, anchor, nodes, expanded, g, order, seen)
    requires Recordable(exp, c, nodes, expanded, |order|, p, out)
    requires nodes' == nodes + Children(nodes, p, Added(c, nodes, out))
    requires expanded' == expanded[p := true] + Unexpanded(|Added(c, nodes, out)|)
    requires g' == g + Copies(|Added(c, nodes, out)|, Some(out.rawHidden))
    ensures Explored(c, anchor, nodes', expanded', g', order + [p], seen[p := out])
  {
    ExpandIff(exp, c, nodes, expanded, order, p, out);
    ExpansionKeepsInv(exp, c, nodes, expanded, order, p, Added(c, nodes, out), nodes', expanded', order + [p]);
    BuildSnoc(c, anchor, order, seen, p, out);
    InTimeSnoc(c, anchor, order, seen, p, out);
  }

  /** Of a scheduled parent and a recordable observation `expand` refuses only unsound mass or depth. */
  lemma ExpandIff(exp: real -> real, c: Config, nodes: seq<Node>, expanded: seq<bool>, order: seq<nat>, p: nat,
                  out: Output)
    requires Inv(c, nodes, expanded, order) && p < |nodes| && !expanded[p] && WellRanked(out.top)
    ensures var cs := Added(c, nodes, out);
            Expand(exp, nodes, p, cs) == if Sound(exp, nodes[p], cs) then Ok(nodes + Children(nodes, p, cs)) else Err
    ensures p !in order
  {
    UnexpandedIsChildless(c, nodes, expanded, order, p);
    assert FreshTokens(nodes, p, Added(c, nodes, out));
  }

  /** An observation of the scheduled parent is recorded exactly when its hidden state has 3072 numbers, the head
      evaluated 32000 draft tokens, every logit and the normalizer are finite, the candidates are distinct and ranked,
      no retained one exceeds the normalizer by more than a hundred-thousandth, and neither the retained
      probabilities exceed one by more than that nor the depth sixteen bits. */
  lemma RecordableIff(exp: real -> real, c: Config, nodes: seq<Node>, expanded: seq<bool>, heads: nat, parent: nat,
                      out: Output)
    requires parent < |nodes| <= c.maxLatticeNodes
    ensures var kept := Retained(c, out, c.maxLatticeNodes - |nodes|);
            Recordable(exp, c, nodes, expanded, heads, parent, out)
            <==>
            && IsNextParent(c, nodes, expanded, heads, Some(parent))
            && |out.rawHidden| == 3072 && out.vocabRows == 32000 && out.logsumexp.Finite?
            && (forall k | 0 <= k < |out.top| :: out.top[k].logit.Finite?)
            && (forall j, k | 0 <= j < |out.top| && 0 <= k < |out.top| && j != k ::
                  out.top[j].draftToken != out.top[k].draftToken && out.top[j].targetToken != out.top[k].targetToken)
            && (forall j, k | 0 <= j < k < |out.top| ::
                  && out.top[j].logit.v >= out.top[k].logit.v
                  && (out.top[j].logit.v == out.top[k].logit.v ==> out.top[j].draftToken < out.top[k].draftToken))
            && (forall k | 0 <= k < kept :: out.top[k].logit.v <= out.logsumexp.v + 0.00001)
            && nodes[parent].depth < 65535
            && SumOf(Probabilities(exp, Scores(out, kept))) <= 1.00001
  {
    MassIsSum(exp, Added(c, nodes, out));
    RankedIff(out.top);
  }

  lemma RankedIff(top: seq<TopCandidate>)
    ensures WellRanked(top)
            <==>
            && (forall k | 0 <= k < |top| :: top[k].logit.Finite?)
            && (forall j, k | 0 <= j < |top| && 0 <= k < |top| && j != k ::
                  top[j].draftToken != top[k].draftToken && top[j].targetToken != top[k].targetToken)
            && (forall j, k | 0 <= j < k < |top| ::
                  && top[j].logit.v >= top[k].logit.v
                  && (top[j].logit.v == top[k].logit.v ==> top[j].draftToken < top[k].draftToken))
  {
    if WellRanked(top) {
      forall j: nat, k: nat | j < k < |top|
        ensures RankedAfter(top[j], top[k])
      {
        RankedThroughout(top, j, k);
      }
    }
  }

  lemma {:induction false} RankedThroughout(top: seq<TopCandidate>, j: nat, k: nat)
    requires WellRanked(top) && j < k < |top|
    ensures RankedAfter(top[j], top[k])
  {
    if j + 1 < k {
      RankedThroughout(top, j, k - 1);
    }
    assert RankedAfter(top[k - 1], top[k]);
  }

  /** An observation that any frontier within 16-bit depths records, however much room it has. */
  ghost predicate SoundOutput(exp: real -> real, out: Output) {
    && |out.rawHidden| == HIDDEN_SIZE && WellRanked(out.top) && out.vocabRows == DRAFT_VOCAB && out.logsumexp.Finite?
    && (forall k | 0 <= k < |out.top| :: Value(out.top[k].logit) - Value(out.logsumexp) <= NORMALIZER_SLACK)
    && forall n: nat | n <= |out.top| :: Mass(exp, Scores(out, n)) <= 1.0 + MASS_SLACK
  }

  lemma SoundIsRecordable(exp: real -> real, c: Config, nodes: seq<Node>, expanded: seq<bool>, heads: nat, parent: nat,
                          out: Output)
    requires IsNextParent(c, nodes, expanded, heads, Some(parent)) && SoundOutput(exp, out) && c.maxDepth <= 0xFFFF
    ensures Recordable(exp, c, nodes, expanded, heads, parent, out)
  {
    assert Eligible(c, nodes, expanded, parent);
  }

  /** What `expand` itself still checks of a recorded observation. */
  predicate Sound(exp: real -> real, parent: Node, cs: seq<Candidate>) {
    parent.depth < 0xFFFF && Mass(exp, cs) <= 1.0 + MASS_SLACK
  }

  lemma UnexpandedIsChildless(c: Config, nodes: seq<Node>, expanded: seq<bool>, order: seq<nat>, p: nat)
    requires Inv(c, nodes, expanded, order) && p < |nodes| && !expanded[p]
    ensures p !in order && forall i | 0 <= i < |nodes| :: nodes[i].parent != Some(p)
  {
    assert TracksAt(expanded, order, p);
    forall i | 0 <= i < |nodes|
      ensures nodes[i].parent != Some(p)
    {
      assert i > 0 ==> ParentIn(nodes, order, i);
    }
  }

  // ---- What the frontier remembers --------------------------------------------------------------

  /** The scheduler's invariant, and: the lattice is exactly what the recorded observations build. */
  ghost predicate Explored(c: Config, anchor: Token, nodes: seq<Node>, expanded: seq<bool>, g: seq<Option<Vec>>,
                           order: seq<nat>, seen: map<nat, Output>) {
    && Inv(c, nodes, expanded, order) && (forall x :: x in seen <==> x in order)
    && Built(nodes, g) == Build(c, anchor, order, seen) && InTime(c, anchor, order, seen)
  }

  /** Every parent was already in the lattice when it was expanded. */
  ghost predicate InTime(c: Config, anchor: Token, order: seq<nat>, seen: map<nat, Output>) {
    forall k: nat | k < |order| :: InTimeAt(c, anchor, order, seen, k)
  }

  ghost predicate InTimeAt(c: Config, anchor: Token, order: seq<nat>, seen: map<nat, Output>, k: nat) {
    k < |order| && order[k] < |Build(c, anchor, order[..k], seen).nodes|
  }

  lemma InTimeSnoc(c: Config, anchor: Token, order: seq<nat>, seen: map<nat, Output>, p: nat, out: Output)
    requires InTime(c, anchor, order, seen) && p !in order && p < |Build(c, anchor, order, seen).nodes|
    ensures InTime(c, anchor, order + [p], seen[p := out])
  {
    var order', seen' := order + [p], seen[p := out];
    forall k: nat | k < |order'|
      ensures InTimeAt(c, anchor, order', seen', k)
    {
      assert order'[..k] == order[..k] && p !in order[..k];
      BuildIgnoresLater(c, anchor, order[..k], seen, p, out);
      if k < |order| {
        assert InTimeAt(c, anchor, order, seen, k);
      } else {
        assert order[..k] == order;
      }
    }
  }

  lemma {:induction false} BuildRoot(c: Config, anchor: Token, order: seq<nat>, seen: map<nat, Output>)
    ensures Build(c, anchor, order, seen).nodes[0] == Node(anchor, None, 0, 0.0)
  {
    if order != [] {
      var n := |order| - 1;
      BuildRoot(c, anchor, order[..n], seen);
    }
  }

  /** A frontier is explored from the token of its root. */
  lemma AnchorIsRoot(c: Config, anchor: Token, nodes: seq<Node>, expanded: seq<bool>, g: seq<Option<Vec>>,
                     order: seq<nat>, seen: map<nat, Output>)
    requires Explored(c, anchor, nodes, expanded, g, order, seen)
    ensures nodes != [] && nodes[0].token == anchor
  {
    BuildRoot(c, anchor, order, seen);
  }

  /** In a valid frontier the children of each expanded parent are exactly the retained candidates of its
      observation, in rank order, with as much room as the lattice had at that moment. */
  lemma ChildrenOfExpanded(c: Config, anchor: Token, nodes: seq<Node>, expanded: seq<bool>, g: seq<Option<Vec>>,
                           order: seq<nat>, seen: map<nat, Output>, k: nat)
    requires Explored(c, anchor, nodes, expanded, g, order, seen) && k < |order|
    ensures order[k] in seen
    ensures var before, out := Build(c, anchor, order[..k], seen).nodes, seen[order[k]];
            Family(nodes, order[k], out, |before|, Retained(c, out, Room(c, before)))
  {
    assert order[k] in order && InTimeAt(c, anchor, order, seen, k);
    RankedDistinct(nodes, order);
    FamilyOf(c, anchor, order, seen, k, |order|);
    assert order[..|order|] == order;
  }

  /** Parents were expanded from the most to the least probable, shallower ones first among equals, and nothing that
      still waits is more probable than any of them. */
  lemma ScoresFall(c: Config, anchor: Token, nodes: seq<Node>, expanded: seq<bool>, g: seq<Option<Vec>>,
                   order: seq<nat>, seen: map<nat, Output>)
    requires Explored(c, anchor, nodes, expanded, g, order, seen)
    ensures forall k | 0 <= k < |order| :: order[k] < |nodes|
    ensures forall i, j | 0 <= i < j < |order| ::
              && nodes[order[i]].score >= nodes[order[j]].score
              && (nodes[order[i]].score == nodes[order[j]].score ==> nodes[order[i]].depth <= nodes[order[j]].depth)
    ensures |expanded| == |nodes|
    ensures forall k, u: nat | 0 <= k < |order| && u < |nodes| && !expanded[u] && nodes[u].depth < c.maxDepth ::
              nodes[order[k]].score >= nodes[u].score
  {
    forall k | 0 <= k < |order|
      ensures order[k] < |nodes|
    {
      assert order[k] in order;
    }
    forall i: nat, j: nat | i < j < |order|
      ensures order[i] < |nodes| && order[j] < |nodes|
      ensures && nodes[order[i]].score >= nodes[order[j]].score
              && (nodes[order[i]].score == nodes[order[j]].score ==> nodes[order[i]].depth <= nodes[order[j]].depth)
    {
      assert RankedAt(nodes, order, i, j);
    }
    forall k, u: nat | 0 <= k < |order| && u < |nodes| && !expanded[u] && nodes[u].depth < c.maxDepth
      ensures nodes[order[k]].score >= nodes[u].score
    {
      assert order[k] in order && Eligible(c, nodes, expanded, u);
    }
  }

  // ---- What a score is ----------------------------------------------------------------------------

  /** A step from a parent to the child that carries candidate `k` of the parent's observation: its logit less the
      normalizer, or zero where rounding put the logit above the normalizer. */
  ghost predicate StepOf(parent: Output, child: Node, k: nat, step: real) {
    && k < |parent.top| && child.token == parent.top[k].targetToken
    && (parent.top[k].logit.Finite? && parent.logsumexp.Finite? ==>
          var logit, normalizer := parent.top[k].logit.v, parent.logsumexp.v;
          step == if logit <= normalizer then logit - normalizer else 0.0)
  }

  ghost predicate CarriesState(b: Built, seen: map<nat, Output>) {
    && |b.g| == |b.nodes|
    && forall i | 0 < i < |b.nodes| ::
         b.nodes[i].parent.Some? && b.nodes[i].parent.value in seen
         && b.g[i] == Some(seen[b.nodes[i].parent.value].rawHidden)
  }

  lemma {:induction false} BuildStates(c: Config, anchor: Token, order: seq<nat>, seen: map<nat, Output>)
    ensures CarriesState(Build(c, anchor, order, seen), seen)
  {
    if order != [] {
      BuildStates(c, anchor, order[..|order| - 1], seen);
    }
  }

  /** Every node but the root carries one candidate of its parent's observation, one level down and one step less
      probable; the state it is replayed from is the one that observation left. */
  lemma NodeOfStep(c: Config, anchor: Token, nodes: seq<Node>, expanded: seq<bool>, g: seq<Option<Vec>>,
                   order: seq<nat>, seen: map<nat, Output>, x: nat) returns (k: nat, step: real)
    requires Explored(c, anchor, nodes, expanded, g, order, seen) && 0 < x < |nodes|
    ensures nodes[x].parent.Some? && nodes[x].parent.value < x && nodes[x].parent.value in seen
    ensures var p := nodes[x].parent.value;
            && StepOf(seen[p], nodes[x], k, step) && k < c.candidatesPerParent
            && nodes[x].depth == nodes[p].depth + 1 && nodes[x].score == nodes[p].score + step
            && |g| == |nodes| && g[x] == Some(seen[p].rawHidden)
  {
    assert Hangs(nodes, x) && ParentIn(nodes, order, x);
    var p := nodes[x].parent.value;
    var at :| 0 <= at < |order| && order[at] == p;
    ChildrenOfExpanded(c, anchor, nodes, expanded, g, order, seen, at);
    var before, out := Build(c, anchor, order[..at], seen).nodes, seen[p];
    var start, kept := |before|, Retained(c, out, Room(c, before));
    k, step := ChildOfStep(nodes, p, out, start, kept, x);
    BuildStates(c, anchor, order, seen);
  }

  lemma ChildOfStep(nodes: seq<Node>, p: nat, out: Output, start: nat, kept: nat, x: nat)
    returns (k: nat, step: real)
    requires Family(nodes, p, out, start, kept) && x < |nodes| && nodes[x].parent == Some(p)
    ensures StepOf(out, nodes[x], k, step) && k < kept
    ensures nodes[x].depth == nodes[p].depth + 1 && nodes[x].score == nodes[p].score + step
  {
    assert start <= x < start + kept;
    k := x - start;
    step := LogProb(out, k);
    assert nodes[x] == nodes[start..start + kept][k] == Children(nodes, p, Scores(out, kept))[k];
  }

  /** A node's score is the sum of the steps along its root path, which is as long as the node is deep. */
  lemma {:induction false} ScoreIsSum(c: Config, anchor: Token, nodes: seq<Node>, expanded: seq<bool>,
                                      g: seq<Option<Vec>>, order: seq<nat>, seen: map<nat, Output>, x: nat)
    returns (path: seq<nat>, slots: seq<nat>, steps: seq<real>)
    requires Explored(c, anchor, nodes, expanded, g, order, seen) && x < |nodes|
    ensures |path| == nodes[x].depth + 1 && |slots| == |steps| == nodes[x].depth
    ensures path[0] == 0 && path[|path| - 1] == x && nodes[0].token == anchor && nodes[0].score == 0.0
    ensures forall i | 0 <= i < |path| :: path[i] < |nodes|
    ensures forall i: nat | i < |steps| :: StepAt(nodes, seen, path, slots, steps, i)
    ensures nodes[x].score == SumOf(steps)
    decreases x
  {
    BuildRoot(c, anchor, order, seen);
    path, slots, steps := [0], [], [];
    if x > 0 {
      var k, step := NodeOfStep(c, anchor, nodes, expanded, g, order, seen, x);
      var up, upSlots, upSteps := ScoreIsSum(c, anchor, nodes, expanded, g, order, seen, nodes[x].parent.value);
      path, slots, steps := up + [x], upSlots + [k], upSteps + [step];
      forall i: nat | i < |steps|
        ensures StepAt(nodes, seen, path, slots, steps, i)
      {
        assert i < |upSteps| ==> StepAt(nodes, seen, up, upSlots, upSteps, i);
      }
      assert steps[..|steps| - 1] == upSteps;
    }
  }

  ghost predicate StepAt(nodes: seq<Node>, seen: map<nat, Output>, path: seq<nat>, slots: seq<nat>, steps: seq<real>,
                         i: nat) {
    && i + 1 < |path| && i < |slots| && i < |steps| && path[i] < |nodes| && path[i + 1] < |nodes|
    && nodes[path[i + 1]].parent == Some(path[i]) && path[i] in seen
    && StepOf(seen[path[i]], nodes[path[i + 1]], slots[i], steps[i])
  }
}
