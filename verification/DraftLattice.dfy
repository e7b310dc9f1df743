/** The expansion-time candidate lattice and its connected rerank (src/inference/spec_tree.rs). */
module DraftLattice {
  import opened Prelude
  import opened TokenTree

  datatype Node = Node(token: Token, parent: Option<nat>, depth: nat, score: real)

  /** One normalized candidate: a token and its conditional log probability. */
  datatype Candidate = Candidate(token: Token, logProb: real)

  /** Append-only tree of cumulative scores: parents precede children, and a child is never more
      probable than its parent. */
  ghost predicate Lattice(nodes: seq<Node>) {
    && nodes != [] && nodes[0].parent == None && nodes[0].depth == 0
    && forall i | 0 < i < |nodes| :: Hangs(nodes, i)
  }

  ghost predicate Hangs(nodes: seq<Node>, i: nat)
    requires i < |nodes|
  {
    && nodes[i].parent.Some? && nodes[i].parent.value < i
    && nodes[i].depth == nodes[nodes[i].parent.value].depth + 1
    && nodes[i].score <= nodes[nodes[i].parent.value].score
  }

  ghost predicate SiblingsDiffer(nodes: seq<Node>) {
    forall i: nat, j: nat | i < j < |nodes| :: DifferAt(nodes, i, j)
  }

  ghost predicate DifferAt(nodes: seq<Node>, i: nat, j: nat) {
    && i < |nodes| && j < |nodes|
    && (nodes[i].parent.Some? && nodes[i].parent == nodes[j].parent ==> nodes[i].token != nodes[j].token)
  }

  /** The scheduler's and the rerank's order: score descending, then shallower, then older. */
  predicate Outranks(nodes: seq<Node>, a: nat, b: nat) {
    && a < |nodes| && b < |nodes|
    && (nodes[a].score > nodes[b].score
        || (nodes[a].score == nodes[b].score
            && (nodes[a].depth < nodes[b].depth || (nodes[a].depth == nodes[b].depth && a < b))))
  }

  function RankOrder(nodes: seq<Node>): (nat, nat) -> bool {
    (a: nat, b: nat) => Outranks(nodes, a, b)
  }

  /** Breadth-first layout: level by level, older first inside a level. */
  function LevelOrder(nodes: seq<Node>): (nat, nat) -> bool {
    (a: nat, b: nat) => a < |nodes| && b < |nodes|
              && (nodes[a].depth < nodes[b].depth || (nodes[a].depth == nodes[b].depth && a < b))
  }

  lemma ParentOutranks(nodes: seq<Node>, i: nat)
    requires Lattice(nodes) && 0 < i < |nodes|
    ensures Hangs(nodes, i) && Outranks(nodes, nodes[i].parent.value, i)
  {
    assert Hangs(nodes, i);
  }

  // ---- Expansion ------------------------------------------------------------------------------

  function Child(nodes: seq<Node>, parent: nat, c: Candidate): Node
    requires parent < |nodes|
  {
    Node(c.token, Some(parent), nodes[parent].depth + 1, nodes[parent].score + c.logProb)
  }

  function Children(nodes: seq<Node>, parent: nat, cs: seq<Candidate>): (r: seq<Node>)
    requires parent < |nodes|
    ensures |r| == |cs|
  {
    seq(|cs|, i requires 0 <= i < |cs| => Child(nodes, parent, cs[i]))
  }

  function Mass(exp: real -> real, cs: seq<Candidate>): real {
    if cs == [] then 0.0 else Mass(exp, cs[..|cs| - 1]) + exp(cs[|cs| - 1].logProb)
  }

  predicate FreshTokens(nodes: seq<Node>, parent: nat, cs: seq<Candidate>) {
    && (forall i, j | 0 <= i < j < |cs| :: cs[i].token != cs[j].token)
    && (forall i, k | 0 <= i < |nodes| && 0 <= k < |cs| ::
          nodes[i].parent == Some(parent) ==> nodes[i].token != cs[k].token)
  }

  const MASS_SLACK := 0.00001

  predicate Admissible(exp: real -> real, nodes: seq<Node>, parent: nat, cs: seq<Candidate>) {
    && parent < |nodes| && nodes[parent].depth < 0xFFFF
    && (forall i | 0 <= i < |cs| :: cs[i].logProb <= 0.0)
    && FreshTokens(nodes, parent, cs)
    && Mass(exp, cs) <= 1.0 + MASS_SLACK
  }

  /** `expand`: all candidates at once, or an error and no change. */
  function Expand(exp: real -> real, nodes: seq<Node>, parent: nat, cs: seq<Candidate>): (r: Result<seq<Node>>) {
    if Admissible(exp, nodes, parent, cs) then Ok(nodes + Children(nodes, parent, cs)) else Err
  }

  /** The probabilities the candidates stand for. */
  function Probabilities(exp: real -> real, cs: seq<Candidate>): (r: seq<real>)
    ensures |r| == |cs| && forall k | 0 <= k < |cs| :: r[k] == exp(cs[k].logProb)
  {
    seq(|cs|, k requires 0 <= k < |cs| => exp(cs[k].logProb))
  }

  lemma {:induction false} MassIsSum(exp: real -> real, cs: seq<Candidate>)
    ensures Mass(exp, cs) == SumOf(Probabilities(exp, cs))
  {
    if cs != [] {
      var n := |cs| - 1;
      MassIsSum(exp, cs[..n]);
      assert Probabilities(exp, cs)[..n] == Probabilities(exp, cs[..n]);
    }
  }

  /** An expansion is refused for an unknown parent, a depth that no longer fits sixteen bits, a positive
      log-probability, a token the parent already has or that comes twice, or more than all of the probability; an
      accepted one appends the candidates as children, in order. */
  lemma ExpandIff(exp: real -> real, nodes: seq<Node>, parent: nat, cs: seq<Candidate>)
    ensures Expand(exp, nodes, parent, cs).Ok?
            <==>
            && parent < |nodes| && nodes[parent].depth < 65535
            && (forall k | 0 <= k < |cs| :: cs[k].logProb <= 0.0)
            && (forall j, k | 0 <= j < |cs| && 0 <= k < |cs| && j != k :: cs[j].token != cs[k].token)
            && (forall i, k | 0 <= i < |nodes| && 0 <= k < |cs| && nodes[i].parent == Some(parent) ::
                  cs[k].token != nodes[i].token)
            && SumOf(Probabilities(exp, cs)) <= 1.00001
    ensures Expand(exp, nodes, parent, cs).Ok? ==>
              var grown := Expand(exp, nodes, parent, cs).value;
              && |grown| == |nodes| + |cs| && nodes <= grown
              && forall k | 0 <= k < |cs| ::
                   grown[|nodes| + k] == Node(cs[k].token, Some(parent), nodes[parent].depth + 1,
                                              nodes[parent].score + cs[k].logProb)
  {
    MassIsSum(exp, cs);
  }

  lemma ExpandKeeps(exp: real -> real, nodes: seq<Node>, parent: nat, cs: seq<Candidate>)
    requires Lattice(nodes) && SiblingsDiffer(nodes) && Expand(exp, nodes, parent, cs).Ok?
    ensures var more := Expand(exp, nodes, parent, cs).value;
            && Lattice(more) && SiblingsDiffer(more) && nodes <= more && |more| == |nodes| + |cs|
            && forall i | |nodes| <= i < |more| :: more[i] == Child(nodes, parent, cs[i - |nodes|])
  {
    var more := Expand(exp, nodes, parent, cs).value;
    forall i | 0 < i < |more|
      ensures Hangs(more, i)
    {
      assert i < |nodes| ==> Hangs(nodes, i);
    }
    forall i: nat, j: nat | i < j < |more|
      ensures DifferAt(more, i, j)
    {
      assert j < |nodes| ==> DifferAt(nodes, i, j);
    }
  }

  // ---- Root paths -----------------------------------------------------------------------------

  ghost function SourcePath(nodes: seq<Node>, i: nat): (p: seq<nat>)
    requires Lattice(nodes) && i < |nodes|
    ensures p != [] && p[0] == 0 && p[|p| - 1] == i && |p| == nodes[i].depth + 1
    ensures forall k | 0 <= k < |p| :: p[k] <= i
    decreases i
  {
    if i == 0 then [0]
    else
      assert Hangs(nodes, i);
      SourcePath(nodes, nodes[i].parent.value) + [i]
  }

  lemma {:induction false} SourcePathStable(nodes: seq<Node>, more: seq<Node>, i: nat)
    requires Lattice(nodes) && Lattice(more) && nodes <= more && i < |nodes|
    ensures SourcePath(nodes, i) == SourcePath(more, i)
    decreases i
  {
    if i > 0 {
      assert Hangs(nodes, i) && Hangs(more, i);
      SourcePathStable(nodes, more, nodes[i].parent.value);
    }
  }

  // ---- Connected rerank -----------------------------------------------------------------------

  datatype ScoredTree = ScoredTree(tree: Tree, scores: seq<real>, source: seq<nat>)

  function Shallow(nodes: seq<Node>, maxDepth: nat, n: nat): (r: seq<nat>)
    requires n <= |nodes|
    ensures forall x :: x in r <==> 0 <= x < n && nodes[x].depth <= maxDepth
    ensures Distinct(r)
  {
    if n == 0 then [] else
      var r := Shallow(nodes, maxDepth, n - 1);
      if nodes[n - 1].depth <= maxDepth then r + [n - 1] else r
  }

  /** The strongest `count` of the nodes no deeper than `maxDepth`. */
  ghost predicate Strongest(nodes: seq<Node>, maxDepth: nat, count: nat, chosen: seq<nat>) {
    && Distinct(chosen)
    && (forall x | x in chosen :: x < |nodes| && nodes[x].depth <= maxDepth)
    && (|chosen| == count || forall x: nat | x < |nodes| && nodes[x].depth <= maxDepth :: x in chosen)
    && |chosen| <= count
    && forall x: nat, y: nat | x in chosen && y < |nodes| && nodes[y].depth <= maxDepth && y !in chosen ::
      Outranks(nodes, x, y)
  }

  /** In plain numbers: as many as asked for or all there are, and none that is left out is more probable than one that
      is kept, shallower than an equally probable one, or older than an equally probable and deep one. */
  lemma StrongestScores(nodes: seq<Node>, maxDepth: nat, count: nat, kept: seq<nat>)
    requires Strongest(nodes, maxDepth, count, kept)
    ensures forall x | x in kept :: x < |nodes| && nodes[x].depth <= maxDepth
    ensures |kept| <= count
    ensures |kept| < count ==> forall y: nat | y < |nodes| && nodes[y].depth <= maxDepth :: y in kept
    ensures forall x: nat, y: nat | x in kept && y !in kept && y < |nodes| && nodes[y].depth <= maxDepth ::
              && nodes[x].score >= nodes[y].score
              && (nodes[x].score == nodes[y].score ==> nodes[x].depth <= nodes[y].depth)
              && (nodes[x].score == nodes[y].score && nodes[x].depth == nodes[y].depth ==> x < y)
  {
    forall x: nat, y: nat | x in kept && y !in kept && y < |nodes| && nodes[y].depth <= maxDepth
      ensures && nodes[x].score >= nodes[y].score
              && (nodes[x].score == nodes[y].score ==> nodes[x].depth <= nodes[y].depth)
              && (nodes[x].score == nodes[y].score && nodes[x].depth == nodes[y].depth ==> x < y)
    {
      assert Outranks(nodes, x, y);
    }
  }

  ghost predicate ParentClosed(nodes: seq<Node>, chosen: seq<nat>) {
    forall x | x in chosen && 0 < x < |nodes| :: nodes[x].parent.Some? && nodes[x].parent.value in chosen
  }

  /** Truncating the rank order cannot orphan a node: scores never rise along an edge and ties prefer
      the shallower node, so a chosen child's parent was chosen before it. */
  lemma StrongestIsConnected(nodes: seq<Node>, maxDepth: nat, count: nat, chosen: seq<nat>)
    requires Lattice(nodes) && count > 0 && Strongest(nodes, maxDepth, count, chosen)
    ensures ParentClosed(nodes, chosen)
    ensures 0 in chosen
  {
    forall x | x in chosen && 0 < x < |nodes|
      ensures nodes[x].parent.Some? && nodes[x].parent.value in chosen
    {
      ParentOutranks(nodes, x);
      var p := nodes[x].parent.value;
      assert p !in chosen ==> Outranks(nodes, x, p);
    }
    if |chosen| == count {
      RootReached(nodes, chosen, chosen[0]);
    }
  }

  lemma {:induction false} RootReached(nodes: seq<Node>, chosen: seq<nat>, x: nat)
    requires Lattice(nodes) && ParentClosed(nodes, chosen) && x in chosen && x < |nodes|
    ensures 0 in chosen
    decreases x
  {
    if x > 0 {
      assert Hangs(nodes, x);
      RootReached(nodes, chosen, nodes[x].parent.value);
    }
  }

  method SelectStrongest(nodes: seq<Node>, maxNodes: nat, maxDepth: nat) returns (chosen: seq<nat>)
    requires Lattice(nodes)
    ensures Strongest(nodes, maxDepth, maxNodes, chosen)
  {
    var all := Shallow(nodes, maxDepth, |nodes|);
    var ranked := SortBy(RankOrder(nodes), all);
    assert StrictTotalOn(RankOrder(nodes), all);
    SortBySorted(RankOrder(nodes), all);
    chosen := if |ranked| > maxNodes then ranked[..maxNodes] else ranked;
    forall x: nat, y: nat | x in chosen && y < |nodes| && nodes[y].depth <= maxDepth && y !in chosen
      ensures Outranks(nodes, x, y)
    {
      assert y in ranked;
      var i :| 0 <= i < |chosen| && chosen[i] == x;
      var j :| 0 <= j < |ranked| && ranked[j] == y;
      assert j >= maxNodes && RankOrder(nodes)(ranked[i], ranked[j]);
    }
  }

  /** Rows in verifier order, each pointing back at its lattice node. */
  ghost predicate LaidOut(nodes: seq<Node>, rows: seq<nat>) {
    && rows != [] && Distinct(rows) && Sorted(LevelOrder(nodes), rows) && 0 in rows
    && (forall x | x in rows :: x < |nodes|) && ParentClosed(nodes, rows)
  }

  lemma RootFirst(nodes: seq<Node>, rows: seq<nat>)
    requires Lattice(nodes) && LaidOut(nodes, rows)
    ensures rows[0] == 0
  {
    var i :| 0 <= i < |rows| && rows[i] == 0;
  }

  /** `remap` really is the inverse of the row order, and a parent's row precedes its child's. */
  lemma ParentRowEarlier(nodes: seq<Node>, rows: seq<nat>, r: nat, p: nat)
    requires Lattice(nodes) && LaidOut(nodes, rows) && 0 < r < |rows| && p < |rows|
    requires nodes[rows[r]].parent == Some(rows[p])
    ensures p < r
  {
    RootFirst(nodes, rows);
    assert rows[r] in rows && rows[r] != 0;
    assert Hangs(nodes, rows[r]);
  }

  ghost predicate Renders(nodes: seq<Node>, rows: seq<nat>, s: ScoredTree) {
    && s.source == rows && |s.tree.tokens| == |s.tree.parent| == |s.tree.depth| == |s.scores| == |rows|
    && forall r: nat | r < |rows| :: RendersRow(nodes, rows, s, r)
  }

  ghost predicate RendersRow(nodes: seq<Node>, rows: seq<nat>, s: ScoredTree, r: nat)
    requires r < |rows| == |s.tree.tokens| == |s.tree.parent| == |s.tree.depth| == |s.scores|
  {
    && rows[r] < |nodes|
    && var node := nodes[rows[r]];
       && s.tree.tokens[r] == node.token && s.tree.depth[r] == node.depth && s.scores[r] == node.score
       && PointsAt(nodes, rows, rows[r], s.tree.parent[r])
  }

  lemma RenderedWellFormed(nodes: seq<Node>, rows: seq<nat>, s: ScoredTree)
    requires Lattice(nodes) && LaidOut(nodes, rows) && Renders(nodes, rows, s)
    ensures WellFormed(s.tree)
  {
    RootFirst(nodes, rows);
    assert RendersRow(nodes, rows, s, 0);
    forall r | 0 < r < |rows|
      ensures 0 <= s.tree.parent[r] < r && s.tree.depth[r] == s.tree.depth[s.tree.parent[r]] + 1
    {
      assert rows[r] != rows[0] && rows[r] in rows;
      assert Hangs(nodes, rows[r]) && RendersRow(nodes, rows, s, r);
      ParentRowEarlier(nodes, rows, r, s.tree.parent[r]);
      assert RendersRow(nodes, rows, s, s.tree.parent[r]);
    }
  }

  /** Verifier rows as lattice nodes. */
  function Mapped(source: seq<nat>, rows: seq<nat>): (r: seq<nat>)
    requires forall k | 0 <= k < |rows| :: rows[k] < |source|
    ensures |r| == |rows|
  {
    seq(|rows|, k requires 0 <= k < |rows| => source[rows[k]])
  }

  lemma MappedSnoc(source: seq<nat>, rows: seq<nat>, row: nat)
    requires row < |source| && forall k | 0 <= k < |rows| :: rows[k] < |source|
    ensures Mapped(source, rows + [row]) == Mapped(source, rows) + [source[row]]
  {
  }

  /** A row's parent row is earlier and renders its node's parent; only row 0 has none. */
  lemma ParentRendered(nodes: seq<Node>, rows: seq<nat>, s: ScoredTree, r: nat)
    requires Lattice(nodes) && LaidOut(nodes, rows) && Renders(nodes, rows, s) && 0 < r < |rows|
    ensures rows[r] > 0 && rows[r] < |nodes| && 0 <= s.tree.parent[r] < |rows|
    ensures nodes[rows[r]].parent == Some(rows[s.tree.parent[r]])
  {
    RootFirst(nodes, rows);
    assert rows[r] != rows[0] && rows[r] in rows;
    assert Hangs(nodes, rows[r]) && RendersRow(nodes, rows, s, r);
  }

  /** Every verifier row keeps its lattice branch: its root path, read through `source_node`, is the
      node's own root path in the lattice. */
  lemma {:induction false} RenderedPaths(nodes: seq<Node>, rows: seq<nat>, s: ScoredTree, r: nat)
    requires Lattice(nodes) && LaidOut(nodes, rows) && Renders(nodes, rows, s) && r < |rows|
    ensures WellFormed(s.tree) && rows[r] < |nodes|
    ensures Mapped(rows, PathTo(s.tree, r)) == SourcePath(nodes, rows[r])
    decreases r
  {
    RenderedWellFormed(nodes, rows, s);
    if r > 0 {
      var up := s.tree.parent[r];
      ParentRendered(nodes, rows, s, r);
      RenderedPaths(nodes, rows, s, up);
      MappedSnoc(rows, PathTo(s.tree, up), r);
    } else {
      RootFirst(nodes, rows);
    }
  }

  method Remap(rows: seq<nat>) returns (remap: map<nat, nat>)
    ensures forall x | x in rows :: x in remap && remap[x] < |rows| && rows[remap[x]] == x
  {
    remap := map[];
    for row := 0 to |rows|
      invariant forall x :: x in remap <==> x in rows[..row]
      invariant forall x | x in remap :: remap[x] < row && rows[remap[x]] == x
    {
      remap := remap[rows[row] := row];
    }
  }

  ghost predicate PointsAt(nodes: seq<Node>, rows: seq<nat>, x: nat, up: int) {
    && x < |nodes|
    && (nodes[x].parent.None? ==> up == -1)
    && (nodes[x].parent.Some? ==> 0 <= up < |rows| && rows[up] == nodes[x].parent.value)
  }

  method ParentRows(nodes: seq<Node>, rows: seq<nat>) returns (parent: seq<int>)
    requires forall x | x in rows :: x < |nodes| && (nodes[x].parent.Some? ==> nodes[x].parent.value in rows)
    ensures |parent| == |rows|
    ensures forall k | 0 <= k < |rows| :: PointsAt(nodes, rows, rows[k], parent[k])
  {
    var remap := Remap(rows);
    parent := [];
    for r := 0 to |rows|
      invariant |parent| == r
      invariant forall k | 0 <= k < r :: PointsAt(nodes, rows, rows[k], parent[k])
    {
      assert rows[r] in rows;
      var up := nodes[rows[r]].parent;
      parent := parent + [if up.None? then -1 else remap[up.value]];
    }
  }

  method Layout(nodes: seq<Node>, rows: seq<nat>) returns (s: ScoredTree)
    requires Lattice(nodes) && LaidOut(nodes, rows)
    ensures Renders(nodes, rows, s)
  {
    forall x | x in rows
      ensures nodes[x].parent.Some? ==> nodes[x].parent.value in rows
    {
      assert x > 0 ==> Hangs(nodes, x);
    }
    var parent := ParentRows(nodes, rows);
    var picked := seq(|rows|, r requires 0 <= r < |rows| => nodes[rows[r]]);
    var tokens := seq(|rows|, r requires 0 <= r < |rows| => picked[r].token);
    var depth := seq(|rows|, r requires 0 <= r < |rows| => picked[r].depth);
    var scores := seq(|rows|, r requires 0 <= r < |rows| => picked[r].score);
    s := ScoredTree(Tree(tokens, parent, depth), scores, rows);
  }

  /** `rerank_connected`: on any lattice the only failure is a zero budget; both internal checks (the
      root survived, every parent was selected) always pass. The result is a well-formed verifier
      tree over exactly the strongest nodes. */
  method RerankConnected(nodes: seq<Node>, maxNodes: nat, maxDepth: nat) returns (r: Result<ScoredTree>)
    requires Lattice(nodes)
    ensures r.Ok? <==> maxNodes > 0
    ensures r.Ok? ==>
              && Strongest(nodes, maxDepth, maxNodes, r.value.source)
              && LaidOut(nodes, r.value.source) && Renders(nodes, r.value.source, r.value)
              && WellFormed(r.value.tree) && |r.value.tree.tokens| <= maxNodes
  {
    if maxNodes == 0 {
      return Err;
    }
    var chosen := SelectStrongest(nodes, maxNodes, maxDepth);
    StrongestIsConnected(nodes, maxDepth, maxNodes, chosen);
    var rows := SortBy(LevelOrder(nodes), chosen);
    assert StrictTotalOn(LevelOrder(nodes), chosen);
    SortBySorted(LevelOrder(nodes), chosen);
    var s := Layout(nodes, rows);
    RenderedWellFormed(nodes, rows, s);
    r := Ok(s);
  }
}
