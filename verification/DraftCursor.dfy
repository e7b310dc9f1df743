/** The learned draft head's private one-layer cache and the branch cursor that explores a frontier by
    rolling back to the longest common prefix (src/eagle3_runtime.rs, src/metal.rs). */
module DraftCursor {
  import opened Prelude
  import opened TokenTree
  import opened DraftLattice
  import opened Frontier

  type Cell = seq<real>

  /** The head's mathematics: a cell's K/V row from its inputs and position, the output of the newest
      cell from every row it may read, and the target's token embedding. */
  datatype HeadModel = HeadModel(cell: (Vec, Vec, nat) -> Cell, output: (seq<Cell>, Vec, Vec) -> Output,
                                 embed: Token -> Vec)

  class Head {
    const slots: array<Cell>
    var filled: nat

    ghost predicate Valid()
      reads this
    {
      filled <= slots.Length
    }

    ghost function Cells(): seq<Cell>
      requires Valid()
      reads this, slots
    {
      slots[..filled]
    }

    constructor (maxPositions: nat)
      ensures Valid() && filled == 0 && fresh(slots) && slots.Length == maxPositions
    {
      slots := new Cell[maxPositions](_ => []);
      filled := 0;
    }

    /** A watermark move: stale rows above it stay in place, unread. */
    method RollbackTo(position: nat) returns (ok: bool)
      requires Valid()
      modifies this`filled
      ensures Valid() && ok == (position <= old(filled))
      ensures filled == if ok then position else old(filled)
    {
      ok := position <= filled;
      if ok {
        filled := position;
      }
    }

    /** Append one cell at exactly the watermark; a failed call may scribble on its own slot only. `device` says whether
        the device runs the call. */
    method ForwardToken(h: HeadModel, embedding: Vec, g: Vec, position: nat, device: bool) returns (r: Result<Output>)
      requires Valid()
      modifies this, slots
      ensures Valid()
      ensures r.Err? ==> filled == old(filled) && Cells() == old(Cells())
      ensures r.Ok? <==>
              && |embedding| == HIDDEN_SIZE && |g| == HIDDEN_SIZE
              && position == old(filled) && position < slots.Length && device
      ensures r.Ok? ==>
                && position == old(filled) && filled == position + 1
                && Cells() == old(Cells()) + [h.cell(embedding, g, position)]
                && r.value == h.output(Cells(), embedding, g)
    {
      if |embedding| != HIDDEN_SIZE || |g| != HIDDEN_SIZE || position != filled || position >= slots.Length {
        return Err;
      }
      slots[position] := h.cell(embedding, g, position);
      if !device {
        return Err;   // after the scatter: the watermark did not move
      }
      filled := position + 1;
      assert slots[..filled] == old(slots[..filled]) + [h.cell(embedding, g, position)];
      r := Ok(h.output(slots[..filled], embedding, g));
    }

    /** `append_kv_only`: the same cell without running the rest of the head. */
    method AppendKvOnly(h: HeadModel, embedding: Vec, g: Vec, device: bool) returns (ok: bool)
      requires Valid()
      modifies this, slots
      ensures Valid()
      ensures !ok ==> filled == old(filled) && Cells() == old(Cells())
      ensures ok <==> |embedding| == HIDDEN_SIZE && |g| == HIDDEN_SIZE && old(filled) < slots.Length && device
      ensures ok ==> Cells() == old(Cells()) + [h.cell(embedding, g, old(filled))]
    {
      if |embedding| != HIDDEN_SIZE || |g| != HIDDEN_SIZE || filled >= slots.Length {
        return false;
      }
      slots[filled] := h.cell(embedding, g, filled);
      if !device {
        return false;
      }
      filled := filled + 1;
      assert slots[..filled] == old(slots[..filled]) + [h.cell(embedding, g, filled - 1)];
      ok := true;
    }
  }

  // ---- Replaying a branch from the stable prefix ------------------------------------------------

  ghost predicate Replayable(nodes: seq<Node>, g: seq<Option<Vec>>, path: seq<nat>) {
    && |g| == |nodes| && path != []
    && (forall k | 0 <= k < |path| :: path[k] < |nodes|)
    && (forall k | 0 < k < |path| :: g[path[k]].Some?)
  }

  ghost function CellAt(h: HeadModel, nodes: seq<Node>, g: seq<Option<Vec>>, node: nat, position: nat): Cell
    requires node < |nodes| == |g| && g[node].Some?
  {
    h.cell(h.embed(nodes[node].token), g[node].value, position)
  }

  /** The cells a root path adds above the stable prefix: one per non-root node. */
  ghost function BranchCells(h: HeadModel, nodes: seq<Node>, g: seq<Option<Vec>>, stable: nat,
                             path: seq<nat>): (r: seq<Cell>)
    requires Replayable(nodes, g, path)
    ensures |r| == |path| - 1
  {
    if |path| == 1 then []
    else
      var n := |path| - 1;
      assert Replayable(nodes, g, path[..n]);
      BranchCells(h, nodes, g, stable, path[..n]) + [CellAt(h, nodes, g, path[n], stable + n - 1)]
  }

  /** The head's output at `node` when its whole root path is replayed on top of `prefix`. */
  ghost function Replay(h: HeadModel, prefix: seq<Cell>, nodes: seq<Node>, g: seq<Option<Vec>>, node: nat): Output
    requires Lattice(nodes) && 0 < node < |nodes| && Replayable(nodes, g, SourcePath(nodes, node))
  {
    var path := SourcePath(nodes, node);
    assert path[|path| - 1] == node;
    h.output(prefix + BranchCells(h, nodes, g, |prefix|, path), h.embed(nodes[node].token), g[node].value)
  }

  lemma {:induction false} BranchPrefix(h: HeadModel, nodes: seq<Node>, g: seq<Option<Vec>>, stable: nat,
                                        path: seq<nat>, k: nat)
    requires Replayable(nodes, g, path) && 0 < k <= |path|
    ensures Replayable(nodes, g, path[..k])
    ensures BranchCells(h, nodes, g, stable, path[..k]) == BranchCells(h, nodes, g, stable, path)[..k - 1]
    decreases |path|
  {
    if k < |path| {
      var n := |path| - 1;
      BranchPrefix(h, nodes, g, stable, path[..n], k);
      assert path[..n][..k] == path[..k];
    } else {
      assert path[..k] == path;
    }
  }

  /** Growing the lattice does not change an existing branch. */
  lemma {:induction false} BranchStable(h: HeadModel, nodes: seq<Node>, g: seq<Option<Vec>>,
                                        nodes': seq<Node>, g': seq<Option<Vec>>, stable: nat, path: seq<nat>)
    requires Replayable(nodes, g, path) && nodes <= nodes' && g <= g' && |g'| == |nodes'|
    ensures Replayable(nodes', g', path)
    ensures BranchCells(h, nodes', g', stable, path) == BranchCells(h, nodes, g, stable, path)
    decreases |path|
  {
    if |path| > 1 {
      var n := |path| - 1;
      assert Replayable(nodes, g, path[..n]);
      BranchStable(h, nodes, g, nodes', g', stable, path[..n]);
    }
  }

  // ---- The cursor transition --------------------------------------------------------------------

  /** `eagle3_path_transition`: the number of shared root-first nodes, or an error for rootless or
      differently rooted paths. */
  function SharedNodes(current: seq<nat>, next: seq<nat>): (r: Result<nat>)
    ensures r.Ok? <==> current != [] && next != [] && current[0] == next[0]
    ensures r.Ok? ==>
              && 1 <= r.value <= |current| && r.value <= |next|
              && current[..r.value] == next[..r.value]
              && (r.value < |current| && r.value < |next| ==> current[r.value] != next[r.value])
  {
    if current == [] || next == [] || current[0] != next[0] then Err
    else Ok(CommonPrefix(current, next))
  }

  function CommonPrefix(a: seq<nat>, b: seq<nat>): (n: nat)
    ensures n <= |a| && n <= |b| && a[..n] == b[..n]
    ensures n < |a| && n < |b| ==> a[n] != b[n]
    ensures a != [] && b != [] && a[0] == b[0] ==> n > 0
  {
    if a == [] || b == [] || a[0] != b[0] then 0
    else
      var n := 1 + CommonPrefix(a[1..], b[1..]);
      assert a[..n] == [a[0]] + a[1..][..n - 1] && b[..n] == [b[0]] + b[1..][..n - 1];
      n
  }

  // ---- Drafting a frontier ------------------------------------------------------------------------

  /** The head holds exactly the cursor's branch above the stable prefix. */
  ghost predicate AtCursor(h: HeadModel, cells: seq<Cell>, prefix: seq<Cell>, nodes: seq<Node>,
                           g: seq<Option<Vec>>, path: seq<nat>)
  {
    Replayable(nodes, g, path) && cells == prefix + BranchCells(h, nodes, g, |prefix|, path)
  }

  ghost predicate ReplayedAt(h: HeadModel, prefix: seq<Cell>, nodes: seq<Node>, g: seq<Option<Vec>>,
                             seen: map<nat, Output>, x: nat)
  {
    && Lattice(nodes) && 0 < x < |nodes| && Replayable(nodes, g, SourcePath(nodes, x))
    && x in seen && seen[x] == Replay(h, prefix, nodes, g, x)
  }

  /** Every recorded non-root observation is what a full replay of that node's own branch yields. */
  ghost predicate AllReplayed(h: HeadModel, prefix: seq<Cell>, nodes: seq<Node>, g: seq<Option<Vec>>,
                              seen: map<nat, Output>)
  {
    forall x | x in seen && x != 0 :: ReplayedAt(h, prefix, nodes, g, seen, x)
  }

  lemma {:induction false} PathReplayable(nodes: seq<Node>, g: seq<Option<Vec>>, x: nat)
    requires Lattice(nodes) && HasStates(Built(nodes, g)) && x < |nodes|
    ensures Replayable(nodes, g, SourcePath(nodes, x))
    decreases x
  {
    if x > 0 {
      assert Hangs(nodes, x);
      PathReplayable(nodes, g, nodes[x].parent.value);
    }
  }

  lemma {:induction false} BranchCell(h: HeadModel, nodes: seq<Node>, g: seq<Option<Vec>>, stable: nat, path: seq<nat>,
                                      k: nat)
    requires Replayable(nodes, g, path) && k + 1 < |path|
    ensures BranchCells(h, nodes, g, stable, path)[k]
            == h.cell(h.embed(nodes[path[k + 1]].token), g[path[k + 1]].value, stable + k)
    decreases |path|
  {
    var n := |path| - 1;
    if k + 1 < n {
      assert Replayable(nodes, g, path[..n]);
      BranchCell(h, nodes, g, stable, path[..n], k);
    }
  }

  lemma {:induction false} PathLinks(nodes: seq<Node>, x: nat, k: nat)
    requires Lattice(nodes) && x < |nodes| && k + 1 < |SourcePath(nodes, x)|
    ensures SourcePath(nodes, x)[k + 1] < |nodes|
    ensures nodes[SourcePath(nodes, x)[k + 1]].parent == Some(SourcePath(nodes, x)[k])
    decreases x
  {
    assert Hangs(nodes, x);
    var up := SourcePath(nodes, nodes[x].parent.value);
    if k + 1 < |up| {
      PathLinks(nodes, nodes[x].parent.value, k);
    }
  }

  /** Step `k` of a branch: the next node hangs under this one, and its cell is made of its token and of the state
      that the observation of this one left. */
  ghost predicate BranchStep(h: HeadModel, stable: nat, nodes: seq<Node>, seen: map<nat, Output>, path: seq<nat>,
                             cells: seq<Cell>, k: nat) {
    && k + 1 < |path| && path[k + 1] < |nodes| && path[k] in seen && stable + k < |cells|
    && nodes[path[k + 1]].parent == Some(path[k])
    && cells[stable + k] == h.cell(h.embed(nodes[path[k + 1]].token), seen[path[k]].rawHidden, stable + k)
  }

  /** What the head was shown for an expanded node: above the stable rows one cell for every node of its branch but
      the root, and then the node's token and its parent's state. */
  lemma ObservedFromBranch(h: HeadModel, prefix: seq<Cell>, c: Config, anchor: Token, nodes: seq<Node>,
                           expanded: seq<bool>, g: seq<Option<Vec>>, order: seq<nat>, seen: map<nat, Output>, x: nat)
    returns (path: seq<nat>, cells: seq<Cell>)
    requires Explored(c, anchor, nodes, expanded, g, order, seen) && AllReplayed(h, prefix, nodes, g, seen)
    requires x in seen && x != 0
    ensures x < |nodes| && |path| == nodes[x].depth + 1 > 1 && path[0] == 0 && path[|path| - 1] == x
    ensures |cells| == |prefix| + |path| - 1 && cells[..|prefix|] == prefix
    ensures forall k: nat | k + 1 < |path| :: BranchStep(h, |prefix|, nodes, seen, path, cells, k)
    ensures path[|path| - 2] in seen
    ensures seen[x] == h.output(cells, h.embed(nodes[x].token), seen[path[|path| - 2]].rawHidden)
  {
    assert ReplayedAt(h, prefix, nodes, g, seen, x) && Hangs(nodes, x);
    path := SourcePath(nodes, x);
    cells := prefix + BranchCells(h, nodes, g, |prefix|, path);
    BuildStates(c, anchor, order, seen);
    forall k: nat | k + 1 < |path|
      ensures BranchStep(h, |prefix|, nodes, seen, path, cells, k)
    {
      StepOfBranch(h, prefix, nodes, g, seen, x, k);
    }
    LastStep(h, prefix, nodes, g, seen, x);
  }

  lemma StepOfBranch(h: HeadModel, prefix: seq<Cell>, nodes: seq<Node>, g: seq<Option<Vec>>, seen: map<nat, Output>,
                     x: nat, k: nat)
    requires Lattice(nodes) && x < |nodes| && Replayable(nodes, g, SourcePath(nodes, x))
    requires CarriesState(Built(nodes, g), seen) && k + 1 < |SourcePath(nodes, x)|
    ensures var path := SourcePath(nodes, x);
            BranchStep(h, |prefix|, nodes, seen, path, prefix + BranchCells(h, nodes, g, |prefix|, path), k)
  {
    PathLinks(nodes, x, k);
    BranchCell(h, nodes, g, |prefix|, SourcePath(nodes, x), k);
  }

  lemma LastStep(h: HeadModel, prefix: seq<Cell>, nodes: seq<Node>, g: seq<Option<Vec>>, seen: map<nat, Output>, x: nat)
    requires ReplayedAt(h, prefix, nodes, g, seen, x) && CarriesState(Built(nodes, g), seen)
    ensures var path := SourcePath(nodes, x);
            && |path| > 1 && path[|path| - 2] in seen
            && seen[x] == h.output(prefix + BranchCells(h, nodes, g, |prefix|, path), h.embed(nodes[x].token),
                                   seen[path[|path| - 2]].rawHidden)
  {
    assert Hangs(nodes, x);
    PathLinks(nodes, x, |SourcePath(nodes, x)| - 2);
  }

  /** A scheduled parent is unexpanded and its whole branch can be replayed. */
  lemma ScheduledIsReplayable(f: Frontier, p: nat)
    requires f.Valid() && IsNextParent(f.config, f.nodes, f.expanded, f.headExpansions, Some(p))
    ensures Lattice(f.nodes) && p < |f.nodes| && p !in f.order && AncestorsExpanded(f.nodes, f.order)
    ensures Replayable(f.nodes, f.recurrentG, SourcePath(f.nodes, p))
  {
    var anchor :| Explored(f.config, anchor, f.nodes, f.expanded, f.recurrentG, f.order, f.seen);
    assert TracksAt(f.expanded, f.order, p);
    BuildHasStates(f.config, anchor, f.order, f.seen);
    PathReplayable(f.nodes, f.recurrentG, p);
  }

  /** Drop the rows the two branches do not share. */
  method Retain(head: Head, h: HeadModel, nodes: seq<Node>, g: seq<Option<Vec>>, ghost prefix: seq<Cell>,
                stable: nat, cursor: seq<nat>, path: seq<nat>) returns (shared: nat)
    requires head.Valid() && stable == |prefix|
    requires AtCursor(h, head.Cells(), prefix, nodes, g, cursor)
    requires Replayable(nodes, g, path) && cursor[0] == path[0] && !(path <= cursor)
    modifies head`filled
    ensures head.Valid() && 0 < shared < |path| && SharedNodes(cursor, path) == Ok(shared)
    ensures AtCursor(h, head.Cells(), prefix, nodes, g, path[..shared])
  {
    shared := SharedNodes(cursor, path).value;
    BranchPrefix(h, nodes, g, stable, cursor, shared);
    assert cursor[..shared] == path[..shared];
    var ok := head.RollbackTo(stable + (shared - 1));
    assert head.Cells() == old(head.Cells())[..stable + (shared - 1)];
  }

  /** The cursor is on the first `k` nodes of `path`, and `out` is the head's answer at the last of them. */
  ghost predicate Answered(h: HeadModel, cells: seq<Cell>, prefix: seq<Cell>, nodes: seq<Node>, g: seq<Option<Vec>>,
                           path: seq<nat>, k: nat, out: Output)
  {
    && Replayable(nodes, g, path) && 1 < k <= |path| && AtCursor(h, cells, prefix, nodes, g, path[..k])
    && out == h.output(cells, h.embed(nodes[path[k - 1]].token), g[path[k - 1]].value)
  }

  ghost predicate ReplayedTo(h: HeadModel, cells: seq<Cell>, prefix: seq<Cell>, nodes: seq<Node>,
                             g: seq<Option<Vec>>, path: seq<nat>, k: nat, r: Result<Output>)
  {
    r.Ok? ==> Answered(h, cells, prefix, nodes, g, path, k, r.value)
  }

  /** The inputs of a branch's cells are as wide as the head. */
  ghost predicate PathSized(h: HeadModel, nodes: seq<Node>, g: seq<Option<Vec>>, path: seq<nat>)
    requires Replayable(nodes, g, path)
  {
    forall k | 0 < k < |path| :: |h.embed(nodes[path[k]].token)| == |g[path[k]].value| == HIDDEN_SIZE
  }

  /** Nothing stops the branch from being replayed: sized inputs, room for its cells and a device that runs. */
  ghost predicate Unstoppable(h: HeadModel, nodes: seq<Node>, g: seq<Option<Vec>>, path: seq<nat>, stable: nat,
                              capacity: nat, device: nat -> bool)
    requires Replayable(nodes, g, path)
  {
    PathSized(h, nodes, g, path) && stable + |path| <= capacity + 1 && forall i: nat :: device(i)
  }

  /** Replay one more node of the branch. */
  method ReplayNode(head: Head, h: HeadModel, nodes: seq<Node>, g: seq<Option<Vec>>, ghost prefix: seq<Cell>,
                    path: seq<nat>, i: nat, device: nat -> bool, call: nat) returns (r: Result<Output>)
    requires head.Valid() && Replayable(nodes, g, path) && 0 < i < |path|
    requires AtCursor(h, head.Cells(), prefix, nodes, g, path[..i])
    modifies head, head.slots
    ensures head.Valid() && head.filled >= |prefix| && head.Cells()[..|prefix|] == prefix
    ensures ReplayedTo(h, head.Cells(), prefix, nodes, g, path, i + 1, r)
    ensures Unstoppable(h, nodes, g, path, |prefix|, head.slots.Length, device) ==> r.Ok?
  {
    var node := path[i];
    assert head.filled == |prefix| + (i - 1);
    r := head.ForwardToken(h, h.embed(nodes[node].token), g[node].value, head.filled, device(call));
    BranchPrefix(h, nodes, g, |prefix|, path, i + 1);
    assert path[..i + 1][..i] == path[..i];
  }

  /** Re-seat the head on the next branch: keep the shared rows, replay the rest. Returns the output of
      the branch's last node and the number of head calls spent. */
  method MoveCursor(head: Head, h: HeadModel, nodes: seq<Node>, g: seq<Option<Vec>>, ghost prefix: seq<Cell>,
                    stable: nat, cursor: seq<nat>, path: seq<nat>, device: nat -> bool, base: nat)
    returns (r: Result<Output>, spent: nat)
    requires head.Valid() && stable == |prefix|
    requires AtCursor(h, head.Cells(), prefix, nodes, g, cursor)
    requires Replayable(nodes, g, path) && cursor[0] == path[0] && !(path <= cursor)
    modifies head, head.slots
    ensures head.Valid() && head.filled >= stable && head.Cells()[..stable] == prefix
    ensures Unstoppable(h, nodes, g, path, stable, head.slots.Length, device) ==> r.Ok?
    ensures r.Ok? ==>
              && AtCursor(h, head.Cells(), prefix, nodes, g, path)
              && r.value == h.output(head.Cells(), h.embed(nodes[path[|path| - 1]].token), g[path[|path| - 1]].value)
              && SharedNodes(cursor, path) == Ok(|path| - spent)
  {
    var shared := Retain(head, h, nodes, g, prefix, stable, cursor, path);
    r, spent := ReplaySuffix(head, h, nodes, g, prefix, path, shared, device, base);
    assert path[..|path|] == path;
  }

  method ReplaySuffix(head: Head, h: HeadModel, nodes: seq<Node>, g: seq<Option<Vec>>, ghost prefix: seq<Cell>,
                      path: seq<nat>, shared: nat, device: nat -> bool, base: nat)
    returns (r: Result<Output>, spent: nat)
    requires head.Valid() && Replayable(nodes, g, path) && 0 < shared < |path|
    requires AtCursor(h, head.Cells(), prefix, nodes, g, path[..shared])
    modifies head, head.slots
    ensures head.Valid() && head.filled >= |prefix| && head.Cells()[..|prefix|] == prefix
    ensures ReplayedTo(h, head.Cells(), prefix, nodes, g, path, |path|, r) && (r.Ok? ==> spent == |path| - shared)
    ensures Unstoppable(h, nodes, g, path, |prefix|, head.slots.Length, device) ==> r.Ok?
  {
    r := ReplayNode(head, h, nodes, g, prefix, path, shared, device, base);
    spent := 1;
    while r.Ok? && shared + spent < |path|
      invariant 0 < spent <= |path| - shared && head.Valid() && head.filled >= |prefix|
      invariant head.Cells()[..|prefix|] == prefix
      invariant ReplayedTo(h, head.Cells(), prefix, nodes, g, path, shared + spent, r)
      invariant Unstoppable(h, nodes, g, path, |prefix|, head.slots.Length, device) ==> r.Ok?
      decreases |path| - shared - spent
    {
      r := ReplayNode(head, h, nodes, g, prefix, path, shared + spent, device, base + spent);
      spent := spent + 1;
    }
  }

  lemma ReplayStable(h: HeadModel, prefix: seq<Cell>, nodes: seq<Node>, g: seq<Option<Vec>>,
                     nodes': seq<Node>, g': seq<Option<Vec>>, x: nat)
    requires Lattice(nodes) && Lattice(nodes') && nodes <= nodes' && g <= g' && |g'| == |nodes'|
    requires 0 < x < |nodes| && Replayable(nodes, g, SourcePath(nodes, x))
    ensures Replayable(nodes', g', SourcePath(nodes', x))
    ensures Replay(h, prefix, nodes', g', x) == Replay(h, prefix, nodes, g, x)
  {
    SourcePathStable(nodes, nodes', x);
    BranchStable(h, nodes, g, nodes', g', |prefix|, SourcePath(nodes, x));
    var path := SourcePath(nodes, x);
    assert path[|path| - 1] == x;
  }

  /** Recording a replayed observation on a growing lattice keeps every record a full replay. */
  lemma ReplayedGrows(h: HeadModel, prefix: seq<Cell>, nodes: seq<Node>, g: seq<Option<Vec>>, seen: map<nat, Output>,
                      nodes': seq<Node>, g': seq<Option<Vec>>, p: nat, out: Output)
    requires AllReplayed(h, prefix, nodes, g, seen)
    requires Lattice(nodes) && Lattice(nodes') && nodes <= nodes' && g <= g' && |g'| == |nodes'|
    requires 0 < p < |nodes| && Replayable(nodes, g, SourcePath(nodes, p)) && out == Replay(h, prefix, nodes, g, p)
    ensures AllReplayed(h, prefix, nodes', g', seen[p := out])
  {
    var seen' := seen[p := out];
    forall x | x in seen' && x != 0
      ensures ReplayedAt(h, prefix, nodes', g', seen', x)
    {
      if x != p {
        assert ReplayedAt(h, prefix, nodes, g, seen, x);
      }
      ReplayStable(h, prefix, nodes, g, nodes', g', x);
    }
  }

  /** `source_path_to`: the parent walk, root first; an unknown node is an error. */
  method SourcePathTo(nodes: seq<Node>, node: nat) returns (r: Result<seq<nat>>)
    requires Lattice(nodes)
    ensures r.Ok? <==> node < |nodes|
    ensures r.Ok? ==> r.value == SourcePath(nodes, node)
  {
    if node >= |nodes| {
      return Err;
    }
    var cur: nat, path := node, [node];
    assert SourcePath(nodes, node) == Above(nodes, cur) + path;
    while nodes[cur].parent.Some?
      invariant cur < |nodes| && SourcePath(nodes, node) == Above(nodes, cur) + path
      decreases cur
    {
      assert cur > 0 && Hangs(nodes, cur);
      ghost var up := nodes[cur].parent.value;
      assert Above(nodes, cur) + path == Above(nodes, up) + ([up] + path);
      cur := nodes[cur].parent.value;
      path := [cur] + path;
    }
    OnlyRootIsParentless(nodes, cur);
    r := Ok(path);
  }

  lemma OnlyRootIsParentless(nodes: seq<Node>, i: nat)
    requires Lattice(nodes) && i < |nodes|
    ensures i > 0 ==> nodes[i].parent.Some?
  {
    if i > 0 {
      assert Hangs(nodes, i);
    }
  }

  ghost function Above(nodes: seq<Node>, i: nat): seq<nat>
    requires Lattice(nodes) && i < |nodes|
  {
    SourcePath(nodes, i)[..|SourcePath(nodes, i)| - 1]
  }

  datatype Failure = NotSeeded | BadConfig | Refused | Device

  /** A scheduled parent is never on the resident branch: that branch is expanded throughout. */
  lemma ScheduledIsFresh(nodes: seq<Node>, order: seq<nat>, last: nat, p: nat)
    requires Lattice(nodes) && AncestorsExpanded(nodes, order) && last in order && p < |nodes| && p !in order
    ensures last < |nodes| && !(SourcePath(nodes, p) <= SourcePath(nodes, last))
  {
    PathExpanded(nodes, order, last);
    var path := SourcePath(nodes, p);
    assert p == path[|path| - 1];
  }

  /** The cursor is on the branch expanded last. */
  ghost predicate CursorOf(nodes: seq<Node>, order: seq<nat>, cursor: seq<nat>) {
    order != [] && SitsAt(nodes, cursor, order[|order| - 1])
  }

  ghost predicate SitsAt(nodes: seq<Node>, cursor: seq<nat>, last: nat) {
    Lattice(nodes) && last < |nodes| && cursor == SourcePath(nodes, last)
  }

  /** Between turns: the head sits on an expanded node's branch and all records are full replays. */
  ghost predicate Exploring(h: HeadModel, cells: seq<Cell>, prefix: seq<Cell>, nodes: seq<Node>,
                            g: seq<Option<Vec>>, seen: map<nat, Output>, order: seq<nat>, cursor: seq<nat>)
  {
    && 0 in order && CursorOf(nodes, order, cursor)
    && AtCursor(h, cells, prefix, nodes, g, cursor) && AllReplayed(h, prefix, nodes, g, seen)
  }

  lemma ExploringGrows(h: HeadModel, cells: seq<Cell>, prefix: seq<Cell>, nodes: seq<Node>, g: seq<Option<Vec>>,
                       seen: map<nat, Output>, order: seq<nat>, nodes': seq<Node>, g': seq<Option<Vec>>,
                       p: nat, out: Output, path: seq<nat>)
    requires 0 in order && AllReplayed(h, prefix, nodes, g, seen) && SitsAt(nodes, path, p) && 0 < p
    requires Lattice(nodes') && nodes <= nodes' && g <= g' && |g'| == |nodes'|
    requires AtCursor(h, cells, prefix, nodes, g, path) && out == Replay(h, prefix, nodes, g, p)
    ensures Exploring(h, cells, prefix, nodes', g', seen[p := out], order + [p], path)
  {
    ReplayedGrows(h, prefix, nodes, g, seen, nodes', g', p, out);
    SourcePathStable(nodes, nodes', p);
    BranchStable(h, nodes, g, nodes', g', |prefix|, path);
    assert (order + [p])[|order|] == p && 0 in order + [p];
  }

  /** Head calls a best-first run costs: for each expansion after the root, the rows past the longest common
      prefix with the branch before it. */
  ghost function ReplayCost(nodes: seq<Node>, order: seq<nat>): nat
    requires Lattice(nodes)
  {
    if |order| <= 1 then 0
    else
      var n := |order| - 1;
      ReplayCost(nodes, order[..n]) + SuffixCost(nodes, order[n - 1], order[n])
  }

  ghost function SuffixCost(nodes: seq<Node>, from: nat, to: nat): nat
    requires Lattice(nodes)
  {
    if from < |nodes| && to < |nodes| then
      |SourcePath(nodes, to)| - CommonPrefix(SourcePath(nodes, from), SourcePath(nodes, to))
    else 0
  }

  ghost predicate Known(nodes: seq<Node>, order: seq<nat>) {
    forall i | 0 <= i < |order| :: order[i] < |nodes|
  }

  lemma SuffixCostStable(nodes: seq<Node>, more: seq<Node>, from: nat, to: nat)
    requires Lattice(nodes) && Lattice(more) && nodes <= more && from < |nodes| && to < |nodes|
    ensures SuffixCost(more, from, to) == SuffixCost(nodes, from, to)
  {
    SourcePathStable(nodes, more, from);
    SourcePathStable(nodes, more, to);
  }

  lemma {:induction false} ReplayCostStable(nodes: seq<Node>, more: seq<Node>, order: seq<nat>)
    requires Lattice(nodes) && Lattice(more) && nodes <= more && Known(nodes, order)
    ensures ReplayCost(more, order) == ReplayCost(nodes, order)
  {
    if |order| > 1 {
      var n := |order| - 1;
      ReplayCostStable(nodes, more, order[..n]);
      SuffixCostStable(nodes, more, order[n - 1], order[n]);
    }
  }

  lemma ReplayCostSnoc(nodes: seq<Node>, more: seq<Node>, order: seq<nat>, p: nat, cursor: seq<nat>, spent: nat)
    requires Lattice(nodes) && Lattice(more) && nodes <= more && Known(nodes, order) && order != [] && p < |nodes|
    requires cursor == SourcePath(nodes, order[|order| - 1])
    requires SharedNodes(cursor, SourcePath(nodes, p)) == Ok(|SourcePath(nodes, p)| - spent)
    ensures Known(more, order + [p]) && ReplayCost(more, order + [p]) == ReplayCost(nodes, order) + spent
  {
    var last := order[|order| - 1];
    ReplayCostStable(nodes, more, order);
    SuffixCostStable(nodes, more, last, p);
    OneMoreCost(more, order, last, p);
    assert SuffixCost(nodes, last, p) == spent;
  }

  lemma OneMoreCost(nodes: seq<Node>, order: seq<nat>, last: nat, p: nat)
    requires Lattice(nodes) && order != [] && last == order[|order| - 1]
    ensures ReplayCost(nodes, order + [p]) == ReplayCost(nodes, order) + SuffixCost(nodes, last, p)
  {
    assert (order + [p])[..|order|] == order && (order + [p])[|order| - 1] == last;
  }

  /** Materialize a scheduled node from wherever the cursor is. The head's answer is the one a full
      replay from the stable prefix would give; the internal-consistency checks of the source (root
      rescheduled, parent already resident, watermark off the cursor, parent not reached) cannot fire. */
  method Observe(head: Head, h: HeadModel, nodes: seq<Node>, g: seq<Option<Vec>>, ghost order: seq<nat>,
                 ghost seen: map<nat, Output>, ghost prefix: seq<Cell>, stable: nat, cursor: seq<nat>, parent: nat,
                 device: nat -> bool, base: nat)
    returns (path: seq<nat>, r: Result<Output>, spent: nat)
    requires head.Valid() && stable == |prefix|
    requires Exploring(h, head.Cells(), prefix, nodes, g, seen, order, cursor)
    requires AncestorsExpanded(nodes, order) && parent < |nodes| && parent !in order
    requires Replayable(nodes, g, SourcePath(nodes, parent))
    modifies head, head.slots
    ensures head.Valid() && head.filled >= stable && head.Cells()[..stable] == prefix
    ensures parent != 0 && path == SourcePath(nodes, parent)
    ensures Unstoppable(h, nodes, g, SourcePath(nodes, parent), stable, head.slots.Length, device) ==> r.Ok?
    ensures r.Ok? ==>
              && r.value == Replay(h, prefix, nodes, g, parent)
              && AtCursor(h, head.Cells(), prefix, nodes, g, path)
              && SharedNodes(cursor, path) == Ok(|path| - spent)
  {
    ghost var last := order[|order| - 1];
    assert last in order;
    ScheduledIsFresh(nodes, order, last, parent);
    var found := SourcePathTo(nodes, parent);
    path := found.value;
    assert head.filled == stable + (|cursor| - 1);
    r, spent := MoveCursor(head, h, nodes, g, prefix, stable, cursor, path, device, base);
    assert path[|path| - 1] == parent;
  }

  /** The head-call counter is exactly the cost of the order so far. */
  ghost predicate Counted(nodes: seq<Node>, order: seq<nat>, forwards: nat) {
    Lattice(nodes) && Known(nodes, order) && forwards == ReplayCost(nodes, order)
  }

  /** Record what the head said about the node it now sits on. */
  method RecordObserved(exp: real -> real, f: Frontier, parent: nat, out: Output, ghost spent: nat, ghost h: HeadModel,
                        ghost cells: seq<Cell>, ghost prefix: seq<Cell>, ghost cursor: seq<nat>, ghost path: seq<nat>)
    returns (ok: bool)
    requires f.Valid() && Lattice(f.nodes) && CursorOf(f.nodes, f.order, cursor)
    requires 0 in f.order && Known(f.nodes, f.order) && f.forwards == ReplayCost(f.nodes, f.order) + spent
    requires 0 < parent < |f.nodes| && path == SourcePath(f.nodes, parent) && path != []
    requires AllReplayed(h, prefix, f.nodes, f.recurrentG, f.seen)
    requires AtCursor(h, cells, prefix, f.nodes, f.recurrentG, path)
    requires out == Replay(h, prefix, f.nodes, f.recurrentG, parent)
    requires SharedNodes(cursor, path) == Ok(|path| - spent)
    modifies f
    ensures f.Valid() && old(f.nodes) <= f.nodes
    ensures ok == Recordable(exp, f.config, old(f.nodes), old(f.expanded), |old(f.order)|, parent, out)
    ensures ok ==>
              && Exploring(h, cells, prefix, f.nodes, f.recurrentG, f.seen, f.order, path)
              && f.order == old(f.order) + [parent] && f.seen == old(f.seen)[parent := out]
              && Counted(f.nodes, f.order, f.forwards)
  {
    ghost var nodes, g, seen, order := f.nodes, f.recurrentG, f.seen, f.order;
    ok := f.Record(exp, parent, out);
    if ok {
      TurnTaken(h, cells, prefix, nodes, g, seen, order, f.nodes, f.recurrentG, parent, out, cursor, path, spent);
    }
  }

  method SpendAndRecord(exp: real -> real, f: Frontier, parent: nat, out: Output, spent: nat, ghost h: HeadModel,
                        ghost cells: seq<Cell>, ghost prefix: seq<Cell>, ghost cursor: seq<nat>, ghost path: seq<nat>)
    returns (ok: bool)
    requires f.Valid() && CursorOf(f.nodes, f.order, cursor)
    requires 0 in f.order && Counted(f.nodes, f.order, f.forwards)
    requires 0 < parent < |f.nodes| && path == SourcePath(f.nodes, parent) && path != []
    requires AllReplayed(h, prefix, f.nodes, f.recurrentG, f.seen)
    requires AtCursor(h, cells, prefix, f.nodes, f.recurrentG, path)
    requires out == Replay(h, prefix, f.nodes, f.recurrentG, parent)
    requires SharedNodes(cursor, path) == Ok(|path| - spent)
    modifies f
    ensures f.Valid() && old(f.nodes) <= f.nodes
    ensures ok == Recordable(exp, f.config, old(f.nodes), old(f.expanded), |old(f.order)|, parent, out)
    ensures ok ==>
              && Exploring(h, cells, prefix, f.nodes, f.recurrentG, f.seen, f.order, path)
              && f.order == old(f.order) + [parent] && Counted(f.nodes, f.order, f.forwards)
              && SeesMore(old(f.seen), f.seen)
  {
    ghost var nodes, expanded, order, seen := f.nodes, f.expanded, f.order, f.seen;
    f.Spend(spent);
    ok := RecordObserved(exp, f, parent, out, spent, h, cells, prefix, cursor, path);
    if ok {
      SeesOneMore(exp, f.config, nodes, expanded, |order|, seen, parent, out);
    }
  }

  lemma SeesOneMore(exp: real -> real, c: Config, nodes: seq<Node>, expanded: seq<bool>, heads: nat,
                    seen: map<nat, Output>, parent: nat, out: Output)
    requires parent > 0 && Recordable(exp, c, nodes, expanded, heads, parent, out)
    ensures SeesMore(seen, seen[parent := out])
  {
  }

  /** The root's observation stays, and so does the width of the states. */
  ghost predicate SeesMore(seen: map<nat, Output>, seen': map<nat, Output>) {
    (0 in seen ==> 0 in seen' && seen'[0] == seen[0]) && (SeenSized(seen) ==> SeenSized(seen'))
  }

  lemma TurnTaken(h: HeadModel, cells: seq<Cell>, prefix: seq<Cell>, nodes: seq<Node>, g: seq<Option<Vec>>,
                  seen: map<nat, Output>, order: seq<nat>, nodes': seq<Node>, g': seq<Option<Vec>>, p: nat, out: Output,
                  cursor: seq<nat>, path: seq<nat>, spent: nat)
    requires AllReplayed(h, prefix, nodes, g, seen) && Lattice(nodes) && Known(nodes, order)
    requires CursorOf(nodes, order, cursor) && 0 in order && 0 < p < |nodes| && path == SourcePath(nodes, p)
    requires Lattice(nodes') && nodes <= nodes' && g <= g' && |g'| == |nodes'|
    requires AtCursor(h, cells, prefix, nodes, g, path) && out == Replay(h, prefix, nodes, g, p)
    requires SharedNodes(cursor, path) == Ok(|path| - spent)
    ensures Exploring(h, cells, prefix, nodes', g', seen[p := out], order + [p], path)
    ensures Counted(nodes', order + [p], ReplayCost(nodes, order) + spent)
  {
    ExploringGrows(h, cells, prefix, nodes, g, seen, order, nodes', g', p, out, path);
    ReplayCostSnoc(nodes, nodes', order, p, cursor, spent);
  }

  /** Nothing goes wrong: embeddings are as wide as the head, every observation is sound, the deepest branch fits
      above the stable rows and the device runs. */
  ghost predicate Smooth(h: HeadModel, exp: real -> real, config: Config, stable: nat, capacity: nat,
                         device: nat -> bool) {
    && (forall t :: |h.embed(t)| == HIDDEN_SIZE) && (forall cells, e, g :: SoundOutput(exp, h.output(cells, e, g)))
    && config.maxDepth <= 0xFFFF && stable + config.maxDepth <= capacity + 1 && forall i: nat :: device(i)
  }

  ghost predicate SeenSized(seen: map<nat, Output>) {
    forall p | p in seen :: |seen[p].rawHidden| == HIDDEN_SIZE
  }

  /** What the head says about the parent will be recorded. */
  ghost predicate ReplayRecorded(h: HeadModel, exp: real -> real, c: Config, nodes: seq<Node>, expanded: seq<bool>,
                                 g: seq<Option<Vec>>, heads: nat, prefix: seq<Cell>, parent: nat) {
    && Lattice(nodes) && 0 < parent < |nodes| && Replayable(nodes, g, SourcePath(nodes, parent))
    && Recordable(exp, c, nodes, expanded, heads, parent, Replay(h, prefix, nodes, g, parent))
  }

  ghost predicate Unhindered(h: HeadModel, nodes: seq<Node>, g: seq<Option<Vec>>, p: nat, stable: nat, capacity: nat,
                             device: nat -> bool) {
    && Lattice(nodes) && p < |nodes| && Replayable(nodes, g, SourcePath(nodes, p))
    && Unstoppable(h, nodes, g, SourcePath(nodes, p), stable, capacity, device)
  }

  lemma SmoothNext(f: Frontier, h: HeadModel, exp: real -> real, p: nat, prefix: seq<Cell>, stable: nat, capacity: nat,
                   device: nat -> bool)
    requires f.Valid() && Smooth(h, exp, f.config, stable, capacity, device) && SeenSized(f.seen)
    requires IsNextParent(f.config, f.nodes, f.expanded, f.headExpansions, Some(p)) && 0 in f.seen
    ensures Unhindered(h, f.nodes, f.recurrentG, p, stable, capacity, device)
    ensures ReplayRecorded(h, exp, f.config, f.nodes, f.expanded, f.recurrentG, |f.order|, prefix, p)
  {
    ScheduledIsReplayable(f, p);
    var anchor :| Explored(f.config, anchor, f.nodes, f.expanded, f.recurrentG, f.order, f.seen);
    BuildStates(f.config, anchor, f.order, f.seen);
    SourcePathNodes(f.nodes, p);
    assert Eligible(f.config, f.nodes, f.expanded, p);
    SoundIsRecordable(exp, f.config, f.nodes, f.expanded, |f.order|, p, Replay(h, prefix, f.nodes, f.recurrentG, p));
  }

  /** Only the root of a branch is node zero. */
  lemma {:induction false} SourcePathNodes(nodes: seq<Node>, i: nat)
    requires Lattice(nodes) && i < |nodes|
    ensures forall k | 0 < k < |SourcePath(nodes, i)| :: 0 < SourcePath(nodes, i)[k] <= i
    decreases i
  {
    if i > 0 {
      assert Hangs(nodes, i);
      SourcePathNodes(nodes, nodes[i].parent.value);
    }
  }

  method ExpandNext(head: Head, h: HeadModel, exp: real -> real, f: Frontier, ghost prefix: seq<Cell>,
                    stable: nat, cursor: seq<nat>, parent: nat, device: nat -> bool, ghost smooth: bool)
    returns (path: seq<nat>, why: Option<Failure>)
    requires head.Valid() && f.Valid() && stable == |prefix| && Counted(f.nodes, f.order, f.forwards)
    requires Exploring(h, head.Cells(), prefix, f.nodes, f.recurrentG, f.seen, f.order, cursor)
    requires IsNextParent(f.config, f.nodes, f.expanded, f.headExpansions, Some(parent))
    requires smooth ==> Unhindered(h, f.nodes, f.recurrentG, parent, stable, head.slots.Length, device)
    requires smooth ==> ReplayRecorded(h, exp, f.config, f.nodes, f.expanded, f.recurrentG, |f.order|, prefix, parent)
    modifies head, head.slots, f
    ensures head.Valid() && head.filled >= stable && head.Cells()[..stable] == prefix
    ensures why.Some? ==> why.value == Device || why.value == Refused
    ensures why.None? ==>
              && f.Valid() && old(f.nodes) <= f.nodes && f.order == old(f.order) + [parent]
              && Exploring(h, head.Cells(), prefix, f.nodes, f.recurrentG, f.seen, f.order, path)
              && SeesMore(old(f.seen), f.seen) && Counted(f.nodes, f.order, f.forwards)
    ensures smooth ==> why.None?
  {
    ScheduledIsReplayable(f, parent);
    var nodes, g := f.nodes, f.recurrentG;
    ghost var order, seen := f.order, f.seen;
    var r, spent;
    path, r, spent := Observe(head, h, nodes, g, order, seen, prefix, stable, cursor, parent, device, f.forwards);
    if r.Err? {
      return path, Some(Device);
    }
    var ok := SpendAndRecord(exp, f, parent, r.value, spent, h, head.Cells(), prefix, cursor, path);
    why := if ok then None else Some(Refused);
  }

  /** Nothing is left to schedule, and every observation is a full replay but the root's, which is the seed. */
  ghost predicate Exhausted(h: HeadModel, prefix: seq<Cell>, c: Config, nodes: seq<Node>, expanded: seq<bool>,
                            g: seq<Option<Vec>>, heads: nat, order: seq<nat>, seen: map<nat, Output>, forwards: nat,
                            seed: Output) {
    && 0 in seen && seen[0] == seed && AllReplayed(h, prefix, nodes, g, seen)
    && |nodes| == |expanded| && NextParent(c, nodes, expanded, heads) == None && Counted(nodes, order, forwards)
  }

  /** Explore until a budget is spent or something refuses. */
  method Explore(head: Head, h: HeadModel, exp: real -> real, f: Frontier, ghost prefix: seq<Cell>, stable: nat,
                 device: nat -> bool)
    returns (why: Option<Failure>)
    requires head.Valid() && f.Valid() && stable == |prefix| && 0 in f.seen && Counted(f.nodes, f.order, f.forwards)
    requires Exploring(h, head.Cells(), prefix, f.nodes, f.recurrentG, f.seen, f.order, [0])
    modifies head, head.slots, f
    ensures head.Valid() && head.filled >= stable && head.Cells()[..stable] == prefix
    ensures why.Some? ==> why.value == Device || why.value == Refused
    ensures why.None? ==>
              && f.Valid() && old(f.nodes) <= f.nodes
              && Exhausted(h, prefix, f.config, f.nodes, f.expanded, f.recurrentG, f.headExpansions, f.order, f.seen,
                           f.forwards, old(f.seen[0]))
    ensures Smooth(h, exp, f.config, stable, head.slots.Length, device) && SeenSized(old(f.seen)) ==> why.None?
  {
    var cursor := [0];
    while true
      invariant head.Valid() && f.Valid() && 0 in f.seen && f.seen[0] == old(f.seen[0])
      invariant old(f.nodes) <= f.nodes && Counted(f.nodes, f.order, f.forwards)
      invariant Exploring(h, head.Cells(), prefix, f.nodes, f.recurrentG, f.seen, f.order, cursor)
      invariant Smooth(h, exp, f.config, stable, head.slots.Length, device) && SeenSized(old(f.seen)) ==>
                  SeenSized(f.seen)
      decreases f.config.maxHeadExpansions - |f.order|
    {
      var parent := NextParent(f.config, f.nodes, f.expanded, f.headExpansions);
      if parent.None? {
        return None;
      }
      ghost var smooth := Smooth(h, exp, f.config, stable, head.slots.Length, device) && SeenSized(f.seen);
      if smooth {
        SmoothNext(f, h, exp, parent.value, prefix, stable, head.slots.Length, device);
      }
      cursor, why := ExpandNext(head, h, exp, f, prefix, stable, cursor, parent.value, device, smooth);
      if why.Some? {
        return;
      }
    }
  }

  datatype Drafted = Drafted(frontier: Frontier) | Failed(why: Failure)

  /** The root is observed once, from the stable seed. */
  method SeedFrontier(exp: real -> real, seed: Output, anchor: Token, config: Config)
    returns (f: Frontier, ok: bool)
    requires ValidConfig(config)
    ensures fresh(f) && f.Valid() && f.config == config && f.nodes[0].token == anchor
    ensures ok ==> f.order == [0] && f.seen == map[0 := seed] && Counted(f.nodes, f.order, f.forwards)
    ensures config.maxLatticeNodes == 1 ==> !ok
    ensures config.maxLatticeNodes > 1 && config.maxDepth <= 0xFFFF && SoundOutput(exp, seed) ==> ok
  {
    f := new Frontier(anchor, config);
    RootExpansionRefusedIff(config, anchor);
    SeedRecorded(exp, config, f.nodes, f.expanded, anchor, seed);
    ok := f.RecordExpansion(exp, 0, seed);
  }

  lemma RootIsNext(c: Config, nodes: seq<Node>, expanded: seq<bool>)
    requires ValidConfig(c) && c.maxLatticeNodes > 1 && |nodes| == 1 && expanded == [false] && nodes[0].depth == 0
    ensures IsNextParent(c, nodes, expanded, 0, Some(0))
  {
    assert Eligible(c, nodes, expanded, 0);
  }

  lemma SeedRecorded(exp: real -> real, c: Config, nodes: seq<Node>, expanded: seq<bool>, anchor: Token, seed: Output)
    requires ValidConfig(c) && nodes == [Node(anchor, None, 0, 0.0)] && expanded == [false]
    ensures c.maxLatticeNodes > 1 && c.maxDepth <= 0xFFFF && SoundOutput(exp, seed) ==>
              Recordable(exp, c, nodes, expanded, 0, 0, seed)
  {
    if c.maxLatticeNodes > 1 && c.maxDepth <= 0xFFFF && SoundOutput(exp, seed) {
      RootIsNext(c, nodes, expanded);
      SoundIsRecordable(exp, c, nodes, expanded, 0, 0, seed);
    }
  }

  lemma StartsExploring(h: HeadModel, prefix: seq<Cell>, f: Frontier)
    requires f.Valid() && f.order == [0] && f.seen.Keys == {0}
    ensures Exploring(h, prefix, prefix, f.nodes, f.recurrentG, f.seen, f.order, [0])
  {
    assert SitsAt(f.nodes, [0], 0);
    assert Replayable(f.nodes, f.recurrentG, [0]);
    assert prefix + [] == prefix;
  }

  /** `draft_dynamic_frontier`. On every exit the head is back at the stable watermark with the stable
      rows untouched. On success the frontier is a valid best-first exploration whose root observation
      is the stable seed and whose every other observation is a full replay of its own branch. */
  method DraftDynamicFrontier(head: Head, h: HeadModel, exp: real -> real, seed: Option<Output>,
                              anchor: Token, config: Config, device: nat -> bool) returns (r: Drafted)
    requires head.Valid()
    modifies head, head.slots
    ensures head.Valid() && head.filled == old(head.filled) && head.Cells() == old(head.Cells())
    ensures r == Failed(NotSeeded) <==> seed.None?
    ensures r == Failed(BadConfig) <==>
            && seed.Some?
            && !(1 <= config.maxVerifyNodes <= 16 && config.maxVerifyNodes <= config.maxLatticeNodes
                 && config.maxDepth > 0 && config.candidatesPerParent > 0 && config.maxHeadExpansions > 0)
    ensures seed.Some? && ValidConfig(config) && config.maxLatticeNodes == 1 ==> r == Failed(Refused)
    ensures seed.Some? && SoundOutput(exp, seed.value)
            && Smooth(h, exp, config, head.filled, head.slots.Length, device) ==>
              (r.Drafted? <==> ValidConfig(config) && config.maxLatticeNodes > 1)
    ensures r.Drafted? ==>
              var f := r.frontier;
              && f.Valid() && f.config == config
              && Explored(config, anchor, f.nodes, f.expanded, f.recurrentG, f.order, f.seen)
              && 0 in f.seen && f.seen[0] == seed.value
              && AllReplayed(h, head.Cells(), f.nodes, f.recurrentG, f.seen)
              && NextParent(f.config, f.nodes, f.expanded, f.headExpansions) == None
              && Counted(f.nodes, f.order, f.forwards)
  {
    if seed.None? {
      return Failed(NotSeeded);
    }
    if !ValidConfig(config) {
      return Failed(BadConfig);
    }
    r := DraftSeeded(head, h, exp, seed.value, anchor, config, device);
  }

  method DraftSeeded(head: Head, h: HeadModel, exp: real -> real, seed: Output, anchor: Token, config: Config,
                     device: nat -> bool)
    returns (r: Drafted)
    requires head.Valid() && ValidConfig(config)
    modifies head, head.slots
    ensures head.Valid() && head.filled == old(head.filled) && head.Cells() == old(head.Cells())
    ensures r != Failed(NotSeeded) && r != Failed(BadConfig)
    ensures config.maxLatticeNodes == 1 ==> r == Failed(Refused)
    ensures Smooth(h, exp, config, head.filled, head.slots.Length, device) && SoundOutput(exp, seed) ==>
              config.maxLatticeNodes > 1 ==> r.Drafted?
    ensures r.Drafted? ==>
              var f := r.frontier;
              && f.Valid() && f.config == config
              && Explored(config, anchor, f.nodes, f.expanded, f.recurrentG, f.order, f.seen)
              && 0 in f.seen && f.seen[0] == seed
              && AllReplayed(h, head.Cells(), f.nodes, f.recurrentG, f.seen)
              && NextParent(f.config, f.nodes, f.expanded, f.headExpansions) == None
              && Counted(f.nodes, f.order, f.forwards)
  {
    var f, seeded := SeedFrontier(exp, seed, anchor, config);
    if !seeded {
      return Failed(Refused);
    }
    var stable := head.filled;
    ghost var prefix := head.Cells();
    StartsExploring(h, prefix, f);
    var why := ExploreAndRestore(head, h, exp, f, prefix, stable, device);
    if why.None? {
      ghost var a :| Explored(f.config, a, f.nodes, f.expanded, f.recurrentG, f.order, f.seen);
      AnchorIsRoot(f.config, a, f.nodes, f.expanded, f.recurrentG, f.order, f.seen);
    }
    r := match why case Some(w) => Failed(w) case None => Drafted(f);
  }

  /** Explore, then put the watermark back whatever happened. */
  method ExploreAndRestore(head: Head, h: HeadModel, exp: real -> real, f: Frontier, ghost prefix: seq<Cell>,
                           stable: nat, device: nat -> bool)
    returns (why: Option<Failure>)
    requires head.Valid() && f.Valid() && stable == |prefix| && 0 in f.seen && head.Cells() == prefix
    requires Counted(f.nodes, f.order, f.forwards)
    requires Exploring(h, head.Cells(), prefix, f.nodes, f.recurrentG, f.seen, f.order, [0])
    modifies head, head.slots, f
    ensures head.Valid() && head.filled == stable && head.Cells() == prefix
    ensures why.Some? ==> why.value == Device || why.value == Refused
    ensures why.None? ==>
              && f.Valid() && old(f.nodes) <= f.nodes
              && Exhausted(h, prefix, f.config, f.nodes, f.expanded, f.recurrentG, f.headExpansions, f.order, f.seen,
                           f.forwards, old(f.seen[0]))
    ensures Smooth(h, exp, f.config, stable, head.slots.Length, device) && SeenSized(old(f.seen)) ==> why.None?
  {
    why := Explore(head, h, exp, f, prefix, stable, device);
    Restore(head, prefix, stable);
  }

  method Restore(head: Head, ghost prefix: seq<Cell>, stable: nat)
    requires head.Valid() && head.filled >= stable == |prefix| && head.Cells()[..stable] == prefix
    modifies head`filled
    ensures head.Valid() && head.filled == stable && head.Cells() == prefix
  {
    var restored := head.RollbackTo(stable);
    assert restored;
  }

  // ---- The linear drafter -----------------------------------------------------------------------

  /** The top-1 chain from a seed: each step's token is the previous output's choice, its recurrent
      input the previous output's raw hidden state. */
  ghost function ChainOutput(h: HeadModel, prefix: seq<Cell>, seed: Output, n: nat): (r: (seq<Cell>, Output)) {
    if n == 0 then (prefix, seed)
    else
      var (cells, out) := ChainOutput(h, prefix, seed, n - 1);
      var e := h.embed(out.targetToken);
      var cells' := cells + [h.cell(e, out.rawHidden, |cells|)];
      (cells', h.output(cells', e, out.rawHidden))
  }

  /** Each drafted token is the choice of the chain's output at its place. */
  ghost predicate Chosen(h: HeadModel, prefix: seq<Cell>, seed: Output, drafts: seq<Token>) {
    forall k: nat | k < |drafts| :: ChosenAt(h, prefix, seed, drafts, k)
  }

  ghost predicate ChosenAt(h: HeadModel, prefix: seq<Cell>, seed: Output, drafts: seq<Token>, k: nat) {
    k < |drafts| && drafts[k] == ChainOutput(h, prefix, seed, k).1.targetToken
  }

  lemma ChosenSnoc(h: HeadModel, prefix: seq<Cell>, seed: Output, drafts: seq<Token>, token: Token)
    requires Chosen(h, prefix, seed, drafts) && token == ChainOutput(h, prefix, seed, |drafts|).1.targetToken
    ensures Chosen(h, prefix, seed, drafts + [token])
  {
    forall k: nat | k < |drafts + [token]|
      ensures ChosenAt(h, prefix, seed, drafts + [token], k)
    {
      assert k < |drafts| ==> ChosenAt(h, prefix, seed, drafts, k);
    }
  }

  /** `draft`: a linear chain whose every token is the head's own choice after recursively consuming the
      previous ones; the watermark is restored whether or not it succeeds. */
  /** Nothing goes wrong on a chain of `n` tokens. */
  ghost predicate ChainSmooth(h: HeadModel, seed: Output, n: nat, stable: nat, capacity: nat, device: nat -> bool) {
    && (forall t :: |h.embed(t)| == HIDDEN_SIZE)
    && (forall cells, e, g :: |h.output(cells, e, g).rawHidden| == HIDDEN_SIZE)
    && |seed.rawHidden| == HIDDEN_SIZE && stable + n <= capacity + 1 && forall i: nat :: device(i)
  }

  method DraftChain(head: Head, h: HeadModel, seed: Option<Output>, maxTokens: nat, device: nat -> bool)
    returns (r: Result<seq<Token>>)
    requires head.Valid()
    modifies head, head.slots
    ensures head.Valid() && head.filled == old(head.filled) && head.Cells() == old(head.Cells())
    ensures maxTokens == 0 ==> r == Ok([])
    ensures r.Ok? ==> maxTokens == 0 || seed.Some?
    ensures seed.Some? && ChainSmooth(h, seed.value, maxTokens, head.filled, head.slots.Length, device) ==> r.Ok?
    ensures r.Ok? && maxTokens > 0 ==>
              && seed.Some? && |r.value| == maxTokens
              && Chosen(h, head.Cells(), seed.value, r.value)
  {
    if maxTokens == 0 {
      return Ok([]);
    }
    if seed.None? {
      return Err;
    }
    var stable := head.filled;
    ghost var prefix := head.Cells();
    var drafts, recurrent := [seed.value.targetToken], seed.value.rawHidden;
    var failed := false;
    while |drafts| < maxTokens && !failed
      invariant head.Valid() && head.filled >= stable && head.Cells()[..stable] == prefix
      invariant 1 <= |drafts| <= maxTokens
      invariant !failed ==>
                  var (cells, out) := ChainOutput(h, prefix, seed.value, |drafts| - 1);
                  head.Cells() == cells && out.targetToken == drafts[|drafts| - 1] && out.rawHidden == recurrent
      invariant Chosen(h, prefix, seed.value, drafts)
      invariant ChainSmooth(h, seed.value, maxTokens, stable, head.slots.Length, device) ==>
                  !failed && |recurrent| == HIDDEN_SIZE && head.filled == stable + |drafts| - 1
      decreases maxTokens - |drafts|, if failed then 0 else 1
    {
      var out := head.ForwardToken(h, h.embed(drafts[|drafts| - 1]), recurrent, head.filled, device(|drafts| - 1));
      if out.Err? {
        failed := true;
      } else {
        ChosenSnoc(h, prefix, seed.value, drafts, out.value.targetToken);
        drafts, recurrent := drafts + [out.value.targetToken], out.value.rawHidden;
      }
    }
    var restored := head.RollbackTo(stable);
    assert restored && head.Cells() == prefix;
    r := if failed then Err else Ok(drafts);
  }
}
