/** Draft token trees and target-authoritative greedy acceptance (src/inference/spec_tree.rs). */
module TokenTree {

  type Token = nat

  const TREE_MAX_NODES := 16

  /** Node 0 is the anchor; a parent always precedes its children. */
  datatype Tree = Tree(tokens: seq<Token>, parent: seq<int>, depth: seq<nat>)

  predicate WellFormed(t: Tree) {
    && 0 < |t.tokens| == |t.parent| == |t.depth|
    && t.parent[0] == -1 && t.depth[0] == 0
    && forall i | 0 < i < |t.parent| :: 0 <= t.parent[i] < i && t.depth[i] == t.depth[t.parent[i]] + 1
  }

  /** The nodes from the root to `leaf` inclusive, root first. */
  ghost function PathTo(t: Tree, leaf: nat): (p: seq<nat>)
    requires WellFormed(t) && leaf < |t.tokens|
    ensures |p| == t.depth[leaf] + 1 && p[0] == 0 && p[|p| - 1] == leaf
    ensures forall k | 0 <= k < |p| :: k <= p[k] <= leaf
    decreases leaf
  {
    if leaf == 0 then [0] else PathTo(t, t.parent[leaf]) + [leaf]
  }

  /** A sequence of rows that starts at the root and follows parent edges. */
  predicate Chain(t: Tree, p: seq<nat>)
    requires WellFormed(t)
  {
    && 0 < |p| && p[0] == 0
    && (forall k | 0 <= k < |p| :: p[k] < |t.tokens|)
    && (forall k | 0 < k < |p| :: t.parent[p[k]] == p[k - 1])
  }

  lemma {:induction false} PathIsChain(t: Tree, leaf: nat)
    requires WellFormed(t) && leaf < |t.tokens|
    ensures Chain(t, PathTo(t, leaf))
    ensures forall i, j | 0 <= i < j < |PathTo(t, leaf)| :: PathTo(t, leaf)[i] < PathTo(t, leaf)[j]
    decreases leaf
  {
    if leaf != 0 {
      PathIsChain(t, t.parent[leaf]);
    }
  }

  /** Root paths are unique: any parent-linked chain from the root is the path of its last row. */
  lemma {:induction false} ChainIsPath(t: Tree, p: seq<nat>)
    requires WellFormed(t) && Chain(t, p)
    ensures p == PathTo(t, p[|p| - 1])
    decreases |p|
  {
    var last := p[|p| - 1];
    if |p| > 1 {
      assert t.parent[last] == p[|p| - 2];
      ChainIsPath(t, p[..|p| - 1]);
      assert p == p[..|p| - 1] + [last];
    }
  }

  ghost function Remaining(t: Tree, cur: int): seq<nat>
    requires WellFormed(t) && -1 <= cur < |t.tokens|
  {
    if cur < 0 then [] else PathTo(t, cur)
  }

  /** The walk-up-then-reverse loop of `path_to` (the list is kept in its reversed order here). */
  method RootPath(t: Tree, leaf: nat) returns (path: seq<nat>)
    requires WellFormed(t) && leaf < |t.tokens|
    ensures path == PathTo(t, leaf)
  {
    path := [];
    var cur: int := leaf;
    while cur >= 0
      invariant -1 <= cur < |t.tokens|
      invariant PathTo(t, leaf) == Remaining(t, cur) + path
      decreases cur
    {
      assert Remaining(t, cur) + path == Remaining(t, t.parent[cur]) + ([cur] + path);
      path := [cur] + path;
      cur := t.parent[cur];
    }
  }

  // ---- Acceptance ---------------------------------------------------------------------------

  /** Row `ch` is the child the target chose at `c`: the first child carrying its prediction. */
  ghost predicate Chosen(t: Tree, predicted: seq<Token>, c: nat, ch: nat)
    requires WellFormed(t) && |predicted| == |t.tokens| && c < |t.tokens|
  {
    && c < ch < |t.tokens| && t.parent[ch] == c && t.tokens[ch] == predicted[c]
    && forall e | c < e < ch :: t.parent[e] == c ==> t.tokens[e] != predicted[c]
  }

  ghost predicate Follows(t: Tree, predicted: seq<Token>, p: seq<nat>)
    requires WellFormed(t) && |predicted| == |t.tokens| && Chain(t, p)
  {
    forall k | 0 < k < |p| :: Chosen(t, predicted, p[k - 1], p[k])
  }

  ghost predicate Maximal(t: Tree, predicted: seq<Token>, leaf: nat)
    requires WellFormed(t) && |predicted| == |t.tokens| && leaf < |t.tokens|
  {
    forall e | 0 < e < |t.tokens| :: t.parent[e] == leaf ==> t.tokens[e] != predicted[leaf]
  }

  /** What acceptance promises, without mentioning how the walk proceeds: `path` follows the target's
      own choices from the root, cannot be extended, and the emitted tokens are the predictions
      along it (the last one being the bonus no draft row covered). */
  ghost predicate Accepted(t: Tree, predicted: seq<Token>, path: seq<nat>, emitted: seq<Token>)
    requires WellFormed(t) && |predicted| == |t.tokens|
  {
    && Chain(t, path) && Follows(t, predicted, path)
    && Maximal(t, predicted, path[|path| - 1])
    && |emitted| == |path|
    && forall k | 0 <= k < |path| :: emitted[k] == predicted[path[k]]
  }

  /** `find` over the rows after `c`. */
  method FindChild(t: Tree, c: nat, next: Token) returns (found: bool, ch: nat)
    requires WellFormed(t) && c < |t.tokens|
    ensures found ==> c < ch < |t.tokens| && t.parent[ch] == c && t.tokens[ch] == next
    ensures found ==> forall e | c < e < ch :: t.parent[e] == c ==> t.tokens[e] != next
    ensures !found ==> forall e | 0 < e < |t.tokens| :: t.parent[e] == c ==> t.tokens[e] != next
  {
    found, ch := false, c + 1;
    while ch < |t.tokens|
      invariant c < ch <= |t.tokens|
      invariant forall e | c < e < ch :: t.parent[e] == c ==> t.tokens[e] != next
    {
      if t.parent[ch] == c && t.tokens[ch] == next {
        return true, ch;
      }
      ch := ch + 1;
    }
    assert forall e | 0 < e <= c :: t.parent[e] != c;
  }

  method AcceptLongestPath(t: Tree, predicted: seq<Token>)
    returns (emitted: seq<Token>, leaf: nat)
    requires WellFormed(t) && |predicted| == |t.tokens|
    ensures leaf < |t.tokens| && Accepted(t, predicted, PathTo(t, leaf), emitted)
  {
    emitted, leaf := [], 0;
    while true
      invariant leaf < |t.tokens| && Walked(t, predicted, PathTo(t, leaf), emitted)
      decreases |t.tokens| - leaf
    {
      var next := predicted[leaf];
      var found, ch := FindChild(t, leaf, next);
      emitted := emitted + [next];
      if !found {
        return;
      }
      PathIsChain(t, ch);
      WalkOn(t, predicted, PathTo(t, leaf), emitted[..|emitted| - 1], leaf, ch);
      leaf := ch;
    }
  }

  /** Partway down: the predictions of all rows but the last have been emitted. */
  ghost predicate Walked(t: Tree, predicted: seq<Token>, p: seq<nat>, emitted: seq<Token>)
    requires WellFormed(t) && |predicted| == |t.tokens|
  {
    && Chain(t, p) && Follows(t, predicted, p) && |emitted| + 1 == |p|
    && forall k | 0 <= k < |emitted| :: emitted[k] == predicted[p[k]]
  }

  lemma WalkOn(t: Tree, predicted: seq<Token>, p: seq<nat>, emitted: seq<Token>, leaf: nat, ch: nat)
    requires WellFormed(t) && |predicted| == |t.tokens| && Walked(t, predicted, p, emitted)
    requires p[|p| - 1] == leaf && Chosen(t, predicted, leaf, ch) && Chain(t, p + [ch])
    ensures Walked(t, predicted, p + [ch], emitted + [predicted[leaf]])
  {
  }

  /** Two walks over one tree that both follow the target and agree so far agree on the next row. */
  lemma {:induction false} FollowsAgree(t: Tree, predicted: seq<Token>, p: seq<nat>, q: seq<nat>, k: nat)
    requires WellFormed(t) && |predicted| == |t.tokens| && Chain(t, p) && Chain(t, q)
    requires Follows(t, predicted, p) && Follows(t, predicted, q)
    requires k < |p| && k < |q|
    ensures p[..k + 1] == q[..k + 1]
  {
    if k > 0 {
      FollowsAgree(t, predicted, p, q, k - 1);
      assert p[k - 1] == p[..k][k - 1] == q[..k][k - 1] == q[k - 1];
      assert Chosen(t, predicted, p[k - 1], p[k]) && Chosen(t, predicted, q[k - 1], q[k]);
      assert p[..k + 1] == p[..k] + [p[k]] && q[..k + 1] == q[..k] + [q[k]];
    }
  }

  /** Acceptance is a function of the tree and the target alone: the draft has no say in it. */
  lemma AcceptedUnique(t: Tree, predicted: seq<Token>, p: seq<nat>, e: seq<Token>, q: seq<nat>, f: seq<Token>)
    requires WellFormed(t) && |predicted| == |t.tokens|
    requires Accepted(t, predicted, p, e) && Accepted(t, predicted, q, f)
    ensures p == q && e == f
  {
    if |p| <= |q| {
      AcceptedPrefix(t, predicted, p, q);
    } else {
      AcceptedPrefix(t, predicted, q, p);
    }
  }

  lemma AcceptedPrefix(t: Tree, predicted: seq<Token>, p: seq<nat>, q: seq<nat>)
    requires WellFormed(t) && |predicted| == |t.tokens| && Chain(t, p) && Chain(t, q)
    requires Follows(t, predicted, p) && Follows(t, predicted, q)
    requires Maximal(t, predicted, p[|p| - 1]) && |p| <= |q|
    ensures p == q
  {
    var k := |p| - 1;
    FollowsAgree(t, predicted, p, q, k);
    assert p == p[..k + 1] && p[k] == q[..k + 1][k] == q[k];
    var next := if |p| < |q| then q[|p|] else 0;
    assert !Chosen(t, predicted, p[k], next);
  }

  // ---- The linear oracle --------------------------------------------------------------------

  function Linear(anchor: Token, drafts: seq<Token>): (t: Tree)
    ensures |t.tokens| == |drafts| + 1 && t.tokens[0] == anchor
  {
    var n := |drafts| + 1;
    Tree([anchor] + drafts, seq(n, i => i - 1), seq(n, i => i))
  }

  /** The historic linear rule: the longest draft prefix the target agrees with. */
  function MatchLength(drafts: seq<Token>, predicted: seq<Token>): (m: nat)
    requires |predicted| == |drafts| + 1
    ensures m <= |drafts| && drafts[..m] == predicted[..m]
    ensures m < |drafts| ==> drafts[m] != predicted[m]
  {
    if drafts == [] || drafts[0] != predicted[0] then 0
    else
      var m := 1 + MatchLength(drafts[1..], predicted[1..]);
      assert drafts[..m] == [drafts[0]] + drafts[1..][..m - 1];
      assert predicted[..m] == [predicted[0]] + predicted[1..][..m - 1];
      m
  }

  lemma LinearAccepts(anchor: Token, drafts: seq<Token>, predicted: seq<Token>, m: nat, p: seq<nat>)
    requires |predicted| == |drafts| + 1 && m == MatchLength(drafts, predicted) && p == seq(m + 1, i => i)
    ensures WellFormed(Linear(anchor, drafts)) && Accepted(Linear(anchor, drafts), predicted, p, predicted[..m + 1])
  {
    var t := Linear(anchor, drafts);
    forall k | 0 < k < |p|
      ensures Chosen(t, predicted, p[k - 1], p[k])
    {
      assert t.tokens[k] == drafts[..m][k - 1] == predicted[..m][k - 1];
    }
    assert Chain(t, p) && Maximal(t, predicted, m);
  }

  /** On a single-branch tree the tree rule is exactly the linear rule: same accepted rows, same
      emitted tokens, for every draft and every prediction. */
  lemma TreeAcceptEqualsLinear(anchor: Token, drafts: seq<Token>, predicted: seq<Token>,
                               path: seq<nat>, emitted: seq<Token>)
    requires |predicted| == |drafts| + 1
    ensures WellFormed(Linear(anchor, drafts))
    ensures Accepted(Linear(anchor, drafts), predicted, path, emitted)
            <==> (var m := MatchLength(drafts, predicted);
                  path == seq(m + 1, i => i) && emitted == predicted[..m + 1])
  {
    var m := MatchLength(drafts, predicted);
    var p: seq<nat> := seq(m + 1, i => i);
    LinearAccepts(anchor, drafts, predicted, m, p);
    if Accepted(Linear(anchor, drafts), predicted, path, emitted) {
      AcceptedUnique(Linear(anchor, drafts), predicted, path, emitted, p, predicted[..m + 1]);
    }
  }
}
