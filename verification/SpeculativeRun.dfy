/** Speculative decoding over the target's own KV cache: verified trees as whole lossless runs, and the stop-aware
    acceptance decisions of multi-token prediction (src/inference/metal_resident.rs, src/gemma4_runtime.rs,
    src/gemma4_mtp12_tree_policy.rs). */
module SpeculativeRun {
  import opened Prelude
  import opened TokenTree
  import opened TargetCache

  // ---- One round, against plain greedy decoding ----------------------------------------------

  predicate EdgesAgree(t: Tree, predicted: seq<Token>, p: seq<nat>)
    requires WellFormed(t) && |predicted| == |t.tokens| && Chain(t, p)
  {
    forall k | 0 < k < |p| :: t.tokens[p[k]] == predicted[p[k - 1]]
  }

  lemma TruthAtEnd(next: seq<Token> -> Token, committed: seq<Token>, t: Tree, predicted: seq<Token>, p: seq<nat>)
    requires WellFormed(t) && Truthful(next, committed, t, predicted) && Chain(t, p)
    ensures predicted[p[|p| - 1]] == next(committed + PathTokens(t, p))
  {
    ChainIsPath(t, p);
    assert TruthfulRow(next, committed, t, predicted, p[|p| - 1]);
    assert NodeContext(committed, t, p[|p| - 1]) == committed + PathTokens(t, p);
  }

  /** A path whose every edge the target agreed with spells the target's own greedy tokens. */
  lemma AgreedPathIsGreedy(next: seq<Token> -> Token, committed: seq<Token>, t: Tree,
                           predicted: seq<Token>, p: seq<nat>)
    requires WellFormed(t) && Truthful(next, committed, t, predicted) && Chain(t, p)
    requires EdgesAgree(t, predicted, p)
    ensures IsGreedy(next, committed + [t.tokens[0]], PathTokens(t, p)[1..])
  {
    var ctx, out := committed + [t.tokens[0]], PathTokens(t, p)[1..];
    forall k | 0 <= k < |out|
      ensures GreedyAt(next, ctx, out, k)
    {
      var q := p[..k + 1];
      assert Chain(t, q);
      TruthAtEnd(next, committed, t, predicted, q);
      assert committed + PathTokens(t, q) == ctx + out[..k];
      assert out[k] == t.tokens[p[k + 1]];
    }
  }

  /** Acceptance that emits the predictions along its path emits exactly what plain greedy decoding
      of the history through the anchor would. */
  lemma AcceptedIsGreedy(next: seq<Token> -> Token, committed: seq<Token>, t: Tree, predicted: seq<Token>,
                         path: seq<nat>, emitted: seq<Token>)
    requires WellFormed(t) && Truthful(next, committed, t, predicted)
    requires Accepted(t, predicted, path, emitted)
    ensures IsGreedy(next, committed + [t.tokens[0]], emitted)
    ensures PathTokens(t, path) == [t.tokens[0]] + emitted[..|emitted| - 1]
  {
    var ctx := committed + [t.tokens[0]];
    EmittedAlongPath(t, predicted, path, emitted);
    forall k | 0 <= k < |emitted|
      ensures GreedyAt(next, ctx, emitted, k)
    {
      var q := path[..k + 1];
      assert Chain(t, q);
      TruthAtEnd(next, committed, t, predicted, q);
      assert PathTokens(t, q) == PathTokens(t, path)[..k + 1] == [t.tokens[0]] + emitted[..k];
      assert committed + PathTokens(t, q) == ctx + emitted[..k];
    }
  }

  lemma EmittedAlongPath(t: Tree, predicted: seq<Token>, path: seq<nat>, emitted: seq<Token>)
    requires WellFormed(t) && |predicted| == |t.tokens| && Accepted(t, predicted, path, emitted)
    ensures PathTokens(t, path) == [t.tokens[0]] + emitted[..|emitted| - 1]
  {
    var out := [t.tokens[0]] + emitted[..|emitted| - 1];
    forall k: nat | k < |path|
      ensures PathTokens(t, path)[k] == out[k]
    {
      EmittedAt(t, predicted, path, emitted, k);
    }
  }

  lemma EmittedAt(t: Tree, predicted: seq<Token>, path: seq<nat>, emitted: seq<Token>, k: nat)
    requires WellFormed(t) && |predicted| == |t.tokens| && Accepted(t, predicted, path, emitted) && k < |path|
    ensures t.tokens[path[k]] == if k == 0 then t.tokens[0] else emitted[k - 1]
  {
    if k > 0 {
      assert Chosen(t, predicted, path[k - 1], path[k]);
    }
  }

  /** Verify a tree that fits, accept the target's path through it, compact and advance. */
  method VerifyAndCommit(s: Session, m: Target, t: Tree) returns (emitted: seq<Token>)
    requires s.Valid(m) && WellFormed(t) && s.filled + |t.tokens| <= s.slots.Length
    modifies s, s.slots
    ensures s.Valid(m)
    ensures emitted != [] && IsGreedy(NextToken(m), old(s.committed) + [t.tokens[0]], emitted)
    ensures s.committed == old(s.committed) + ([t.tokens[0]] + emitted[..|emitted| - 1])
  {
    var predicted, _ := s.VerifyTree(m, t);
    var leaf;
    emitted, leaf := AcceptLongestPath(t, predicted);
    var path := RootPath(t, leaf);
    AcceptedIsGreedy(NextToken(m), s.committed, t, predicted, path, emitted);
    s.CommitPath(m, t, path);
  }

  /** `verify_tree_metal_inner` without captures. `ready` stands for the session checks: resident paths
      enabled and eligible, the whole stack on this node, the engine holding exactly the committed rows.
      Any decline, and any batch the device refuses, commits nothing. */
  method VerifyTreeRound(s: Session, m: Target, t: Tree, ready: bool, device: bool) returns (r: Option<seq<Token>>)
    requires s.Valid(m) && (t.tokens == [] || WellFormed(t))
    modifies s, s.slots
    ensures s.Valid(m)
    ensures r.Some? <==>
            && ready && 1 <= |t.tokens| <= 16 && old(s.filled) + |t.tokens| <= s.slots.Length && device
    ensures r.None? ==> s.committed == old(s.committed)
    ensures r.Some? ==> r.value != [] && IsGreedy(NextToken(m), old(s.committed) + [t.tokens[0]], r.value)
    ensures r.Some? ==> s.committed == old(s.committed) + ([t.tokens[0]] + r.value[..|r.value| - 1])
  {
    if !ready || t.tokens == [] || |t.tokens| > TREE_MAX_NODES || s.filled + |t.tokens| > s.slots.Length {
      return None;
    }
    if !device {
      return None;
    }
    var emitted := VerifyAndCommit(s, m, t);
    r := Some(emitted);
  }

  /** The history less its last token: what the cache holds while that token is the anchor. */
  ghost function Forwarded(history: seq<Token>): seq<Token>
    requires history != []
  {
    history[..|history| - 1]
  }

  /** A round that always makes progress: a declined tree falls back to a normal one-token step. */
  method DecodeRound(s: Session, m: Target, history: seq<Token>, t: Tree) returns (emitted: seq<Token>)
    requires history != [] && s.Valid(m) && s.committed == Forwarded(history)
    requires DraftsFrom(t, history)
    requires s.filled < s.slots.Length
    modifies s, s.slots
    ensures s.Valid(m) && emitted != [] && s.filled > old(s.filled)
    ensures IsGreedy(NextToken(m), history, emitted)
    ensures s.committed == Forwarded(history + emitted)
  {
    var anchor := history[|history| - 1];
    assert history == Forwarded(history) + [anchor];
    var ready: bool, device: bool := *, *;
    var r := VerifyTreeRound(s, m, t, ready, device);
    if r.Some? {
      emitted := r.value;
    } else {
      emitted := VerifyAndCommit(s, m, Linear(anchor, []));
    }
    assert Forwarded(history + emitted) == Forwarded(history) + ([anchor] + emitted[..|emitted| - 1]);
  }

  /** What the drafter interface asks: a tree rooted at the anchor, the last token of the history. */
  ghost predicate DraftsFrom(t: Tree, history: seq<Token>)
    requires history != []
  {
    WellFormed(t) && t.tokens[0] == history[|history| - 1]
  }

  method ExtendDecode(s: Session, m: Target, prompt: seq<Token>, out: seq<Token>, t: Tree)
    returns (longer: seq<Token>)
    requires prompt != [] && s.Valid(m) && s.committed == Forwarded(prompt + out)
    requires IsGreedy(NextToken(m), prompt, out)
    requires DraftsFrom(t, prompt + out)
    requires s.filled < s.slots.Length
    modifies s, s.slots
    ensures s.Valid(m) && s.filled > old(s.filled)
    ensures IsGreedy(NextToken(m), prompt, longer) && s.committed == Forwarded(prompt + longer)
  {
    var more := DecodeRound(s, m, prompt + out, t);
    GreedyAppend(NextToken(m), prompt, out, more);
    Assoc(prompt, out, more);
    longer := out + more;
  }

  /** A whole decode with any tree drafter whatsoever. The drafter only decides how many tokens land
      per round: the stream is the target's plain greedy stream, and its cache is the cache plain
      decoding would have built. The run is cut short only by a full cache. */
  method DecodeWithTrees(s: Session, m: Target, prompt: seq<Token>, count: nat,
                         draft: seq<Token> -> Tree) returns (out: seq<Token>)
    requires prompt != [] && s.Valid(m) && s.committed == Forwarded(prompt)
    requires forall h | h != [] :: DraftsFrom(draft(h), h)
    modifies s, s.slots
    ensures s.Valid(m)
    ensures IsGreedy(NextToken(m), prompt, out) && |out| <= count
    ensures |out| < count ==> s.filled == s.slots.Length
  {
    var all := DecodeRounds(s, m, prompt, count, draft);
    out := if |all| > count then all[..count] else all;
    if |all| > count {
      GreedyPrefix(NextToken(m), prompt, all, count);
    }
  }

  /** The rounds of a decode, before the last one's surplus is dropped. */
  method DecodeRounds(s: Session, m: Target, prompt: seq<Token>, count: nat,
                      draft: seq<Token> -> Tree) returns (out: seq<Token>)
    requires prompt != [] && s.Valid(m) && s.committed == Forwarded(prompt)
    requires forall h | h != [] :: DraftsFrom(draft(h), h)
    modifies s, s.slots
    ensures s.Valid(m) && s.committed == Forwarded(prompt + out)
    ensures IsGreedy(NextToken(m), prompt, out)
    ensures |out| < count ==> s.filled == s.slots.Length
  {
    out := [];
    assert prompt + out == prompt;
    while |out| < count && s.filled < s.slots.Length
      invariant s.Valid(m) && IsGreedy(NextToken(m), prompt, out)
      invariant s.committed == Forwarded(prompt + out)
      decreases s.slots.Length - s.filled
    {
      out := ExtendDecode(s, m, prompt, out, draft(prompt + out));
    }
  }

  // ---- Acceptance with stop tokens -----------------------------------------------------------

  datatype Decision = Decision(path: seq<nat>, stop: Option<Token>, next: Option<Token>)

  ghost predicate Extends(t: Tree, predicted: seq<Token>, logical: nat, c: nat, e: nat)
    requires WellFormed(t) && |predicted| == |t.tokens| && logical <= |t.tokens| && c < |t.tokens|
  {
    0 < e < logical && t.parent[e] == c && t.tokens[e] == predicted[c]
  }

  /** The acceptance contract over the first `logical` rows of a batch: follow only edges the target
      agreed with, never step past (or onto) a stop, go as far as the rows allow, and report the
      prediction at the end either as the terminal stop or as the next anchor. */
  ghost predicate Decides(t: Tree, predicted: seq<Token>, stops: set<Token>, logical: nat, d: Decision)
    requires WellFormed(t) && |predicted| == |t.tokens| && logical <= |t.tokens|
  {
    && Chain(t, d.path) && EdgesAgree(t, predicted, d.path)
    && (forall k | 0 <= k < |d.path| :: d.path[k] < logical)
    && (forall k | 0 <= k < |d.path| - 1 :: predicted[d.path[k]] !in stops)
    && var last := d.path[|d.path| - 1];
       var bonus := predicted[last];
       if bonus in stops then d.stop == Some(bonus) && d.next == None
       else
         && d.stop == None && d.next == Some(bonus)
         && forall e | 0 < e < logical :: !Extends(t, predicted, logical, last, e)
  }

  ghost predicate SiblingsDistinct(t: Tree)
    requires WellFormed(t)
  {
    forall i, j | 0 < i < j < |t.tokens| :: t.parent[i] == t.parent[j] ==> t.tokens[i] != t.tokens[j]
  }

  lemma {:induction false} DecidedPathsAgree(t: Tree, predicted: seq<Token>, p: seq<nat>, q: seq<nat>, k: nat)
    requires WellFormed(t) && |predicted| == |t.tokens| && SiblingsDistinct(t)
    requires Chain(t, p) && Chain(t, q) && EdgesAgree(t, predicted, p) && EdgesAgree(t, predicted, q)
    requires k < |p| && k < |q|
    ensures p[..k + 1] == q[..k + 1]
  {
    if k > 0 {
      DecidedPathsAgree(t, predicted, p, q, k - 1);
      assert p[k - 1] == p[..k][k - 1] == q[..k][k - 1] == q[k - 1];
      assert t.parent[p[k]] == t.parent[q[k]] && t.tokens[p[k]] == t.tokens[q[k]];
      assert p[k] != 0 && q[k] != 0;
      assert p[..k + 1] == p[..k] + [p[k]] && q[..k + 1] == q[..k] + [q[k]];
    }
  }

  /** With distinct siblings the decision is determined, so the tree rule and the linear rule agree
      wherever both apply, for every rejection and every stop. */
  lemma DecisionUnique(t: Tree, predicted: seq<Token>, stops: set<Token>, logical: nat, d: Decision, e: Decision)
    requires WellFormed(t) && |predicted| == |t.tokens| && logical <= |t.tokens| && SiblingsDistinct(t)
    requires Decides(t, predicted, stops, logical, d) && Decides(t, predicted, stops, logical, e)
    ensures d == e
  {
    if |d.path| <= |e.path| {
      DecisionPrefix(t, predicted, stops, logical, d, e);
    } else {
      DecisionPrefix(t, predicted, stops, logical, e, d);
    }
  }

  lemma DecisionPrefix(t: Tree, predicted: seq<Token>, stops: set<Token>, logical: nat, d: Decision, e: Decision)
    requires WellFormed(t) && |predicted| == |t.tokens| && logical <= |t.tokens| && SiblingsDistinct(t)
    requires Decides(t, predicted, stops, logical, d) && Decides(t, predicted, stops, logical, e)
    requires |d.path| <= |e.path|
    ensures d.path == e.path
  {
    var k := |d.path| - 1;
    DecidedPathsAgree(t, predicted, d.path, e.path, k);
    assert d.path == d.path[..k + 1] && d.path[k] == e.path[..k + 1][k] == e.path[k];
    var extra := if |d.path| < |e.path| then e.path[|d.path|] else 0;
    assert predicted[d.path[k]] !in stops ==> !Extends(t, predicted, logical, d.path[k], extra);
  }

  /** `mtp12_tree_policy::validate`: eight rows of a well-formed tree over the vocabulary, in which a
      target token names at most one child of a node. */
  predicate ValidTree(t: Tree, vocab: nat) {
    && |t.tokens| == 8 && WellFormed(t) && (forall i | 0 <= i < 8 :: t.tokens[i] < vocab)
    && forall i, j | 0 < i < j < 8 :: t.parent[i] == t.parent[j] ==> t.tokens[i] != t.tokens[j]
  }

  /** What `accept` asks of its inputs before it walks. */
  predicate Acceptable(t: Tree, predicted: seq<Token>, stops: set<Token>, vocab: nat) {
    && ValidTree(t, vocab) && |predicted| == 8 && t.tokens[0] !in stops
    && forall i | 0 <= i < 8 :: predicted[i] < vocab
  }

  /** `mtp12_tree_policy::accept`: refuses exactly the inputs it does not admit. */
  method AcceptTree(t: Tree, predicted: seq<Token>, stops: set<Token>, vocab: nat) returns (d: Option<Decision>)
    ensures d.Some? <==> Acceptable(t, predicted, stops, vocab)
    ensures d.Some? <==>
            && WellFormed(t) && |t.tokens| == 8 && |predicted| == 8 && t.tokens[0] !in stops
            && (forall i | 0 <= i < 8 :: t.tokens[i] < vocab && predicted[i] < vocab)
            && (forall i, j | 1 <= i < j < 8 && t.parent[i] == t.parent[j] :: t.tokens[i] != t.tokens[j])
    ensures d.Some? ==> Decides(t, predicted, stops, 8, d.value)
  {
    if !Acceptable(t, predicted, stops, vocab) {
      return None;
    }
    var walked := WalkTree(t, predicted, stops);
    d := Some(walked);
  }

  method WalkTree(t: Tree, predicted: seq<Token>, stops: set<Token>) returns (d: Decision)
    requires WellFormed(t) && |predicted| == |t.tokens|
    ensures Decides(t, predicted, stops, |t.tokens|, d)
  {
    var path: seq<nat> := [0];
    while true
      invariant Descended(t, predicted, stops, path)
      decreases |t.tokens| - path[|path| - 1]
    {
      var parent := path[|path| - 1];
      var next := predicted[parent];
      if next in stops {
        return Decision(path, Some(next), None);
      }
      var found, child := FindChild(t, parent, next);
      if !found {
        return Decision(path, None, Some(next));
      }
      DescendOn(t, predicted, stops, path, child);
      path := path + [child];
    }
  }

  /** Agreed edges all the way down, with no stop predicted before the last row. */
  ghost predicate Descended(t: Tree, predicted: seq<Token>, stops: set<Token>, path: seq<nat>)
    requires WellFormed(t) && |predicted| == |t.tokens|
  {
    && Chain(t, path) && EdgesAgree(t, predicted, path)
    && forall k | 0 <= k < |path| - 1 :: predicted[path[k]] !in stops
  }

  lemma DescendOn(t: Tree, predicted: seq<Token>, stops: set<Token>, path: seq<nat>, child: nat)
    requires WellFormed(t) && |predicted| == |t.tokens| && Descended(t, predicted, stops, path)
    requires var last := path[|path| - 1];
             last < child < |t.tokens| && t.parent[child] == last && t.tokens[child] == predicted[last]
             && predicted[last] !in stops
    ensures Descended(t, predicted, stops, path + [child])
  {
  }

  lemma LinearDecides(anchor: Token, drafts: seq<Token>, padding: seq<Token>, predicted: seq<Token>,
                      stops: set<Token>, index: nat, d: Decision)
    requires |predicted| == 1 + |drafts| + |padding| && index <= |drafts|
    requires forall k | 0 <= k < index :: drafts[k] == predicted[k] && drafts[k] !in stops
    requires index < |drafts| ==> drafts[index] != predicted[index] || drafts[index] in stops
    requires d.path == seq(index + 1, i => i)
    requires var bonus := predicted[index];
             if bonus in stops then d.stop == Some(bonus) && d.next == None
             else d.stop == None && d.next == Some(bonus)
    ensures WellFormed(Linear(anchor, drafts + padding))
    ensures Decides(Linear(anchor, drafts + padding), predicted, stops, 1 + |drafts|, d)
  {
    var t := Linear(anchor, drafts + padding);
    LinearPrefixAgrees(anchor, drafts, padding, predicted, t, index, d.path);
    LinearMaximal(anchor, drafts, padding, predicted, stops, t, index, 1 + |drafts|);
  }

  lemma LinearPrefixAgrees(anchor: Token, drafts: seq<Token>, padding: seq<Token>, predicted: seq<Token>, t: Tree,
                           index: nat, path: seq<nat>)
    requires |predicted| == 1 + |drafts| + |padding| && index <= |drafts| && t == Linear(anchor, drafts + padding)
    requires forall k | 0 <= k < index :: drafts[k] == predicted[k]
    requires |path| == index + 1 && forall k | 0 <= k < |path| :: path[k] == k
    ensures WellFormed(t) && Chain(t, path) && EdgesAgree(t, predicted, path)
  {
    assert forall k | 0 < k <= |drafts| :: t.tokens[k] == drafts[k - 1];
  }

  lemma LinearMaximal(anchor: Token, drafts: seq<Token>, padding: seq<Token>, predicted: seq<Token>, stops: set<Token>,
                      t: Tree, index: nat, logical: nat)
    requires |predicted| == 1 + |drafts| + |padding| && index <= |drafts| && t == Linear(anchor, drafts + padding)
    requires logical == 1 + |drafts| && WellFormed(t)
    requires index < |drafts| ==> drafts[index] != predicted[index] || drafts[index] in stops
    ensures predicted[index] !in stops ==>
              forall e | 0 < e < logical :: !Extends(t, predicted, logical, index, e)
  {
    assert index < |drafts| ==> t.tokens[index + 1] == drafts[index];
    assert forall e | 0 < e < logical :: t.parent[e] == e - 1;
  }

  /** On a tree proposal that is a plain chain the tree rule and the linear rule reach one decision, so it
      does not matter that the runtime takes the committed path from one and the stop from the other. */
  lemma ChainTreeSameDecision(drafts: seq<Token>, anchor: Token, predicted: seq<Token>, stops: set<Token>,
                              d: Decision, e: Decision)
    requires |predicted| == 1 + |drafts| && WellFormed(Linear(anchor, drafts))
    requires Decides(Linear(anchor, drafts), predicted, stops, 1 + |drafts|, d)
    requires Decides(Linear(anchor, drafts), predicted, stops, 1 + |drafts|, e)
    ensures d == e
  {
    DecisionUnique(Linear(anchor, drafts), predicted, stops, 1 + |drafts|, d, e);
  }

  /** `gemma4_mtp12_acceptance_decision` over `[anchor] + drafts` followed by padding rows: the rows
      it commits are the leading ones, and padding is never eligible. */
  method AcceptLinear(anchor: Token, drafts: seq<Token>, padding: seq<Token>, predicted: seq<Token>,
                      stops: set<Token>) returns (d: Decision)
    requires |predicted| == 1 + |drafts| + |padding|
    ensures WellFormed(Linear(anchor, drafts + padding))
    ensures Decides(Linear(anchor, drafts + padding), predicted, stops, 1 + |drafts|, d)
  {
    var index := 0;
    while index < |drafts| && drafts[index] == predicted[index] && drafts[index] !in stops
      invariant index <= |drafts|
      invariant forall k | 0 <= k < index :: drafts[k] == predicted[k] && drafts[k] !in stops
    {
      index := index + 1;
    }
    var bonus := predicted[index];
    var path: seq<nat> := seq(index + 1, i => i);
    d := if bonus in stops then Decision(path, Some(bonus), None) else Decision(path, None, Some(bonus));
    LinearDecides(anchor, drafts, padding, predicted, stops, index, d);
  }
}
