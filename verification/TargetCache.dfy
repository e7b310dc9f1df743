/** The target model's KV cache under tree verification: ancestor-masked batches written above the
    committed watermark, in-place compaction of the accepted path, and the resulting greedy decode
    (src/inference/spec_tree.rs, src/inference/metal_resident.rs, src/metal.rs). */
module TargetCache {
  import opened TokenTree
  import opened Prelude

  type Row = seq<real>

  /** The target network. `row` gives the K/V row of a token from the rows it may attend to, its
      position and its id; `head` gives the greedy next token from the visible rows, and `taps` the layer
      inputs captured at the newest of them. */
  datatype Target = Target(
    row: (seq<Row>, nat, Token) -> Row,
    head: seq<Row> -> Token,
    taps: seq<Row> -> seq<seq<real>>)

  // ---- Plain decode: the reference ----------------------------------------------------------

  ghost function Rows(m: Target, tokens: seq<Token>): (r: seq<Row>)
    ensures |r| == |tokens|
  {
    if tokens == [] then []
    else
      var n := |tokens| - 1;
      var prev := Rows(m, tokens[..n]);
      prev + [m.row(prev, n, tokens[n])]
  }

  /** Plain decoding's next token, as a function of the whole context. */
  ghost function NextToken(m: Target): seq<Token> -> Token {
    tokens => m.head(Rows(m, tokens))
  }

  /** `out` is what plain greedy decoding appends to `ctx`: each token is the target's own next token
      after everything before it. */
  ghost predicate IsGreedy(next: seq<Token> -> Token, ctx: seq<Token>, out: seq<Token>) {
    forall k | 0 <= k < |out| :: GreedyAt(next, ctx, out, k)
  }

  ghost predicate GreedyAt(next: seq<Token> -> Token, ctx: seq<Token>, out: seq<Token>, k: nat)
    requires k < |out|
  {
    out[k] == next(ctx + out[..k])
  }

  /** Decoding in two legs is decoding in one. */
  lemma GreedyAppend(next: seq<Token> -> Token, ctx: seq<Token>, a: seq<Token>, b: seq<Token>)
    requires IsGreedy(next, ctx, a) && IsGreedy(next, ctx + a, b)
    ensures IsGreedy(next, ctx, a + b)
  {
    forall k | 0 <= k < |a + b|
      ensures GreedyAt(next, ctx, a + b, k)
    {
      if k < |a| {
        assert GreedyAt(next, ctx, a, k);
        assert (a + b)[..k] == a[..k];
      } else {
        var j := k - |a|;
        assert GreedyAt(next, ctx + a, b, j);
        assert ctx + (a + b)[..k] == (ctx + a) + b[..j];
      }
    }
  }

  lemma GreedyPrefix(next: seq<Token> -> Token, ctx: seq<Token>, out: seq<Token>, k: nat)
    requires IsGreedy(next, ctx, out) && k <= |out|
    ensures IsGreedy(next, ctx, out[..k])
    ensures IsGreedy(next, ctx + out[..k], out[k..])
  {
    forall i | 0 <= i < k
      ensures GreedyAt(next, ctx, out[..k], i)
    {
      assert GreedyAt(next, ctx, out, i);
      assert out[..k][..i] == out[..i];
    }
    forall i | 0 <= i < |out| - k
      ensures GreedyAt(next, ctx + out[..k], out[k..], i)
    {
      assert GreedyAt(next, ctx, out, k + i);
      assert (ctx + out[..k]) + out[k..][..i] == ctx + out[..k + i];
    }
  }

  /** The greedy stream is unique, so any two greedy outputs are prefix-comparable. */
  lemma {:induction false} GreedyComparable(next: seq<Token> -> Token, ctx: seq<Token>, a: seq<Token>, b: seq<Token>)
    requires IsGreedy(next, ctx, a) && IsGreedy(next, ctx, b) && |a| <= |b|
    ensures a == b[..|a|]
    decreases |a|
  {
    if a != [] {
      var n := |a| - 1;
      GreedyPrefix(next, ctx, a, n);
      GreedyComparable(next, ctx, a[..n], b);
      assert GreedyAt(next, ctx, a, n) && GreedyAt(next, ctx, b, n);
      assert a == a[..n] + [a[n]] && b[..|a|] == b[..n] + [b[n]];
    }
  }

  // ---- Ancestor mask ------------------------------------------------------------------------

  /** A node's row of 32-bit words, each word given as the set of its one-bits. */
  type Words = seq<set<nat>>

  predicate IsSet(w: Words, j: nat) {
    j / 32 < |w| && j % 32 in w[j / 32]
  }

  function SetBit(w: Words, c: nat): (r: Words)
    requires c / 32 < |w|
    ensures |r| == |w|
    ensures forall j: nat :: IsSet(r, j) <==> IsSet(w, j) || j == c
  {
    w[c / 32 := w[c / 32] + {c % 32}]
  }

  /** Bit `j` is set exactly when `j` lies on the root path of `i`. */
  ghost predicate Masks(t: Tree, w: Words, i: nat)
    requires WellFormed(t) && i < |t.tokens|
  {
    forall j: nat :: IsSet(w, j) <==> j in PathTo(t, i)
  }

  /** One node's words: the parent walk sets its own bit and every ancestor's. */
  method AncestorWords(t: Tree, i: nat) returns (w: Words)
    requires WellFormed(t) && i < |t.tokens|
    ensures |w| == (|t.tokens| + 31) / 32 && Masks(t, w, i)
  {
    w := seq((|t.tokens| + 31) / 32, _ => {});
    var cur: int := i;
    while cur >= 0
      invariant -1 <= cur <= i && |w| == (|t.tokens| + 31) / 32
      invariant forall j: nat :: j in PathTo(t, i) <==> j in Remaining(t, cur) || IsSet(w, j)
      decreases cur
    {
      assert forall j: nat :: j in Remaining(t, cur) <==> j in Remaining(t, t.parent[cur]) || j == cur;
      w := SetBit(w, cur);
      cur := t.parent[cur];
    }
  }

  /** Node `i`'s words in the flat buffer. */
  function NodeWords(bits: Words, stride: nat, i: nat): (w: Words)
    requires i * stride + stride <= |bits|
  {
    bits[i * stride..i * stride + stride]
  }

  ghost predicate MaskAt(t: Tree, bits: Words, stride: nat, i: nat)
    requires WellFormed(t)
  {
    i < |t.tokens| && i * stride + stride <= |bits| && Masks(t, NodeWords(bits, stride, i), i)
  }

  lemma MasksOn(t: Tree, bits: Words, stride: nat, w: Words, i: nat)
    requires WellFormed(t) && i < |t.tokens| && |bits| == i * stride && |w| == stride && Masks(t, w, i)
    requires forall k: nat | k < i :: MaskAt(t, bits, stride, k)
    ensures forall k: nat | k <= i :: MaskAt(t, bits + w, stride, k)
  {
    var next := bits + w;
    forall k: nat | k <= i
      ensures MaskAt(t, next, stride, k)
    {
      if k < i {
        assert MaskAt(t, bits, stride, k);
        assert NodeWords(next, stride, k) == NodeWords(bits, stride, k);
      } else {
        assert NodeWords(next, stride, k) == w;
      }
    }
  }

  /** `ancestor_bitset`: the flat buffer, `stride` words to a node. */
  method AncestorBitset(t: Tree) returns (bits: Words, stride: nat)
    requires WellFormed(t)
    ensures stride == (|t.tokens| + 31) / 32 && |bits| == |t.tokens| * stride
    ensures forall i: nat | i < |t.tokens| :: MaskAt(t, bits, stride, i)
  {
    bits, stride := [], (|t.tokens| + 31) / 32;
    for i := 0 to |t.tokens|
      invariant |bits| == i * stride && forall k: nat | k < i :: MaskAt(t, bits, stride, k)
    {
      var w := AncestorWords(t, i);
      MasksOn(t, bits, stride, w, i);
      bits := bits + w;
      assert i * stride + stride == (i + 1) * stride;
    }
  }

  /** The tree rows below slot `j` that a mask row admits, in slot order. */
  function Visible(rows: seq<Row>, w: Words, j: nat): (v: seq<Row>)
    requires j <= |rows|
  {
    if j == 0 then [] else Visible(rows, w, j - 1) + if IsSet(w, j - 1) then [rows[j - 1]] else []
  }

  ghost function RowsAt(rows: seq<Row>, p: seq<nat>): (r: seq<Row>)
    requires forall k | 0 <= k < |p| :: p[k] < |rows|
    ensures |r| == |p|
  {
    seq(|p|, k requires 0 <= k < |p| => rows[p[k]])
  }

  ghost predicate Ascends(p: seq<nat>) {
    forall a, b | 0 <= a < b < |p| :: p[a] < p[b]
  }

  /** The first `c` of the ascending slots `p` are the ones below `j`. */
  ghost predicate Cut(p: seq<nat>, j: nat, c: nat) {
    c <= |p| && forall k: nat | k < |p| :: BelowIff(p, j, c, k)
  }

  ghost predicate BelowIff(p: seq<nat>, j: nat, c: nat, k: nat)
    requires k < |p|
  {
    p[k] < j <==> k < c
  }

  lemma CutDown(p: seq<nat>, j: nat, c: nat)
    requires Ascends(p) && Cut(p, j, c) && j > 0
    ensures j - 1 in p ==> c > 0 && p[c - 1] == j - 1 && Cut(p, j - 1, c - 1)
    ensures j - 1 !in p ==> Cut(p, j - 1, c)
  {
    if k: nat :| k < |p| && p[k] == j - 1 {
      assert BelowIff(p, j, c, k);
      assert BelowIff(p, j, c, c - 1);
      var i, d := j - 1, c - 1;
      forall x: nat | x < |p|
        ensures BelowIff(p, i, d, x)
      {
        assert BelowIff(p, j, c, x);
      }
    } else {
      var i := j - 1;
      forall x: nat | x < |p|
        ensures BelowIff(p, i, c, x)
      {
        assert BelowIff(p, j, c, x) && p[x] in p;
      }
    }
  }

  /** Reading the admitted slots in slot order is reading the path root-first. */
  lemma {:induction false} VisibleIsPath(rows: seq<Row>, w: Words, p: seq<nat>, j: nat, c: nat)
    requires j <= |rows| && (forall k | 0 <= k < |p| :: p[k] < |rows|)
    requires Ascends(p) && Cut(p, j, c)
    requires forall x: nat | x < j :: IsSet(w, x) <==> x in p
    ensures Visible(rows, w, j) == RowsAt(rows, p[..c])
    decreases j
  {
    if j > 0 {
      CutDown(p, j, c);
      if IsSet(w, j - 1) {
        VisibleIsPath(rows, w, p, j - 1, c - 1);
        assert p[..c] == p[..c - 1] + [p[c - 1]];
        RowsAtSnoc(rows, p[..c - 1], p[c - 1]);
      } else {
        VisibleIsPath(rows, w, p, j - 1, c);
      }
    } else {
      assert c > 0 ==> BelowIff(p, j, c, c - 1);
    }
  }

  // ---- Tree rows against plain decode --------------------------------------------------------

  function PathTokens(t: Tree, p: seq<nat>): (s: seq<Token>)
    requires forall k | 0 <= k < |p| :: p[k] < |t.tokens|
    ensures |s| == |p|
  {
    seq(|p|, k requires 0 <= k < |p| => t.tokens[p[k]])
  }

  /** The tokens a linear decode would have seen up to and including node `i`. */
  ghost function NodeContext(committed: seq<Token>, t: Tree, i: nat): seq<Token>
    requires WellFormed(t) && i < |t.tokens|
  {
    committed + PathTokens(t, PathTo(t, i))
  }

  /** The K/V row a linear decode of the node's own branch would have produced. */
  ghost function NodeRow(m: Target, committed: seq<Token>, t: Tree, i: nat): Row
    requires WellFormed(t) && i < |t.tokens|
  {
    var ctx := NodeContext(committed, t, i);
    Rows(m, ctx)[|ctx| - 1]
  }

  /** Predictions as the target makes them: row `i` continues its own branch. */
  ghost predicate Truthful(next: seq<Token> -> Token, committed: seq<Token>, t: Tree, predicted: seq<Token>)
    requires WellFormed(t)
  {
    |predicted| == |t.tokens| && forall i: nat | i < |predicted| :: TruthfulRow(next, committed, t, predicted, i)
  }

  ghost predicate TruthfulRow(next: seq<Token> -> Token, committed: seq<Token>, t: Tree, predicted: seq<Token>, i: nat)
    requires WellFormed(t)
  {
    i < |predicted| && i < |t.tokens| && predicted[i] == next(NodeContext(committed, t, i))
  }

  /** The rows a batch leaves in its first tentative slots, one per node. */
  ghost predicate NodeRows(m: Target, committed: seq<Token>, t: Tree, rows: seq<Row>) {
    forall k: nat | k < |rows| :: IsNodeRow(m, committed, t, rows, k)
  }

  ghost predicate IsNodeRow(m: Target, committed: seq<Token>, t: Tree, rows: seq<Row>, k: nat) {
    WellFormed(t) && k < |rows| && k < |t.tokens| && rows[k] == NodeRow(m, committed, t, k)
  }

  lemma NodeRowsSnoc(m: Target, committed: seq<Token>, t: Tree, rows: seq<Row>, row: Row)
    requires WellFormed(t) && |rows| < |t.tokens| && NodeRows(m, committed, t, rows)
    requires row == NodeRow(m, committed, t, |rows|)
    ensures NodeRows(m, committed, t, rows + [row])
  {
    forall k: nat | k < |rows + [row]|
      ensures IsNodeRow(m, committed, t, rows + [row], k)
    {
      assert k < |rows| ==> IsNodeRow(m, committed, t, rows, k);
    }
  }

  /** The tokens before node `i` on its own branch. */
  ghost function Before(committed: seq<Token>, t: Tree, i: nat): seq<Token>
    requires WellFormed(t) && i < |t.tokens|
  {
    if i == 0 then committed else NodeContext(committed, t, t.parent[i])
  }

  lemma ContextStep(committed: seq<Token>, t: Tree, i: nat)
    requires WellFormed(t) && i < |t.tokens|
    ensures NodeContext(committed, t, i) == Before(committed, t, i) + [t.tokens[i]]
    ensures |Before(committed, t, i)| == |committed| + t.depth[i]
  {
    if i == 0 {
      assert PathTokens(t, PathTo(t, i)) == [t.tokens[0]];
    } else {
      assert PathTokens(t, PathTo(t, i)) == PathTokens(t, PathTo(t, t.parent[i])) + [t.tokens[i]];
    }
  }

  lemma RowsSnoc(m: Target, ctx: seq<Token>, token: Token)
    ensures Rows(m, ctx + [token]) == Rows(m, ctx) + [m.row(Rows(m, ctx), |ctx|, token)]
  {
    assert (ctx + [token])[..|ctx|] == ctx;
  }

  /** A node's K/V row and prediction, from the rows of the branch before it. */
  lemma NodeStep(m: Target, committed: seq<Token>, t: Tree, i: nat)
    requires WellFormed(t) && i < |t.tokens|
    ensures var seen := Rows(m, Before(committed, t, i));
            var row := m.row(seen, |committed| + t.depth[i], t.tokens[i]);
            && row == NodeRow(m, committed, t, i)
            && seen + [row] == Rows(m, NodeContext(committed, t, i))
  {
    ContextStep(committed, t, i);
    RowsSnoc(m, Before(committed, t, i), t.tokens[i]);
  }

  lemma RowsAtSnoc(rows: seq<Row>, p: seq<nat>, i: nat)
    requires i < |rows| && forall k | 0 <= k < |p| :: p[k] < |rows|
    ensures RowsAt(rows, p + [i]) == RowsAt(rows, p) + [rows[i]]
  {
  }

  /** The rows of a branch context are the committed rows followed by the branch's own node rows. */
  lemma {:induction false} PathRows(m: Target, committed: seq<Token>, t: Tree, i: nat, rows: seq<Row>)
    requires WellFormed(t) && i < |t.tokens| && i < |rows|
    requires NodeRows(m, committed, t, rows)
    ensures Rows(m, NodeContext(committed, t, i)) == Rows(m, committed) + RowsAt(rows, PathTo(t, i))
    decreases i
  {
    NodeStep(m, committed, t, i);
    assert IsNodeRow(m, committed, t, rows, i);
    if i == 0 {
      assert RowsAt(rows, PathTo(t, i)) == [rows[0]];
    } else {
      var above := PathTo(t, t.parent[i]);
      PathRows(m, committed, t, t.parent[i], rows);
      RowsAtSnoc(rows, above, i);
      assert PathTo(t, i) == above + [i];
      Assoc(Rows(m, committed), RowsAt(rows, above), [rows[i]]);
    }
  }

  /** The slots a batch row may read hold exactly the rows of the branch before it. */
  lemma VisibleBranch(m: Target, committed: seq<Token>, t: Tree, i: nat, rows: seq<Row>, w: Words)
    requires WellFormed(t) && i < |t.tokens| && |rows| == i && NodeRows(m, committed, t, rows)
    requires Masks(t, w, i)
    ensures Rows(m, committed) + Visible(rows, w, i) == Rows(m, Before(committed, t, i))
  {
    if i == 0 {
      assert Visible(rows, w, 0) == [];
    } else {
      var q := PathTo(t, t.parent[i]);
      assert forall x: nat | x < i :: x in PathTo(t, i) <==> x in q;
      PathIsChain(t, t.parent[i]);
      VisibleIsPath(rows, w, q, i, |q|);
      assert q[..|q|] == q;
      PathRows(m, committed, t, t.parent[i], rows);
    }
  }

  /** A row computed from what its mask admits is the row, and its prediction the prediction, of a linear
      decode of its own branch. */
  lemma RowVerified(m: Target, committed: seq<Token>, t: Tree, i: nat, rows: seq<Row>, w: Words, seen: seq<Row>,
                    row: Row)
    requires WellFormed(t) && i < |t.tokens| && |rows| == i && NodeRows(m, committed, t, rows)
    requires Masks(t, w, i)
    requires seen == Rows(m, committed) + Visible(rows, w, i)
    requires row == m.row(seen, |committed| + t.depth[i], t.tokens[i])
    ensures NodeRows(m, committed, t, rows + [row])
    ensures seen + [row] == Rows(m, NodeContext(committed, t, i))
  {
    VisibleBranch(m, committed, t, i, rows, w);
    NodeStep(m, committed, t, i);
    NodeRowsSnoc(m, committed, t, rows, row);
  }

  lemma PathLands(m: Target, committed: seq<Token>, t: Tree, path: seq<nat>, rows: seq<Row>)
    requires WellFormed(t) && Chain(t, path) && |rows| == |t.tokens| && NodeRows(m, committed, t, rows)
    ensures forall k | 0 <= k < |path| :: k <= path[k] < |t.tokens|
    ensures |path| <= |t.tokens|
    ensures Rows(m, committed + PathTokens(t, path)) == Rows(m, committed) + RowsAt(rows, path)
  {
    ChainIsPath(t, path);
    var leaf := path[|path| - 1];
    assert |path| - 1 <= leaf;
    PathRows(m, committed, t, leaf, rows);
  }

  /** A batch row's own slot and prediction, from the committed rows and the tree rows its mask admits. */
  method TreeRow(m: Target, ghost committed: seq<Token>, t: Tree, i: nat, base: seq<Row>, rows: seq<Row>, w: Words)
    returns (row: Row, predicted: Token, taps: seq<seq<real>>)
    requires WellFormed(t) && i < |t.tokens| && base == Rows(m, committed) && |rows| == i
             && NodeRows(m, committed, t, rows)
    requires Masks(t, w, i)
    ensures NodeRows(m, committed, t, rows + [row])
    ensures predicted == NextToken(m)(NodeContext(committed, t, i)) && taps == NodeTaps(m, committed, t, i)
  {
    var seen := base + Visible(rows, w, i);
    row := m.row(seen, |base| + t.depth[i], t.tokens[i]);
    RowVerified(m, committed, t, i, rows, w, seen, row);
    predicted, taps := m.head(seen + [row]), m.taps(seen + [row]);
  }

  /** What a linear decode of the node's own branch captures at that node. */
  ghost function NodeTaps(m: Target, committed: seq<Token>, t: Tree, i: nat): seq<seq<real>>
    requires WellFormed(t) && i < |t.tokens|
  {
    m.taps(Rows(m, NodeContext(committed, t, i)))
  }

  ghost predicate CapturedRow(m: Target, committed: seq<Token>, t: Tree, captured: seq<seq<seq<real>>>, i: nat)
    requires WellFormed(t)
  {
    i < |captured| && i < |t.tokens| && captured[i] == NodeTaps(m, committed, t, i)
  }

  lemma CapturedSnoc(m: Target, committed: seq<Token>, t: Tree, captured: seq<seq<seq<real>>>, taps: seq<seq<real>>)
    requires WellFormed(t) && |captured| < |t.tokens| && taps == NodeTaps(m, committed, t, |captured|)
    requires forall k: nat | k < |captured| :: CapturedRow(m, committed, t, captured, k)
    ensures forall k: nat | k < |captured| + 1 :: CapturedRow(m, committed, t, captured + [taps], k)
  {
    forall k: nat | k < |captured| + 1
      ensures CapturedRow(m, committed, t, captured + [taps], k)
    {
      assert k < |captured| ==> CapturedRow(m, committed, t, captured, k);
    }
  }

  lemma TruthfulSnoc(next: seq<Token> -> Token, committed: seq<Token>, t: Tree, predicted: seq<Token>, p: Token)
    requires WellFormed(t) && |predicted| < |t.tokens| && p == next(NodeContext(committed, t, |predicted|))
    requires forall k: nat | k < |predicted| :: TruthfulRow(next, committed, t, predicted, k)
    ensures forall k: nat | k < |predicted| + 1 :: TruthfulRow(next, committed, t, predicted + [p], k)
  {
    forall k: nat | k < |predicted| + 1
      ensures TruthfulRow(next, committed, t, predicted + [p], k)
    {
      assert k < |predicted| ==> TruthfulRow(next, committed, t, predicted, k);
    }
  }

  // ---- The resident session -----------------------------------------------------------------

  class Session {
    const slots: array<Row>
    /** The watermark: rows at or above it are stale or tentative and never read as context. */
    var filled: nat
    ghost var committed: seq<Token>

    ghost predicate Valid(m: Target)
      reads this, slots
    {
      && filled == |committed| <= slots.Length
      && slots[..filled] == Rows(m, committed)
    }

    constructor (capacity: nat)
      ensures filled == 0 && committed == [] && fresh(slots) && slots.Length == capacity
      ensures forall m :: Valid(m)
    {
      slots := new Row[capacity](_ => []);
      filled, committed := 0, [];
    }

    /** Forget the sequence; physical rows need not be cleared. */
    method Reset()
      modifies this`filled, this`committed
      ensures filled == 0 && committed == [] && forall m :: Valid(m)
    {
      filled, committed := 0, [];
    }

    /** Row `i` of a batch: its slot, its prediction and its captures come from the slots its mask admits. */
    method VerifyRow(m: Target, t: Tree, i: nat, w: Words) returns (predicted: Token, taps: seq<seq<real>>)
      requires Valid(m) && WellFormed(t) && filled + |t.tokens| <= slots.Length && i < |t.tokens|
      requires NodeRows(m, committed, t, slots[filled..filled + i])
      requires Masks(t, w, i)
      modifies slots
      ensures slots[..filled] == old(slots[..filled])
      ensures NodeRows(m, committed, t, slots[filled..filled + i + 1])
      ensures predicted == NextToken(m)(NodeContext(committed, t, i)) && taps == NodeTaps(m, committed, t, i)
    {
      var rows := slots[filled..filled + i];
      var row;
      row, predicted, taps := TreeRow(m, committed, t, i, slots[..filled], rows, w);
      slots[filled + i] := row;
      assert slots[filled..filled + i + 1] == rows + [row];
    }

    /** One batched verification of a whole tree: node `i` lands in slot `filled + i` and attends to
        the committed rows and, through the ancestor bitset, to its own branch only. */
    method VerifyTree(m: Target, t: Tree) returns (predicted: seq<Token>, captured: seq<seq<seq<real>>>)
      requires Valid(m) && WellFormed(t) && filled + |t.tokens| <= slots.Length
      modifies slots
      ensures Valid(m) && NodeRows(m, committed, t, slots[filled..filled + |t.tokens|])
      ensures Truthful(NextToken(m), committed, t, predicted)
      ensures |captured| == |t.tokens| && forall i: nat | i < |captured| :: CapturedRow(m, committed, t, captured, i)
    {
      var bits, stride := AncestorBitset(t);
      predicted, captured := [], [];
      for i := 0 to |t.tokens|
        invariant |predicted| == |captured| == i && slots[..filled] == old(slots[..filled])
        invariant NodeRows(m, committed, t, slots[filled..filled + i])
        invariant forall k: nat | k < i :: TruthfulRow(NextToken(m), committed, t, predicted, k)
        invariant forall k: nat | k < i :: CapturedRow(m, committed, t, captured, k)
      {
        assert MaskAt(t, bits, stride, i);
        var p, taps := VerifyRow(m, t, i, NodeWords(bits, stride, i));
        TruthfulSnoc(NextToken(m), committed, t, predicted, p);
        CapturedSnoc(m, committed, t, captured, taps);
        predicted, captured := predicted + [p], captured + [taps];
      }
    }

    /** In-place gather of the accepted path into the slots above the watermark. Every source lies at
        or after its destination, so no row is overwritten before it is read. */
    method CompactPath(path: seq<nat>, n: nat)
      requires filled + n <= slots.Length && |path| <= n
      requires forall k | 0 <= k < |path| :: k <= path[k] < n
      modifies slots
      ensures slots[..filled + |path|] == old(slots[..filled]) + RowsAt(old(slots[filled..filled + n]), path)
    {
      ghost var low, rows := slots[..filled], slots[filled..filled + n];
      for r := 0 to |path|
        invariant slots[..filled] == low
        invariant forall k: nat | k < r :: slots[filled + k] == rows[path[k]]
        invariant forall k: nat | r <= k < n :: slots[filled + k] == rows[k]
      {
        if path[r] != r {
          slots[filled + r] := slots[filled + path[r]];
        }
      }
      assert slots[filled..filled + |path|] == RowsAt(rows, path);
      assert slots[..filled + |path|] == slots[..filled] + slots[filled..filled + |path|];
    }

    /** Commit an accepted root path: afterwards the cache is the one a linear decode of that path
        would have left. */
    method CommitPath(m: Target, t: Tree, path: seq<nat>)
      requires Valid(m) && WellFormed(t) && filled + |t.tokens| <= slots.Length
      requires Chain(t, path)
      requires NodeRows(m, committed, t, slots[filled..filled + |t.tokens|])
      modifies slots, this`filled, this`committed
      ensures Valid(m) && committed == old(committed) + PathTokens(t, path)
    {
      PathLands(m, committed, t, path, slots[filled..filled + |t.tokens|]);
      Advance(m, path, |t.tokens|, PathTokens(t, path));
    }

    /** Compact and move the watermark over rows known to continue the committed ones with `tokens`. */
    method Advance(m: Target, path: seq<nat>, n: nat, ghost tokens: seq<Token>)
      requires Valid(m) && filled + n <= slots.Length && |path| == |tokens| <= n
      requires forall k | 0 <= k < |path| :: k <= path[k] < n
      requires Rows(m, committed + tokens) == Rows(m, committed) + RowsAt(slots[filled..filled + n], path)
      modifies slots, this`filled, this`committed
      ensures Valid(m) && committed == old(committed) + tokens
    {
      CompactPath(path, n);
      committed := committed + tokens;
      filled := filled + |path|;
    }
  }
}
