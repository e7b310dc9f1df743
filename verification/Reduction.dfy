/** The parallel row reductions of the device kernels (src/cuda.rs), in exact arithmetic: strided per-lane
    partial sums, then a shared-memory halving tree or a warp-shuffle tree. */
module Reduction {

  /** The sequential sum. */
  ghost function Sum(xs: seq<real>, n: nat): real
    requires n <= |xs|
  {
    if n == 0 then 0.0 else Sum(xs, n - 1) + xs[n - 1]
  }

  // ---- Strided partial sums -------------------------------------------------------------------------

  /** Lane `lane`'s share of the first `n` terms: those whose index is `lane` modulo the lane count. */
  ghost function Share(terms: seq<real>, lane: nat, lanes: nat, n: nat): real
    requires lane < lanes && n <= |terms|
  {
    if n == 0 then 0.0
    else Share(terms, lane, lanes, n - 1) + if (n - 1) % lanes == lane then terms[n - 1] else 0.0
  }

  /** Between two of its own columns a lane has nothing to add. */
  lemma {:induction false} ShareSkips(terms: seq<real>, lane: nat, lanes: nat, a: nat, b: nat)
    requires lane < lanes && a <= b <= |terms| && forall i | a <= i < b :: i % lanes != lane
    ensures Share(terms, lane, lanes, b) == Share(terms, lane, lanes, a)
  {
    if a < b {
      ShareSkips(terms, lane, lanes, a, b - 1);
    }
  }

  lemma {:induction false} NextOfLane(column: nat, lane: nat, lanes: nat, i: nat)
    requires lane < lanes && column % lanes == lane && column < i < column + lanes
    ensures i % lanes != lane && (column + lanes) % lanes == lane
  {
    if column >= lanes {
      ModStep(column - lanes, lanes);
      ModStep(i - lanes, lanes);
      ModStep(column, lanes);
      NextOfLane(column - lanes, lane, lanes, i - lanes);
    } else {
      ModStep(column, lanes);
      if i >= lanes {
        ModStep(i - lanes, lanes);
      }
    }
  }

  lemma ModStep(n: nat, lanes: nat)
    requires lanes > 0
    ensures (n + lanes) % lanes == n % lanes
    ensures n < lanes ==> n % lanes == n
  {
    var q, r := n / lanes, n % lanes;
    assert n + lanes == (q + 1) * lanes + r;
    ModUnique(n + lanes, q + 1, r, lanes);
    if n < lanes {
      ModUnique(n, 0, n, lanes);
    }
  }

  lemma ModUnique(n: nat, q: nat, r: nat, lanes: nat)
    requires 0 <= r < lanes && n == q * lanes + r
    ensures n % lanes == r
  {
    var d := n / lanes - q;
    assert n == (n / lanes) * lanes + n % lanes;
    assert d * lanes == r - n % lanes;
    MultipleIsFar(d, lanes);
  }

  lemma MultipleIsFar(d: int, lanes: nat)
    ensures d >= 1 ==> d * lanes >= lanes
    ensures d <= -1 ==> d * lanes + lanes <= 0
  {
  }

  /** One lane's strided loop. */
  method LanePartial(terms: seq<real>, lane: nat, lanes: nat) returns (partial: real)
    requires lane < lanes
    ensures partial == Share(terms, lane, lanes, |terms|)
  {
    partial := 0.0;
    var column := lane;
    ModStep(lane, lanes);
    FirstColumn(terms, lane, lanes);
    while column < |terms|
      invariant column % lanes == lane
      invariant partial == Share(terms, lane, lanes, if column < |terms| then column else |terms|)
      decreases |terms| - column
    {
      partial := partial + terms[column];
      AdvanceColumn(terms, lane, lanes, column);
      column := column + lanes;
    }
  }

  lemma FirstColumn(terms: seq<real>, lane: nat, lanes: nat)
    requires lane < lanes
    ensures Share(terms, lane, lanes, if lane < |terms| then lane else |terms|) == 0.0
  {
    var stop := if lane < |terms| then lane else |terms|;
    forall i | 0 <= i < stop
      ensures i % lanes != lane
    {
      ModStep(i, lanes);
    }
    ShareSkips(terms, lane, lanes, 0, stop);
  }

  lemma AdvanceColumn(terms: seq<real>, lane: nat, lanes: nat, column: nat)
    requires lane < lanes && column < |terms| && column % lanes == lane
    ensures (column + lanes) % lanes == lane
    ensures Share(terms, lane, lanes, if column + lanes < |terms| then column + lanes else |terms|)
            == Share(terms, lane, lanes, column) + terms[column]
  {
    ModStep(column, lanes);
    var stop := if column + lanes < |terms| then column + lanes else |terms|;
    forall i | column + 1 <= i < stop
      ensures i % lanes != lane
    {
      NextOfLane(column, lane, lanes, i);
    }
    ShareSkips(terms, lane, lanes, column + 1, stop);
  }


  /** The shares of the first `n` terms, lane by lane. */
  ghost function ShareList(terms: seq<real>, lanes: nat, n: nat): (r: seq<real>)
    requires n <= |terms|
    ensures |r| == lanes && forall lane | 0 <= lane < lanes :: r[lane] == Share(terms, lane, lanes, n)
  {
    seq(lanes, lane requires 0 <= lane < lanes => Share(terms, lane, lanes, n))
  }

  lemma {:induction false} SumOneChanged(a: seq<real>, b: seq<real>, k: nat, delta: real, n: nat)
    requires |a| == |b| && k < |a| && n <= |a| && b[k] == a[k] + delta
    requires forall i | 0 <= i < |a| && i != k :: b[i] == a[i]
    ensures Sum(b, n) == Sum(a, n) + if k < n then delta else 0.0
  {
    if n > 0 {
      SumOneChanged(a, b, k, delta, n - 1);
    }
  }

  /** Every term belongs to exactly one lane: the shares add up to the sequential sum. */
  lemma {:induction false} SharesCover(terms: seq<real>, lanes: nat, n: nat)
    requires lanes > 0 && n <= |terms|
    ensures Sum(ShareList(terms, lanes, n), lanes) == Sum(terms, n)
  {
    if n == 0 {
      AllZero(ShareList(terms, lanes, 0), lanes);
    } else {
      SharesCover(terms, lanes, n - 1);
      SumOneChanged(ShareList(terms, lanes, n - 1), ShareList(terms, lanes, n), (n - 1) % lanes, terms[n - 1], lanes);
    }
  }

  lemma {:induction false} AllZero(xs: seq<real>, n: nat)
    requires n <= |xs| && forall i | 0 <= i < |xs| :: xs[i] == 0.0
    ensures Sum(xs, n) == 0.0
  {
    if n > 0 {
      AllZero(xs, n - 1);
    }
  }

  method LanePartials(terms: seq<real>, lanes: nat) returns (partials: seq<real>)
    requires lanes > 0
    ensures |partials| == lanes && Sum(partials, lanes) == Sum(terms, |terms|)
  {
    partials := [];
    for lane := 0 to lanes
      invariant |partials| == lane
      invariant forall k | 0 <= k < lane :: partials[k] == Share(terms, k, lanes, |terms|)
    {
      var partial := LanePartial(terms, lane, lanes);
      partials := partials + [partial];
    }
    SharesCover(terms, lanes, |terms|);
    assert partials == ShareList(terms, lanes, |terms|);
  }

  // ---- The trees ------------------------------------------------------------------------------------

  predicate PowerOfTwo(n: nat) {
    n == 1 || (n > 0 && n % 2 == 0 && PowerOfTwo(n / 2))
  }

  /** Adding the upper half onto the lower half keeps the sum. */
  lemma {:induction false} FoldHalves(a: seq<real>, b: seq<real>, stride: nat, k: nat)
    requires 2 * stride <= |a| && k <= stride <= |b| && forall i | 0 <= i < stride :: b[i] == a[i] + a[i + stride]
    ensures Sum(b, k) == Sum(a, k) + (Sum(a, stride + k) - Sum(a, stride))
  {
    if k > 0 {
      FoldHalves(a, b, stride, k - 1);
    }
  }

  /** Before the step with this stride, the sum of the live lanes is the total. */
  ghost predicate LiveSum(lanes: seq<real>, stride: nat, total: real) {
    if stride == 0 then |lanes| >= 1 && Sum(lanes, 1) == total
    else PowerOfTwo(stride) && 2 * stride <= |lanes| && Sum(lanes, 2 * stride) == total
  }

  lemma HalvingStep(a: seq<real>, b: seq<real>, stride: nat, total: real)
    requires stride > 0 && LiveSum(a, stride, total) && |b| == |a|
    requires forall i | 0 <= i < stride :: b[i] == a[i] + a[i + stride]
    ensures LiveSum(b, stride / 2, total)
  {
    FoldHalves(a, b, stride, stride);
    if stride > 1 {
      assert 2 * (stride / 2) == stride;
    }
  }

  lemma Start(lanes: seq<real>)
    requires PowerOfTwo(|lanes|)
    ensures LiveSum(lanes, |lanes| / 2, Sum(lanes, |lanes|))
  {
    if |lanes| > 1 {
      assert 2 * (|lanes| / 2) == |lanes|;
    }
  }

  /** The shared-memory tree: at each stride the lower lanes add their partner in parallel. */
  method SharedMemoryTree(scratch: array<real>)
    requires PowerOfTwo(scratch.Length)
    modifies scratch
    ensures scratch[0] == Sum(old(scratch[..]), scratch.Length)
  {
    ghost var total := Sum(scratch[..], scratch.Length);
    var stride: nat := scratch.Length / 2;
    Start(scratch[..]);
    while stride > 0
      invariant LiveSum(scratch[..], stride, total)
    {
      ghost var before := scratch[..];
      forall lane | 0 <= lane < stride {
        scratch[lane] := scratch[lane] + scratch[lane + stride];
      }
      HalvingStep(before, scratch[..], stride, total);
      stride := stride / 2;
    }
    assert Sum(scratch[..], 1) == Sum(scratch[..], 0) + scratch[0];
  }

  /** One shuffle-down step over a whole warp: a lane whose partner is out of range reads its own value. */
  function ShuffleDown(lanes: seq<real>, off: nat): (r: seq<real>)
    ensures |r| == |lanes|
    ensures forall i | 0 <= i < |lanes| :: r[i] == lanes[i] + (if i + off < |lanes| then lanes[i + off] else lanes[i])
  {
    seq(|lanes|, i requires 0 <= i < |lanes| => lanes[i] + (if i + off < |lanes| then lanes[i + off] else lanes[i]))
  }

  /** The warp tree: every lane takes part in every step, and only lane 0's value is kept. */
  method WarpTree(partials: seq<real>) returns (first: real)
    requires PowerOfTwo(|partials|)
    ensures first == Sum(partials, |partials|)
  {
    var lanes, off: nat := partials, |partials| / 2;
    Start(partials);
    while off > 0
      invariant |lanes| == |partials| && LiveSum(lanes, off, Sum(partials, |partials|))
    {
      HalvingStep(lanes, ShuffleDown(lanes, off), off, Sum(partials, |partials|));
      lanes := ShuffleDown(lanes, off);
      off := off / 2;
    }
    first := lanes[0];
    assert Sum(lanes, 1) == Sum(lanes, 0) + lanes[0];
  }

  // ---- The kernels ----------------------------------------------------------------------------------

  /** `bitnet_f16_head_matvec`: one 256-thread block per row; any power-of-two block would do. */
  method BlockRow(terms: seq<real>, lanes: nat) returns (sum: real)
    requires PowerOfTwo(lanes)
    ensures sum == Sum(terms, |terms|)
  {
    var partials := LanePartials(terms, lanes);
    var scratch := new real[lanes](i requires 0 <= i < lanes => partials[i]);
    assert scratch[..] == partials;
    SharedMemoryTree(scratch);
    sum := scratch[0];
  }

  /** `q8_0_block_linear_row`: one 32-lane warp per row. */
  method WarpRow(terms: seq<real>, lanes: nat) returns (sum: real)
    requires PowerOfTwo(lanes)
    ensures sum == Sum(terms, |terms|)
  {
    var partials := LanePartials(terms, lanes);
    sum := WarpTree(partials);
  }
}
