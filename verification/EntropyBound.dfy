/** The Entropy-Bound acceptance rule of one denoise step (src/diffusion_gemma.rs). */
module EntropyBound {
  import opened Prelude

  // ---- Ascending order ------------------------------------------------------------------------

  /** Ascending key, lower index on exact ties. */
  function AscendingOrder(keys: seq<real>): (nat, nat) -> bool {
    (a: nat, b: nat) => a < |keys| && b < |keys| && (keys[a] < keys[b] || (keys[a] == keys[b] && a < b))
  }

  /** Out-of-range positions count nothing, so sums are total. */
  function Key(keys: seq<real>, x: nat): real {
    if x < |keys| then keys[x] else 0.0
  }

  ghost predicate Ascending(keys: seq<real>, order: seq<nat>) {
    && Permutes(order, |keys|)
    && forall i, j | 0 <= i < j < |order| :: Key(keys, order[i]) <= Key(keys, order[j])
  }

  lemma AscendingOrderTotal(keys: seq<real>)
    ensures StrictTotalOn(AscendingOrder(keys), Indices(|keys|))
  {
    IndicesMembers(|keys|);
  }

  /** Every index once, by ascending key, ties by lower index. */
  ghost predicate Argsorted(keys: seq<real>, order: seq<nat>) {
    Permutes(order, |keys|) && Sorted(AscendingOrder(keys), order)
  }

  /** `argsort_asc_libcpp`. */
  function ArgsortAscending(keys: seq<real>): (order: seq<nat>)
    ensures Argsorted(keys, order)
  {
    AscendingOrderTotal(keys);
    SortedIndices(AscendingOrder(keys), |keys|);
    SortBy(AscendingOrder(keys), Indices(|keys|))
  }

  lemma ArgsortedAscends(keys: seq<real>, order: seq<nat>)
    requires Argsorted(keys, order)
    ensures Ascending(keys, order)
  {
    forall i, j | 0 <= i < j < |order|
      ensures Key(keys, order[i]) <= Key(keys, order[j])
    {
      assert AscendingOrder(keys)(order[i], order[j]);
    }
  }

  /** The order is determined by the keys. */
  lemma ArgsortedUnique(keys: seq<real>, a: seq<nat>, b: seq<nat>)
    requires Argsorted(keys, a) && Argsorted(keys, b)
    ensures a == b
  {
    AscendingOrderTotal(keys);
    IndicesMembers(|keys|);
    PermutesMembers(a, |keys|);
    PermutesMembers(b, |keys|);
    SortedUnique(AscendingOrder(keys), a, b, |a|);
    assert a[..|a|] == a && b[..|a|] == b;
  }

  // ---- Sums -----------------------------------------------------------------------------------

  ghost function PrefixSum(keys: seq<real>, order: seq<nat>, m: nat): real
    requires m <= |order|
  {
    if m == 0 then 0.0 else PrefixSum(keys, order, m - 1) + Key(keys, order[m - 1])
  }

  /** The sum over a set of positions. */
  ghost function SumOver(keys: seq<real>, s: set<nat>): real {
    SumBelow(keys, s, |keys|)
  }

  ghost function SumBelow(keys: seq<real>, s: set<nat>, n: nat): real {
    if n == 0 then 0.0 else SumBelow(keys, s, n - 1) + if n - 1 in s then Key(keys, n - 1) else 0.0
  }

  lemma {:induction false} SumBelowRemove(keys: seq<real>, s: set<nat>, y: nat, n: nat)
    requires y in s
    ensures SumBelow(keys, s, n) == SumBelow(keys, s - {y}, n) + if y < n then Key(keys, y) else 0.0
  {
    if n > 0 {
      SumBelowRemove(keys, s, y, n - 1);
    }
  }

  lemma {:induction false} SumBelowEmpty(keys: seq<real>, n: nat)
    ensures SumBelow(keys, {}, n) == 0.0
  {
    if n > 0 {
      SumBelowEmpty(keys, n - 1);
    }
  }

  lemma SumOverRemove(keys: seq<real>, s: set<nat>, y: nat)
    requires y in s
    ensures SumOver(keys, s) == Key(keys, y) + SumOver(keys, s - {y})
  {
    SumBelowRemove(keys, s, y, |keys|);
  }

  ghost function Firsts(order: seq<nat>, m: nat): (s: set<nat>)
    requires m <= |order|
  {
    if m == 0 then {} else Firsts(order, m - 1) + {order[m - 1]}
  }

  lemma {:induction false} FirstsMembers(order: seq<nat>, m: nat)
    requires m <= |order|
    ensures forall x :: x in Firsts(order, m) <==> exists i :: 0 <= i < m && order[i] == x
  {
    if m > 0 {
      FirstsMembers(order, m - 1);
    }
  }

  /** Each place of the order adds a new position. */
  lemma FirstsSnoc(order: seq<nat>, m: nat)
    requires Distinct(order) && 0 < m <= |order|
    ensures order[m - 1] in Firsts(order, m) && Firsts(order, m) - {order[m - 1]} == Firsts(order, m - 1)
    ensures order[m - 1] !in Firsts(order, m - 1)
  {
    FirstsMembers(order, m - 1);
  }

  lemma {:induction false} FirstsSum(keys: seq<real>, order: seq<nat>, m: nat)
    requires Distinct(order) && m <= |order|
    ensures |Firsts(order, m)| == m
    ensures SumOver(keys, Firsts(order, m)) == PrefixSum(keys, order, m)
  {
    if m > 0 {
      FirstsSum(keys, order, m - 1);
      FirstsSnoc(order, m);
      SumOverRemove(keys, Firsts(order, m), order[m - 1]);
    } else {
      SumBelowEmpty(keys, |keys|);
    }
  }

  lemma SetFits(order: seq<nat>, n: nat, s: set<nat>)
    requires Permutes(order, n) && forall x | x in s :: x < n
    ensures |s| <= n
  {
    FirstsSum([], order, n);
    FirstsMembers(order, n);
    forall x | x in s
      ensures x in Firsts(order, n)
    {
      assert x in order;
    }
    SubsetCardinality(s, Firsts(order, n));
  }

  /** Among any `k` positions one ranks at or after place `k - 1`. */
  lemma LateMember(order: seq<nat>, n: nat, s: set<nat>) returns (x: nat, i: nat)
    requires Permutes(order, n) && s != {} && forall y | y in s :: y < n
    ensures x in s && |s| - 1 <= i < n && order[i] == x
  {
    SetFits(order, n, s);
    var k := |s| - 1;
    FirstsSum([], order, k);
    FirstsMembers(order, k);
    if s <= Firsts(order, k) {
      SubsetCardinality(s, Firsts(order, k));
      assert false;
    }
    x :| x in s && x !in Firsts(order, k);
    assert x in order;
    i :| 0 <= i < n && order[i] == x;
  }

  /** No set of `k` positions sums to less than the `k` smallest. */
  lemma {:induction false} SmallestSum(keys: seq<real>, order: seq<nat>, s: set<nat>)
    requires Ascending(keys, order) && forall x | x in s :: x < |keys|
    ensures |s| <= |order| && PrefixSum(keys, order, |s|) <= SumOver(keys, s)
    decreases |s|
  {
    SetFits(order, |keys|, s);
    if s == {} {
      SumBelowEmpty(keys, |keys|);
    } else {
      var x, i := LateMember(order, |keys|, s);
      SmallestSum(keys, order, s - {x});
      SumOverRemove(keys, s, x);
      assert |s - {x}| == |s| - 1;
      assert Key(keys, order[|s| - 1]) <= Key(keys, order[i]);
    }
  }

  // ---- The acceptance rule ----------------------------------------------------------------------

  /** A position set within budget: its entropies, the largest one excepted, sum to at most the bound. */
  ghost predicate WithinBound(entropy: seq<real>, bound: real, s: set<nat>) {
    s == {} || exists x :: x in s && Largest(entropy, s, x) && SumOver(entropy, s - {x}) <= bound
  }

  ghost predicate Largest(entropy: seq<real>, s: set<nat>, x: nat) {
    forall y | y in s :: Key(entropy, y) <= Key(entropy, x)
  }

  ghost predicate NonNegative(entropy: seq<real>) {
    forall x: nat :: Key(entropy, x) >= 0.0
  }

  /** The rule's own test at place `i` of the order: the strictly earlier sum is within the bound. */
  ghost predicate Accepts(entropy: seq<real>, bound: real, order: seq<nat>, i: nat)
    requires i < |order|
  {
    PrefixSum(entropy, order, i) <= bound
  }

  lemma {:induction false} PrefixSumGrows(entropy: seq<real>, order: seq<nat>, a: nat, b: nat)
    requires a <= b <= |order| && forall i | a <= i < b :: Key(entropy, order[i]) >= 0.0
    ensures PrefixSum(entropy, order, a) <= PrefixSum(entropy, order, b)
    decreases b - a
  {
    if a < b {
      PrefixSumGrows(entropy, order, a, b - 1);
    }
  }

  lemma {:induction false} NonPositiveSum(entropy: seq<real>, order: seq<nat>, a: nat)
    requires a <= |order| && forall i | 0 <= i < a :: Key(entropy, order[i]) <= 0.0
    ensures PrefixSum(entropy, order, a) <= 0.0
  {
    if a > 0 {
      NonPositiveSum(entropy, order, a - 1);
    }
  }

  /** Once the ascending sum has passed a non-negative bound it stays past it. */
  lemma StaysAbove(entropy: seq<real>, bound: real, order: seq<nat>, a: nat, b: nat)
    requires Ascending(entropy, order) && (bound >= 0.0 || NonNegative(entropy)) && a <= b <= |order|
    requires PrefixSum(entropy, order, a) > bound
    ensures PrefixSum(entropy, order, b) > bound
  {
    if bound >= 0.0 {
      if forall i | 0 <= i < a :: Key(entropy, order[i]) <= 0.0 {
        NonPositiveSum(entropy, order, a);
        assert false;
      }
      var p :| 0 <= p < a && Key(entropy, order[p]) > 0.0;
      assert forall i | a <= i < b :: Key(entropy, order[p]) <= Key(entropy, order[i]);
    }
    PrefixSumGrows(entropy, order, a, b);
  }

  /** The first `n` ranks have been judged: a position is accepted exactly when it is among them and the
      entropies ranked strictly before it sum to at most the bound. */
  ghost predicate Judged(entropy: seq<real>, bound: real, order: seq<nat>, accepted: seq<bool>, n: nat) {
    && |accepted| == |entropy|
    && forall i: nat | i < |order| ::
         order[i] < |accepted| && (accepted[order[i]] <==> i < n && Accepts(entropy, bound, order, i))
  }

  lemma JudgeNext(entropy: seq<real>, bound: real, order: seq<nat>, accepted: seq<bool>, n: nat)
    requires Distinct(order) && n < |order| && Judged(entropy, bound, order, accepted, n)
    ensures Judged(entropy, bound, order,
                   if Accepts(entropy, bound, order, n) then accepted[order[n] := true] else accepted, n + 1)
  {
  }

  /** What the loop computes. */
  ghost predicate FollowsRule(entropy: seq<real>, bound: real, order: seq<nat>, accepted: seq<bool>) {
    Argsorted(entropy, order) && Judged(entropy, bound, order, accepted, |order|)
  }

  /** `count` positions were accepted: the first `count` of the ascending order, no more and no fewer
      than the bound on the strictly earlier cumulative sum allows. */
  ghost predicate AcceptedPrefix(entropy: seq<real>, bound: real, order: seq<nat>, accepted: seq<bool>, count: nat) {
    && Ascending(entropy, order) && |accepted| == |entropy| && count <= |entropy|
    && (forall i: nat | i < |order| :: order[i] < |accepted| && (accepted[order[i]] <==> i < count))
    && (count > 0 ==> PrefixSum(entropy, order, count - 1) <= bound)
    && (count < |entropy| ==> PrefixSum(entropy, order, count) > bound)
  }

  /** The acceptance loop of `eb_step`. */
  method AcceptPositions(entropy: seq<real>, bound: real) returns (accepted: seq<bool>, order: seq<nat>)
    ensures FollowsRule(entropy, bound, order, accepted)
  {
    order := ArgsortAscending(entropy);
    accepted := seq(|entropy|, _ => false);
    var cum := 0.0;
    for i := 0 to |order|
      invariant cum == PrefixSum(entropy, order, i) && Judged(entropy, bound, order, accepted, i)
    {
      JudgeNext(entropy, bound, order, accepted, i);
      var pos := order[i];
      cum := cum + entropy[pos];
      if cum - entropy[pos] <= bound {
        accepted := accepted[pos := true];
      }
    }
  }

  /** With a non-negative bound, or with non-negative entropies, the accepted positions are a prefix of
      the order. */
  lemma {:induction false} AcceptsAPrefix(entropy: seq<real>, bound: real, order: seq<nat>, n: nat) returns (count: nat)
    requires Ascending(entropy, order) && (bound >= 0.0 || NonNegative(entropy)) && n <= |order|
    ensures count <= n && forall i | 0 <= i < n :: Accepts(entropy, bound, order, i) <==> i < count
  {
    if n == 0 {
      return 0;
    }
    count := AcceptsAPrefix(entropy, bound, order, n - 1);
    if Accepts(entropy, bound, order, n - 1) {
      if count < n - 1 {
        assert !Accepts(entropy, bound, order, count);
        StaysAbove(entropy, bound, order, count, n - 1);
        assert false;
      }
      count := n;
    }
  }

  lemma RuleAcceptsPrefix(entropy: seq<real>, bound: real, order: seq<nat>, accepted: seq<bool>) returns (count: nat)
    requires FollowsRule(entropy, bound, order, accepted) && (bound >= 0.0 || NonNegative(entropy))
    ensures AcceptedPrefix(entropy, bound, order, accepted, count)
  {
    ArgsortedAscends(entropy, order);
    count := AcceptsAPrefix(entropy, bound, order, |order|);
    assert count > 0 ==> Accepts(entropy, bound, order, count - 1);
    assert count < |order| ==> !Accepts(entropy, bound, order, count);
  }

  /** The rule determines what is accepted. */
  lemma RuleUnique(entropy: seq<real>, bound: real, o: seq<nat>, a: seq<bool>, q: seq<nat>, b: seq<bool>)
    requires FollowsRule(entropy, bound, o, a) && FollowsRule(entropy, bound, q, b)
    ensures a == b
  {
    ArgsortedUnique(entropy, o, q);
    forall x: nat | x < |a|
      ensures a[x] == b[x]
    {
      assert x in o;
    }
  }

  /** With entropies, which are never negative, some position is accepted exactly when the bound is not
      negative either: a negative bound accepts nothing, any other accepts at least the lowest entropy. */
  lemma AcceptsSomethingIff(entropy: seq<real>, bound: real, order: seq<nat>, accepted: seq<bool>)
    requires NonNegative(entropy) && entropy != [] && FollowsRule(entropy, bound, order, accepted)
    ensures (exists x: nat :: x < |accepted| && accepted[x]) <==> bound >= 0.0
  {
    ArgsortedAscends(entropy, order);
    assert Accepts(entropy, bound, order, 0) <==> bound >= 0.0;
    if x: nat :| x < |accepted| && accepted[x] {
      assert x in order;
      var i :| 0 <= i < |order| && order[i] == x;
      PrefixSumGrows(entropy, order, 0, i);
    }
    assert accepted[order[0]] <==> Accepts(entropy, bound, order, 0);
  }

  ghost function AcceptedSet(accepted: seq<bool>): set<nat> {
    set x: nat | x < |accepted| && accepted[x]
  }

  lemma AcceptedSetIsFirsts(entropy: seq<real>, bound: real, order: seq<nat>, accepted: seq<bool>, count: nat)
    requires AcceptedPrefix(entropy, bound, order, accepted, count)
    ensures AcceptedSet(accepted) == Firsts(order, count) && |AcceptedSet(accepted)| == count
  {
    FirstsMembers(order, count);
    FirstsSum(entropy, order, count);
    forall x: nat
      ensures x in AcceptedSet(accepted) <==> x in Firsts(order, count)
    {
      if x < |accepted| {
        assert x in order;
      }
    }
  }

  /** Greedy acceptance is optimal: the accepted set is itself within the bound, no position set within
      the bound is larger, and no accepted position has more entropy than a rejected one. */
  lemma AcceptanceIsOptimal(entropy: seq<real>, bound: real, order: seq<nat>, accepted: seq<bool>)
    requires (bound >= 0.0 || NonNegative(entropy)) && FollowsRule(entropy, bound, order, accepted)
    ensures WithinBound(entropy, bound, AcceptedSet(accepted))
    ensures forall s: set<nat> | (forall x | x in s :: x < |entropy|) && WithinBound(entropy, bound, s) ::
              |s| <= |AcceptedSet(accepted)|
    ensures forall a: nat, r: nat | a < |accepted| && r < |accepted| && accepted[a] && !accepted[r] ::
              entropy[a] <= entropy[r]
  {
    var count := RuleAcceptsPrefix(entropy, bound, order, accepted);
    AcceptedSetIsFirsts(entropy, bound, order, accepted, count);
    AcceptedWithinBound(entropy, bound, order, count, AcceptedSet(accepted));
    forall s: set<nat> | (forall x | x in s :: x < |entropy|) && WithinBound(entropy, bound, s)
      ensures |s| <= count
    {
      NoLargerSet(entropy, bound, order, count, s);
    }
    forall a: nat, r: nat | a < |accepted| && r < |accepted| && accepted[a] && !accepted[r]
      ensures entropy[a] <= entropy[r]
    {
      assert a in order && r in order;
      var i, j :| 0 <= i < |order| && 0 <= j < |order| && order[i] == a && order[j] == r;
      assert Key(entropy, order[i]) <= Key(entropy, order[j]);
    }
  }

  lemma LastOfFirstsLargest(entropy: seq<real>, order: seq<nat>, count: nat)
    requires Ascending(entropy, order) && 0 < count <= |order|
    ensures Largest(entropy, Firsts(order, count), order[count - 1])
  {
    FirstsMembers(order, count);
    forall y | y in Firsts(order, count)
      ensures Key(entropy, y) <= Key(entropy, order[count - 1])
    {
      var i :| 0 <= i < count && order[i] == y;
    }
  }

  lemma WithinBoundBy(entropy: seq<real>, bound: real, s: set<nat>, x: nat, rest: set<nat>)
    requires x in s && rest == s - {x} && Largest(entropy, s, x) && SumOver(entropy, rest) <= bound
    ensures WithinBound(entropy, bound, s)
  {
  }

  /** The last of the first `count` is their largest, and without it their sum is the earlier one. */
  lemma FirstsSplit(entropy: seq<real>, order: seq<nat>, count: nat, s: set<nat>, x: nat, rest: set<nat>)
    requires Ascending(entropy, order) && 0 < count <= |order| && x == order[count - 1]
    requires s == Firsts(order, count) && rest == Firsts(order, count - 1)
    ensures x in s && rest == s - {x} && Largest(entropy, s, x)
    ensures SumOver(entropy, rest) == PrefixSum(entropy, order, count - 1)
  {
    LastOfFirstsLargest(entropy, order, count);
    FirstsSnoc(order, count);
    FirstsSum(entropy, order, count - 1);
  }

  lemma AcceptedWithinBound(entropy: seq<real>, bound: real, order: seq<nat>, count: nat, s: set<nat>)
    requires Ascending(entropy, order) && count <= |order| && s == Firsts(order, count)
    requires count > 0 ==> PrefixSum(entropy, order, count - 1) <= bound
    ensures WithinBound(entropy, bound, s)
  {
    if count > 0 {
      var x, rest := order[count - 1], Firsts(order, count - 1);
      FirstsSplit(entropy, order, count, s, x, rest);
      WithinBoundBy(entropy, bound, s, x, rest);
    }
  }

  lemma NoLargerSet(entropy: seq<real>, bound: real, order: seq<nat>, count: nat, s: set<nat>)
    requires (bound >= 0.0 || NonNegative(entropy)) && Ascending(entropy, order) && count <= |order|
    requires count < |order| ==> PrefixSum(entropy, order, count) > bound
    requires (forall x | x in s :: x < |entropy|) && WithinBound(entropy, bound, s)
    ensures |s| <= count
  {
    if s != {} {
      var x :| x in s && Largest(entropy, s, x) && SumOver(entropy, s - {x}) <= bound;
      var rest := s - {x};
      SetFits(order, |entropy|, s);
      SmallestSum(entropy, order, rest);
      assert |rest| == |s| - 1;
      if count <= |rest| {
        StaysAbove(entropy, bound, order, count, |rest|);
      }
    }
  }
}
