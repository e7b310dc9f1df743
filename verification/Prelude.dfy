/** Shared value types: optional values, fallible results, and the library sort that several
    components call with different comparators. */
module Prelude {

  datatype Option<+T> = None | Some(value: T)

  /** The source's `Result`; the text of an error message carries no behaviour. */
  datatype Result<+T> = Ok(value: T) | Err

  lemma Assoc<T>(a: seq<T>, b: seq<T>, c: seq<T>)
    ensures a + b + c == a + (b + c)
  {
  }

  lemma OneMoreTimes(n: nat, c: nat)
    ensures n * c + c == (n + 1) * c
  {
  }

  lemma ProductMonotone(a: nat, b: nat, c: nat)
    requires a <= b
    ensures a * c <= b * c
  {
  }

  function SumOf(xs: seq<real>): real {
    if xs == [] then 0.0 else SumOf(xs[..|xs| - 1]) + xs[|xs| - 1]
  }

  /** The sum of one number is that number, and sums add up. */
  lemma {:induction false} SumSplits(x: real, a: seq<real>, b: seq<real>)
    ensures SumOf([x]) == x && SumOf(a + b) == SumOf(a) + SumOf(b)
    decreases |b|
  {
    assert SumOf([]) == 0.0;
    if b == [] {
      assert a + b == a;
    } else {
      var n := |b| - 1;
      SumSplits(x, a, b[..n]);
      assert (a + b)[..|a + b| - 1] == a + b[..n];
    }
  }

  /** A subset is no larger, and is the whole set when equally large. */
  lemma {:induction false} SubsetCardinality(a: set<nat>, b: set<nat>)
    requires a <= b
    ensures |a| <= |b| && (|a| == |b| ==> a == b)
    decreases |a|
  {
    if a != {} {
      var x :| x in a;
      SubsetCardinality(a - {x}, b - {x});
      assert a == (a - {x}) + {x} && b == (b - {x}) + {x};
    }
  }

  // ---- Sorting ------------------------------------------------------------------------------

  ghost predicate StrictTotalOn(less: (nat, nat) -> bool, xs: seq<nat>) {
    && (forall a, b | a in xs && b in xs && a != b :: less(a, b) || less(b, a))
    && (forall a, b | a in xs && b in xs && less(a, b) :: !less(b, a))
    && (forall a, b, c | a in xs && b in xs && c in xs && less(a, b) && less(b, c) :: less(a, c))
  }

  ghost predicate Distinct(xs: seq<nat>) {
    forall i, j | 0 <= i < j < |xs| :: xs[i] != xs[j]
  }

  ghost predicate Sorted(less: (nat, nat) -> bool, xs: seq<nat>) {
    forall i, j | 0 <= i < j < |xs| :: less(xs[i], xs[j])
  }

  function Insert(less: (nat, nat) -> bool, x: nat, xs: seq<nat>): (r: seq<nat>)
    ensures multiset(r) == multiset(xs) + multiset{x}
    ensures |r| == |xs| + 1
  {
    if xs == [] then [x]
    else if less(x, xs[0]) then [x] + xs
    else
      assert xs == [xs[0]] + xs[1..];
      [xs[0]] + Insert(less, x, xs[1..])
  }

  function SortBy(less: (nat, nat) -> bool, xs: seq<nat>): (r: seq<nat>)
    ensures multiset(r) == multiset(xs)
    ensures |r| == |xs|
  {
    if xs == [] then []
    else
      assert xs == [xs[0]] + xs[1..];
      Insert(less, xs[0], SortBy(less, xs[1..]))
  }

  lemma SameMembers(xs: seq<nat>, ys: seq<nat>)
    requires multiset(xs) == multiset(ys)
    ensures forall x :: x in xs <==> x in ys
  {
    forall x
      ensures x in xs <==> x in ys
    {
      assert x in xs <==> x in multiset(xs);
      assert x in ys <==> x in multiset(ys);
    }
  }

  lemma TailOrder(less: (nat, nat) -> bool, x: nat, xs: seq<nat>)
    requires xs != [] && StrictTotalOn(less, [x] + xs) && x !in xs && Sorted(less, xs)
    ensures StrictTotalOn(less, [x] + xs[1..]) && x !in xs[1..] && Sorted(less, xs[1..])
    ensures less(x, xs[0]) || less(xs[0], x)
  {
    assert forall y | y in [x] + xs[1..] :: y in [x] + xs;
    assert xs[0] in [x] + xs && x in [x] + xs;
  }

  lemma ConsSorted(less: (nat, nat) -> bool, x: nat, xs: seq<nat>)
    requires Sorted(less, xs) && forall y | y in xs :: less(x, y)
    ensures Sorted(less, [x] + xs)
  {
  }

  lemma {:induction false} InsertSorted(less: (nat, nat) -> bool, x: nat, xs: seq<nat>)
    requires StrictTotalOn(less, [x] + xs) && x !in xs && Sorted(less, xs)
    ensures Sorted(less, Insert(less, x, xs))
  {
    if xs != [] {
      TailOrder(less, x, xs);
      if less(x, xs[0]) {
        BeforeAll(less, x, xs);
        ConsSorted(less, x, xs);
      } else {
        InsertSorted(less, x, xs[1..]);
        var rest := Insert(less, x, xs[1..]);
        SameMembers(rest, xs[1..] + [x]);
        assert forall y | y in rest :: y == x || y in xs[1..];
        ConsSorted(less, xs[0], rest);
      }
    }
  }

  lemma BeforeAll(less: (nat, nat) -> bool, x: nat, xs: seq<nat>)
    requires xs != [] && StrictTotalOn(less, [x] + xs) && Sorted(less, xs) && less(x, xs[0])
    ensures forall y | y in xs :: less(x, y)
  {
    forall y | y in xs
      ensures less(x, y)
    {
      assert x in [x] + xs && y in [x] + xs && xs[0] in [x] + xs;
    }
  }

  /** The sort is a permutation in strictly ascending order; no duplicates appear or vanish. */
  lemma {:induction false} SortBySorted(less: (nat, nat) -> bool, xs: seq<nat>)
    requires StrictTotalOn(less, xs) && Distinct(xs)
    ensures Sorted(less, SortBy(less, xs))
    ensures forall x :: x in SortBy(less, xs) <==> x in xs
    ensures Distinct(SortBy(less, xs))
  {
    SameMembers(SortBy(less, xs), xs);
    if xs != [] {
      var tail := SortBy(less, xs[1..]);
      SortBySorted(less, xs[1..]);
      assert forall y | y in [xs[0]] + tail :: y in xs;
      InsertSorted(less, xs[0], tail);
    }
    var r := SortBy(less, xs);
    forall i, j | 0 <= i < j < |r|
      ensures r[i] != r[j]
    {
      assert less(r[i], r[j]) && r[i] in r;
    }
  }

  // ---- Sorting indices ----------------------------------------------------------------------

  function Indices(n: nat): (r: seq<nat>)
    ensures |r| == n && forall i | 0 <= i < n :: r[i] == i
  {
    seq(n, i => i)
  }

  lemma IndicesMembers(n: nat)
    ensures Distinct(Indices(n)) && forall x: nat :: x in Indices(n) <==> x < n
  {
    forall x: nat
      ensures x in Indices(n) <==> x < n
    {
      if x < n {
        assert Indices(n)[x] == x;
      }
    }
  }

  /** Each index below `n` exactly once. */
  ghost predicate Permutes(order: seq<nat>, n: nat) {
    && |order| == n && Distinct(order) && (forall i | 0 <= i < |order| :: order[i] < n)
    && forall x: nat | x < n :: x in order
  }

  lemma SortedIndices(less: (nat, nat) -> bool, n: nat)
    requires StrictTotalOn(less, Indices(n))
    ensures Permutes(SortBy(less, Indices(n)), n) && Sorted(less, SortBy(less, Indices(n)))
  {
    IndicesMembers(n);
    SortBySorted(less, Indices(n));
    var order := SortBy(less, Indices(n));
    assert forall i | 0 <= i < |order| :: order[i] in order;
  }

  /** A strict total order has only one ascending arrangement of given members. */
  lemma {:induction false} SortedUnique(less: (nat, nat) -> bool, a: seq<nat>, b: seq<nat>, n: nat)
    requires StrictTotalOn(less, a) && Sorted(less, a) && Sorted(less, b) && n <= |a| == |b|
    requires forall x :: x in a <==> x in b
    ensures a[..n] == b[..n]
  {
    if n > 0 {
      var k := n - 1;
      SortedUnique(less, a, b, k);
      assert a[k] in a && b[k] in b;
      if a[k] != b[k] {
        LaterOf(less, a, b, k);
        LaterOf(less, b, a, k);
        assert false;
      }
      assert a[..n] == a[..k] + [a[k]] && b[..n] == b[..k] + [b[k]];
    }
  }

  /** After a common beginning, the other sequence's next member is still to come. */
  lemma LaterOf(less: (nat, nat) -> bool, a: seq<nat>, b: seq<nat>, k: nat)
    requires Sorted(less, a) && Sorted(less, b) && k < |a| == |b| && a[..k] == b[..k] && a[k] != b[k]
    requires b[k] in a && forall x, y | x in a && y in a && less(x, y) :: !less(y, x)
    ensures less(a[k], b[k])
  {
    assert forall i | 0 <= i < k :: a[i] == a[..k][i] == b[..k][i] == b[i];
    assert !less(b[k], b[k]) && forall i | 0 <= i < k :: less(b[i], b[k]);
    assert forall i | 0 <= i < k :: a[i] != b[k];
    var j :| 0 <= j < |a| && a[j] == b[k];
  }

  lemma PermutesMembers(order: seq<nat>, n: nat)
    requires Permutes(order, n)
    ensures forall x: nat :: x in order <==> x < n
  {
  }
}
