/** How far a session's K/V cache may grow (src/inference/kv_cache.rs): in chunks, up to the context length and
    within a byte budget. */
module KvRoom {
  import opened Prelude

  datatype KvPlan = KvPlan(context: nat, chunk: nat, rowBytes: nat, budget: nat)

  const U64_MAX: nat := 0xFFFF_FFFF_FFFF_FFFF

  function Saturated(n: nat): nat {
    if n > U64_MAX then U64_MAX else n
  }

  function RoundUp(n: nat, chunk: nat): nat
    requires chunk > 0
  {
    (n + chunk - 1) / chunk * chunk
  }

  /** `grow_sequence_length`. */
  function Grown(kv: KvPlan, n: nat): nat {
    if kv.chunk <= 1 then n
    else
      var up := RoundUp(n, kv.chunk);
      if up < kv.context then up else kv.context
  }

  /** The session can hold `n` positions. */
  predicate Admits(kv: KvPlan, n: nat) {
    n <= kv.context && Saturated(Grown(kv, n) * kv.rowBytes) <= kv.budget
  }

  /** Only a session that owns layers stores rows. */
  predicate RoomFor(kv: KvPlan, lo: nat, hi: nat, n: nat) {
    lo < hi ==> Admits(kv, n)
  }

  /** Multiples are at least a step apart. */
  lemma StepApart(j: nat, k: nat, c: nat)
    ensures j <= k || k * c + c <= j * c
  {
    if j > k {
      ProductMonotone(k + 1, j, c);
      OneMoreTimes(k, c);
    }
  }

  /** A session reserves what is asked for or, in chunks, the least sufficient multiple, cut at the context length. */
  ghost predicate Reserves(kv: KvPlan, n: nat, rows: nat) {
    if kv.chunk <= 1 then rows == n
    else
      && rows <= kv.context && (forall k: nat | n <= k * kv.chunk :: rows <= k * kv.chunk)
      && (rows < kv.context ==> n <= rows && exists k: nat :: rows == k * kv.chunk)
  }

  /** The rows reserved are determined, and `n` positions are admitted exactly when they are in the context and the
      rows are within the budget, with a byte count that stops at the largest 64-bit number. */
  lemma AdmitsIff(kv: KvPlan, n: nat, rows: nat)
    ensures Reserves(kv, n, rows) <==> rows == Grown(kv, n)
    ensures Reserves(kv, n, rows) ==>
              (Admits(kv, n) <==>
               n <= kv.context && (rows * kv.rowBytes <= kv.budget || 0xFFFF_FFFF_FFFF_FFFF <= kv.budget))
  {
    if kv.chunk > 1 {
      var least := RoundedUp(n, kv.chunk);
      forall k: nat | n <= k * kv.chunk
        ensures RoundUp(n, kv.chunk) <= k * kv.chunk
      {
        StepApart(least, k, kv.chunk);
        if least <= k {
          ProductMonotone(least, k, kv.chunk);
        }
      }
    }
  }

  /** Rounding goes to the next multiple. */
  lemma RoundedUp(n: nat, chunk: nat) returns (k: nat)
    requires chunk > 0
    ensures RoundUp(n, chunk) == k * chunk && n <= k * chunk < n + chunk
  {
    k := (n + chunk - 1) / chunk;
  }

  lemma RoundUpMonotone(a: nat, b: nat, chunk: nat)
    requires chunk > 0 && a <= b
    ensures RoundUp(a, chunk) <= RoundUp(b, chunk)
  {
    var j := RoundedUp(a, chunk);
    var k := RoundedUp(b, chunk);
    StepApart(j, k, chunk);
    if j <= k {
      ProductMonotone(j, k, chunk);
    }
  }

  lemma MultipleIsRound(k: nat, chunk: nat)
    requires chunk > 0
    ensures RoundUp(k * chunk, chunk) == k * chunk
  {
    var j := RoundedUp(k * chunk, chunk);
    StepApart(j, k, chunk);
    StepApart(k, j, chunk);
  }

  /** Nothing takes no room. */
  lemma NothingReserved(kv: KvPlan)
    ensures Admits(kv, 0) && Grown(kv, 0) == 0
  {
    if kv.chunk > 1 {
      var k := RoundedUp(0, kv.chunk);
      if k > 0 {
        ProductMonotone(1, k, kv.chunk);
      }
    }
  }

  /** A grown size holds what was asked for and is not grown again. */
  lemma GrownIsFixed(kv: KvPlan, n: nat)
    requires n <= kv.context
    ensures n <= Grown(kv, n) <= kv.context && Grown(kv, Grown(kv, n)) == Grown(kv, n)
  {
    if kv.chunk > 1 {
      var k := RoundedUp(n, kv.chunk);
      var c := RoundedUp(kv.context, kv.chunk);
      MultipleIsRound(k, kv.chunk);
    }
  }

  lemma GrownMonotone(kv: KvPlan, a: nat, b: nat)
    requires a <= b
    ensures Grown(kv, a) <= Grown(kv, b)
  {
    if kv.chunk > 1 {
      RoundUpMonotone(a, b, kv.chunk);
    }
  }

  /** What fits leaves room for anything shorter, rounding and saturation included. */
  lemma AdmitsShorter(kv: KvPlan, a: nat, b: nat)
    requires a <= b && Admits(kv, b)
    ensures Admits(kv, a)
  {
    GrownMonotone(kv, a, b);
    ProductMonotone(Grown(kv, a), Grown(kv, b), kv.rowBytes);
  }
}
