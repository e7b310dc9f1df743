/** The device cache of the tied F16 output head (src/cuda.rs): keyed by the host allocation's address and
    length, each entry holding a weak reference to that allocation. */
module HeadWeightCache {
  import opened Prelude

  type Byte = x: int | 0 <= x < 0x100

  /** A reference-counted host allocation. Its contents are gone once `strong` is zero, but its address
      stays taken until `weak` is zero too. */
  datatype Block = Block(bytes: seq<Byte>, strong: nat, weak: nat)

  datatype Entry = Entry(host: nat, device: seq<Byte>)

  // ---- The finiteness check -------------------------------------------------------------------------

  /** A half-precision word is finite when its exponent field is not all ones. */
  predicate FiniteAt(bytes: seq<Byte>, i: nat) {
    2 * i + 1 < |bytes| ==>
      var lo: int, hi: int := bytes[2 * i], bytes[2 * i + 1];
      (lo + 0x100 * hi) / 0x400 % 0x20 != 0x1F
  }

  ghost predicate AllFinite(bytes: seq<Byte>) {
    forall i: nat | i < |bytes| / 2 :: FiniteAt(bytes, i)
  }

  /** The words that fail are exactly the infinities 7C00 and FC00 and the NaNs above them, low byte first. */
  lemma FiniteIff(bytes: seq<Byte>)
    ensures AllFinite(bytes)
            <==> forall i: nat | i < |bytes| / 2 ::
                   var low: int, high: int := bytes[2 * i], bytes[2 * i + 1];
                   var word := low + 0x100 * high;
                   !(0x7C00 <= word <= 0x7FFF) && !(0xFC00 <= word <= 0xFFFF)
  {
    forall i: nat | i < |bytes| / 2
      ensures FiniteAt(bytes, i)
              <==> (var low: int, high: int := bytes[2 * i], bytes[2 * i + 1];
                    var word := low + 0x100 * high;
                    !(0x7C00 <= word <= 0x7FFF) && !(0xFC00 <= word <= 0xFFFF))
    {
    }
  }

  method CheckFinite(bytes: seq<Byte>) returns (ok: bool)
    ensures ok <==> AllFinite(bytes)
  {
    for i := 0 to |bytes| / 2
      invariant forall k: nat | k < i :: FiniteAt(bytes, k)
    {
      if !FiniteAt(bytes, i) {
        return false;
      }
    }
    ok := true;
  }

  // ---- The invariant --------------------------------------------------------------------------------

  /** An entry's address still belongs to the allocation it was uploaded from, byte for byte. */
  ghost predicate EntryOk(heap: map<nat, Block>, key: (nat, nat), e: Entry) {
    && e.host == key.0 && key.0 in heap
    && e.device == heap[key.0].bytes && key.1 == |e.device|
    && AllFinite(e.device)
  }

  /** An allocation exists while it is referenced, and its weak count is its number of cache entries. */
  ghost predicate BlockOk(cache: map<(nat, nat), Entry>, a: nat, b: Block) {
    && (b.strong > 0 || b.weak > 0)
    && b.weak == if (a, |b.bytes|) in cache then 1 else 0
  }

  ghost predicate Consistent(heap: map<nat, Block>, cache: map<(nat, nat), Entry>) {
    && (forall key | key in cache :: EntryOk(heap, key, cache[key]))
    && (forall a | a in heap :: BlockOk(cache, a, heap[a]))
  }

  /** Allocations some model still owns. */
  function Live(heap: map<nat, Block>): map<nat, Block> {
    map a | a in heap && heap[a].strong > 0 :: heap[a]
  }

  function LiveEntries(heap: map<nat, Block>, cache: map<(nat, nat), Entry>): map<(nat, nat), Entry> {
    map key | key in cache && cache[key].host in heap && heap[cache[key].host].strong > 0 :: cache[key]
  }

  /** Allocations some model owns keep their bytes and their owners. */
  ghost predicate KeepsLive(before: map<nat, Block>, after: map<nat, Block>) {
    forall x | x in before && before[x].strong > 0 ::
      x in after && after[x].bytes == before[x].bytes && after[x].strong == before[x].strong
  }

  ghost predicate NoneExpired(heap: map<nat, Block>, cache: map<(nat, nat), Entry>) {
    forall key | key in cache :: key.0 in heap && heap[key.0].strong > 0
  }

  /** Dropping the expired entries frees exactly the allocations nothing owns. */
  lemma RetainKeeps(heap: map<nat, Block>, cache: map<(nat, nat), Entry>)
    requires Consistent(heap, cache)
    ensures Consistent(Live(heap), LiveEntries(heap, cache))
    ensures KeepsLive(heap, Live(heap)) && NoneExpired(Live(heap), LiveEntries(heap, cache))
  {
    var h, c := Live(heap), LiveEntries(heap, cache);
    forall key | key in c
      ensures EntryOk(h, key, c[key])
    {
      assert EntryOk(heap, key, cache[key]);
    }
    forall a | a in h
      ensures BlockOk(c, a, h[a])
    {
      assert BlockOk(cache, a, heap[a]);
      var key: (nat, nat) := (a, |heap[a].bytes|);
      if key in cache {
        assert EntryOk(heap, key, cache[key]);
      }
    }
  }

  /** A weak reference is taken to the allocation at `a`. */
  function Pinned(heap: map<nat, Block>, a: nat): map<nat, Block>
    requires a in heap
  {
    heap[a := heap[a].(weak := heap[a].weak + 1)]
  }

  function Uploaded(heap: map<nat, Block>, cache: map<(nat, nat), Entry>, a: nat): map<(nat, nat), Entry>
    requires a in heap
  {
    cache[(a, |heap[a].bytes|) := Entry(a, heap[a].bytes)]
  }

  lemma KeepsLiveTrans(a: map<nat, Block>, b: map<nat, Block>, c: map<nat, Block>)
    requires KeepsLive(a, b) && KeepsLive(b, c)
    ensures KeepsLive(a, c)
  {
  }

  /** An uploaded copy of a live, checked, uncached allocation. */
  lemma InsertKeeps(heap: map<nat, Block>, cache: map<(nat, nat), Entry>, a: nat)
    requires Consistent(heap, cache) && NoneExpired(heap, cache) && a in heap && heap[a].strong > 0
    requires (a, |heap[a].bytes|) !in cache && AllFinite(heap[a].bytes)
    ensures Consistent(Pinned(heap, a), Uploaded(heap, cache, a))
    ensures KeepsLive(heap, Pinned(heap, a)) && NoneExpired(Pinned(heap, a), Uploaded(heap, cache, a))
  {
    var key: (nat, nat) := (a, |heap[a].bytes|);
    var h, c := Pinned(heap, a), Uploaded(heap, cache, a);
    forall k | k in c
      ensures EntryOk(h, k, c[k])
    {
      if k != key {
        assert EntryOk(heap, k, cache[k]);
      }
    }
    forall x | x in h
      ensures BlockOk(c, x, h[x])
    {
      assert BlockOk(cache, x, heap[x]);
    }
  }

  /** A free address has no entry: the weak reference kept every cached address taken. */
  lemma NoStaleEntry(heap: map<nat, Block>, cache: map<(nat, nat), Entry>, a: nat)
    requires Consistent(heap, cache) && a !in heap
    ensures forall len: nat :: (a, len) !in cache
  {
    assert forall key | key in cache :: EntryOk(heap, key, cache[key]) && key.0 != a;
  }

  predicate ShapeOk(rows: nat, width: nat, input: nat, bytes: nat) {
    0 < rows <= 0x7FFF_FFFF && 0 < width <= 0x7FFF_FFFF && input == width && bytes == rows * width * 2
  }

  // ---- The back end ---------------------------------------------------------------------------------

  class Backend {
    const matvec: (seq<Byte>, seq<real>) -> seq<real>
    var heap: map<nat, Block>
    var cache: map<(nat, nat), Entry>

    ghost predicate Valid()
      reads this
    {
      Consistent(heap, cache)
    }

    constructor (matvec: (seq<Byte>, seq<real>) -> seq<real>)
      ensures Valid() && heap == map[] && cache == map[] && this.matvec == matvec
    {
      this.matvec, heap, cache := matvec, map[], map[];
    }

    /** A model maps its pages at an address of the allocator's choice: any address not taken, whether or
        not an earlier allocation once lived there. */
    method Allocate(a: nat, bytes: seq<Byte>)
      requires Valid() && a !in heap
      modifies this
      ensures Valid() && cache == old(cache) && heap == old(heap)[a := Block(bytes, 1, 0)]
    {
      NoStaleEntry(heap, cache, a);
      heap := heap[a := Block(bytes, 1, 0)];
      forall key | key in cache
        ensures EntryOk(heap, key, cache[key])
      {
        assert EntryOk(old(heap), key, cache[key]);
      }
      forall x | x in heap
        ensures BlockOk(cache, x, heap[x])
      {
        if x != a {
          assert BlockOk(cache, x, old(heap)[x]);
        }
      }
    }

    method CloneRef(a: nat)
      requires Valid() && a in heap && heap[a].strong > 0
      modifies this
      ensures Valid() && cache == old(cache) && heap == old(heap)[a := old(heap)[a].(strong := old(heap)[a].strong + 1)]
    {
      Recount(a, heap[a].strong + 1);
    }

    /** Dropping the last strong reference frees the address only when no cache entry holds a weak one. */
    method DropRef(a: nat)
      requires Valid() && a in heap && heap[a].strong > 0
      modifies this
      ensures Valid() && cache == old(cache)
      ensures var b := old(heap)[a];
              heap == if b.strong == 1 && b.weak == 0 then old(heap) - {a}
                      else old(heap)[a := b.(strong := b.strong - 1)]
    {
      if heap[a].strong == 1 && heap[a].weak == 0 {
        heap := heap - {a};
        forall key | key in cache
          ensures EntryOk(heap, key, cache[key])
        {
          assert EntryOk(old(heap), key, cache[key]) && BlockOk(cache, a, old(heap)[a]);
        }
        forall x | x in heap
          ensures BlockOk(cache, x, heap[x])
        {
          assert BlockOk(cache, x, old(heap)[x]);
        }
      } else {
        Recount(a, heap[a].strong - 1);
      }
    }

    method Recount(a: nat, strong: nat)
      requires Valid() && a in heap && (strong > 0 || heap[a].weak > 0)
      modifies this
      ensures Valid() && cache == old(cache) && heap == old(heap)[a := old(heap)[a].(strong := strong)]
    {
      heap := heap[a := heap[a].(strong := strong)];
      forall key | key in cache
        ensures EntryOk(heap, key, cache[key])
      {
        assert EntryOk(old(heap), key, cache[key]);
      }
      forall x | x in heap
        ensures BlockOk(cache, x, heap[x])
      {
        assert BlockOk(cache, x, old(heap)[x]);
      }
    }

    /** Drop the expired entries, then look the allocation up, checking and uploading it on a miss; `uploads`
        says whether the device takes the upload. */
    method MakeResident(a: nat, uploads: bool) returns (ok: bool)
      requires Valid() && a in heap && heap[a].strong > 0
      modifies this
      ensures Valid() && KeepsLive(old(heap), heap) && NoneExpired(heap, cache)
      ensures ok == ((a, |old(heap)[a].bytes|) in old(cache) || (AllFinite(old(heap)[a].bytes) && uploads))
      ensures ok ==> a in heap && (a, |heap[a].bytes|) in cache
    {
      ghost var before := heap;
      RetainKeeps(heap, cache);
      assert (a, |heap[a].bytes|) in cache ==> EntryOk(heap, (a, |heap[a].bytes|), cache[(a, |heap[a].bytes|)]);
      heap, cache := Live(heap), LiveEntries(heap, cache);
      if (a, |heap[a].bytes|) !in cache {
        var finite := CheckFinite(heap[a].bytes);
        if !finite || !uploads {
          return false;
        }
        InsertKeeps(heap, cache, a);
        KeepsLiveTrans(before, heap, Pinned(heap, a));
        heap, cache := Pinned(heap, a), Uploaded(heap, cache, a);
      }
      ok := true;
    }

    /** `try_bitnet_f16_head_matvec`. The caller owns the pages. Whatever is cached, the product uses the
        live host bytes, and they have passed the finiteness check; beyond that only the device can refuse: the
        upload of bytes that are not resident, or the launch, which covers the kernel and its output check. */
    method HeadMatvec(a: nat, rows: nat, width: nat, input: seq<real>, inputFinite: bool, uploads: bool, launches: bool)
      returns (r: Option<seq<real>>)
      requires Valid() && a in heap && heap[a].strong > 0
      modifies this
      ensures Valid() && KeepsLive(old(heap), heap)
      ensures r.Some? <==>
              && 1 <= rows <= 2_147_483_647 && 1 <= width <= 2_147_483_647 && |input| == width
              && |old(heap)[a].bytes| == rows * width * 2 && inputFinite
              && AllFinite(old(heap)[a].bytes)
              && ((a, |old(heap)[a].bytes|) in old(cache) || uploads) && launches
      ensures r.Some? ==> r.value == matvec(old(heap)[a].bytes, input) && NoneExpired(heap, cache)
    {
      if !ShapeOk(rows, width, |input|, |heap[a].bytes|) || !inputFinite {
        return None;
      }
      ghost var was: (nat, nat) := (a, |heap[a].bytes|);
      assert was in cache ==> EntryOk(heap, was, cache[was]);
      var resident := MakeResident(a, uploads);
      if !resident || !launches {
        return None;
      }
      var key: (nat, nat) := (a, |heap[a].bytes|);
      assert EntryOk(heap, key, cache[key]);
      r := Some(matvec(cache[key].device, input));
    }
  }
}
