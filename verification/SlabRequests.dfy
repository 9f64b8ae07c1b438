/** What `kmalloc` and `kmem_cache_create` give to the requests they get. */
module SlabRequests {
  import opened Bits
  import opened Options
  import opened ListHead
  import opened SlabLayout
  import opened Zone
  import opened SlabModel
  import opened SlabFrames
  import opened SlabAlloc
  import opened SlabFree
  import opened SlabSystem
  import opened SlabTheorems
  import opened SlabExact
  import opened SlabBoot

  // ----- the sizes kmalloc serves

  /** The sizes of the general caches: the powers of two from 32 to 131072, and 96 and 192. */
  ghost predicate GeneralSize(x: nat) {
    x == 96 || x == 192 || exists m: nat :: 5 <= m <= 17 && x == Pow2(m)
  }

  /** `x` is the least general size that holds `size` bytes. */
  ghost predicate LeastGeneral(size: nat, x: nat) {
    GeneralSize(x) && size <= x && forall y: nat :: GeneralSize(y) && size <= y ==> x <= y
  }

  /** What serving `size` bytes from objects of `x` bytes is to mean. */
  ghost predicate FitsSize(size: nat, x: nat) {
    && LeastGeneral(size, x)
    && (forall m: nat :: 5 <= m <= 17 && size == Pow2(m) ==> x == size)
    && (64 < size <= 96 ==> x == 96) && (128 < size <= 192 ==> x == 192)
    && (32 < size ==> x < 2 * size)
  }

  lemma Powers()
    ensures Pow2(5) == 32 && Pow2(6) == 64 && Pow2(7) == 128 && Pow2(8) == 256 && Pow2(9) == 512 && Pow2(10) == 1024
    ensures Pow2(11) == 2048 && Pow2(12) == 4096 && Pow2(13) == 8192 && Pow2(14) == 16384 && Pow2(15) == 32768
    ensures Pow2(16) == 65536 && Pow2(17) == 131072
  {
    assert Pow2(5) == 32;
    assert Pow2(9) == 512;
    assert Pow2(13) == 8192;
  }

  /** The position of a general size in `malloc_sizes`. */
  lemma GeneralIsListed(y: nat) returns (j: nat)
    requires GeneralSize(y)
    ensures j < |SIZES| && SIZES[j] == y
  {
    Powers();
    hide Pow2;
    if y == 96 { j := 2; }
    else if y == 192 { j := 4; }
    else {
      var m: nat :| 5 <= m <= 17 && y == Pow2(m);
      j := if m <= 6 then m - 5 else if m == 7 then 3 else m - 3;
    }
  }

  lemma ListedIsGeneral(i: nat)
    requires i < |SIZES|
    ensures GeneralSize(SIZES[i])
  {
    Powers();
    hide Pow2;
    if i != 2 && i != 4 {
      var m: nat := if i <= 1 then i + 5 else if i == 3 then 7 else i + 3;
      assert SIZES[i] == Pow2(m);
    }
  }

  /** `malloc_sizes` goes up, and never by more than a factor of two. */
  lemma SizesGoUp(i: nat, j: nat)
    requires i < j < |SIZES|
    ensures SIZES[i] < SIZES[j] && SIZES[i + 1] <= 2 * SIZES[i]
  {
  }

  lemma IndexIsLeast(size: nat)
    requires size <= 131072
    ensures SizeIndex(size, 0) < |SIZES| && LeastGeneral(size, SIZES[SizeIndex(size, 0)])
    ensures 32 < size ==> SIZES[SizeIndex(size, 0)] < 2 * size
  {
    hide GeneralSize, SizeIndex;
    var i := SizeIndex(size, 0);
    assert SIZES[14] == 131072;
    ListedIsGeneral(i);
    forall y: nat | GeneralSize(y) && size <= y ensures SIZES[i] <= y {
      var j := GeneralIsListed(y);
      if i < j { SizesGoUp(i, j); }
    }
    if i > 0 { SizesGoUp(i - 1, i); }
  }

  /** With all general caches there, `kmalloc` allocates from the cache of the least general size: the
      very size for a power of two from 32 on, 96 and 192 for what is just below them, and always less
      than twice what was asked for above 32. Beyond 131072 it refuses. */
  lemma KmallocServes(k: Kernel, table: seq<nat>, size: nat) returns (c: nat)
    requires TableOK(k, table) && |table| == |SIZES| && KInv(k)
    ensures Served(table, size)
    ensures size > 131072 ==> Kmalloc(k, table, size) == (k, NULL)
    ensures size <= 131072 ==>
              && c in k.caches && Kmalloc(k, table, size) == CacheAlloc(k, c)
              && FitsSize(size, k.caches[c].geo.objsize)
  {
    hide KInv, CacheAlloc, SizeIndex, LeastGeneral, Pow2;
    c := CACHE_CACHE;
    var i := SizeIndex(size, 0);
    assert SIZES[14] == 131072;
    if size <= 131072 {
      c := table[i];
      IndexIsLeast(size);
      assert GeneralCache(k, table[i], SIZES[i]);
      LeastOfGiven(size, SIZES[i]);
    }
  }

  lemma LeastOfGiven(size: nat, x: nat)
    requires LeastGeneral(size, x)
    ensures forall m: nat :: 5 <= m <= 17 && size == Pow2(m) ==> x == size
    ensures (64 < size <= 96 ==> x == 96) && (128 < size <= 192 ==> x == 192)
  {
    Powers();
    hide Pow2;
    assert GeneralSize(96) && GeneralSize(192);
    var j := GeneralIsListed(x);
    if m: nat :| 5 <= m <= 17 && size == Pow2(m) { assert GeneralSize(size); }
  }

  /** So it is after initialisation and any run, if a single page was free to begin with. */
  lemma BootedKmallocServes(z: Zone, lru: seq<Links>, first: seq<nat>, ops: seq<Op>, size: nat) returns (c: nat)
    requires CleanStart(z, lru, first) && CanServe(z, 0)
    requires AllowedRun(Boot(z, lru, first).0, Boot(z, lru, first).1, ops)
    ensures var table := Boot(z, lru, first).1;
            var k := Run(Boot(z, lru, first).0, table, ops);
            && Good(k, table) && Served(table, size)
            && (size > 131072 ==> Kmalloc(k, table, size) == (k, NULL))
            && (size <= 131072 ==>
                  && c in k.caches && Kmalloc(k, table, size) == CacheAlloc(k, c)
                  && FitsSize(size, k.caches[c].geo.objsize))
  {
    hide Boot, CleanStart, KInv, Run, AllowedRun, TableOK, Settled, CanServe, DescriptorsReady, CacheAlloc, Kmalloc,
         FitsSize, Served;
    BootSucceeds(z, lru, first);
    var table := Boot(z, lru, first).1;
    c := KmallocServes(Run(Boot(z, lru, first).0, table, ops), table, size);
  }

  // ----- what a creation holds

  lemma QuietHolds(k: Kernel, k': Kernel, cs: set<nat>, a: nat)
    requires Quiet(k, k', cs)
    ensures Held(k', a) <==> Held(k, a)
  {
    hide IsObject;
    if Held(k', a) { var t: nat :| Holds(k', t, a); assert Holds(k, t, a); }
    if Held(k, a) { var t: nat :| Holds(k, t, a); assert Holds(k', t, a); }
  }

  lemma InsertCacheHolds(k: Kernel, id: nat, g: Geometry, slabp: nat, a: nat)
    requires id !in k.caches && KInv(k)
    ensures Held(InsertCache(k, id, g, slabp), a) <==> Held(k, a)
  {
    hide KInv, IsObject;
    var k' := InsertCache(k, id, g, slabp);
    if Held(k', a) {
      var t: nat :| Holds(k', t, a);
      HomesHaveCaches(k, t);
      assert Holds(k, t, a);
    }
    if Held(k, a) { var t: nat :| Holds(k, t, a); assert Holds(k', t, a); }
  }

  lemma HomesHaveCaches(k: Kernel, t: nat)
    requires KInv(k) && t in k.homes
    ensures k.homes[t].cache in k.caches
  {
    hide PagesOK, FlagsOK, CachesOK, PlacedSlab, ChainOK, PointsBack, HeldFrom;
    assert SlabOK(k, t);
  }

  lemma FreeHolds(k: Kernel, id: nat, a: nat)
    requires CanFree(k, CACHE_CACHE, id)
    requires KInv(k)
    ensures Held(CacheFree(k, CACHE_CACHE, id), a) <==> Held(k, a) && a != id
  {
    hide KInv, CacheFree, Holds, CanFree, Mapped, VirtToSlab, Surplus;
    CanFreeParts(k, CACHE_CACHE, id);
    CacheCacheIsOnSlab(k);
    var k' := CacheFree(k, CACHE_CACHE, id);
    if Held(k', a) { var t: nat :| Holds(k', t, a); FreeReleasesExactly(k, CACHE_CACHE, id, t, a); }
    if Held(k, a) { var t: nat :| Holds(k, t, a); FreeReleasesExactly(k, CACHE_CACHE, id, t, a); }
  }

  lemma AllocHolds(k: Kernel, a: nat)
    requires CACHE_CACHE in k.caches && KInv(k)
    ensures var (k1, id) := CacheAlloc(k, CACHE_CACHE);
            && (Held(k1, a) <==> Held(k, a) || (id != NULL && a == id)) && (id != NULL ==> !Held(k, id))
  {
    hide KInv, CacheAlloc, Held, Extends, NewSlabsOnNewPages, Settles, HeldFrom, Quiet;
    CacheCacheIsOnSlab(k);
    var (k1, id) := CacheAlloc(k, CACHE_CACHE);
    assert Allocated(k, CACHE_CACHE, k1, id);
    if id == NULL { QuietHolds(k, k1, Touched(k, CACHE_CACHE), a); } else { AllocHoldsExactly(k, CACHE_CACHE, a); }
  }

  /** A creation that succeeds holds the new descriptor besides what was held; one that fails, for want
      of memory or because no slab is large enough, holds exactly what was held and adds no cache. */
  lemma CreateHoldsExactly(k: Kernel, size: nat, align: nat, off: bool, a: nat)
    requires CreateAllowed(k, size, align, off) && KInv(k)
    ensures var (k', id) := Create(k, size, align, off);
            && (Held(k', a) <==> Held(k, a) || id == Some(a))
            && k'.caches.Keys == k.caches.Keys + (if id.Some? then {id.value} else {})
            && (id.Some? ==> id.value !in k.caches && !Held(k, id.value))
  {
    hide KInv, CacheAlloc, CacheFree, Allocated, MakeGeometry, GoodAlign, CanFree, CanAddCache, DescriptorsReady, Held,
         InsertCache;
    var (k1, id) := CacheAlloc(k, CACHE_CACHE);
    AllocHolds(k, a);
    AllocatedInv(k, CACHE_CACHE, k1, id);
    AllocatedKeys(k, CACHE_CACHE, k1, id);
    if id != NULL {
      match MakeGeometry(size, align, off) {
        case None =>
          CanFreeAgain(k, k1, id);
          FreeHolds(k1, id, a);
          FreeKeepsKeys(k1, id);
        case Some(g) =>
          CreateCanAdd(k, size, align, off, k1, id);
          NewCacheIsNew(k1, id, g, k1.caches[CACHE_CACHE].slabpCache);
          InsertCacheHolds(k1, id, g, k1.caches[CACHE_CACHE].slabpCache, a);
          InsertedKeys(k1, id, g, k1.caches[CACHE_CACHE].slabpCache);
      }
    }
  }

  lemma InsertedKeys(k: Kernel, id: nat, g: Geometry, slabp: nat)
    ensures InsertCache(k, id, g, slabp).caches.Keys == k.caches.Keys + {id}
  {
  }

  lemma FreeKeepsKeys(k: Kernel, id: nat)
    requires CanFree(k, CACHE_CACHE, id)
    requires KInv(k)
    ensures CacheFree(k, CACHE_CACHE, id).caches.Keys == k.caches.Keys
  {
    hide KInv, CacheFree, Shrinks, Released, GivesBack, Freeable, Mapped, VirtToSlab;
    ShrinkFacts(k, CacheFree(k, CACHE_CACHE, id), Touched(k, CACHE_CACHE), Released(k, CACHE_CACHE, id));
  }
}
