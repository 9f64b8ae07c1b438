/** Bootstrapping the slab allocator: `cache_cache`, the descriptor cache, the general caches. */
module SlabBoot {
  import opened Bits
  import opened Blocks
  import opened PageAddr
  import opened PageFlags
  import opened SlabLayout
  import opened Zone
  import opened ZoneTheorems
  import opened ZoneInit
  import opened ListHead
  import opened ZoneLinks
  import opened SlabModel
  import opened SlabGrow
  import opened SlabFrames
  import opened SlabAlloc
  import opened SlabFree
  import opened SlabSystem
  import opened SlabTheorems

  /** `KMALLOC_MINALIGN` */
  const MIN_ALIGN: nat := 8

  lemma GoodMinAlign()
    ensures GoodAlign(MIN_ALIGN) && GoodAlign(CACHE_LINE)
  {
    assert Pow2(3) == 8 && Pow2(5) == 32 by { Pow2Sum(2, 3); }
  }

  // ----- the page a destroyed off-slab slab gives back

  /** `slab_destroy` of an off-slab slab frees its first page exactly when the colour offset is
      under a page. */
  lemma OffSlabPageIff(g: Geometry, base: nat, offset: nat, inuse: nat, head: nat)
    requires g.offSlab && base + offset / PAGE_SIZE < DIRECT_PAGES
    ensures DestroyedPage(g, Slab(offset, PageAddress(base) + offset, inuse, head)) == base <==> offset < PAGE_SIZE
  {
    FirstPageIff(base, offset);
  }

  /** A cache only ever uses such offsets exactly when its geometry is page-safe. */
  lemma PageSafeIff(g: Geometry)
    requires g.offSlab
    ensures PageSafe(g) <==> forall c: nat :: ColourInRange(g, c) ==> ColourOffset(g, c) < PAGE_SIZE
  {
    hide ColourOffset, MaxOffset;
    forall c: nat | ColourInRange(g, c) ensures ColourOffset(g, c) <= MaxOffset(g) { OffsetInRange(g, c); }
    var last: nat := if g.colour == 0 then 0 else g.colour - 1;
    assert ColourInRange(g, last) && ColourOffset(g, last) == MaxOffset(g) by { LastColour(g); }
  }

  lemma LastColour(g: Geometry)
    ensures var last: nat := if g.colour == 0 then 0 else g.colour - 1;
            ColourInRange(g, last) && ColourOffset(g, last) == MaxOffset(g)
  {
  }

  /** The slab of an off-slab cache on the block at `base`, with colour `c`. */
  function ColouredSlab(g: Geometry, base: nat, c: nat): Slab {
    Slab(ColourOffset(g, c), PageAddress(base) + ColourOffset(g, c), 0, NULL)
  }

  /** Destruction gives back the right pages for every colour exactly when the geometry is
      page-safe. */
  lemma PagesGoBackExactly(g: Geometry, base: nat)
    requires g.offSlab && base + MaxOffset(g) / PAGE_SIZE < DIRECT_PAGES
    ensures (forall c: nat :: ColourInRange(g, c) ==> DestroyedPage(g, ColouredSlab(g, base, c)) == base)
            <==> PageSafe(g)
  {
    hide ColourOffset, MaxOffset, PageSafe, PageAddress, DestroyedPage;
    PageSafeIff(g);
    forall c: nat | ColourInRange(g, c)
      ensures DestroyedPage(g, ColouredSlab(g, base, c)) == base <==> ColourOffset(g, c) < PAGE_SIZE
    {
      OffsetInRange(g, c);
      QuotientMonotone(ColourOffset(g, c), MaxOffset(g));
      OffSlabPageIff(g, base, ColourOffset(g, c), 0, NULL);
    }
  }

  lemma QuotientMonotone(x: nat, y: nat)
    requires x <= y
    ensures x / PAGE_SIZE <= y / PAGE_SIZE
  {
  }

  lemma AlignUpExact(x: nat, a: nat)
    requires a > 0 && x % a == 0
    ensures AlignUp(x, a) == x
  {
    var q := x / a;
    assert x == a * q;
    QuotientIsUnique(x + a - 1, a, q, a - 1);
  }

  /** The general caches' geometry in terms of the chosen order and its estimate. */
  lemma GeometryFrom(size: nat)
    requires size > 0 && size % MIN_ALIGN == 0 && GoodAlign(MIN_ALIGN)
    ensures var order := SlabOrder(size, MIN_ALIGN, true, 0);
            order <= MAX_SLAB_ORDER ==>
              && MakeGeometry(size, MIN_ALIGN, true).Some?
              && var g := MakeGeometry(size, MIN_ALIGN, true).value;
                 && g.offSlab && g.objsize == size && g.order == order && g.colourOff == CACHE_LINE
                 && g.num == CacheEstimate(order, size, MIN_ALIGN, true).0
                 && g.colour == CacheEstimate(order, size, MIN_ALIGN, true).1 / CACHE_LINE
  {
    AlignUpExact(size, 4);
    AlignUpExact(size, 8);
    hide AlignUp, SlabOrder, CacheEstimate, GoodAlign, SlabBytes;
  }

  lemma UnsafeOrder()
    ensures SlabOrder(8200, 8, true, 0) == 2 && CacheEstimate(2, 8200, 8, true) == (1, 8184)
  {
    assert SlabBytes(0) == 4096 && SlabBytes(1) == 8192 && SlabBytes(2) == 16384;
    assert CacheEstimate(0, 8200, 8, true).0 == 0;
    assert CacheEstimate(1, 8200, 8, true).0 == 0;
    assert CacheEstimate(2, 8200, 8, true) == (1, 8184);
    hide CacheEstimate, SlabBytes;
    assert SlabOrder(8200, 8, true, 2) == 2;
    assert SlabOrder(8200, 8, true, 1) == 2;
  }

  /** An off-slab cache for 8200-byte objects is not page-safe: its slabs of four pages leave 8184
      bytes for colouring. */
  lemma UnsafeCache()
    ensures GoodAlign(MIN_ALIGN) && MakeGeometry(8200, MIN_ALIGN, true).Some?
    ensures !PageSafe(MakeGeometry(8200, MIN_ALIGN, true).value)
  {
    hide GoodAlign, SlabOrder, CacheEstimate, MakeGeometry;
    GoodMinAlign();
    UnsafeOrder();
    GeometryFrom(8200);
  }

  // ----- the size table is safe

  lemma SmallSizeIsSafe(size: nat)
    requires 0 < size <= PAGE_SIZE && size % MIN_ALIGN == 0
    ensures GoodAlign(MIN_ALIGN) && MakeGeometry(size, MIN_ALIGN, true).Some?
    ensures PageSafe(MakeGeometry(size, MIN_ALIGN, true).value)
    ensures MakeGeometry(size, MIN_ALIGN, true).value.objsize == size
  {
    hide AlignUp, GoodAlign, MakeGeometry;
    GoodMinAlign();
    AlignUpExact(size, 4);
    AlignUpExact(size, 8);
    CreationFits(size, MIN_ALIGN, true);
    assert !TooSmall(0, ObjectSize(size, MIN_ALIGN), MIN_ALIGN, true);
    SmallObjectsArePageSafe(size, MIN_ALIGN);
  }

  lemma PagesEstimate(j: nat, m: nat)
    requires j <= m
    ensures var size := PAGE_SIZE * Pow2(m);
            CacheEstimate(j, size, MIN_ALIGN, true) == if j == m then (1, 0) else (0, PAGE_SIZE * Pow2(j))
  {
    var size := PAGE_SIZE * Pow2(m);
    Pow2Monotone(j, m);
    if j == m {
      QuotientIsUnique(size, size, 1, 0);
    } else {
      QuotientIsUnique(PAGE_SIZE * Pow2(j), size, 0, PAGE_SIZE * Pow2(j));
    }
  }

  lemma {:induction false} PagesOrder(from: nat, m: nat)
    requires from <= m <= MAX_SLAB_ORDER
    ensures SlabOrder(PAGE_SIZE * Pow2(m), MIN_ALIGN, true, from) == m
    decreases m - from
  {
    hide CacheEstimate;
    PagesEstimate(from, m);
    if from == m {
    } else {
      PagesOrder(from + 1, m);
    }
  }

  lemma WholePagesAreSafe(m: nat)
    requires m <= MAX_SLAB_ORDER
    ensures GoodAlign(MIN_ALIGN) && MakeGeometry(PAGE_SIZE * Pow2(m), MIN_ALIGN, true).Some?
    ensures var g := MakeGeometry(PAGE_SIZE * Pow2(m), MIN_ALIGN, true).value;
            PageSafe(g) && g.objsize == PAGE_SIZE * Pow2(m)
  {
    hide GoodAlign, SlabOrder, CacheEstimate, Pow2, MakeGeometry;
    GoodMinAlign();
    PagesOrder(0, m);
    PagesEstimate(m, m);
    GeometryFrom(PAGE_SIZE * Pow2(m));
  }

  lemma SmallPowers()
    ensures Pow2(1) == 2 && Pow2(2) == 4 && Pow2(3) == 8 && Pow2(4) == 16 && Pow2(5) == 32
  {
    assert Pow2(1) == 2;
    assert Pow2(2) == 4;
    assert Pow2(3) == 8;
    assert Pow2(4) == 16;
  }

  /** Every general cache's geometry exists and is page-safe. */
  lemma TableIsSafe(i: nat)
    requires i < |SIZES|
    ensures GoodAlign(MIN_ALIGN) && SIZES[i] > 0 && MakeGeometry(SIZES[i], MIN_ALIGN, true).Some?
    ensures var g := MakeGeometry(SIZES[i], MIN_ALIGN, true).value; PageSafe(g) && g.objsize == SIZES[i]
  {
    hide MakeGeometry, GoodAlign, PageSafe;
    if i <= 9 {
      SmallSizeIsSafe(SIZES[i]);
    } else {
      SmallPowers();
      assert i == 10 || i == 11 || i == 12 || i == 13 || i == 14;
      WholePagesAreSafe(i - 9);
    }
  }

  // ----- the first two caches

  /** `sizeof(kmem_cache_t)` */
  const KMEM_CACHE_T: nat := 104

  lemma CacheCacheOrder()
    ensures ObjectSize(KMEM_CACHE_T, CACHE_LINE) == 128
    ensures SlabOrder(128, CACHE_LINE, false, 0) == 0 && CacheEstimate(0, 128, CACHE_LINE, false) == (31, 96)
  {
    assert AlignUp(KMEM_CACHE_T, 4) == 104 && AlignUp(104, 32) == 128 && AlignUp(SLAB_T, 32) == 32;
    assert CacheEstimate(0, 128, 32, false) == (31, 96) by { assert SlabBytes(0) == 4096; }
    assert SlabOrder(128, 32, false, 0) == 0;
  }

  /** The cache of cache descriptors holds 31 of them, of 128 bytes each, in one page, in three colours. */
  lemma CacheCacheGeometry()
    ensures GoodAlign(CACHE_LINE) && MakeGeometry(KMEM_CACHE_T, CACHE_LINE, false).Some?
    ensures var g := MakeGeometry(KMEM_CACHE_T, CACHE_LINE, false).value;
            && !g.offSlab && g.order == 0 && g.num == 31 && g.objsize == 128 && g.colour == 3
            && GoodGeometry(g) && PageSafe(g)
  {
    hide GoodAlign, GoodGeometry, SlabOrder, CacheEstimate, ObjectSize, SlabBytes;
    GoodMinAlign();
    CacheCacheOrder();
    CreationFits(KMEM_CACHE_T, CACHE_LINE, false);
  }

  lemma DescriptorOrder()
    ensures ObjectSize(SLAB_T, MIN_ALIGN) == 32 && SlabOrder(32, MIN_ALIGN, false, 0) == 0
    ensures CacheEstimate(0, 32, MIN_ALIGN, false) == (127, 0)
  {
    assert AlignUp(SLAB_T, 4) == 28 && AlignUp(28, 8) == 32 && AlignUp(SLAB_T, 8) == 32;
    assert CacheEstimate(0, 32, 8, false) == (127, 0) by { assert SlabBytes(0) == 4096; }
  }

  /** An object of the descriptor cache holds a slab descriptor; there are 127 to a page. */
  lemma DescriptorGeometry()
    ensures GoodAlign(MIN_ALIGN) && MakeGeometry(SLAB_T, MIN_ALIGN, false).Some?
    ensures var g := MakeGeometry(SLAB_T, MIN_ALIGN, false).value;
            !g.offSlab && SLAB_T <= g.objsize == 32 && g.order == 0 && g.num == 127
  {
    hide GoodAlign, SlabOrder, CacheEstimate, ObjectSize, SlabBytes;
    GoodMinAlign();
    DescriptorOrder();
    CreationFits(SLAB_T, MIN_ALIGN, false);
  }

  // ----- the state kmem_cache_init starts from

  ghost function FirstCache(): Cache {
    CacheCacheGeometry();
    NewCache(MakeGeometry(KMEM_CACHE_T, CACHE_LINE, false).value, NULL)
  }

  /** Only the static cache of cache descriptors exists, and it is empty. */
  ghost function InitialKernel(z: Zone, lru: seq<Links>, first: seq<nat>): Kernel {
    Kernel(z, lru, first, map[CACHE_CACHE := FirstCache()], map[], map[], map[], map[], {})
  }

  ghost predicate CleanStart(z: Zone, lru: seq<Links>, first: seq<nat>) {
    Inv(z, map[]) && LinksMatch(z, lru) && |first| == |z.pages| <= DIRECT_PAGES && FreeClean(z)
  }

  lemma InitialCaches(k: Kernel)
    requires k.caches == map[CACHE_CACHE := FirstCache()] && k.homes == map[]
    ensures CachesOK(k)
  {
    hide GoodGeometry, PageSafe, MakeGeometry, FreeCount;
    CacheCacheGeometry();
    EmptyCountsNothing(k.slabs, k.caches[CACHE_CACHE].geo.num);
  }

  lemma InitialIsGood(z: Zone, lru: seq<Links>, first: seq<nat>)
    requires CleanStart(z, lru, first)
    ensures KInv(InitialKernel(z, lru, first)) && Settled(InitialKernel(z, lru, first))
  {
    hide Inv, LinksMatch, FreeClean, CachesOK, FirstCache;
    InitialCaches(InitialKernel(z, lru, first));
  }

  /** A zone just initialised from page flags that are clear but for TAKEN and RESERVED is a clean
      start. */
  lemma InitIsClean(z: Zone, lru: seq<Links>, first: seq<nat>)
    requires Fresh(z) && forall q :: 0 <= q < |z.pages| && !Blocked(z, q) ==> z.pages[q].flags == NO_FLAGS
    requires LinksMatch(Scan(z, 0), lru) && |first| == |z.pages| <= DIRECT_PAGES
    ensures CleanStart(Scan(z, 0), lru, first)
  {
    hide Inv, LinksMatch, Fresh, Scan, FreeMap;
    InitTiles(z);
    var y := Scan(z, 0);
    forall q: nat | Covered(FreeMap(y), q) ensures FlagsAre(y, q, NO_FLAGS) {
      if q < |y.pages| {
        assert q in FreeSet(y);
        assert q in Usable(z);
      }
    }
  }

  // ----- naming the descriptor cache

  /** `cachep->slabp_cache = ...` in `kmem_cache_init` */
  function NameDescriptors(k: Kernel, d: nat): Kernel
    requires CACHE_CACHE in k.caches
  {
    k.(caches := k.caches[CACHE_CACHE := k.caches[CACHE_CACHE].(slabpCache := d)])
  }

  lemma NamingHeld(k: Kernel, d: nat, c: nat, a: nat)
    requires CACHE_CACHE in k.caches
    ensures HeldFrom(k, c, a) <==> HeldFrom(NameDescriptors(k, d), c, a)
  {
    hide IsObject;
    var k' := NameDescriptors(k, d);
    if HeldFrom(k, c, a) { var t :| Holds(k, t, a) && k.homes[t].cache == c; assert Holds(k', t, a); }
    if HeldFrom(k', c, a) { var t :| Holds(k', t, a) && k'.homes[t].cache == c; assert Holds(k, t, a); }
  }

  lemma NamingSlabs(k: Kernel, d: nat)
    requires CACHE_CACHE in k.caches && !k.caches[CACHE_CACHE].geo.offSlab && SlabsOK(k)
    ensures SlabsOK(NameDescriptors(k, d))
  {
    hide PlacedSlab, ChainOK, PointsBack, IsBlock, HeldFrom;
    var k' := NameDescriptors(k, d);
    forall c, a ensures HeldFrom(k, c, a) <==> HeldFrom(k', c, a) { NamingHeld(k, d, c, a); }
  }

  lemma NamingCaches(k: Kernel, d: nat)
    requires CachesOK(k)
    ensures CachesOK(NameDescriptors(k, d))
  {
    hide GoodGeometry, PageSafe, OnList, AllListed, FreeCount, HeldFrom;
    var k' := NameDescriptors(k, d);
    forall c, a ensures HeldFrom(k, c, a) <==> HeldFrom(k', c, a) { NamingHeld(k, d, c, a); }
    forall c | c in k'.caches ensures CacheOK(k'.caches, c) { assert CacheOK(k.caches, c); }
    forall c | c in k'.caches ensures ListsOK(k'.caches[c], c, k'.homes, k'.slabs) {
      assert ListsOK(k.caches[c], c, k.homes, k.slabs);
      hide ListsOK;
      if c == CACHE_CACHE { ListsIgnoreName(k.caches[c], c, k.homes, k.slabs, d); }
    }
  }

  lemma ListsIgnoreName(cc: Cache, c: nat, homes: map<nat, Home>, slabs: map<nat, Slab>, d: nat)
    requires ListsOK(cc, c, homes, slabs)
    ensures ListsOK(cc.(slabpCache := d), c, homes, slabs)
  {
    hide OnList, FreeCount;
  }

  lemma NamingKeepsInv(k: Kernel, d: nat)
    requires CACHE_CACHE in k.caches && !k.caches[CACHE_CACHE].geo.offSlab && KInv(k) && Settled(k)
    ensures KInv(NameDescriptors(k, d)) && Settled(NameDescriptors(k, d))
  {
    hide CachesOK, SlabsOK, Inv, LinksMatch, FreeClean, LiveFlags;
    NamingCaches(k, d);
    NamingSlabs(k, d);
  }

  // ----- the stock of an on-slab cache

  lemma TakeStock(k: Kernel, c: nat, k1: Kernel, fromFree: bool)
    requires c in k.caches && c in k1.caches
    requires if fromFree then k1.caches[c].free != [] else k1.caches[c].partial != []
    requires Extends(k, k1, Touched(k, c)) && NewSlabsOnNewPages(k, k1) && Settles(k, k1, {}) && KInv(k1)
    ensures var k' := TakeNext(k, c, k1, fromFree).0;
            c in k'.caches && k'.caches[c].freeObjects == k1.caches[c].freeObjects - 1
  {
    hide KInv, Allocated, Extends, NewSlabsOnNewPages, Touched, Settles;
    TakeCompletes(k, c, k1, if fromFree then k1.caches[c].free[0] else k1.caches[c].partial[0], fromFree);
  }

  lemma GrowStock(k: Kernel, c: nat)
    requires c in k.caches && !k.caches[c].geo.offSlab && k.caches[c].free == [] && KInv(k)
    ensures var (k1, ok) := CacheGrow(k, c);
            ok ==> c in k1.caches && k1.caches[c].freeObjects == k.caches[c].freeObjects + k.caches[c].geo.num
  {
    hide KInv, Grew, GrowPages, InsertSlab, NextOffset, PageAddress;
    GrowPagesKeepsInv(k, c);
    var (k1, r) := GrowPages(k, c);
    if r.Some? {
      OnSlabCanInsert(k, c, k1, r.value);
      InsertFacts(k1, c, PageAddress(r.value) + NextOffset(k.caches[c]), r.value, NextOffset(k.caches[c]));
    }
  }

  function Restocked(cc: Cache): int { if cc.freeObjects == 0 then cc.geo.num else cc.freeObjects }

  /** An allocation takes one from the stock, after a slab's worth has been added to an empty one. */
  lemma AllocStock(k: Kernel, c: nat)
    requires c in k.caches && !k.caches[c].geo.offSlab && KInv(k)
    ensures var (k', obj) := CacheAlloc(k, c);
            obj != NULL ==> c in k'.caches && k'.caches[c].freeObjects == Restocked(k.caches[c]) - 1
  {
    hide KInv, Allocated, CacheAlloc, CacheGrow, TakeNext, Extends, NewSlabsOnNewPages, Touched, Settles;
    AllocUnfolds(k, c);
    StockMeansRoom(k, c);
    if k.caches[c].partial != [] { TakeStock(k, c, k, false); }
    else if k.caches[c].free != [] { TakeStock(k, c, k, true); }
    else {
      GrowStock(k, c);
      if CacheGrow(k, c).1 { TakeStock(k, c, CacheGrow(k, c).0, true); }
    }
  }

  /** No slab, no object in stock, the first colour next, descriptors from `slabp`. */
  predicate StartsEmpty(cc: Cache, g: Geometry, slabp: nat) {
    && cc.geo == g && cc.slabpCache == slabp && cc.colourNext == 0 && cc.freeObjects == 0
    && cc.partial == cc.full == cc.free == []
  }

  /** Creation succeeds when a descriptor can be had; it adds the cache with its geometry, empty and at
      its first colour, and leaves what the others are. */
  lemma CreateSucceeds(k: Kernel, size: nat, align: nat, off: bool)
    requires CreateAllowed(k, size, align, off) && MakeGeometry(size, align, off).Some? && KInv(k)
    requires !k.caches[CACHE_CACHE].geo.offSlab
    requires k.caches[CACHE_CACHE].freeObjects > 0 || CanServe(k.zone, k.caches[CACHE_CACHE].geo.order)
    ensures var (k', id) := Create(k, size, align, off);
            && id.Some? && id.value in k'.caches && id.value !in k.caches
            && StartsEmpty(k'.caches[id.value], MakeGeometry(size, align, off).value, k.caches[CACHE_CACHE].slabpCache)
            && (forall d :: d in k.caches ==> d in k'.caches && SameBasics(k.caches[d], k'.caches[d]))
            && k'.caches[CACHE_CACHE].freeObjects == Restocked(k.caches[CACHE_CACHE]) - 1
  {
    hide KInv, Allocated, MakeGeometry, GoodAlign, CacheAlloc, CanServe, PageSafe, DescriptorsReady, CanAddCache;
    AllocStock(k, CACHE_CACHE);
    OnSlabAllocFailsExactly(k, CACHE_CACHE);
    var (k1, id) := CacheAlloc(k, CACHE_CACHE);
    AllocatedKeys(k, CACHE_CACHE, k1, id);
    CreateCanAdd(k, size, align, off, k1, id);
    NewCacheIsNew(k1, id, MakeGeometry(size, align, off).value, k1.caches[CACHE_CACHE].slabpCache);
  }

  lemma NewCacheIsNew(k: Kernel, id: nat, g: Geometry, slabp: nat)
    requires CanAddCache(k, id, g, slabp)
    ensures id !in k.caches
  {
  }

  // ----- kmem_cache_init

  /** What the loop over the sizes keeps. */
  ghost predicate Booting(k: Kernel, table: seq<nat>) {
    && CACHE_CACHE in k.caches && !k.caches[CACHE_CACHE].geo.offSlab && k.caches[CACHE_CACHE].geo.order == 0
    && DescriptorsReady(k) && TableOK(k, table) && Settled(k) && KInv(k)
  }

  lemma SizeAllowed(k: Kernel, i: nat)
    requires i < |SIZES| && DescriptorsReady(k)
    ensures CreateAllowed(k, SIZES[i], MIN_ALIGN, true)
  {
    hide MakeGeometry, GoodAlign, PageSafe;
    TableIsSafe(i);
  }

  lemma CreateSettles(k: Kernel, size: nat, align: nat, off: bool)
    requires CreateAllowed(k, size, align, off) && Settled(k) && KInv(k)
    ensures Settled(Create(k, size, align, off).0)
  {
    hide KInv, Allocated, Settled, MakeGeometry, GoodAlign, CacheAlloc, CacheFree, CanFree, CanAddCache, PageSafe,
         DescriptorsReady;
    var (k1, id) := CacheAlloc(k, CACHE_CACHE);
    AllocSettles(k, CACHE_CACHE, k1, id);
    AllocatedInv(k, CACHE_CACHE, k1, id);
    if id != NULL {
      match MakeGeometry(size, align, off) {
        case None =>
          CanFreeAgain(k, k1, id);
          FreedSettles(k1, CACHE_CACHE, id);
        case Some(g) =>
          CreateCanAdd(k, size, align, off, k1, id);
          SameHomesSettled(k1, InsertCache(k1, id, g, k1.caches[CACHE_CACHE].slabpCache));
      }
    }
  }

  lemma SameHomesSettled(k: Kernel, k': Kernel)
    requires Settled(k) && k'.marked == k.marked && k'.homes == k.homes
    ensures Settled(k')
  {
  }

  lemma FreedSettles(k: Kernel, c: nat, a: nat)
    requires CanFree(k, c, a)
    requires Settled(k) && KInv(k)
    ensures Settled(CacheFree(k, c, a))
  {
    hide KInv, Shrinks, CacheFree, Settled, GivesBack, Released, Mapped, VirtToSlab, Freeable;
    var k' := CacheFree(k, c, a);
    MarkedAreLive(k');
    FreeSettles(k, k', Touched(k, c), Released(k, c, a));
  }

  /** Creating a cache changes nothing of what the others are. */
  lemma CreateKeepsOthers(k: Kernel, size: nat, align: nat, off: bool)
    requires CreateAllowed(k, size, align, off) && MakeGeometry(size, align, off).Some? && KInv(k)
    ensures var (k', id) := Create(k, size, align, off);
            && (forall d :: d in k.caches ==> d in k'.caches && SameBasics(k.caches[d], k'.caches[d]))
            && (id.Some? ==> id.value in k'.caches && id.value !in k.caches
                             && k'.caches[id.value].geo == MakeGeometry(size, align, off).value)
  {
    hide KInv, Allocated, MakeGeometry, GoodAlign, CacheAlloc, PageSafe, DescriptorsReady, CanAddCache;
    var (k1, id) := CacheAlloc(k, CACHE_CACHE);
    AllocatedKeys(k, CACHE_CACHE, k1, id);
    if id != NULL {
      CreateCanAdd(k, size, align, off, k1, id);
      NewCacheIsNew(k1, id, MakeGeometry(size, align, off).value, k1.caches[CACHE_CACHE].slabpCache);
    }
  }

  lemma OthersStayReady(k: Kernel, k': Kernel, table: seq<nat>)
    requires CACHE_CACHE in k.caches && DescriptorsReady(k) && TableOK(k, table)
    requires forall d :: d in k.caches ==> d in k'.caches && SameBasics(k.caches[d], k'.caches[d])
    ensures DescriptorsReady(k') && TableOK(k', table) && k'.caches[CACHE_CACHE].geo == k.caches[CACHE_CACHE].geo
  {
    hide TableOK;
    TableStays(k, k', table);
  }

  lemma BootStep(k: Kernel, table: seq<nat>)
    requires |table| < |SIZES| && CreateAllowed(k, SIZES[|table|], MIN_ALIGN, true) && Booting(k, table)
    ensures var (k', id) := Create(k, SIZES[|table|], MIN_ALIGN, true);
            Booting(k', if id.Some? then table + [id.value] else table)
  {
    hide KInv, MakeGeometry, GoodAlign, PageSafe, Create, CreateAllowed, Settled, DescriptorsReady, SameBasics;
    TableIsSafe(|table|);
    CreateSettles(k, SIZES[|table|], MIN_ALIGN, true);
    CreateKeepsOthers(k, SIZES[|table|], MIN_ALIGN, true);
    var (k', id) := Create(k, SIZES[|table|], MIN_ALIGN, true);
    OthersStayReady(k, k', table);
    if id.Some? { TableGrows(k', table, id.value); }
  }

  lemma TableGrows(k: Kernel, table: seq<nat>, c: nat)
    requires |table| < |SIZES| && TableOK(k, table) && GeneralCache(k, c, SIZES[|table|])
    ensures TableOK(k, table + [c])
  {
    hide GeneralCache;
  }

  /** The loop that creates the general caches; it stops at the first failure. */
  ghost function FillTable(k: Kernel, table: seq<nat>): (r: (Kernel, seq<nat>))
    requires Booting(k, table)
    ensures Booting(r.0, r.1)
    decreases |SIZES| - |table|
  {
    hide KInv, MakeGeometry, GoodAlign, PageSafe, Create, CreateAllowed, Settled, DescriptorsReady;
    if |table| == |SIZES| then (k, table)
    else
      SizeAllowed(k, |table|);
      BootStep(k, table);
      var (k1, id) := Create(k, SIZES[|table|], MIN_ALIGN, true);
      if id.None? then (k1, table) else FillTable(k1, table + [id.value])
  }

  /** With enough cache descriptors in stock no creation in the loop fails. */
  lemma {:induction false} FillTableSucceeds(k: Kernel, table: seq<nat>)
    requires Booting(k, table) && k.caches[CACHE_CACHE].freeObjects >= |SIZES| - |table|
    ensures var (k', t) := FillTable(k, table);
            && |t| == |SIZES|
            && k'.caches[CACHE_CACHE].freeObjects == k.caches[CACHE_CACHE].freeObjects - (|SIZES| - |table|)
    decreases |SIZES| - |table|
  {
    hide KInv, MakeGeometry, GoodAlign, PageSafe, Create, CreateAllowed, Settled, DescriptorsReady, TableOK, CanServe;
    TableLength(k, table);
    if |table| == |SIZES| {
    } else {
      SizeAllowed(k, |table|);
      TableIsSafe(|table|);
      BootStep(k, table);
      CreateSucceeds(k, SIZES[|table|], MIN_ALIGN, true);
      var (k1, id) := Create(k, SIZES[|table|], MIN_ALIGN, true);
      FillTableSucceeds(k1, table + [id.value]);
    }
  }

  lemma TableLength(k: Kernel, table: seq<nat>)
    requires TableOK(k, table)
    ensures |table| <= |SIZES|
  {
  }

  lemma DescriptorsAllowed(k: Kernel)
    requires CACHE_CACHE in k.caches
    ensures CreateAllowed(k, SLAB_T, MIN_ALIGN, false) && MakeGeometry(SLAB_T, MIN_ALIGN, false).Some?
  {
    hide MakeGeometry, GoodAlign, PageSafe;
    DescriptorGeometry();
  }

  lemma FirstFacts()
    ensures var cc := FirstCache();
            !cc.geo.offSlab && cc.geo.order == 0 && cc.geo.num == 31 && cc.freeObjects == 0
  {
    hide MakeGeometry, GoodAlign, GoodGeometry, PageSafe;
    CacheCacheGeometry();
  }

  /** The descriptor cache is created and named: the loop over the sizes can start. */
  lemma LoopCanStart(k: Kernel)
    requires CACHE_CACHE in k.caches && k.caches[CACHE_CACHE] == FirstCache() && Settled(k) && KInv(k)
    requires CreateAllowed(k, SLAB_T, MIN_ALIGN, false)
    ensures var (k1, d) := Create(k, SLAB_T, MIN_ALIGN, false);
            CACHE_CACHE in k1.caches && (d.Some? ==> Booting(NameDescriptors(k1, d.value), []))
  {
    hide KInv, MakeGeometry, GoodAlign, PageSafe, Create, CreateAllowed, Settled, FirstCache;
    DescriptorsAllowed(k);
    DescriptorGeometry();
    FirstFacts();
    CreateSettles(k, SLAB_T, MIN_ALIGN, false);
    CreateKeepsOthers(k, SLAB_T, MIN_ALIGN, false);
    var (k1, d) := Create(k, SLAB_T, MIN_ALIGN, false);
    assert SameBasics(k.caches[CACHE_CACHE], k1.caches[CACHE_CACHE]);
    if d.Some? { NamingKeepsInv(k1, d.value); }
  }

  lemma BootingIsGood(k: Kernel, table: seq<nat>)
    requires Booting(k, table)
    ensures DescriptorsReady(k) && Good(k, table)
  {
    hide KInv, Settled, DescriptorsReady, TableOK;
  }

  lemma EmptyTable(k: Kernel)
    ensures TableOK(k, [])
  {
  }

  /** `kmem_cache_init`: the state and the table of general caches. When the descriptor cache
      cannot be created, the first general cache fails at the same allocation and the loop ends. */
  ghost function Boot(z: Zone, lru: seq<Links>, first: seq<nat>): (r: (Kernel, seq<nat>))
    requires CleanStart(z, lru, first)
    ensures Good(r.0, r.1)
  {
    hide KInv, MakeGeometry, GoodAlign, PageSafe, Create, CreateAllowed, Settled, Booting, CleanStart, FirstCache, Good,
         DescriptorsReady, TableOK, CacheAlloc, FillTable;
    InitialIsGood(z, lru, first);
    var k := InitialKernel(z, lru, first);
    DescriptorsAllowed(k);
    LoopCanStart(k);
    CreateSettles(k, SLAB_T, MIN_ALIGN, false);
    var (k1, d) := Create(k, SLAB_T, MIN_ALIGN, false);
    if d.None? then
      EmptyTable(k1);
      AllocIsGood(k1, [], CACHE_CACHE);
      (CacheAlloc(k1, CACHE_CACHE).0, [])
    else
      var r := FillTable(NameDescriptors(k1, d.value), []);
      BootingIsGood(r.0, r.1);
      r
  }


  /** If one page is free, bootstrapping takes it for the cache descriptors and succeeds: all
      fifteen general caches and the descriptor cache exist and the system is in a good state. */
  lemma BootSucceeds(z: Zone, lru: seq<Links>, first: seq<nat>)
    requires CleanStart(z, lru, first) && CanServe(z, 0)
    ensures var (k, table) := Boot(z, lru, first); DescriptorsReady(k) && Good(k, table) && |table| == |SIZES|
  {
    hide KInv, MakeGeometry, GoodAlign, PageSafe, Create, CreateAllowed, Settled, CleanStart, FirstCache, CanServe,
         Good,
         DescriptorsReady, Booting, FillTable;
    InitialIsGood(z, lru, first);
    var k := InitialKernel(z, lru, first);
    FirstFacts();
    DescriptorsAllowed(k);
    LoopCanStart(k);
    CreateSucceeds(k, SLAB_T, MIN_ALIGN, false);
    var (k1, d) := Create(k, SLAB_T, MIN_ALIGN, false);
    var k2 := NameDescriptors(k1, d.value);
    StockNamed(k1, d.value);
    FillTableSucceeds(k2, []);
    BootingIsGood(FillTable(k2, []).0, FillTable(k2, []).1);
  }

  lemma StockNamed(k: Kernel, d: nat)
    requires CACHE_CACHE in k.caches
    ensures CACHE_CACHE in NameDescriptors(k, d).caches
    ensures NameDescriptors(k, d).caches[CACHE_CACHE].freeObjects == k.caches[CACHE_CACHE].freeObjects
  {
  }

  /** If no page is free the first two creations fail, the table stays empty, and the zone is as
      it was. */
  lemma BootFails(z: Zone, lru: seq<Links>, first: seq<nat>)
    requires CleanStart(z, lru, first) && !CanServe(z, 0)
    ensures var (k, table) := Boot(z, lru, first);
            && table == [] && k.zone == z && KInv(k)
            && CACHE_CACHE in k.caches && CacheAlloc(k, CACHE_CACHE).1 == NULL
  {
    hide KInv, MakeGeometry, GoodAlign, PageSafe, CreateAllowed, Settled, CleanStart, FirstCache, CanServe, FillTable,
         CacheAlloc, Booting;
    InitialIsGood(z, lru, first);
    var k := InitialKernel(z, lru, first);
    FirstFacts();
    DescriptorsAllowed(k);
    LoopCanStart(k);
    StillFails(k);
    var k1 := CacheAlloc(k, CACHE_CACHE).0;
    StillFails(k1);
    StillFails(CacheAlloc(k1, CACHE_CACHE).0);
  }

  lemma StillFails(k: Kernel)
    requires CACHE_CACHE in k.caches && !k.caches[CACHE_CACHE].geo.offSlab && k.caches[CACHE_CACHE].freeObjects == 0
    requires !CanServe(k.zone, k.caches[CACHE_CACHE].geo.order) && KInv(k)
    ensures var (k', obj) := CacheAlloc(k, CACHE_CACHE);
            && obj == NULL && k'.zone == k.zone && KInv(k')
            && CACHE_CACHE in k'.caches && k'.caches[CACHE_CACHE].geo == k.caches[CACHE_CACHE].geo
            && k'.caches[CACHE_CACHE].freeObjects == 0
  {
    hide KInv, CanServe, CacheAlloc;
    OnSlabAllocFailsExactly(k, CACHE_CACHE);
    FailedAllocMovesNothing(k, CACHE_CACHE);
    AllocatedInv(k, CACHE_CACHE, CacheAlloc(k, CACHE_CACHE).0, NULL);
  }

  /** After bootstrapping and any run of allowed operations: no two things in use overlap, every
      object handed out leads back to its slab and cache, and no cache keeps two empty slabs. */
  lemma BootedRunsAreSafe(z: Zone, lru: seq<Links>, first: seq<nat>, ops: seq<Op>, r: Region, q: Region, c: nat)
    requires CleanStart(z, lru, first)
    requires AllowedRun(Boot(z, lru, first).0, Boot(z, lru, first).1, ops)
    ensures var k := Run(Boot(z, lru, first).0, Boot(z, lru, first).1, ops);
            && (InUse(k, r) && InUse(k, q) && r != q ==>
                  Start(k, r) + Length(k, r) <= Start(k, q) || Start(k, q) + Length(k, q) <= Start(k, r))
            && (InUse(k, r) && r.ObjectOf? ==>
                  Mapped(k, r.obj) && VirtToSlab(k, r.obj) == r.slab && PageCache(k, r.obj) == k.homes[r.slab].cache)
            && (c in k.caches ==> |k.caches[c].free| <= 1)
  {
    hide Boot, CleanStart, KInv, Run, AllowedRun, TableOK, Settled, Start, Length,
         Mapped, VirtToSlab, PageCache, IsObject;
    var k := Run(Boot(z, lru, first).0, Boot(z, lru, first).1, ops);
    GoodParts(k, Boot(z, lru, first).1);
    if InUse(k, r) && InUse(k, q) && r != q { NothingOverlaps(k, r, q); }
    if InUse(k, r) && r.ObjectOf? { LookupFindsOwner(k, r.slab, r.obj); }
    if c in k.caches { AtMostOneEmptySlab(k, c); }
  }
}
