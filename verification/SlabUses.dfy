/** The two uses of a page's link words, the alignment of objects over runs, and which objects can
    be freed. */
module SlabUses {
  import opened Blocks
  import opened PageAddr
  import opened Sequences
  import opened ListHead
  import opened Zone
  import opened ZoneLinks
  import opened SlabLayout
  import opened SlabModel
  import opened SlabPlaces
  import opened SlabObjects
  import opened SlabPages
  import opened SlabFrames
  import opened SlabAlloc
  import opened SlabFree
  import opened SlabSystem

  // ----- page->lru

  /** The words of every page on a free list, and of every list head, name a page of the same list
      or its head: following them never leads anywhere else. */
  lemma ListWordsStayOnList(k: Kernel, m: nat, n: nat)
    requires KInv(k) && m < GROUPS
    requires Shaped(k.zone) && (n == HeadNode(k.zone, m) || n in k.zone.lists[m])
    ensures n < |k.lru| && k.lru[n].next.Node? && k.lru[n].prev.Node?
    ensures k.lru[n].next.n == HeadNode(k.zone, m) || k.lru[n].next.n in k.zone.lists[m]
    ensures k.lru[n].prev.n == HeadNode(k.zone, m) || k.lru[n].prev.n in k.zone.lists[m]
  {
    hide FlagsOK, CachesOK, SlabsOK, Inv, NoDup;
    assert Ring(k.lru, HeadNode(k.zone, m), k.zone.lists[m]);
  }

  /** `page->lru` has one use at a time: a page is on a list exactly when it is flagged so, and the
      pages of a slab are on none and hold its cache and its descriptor. */
  lemma LruHasOneUse(k: Kernel, q: nat)
    requires q < |k.zone.pages| && KInv(k)
    ensures Shaped(k.zone) && q < |k.lru|
    ensures k.zone.pages[q].flags.priv <==> exists m: nat :: m < GROUPS && q in k.zone.lists[m]
    ensures forall s :: s in k.homes && k.homes[s].cache in k.caches
                        && InBlock(q, k.homes[s].base, k.caches[k.homes[s].cache].geo.order) ==>
              !k.zone.pages[q].flags.priv && k.lru[q] == Owner(k.homes[s].cache, s)
  {
    hide KInv, PagesOK, FlagsOK, CachesOK, SlabsOK, SlabOK, Listed, Inv, LinksMatch;
    InvariantParts(k);
    PagesFacts(k);
    if k.zone.pages[q].flags.priv {
      PrivateOrder(k.zone, q);
      OnListIff(k.zone, k.zone.pages[q].order, q);
    }
    forall m: nat | m < GROUPS && q in k.zone.lists[m] ensures k.zone.pages[q].flags.priv { OnListIff(k.zone, m, q); }
    forall s | s in k.homes && k.homes[s].cache in k.caches
               && InBlock(q, k.homes[s].base, k.caches[k.homes[s].cache].geo.order)
      ensures !k.zone.pages[q].flags.priv && k.lru[q] == Owner(k.homes[s].cache, s)
    {
      SlabIsOK(k, s);
      PageLeadsBack(k, s, q);
      SlabBlock(k, s);
      LivePageIsPlain(k.zone, k.live, k.homes[s].base, q);
    }
  }

  lemma PagesFacts(k: Kernel)
    requires PagesOK(k)
    ensures Inv(k.zone, k.live) && Listed(k.zone) && Shaped(k.zone) && |k.lru| == |k.zone.pages| + GROUPS
  {
    hide Listed, Tiling;
  }

  /** Handing out pages writes no word of a page that is held. */
  lemma AllocWritesNoHeldPage(k: Kernel, o: nat, p: nat, q: nat)
    requires PagesOK(k) && p in k.live && InBlock(q, p, k.live[p])
    ensures q < |k.lru| && q < |AllocPages(k, o).0.lru| && AllocPages(k, o).0.lru[q] == k.lru[q]
  {
    hide PagesOK, AllocPages, Relinked, Listed, Placed, FreeMap, Alloc, Inv;
    AllocPagesOK(k, o);
    PagesFacts(k);
    LivePageIsPlain(k.zone, k.live, p, q);
    var (k', r) := AllocPages(k, o);
    if r.Some? {
      PagesFacts(k');
      RelinkedKeepsLive(k.lru, k.zone, k'.zone, k.live, k'.live, p, k.live[p], q);
    }
  }

  /** Neither does taking pages back. */
  lemma FreeWritesNoHeldPage(k: Kernel, b: nat, o: nat, p: nat, q: nat)
    requires PagesOK(k) && IsBlock(k.live, b, o) && p in k.live && p != b && InBlock(q, p, k.live[p])
    ensures q < |k.lru| && q < |FreePages(k, b, o).lru| && FreePages(k, b, o).lru[q] == k.lru[q]
  {
    hide PagesOK, FreePages, Relinked, Listed, Placed, FreeMap, Free, Inv;
    FreePagesOK(k, b, o);
    PagesFacts(k);
    var k' := FreePages(k, b, o);
    PagesFacts(k');
    RelinkedKeepsLive(k.lru, k.zone, k'.zone, k.live, k'.live, p, k.live[p], q);
  }

  // ----- alignment

  /** Pages, colours, header and objects of the geometry all keep the alignment. */
  predicate Aligns(g: Geometry, align: nat) {
    align > 0 && PAGE_SIZE % align == 0 && g.colourOff % align == 0 && Header(g) % align == 0 && g.objsize % align == 0
  }

  lemma CreatedAligns(size: nat, align: nat, off: bool)
    requires size > 0 && align > 0 && GoodAlign(align) && MakeGeometry(size, align, off).Some?
    ensures Aligns(MakeGeometry(size, align, off).value, align)
  {
    hide GoodAlign, ObjectSize, SlabBytes, AlignUp, CacheEstimate, SlabOrder;
    GoodAlignDivides(align);
    ObjectSizeBounds(size, align);
    AlignUpBounds(SLAB_T, align);
  }

  lemma AlignedSum(base: nat, g: Geometry, c: nat, i: nat, align: nat)
    requires Aligns(g, align)
    ensures (PAGE_OFFSET + base * PAGE_SIZE + (ColourOffset(g, c) + Header(g) + i * g.objsize)) % align == 0
  {
    MultipleProduct(PAGE_SIZE, 0xC0000 + base, align);
    MultipleProduct(g.colourOff, c, align);
    MultipleProduct(g.objsize, i, align);
    SumOfMultiples((0xC0000 + base) * PAGE_SIZE, c * g.colourOff, Header(g), i * g.objsize, align);
  }

  /** Every object held is aligned as its cache's geometry is. */
  lemma HeldIsAligned(k: Kernel, s: nat, a: nat, align: nat)
    requires Holds(k, s, a) && Aligns(k.caches[k.homes[s].cache].geo, align) && KInv(k)
    ensures a % align == 0
  {
    hide KInv, PagesOK, FlagsOK, CachesOK, SlabsOK, ChainOK, PointsBack, PageAddress, Aligns, Header, ColourOffset,
         ColourInRange;
    InvariantParts(k);
    SlabIsOK(k, s);
    var g, sl, base := k.caches[k.homes[s].cache].geo, k.slabs[s], k.homes[s].base;
    BlockInDirectMap(k, base);
    var i: nat :| i < g.num && a == ObjectAt(sl.sMem, g.objsize, i);
    var c: nat :| ColourInRange(g, c) && sl.colourOff - Header(g) == ColourOffset(g, c);
    AlignedSum(base, g, c, i, align);
  }

  // ----- over runs

  /** Every cache of `k` is still there with its geometry. */
  ghost predicate KeepsCaches(k: Kernel, k': Kernel) {
    forall d :: d in k.caches ==> d in k'.caches && k'.caches[d].geo == k.caches[d].geo
  }

  lemma AllocKeepsCaches(k: Kernel, c: nat)
    requires c in k.caches && KInv(k)
    ensures KeepsCaches(k, CacheAlloc(k, c).0)
  {
    hide KInv, CacheAlloc, Allocated;
    AllocatedKeys(k, c, CacheAlloc(k, c).0, CacheAlloc(k, c).1);
  }

  lemma FreeKeepsCaches(k: Kernel, c: nat, a: nat)
    requires CanFree(k, c, a)
    requires KInv(k)
    ensures KeepsCaches(k, CacheFree(k, c, a))
  {
    hide KInv, CacheFree, Shrinks, Released, GivesBack, Freeable, Mapped, VirtToSlab;
    ShrinkFacts(k, CacheFree(k, c, a), Touched(k, c), Released(k, c, a));
  }

  lemma CreateKeepsCaches(k: Kernel, size: nat, align: nat, off: bool)
    requires CreateAllowed(k, size, align, off) && KInv(k)
    ensures KeepsCaches(k, Create(k, size, align, off).0)
  {
    hide KInv, CacheAlloc, CacheFree, Allocated, MakeGeometry, GoodAlign, CanFree, CanAddCache, DescriptorsReady;
    var (k1, id) := CacheAlloc(k, CACHE_CACHE);
    AllocKeepsCaches(k, CACHE_CACHE);
    AllocatedInv(k, CACHE_CACHE, k1, id);
    if id != NULL {
      match MakeGeometry(size, align, off) {
        case None =>
          CanFreeAgain(k, k1, id);
          FreeKeepsCaches(k1, CACHE_CACHE, id);
        case Some(g) =>
          CreateCanAdd(k, size, align, off, k1, id);
          AddedIsNew(k1, id, g, k1.caches[CACHE_CACHE].slabpCache);
      }
    }
  }

  lemma AddedIsNew(k: Kernel, id: nat, g: Geometry, slabp: nat)
    requires CanAddCache(k, id, g, slabp)
    ensures KeepsCaches(k, InsertCache(k, id, g, slabp))
  {
    hide HeldFrom, GoodGeometry, DescriptorsReady;
  }

  lemma StepKeepsCaches(k: Kernel, table: seq<nat>, op: Op)
    requires Allowed(k, table, op) && Good(k, table)
    ensures KeepsCaches(k, Step(k, table, op))
  {
    hide KInv, Good, TableOK, Settled, Mapped, PageCache, CanFree, Freeable, CreateAllowed, IsBlock, PagesOK, Served,
         KeepsCaches,
         AllocPages, FreePages, CacheAlloc, CacheFree, Create;
    GoodParts(k, table);
    match op {
      case AllocObject(c) => AllocKeepsCaches(k, c);
      case FreeObject(c, a) => FreeKeepsCaches(k, c, a);
      case CreateCache(size, align, off) => CreateKeepsCaches(k, size, align, off);
      case AllocBlock(o) =>
        InvariantPages(k);
        AllocPagesRest(k, o);
        SameCachesKept(k, AllocPages(k, o).0);
      case FreeBlock(p, o) =>
        InvariantPages(k);
        FreePagesRest(k, p, o);
        SameCachesKept(k, FreePages(k, p, o));
      case Malloc(size) => MallocKeepsCaches(k, table, size);
      case FreeMalloc(a) => KfreeKeepsCaches(k, table, a);
    }
  }

  lemma FreePagesRest(k: Kernel, p: nat, o: nat)
    requires PagesOK(k) && IsBlock(k.live, p, o)
    ensures FreePages(k, p, o).caches == k.caches && FreePages(k, p, o).slabs == k.slabs
  {
    hide PagesOK, Free, Relinked;
    FreePagesOK(k, p, o);
  }

  lemma SameCachesKept(k: Kernel, k': Kernel)
    requires k'.caches == k.caches
    ensures KeepsCaches(k, k')
  {
  }

  lemma MallocKeepsCaches(k: Kernel, table: seq<nat>, size: nat)
    requires TableOK(k, table) && Served(table, size) && KInv(k)
    ensures KeepsCaches(k, Kmalloc(k, table, size).0)
  {
    hide KInv, CacheAlloc;
    var i := SizeIndex(size, 0);
    if i < |SIZES| { assert GeneralCache(k, table[i], SIZES[i]); AllocKeepsCaches(k, table[i]); }
  }

  lemma KfreeKeepsCaches(k: Kernel, table: seq<nat>, a: nat)
    requires a != NULL ==> exists s :: s in k.homes && Freeable(k, k.homes[s].cache, s, a)
    requires TableOK(k, table) && Settled(k) && KInv(k)
    ensures a != NULL ==> Mapped(k, a) && CanFree(k, PageCache(k, a), a)
    ensures KeepsCaches(k, Kfree(k, a))
  {
    hide KInv, Settled, TableOK, Freeable, CacheFree, Mapped, VirtToSlab, PageCache, CanFree, KeepsCaches;
    if a == NULL { SameCachesKept(k, k); } else {
      var s :| s in k.homes && Freeable(k, k.homes[s].cache, s, a);
      KfreeFindsCache(k, s, a);
      FreeKeepsCaches(k, PageCache(k, a), a);
    }
  }

  /** No run removes a cache or changes its geometry. */
  lemma {:induction false} RunKeepsCaches(k: Kernel, table: seq<nat>, ops: seq<Op>)
    requires Good(k, table) && AllowedRun(k, table, ops)
    ensures KeepsCaches(k, Run(k, table, ops))
    decreases |ops|
  {
    hide Good, Step, Allowed;
    if ops == [] {
    } else {
      StepKeepsCaches(k, table, ops[0]);
      RunKeepsCaches(Step(k, table, ops[0]), table, ops[1..]);
    }
  }

  /** Whatever happens after a cache is created with an alignment, every object held from it is
      aligned so. */
  lemma ObjectsStayAligned(k: Kernel, table: seq<nat>, ops: seq<Op>, id: nat, align: nat, s: nat, a: nat)
    requires id in k.caches && Aligns(k.caches[id].geo, align)
    requires Good(k, table) && AllowedRun(k, table, ops)
    requires Holds(Run(k, table, ops), s, a) && Run(k, table, ops).homes[s].cache == id
    ensures a % align == 0
  {
    hide Good, Run, AllowedRun, IsObject, Aligns;
    RunKeepsCaches(k, table, ops);
    GoodIsInvariant(Run(k, table, ops), table);
    HeldIsAligned(Run(k, table, ops), s, a, align);
  }

  lemma GoodIsInvariant(k: Kernel, table: seq<nat>)
    requires Good(k, table)
    ensures KInv(k)
  {
    hide KInv;
  }

  // ----- what can be freed

  /** An object of a page-safe cache can always be freed; only an off-slab cache with colour offsets
      beyond a page can hold objects that cannot. */
  lemma SafeCacheCanFree(k: Kernel, s: nat, a: nat)
    requires Holds(k, s, a) && a !in k.homes && a !in k.caches && PageSafe(k.caches[k.homes[s].cache].geo) && KInv(k)
    ensures Freeable(k, k.homes[s].cache, s, a) && Mapped(k, a) && PageCache(k, a) == k.homes[s].cache
    ensures CanFree(k, k.homes[s].cache, a)
  {
    hide KInv, IsObject, Mapped, VirtToSlab, PageCache;
    LookupFindsOwner(k, s, a);
    SafeSlabGoesBack(k, s);
  }

  lemma SafeSlabGoesBack(k: Kernel, s: nat)
    requires s in k.homes && s in k.slabs && k.homes[s].cache in k.caches && PageSafe(k.caches[k.homes[s].cache].geo)
    requires KInv(k)
    ensures GoesBack(k, k.homes[s].cache, s)
  {
    hide KInv, PagesOK, FlagsOK, CachesOK, SlabsOK, ChainOK, PointsBack, MaxOffset, ColourOffset, ColourInRange;
    InvariantParts(k);
    SlabIsOK(k, s);
    var g, sl := k.caches[k.homes[s].cache].geo, k.slabs[s];
    var c: nat :| ColourInRange(g, c) && sl.colourOff - Header(g) == ColourOffset(g, c);
    OffsetInRange(g, c);
  }

  /** Everything `kmalloc` gave out can be freed by `kfree`, as long as it is held. */
  lemma MallocedCanBeFreed(k: Kernel, table: seq<nat>, i: nat, a: nat)
    requires i < |table| && TableOK(k, table) && HeldFrom(k, table[i], a) && a !in k.homes && a !in k.caches && KInv(k)
    ensures Mapped(k, a) && PageCache(k, a) == table[i] && CanFree(k, table[i], a)
  {
    hide KInv, IsObject, Mapped, PageCache, CanFree, PageSafe, Freeable;
    assert GeneralCache(k, table[i], SIZES[i]);
    var s :| Holds(k, s, a) && k.homes[s].cache == table[i];
    SafeCacheCanFree(k, s, a);
  }
}
