/** What the invariant of the memory system means. */
module SlabTheorems {
  import opened Blocks
  import opened Options
  import opened PageAddr
  import opened SlabLayout
  import opened Sequences
  import opened Zone
  import opened ZoneTheorems
  import opened ZoneLinks
  import opened SlabModel
  import opened SlabLists
  import opened SlabPlaces
  import opened SlabLocal
  import opened SlabObjects
  import opened SlabPages
  import opened SlabGrow
  import opened SlabDrop
  import opened SlabFrames
  import opened SlabAlloc
  import opened SlabFree
  import opened SlabSystem

  // ----- no two live things overlap

  /** A stretch of memory in use: a held object (off-slab descriptors and cache descriptors are
      among them), an on-slab descriptor, or a directly held page block. */
  datatype Region = ObjectOf(slab: nat, obj: nat) | HeaderOf(slab: nat) | PagesOf(page: nat)

  ghost predicate InUse(k: Kernel, r: Region) {
    match r
    case ObjectOf(t, a) => Holds(k, t, a)
    case HeaderOf(s) =>
      s in k.homes && k.homes[s].cache in k.caches && s in k.slabs && !k.caches[k.homes[s].cache].geo.offSlab
    case PagesOf(p) => p in k.live && p !in k.marked
  }

  ghost function Start(k: Kernel, r: Region): nat
    requires InUse(k, r)
  {
    match r
    case ObjectOf(t, a) => a
    case HeaderOf(s) => s
    case PagesOf(p) => PageAddress(p)
  }

  ghost function Length(k: Kernel, r: Region): nat
    requires InUse(k, r)
  {
    match r
    case ObjectOf(t, a) => k.caches[k.homes[t].cache].geo.objsize
    case HeaderOf(s) => SLAB_T
    case PagesOf(p) => SlabBytes(k.live[p])
  }

  ghost function BlockOf(k: Kernel, r: Region): nat
    requires InUse(k, r)
  {
    match r
    case ObjectOf(t, a) => k.homes[t].base
    case HeaderOf(s) => k.homes[s].base
    case PagesOf(p) => p
  }

  /** Every region in use lies inside its held page block. */
  lemma RegionInBlock(k: Kernel, r: Region)
    requires InUse(k, r) && KInv(k)
    ensures var p := BlockOf(k, r);
            && p in k.live && (r.PagesOf? <==> p !in k.marked)
            && PAGE_OFFSET + p * PAGE_SIZE <= Start(k, r)
            && Start(k, r) + Length(k, r) <= PAGE_OFFSET + p * PAGE_SIZE + SlabBytes(k.live[p])
  {
    hide KInv, PagesOK, FlagsOK, CachesOK, SlabsOK, SlabOK, IsObject, SlabBytes, PageAddress, GoodGeometry;
    InvariantParts(k);
    ObjectSizes(k);
    match r {
      case ObjectOf(t, a) =>
        SlabIsOK(k, t);
        SlabBlock(k, t);
        ObjectInPages(k, t, a);
      case HeaderOf(s) =>
        SlabBlock(k, s);
        HeaderFits(k, s);
      case PagesOf(p) =>
        BlockInDirectMap(k, p);
    }
  }

  lemma HeaderFits(k: Kernel, s: nat)
    requires s in k.homes && k.homes[s].cache in k.caches && s in k.slabs && !k.caches[k.homes[s].cache].geo.offSlab
    requires KInv(k)
    ensures PAGE_OFFSET + k.homes[s].base * PAGE_SIZE <= s && s + SLAB_T <= k.slabs[s].sMem
    ensures s + SLAB_T <= PAGE_OFFSET + k.homes[s].base * PAGE_SIZE + SlabBytes(k.caches[k.homes[s].cache].geo.order)
  {
    hide KInv, PagesOK, FlagsOK, CachesOK, SlabsOK, SlabOK, IsObject, SlabBytes, GoodGeometry, ObjectAt;
    InvariantParts(k);
    ObjectSizes(k);
    SlabIsOK(k, s);
    HeaderInPages(k, s);
    FirstObject(k.caches[k.homes[s].cache].geo, k.slabs[s].sMem);
    ObjectInPages(k, s, ObjectAt(k.slabs[s].sMem, k.caches[k.homes[s].cache].geo.objsize, 0));
  }

  lemma FirstObject(g: Geometry, sMem: nat)
    requires g.num >= 1
    ensures IsObject(g, sMem, ObjectAt(sMem, g.objsize, 0))
  {
  }

  /** Two regions in the same block belong to the same slab. */
  lemma SameBlockSameSlab(k: Kernel, r: Region, q: Region)
    requires InUse(k, r) && InUse(k, q) && r != q && BlockOf(k, r) == BlockOf(k, q) && KInv(k)
    ensures !r.PagesOf? && !q.PagesOf? && r.slab == q.slab
  {
    hide KInv, SlabBytes, IsObject;
    RegionInBlock(k, r);
    RegionInBlock(k, q);
    if !r.PagesOf? && r.slab != q.slab { BasesDiffer(k, r.slab, q.slab); }
  }

  /** In every reachable state, across all caches, any two different things in use are disjoint
      stretches of memory. */
  lemma NothingOverlaps(k: Kernel, r: Region, q: Region)
    requires InUse(k, r) && InUse(k, q) && r != q && KInv(k)
    ensures Start(k, r) + Length(k, r) <= Start(k, q) || Start(k, q) + Length(k, q) <= Start(k, r)
  {
    hide KInv, SlabBytes, IsObject;
    RegionInBlock(k, r);
    RegionInBlock(k, q);
    if BlockOf(k, r) != BlockOf(k, q) {
      LiveBlocksDisjoint(k, BlockOf(k, r), BlockOf(k, q));
    } else {
      SameBlockSameSlab(k, r, q);
      WithinSlab(k, r, q);
    }
  }

  lemma WithinSlab(k: Kernel, r: Region, q: Region)
    requires InUse(k, r) && InUse(k, q) && r != q && !r.PagesOf? && !q.PagesOf? && r.slab == q.slab && KInv(k)
    ensures Start(k, r) + Length(k, r) <= Start(k, q) || Start(k, q) + Length(k, q) <= Start(k, r)
  {
    hide KInv, SlabBytes, IsObject;
    match (r, q) {
      case (ObjectOf(t, a), ObjectOf(u, b)) => HeldObjectsDisjoint(k, t, a, u, b);
      case (HeaderOf(s), ObjectOf(t, a)) => HeaderBeforeObject(k, s, a);
      case (ObjectOf(t, a), HeaderOf(s)) => HeaderBeforeObject(k, s, a);
    }
  }

  lemma HeaderBeforeObject(k: Kernel, s: nat, a: nat)
    requires Holds(k, s, a) && !k.caches[k.homes[s].cache].geo.offSlab && KInv(k)
    ensures s + SLAB_T <= a
  {
    hide KInv, SlabBytes, IsObject, PagesOK, FlagsOK, CachesOK, SlabsOK, SlabOK;
    InvariantParts(k);
    SlabIsOK(k, s);
    HeaderFits(k, s);
    ObjectInPages(k, s, a);
  }

  /** An off-slab descriptor is a held object large enough for it, so it is a region too. */
  lemma OffSlabDescriptorIsObject(k: Kernel, s: nat) returns (t: nat)
    requires s in k.homes && k.homes[s].cache in k.caches && k.caches[k.homes[s].cache].geo.offSlab && KInv(k)
    ensures InUse(k, ObjectOf(t, s)) && Length(k, ObjectOf(t, s)) >= SLAB_T
  {
    hide KInv, PagesOK, FlagsOK, CachesOK, SlabsOK, IsObject;
    InvariantParts(k);
    DescriptorCache(k, k.homes[s].cache);
    DescriptorHeld(k, s);
    t :| Holds(k, t, s) && k.homes[t].cache == k.caches[k.homes[s].cache].slabpCache;
  }

  // ----- the slab lists

  /** Each slab is on exactly one list of its cache, the one its `inuse` calls for; its chain holds
      exactly `num - inuse` distinct objects of the slab; the held ones are the others. */
  lemma SlabListsTellTheTruth(k: Kernel, s: nat)
    requires s in k.homes && KInv(k)
    ensures s in k.slabs && k.homes[s].cache in k.caches
    ensures var cc := k.caches[k.homes[s].cache];
            var n := k.slabs[s].inuse;
            && n <= cc.geo.num
            && (s in cc.free <==> n == 0) && (s in cc.full <==> n == cc.geo.num)
            && (s in cc.partial <==> 0 < n < cc.geo.num)
            && |k.homes[s].chain| == cc.geo.num - n && NoDup(k.homes[s].chain)
            && (forall a :: IsObject(cc.geo, k.slabs[s].sMem, a) ==> (a in k.homes[s].chain <==> !Holds(k, s, a)))
  {
    hide KInv, PagesOK, FlagsOK, CachesOK, SlabsOK, ListsOK, PlacedSlab, PointsBack, IsObject;
    InvariantParts(k);
    SlabIsOK(k, s);
    CacheLists(k, k.homes[s].cache);
    OnOneList(k.caches[k.homes[s].cache], k.homes[s].cache, k.homes, k.slabs, s);
  }

  /** A cache never keeps more than one empty slab, and `free_objects` is exact. */
  lemma AtMostOneEmptySlab(k: Kernel, c: nat)
    requires c in k.caches && KInv(k)
    ensures |k.caches[c].free| <= 1
    ensures Counted(k.caches[c], k.slabs)
  {
    hide KInv, FreeCount;
    CacheLists(k, c);
  }

  /** When freeing leaves a slab empty and kept, every other slab of the cache is full. */
  lemma EmptySlabAmongFull(k: Kernel, c: nat, obj: nat, t: nat)
    requires CanFree(k, c, obj) && k.slabs[VirtToSlab(k, obj)].inuse == 1 && !Surplus(k, c, VirtToSlab(k, obj))
    requires KInv(k)
    requires t in k.homes && k.homes[t].cache == c && t != VirtToSlab(k, obj)
    ensures t in k.slabs && k.slabs[t].inuse == k.caches[c].geo.num
    ensures CacheFree(k, c, obj) == PutObj(k, c, VirtToSlab(k, obj), obj)
    ensures CacheFree(k, c, obj).caches[c].free == [VirtToSlab(k, obj)]
  {
    hide KInv, IsObject, Mapped, VirtToSlab, Released, Shrinks, GivesBack, LocalTo;
    var s := VirtToSlab(k, obj);
    LimitIsNum(k, c);
    PutKeepsInv(k, c, s, obj);
    var k' := PutObj(k, c, s, obj);
    CacheLists(k', c);
    hide Remove, ListsOK;
    AtMostOneEmptySlab(k', c);
  }

  lemma MembersBoundLength(a: seq<nat>, b: seq<nat>)
    requires NoDup(a) && NoDup(b) && forall x :: x in a ==> x in b
    ensures |a| <= |b|
  {
    NoDupCardinality(a);
    NoDupCardinality(b);
    SubsetSize(Elements(a), Elements(b));
  }

  /** A slab that is not empty has an object out. */
  lemma SomeObjectIsOut(k: Kernel, s: nat) returns (a: nat)
    requires s in k.homes && s in k.slabs && k.slabs[s].inuse > 0 && KInv(k)
    ensures Holds(k, s, a)
  {
    hide KInv, PagesOK, FlagsOK, CachesOK, SlabsOK, PlacedSlab, PointsBack, IsObject, NoDup, Chained;
    InvariantParts(k);
    ObjectSizes(k);
    SlabIsOK(k, s);
    var g, sMem := k.caches[k.homes[s].cache].geo, k.slabs[s].sMem;
    ObjectSeqMembers(g, sMem);
    var all := ObjectSeq(g, sMem);
    if forall x :: x in all ==> x in k.homes[s].chain {
      MembersBoundLength(all, k.homes[s].chain);
      assert false;
    }
    a :| a in all && a !in k.homes[s].chain;
  }

  lemma HeldIntro(k: Kernel, s: nat, a: nat)
    requires Holds(k, s, a)
    ensures HeldFrom(k, k.homes[s].cache, a)
  {
    hide IsObject;
  }

  /** Nothing leaks: a cache none of whose objects is held has at most one slab, which is empty. */
  lemma IdleCacheKeepsOneSlab(k: Kernel, c: nat, s: nat, t: nat)
    requires c in k.caches && s in k.homes && k.homes[s].cache == c && t in k.homes && k.homes[t].cache == c
    requires (forall a :: !HeldFrom(k, c, a)) && KInv(k)
    ensures s == t && s in k.slabs && k.slabs[s].inuse == 0 && k.caches[c].free == [s]
  {
    hide KInv, IsObject, Counted;
    SlabListsTellTheTruth(k, s);
    SlabListsTellTheTruth(k, t);
    AtMostOneEmptySlab(k, c);
    if k.slabs[s].inuse > 0 { var a := SomeObjectIsOut(k, s); HeldIntro(k, s, a); assert false; }
    if k.slabs[t].inuse > 0 { var a := SomeObjectIsOut(k, t); HeldIntro(k, t, a); assert false; }
  }

  // ----- when allocation fails

  /** A cache with free objects has a slab to take one from, and only then. */
  lemma StockMeansRoom(k: Kernel, c: nat)
    requires c in k.caches && KInv(k)
    ensures k.caches[c].freeObjects >= 0
    ensures k.caches[c].freeObjects == 0 <==> k.caches[c].partial == [] && k.caches[c].free == []
  {
    hide KInv;
    CacheLists(k, c);
    StockOfLists(k.caches[c], c, k.homes, k.slabs);
  }

  lemma StockOfLists(cc: Cache, c: nat, homes: map<nat, Home>, slabs: map<nat, Slab>)
    requires ListsOK(cc, c, homes, slabs) && cc.geo.num >= 1
    ensures cc.freeObjects >= 0
    ensures cc.freeObjects == 0 <==> cc.partial == [] && cc.free == []
  {
    FreeCountBounds(slabs, cc.geo.num, cc.partial);
    FreeCountBounds(slabs, cc.geo.num, cc.full);
    FreeCountBounds(slabs, cc.geo.num, cc.free);
    FullCountsNothing(slabs, cc.geo.num, cc.full);
    assert cc.partial != [] ==> cc.partial[0] in cc.partial;
    assert cc.free != [] ==> cc.free[0] in cc.free;
    hide FreeCount, NoDup;
    if cc.partial == [] && cc.free == [] { EmptyCountsNothing(slabs, cc.geo.num); }
  }

  lemma EmptyCountsNothing(slabs: map<nat, Slab>, num: nat)
    ensures FreeCount(slabs, num, []) == 0
  {
  }

  lemma {:induction false} FullCountsNothing(slabs: map<nat, Slab>, num: nat, list: seq<nat>)
    requires forall t :: t in list ==> t in slabs && slabs[t].inuse == num
    ensures FreeCount(slabs, num, list) == 0
  {
    if list == [] {
    } else {
      assert list[0] in list && forall t :: t in list[1..] ==> t in list;
      FullCountsNothing(slabs, num, list[1..]);
    }
  }

  /** The zone can serve a block of this order. */
  ghost predicate CanServe(z: Zone, o: nat) { o < GROUPS && HasFreeRun(z, o) }

  lemma ServedExactly(k: Kernel, o: nat)
    requires PagesOK(k)
    ensures AllocPages(k, o).1.Some? <==> CanServe(k.zone, o)
  {
    hide Inv, LinksMatch, Alloc, Relinked, HasFreeRun, Listed, Placed, FreeMap;
    AllocIsComplete(k.zone, k.live, o);
    AllocPagesOK(k, o);
  }

  lemma ServedByGrowth(k: Kernel, c: nat)
    requires c in k.caches && KInv(k)
    ensures GrowPages(k, c).1.Some? <==> CanServe(k.zone, k.caches[c].geo.order)
  {
    hide KInv, AllocPages, Mark, CanServe, PagesOK;
    BumpKeepsInv(k, c);
    InvariantPages(BumpColour(k, c));
    BumpPages(k, c);
    ServedExactly(BumpColour(k, c), k.caches[c].geo.order);
  }

  /** An allocation from an on-slab cache fails exactly when the cache has no free object and the
      zone has no aligned run of pages for a new slab. */
  lemma OnSlabAllocFailsExactly(k: Kernel, c: nat)
    requires c in k.caches && !k.caches[c].geo.offSlab && KInv(k)
    ensures CacheAlloc(k, c).1 == NULL <==> k.caches[c].freeObjects == 0 && !CanServe(k.zone, k.caches[c].geo.order)
  {
    hide KInv, CanServe, Allocated, GrowPages, InsertSlab, GotPages, Grew, Extends, Settles, NewSlabsOnNewPages,
         PageAddress, NextOffset, Touched;
    StockMeansRoom(k, c);
    ServedByGrowth(k, c);
    ExtendsRefl(k, Touched(k, c));
    if k.caches[c].partial != [] { TakeIsNotNull(k, c, k, false); }
    else if k.caches[c].free != [] { TakeIsNotNull(k, c, k, true); }
    else if CacheGrow(k, c).1 {
      GrewParts(k, c, CacheGrow(k, c).0);
      TakeIsNotNull(k, c, CacheGrow(k, c).0, true);
    }
  }

  lemma TakeIsNotNull(k: Kernel, c: nat, k1: Kernel, fromFree: bool)
    requires c in k.caches && c in k1.caches
    requires if fromFree then k1.caches[c].free != [] else k1.caches[c].partial != []
    requires Extends(k, k1, Touched(k, c)) && NewSlabsOnNewPages(k, k1) && Settles(k, k1, {}) && KInv(k1)
    ensures TakeNext(k, c, k1, fromFree).1 != NULL
  {
    hide KInv, Extends, NewSlabsOnNewPages, Settles, Touched, Taken, Allocated, IsObject, LocalTo;
    var s := if fromFree then k1.caches[c].free[0] else k1.caches[c].partial[0];
    HandOutKeepsInv(k1, c, s, fromFree);
  }

  /** An allocation from an off-slab cache fails exactly when the cache has no free object and
      either no pages for a slab can be had, or, those pages taken, no descriptor. */
  lemma OffSlabAllocFailsExactly(k: Kernel, c: nat)
    requires c in k.caches && k.caches[c].geo.offSlab && KInv(k)
    ensures k.caches[c].slabpCache in k.caches
    ensures CacheAlloc(k, c).1 == NULL <==>
            var d := k.caches[c].slabpCache;
            && k.caches[c].freeObjects == 0
            && (CanServe(k.zone, k.caches[c].geo.order) ==>
                  k.caches[d].freeObjects == 0 && !CanServe(GrowPages(k, c).0.zone, k.caches[d].geo.order))
  {
    hide KInv, CanServe, Allocated, GrowPages, InsertSlab, GotPages, Grew, Extends, Settles, NewSlabsOnNewPages,
         PageAddress,
         NextOffset, Touched, CacheAlloc, GrowOffSlab, PagesOK, FlagsOK, CachesOK, SlabsOK;
    InvariantParts(k);
    DescriptorCache(k, c);
    StockMeansRoom(k, c);
    ServedByGrowth(k, c);
    ExtendsRefl(k, Touched(k, c));
    AllocUnfolds(k, c);
    if k.caches[c].partial != [] { TakeIsNotNull(k, c, k, false); }
    else if k.caches[c].free != [] { TakeIsNotNull(k, c, k, true); }
    else {
      GrowPagesKeepsInv(k, c);
      if CacheGrow(k, c).1 {
        GrewParts(k, c, CacheGrow(k, c).0);
        TakeIsNotNull(k, c, CacheGrow(k, c).0, true);
      }
      if GrowPages(k, c).1.Some? { GrowthNeedsDescriptor(k, c, GrowPages(k, c).0, GrowPages(k, c).1.value); }
    }
  }

  lemma AllocUnfolds(k: Kernel, c: nat)
    requires c in k.caches && KInv(k)
    ensures Extends(k, k, Touched(k, c)) && NewSlabsOnNewPages(k, k) && Settles(k, k, {})
    ensures k.caches[c].partial != [] ==> CacheAlloc(k, c) == TakeNext(k, c, k, false)
    ensures k.caches[c].partial == [] && k.caches[c].free != [] ==> CacheAlloc(k, c) == TakeNext(k, c, k, true)
    ensures k.caches[c].partial == [] && k.caches[c].free == [] ==>
              var (k1, ok) := CacheGrow(k, c);
              if ok then
                && c in k1.caches && k1.caches[c].free != [] && Extends(k, k1, Touched(k, c))
                && NewSlabsOnNewPages(k, k1)
                && Settles(k, k1, {}) && KInv(k1) && CacheAlloc(k, c) == TakeNext(k, c, k1, true)
              else CacheAlloc(k, c) == (k1, NULL)
  {
    hide KInv, Allocated, Grew, Extends, Settles, NewSlabsOnNewPages, Touched, TakeNext, CacheGrow;
    ExtendsRefl(k, Touched(k, c));
    if k.caches[c].partial == [] && k.caches[c].free == [] && CacheGrow(k, c).1 { GrewParts(k, c, CacheGrow(k, c).0); }
  }

  lemma GrowUnfolds(k: Kernel, c: nat)
    requires c in k.caches && k.caches[c].free == [] && KInv(k)
    ensures var (k1, r) := GrowPages(k, c);
            && KInv(k1)
            && (r.None? ==> CacheGrow(k, c) == (k1, false))
            && (r.Some? ==> GotPages(k, c, k1, r.value))
            && (r.Some? && !k.caches[c].geo.offSlab ==>
                  && c in k1.caches
                  && var offset := NextOffset(k.caches[c]);
                     CacheGrow(k, c) == (InsertSlab(k1, c, PageAddress(r.value) + offset, r.value, offset), true))
            && (r.Some? && k.caches[c].geo.offSlab ==> CacheGrow(k, c) == GrowOffSlab(k, c, k1, r.value))
  {
    hide KInv, Grew, GotPages, GrowPages, InsertSlab, NextOffset, PageAddress, GrowOffSlab;
    GrowPagesKeepsInv(k, c);
    var (k1, r) := GrowPages(k, c);
    if r.Some? { GotCaches(k, c, k1, r.value); }
  }

  lemma GrowOffUnfolds(k: Kernel, c: nat, k1: Kernel, p: nat)
    requires c in k.caches && k.caches[c].free == [] && k.caches[c].geo.offSlab && KInv(k)
    requires KInv(k1) && GrowPages(k, c) == (k1, Some(p)) && GotPages(k, c, k1, p)
    ensures var d := k.caches[c].slabpCache;
            && d in k1.caches && !k1.caches[d].geo.offSlab
            && var (k2, s) := CacheAlloc(k1, d);
               && c in k2.caches && k2.caches[c].geo == k.caches[c].geo
               && KInv(k2)
               && (s == NULL ==>
                     && IsBlock(k2.live, p, k.caches[c].geo.order)
                     && (forall t :: t in k2.homes ==> k2.homes[t].base != p)
                     && GrowOffSlab(k, c, k1, p) == (PutPages(k2, p, k.caches[c].geo.order), false))
               && (s != NULL ==> GrowOffSlab(k, c, k1, p) == (InsertSlab(k2, c, s, p, NextOffset(k.caches[c])), true))
  {
    hide KInv, Grew, GrowPages, InsertSlab, NextOffset, PutPages, Allocated, PagesOK, FlagsOK, CachesOK, SlabsOK,
         CacheAlloc;
    InvariantParts(k);
    DescriptorCache(k, c);
    GotCaches(k, c, k1, p);
    var d := k.caches[c].slabpCache;
    var (k2, s) := CacheAlloc(k1, d);
    AllocatedInv(k1, d, k2, s);
    AllocatedKeys(k1, d, k2, s);
    if s == NULL { QuietOf(k1, d, k2); PendingBlock(k, c, k1, p, k2, {d}); }
  }

  lemma QuietOf(k: Kernel, d: nat, k2: Kernel)
    requires Allocated(k, d, k2, NULL) && !k.caches[d].geo.offSlab
    ensures Quiet(k, k2, {d})
  {
    hide KInv, Extends;
  }

  lemma GrowthNeedsDescriptor(k: Kernel, c: nat, k1: Kernel, p: nat)
    requires c in k.caches && k.caches[c].geo.offSlab && k.caches[c].free == []
    requires k.caches[c].slabpCache in k.caches && k.caches[c].slabpCache != c
    requires !k.caches[k.caches[c].slabpCache].geo.offSlab
    requires KInv(k) && GrowPages(k, c) == (k1, Some(p)) && GotPages(k, c, k1, p) && KInv(k1)
    ensures CacheGrow(k, c).1 <==>
            var d := k.caches[c].slabpCache;
            k.caches[d].freeObjects != 0 || CanServe(k1.zone, k.caches[d].geo.order)
  {
    hide KInv, CanServe, Allocated, GrowPages, InsertSlab, Grew, Extends, Settles, NewSlabsOnNewPages, NextOffset,
         Touched, PutPages, CacheAlloc;
    GotCaches(k, c, k1, p);
    OnSlabAllocFailsExactly(k1, k.caches[c].slabpCache);
  }

  /** A failed allocation leaves the buddy allocator exactly as it was: every list, counter and
      descriptor, and every slab. */
  lemma FailedAllocMovesNothing(k: Kernel, c: nat)
    requires c in k.caches && KInv(k) && CacheAlloc(k, c).1 == NULL
    ensures var k' := CacheAlloc(k, c).0;
            && k'.zone == k.zone && k'.live == k.live && k'.slabs == k.slabs && k'.words == k.words
            && forall d :: d in k.caches ==>
                 d in k'.caches && k'.caches[d] == k.caches[d].(colourNext := k'.caches[d].colourNext)
  {
    hide KInv, CacheAlloc, Extends;
    assert Allocated(k, c, CacheAlloc(k, c).0, NULL);
  }

  // ----- contents

  /** Allocation changes no word of anything held, and everything held stays held. */
  lemma AllocTouchesNothingHeld(k: Kernel, c: nat, w: nat)
    requires c in k.caches && KInv(k) && CacheAlloc(k, c).1 != NULL && (InHeldObject(k, w) || InHeldPages(k, w))
    ensures SameWord(k.words, CacheAlloc(k, c).0.words, w)
  {
    hide KInv, CacheAlloc, SameWord, InHeldObject, InHeldPages, KeepsHeld, KeepsBlocks;
    assert Allocated(k, c, CacheAlloc(k, c).0, CacheAlloc(k, c).1);
  }

  /** Freeing changes no word of anything still held. */
  lemma FreeTouchesNothingHeld(k: Kernel, c: nat, obj: nat, w: nat)
    requires CanFree(k, c, obj) && KInv(k)
    requires InHeldObject(CacheFree(k, c, obj), w) || InHeldPages(CacheFree(k, c, obj), w)
    ensures SameWord(k.words, CacheFree(k, c, obj).words, w)
  {
    hide KInv, CacheFree, SameWord, InHeldObject, InHeldPages, LosesOnly, BlocksRemain, CanFree, Released, GivesBack;
    var k' := CacheFree(k, c, obj);
    assert c in k.caches && Mapped(k, obj) && VirtToSlab(k, obj) in k.slabs by { CanFreeParts(k, c, obj); }
    assert Shrinks(k, k', Touched(k, c), Released(k, c, obj));
  }

  lemma CanFreeParts(k: Kernel, c: nat, obj: nat)
    requires CanFree(k, c, obj)
    ensures c in k.caches && Mapped(k, obj) && VirtToSlab(k, obj) in k.slabs
  {
  }

  /** After freeing, exactly `obj` (and the descriptor of an off-slab slab given up) is no longer
      held; every other held object still is, in the same slab. */
  lemma FreeReleasesExactly(k: Kernel, c: nat, obj: nat, t: nat, a: nat)
    requires CanFree(k, c, obj) && KInv(k)
    ensures c in k.caches && Mapped(k, obj) && VirtToSlab(k, obj) in k.slabs
    ensures Holds(CacheFree(k, c, obj), t, a) <==> Holds(k, t, a) && a !in Released(k, c, obj)
  {
    hide KInv, CacheFree, WordsRemain, BlocksRemain, Holds, CanFree, Released, GivesBack;
    CanFreeParts(k, c, obj);
    assert Shrinks(k, CacheFree(k, c, obj), Touched(k, c), Released(k, c, obj));
  }

  lemma FreeWithIs(k: Kernel, c: nat, s: nat, obj: nat)
    requires c in k.caches && s in k.slabs && s in k.homes && Freeable(k, c, s, obj) && Surplus(k, c, s)
    requires k.caches[c].geo.offSlab
    requires KInv(k)
    ensures var k2 := GiveUp(k, c, s, obj);
            var d := k.caches[c].slabpCache;
            && c in k2.caches && k2.caches[c].slabpCache == d && KInv(k2)
            && d in k2.caches && !k2.caches[d].geo.offSlab
            && CanFree(k2, d, s) && FreeWithDescriptor(k, c, s, obj) == CacheFree(k2, d, s)
  {
    hide KInv, IsObject, Shrinks, GiveUp, Mapped, VirtToSlab, HeldFrom, FlagsOK, PagesOK, CachesOK, SlabsOK,
         GivesBack, CacheFree;
    InvariantParts(k);
    DescriptorCache(k, c);
    GiveUpShrinks(k, c, s, obj);
    var k2 := GiveUp(k, c, s, obj);
    ShrinkFacts(k, k2, {c}, {obj});
    FreeDescriptor(k, c, s, obj, k2);
  }

  lemma FreeUnfolds(k: Kernel, c: nat, obj: nat)
    requires CanFree(k, c, obj) && KInv(k)
    ensures c in k.caches && Mapped(k, obj)
    ensures var s := VirtToSlab(k, obj);
            && s in k.slabs && s in k.homes && k.slabs[s].inuse >= 1 && Freeable(k, c, s, obj)
            && CacheFree(k, c, obj) ==
                 (if !Surplus(k, c, s) then PutObj(k, c, s, obj)
                  else if k.caches[c].geo.offSlab then FreeWithDescriptor(k, c, s, obj) else GiveUp(k, c, s, obj))
  {
    hide KInv, IsObject, Mapped, VirtToSlab, PutObj, GiveUp, FreeWithDescriptor;
    PutNeedsRoom(k, c, VirtToSlab(k, obj), obj);
  }

  // ----- kmalloc

  /** `kmalloc` serves from the smallest general cache that fits, with an object of at least the
      requested size that nobody held, and refuses only sizes beyond the table or an exhausted
      cache. */
  lemma KmallocFits(k: Kernel, table: seq<nat>, size: nat)
    requires TableOK(k, table) && Served(table, size) && KInv(k)
    ensures var (k', a) := Kmalloc(k, table, size);
            var i := SizeIndex(size, 0);
            && (i == |SIZES| <==> size > 131072) && (i == |SIZES| ==> a == NULL && k' == k)
            && (i < |SIZES| ==> size <= SIZES[i] && forall j :: 0 <= j < i ==> SIZES[j] < size)
            && (a != NULL ==>
                  && i < |SIZES| && HeldFrom(k', table[i], a) && !Held(k, a)
                  && size <= k.caches[table[i]].geo.objsize)
  {
    hide KInv, CacheAlloc, Extends, HeldFrom, Held, Quiet, Settles, NewSlabsOnNewPages, SizeIndex, Touched;
    var i := SizeIndex(size, 0);
    assert SIZES[14] == 131072;
    if i < |SIZES| {
      assert GeneralCache(k, table[i], SIZES[i]);
      assert Allocated(k, table[i], CacheAlloc(k, table[i]).0, CacheAlloc(k, table[i]).1);
    }
  }
}
