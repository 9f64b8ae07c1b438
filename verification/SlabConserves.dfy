/** No page is lost: over every run each page is free, in a slab, or held directly. */
module SlabConserves {
  import opened Bits
  import opened Blocks
  import opened PageAddr
  import opened ListHead
  import opened Zone
  import opened ZoneProofs
  import opened ZoneTheorems
  import opened ZoneLinks
  import ZoneRuns
  import opened SlabLayout
  import opened SlabModel
  import opened SlabPages
  import opened SlabGrow
  import opened SlabDrop
  import opened SlabFrames
  import opened SlabAlloc
  import opened SlabFree
  import opened SlabSystem
  import opened SlabTheorems
  import opened SlabBoot
  import opened SlabUses

  /** Free and held blocks cover the same pages, and the page counter is ahead of the lists by the same number. */
  ghost predicate SamePages(k: Kernel, k': Kernel) {
    && Shaped(k.zone) && Shaped(k'.zone) && |k'.zone.pages| == |k.zone.pages|
    && SameCover(AllBlocks(k.zone, k.live), AllBlocks(k'.zone, k'.live))
    && Excess(k'.zone) == Excess(k.zone)
  }

  lemma SameZoneSamePages(k: Kernel, k': Kernel)
    requires k'.zone == k.zone && k'.live == k.live && KInv(k)
    ensures SamePages(k, k')
  {
    hide CachesOK, SlabsOK, FlagsOK, LinksMatch, Listed, Tiling, AllBlocks, Excess;
    SameCoverRefl(AllBlocks(k.zone, k.live));
  }

  lemma SamePagesTrans(k: Kernel, k1: Kernel, k2: Kernel)
    requires SamePages(k, k1) && SamePages(k1, k2)
    ensures SamePages(k, k2)
  {
    hide SameCover, AllBlocks, Excess;
    SameCoverTrans(AllBlocks(k.zone, k.live), AllBlocks(k1.zone, k1.live), AllBlocks(k2.zone, k2.live));
  }

  // ----- pages

  lemma AllocPagesSame(k: Kernel, o: nat)
    requires KInv(k)
    ensures PagesOK(k) && SamePages(k, AllocPages(k, o).0)
  {
    hide KInv, AllocPages, Alloc, Listed, Placed, FreeMap, SameCover, AllBlocks, Excess, Inv, LinksMatch, SameFlags;
    InvariantPages(k);
    AllocPagesOK(k, o);
    AllocKeepsInv(k.zone, k.live, o);
    AccountingIsConserved(k.zone, k.live, o, 0);
    InvParts(k.zone, k.live);
    if AllocPages(k, o).1.None? { SameZoneSamePages(k, k); }
    else { AllocKeepsFlags(k.zone, k.live, o); SameFlagsSize(k.zone, Alloc(k.zone, o).0); }
  }

  lemma FreePagesSame(k: Kernel, p: nat, o: nat)
    requires IsBlock(k.live, p, o) && KInv(k)
    ensures PagesOK(k) && SamePages(k, FreePages(k, p, o))
  {
    hide KInv, FreePages, Free, SameCover, AllBlocks, Excess, Inv, LinksMatch, Relinked, SameFlags;
    InvariantPages(k);
    FreePagesOK(k, p, o);
    FreeKeepsInv(k.zone, k.live, p, o);
    AccountingIsConserved(k.zone, k.live, o, p);
    FreeKeepsFlags(k.zone, k.live, o, p);
    SameFlagsSize(k.zone, Free(k.zone, p, o));
    FreeShape(k.zone, p, o);
  }

  lemma FreeShape(z: Zone, p: nat, o: nat)
    requires Shaped(z) && o < GROUPS && p < |z.pages|
    ensures Shaped(Free(z, p, o))
  {
  }

  /** Marking pages for a slab, or clearing the mark, changes nothing the buddy allocator looks at. */
  lemma MarksSame(k: Kernel, p: nat, o: nat)
    requires IsBlock(k.live, p, o) && KInv(k)
    ensures SamePages(k, Mark(k, p, o)) && SamePages(k, Unmark(k, p, o))
  {
    hide KInv, SameCover, Excess, Inv, LinksMatch, MarkRange, UnmarkRange, Pow2;
    InvariantPages(k);
    MarkIsInvisible(k.zone, k.live, p, o);
    assert Mark(k, p, o).zone == MarkZone(k.zone, p, o) && Unmark(k, p, o).zone == UnmarkZone(k.zone, p, o);
    InvParts(k.zone, k.live);
    MarkedBlocks(k.zone, MarkZone(k.zone, p, o), k.live);
    MarkedBlocks(k.zone, UnmarkZone(k.zone, p, o), k.live);
  }

  lemma MarkedBlocks(z: Zone, y: Zone, live: map<nat, nat>)
    requires SameForZone(z, y) && Shaped(z)
    ensures Shaped(y) && |y.pages| == |z.pages| && Excess(y) == Excess(z)
    ensures SameCover(AllBlocks(z, live), AllBlocks(y, live))
  {
    hide Excess;
    assert FreeMap(y) == FreeMap(z);
    SameCoverRefl(AllBlocks(z, live));
    SameExcess(z, y);
  }

  lemma SameExcess(z: Zone, y: Zone)
    requires Shaped(z) && Shaped(y) && y.nrFree == z.nrFree && y.freePages == z.freePages
    ensures Excess(y) == Excess(z)
  {
  }

  lemma GetPagesSame(k: Kernel, o: nat)
    requires KInv(k)
    ensures PagesOK(k) && SamePages(k, GetPages(k, o).0)
  {
    hide KInv, PagesOK, AllocPages, Mark, SamePages, Relinked, Alloc, Listed, Placed, FreeMap;
    InvariantPages(k);
    AllocPagesSame(k, o);
    AllocPagesKeepsInv(k, o);
    AllocPagesOK(k, o);
    var (k1, r) := AllocPages(k, o);
    if r.Some? {
      LiveUpdate(k1.live, k.live, r.value, o);
      MarksSame(k1, r.value, o);
      SamePagesTrans(k, k1, Mark(k1, r.value, o));
    } else {
      SameZoneSamePages(k, k);
    }
  }

  lemma PutPagesSame(k: Kernel, p: nat, o: nat)
    requires IsBlock(k.live, p, o) && (forall s :: s in k.homes ==> k.homes[s].base != p) && KInv(k)
    ensures SamePages(k, PutPages(k, p, o))
  {
    hide KInv, PagesOK, FreePages, SamePages;
    UnmarkKeepsInv(k, p, o);
    var k1 := Unmark(k, p, o);
    MarksSame(k, p, o);
    FreePagesSame(k1, p, o);
    SamePagesTrans(k, k1, FreePages(k1, p, o));
  }

  // ----- allocation

  lemma GrowPagesSame(k: Kernel, c: nat)
    requires c in k.caches && KInv(k)
    ensures SamePages(k, GrowPages(k, c).0)
  {
    hide KInv, PagesOK, GetPages, BumpColour, SamePages;
    BumpKeepsInv(k, c);
    BumpPages(k, c);
    SameZoneSamePages(k, BumpColour(k, c));
    GetPagesSame(BumpColour(k, c), k.caches[c].geo.order);
    SamePagesTrans(k, BumpColour(k, c), GrowPages(k, c).0);
  }

  lemma InsertSame(k: Kernel, c: nat, s: nat, base: nat, offset: nat)
    requires c in k.caches && KInv(k)
    ensures SamePages(k, InsertSlab(k, c, s, base, offset))
  {
    hide KInv, SamePages, Thread, PageAddress, ObjectSeq, SetRange, Header;
    SameZoneSamePages(k, InsertSlab(k, c, s, base, offset));
  }

  lemma TakeSame(k: Kernel, c: nat, k1: Kernel, fromFree: bool)
    requires c in k.caches && c in k1.caches
    requires if fromFree then k1.caches[c].free != [] else k1.caches[c].partial != []
    requires Extends(k, k1, Touched(k, c)) && NewSlabsOnNewPages(k, k1) && Settles(k, k1, {}) && KInv(k1)
    ensures SamePages(k1, TakeNext(k, c, k1, fromFree).0)
  {
    hide KInv, Allocated, Extends, NewSlabsOnNewPages, Touched, Settles, SamePages, Taken;
    TakeCompletes(k, c, k1, if fromFree then k1.caches[c].free[0] else k1.caches[c].partial[0], fromFree);
    SameZoneSamePages(k1, TakeNext(k, c, k1, fromFree).0);
  }

  lemma OnSlabAllocSame(k: Kernel, c: nat)
    requires c in k.caches && !k.caches[c].geo.offSlab && KInv(k)
    ensures SamePages(k, CacheAlloc(k, c).0)
  {
    hide KInv, CacheAlloc, CacheGrow, TakeNext, Extends, NewSlabsOnNewPages, Settles, Touched, SamePages, GrowPages,
         InsertSlab, NextOffset, GotPages, PageAddress;
    AllocUnfolds(k, c);
    if k.caches[c].partial != [] { TakeSame(k, c, k, false); }
    else if k.caches[c].free != [] { TakeSame(k, c, k, true); }
    else {
      GrowUnfolds(k, c);
      GrowPagesSame(k, c);
      var (k1, r) := GrowPages(k, c);
      if r.Some? {
        InsertSame(k1, c, PageAddress(r.value) + NextOffset(k.caches[c]), r.value, NextOffset(k.caches[c]));
        SamePagesTrans(k, k1, CacheGrow(k, c).0);
        TakeSame(k, c, CacheGrow(k, c).0, true);
        SamePagesTrans(k, CacheGrow(k, c).0, CacheAlloc(k, c).0);
      }
    }
  }

  lemma OffSlabGrowSame(k: Kernel, c: nat)
    requires c in k.caches && k.caches[c].geo.offSlab && k.caches[c].free == [] && KInv(k)
    ensures SamePages(k, CacheGrow(k, c).0)
  {
    hide KInv, CacheGrow, GrowPages, InsertSlab, NextOffset, GotPages, Grew, CacheAlloc, PutPages, GrowOffSlab,
         Allocated, PagesOK, FlagsOK, CachesOK, SlabsOK, IsBlock, SamePages, PageAddress;
    GrowUnfolds(k, c);
    GrowPagesSame(k, c);
    var (k1, r) := GrowPages(k, c);
    if r.Some? {
      GrowOffUnfolds(k, c, k1, r.value);
      var (k2, s) := CacheAlloc(k1, k.caches[c].slabpCache);
      OnSlabAllocSame(k1, k.caches[c].slabpCache);
      SamePagesTrans(k, k1, k2);
      if s == NULL {
        PutPagesSame(k2, r.value, k.caches[c].geo.order);
      } else {
        InsertSame(k2, c, s, r.value, NextOffset(k.caches[c]));
      }
      SamePagesTrans(k, k2, CacheGrow(k, c).0);
    }
  }

  lemma AllocSame(k: Kernel, c: nat)
    requires c in k.caches && KInv(k)
    ensures SamePages(k, CacheAlloc(k, c).0)
  {
    hide KInv, CacheAlloc, CacheGrow, TakeNext, Extends, NewSlabsOnNewPages, Settles, Touched, SamePages;
    if !k.caches[c].geo.offSlab {
      OnSlabAllocSame(k, c);
    } else {
      AllocUnfolds(k, c);
      if k.caches[c].partial != [] { TakeSame(k, c, k, false); }
      else if k.caches[c].free != [] { TakeSame(k, c, k, true); }
      else {
        OffSlabGrowSame(k, c);
        if CacheGrow(k, c).1 {
          TakeSame(k, c, CacheGrow(k, c).0, true);
          SamePagesTrans(k, CacheGrow(k, c).0, CacheAlloc(k, c).0);
        }
      }
    }
  }

  // ----- release

  lemma GiveUpSame(k: Kernel, c: nat, s: nat, obj: nat)
    requires c in k.caches && s in k.slabs && s in k.homes && Freeable(k, c, s, obj) && Surplus(k, c, s)
    requires KInv(k)
    ensures SamePages(k, GiveUp(k, c, s, obj))
  {
    hide KInv, IsObject, DestroyedPage, Freeable, IsBlock, PutPages, Dropped, SamePages;
    ReadyToGiveUp(k, c, s, obj);
    var k1 := DropSlab(k, c, s, obj);
    SameZoneSamePages(k, k1);
    PutPagesSame(k1, DestroyedPage(k.caches[c].geo, k.slabs[s]), k.caches[c].geo.order);
    SamePagesTrans(k, k1, GiveUp(k, c, s, obj));
  }

  lemma {:induction false} FreeSame(k: Kernel, c: nat, obj: nat)
    requires CanFree(k, c, obj)
    requires KInv(k)
    ensures SamePages(k, CacheFree(k, c, obj))
    decreases if c in k.caches then Level(k, c) else 0
  {
    hide KInv, IsObject, Mapped, VirtToSlab, GiveUp, FreeWithDescriptor, CacheFree, SamePages, HeldFrom, PagesOK,
         FlagsOK, CachesOK, SlabsOK, Shrinks, GivesBack, Returned;
    FreeUnfolds(k, c, obj);
    var s := VirtToSlab(k, obj);
    if !Surplus(k, c, s) {
      SameZoneSamePages(k, PutObj(k, c, s, obj));
    } else {
      GiveUpSame(k, c, s, obj);
      if k.caches[c].geo.offSlab {
        FreeWithIs(k, c, s, obj);
        var k2 := GiveUp(k, c, s, obj);
        FreeSame(k2, k.caches[c].slabpCache, s);
        SamePagesTrans(k, k2, CacheFree(k, c, obj));
      }
    }
  }

  // ----- runs

  lemma CreateSame(k: Kernel, size: nat, align: nat, off: bool)
    requires CreateAllowed(k, size, align, off) && KInv(k)
    ensures SamePages(k, Create(k, size, align, off).0)
  {
    hide KInv, CacheAlloc, CacheFree, Allocated, MakeGeometry, GoodAlign, CanFree, CanAddCache, DescriptorsReady,
         SamePages;
    var (k1, id) := CacheAlloc(k, CACHE_CACHE);
    AllocSame(k, CACHE_CACHE);
    AllocatedInv(k, CACHE_CACHE, k1, id);
    if id != NULL {
      match MakeGeometry(size, align, off) {
        case None =>
          CanFreeAgain(k, k1, id);
          FreeSame(k1, CACHE_CACHE, id);
        case Some(g) =>
          CreateCanAdd(k, size, align, off, k1, id);
          SameZoneSamePages(k1, InsertCache(k1, id, g, k1.caches[CACHE_CACHE].slabpCache));
      }
      SamePagesTrans(k, k1, Create(k, size, align, off).0);
    }
  }

  lemma StepSame(k: Kernel, table: seq<nat>, op: Op)
    requires Allowed(k, table, op) && Good(k, table)
    ensures SamePages(k, Step(k, table, op))
  {
    hide KInv, Good, TableOK, Settled, Mapped, PageCache, CanFree, Freeable, CreateAllowed, IsBlock, PagesOK, Served,
         SamePages, AllocPages, FreePages, CacheAlloc, CacheFree, Create;
    GoodParts(k, table);
    match op {
      case AllocObject(c) => AllocSame(k, c);
      case FreeObject(c, a) => FreeSame(k, c, a);
      case CreateCache(size, align, off) => CreateSame(k, size, align, off);
      case AllocBlock(o) => AllocPagesSame(k, o);
      case FreeBlock(p, o) => FreePagesSame(k, p, o);
      case Malloc(size) => MallocSame(k, table, size);
      case FreeMalloc(a) => KfreeSame(k, table, a);
    }
  }

  lemma MallocSame(k: Kernel, table: seq<nat>, size: nat)
    requires TableOK(k, table) && Served(table, size) && KInv(k)
    ensures SamePages(k, Kmalloc(k, table, size).0)
  {
    hide KInv, CacheAlloc, SamePages;
    var i := SizeIndex(size, 0);
    if i < |SIZES| {
      assert GeneralCache(k, table[i], SIZES[i]);
      AllocSame(k, table[i]);
    } else {
      SameZoneSamePages(k, k);
    }
  }

  lemma KfreeSame(k: Kernel, table: seq<nat>, a: nat)
    requires a != NULL ==> exists s :: s in k.homes && Freeable(k, k.homes[s].cache, s, a)
    requires TableOK(k, table) && Settled(k) && KInv(k)
    ensures a != NULL ==> Mapped(k, a) && CanFree(k, PageCache(k, a), a)
    ensures SamePages(k, Kfree(k, a))
  {
    hide KInv, Settled, TableOK, Freeable, CacheFree, Mapped, VirtToSlab, PageCache, CanFree, SamePages;
    if a == NULL { SameZoneSamePages(k, k); } else {
      var s :| s in k.homes && Freeable(k, k.homes[s].cache, s, a);
      KfreeFindsCache(k, s, a);
      FreeSame(k, PageCache(k, a), a);
    }
  }

  /** No run gains or loses a page, whatever mixture of caches, objects and page blocks it works on. */
  lemma {:induction false} RunConservesPages(k: Kernel, table: seq<nat>, ops: seq<Op>)
    requires Good(k, table) && AllowedRun(k, table, ops)
    ensures SamePages(k, Run(k, table, ops))
    decreases |ops|
  {
    hide Good, Step, Allowed, SamePages;
    if ops == [] {
      GoodIsInvariant(k, table);
      SameZoneSamePages(k, k);
    } else {
      StepSame(k, table, ops[0]);
      RunConservesPages(Step(k, table, ops[0]), table, ops[1..]);
      SamePagesTrans(k, Step(k, table, ops[0]), Run(k, table, ops));
    }
  }

  // ----- from initialisation on

  lemma {:induction false} FillSame(k: Kernel, table: seq<nat>)
    requires Booting(k, table)
    ensures SamePages(k, FillTable(k, table).0)
    decreases |SIZES| - |table|
  {
    hide KInv, MakeGeometry, GoodAlign, PageSafe, Create, CreateAllowed, Settled, DescriptorsReady, SamePages, TableOK;
    TableLength(k, table);
    if |table| == |SIZES| {
      SameZoneSamePages(k, k);
    } else {
      SizeAllowed(k, |table|);
      BootStep(k, table);
      CreateSame(k, SIZES[|table|], MIN_ALIGN, true);
      var (k1, id) := Create(k, SIZES[|table|], MIN_ALIGN, true);
      if id.Some? {
        FillSame(k1, table + [id.value]);
        SamePagesTrans(k, k1, FillTable(k, table).0);
      }
    }
  }

  lemma BootSame(z: Zone, lru: seq<Links>, first: seq<nat>)
    requires CleanStart(z, lru, first)
    ensures SamePages(InitialKernel(z, lru, first), Boot(z, lru, first).0)
  {
    hide KInv, MakeGeometry, GoodAlign, PageSafe, Create, CreateAllowed, Settled, Booting, CleanStart, FirstCache, Good,
         DescriptorsReady, TableOK, CacheAlloc, FillTable, SamePages;
    InitialIsGood(z, lru, first);
    var k := InitialKernel(z, lru, first);
    DescriptorsAllowed(k);
    LoopCanStart(k);
    CreateSame(k, SLAB_T, MIN_ALIGN, false);
    var (k1, d) := Create(k, SLAB_T, MIN_ALIGN, false);
    if d.None? {
      AllocSame(k1, CACHE_CACHE);
      SamePagesTrans(k, k1, CacheAlloc(k1, CACHE_CACHE).0);
    } else {
      var k2 := NameDescriptors(k1, d.value);
      SameZoneSamePages(k1, k2);
      SamePagesTrans(k, k1, k2);
      FillSame(k2, []);
      SamePagesTrans(k, k2, FillTable(k2, []).0);
    }
  }

  /** Page `q` lies in the block of a slab. */
  ghost predicate InSlab(k: Kernel, q: nat) {
    exists s :: s in k.homes && k.homes[s].cache in k.caches
                && InBlock(q, k.homes[s].base, k.caches[k.homes[s].cache].geo.order)
  }

  /** Page `q` lies in a block that was handed out directly. */
  ghost predicate InDirectBlock(k: Kernel, q: nat) {
    exists p :: p in k.live && p !in k.marked && InBlock(q, p, k.live[p])
  }

  lemma HeldPages(k: Kernel, q: nat)
    requires KInv(k) && Settled(k)
    ensures Covered(k.live, q) <==> InSlab(k, q) || InDirectBlock(k, q)
    ensures !(InSlab(k, q) && InDirectBlock(k, q))
  {
    hide KInv, PagesOK, FlagsOK, CachesOK, SlabsOK, InBlock, IsBlock;
    if Covered(k.live, q) {
      var p :| p in k.live && InBlock(q, p, k.live[p]);
      if p in k.marked {
        var s :| s in k.homes && k.homes[s].base == p;
        SlabOfBlock(k, s);
      }
    }
    if InSlab(k, q) {
      var s :| s in k.homes && k.homes[s].cache in k.caches
               && InBlock(q, k.homes[s].base, k.caches[k.homes[s].cache].geo.order);
      SlabOfBlock(k, s);
      if InDirectBlock(k, q) {
        var p :| p in k.live && p !in k.marked && InBlock(q, p, k.live[p]);
        InvariantPages(k);
        PagesInv(k);
        LiveBlocksApart(k.zone, k.live, p, k.homes[s].base, q);
      }
    }
  }

  lemma SlabOfBlock(k: Kernel, s: nat)
    requires s in k.homes && KInv(k)
    ensures k.homes[s].cache in k.caches && k.homes[s].base in k.live && k.homes[s].base in k.marked
    ensures k.live[k.homes[s].base] == k.caches[k.homes[s].cache].geo.order
  {
    hide PagesOK, FlagsOK, CachesOK, PlacedSlab, ChainOK, PointsBack, HeldFrom;
    assert SlabOK(k, s);
  }

  lemma CoverParts(k: Kernel, q: nat)
    requires KInv(k)
    ensures Covered(AllBlocks(k.zone, k.live), q) <==> q in FreeSet(k.zone) || Covered(k.live, q)
    ensures !(q in FreeSet(k.zone) && Covered(k.live, q))
  {
    hide KInv, Inv, LinksMatch;
    InvariantPages(k);
    ZoneRuns.PageIsFreeOrHeld(ZoneRuns.State(k.zone, k.live), q);
  }

  /** After initialisation and any run: a page that was free at the start is free, or in a slab, or in a
      block handed out directly, and in only one of these; and no other page is in any of them. */
  lemma EveryPageIsAccountedFor(z: Zone, lru: seq<Links>, first: seq<nat>, ops: seq<Op>, q: nat)
    requires CleanStart(z, lru, first)
    requires AllowedRun(Boot(z, lru, first).0, Boot(z, lru, first).1, ops)
    ensures var k := Run(Boot(z, lru, first).0, Boot(z, lru, first).1, ops);
            && (q in FreeSet(z) <==> q in FreeSet(k.zone) || InSlab(k, q) || InDirectBlock(k, q))
            && !(q in FreeSet(k.zone) && (InSlab(k, q) || InDirectBlock(k, q)))
            && !(InSlab(k, q) && InDirectBlock(k, q))
  {
    hide Boot, CleanStart, KInv, Run, AllowedRun, TableOK, Settled, FreeSet, InSlab, InDirectBlock, Covered, FirstCache,
         AllBlocks;
    var k0, k1 := InitialKernel(z, lru, first), Boot(z, lru, first).0;
    var k := Run(k1, Boot(z, lru, first).1, ops);
    InitialIsGood(z, lru, first);
    BootSame(z, lru, first);
    RunConservesPages(k1, Boot(z, lru, first).1, ops);
    SamePagesTrans(k0, k1, k);
    GoodParts(k, Boot(z, lru, first).1);
    CoverParts(k0, q);
    CoverParts(k, q);
    HeldPages(k, q);
    ZoneRuns.NothingCovered(q);
    ZoneRuns.SameCoverAt(AllBlocks(k0.zone, k0.live), AllBlocks(k.zone, k.live), q);
  }
}
