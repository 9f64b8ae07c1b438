/** The slab allocator in place: its loops and updates, each proved equal to the operation on
    values. */
module SlabAllocator {
  import opened Bits
  import opened Blocks
  import opened Options
  import opened PageAddr
  import opened PageFlags
  import opened SlabLayout
  import opened Sequences
  import opened Zone
  import opened ZoneProofs
  import opened ZoneTheorems
  import opened ListHead
  import opened ZoneLinks
  import opened BuddyZone
  import opened SlabModel
  import opened SlabPlaces
  import opened SlabObjects
  import opened SlabPages
  import opened SlabGrow
  import opened SlabDrop
  import opened SlabFrames
  import opened SlabAlloc
  import opened SlabFree
  import opened SlabSystem
  import opened SlabTheorems
  import opened SlabBoot

  /** The layout part of `kmem_cache_create`, by its search loop. */
  method PlanCache(size: nat, align: nat, off: bool) returns (g: Option<Geometry>)
    requires size > 0 && align > 0 && GoodAlign(align)
    ensures g == MakeGeometry(size, align, off)
  {
    hide SlabOrder, CacheEstimate, AlignUp, ObjectSize, SlabBytes, GoodAlign;
    var objsize := ObjectSize(size, align);
    ObjectSizeBounds(size, align);
    GoodAlignDivides(align);
    var order, num, left := CalculateSlabOrder(objsize, align, off);
    if num == 0 { return None; }
    EstimateSigns(order, objsize, align, off);
    g := Some(Geometry(objsize, num, order, off, if off then SLAB_T else AlignUp(SLAB_T, align),
                       ColoursIn(left, align), ColourUnit(align), num));
  }

  class SlabAllocator {
    const zone: BuddyZone
    /** Descriptors by address. */
    var caches: map<nat, Cache>
    var slabs: map<nat, Slab>
    /** The words in free objects that hold the chains. */
    var words: map<nat, nat>
    ghost var homes: map<nat, Home>
    ghost var live: map<nat, nat>
    ghost var marked: set<nat>

    ghost predicate Valid()
      reads zone
    {
      zone.Valid()
    }

    ghost function State(): Kernel
      reads this, zone, zone.memMap, zone.lru, zone.firstPage, zone.nrFree
    {
      Kernel(zone.State(), zone.lru[..], zone.firstPage[..], caches, slabs, words, homes, live, marked)
    }

    /** The first part of `kmem_cache_init`, over a zone just initialised. */
    constructor (z: BuddyZone)
      requires z.Valid() && CleanStart(z.State(), z.lru[..], z.firstPage[..])
      ensures Valid() && zone == z && State() == InitialKernel(z.State(), z.lru[..], z.firstPage[..])
    {
      hide GoodAlign, MakeGeometry, CleanStart;
      zone := z;
      CacheCacheGeometry();
      var g := PlanCache(KMEM_CACHE_T, CACHE_LINE, false);
      caches := map[CACHE_CACHE := NewCache(g.value, NULL)];
      slabs, words, homes, live, marked := map[], map[], map[], map[], {};
    }

    // ----- pages

    /** The loop of `kmem_getpages` around `SetPageSlab`. */
    method MarkPages(page: nat, order: nat)
      requires Valid() && page + Pow2(order) <= zone.present
      modifies zone.memMap, this`marked
      ensures State() == Mark(old(State()), page, order)
    {
      hide Pow2;
      ghost var pages := zone.memMap[..];
      var i := 0;
      while i < Pow2(order)
        modifies zone.memMap
        invariant 0 <= i <= Pow2(order)
        invariant zone.memMap[..] == MarkRange(pages, page, page + i)
      {
        zone.memMap[page + i] := zone.memMap[page + i].(flags := SetSlab(zone.memMap[page + i].flags));
        i := i + 1;
      }
      marked := marked + {page};
    }

    /** The loop of `kmem_freepages` around `ClearPageSlab`. */
    method UnmarkPages(page: nat, order: nat)
      requires Valid() && page + Pow2(order) <= zone.present
      modifies zone.memMap, this`marked
      ensures State() == Unmark(old(State()), page, order)
    {
      hide Pow2;
      ghost var pages := zone.memMap[..];
      var i := 0;
      while i < Pow2(order)
        modifies zone.memMap
        invariant 0 <= i <= Pow2(order)
        invariant zone.memMap[..] == UnmarkRange(pages, page, page + i)
      {
        zone.memMap[page + i] := zone.memMap[page + i].(flags := ClearSlab(zone.memMap[page + i].flags));
        i := i + 1;
      }
      marked := marked - {page};
    }

    /** `kmem_getpages` */
    method TakePages(order: nat) returns (page: Option<nat>)
      requires Valid() && PagesOK(State())
      modifies this`live, this`marked, zone, zone.memMap, zone.lru, zone.nrFree
      ensures Valid()
      ensures (State(), page) == GetPages(old(State()), order)
    {
      hide Inv, LinksMatch, Alloc, Relinked, Listed, Placed, FreeMap, Pow2, Mark;
      ghost var k := State();
      AllocPagesOK(k, order);
      AllocIsAlloc(k, order);
      page := zone.AllocateBlock(order, live);
      if page.None? { return; }
      live := live[page.value := order];
      assert State() == AllocPages(k, order).0;
      NewBlockFits(State(), page.value, order);
      MarkPages(page.value, order);
    }

    /** `kmem_freepages` */
    method ReturnPages(addr: nat, order: nat)
      requires Valid() && IsBlock(live, VirtToPage(addr), order)
      requires (forall s :: s in homes ==> homes[s].base != VirtToPage(addr)) && KInv(State())
      modifies this`live, this`marked, zone, zone.memMap, zone.lru, zone.nrFree
      ensures Valid()
      ensures State() == PutPages(old(State()), VirtToPage(addr), order)
    {
      hide KInv, LinksMatch, Free, Relinked, Pow2, PutPages, VirtToPage, UnmarkRange;
      ghost var k := State();
      var page := VirtToPage(addr);
      FreeIsFree(k, page, order);
      UnmarkPages(page, order);
      assert zone.memMap[page] == State().zone.pages[page];
      zone.FreeBlock(page, order);
      live := live - {page};
    }

    // ----- a new slab

    /** `slab_map_pages` */
    method MapPages(c: nat, s: nat, objp: nat, order: nat)
      requires Valid() && VirtToPage(objp) + Pow2(order) <= zone.present
      modifies zone.lru, zone.firstPage
      ensures zone.lru[..] == SetRange(old(zone.lru[..]), VirtToPage(objp), VirtToPage(objp) + Pow2(order), Owner(c, s))
      ensures zone.firstPage[..] ==
              SetRange(old(zone.firstPage[..]), VirtToPage(objp), VirtToPage(objp) + Pow2(order), VirtToPage(objp))
      ensures OtherRingsStay(old(zone.lru[..]), zone.lru[..], BlockSet(VirtToPage(objp), order))
    {
      hide Pow2, VirtToPage, OtherRingsStay;
      ghost var l, f := zone.lru[..], zone.firstPage[..];
      var first := VirtToPage(objp);
      var page := first;
      var n := Pow2(order);
      while n > 0
        modifies zone.lru, zone.firstPage
        invariant 0 <= n <= Pow2(order) && page == first + (Pow2(order) - n)
        invariant zone.lru[..] == SetRange(l, first, page, Owner(c, s))
        invariant zone.firstPage[..] == SetRange(f, first, page, first)
      {
        zone.firstPage[page] := first;
        zone.lru[page] := Owner(c, s);
        page := page + 1;
        n := n - 1;
      }
      MappingTouches(l, zone.lru[..], first, order, Owner(c, s));
      UntouchedRingsStay(l, zone.lru[..], BlockSet(first, order));
    }

    /** `cache_init_objs` */
    method InitObjects(c: nat, s: nat)
      requires c in caches && s in slabs
      modifies this`slabs, this`words
      ensures var g := caches[c].geo;
              var (chained, head) := Thread(old(words), g, old(slabs)[s].sMem, g.num, NULL);
              words == chained && slabs == old(slabs)[s := old(slabs)[s].(freeList := head)]
    {
      hide ObjectAt;
      var g := caches[c].geo;
      var sMem := slabs[s].sMem;
      slabs := slabs[s := slabs[s].(freeList := NULL)];
      var i := g.num;
      while i > 0
        modifies this`slabs, this`words
        invariant 0 <= i <= g.num && s in slabs
        invariant slabs == old(slabs)[s := old(slabs)[s].(freeList := slabs[s].freeList)]
        invariant Thread(words, g, sMem, i, slabs[s].freeList) == Thread(old(words), g, sMem, g.num, NULL)
      {
        i := i - 1;
        var objp := ObjectAt(sMem, g.objsize, i);
        words := words[objp := slabs[s].freeList];
        slabs := slabs[s := slabs[s].(freeList := objp)];
      }
    }

    /** `alloc_slabmgmt` once the descriptor's place is known, and the rest of `cache_grow`. */
    method AddSlab(c: nat, s: nat, page: nat, offset: nat)
      requires Valid() && c in caches && page + Pow2(caches[c].geo.order) <= zone.present <= DIRECT_PAGES
      modifies this`caches, this`slabs, this`words, this`homes, zone.lru, zone.firstPage
      ensures State() == InsertSlab(old(State()), c, s, page, offset)
    {
      hide Thread, ObjectSeq, PageAddress, VirtToPage, Pow2, SetRange;
      hide Header, InsertSlab, Grown, OtherRingsStay, BlockSet;
      ghost var k := State();
      InsertParts(k, c, s, page, offset);
      PageOfAddress(page, 0);
      var objp := PageAddress(page);
      var colourOff := offset + Header(caches[c].geo);
      slabs := slabs[s := Slab(colourOff, objp + colourOff, 0, NULL)];
      MapPages(c, s, objp, caches[c].geo.order);
      InitObjects(c, s);
      caches := caches[c := Grown(caches[c], s)];
      homes := homes[s := Home(c, page, ObjectSeq(k.caches[c].geo, objp + colourOff))];
    }

    // ----- allocation

    /** `slab_get_obj` */
    method GetObject(c: nat, s: nat) returns (obj: nat)
      requires c in caches && s in slabs && slabs[s].freeList in words
      modifies this`slabs, this`caches
      ensures obj == old(slabs)[s].freeList
      ensures slabs == old(slabs)[s := old(slabs)[s].(freeList := words[obj], inuse := old(slabs)[s].inuse + 1)]
      ensures caches == old(caches)[c := old(caches)[c].(freeObjects := old(caches)[c].freeObjects - 1)]
    {
      obj := slabs[s].freeList;
      slabs := slabs[s := slabs[s].(freeList := words[obj], inuse := slabs[s].inuse + 1)];
      caches := caches[c := caches[c].(freeObjects := caches[c].freeObjects - 1)];
    }

    /** `cache_alloc_refill` once a slab with room is at the head of the partial or free list. */
    method TakeObject(c: nat, fromFree: bool) returns (obj: nat)
      requires c in caches && (if fromFree then caches[c].free != [] else caches[c].partial != [])
      requires var s := if fromFree then caches[c].free[0] else caches[c].partial[0];
               s in slabs && s in homes && homes[s].chain != [] && slabs[s].freeList in words
      modifies this`slabs, this`caches, this`homes
      ensures var s := if fromFree then old(caches)[c].free[0] else old(caches)[c].partial[0];
              (State(), obj) == TakeObj(old(State()), c, s, fromFree)
    {
      var s := if fromFree then caches[c].free[0] else caches[c].partial[0];
      if fromFree {
        caches := caches[c := caches[c].(free := caches[c].free[1..], partial := [s] + caches[c].partial)];
      }
      obj := GetObject(c, s);
      if slabs[s].freeList == NULL {
        caches := caches[c := caches[c].(partial := caches[c].partial[1..], full := [s] + caches[c].full)];
      }
      assert caches == old(caches)[c := Taken(old(caches)[c], s, fromFree, slabs[s].freeList == NULL)];
      homes := homes[s := homes[s].(chain := homes[s].chain[1..])];
    }

    /** `cache_grow` */
    method GrowCache(c: nat) returns (ok: bool)
      requires Valid() && c in caches && caches[c].free == [] && KInv(State())
      modifies this, zone, zone.memMap, zone.lru, zone.firstPage, zone.nrFree
      ensures Valid()
      ensures (State(), ok) == CacheGrow(old(State()), c)
      decreases Level(State(), c), 1
    {
      hide KInv, Grew, GotPages, GrowPages, GetPages, InsertSlab, NextOffset, PageAddress, VirtToPage, PutPages,
           CacheGrow, GrowOffSlab, CacheAlloc,
           PagesOK, BumpColour, IsBlock, Pow2;
      ghost var k := State();
      var order := caches[c].geo.order;
      var offset := NextOffset(caches[c]);
      GrowUnfolds(k, c);
      caches := caches[c := caches[c].(colourNext := NextColour(caches[c]))];
      BumpIs(k, c, State());
      BumpKeepsInv(k, c);
      InvariantPages(State());
      var page := TakePages(order);
      GrowPagesIs(k, c, State(), page);
      if page.None? { return false; }
      ghost var k1 := State();
      PendingFits(k, c, k1, page.value);
      if !caches[c].geo.offSlab {
        AddSlab(c, PageAddress(page.value) + offset, page.value, offset);
        return true;
      }
      GrowOffUnfolds(k, c, k1, page.value);
      var s := AllocObject(caches[c].slabpCache);
      if s == NULL {
        ReturnPages(PageAddress(page.value), order);
        return false;
      }
      AddSlab(c, s, page.value, offset);
      return true;
    }

    /** `kmem_cache_alloc` */
    method AllocObject(c: nat) returns (obj: nat)
      requires Valid() && c in caches && KInv(State())
      modifies this, zone, zone.memMap, zone.lru, zone.firstPage, zone.nrFree
      ensures Valid()
      ensures (State(), obj) == CacheAlloc(old(State()), c)
      decreases Level(State(), c), 2
    {
      hide KInv, Allocated, CacheAlloc, CacheGrow, Extends, Settles, NewSlabsOnNewPages, Touched, TakeObj;
      ghost var k := State();
      AllocUnfolds(k, c);
      var fromFree := false;
      if caches[c].partial == [] {
        if caches[c].free == [] {
          var ok := GrowCache(c);
          if !ok { return NULL; }
        }
        fromFree := true;
      }
      HandOutKeepsInv(State(), c, if fromFree then caches[c].free[0] else caches[c].partial[0], fromFree);
      obj := TakeObject(c, fromFree);
    }

    // ----- release

    /** `virt_to_slab` */
    method FindSlab(obj: nat) returns (s: nat)
      requires Valid() && Mapped(State(), obj)
      ensures s == VirtToSlab(State(), obj)
    {
      hide VirtToPage;
      s := zone.lru[zone.firstPage[VirtToPage(obj)]].prev.a;
    }

    /** `slab_put_obj` */
    method PutObject(s: nat, obj: nat)
      requires s in slabs && slabs[s].inuse >= 1
      modifies this`slabs, this`words
      ensures words == old(words)[obj := old(slabs)[s].freeList]
      ensures slabs == old(slabs)[s := old(slabs)[s].(freeList := obj, inuse := old(slabs)[s].inuse - 1)]
    {
      words := words[obj := slabs[s].freeList];
      slabs := slabs[s := slabs[s].(freeList := obj, inuse := slabs[s].inuse - 1)];
    }

    /** `slab_destroy`: `k` is the state in which `obj`, the slab's last, is freed. */
    method DestroySlab(c: nat, s: nat, sl: Slab, ghost obj: nat, ghost k: Kernel)
      requires Valid() && c in k.caches && s in k.slabs && s in k.homes && sl == k.slabs[s]
      requires State() == DropSlab(k, c, s, obj)
      requires Freeable(k, c, s, obj) && Surplus(k, c, s) && KInv(k)
      modifies this, zone, zone.memMap, zone.lru, zone.firstPage, zone.nrFree
      ensures Valid()
      ensures State() == if k.caches[c].geo.offSlab then FreeWithDescriptor(k, c, s, obj) else GiveUp(k, c, s, obj)
      decreases Level(k, c), 0
    {
      hide KInv, DropSlab, Freeable, VirtToPage, PutPages, FreeWithDescriptor, GiveUp, CacheFree, CanFree, IsBlock;
      DropBasics(k, c, s, obj);
      ReadyToGiveUp(k, c, s, obj);
      GiveUpIs(k, c, s, obj, State(), DestroyedPage(k.caches[c].geo, sl));
      var order := caches[c].geo.order;
      if caches[c].geo.offSlab {
        ReturnPages(sl.sMem, order);
        FreeWithIs(k, c, s, obj);
        FreeObject(caches[c].slabpCache, s);
      } else {
        ReturnPages(sl.sMem - sl.colourOff, order);
      }
    }

    /** The counter and list updates of `kmem_cache_free` after an object went back to slab `s`;
        whether the slab is to be destroyed. */
    method CountBack(c: nat, s: nat, wasFull: bool) returns (surplus: bool)
      requires c in caches && s in slabs
      modifies this`caches
      ensures surplus <==> slabs[s].inuse == 0 && old(caches)[c].freeObjects + 1 > old(caches)[c].geo.freeLimit
      ensures caches == old(caches)[c := if surplus then Dropped(old(caches)[c], s)
                                         else Returned(old(caches)[c], s, wasFull, slabs[s].inuse == 0)]
    {
      var cc := caches[c];
      cc := cc.(freeObjects := cc.freeObjects + 1);
      surplus := false;
      if slabs[s].inuse == 0 {
        cc := cc.(partial := Remove(cc.partial, s), full := Remove(cc.full, s));
        if cc.freeObjects > cc.geo.freeLimit {
          cc := cc.(freeObjects := cc.freeObjects - cc.geo.num);
          surplus := true;
        } else {
          cc := cc.(free := [s] + cc.free);
        }
      } else if wasFull {
        cc := cc.(full := Remove(cc.full, s), partial := cc.partial + [s]);
      }
      caches := caches[c := cc];
    }

    /** `kmem_cache_free` up to `slab_destroy`; whether the slab is to be destroyed. */
    method ReturnObject(c: nat, s: nat, obj: nat) returns (surplus: bool)
      requires c in caches && s in slabs && s in homes && slabs[s].inuse >= 1
      modifies this`slabs, this`words, this`caches, this`homes
      ensures surplus == Surplus(old(State()), c, s)
      ensures State() == if surplus then DropSlab(old(State()), c, s, obj) else PutObj(old(State()), c, s, obj)
    {
      hide Returned, Dropped;
      var wasFull := slabs[s].inuse == caches[c].geo.num;
      PutObject(s, obj);
      surplus := CountBack(c, s, wasFull);
      if surplus {
        slabs, homes := slabs - {s}, homes - {s};
        assert slabs == old(slabs) - {s};
      } else {
        homes := homes[s := homes[s].(chain := [obj] + homes[s].chain)];
      }
    }

    /** `kmem_cache_free` */
    method FreeObject(c: nat, obj: nat)
      requires Valid() && CanFree(State(), c, obj) && KInv(State())
      modifies this, zone, zone.memMap, zone.lru, zone.firstPage, zone.nrFree
      ensures Valid()
      ensures State() == CacheFree(old(State()), c, obj)
      decreases Level(State(), c), 1
    {
      hide KInv, Mapped, VirtToSlab, PutObj, DropSlab, CacheFree, GiveUp, FreeWithDescriptor, Freeable;
      ghost var k := State();
      var s := FindSlab(obj);
      FreeUnfolds(k, c, obj);
      var sl := slabs[s];
      var surplus := ReturnObject(c, s, obj);
      if surplus { DestroySlab(c, s, sl, obj, k); }
    }

    // ----- caches, kmalloc and kfree

    /** `kmem_cache_create` */
    method CreateCache(size: nat, align: nat, off: bool) returns (id: Option<nat>)
      requires Valid() && CreateAllowed(State(), size, align, off) && KInv(State())
      modifies this, zone, zone.memMap, zone.lru, zone.firstPage, zone.nrFree
      ensures Valid()
      ensures (State(), id) == Create(old(State()), size, align, off)
    {
      hide KInv, Allocated, MakeGeometry, GoodAlign, PageSafe, DescriptorsReady, CacheAlloc, CacheFree, CanFree,
           CanAddCache, NewCache;
      ghost var k := State();
      var cachep := AllocObject(CACHE_CACHE);
      ghost var k1 := State();
      AllocatedInv(k, CACHE_CACHE, k1, cachep);
      AllocatedKeys(k, CACHE_CACHE, k1, cachep);
      if cachep == NULL { return None; }
      var g := PlanCache(size, align, off);
      if g.None? {
        CanFreeAgain(k, k1, cachep);
        FreeObject(CACHE_CACHE, cachep);
        return None;
      }
      caches := caches[cachep := NewCache(g.value, caches[CACHE_CACHE].slabpCache)];
      return Some(cachep);
    }

    /** `kmalloc`, with the caches of `malloc_sizes` in `table` */
    method Kmalloc(table: seq<nat>, size: nat) returns (obj: nat)
      requires Valid() && TableOK(State(), table) && Served(table, size) && KInv(State())
      modifies this, zone, zone.memMap, zone.lru, zone.firstPage, zone.nrFree
      ensures Valid()
      ensures (State(), obj) == SlabSystem.Kmalloc(old(State()), table, size)
    {
      hide KInv, CacheAlloc;
      var i := 0;
      while i < |SIZES| && size > SIZES[i]
        modifies {}
        invariant 0 <= i <= |SIZES| && SizeIndex(size, 0) == SizeIndex(size, i)
      {
        i := i + 1;
      }
      if i == |SIZES| { return NULL; }
      assert GeneralCache(State(), table[i], SIZES[i]);
      obj := AllocObject(table[i]);
    }

    /** `kfree` */
    method Kfree(obj: nat)
      requires Valid() && (obj != NULL ==> Mapped(State(), obj) && CanFree(State(), PageCache(State(), obj), obj))
      requires KInv(State())
      modifies this, zone, zone.memMap, zone.lru, zone.firstPage, zone.nrFree
      ensures Valid()
      ensures State() == SlabSystem.Kfree(old(State()), obj)
    {
      hide KInv, CanFree, CacheFree;
      if obj == NULL { return; }
      var c := zone.lru[VirtToPage(obj)].next.a;
      FreeObject(c, obj);
    }

    /** The rest of `kmem_cache_init`: the descriptor cache and the general caches. */
    method InitCaches() returns (table: seq<nat>)
      requires Valid() && CleanStart(zone.State(), zone.lru[..], zone.firstPage[..])
      requires State() == InitialKernel(zone.State(), zone.lru[..], zone.firstPage[..])
      modifies this, zone, zone.memMap, zone.lru, zone.firstPage, zone.nrFree
      ensures Valid()
      ensures (State(), table) == Boot(old(zone.State()), old(zone.lru[..]), old(zone.firstPage[..]))
    {
      hide KInv, MakeGeometry, GoodAlign, PageSafe, Create, CreateAllowed, Settled, Booting, CleanStart, FirstCache,
           CacheAlloc, FillTable;
      ghost var k := State();
      InitialIsGood(zone.State(), zone.lru[..], zone.firstPage[..]);
      DescriptorsAllowed(k);
      LoopCanStart(k);
      var d := CreateCache(SLAB_T, MIN_ALIGN, false);
      if d.None? {
        var cachep := AllocObject(CACHE_CACHE);
        return [];
      }
      caches := caches[CACHE_CACHE := caches[CACHE_CACHE].(slabpCache := d.value)];
      ghost var k2 := State();
      table := [];
      while |table| < |SIZES|
        invariant Valid() && Booting(State(), table) && |table| <= |SIZES|
        invariant FillTable(State(), table) == FillTable(k2, [])
        decreases |SIZES| - |table|
      {
        FillUnfolds(State(), table);
        var id := CreateCache(SIZES[|table|], MIN_ALIGN, true);
        if id.None? { return; }
        table := table + [id.value];
      }
      FillUnfolds(State(), table);
    }
  }

  lemma FillUnfolds(k: Kernel, table: seq<nat>)
    requires Booting(k, table)
    ensures |table| <= |SIZES|
    ensures |table| == |SIZES| ==> FillTable(k, table) == (k, table)
    ensures |table| < |SIZES| ==>
              && CreateAllowed(k, SIZES[|table|], MIN_ALIGN, true) && KInv(k)
              && var (k1, id) := Create(k, SIZES[|table|], MIN_ALIGN, true);
                 if id.None? then FillTable(k, table) == (k1, table)
                 else Booting(k1, table + [id.value]) && FillTable(k, table) == FillTable(k1, table + [id.value])
  {
    hide KInv, MakeGeometry, GoodAlign, PageSafe, Create, CreateAllowed, Settled, DescriptorsReady;
    if |table| < |SIZES| {
      SizeAllowed(k, |table|);
      BootStep(k, table);
    }
  }

  lemma MappingTouches(l: seq<Links>, r: seq<Links>, base: nat, order: nat, x: Links)
    requires r == SetRange(l, base, base + Pow2(order), x)
    ensures OnlyTouches(l, r, BlockSet(base, order))
  {
    hide Pow2;
    forall n: nat | n < |l| && n !in BlockSet(base, order) ensures r[n] == l[n] {
      assert base <= n < base + Pow2(order) ==> InBlock(n, base, order);
    }
  }

  lemma DropBasics(k: Kernel, c: nat, s: nat, obj: nat)
    requires c in k.caches && s in k.slabs
    ensures var k1 := DropSlab(k, c, s, obj);
            c in k1.caches && k1.caches[c].geo == k.caches[c].geo && k1.caches[c].slabpCache == k.caches[c].slabpCache
  {
  }

  lemma GiveUpIs(k: Kernel, c: nat, s: nat, obj: nat, k1: Kernel, p: nat)
    requires c in k.caches && s in k.slabs && s in k.homes && k.slabs[s].colourOff <= k.slabs[s].sMem
    requires k1 == DropSlab(k, c, s, obj) && p == DestroyedPage(k.caches[c].geo, k.slabs[s])
    requires IsBlock(k1.live, p, k.caches[c].geo.order) && forall t :: t in k1.homes ==> k1.homes[t].base != p
    requires Freeable(k, c, s, obj) && Surplus(k, c, s) && KInv(k) && KInv(k1)
    ensures GiveUp(k, c, s, obj) == PutPages(k1, p, k.caches[c].geo.order)
  {
    hide KInv, IsObject, DropSlab, DestroyedPage, PutPages, IsBlock;
  }

  lemma BumpIs(k: Kernel, c: nat, b: Kernel)
    requires c in k.caches && b == k.(caches := k.caches[c := k.caches[c].(colourNext := NextColour(k.caches[c]))])
    ensures b == BumpColour(k, c)
  {
  }

  lemma GrowPagesIs(k: Kernel, c: nat, k1: Kernel, r: Option<nat>)
    requires c in k.caches && PagesOK(BumpColour(k, c))
    requires (k1, r) == GetPages(BumpColour(k, c), k.caches[c].geo.order) && KInv(k)
    ensures (k1, r) == GrowPages(k, c)
  {
    hide KInv, GetPages, PagesOK, BumpColour;
  }

  /** The pages taken lie in the zone, which lies in the direct map. */
  lemma PendingFits(k: Kernel, c: nat, k1: Kernel, p: nat)
    requires c in k.caches && GotPages(k, c, k1, p) && KInv(k1)
    ensures IsBlock(k1.live, p, k.caches[c].geo.order) && forall t :: t in k1.homes ==> k1.homes[t].base != p
    ensures c in k1.caches && k1.caches[c].geo == k.caches[c].geo && k1.caches[c].slabpCache == k.caches[c].slabpCache
    ensures p + Pow2(k.caches[c].geo.order) <= |k1.zone.pages| <= DIRECT_PAGES
    ensures VirtToPage(PageAddress(p)) == p
  {
    hide KInv, PagesOK, VirtToPage, PageAddress;
    InvariantPages(k1);
    BlockInDirectMap(k1, p);
    PageOfAddress(p, 0);
  }

  lemma InsertParts(k: Kernel, c: nat, s: nat, base: nat, offset: nat)
    requires c in k.caches
    ensures var g := k.caches[c].geo;
            var sMem := PageAddress(base) + (offset + Header(g));
            InsertSlab(k, c, s, base, offset) ==
            Kernel(k.zone, SetRange(k.lru, base, base + Pow2(g.order), Owner(c, s)),
                   SetRange(k.first, base, base + Pow2(g.order), base),
                   k.caches[c := Grown(k.caches[c], s)],
                   k.slabs[s := Slab(offset + Header(g), sMem, 0, Thread(k.words, g, sMem, g.num, NULL).1)],
                   Thread(k.words, g, sMem, g.num, NULL).0,
                   k.homes[s := Home(c, base, ObjectSeq(g, sMem))], k.live, k.marked)
  {
    hide Thread, ObjectSeq, PageAddress, Pow2, SetRange, Header, Grown;
  }

  lemma FreeIsFree(k: Kernel, p: nat, o: nat)
    requires IsBlock(k.live, p, o) && (forall s :: s in k.homes ==> k.homes[s].base != p) && KInv(k)
    ensures var k1 := Unmark(k, p, o);
            && Shaped(k1.zone) && o < GROUPS && p + Pow2(o) <= |k.zone.pages| && p < |k.zone.pages|
            && LinksMatch(k1.zone, k1.lru)
            && Listed(k1.zone) && |k1.zone.pages| == |k.zone.pages| && !k1.zone.pages[p].flags.priv
            && var z := Free(k1.zone, p, o);
               && Fits(k1, z)
               && PutPages(k, p, o) == k1.(zone := z, lru := Relinked(k1.lru, k1.zone, z), live := k1.live - {p})
  {
    hide KInv, Inv, LinksMatch, Free, Relinked, Pow2, UnmarkRange;
    UnmarkKeepsInv(k, p, o);
    var k1 := Unmark(k, p, o);
    InvariantPages(k1);
    InvariantPages(k);
    NewBlockFits(k, p, o);
    FreePagesOK(k1, p, o);
    PlainBlock(k1, p, o);
  }

  lemma PlainBlock(k: Kernel, p: nat, o: nat)
    requires PagesOK(k) && IsBlock(k.live, p, o)
    ensures Listed(k.zone) && p < |k.zone.pages| && !k.zone.pages[p].flags.priv
  {
    hide Inv, Listed, LinksMatch;
    InvParts(k.zone, k.live);
    LivePageIsPlain(k.zone, k.live, p, p);
  }

  lemma AllocIsAlloc(k: Kernel, o: nat)
    requires PagesOK(k)
    ensures Listed(k.zone) && Placed(FreeMap(k.zone), |k.zone.pages|) && Fits(k, k.zone)
    ensures Alloc(k.zone, o).1 == AllocPages(k, o).1
    ensures Alloc(k.zone, o).1.None? ==> Alloc(k.zone, o).0 == k.zone && Relinked(k.lru, k.zone, k.zone) == k.lru
    ensures Alloc(k.zone, o).1.Some? ==>
              var z := Alloc(k.zone, o).0;
              Fits(k, z) &&
              AllocPages(k, o).0 ==
              k.(zone := z, lru := Relinked(k.lru, k.zone, z), live := k.live[Alloc(k.zone, o).1.value := o])
  {
    hide Inv, LinksMatch, Relinked, Listed, Placed, FreeMap, Split;
    AllocPagesOK(k, o);
    RelinkedRefl(k.lru, k.zone);
    LinksSize(k.zone, k.lru);
    AllocFailsUnchanged(k.zone, o);
  }

  lemma AllocFailsUnchanged(z: Zone, o: nat)
    requires Listed(z) && Placed(FreeMap(z), |z.pages|)
    ensures Alloc(z, o).1.None? ==> Alloc(z, o).0 == z
  {
    hide Listed, Placed, FreeMap, Split;
  }

  lemma NewBlockFits(k: Kernel, p: nat, o: nat)
    requires PagesOK(k) && IsBlock(k.live, p, o)
    ensures p + Pow2(o) <= |k.zone.pages|
  {
    hide PagesOK;
    BlockInDirectMap(k, p);
  }
}
