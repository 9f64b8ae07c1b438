/** Which slab an operation works on, and where that slab is listed afterwards. */
module SlabMoves {
  import opened Blocks
  import opened Options
  import opened PageAddr
  import opened Sequences
  import opened Zone
  import opened SlabLayout
  import opened SlabModel
  import opened SlabLists
  import opened SlabObjects
  import opened SlabPages
  import opened SlabGrow
  import opened SlabDrop
  import opened SlabFrames
  import opened SlabAlloc
  import opened SlabFree
  import opened SlabTheorems
  import opened SlabExact
  import opened SlabReuse

  // ----- allocation with an object in stock

  /** The lists after slab `s`, the first partial one or else the empty one, has `n` objects in use: it is
      first on the partial list, or on the full list if `n` is all it has. */
  predicate ListsAfterTake(cc: Cache, cc': Cache, s: nat, n: nat) {
    && cc'.free == (if cc.partial == [] then [] else cc.free)
    && cc'.partial == (if n == cc.geo.num then (if cc.partial == [] then [] else cc.partial[1..])
                       else if cc.partial == [] then [s] else cc.partial)
    && cc'.full == (if n == cc.geo.num then [s] + cc.full else cc.full)
    && cc'.freeObjects == cc.freeObjects - 1
  }

  /** `obj` was the first free object of slab `s` and is the only one taken; slabs other than `s`, pages and
      words are as they were. */
  ghost predicate TookFirst(k: Kernel, c: nat, s: nat, k': Kernel, obj: nat) {
    && c in k.caches && c in k'.caches && s in k.slabs && s in k.homes && s in k'.slabs && s in k'.homes
    && k.homes[s].chain != [] && obj == k.slabs[s].freeList == k.homes[s].chain[0]
    && ListsAfterTake(k.caches[c], k'.caches[c], s, k.slabs[s].inuse + 1)
    && k'.slabs == k.slabs[s := k'.slabs[s]] && k'.slabs[s].inuse == k.slabs[s].inuse + 1
    && k'.slabs[s].sMem == k.slabs[s].sMem && k'.homes[s].cache == k.homes[s].cache
    && k'.homes[s].base == k.homes[s].base
    && k'.zone == k.zone && k'.lru == k.lru && k'.words == k.words && k'.live == k.live
  }

  lemma TakeMoves(k: Kernel, c: nat, s: nat, fromFree: bool)
    requires c in k.caches && IsNext(k.caches[c], s, fromFree) && (fromFree ==> k.caches[c].partial == []) && KInv(k)
    ensures s in k.slabs && s in k.homes && k.homes[s].chain != [] && k.slabs[s].freeList in k.words
    ensures TookFirst(k, c, s, TakeObj(k, c, s, fromFree).0, TakeObj(k, c, s, fromFree).1)
  {
    hide KInv, SlabOK;
    NextHasRoom(k, c, s, fromFree);
    TakeFillsExactly(k, c, s, fromFree);
    AtMostOneEmptySlab(k, c);
  }

  /** An allocation takes the first free object of the first partial slab, or of the empty slab if there
      is no partial one; nothing else moves, least of all pages. */
  lemma AllocFromStock(k: Kernel, c: nat)
    requires c in k.caches && (k.caches[c].partial != [] || k.caches[c].free != []) && KInv(k)
    ensures var s := if k.caches[c].partial != [] then k.caches[c].partial[0] else k.caches[c].free[0];
            TookFirst(k, c, s, CacheAlloc(k, c).0, CacheAlloc(k, c).1)
  {
    hide KInv, CacheAlloc, Allocated, CacheGrow, Extends, NewSlabsOnNewPages, Settles, Touched, TakeObj, TookFirst;
    AllocUnfolds(k, c);
    var cc := k.caches[c];
    TakeMoves(k, c, if cc.partial != [] then cc.partial[0] else cc.free[0], cc.partial == []);
  }

  // ----- allocation that grows the cache

  /** The objects of a fresh slab are chained in the order of their addresses. */
  lemma FreshChainAscends(words: map<nat, nat>, g: Geometry, sl: Slab, i: nat)
    requires g.objsize >= 1 && i < g.num && sl.inuse == 0
    requires sl.freeList == Thread(words, g, sl.sMem, g.num, NULL).1
    ensures var chained := Thread(words, g, sl.sMem, g.num, NULL).0;
            && sl.freeList == sl.sMem && sl.sMem + i * g.objsize in chained
            && chained[sl.sMem + i * g.objsize] == if i + 1 < g.num then sl.sMem + (i + 1) * g.objsize else NULL
  {
    hide Thread, NoDup, IsObject;
    ThreadedChain(words, g, sl);
    var chain := ObjectSeq(g, sl.sMem);
    assert chain[i] == sl.sMem + i * g.objsize && chain[0] == sl.sMem;
    assert i + 1 < g.num ==> chain[i + 1] == sl.sMem + (i + 1) * g.objsize;
  }

  /** Cache `c` of `k1` has exactly one slab with room, the fresh slab `s` on the pages the buddy
      allocator gave. */
  ghost predicate FreshSlab(k: Kernel, c: nat, k1: Kernel, s: nat) {
    && c in k.caches && c in k1.caches && s !in k.homes && s in k1.homes && s in k1.slabs
    && k1.homes[s].cache == c && k1.slabs[s].inuse == 0
    && k1.homes[s].chain == ObjectSeq(k.caches[c].geo, k1.slabs[s].sMem)
    && k1.caches[c].geo == k.caches[c].geo
    && k1.caches[c].free == [s] && k1.caches[c].partial == [] && k1.caches[c].full == k.caches[c].full
    && k1.caches[c].freeObjects == k.caches[c].freeObjects + k.caches[c].geo.num
    && Listed(k.zone) && Placed(FreeMap(k.zone), |k.zone.pages|)
    && Alloc(k.zone, k.caches[c].geo.order).1 == Some(k1.homes[s].base)
  }

  lemma InsertIsFresh(k: Kernel, c: nat, k2: Kernel, s: nat, p: nat, offset: nat)
    requires c in k.caches && c in k2.caches && s !in k.homes
    requires k.caches[c].free == [] && k.caches[c].partial == []
    requires k2.caches[c] == k.caches[c].(colourNext := k2.caches[c].colourNext)
    requires Listed(k.zone) && Placed(FreeMap(k.zone), |k.zone.pages|)
    requires Alloc(k.zone, k.caches[c].geo.order).1 == Some(p)
    ensures FreshSlab(k, c, InsertSlab(k2, c, s, p, offset), s)
  {
    hide Thread, PageAddress, ObjectSeq, SetRange, Header, Alloc, Listed, Placed, FreeMap;
  }

  lemma OnSlabGrowsFresh(k: Kernel, c: nat) returns (s: nat)
    requires c in k.caches && k.caches[c].free == [] && k.caches[c].partial == [] && KInv(k)
    requires !k.caches[c].geo.offSlab && CacheGrow(k, c).1
    ensures FreshSlab(k, c, CacheGrow(k, c).0, s)
  {
    hide KInv, CacheGrow, GrowPages, InsertSlab, NextOffset, GotPages, Grew, PageAddress, FreshSlab, Alloc, Listed,
         Placed, FreeMap, MarkZone;
    GrowUnfolds(k, c);
    var (k1, r) := GrowPages(k, c);
    GrowPagesZone(k, c);
    OnSlabIsNew(k, c, k1, r.value);
    GotPagesHomes(k, c, k1, r.value);
    GotCache(k, c, k1, r.value);
    s := PageAddress(r.value) + NextOffset(k.caches[c]);
    InsertIsFresh(k, c, k1, s, r.value, NextOffset(k.caches[c]));
  }

  lemma GotCache(k: Kernel, c: nat, k1: Kernel, p: nat)
    requires c in k.caches && GotPages(k, c, k1, p)
    ensures c in k1.caches && k1.caches[c] == k.caches[c].(colourNext := k1.caches[c].colourNext)
  {
  }

  lemma OffSlabGrowsFresh(k: Kernel, c: nat) returns (s: nat)
    requires c in k.caches && k.caches[c].free == [] && k.caches[c].partial == [] && KInv(k)
    requires k.caches[c].geo.offSlab && CacheGrow(k, c).1
    ensures FreshSlab(k, c, CacheGrow(k, c).0, s)
  {
    hide KInv, CacheGrow, GrowPages, InsertSlab, NextOffset, GotPages, Grew, PageAddress, FreshSlab, Alloc, Listed,
         Placed, FreeMap, MarkZone, GrowOffSlab, CacheAlloc, PutPages, Allocated,
         PagesOK, FlagsOK, CachesOK, SlabsOK, IsBlock;
    InvariantParts(k);
    DescriptorCache(k, c);
    GrowUnfolds(k, c);
    var (k1, r) := GrowPages(k, c);
    var p := r.value;
    GrowPagesZone(k, c);
    GotPagesHomes(k, c, k1, p);
    GotCache(k, c, k1, p);
    GrowOffUnfolds(k, c, k1, p);
    var d := k.caches[c].slabpCache;
    var (k2, t) := CacheAlloc(k1, d);
    s := t;
    DescriptorLeaves(k1, d, k2, s, c);
    InsertIsFresh(k, c, k2, s, p, NextOffset(k.caches[c]));
  }

  /** Allocating a descriptor leaves the cache it is for. */
  lemma DescriptorLeaves(k1: Kernel, d: nat, k2: Kernel, s: nat, c: nat)
    requires Allocated(k1, d, k2, s) && s != NULL && !k1.caches[d].geo.offSlab && c in k1.caches && c != d
    ensures c in k2.caches && k2.caches[c] == k1.caches[c] && s !in k1.homes
  {
    hide KInv, KeepsWords, KeepsHeld, KeepsBlocks, NewSlabsOnNewPages, Settles, HeldFrom, Held;
    assert s in k1.homes ==> s in k2.homes;
  }

  /** An allocation from a cache without free objects builds one slab on the pages the buddy allocator
      hands out for its order, and returns the object at the lowest address in it. */
  lemma AllocFromFresh(k: Kernel, c: nat) returns (s: nat)
    requires c in k.caches && k.caches[c].partial == [] && k.caches[c].free == [] && KInv(k)
    requires CacheAlloc(k, c).1 != NULL
    ensures var g := k.caches[c].geo;
            var (k', obj) := CacheAlloc(k, c);
            && s !in k.homes && s in k'.homes && s in k'.slabs && c in k'.caches
            && k'.homes[s].cache == c && k'.slabs[s].inuse == 1 && obj == k'.slabs[s].sMem
            && Listed(k.zone) && Placed(FreeMap(k.zone), |k.zone.pages|)
            && Alloc(k.zone, g.order).1 == Some(k'.homes[s].base)
            && k'.caches[c].partial == (if g.num == 1 then [] else [s]) && k'.caches[c].free == []
            && k'.caches[c].full == (if g.num == 1 then [s] + k.caches[c].full else k.caches[c].full)
            && k'.caches[c].freeObjects == g.num - 1
  {
    hide KInv, CacheAlloc, Allocated, CacheGrow, Extends, NewSlabsOnNewPages, Settles, Touched, TakeObj, Grew, Alloc,
         Listed, Placed, FreeMap;
    AllocUnfolds(k, c);
    StockMeansRoom(k, c);
    if k.caches[c].geo.offSlab { s := OffSlabGrowsFresh(k, c); } else { s := OnSlabGrowsFresh(k, c); }
    TakeMoves(CacheGrow(k, c).0, c, s, true);
    FirstOfFresh(k, c, s);
  }

  lemma FirstOfFresh(k: Kernel, c: nat, s: nat)
    requires c in k.caches && k.caches[c].free == [] && KInv(k) && FreshSlab(k, c, CacheGrow(k, c).0, s)
    ensures ObjectSeq(k.caches[c].geo, CacheGrow(k, c).0.slabs[s].sMem) != [] ==>
              ObjectSeq(k.caches[c].geo, CacheGrow(k, c).0.slabs[s].sMem)[0] == CacheGrow(k, c).0.slabs[s].sMem
  {
    hide KInv, CacheGrow, FreshSlab;
  }

  // ----- release

  /** The lists after an object came back to slab `s`, which had `n` in use: a slab that was full goes to the
      end of the partial list, an emptied one to the free list if it is kept, any other stays in its place. */
  predicate ListsAfterReturn(cc: Cache, cc': Cache, s: nat, n: nat, kept: bool) {
    && cc'.full == Remove(cc.full, s)
    && cc'.partial == (if n == 1 then Remove(cc.partial, s)
                       else if n == cc.geo.num then cc.partial + [s] else cc.partial)
    && cc'.free == (if n == 1 && kept then [s] else cc.free)
    && cc'.freeObjects == cc.freeObjects + 1 - (if kept then 0 else cc.geo.num)
  }

  /** All slabs of the cache but `s` are full. */
  ghost predicate OthersFull(k: Kernel, c: nat, s: nat) {
    forall t :: t in k.homes && k.homes[t].cache == c && t != s ==>
      t in k.slabs && c in k.caches && k.slabs[t].inuse == k.caches[c].geo.num
  }

  lemma CountWithOthersFull(cc: Cache, c: nat, homes: map<nat, Home>, slabs: map<nat, Slab>, s: nat)
    requires ListsOK(cc, c, homes, slabs) && cc.geo.num >= 1
    requires s in homes && homes[s].cache == c && s in slabs && slabs[s].inuse == 1
    requires forall t :: t in homes && homes[t].cache == c && t != s ==> t in slabs && slabs[t].inuse == cc.geo.num
    ensures cc.freeObjects == cc.geo.num - 1
  {
    OnOneList(cc, c, homes, slabs, s);
    FirstTwo(cc.free);
    FullCountsNothing(slabs, cc.geo.num, cc.full);
    EmptyCountsNothing(slabs, cc.geo.num);
    if s in cc.partial {
      OnlyMember(cc.partial, s);
      assert FreeCount(slabs, cc.geo.num, [s]) == cc.geo.num - 1 + FreeCount(slabs, cc.geo.num, []);
    } else {
      FirstTwo(cc.partial);
    }
  }

  lemma FirstTwo(a: seq<nat>)
    ensures a != [] ==> a[0] in a
    ensures |a| >= 2 ==> a[1] in a
  {
  }

  lemma OnlyMember(a: seq<nat>, s: nat)
    requires NoDup(a) && s in a && forall t :: t in a ==> t == s
    ensures a == [s]
  {
    FirstTwo(a);
  }

  /** The slab whose last object comes back is given up exactly when another slab of the cache has room. */
  lemma SurplusExactly(k: Kernel, c: nat, obj: nat)
    requires CanFree(k, c, obj) && KInv(k)
    ensures c in k.caches && Mapped(k, obj) && VirtToSlab(k, obj) in k.slabs
    ensures var s := VirtToSlab(k, obj); Surplus(k, c, s) <==> k.slabs[s].inuse == 1 && !OthersFull(k, c, s)
  {
    hide KInv, IsObject, Mapped, VirtToSlab, ListsOK, PutObj;
    var s := VirtToSlab(k, obj);
    LimitIsNum(k, c);
    CacheLists(k, c);
    if k.slabs[s].inuse == 1 {
      if OthersFull(k, c, s) { CountWithOthersFull(k.caches[c], c, k.homes, k.slabs, s); }
      if !Surplus(k, c, s) {
        forall t | t in k.homes && k.homes[t].cache == c && t != s
          ensures t in k.slabs && k.slabs[t].inuse == k.caches[c].geo.num { EmptySlabAmongFull(k, c, obj, t); }
      }
    }
  }

  lemma KeptLists(cc: Cache, c: nat, homes: map<nat, Home>, slabs: map<nat, Slab>, s: nat)
    requires ListsOK(cc, c, homes, slabs) && cc.geo.num >= 1 && s in homes && homes[s].cache == c && s in slabs
    requires slabs[s].inuse >= 1 && (slabs[s].inuse == 1 ==> cc.free == [])
    ensures ListsAfterReturn(cc, Returned(cc, s, slabs[s].inuse == cc.geo.num, slabs[s].inuse - 1 == 0), s,
                             slabs[s].inuse, true)
  {
    hide NoDup, FreeCount, Remove;
    OnOneList(cc, c, homes, slabs, s);
    RemoveAbsentUnless(cc.full, s);
    RemoveAbsentUnless(cc.partial, s);
  }

  lemma DroppedLists(cc: Cache, s: nat)
    ensures ListsAfterReturn(cc, Dropped(cc, s), s, 1, false)
  {
    hide Remove;
  }

  lemma NoEmptySlab(k: Kernel, c: nat, s: nat)
    requires c in k.caches && s in k.homes && k.homes[s].cache == c && s in k.slabs && k.slabs[s].inuse == 1
    requires OthersFull(k, c, s) && KInv(k)
    ensures k.caches[c].free == []
  {
    hide KInv, FreeCount, NoDup;
    CacheLists(k, c);
    LimitIsNum(k, c);
    FirstTwo(k.caches[c].free);
  }

  /** `obj` came back to slab `s`, which stays or is given up with its pages. */
  ghost predicate CameBack(k: Kernel, c: nat, s: nat, k': Kernel, obj: nat) {
    && c in k.caches && c in k'.caches && s in k.slabs && s in k.homes && k.slabs[s].inuse >= 1
    && (s in k'.homes <==> k.slabs[s].inuse > 1 || OthersFull(k, c, s))
    && ListsAfterReturn(k.caches[c], k'.caches[c], s, k.slabs[s].inuse, s in k'.homes)
    && (s in k'.homes ==>
          && s in k'.slabs && k'.slabs[s].inuse == k.slabs[s].inuse - 1 && k'.slabs[s].freeList == obj
          && k'.words == k.words[obj := k.slabs[s].freeList]
          && k'.zone == k.zone && k'.lru == k.lru && k'.live == k.live)
    && (s !in k'.homes ==> k.homes[s].base !in k'.live)
  }

  lemma KeptCameBack(k: Kernel, c: nat, s: nat, obj: nat)
    requires c in k.caches && s in k.slabs && s in k.homes && k.homes[s].cache == c && k.slabs[s].inuse >= 1
    requires (k.slabs[s].inuse > 1 || OthersFull(k, c, s)) && KInv(k)
    ensures CameBack(k, c, s, PutObj(k, c, s, obj), obj)
  {
    hide KInv, ListsOK, ListsAfterReturn, Returned, OthersFull;
    CacheLists(k, c);
    if k.slabs[s].inuse == 1 { NoEmptySlab(k, c, s); }
    KeptLists(k.caches[c], c, k.homes, k.slabs, s);
  }

  /** Giving up the slab leaves the lists as dropping it does. */
  lemma GivenUpCache(k: Kernel, c: nat, s: nat, obj: nat)
    requires c in k.caches && s in k.slabs && s in k.homes && Freeable(k, c, s, obj) && Surplus(k, c, s)
    requires KInv(k)
    ensures var k2 := GiveUp(k, c, s, obj); c in k2.caches && k2.caches[c] == Dropped(k.caches[c], s) && s !in k2.homes
  {
    hide KInv, IsObject, DropSlab, DestroyedPage, Freeable, IsBlock, PutPages, Dropped, SameBut;
    ReadyToGiveUp(k, c, s, obj);
    DropFacts(k, c, s, obj);
    PutPagesKeepsInv(DropSlab(k, c, s, obj), DestroyedPage(k.caches[c].geo, k.slabs[s]), k.caches[c].geo.order);
  }

  lemma DescriptorFreed(k: Kernel, c: nat, s: nat, obj: nat)
    requires c in k.caches && s in k.slabs && s in k.homes && Freeable(k, c, s, obj) && Surplus(k, c, s)
    requires k.caches[c].geo.offSlab
    requires KInv(k)
    ensures var k3 := FreeWithDescriptor(k, c, s, obj);
            c in k3.caches && k3.caches[c] == Dropped(k.caches[c], s) && s !in k3.homes
  {
    hide KInv, IsObject, GiveUp, CacheFree, Released, LosesOnly, BlocksRemain, WordsRemain, SlabsStayPut,
         GivesBack, Mapped, VirtToSlab, FlagsOK, PagesOK, CachesOK, SlabsOK, HeldFrom, Dropped;
    InvariantParts(k);
    DescriptorCache(k, c);
    GivenUpCache(k, c, s, obj);
    GiveUpShrinks(k, c, s, obj);
    var k2 := GiveUp(k, c, s, obj);
    var d := k.caches[c].slabpCache;
    FreeDescriptor(k, c, s, obj, k2);
    CanFreeParts(k2, d, s);
    assert Shrinks(k2, CacheFree(k2, d, s), Touched(k2, d), Released(k2, d, s));
  }

  /** Freeing moves no slab but the object's own. A slab that was full goes to the end of the partial
      list, so it is tried last; one emptied while every other slab is full is kept on the free list;
      one emptied while another has room is given up and its pages go back; any other slab stays in
      its place. */
  lemma FreeMoves(k: Kernel, c: nat, obj: nat)
    requires CanFree(k, c, obj)
    requires KInv(k)
    ensures Mapped(k, obj) && CameBack(k, c, VirtToSlab(k, obj), CacheFree(k, c, obj), obj)
  {
    hide KInv, IsObject, Mapped, VirtToSlab, PutObj, GiveUp, FreeWithDescriptor, CacheFree, CameBack, OthersFull,
         Released, Shrinks, Dropped;
    FreeUnfolds(k, c, obj);
    SurplusExactly(k, c, obj);
    var s := VirtToSlab(k, obj);
    if !Surplus(k, c, s) {
      KeptCameBack(k, c, s, obj);
    } else {
      if k.caches[c].geo.offSlab { DescriptorFreed(k, c, s, obj); } else { GivenUpCache(k, c, s, obj); }
      GoneCameBack(k, c, s, CacheFree(k, c, obj), obj);
    }
  }

  lemma GoneCameBack(k: Kernel, c: nat, s: nat, k': Kernel, obj: nat)
    requires c in k.caches && s in k.slabs && s in k.homes && k.slabs[s].inuse == 1 && !OthersFull(k, c, s)
    requires c in k'.caches && k'.caches[c] == Dropped(k.caches[c], s) && s !in k'.homes && GivesBack(k, k')
    ensures CameBack(k, c, s, k', obj)
  {
    hide Dropped, ListsAfterReturn, OthersFull;
    DroppedLists(k.caches[c], s);
  }
}
