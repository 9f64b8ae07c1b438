/** Allocate, free, allocate again: when the same object comes back. */
module SlabReuse {
  import opened SlabLayout
  import opened Sequences
  import opened SlabModel
  import opened SlabLists
  import opened SlabPlaces
  import opened SlabLocal
  import opened SlabObjects
  import opened SlabGrow
  import opened SlabFrames
  import opened SlabAlloc
  import opened SlabFree
  import opened SlabTheorems

  /** The slab the next allocation takes from. */
  function NextSlab(cc: Cache): nat
    requires cc.partial != [] || cc.free != []
  {
    if cc.partial != [] then cc.partial[0] else cc.free[0]
  }

  /** `obj` is the first free object of slab `s`. */
  ghost predicate IsFirstOf(k: Kernel, s: nat, obj: nat) {
    && s in k.slabs && obj == k.slabs[s].freeList
    && s in k.homes && k.homes[s].chain != [] && obj == k.homes[s].chain[0]
  }

  lemma AllocTakesNext(k: Kernel, c: nat)
    requires c in k.caches && (k.caches[c].partial != [] || k.caches[c].free != []) && KInv(k)
    ensures IsFirstOf(k, NextSlab(k.caches[c]), CacheAlloc(k, c).1)
  {
    hide KInv, CacheAlloc, Allocated, CacheGrow, Extends, NewSlabsOnNewPages, Settles, Touched, SlabOK;
    AllocUnfolds(k, c);
    NextHasRoom(k, c, NextSlab(k.caches[c]), k.caches[c].partial == []);
  }

  /** `k1` and `a` come from taking an object of slab `s` in state `k0`. */
  ghost predicate TookFrom(k0: Kernel, c: nat, s: nat, fromFree: bool, k1: Kernel, a: nat) {
    && c in k0.caches && IsNext(k0.caches[c], s, fromFree) && (fromFree ==> k0.caches[c].partial == [])
    && s in k0.slabs && s in k0.homes && k0.homes[s].chain != [] && k0.slabs[s].freeList in k0.words
    && (k1, a) == TakeObj(k0, c, s, fromFree)
  }

  lemma AllocIsATake(k: Kernel, c: nat) returns (k0: Kernel, s: nat, fromFree: bool)
    requires c in k.caches && KInv(k) && CacheAlloc(k, c).1 != NULL
    ensures KInv(k0) && TookFrom(k0, c, s, fromFree, CacheAlloc(k, c).0, CacheAlloc(k, c).1)
    ensures k.caches[c].partial != [] ==> k0 == k && !fromFree
    ensures k.caches[c].partial == [] ==> fromFree
  {
    hide KInv, CacheAlloc, Allocated, CacheGrow, Extends, NewSlabsOnNewPages, Settles, Touched, SlabOK, Grew;
    AllocUnfolds(k, c);
    k0, fromFree := k, k.caches[c].partial == [];
    if k.caches[c].partial == [] && k.caches[c].free == [] {
      k0 := CacheGrow(k, c).0;
      GrewParts(k, c, k0);
    }
    s := if fromFree then k0.caches[c].free[0] else k0.caches[c].partial[0];
    NextHasRoom(k0, c, s, fromFree);
  }

  // ----- the lists after taking and giving back

  lemma TakeReturnLists(cc: Cache, c: nat, homes: map<nat, Home>, slabs: map<nat, Slab>, s: nat, fromFree: bool)
    requires ListsOK(cc, c, homes, slabs) && cc.geo.num >= 1 && IsNext(cc, s, fromFree) && s in slabs
    requires fromFree ==> cc.partial == []
    ensures slabs[s].inuse < cc.geo.num && (fromFree <==> slabs[s].inuse == 0)
    ensures fromFree ==> cc.freeObjects == cc.geo.num
    ensures var n := slabs[s].inuse + 1;
            var cc2 := Returned(Taken(cc, s, fromFree, n == cc.geo.num), s, n == cc.geo.num, n - 1 == 0);
            && (fromFree ==> cc2.partial == [] && cc2.free == [s])
            && (!fromFree && n < cc.geo.num ==> cc2.partial == cc.partial)
            && (!fromFree && n == cc.geo.num ==> cc2.partial == cc.partial[1..] + [s])
  {
    assert s in homes && homes[s].cache == c;
    OnOneList(cc, c, homes, slabs, s);
    if fromFree {
      assert cc.free == [s];
      OnlyEmptyCounts(cc, c, homes, slabs, s);
      hide FreeCount, NoDup;
      assert ([s] + cc.partial)[1..] == [] && Remove([], s) == [];
      RemoveAbsentUnless([s], s);
      RemoveAbsentUnless([s] + cc.full, s);
      RemoveAbsentUnless(cc.full, s);
      assert [s] + cc.partial == [s];
    } else {
      hide FreeCount, NoDup;
      RemoveAbsentUnless([s] + cc.full, s);
    }
  }

  lemma OnlyEmptyCounts(cc: Cache, c: nat, homes: map<nat, Home>, slabs: map<nat, Slab>, s: nat)
    requires ListsOK(cc, c, homes, slabs) && cc.partial == [] && cc.free == [s]
    ensures cc.freeObjects == cc.geo.num
  {
    FullCountsNothing(slabs, cc.geo.num, cc.full);
    hide NoDup;
    assert s in cc.free;
    assert FreeCount(slabs, cc.geo.num, [s]) == cc.geo.num;
  }

  /** Freeing the object just taken puts it back at the head of its slab's chain and keeps the slab. */
  lemma FreeAfterTake(k0: Kernel, c: nat, s: nat, fromFree: bool, k1: Kernel, a: nat)
    requires TookFrom(k0, c, s, fromFree, k1, a) && KInv(k0)
    ensures KInv(k1) && CanFree(k1, c, a) && VirtToSlab(k1, a) == s && !Surplus(k1, c, s) && k1.slabs[s].inuse >= 1
    ensures CacheFree(k1, c, a) == PutObj(k1, c, s, a)
  {
    hide KInv, IsObject, Mapped, VirtToSlab, PageCache, Released, Shrinks, GivesBack, LocalTo, ListsOK, PutObj, GiveUp;
    HandOutKeepsInv(k0, c, s, fromFree);
    LookupFindsOwner(k1, s, a);
    CacheLists(k0, c);
    TakeReturnLists(k0.caches[c], c, k0.homes, k0.slabs, s, fromFree);
    TakeCache(k0, c, s, fromFree);
    TakeKeepsKeys(k0, c, s, fromFree);
    LimitIsNum(k1, c);
  }

  lemma TakeKeepsKeys(k0: Kernel, c: nat, s: nat, fromFree: bool)
    requires c in k0.caches && s in k0.slabs && s in k0.homes && k0.homes[s].chain != []
    requires k0.slabs[s].freeList in k0.words
    requires IsNext(k0.caches[c], s, fromFree)
    ensures var k1 := TakeObj(k0, c, s, fromFree).0;
            && k1.homes.Keys == k0.homes.Keys && k1.caches.Keys == k0.caches.Keys
            && k1.caches[c].freeObjects == k0.caches[c].freeObjects - 1 && k1.slabs[s].inuse == k0.slabs[s].inuse + 1
            && k1.homes[s].cache == k0.homes[s].cache
  {
  }

  /** The state after allocating and freeing at once: the object is first in its slab again, and the
      cache turns next to that slab unless the allocation filled it while other partial slabs wait. */
  lemma NextAfterFree(k0: Kernel, c: nat, s: nat, fromFree: bool, k1: Kernel, a: nat)
    requires TookFrom(k0, c, s, fromFree, k1, a) && KInv(k0)
    ensures CanFree(k1, c, a) && KInv(k1)
    ensures var k2 := CacheFree(k1, c, a);
            && c in k2.caches && s in k2.slabs && k2.slabs[s].freeList == a
            && (k2.caches[c].partial != [] || k2.caches[c].free != [])
            && NextSlab(k2.caches[c]) ==
               (if !fromFree && k0.slabs[s].inuse + 1 == k0.caches[c].geo.num && |k0.caches[c].partial| >= 2
                then k0.caches[c].partial[1] else s)
  {
    hide KInv, IsObject, Mapped, VirtToSlab, PageCache, Released, Shrinks, GivesBack, LocalTo, ListsOK, CacheFree,
         CanFree, Taken, Returned;
    FreeAfterTake(k0, c, s, fromFree, k1, a);
    CacheLists(k0, c);
    TakeReturnLists(k0.caches[c], c, k0.homes, k0.slabs, s, fromFree);
    TakeFillsExactly(k0, c, s, fromFree);
    var cc := k0.caches[c];
    assert !fromFree ==> (|cc.partial| >= 2 ==> (cc.partial[1..] + [s])[0] == cc.partial[1]);
  }

  lemma TakeFillsExactly(k0: Kernel, c: nat, s: nat, fromFree: bool)
    requires c in k0.caches && IsNext(k0.caches[c], s, fromFree) && KInv(k0)
    ensures s in k0.slabs && s in k0.homes && k0.homes[s].chain != [] && k0.slabs[s].freeList in k0.words
    ensures k0.words[k0.slabs[s].freeList] == NULL <==> k0.slabs[s].inuse + 1 == k0.caches[c].geo.num
    ensures TakeObj(k0, c, s, fromFree).0.caches[c].geo == k0.caches[c].geo
  {
    hide KInv, SlabOK, ChainOK;
    NextHasRoom(k0, c, s, fromFree);
    ChainNonNull(k0, s);
    SlabChain(k0, s);
    ChainTail(k0.caches[c].geo, k0.slabs[s], k0.homes[s].chain, k0.words);
  }

  /** Allocating, freeing and allocating again yields the same object exactly when the first
      allocation did not fill a slab while another partial slab was waiting. */
  lemma ReuseExactly(k: Kernel, c: nat)
    requires c in k.caches && KInv(k) && CacheAlloc(k, c).1 != NULL
    ensures var (k1, a) := CacheAlloc(k, c);
            && CanFree(k1, c, a) && KInv(k1)
            && var k2 := CacheFree(k1, c, a);
               && c in k2.caches
               && var cc := k.caches[c];
                  (CacheAlloc(k2, c).1 == a <==>
                   !(|cc.partial| >= 2 && cc.partial[0] in k.slabs && k.slabs[cc.partial[0]].inuse + 1 == cc.geo.num))
  {
    hide KInv, CacheAlloc, CacheFree, Allocated, CanFree, Shrinks, GivesBack, Released, TakeObj, SlabOK;
    var (k1, a) := CacheAlloc(k, c);
    var k0, s, fromFree := AllocIsATake(k, c);
    NextAfterFree(k0, c, s, fromFree, k1, a);
    var k2 := CacheFree(k1, c, a);
    AllocTakesNext(k2, c);
    var t := NextSlab(k2.caches[c]);
    if t != s { DifferentSlabDifferentObject(k2, s, t); }
    if |k.caches[c].partial| >= 2 { PartialIsDistinct(k, c); }
  }

  lemma PartialIsDistinct(k: Kernel, c: nat)
    requires c in k.caches && |k.caches[c].partial| >= 2 && KInv(k)
    ensures k.caches[c].partial[0] != k.caches[c].partial[1] && k.caches[c].partial[0] in k.slabs
  {
    hide KInv, FreeCount;
    CacheLists(k, c);
  }

  lemma DifferentSlabDifferentObject(k: Kernel, s: nat, t: nat)
    requires s in k.slabs && t in k.homes && t in k.slabs && s != t && k.homes[t].chain != []
    requires k.slabs[t].freeList == k.homes[t].chain[0]
    requires KInv(k)
    ensures k.slabs[s].freeList != k.slabs[t].freeList
  {
    hide KInv, SlabOK, IsObject, PagesOK, FlagsOK, CachesOK, GoodGeometry;
    InvariantParts(k);
    assert s in k.homes;
    hide SlabsOK;
    SlabIsOK(k, s);
    SlabIsOK(k, t);
    ObjectSizes(k);
    ChainNonNull(k, t);
    SlabChain(k, s);
    if k.slabs[s].freeList == k.slabs[t].freeList {
      ChainMember(k, t, k.homes[t].chain[0]);
      ChainMember(k, s, k.homes[s].chain[0]);
      HomeHasCache(k, s);
      HomeHasCache(k, t);
      ObjectHasOneSlab(k, s, t, k.homes[t].chain[0]);
    }
  }
}
