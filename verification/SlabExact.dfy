/** Exactly what an allocation hands out, and exactly when one with a one-page descriptor cache fails. */
module SlabExact {
  import opened Bits
  import opened Blocks
  import opened PageAddr
  import opened Sequences
  import opened ZoneLinks
  import opened Zone
  import opened ZoneTheorems
  import opened SlabLayout
  import opened SlabModel
  import opened SlabLocal
  import opened SlabObjects
  import opened SlabPages
  import opened SlabGrow
  import opened SlabDrop
  import opened SlabFrames
  import opened SlabAlloc
  import opened SlabTheorems

  // ----- what each step adds to the objects held

  lemma HeldIntroduced(k: Kernel, t: nat, a: nat)
    requires Holds(k, t, a)
    ensures Held(k, a)
  {
    hide Holds;
  }

  /** Taking the head of a chain adds that object and nothing else. */
  lemma TakeHoldsExactly(k: Kernel, c: nat, s: nat, fromFree: bool, a: nat)
    requires c in k.caches && IsNext(k.caches[c], s, fromFree) && KInv(k)
    ensures s in k.homes && s in k.slabs && k.homes[s].chain != [] && k.slabs[s].freeList in k.words
    ensures var (k', obj) := TakeObj(k, c, s, fromFree);
            && (Held(k', a) <==> Held(k, a) || a == obj)
            && k'.homes.Keys == k.homes.Keys && forall t :: t in k.homes ==> k'.homes[t].cache == k.homes[t].cache
  {
    hide KInv, IsObject, LocalTo, SlabOK, NoDup;
    HandOutKeepsInv(k, c, s, fromFree);
    NextHasRoom(k, c, s, fromFree);
    var (k', obj) := TakeObj(k, c, s, fromFree);
    if Held(k', a) {
      var t: nat :| Holds(k', t, a);
      if t == s { assert a in k.homes[s].chain ==> a == k.homes[s].chain[0]; }
      if a != obj { assert Holds(k, t, a); }
    }
    if Held(k, a) {
      var t: nat :| Holds(k, t, a);
      assert Holds(k', t, a);
    }
    if a == obj { HeldIntroduced(k', s, obj); }
  }

  /** A fresh slab has no object out. */
  lemma InsertHoldsNothing(k: Kernel, c: nat, s: nat, base: nat, offset: nat, a: nat)
    requires c in k.caches && s !in k.homes
    ensures Held(InsertSlab(k, c, s, base, offset), a) <==> Held(k, a)
  {
    hide Thread, PageAddress, SetRange, ObjectAt, Header;
    var k' := InsertSlab(k, c, s, base, offset);
    if Held(k', a) {
      var t: nat :| Holds(k', t, a);
      if t == s { FreshObjectsAreChained(k.caches[c].geo, k'.slabs[s].sMem, a); }
      assert Holds(k, t, a);
    }
    if Held(k, a) {
      var t: nat :| Holds(k, t, a);
      assert Holds(k', t, a);
    }
  }

  lemma FreshObjectsAreChained(g: Geometry, sMem: nat, a: nat)
    requires IsObject(g, sMem, a)
    ensures a in ObjectSeq(g, sMem)
  {
    var i: nat :| i < g.num && a == ObjectAt(sMem, g.objsize, i);
    assert ObjectSeq(g, sMem)[i] == a;
  }

  lemma PendingHoldsNothing(k: Kernel, c: nat, k1: Kernel, p: nat, a: nat)
    requires c in k.caches && GotPages(k, c, k1, p)
    ensures Held(k1, a) <==> Held(k, a)
  {
    hide IsObject;
    if Held(k1, a) { var t: nat :| Holds(k1, t, a); assert Holds(k, t, a); }
    if Held(k, a) { var t: nat :| Holds(k, t, a); assert Holds(k1, t, a); }
  }

  // ----- growth

  /** Every slab of `k'` that `k` does not have belongs to cache `c`. */
  ghost predicate NewSlabsOf(k: Kernel, k': Kernel, c: nat) {
    && k.homes.Keys <= k'.homes.Keys
    && forall t :: t in k'.homes && t !in k.homes ==> k'.homes[t].cache == c
  }

  lemma InsertAddsSlab(k: Kernel, c: nat, s: nat, base: nat, offset: nat)
    requires c in k.caches && s !in k.homes
    ensures var k' := InsertSlab(k, c, s, base, offset);
            && k'.homes.Keys == k.homes.Keys + {s} && k'.homes[s].cache == c
            && forall t :: t in k.homes ==> k'.homes[t] == k.homes[t]
  {
    hide Thread, PageAddress, SetRange, ObjectSeq, Header;
  }

  lemma GotPagesHomes(k: Kernel, c: nat, k1: Kernel, p: nat)
    requires c in k.caches && GotPages(k, c, k1, p)
    ensures k1.homes == k.homes
  {
  }

  lemma OnSlabGrowthHoldsNothing(k: Kernel, c: nat, a: nat)
    requires c in k.caches && !k.caches[c].geo.offSlab && k.caches[c].free == [] && KInv(k) && CacheGrow(k, c).1
    ensures var k1 := CacheGrow(k, c).0; (Held(k1, a) <==> Held(k, a)) && NewSlabsOf(k, k1, c)
  {
    hide KInv, CacheGrow, GrowPages, InsertSlab, PageAddress, NextOffset, Held, GotPages, Grew;
    GrowUnfolds(k, c);
    var (k1, r) := GrowPages(k, c);
    var s := PageAddress(r.value) + NextOffset(k.caches[c]);
    OnSlabIsNew(k, c, k1, r.value);
    PendingHoldsNothing(k, c, k1, r.value, a);
    GotPagesHomes(k, c, k1, r.value);
    InsertHoldsNothing(k1, c, s, r.value, NextOffset(k.caches[c]), a);
    InsertAddsSlab(k1, c, s, r.value, NextOffset(k.caches[c]));
  }

  lemma OnSlabIsNew(k: Kernel, c: nat, k1: Kernel, p: nat)
    requires c in k.caches && GotPages(k, c, k1, p) && !k.caches[c].geo.offSlab && k.caches[c].free == []
    requires KInv(k) && KInv(k1)
    ensures c in k1.caches && PageAddress(p) + NextOffset(k.caches[c]) !in k1.homes
  {
    hide KInv, PageAddress, NextOffset, MaxOffset, IsColour, GotPages, HeldFrom;
    OnSlabCanInsert(k, c, k1, p);
  }

  // ----- allocation

  /** `a` is the descriptor an off-slab cache got for a new slab. */
  ghost predicate NewDescriptor(k: Kernel, c: nat, k': Kernel, a: nat)
    requires c in k.caches
  {
    k.caches[c].geo.offSlab && a in k'.homes && a !in k.homes && k'.homes[a].cache == c
  }

  lemma TakeNextHoldsExactly(k: Kernel, c: nat, k1: Kernel, fromFree: bool, a: nat)
    requires c in k.caches && c in k1.caches
    requires if fromFree then k1.caches[c].free != [] else k1.caches[c].partial != []
    requires Extends(k, k1, Touched(k, c)) && NewSlabsOnNewPages(k, k1) && Settles(k, k1, {}) && KInv(k1)
    ensures var (k', obj) := TakeNext(k, c, k1, fromFree);
            && (Held(k', a) <==> Held(k1, a) || a == obj)
            && k'.homes.Keys == k1.homes.Keys && forall t :: t in k1.homes ==> k'.homes[t].cache == k1.homes[t].cache
  {
    hide KInv, Extends, NewSlabsOnNewPages, Settles, Touched, Allocated, TakeObj, Held;
    TakeHoldsExactly(k1, c, if fromFree then k1.caches[c].free[0] else k1.caches[c].partial[0], fromFree, a);
  }

  /** An allocation from an on-slab cache adds the object it returns and nothing else. */
  lemma OnSlabAllocHoldsExactly(k: Kernel, c: nat, a: nat)
    requires c in k.caches && !k.caches[c].geo.offSlab && KInv(k) && CacheAlloc(k, c).1 != NULL
    ensures var (k', obj) := CacheAlloc(k, c); (Held(k', a) <==> Held(k, a) || a == obj) && NewSlabsOf(k, k', c)
  {
    hide KInv, CacheAlloc, CacheGrow, TakeNext, Extends, NewSlabsOnNewPages, Settles, Touched, Held;
    AllocUnfolds(k, c);
    if k.caches[c].partial != [] { TakeNextHoldsExactly(k, c, k, false, a); }
    else if k.caches[c].free != [] { TakeNextHoldsExactly(k, c, k, true, a); }
    else {
      OnSlabGrowthHoldsNothing(k, c, a);
      TakeNextHoldsExactly(k, c, CacheGrow(k, c).0, true, a);
    }
  }

  /** Growing an off-slab cache adds the descriptor of the new slab to the objects held. */
  lemma OffSlabGrowthHoldsExactly(k: Kernel, c: nat, a: nat)
    requires c in k.caches && k.caches[c].geo.offSlab && k.caches[c].free == [] && KInv(k) && CacheGrow(k, c).1
    ensures var k1 := CacheGrow(k, c).0; Held(k1, a) <==> Held(k, a) || NewDescriptor(k, c, k1, a)
  {
    hide KInv, CacheGrow, GrowPages, InsertSlab, NextOffset, Held, GotPages, CacheAlloc, PutPages, GrowOffSlab,
         PagesOK, FlagsOK, CachesOK, SlabsOK, PageAddress, Grew, Allocated, IsBlock;
    InvariantParts(k);
    DescriptorCache(k, c);
    GrowUnfolds(k, c);
    var (k1, r) := GrowPages(k, c);
    var p := r.value;
    GrowOffUnfolds(k, c, k1, p);
    var d := k.caches[c].slabpCache;
    var (k2, s) := CacheAlloc(k1, d);
    AllocatedIsNew(k1, d, k2, s);
    PendingHoldsNothing(k, c, k1, p, a);
    GotPagesHomes(k, c, k1, p);
    OnSlabAllocHoldsExactly(k1, d, a);
    InsertHoldsNothing(k2, c, s, p, NextOffset(k.caches[c]), a);
    InsertAddsSlab(k2, c, s, p, NextOffset(k.caches[c]));
  }

  lemma AllocatedIsNew(k: Kernel, d: nat, k2: Kernel, s: nat)
    requires Allocated(k, d, k2, s) && s != NULL
    ensures s !in k2.homes
  {
    hide KInv, Extends, NewSlabsOnNewPages, Settles, HeldFrom, Held;
  }

  /** After an allocation exactly the returned object, and the descriptor of a new off-slab slab,
      are held besides what was held before. */
  lemma AllocHoldsExactly(k: Kernel, c: nat, a: nat)
    requires c in k.caches && KInv(k) && CacheAlloc(k, c).1 != NULL
    ensures var (k', obj) := CacheAlloc(k, c);
            Held(k', a) <==> Held(k, a) || a == obj || NewDescriptor(k, c, k', a)
  {
    hide KInv, CacheAlloc, CacheGrow, TakeNext, Extends, NewSlabsOnNewPages, Settles, Touched, Held;
    if !k.caches[c].geo.offSlab {
      OnSlabAllocHoldsExactly(k, c, a);
    } else {
      AllocUnfolds(k, c);
      if k.caches[c].partial != [] { TakeNextHoldsExactly(k, c, k, false, a); }
      else if k.caches[c].free != [] { TakeNextHoldsExactly(k, c, k, true, a); }
      else {
        OffSlabGrowthHoldsExactly(k, c, a);
        TakeNextHoldsExactly(k, c, CacheGrow(k, c).0, true, a);
      }
    }
  }

  // ----- the last descriptor page

  lemma OnePageIff(z: Zone, live: map<nat, nat>)
    requires Inv(z, live)
    ensures CanServe(z, 0) <==> FreeSet(z) != {}
  {
    hide Inv, FreeMap, Covered;
    if CanServe(z, 0) {
      var p: nat :| Aligned(p, 0) && RunCovered(FreeMap(z), p, 0);
      assert InBlock(p, p, 0);
      FreeSetIsCover(z, live, p);
    }
    if FreeSet(z) != {} {
      var q :| q in FreeSet(z);
      FreeSetIsCover(z, live, q);
      assert Aligned(q, 0) && RunCovered(FreeMap(z), q, 0);
    }
  }

  lemma MarkKeepsFreeSet(z: Zone, p: nat, o: nat)
    ensures FreeSet(MarkZone(z, p, o)) == FreeSet(z)
  {
    hide Pow2, Covered;
    assert FreeMap(MarkZone(z, p, o)) == FreeMap(z);
  }

  /** The zone once the pages for a slab are taken. */
  lemma GrowPagesZone(k: Kernel, c: nat)
    requires c in k.caches && KInv(k) && GrowPages(k, c).1.Some?
    ensures PagesOK(k) && Listed(k.zone) && Placed(FreeMap(k.zone), |k.zone.pages|)
    ensures var o := k.caches[c].geo.order;
            && Alloc(k.zone, o).1 == GrowPages(k, c).1
            && GrowPages(k, c).0.zone == MarkZone(Alloc(k.zone, o).0, GrowPages(k, c).1.value, o)
  {
    hide KInv, PagesOK, AllocPages, Alloc, Listed, Placed, MarkRange, Pow2, FreeMap;
    BumpKeepsInv(k, c);
    BumpPages(k, c);
    InvariantPages(k);
    InvariantPages(BumpColour(k, c));
    AllocPagesOK(BumpColour(k, c), k.caches[c].geo.order);
  }

  /** The pages of a new slab are the last free ones exactly when no page is left for a descriptor. */
  lemma LastPages(k: Kernel, c: nat)
    requires c in k.caches && KInv(k) && GrowPages(k, c).1.Some?
    ensures CanServe(GrowPages(k, c).0.zone, 0) <==> |FreeSet(k.zone)| != Pow2(k.caches[c].geo.order)
  {
    hide KInv, GrowPages, FreeSet, CanServe, Alloc, Listed, Placed, MarkZone, BlockSet, FreeMap, Inv, LinksMatch,
         Pow2, Aligned;
    var o := k.caches[c].geo.order;
    GrowPagesZone(k, c);
    AllocTakesBlock(k.zone, k.live, o);
    MarkKeepsFreeSet(Alloc(k.zone, o).0, GrowPages(k, c).1.value, o);
    GrowPagesKeepsInv(k, c);
    var k1 := GrowPages(k, c).0;
    InvariantPages(k1);
    OnePageIff(k1.zone, k1.live);
    DifferenceEmpty(FreeSet(k.zone), BlockSet(GrowPages(k, c).1.value, o));
  }

  lemma DifferenceEmpty(a: set<nat>, b: set<nat>)
    requires b <= a
    ensures a - b == {} <==> |a| == |b|
  {
    assert a == b + (a - b) && |a| == |b| + |a - b|;
  }

  /** With descriptors on one page each, as after initialisation: an allocation from an off-slab cache
      fails exactly when the cache has no free object and either no aligned run for a slab is free, or
      the run it would take is all that is free and no descriptor is in stock. */
  lemma OffSlabAllocFailsOnInput(k: Kernel, c: nat)
    requires c in k.caches && k.caches[c].geo.offSlab && KInv(k)
    requires k.caches[c].slabpCache in k.caches && k.caches[k.caches[c].slabpCache].geo.order == 0
    ensures CacheAlloc(k, c).1 == NULL <==>
            && k.caches[c].freeObjects == 0
            && (CanServe(k.zone, k.caches[c].geo.order) ==>
                  k.caches[k.caches[c].slabpCache].freeObjects == 0 && |FreeSet(k.zone)| == Pow2(k.caches[c].geo.order))
  {
    hide KInv, GrowPages, FreeSet, CanServe, CacheAlloc, Pow2;
    OffSlabAllocFailsExactly(k, c);
    ServedByGrowth(k, c);
    if GrowPages(k, c).1.Some? { LastPages(k, c); }
  }
}
