/** Getting pages from the buddy allocator and giving them back. */
module SlabPages {
  import opened Bits
  import opened Blocks
  import opened Options
  import opened PageFlags
  import opened Sequences
  import opened Zone
  import opened ZoneProofs
  import opened ZoneTheorems
  import opened ListHead
  import opened ZoneLinks
  import opened SlabModel

  // ----- the operations

  /** `z` has the pages of `k` and all its lists. */
  predicate Fits(k: Kernel, z: Zone) {
    |z.pages| == |k.zone.pages| && |k.lru| == |z.pages| + GROUPS && Shaped(z)
  }

  /** `alloc_pages` */
  ghost function AllocPages(k: Kernel, o: nat): (Kernel, Option<nat>)
    requires PagesOK(k)
  {
    hide Inv, LinksMatch, Alloc, SameFlags;
    AllocKeepsInv(k.zone, k.live, o);
    AllocKeepsFlags(k.zone, k.live, o);
    SameFlagsSize(k.zone, Alloc(k.zone, o).0);
    LinksSize(k.zone, k.lru);
    var (z, r) := Alloc(k.zone, o);
    match r
    case None => (k, None)
    case Some(h) =>
      InvParts(z, k.live[h := o]);
      (k.(zone := z, lru := Relinked(k.lru, k.zone, z), live := k.live[h := o]), Some(h))
  }

  /** `free_pages` */
  ghost function FreePages(k: Kernel, p: nat, o: nat): Kernel
    requires PagesOK(k) && IsBlock(k.live, p, o)
  {
    hide Inv, LinksMatch, Free, SameFlags;
    InvParts(k.zone, k.live);
    FreeKeepsInv(k.zone, k.live, p, o);
    FreeKeepsFlags(k.zone, k.live, o, p);
    SameFlagsSize(k.zone, Free(k.zone, p, o));
    LinksSize(k.zone, k.lru);
    var z := Free(k.zone, p, o);
    InvParts(z, k.live - {p});
    k.(zone := z, lru := Relinked(k.lru, k.zone, z), live := k.live - {p})
  }

  lemma SameFlagsSize(z: Zone, y: Zone)
    requires SameFlags(z, y)
    ensures |y.pages| == |z.pages|
  {
  }

  lemma LinksSize(z: Zone, l: seq<Links>)
    requires LinksMatch(z, l)
    ensures Shaped(z) && |l| == |z.pages| + GROUPS
  {
  }

  /** The flags of the pages from `p` up to `stop` set by `SetPageSlab`. */
  function MarkRange(pages: seq<Page>, p: nat, stop: nat): (r: seq<Page>)
    ensures |r| == |pages|
  {
    seq(|pages|, q requires 0 <= q < |pages| =>
      if p <= q < stop then pages[q].(flags := SetSlab(pages[q].flags)) else pages[q])
  }

  /** The flags of the pages from `p` up to `stop` cleared by `ClearPageSlab`. */
  function UnmarkRange(pages: seq<Page>, p: nat, stop: nat): (r: seq<Page>)
    ensures |r| == |pages|
  {
    seq(|pages|, q requires 0 <= q < |pages| =>
      if p <= q < stop then pages[q].(flags := ClearSlab(pages[q].flags)) else pages[q])
  }

  function Mark(k: Kernel, p: nat, o: nat): Kernel {
    k.(zone := k.zone.(pages := MarkRange(k.zone.pages, p, p + Pow2(o))), marked := k.marked + {p})
  }

  function Unmark(k: Kernel, p: nat, o: nat): Kernel {
    k.(zone := k.zone.(pages := UnmarkRange(k.zone.pages, p, p + Pow2(o))), marked := k.marked - {p})
  }

  // ----- live pages are on no free list

  lemma LiveIsNotFree(f: map<nat, nat>, live: map<nat, nat>, n: nat, p: nat, q: nat)
    requires Tiling(f, live, n) && p in live && InBlock(q, p, live[p])
    ensures q < n && q !in f
  {
    TilingParts(f, live, n);
    PlacedAt(live, n, p);
    hide Placed, Coalesced;
    var u := f + live;
    assert p in u && u[p] == live[p];
    assert q in f ==> q in u;
  }

  lemma LivePageIsPlain(z: Zone, live: map<nat, nat>, p: nat, q: nat)
    requires Inv(z, live) && p in live && InBlock(q, p, live[p])
    ensures q < |z.pages| && !z.pages[q].flags.priv
  {
    hide Listed, Tiling;
    LiveIsNotFree(FreeMap(z), live, |z.pages|, p, q);
  }

  lemma RelinkedKeepsLive(l: seq<Links>, z: Zone, y: Zone, live: map<nat, nat>, live': map<nat, nat>,
                          p: nat, o: nat, q: nat)
    requires |l| == |y.pages| + GROUPS && |z.pages| == |y.pages| && Shaped(y) && Inv(z, live) && Inv(y, live')
    requires IsBlock(live, p, o) && IsBlock(live', p, o) && InBlock(q, p, o)
    ensures q < |l| && Relinked(l, z, y)[q] == l[q]
  {
    hide Inv, Pow2;
    LivePageIsPlain(z, live, p, q);
    LivePageIsPlain(y, live', p, q);
  }

  /** Page traffic elsewhere does not disturb a slab. */
  lemma SlabSurvives(k: Kernel, k': Kernel, s: nat)
    requires PagesOK(k) && PagesOK(k') && SlabOK(k, s)
    requires Fits(k, k'.zone) && k'.lru == Relinked(k.lru, k.zone, k'.zone)
    requires k'.first == k.first && k'.caches == k.caches && k'.slabs == k.slabs && k'.words == k.words
    requires k'.homes == k.homes
    requires var p := k.homes[s].base; p in k'.live && k'.live[p] == k.live[p] && p in k'.marked
    ensures SlabOK(k', s)
  {
    hide PlacedSlab, ChainOK, Inv, LinksMatch, Relinked;
    var h := k.homes[s];
    var g := k.caches[h.cache].geo;
    forall q | InBlock(q, h.base, g.order) ensures k'.first[q] == h.base && k'.lru[q] == Owner(h.cache, s) {
      RelinkedKeepsLive(k.lru, k.zone, k'.zone, k.live, k'.live, h.base, g.order, q);
    }
  }

  lemma HeldIgnoresPages(k: Kernel, k': Kernel, c: nat, a: nat)
    requires k'.caches == k.caches && k'.slabs == k.slabs && k'.homes == k.homes
    ensures HeldFrom(k, c, a) <==> HeldFrom(k', c, a)
  {
    hide IsObject;
    if HeldFrom(k, c, a) { var t :| Holds(k, t, a) && k.homes[t].cache == c; assert Holds(k', t, a); }
    if HeldFrom(k', c, a) { var t :| Holds(k', t, a) && k'.homes[t].cache == c; assert Holds(k, t, a); }
  }

  /** Page traffic that leaves every slab's block alone keeps the slab side of the invariant. */
  lemma PageTraffic(k: Kernel, k': Kernel)
    requires PagesOK(k) && PagesOK(k') && CachesOK(k) && SlabsOK(k)
    requires Fits(k, k'.zone) && k'.lru == Relinked(k.lru, k.zone, k'.zone)
    requires k'.first == k.first && k'.caches == k.caches && k'.slabs == k.slabs && k'.words == k.words
    requires k'.homes == k.homes
    requires forall s :: s in k.homes ==>
               var p := k.homes[s].base; p in k.live && p in k'.live && k'.live[p] == k.live[p] && p in k'.marked
    ensures CachesOK(k') && SlabsOK(k')
  {
    hide SlabOK, PagesOK, CacheOK, ListsOK, HeldFrom, Relinked;
    forall s | s in k.homes ensures SlabOK(k', s) { SlabSurvives(k, k', s); }
    forall c, a ensures HeldFrom(k, c, a) <==> HeldFrom(k', c, a) { HeldIgnoresPages(k, k', c, a); }
  }

  // ----- allocation and release keep the invariant

  lemma FlagsCarryOver(z: Zone, y: Zone, q: nat, f: Flags)
    requires SameFlags(z, y) && FlagsAre(z, q, f)
    ensures FlagsAre(y, q, f)
  {
  }

  lemma FreeSetIsCover(z: Zone, live: map<nat, nat>, q: nat)
    requires Inv(z, live)
    ensures q in FreeSet(z) <==> Covered(FreeMap(z), q)
  {
    InvParts(z, live);
    hide Listed, Inv;
    if Covered(FreeMap(z), q) {
      var p :| p in FreeMap(z) && InBlock(q, p, FreeMap(z)[p]);
    }
  }

  lemma AllocKeepsFreeClean(z: Zone, live: map<nat, nat>, o: nat)
    requires Inv(z, live) && FreeClean(z)
    ensures Listed(z) && Placed(FreeMap(z), |z.pages|) && FreeClean(Alloc(z, o).0)
  {
    hide Inv, Alloc, SameFlags, FreeMap, Covered, FlagsAre, Listed, Placed, FreeSet;
    AllocKeepsInv(z, live, o);
    AllocKeepsFlags(z, live, o);
    AllocTakesBlock(z, live, o);
    var (y, r) := Alloc(z, o);
    if r.Some? {
      forall q: nat | Covered(FreeMap(y), q) ensures FlagsAre(y, q, NO_FLAGS) {
        FreeSetIsCover(z, live, q);
        FreeSetIsCover(y, live[r.value := o], q);
        FlagsCarryOver(z, y, q, NO_FLAGS);
      }
    }
  }

  lemma AllocLiveFlags(z: Zone, live: map<nat, nat>, marked: set<nat>, o: nat)
    requires Inv(z, live) && FreeClean(z) && LiveFlags(z, live, marked) && marked <= live.Keys
    ensures Listed(z) && Placed(FreeMap(z), |z.pages|)
    ensures Alloc(z, o).1.Some? ==> LiveFlags(Alloc(z, o).0, live[Alloc(z, o).1.value := o], marked)
  {
    hide Inv, Alloc, SameFlags, FreeMap, Covered, FlagsAre, Listed, Placed, FreeSet;
    AllocKeepsInv(z, live, o);
    AllocKeepsFlags(z, live, o);
    AllocTakesBlock(z, live, o);
    var (y, r) := Alloc(z, o);
    if r.Some? {
      var h := r.value;
      var live' := live[h := o];
      forall p, q: nat | p in live' && InBlock(q, p, live'[p])
        ensures FlagsAre(y, q, if p in marked then SLAB_FLAGS else NO_FLAGS)
      {
        if p == h {
          assert q in BlockSet(h, o);
          FreeSetIsCover(z, live, q);
        }
        FlagsCarryOver(z, y, q, if p in marked then SLAB_FLAGS else NO_FLAGS);
      }
    }
  }

  lemma AllocPagesFlags(k: Kernel, o: nat)
    requires PagesOK(k) && FlagsOK(k)
    ensures FlagsOK(AllocPages(k, o).0)
  {
    hide Inv, LinksMatch, Alloc, Relinked, FreeClean, LiveFlags, Listed, Placed;
    AllocKeepsFreeClean(k.zone, k.live, o);
    AllocLiveFlags(k.zone, k.live, k.marked, o);
  }

  lemma AllocPagesOK(k: Kernel, o: nat)
    requires PagesOK(k)
    ensures PagesOK(AllocPages(k, o).0) && Listed(k.zone) && Placed(FreeMap(k.zone), |k.zone.pages|)
    ensures AllocPages(k, o).1.None? ==> AllocPages(k, o).0 == k
    ensures AllocPages(k, o).1.Some? ==>
              var (k', h) := (AllocPages(k, o).0, AllocPages(k, o).1.value);
              && h !in k.live && k'.live == k.live[h := o] && o <= MAX_ORDER
              && Fits(k, k'.zone) && k'.lru == Relinked(k.lru, k.zone, k'.zone)
              && (k'.zone, Some(h)) == Alloc(k.zone, o)
  {
    hide Inv, LinksMatch, Alloc, Relinked, SameFlags;
    AllocKeepsInv(k.zone, k.live, o);
    AllocKeepsFlags(k.zone, k.live, o);
    SameFlagsSize(k.zone, Alloc(k.zone, o).0);
    LinksSize(k.zone, k.lru);
    if Alloc(k.zone, o).1.Some? {
      InvParts(Alloc(k.zone, o).0, k.live[Alloc(k.zone, o).1.value := o]);
      RelinkedMatches(k.lru, k.zone, Alloc(k.zone, o).0);
    }
  }

  lemma BasesAreLive(k: Kernel)
    requires SlabsOK(k)
    ensures forall s :: s in k.homes ==> k.homes[s].base in k.live && k.homes[s].base in k.marked
  {
    hide PlacedSlab, ChainOK, PointsBack, HeldFrom;
  }

  /** Handing out pages keeps the invariant. */
  lemma AllocPagesKeepsInv(k: Kernel, o: nat)
    requires KInv(k)
    ensures KInv(AllocPages(k, o).0)
  {
    hide PagesOK, FlagsOK, CachesOK, SlabsOK, AllocPages;
    AllocPagesOK(k, o);
    AllocPagesFlags(k, o);
    BasesAreLive(k);
    AllocPagesRest(k, o);
    if AllocPages(k, o).1.Some? { PageTraffic(k, AllocPages(k, o).0); }
  }

  lemma AllocPagesRest(k: Kernel, o: nat)
    requires PagesOK(k)
    ensures var k' := AllocPages(k, o).0;
            && k'.first == k.first && k'.caches == k.caches && k'.slabs == k.slabs && k'.words == k.words
            && k'.homes == k.homes && k'.marked == k.marked
  {
    hide PagesOK, Alloc, Relinked;
  }

  lemma FreeKeepsFreeClean(z: Zone, live: map<nat, nat>, marked: set<nat>, p: nat, o: nat)
    requires Inv(z, live) && FreeClean(z) && LiveFlags(z, live, marked) && IsBlock(live, p, o) && p !in marked
    ensures o < GROUPS && p < |z.pages| && FreeClean(Free(z, p, o))
  {
    hide Inv, Free, SameFlags, FreeMap, Covered, FlagsAre, FreeSet;
    InvParts(z, live);
    FreeKeepsInv(z, live, p, o);
    FreeKeepsFlags(z, live, o, p);
    FreeReturnsBlock(z, live, p, o);
    var y := Free(z, p, o);
    forall q: nat | Covered(FreeMap(y), q) ensures FlagsAre(y, q, NO_FLAGS) {
      FreeSetIsCover(z, live, q);
      FreeSetIsCover(y, live - {p}, q);
      FlagsCarryOver(z, y, q, NO_FLAGS);
    }
  }

  lemma FreeLiveFlags(z: Zone, live: map<nat, nat>, marked: set<nat>, p: nat, o: nat)
    requires Inv(z, live) && LiveFlags(z, live, marked) && IsBlock(live, p, o)
    ensures o < GROUPS && p < |z.pages| && LiveFlags(Free(z, p, o), live - {p}, marked)
  {
    hide Inv, Free, SameFlags, FlagsAre;
    InvParts(z, live);
    FreeKeepsInv(z, live, p, o);
    FreeKeepsFlags(z, live, o, p);
    var y := Free(z, p, o);
    forall r, q: nat | r in live - {p} && InBlock(q, r, (live - {p})[r])
      ensures FlagsAre(y, q, if r in marked then SLAB_FLAGS else NO_FLAGS)
    {
      FlagsCarryOver(z, y, q, if r in marked then SLAB_FLAGS else NO_FLAGS);
    }
  }

  lemma FreePagesOK(k: Kernel, p: nat, o: nat)
    requires PagesOK(k) && IsBlock(k.live, p, o)
    ensures PagesOK(FreePages(k, p, o))
    ensures var k' := FreePages(k, p, o);
            && k'.live == k.live - {p} && Shaped(k.zone) && o < GROUPS && p < |k.zone.pages|
            && k'.zone == Free(k.zone, p, o)
            && Fits(k, k'.zone) && k'.lru == Relinked(k.lru, k.zone, k'.zone)
            && k'.first == k.first && k'.caches == k.caches && k'.slabs == k.slabs && k'.words == k.words
            && k'.homes == k.homes && k'.marked == k.marked
  {
    hide Inv, LinksMatch, Free, Relinked, SameFlags;
    InvParts(k.zone, k.live);
    FreeKeepsInv(k.zone, k.live, p, o);
    FreeKeepsFlags(k.zone, k.live, o, p);
    SameFlagsSize(k.zone, Free(k.zone, p, o));
    LinksSize(k.zone, k.lru);
    InvParts(Free(k.zone, p, o), k.live - {p});
    RelinkedMatches(k.lru, k.zone, Free(k.zone, p, o));
  }

  /** Giving back pages that no slab owns keeps the invariant. */
  lemma FreePagesKeepsInv(k: Kernel, p: nat, o: nat)
    requires KInv(k) && IsBlock(k.live, p, o) && p !in k.marked
    ensures KInv(FreePages(k, p, o))
  {
    hide PagesOK, CachesOK, SlabsOK, FreePages, FreeClean, LiveFlags, Inv;
    FreePagesOK(k, p, o);
    var k' := FreePages(k, p, o);
    PagesInv(k);
    FreeKeepsFreeClean(k.zone, k.live, k.marked, p, o);
    FreeLiveFlags(k.zone, k.live, k.marked, p, o);
    BasesAreLive(k);
    PageTraffic(k, k');
  }

  lemma PagesInv(k: Kernel)
    requires PagesOK(k)
    ensures Inv(k.zone, k.live)
  {
  }

  // ----- the slab flag

  /** The zone does not look at the flags above the private bit. */
  ghost predicate SameForZone(z: Zone, y: Zone) {
    && y.lists == z.lists && y.nrFree == z.nrFree && y.freePages == z.freePages && |y.pages| == |z.pages|
    && forall q :: 0 <= q < |z.pages| ==>
         && y.pages[q].flags.priv == z.pages[q].flags.priv && y.pages[q].order == z.pages[q].order
         && (LowClear(z.pages[q].flags) ==> LowClear(y.pages[q].flags))
  }

  lemma SameForZoneInv(z: Zone, y: Zone, live: map<nat, nat>)
    requires Inv(z, live) && SameForZone(z, y)
    ensures Inv(y, live) && FreeMap(y) == FreeMap(z)
  {
    hide Tiling, NoDup;
    assert FreeMap(y) == FreeMap(z);
    hide FreeMap;
  }

  lemma BlockIsPlain(z: Zone, live: map<nat, nat>, p: nat, o: nat)
    requires Inv(z, live) && IsBlock(live, p, o)
    ensures forall q: nat :: InBlock(q, p, o) ==> q < |z.pages| && !z.pages[q].flags.priv
  {
    hide Inv, Pow2;
    forall q: nat | InBlock(q, p, o) ensures q < |z.pages| && !z.pages[q].flags.priv {
      LivePageIsPlain(z, live, p, q);
    }
  }

  function MarkZone(z: Zone, p: nat, o: nat): Zone { z.(pages := MarkRange(z.pages, p, p + Pow2(o))) }

  function UnmarkZone(z: Zone, p: nat, o: nat): Zone { z.(pages := UnmarkRange(z.pages, p, p + Pow2(o))) }

  lemma MarkIsInvisible(z: Zone, live: map<nat, nat>, p: nat, o: nat)
    requires Inv(z, live) && IsBlock(live, p, o)
    ensures SameForZone(z, MarkZone(z, p, o)) && SameForZone(z, UnmarkZone(z, p, o))
  {
    BlockIsPlain(z, live, p, o);
    hide Inv, Pow2;
    assert forall q: nat :: p <= q < p + Pow2(o) ==> InBlock(q, p, o);
  }

  lemma LiveBlocksApart(z: Zone, live: map<nat, nat>, p: nat, r: nat, q: nat)
    requires Inv(z, live) && p in live && r in live && p != r && InBlock(q, p, live[p])
    ensures !InBlock(q, r, live[r])
  {
    hide Listed, Placed, Coalesced, FreeMap;
    var u := FreeMap(z) + live;
    assert p in u && r in u && u[p] == live[p] && u[r] == live[r];
  }

  lemma FreeIsNotLive(z: Zone, live: map<nat, nat>, p: nat, q: nat)
    requires Inv(z, live) && p in live && InBlock(q, p, live[p])
    ensures !Covered(FreeMap(z), q)
  {
    hide Listed, Placed, Coalesced, FreeMap;
    CoverSplits(FreeMap(z), live, |z.pages|, q);
    assert Covered(live, q);
  }

  lemma MarkFlags(z: Zone, live: map<nat, nat>, marked: set<nat>, p: nat, o: nat)
    requires Inv(z, live) && IsBlock(live, p, o) && FreeClean(z) && LiveFlags(z, live, marked)
    requires FreeMap(MarkZone(z, p, o)) == FreeMap(z)
    ensures FreeClean(MarkZone(z, p, o)) && LiveFlags(MarkZone(z, p, o), live, marked + {p})
  {
    hide Inv, Covered, FreeMap, Pow2;
    var y := MarkZone(z, p, o);
    forall q: nat | Covered(FreeMap(y), q) ensures FlagsAre(y, q, NO_FLAGS) {
      if InBlock(q, p, o) { FreeIsNotLive(z, live, p, q); }
    }
    forall r, q: nat | r in live && InBlock(q, r, live[r])
      ensures FlagsAre(y, q, if r in marked + {p} then SLAB_FLAGS else NO_FLAGS)
    {
      if r != p { LiveBlocksApart(z, live, r, p, q); }
      assert FlagsAre(z, q, if r in marked then SLAB_FLAGS else NO_FLAGS);
    }
  }

  lemma UnmarkFlags(z: Zone, live: map<nat, nat>, marked: set<nat>, p: nat, o: nat)
    requires Inv(z, live) && IsBlock(live, p, o) && FreeClean(z) && LiveFlags(z, live, marked)
    requires FreeMap(UnmarkZone(z, p, o)) == FreeMap(z)
    ensures FreeClean(UnmarkZone(z, p, o)) && LiveFlags(UnmarkZone(z, p, o), live, marked - {p})
  {
    hide Inv, Covered, FreeMap, Pow2;
    var y := UnmarkZone(z, p, o);
    forall q: nat | Covered(FreeMap(y), q) ensures FlagsAre(y, q, NO_FLAGS) {
      if InBlock(q, p, o) { FreeIsNotLive(z, live, p, q); }
    }
    forall r, q: nat | r in live && InBlock(q, r, live[r])
      ensures FlagsAre(y, q, if r in marked - {p} then SLAB_FLAGS else NO_FLAGS)
    {
      if r != p { LiveBlocksApart(z, live, r, p, q); }
      assert FlagsAre(z, q, if r in marked then SLAB_FLAGS else NO_FLAGS);
    }
  }

  /** Only page flags and the record of marked blocks differ. */
  lemma FlagTraffic(k: Kernel, k': Kernel)
    requires CachesOK(k) && SlabsOK(k)
    requires k' == k.(zone := k'.zone, marked := k'.marked)
    requires forall s :: s in k.homes ==> k.homes[s].base in k'.marked
    ensures CachesOK(k') && SlabsOK(k')
  {
    hide PlacedSlab, ChainOK, PointsBack, CacheOK, ListsOK, HeldFrom;
    forall c, a ensures HeldFrom(k, c, a) <==> HeldFrom(k', c, a) { HeldIgnoresPages(k, k', c, a); }
  }

  lemma LinksIgnoreFlags(z: Zone, y: Zone, l: seq<Links>)
    requires LinksMatch(z, l) && SameForZone(z, y)
    ensures LinksMatch(y, l)
  {
  }

  /** Setting the slab flag on a held block keeps the invariant. */
  lemma MarkKeepsInv(k: Kernel, p: nat, o: nat)
    requires KInv(k) && IsBlock(k.live, p, o)
    ensures KInv(Mark(k, p, o))
  {
    hide Inv, LinksMatch, CachesOK, SlabsOK, FreeClean, LiveFlags, SameForZone, MarkRange, Pow2;
    var k' := Mark(k, p, o);
    assert k'.zone == MarkZone(k.zone, p, o);
    MarkIsInvisible(k.zone, k.live, p, o);
    SameForZoneInv(k.zone, k'.zone, k.live);
    LinksIgnoreFlags(k.zone, k'.zone, k.lru);
    MarkFlags(k.zone, k.live, k.marked, p, o);
    BasesAreLive(k);
    FlagTraffic(k, k');
  }

  /** Clearing it on a block no slab owns keeps the invariant. */
  lemma UnmarkKeepsInv(k: Kernel, p: nat, o: nat)
    requires KInv(k) && IsBlock(k.live, p, o) && forall s :: s in k.homes ==> k.homes[s].base != p
    ensures KInv(Unmark(k, p, o))
  {
    hide Inv, LinksMatch, CachesOK, SlabsOK, FreeClean, LiveFlags, SameForZone, UnmarkRange, Pow2;
    var k' := Unmark(k, p, o);
    assert k'.zone == UnmarkZone(k.zone, p, o);
    MarkIsInvisible(k.zone, k.live, p, o);
    SameForZoneInv(k.zone, k'.zone, k.live);
    LinksIgnoreFlags(k.zone, k'.zone, k.lru);
    UnmarkFlags(k.zone, k.live, k.marked, p, o);
    BasesAreLive(k);
    FlagTraffic(k, k');
  }
}
