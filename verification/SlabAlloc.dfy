/** Allocation: take an object, growing the cache when it has none. */
module SlabAlloc {
  import opened Bits
  import opened Blocks
  import opened Options
  import opened PageAddr
  import opened PageFlags
  import opened SlabLayout
  import opened Zone
  import opened ZoneTheorems
  import opened ZoneLinks
  import opened SlabModel
  import opened SlabLists
  import opened SlabPlaces
  import opened SlabLocal
  import opened SlabObjects
  import opened SlabPages
  import opened SlabGrow
  import opened SlabDrop
  import opened SlabFrames

  // ----- the colour cycle

  function NextColour(cc: Cache): nat {
    if cc.colourNext + 1 >= cc.geo.colour then 0 else cc.colourNext + 1
  }

  function BumpColour(k: Kernel, c: nat): Kernel
    requires c in k.caches
  {
    k.(caches := k.caches[c := k.caches[c].(colourNext := NextColour(k.caches[c]))])
  }

  lemma BumpSlabs(k: Kernel, c: nat)
    requires c in k.caches && SlabsOK(k)
    ensures SlabsOK(BumpColour(k, c))
  {
    hide PlacedSlab, ChainOK, PointsBack, IsBlock, HeldFrom;
    var k' := BumpColour(k, c);
    forall d, a ensures HeldFrom(k, d, a) <==> HeldFrom(k', d, a) { BumpHeld(k, c, d, a); }
  }

  lemma BumpHeld(k: Kernel, c: nat, d: nat, a: nat)
    requires c in k.caches
    ensures HeldFrom(k, d, a) <==> HeldFrom(BumpColour(k, c), d, a)
  {
    hide IsObject;
    var k' := BumpColour(k, c);
    if HeldFrom(k, d, a) { var t :| Holds(k, t, a) && k.homes[t].cache == d; assert Holds(k', t, a); }
    if HeldFrom(k', d, a) { var t :| Holds(k', t, a) && k'.homes[t].cache == d; assert Holds(k, t, a); }
  }

  lemma BumpCaches(k: Kernel, c: nat)
    requires c in k.caches && CachesOK(k)
    ensures CachesOK(BumpColour(k, c))
  {
    hide GoodGeometry, OnList, AllListed, FreeCount, HeldFrom;
    var k' := BumpColour(k, c);
    forall d, a ensures HeldFrom(k, d, a) <==> HeldFrom(k', d, a) { BumpHeld(k, c, d, a); }
    forall d | d in k'.caches ensures CacheOK(k'.caches, d) { assert CacheOK(k.caches, d); }
    forall d | d in k'.caches ensures ListsOK(k'.caches[d], d, k'.homes, k'.slabs) {
      assert ListsOK(k.caches[d], d, k.homes, k.slabs);
      hide ListsOK;
      if d == c { ListsIgnoreColour(k.caches[c], c, k.homes, k.slabs, NextColour(k.caches[c])); }
    }
  }

  lemma ListsIgnoreColour(cc: Cache, c: nat, homes: map<nat, Home>, slabs: map<nat, Slab>, x: nat)
    requires ListsOK(cc, c, homes, slabs)
    ensures ListsOK(cc.(colourNext := x), c, homes, slabs)
  {
    hide OnList, FreeCount;
  }

  lemma BumpKeepsInv(k: Kernel, c: nat)
    requires c in k.caches && KInv(k)
    ensures KInv(BumpColour(k, c))
  {
    hide CachesOK, SlabsOK, Inv, LinksMatch, FreeClean, LiveFlags;
    BumpCaches(k, c);
    BumpSlabs(k, c);
  }

  // ----- pages for a slab

  /** `kmem_getpages` */
  ghost function GetPages(k: Kernel, o: nat): (Kernel, Option<nat>)
    requires PagesOK(k)
  {
    hide PagesOK;
    var (k1, r) := AllocPages(k, o);
    if r.None? then (k, None) else (Mark(k1, r.value, o), r)
  }

  /** `kmem_freepages` */
  ghost function PutPages(k: Kernel, p: nat, o: nat): Kernel
    requires KInv(k) && IsBlock(k.live, p, o) && forall s :: s in k.homes ==> k.homes[s].base != p
  {
    hide KInv, PagesOK;
    UnmarkKeepsInv(k, p, o);
    InvariantParts(Unmark(k, p, o));
    FreePages(Unmark(k, p, o), p, o)
  }

  /** Everything but pages and colours is as it was. */
  ghost predicate SlabsAlike(k: Kernel, k': Kernel) {
    k'.caches == k.caches && k'.homes == k.homes && k'.slabs == k.slabs && k'.words == k.words && k'.first == k.first
  }

  lemma GetPagesKeepsInv(k: Kernel, o: nat)
    requires KInv(k)
    ensures var (k', r) := GetPages(k, o);
            && KInv(k') && SlabsAlike(k, k')
            && (r.None? ==> k' == k)
            && (r.Some? ==> r.value !in k.live && k'.live == k.live[r.value := o] && k'.marked == k.marked + {r.value})
  {
    hide KInv, PagesOK, AllocPages, Relinked, Listed, Placed, Alloc;
    InvariantParts(k);
    AllocPagesKeepsInv(k, o);
    AllocPagesOK(k, o);
    AllocPagesRest(k, o);
    var (k1, r) := AllocPages(k, o);
    if r.Some? { MarkKeepsInv(k1, r.value, o); }
  }

  lemma PutPagesKeepsInv(k: Kernel, p: nat, o: nat)
    requires KInv(k) && IsBlock(k.live, p, o) && forall s :: s in k.homes ==> k.homes[s].base != p
    ensures var k' := PutPages(k, p, o);
            KInv(k') && SlabsAlike(k, k') && k'.live == k.live - {p} && k'.marked == k.marked - {p}
  {
    hide KInv, PagesOK, FreePages, Relinked, Free;
    UnmarkKeepsInv(k, p, o);
    var k1 := Unmark(k, p, o);
    InvariantParts(k1);
    FreePagesKeepsInv(k1, p, o);
    FreePagesOK(k1, p, o);
  }

  // ----- pages taken and given straight back

  lemma UnmarkUndoesMark(z: Zone, p: nat, o: nat)
    requires forall q: nat :: InBlock(q, p, o) ==> q < |z.pages| && z.pages[q].flags == NO_FLAGS
    ensures UnmarkZone(MarkZone(z, p, o), p, o) == z
  {
    hide Pow2;
    var y := UnmarkZone(MarkZone(z, p, o), p, o);
    forall q | 0 <= q < |z.pages| ensures y.pages[q] == z.pages[q] {
      if p <= q < p + Pow2(o) { assert InBlock(q, p, o); }
    }
    assert y.pages == z.pages;
  }

  lemma BlockHasNoFlags(k: Kernel, p: nat, o: nat)
    requires KInv(k) && IsBlock(k.live, p, o) && p !in k.marked
    ensures forall q: nat :: InBlock(q, p, o) ==> q < |k.zone.pages| && k.zone.pages[q].flags == NO_FLAGS
  {
    hide CachesOK, SlabsOK, Inv, LinksMatch, FreeClean, Pow2;
    BlockIsPlain(k.zone, k.live, p, o);
    forall q: nat | InBlock(q, p, o) ensures k.zone.pages[q].flags == NO_FLAGS {
      assert FlagsAre(k.zone, q, NO_FLAGS);
    }
  }

  /** Taking pages for a slab and giving them straight back restores the zone exactly. */
  lemma PutUndoesGet(k: Kernel, o: nat, k2: Kernel)
    requires KInv(k) && GetPages(k, o).1.Some?
    requires var (k1, p) := (GetPages(k, o).0, GetPages(k, o).1.value);
             && KInv(k2) && k2.zone == k1.zone && IsBlock(k2.live, p, o)
             && forall s :: s in k2.homes ==> k2.homes[s].base != p
    ensures PutPages(k2, GetPages(k, o).1.value, o).zone == k.zone
  {
    hide KInv, PagesOK, FreePages, AllocPages, Relinked, Listed, Placed, Alloc, Free, FreeMap, IsBlock, Inv;
    InvariantParts(k);
    AllocPagesKeepsInv(k, o);
    AllocPagesOK(k, o);
    AllocPagesRest(k, o);
    var (k1, r) := AllocPages(k, o);
    var p := r.value;
    PagesInv(k);
    FreeUndoesAlloc(k.zone, k.live, o);
    LiveUpdate(k1.live, k.live, p, o);
    MarkedAreLive(k);
    BlockHasNoFlags(k1, p, o);
    UnmarkUndoesMark(k1.zone, p, o);
    UnmarkKeepsInv(k2, p, o);
    InvariantParts(Unmark(k2, p, o));
    assert Unmark(k2, p, o).zone == k1.zone;
    FreePagesOK(Unmark(k2, p, o), p, o);
  }

  lemma LiveUpdate(live': map<nat, nat>, live: map<nat, nat>, p: nat, o: nat)
    requires live' == live[p := o]
    ensures IsBlock(live', p, o)
  {
  }

  lemma MarkedAreLive(k: Kernel)
    requires KInv(k)
    ensures k.marked <= k.live.Keys
  {
    hide PagesOK, CachesOK, SlabsOK, FreeClean, LiveFlags;
  }

  // ----- growth and allocation

  /** Nothing moved but colours (and links of pages that stayed free). */
  ghost predicate Quiet(k: Kernel, k': Kernel, cs: set<nat>) {
    && k'.zone == k.zone && k'.live == k.live && k'.marked == k.marked && k'.first == k.first
    && k'.homes == k.homes && k'.slabs == k.slabs && k'.words == k.words
    && k'.caches.Keys == k.caches.Keys
    && (forall d :: d in k.caches ==> k'.caches[d] == k.caches[d].(colourNext := k'.caches[d].colourNext))
    && (forall d :: d in k.caches && d !in cs ==> k'.caches[d] == k.caches[d])
  }

  /** The caches an allocation from `c` works on. */
  ghost function Touched(k: Kernel, c: nat): set<nat>
    requires c in k.caches
  {
    if k.caches[c].geo.offSlab then {c, k.caches[c].slabpCache} else {c}
  }

  ghost predicate Grew(k: Kernel, c: nat, k': Kernel, ok: bool) {
    && c in k.caches && c in k'.caches && KInv(k')
    && (!ok ==> Quiet(k, k', Touched(k, c)))
    && (ok ==>
          && Extends(k, k', Touched(k, c)) && NewSlabsOnNewPages(k, k') && Settles(k, k', {})
          && k'.caches[c].free != [] && k'.caches[c].partial == k.caches[c].partial)
  }

  ghost predicate Held(k: Kernel, a: nat) { exists t: nat :: Holds(k, t, a) }

  /** The outcome of an allocation: NULL and nothing moved, or an object nobody held. */
  ghost predicate Allocated(k: Kernel, c: nat, k': Kernel, obj: nat) {
    && c in k.caches && KInv(k')
    && (obj == NULL ==> Quiet(k, k', Touched(k, c)))
    && (obj != NULL ==>
          && Extends(k, k', Touched(k, c)) && NewSlabsOnNewPages(k, k') && Settles(k, k', {})
          && HeldFrom(k', c, obj) && !Held(k, obj) && obj !in k'.homes && obj !in k'.caches)
  }

  lemma ExtendsRefl(k: Kernel, cs: set<nat>)
    ensures Extends(k, k, cs) && NewSlabsOnNewPages(k, k) && Settles(k, k, {})
  {
    hide Holds;
  }

  lemma FreeObjectIsNotHeld(k: Kernel, s: nat, a: nat)
    requires KInv(k) && s in k.homes && a in k.homes[s].chain
    ensures !Held(k, a)
  {
    hide KInv, PagesOK, FlagsOK, CachesOK, SlabsOK, IsObject;
    InvariantParts(k);
    if Held(k, a) {
      var t: nat :| Holds(k, t, a);
      HeldIsNotFree(k, s, k.homes[t].cache, a);
    }
  }

  /** Taking an object from a state that extends the first one completes an allocation. */
  lemma TakeCompletes(k: Kernel, c: nat, k1: Kernel, s: nat, fromFree: bool)
    requires c in k.caches && c in k1.caches && KInv(k1) && IsNext(k1.caches[c], s, fromFree)
    requires Extends(k, k1, Touched(k, c)) && NewSlabsOnNewPages(k, k1) && Settles(k, k1, {})
    ensures s in k1.homes && s in k1.slabs && k1.homes[s].chain != [] && k1.slabs[s].freeList in k1.words
    ensures Allocated(k, c, TakeObj(k1, c, s, fromFree).0, TakeObj(k1, c, s, fromFree).1)
  {
    hide KInv, Extends, NewSlabsOnNewPages, Quiet, IsObject, Taken, LocalTo, Settles;
    var cs := Touched(k, c);
    HandOutKeepsInv(k1, c, s, fromFree);
    TakeExtends(k1, c, s, fromFree);
    var (k', obj) := TakeObj(k1, c, s, fromFree);
    ExtendsMore(k1, k', {c}, cs);
    ExtendsTrans(k, k1, k', cs);
    NewSlabsTrans(k, k1, k', cs);
    FreeObjectIsNotHeld(k1, s, obj);
    NotHeldBefore(k, k1, cs, obj);
    TakeCache(k1, c, s, fromFree);
    SameMarks(k1, k');
    SettlesTrans(k, k1, k', cs, {}, {});
    SettlesEmpty(k, k');
    assert k'.homes[s].cache == c;
  }

  lemma SettlesEmpty(k: Kernel, k': Kernel)
    requires Settles(k, k', {} + {})
    ensures Settles(k, k', {})
  {
  }

  lemma SameMarks(k: Kernel, k': Kernel)
    requires k'.marked == k.marked
    ensures Settles(k, k', {})
  {
  }

  lemma TakeCache(k: Kernel, c: nat, s: nat, fromFree: bool)
    requires KInv(k) && c in k.caches && IsNext(k.caches[c], s, fromFree)
    ensures s in k.homes && k.homes[s].cache == c
  {
    hide KInv, SlabOK;
    NextHasRoom(k, c, s, fromFree);
  }

  lemma NotHeldBefore(k: Kernel, k1: Kernel, cs: set<nat>, a: nat)
    requires Extends(k, k1, cs) && !Held(k1, a)
    ensures !Held(k, a)
  {
    hide Holds, KeepsWords, KeepsBlocks;
  }

  /** The page of any slab descriptor belongs to a slab. */
  lemma DescriptorPage(k: Kernel, t: nat) returns (u: nat)
    requires KInv(k) && t in k.homes
    ensures u in k.homes && k.homes[u].cache in k.caches && SlabOK(k, u)
    ensures InBlock(VirtToPage(t), k.homes[u].base, k.caches[k.homes[u].cache].geo.order)
  {
    hide KInv, PagesOK, FlagsOK, CachesOK, SlabsOK, SlabOK, IsObject, VirtToPage, GoodGeometry;
    InvariantParts(k);
    SlabIsOK(k, t);
    HomeHasCache(k, t);
    ObjectSizes(k);
    if k.caches[k.homes[t].cache].geo.offSlab {
      DescriptorHeld(k, t);
      u :| Holds(k, u, t) && k.homes[u].cache == k.caches[k.homes[t].cache].slabpCache;
      SlabIsOK(k, u);
      ObjectPage(k, u, t);
    } else {
      HeaderInPages(k, t);
      u := t;
    }
  }

  lemma FreshHeaderIsNew(k: Kernel, p: nat, o: nat, x: nat)
    requires KInv(k) && IsBlock(k.live, p, o) && (forall t :: t in k.homes ==> k.homes[t].base != p)
    requires InPages(x, p, o)
    ensures x !in k.homes
  {
    hide KInv, PagesOK, FlagsOK, CachesOK, SlabsOK, VirtToPage, InPages, PlacedSlab, ChainOK, PointsBack;
    if x in k.homes {
      InvariantParts(k);
      PageOfBlock(x, p, o);
      var u := DescriptorPage(k, x);
      OtherPagesStay(k, p, o, k.homes[u].base, k.caches[k.homes[u].cache].geo.order, VirtToPage(x));
      assert false;
    }
  }

  /** `cache_grow` up to the descriptor: the colour moves on and marked pages are at hand. */
  ghost function GrowPages(k: Kernel, c: nat): (Kernel, Option<nat>)
    requires c in k.caches && KInv(k)
  {
    hide KInv, PagesOK;
    BumpKeepsInv(k, c);
    InvariantParts(BumpColour(k, c));
    GetPages(BumpColour(k, c), k.caches[c].geo.order)
  }

  /** `k1` is `k` with the colour moved on and a marked block at `p` that nobody owns yet. */
  ghost predicate GotPages(k: Kernel, c: nat, k1: Kernel, p: nat)
    requires c in k.caches
  {
    && k1.caches == BumpColour(k, c).caches && k1.homes == k.homes && k1.slabs == k.slabs
    && k1.words == k.words && k1.first == k.first
    && p !in k.live && k1.live == k.live[p := k.caches[c].geo.order] && k1.marked == k.marked + {p}
    && forall t :: t in k1.homes ==> k1.homes[t].base != p
  }

  lemma GrowPagesKeepsInv(k: Kernel, c: nat)
    requires c in k.caches && KInv(k)
    ensures var (k1, r) := GrowPages(k, c);
            && KInv(k1)
            && (r.None? ==> k1 == BumpColour(k, c))
            && (r.Some? ==> GotPages(k, c, k1, r.value))
  {
    hide KInv, PagesOK, FlagsOK, CachesOK, SlabsOK, GetPages;
    BumpKeepsInv(k, c);
    InvariantParts(BumpColour(k, c));
    GetPagesKeepsInv(BumpColour(k, c), k.caches[c].geo.order);
    BasesLive(k);
  }

  lemma BumpIsQuiet(k: Kernel, c: nat, cs: set<nat>)
    requires c in k.caches && c in cs
    ensures Quiet(k, BumpColour(k, c), cs)
  {
  }

  lemma GotPagesExtends(k: Kernel, c: nat, k1: Kernel, p: nat)
    requires c in k.caches && GotPages(k, c, k1, p)
    ensures Extends(k, k1, {c}) && NewSlabsOnNewPages(k, k1) && Settles(k, k1, {p})
  {
    hide Extends, NewSlabsOnNewPages;
    PagesExtend(k, k1, {c});
  }

  lemma BasesLive(k: Kernel)
    requires KInv(k)
    ensures forall t :: t in k.homes ==> k.homes[t].base in k.live
  {
    hide PagesOK, FlagsOK, CachesOK, SlabsOK;
    BasesAreLive(k);
  }

  /** The colour offset of the next slab. */
  function NextOffset(cc: Cache): nat { ColourOffset(cc.geo, cc.colourNext) }

  lemma OffsetOK(k: Kernel, c: nat)
    requires c in k.caches && KInv(k)
    ensures NextOffset(k.caches[c]) <= MaxOffset(k.caches[c].geo) && IsColour(k.caches[c].geo, NextOffset(k.caches[c]))
    ensures GoodGeometry(k.caches[c].geo)
  {
    hide KInv, PagesOK, FlagsOK, SlabsOK, CachesOK, GoodGeometry, MaxOffset, ColourOffset;
    InvariantParts(k);
    GeometryIsSafe(k, c);
    OffsetInRange(k.caches[c].geo, k.caches[c].colourNext);
  }

  lemma HeaderAddress(k: Kernel, p: nat, g: Geometry, offset: nat)
    requires KInv(k) && IsBlock(k.live, p, g.order) && GoodGeometry(g) && offset <= MaxOffset(g) && !g.offSlab
    ensures InPages(PageAddress(p) + offset, p, g.order)
  {
    hide KInv, PagesOK, FlagsOK, SlabsOK, CachesOK, PageAddress, SlabBytes, MaxOffset;
    InvariantParts(k);
    BlockInDirectMap(k, p);
  }

  lemma OnSlabCanInsert(k: Kernel, c: nat, k1: Kernel, p: nat)
    requires c in k.caches && KInv(k) && KInv(k1) && GotPages(k, c, k1, p)
    requires !k.caches[c].geo.offSlab && k.caches[c].free == []
    ensures c in k1.caches
    ensures CanInsert(k1, c, PageAddress(p) + NextOffset(k.caches[c]), p, NextOffset(k.caches[c]))
  {
    hide KInv, PageAddress, NextOffset, MaxOffset, GoodGeometry, InPages;
    OffsetOK(k, c);
    HeaderAddress(k1, p, k.caches[c].geo, NextOffset(k.caches[c]));
    FreshHeaderIsNew(k1, p, k.caches[c].geo.order, PageAddress(p) + NextOffset(k.caches[c]));
  }

  lemma InsertCompletes(k: Kernel, c: nat, k1: Kernel, s: nat, p: nat, offset: nat)
    requires c in k.caches && c in k1.caches && s !in k1.homes && KInv(k1) && CanInsert(k1, c, s, p, offset)
    requires k1.caches[c].partial == k.caches[c].partial
    requires p !in k.live && Extends(k, k1, Touched(k, c)) && NewSlabsOnNewPages(k, k1) && Settles(k, k1, {p})
    ensures Grew(k, c, InsertSlab(k1, c, s, p, offset), true)
  {
    hide KInv, CanInsert, InsertSlab, Extends, Quiet, SameBut, Settles;
    var cs := Touched(k, c);
    InsertKeepsInv(k1, c, s, p, offset);
    InsertExtends(k1, c, s, p, offset);
    InsertFacts(k1, c, s, p, offset);
    var k' := InsertSlab(k1, c, s, p, offset);
    ExtendsMore(k1, k', {c}, cs);
    ExtendsTrans(k, k1, k', cs);
    SameMarks(k1, k');
    SettlesTrans(k, k1, k', cs, {p}, {});
    PendingSettles(k, k', s, p);
  }

  lemma PendingSettles(k: Kernel, k': Kernel, s: nat, p: nat)
    requires Settles(k, k', {p} + {}) && s in k'.homes && k'.homes[s].base == p
    ensures Settles(k, k', {})
  {
    assert IsBase(k'.homes, p);
  }

  lemma OnSlabGrows(k: Kernel, c: nat, k1: Kernel, p: nat)
    requires c in k.caches && KInv(k) && KInv(k1) && GotPages(k, c, k1, p)
    requires !k.caches[c].geo.offSlab && k.caches[c].free == []
    ensures c in k1.caches
    ensures Grew(k, c, InsertSlab(k1, c, PageAddress(p) + NextOffset(k.caches[c]), p, NextOffset(k.caches[c])), true)
  {
    hide KInv, Extends, NewSlabsOnNewPages, InsertSlab, Grew, PageAddress, NextOffset, Settles;
    OnSlabCanInsert(k, c, k1, p);
    GotPagesExtends(k, c, k1, p);
    InsertCompletes(k, c, k1, PageAddress(p) + NextOffset(k.caches[c]), p, NextOffset(k.caches[c]));
  }

  lemma OffSlabCanInsert(k: Kernel, c: nat, k1: Kernel, p: nat, k2: Kernel, s: nat)
    requires c in k.caches && KInv(k) && KInv(k1) && GotPages(k, c, k1, p) && k.caches[c].free == []
    requires k.caches[c].geo.offSlab && c !in {k.caches[c].slabpCache}
    requires Extends(k1, k2, {k.caches[c].slabpCache}) && NewSlabsOnNewPages(k1, k2)
    requires HeldFrom(k2, k.caches[c].slabpCache, s) && s !in k2.homes
    ensures c in k2.caches && CanInsert(k2, c, s, p, NextOffset(k.caches[c]))
    ensures k2.caches[c].partial == k.caches[c].partial
  {
    hide KInv, NextOffset, MaxOffset, GoodGeometry, HeldFrom, KeepsWords, KeepsHeld;
    OffsetOK(k, c);
    assert c in k1.caches && k2.caches[c] == k1.caches[c];
  }

  lemma OffSlabGrows(k: Kernel, c: nat, k1: Kernel, p: nat, k2: Kernel, s: nat)
    requires c in k.caches && KInv(k) && KInv(k1) && GotPages(k, c, k1, p) && k.caches[c].free == []
    requires k.caches[c].geo.offSlab && c != k.caches[c].slabpCache
    requires k.caches[c].slabpCache in k1.caches && !k1.caches[k.caches[c].slabpCache].geo.offSlab
    requires s != NULL && Allocated(k1, k.caches[c].slabpCache, k2, s)
    ensures c in k2.caches && Grew(k, c, InsertSlab(k2, c, s, p, NextOffset(k.caches[c])), true)
  {
    hide KInv, Extends, NewSlabsOnNewPages, InsertSlab, Grew, NextOffset, HeldFrom, Held, Settles;
    var d := k.caches[c].slabpCache;
    GotPagesExtends(k, c, k1, p);
    OffSlabCanInsert(k, c, k1, p, k2, s);
    ExtendsMore(k, k1, {c}, {c, d});
    ExtendsMore(k1, k2, {d}, {c, d});
    ExtendsTrans(k, k1, k2, {c, d});
    NewSlabsTrans(k, k1, k2, {c, d});
    SettlesTrans(k, k1, k2, {c, d}, {p}, {});
    assert {p} + {} == {p};
    InsertCompletes(k, c, k2, s, p, NextOffset(k.caches[c]));
  }

  lemma FailIsQuiet(k: Kernel, c: nat, k1: Kernel, p: nat, k2: Kernel, k': Kernel)
    requires c in k.caches && k.marked <= k.live.Keys && GotPages(k, c, k1, p) && k.caches[c].geo.offSlab
    requires Quiet(k1, k2, {k.caches[c].slabpCache}) && SlabsAlike(k2, k')
    requires k'.zone == k.zone && k'.live == k2.live - {p} && k'.marked == k2.marked - {p}
    ensures Quiet(k, k', Touched(k, c))
  {
    BackToBefore(k.live, k.marked, p, k.caches[c].geo.order);
  }

  lemma BackToBefore(live: map<nat, nat>, marked: set<nat>, p: nat, o: nat)
    requires p !in live && marked <= live.Keys
    ensures live[p := o] - {p} == live && marked + {p} - {p} == marked
  {
  }

  lemma PendingBlock(k: Kernel, c: nat, k1: Kernel, p: nat, k2: Kernel, cs: set<nat>)
    requires c in k.caches && GotPages(k, c, k1, p) && Quiet(k1, k2, cs)
    ensures k2.zone == k1.zone && IsBlock(k2.live, p, k.caches[c].geo.order)
    ensures forall s :: s in k2.homes ==> k2.homes[s].base != p
  {
  }

  /** When no descriptor can be had the pages go back and the zone is exactly as before. */
  lemma OffSlabFails(k: Kernel, c: nat, k1: Kernel, p: nat, k2: Kernel)
    requires c in k.caches && KInv(k) && GrowPages(k, c) == (k1, Some(p)) && KInv(k1) && GotPages(k, c, k1, p)
    requires k.caches[c].geo.offSlab && c != k.caches[c].slabpCache
    requires KInv(k2) && Quiet(k1, k2, {k.caches[c].slabpCache})
    ensures IsBlock(k2.live, p, k.caches[c].geo.order) && forall s :: s in k2.homes ==> k2.homes[s].base != p
    ensures Grew(k, c, PutPages(k2, p, k.caches[c].geo.order), false)
  {
    hide KInv, GetPages, PutPages, Extends, GotPages, Quiet, IsBlock, PagesOK;
    var o := k.caches[c].geo.order;
    BumpKeepsInv(k, c);
    BumpPages(k, c);
    MarkedAreLive(k);
    InvariantPages(BumpColour(k, c));
    PendingBlock(k, c, k1, p, k2, {k.caches[c].slabpCache});
    PutUndoesGet(BumpColour(k, c), o, k2);
    PutPagesKeepsInv(k2, p, o);
    FailIsQuiet(k, c, k1, p, k2, PutPages(k2, p, o));
    QuietKeys(k, PutPages(k2, p, o), Touched(k, c));
  }

  lemma QuietKeys(k: Kernel, k': Kernel, cs: set<nat>)
    requires Quiet(k, k', cs)
    ensures k'.caches.Keys == k.caches.Keys
  {
  }

  lemma BumpPages(k: Kernel, c: nat)
    requires c in k.caches
    ensures var b := BumpColour(k, c);
            b.zone == k.zone && b.live == k.live && b.marked == k.marked && b.homes == k.homes && b.slabs == k.slabs
            && b.words == k.words && b.first == k.first
  {
  }

  lemma InvariantPages(k: Kernel)
    requires KInv(k)
    ensures PagesOK(k)
  {
    hide PagesOK, FlagsOK, CachesOK, SlabsOK;
  }

  /** How deep the recursion through the descriptor cache can still go. */
  ghost function Level(k: Kernel, c: nat): nat
    requires c in k.caches
  {
    if k.caches[c].geo.offSlab then 1 else 0
  }

  /** `cache_grow`, for a cache without free objects. */
  ghost function CacheGrow(k: Kernel, c: nat): (r: (Kernel, bool))
    requires c in k.caches && KInv(k) && k.caches[c].free == []
    ensures Grew(k, c, r.0, r.1)
    decreases Level(k, c), 1
  {
    hide KInv, Grew, GotPages, GrowPages, InsertSlab, NextOffset, PageAddress;
    GrowPagesKeepsInv(k, c);
    var (k1, r) := GrowPages(k, c);
    match r
    case None =>
      GrowNothing(k, c);
      (k1, false)
    case Some(p) =>
      if k.caches[c].geo.offSlab then GrowOffSlab(k, c, k1, p)
      else
        OnSlabGrows(k, c, k1, p);
        (InsertSlab(k1, c, PageAddress(p) + NextOffset(k.caches[c]), p, NextOffset(k.caches[c])), true)
  }

  /** `cache_grow` when the descriptor comes from the descriptor cache. */
  ghost function GrowOffSlab(k: Kernel, c: nat, k1: Kernel, p: nat): (r: (Kernel, bool))
    requires c in k.caches && KInv(k) && k.caches[c].free == [] && k.caches[c].geo.offSlab
    requires KInv(k1) && GrowPages(k, c) == (k1, Some(p)) && GotPages(k, c, k1, p)
    ensures Grew(k, c, r.0, r.1)
    decreases Level(k, c), 0
  {
    hide KInv, Grew, GotPages, GrowPages, InsertSlab, NextOffset, PutPages, Extends, HeldFrom, Held, Quiet,
         NewSlabsOnNewPages,
         Settles, PagesOK, FlagsOK, CachesOK, SlabsOK;
    InvariantParts(k);
    DescriptorCache(k, c);
    GotCaches(k, c, k1, p);
    var (k2, s) := CacheAlloc(k1, k.caches[c].slabpCache);
    if s == NULL then
      OffSlabFails(k, c, k1, p, k2);
      (PutPages(k2, p, k.caches[c].geo.order), false)
    else
      OffSlabGrows(k, c, k1, p, k2, s);
      (InsertSlab(k2, c, s, p, NextOffset(k.caches[c])), true)
  }

  lemma GrowNothing(k: Kernel, c: nat)
    requires c in k.caches && KInv(k)
    ensures Grew(k, c, BumpColour(k, c), false)
  {
    hide KInv, Extends;
    BumpKeepsInv(k, c);
    BumpIsQuiet(k, c, Touched(k, c));
  }

  lemma GotCaches(k: Kernel, c: nat, k1: Kernel, p: nat)
    requires c in k.caches && GotPages(k, c, k1, p)
    ensures k1.caches.Keys == k.caches.Keys
    ensures forall d :: d in k.caches ==> k1.caches[d].geo == k.caches[d].geo
  {
  }

  /** The part of `cache_alloc_refill` after a slab with room has been found. */
  ghost function TakeNext(k: Kernel, c: nat, k1: Kernel, fromFree: bool): (r: (Kernel, nat))
    requires c in k.caches && c in k1.caches
    requires if fromFree then k1.caches[c].free != [] else k1.caches[c].partial != []
    requires Extends(k, k1, Touched(k, c)) && NewSlabsOnNewPages(k, k1) && Settles(k, k1, {}) && KInv(k1)
    ensures Allocated(k, c, r.0, r.1)
  {
    hide KInv, Allocated, Extends, NewSlabsOnNewPages, Touched, Taken, Settles;
    var s := if fromFree then k1.caches[c].free[0] else k1.caches[c].partial[0];
    TakeCompletes(k, c, k1, s, fromFree);
    TakeObj(k1, c, s, fromFree)
  }

  /** `kmem_cache_alloc`: the object's address, or NULL. */
  ghost function CacheAlloc(k: Kernel, c: nat): (r: (Kernel, nat))
    requires c in k.caches && KInv(k)
    ensures Allocated(k, c, r.0, r.1)
    decreases Level(k, c), 2
  {
    hide KInv, Grew, Allocated, Extends, NewSlabsOnNewPages, Touched, TakeNext, Settles;
    ExtendsRefl(k, Touched(k, c));
    if k.caches[c].partial != [] then TakeNext(k, c, k, false)
    else if k.caches[c].free != [] then TakeNext(k, c, k, true)
    else
      var (k1, ok) := CacheGrow(k, c);
      if !ok then
        FailedGrowth(k, c, k1);
        (k1, NULL)
      else
        GrewParts(k, c, k1);
        TakeNext(k, c, k1, true)
  }

  lemma FailedGrowth(k: Kernel, c: nat, k1: Kernel)
    requires c in k.caches && Grew(k, c, k1, false)
    ensures Allocated(k, c, k1, NULL)
  {
    hide KInv, Quiet;
  }

  lemma GrewParts(k: Kernel, c: nat, k1: Kernel)
    requires c in k.caches && Grew(k, c, k1, true)
    ensures c in k1.caches && KInv(k1) && k1.caches[c].free != [] && k1.caches[c].partial == k.caches[c].partial
    ensures Extends(k, k1, Touched(k, c)) && NewSlabsOnNewPages(k, k1) && Settles(k, k1, {})
  {
    hide KInv, Quiet, Extends, NewSlabsOnNewPages, Settles;
  }
}
