/** Freeing: an object goes back, and an emptied slab may go with it. */
module SlabFree {
  import opened Bits
  import opened Blocks
  import opened PageAddr
  import opened SlabLayout
  import opened Zone
  import opened ListHead
  import opened ZoneLinks
  import opened SlabModel
  import opened SlabLists
  import opened SlabPlaces
  import opened SlabLocal
  import opened SlabObjects
  import opened SlabPages
  import opened SlabDrop
  import opened SlabFrames
  import opened SlabAlloc

  // ----- from an address to its slab and cache

  /** Both link words hold addresses of descriptors. */
  predicate Owned(l: Links) { l.next.Address? && l.prev.Address? }

  /** `virt_to_slab` has something to follow. */
  predicate Mapped(k: Kernel, a: nat) {
    && VirtToPage(a) < |k.first| && VirtToPage(a) < |k.lru| && Owned(k.lru[VirtToPage(a)])
    && k.first[VirtToPage(a)] < |k.lru| && Owned(k.lru[k.first[VirtToPage(a)]])
  }

  /** `virt_to_slab`: through the first page of the block. */
  function VirtToSlab(k: Kernel, a: nat): nat
    requires Mapped(k, a)
  {
    k.lru[k.first[VirtToPage(a)]].prev.a
  }

  /** The lookup in `kfree`: the page's own back pointer. */
  function PageCache(k: Kernel, a: nat): nat
    requires Mapped(k, a)
  {
    k.lru[VirtToPage(a)].next.a
  }

  /** Any address inside a slab's pages, whichever page it is on, leads to that slab and cache. */
  lemma LookupOnAnyPage(k: Kernel, s: nat, x: nat)
    requires KInv(k) && s in k.homes && k.homes[s].cache in k.caches
    requires InPages(x, k.homes[s].base, k.caches[k.homes[s].cache].geo.order)
    ensures Mapped(k, x) && VirtToSlab(k, x) == s && PageCache(k, x) == k.homes[s].cache
  {
    hide KInv, PagesOK, FlagsOK, CachesOK, SlabsOK, SlabOK, VirtToPage, InPages;
    InvariantParts(k);
    SlabIsOK(k, s);
    PageOfBlock(x, k.homes[s].base, k.caches[k.homes[s].cache].geo.order);
    PageLeadsBack(k, s, VirtToPage(x));
  }

  /** Every held object leads back to the slab and the cache that handed it out. */
  lemma LookupFindsOwner(k: Kernel, s: nat, a: nat)
    requires Holds(k, s, a) && KInv(k)
    ensures Mapped(k, a) && VirtToSlab(k, a) == s && PageCache(k, a) == k.homes[s].cache
  {
    hide KInv, PagesOK, FlagsOK, CachesOK, SlabsOK, SlabOK, IsObject, InPages, Mapped, GoodGeometry;
    InvariantParts(k);
    ObjectSizes(k);
    SlabIsOK(k, s);
    ObjectPage(k, s, a);
    LookupOnAnyPage(k, s, a);
  }

  // ----- what freeing leaves in place

  /** Held objects are those held before without `gone`; slabs and blocks that remain are where
      they were; directly held pages stay; caches outside `cs` are untouched; no word of anything
      still held changed. */
  ghost predicate Shrinks(k: Kernel, k': Kernel, cs: set<nat>, gone: set<nat>) {
    && k'.caches.Keys == k.caches.Keys
    && (forall d :: d in k.caches ==>
          SameBasics(k.caches[d], k'.caches[d]) && k'.caches[d].colourNext == k.caches[d].colourNext)
    && (forall d :: d in k.caches && d !in cs ==> k'.caches[d] == k.caches[d])
    && (forall t :: t in k'.homes ==>
          t in k.homes && k'.homes[t].cache == k.homes[t].cache && k'.homes[t].base == k.homes[t].base)
    && SlabsStayPut(k, k')
    && LosesOnly(k, k', gone)
    && BlocksRemain(k, k')
    && WordsRemain(k, k')
  }

  ghost predicate SlabsStayPut(k: Kernel, k': Kernel) {
    forall t :: t in k'.slabs ==> t in k.slabs && k'.slabs[t].colourOff == k.slabs[t].colourOff
  }

  ghost predicate LosesOnly(k: Kernel, k': Kernel, gone: set<nat>) {
    forall t: nat, a: nat :: Holds(k', t, a) <==> Holds(k, t, a) && a !in gone
  }

  ghost predicate BlocksRemain(k: Kernel, k': Kernel) {
    && (forall p :: p in k'.live ==> p in k.live && k'.live[p] == k.live[p] && (p in k'.marked <==> p in k.marked))
    && (forall p :: p in k.live && p !in k.marked ==> p in k'.live)
  }

  ghost predicate WordsRemain(k: Kernel, k': Kernel) {
    forall w: nat :: InHeldObject(k', w) || InHeldPages(k', w) ==> SameWord(k.words, k'.words, w)
  }

  /** The pages of every slab that is gone have been given back. */
  ghost predicate GivesBack(k: Kernel, k': Kernel) {
    forall s :: s in k.homes && s !in k'.homes ==> k.homes[s].base !in k'.live
  }

  lemma GivesBackTrans(k: Kernel, k1: Kernel, k2: Kernel, cs: set<nat>, g1: set<nat>, g2: set<nat>)
    requires GivesBack(k, k1) && GivesBack(k1, k2) && Shrinks(k, k1, cs, g1) && Shrinks(k1, k2, cs, g2)
    ensures GivesBack(k, k2)
  {
    hide LosesOnly, WordsRemain;
  }

  lemma WordsRemainTrans(k: Kernel, k1: Kernel, k2: Kernel, gone: set<nat>)
    requires WordsRemain(k, k1) && WordsRemain(k1, k2) && LosesOnly(k1, k2, gone) && BlocksRemain(k1, k2)
    requires forall t :: t in k2.homes ==> t in k1.homes && k2.homes[t].cache == k1.homes[t].cache
    requires k2.caches.Keys == k1.caches.Keys && forall d :: d in k1.caches ==> k1.caches[d].geo == k2.caches[d].geo
    ensures WordsRemain(k, k2)
  {
    hide IsObject, InPages;
    forall w: nat | InHeldObject(k2, w) || InHeldPages(k2, w) ensures SameWord(k.words, k2.words, w) {
      if InHeldObject(k2, w) {
        var t: nat, a: nat :| Holds(k2, t, a) && a <= w < a + k2.caches[k2.homes[t].cache].geo.objsize;
        assert Holds(k1, t, a);
      } else {
        var p :| p in k2.live && p !in k2.marked && InPages(w, p, k2.live[p]);
        assert p in k1.live && p !in k1.marked && InPages(w, p, k1.live[p]);
      }
      assert SameWord(k1.words, k2.words, w) && SameWord(k.words, k1.words, w);
    }
  }

  lemma ShrinksTrans(k: Kernel, k1: Kernel, k2: Kernel, cs: set<nat>, g1: set<nat>, g2: set<nat>)
    requires Shrinks(k, k1, cs, g1) && Shrinks(k1, k2, cs, g2)
    ensures Shrinks(k, k2, cs, g1 + g2)
  {
    hide Holds, WordsRemain;
    WordsRemainTrans(k, k1, k2, g2);
  }

  lemma ShrinksMore(k: Kernel, k': Kernel, cs: set<nat>, ds: set<nat>, gone: set<nat>)
    requires Shrinks(k, k', cs, gone) && cs <= ds
    ensures Shrinks(k, k', ds, gone)
  {
    hide LosesOnly, BlocksRemain, WordsRemain;
  }

  // ----- live things do not overlap

  lemma ObjectsOfSlabDisjoint(g: Geometry, sMem: nat, a: nat, b: nat)
    requires IsObject(g, sMem, a) && IsObject(g, sMem, b) && a != b
    ensures a + g.objsize <= b || b + g.objsize <= a
  {
    hide ObjectAt;
    var i: nat :| i < g.num && a == ObjectAt(sMem, g.objsize, i);
    var j: nat :| j < g.num && b == ObjectAt(sMem, g.objsize, j);
    if i < j { ObjectsDisjoint(sMem, g.objsize, i, j); } else { ObjectsDisjoint(sMem, g.objsize, j, i); }
  }

  /** Two different held objects share no byte, whichever slabs and caches they come from. */
  lemma HeldObjectsDisjoint(k: Kernel, s: nat, a: nat, t: nat, b: nat)
    requires Holds(k, s, a) && Holds(k, t, b) && a != b && KInv(k)
    ensures a + k.caches[k.homes[s].cache].geo.objsize <= b || b + k.caches[k.homes[t].cache].geo.objsize <= a
  {
    hide KInv, PagesOK, FlagsOK, CachesOK, SlabsOK, SlabOK, IsObject, GoodGeometry, SlabBytes;
    InvariantParts(k);
    SlabIsOK(k, s);
    SlabIsOK(k, t);
    if s == t {
      ObjectsOfSlabDisjoint(k.caches[k.homes[s].cache].geo, k.slabs[s].sMem, a, b);
    } else {
      ObjectInPages(k, s, a);
      ObjectInPages(k, t, b);
      SlabPagesDisjoint(k, s, t);
    }
  }

  /** The pages of two slabs are disjoint stretches of memory. */
  lemma SlabPagesDisjoint(k: Kernel, s: nat, t: nat)
    requires s in k.homes && t in k.homes && s != t && KInv(k)
    requires k.homes[s].cache in k.caches && k.homes[t].cache in k.caches
    ensures BlocksDisjoint(k.homes[s].base, k.caches[k.homes[s].cache].geo.order,
                           k.homes[t].base, k.caches[k.homes[t].cache].geo.order)
  {
    hide KInv, PagesOK, FlagsOK, CachesOK, SlabsOK, BlocksDisjoint;
    BasesDiffer(k, s, t);
    SlabBlock(k, s);
    SlabBlock(k, t);
    LiveBlocksDisjoint(k, k.homes[s].base, k.homes[t].base);
  }

  lemma SlabBlock(k: Kernel, s: nat)
    requires s in k.homes && k.homes[s].cache in k.caches && KInv(k)
    ensures IsBlock(k.live, k.homes[s].base, k.caches[k.homes[s].cache].geo.order) && k.homes[s].base in k.marked
  {
    hide PagesOK, FlagsOK, CachesOK, PlacedSlab, ChainOK, PointsBack, HeldFrom;
    assert SlabOK(k, s);
  }

  /** The address ranges of two page blocks do not meet. */
  predicate BlocksDisjoint(p: nat, o: nat, q: nat, r: nat) {
    || PAGE_OFFSET + p * PAGE_SIZE + SlabBytes(o) <= PAGE_OFFSET + q * PAGE_SIZE
    || PAGE_OFFSET + q * PAGE_SIZE + SlabBytes(r) <= PAGE_OFFSET + p * PAGE_SIZE
  }

  lemma LiveBlocksDisjoint(k: Kernel, p: nat, q: nat)
    requires p in k.live && q in k.live && p != q && KInv(k)
    ensures BlocksDisjoint(p, k.live[p], q, k.live[q])
  {
    hide FlagsOK, CachesOK, SlabsOK, LinksMatch, Listed, Placed, Coalesced, FreeMap, Pow2;
    var u := FreeMap(k.zone) + k.live;
    assert p in u && q in u && u[p] == k.live[p] && u[q] == k.live[q];
  }

  /** Directly held pages share no byte with any slab's pages. */
  lemma DirectPagesDisjoint(k: Kernel, p: nat, s: nat)
    requires p in k.live && p !in k.marked && s in k.homes && k.homes[s].cache in k.caches && KInv(k)
    ensures BlocksDisjoint(p, k.live[p], k.homes[s].base, k.caches[k.homes[s].cache].geo.order)
  {
    hide KInv, BlocksDisjoint;
    SlabBlock(k, s);
    LiveBlocksDisjoint(k, p, k.homes[s].base);
  }

  /** The first word of a held object belongs to nothing else that is held. */
  lemma FirstWordIsOwn(k: Kernel, s: nat, obj: nat, t: nat, a: nat)
    requires Holds(k, s, obj) && Holds(k, t, a) && a != obj && KInv(k)
    ensures !(a <= obj < a + k.caches[k.homes[t].cache].geo.objsize)
  {
    hide KInv, IsObject, GoodGeometry, CachesOK, PagesOK, FlagsOK, SlabsOK;
    InvariantParts(k);
    ObjectSizes(k);
    HeldObjectsDisjoint(k, s, obj, t, a);
  }

  lemma FirstWordNotDirect(k: Kernel, s: nat, obj: nat, p: nat)
    requires Holds(k, s, obj) && p in k.live && p !in k.marked && KInv(k)
    ensures !InPages(obj, p, k.live[p])
  {
    hide KInv, IsObject, CachesOK, PagesOK, FlagsOK, SlabsOK, SlabOK, GoodGeometry, SlabBytes;
    InvariantParts(k);
    ObjectSizes(k);
    SlabIsOK(k, s);
    ObjectPage(k, s, obj);
    DirectPagesDisjoint(k, p, s);
  }

  /** Rewriting the first word of an object that stops being held touches nothing still held. */
  lemma ChainWriteIsSafe(k: Kernel, k': Kernel, s: nat, obj: nat, x: nat)
    requires Holds(k, s, obj) && k'.words == k.words[obj := x] && LosesOnly(k, k', {obj}) && BlocksRemain(k, k')
    requires forall t :: t in k'.homes ==> t in k.homes && k'.homes[t].cache == k.homes[t].cache
    requires k'.caches.Keys == k.caches.Keys && forall d :: d in k.caches ==> k.caches[d].geo == k'.caches[d].geo
    requires KInv(k)
    ensures WordsRemain(k, k')
  {
    hide KInv, IsObject, InPages;
    forall w: nat | InHeldObject(k', w) || InHeldPages(k', w) ensures SameWord(k.words, k'.words, w) {
      if w == obj {
        if InHeldObject(k', w) {
          var t: nat, a: nat :| Holds(k', t, a) && a <= w < a + k'.caches[k'.homes[t].cache].geo.objsize;
          assert Holds(k, t, a) && a != obj;
          FirstWordIsOwn(k, s, obj, t, a);
        } else {
          var p :| p in k'.live && p !in k'.marked && InPages(w, p, k'.live[p]);
          FirstWordNotDirect(k, s, obj, p);
        }
        assert false;
      }
    }
  }

  // ----- the elementary steps

  /** The slab is given up: its last object comes back while others of the cache have room. */
  predicate Surplus(k: Kernel, c: nat, s: nat)
    requires c in k.caches && s in k.slabs
  {
    k.slabs[s].inuse - 1 == 0 && k.caches[c].freeObjects + 1 > k.caches[c].geo.freeLimit
  }

  /** `slab_destroy` would give back the right pages: the first object of an off-slab slab lies in
      its first page. */
  predicate GoesBack(k: Kernel, c: nat, s: nat)
    requires c in k.caches && s in k.slabs
  {
    k.caches[c].geo.offSlab ==> k.slabs[s].colourOff < PAGE_SIZE
  }

  /** A caller may free what it was given from this cache, and no descriptor in use. A free that
      makes the cache give up the slab must be able to give back its pages. */
  ghost predicate Freeable(k: Kernel, c: nat, s: nat, obj: nat) {
    && Holds(k, s, obj) && k.homes[s].cache == c && c in k.caches && obj !in k.homes && obj !in k.caches
    && (Surplus(k, c, s) ==> GoesBack(k, c, s))
  }

  lemma PutLosesOnly(k: Kernel, k': Kernel, c: nat, s: nat, obj: nat)
    requires LocalTo(k, k', c, s) && k'.homes[s].chain == [obj] + k.homes[s].chain
    ensures LosesOnlyFrom(k, k', s, obj)
  {
    hide IsObject, WordsOutside;
  }

  ghost predicate LosesOnlyFrom(k: Kernel, k': Kernel, s: nat, obj: nat) {
    forall t: nat, a: nat :: Holds(k', t, a) <==> Holds(k, t, a) && !(t == s && a == obj)
  }

  /** An object lies in one slab, so losing it there is losing it. */
  lemma OneSlabPerObject(k: Kernel, k': Kernel, s: nat, obj: nat)
    requires LosesOnlyFrom(k, k', s, obj) && Holds(k, s, obj) && KInv(k)
    ensures LosesOnly(k, k', {obj})
  {
    hide KInv, IsObject, PagesOK, FlagsOK, CachesOK, SlabsOK, SlabOK, GoodGeometry;
    InvariantParts(k);
    ObjectSizes(k);
    forall t: nat | Holds(k, t, obj) ensures t == s {
      SlabIsOK(k, s);
      SlabIsOK(k, t);
      ObjectHasOneSlab(k, s, t, obj);
    }
  }

  lemma PutShrinks(k: Kernel, c: nat, s: nat, obj: nat)
    requires Freeable(k, c, s, obj)
    requires k.slabs[s].inuse == 1 ==> k.caches[c].freeObjects + 1 <= k.caches[c].geo.num
    requires KInv(k)
    ensures k.slabs[s].inuse >= 1 && KInv(PutObj(k, c, s, obj)) && Shrinks(k, PutObj(k, c, s, obj), {c}, {obj})
  {
    hide KInv, IsObject, LosesOnly, LosesOnlyFrom, BlocksRemain, WordsRemain, Returned, LocalTo, SameBut;
    PutKeepsInv(k, c, s, obj);
    var k' := PutObj(k, c, s, obj);
    LocalFacts(k, k', c, s);
    LocalPages(k, k', c, s);
    PutLosesOnly(k, k', c, s, obj);
    OneSlabPerObject(k, k', s, obj);
    ChainWriteIsSafe(k, k', s, obj, k.slabs[s].freeList);
  }

  lemma LocalPages(k: Kernel, k': Kernel, c: nat, s: nat)
    requires LocalTo(k, k', c, s)
    ensures BlocksRemain(k, k')
    ensures forall t :: t in k'.homes ==> t in k.homes && k'.homes[t].base == k.homes[t].base
  {
    hide WordsOutside;
  }

  lemma DropLosesOnly(k: Kernel, c: nat, s: nat, obj: nat)
    requires CanDrop(k, c, s, obj) && KInv(k)
    ensures LosesOnlyFrom(k, DropSlab(k, c, s, obj), s, obj)
  {
    hide KInv, IsObject, SlabOK, SameBut;
    SlabIsOK(k, s);
    DropFacts(k, c, s, obj);
    var k' := DropSlab(k, c, s, obj);
    forall t: nat, a: nat ensures Holds(k', t, a) <==> Holds(k, t, a) && !(t == s && a == obj) {
      if Holds(k, s, a) { OnlyOneOut(k, s, obj, a); }
    }
  }

  lemma DropShrinks(k: Kernel, c: nat, s: nat, obj: nat)
    requires CanDrop(k, c, s, obj) && KInv(k)
    ensures Shrinks(k, DropSlab(k, c, s, obj), {c}, {obj})
  {
    hide KInv, IsObject, LosesOnly, LosesOnlyFrom, WordsRemain, DropSlab, SameBut;
    var k' := DropSlab(k, c, s, obj);
    DropFacts(k, c, s, obj);
    DropMaps(k, c, s, obj);
    DropLosesOnly(k, c, s, obj);
    OneSlabPerObject(k, k', s, obj);
    ChainWriteIsSafe(k, k', s, obj, k.slabs[s].freeList);
  }

  lemma PagesShrink(k: Kernel, k': Kernel, p: nat)
    requires SlabsAlike(k, k') && k'.live == k.live - {p} && k'.marked == k.marked - {p} && p in k.marked
    ensures Shrinks(k, k', {}, {})
  {
    hide IsObject, InPages;
    assert LosesOnly(k, k', {});
    assert BlocksRemain(k, k');
  }

  /** The caller's obligation on `kmem_cache_free`, with the slab found by `virt_to_slab`. */
  ghost predicate CanFree(k: Kernel, c: nat, obj: nat) {
    c in k.caches && Mapped(k, obj) && VirtToSlab(k, obj) in k.slabs && Freeable(k, c, VirtToSlab(k, obj), obj)
  }

  // ----- destruction

  /** The page `slab_destroy` hands to `kmem_freepages`. */
  function DestroyedPage(g: Geometry, sl: Slab): nat
    requires sl.colourOff <= sl.sMem
  {
    VirtToPage(if g.offSlab then sl.sMem else sl.sMem - sl.colourOff)
  }

  /** Destruction frees the very block the slab was built on. */
  lemma DestroyedPageIsBase(k: Kernel, s: nat)
    requires s in k.homes && s in k.slabs && k.homes[s].cache in k.caches && GoesBack(k, k.homes[s].cache, s) && KInv(k)
    ensures k.slabs[s].colourOff <= k.slabs[s].sMem
    ensures DestroyedPage(k.caches[k.homes[s].cache].geo, k.slabs[s]) == k.homes[s].base
  {
    hide KInv, PagesOK, FlagsOK, CachesOK, SlabsOK, ChainOK, PointsBack, VirtToPage, PageAddress;
    InvariantParts(k);
    SlabIsOK(k, s);
    BlockInDirectMap(k, k.homes[s].base);
    PageOfAddress(k.homes[s].base, 0);
    if k.caches[k.homes[s].cache].geo.offSlab { PageOfAddress(k.homes[s].base, k.slabs[s].colourOff); }
  }

  /** With the slab gone its block is held by nobody's slab and can go back. */
  lemma ReadyToGiveUp(k: Kernel, c: nat, s: nat, obj: nat)
    requires c in k.caches && s in k.slabs && s in k.homes && Freeable(k, c, s, obj) && Surplus(k, c, s)
    requires KInv(k)
    ensures k.slabs[s].colourOff <= k.slabs[s].sMem
    ensures var k1 := DropSlab(k, c, s, obj);
            var p := DestroyedPage(k.caches[c].geo, k.slabs[s]);
            && p == k.homes[s].base && IsBlock(k1.live, p, k.caches[c].geo.order) && p in k1.marked
            && (forall t :: t in k1.homes ==> k1.homes[t].base != p) && KInv(k1)
  {
    hide KInv, IsObject, DropSlab, HeldFrom, DestroyedPage;
    DropKeepsInv(k, c, s, obj);
    DropMaps(k, c, s, obj);
    SlabBlock(k, s);
    DestroyedPageIsBase(k, s);
  }

  /** The slab leaves its cache and its pages go back. */
  ghost function GiveUp(k: Kernel, c: nat, s: nat, obj: nat): (k2: Kernel)
    requires c in k.caches && s in k.slabs && s in k.homes && Freeable(k, c, s, obj) && Surplus(k, c, s)
    requires KInv(k)
  {
    hide KInv, IsObject, DropSlab, DestroyedPage, Freeable, IsBlock;
    ReadyToGiveUp(k, c, s, obj);
    PutPages(DropSlab(k, c, s, obj), DestroyedPage(k.caches[c].geo, k.slabs[s]), k.caches[c].geo.order)
  }

  lemma GiveUpShrinks(k: Kernel, c: nat, s: nat, obj: nat)
    requires c in k.caches && s in k.slabs && s in k.homes && Freeable(k, c, s, obj) && Surplus(k, c, s)
    requires KInv(k)
    ensures var k2 := GiveUp(k, c, s, obj); KInv(k2) && Shrinks(k, k2, {c}, {obj}) && s !in k2.homes && GivesBack(k, k2)
    ensures k.caches[c].geo.offSlab ==> HeldFrom(GiveUp(k, c, s, obj), k.caches[c].slabpCache, s)
  {
    hide KInv, IsObject, DropSlab, PutPages, Shrinks, HeldFrom, SameBut, DestroyedPage, IsBlock;
    ReadyToGiveUp(k, c, s, obj);
    DropKeepsInv(k, c, s, obj);
    DropShrinks(k, c, s, obj);
    DropFacts(k, c, s, obj);
    var k1 := DropSlab(k, c, s, obj);
    var p := DestroyedPage(k.caches[c].geo, k.slabs[s]);
    var k2 := PutPages(k1, p, k.caches[c].geo.order);
    PutPagesKeepsInv(k1, p, k.caches[c].geo.order);
    PagesShrink(k1, k2, p);
    ShrinksMore(k1, k2, {}, {c}, {});
    ShrinksTrans(k, k1, k2, {c}, {obj}, {});
    assert {obj} + {} == {obj};
    HeldIgnoresPages(k1, k2, k.caches[c].slabpCache, s);
  }

  /** The objects that stop being held when `obj` is freed: `obj`, and the descriptor of an
      off-slab slab that is given up. */
  ghost function Released(k: Kernel, c: nat, obj: nat): set<nat>
    requires c in k.caches && Mapped(k, obj) && VirtToSlab(k, obj) in k.slabs
  {
    var s := VirtToSlab(k, obj);
    if Surplus(k, c, s) && k.caches[c].geo.offSlab then {obj, s} else {obj}
  }

  /** `kmem_cache_free` */
  ghost function CacheFree(k: Kernel, c: nat, obj: nat): (k': Kernel)
    requires CanFree(k, c, obj) && KInv(k)
    ensures KInv(k') && Shrinks(k, k', Touched(k, c), Released(k, c, obj)) && GivesBack(k, k')
    decreases Level(k, c)
  {
    hide KInv, IsObject, Shrinks, PutObj, GiveUp, Mapped, VirtToSlab, HeldFrom, GivesBack;
    var s := VirtToSlab(k, obj);
    PutNeedsRoom(k, c, s, obj);
    if Surplus(k, c, s) then
      GiveUpShrinks(k, c, s, obj);
      if k.caches[c].geo.offSlab then FreeWithDescriptor(k, c, s, obj) else GiveUp(k, c, s, obj)
    else
      PutBack(k, c, s, obj);
      PutObj(k, c, s, obj)
  }

  /** `slab_destroy` of an off-slab slab: after the pages, the descriptor goes back to its cache. */
  ghost function FreeWithDescriptor(k: Kernel, c: nat, s: nat, obj: nat): (k3: Kernel)
    requires c in k.caches && s in k.slabs && s in k.homes && Freeable(k, c, s, obj) && Surplus(k, c, s)
    requires k.caches[c].geo.offSlab
    requires KInv(k)
    ensures KInv(k3) && Shrinks(k, k3, Touched(k, c), {obj, s}) && GivesBack(k, k3)
    decreases Level(k, c), 0
  {
    hide KInv, IsObject, Shrinks, GiveUp, Mapped, VirtToSlab, HeldFrom, FlagsOK, PagesOK, CachesOK, SlabsOK, Released,
         GivesBack;
    InvariantParts(k);
    DescriptorCache(k, c);
    GiveUpShrinks(k, c, s, obj);
    var k2 := GiveUp(k, c, s, obj);
    var d := k.caches[c].slabpCache;
    FreeDescriptor(k, c, s, obj, k2);
    var k3 := CacheFree(k2, d, s);
    ShrinksMore(k, k2, {c}, {c, d}, {obj});
    FreedDescriptor(k, c, s, obj, k2, k3);
    GivesBackTrans(k, k2, k3, {c, d}, {obj}, {s});
    k3
  }

  lemma PutBack(k: Kernel, c: nat, s: nat, obj: nat)
    requires c in k.caches && s in k.slabs && Freeable(k, c, s, obj) && !Surplus(k, c, s) && k.slabs[s].inuse >= 1
    requires KInv(k)
    ensures s in k.homes && KInv(PutObj(k, c, s, obj)) && Shrinks(k, PutObj(k, c, s, obj), Touched(k, c), {obj})
    ensures GivesBack(k, PutObj(k, c, s, obj))
  {
    hide KInv, IsObject, Shrinks, Returned;
    LimitIsNum(k, c);
    PutShrinks(k, c, s, obj);
    ShrinksMore(k, PutObj(k, c, s, obj), {c}, Touched(k, c), {obj});
  }

  lemma LimitIsNum(k: Kernel, c: nat)
    requires c in k.caches && KInv(k)
    ensures k.caches[c].geo.freeLimit == k.caches[c].geo.num
  {
    hide KInv, PagesOK, FlagsOK, CachesOK, SlabsOK;
    InvariantParts(k);
    ObjectSizes(k);
  }

  lemma PutNeedsRoom(k: Kernel, c: nat, s: nat, obj: nat)
    requires Holds(k, s, obj) && KInv(k)
    ensures k.slabs[s].inuse >= 1
  {
    hide KInv, IsObject, SlabOK;
    SlabIsOK(k, s);
    InUseOf(k, s, obj);
  }

  lemma ShrinkFacts(k: Kernel, k2: Kernel, cs: set<nat>, gone: set<nat>)
    requires Shrinks(k, k2, cs, gone)
    ensures k2.caches.Keys == k.caches.Keys
    ensures forall d :: d in k.caches ==>
              SameBasics(k.caches[d], k2.caches[d]) && k2.caches[d].colourNext == k.caches[d].colourNext
    ensures forall t :: t in k2.homes ==> t in k.homes && k2.homes[t].cache == k.homes[t].cache
    ensures SlabsStayPut(k, k2)
  {
    hide LosesOnly, BlocksRemain, WordsRemain;
  }

  lemma FreeDescriptor(k: Kernel, c: nat, s: nat, obj: nat, k2: Kernel)
    requires c in k.caches && s in k.homes && k.homes[s].cache == c && k.caches[c].geo.offSlab
    requires k.caches[c].slabpCache in k.caches && !k.caches[k.caches[c].slabpCache].geo.offSlab
    requires Shrinks(k, k2, {c}, {obj}) && s !in k2.homes && HeldFrom(k2, k.caches[c].slabpCache, s)
    requires KInv(k) && KInv(k2)
    ensures var d := k.caches[c].slabpCache;
            d in k2.caches && !k2.caches[d].geo.offSlab && CanFree(k2, d, s)
  {
    hide KInv, IsObject, Shrinks, Mapped, VirtToSlab, PageCache;
    ShrinkFacts(k, k2, {c}, {obj});
    DescriptorIsNoCache(k, s);
    var t :| Holds(k2, t, s) && k2.homes[t].cache == k.caches[c].slabpCache;
    LookupFindsOwner(k2, t, s);
  }

  lemma FreedDescriptor(k: Kernel, c: nat, s: nat, obj: nat, k2: Kernel, k3: Kernel)
    requires c in k.caches && k.caches[c].slabpCache in k2.caches && !k2.caches[k.caches[c].slabpCache].geo.offSlab
    requires Mapped(k2, s) && VirtToSlab(k2, s) in k2.slabs
    requires Shrinks(k, k2, {c, k.caches[c].slabpCache}, {obj})
    requires Shrinks(k2, k3, Touched(k2, k.caches[c].slabpCache), Released(k2, k.caches[c].slabpCache, s))
    ensures Shrinks(k, k3, {c, k.caches[c].slabpCache}, {obj, s})
    ensures Shrinks(k2, k3, {c, k.caches[c].slabpCache}, {s})
  {
    hide Shrinks, Mapped, VirtToSlab;
    var cs := {c, k.caches[c].slabpCache};
    ShrinksMore(k2, k3, {k.caches[c].slabpCache}, cs, {s});
    ShrinksTrans(k, k2, k3, cs, {obj}, {s});
    assert {obj} + {s} == {obj, s};
  }
}
