/** A fresh slab joins a cache. */
module SlabGrow {
  import opened Bits
  import opened Blocks
  import opened PageAddr
  import opened SlabLayout
  import opened Sequences
  import opened Zone
  import opened ZoneProofs
  import opened ZoneTheorems
  import opened ListHead
  import opened ZoneLinks
  import opened SlabModel
  import opened SlabLists
  import opened SlabPlaces
  import opened SlabLocal
  import opened SlabPages

  // ----- chaining the objects

  /** The loop of `cache_init_objs` from object `i - 1` down. */
  function Thread(words: map<nat, nat>, g: Geometry, sMem: nat, i: nat, head: nat): (map<nat, nat>, nat)
    decreases i
  {
    if i == 0 then (words, head)
    else Thread(words[ObjectAt(sMem, g.objsize, i - 1) := head], g, sMem, i - 1, ObjectAt(sMem, g.objsize, i - 1))
  }

  function ObjectOrNull(g: Geometry, sMem: nat, i: nat): nat {
    if i < g.num then ObjectAt(sMem, g.objsize, i) else NULL
  }

  lemma ObjectsDiffer(g: Geometry, sMem: nat, i: nat, j: nat)
    requires g.objsize >= 1 && i != j
    ensures ObjectAt(sMem, g.objsize, i) != ObjectAt(sMem, g.objsize, j)
  {
    if i < j { ObjectsDisjoint(sMem, g.objsize, i, j); } else { ObjectsDisjoint(sMem, g.objsize, j, i); }
  }

  /** The first `i` objects hold their links in `w`; every other word is as in `words`. */
  ghost predicate LinkedBelow(w: map<nat, nat>, words: map<nat, nat>, g: Geometry, sMem: nat, i: nat) {
    && (forall j: nat :: j < i ==> ObjectAt(sMem, g.objsize, j) in w)
    && (forall j: nat :: j < i ==> w[ObjectAt(sMem, g.objsize, j)] == ObjectOrNull(g, sMem, j + 1))
    && (forall a :: a in words && !(exists j: nat :: j < i && a == ObjectAt(sMem, g.objsize, j)) ==>
          a in w && w[a] == words[a])
  }

  lemma {:induction false} ThreadLinks(words: map<nat, nat>, g: Geometry, sMem: nat, i: nat)
    requires g.objsize >= 1 && i <= g.num
    ensures var (w, h) := Thread(words, g, sMem, i, ObjectOrNull(g, sMem, i));
            h == ObjectOrNull(g, sMem, 0) && LinkedBelow(w, words, g, sMem, i)
    decreases i
  {
    hide ObjectAt;
    if i == 0 {
    } else {
      var x := ObjectAt(sMem, g.objsize, i - 1);
      var words' := words[x := ObjectOrNull(g, sMem, i)];
      ThreadLinks(words', g, sMem, i - 1);
      forall j: nat | j < i - 1 ensures ObjectAt(sMem, g.objsize, j) != x { ObjectsDiffer(g, sMem, j, i - 1); }
    }
  }

  /** A freshly threaded slab has all its objects on its chain. */
  lemma ThreadedChain(words: map<nat, nat>, g: Geometry, sl: Slab)
    requires g.objsize >= 1
    requires var (w, h) := Thread(words, g, sl.sMem, g.num, NULL); sl.freeList == h && sl.inuse == 0
    ensures ChainOK(g, sl, ObjectSeq(g, sl.sMem), Thread(words, g, sl.sMem, g.num, NULL).0)
  {
    hide Thread, NoDup, Chained, LinkedBelow, IsObject;
    ThreadLinks(words, g, sl.sMem, g.num);
    ObjectSeqMembers(g, sl.sMem);
    LinkedIsChained(Thread(words, g, sl.sMem, g.num, NULL).0, words, g, sl.sMem);
  }

  lemma ObjectSeqMembers(g: Geometry, sMem: nat)
    requires g.objsize >= 1
    ensures NoDup(ObjectSeq(g, sMem))
    ensures forall i :: 0 <= i < g.num ==> IsObject(g, sMem, ObjectSeq(g, sMem)[i])
  {
    hide ObjectAt;
    var chain := ObjectSeq(g, sMem);
    forall i, j | 0 <= i < j < |chain| ensures chain[i] != chain[j] { ObjectsDiffer(g, sMem, i, j); }
  }

  lemma LinkedIsChained(w: map<nat, nat>, words: map<nat, nat>, g: Geometry, sMem: nat)
    requires LinkedBelow(w, words, g, sMem, g.num)
    ensures Chained(w, ObjectOrNull(g, sMem, 0), ObjectSeq(g, sMem))
  {
    hide ObjectAt;
    var chain := ObjectSeq(g, sMem);
    forall i | 0 <= i < |chain| ensures chain[i] in w && w[chain[i]] == After(chain, i) {
      assert chain[i] == ObjectAt(sMem, g.objsize, i);
    }
  }

  lemma ThreadElsewhere(words: map<nat, nat>, g: Geometry, sMem: nat, a: nat)
    requires g.objsize >= 1 && a in words && !IsObject(g, sMem, a)
    ensures var w := Thread(words, g, sMem, g.num, NULL).0; a in w && w[a] == words[a]
  {
    ThreadLinks(words, g, sMem, g.num);
  }

  // ----- the fresh slab

  function SetRange<T>(s: seq<T>, lo: nat, hi: nat, x: T): (r: seq<T>)
    ensures |r| == |s|
  {
    seq(|s|, q requires 0 <= q < |s| => if lo <= q < hi then x else s[q])
  }

  /** `alloc_slabmgmt` after the descriptor's place is known, `slab_map_pages`, `cache_init_objs`
      and the list insertion of `cache_grow`. */
  ghost function InsertSlab(k: Kernel, c: nat, s: nat, base: nat, offset: nat): Kernel
    requires c in k.caches
  {
    var cc := k.caches[c];
    var g := cc.geo;
    var colourOff := offset + Header(g);
    var sMem := PageAddress(base) + colourOff;
    var (words, head) := Thread(k.words, g, sMem, g.num, NULL);
    k.(lru := SetRange(k.lru, base, base + Pow2(g.order), Owner(c, s)),
       first := SetRange(k.first, base, base + Pow2(g.order), base),
       slabs := k.slabs[s := Slab(colourOff, sMem, 0, head)],
       words := words,
       homes := k.homes[s := Home(c, base, ObjectSeq(g, sMem))],
       caches := k.caches[c := Grown(cc, s)])
  }

  /** What `cache_grow` has established when the slab is inserted. */
  ghost predicate CanInsert(k: Kernel, c: nat, s: nat, base: nat, offset: nat) {
    && c in k.caches && k.caches[c].free == [] && s !in k.homes
    && IsBlock(k.live, base, k.caches[c].geo.order) && base in k.marked
    && (forall t :: t in k.homes ==> k.homes[t].base != base)
    && offset <= MaxOffset(k.caches[c].geo) && IsColour(k.caches[c].geo, offset)
    && (if k.caches[c].geo.offSlab then HeldFrom(k, k.caches[c].slabpCache, s)
        else s == PageAddress(base) + offset)
  }

  lemma InsertedSlabOK(k: Kernel, c: nat, s: nat, base: nat, offset: nat)
    requires PagesOK(k) && CanInsert(k, c, s, base, offset) && GoodGeometry(k.caches[c].geo)
    ensures SlabOK(InsertSlab(k, c, s, base, offset), s)
  {
    hide PagesOK, HeldFrom, Thread, ChainOK, PageAddress, ObjectSeq, SlabBytes, MaxOffset;
    var g := k.caches[c].geo;
    var k' := InsertSlab(k, c, s, base, offset);
    BlockInDirectMap(k, base);
    ThreadedChain(k.words, g, k'.slabs[s]);
    assert PlacedSlab(g, s, k'.slabs[s], base);
    assert PointsBack(k'.lru, k'.first, base, g.order, c, s);
  }

  /** Pages of other held blocks keep their back pointers. */
  lemma OtherPagesStay(k: Kernel, base: nat, o: nat, p: nat, r: nat, q: nat)
    requires PagesOK(k) && IsBlock(k.live, base, o) && IsBlock(k.live, p, r) && p != base && InBlock(q, p, r)
    ensures !(base <= q < base + Pow2(o)) && q < |k.lru| && q < |k.first|
  {
    hide Inv, LinksMatch;
    LiveBlocksApart(k.zone, k.live, p, base, q);
    BlockInDirectMap(k, p);
  }

  lemma ObjectInBlock(k: Kernel, c: nat, base: nat, colourOff: nat, a: nat)
    requires PagesOK(k) && c in k.caches && IsBlock(k.live, base, k.caches[c].geo.order)
    requires colourOff + k.caches[c].geo.num * k.caches[c].geo.objsize <= SlabBytes(k.caches[c].geo.order)
    requires k.caches[c].geo.objsize >= 1 && IsObject(k.caches[c].geo, PageAddress(base) + colourOff, a)
    ensures InBlock(VirtToPage(a), base, k.caches[c].geo.order)
  {
    hide PagesOK, SlabBytes, VirtToPage, PageAddress;
    var g := k.caches[c].geo;
    BlockInDirectMap(k, base);
    var i: nat :| i < g.num && a == ObjectAt(PageAddress(base) + colourOff, g.objsize, i);
    ObjectBounds(PageAddress(base) + colourOff, g.objsize, g.num, i);
    PageOfBlock(a, base, g.order);
  }

  lemma OldSlabStays(k: Kernel, c: nat, s: nat, base: nat, offset: nat, t: nat)
    requires PagesOK(k) && CanInsert(k, c, s, base, offset) && GoodGeometry(k.caches[c].geo)
    requires t in k.homes && SlabOK(k, t) && k.caches[k.homes[t].cache].geo.objsize >= 1
    ensures SlabOK(InsertSlab(k, c, s, base, offset), t)
  {
    hide HeldFrom, Thread, PageAddress, ObjectSeq, SlabBytes, MaxOffset, PagesOK, PlacedSlab;
    var k' := InsertSlab(k, c, s, base, offset);
    var g := k.caches[c].geo;
    var h := k.homes[t];
    var gt := k.caches[h.cache].geo;
    forall i | 0 <= i < |h.chain|
      ensures h.chain[i] in k.words ==> h.chain[i] in k'.words && k'.words[h.chain[i]] == k.words[h.chain[i]]
    {
      OldWordStays(k, c, s, base, offset, t, h.chain[i]);
    }
    hide IsObject;
    ChainAway(gt, k.slabs[t], h.chain, k.words, k'.words);
    forall q | InBlock(q, h.base, gt.order) ensures k'.first[q] == h.base && k'.lru[q] == Owner(h.cache, t) {
      OtherPagesStay(k, base, g.order, h.base, gt.order, q);
    }
  }

  lemma NewObjectIsNotOld(k: Kernel, c: nat, base: nat, colourOff: nat, t: nat, a: nat)
    requires PagesOK(k) && c in k.caches && IsBlock(k.live, base, k.caches[c].geo.order)
    requires colourOff + k.caches[c].geo.num * k.caches[c].geo.objsize <= SlabBytes(k.caches[c].geo.order)
    requires k.caches[c].geo.objsize >= 1
    requires SlabOK(k, t) && k.homes[t].base != base && k.caches[k.homes[t].cache].geo.objsize >= 1
    requires IsObject(k.caches[k.homes[t].cache].geo, k.slabs[t].sMem, a)
    ensures !IsObject(k.caches[c].geo, PageAddress(base) + colourOff, a)
  {
    if IsObject(k.caches[c].geo, PageAddress(base) + colourOff, a) {
      var h := k.homes[t];
      hide PagesOK, PageAddress, IsObject, VirtToPage, ChainOK, PlacedSlab, PointsBack, SlabBytes;
      ObjectInBlock(k, c, base, colourOff, a);
      ObjectPage(k, t, a);
      OtherPagesStay(k, base, k.caches[c].geo.order, h.base, k.caches[h.cache].geo.order, VirtToPage(a));
      assert false;
    }
  }

  lemma OldWordStays(k: Kernel, c: nat, s: nat, base: nat, offset: nat, t: nat, a: nat)
    requires PagesOK(k) && CanInsert(k, c, s, base, offset) && GoodGeometry(k.caches[c].geo)
    requires t in k.homes && SlabOK(k, t) && k.caches[k.homes[t].cache].geo.objsize >= 1
    requires IsObject(k.caches[k.homes[t].cache].geo, k.slabs[t].sMem, a) && a in k.words
    ensures var k' := InsertSlab(k, c, s, base, offset); a in k'.words && k'.words[a] == k.words[a]
  {
    hide PagesOK, HeldFrom, Thread, PageAddress, IsObject, SlabOK, MaxOffset, SlabBytes, InsertSlab;
    var g := k.caches[c].geo;
    NewObjectIsNotOld(k, c, base, offset + Header(g), t, a);
    ThreadElsewhere(k.words, g, PageAddress(base) + (offset + Header(g)), a);
    InsertWords(k, c, s, base, offset);
  }

  lemma InsertWords(k: Kernel, c: nat, s: nat, base: nat, offset: nat)
    requires c in k.caches
    ensures var g := k.caches[c].geo;
            InsertSlab(k, c, s, base, offset).words ==
            Thread(k.words, g, PageAddress(base) + (offset + Header(g)), g.num, NULL).0
  {
  }

  /** What insertion leaves alone. */
  lemma InsertFacts(k: Kernel, c: nat, s: nat, base: nat, offset: nat)
    requires c in k.caches && s !in k.homes
    ensures var k' := InsertSlab(k, c, s, base, offset);
            && k'.zone == k.zone && k'.live == k.live && k'.marked == k.marked
            && k'.caches.Keys == k.caches.Keys
            && (forall d :: d in k.caches ==> d in k'.caches && SameShape(k.caches[d], k'.caches[d]))
            && (forall d :: d in k.caches && d != c ==> k'.caches[d] == k.caches[d])
            && k'.caches[c] == Grown(k.caches[c], s)
            && (forall t :: t in k.homes ==> t in k'.homes && k'.homes[t] == k.homes[t])
            && (forall t :: t in k'.homes ==> t in k.homes || t == s)
            && s in k'.homes && k'.homes[s].cache == c && k'.homes[s].base == base
            && k'.homes == k.homes[s := k'.homes[s]] && s in k'.slabs && k'.slabs == k.slabs[s := k'.slabs[s]]
            && k'.slabs[s].inuse == 0
            && (forall t :: t in k.slabs && t != s ==> t in k'.slabs && k'.slabs[t] == k.slabs[t])
            && SameBut(k.homes, k.slabs, k'.homes, k'.slabs, s)
  {
    hide Thread, PageAddress, ObjectSeq, SetRange;
    var k' := InsertSlab(k, c, s, base, offset);
    SameButUpdate(k.homes, k.slabs, s, k'.homes[s], k'.slabs[s]);
  }

  lemma HeldGrows(k: Kernel, k': Kernel, d: nat, a: nat)
    requires HeldFrom(k, d, a)
    requires forall t :: t in k.homes ==> t in k'.homes && k'.homes[t] == k.homes[t]
    requires forall t :: t in k.homes && t in k.slabs ==> t in k'.slabs && k'.slabs[t] == k.slabs[t]
    requires forall d :: d in k.caches ==> d in k'.caches && SameShape(k.caches[d], k'.caches[d])
    ensures HeldFrom(k', d, a)
  {
    hide IsObject;
    var t :| Holds(k, t, a) && k.homes[t].cache == d;
    assert Holds(k', t, a);
  }

  lemma InsertCaches(k: Kernel, c: nat, s: nat, base: nat, offset: nat)
    requires CachesOK(k) && CanInsert(k, c, s, base, offset)
    ensures CachesOK(InsertSlab(k, c, s, base, offset))
  {
    hide CacheOK, ListsOK, HeldFrom, GoodGeometry, InsertSlab, SameBut, MaxOffset, PageAddress;
    var k' := InsertSlab(k, c, s, base, offset);
    InsertFacts(k, c, s, base, offset);
    ObjectSizes(k);
    GrownOK(k.caches[c], c, k.homes, k.slabs, s, k'.homes[s], k'.slabs[s]);
    forall d | d in k'.caches ensures CacheOK(k'.caches, d) { SameShapeCacheOK(k.caches, k'.caches, d); }
    forall d | d in k'.caches ensures ListsOK(k'.caches[d], d, k'.homes, k'.slabs) {
      if d != c { ListsFrame(k.caches[d], d, k.homes, k.slabs, k'.homes, k'.slabs, s); }
    }
    forall d | d in k'.caches && d != CACHE_CACHE ensures HeldFrom(k', CACHE_CACHE, d) {
      HeldGrows(k, k', CACHE_CACHE, d);
    }
  }

  lemma InsertSlabs(k: Kernel, c: nat, s: nat, base: nat, offset: nat)
    requires PagesOK(k) && CachesOK(k) && SlabsOK(k) && CanInsert(k, c, s, base, offset)
    ensures SlabsOK(InsertSlab(k, c, s, base, offset))
  {
    hide SlabOK, PagesOK, CacheOK, ListsOK, HeldFrom, GoodGeometry, InsertSlab, SameBut, MaxOffset, PageAddress;
    var k' := InsertSlab(k, c, s, base, offset);
    InsertFacts(k, c, s, base, offset);
    ObjectSizes(k);
    GeometryIsSafe(k, c);
    assert k'.homes.Keys == k'.slabs.Keys;
    forall t | t in k'.homes ensures SlabOK(k', t) {
      if t == s { InsertedSlabOK(k, c, s, base, offset); } else {
        HomeHasCache(k, t);
        OldSlabStays(k, c, s, base, offset, t);
      }
    }
    forall t | t in k'.homes && k'.homes[t].cache in k'.caches && k'.caches[k'.homes[t].cache].geo.offSlab
      ensures HeldFrom(k', k'.caches[k'.homes[t].cache].slabpCache, t)
    {
      HeldGrows(k, k', k.caches[k'.homes[t].cache].slabpCache, t);
    }
  }

  lemma HomeHasCache(k: Kernel, t: nat)
    requires SlabOK(k, t)
    ensures t in k.homes && k.homes[t].cache in k.caches
  {
  }

  lemma GeometryIsSafe(k: Kernel, c: nat)
    requires CachesOK(k) && c in k.caches
    ensures GoodGeometry(k.caches[c].geo) && ColourInRange(k.caches[c].geo, k.caches[c].colourNext)
  {
    hide ListsOK, HeldFrom, GoodGeometry, ColourInRange;
    assert CacheOK(k.caches, c);
  }

  /** `slab_map_pages` writes no word of any free list: every ring is intact afterwards. */
  lemma MappingKeepsRings(k: Kernel, base: nat, o: nat, x: Links)
    requires PagesOK(k) && IsBlock(k.live, base, o)
    ensures LinksMatch(k.zone, SetRange(k.lru, base, base + Pow2(o), x))
  {
    hide Inv, Pow2, Ring, Listed;
    BlockIsPlain(k.zone, k.live, base, o);
    InvParts(k.zone, k.live);
    var r := SetRange(k.lru, base, base + Pow2(o), x);
    var touched := BlockSet(base, o);
    forall n: nat | n < |k.lru| && n !in touched ensures r[n] == k.lru[n] {
      assert base <= n < base + Pow2(o) ==> InBlock(n, base, o);
    }
    forall m: nat | m < GROUPS ensures Ring(r, HeadNode(k.zone, m), k.zone.lists[m]) {
      forall q | q in k.zone.lists[m] ensures q !in touched { OnListIff(k.zone, m, q); }
      RingStays(k.lru, r, touched, HeadNode(k.zone, m), k.zone.lists[m]);
    }
  }

  /** A fresh slab joins its cache without disturbing anything else. */
  lemma InsertKeepsInv(k: Kernel, c: nat, s: nat, base: nat, offset: nat)
    requires KInv(k) && CanInsert(k, c, s, base, offset)
    ensures KInv(InsertSlab(k, c, s, base, offset))
  {
    hide PagesOK, FlagsOK, CachesOK, SlabsOK, InsertSlab, CanInsert;
    InsertPages(k, c, s, base, offset);
    InsertCaches(k, c, s, base, offset);
    InsertSlabs(k, c, s, base, offset);
  }

  lemma InsertPages(k: Kernel, c: nat, s: nat, base: nat, offset: nat)
    requires PagesOK(k) && FlagsOK(k) && CanInsert(k, c, s, base, offset)
    ensures PagesOK(InsertSlab(k, c, s, base, offset)) && FlagsOK(InsertSlab(k, c, s, base, offset))
  {
    hide Inv, LinksMatch, Thread, PageAddress, ObjectSeq, FreeClean, LiveFlags, MaxOffset, HeldFrom, Pow2;
    MappingKeepsRings(k, base, k.caches[c].geo.order, Owner(c, s));
  }
}
