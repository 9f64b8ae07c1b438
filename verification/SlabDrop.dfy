/** An emptied slab leaves its cache. */
module SlabDrop {
  import opened Blocks
  import opened PageAddr
  import opened SlabLayout
  import opened Zone
  import opened ZoneLinks
  import opened SlabModel
  import opened SlabLists
  import opened SlabPlaces
  import opened SlabLocal
  import opened SlabObjects

  /** `kmem_cache_free` when the slab is given up, before its pages and descriptor go: the last
      object is chained, the slab leaves its list, and the descriptor's life ends. */
  function DropSlab(k: Kernel, c: nat, s: nat, obj: nat): Kernel
    requires c in k.caches && s in k.slabs
  {
    k.(caches := k.caches[c := Dropped(k.caches[c], s)],
       slabs := k.slabs - {s}, homes := k.homes - {s}, words := k.words[obj := k.slabs[s].freeList])
  }

  /** With one object in use, no other object of the slab is held. */
  lemma OnlyOneOut(k: Kernel, s: nat, obj: nat, a: nat)
    requires SlabOK(k, s) && k.slabs[s].inuse == 1 && Holds(k, s, obj) && Holds(k, s, a)
    ensures a == obj
  {
    hide PlacedSlab, PointsBack, Chained, IsObject;
    var g, chain := k.caches[k.homes[s].cache].geo, k.homes[s].chain;
    FullChainHasAll(g, k.slabs[s].sMem, [obj] + chain, a);
  }

  lemma DropFacts(k: Kernel, c: nat, s: nat, obj: nat)
    requires c in k.caches && s in k.slabs && s in k.homes
    ensures var k' := DropSlab(k, c, s, obj);
            && k'.caches.Keys == k.caches.Keys
            && (forall d :: d in k.caches ==> d in k'.caches && SameShape(k.caches[d], k'.caches[d]))
            && (forall d :: d in k.caches && d != c ==> k'.caches[d] == k.caches[d])
            && k'.caches[c] == Dropped(k.caches[c], s)
            && s !in k'.homes && s !in k'.slabs
            && (forall t :: t in k.homes && t != s ==> t in k'.homes && k'.homes[t] == k.homes[t])
            && (forall t :: t in k.slabs && t != s ==> t in k'.slabs && k'.slabs[t] == k.slabs[t])
            && (forall t :: t in k'.homes ==> t in k.homes && t != s)
            && SameBut(k.homes, k.slabs, k'.homes, k'.slabs, s)
  {
    SameButUpdate(k.homes, k.slabs, s, k.homes[s], k.slabs[s]);
  }

  /** What the last object of slab `s` has to be for the slab to be dropped. */
  ghost predicate CanDrop(k: Kernel, c: nat, s: nat, obj: nat) {
    && c in k.caches && Holds(k, s, obj) && k.homes[s].cache == c && k.slabs[s].inuse == 1
    && obj !in k.homes && obj !in k.caches
  }

  lemma HeldElsewhere(k: Kernel, c: nat, s: nat, obj: nat, d: nat, a: nat)
    requires SlabsOK(k) && CanDrop(k, c, s, obj) && HeldFrom(k, d, a) && a != obj
    ensures HeldFrom(DropSlab(k, c, s, obj), d, a)
  {
    var k' := DropSlab(k, c, s, obj);
    var t :| Holds(k, t, a) && k.homes[t].cache == d;
    assert SlabOK(k, s);
    hide SlabsOK, SlabOK, IsObject;
    if t == s { OnlyOneOut(k, s, obj, a); }
    DropFacts(k, c, s, obj);
    assert Holds(k', t, a);
  }

  lemma DropCaches(k: Kernel, c: nat, s: nat, obj: nat)
    requires CachesOK(k) && SlabsOK(k) && CanDrop(k, c, s, obj)
    ensures CachesOK(DropSlab(k, c, s, obj))
  {
    hide CacheOK, ListsOK, HeldFrom, GoodGeometry, DropSlab, SameBut, SlabsOK, IsObject;
    var k' := DropSlab(k, c, s, obj);
    DropFacts(k, c, s, obj);
    ObjectSizes(k);
    DroppedOK(k.caches[c], c, k.homes, k.slabs, s);
    DropMaps(k, c, s, obj);
    forall d | d in k'.caches ensures CacheOK(k'.caches, d) { SameShapeCacheOK(k.caches, k'.caches, d); }
    forall d | d in k'.caches ensures ListsOK(k'.caches[d], d, k'.homes, k'.slabs) {
      if d != c { ListsFrame(k.caches[d], d, k.homes, k.slabs, k'.homes, k'.slabs, s); }
    }
    forall d | d in k'.caches && d != CACHE_CACHE ensures HeldFrom(k', CACHE_CACHE, d) {
      HeldElsewhere(k, c, s, obj, CACHE_CACHE, d);
    }
  }

  lemma DropMaps(k: Kernel, c: nat, s: nat, obj: nat)
    requires c in k.caches && s in k.slabs
    ensures var k' := DropSlab(k, c, s, obj);
            && k'.homes == k.homes - {s} && k'.slabs == k.slabs - {s} && k'.words == k.words[obj := k.slabs[s].freeList]
            && k'.zone == k.zone && k'.live == k.live && k'.marked == k.marked && k'.lru == k.lru && k'.first == k.first
  {
  }

  lemma SurvivorOK(k: Kernel, c: nat, s: nat, obj: nat, t: nat)
    requires PagesOK(k) && SlabOK(k, s) && SlabOK(k, t) && t != s && CanDrop(k, c, s, obj)
    requires forall d :: d in k.caches ==> k.caches[d].geo.objsize >= 1
    ensures SlabOK(DropSlab(k, c, s, obj), t)
  {
    var k' := DropSlab(k, c, s, obj);
    var h := k.homes[t];
    var g := k.caches[h.cache].geo;
    DropFacts(k, c, s, obj);
    DropMaps(k, c, s, obj);
    hide PagesOK, PlacedSlab, PointsBack, DropSlab, SameBut, IsBlock, Chained;
    assert obj !in h.chain by {
      if obj in h.chain {
        ChainMember(k, t, obj);
        hide IsObject;
        ObjectHasOneSlab(k, s, t, obj);
      }
    }
    hide IsObject;
    ChainAway(g, k.slabs[t], h.chain, k.words, k'.words);
    hide ChainOK;
  }

  lemma DropSlabs(k: Kernel, c: nat, s: nat, obj: nat)
    requires PagesOK(k) && CachesOK(k) && SlabsOK(k) && CanDrop(k, c, s, obj)
    ensures SlabsOK(DropSlab(k, c, s, obj))
  {
    hide SlabOK, PagesOK, CachesOK, HeldFrom, GoodGeometry, DropSlab, SameBut, IsObject;
    var k' := DropSlab(k, c, s, obj);
    DropFacts(k, c, s, obj);
    DropMaps(k, c, s, obj);
    ObjectSizes(k);
    forall t | t in k'.homes ensures SlabOK(k', t) { SurvivorOK(k, c, s, obj, t); }
    forall t | t in k'.homes && k'.homes[t].cache in k'.caches && k'.caches[k'.homes[t].cache].geo.offSlab
      ensures HeldFrom(k', k'.caches[k'.homes[t].cache].slabpCache, t)
    {
      HeldElsewhere(k, c, s, obj, k.caches[k.homes[t].cache].slabpCache, t);
    }
  }

  /** An object is held from one cache only, and lies in the direct map. */
  lemma HeldFromOneCache(k: Kernel, c: nat, d: nat, a: nat)
    requires KInv(k) && HeldFrom(k, c, a) && HeldFrom(k, d, a)
    ensures c == d && a >= PAGE_OFFSET
  {
    hide PagesOK, FlagsOK, SlabOK, CachesOK, IsObject, SlabBytes;
    var t :| Holds(k, t, a) && k.homes[t].cache == c;
    var u :| Holds(k, u, a) && k.homes[u].cache == d;
    ObjectSizes(k);
    assert SlabOK(k, t) && SlabOK(k, u);
    ObjectHasOneSlab(k, t, u, a);
    ObjectInPages(k, t, a);
  }

  lemma CacheIsHeld(k: Kernel, c: nat)
    requires CachesOK(k) && c in k.caches && c != CACHE_CACHE
    ensures HeldFrom(k, CACHE_CACHE, c)
  {
    hide HeldFrom, CacheOK, ListsOK;
  }

  lemma DescriptorCache(k: Kernel, c: nat)
    requires CachesOK(k) && c in k.caches && k.caches[c].geo.offSlab
    ensures k.caches[c].slabpCache in k.caches && k.caches[c].slabpCache != CACHE_CACHE && k.caches[c].slabpCache != c
    ensures !k.caches[k.caches[c].slabpCache].geo.offSlab && SLAB_T <= k.caches[k.caches[c].slabpCache].geo.objsize
  {
    hide HeldFrom, ListsOK, GoodGeometry;
    assert CacheOK(k.caches, c);
  }

  /** An off-slab descriptor is not a cache descriptor. */
  lemma DescriptorIsNoCache(k: Kernel, s: nat)
    requires KInv(k) && s in k.homes && k.homes[s].cache in k.caches && k.caches[k.homes[s].cache].geo.offSlab
    ensures s !in k.caches
  {
    hide PagesOK, FlagsOK, CachesOK, SlabsOK, HeldFrom;
    var d := k.caches[k.homes[s].cache].slabpCache;
    DescriptorHeld(k, s);
    DescriptorCache(k, k.homes[s].cache);
    HeldFromOneCache(k, d, d, s);
    if s in k.caches {
      CacheIsHeld(k, s);
      HeldFromOneCache(k, d, CACHE_CACHE, s);
    }
  }

  /** Giving up an emptied slab keeps the invariant; its block stays held, owned by nobody, and an
      off-slab descriptor becomes an ordinary held object of the descriptor cache. */
  lemma DropKeepsInv(k: Kernel, c: nat, s: nat, obj: nat)
    requires KInv(k) && CanDrop(k, c, s, obj)
    ensures KInv(DropSlab(k, c, s, obj))
    ensures forall t :: t in DropSlab(k, c, s, obj).homes ==> DropSlab(k, c, s, obj).homes[t].base != k.homes[s].base
    ensures k.caches[c].geo.offSlab ==>
              && HeldFrom(DropSlab(k, c, s, obj), k.caches[c].slabpCache, s)
              && s !in DropSlab(k, c, s, obj).homes && s !in k.caches
  {
    hide PagesOK, FlagsOK, CachesOK, SlabsOK, DropSlab, IsObject, HeldFrom, SameBut;
    DropCaches(k, c, s, obj);
    DropSlabs(k, c, s, obj);
    DropFacts(k, c, s, obj);
    DropMaps(k, c, s, obj);
    DropPages(k, DropSlab(k, c, s, obj));
    forall t | t in DropSlab(k, c, s, obj).homes ensures DropSlab(k, c, s, obj).homes[t].base != k.homes[s].base {
      BasesDiffer(k, s, t);
    }
    if k.caches[c].geo.offSlab {
      DescriptorIsNoCache(k, s);
      DescriptorHeld(k, s);
      HeldElsewhere(k, c, s, obj, k.caches[c].slabpCache, s);
    }
  }

  lemma DescriptorHeld(k: Kernel, s: nat)
    requires SlabsOK(k) && s in k.homes && k.homes[s].cache in k.caches && k.caches[k.homes[s].cache].geo.offSlab
    ensures HeldFrom(k, k.caches[k.homes[s].cache].slabpCache, s)
  {
    hide SlabOK, HeldFrom;
  }

  lemma BasesDiffer(k: Kernel, s: nat, t: nat)
    requires KInv(k) && s in k.homes && t in k.homes && s != t
    ensures k.homes[s].base != k.homes[t].base
  {
    assert SlabOK(k, s) && SlabOK(k, t);
    hide FlagsOK, CachesOK, SlabsOK, PagesOK, PlacedSlab, ChainOK;
    assert InBlock(k.homes[s].base, k.homes[s].base, k.caches[k.homes[s].cache].geo.order);
    assert InBlock(k.homes[t].base, k.homes[t].base, k.caches[k.homes[t].cache].geo.order);
  }

  lemma DropPages(k: Kernel, k': Kernel)
    requires PagesOK(k) && FlagsOK(k)
    requires k'.zone == k.zone && k'.live == k.live && k'.marked == k.marked && k'.lru == k.lru && k'.first == k.first
    ensures PagesOK(k') && FlagsOK(k')
  {
    hide Inv, LinksMatch, FreeClean, LiveFlags;
  }
}
