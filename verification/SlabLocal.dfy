/** A change confined to one slab and its cache keeps the invariant of the whole. */
module SlabLocal {
  import opened Blocks
  import opened SlabLayout
  import opened Sequences
  import opened SlabModel
  import opened SlabLists
  import opened SlabPlaces

  /** The parts of a cache descriptor that creation fixes. */
  predicate SameShape(a: Cache, b: Cache) {
    a.geo == b.geo && a.slabpCache == b.slabpCache && a.colourNext == b.colourNext
  }

  /** Memory words outside the objects of slab `s` are untouched. */
  ghost predicate WordsOutside(k: Kernel, words: map<nat, nat>, s: nat)
    requires s in k.homes && s in k.slabs && k.homes[s].cache in k.caches
  {
    forall a :: a in k.words && !IsObject(k.caches[k.homes[s].cache].geo, k.slabs[s].sMem, a) ==>
      a in words && words[a] == k.words[a]
  }

  /** `k'` differs from `k` only in slab `s`, its cache `c`, and words of objects of `s`. */
  ghost predicate LocalTo(k: Kernel, k': Kernel, c: nat, s: nat) {
    && s in k.homes && s in k.slabs && c in k.caches && k.homes[s].cache == c
    && s in k'.homes && s in k'.slabs && c in k'.caches
    && k'.zone == k.zone && k'.lru == k.lru && k'.first == k.first && k'.live == k.live && k'.marked == k.marked
    && k'.caches == k.caches[c := k'.caches[c]] && SameShape(k.caches[c], k'.caches[c])
    && k'.slabs == k.slabs[s := k'.slabs[s]] && k'.homes == k.homes[s := k'.homes[s]]
    && k'.homes[s].cache == c && k'.homes[s].base == k.homes[s].base
    && k'.slabs[s].sMem == k.slabs[s].sMem && k'.slabs[s].colourOff == k.slabs[s].colourOff
    && WordsOutside(k, k'.words, s)
  }

  /** No descriptor that is in use goes back to the chain. */
  ghost predicate KeepsDescriptors(k: Kernel, k': Kernel, s: nat) {
    s in k'.homes && forall a :: (a in k.homes || a in k.caches) && Holds(k, s, a) ==> a !in k'.homes[s].chain
  }

  lemma HeldStays(k: Kernel, k': Kernel, c: nat, s: nat, d: nat, a: nat)
    requires LocalTo(k, k', c, s) && KeepsDescriptors(k, k', s) && HeldFrom(k, d, a)
    requires a in k.homes || a in k.caches
    ensures HeldFrom(k', d, a)
  {
    hide IsObject, WordsOutside;
    var t :| Holds(k, t, a) && k.homes[t].cache == d;
    assert Holds(k', t, a);
  }

  lemma ChainAway(g: Geometry, sl: Slab, chain: seq<nat>, words: map<nat, nat>, words': map<nat, nat>)
    requires ChainOK(g, sl, chain, words)
    requires forall i :: 0 <= i < |chain| && chain[i] in words ==>
               chain[i] in words' && words'[chain[i]] == words[chain[i]]
    ensures ChainOK(g, sl, chain, words')
  {
    hide IsObject, NoDup;
  }

  lemma OtherSlabStays(k: Kernel, k': Kernel, c: nat, s: nat, t: nat)
    requires PagesOK(k) && SlabOK(k, s) && SlabOK(k, t) && t != s && LocalTo(k, k', c, s)
    requires forall d :: d in k.caches ==> k.caches[d].geo.objsize >= 1
    ensures SlabOK(k', t)
  {
    var h := k.homes[t];
    var g := k.caches[h.cache].geo;
    forall i | 0 <= i < |h.chain|
      ensures h.chain[i] in k.words ==> h.chain[i] in k'.words && k'.words[h.chain[i]] == k.words[h.chain[i]]
    {
      var a := h.chain[i];
      assert IsObject(g, k.slabs[t].sMem, a);
      if IsObject(k.caches[k.homes[s].cache].geo, k.slabs[s].sMem, a) {
        ObjectHasOneSlab(k, s, t, a);
      }
    }
    hide PagesOK, PlacedSlab, PointsBack, WordsOutside, IsObject, IsBlock;
    ChainAway(g, k.slabs[t], h.chain, k.words, k'.words);
    hide ChainOK;
    assert k'.homes[t] == h && k'.slabs[t] == k.slabs[t] && k'.caches[h.cache].geo == g;
  }

  /** What a local change means key by key. */
  lemma LocalFacts(k: Kernel, k': Kernel, c: nat, s: nat)
    requires LocalTo(k, k', c, s)
    ensures k'.homes.Keys == k.homes.Keys && k'.slabs.Keys == k.slabs.Keys && k'.caches.Keys == k.caches.Keys
    ensures forall t :: t in k.homes ==> t in k'.homes && k'.homes[t].cache == k.homes[t].cache
    ensures forall d :: d in k.caches ==> d in k'.caches && SameShape(k.caches[d], k'.caches[d])
    ensures forall d :: d in k.caches && d != c ==> k.caches[d] == k'.caches[d]
    ensures s in k'.homes && s in k'.slabs && s in k.homes && s in k.slabs && k.homes[s].cache == k'.homes[s].cache == c
    ensures SameBut(k.homes, k.slabs, k'.homes, k'.slabs, s)
  {
    hide WordsOutside;
    SameButUpdate(k.homes, k.slabs, s, k'.homes[s], k'.slabs[s]);
  }

  lemma ObjectSizes(k: Kernel)
    requires CachesOK(k)
    ensures forall d :: d in k.caches ==>
              GoodGeometry(k.caches[d].geo) && k.caches[d].geo.objsize >= 1 && k.caches[d].geo.num >= 1
  {
    hide ListsOK, HeldFrom, ColourInRange;
  }

  lemma ThisSlabStays(k: Kernel, k': Kernel, c: nat, s: nat)
    requires SlabOK(k, s) && LocalTo(k, k', c, s)
    requires ChainOK(k.caches[c].geo, k'.slabs[s], k'.homes[s].chain, k'.words)
    ensures SlabOK(k', s)
  {
    hide ChainOK, PointsBack, WordsOutside, IsBlock;
  }

  lemma LocalSlabs(k: Kernel, k': Kernel, c: nat, s: nat)
    requires PagesOK(k) && CachesOK(k) && SlabsOK(k) && LocalTo(k, k', c, s) && KeepsDescriptors(k, k', s)
    requires ChainOK(k.caches[c].geo, k'.slabs[s], k'.homes[s].chain, k'.words)
    ensures SlabsOK(k')
  {
    hide SlabOK, PagesOK, CachesOK, ChainOK, HeldFrom, KeepsDescriptors, GoodGeometry, LocalTo, SameBut;
    ObjectSizes(k);
    LocalFacts(k, k', c, s);
    ThisSlabStays(k, k', c, s);
    forall t | t in k'.homes ensures SlabOK(k', t) {
      if t != s { OtherSlabStays(k, k', c, s, t); }
    }
    forall t | t in k'.homes && k'.homes[t].cache in k'.caches && k'.caches[k'.homes[t].cache].geo.offSlab
      ensures HeldFrom(k', k'.caches[k'.homes[t].cache].slabpCache, t)
    {
      HeldStays(k, k', c, s, k.caches[k.homes[t].cache].slabpCache, t);
    }
  }

  lemma SameShapeCacheOK(caches: map<nat, Cache>, caches': map<nat, Cache>, d: nat)
    requires caches.Keys == caches'.Keys && forall e :: e in caches ==> e in caches' && SameShape(caches[e], caches'[e])
    requires d in caches && CacheOK(caches, d)
    ensures CacheOK(caches', d)
  {
    hide GoodGeometry, ColourInRange;
  }

  lemma LocalCaches(k: Kernel, k': Kernel, c: nat, s: nat)
    requires CachesOK(k) && LocalTo(k, k', c, s) && KeepsDescriptors(k, k', s)
    requires ListsOK(k'.caches[c], c, k'.homes, k'.slabs)
    ensures CachesOK(k')
  {
    hide CacheOK, ListsOK, HeldFrom, KeepsDescriptors, GoodGeometry, LocalTo, SameBut;
    ObjectSizes(k);
    LocalFacts(k, k', c, s);
    forall d | d in k'.caches ensures CacheOK(k'.caches, d) {
      SameShapeCacheOK(k.caches, k'.caches, d);
    }
    forall d | d in k'.caches ensures ListsOK(k'.caches[d], d, k'.homes, k'.slabs) {
      if d != c { ListsFrame(k.caches[d], d, k.homes, k.slabs, k'.homes, k'.slabs, s); }
    }
    forall d | d in k'.caches && d != CACHE_CACHE ensures HeldFrom(k', CACHE_CACHE, d) {
      HeldStays(k, k', c, s, CACHE_CACHE, d);
    }
  }

  lemma LocalFlags(k: Kernel, k': Kernel, c: nat, s: nat)
    requires FlagsOK(k) && LocalTo(k, k', c, s)
    ensures FlagsOK(k')
  {
    hide FreeClean, LiveFlags, WordsOutside;
  }

  /** The chain and the lists being right, a local change keeps the whole invariant. */
  lemma LocalChange(k: Kernel, k': Kernel, c: nat, s: nat)
    requires KInv(k) && LocalTo(k, k', c, s) && KeepsDescriptors(k, k', s)
    requires ChainOK(k.caches[c].geo, k'.slabs[s], k'.homes[s].chain, k'.words)
    requires ListsOK(k'.caches[c], c, k'.homes, k'.slabs)
    ensures KInv(k')
  {
    hide SlabsOK, CachesOK, FlagsOK, ChainOK, ListsOK, KeepsDescriptors, WordsOutside;
    LocalSlabs(k, k', c, s);
    LocalCaches(k, k', c, s);
    LocalFlags(k, k', c, s);
  }
}
