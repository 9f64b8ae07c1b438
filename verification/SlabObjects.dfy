/** Handing objects out and taking them back. */
module SlabObjects {
  import opened Blocks
  import opened PageAddr
  import opened SlabLayout
  import opened Sequences
  import opened SlabModel
  import opened SlabLists
  import opened SlabPlaces
  import opened SlabLocal

  // ----- counting

  ghost function Elements(s: seq<nat>): set<nat> { set x | x in s }

  lemma {:induction false} NoDupCardinality(s: seq<nat>)
    requires NoDup(s)
    ensures |Elements(s)| == |s|
  {
    if s == [] {
    } else {
      NoDupTail(s);
      NoDupCardinality(s[1..]);
      assert Elements(s) == Elements(s[1..]) + {s[0]};
    }
  }

  lemma NoDupTail(list: seq<nat>)
    requires NoDup(list) && list != []
    ensures NoDup(list[1..]) && list[0] !in list[1..]
    ensures forall t :: t in list <==> t == list[0] || t in list[1..]
  {
    assert list == [list[0]] + list[1..];
  }

  ghost function ObjectSet(g: Geometry, sMem: nat, n: nat): set<nat> {
    if n == 0 then {} else ObjectSet(g, sMem, n - 1) + {ObjectAt(sMem, g.objsize, n - 1)}
  }

  lemma {:induction false} ObjectSetProperties(g: Geometry, sMem: nat, n: nat)
    ensures |ObjectSet(g, sMem, n)| <= n
    ensures forall i: nat :: i < n ==> ObjectAt(sMem, g.objsize, i) in ObjectSet(g, sMem, n)
  {
    hide ObjectAt;
    if n == 0 {
    } else {
      ObjectSetProperties(g, sMem, n - 1);
    }
  }

  /** A chain of distinct objects that misses one has fewer than all of them. */
  lemma MissingObject(g: Geometry, sMem: nat, chain: seq<nat>, a: nat)
    requires NoDup(chain) && (forall i :: 0 <= i < |chain| ==> IsObject(g, sMem, chain[i]))
    requires IsObject(g, sMem, a) && a !in chain
    ensures |chain| < g.num
  {
    ObjectSetProperties(g, sMem, g.num);
    NoDupCardinality(chain);
    hide ObjectSet, ObjectAt, NoDup;
    var all := ObjectSet(g, sMem, g.num);
    forall x | x in Elements(chain) ensures x in all - {a} { assert IsObject(g, sMem, x); }
    assert a in all;
    SubsetSize(Elements(chain), all - {a});
  }

  lemma SubsetSize(a: set<nat>, b: set<nat>)
    requires a <= b
    ensures |a| <= |b|
  {
    assert b == a + (b - a);
  }

  /** A chain as long as the slab has objects misses none. */
  lemma FullChainHasAll(g: Geometry, sMem: nat, chain: seq<nat>, a: nat)
    requires NoDup(chain) && (forall i :: 0 <= i < |chain| ==> IsObject(g, sMem, chain[i]))
    requires IsObject(g, sMem, a) && |chain| >= g.num
    ensures a in chain
  {
    hide IsObject, NoDup;
    if a !in chain { MissingObject(g, sMem, chain, a); }
  }

  // ----- a free object is nothing else

  /** An object that is free in its slab is no descriptor in use. */
  lemma FreeObjectIsNoDescriptor(k: Kernel, s: nat, a: nat)
    requires KInv(k) && s in k.homes && a in k.homes[s].chain
    ensures a !in k.homes && a !in k.caches && a != NULL
  {
    assert SlabOK(k, s);
    ObjectSizes(k);
    ChainMember(k, s, a);
    hide IsObject, SlabOK, PagesOK, FlagsOK;
    ObjectPage(k, s, a);
    if a in k.homes { FreeObjectIsNoSlab(k, s, a); assert false; }
    if a in k.caches { FreeObjectIsNoCache(k, s, a); assert false; }
  }

  lemma ChainMember(k: Kernel, s: nat, a: nat)
    requires SlabOK(k, s) && a in k.homes[s].chain
    ensures IsObject(k.caches[k.homes[s].cache].geo, k.slabs[s].sMem, a)
  {
    hide PlacedSlab, PointsBack, IsBlock, Chained, IsObject;
  }

  lemma HeldIsNotFree(k: Kernel, s: nat, d: nat, a: nat)
    requires PagesOK(k) && CachesOK(k) && SlabsOK(k) && s in k.homes && a in k.homes[s].chain
    ensures !HeldFrom(k, d, a)
  {
    ObjectSizes(k);
    assert SlabOK(k, s);
    ChainMember(k, s, a);
    if HeldFrom(k, d, a) {
      var t :| Holds(k, t, a) && k.homes[t].cache == d;
      assert SlabOK(k, t);
      hide SlabOK, PagesOK, CachesOK, IsObject;
      ObjectHasOneSlab(k, s, t, a);
    }
  }

  lemma FreeObjectIsNoSlab(k: Kernel, s: nat, a: nat)
    requires PagesOK(k) && CachesOK(k) && SlabsOK(k) && s in k.homes && a in k.homes[s].chain
    ensures a !in k.homes
  {
    ObjectSizes(k);
    assert SlabOK(k, s);
    ChainMember(k, s, a);
    if a in k.homes {
      assert SlabOK(k, a);
      var c := k.homes[a].cache;
      if k.caches[c].geo.offSlab {
        HeldIsNotFree(k, s, k.caches[c].slabpCache, a);
      } else {
        hide IsObject, CachesOK;
        HeaderInPages(k, a);
        ObjectPage(k, s, a);
        SamePageSameSlab(k, s, a, VirtToPage(a));
        ObjectInPages(k, s, a);
        assert false;
      }
    }
  }

  /** An on-slab descriptor lies in the slab's pages, before the first object. */
  lemma HeaderInPages(k: Kernel, s: nat)
    requires PagesOK(k) && SlabOK(k, s) && !k.caches[k.homes[s].cache].geo.offSlab
    requires GoodGeometry(k.caches[k.homes[s].cache].geo)
    ensures InPages(s, k.homes[s].base, k.caches[k.homes[s].cache].geo.order)
    ensures InBlock(VirtToPage(s), k.homes[s].base, k.caches[k.homes[s].cache].geo.order)
    ensures s + SLAB_T <= k.slabs[s].sMem
  {
    hide PagesOK, ChainOK, PointsBack, VirtToPage, PageAddress, MaxOffset;
    var base, g := k.homes[s].base, k.caches[k.homes[s].cache].geo;
    BlockInDirectMap(k, base);
    assert g.num * g.objsize >= 1;
    PageOfBlock(s, base, g.order);
  }

  lemma FreeObjectIsNoCache(k: Kernel, s: nat, a: nat)
    requires PagesOK(k) && CachesOK(k) && SlabsOK(k) && s in k.homes && a in k.homes[s].chain
    ensures a !in k.caches
  {
    assert SlabOK(k, s);
    ChainMember(k, s, a);
    ObjectSizes(k);
    hide SlabOK, PagesOK, IsObject, SlabBytes, CacheOK, ListsOK;
    if a in k.caches {
      if a == CACHE_CACHE {
        ObjectInPages(k, s, a);
      } else {
        HeldIsNotFree(k, s, CACHE_CACHE, a);
      }
    }
  }

  // ----- handing out

  /** `s` is the slab `cache_alloc_refill` turns to. */
  predicate IsNext(cc: Cache, s: nat, fromFree: bool) {
    if fromFree then cc.free != [] && s == cc.free[0] else cc.partial != [] && s == cc.partial[0]
  }

  lemma NextHasRoom(k: Kernel, c: nat, s: nat, fromFree: bool)
    requires KInv(k) && c in k.caches && IsNext(k.caches[c], s, fromFree)
    ensures s in k.homes && s in k.slabs && k.homes[s].cache == c && SlabOK(k, s)
    ensures k.homes[s].chain != [] && k.slabs[s].freeList == k.homes[s].chain[0] && k.slabs[s].freeList in k.words
    ensures k.slabs[s].inuse < k.caches[c].geo.num
  {
    hide PagesOK, FlagsOK, CacheOK, HeldFrom, FreeCount, NoDup, AllListed, Counted;
    ObjectSizes(k);
    assert ListsOK(k.caches[c], c, k.homes, k.slabs);
    assert SlabOK(k, s);
    hide IsObject, PlacedSlab, PointsBack, IsBlock;
  }

  lemma ChainedTail(words: map<nat, nat>, head: nat, chain: seq<nat>)
    requires Chained(words, head, chain) && chain != []
    ensures head == chain[0] && chain[0] in words && Chained(words, words[chain[0]], chain[1..])
    ensures |chain| == 1 ==> words[chain[0]] == NULL
    ensures |chain| > 1 ==> words[chain[0]] == chain[1]
  {
    var rest := chain[1..];
    assert words[chain[0]] == After(chain, 0);
    forall i | 0 <= i < |rest| ensures rest[i] in words && words[rest[i]] == After(rest, i) {
      assert rest[i] == chain[i + 1];
    }
  }

  lemma ChainedCons(words: map<nat, nat>, head: nat, chain: seq<nat>, a: nat)
    requires Chained(words, head, chain) && a !in chain
    ensures Chained(words[a := head], a, [a] + chain)
  {
    var chain', words' := [a] + chain, words[a := head];
    forall i | 0 <= i < |chain'| ensures chain'[i] in words' && words'[chain'[i]] == After(chain', i) {
      if i > 0 {
        assert chain'[i] == chain[i - 1] && chain[i - 1] in chain;
        assert i + 1 < |chain'| ==> chain'[i + 1] == chain[i];
      }
    }
  }

  lemma ChainTail(g: Geometry, sl: Slab, chain: seq<nat>, words: map<nat, nat>)
    requires ChainOK(g, sl, chain, words) && chain != []
    requires forall i :: 0 <= i < |chain| ==> chain[i] != NULL
    ensures sl.freeList == chain[0] && chain[0] in words && chain[0] !in chain[1..]
    ensures ChainOK(g, sl.(freeList := words[chain[0]], inuse := sl.inuse + 1), chain[1..], words)
    ensures words[chain[0]] == NULL <==> sl.inuse + 1 == g.num
  {
    hide IsObject, Chained;
    NoDupTail(chain);
    ChainedTail(words, sl.freeList, chain);
    assert forall i :: 0 <= i < |chain[1..]| ==> chain[1..][i] == chain[i + 1];
  }

  lemma ChainNonNull(k: Kernel, s: nat)
    requires KInv(k) && s in k.homes
    ensures forall i :: 0 <= i < |k.homes[s].chain| ==> k.homes[s].chain[i] != NULL
  {
    hide KInv;
    forall i | 0 <= i < |k.homes[s].chain| ensures k.homes[s].chain[i] != NULL {
      FreeObjectIsNoDescriptor(k, s, k.homes[s].chain[i]);
    }
  }

  /** Handing out an object keeps the invariant. The object was free, is now held, and is no
      descriptor in use. */
  lemma HandOutKeepsInv(k: Kernel, c: nat, s: nat, fromFree: bool)
    requires KInv(k) && c in k.caches && IsNext(k.caches[c], s, fromFree)
    ensures s in k.homes && s in k.slabs && k.homes[s].chain != [] && k.slabs[s].freeList in k.words
    ensures var (k', obj) := TakeObj(k, c, s, fromFree);
            && KInv(k') && LocalTo(k, k', c, s) && k'.words == k.words
            && obj == k.homes[s].chain[0] && obj !in k'.homes[s].chain && Holds(k', s, obj)
            && obj != NULL && obj !in k.homes && obj !in k.caches
  {
    hide KInv, SlabOK, ListsOK, ChainOK, IsObject;
    NextHasRoom(k, c, s, fromFree);
    var (k', obj) := TakeObj(k, c, s, fromFree);
    FreeObjectIsNoDescriptor(k, s, obj);
    ChainNonNull(k, s);
    SlabChain(k, s);
    ChainTail(k.caches[c].geo, k.slabs[s], k.homes[s].chain, k.words);
    CacheLists(k, c);
    TakenOK(k.caches[c], c, k.homes, k.slabs, s, k'.homes[s], k'.slabs[s], fromFree);
    ChainMember(k, s, obj);
    assert k'.homes[s].chain == k.homes[s].chain[1..];
    LocalChange(k, k', c, s);
  }

  lemma SlabChain(k: Kernel, s: nat)
    requires SlabOK(k, s)
    ensures ChainOK(k.caches[k.homes[s].cache].geo, k.slabs[s], k.homes[s].chain, k.words)
  {
    hide ChainOK, PlacedSlab, PointsBack;
  }

  lemma CacheLists(k: Kernel, c: nat)
    requires KInv(k) && c in k.caches
    ensures ListsOK(k.caches[c], c, k.homes, k.slabs) && k.caches[c].geo.num >= 1 && CacheOK(k.caches, c)
  {
    hide ListsOK, PagesOK, FlagsOK, SlabsOK;
    ObjectSizes(k);
  }

  // ----- taking back

  lemma ChainCons(g: Geometry, sl: Slab, chain: seq<nat>, words: map<nat, nat>, a: nat)
    requires ChainOK(g, sl, chain, words) && IsObject(g, sl.sMem, a) && a !in chain
    ensures sl.inuse >= 1
    ensures ChainOK(g, sl.(freeList := a, inuse := sl.inuse - 1), [a] + chain, words[a := sl.freeList])
  {
    MissingObject(g, sl.sMem, chain, a);
    hide IsObject, Chained;
    ChainedCons(words, sl.freeList, chain, a);
  }

  lemma InUseOf(k: Kernel, s: nat, obj: nat)
    requires SlabOK(k, s) && Holds(k, s, obj)
    ensures 1 <= k.slabs[s].inuse <= k.caches[k.homes[s].cache].geo.num
  {
    hide IsObject, PlacedSlab, PointsBack;
    MissingObject(k.caches[k.homes[s].cache].geo, k.slabs[s].sMem, k.homes[s].chain, obj);
  }

  /** Taking an object back into a slab that stays keeps the invariant; a slab that becomes empty
      finds every other slab of its cache full. */
  lemma PutKeepsInv(k: Kernel, c: nat, s: nat, obj: nat)
    requires KInv(k) && c in k.caches && Holds(k, s, obj) && k.homes[s].cache == c
    requires obj !in k.homes && obj !in k.caches
    requires k.slabs[s].inuse == 1 ==> k.caches[c].freeObjects + 1 <= k.caches[c].geo.num
    ensures k.slabs[s].inuse >= 1
    ensures var k' := PutObj(k, c, s, obj);
            KInv(k') && LocalTo(k, k', c, s) && k'.homes[s].chain == [obj] + k.homes[s].chain
            && k'.words == k.words[obj := k.slabs[s].freeList]
    ensures k.slabs[s].inuse == 1 ==>
              forall t :: t in k.homes && k.homes[t].cache == c && t != s ==>
                t in k.slabs && k.slabs[t].inuse == k.caches[c].geo.num
  {
    hide KInv, SlabOK, ListsOK, ChainOK, IsObject, Returned;
    SlabIsOK(k, s);
    InUseOf(k, s, obj);
    SlabChain(k, s);
    CacheLists(k, c);
    ChainCons(k.caches[c].geo, k.slabs[s], k.homes[s].chain, k.words, obj);
    var k' := PutObj(k, c, s, obj);
    ReturnedOK(k.caches[c], c, k.homes, k.slabs, s, k'.homes[s], k'.slabs[s]);
    ReturnedShape(k.caches[c], s, k.slabs[s].inuse == k.caches[c].geo.num, k.slabs[s].inuse - 1 == 0);
    LocalChange(k, k', c, s);
  }

  lemma ReturnedShape(cc: Cache, s: nat, wasFull: bool, nowEmpty: bool)
    ensures SameShape(cc, Returned(cc, s, wasFull, nowEmpty))
  {
  }

  lemma SlabIsOK(k: Kernel, s: nat)
    requires KInv(k) && s in k.homes
    ensures SlabOK(k, s)
  {
    hide SlabOK;
  }
}
