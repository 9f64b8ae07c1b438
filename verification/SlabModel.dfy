/** The slab allocator's state, its elementary operations on values, and its invariant. */
module SlabModel {
  import opened Bits
  import opened Blocks
  import opened PageAddr
  import opened PageFlags
  import opened SlabLayout
  import opened Sequences
  import opened Zone
  import opened ZoneTheorems
  import opened ListHead
  import opened ZoneLinks

  const NULL: nat := 0

  /** The address of the static descriptor `cache_cache`, which lies in the kernel image below
      the direct map. */
  const CACHE_CACHE: nat := 0x10_0000

  /** `slab_t`, found at its own address. */
  datatype Slab = Slab(colourOff: nat, sMem: nat, inuse: nat, freeList: nat)

  /** `kmem_cache_t` with its three slab lists (head first). */
  datatype Cache = Cache(
    geo: Geometry, colourNext: nat, freeObjects: int, slabpCache: nat,
    partial: seq<nat>, full: seq<nat>, free: seq<nat>)

  /** What the proofs know of a slab: its cache, its first page, its free objects in chain order. */
  datatype Home = Home(cache: nat, base: nat, chain: seq<nat>)

  /** Page allocator, page back pointers, descriptors by address, and the memory words that hold
      the free chains. `homes`, `live` (page blocks handed out, by first page) and `marked` (those
      that carry the slab flag) only record history for the proofs. */
  datatype Kernel = Kernel(
    zone: Zone, lru: seq<Links>, first: seq<nat>,
    caches: map<nat, Cache>, slabs: map<nat, Slab>, words: map<nat, nat>,
    homes: map<nat, Home>, live: map<nat, nat>, marked: set<nat>)

  // ----- objects of a slab

  ghost predicate IsObject(g: Geometry, sMem: nat, a: nat) {
    exists i: nat :: i < g.num && a == ObjectAt(sMem, g.objsize, i)
  }

  /** All objects of a fresh slab, in the order `cache_init_objs` chains them. */
  ghost function ObjectSeq(g: Geometry, sMem: nat): seq<nat> {
    seq(g.num, i requires 0 <= i < g.num => ObjectAt(sMem, g.objsize, i))
  }

  /** What the first word of the `i`-th free object holds. */
  function After(chain: seq<nat>, i: nat): nat { if i + 1 < |chain| then chain[i + 1] else NULL }

  /** The free chain starts at `head` and runs through `chain` in memory to NULL. */
  ghost predicate Chained(words: map<nat, nat>, head: nat, chain: seq<nat>) {
    && head == (if chain == [] then NULL else chain[0])
    && forall i :: 0 <= i < |chain| ==> chain[i] in words && words[chain[i]] == After(chain, i)
  }

  // ----- one slab

  /** The offset is that of a colour in range. */
  ghost predicate IsColour(g: Geometry, offset: int) {
    exists c: nat :: ColourInRange(g, c) && offset == ColourOffset(g, c)
  }

  /** Where a slab's parts lie. */
  ghost predicate PlacedSlab(g: Geometry, s: nat, sl: Slab, base: nat) {
    && Header(g) <= sl.colourOff
    && sl.sMem == PageAddress(base) + sl.colourOff
    && sl.colourOff + g.num * g.objsize <= SlabBytes(g.order)
    && (!g.offSlab ==> s == PageAddress(base) + sl.colourOff - g.slabSize)
    && IsColour(g, sl.colourOff - Header(g))
  }

  /** The chain lists distinct objects of the slab, and all others are in use. */
  ghost predicate ChainOK(g: Geometry, sl: Slab, chain: seq<nat>, words: map<nat, nat>) {
    && sl.inuse + |chain| == g.num
    && NoDup(chain)
    && (forall i :: 0 <= i < |chain| ==> IsObject(g, sl.sMem, chain[i]))
    && Chained(words, sl.freeList, chain)
  }

  /** Every page of the block points back to its first page, its cache and its slab. */
  ghost predicate PointsBack(lru: seq<Links>, first: seq<nat>, base: nat, order: nat, c: nat, s: nat) {
    && base + Pow2(order) <= |lru| && base + Pow2(order) <= |first|
    && forall q :: InBlock(q, base, order) ==> first[q] == base && lru[q] == Owner(c, s)
  }

  ghost predicate SlabOK(k: Kernel, s: nat) {
    && s in k.homes && s in k.slabs && k.homes[s].cache in k.caches
    && var h := k.homes[s]; var g := k.caches[h.cache].geo;
       && IsBlock(k.live, h.base, g.order) && h.base in k.marked
       && PlacedSlab(g, s, k.slabs[s], h.base)
       && ChainOK(g, k.slabs[s], h.chain, k.words)
       && PointsBack(k.lru, k.first, h.base, g.order, h.cache, s)
  }

  // ----- one cache

  function FreeCount(slabs: map<nat, Slab>, num: nat, list: seq<nat>): int {
    if list == [] then 0
    else (if list[0] in slabs then num - slabs[list[0]].inuse else 0) + FreeCount(slabs, num, list[1..])
  }

  /** A list of distinct slabs of cache `c`, each with `lo` to `hi` objects in use. */
  ghost predicate OnList(list: seq<nat>, c: nat, homes: map<nat, Home>, slabs: map<nat, Slab>, lo: nat, hi: int) {
    && NoDup(list)
    && forall s :: s in list ==> s in homes && s in slabs && homes[s].cache == c && lo <= slabs[s].inuse <= hi
  }

  /** Every slab of the cache is on one of its lists. */
  ghost predicate AllListed(cc: Cache, c: nat, homes: map<nat, Home>) {
    forall s :: s in homes && homes[s].cache == c ==> s in cc.partial || s in cc.full || s in cc.free
  }

  /** `free_objects` is the sum over all slabs. */
  ghost predicate Counted(cc: Cache, slabs: map<nat, Slab>) {
    cc.freeObjects == FreeCount(slabs, cc.geo.num, cc.partial) + FreeCount(slabs, cc.geo.num, cc.full)
                      + FreeCount(slabs, cc.geo.num, cc.free)
  }

  /** Each slab of the cache is on exactly the list its `inuse` calls for, at most one slab is
      empty, and the count of free objects is right. */
  ghost predicate ListsOK(cc: Cache, c: nat, homes: map<nat, Home>, slabs: map<nat, Slab>) {
    && OnList(cc.partial, c, homes, slabs, 1, cc.geo.num - 1)
    && OnList(cc.full, c, homes, slabs, cc.geo.num, cc.geo.num)
    && OnList(cc.free, c, homes, slabs, 0, 0)
    && |cc.free| <= 1
    && AllListed(cc, c, homes)
    && Counted(cc, slabs)
  }

  // ----- list moves

  /** An object is taken from the slab at the head of the partial list, or from the head of the
      free list after moving it to the partial list; a slab that runs full moves on. */
  function Taken(cc: Cache, s: nat, fromFree: bool, nowFull: bool): Cache
    requires if fromFree then cc.free != [] else cc.partial != []
  {
    var partial := if fromFree then [s] + cc.partial else cc.partial;
    var free := if fromFree then cc.free[1..] else cc.free;
    if nowFull then cc.(partial := partial[1..], full := [s] + cc.full, free := free, freeObjects := cc.freeObjects - 1)
    else cc.(partial := partial, free := free, freeObjects := cc.freeObjects - 1)
  }

  /** An object comes back to a slab that the cache keeps. */
  function Returned(cc: Cache, s: nat, wasFull: bool, nowEmpty: bool): Cache {
    if nowEmpty then
      cc.(partial := Remove(cc.partial, s), full := Remove(cc.full, s), free := [s] + cc.free,
          freeObjects := cc.freeObjects + 1)
    else if wasFull then
      cc.(full := Remove(cc.full, s), partial := cc.partial + [s], freeObjects := cc.freeObjects + 1)
    else cc.(freeObjects := cc.freeObjects + 1)
  }

  /** The last object comes back to a slab that the cache gives up. */
  function Dropped(cc: Cache, s: nat): Cache {
    cc.(partial := Remove(cc.partial, s), full := Remove(cc.full, s),
        freeObjects := cc.freeObjects + 1 - cc.geo.num)
  }

  /** A fresh slab joins the cache. */
  function Grown(cc: Cache, s: nat): Cache {
    cc.(free := cc.free + [s], freeObjects := cc.freeObjects + cc.geo.num)
  }

  ghost predicate CacheOK(caches: map<nat, Cache>, c: nat)
    requires c in caches
  {
    var cc := caches[c];
    && GoodGeometry(cc.geo) && ColourInRange(cc.geo, cc.colourNext)
    && (cc.geo.offSlab ==>
          && cc.slabpCache in caches && cc.slabpCache != CACHE_CACHE
          && !caches[cc.slabpCache].geo.offSlab && SLAB_T <= caches[cc.slabpCache].geo.objsize)
  }

  // ----- the whole

  /** Object `a` of slab `t` is handed out. */
  ghost predicate Holds(k: Kernel, t: nat, a: nat) {
    && t in k.homes && t in k.slabs && k.homes[t].cache in k.caches
    && IsObject(k.caches[k.homes[t].cache].geo, k.slabs[t].sMem, a) && a !in k.homes[t].chain
  }

  ghost predicate HeldFrom(k: Kernel, c: nat, a: nat) {
    exists t :: Holds(k, t, a) && k.homes[t].cache == c
  }

  const SLAB_FLAGS := NO_FLAGS.(slab := true)

  predicate FlagsAre(z: Zone, q: nat, f: Flags) {
    q < |z.pages| ==> WithoutPrivate(z.pages[q].flags) == f
  }

  ghost predicate PagesOK(k: Kernel) {
    && Inv(k.zone, k.live) && LinksMatch(k.zone, k.lru)
    && |k.first| == |k.zone.pages| <= DIRECT_PAGES
  }

  ghost predicate FreeClean(z: Zone) {
    forall q: nat :: Covered(FreeMap(z), q) ==> FlagsAre(z, q, NO_FLAGS)
  }

  ghost predicate LiveFlags(z: Zone, live: map<nat, nat>, marked: set<nat>) {
    forall p, q: nat :: p in live && InBlock(q, p, live[p]) ==>
      FlagsAre(z, q, if p in marked then SLAB_FLAGS else NO_FLAGS)
  }

  /** Pages of slab blocks carry the slab flag and nothing else; all other pages the allocators
      manage carry no flag. */
  ghost predicate FlagsOK(k: Kernel) {
    k.marked <= k.live.Keys && FreeClean(k.zone) && LiveFlags(k.zone, k.live, k.marked)
  }

  ghost predicate CachesOK(k: Kernel) {
    && CACHE_CACHE in k.caches && !k.caches[CACHE_CACHE].geo.offSlab
    && (forall c :: c in k.caches ==> CacheOK(k.caches, c))
    && (forall c :: c in k.caches ==> ListsOK(k.caches[c], c, k.homes, k.slabs))
    && (forall c :: c in k.caches && c != CACHE_CACHE ==> HeldFrom(k, CACHE_CACHE, c))
  }

  ghost predicate SlabsOK(k: Kernel) {
    && k.homes.Keys == k.slabs.Keys
    && (forall s :: s in k.homes ==> SlabOK(k, s))
    && (forall s :: s in k.homes && k.homes[s].cache in k.caches && k.caches[k.homes[s].cache].geo.offSlab ==>
          HeldFrom(k, k.caches[k.homes[s].cache].slabpCache, s))
  }

  /** The invariant of the memory system. */
  ghost predicate KInv(k: Kernel) {
    PagesOK(k) && FlagsOK(k) && CachesOK(k) && SlabsOK(k)
  }

  // ----- elementary operations

  /** `slab_get_obj` on the slab at the head of the partial or free list, with the list moves
      `cache_alloc_refill` makes around it. */
  function TakeObj(k: Kernel, c: nat, s: nat, fromFree: bool): (Kernel, nat)
    requires c in k.caches && s in k.slabs && s in k.homes && k.homes[s].chain != [] && k.slabs[s].freeList in k.words
    requires if fromFree then k.caches[c].free != [] else k.caches[c].partial != []
  {
    var sl := k.slabs[s];
    var obj := sl.freeList;
    var next := k.words[obj];
    (k.(caches := k.caches[c := Taken(k.caches[c], s, fromFree, next == NULL)],
        slabs := k.slabs[s := sl.(freeList := next, inuse := sl.inuse + 1)],
        homes := k.homes[s := k.homes[s].(chain := k.homes[s].chain[1..])]),
     obj)
  }

  /** `kmem_cache_free` when the slab stays with its cache: `slab_put_obj` and the list move. */
  function PutObj(k: Kernel, c: nat, s: nat, obj: nat): Kernel
    requires c in k.caches && s in k.slabs && s in k.homes && k.slabs[s].inuse >= 1
  {
    var sl := k.slabs[s];
    k.(caches := k.caches[c := Returned(k.caches[c], s, sl.inuse == k.caches[c].geo.num, sl.inuse - 1 == 0)],
       slabs := k.slabs[s := sl.(freeList := obj, inuse := sl.inuse - 1)],
       words := k.words[obj := sl.freeList],
       homes := k.homes[s := k.homes[s].(chain := [obj] + k.homes[s].chain)])
  }
}
