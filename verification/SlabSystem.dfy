/** Creating caches, `kmalloc` and `kfree`, and whole runs of the memory system. */
module SlabSystem {
  import opened Blocks
  import opened Options
  import opened SlabLayout
  import opened Zone
  import opened ZoneLinks
  import opened SlabModel
  import opened SlabPages
  import opened SlabFrames
  import opened SlabAlloc
  import opened SlabFree

  // ----- a new cache

  function NewCache(g: Geometry, slabp: nat): Cache { Cache(g, 0, 0, slabp, [], [], []) }

  function InsertCache(k: Kernel, id: nat, g: Geometry, slabp: nat): Kernel {
    k.(caches := k.caches[id := NewCache(g, slabp)])
  }

  /** The descriptor cache is there, on-slab, and its objects hold a descriptor. */
  predicate DescriptorsReady(k: Kernel) {
    && CACHE_CACHE in k.caches && k.caches[CACHE_CACHE].slabpCache in k.caches
    && k.caches[CACHE_CACHE].slabpCache != CACHE_CACHE
    && !k.caches[k.caches[CACHE_CACHE].slabpCache].geo.offSlab
    && SLAB_T <= k.caches[k.caches[CACHE_CACHE].slabpCache].geo.objsize
  }

  ghost predicate CanAddCache(k: Kernel, id: nat, g: Geometry, slabp: nat) {
    && id !in k.caches && HeldFrom(k, CACHE_CACHE, id) && GoodGeometry(g)
    && (g.offSlab ==> DescriptorsReady(k) && slabp == k.caches[CACHE_CACHE].slabpCache)
  }

  lemma HeldIgnoresNewCache(k: Kernel, id: nat, g: Geometry, slabp: nat, c: nat, a: nat)
    requires id !in k.caches
    ensures HeldFrom(k, c, a) ==> HeldFrom(InsertCache(k, id, g, slabp), c, a)
  {
    hide IsObject;
    var k' := InsertCache(k, id, g, slabp);
    if HeldFrom(k, c, a) {
      var t :| Holds(k, t, a) && k.homes[t].cache == c;
      assert Holds(k', t, a);
    }
  }

  lemma NewCacheLists(k: Kernel, id: nat, g: Geometry, slabp: nat)
    requires id !in k.caches && SlabsOK(k)
    ensures ListsOK(NewCache(g, slabp), id, k.homes, k.slabs)
  {
    hide PlacedSlab, ChainOK, PointsBack, HeldFrom;
    assert forall s :: s in k.homes ==> SlabOK(k, s);
  }

  lemma NewCacheCaches(k: Kernel, id: nat, g: Geometry, slabp: nat)
    requires CanAddCache(k, id, g, slabp) && CachesOK(k) && SlabsOK(k)
    ensures CachesOK(InsertCache(k, id, g, slabp))
  {
    hide SlabsOK, ListsOK, HeldFrom, GoodGeometry;
    var k' := InsertCache(k, id, g, slabp);
    NewCacheLists(k, id, g, slabp);
    forall d | d in k'.caches ensures CacheOK(k'.caches, d) {
      if d != id { assert CacheOK(k.caches, d); }
    }
    forall d | d in k'.caches && d != CACHE_CACHE ensures HeldFrom(k', CACHE_CACHE, d) {
      HeldIgnoresNewCache(k, id, g, slabp, CACHE_CACHE, d);
    }
  }

  lemma NewCacheSlabs(k: Kernel, id: nat, g: Geometry, slabp: nat)
    requires id !in k.caches && SlabsOK(k)
    ensures SlabsOK(InsertCache(k, id, g, slabp))
  {
    hide PlacedSlab, ChainOK, PointsBack, HeldFrom;
    var k' := InsertCache(k, id, g, slabp);
    forall s | s in k'.homes ensures SlabOK(k', s) { assert SlabOK(k, s); }
    forall s | s in k'.homes && k'.homes[s].cache in k'.caches && k'.caches[k'.homes[s].cache].geo.offSlab
      ensures HeldFrom(k', k'.caches[k'.homes[s].cache].slabpCache, s)
    {
      assert SlabOK(k, s);
      HeldIgnoresNewCache(k, id, g, slabp, k.caches[k.homes[s].cache].slabpCache, s);
    }
  }

  /** Registering a new cache keeps the invariant. */
  lemma NewCacheKeepsInv(k: Kernel, id: nat, g: Geometry, slabp: nat)
    requires CanAddCache(k, id, g, slabp) && KInv(k)
    ensures KInv(InsertCache(k, id, g, slabp))
  {
    hide CachesOK, SlabsOK, Inv, LinksMatch, FreeClean, LiveFlags, GoodGeometry, HeldFrom;
    NewCacheCaches(k, id, g, slabp);
    NewCacheSlabs(k, id, g, slabp);
  }

  // ----- kmem_cache_create

  /** What creation needs: a positive size, a good alignment, and for off-slab descriptors the
      descriptor cache. */
  ghost predicate CreateAllowed(k: Kernel, size: nat, align: nat, off: bool) {
    && CACHE_CACHE in k.caches && size > 0 && align > 0 && GoodAlign(align)
    && (off ==> DescriptorsReady(k))
  }

  lemma ReadyStays(k: Kernel, k': Kernel, cs: set<nat>)
    requires DescriptorsReady(k) && Extends(k, k', cs)
    ensures DescriptorsReady(k') && k'.caches[CACHE_CACHE].slabpCache == k.caches[CACHE_CACHE].slabpCache
  {
    hide KeepsWords, KeepsHeld, KeepsBlocks;
  }

  lemma CreateCanAdd(k: Kernel, size: nat, align: nat, off: bool, k1: Kernel, id: nat)
    requires CreateAllowed(k, size, align, off) && Allocated(k, CACHE_CACHE, k1, id) && id != NULL
    requires MakeGeometry(size, align, off).Some?
    ensures CACHE_CACHE in k1.caches
    ensures CanAddCache(k1, id, MakeGeometry(size, align, off).value, k1.caches[CACHE_CACHE].slabpCache)
  {
    hide KInv, MakeGeometry, GoodAlign, Extends, Quiet, NewSlabsOnNewPages, HeldFrom, Held, GoodGeometry,
         DescriptorsReady, Settles;
    CreationFits(size, align, off);
    AllocatedKeys(k, CACHE_CACHE, k1, id);
    if off { ReadyStays(k, k1, Touched(k, CACHE_CACHE)); }
  }

  lemma AllocatedKeys(k: Kernel, c: nat, k1: Kernel, obj: nat)
    requires Allocated(k, c, k1, obj)
    ensures k1.caches.Keys == k.caches.Keys
    ensures forall d :: d in k.caches ==> SameBasics(k.caches[d], k1.caches[d])
  {
    hide KInv, KeepsWords, KeepsHeld, KeepsBlocks, Settles, NewSlabsOnNewPages, HeldFrom, Held;
  }

  lemma CacheCacheIsOnSlab(k: Kernel)
    requires KInv(k)
    ensures CACHE_CACHE in k.caches && !k.caches[CACHE_CACHE].geo.offSlab
  {
    hide PagesOK, FlagsOK, SlabsOK, CacheOK, ListsOK, HeldFrom;
  }

  /** A cache descriptor just allocated can be given back. */
  lemma CanFreeAgain(k: Kernel, k1: Kernel, obj: nat)
    requires Allocated(k, CACHE_CACHE, k1, obj) && obj != NULL
    ensures CanFree(k1, CACHE_CACHE, obj) && KInv(k1)
  {
    hide KInv, Extends, Quiet, NewSlabsOnNewPages, Held, IsObject, Mapped, VirtToSlab, Settles, PageCache;
    CacheCacheIsOnSlab(k1);
    var t :| Holds(k1, t, obj) && k1.homes[t].cache == CACHE_CACHE;
    LookupFindsOwner(k1, t, obj);
  }

  /** `kmem_cache_create`: the new cache's address, or `None`. */
  ghost function Create(k: Kernel, size: nat, align: nat, off: bool): (r: (Kernel, Option<nat>))
    requires CreateAllowed(k, size, align, off) && KInv(k)
    ensures KInv(r.0)
  {
    hide KInv, Allocated, MakeGeometry, GoodAlign, CanAddCache, InsertCache, CanFree, Shrinks, GivesBack;
    var (k1, id) := CacheAlloc(k, CACHE_CACHE);
    AllocatedInv(k, CACHE_CACHE, k1, id);
    if id == NULL then (k1, None)
    else match MakeGeometry(size, align, off)
      case None =>
        CanFreeAgain(k, k1, id);
        (CacheFree(k1, CACHE_CACHE, id), None)
      case Some(g) =>
        CreateCanAdd(k, size, align, off, k1, id);
        NewCacheKeepsInv(k1, id, g, k1.caches[CACHE_CACHE].slabpCache);
        (InsertCache(k1, id, g, k1.caches[CACHE_CACHE].slabpCache), Some(id))
  }

  lemma AllocatedInv(k: Kernel, c: nat, k1: Kernel, obj: nat)
    requires Allocated(k, c, k1, obj)
    ensures KInv(k1)
  {
    hide KInv;
  }

  // ----- kmalloc and kfree

  /** `malloc_sizes` */
  const SIZES: seq<nat> := [32, 64, 96, 128, 192, 256, 512, 1024, 2048, 4096, 8192, 16384, 32768, 65536, 131072]

  /** The search of `kmalloc`: the first general cache that is large enough. */
  function SizeIndex(size: nat, i: nat): (r: nat)
    requires i <= |SIZES|
    ensures i <= r <= |SIZES|
    ensures forall j :: i <= j < r ==> SIZES[j] < size
    ensures r < |SIZES| ==> size <= SIZES[r]
    decreases |SIZES| - i
  {
    if i == |SIZES| || size <= SIZES[i] then i else SizeIndex(size, i + 1)
  }

  /** The general caches created so far, all of them after a complete initialisation: their objects
      have the size the table says and their slabs can give back their pages. */
  ghost predicate TableOK(k: Kernel, table: seq<nat>) {
    && |table| <= |SIZES|
    && forall i :: 0 <= i < |table| ==> GeneralCache(k, table[i], SIZES[i])
  }

  predicate GeneralCache(k: Kernel, c: nat, size: nat) {
    c in k.caches && k.caches[c].geo.objsize == size && PageSafe(k.caches[c].geo)
  }

  /** The cache `kmalloc` turns to exists, or it refuses the size; otherwise the code follows a NULL
      cache pointer. */
  predicate Served(table: seq<nat>, size: nat) {
    SizeIndex(size, 0) == |SIZES| || SizeIndex(size, 0) < |table|
  }

  /** `kmalloc` */
  ghost function Kmalloc(k: Kernel, table: seq<nat>, size: nat): (r: (Kernel, nat))
    requires TableOK(k, table) && Served(table, size) && KInv(k)
  {
    var i := SizeIndex(size, 0);
    if i == |SIZES| then (k, NULL) else
      assert GeneralCache(k, table[i], SIZES[i]);
      CacheAlloc(k, table[i])
  }

  /** `kfree` */
  ghost function Kfree(k: Kernel, a: nat): (k': Kernel)
    requires a != NULL ==> Mapped(k, a) && CanFree(k, PageCache(k, a), a)
    requires KInv(k)
  {
    if a == NULL then k else CacheFree(k, PageCache(k, a), a)
  }

  // ----- whole runs

  datatype Op =
    | AllocObject(cache: nat)
    | FreeObject(cache: nat, obj: nat)
    | CreateCache(size: nat, align: nat, off: bool)
    | AllocBlock(order: nat)
    | FreeBlock(page: nat, order: nat)
    | Malloc(size: nat)
    | FreeMalloc(obj: nat)

  /** The obligations of callers: use caches that exist, free what was given out and is not a
      descriptor in use, give back page blocks with the order they were asked for. */
  ghost predicate Allowed(k: Kernel, table: seq<nat>, op: Op) {
    match op
    case AllocObject(c) => c in k.caches
    case FreeObject(c, a) => CanFree(k, c, a)
    case CreateCache(size, align, off) => CreateAllowed(k, size, align, off)
    case AllocBlock(o) => true
    case FreeBlock(p, o) => IsBlock(k.live, p, o) && p !in k.marked
    case Malloc(size) => Served(table, size)
    case FreeMalloc(a) =>
      a != NULL ==> exists s :: s in k.homes && Freeable(k, k.homes[s].cache, s, a)
  }

  /** No block is marked for slabs without being a slab's. */
  ghost predicate Settled(k: Kernel) {
    forall p :: p in k.marked ==> IsBase(k.homes, p)
  }

  ghost predicate Good(k: Kernel, table: seq<nat>) {
    KInv(k) && TableOK(k, table) && Settled(k)
  }

  lemma AllocSettles(k: Kernel, c: nat, k1: Kernel, obj: nat)
    requires Allocated(k, c, k1, obj) && Settled(k)
    ensures Settled(k1)
  {
    hide KInv, Held, HeldFrom;
    if obj != NULL {
      forall p | p in k1.marked ensures IsBase(k1.homes, p) {
        if p in k.marked { BasesPersist(k, k1, Touched(k, c), p); }
      }
    }
  }

  lemma FreeSettles(k: Kernel, k': Kernel, cs: set<nat>, gone: set<nat>)
    requires Shrinks(k, k', cs, gone) && GivesBack(k, k') && k'.marked <= k'.live.Keys && Settled(k)
    ensures Settled(k')
  {
    hide LosesOnly, WordsRemain;
    forall p | p in k'.marked ensures IsBase(k'.homes, p) {
      assert p in k.marked;
      var s :| s in k.homes && k.homes[s].base == p;
      assert s in k'.homes && k'.homes[s].base == p;
    }
  }

  lemma TableStays(k: Kernel, k': Kernel, table: seq<nat>)
    requires TableOK(k, table) && forall d :: d in k.caches ==> d in k'.caches && k.caches[d].geo == k'.caches[d].geo
    ensures TableOK(k', table)
  {
    forall i | 0 <= i < |table| ensures GeneralCache(k', table[i], SIZES[i]) {
      assert GeneralCache(k, table[i], SIZES[i]);
    }
  }

  lemma AllocIsGood(k: Kernel, table: seq<nat>, c: nat)
    requires c in k.caches && TableOK(k, table) && Settled(k) && KInv(k)
    ensures Good(CacheAlloc(k, c).0, table)
  {
    hide KInv, Allocated, CacheAlloc, TableOK, Settled;
    var (k1, obj) := CacheAlloc(k, c);
    AllocatedInv(k, c, k1, obj);
    AllocatedKeys(k, c, k1, obj);
    AllocSettles(k, c, k1, obj);
    TableStays(k, k1, table);
  }

  lemma FreeIsGood(k: Kernel, table: seq<nat>, c: nat, a: nat)
    requires CanFree(k, c, a)
    requires TableOK(k, table) && Settled(k) && KInv(k)
    ensures Good(CacheFree(k, c, a), table)
  {
    hide KInv, Shrinks, CacheFree, TableOK, Settled, GivesBack, Released, Mapped, VirtToSlab, Freeable;
    var k' := CacheFree(k, c, a);
    ShrinkFacts(k, k', Touched(k, c), Released(k, c, a));
    MarkedAreLive(k');
    FreeSettles(k, k', Touched(k, c), Released(k, c, a));
    TableStays(k, k', table);
  }

  lemma CreateIsGood(k: Kernel, table: seq<nat>, size: nat, align: nat, off: bool)
    requires CreateAllowed(k, size, align, off) && TableOK(k, table) && Settled(k) && KInv(k)
    ensures Good(Create(k, size, align, off).0, table)
  {
    hide KInv, Allocated, TableOK, Settled, MakeGeometry, GoodAlign, CacheAlloc, CacheFree, Good, CanFree, CanAddCache;
    AllocIsGood(k, table, CACHE_CACHE);
    var (k1, id) := CacheAlloc(k, CACHE_CACHE);
    GoodParts(k1, table);
    if id != NULL {
      match MakeGeometry(size, align, off) {
        case None =>
          CanFreeAgain(k, k1, id);
          FreeIsGood(k1, table, CACHE_CACHE, id);
        case Some(g) =>
          CreateCanAdd(k, size, align, off, k1, id);
          AddedIsGood(k1, table, id, g, k1.caches[CACHE_CACHE].slabpCache);
      }
    }
  }

  lemma GoodParts(k: Kernel, table: seq<nat>)
    requires Good(k, table)
    ensures KInv(k) && TableOK(k, table) && Settled(k)
  {
    hide KInv, TableOK, Settled;
  }

  lemma AddedIsGood(k: Kernel, table: seq<nat>, id: nat, g: Geometry, slabp: nat)
    requires CanAddCache(k, id, g, slabp) && TableOK(k, table) && Settled(k) && KInv(k)
    ensures Good(InsertCache(k, id, g, slabp), table)
  {
    hide KInv, HeldFrom, GoodGeometry, DescriptorsReady;
    NewCacheKeepsInv(k, id, g, slabp);
    hide TableOK;
    TableStays(k, InsertCache(k, id, g, slabp), table);
  }

  lemma BlockIsGood(k: Kernel, table: seq<nat>, o: nat)
    requires TableOK(k, table) && Settled(k) && KInv(k)
    ensures PagesOK(k) && Good(AllocPages(k, o).0, table)
  {
    hide KInv, PagesOK, AllocPages, TableOK;
    InvariantPages(k);
    AllocPagesKeepsInv(k, o);
    AllocPagesRest(k, o);
    TableStays(k, AllocPages(k, o).0, table);
  }

  lemma FreedBlockIsGood(k: Kernel, table: seq<nat>, p: nat, o: nat)
    requires IsBlock(k.live, p, o) && p !in k.marked && TableOK(k, table) && Settled(k) && KInv(k)
    ensures PagesOK(k) && Good(FreePages(k, p, o), table)
  {
    hide KInv, PagesOK, FreePages, TableOK, Free, Relinked;
    InvariantPages(k);
    FreePagesKeepsInv(k, p, o);
    FreePagesOK(k, p, o);
    TableStays(k, FreePages(k, p, o), table);
  }

  /** Whatever cache an object came from, the page's back pointer names it, so `kfree` frees it
      there. */
  lemma KfreeFindsCache(k: Kernel, s: nat, a: nat)
    requires s in k.homes && Freeable(k, k.homes[s].cache, s, a) && KInv(k)
    ensures Mapped(k, a) && PageCache(k, a) == k.homes[s].cache && PageCache(k, a) in k.caches
    ensures VirtToSlab(k, a) == s && CanFree(k, PageCache(k, a), a)
    ensures Kfree(k, a) == if a == NULL then k else CacheFree(k, k.homes[s].cache, a)
  {
    hide KInv, IsObject, Mapped, VirtToSlab, PageCache, CacheFree;
    LookupFindsOwner(k, s, a);
  }

  ghost function Step(k: Kernel, table: seq<nat>, op: Op): (k': Kernel)
    requires Allowed(k, table, op) && Good(k, table)
    ensures Good(k', table)
  {
    hide KInv, Good, TableOK, Settled, Mapped, PageCache, CanFree, Freeable, CreateAllowed, IsBlock, PagesOK, Served;
    GoodParts(k, table);
    match op
    case AllocObject(c) => AllocIsGood(k, table, c); CacheAlloc(k, c).0
    case FreeObject(c, a) => FreeIsGood(k, table, c, a); CacheFree(k, c, a)
    case CreateCache(size, align, off) => CreateIsGood(k, table, size, align, off); Create(k, size, align, off).0
    case AllocBlock(o) => BlockIsGood(k, table, o); AllocPages(k, o).0
    case FreeBlock(p, o) => FreedBlockIsGood(k, table, p, o); FreePages(k, p, o)
    case Malloc(size) => MallocIsGood(k, table, size); Kmalloc(k, table, size).0
    case FreeMalloc(a) => FreeMallocIsGood(k, table, a); Kfree(k, a)
  }

  lemma MallocIsGood(k: Kernel, table: seq<nat>, size: nat)
    requires TableOK(k, table) && Served(table, size) && Settled(k) && KInv(k)
    ensures Good(Kmalloc(k, table, size).0, table)
  {
    hide KInv, Settled, CacheAlloc, Good;
    var i := SizeIndex(size, 0);
    if i < |SIZES| {
      assert GeneralCache(k, table[i], SIZES[i]);
      AllocIsGood(k, table, table[i]);
    } else {
      MakeGood(k, table);
    }
  }

  lemma MakeGood(k: Kernel, table: seq<nat>)
    requires TableOK(k, table) && Settled(k) && KInv(k)
    ensures Good(k, table)
  {
  }

  lemma FreeMallocIsGood(k: Kernel, table: seq<nat>, a: nat)
    requires a != NULL ==> exists s :: s in k.homes && Freeable(k, k.homes[s].cache, s, a)
    requires TableOK(k, table) && Settled(k) && KInv(k)
    ensures a != NULL ==> Mapped(k, a) && CanFree(k, PageCache(k, a), a)
    ensures Good(Kfree(k, a), table)
  {
    hide KInv, Settled, TableOK, Freeable, CacheFree, Good, Mapped, VirtToSlab, PageCache, CanFree;
    if a == NULL { MakeGood(k, table); } else {
      var s :| s in k.homes && Freeable(k, k.homes[s].cache, s, a);
      KfreeFindsCache(k, s, a);
      FreeIsGood(k, table, PageCache(k, a), a);
    }
  }

  ghost predicate AllowedRun(k: Kernel, table: seq<nat>, ops: seq<Op>)
    requires Good(k, table)
    decreases |ops|
  {
    ops == [] || (Allowed(k, table, ops[0]) && AllowedRun(Step(k, table, ops[0]), table, ops[1..]))
  }

  /** Any sequence of allowed operations keeps the invariant of the whole memory system. */
  ghost function Run(k: Kernel, table: seq<nat>, ops: seq<Op>): (k': Kernel)
    requires Good(k, table) && AllowedRun(k, table, ops)
    ensures Good(k', table)
    decreases |ops|
  {
    hide Good, Step, Allowed;
    if ops == [] then k else Run(Step(k, table, ops[0]), table, ops[1..])
  }
}
