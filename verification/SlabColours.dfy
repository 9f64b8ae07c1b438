/** Slab colouring over whole runs: successive slabs of a cache go through its colours in turn. */
module SlabColours {
  import opened Bits
  import opened Blocks
  import opened PageAddr
  import opened SlabLayout
  import opened SlabModel
  import opened SlabPages
  import opened SlabGrow
  import opened SlabDrop
  import opened SlabFrames
  import opened SlabAlloc
  import opened SlabFree
  import opened SlabSystem
  import opened SlabTheorems
  import opened SlabExact
  import opened SlabUses

  // ----- the cycle

  /** The number of different colour offsets of a cache. */
  function Cycle(g: Geometry): (n: nat)
    ensures n > 0
  {
    if g.colour == 0 then 1 else g.colour
  }

  lemma NextIsModulo(cc: Cache)
    requires ColourInRange(cc.geo, cc.colourNext)
    ensures NextColour(cc) == (cc.colourNext + 1) % Cycle(cc.geo) && cc.colourNext % Cycle(cc.geo) == cc.colourNext
  {
  }

  lemma ModuloAdds(a: nat, b: nat, n: nat)
    requires n > 0
    ensures (a % n + b) % n == (a + b) % n
  {
    var q := a / n;
    assert a == n * q + a % n;
    ModuloShift(a % n + b, q, n);
  }

  lemma ModuloShift(x: nat, q: nat, n: nat)
    requires n > 0
    ensures (n * q + x) % n == x % n
  {
    var r := x / n;
    assert x == n * r + x % n;
    assert n * q + x == n * (q + r) + x % n;
    QuotientIsUnique(n * q + x, n, q + r, x % n);
  }

  // ----- one allocation

  predicate HasRoom(cc: Cache) { cc.partial != [] || cc.free != [] }

  /** The caches an allocation from `c` calls `cache_grow` on, once each: `c` if it has no object left,
      and then its descriptor cache, if `c` is off-slab, gets its pages, and no descriptor is left. */
  ghost function Called(k: Kernel, c: nat): set<nat>
    requires c in k.caches
  {
    var cc := k.caches[c];
    if HasRoom(cc) then {}
    else if cc.geo.offSlab && CanServe(k.zone, cc.geo.order) && cc.slabpCache in k.caches
            && !HasRoom(k.caches[cc.slabpCache]) then {c, cc.slabpCache}
    else {c}
  }

  /** From `k` to `k'` the caches in `called` moved on by one colour and no other did. */
  ghost predicate MovesOn(k: Kernel, k': Kernel, called: set<nat>) {
    forall d :: d in k.caches ==>
      && d in k'.caches && k'.caches[d].geo == k.caches[d].geo
      && k'.caches[d].colourNext == if d in called then NextColour(k.caches[d]) else k.caches[d].colourNext
  }

  /** Every new slab belongs to a cache in `called` and has the colour that was next there. */
  ghost predicate ColoursNew(k: Kernel, k': Kernel, called: set<nat>) {
    forall s :: s in k'.slabs && s !in k.slabs ==>
      s in k'.homes && HasNextColour(k, k'.homes[s].cache, k'.slabs[s], called)
  }

  ghost predicate HasNextColour(k: Kernel, d: nat, sl: Slab, called: set<nat>) {
    d in called && d in k.caches && sl.colourOff == NextOffset(k.caches[d]) + Header(k.caches[d].geo)
  }

  /** The slabs there were are still there with their colours. */
  ghost predicate KeepsSlabs(k: Kernel, k': Kernel) {
    forall s :: s in k.slabs ==>
      && s in k'.slabs && k'.slabs[s].colourOff == k.slabs[s].colourOff
      && (s in k.homes ==> s in k'.homes && k'.homes[s].cache == k.homes[s].cache)
  }

  ghost predicate Paints(k: Kernel, k': Kernel, called: set<nat>) {
    k'.caches.Keys == k.caches.Keys && MovesOn(k, k', called) && ColoursNew(k, k', called) && KeepsSlabs(k, k')
  }

  lemma PaintsTrans(k: Kernel, k1: Kernel, k2: Kernel, a: set<nat>, b: set<nat>)
    requires Paints(k, k1, a) && Paints(k1, k2, b) && a !! b
    ensures Paints(k, k2, a + b)
  {
    hide Header, ColourOffset, HasNextColour;
    forall s | s in k2.slabs && s !in k.slabs
      ensures s in k2.homes && HasNextColour(k, k2.homes[s].cache, k2.slabs[s], a + b)
    {
      if s in k1.slabs {
        SameColour(k, k, k1.homes[s].cache, k1.slabs[s], k2.slabs[s], a, a + b);
      } else {
        LaterColour(k, k1, k2.homes[s].cache, k2.slabs[s], a, b);
      }
    }
    hide ColoursNew;
    assert KeepsSlabs(k, k2);
  }

  lemma SameColour(k: Kernel, k1: Kernel, d: nat, sl: Slab, sl': Slab, a: set<nat>, b: set<nat>)
    requires HasNextColour(k, d, sl, a) && sl'.colourOff == sl.colourOff && a <= b && k1 == k
    ensures HasNextColour(k1, d, sl', b)
  {
  }

  lemma LaterColour(k: Kernel, k1: Kernel, d: nat, sl: Slab, a: set<nat>, b: set<nat>)
    requires HasNextColour(k1, d, sl, b) && MovesOn(k, k1, a) && k1.caches.Keys == k.caches.Keys && a !! b
    ensures HasNextColour(k, d, sl, a + b)
  {
    hide ColourOffset, Header;
  }

  /** Taking an object changes no colour. */
  lemma TakePaints(k: Kernel, c: nat, k1: Kernel, fromFree: bool)
    requires c in k.caches && c in k1.caches
    requires if fromFree then k1.caches[c].free != [] else k1.caches[c].partial != []
    requires Extends(k, k1, Touched(k, c)) && NewSlabsOnNewPages(k, k1) && Settles(k, k1, {}) && KInv(k1)
    ensures Paints(k1, TakeNext(k, c, k1, fromFree).0, {})
  {
    hide KInv, Allocated, Extends, NewSlabsOnNewPages, Touched, Settles, Paints, TakeObj;
    var s := if fromFree then k1.caches[c].free[0] else k1.caches[c].partial[0];
    TakeCompletes(k, c, k1, s, fromFree);
    TakeObjPaints(k1, c, s, fromFree);
  }

  lemma TakeObjPaints(k: Kernel, c: nat, s: nat, fromFree: bool)
    requires c in k.caches && s in k.slabs && s in k.homes && k.homes[s].chain != [] && k.slabs[s].freeList in k.words
    requires if fromFree then k.caches[c].free != [] else k.caches[c].partial != []
    ensures Paints(k, TakeObj(k, c, s, fromFree).0, {})
  {
    hide HasNextColour, NextColour;
  }

  /** Getting pages for a slab moves the cache's colour on. */
  lemma PendingPaints(k: Kernel, c: nat, k1: Kernel, p: nat)
    requires c in k.caches && GotPages(k, c, k1, p)
    ensures Paints(k, k1, {c})
  {
    hide HasNextColour, NextColour;
  }

  lemma BumpPaints(k: Kernel, c: nat)
    requires c in k.caches
    ensures Paints(k, BumpColour(k, c), {c})
  {
    hide HasNextColour, NextColour;
  }

  /** A new slab of `c` gets the colour that was next when `cache_grow` was called. */
  lemma InsertPaints(k: Kernel, k2: Kernel, c: nat, s: nat, base: nat, called: set<nat>)
    requires c in k.caches && c in k2.caches && c in called && s !in k2.slabs && s !in k2.homes && Paints(k, k2, called)
    ensures Paints(k, InsertSlab(k2, c, s, base, NextOffset(k.caches[c])), called)
  {
    hide InsertSlab, Header, NextOffset, NextColour, HasNextColour;
    InsertedColour(k2, c, s, base, NextOffset(k.caches[c]));
    var k' := InsertSlab(k2, c, s, base, NextOffset(k.caches[c]));
    assert HasNextColour(k, c, k'.slabs[s], called) by { ColourIs(k, c, k'.slabs[s], called); }
    forall t | t in k'.slabs && t !in k.slabs
      ensures t in k'.homes && HasNextColour(k, k'.homes[t].cache, k'.slabs[t], called)
    {
      if t != s { assert t in k2.slabs && t in k2.homes; }
    }
    hide ColoursNew;
    assert MovesOn(k, k', called);
    hide MovesOn;
    assert KeepsSlabs(k, k');
  }

  lemma ColourIs(k: Kernel, c: nat, sl: Slab, called: set<nat>)
    requires c in k.caches && c in called && sl.colourOff == NextOffset(k.caches[c]) + Header(k.caches[c].geo)
    ensures HasNextColour(k, c, sl, called)
  {
  }

  lemma InsertedColour(k: Kernel, c: nat, s: nat, base: nat, offset: nat)
    requires c in k.caches
    ensures var k' := InsertSlab(k, c, s, base, offset);
            && k'.caches.Keys == k.caches.Keys
            && s in k'.slabs && k'.slabs[s].colourOff == offset + Header(k.caches[c].geo)
            && k'.slabs == k.slabs[s := k'.slabs[s]] && s in k'.homes && k'.homes[s].cache == c
            && k'.homes == k.homes[s := k'.homes[s]]
            && (forall d :: d in k.caches ==>
                  && d in k'.caches && k'.caches[d].geo == k.caches[d].geo
                  && k'.caches[d].colourNext == k.caches[d].colourNext)
  {
    hide Thread, PageAddress, ObjectSeq, SetRange, Header;
  }

  lemma SlabKeys(k: Kernel)
    requires KInv(k)
    ensures k.homes.Keys == k.slabs.Keys
  {
    hide PagesOK, FlagsOK, CachesOK, SlabOK, HeldFrom;
  }

  // ----- on-slab caches

  lemma OnSlabGrowPaints(k: Kernel, c: nat)
    requires c in k.caches && !k.caches[c].geo.offSlab && k.caches[c].free == [] && KInv(k)
    ensures Paints(k, CacheGrow(k, c).0, {c})
  {
    hide KInv, CacheGrow, GrowPages, InsertSlab, NextOffset, GotPages, Grew, Paints, BumpColour, PageAddress;
    GrowUnfolds(k, c);
    GrowPagesKeepsInv(k, c);
    var (k1, r) := GrowPages(k, c);
    if r.None? {
      BumpPaints(k, c);
    } else {
      PendingPaints(k, c, k1, r.value);
      OnSlabIsNew(k, c, k1, r.value);
      SlabKeys(k1);
      InsertPaints(k, k1, c, PageAddress(r.value) + NextOffset(k.caches[c]), r.value, {c});
    }
  }

  lemma OnSlabAllocPaints(k: Kernel, c: nat)
    requires c in k.caches && !k.caches[c].geo.offSlab && KInv(k)
    ensures Paints(k, CacheAlloc(k, c).0, if HasRoom(k.caches[c]) then {} else {c})
  {
    hide KInv, CacheAlloc, CacheGrow, TakeNext, Extends, NewSlabsOnNewPages, Settles, Touched, Paints;
    AllocUnfolds(k, c);
    if k.caches[c].partial != [] { TakePaints(k, c, k, false); }
    else if k.caches[c].free != [] { TakePaints(k, c, k, true); }
    else {
      OnSlabGrowPaints(k, c);
      if CacheGrow(k, c).1 {
        TakePaints(k, c, CacheGrow(k, c).0, true);
        PaintsTrans(k, CacheGrow(k, c).0, CacheAlloc(k, c).0, {c}, {});
        assert {c} + {} == {c};
      }
    }
  }

  // ----- off-slab caches

  lemma PutPaints(k: Kernel, k2: Kernel, p: nat, o: nat, called: set<nat>)
    requires KInv(k2) && IsBlock(k2.live, p, o) && (forall s :: s in k2.homes ==> k2.homes[s].base != p)
    requires Paints(k, k2, called)
    ensures Paints(k, PutPages(k2, p, o), called)
  {
    hide KInv, PutPages, HasNextColour, NextColour;
    PutPagesKeepsInv(k2, p, o);
  }

  lemma OffSlabGrowPaints(k: Kernel, c: nat)
    requires c in k.caches && k.caches[c].geo.offSlab && k.caches[c].free == [] && k.caches[c].partial == [] && KInv(k)
    ensures Paints(k, CacheGrow(k, c).0, Called(k, c))
  {
    hide KInv, CacheGrow, GrowPages, InsertSlab, NextOffset, GotPages, Grew, Paints, BumpColour, CanServe, CacheAlloc,
         PutPages, GrowOffSlab, Allocated, PagesOK, FlagsOK, CachesOK, SlabsOK, IsBlock, PageAddress;
    InvariantParts(k);
    DescriptorCache(k, c);
    ServedByGrowth(k, c);
    GrowUnfolds(k, c);
    GrowPagesKeepsInv(k, c);
    var (k1, r) := GrowPages(k, c);
    if r.None? {
      BumpPaints(k, c);
    } else {
      var p, d := r.value, k.caches[c].slabpCache;
      PendingPaints(k, c, k1, p);
      OthersKeepRoom(k, c, k1, p, d);
      GrowOffUnfolds(k, c, k1, p);
      var (k2, s) := CacheAlloc(k1, d);
      OnSlabAllocPaints(k1, d);
      var called := if HasRoom(k.caches[d]) then {} else {d};
      PaintsTrans(k, k1, k2, {c}, called);
      assert {c} + called == Called(k, c);
      if s == NULL {
        PutPaints(k, k2, p, k.caches[c].geo.order, Called(k, c));
      } else {
        AllocatedIsNew(k1, d, k2, s);
        SlabKeys(k2);
        InsertPaints(k, k2, c, s, p, Called(k, c));
      }
    }
  }

  lemma OthersKeepRoom(k: Kernel, c: nat, k1: Kernel, p: nat, d: nat)
    requires c in k.caches && d in k.caches && GotPages(k, c, k1, p) && d != c
    ensures d in k1.caches && k1.caches[d] == k.caches[d]
  {
  }

  /** An allocation moves on the colours of exactly the caches it grows, and each new slab gets the
      colour that was next, whether or not the allocation succeeds. */
  lemma AllocPaints(k: Kernel, c: nat)
    requires c in k.caches && KInv(k)
    ensures Paints(k, CacheAlloc(k, c).0, Called(k, c))
  {
    hide KInv, CacheAlloc, CacheGrow, TakeNext, Extends, NewSlabsOnNewPages, Settles, Touched, Paints, CanServe;
    if !k.caches[c].geo.offSlab {
      OnSlabAllocPaints(k, c);
    } else {
      AllocUnfolds(k, c);
      if k.caches[c].partial != [] { TakePaints(k, c, k, false); }
      else if k.caches[c].free != [] { TakePaints(k, c, k, true); }
      else {
        OffSlabGrowPaints(k, c);
        if CacheGrow(k, c).1 {
          TakePaints(k, c, CacheGrow(k, c).0, true);
          PaintsTrans(k, CacheGrow(k, c).0, CacheAlloc(k, c).0, Called(k, c), {});
          assert Called(k, c) + {} == Called(k, c);
        }
      }
    }
  }

  // ----- one step of a run

  /** The caches a step calls `cache_grow` on. */
  ghost function StepCalled(k: Kernel, table: seq<nat>, op: Op): set<nat>
    requires Allowed(k, table, op) && Good(k, table)
  {
    hide KInv, CanServe, Freeable;
    match op
    case AllocObject(c) => Called(k, c)
    case CreateCache(_, _, _) => CacheCacheIsOnSlab(k); Called(k, CACHE_CACHE)
    case Malloc(size) =>
      var i := SizeIndex(size, 0);
      if i == |SIZES| then {} else assert GeneralCache(k, table[i], SIZES[i]); Called(k, table[i])
    case _ => {}
  }

  /** Colours move on where a step grows a cache and nowhere else, and new slabs get them. */
  ghost predicate Recolours(k: Kernel, k': Kernel, called: set<nat>) {
    MovesOn(k, k', called) && ColoursNew(k, k', called)
  }

  lemma FreeRecolours(k: Kernel, c: nat, a: nat)
    requires CanFree(k, c, a)
    requires KInv(k)
    ensures Recolours(k, CacheFree(k, c, a), {})
  {
    hide KInv, CacheFree, Shrinks, Released, GivesBack, Freeable, Mapped, VirtToSlab, NextColour, HasNextColour;
    ShrinkFacts(k, CacheFree(k, c, a), Touched(k, c), Released(k, c, a));
  }

  lemma CreateRecolours(k: Kernel, size: nat, align: nat, off: bool)
    requires CreateAllowed(k, size, align, off) && KInv(k)
    ensures Recolours(k, Create(k, size, align, off).0, Called(k, CACHE_CACHE))
  {
    hide KInv, CacheAlloc, CacheFree, Allocated, MakeGeometry, GoodAlign, CanFree, CanAddCache, DescriptorsReady,
         CanServe, Called, Paints, Recolours;
    var (k1, id) := CacheAlloc(k, CACHE_CACHE);
    AllocPaints(k, CACHE_CACHE);
    PaintsRecolours(k, k1, Called(k, CACHE_CACHE));
    AllocatedInv(k, CACHE_CACHE, k1, id);
    if id != NULL {
      match MakeGeometry(size, align, off) {
        case None =>
          CanFreeAgain(k, k1, id);
          FreedAfterwards(k, k1, id, Called(k, CACHE_CACHE));
        case Some(g) =>
          CreateCanAdd(k, size, align, off, k1, id);
          AddedRecolours(k, k1, id, g, k1.caches[CACHE_CACHE].slabpCache, Called(k, CACHE_CACHE));
      }
    }
  }

  lemma PaintsRecolours(k: Kernel, k': Kernel, called: set<nat>)
    requires Paints(k, k', called)
    ensures Recolours(k, k', called)
  {
    hide MovesOn, ColoursNew, KeepsSlabs;
  }

  lemma FreedAfterwards(k: Kernel, k1: Kernel, id: nat, called: set<nat>)
    requires Paints(k, k1, called) && CanFree(k1, CACHE_CACHE, id)
    requires KInv(k1)
    ensures Recolours(k, CacheFree(k1, CACHE_CACHE, id), called)
  {
    hide KInv, CacheFree, Shrinks, Released, GivesBack, Freeable, Mapped, VirtToSlab, NextColour, HasNextColour;
    var k2 := CacheFree(k1, CACHE_CACHE, id);
    ShrinkFacts(k1, k2, Touched(k1, CACHE_CACHE), Released(k1, CACHE_CACHE, id));
    SlabKeys(k2);
    forall s | s in k2.slabs && s !in k.slabs
      ensures s in k2.homes && HasNextColour(k, k2.homes[s].cache, k2.slabs[s], called)
    {
      SameColour(k, k, k1.homes[s].cache, k1.slabs[s], k2.slabs[s], called, called);
    }
  }

  lemma AddedRecolours(k: Kernel, k1: Kernel, id: nat, g: Geometry, slabp: nat, called: set<nat>)
    requires CanAddCache(k1, id, g, slabp) && Paints(k, k1, called)
    ensures Recolours(k, InsertCache(k1, id, g, slabp), called)
  {
    hide HeldFrom, GoodGeometry, DescriptorsReady, NextColour, HasNextColour;
  }

  lemma NothingRecoloured(k: Kernel, k': Kernel)
    requires k'.caches == k.caches && k'.slabs == k.slabs
    ensures Recolours(k, k', {})
  {
    hide NextColour, HasNextColour;
  }

  lemma StepRecolours(k: Kernel, table: seq<nat>, op: Op)
    requires Allowed(k, table, op) && Good(k, table)
    ensures Recolours(k, Step(k, table, op), StepCalled(k, table, op))
  {
    hide KInv, Good, TableOK, Settled, Mapped, PageCache, CanFree, Freeable, CreateAllowed, IsBlock, PagesOK, Served,
         Recolours, AllocPages, FreePages, CacheAlloc, CacheFree, Create, Called, Paints;
    GoodParts(k, table);
    match op {
      case AllocObject(c) => AllocPaints(k, c); PaintsRecolours(k, CacheAlloc(k, c).0, Called(k, c));
      case FreeObject(c, a) => FreeRecolours(k, c, a);
      case CreateCache(size, align, off) => CreateRecolours(k, size, align, off);
      case AllocBlock(o) =>
        InvariantPages(k);
        AllocPagesRest(k, o);
        NothingRecoloured(k, AllocPages(k, o).0);
      case FreeBlock(p, o) =>
        InvariantPages(k);
        FreePagesRest(k, p, o);
        NothingRecoloured(k, FreePages(k, p, o));
      case Malloc(size) => MallocRecolours(k, table, size);
      case FreeMalloc(a) => KfreeRecolours(k, table, a);
    }
  }

  lemma MallocRecolours(k: Kernel, table: seq<nat>, size: nat)
    requires TableOK(k, table) && Served(table, size) && KInv(k)
    ensures var i := SizeIndex(size, 0);
            if i == |SIZES| then Recolours(k, Kmalloc(k, table, size).0, {})
            else table[i] in k.caches && Recolours(k, Kmalloc(k, table, size).0, Called(k, table[i]))
  {
    hide KInv, CacheAlloc, Called, Paints, Recolours;
    var i := SizeIndex(size, 0);
    if i < |SIZES| {
      assert GeneralCache(k, table[i], SIZES[i]);
      AllocPaints(k, table[i]);
      PaintsRecolours(k, CacheAlloc(k, table[i]).0, Called(k, table[i]));
    } else {
      NothingRecoloured(k, k);
    }
  }

  lemma KfreeRecolours(k: Kernel, table: seq<nat>, a: nat)
    requires a != NULL ==> exists s :: s in k.homes && Freeable(k, k.homes[s].cache, s, a)
    requires TableOK(k, table) && Settled(k) && KInv(k)
    ensures a != NULL ==> Mapped(k, a) && CanFree(k, PageCache(k, a), a)
    ensures Recolours(k, Kfree(k, a), {})
  {
    hide KInv, Settled, TableOK, Freeable, CacheFree, Mapped, VirtToSlab, PageCache, CanFree, Recolours;
    if a == NULL { NothingRecoloured(k, k); } else {
      var s :| s in k.homes && Freeable(k, k.homes[s].cache, s, a);
      KfreeFindsCache(k, s, a);
      FreeRecolours(k, PageCache(k, a), a);
    }
  }

  // ----- whole runs

  /** How often a run calls `cache_grow` on `d`. */
  ghost function Calls(k: Kernel, table: seq<nat>, ops: seq<Op>, d: nat): nat
    requires Good(k, table) && AllowedRun(k, table, ops)
    decreases |ops|
  {
    if ops == [] then 0
    else (if d in StepCalled(k, table, ops[0]) then 1 else 0) + Calls(Step(k, table, ops[0]), table, ops[1..], d)
  }

  lemma InRange(k: Kernel, d: nat)
    requires KInv(k) && d in k.caches
    ensures ColourInRange(k.caches[d].geo, k.caches[d].colourNext)
  {
    hide PagesOK, FlagsOK, SlabsOK, ListsOK, HeldFrom, GoodGeometry;
    assert CacheOK(k.caches, d);
  }

  lemma StepColour(k: Kernel, table: seq<nat>, op: Op, d: nat)
    requires Allowed(k, table, op) && Good(k, table) && d in k.caches
    ensures var k' := Step(k, table, op);
            && d in k'.caches && k'.caches[d].geo == k.caches[d].geo
            && k'.caches[d].colourNext ==
               (k.caches[d].colourNext + if d in StepCalled(k, table, op) then 1 else 0) % Cycle(k.caches[d].geo)
  {
    hide Good, Step, StepCalled, ColoursNew, KInv, NextColour, ColourInRange;
    GoodIsInvariant(k, table);
    InRange(k, d);
    NextIsModulo(k.caches[d]);
    StepRecolours(k, table, op);
  }

  /** After any run the next colour of a cache has advanced, round its cycle, by the number of calls
      of `cache_grow` on it, successful or not. */
  lemma {:induction false} ColourCycles(k: Kernel, table: seq<nat>, ops: seq<Op>, d: nat)
    requires Good(k, table) && AllowedRun(k, table, ops) && d in k.caches
    ensures var r := Run(k, table, ops);
            && d in r.caches && r.caches[d].geo == k.caches[d].geo
            && r.caches[d].colourNext == (k.caches[d].colourNext + Calls(k, table, ops, d)) % Cycle(k.caches[d].geo)
    decreases |ops|
  {
    hide Good, Step, Allowed, StepCalled, Cycle, KInv, ColourInRange;
    if ops == [] {
      GoodIsInvariant(k, table);
      InRange(k, d);
      NextIsModulo(k.caches[d]);
    } else {
      var k' := Step(k, table, ops[0]);
      StepColour(k, table, ops[0], d);
      ColourCycles(k', table, ops[1..], d);
      var one: nat := if d in StepCalled(k, table, ops[0]) then 1 else 0;
      ModuloAdds(k.caches[d].colourNext + one, Calls(k', table, ops[1..], d), Cycle(k.caches[d].geo));
    }
  }

  /** The slab that the call of `cache_grow` after `n` others adds to a cache lies `n` colours further
      on, round the cycle, than where the cache started. */
  lemma SlabGetsItsColour(k: Kernel, table: seq<nat>, ops: seq<Op>, op: Op, s: nat)
    requires Good(k, table) && AllowedRun(k, table, ops) && Allowed(Run(k, table, ops), table, op)
    ensures var r := Run(k, table, ops);
            var r' := Step(r, table, op);
            s in r'.slabs && s !in r.slabs ==>
              && s in r'.homes && var d := r'.homes[s].cache;
                 && d in StepCalled(r, table, op)
                 && (d in k.caches ==>
                       var n := k.caches[d].colourNext + Calls(k, table, ops, d);
                       r'.slabs[s].colourOff == Header(k.caches[d].geo) + SlotOffset(k.caches[d].geo, n))
  {
    hide Good, Step, Run, Allowed, AllowedRun, StepCalled, Calls, Cycle, Header;
    var r := Run(k, table, ops);
    var r' := Step(r, table, op);
    StepRecolours(r, table, op);
    if s in r'.slabs && s !in r.slabs && r'.homes[s].cache in k.caches {
      ColourCycles(k, table, ops, r'.homes[s].cache);
    }
  }

  /** The offset of the `n`-th slab, counted round the cycle of colours. */
  function SlotOffset(g: Geometry, n: nat): nat { n % Cycle(g) * g.colourOff }

  /** Slabs less than a cycle apart have different offsets. */
  lemma SuccessiveSlabsDiffer(g: Geometry, m: nat, n: nat)
    requires GoodGeometry(g) && m < n < m + Cycle(g)
    ensures SlotOffset(g, m) != SlotOffset(g, n)
  {
    hide Cycle, MaxOffset, SlabBytes;
    var c := Cycle(g);
    RemaindersDiffer(m, n, c);
    ProductsDiffer(m % c, n % c, g.colourOff);
  }

  lemma RemaindersDiffer(m: nat, n: nat, c: nat)
    requires c > 0 && m < n < m + c
    ensures m % c != n % c
  {
    var q, r := m / c, m % c;
    assert m == c * q + r;
    if r + (n - m) < c {
      QuotientIsUnique(n, c, q, r + (n - m));
    } else {
      assert c * (q + 1) == c * q + c;
      QuotientIsUnique(n, c, q + 1, r + (n - m) - c);
    }
  }

  lemma ProductsDiffer(a: nat, b: nat, d: nat)
    requires d > 0 && a != b
    ensures a * d != b * d
  {
    if a < b { assert b * d == a * d + (b - a) * d; } else { assert a * d == b * d + (a - b) * d; }
  }
}
