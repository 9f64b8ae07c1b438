/** Whole runs of the buddy allocator. */
module ZoneRuns {
  import opened Bits
  import opened Options
  import opened Blocks
  import opened Sequences
  import opened Zone
  import opened ZoneProofs
  import opened ZoneTheorems
  import opened ZoneInit

  datatype Op = AllocOp(order: nat) | FreeOp(page: nat, order: nat)

  /** The zone and the blocks its callers hold. */
  datatype State = State(zone: Zone, live: map<nat, nat>)

  ghost predicate Good(s: State) { Inv(s.zone, s.live) }

  /** Callers free only what they hold, with the order they asked for. */
  ghost predicate Allowed(s: State, op: Op) {
    op.FreeOp? ==> IsBlock(s.live, op.page, op.order)
  }

  ghost function Step(s: State, op: Op): (r: State)
    requires Good(s) && Allowed(s, op)
    ensures Good(r)
  {
    match op
    case AllocOp(o) =>
      AllocKeepsInv(s.zone, s.live, o);
      var (z, h) := Alloc(s.zone, o);
      if h.None? then s else State(z, s.live[h.value := o])
    case FreeOp(p, o) =>
      FreeKeepsInv(s.zone, s.live, p, o);
      State(Free(s.zone, p, o), s.live - {p})
  }

  ghost predicate AllowedRun(s: State, ops: seq<Op>)
    requires Good(s)
    decreases |ops|
  {
    ops == [] || (Allowed(s, ops[0]) && AllowedRun(Step(s, ops[0]), ops[1..]))
  }

  ghost function Run(s: State, ops: seq<Op>): (r: State)
    requires Good(s) && AllowedRun(s, ops)
    ensures Good(r)
    decreases |ops|
  {
    if ops == [] then s else Run(Step(s, ops[0]), ops[1..])
  }

  /** What a run cannot change: the managed pages, the other flags, the accounting difference. */
  ghost predicate Conserved(s: State, r: State)
    requires Good(s) && Good(r)
  {
    && |s.zone.pages| == |r.zone.pages|
    && SameCover(AllBlocks(s.zone, s.live), AllBlocks(r.zone, r.live))
    && Excess(s.zone) == Excess(r.zone)
    && s.zone.freePages - |FreeSet(s.zone)| == r.zone.freePages - |FreeSet(r.zone)|
    && SameFlags(s.zone, r.zone)
  }

  lemma StepConserves(s: State, op: Op)
    requires Good(s) && Allowed(s, op)
    ensures Conserved(s, Step(s, op))
  {
    hide Listed, Tiling, FreeMap, Placed, SameCover, SameFlags, Split, Merge, Total, Pow2, FreeSet, BlockSet;
    match op {
      case AllocOp(o) =>
        AllocCounter(s.zone, s.live, o);
        AllocKeepsInv(s.zone, s.live, o);
        AccountingIsConserved(s.zone, s.live, o, 0);
        AllocKeepsFlags(s.zone, s.live, o);
        SameCoverRefl(AllBlocks(s.zone, s.live));
        SameFlagsLength(s.zone, Alloc(s.zone, o).0);
        SameFlagsSelf(s.zone);
      case FreeOp(p, o) =>
        FreeCounter(s.zone, s.live, p, o);
        FreeKeepsInv(s.zone, s.live, p, o);
        AccountingIsConserved(s.zone, s.live, o, p);
        FreeKeepsFlags(s.zone, s.live, o, p);
    }
  }

  lemma AllocCounter(z: Zone, live: map<nat, nat>, o: nat)
    requires Inv(z, live)
    ensures Listed(z) && Placed(FreeMap(z), |z.pages|)
    ensures Alloc(z, o).0.freePages - |FreeSet(Alloc(z, o).0)| == z.freePages - |FreeSet(z)|
  {
    hide Listed, Tiling, FreeMap, Placed, Split, Pow2, FreeSet, BlockSet, Unlink;
    AllocTakesBlock(z, live, o);
    InvParts(z, live);
    var c := FirstNonEmpty(z.lists, o);
    if c < GROUPS {
      var h := z.lists[c][0];
      HeadIsBlock(z, c);
      BlockInteriorIsIdle(z, live, h, c);
      UnlinkShape(z, c, h);
      var u := Unlink(z, c, h);
      UnlinkCounter(z, c, h);
      SplitCounter(AddPages(u, 0 - Pow2(o)), h, c, o);
    }
  }

  lemma UnlinkCounter(z: Zone, k: nat, p: nat)
    requires Shaped(z) && k < GROUPS && p < |z.pages|
    ensures Unlink(z, k, p).freePages == z.freePages
  {
  }

  lemma {:induction false} SplitCounter(z: Zone, h: nat, c: nat, o: nat)
    requires Shaped(z) && o <= c < GROUPS && h + Pow2(c) <= |z.pages|
    ensures Split(z, h, c, o).freePages == z.freePages
    decreases c - o
  {
    if o == c {
    } else {
      SplitCounter(Link(z, c - 1, h + Pow2(c - 1)), h, c - 1, o);
    }
  }

  lemma FreeCounter(z: Zone, live: map<nat, nat>, p: nat, o: nat)
    requires Inv(z, live) && IsBlock(live, p, o)
    ensures o < GROUPS && p < |z.pages|
    ensures Free(z, p, o).freePages - |FreeSet(Free(z, p, o))| == z.freePages - |FreeSet(z)|
  {
    hide Listed, Tiling, FreeMap, Merge, Pow2, FreeSet, BlockSet;
    FreeReturnsBlock(z, live, p, o);
    BlockSetSize(p, o);
    MergeKeepsCounter(AddPages(z, Pow2(o)), p, o);
  }

  lemma ConservedTrans(a: State, b: State, c: State)
    requires Good(a) && Good(b) && Good(c) && Conserved(a, b) && Conserved(b, c)
    ensures Conserved(a, c)
  {
    hide SameCover, Inv, Excess;
    SameCoverTrans(AllBlocks(a.zone, a.live), AllBlocks(b.zone, b.live), AllBlocks(c.zone, c.live));
  }

  /** Safety over whole runs: from any good state, any sequence of allocations and valid frees
      keeps free and held blocks aligned, inside the zone and pairwise disjoint, keeps the free
      ones maximally coalesced, and conserves the pages they cover together. */
  lemma {:induction false} RunIsSafe(s: State, ops: seq<Op>)
    requires Good(s) && AllowedRun(s, ops)
    ensures Good(Run(s, ops)) && Conserved(s, Run(s, ops))
    decreases |ops|
  {
    hide Inv, SameCover, Step, Excess, SameFlags;
    if ops == [] {
      SameCoverRefl(AllBlocks(s.zone, s.live));
      SameFlagsSelf(s.zone);
    } else {
      StepConserves(s, ops[0]);
      RunIsSafe(Step(s, ops[0]), ops[1..]);
      ConservedTrans(s, Step(s, ops[0]), Run(s, ops));
    }
  }

  // ----- canonicity

  /** In every good state the free pages alone determine the free blocks: two good states of the
      same zone with the same free pages have, order by order, the same blocks on their lists. */
  lemma FreePagesDetermineLists(s: State, r: State, k: nat)
    requires Good(s) && Good(r) && |s.zone.pages| == |r.zone.pages| && k < GROUPS
    requires SameCover(FreeMap(s.zone), FreeMap(r.zone))
    ensures multiset(s.zone.lists[k]) == multiset(r.zone.lists[k])
    ensures s.zone.nrFree == r.zone.nrFree
  {
    InvParts(s.zone, s.live);
    InvParts(r.zone, r.live);
    Canonical(FreeMap(s.zone), FreeMap(r.zone), |s.zone.pages|);
    hide SameCover, Placed, Disjoint, Coalesced, Tiling, Inv;
    forall j: nat | j < GROUPS
      ensures multiset(s.zone.lists[j]) == multiset(r.zone.lists[j]) && s.zone.nrFree[j] == r.zone.nrFree[j]
    {
      SameListMembers(s.zone, r.zone, j);
      SameElements(s.zone.lists[j], r.zone.lists[j]);
    }
  }

  lemma SameListMembers(z: Zone, y: Zone, k: nat)
    requires Listed(z) && Listed(y) && FreeMap(z) == FreeMap(y) && k < GROUPS
    ensures forall p :: p in z.lists[k] <==> p in y.lists[k]
    ensures NoDup(z.lists[k]) && NoDup(y.lists[k])
    ensures z.nrFree[k] == |z.lists[k]| && y.nrFree[k] == |y.lists[k]|
  {
    forall p ensures p in z.lists[k] <==> p in y.lists[k] {
      if p in z.lists[k] { assert IsBlock(FreeMap(z), p, k); }
      if p in y.lists[k] { assert IsBlock(FreeMap(y), p, k); }
    }
  }

  lemma {:induction false} CountInNoDup(a: seq<nat>, x: nat)
    requires NoDup(a)
    ensures multiset(a)[x] == if x in a then 1 else 0
  {
    if a == [] {
    } else {
      CountInNoDup(a[1..], x);
      assert a == [a[0]] + a[1..];
      assert forall i :: 0 <= i < |a[1..]| ==> a[1..][i] == a[i + 1];
    }
  }

  lemma SameElements(a: seq<nat>, b: seq<nat>)
    requires NoDup(a) && NoDup(b) && forall p :: p in a <==> p in b
    ensures multiset(a) == multiset(b) && |a| == |b|
  {
    forall x: nat ensures multiset(a)[x] == multiset(b)[x] {
      CountInNoDup(a, x);
      CountInNoDup(b, x);
    }
    assert multiset(a) == multiset(b);
    assert |multiset(a)| == |multiset(b)|;
  }

  /** Once every block taken during a run has been freed, in whatever order, each list again holds
      exactly the blocks it started with, and both counters read as before. */
  lemma FreeingEverythingRestores(s: State, ops: seq<Op>, k: nat)
    requires Good(s) && AllowedRun(s, ops) && k < GROUPS
    requires s.live == map[] && Run(s, ops).live == map[]
    ensures Shaped(s.zone) && Shaped(Run(s, ops).zone)
    ensures multiset(Run(s, ops).zone.lists[k]) == multiset(s.zone.lists[k])
    ensures Run(s, ops).zone.nrFree == s.zone.nrFree
    ensures Run(s, ops).zone.freePages == s.zone.freePages
    ensures FreeMap(Run(s, ops).zone) == FreeMap(s.zone)
  {
    hide *;
    RunIsSafe(s, ops);
    NothingHeldRestores(s, Run(s, ops), k);
  }

  lemma NothingHeldCover(z: Zone)
    ensures AllBlocks(z, map[]) == FreeMap(z)
  {
  }

  lemma NothingHeldRestores(s: State, r: State, k: nat)
    requires Good(s) && Good(r) && Conserved(s, r) && k < GROUPS
    requires s.live == map[] && r.live == map[]
    ensures Shaped(s.zone) && Shaped(r.zone)
    ensures multiset(r.zone.lists[k]) == multiset(s.zone.lists[k])
    ensures r.zone.nrFree == s.zone.nrFree && r.zone.freePages == s.zone.freePages
    ensures FreeMap(r.zone) == FreeMap(s.zone)
  {
    hide SameCover, Total, SameFlags, Tiling, Listed, FreeMap, AllBlocks;
    NothingHeldCover(s.zone);
    NothingHeldCover(r.zone);
    FreePagesDetermineLists(s, r, k);
    InvParts(s.zone, s.live);
    InvParts(r.zone, r.live);
    Canonical(FreeMap(s.zone), FreeMap(r.zone), |s.zone.pages|);
  }

  // ----- properly nested runs

  /** A nested run: allocate, run `inner`, free that block, then go on with `rest`. */
  datatype Nest = Done | Pair(order: nat, inner: Nest, rest: Nest)

  ghost function RunNest(s: State, nest: Nest): (z: Zone)
    requires Good(s)
    ensures z == s.zone
    decreases nest
  {
    match nest
    case Done => s.zone
    case Pair(o, inner, rest) =>
      AllocKeepsInv(s.zone, s.live, o);
      FreeUndoesAlloc(s.zone, s.live, o);
      var (z, h) := Alloc(s.zone, o);
      if h.None? then RunNest(s, rest)
      else
        var z' := RunNest(State(z, s.live[h.value := o]), inner);
        RunNest(State(Free(z', h.value, o), s.live), rest)
  }

  // ----- the self-test

  /** `test_buddy`: allocate orders 9 and 4, free 4 and 9. `None` when an allocation fails, because the
      code then frees a NULL page. */
  ghost function SelfTest(z: Zone, live: map<nat, nat>): Option<Zone>
    requires Inv(z, live)
  {
    AllocKeepsInv(z, live, 9);
    var (z1, p1) := Alloc(z, 9);
    if p1.None? then None
    else
      AllocKeepsInv(z1, live[p1.value := 9], 4);
      var (z2, p2) := Alloc(z1, 4);
      if p2.None? then None
      else
        FreeUndoesAlloc(z1, live[p1.value := 9], 4);
        Some(Free(Free(z2, p2.value, 4), p1.value, 9))
  }

  /** The self-test restores the zone exactly when a run of order 9 is free and, that taken, one of
      order 4. */
  lemma SelfTestRestoresExactly(z: Zone, live: map<nat, nat>)
    requires Inv(z, live)
    ensures Listed(z) && Placed(FreeMap(z), |z.pages|)
    ensures SelfTest(z, live) == Some(z) <==> HasFreeRun(z, 9) && HasFreeRun(Alloc(z, 9).0, 4)
  {
    hide Inv, Listed, Placed, FreeMap, Alloc, Free, HasFreeRun;
    AllocKeepsInv(z, live, 9);
    InvParts(z, live);
    AllocIsComplete(z, live, 9);
    FreeUndoesAlloc(z, live, 9);
    if HasFreeRun(z, 9) {
      var (z1, p1) := Alloc(z, 9);
      AllocIsComplete(z1, live[p1.value := 9], 4);
      AllocKeepsInv(z1, live[p1.value := 9], 4);
      FreeUndoesAlloc(z1, live[p1.value := 9], 4);
    }
  }

  // ----- from initialisation on

  /** The state after `init_zone`, with nothing handed out. */
  ghost function Booted(z: Zone): (s: State)
    requires Fresh(z)
    ensures Good(s)
  {
    InitTiles(z);
    State(Scan(z, 0), map[])
  }

  /** Every state reached from initialisation: the allocator's invariant holds; a page is free or
      held exactly when it was neither taken nor reserved, and never both; no other flag changed;
      and `free_pages` is ahead of the number of free pages by what it was before initialisation. */
  lemma ReachableStates(z: Zone, ops: seq<Op>, q: nat)
    requires Fresh(z) && AllowedRun(Booted(z), ops)
    ensures var r := Run(Booted(z), ops);
            && Good(r)
            && (q in FreeSet(r.zone) || Covered(r.live, q) <==>
                q < |z.pages| && !z.pages[q].flags.taken && !z.pages[q].flags.reserved)
            && !(q in FreeSet(r.zone) && Covered(r.live, q))
            && r.zone.freePages == z.freePages + |FreeSet(r.zone)|
            && SameFlags(z, r.zone)
  {
    hide Inv, Scan, Run, AllowedRun, FreeSet, Usable, SameFlags, Covered, SameCover, Excess;
    InitTiles(z);
    var s := Booted(z);
    RunIsSafe(s, ops);
    var r := Run(s, ops);
    SameFlagsTrans(z, s.zone, r.zone);
    PageIsFreeOrHeld(r, q);
    PageIsFreeOrHeld(s, q);
    SameCoverAt(AllBlocks(s.zone, s.live), AllBlocks(r.zone, r.live), q);
    NothingCovered(q);
  }

  lemma NothingCovered(q: nat)
    ensures !Covered(map[], q)
  {
  }

  lemma SameCoverAt(a: map<nat, nat>, b: map<nat, nat>, q: nat)
    requires SameCover(a, b)
    ensures Covered(a, q) <==> Covered(b, q)
  {
  }

  lemma PageIsFreeOrHeld(s: State, q: nat)
    requires Good(s)
    ensures Covered(AllBlocks(s.zone, s.live), q) <==> q in FreeSet(s.zone) || Covered(s.live, q)
    ensures !(q in FreeSet(s.zone) && Covered(s.live, q))
  {
    hide Listed, FreeMap, Placed, Disjoint, Coalesced, Covered;
    CoverSplits(FreeMap(s.zone), s.live, |s.zone.pages|, q);
    CoveredInZone(s.zone, s.live, q);
    if Covered(s.live, q) { LiveCovered(FreeMap(s.zone), s.live, q); }
  }

  lemma LiveCovered(f: map<nat, nat>, live: map<nat, nat>, q: nat)
    requires Covered(live, q)
    ensures Covered(f + live, q)
  {
    var p :| p in live && InBlock(q, p, live[p]);
    var u := f + live;
    assert p in u && u[p] == live[p];
  }

  lemma CoveredInZone(z: Zone, live: map<nat, nat>, q: nat)
    requires Inv(z, live)
    ensures Covered(FreeMap(z), q) ==> q < |z.pages|
  {
    hide Listed;
    InvParts(z, live);
    if Covered(FreeMap(z), q) {
      var p :| p in FreeMap(z) && InBlock(q, p, FreeMap(z)[p]);
    }
  }
}
