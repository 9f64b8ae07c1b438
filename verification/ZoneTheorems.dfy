/** What the two buddy operations mean to their callers. */
module ZoneTheorems {
  import opened Bits
  import opened Options
  import opened Blocks
  import opened PageFlags
  import opened Sequences
  import opened Zone
  import opened ZoneProofs

  // ----- completeness

  /** There is an aligned run of `2^o` free pages. */
  ghost predicate HasFreeRun(z: Zone, o: nat) {
    exists p: nat :: Aligned(p, o) && RunCovered(FreeMap(z), p, o)
  }

  lemma FoundBlockHoldsRun(z: Zone, live: map<nat, nat>, c: nat, o: nat)
    requires Inv(z, live) && o <= c < GROUPS && z.lists[c] != []
    ensures HasFreeRun(z, o)
  {
    var h := z.lists[c][0];
    InvParts(z, live);
    HeadIsBlock(z, c);
    hide Listed, FreeMap, Inv;
    AlignedDown(h, o, c);
    Pow2Monotone(o, c);
    BlockIsCovered(FreeMap(z), h, h, o);
  }

  lemma RunGivesList(z: Zone, live: map<nat, nat>, o: nat, p: nat)
    requires Inv(z, live) && o < GROUPS && Aligned(p, o) && RunCovered(FreeMap(z), p, o)
    ensures exists c :: o <= c < GROUPS && z.lists[c] != []
  {
    InvParts(z, live);
    hide RunCovered, Placed, Disjoint, Coalesced, Aligned, Tiling;
    var h := CoveringBlock(FreeMap(z), |z.pages|, p, o);
    assert h in z.lists[FreeMap(z)[h]];
  }

  /** Allocation fails exactly when no aligned run of `2^o` pages is free. */
  lemma AllocIsComplete(z: Zone, live: map<nat, nat>, o: nat)
    requires Inv(z, live)
    ensures Listed(z) && Placed(FreeMap(z), |z.pages|)
    ensures o < GROUPS ==> (Alloc(z, o).1 == None <==> !HasFreeRun(z, o))
    ensures o >= GROUPS ==> Alloc(z, o).1 == None
  {
    hide Listed, Inv, Placed, Disjoint, Coalesced, Aligned, RunCovered, FreeMap;
    InvParts(z, live);
    var c := FirstNonEmpty(z.lists, o);
    if c < GROUPS {
      FoundBlockHoldsRun(z, live, c, o);
    } else if o < GROUPS && HasFreeRun(z, o) {
      var p: nat :| Aligned(p, o) && RunCovered(FreeMap(z), p, o);
      RunGivesList(z, live, o, p);
      assert false;
    }
  }

  // ----- the free pages

  ghost function FreeSet(z: Zone): set<nat> {
    set q: nat | q < |z.pages| && Covered(FreeMap(z), q)
  }

  function BlockSet(p: nat, k: nat): set<nat> {
    set q: nat | q < p + Pow2(k) && InBlock(q, p, k)
  }

  lemma CoverSplits(f: map<nat, nat>, live: map<nat, nat>, n: nat, q: nat)
    requires Tiling(f, live, n)
    ensures Covered(f, q) <==> Covered(f + live, q) && !Covered(live, q)
  {
    var u := f + live;
    if Covered(f, q) {
      var p :| p in f && InBlock(q, p, f[p]);
      assert p in u && u[p] == f[p];
      forall r | r in live ensures !InBlock(q, r, live[r]) {
        assert r in u && u[r] == live[r];
      }
    }
    if Covered(u, q) && !Covered(live, q) {
      var p :| p in u && InBlock(q, p, u[p]);
    }
  }

  lemma CoverWithBlock(live: map<nat, nat>, h: nat, o: nat, q: nat)
    requires h !in live
    ensures Covered(live[h := o], q) <==> Covered(live, q) || InBlock(q, h, o)
  {
    var m := live[h := o];
    if Covered(m, q) {
      var p :| p in m && InBlock(q, p, m[p]);
    }
    if Covered(live, q) {
      var p :| p in live && InBlock(q, p, live[p]);
      assert p in m && m[p] == live[p];
    }
    if InBlock(q, h, o) { assert h in m && InBlock(q, h, m[h]); }
  }

  /** Moving one block between `f` and the caller changes the free pages by exactly that block. */
  lemma FreeSetMoves(z: Zone, live: map<nat, nat>, y: Zone, h: nat, o: nat)
    requires h !in live && |z.pages| == |y.pages|
    requires Inv(z, live) && Inv(y, live[h := o])
    requires SameCover(AllBlocks(z, live), AllBlocks(y, live[h := o]))
    ensures FreeSet(y) == FreeSet(z) - BlockSet(h, o)
    ensures BlockSet(h, o) <= FreeSet(z)
  {
    hide Listed, Placed, Disjoint, Coalesced, FreeMap;
    var n := |z.pages|;
    assert forall q: nat :: q in BlockSet(h, o) ==> q < n by {
      TilingParts(FreeMap(y), live[h := o], n);
      assert h + Pow2(live[h := o][h]) <= n by { PlacedAt(live[h := o], n, h); }
    }
    hide Tiling;
    forall q: nat | q < n ensures q in FreeSet(y) <==> q in FreeSet(z) && q !in BlockSet(h, o)
                          ensures q in BlockSet(h, o) ==> q in FreeSet(z) {
      assert Covered(AllBlocks(z, live), q) <==> Covered(AllBlocks(y, live[h := o]), q);
      hide SameCover, Covered;
      CoverSplits(FreeMap(z), live, n, q);
      CoverSplits(FreeMap(y), live[h := o], n, q);
      CoverWithBlock(live, h, o, q);
      if InBlock(q, h, o) { BlockIsNotElsewhere(FreeMap(y), live, n, h, o, q); }
    }
  }

  lemma PlacedAt(b: map<nat, nat>, n: nat, p: nat)
    requires Placed(b, n) && p in b
    ensures p + Pow2(b[p]) <= n
  {
  }

  lemma BlockIsNotElsewhere(f: map<nat, nat>, live: map<nat, nat>, n: nat, h: nat, o: nat, q: nat)
    requires h !in live && Tiling(f, live[h := o], n) && InBlock(q, h, o)
    ensures !Covered(live, q) && Covered(f + live[h := o], q)
  {
    var u := f + live[h := o];
    assert h in u && u[h] == o;
    forall r | r in live ensures !InBlock(q, r, live[r]) {
      assert r in u && u[r] == live[r];
    }
  }

  lemma {:induction false} BlockSetSize(p: nat, k: nat)
    ensures |BlockSet(p, k)| == Pow2(k)
  {
    IntervalSize(p, p + Pow2(k));
    assert BlockSet(p, k) == Interval(p, p + Pow2(k));
  }

  predicate Within(q: nat, lo: nat, hi: nat) { lo <= q < hi }

  function Interval(lo: nat, hi: nat): set<nat> { set q: nat | q < hi && Within(q, lo, hi) }

  lemma {:induction false} IntervalSize(lo: nat, hi: nat)
    requires lo <= hi
    ensures |Interval(lo, hi)| == hi - lo
    decreases hi - lo
  {
    if lo >= hi {
    } else {
      IntervalSize(lo, hi - 1);
      assert Interval(lo, hi) == Interval(lo, hi - 1) + {hi - 1};
    }
  }

  /** A successful allocation hands out `2^o` pages that were free and takes no others. */
  lemma AllocTakesBlock(z: Zone, live: map<nat, nat>, o: nat)
    requires Inv(z, live)
    ensures Listed(z) && Placed(FreeMap(z), |z.pages|)
    ensures Alloc(z, o).1.Some? ==>
              var (y, h) := (Alloc(z, o).0, Alloc(z, o).1.value);
              && Aligned(h, o) && |BlockSet(h, o)| == Pow2(o)
              && BlockSet(h, o) <= FreeSet(z) && FreeSet(y) == FreeSet(z) - BlockSet(h, o)
  {
    hide Listed, Inv, Placed, Disjoint, Coalesced, Aligned, FreeMap, Split, FreeSet;
    InvParts(z, live);
    AllocKeepsInv(z, live, o);
    if Alloc(z, o).1.Some? {
      var h := Alloc(z, o).1.value;
      var y := Alloc(z, o).0;
      FreeSetMoves(z, live, y, h, o);
      BlockSetSize(h, o);
      InvParts(y, live[h := o]);
      PlacedAligned(live[h := o], |y.pages|, h);
    }
  }

  lemma PlacedAligned(b: map<nat, nat>, n: nat, p: nat)
    requires Placed(b, n) && p in b
    ensures Aligned(p, b[p])
  {
    hide Aligned;
  }

  /** Freeing gives back exactly the block. */
  lemma FreeReturnsBlock(z: Zone, live: map<nat, nat>, p: nat, o: nat)
    requires Inv(z, live) && IsBlock(live, p, o)
    ensures o < GROUPS && p < |z.pages|
    ensures FreeSet(Free(z, p, o)) == FreeSet(z) + BlockSet(p, o)
    ensures FreeSet(z) !! BlockSet(p, o)
  {
    hide Listed, Inv, Placed, Disjoint, Coalesced, Aligned, FreeMap, Merge, FreeSet, SameCover;
    InvParts(z, live);
    FreeKeepsInv(z, live, p, o);
    var y := Free(z, p, o);
    var rest: map<nat, nat> := live - {p};
    assert rest[p := o] == live;
    SameCoverSym(AllBlocks(z, live), AllBlocks(y, rest));
    FreeSetMoves(y, rest, z, p, o);
  }

  // ----- allocate then free

  predicate Idle(z: Zone, q: nat) {
    q < |z.pages| ==> !z.pages[q].flags.priv && z.pages[q].order == 0 && LowClear(z.pages[q].flags)
  }

  lemma UnlinkUndoesLink(z: Zone, k: nat, p: nat)
    requires Shaped(z) && k < GROUPS && p < |z.pages| && Idle(z, p)
    ensures Unlink(Link(z, k, p), k, p) == z
  {
    var y := Link(z, k, p);
    assert Remove(y.lists[k], p) == z.lists[k];
    var x := Unlink(y, k, p);
    assert x.pages == z.pages && x.lists == z.lists && x.nrFree == z.nrFree;
  }

  lemma LinkUndoesUnlink(z: Zone, k: nat, p: nat)
    requires Listed(z) && k < GROUPS && z.lists[k] != [] && z.lists[k][0] == p
    ensures p < |z.pages| && Link(Unlink(z, k, p), k, p) == z
  {
    HeadIsBlock(z, k);
    var x := Link(Unlink(z, k, p), k, p);
    assert x.lists[k] == z.lists[k];
    assert x.pages[p] == z.pages[p];
    assert x.pages == z.pages && x.lists == z.lists && x.nrFree == z.nrFree;
  }

  lemma MergeOneUp(z: Zone, h: nat, k: nat)
    requires Shaped(z) && k < GROUPS - 1 && h + Pow2(k) < |z.pages| && Aligned(h, k + 1)
    requires Idle(z, h + Pow2(k))
    ensures Merge(Link(z, k, h + Pow2(k)), h, k) == Merge(z, h, k + 1)
  {
    var b := h + Pow2(k);
    AlignedStep(h, k);
    BuddyIsOtherHalf(h, k);
    AndIsCommonBase(h, k);
    UnlinkUndoesLink(z, k, b);
    hide Xor, And, Aligned, Pow2, Unlink;
    assert BuddyIsFree(Link(z, k, b), b, k);
  }

  /** Merging from below retraces a split. */
  lemma {:induction false} MergeUndoesSplit(z: Zone, h: nat, c: nat, o: nat)
    requires Shaped(z) && o <= c < GROUPS && h + Pow2(c) <= |z.pages| && Aligned(h, c)
    requires forall q :: h < q < h + Pow2(c) ==> Idle(z, q)
    ensures Merge(Split(z, h, c, o), h, o) == Merge(z, h, c)
    decreases c - o
  {
    hide Merge, Aligned;
    if o == c {
    } else {
      var y := Link(z, c - 1, h + Pow2(c - 1));
      AlignedStep(h, c - 1);
      assert Idle(z, h + Pow2(c - 1));
      MergeOneUp(z, h, c - 1);
      forall q | h < q < h + Pow2(c - 1) ensures Idle(y, q) { assert Idle(z, q); }
      MergeUndoesSplit(y, h, c - 1, o);
    }
  }

  lemma {:induction false} SplitAddPages(z: Zone, h: nat, c: nat, o: nat, d: int)
    requires Shaped(z) && o <= c < GROUPS && h + Pow2(c) <= |z.pages|
    ensures Split(AddPages(z, d), h, c, o) == AddPages(Split(z, h, c, o), d)
    decreases c - o
  {
    if o == c {
    } else {
      SplitAddPages(Link(z, c - 1, h + Pow2(c - 1)), h, c - 1, o, d);
      assert Link(AddPages(z, d), c - 1, h + Pow2(c - 1)) == AddPages(Link(z, c - 1, h + Pow2(c - 1)), d);
    }
  }

  lemma BlockInteriorIsIdle(z: Zone, live: map<nat, nat>, h: nat, c: nat)
    requires Inv(z, live) && IsBlock(FreeMap(z), h, c)
    ensures c < GROUPS && h + Pow2(c) <= |z.pages| && Aligned(h, c)
    ensures forall q :: h < q < h + Pow2(c) ==> Idle(Unlink(z, c, h), q)
  {
    InvParts(z, live);
    forall q | h < q < h + Pow2(c) ensures Idle(Unlink(z, c, h), q) {
      assert q !in FreeMap(z);
    }
  }

  lemma BuddyOfHeadIsNotFree(z: Zone, live: map<nat, nat>, h: nat, c: nat)
    requires Inv(z, live) && IsBlock(FreeMap(z), h, c)
    ensures c < GROUPS && h < |z.pages|
    ensures c < GROUPS - 1 ==> !BuddyIsFree(Unlink(z, c, h), Xor(h, Pow2(c)), c)
  {
    hide Listed, Tiling, Xor, Pow2, Aligned;
    InvParts(z, live);
    UnlinkKeepsListed(z, c, h);
    if c < MAX_ORDER {
      CoalescedMeansNoFreeBuddy(FreeMap(z), |z.pages|, h);
    }
  }

  /** Freeing a block just allocated restores the whole zone: every list in order, every
      counter, every page descriptor. */
  lemma FreeUndoesAlloc(z: Zone, live: map<nat, nat>, o: nat)
    requires Inv(z, live)
    ensures Listed(z) && Placed(FreeMap(z), |z.pages|)
    ensures Alloc(z, o).1.Some? ==>
              var (y, h) := (Alloc(z, o).0, Alloc(z, o).1.value);
              Shaped(y) && o < GROUPS && h < |y.pages| && Free(y, h, o) == z
  {
    hide Listed, Tiling, Pow2, Aligned, FreeMap, Placed, Idle, Split, Merge, Xor;
    InvParts(z, live);
    var c := FirstNonEmpty(z.lists, o);
    if c < GROUPS {
      var h := z.lists[c][0];
      HeadIsBlock(z, c);
      BlockInteriorIsIdle(z, live, h, c);
      var u := Unlink(z, c, h);
      RestoreBySplit(u, h, c, o);
      BuddyOfHeadIsNotFree(z, live, h, c);
      MergeStopsAt(u, h, c);
      LinkUndoesUnlink(z, c, h);
    }
  }

  lemma MergeStopsAt(u: Zone, h: nat, c: nat)
    requires Shaped(u) && c < GROUPS && h < |u.pages|
    requires c < GROUPS - 1 ==> !BuddyIsFree(u, Xor(h, Pow2(c)), c)
    ensures Merge(u, h, c) == Link(u, c, h)
  {
  }

  lemma RestoreBySplit(u: Zone, h: nat, c: nat, o: nat)
    requires Shaped(u) && o <= c < GROUPS && h + Pow2(c) <= |u.pages| && Aligned(h, c)
    requires forall q :: h < q < h + Pow2(c) ==> Idle(u, q)
    ensures var y := Split(AddPages(u, 0 - Pow2(o)), h, c, o);
            Free(y, h, o) == Merge(u, h, c)
  {
    hide Merge, Split, Aligned, Idle;
    SplitAddPages(u, h, c, o, 0 - Pow2(o));
    var x := Split(u, h, c, o);
    assert AddPages(AddPages(x, 0 - Pow2(o)), Pow2(o)) == x;
    MergeUndoesSplit(u, h, c, o);
  }

  // ----- page accounting

  /** `sum over k < m of nr_free[k] * 2^k` */
  function Total(nr: seq<int>, m: nat): int
    requires m <= |nr|
  {
    if m == 0 then 0 else Total(nr, m - 1) + nr[m - 1] * Pow2(m - 1)
  }

  lemma {:induction false} TotalUpdate(nr: seq<int>, i: nat, d: int, m: nat)
    requires i < |nr| && m <= |nr|
    ensures Total(nr[i := nr[i] + d], m) == Total(nr, m) + (if i < m then d * Pow2(i) else 0)
  {
    if m == 0 {
    } else {
      TotalUpdate(nr, i, d, m - 1);
    }
  }

  /** The counter `free_pages` minus the pages the free lists account for. */
  function Excess(z: Zone): int
    requires Shaped(z)
  {
    z.freePages - Total(z.nrFree, GROUPS)
  }

  lemma {:induction false} SplitTotal(z: Zone, h: nat, c: nat, o: nat)
    requires Shaped(z) && o <= c < GROUPS && h + Pow2(c) <= |z.pages|
    ensures Excess(Split(z, h, c, o)) == Excess(z) - Pow2(c) + Pow2(o)
    decreases c - o
  {
    if o == c {
    } else {
      TotalUpdate(z.nrFree, c - 1, 1, GROUPS);
      SplitTotal(Link(z, c - 1, h + Pow2(c - 1)), h, c - 1, o);
    }
  }

  lemma {:induction false} MergeTotal(z: Zone, p: nat, k: nat)
    requires Shaped(z) && k < GROUPS && p < |z.pages|
    ensures Excess(Merge(z, p, k)) == Excess(z) - Pow2(k)
    decreases GROUPS - k
  {
    hide Xor, And, Total;
    var b := Xor(p, Pow2(k));
    if k < GROUPS - 1 && BuddyIsFree(z, b, k) {
      TotalUpdate(z.nrFree, k, -1, GROUPS);
      AndBelow(p, b);
      MergeTotal(Unlink(z, k, b), And(p, b), k + 1);
    } else {
      TotalUpdate(z.nrFree, k, 1, GROUPS);
    }
  }

  /** Neither operation changes the difference between `free_pages` and the lists' total. */
  lemma AccountingIsConserved(z: Zone, live: map<nat, nat>, o: nat, p: nat)
    requires Inv(z, live)
    ensures Listed(z) && Placed(FreeMap(z), |z.pages|)
    ensures Shaped(Alloc(z, o).0) && Excess(Alloc(z, o).0) == Excess(z)
    ensures o < GROUPS && p < |z.pages| ==> Excess(Free(z, p, o)) == Excess(z)
  {
    hide Listed, Tiling, Aligned, FreeMap, Placed, Split, Merge, Total, Pow2;
    InvParts(z, live);
    var c := FirstNonEmpty(z.lists, o);
    if c < GROUPS {
      var h := z.lists[c][0];
      HeadIsBlock(z, c);
      BlockInteriorIsIdle(z, live, h, c);
      TotalUpdate(z.nrFree, c, -1, GROUPS);
      SplitTotal(AddPages(Unlink(z, c, h), 0 - Pow2(o)), h, c, o);
    }
    if o < GROUPS && p < |z.pages| {
      MergeTotal(AddPages(z, Pow2(o)), p, o);
    }
  }

  // ----- the other page flags

  function WithoutPrivate(f: Flags): Flags { f.(priv := false) }

  /** Only the private bit and the order field of page descriptors differ. */
  ghost predicate SameFlags(z: Zone, y: Zone) {
    && |z.pages| == |y.pages|
    && forall q :: 0 <= q < |z.pages| ==> WithoutPrivate(y.pages[q].flags) == WithoutPrivate(z.pages[q].flags)
  }

  ghost predicate AllLowClear(z: Zone) {
    forall q :: 0 <= q < |z.pages| ==> LowClear(z.pages[q].flags)
  }

  lemma {:induction false} SplitKeepsFlags(z: Zone, h: nat, c: nat, o: nat)
    requires Shaped(z) && o <= c < GROUPS && h + Pow2(c) <= |z.pages|
    ensures SameFlags(z, Split(z, h, c, o))
    decreases c - o
  {
    hide SameFlags, Link;
    if o < c {
      var y := Link(z, c - 1, h + Pow2(c - 1));
      LinkKeepsFlags(z, c - 1, h + Pow2(c - 1));
      SplitKeepsFlags(y, h, c - 1, o);
      SameFlagsTrans(z, y, Split(z, h, c, o));
    } else {
      SameFlagsSelf(z);
    }
  }

  lemma {:induction false} MergeKeepsFlags(z: Zone, p: nat, k: nat)
    requires Shaped(z) && k < GROUPS && p < |z.pages| && AllLowClear(z)
    ensures SameFlags(z, Merge(z, p, k))
    decreases GROUPS - k
  {
    hide Xor, And;
    var b := Xor(p, Pow2(k));
    if k < GROUPS - 1 && BuddyIsFree(z, b, k) {
      AndBelow(p, b);
      MergeKeepsFlags(Unlink(z, k, b), And(p, b), k + 1);
    } else {
    }
  }

  lemma LinkKeepsFlags(z: Zone, k: nat, p: nat)
    requires Shaped(z) && k < GROUPS && p < |z.pages|
    ensures Shaped(Link(z, k, p)) && |Link(z, k, p).pages| == |z.pages| && SameFlags(z, Link(z, k, p))
  {
  }

  lemma SameFlagsSelf(z: Zone)
    ensures SameFlags(z, z)
  {
  }

  lemma UnlinkKeepsFlags(z: Zone, k: nat, p: nat, d: int)
    requires Shaped(z) && k < GROUPS && p < |z.pages| && AllLowClear(z)
    ensures SameFlags(z, AddPages(Unlink(z, k, p), d))
  {
  }

  lemma SameFlagsTrans(x: Zone, y: Zone, z: Zone)
    requires SameFlags(x, y) && SameFlags(y, z)
    ensures SameFlags(x, z)
  {
  }

  /** Allocation changes no flag but the private bit, on any page. */
  lemma AllocKeepsFlags(z: Zone, live: map<nat, nat>, o: nat)
    requires Inv(z, live)
    ensures Listed(z) && Placed(FreeMap(z), |z.pages|)
    ensures SameFlags(z, Alloc(z, o).0)
  {
    assert AllLowClear(z);
    hide Tiling, Aligned, FreeMap, Placed, Split, Pow2, Listed, AllLowClear, Unlink;
    InvParts(z, live);
    var c := FirstNonEmpty(z.lists, o);
    if c < GROUPS {
      hide SameFlags;
      var h := z.lists[c][0];
      HeadIsBlock(z, c);
      BlockInteriorIsIdle(z, live, h, c);
      UnlinkKeepsFlags(z, c, h, 0 - Pow2(o));
      var y := AddPages(Unlink(z, c, h), 0 - Pow2(o));
      UnlinkShape(z, c, h);
      SplitKeepsFlags(y, h, c, o);
      SameFlagsTrans(z, y, Split(y, h, c, o));
    }
  }

  lemma UnlinkShape(z: Zone, k: nat, p: nat)
    requires Shaped(z) && k < GROUPS && p < |z.pages|
    ensures Shaped(Unlink(z, k, p)) && |Unlink(z, k, p).pages| == |z.pages|
  {
  }

  /** Freeing changes no flag but the private bit, on any page. */
  lemma FreeKeepsFlags(z: Zone, live: map<nat, nat>, o: nat, p: nat)
    requires Inv(z, live) && o < GROUPS && p < |z.pages|
    ensures SameFlags(z, Free(z, p, o))
  {
    MergeKeepsFlags(AddPages(z, Pow2(o)), p, o);
  }
}
