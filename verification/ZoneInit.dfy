/** Zone initialisation: the scan for free runs and the greedy split of each run. */
module ZoneInit {
  import opened Bits
  import opened Blocks
  import opened PageFlags
  import opened Zone
  import opened ZoneTheorems

  // ----- the operations

  /** `__builtin_ctz` */
  function Ctz(c: nat): nat
    requires c > 0
  {
    if c % 2 == 1 then 0 else 1 + Ctz(c / 2)
  }

  /** The shift loop that finds the order of the remaining size. */
  function Log2(r: nat): nat
    requires r > 0
  {
    if r == 1 then 0 else 1 + Log2(r / 2)
  }

  function Min(a: nat, b: nat): nat { if a < b then a else b }

  /** The order chosen at `cur` with `remaining` pages to go. */
  function BlockOrder(cur: nat, remaining: nat): nat
    requires remaining > 0
  {
    var alignment := if cur != 0 then Ctz(cur) else GROUPS;
    var order := Min(alignment, Log2(remaining));
    if order >= GROUPS then GROUPS - 1 else order
  }

  lemma {:induction false} CtzIsAlignment(c: nat, k: nat)
    requires c > 0
    ensures Aligned(c, k) <==> k <= Ctz(c)
  {
    if c % 2 == 0 && k > 0 {
      CtzIsAlignment(c / 2, k - 1);
    } else {
    }
  }

  lemma {:induction false} AlignedZero(k: nat)
    ensures Aligned(0, k)
  {
    if k == 0 {
    } else {
      AlignedZero(k - 1);
    }
  }

  lemma {:induction false} Log2IsSize(r: nat, k: nat)
    requires r > 0
    ensures Pow2(k) <= r <==> k <= Log2(r)
  {
    if k > 0 && r > 1 {
      Log2IsSize(r / 2, k - 1);
    } else {
    }
  }

  /** The chosen order is the largest one up to ten that is aligned and fits. */
  lemma BlockOrderIsLargest(cur: nat, remaining: nat, k: nat)
    requires remaining > 0 && k < GROUPS
    ensures BlockOrder(cur, remaining) < GROUPS
    ensures Aligned(cur, k) && Pow2(k) <= remaining <==> k <= BlockOrder(cur, remaining)
  {
    hide Ctz, Log2, Aligned, Pow2;
    Log2IsSize(remaining, k);
    if cur == 0 { AlignedZero(k); } else { CtzIsAlignment(cur, k); }
  }

  /** `add_free_region_to_buddy` on the half-open run `[cur, stop)`. */
  function Region(z: Zone, cur: nat, stop: nat): (r: Zone)
    requires Shaped(z) && stop <= |z.pages|
    ensures Shaped(r) && |r.pages| == |z.pages|
    decreases stop - cur
  {
    if cur >= stop then z
    else
      var m := BlockOrder(cur, stop - cur);
      Region(Free(z, cur, m), cur + Pow2(m), stop)
  }

  predicate Blocked(z: Zone, i: nat)
    requires i < |z.pages|
  {
    z.pages[i].flags.taken || z.pages[i].flags.reserved
  }

  /** The end of the free run that starts at `i`. */
  function RunEnd(z: Zone, i: nat): (j: nat)
    requires i <= |z.pages|
    ensures i <= j <= |z.pages|
    ensures forall q :: i <= q < j ==> !Blocked(z, q)
    ensures j < |z.pages| ==> Blocked(z, j)
    decreases |z.pages| - i
  {
    if i == |z.pages| || Blocked(z, i) then i else RunEnd(z, i + 1)
  }

  /** The scan of `init_zone` from page `i`, which is not inside a run already begun. */
  function Scan(z: Zone, i: nat): (r: Zone)
    requires Shaped(z) && i <= |z.pages|
    ensures Shaped(r) && |r.pages| == |z.pages|
    decreases |z.pages| - i
  {
    if i == |z.pages| then z
    else if Blocked(z, i) then Scan(z, i + 1)
    else Scan(Region(z, i, RunEnd(z, i)), RunEnd(z, i))
  }

  // ----- maximal runs of a page set

  ghost predicate RunIn(fs: set<nat>, p: nat, k: nat) {
    forall q: nat :: InBlock(q, p, k) ==> q in fs
  }

  /** The aligned run lies in `fs` and the aligned run of twice the size around it does not. */
  ghost predicate MaxRun(fs: set<nat>, p: nat, k: nat) {
    RunIn(fs, p, k) && (k < MAX_ORDER ==> !RunIn(fs, Parent(p, k), k + 1))
  }

  ghost predicate AllMaximal(f: map<nat, nat>, fs: set<nat>) {
    forall p :: p in f ==> MaxRun(fs, p, f[p])
  }

  lemma RunOfHalves(fs: set<nat>, h: nat, k: nat)
    requires RunIn(fs, h, k) && RunIn(fs, h + Pow2(k), k)
    ensures RunIn(fs, h, k + 1)
  {
    var m := h + Pow2(k);
    assert forall q :: InBlock(q, h, k + 1) ==> InBlock(q, h, k) || InBlock(q, m, k);
  }

  /** The buddy of a maximal run is not itself among the maximal runs at the same order. */
  lemma BuddyOfMaximalRun(f: map<nat, nat>, fs: set<nat>, p: nat, k: nat)
    requires AllMaximal(f, fs) && MaxRun(fs, p, k) && Aligned(p, k) && k < MAX_ORDER
    ensures !IsBlock(f, Xor(p, Pow2(k)), k)
  {
    hide RunIn, Aligned, Xor, And;
    BuddyArithmetic(p, k);
    if IsBlock(f, Xor(p, Pow2(k)), k) {
      RunOfHalves(fs, Parent(p, k), k);
    }
  }

  lemma MaximalIsCoalesced(f: map<nat, nat>, fs: set<nat>, n: nat)
    requires AllMaximal(f, fs) && Placed(f, n)
    ensures Coalesced(f)
  {
    hide MaxRun;
    forall p | p in f && f[p] < MAX_ORDER && Aligned(p, f[p] + 1)
      ensures !IsBlock(f, p + Pow2(f[p]), f[p])
    {
      BuddyOfMaximalRun(f, fs, p, f[p]);
      BuddyIsOtherHalf(p, f[p]);
    }
  }

  // ----- the greedy choice

  /** `[start, stop)` is a maximal run of consecutive pages of `fs`. */
  ghost predicate FreeRun(fs: set<nat>, start: nat, stop: nat) {
    && (forall q: nat :: start <= q < stop ==> q in fs)
    && (start > 0 ==> start - 1 !in fs)
    && stop !in fs
  }

  /** No aligned run inside `[start, stop)` that begins before `cur` reaches beyond it. */
  ghost predicate NoStraddle(start: nat, cur: nat, stop: nat) {
    forall p: nat, k: nat :: k <= MAX_ORDER && Aligned(p, k) && start <= p < cur && p + Pow2(k) <= stop
                             ==> p + Pow2(k) <= cur
  }

  lemma ParentStaysInRun(fs: set<nat>, start: nat, cur: nat, stop: nat, h: nat, k: nat)
    requires FreeRun(fs, start, stop) && start <= cur < stop
    requires RunIn(fs, h, k) && InBlock(cur, h, k)
    ensures start <= h && h + Pow2(k) <= stop
  {
    assert h < start ==> InBlock(start - 1, h, k);
    assert stop < h + Pow2(k) ==> InBlock(stop, h, k);
  }

  lemma ParentIsNotFree(fs: set<nat>, start: nat, cur: nat, stop: nat, m: nat)
    requires FreeRun(fs, start, stop) && start <= cur < stop && NoStraddle(start, cur, stop)
    requires m == BlockOrder(cur, stop - cur) && m < MAX_ORDER && Aligned(cur, m)
    ensures !RunIn(fs, Parent(cur, m), m + 1)
  {
    hide Aligned, BlockOrder, NoStraddle, FreeRun, RunIn, Xor, And;
    var h := Parent(cur, m);
    BuddyArithmetic(cur, m);
    if RunIn(fs, h, m + 1) {
      ParentStaysInRun(fs, start, cur, stop, h, m + 1);
      NoStraddleAt(start, cur, stop, h, m + 1);
      BlockOrderIsLargest(cur, stop - cur, m + 1);
      assert false;
    }
  }

  lemma GreedyIsMaximal(fs: set<nat>, start: nat, cur: nat, stop: nat)
    requires FreeRun(fs, start, stop) && start <= cur < stop && NoStraddle(start, cur, stop)
    ensures var m := BlockOrder(cur, stop - cur);
            m <= MAX_ORDER && Aligned(cur, m) && cur + Pow2(m) <= stop && MaxRun(fs, cur, m)
  {
    hide Aligned, BlockOrder, NoStraddle, Parent, Pow2;
    var m := BlockOrder(cur, stop - cur);
    BlockOrderIsLargest(cur, stop - cur, 0);
    BlockOrderIsLargest(cur, stop - cur, m);
    if m < MAX_ORDER { ParentIsNotFree(fs, start, cur, stop, m); }
  }

  lemma NoStraddleAt(start: nat, cur: nat, stop: nat, p: nat, k: nat)
    requires NoStraddle(start, cur, stop) && k <= MAX_ORDER && Aligned(p, k)
    requires start <= p && p + Pow2(k) <= stop
    ensures p < cur ==> p + Pow2(k) <= cur
  {
  }

  lemma NoStraddleStep(start: nat, cur: nat, stop: nat)
    requires start <= cur < stop && NoStraddle(start, cur, stop)
    ensures var m := BlockOrder(cur, stop - cur);
            cur + Pow2(m) <= stop && NoStraddle(start, cur + Pow2(m), stop)
  {
    hide Aligned, BlockOrder, NoStraddle;
    var m := BlockOrder(cur, stop - cur);
    BlockOrderIsLargest(cur, stop - cur, 0);
    BlockOrderIsLargest(cur, stop - cur, m);
    forall p: nat, k: nat | k <= MAX_ORDER && Aligned(p, k) && start <= p < cur + Pow2(m) && p + Pow2(k) <= stop
      ensures p + Pow2(k) <= cur + Pow2(m)
    {
      NoStraddleAt(start, cur, stop, p, k);
      StraddleCase(cur, m, p, k, stop);
    }
    NoStraddleIntro(start, cur + Pow2(m), stop);
  }

  lemma NoStraddleIntro(start: nat, cur: nat, stop: nat)
    requires forall p: nat, k: nat :: k <= MAX_ORDER && Aligned(p, k) && start <= p < cur && p + Pow2(k) <= stop
                                      ==> p + Pow2(k) <= cur
    ensures NoStraddle(start, cur, stop)
  {
  }

  lemma StraddleCase(cur: nat, m: nat, p: nat, k: nat, stop: nat)
    requires cur < stop && m == BlockOrder(cur, stop - cur) && Aligned(cur, m) && m <= MAX_ORDER
    requires k <= MAX_ORDER && Aligned(p, k) && p < cur + Pow2(m) && p + Pow2(k) <= stop
    requires p < cur ==> p + Pow2(k) <= cur
    ensures p + Pow2(k) <= cur + Pow2(m)
  {
    hide BlockOrder, Pow2, Aligned;
    if p >= cur {
      if k <= m {
        Nested(p, k, cur, m);
      } else {
        AlignedDown(p, m, k);
        Nested(cur, m, p, m);
        BlockOrderIsLargest(cur, stop - cur, k);
        assert false;
      }
    }
  }

  // ----- the zone during initialisation

  /** The covered pages are the pages of `fs` below `cur`. */
  ghost predicate CoverIs(f: map<nat, nat>, fs: set<nat>, cur: nat) {
    forall q: nat :: Covered(f, q) <==> q in fs && q < cur
  }

  /** The free blocks are maximal runs of `fs` and cover its pages below `cur`. */
  ghost predicate Tiles(f: map<nat, nat>, fs: set<nat>, n: nat, cur: nat) {
    Placed(f, n) && Disjoint(f) && AllMaximal(f, fs) && CoverIs(f, fs, cur)
  }

  lemma BlocksEndBefore(f: map<nat, nat>, fs: set<nat>, cur: nat, p: nat)
    requires CoverIs(f, fs, cur) && p in f
    ensures p < cur && p + Pow2(f[p]) <= cur
  {
    var last := p + Pow2(f[p]) - 1;
    assert InBlock(last, p, f[p]);
    assert Covered(f, last);
  }

  lemma CoverAddBlock(f: map<nat, nat>, fs: set<nat>, cur: nat, m: nat)
    requires CoverIs(f, fs, cur) && RunIn(fs, cur, m) && cur !in f
    ensures CoverIs(f[cur := m], fs, cur + Pow2(m))
  {
    hide Covered;
    var g: map<nat, nat> := f[cur := m];
    forall q: nat ensures Covered(g, q) <==> q in fs && q < cur + Pow2(m) {
      CoverWithBlock(f, cur, m, q);
      assert InBlock(q, cur, m) ==> q in fs;
    }
  }

  lemma TilesAddBlock(f: map<nat, nat>, fs: set<nat>, n: nat, cur: nat, m: nat)
    requires Tiles(f, fs, n, cur) && MaxRun(fs, cur, m) && Aligned(cur, m)
    requires m <= MAX_ORDER && cur + Pow2(m) <= n
    ensures cur !in f && Tiles(f[cur := m], fs, n, cur + Pow2(m))
  {
    hide CoverIs, Aligned, Pow2;
    if cur in f { BlocksEndBefore(f, fs, cur, cur); }
    CoverAddBlock(f, fs, cur, m);
    hide MaxRun;
    forall p | p in f ensures p < cur && p + Pow2(f[p]) <= cur { BlocksEndBefore(f, fs, cur, p); }
  }

  /** Every list runs from high to low page numbers, all below `cur`. */
  ghost predicate Descending(z: Zone, cur: nat) {
    forall k :: 0 <= k < |z.lists| ==> DescendingList(z.lists[k], cur)
  }

  ghost predicate DescendingList(s: seq<nat>, cur: nat) {
    && (forall i, j :: 0 <= i < j < |s| ==> s[i] > s[j])
    && (forall i :: 0 <= i < |s| ==> s[i] < cur)
  }

  ghost predicate Ready(z: Zone, fs: set<nat>, cur: nat) {
    Shaped(z) && Listed(z) && Tiles(FreeMap(z), fs, |z.pages|, cur) && Descending(z, cur)
  }

  /** One iteration of the region loop with its `free_block` replaced by a plain insertion. */
  function Insert(z: Zone, cur: nat, m: nat): Zone
    requires Shaped(z) && m < GROUPS && cur < |z.pages|
  {
    Link(AddPages(z, Pow2(m)), m, cur)
  }

  lemma FreeDoesNotMerge(z: Zone, fs: set<nat>, cur: nat, m: nat)
    requires Ready(z, fs, cur) && MaxRun(fs, cur, m) && Aligned(cur, m) && m <= MAX_ORDER && cur < |z.pages|
    ensures Free(z, cur, m) == Insert(z, cur, m)
  {
    hide Listed, MaxRun, Aligned, Pow2, Xor, CoverIs, Placed, Disjoint, Link, Unlink;
    if m < MAX_ORDER {
      BuddyOfMaximalRun(FreeMap(z), fs, cur, m);
    }
    BuddyIsFreeBlock(z, Xor(cur, Pow2(m)), m);
  }

  lemma InsertKeepsReady(z: Zone, fs: set<nat>, cur: nat, m: nat)
    requires Ready(z, fs, cur) && MaxRun(fs, cur, m) && Aligned(cur, m) && m <= MAX_ORDER && cur + Pow2(m) <= |z.pages|
    ensures Ready(Insert(z, cur, m), fs, cur + Pow2(m))
  {
    hide Listed, MaxRun, Aligned, Tiles, FreeMap, Pow2;
    TilesAddBlock(FreeMap(z), fs, |z.pages|, cur, m);
    var y := AddPages(z, Pow2(m));
    AddPagesKeepsListed(z, Pow2(m));
    LinkKeepsListed(y, m, cur);
  }

  /** The region loop if no `free_block` ever merged. */
  function Tile(z: Zone, cur: nat, stop: nat): (r: Zone)
    requires Shaped(z) && stop <= |z.pages|
    ensures Shaped(r) && |r.pages| == |z.pages|
    decreases stop - cur
  {
    if cur >= stop then z
    else
      var m := BlockOrder(cur, stop - cur);
      Tile(Insert(z, cur, m), cur + Pow2(m), stop)
  }

  /** A maximal free run is tiled by maximal aligned blocks, and no call of `free_block` merges. */
  lemma {:induction false} RegionTiles(z: Zone, fs: set<nat>, start: nat, cur: nat, stop: nat)
    requires Ready(z, fs, cur) && FreeRun(fs, start, stop) && start <= cur <= stop <= |z.pages|
    requires NoStraddle(start, cur, stop)
    ensures Region(z, cur, stop) == Tile(z, cur, stop)
    ensures Ready(Region(z, cur, stop), fs, stop)
    decreases stop - cur
  {
    hide Ready, FreeRun, NoStraddle, BlockOrder, Pow2, MaxRun, Free;
    ReadyShape(z, fs, cur);
    if cur >= stop {
    } else {
      var m := BlockOrder(cur, stop - cur);
      GreedyIsMaximal(fs, start, cur, stop);
      FreeDoesNotMerge(z, fs, cur, m);
      InsertKeepsReady(z, fs, cur, m);
      NoStraddleStep(start, cur, stop);
      RegionTiles(Insert(z, cur, m), fs, start, cur + Pow2(m), stop);
    }
  }

  lemma ReadyShape(z: Zone, fs: set<nat>, cur: nat)
    requires Ready(z, fs, cur)
    ensures Shaped(z)
  {
  }

  // ----- the whole scan

  /** The pages that are neither taken nor reserved. */
  ghost function Usable(z: Zone): set<nat> {
    set q: nat | q < |z.pages| && !Blocked(z, q)
  }

  /** The scan of `init_zone` if no `free_block` ever merged. */
  function TileScan(z: Zone, i: nat): (r: Zone)
    requires Shaped(z) && i <= |z.pages|
    decreases |z.pages| - i
  {
    if i == |z.pages| then z
    else if Blocked(z, i) then TileScan(z, i + 1)
    else TileScan(Tile(z, i, RunEnd(z, i)), RunEnd(z, i))
  }

  lemma {:induction false} RegionKeepsFlags(z: Zone, cur: nat, stop: nat)
    requires Shaped(z) && stop <= |z.pages| && AllLowClear(z)
    ensures SameFlags(z, Region(z, cur, stop)) && AllLowClear(Region(z, cur, stop))
    decreases stop - cur
  {
    hide BlockOrder, Merge;
    if cur >= stop {
    } else {
      var m := BlockOrder(cur, stop - cur);
      BlockOrderIsLargest(cur, stop - cur, 0);
      FreeKeepsLowClear(z, cur, m);
      RegionKeepsFlags(Free(z, cur, m), cur + Pow2(m), stop);
    }
  }

  lemma FreeKeepsLowClear(z: Zone, p: nat, o: nat)
    requires Shaped(z) && o < GROUPS && p < |z.pages| && AllLowClear(z)
    ensures SameFlags(z, Free(z, p, o)) && AllLowClear(Free(z, p, o))
  {
    hide Merge;
    MergeKeepsFlags(AddPages(z, Pow2(o)), p, o);
    var y := Free(z, p, o);
    forall q | 0 <= q < |y.pages| ensures LowClear(y.pages[q].flags) {
      assert WithoutPrivate(y.pages[q].flags) == WithoutPrivate(z.pages[q].flags);
    }
  }

  lemma SameFlagsSameUsable(z: Zone, y: Zone)
    requires SameFlags(z, y)
    ensures Usable(z) == Usable(y)
    ensures forall q: nat :: q < |z.pages| ==> (Blocked(z, q) <==> Blocked(y, q))
  {
    forall q: nat | q < |z.pages| ensures Blocked(z, q) <==> Blocked(y, q) {
      assert WithoutPrivate(y.pages[q].flags) == WithoutPrivate(z.pages[q].flags);
    }
  }

  lemma SkipBlocked(z: Zone, fs: set<nat>, i: nat)
    requires Ready(z, fs, i) && i !in fs
    ensures Ready(z, fs, i + 1)
  {
    hide Listed, AllMaximal, Covered, FreeMap;
  }

  lemma NoStraddleAtStart(start: nat, stop: nat)
    ensures NoStraddle(start, start, stop)
  {
  }

  lemma RunIsFreeRun(z: Zone, i: nat)
    requires i < |z.pages| && !Blocked(z, i) && (i > 0 ==> Blocked(z, i - 1))
    ensures FreeRun(Usable(z), i, RunEnd(z, i)) && i < RunEnd(z, i)
  {
  }

  /** The scan leaves exactly the usable pages free, as maximal aligned blocks, lists in
      descending order, all other flags as they were; no call of `free_block` on the way merges. */
  lemma {:induction false} ScanTiles(z: Zone, i: nat)
    requires i <= |z.pages| && Ready(z, Usable(z), i) && (0 < i < |z.pages| && !Blocked(z, i) ==> Blocked(z, i - 1))
    ensures Ready(Scan(z, i), Usable(z), |z.pages|) && SameFlags(z, Scan(z, i))
    ensures Shaped(z) && Scan(z, i) == TileScan(z, i)
    decreases |z.pages| - i
  {
    hide Ready, Region, Tile, RunEnd, FreeRun, Blocked, Usable;
    ReadyShape(z, Usable(z), i);
    ReadyLowClear(z, Usable(z), i);
    if i < |z.pages| {
      if Blocked(z, i) {
        BlockedIsNotUsable(z, i);
        SkipBlocked(z, Usable(z), i);
        ScanTiles(z, i + 1);
      } else {
        var j := RunEnd(z, i);
        RunIsFreeRun(z, i);
        NoStraddleAtStart(i, j);
        RegionTiles(z, Usable(z), i, i, j);
        RegionKeepsFlags(z, i, j);
        var y := Region(z, i, j);
        SameFlagsSameUsable(z, y);
        RunEndBlocked(z, i);
        hide SameFlags;
        ScanTiles(y, j);
        SameFlagsTrans(z, y, Scan(y, j));
      }
    }
  }

  lemma RunEndBlocked(z: Zone, i: nat)
    requires i <= |z.pages|
    ensures RunEnd(z, i) < |z.pages| ==> Blocked(z, RunEnd(z, i))
  {
  }

  lemma BlockedIsNotUsable(z: Zone, i: nat)
    requires i < |z.pages| && Blocked(z, i)
    ensures i !in Usable(z)
  {
  }

  lemma ReadyLowClear(z: Zone, fs: set<nat>, cur: nat)
    requires Ready(z, fs, cur)
    ensures AllLowClear(z)
  {
    hide Tiles, Descending, FreeMap;
  }

  // ----- initialisation as a whole

  /** The state `create_zone` leaves and `init_zone` starts from: empty lists, zero counts, and
      no page carrying the private bit. TAKEN and RESERVED are arbitrary. */
  ghost predicate Fresh(z: Zone) {
    && Shaped(z)
    && (forall k :: 0 <= k < GROUPS ==> z.lists[k] == [] && z.nrFree[k] == 0)
    && (forall q :: 0 <= q < |z.pages| ==>
          !z.pages[q].flags.priv && z.pages[q].order == 0 && LowClear(z.pages[q].flags))
  }

  lemma FreshIsReady(z: Zone)
    requires Fresh(z)
    ensures Ready(z, Usable(z), 0) && Shaped(z)
  {
    assert FreeMap(z) == map[];
  }

  ghost function UsableFrom(z: Zone, i: nat): set<nat> {
    set q | q in Usable(z) && q >= i
  }

  lemma {:induction false} RegionCounts(z: Zone, cur: nat, stop: nat)
    requires Shaped(z) && cur <= stop <= |z.pages|
    ensures Region(z, cur, stop).freePages == z.freePages + stop - cur
    decreases stop - cur
  {
    hide BlockOrder, Merge;
    if cur >= stop {
    } else {
      var m := BlockOrder(cur, stop - cur);
      BlockOrderIsLargest(cur, stop - cur, 0);
      BlockOrderIsLargest(cur, stop - cur, m);
      MergeKeepsCounter(AddPages(z, Pow2(m)), cur, m);
      RegionCounts(Free(z, cur, m), cur + Pow2(m), stop);
    }
  }

  lemma {:induction false} MergeKeepsCounter(z: Zone, p: nat, k: nat)
    requires Shaped(z) && k < GROUPS && p < |z.pages|
    ensures Merge(z, p, k).freePages == z.freePages
    decreases GROUPS - k
  {
    hide Xor, And, BuddyIsFree;
    var b := Xor(p, Pow2(k));
    if k < GROUPS - 1 && BuddyIsFree(z, b, k) {
      assert b < |z.pages| by { BuddyInZone(z, b, k); }
      AndBelow(p, b);
      MergeKeepsCounter(Unlink(z, k, b), And(p, b), k + 1);
    } else {
    }
  }

  lemma BuddyInZone(z: Zone, b: nat, k: nat)
    requires BuddyIsFree(z, b, k)
    ensures b < |z.pages|
  {
  }

  lemma UsableFromRun(z: Zone, i: nat, j: nat)
    requires i <= j <= |z.pages| && forall q :: i <= q < j ==> !Blocked(z, q)
    ensures |UsableFrom(z, i)| == |UsableFrom(z, j)| + j - i
    decreases j - i
  {
    IntervalSize(i, j);
    assert UsableFrom(z, i) == UsableFrom(z, j) + Interval(i, j);
    assert UsableFrom(z, j) !! Interval(i, j);
  }

  lemma UsableFromSame(z: Zone, y: Zone, i: nat)
    requires SameFlags(z, y)
    ensures UsableFrom(z, i) == UsableFrom(y, i)
  {
    SameFlagsSameUsable(z, y);
  }

  lemma {:induction false} ScanCounts(z: Zone, i: nat)
    requires Shaped(z) && i <= |z.pages| && AllLowClear(z)
    ensures Scan(z, i).freePages == z.freePages + |UsableFrom(z, i)|
    decreases |z.pages| - i
  {
    hide Region, UsableFrom, SameFlags, AllLowClear;
    if i == |z.pages| {
      UsableFromEnd(z);
    } else if Blocked(z, i) {
      UsableFromBlocked(z, i);
      ScanCounts(z, i + 1);
    } else {
      var j := RunEnd(z, i);
      var y := Region(z, i, j);
      RegionCounts(z, i, j);
      RegionKeepsFlags(z, i, j);
      UsableFromRun(z, i, j);
      UsableFromSame(z, y, j);
      ScanCounts(y, j);
    }
  }

  lemma UsableFromEnd(z: Zone)
    ensures UsableFrom(z, |z.pages|) == {}
  {
  }

  lemma UsableFromBlocked(z: Zone, i: nat)
    requires i < |z.pages| && Blocked(z, i)
    ensures UsableFrom(z, i) == UsableFrom(z, i + 1)
  {
  }

  /** Initialisation, for every pattern of taken and reserved pages: the invariant holds, the free
      pages are exactly the usable ones, every list runs from high to low addresses, no other flag
      changed, the counter grew by the number of usable pages, and no call of `free_block` merged. */
  lemma InitTiles(z: Zone)
    requires Fresh(z)
    ensures Shaped(z) && Inv(Scan(z, 0), map[])
    ensures FreeSet(Scan(z, 0)) == Usable(z)
    ensures forall q: nat :: q in FreeSet(Scan(z, 0)) <==>
              q < |z.pages| && !z.pages[q].flags.taken && !z.pages[q].flags.reserved
    ensures SameFlags(z, Scan(z, 0)) && Descending(Scan(z, 0), |z.pages|)
    ensures Scan(z, 0).freePages == z.freePages + |Usable(z)|
    ensures Scan(z, 0) == TileScan(z, 0)
  {
    hide *;
    FreshIsReady(z);
    ReadyLowClear(z, Usable(z), 0);
    ScanTiles(z, 0);
    ScanCounts(z, 0);
    UsableFromStart(z);
    SameFlagsLength(z, Scan(z, 0));
    ReadyIsInv(Scan(z, 0), Usable(z));
  }

  lemma UsableFromStart(z: Zone)
    ensures UsableFrom(z, 0) == Usable(z)
    ensures forall q: nat :: q in Usable(z) <==> q < |z.pages| && !z.pages[q].flags.taken && !z.pages[q].flags.reserved
  {
  }

  lemma SameFlagsLength(z: Zone, y: Zone)
    requires SameFlags(z, y)
    ensures |z.pages| == |y.pages|
  {
  }

  lemma ReadyIsInv(r: Zone, fs: set<nat>)
    requires Ready(r, fs, |r.pages|) && forall q :: q in fs ==> q < |r.pages|
    ensures Inv(r, map[])
    ensures FreeSet(r) == fs
    ensures Descending(r, |r.pages|)
  {
    hide Listed, Placed, Disjoint, AllMaximal, Descending;
    MaximalIsCoalesced(FreeMap(r), fs, |r.pages|);
    assert FreeMap(r) + map[] == FreeMap(r);
  }
}
