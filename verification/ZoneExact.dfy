/** Exactly which block an allocation takes, what it leaves of it, and where a freed block ends up. */
module ZoneExact {
  import opened Bits
  import opened Blocks
  import opened Sequences
  import opened Zone
  import opened ZoneProofs
  import opened ZoneTheorems

  // ----- allocation

  /** Cutting the block at `h` from order `c` down to `o` leaves the upper half of each order on the way. */
  predicate UpperHalf(p: nat, j: nat, h: nat, c: nat, o: nat) { o <= j < c && p == h + Pow2(j) }

  /** The free blocks `g` are those of `f` without the one at `h`, and its upper halves. */
  ghost predicate CutBlocks(f: map<nat, nat>, g: map<nat, nat>, h: nat, c: nat, o: nat) {
    forall p: nat, j: nat :: IsBlock(g, p, j) <==> (IsBlock(f, p, j) && p != h) || UpperHalf(p, j, h, c, o)
  }

  /** Each upper half is alone on its list, list `c` has lost its first block, and every other list is as it was. */
  ghost predicate CutLists(before: seq<seq<nat>>, after: seq<seq<nat>>, h: nat, c: nat, o: nat) {
    && |before| == |after| == 11 && c <= 10 && before[c] != [] && before[c][0] == h
    && forall j: nat :: j <= 10 ==>
         after[j] == if j == c then before[c][1..] else if o <= j < c then [h + Pow2(j)] else before[j]
  }

  lemma IdleIsNotFree(z: Zone, q: nat)
    requires Idle(z, q)
    ensures q !in FreeMap(z)
  {
  }

  lemma LinkAddsBlock(f: map<nat, nat>, g: map<nat, nat>, h: nat, c: nat, o: nat)
    requires o < c && h !in f && CutBlocks(f[h + Pow2(c - 1) := c - 1], g, h, c - 1, o) && h + Pow2(c - 1) !in f
    ensures CutBlocks(f, g, h, c, o)
  {
    hide Pow2;
    var q := h + Pow2(c - 1);
    forall p: nat, j: nat
      ensures IsBlock(g, p, j) <==> (IsBlock(f, p, j) && p != h) || UpperHalf(p, j, h, c, o)
    {
      assert IsBlock(f[q := c - 1], p, j) <==> IsBlock(f, p, j) || (p == q && j == c - 1);
      assert IsBlock(g, p, j) <==> (IsBlock(f[q := c - 1], p, j) && p != h) || UpperHalf(p, j, h, c - 1, o);
    }
  }

  lemma {:induction false} SplitBlocks(z: Zone, h: nat, c: nat, o: nat)
    requires Listed(z) && o <= c < GROUPS && h + Pow2(c) <= |z.pages| && h !in FreeMap(z)
    requires forall q :: h < q < h + Pow2(c) ==> Idle(z, q)
    ensures CutBlocks(FreeMap(z), FreeMap(Split(z, h, c, o)), h, c, o)
    decreases c - o
  {
    hide FreeMap, CutBlocks, Listed, Idle, Link;
    ListedShape(z);
    if c == o {
      NothingCut(FreeMap(z), h, c);
    } else {
      var q := h + Pow2(c - 1);
      IdleIsNotFree(z, q);
      LinkKeepsListed(z, c - 1, q);
      var y := Link(z, c - 1, q);
      forall r | h < r < h + Pow2(c - 1) ensures Idle(y, r) { LinkKeepsIdle(z, c - 1, q, r); }
      LinkShape(z, c - 1, q);
      SplitBlocks(y, h, c - 1, o);
      LinkAddsBlock(FreeMap(z), FreeMap(Split(z, h, c, o)), h, c, o);
    }
  }

  lemma ListedShape(z: Zone)
    requires Listed(z)
    ensures Shaped(z)
  {
  }

  lemma NothingCut(f: map<nat, nat>, h: nat, c: nat)
    requires h !in f
    ensures CutBlocks(f, f, h, c, c)
  {
  }

  lemma LinkKeepsIdle(z: Zone, k: nat, p: nat, q: nat)
    requires Shaped(z) && k < GROUPS && p < |z.pages| && q != p && Idle(z, q)
    ensures Idle(Link(z, k, p), q)
  {
  }

  lemma LinkShape(z: Zone, k: nat, p: nat)
    requires Shaped(z) && k < GROUPS && p < |z.pages|
    ensures Shaped(Link(z, k, p)) && |Link(z, k, p).pages| == |z.pages|
    ensures Link(z, k, p).lists == z.lists[k := [p] + z.lists[k]] && Link(z, k, p).freePages == z.freePages
  {
  }

  lemma {:induction false} SplitList(z: Zone, h: nat, c: nat, o: nat, j: nat)
    requires Shaped(z) && o <= c < GROUPS && h + Pow2(c) <= |z.pages| && j < GROUPS
    ensures Split(z, h, c, o).lists[j] == if o <= j < c then [h + Pow2(j)] + z.lists[j] else z.lists[j]
    ensures Split(z, h, c, o).freePages == z.freePages
    decreases c - o
  {
    if c == o {
    } else {
      assert Pow2(c) == 2 * Pow2(c - 1);
      hide Link, Pow2;
      LinkShape(z, c - 1, h + Pow2(c - 1));
      SplitList(Link(z, c - 1, h + Pow2(c - 1)), h, c - 1, o, j);
    }
  }

  /** `allocate_block` takes the first block of the least order that is large enough: no free block
      of an order in between exists. What is left of it are its upper halves, one per order, alone on
      lists that were empty; every other list keeps its blocks in order. */
  lemma AllocTakesLeast(z: Zone, live: map<nat, nat>, o: nat)
    requires Inv(z, live)
    ensures Listed(z) && Placed(FreeMap(z), |z.pages|)
    ensures Alloc(z, o).1.Some? ==>
              var (y, h) := (Alloc(z, o).0, Alloc(z, o).1.value);
              && h in FreeMap(z)
              && var c := FreeMap(z)[h];
                 && o <= c && (forall p :: p in FreeMap(z) ==> FreeMap(z)[p] < o || c <= FreeMap(z)[p])
                 && CutBlocks(FreeMap(z), FreeMap(y), h, c, o) && CutLists(z.lists, y.lists, h, c, o)
                 && y.freePages == z.freePages - Pow2(o)
  {
    hide Inv, Tiling, FreeMap, Placed, Split, Pow2, Aligned, Idle, Listed, CutBlocks, CutLists;
    InvParts(z, live);
    var c := FirstNonEmpty(z.lists, o);
    if c < GROUPS {
      var h := z.lists[c][0];
      HeadIsBlock(z, c);
      forall p | p in FreeMap(z) ensures FreeMap(z)[p] < o || c <= FreeMap(z)[p] { FreeOnList(z, p); }
      hide FirstNonEmpty;
      CutIsExact(z, live, h, c, o);
    }
  }

  lemma CutIsExact(z: Zone, live: map<nat, nat>, h: nat, c: nat, o: nat)
    requires Inv(z, live) && o <= c < GROUPS && z.lists[c] != [] && z.lists[c][0] == h && IsBlock(FreeMap(z), h, c)
    requires forall j :: o <= j < c ==> z.lists[j] == []
    ensures h + Pow2(c) <= |z.pages|
    ensures var y := Split(AddPages(Unlink(z, c, h), 0 - Pow2(o)), h, c, o);
            && CutBlocks(FreeMap(z), FreeMap(y), h, c, o) && CutLists(z.lists, y.lists, h, c, o)
            && y.freePages == z.freePages - Pow2(o)
  {
    hide Tiling, FreeMap, Placed, Split, Pow2, Aligned, Idle, Listed, CutBlocks, Unlink;
    InvParts(z, live);
    BlockInteriorIsIdle(z, live, h, c);
    UnlinkKeepsListed(z, c, h);
    UnlinkShape(z, c, h);
    UnlinkHead(z, c, h);
    var u := AddPages(Unlink(z, c, h), 0 - Pow2(o));
    AddPagesKeepsListed(Unlink(z, c, h), 0 - Pow2(o));
    forall q | h < q < h + Pow2(c) ensures Idle(u, q) { IdleIgnoresCount(Unlink(z, c, h), 0 - Pow2(o), q); }
    SplitBlocks(u, h, c, o);
    SplitList(u, h, c, o, 0);
    forall j: nat | j < GROUPS
      ensures Split(u, h, c, o).lists[j] == if o <= j < c then [h + Pow2(j)] + u.lists[j] else u.lists[j]
    {
      SplitList(u, h, c, o, j);
    }
    WithoutBlock(FreeMap(z), FreeMap(Split(u, h, c, o)), h, c, o);
    forall j: nat | o <= j < c ensures [h + Pow2(j)] + z.lists[j] == [h + Pow2(j)] { assert z.lists[j] == []; }
  }

  lemma WithoutBlock(f: map<nat, nat>, g: map<nat, nat>, h: nat, c: nat, o: nat)
    requires CutBlocks(f - {h}, g, h, c, o)
    ensures CutBlocks(f, g, h, c, o)
  {
    hide Pow2;
    var e: map<nat, nat> := f - {h};
    forall p: nat, j: nat
      ensures IsBlock(g, p, j) <==> (IsBlock(f, p, j) && p != h) || UpperHalf(p, j, h, c, o)
    {
      assert IsBlock(e, p, j) <==> IsBlock(f, p, j) && p != h;
      assert IsBlock(g, p, j) <==> (IsBlock(e, p, j) && p != h) || UpperHalf(p, j, h, c, o);
    }
  }

  lemma IdleIgnoresCount(z: Zone, d: int, q: nat)
    requires Idle(z, q)
    ensures Idle(AddPages(z, d), q)
  {
  }

  lemma FreeOnList(z: Zone, p: nat)
    requires Listed(z) && p in FreeMap(z)
    ensures FreeMap(z)[p] < GROUPS && z.lists[FreeMap(z)[p]] != []
  {
    hide FreeMap;
    assert p in z.lists[FreeMap(z)[p]];
  }

  lemma UnlinkHead(z: Zone, k: nat, p: nat)
    requires Shaped(z) && k < GROUPS && p < |z.pages| && z.lists[k] != [] && z.lists[k][0] == p
    ensures Unlink(z, k, p).lists == z.lists[k := z.lists[k][1..]] && Unlink(z, k, p).freePages == z.freePages
  {
    assert z.lists[k] == [p] + z.lists[k][1..];
  }

  // ----- release

  /** The list of order `j` after a block has merged with its free buddies of orders `o` to `c - 1`
      into the block at `h` of order `c`. */
  ghost predicate ListAfterMerge(before: seq<nat>, after: seq<nat>, j: nat, o: nat, h: nat, c: nat) {
    if j == c then after == [h] + before
    else if o <= j < c then exists b :: b in before && InBlock(b, h, c) && after == Remove(before, b)
    else after == before
  }

  ghost predicate ListsAfterMerge(z: Zone, y: Zone, o: nat, h: nat, c: nat) {
    && Shaped(z) && Shaped(y)
    && forall j: nat :: j <= 10 ==> ListAfterMerge(z.lists[j], y.lists[j], j, o, h, c)
  }

  lemma LinkedLists(z: Zone, p: nat, k: nat)
    requires Shaped(z) && k < GROUPS && p < |z.pages|
    ensures ListsAfterMerge(z, Link(z, k, p), k, p, k)
  {
  }

  lemma MergedLists(z: Zone, y: Zone, b: nat, k: nat, h: nat, c: nat)
    requires Shaped(z) && k < GROUPS && b < |z.pages| && b in z.lists[k] && k < c && InBlock(b, h, c)
    requires ListsAfterMerge(Unlink(z, k, b), y, k + 1, h, c)
    ensures ListsAfterMerge(z, y, k, h, c)
  {
    hide Remove;
    forall j: nat | j <= 10 ensures ListAfterMerge(z.lists[j], y.lists[j], j, k, h, c) {
      assert ListAfterMerge(Unlink(z, k, b).lists[j], y.lists[j], j, k + 1, h, c);
    }
  }

  lemma {:induction false} MergeLeaves(z: Zone, live: map<nat, nat>, p: nat, k: nat) returns (h: nat, c: nat)
    requires Inv(z, live) && IsBlock(live, p, k)
    ensures k < GROUPS && p < |z.pages|
    ensures k <= c <= 10 && h <= p && p + Pow2(k) <= h + Pow2(c)
    ensures ListsAfterMerge(z, Merge(z, p, k), k, h, c)
    ensures IsBlock(FreeMap(Merge(z, p, k)), h, c)
    decreases GROUPS - k
  {
    hide Listed, Tiling, FreeMap, Xor, And, Aligned, BuddyIsFree, Unlink, Link, SameCover, Pow2, Parent;
    hide ListsAfterMerge;
    TilingParts(FreeMap(z), live, |z.pages|);
    var b := Xor(p, Pow2(k));
    BuddyIsFreeBlock(z, b, k);
    if k < GROUPS - 1 && BuddyIsFree(z, b, k) {
      BuddyArithmetic(p, k);
      var h1 := Parent(p, k);
      MergeStep(z, live, p, b, h1, k);
      h, c := MergeLeaves(Unlink(z, k, b), (live - {p})[h1 := k + 1], h1, k + 1);
      HalvesInside(p, b, h1, k, h, c);
      BlockOnList(z, b, k);
      MergedLists(z, Merge(z, p, k), b, k, h, c);
    } else {
      h, c := p, k;
      LinkedLists(z, p, k);
      LinkedIsFree(z, k, p);
    }
  }

  lemma LinkedIsFree(z: Zone, k: nat, p: nat)
    requires Shaped(z) && k < GROUPS && p < |z.pages|
    ensures IsBlock(FreeMap(Link(z, k, p)), p, k)
  {
  }

  lemma BlockOnList(z: Zone, b: nat, k: nat)
    requires Listed(z) && IsBlock(FreeMap(z), b, k)
    ensures k < GROUPS && b < |z.pages| && b in z.lists[k]
  {
  }

  lemma HalvesInside(p: nat, b: nat, h1: nat, k: nat, h: nat, c: nat)
    requires (p == h1 && b == h1 + Pow2(k)) || (p == h1 + Pow2(k) && b == h1)
    requires h <= h1 && h1 + Pow2(k + 1) <= h + Pow2(c)
    ensures h <= p && p + Pow2(k) <= h + Pow2(c) && InBlock(b, h, c)
  {
  }

  /** `free_block` ends with the freed block inside one free block at the head of its list. The lists
      of the orders merged on the way lose one buddy each; all others keep their blocks in order. */
  lemma FreeMergesExactly(z: Zone, live: map<nat, nat>, p: nat, o: nat) returns (h: nat, c: nat)
    requires Inv(z, live) && IsBlock(live, p, o)
    ensures o < GROUPS && p < |z.pages|
    ensures o <= c <= 10 && h <= p && p + Pow2(o) <= h + Pow2(c)
    ensures IsBlock(FreeMap(Free(z, p, o)), h, c) && ListsAfterMerge(z, Free(z, p, o), o, h, c)
  {
    hide Inv, Merge, Pow2, FreeMap;
    AddPagesKeepsInv(z, live, Pow2(o));
    h, c := MergeLeaves(AddPages(z, Pow2(o)), live, p, o);
  }
}
