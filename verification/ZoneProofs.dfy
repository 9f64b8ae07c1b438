/** Every split and merge keeps the allocator's invariant; completeness of allocation; exact undo. */
module ZoneProofs {
  import opened Bits
  import opened Options
  import opened Blocks
  import opened Zone

  // ----- splitting and merging

  lemma SplitStep(z: Zone, live: map<nat, nat>, h: nat, k: nat)
    requires Inv(z, live) && IsBlock(live, h, k + 1)
    ensures h + Pow2(k) < |z.pages| && k < GROUPS
    ensures Inv(Link(z, k, h + Pow2(k)), live[h := k])
    ensures SameCover(AllBlocks(z, live), AllBlocks(Link(z, k, h + Pow2(k)), live[h := k]))
  {
    hide Listed, Tiling, FreeMap, SameCover, Aligned;
    TilingSplit(FreeMap(z), live, |z.pages|, h, k);
    LinkKeepsListed(z, k, h + Pow2(k));
  }

  lemma {:induction false} SplitKeepsInv(z: Zone, live: map<nat, nat>, h: nat, c: nat, o: nat)
    requires Inv(z, live) && IsBlock(live, h, c) && o <= c
    ensures c < GROUPS && h + Pow2(c) <= |z.pages|
    ensures Inv(Split(z, h, c, o), live[h := o])
    ensures SameCover(AllBlocks(z, live), AllBlocks(Split(z, h, c, o), live[h := o]))
    decreases c - o
  {
    hide Listed, Tiling, Pow2, FreeMap, SameCover, Link;
    TilingParts(FreeMap(z), live, |z.pages|);
    if c == o {
      assert live[h := o] == live;
      SameCoverRefl(AllBlocks(z, live));
    } else {
      SplitStep(z, live, h, c - 1);
      var y, live': map<nat, nat> := Link(z, c - 1, h + Pow2(c - 1)), live[h := c - 1];
      SplitKeepsInv(y, live', h, c - 1, o);
      assert live'[h := o] == live[h := o];
      SameCoverTrans(AllBlocks(z, live), AllBlocks(y, live'), AllBlocks(Split(z, h, c, o), live[h := o]));
    }
  }

  lemma MergeStep(z: Zone, live: map<nat, nat>, p: nat, b: nat, h: nat, k: nat)
    requires Inv(z, live) && IsBlock(live, p, k) && IsBlock(FreeMap(z), b, k) && k < MAX_ORDER
    requires Aligned(h, k + 1) && ((p == h && b == h + Pow2(k)) || (p == h + Pow2(k) && b == h))
    ensures Inv(Unlink(z, k, b), (live - {p})[h := k + 1])
    ensures SameCover(AllBlocks(z, live), AllBlocks(Unlink(z, k, b), (live - {p})[h := k + 1]))
    ensures (live - {p})[h := k + 1] - {h} == live - {p}
  {
    hide Listed, Tiling, FreeMap, SameCover, Aligned;
    TilingMerge(FreeMap(z), live, |z.pages|, p, b, h, k);
    UnlinkKeepsListed(z, k, b);
    assert FreeMap(Unlink(z, k, b)) == FreeMap(z) - {b};
  }

  lemma MergeStop(z: Zone, live: map<nat, nat>, p: nat, k: nat)
    requires Inv(z, live) && IsBlock(live, p, k)
    requires k < MAX_ORDER ==> !IsBlock(FreeMap(z), Xor(p, Pow2(k)), k)
    ensures k < GROUPS && p < |z.pages|
    ensures Inv(Link(z, k, p), live - {p})
    ensures AllBlocks(z, live) == AllBlocks(Link(z, k, p), live - {p})
  {
    TilingParts(FreeMap(z), live, |z.pages|);
    BuddyIsOtherHalf(p, k);
    TilingRelease(FreeMap(z), live, |z.pages|, p, k);
    LinkKeepsListed(z, k, p);
  }

  lemma {:induction false} MergeKeepsInv(z: Zone, live: map<nat, nat>, p: nat, k: nat)
    requires Inv(z, live) && IsBlock(live, p, k)
    ensures k < GROUPS && p < |z.pages|
    ensures Inv(Merge(z, p, k), live - {p})
    ensures SameCover(AllBlocks(z, live), AllBlocks(Merge(z, p, k), live - {p}))
    decreases GROUPS - k
  {
    hide Listed, Tiling, FreeMap, Xor, And, Aligned, BuddyIsFree, Unlink, Link, SameCover, Pow2, Parent;
    TilingParts(FreeMap(z), live, |z.pages|);
    var b := Xor(p, Pow2(k));
    BuddyIsFreeBlock(z, b, k);
    if k < GROUPS - 1 && BuddyIsFree(z, b, k) {
      BuddyArithmetic(p, k);
      var h := Parent(p, k);
      MergeStep(z, live, p, b, h, k);
      MergeKeepsInv(Unlink(z, k, b), (live - {p})[h := k + 1], h, k + 1);
      SameCoverTrans(AllBlocks(z, live), AllBlocks(Unlink(z, k, b), (live - {p})[h := k + 1]),
                     AllBlocks(Merge(z, p, k), live - {p}));
    } else {
      MergeStop(z, live, p, k);
      SameCoverRefl(AllBlocks(z, live));
    }
  }

  // ----- the two operations

  lemma AddPagesKeepsInv(z: Zone, live: map<nat, nat>, d: int)
    requires Inv(z, live)
    ensures Inv(AddPages(z, d), live) && AllBlocks(AddPages(z, d), live) == AllBlocks(z, live)
  {
    hide Tiling;
    assert FreeMap(AddPages(z, d)) == FreeMap(z);
  }

  lemma TakeKeepsInv(z: Zone, live: map<nat, nat>, h: nat, c: nat)
    requires Inv(z, live) && IsBlock(FreeMap(z), h, c)
    ensures c < GROUPS && h < |z.pages| && h !in live
    ensures Inv(Unlink(z, c, h), live[h := c])
    ensures AllBlocks(Unlink(z, c, h), live[h := c]) == AllBlocks(z, live)
  {
    hide Listed, Placed, Disjoint, Coalesced, FreeMap;
    TilingTake(FreeMap(z), live, |z.pages|, h);
    UnlinkKeepsListed(z, c, h);
  }

  lemma HeadIsBlock(z: Zone, c: nat)
    requires Listed(z) && c < GROUPS && z.lists[c] != []
    ensures IsBlock(FreeMap(z), z.lists[c][0], c)
  {
    hide FreeMap;
  }

  lemma CarveKeepsInv(z: Zone, live: map<nat, nat>, h: nat, c: nat, o: nat)
    requires Inv(z, live) && IsBlock(FreeMap(z), h, c) && o <= c
    ensures c < GROUPS && h + Pow2(c) <= |z.pages| && h !in live
    ensures var y := Split(AddPages(Unlink(z, c, h), 0 - Pow2(o)), h, c, o);
            Inv(y, live[h := o]) && SameCover(AllBlocks(z, live), AllBlocks(y, live[h := o]))
  {
    hide Listed, Tiling, FreeMap, Pow2, Placed, SameCover, Split;
    TakeKeepsInv(z, live, h, c);
    var y := Unlink(z, c, h);
    AddPagesKeepsInv(y, live[h := c], 0 - Pow2(o));
    SplitKeepsInv(AddPages(y, 0 - Pow2(o)), live[h := c], h, c, o);
    assert live[h := c][h := o] == live[h := o];
  }

  /** Allocation keeps the invariant; the block becomes the caller's and no page changes hands otherwise. */
  lemma AllocKeepsInv(z: Zone, live: map<nat, nat>, o: nat)
    requires Inv(z, live)
    ensures Placed(FreeMap(z), |z.pages|)
    ensures Alloc(z, o).1 == None ==> Alloc(z, o).0 == z
    ensures Alloc(z, o).1.Some? ==>
              var h := Alloc(z, o).1.value;
              && o < GROUPS && h < |z.pages| && h !in live
              && Inv(Alloc(z, o).0, live[h := o])
              && SameCover(AllBlocks(z, live), AllBlocks(Alloc(z, o).0, live[h := o]))
  {
    hide Listed, Tiling, FreeMap, Pow2, Placed, SameCover, Split, Inv;
    InvParts(z, live);
    var c := FirstNonEmpty(z.lists, o);
    if c < GROUPS {
      HeadIsBlock(z, c);
      CarveKeepsInv(z, live, z.lists[c][0], c, o);
    }
  }

  lemma InvParts(z: Zone, live: map<nat, nat>)
    requires Inv(z, live)
    ensures Shaped(z) && Listed(z)
    ensures Placed(FreeMap(z), |z.pages|) && Placed(live, |z.pages|) && Disjoint(FreeMap(z)) && Coalesced(FreeMap(z))
  {
    TilingParts(FreeMap(z), live, |z.pages|);
  }

  /** Freeing a held block keeps the invariant. */
  lemma FreeKeepsInv(z: Zone, live: map<nat, nat>, p: nat, o: nat)
    requires Inv(z, live) && IsBlock(live, p, o)
    ensures o < GROUPS && p < |z.pages|
    ensures Inv(Free(z, p, o), live - {p})
    ensures SameCover(AllBlocks(z, live), AllBlocks(Free(z, p, o), live - {p}))
  {
    hide Listed, Tiling, FreeMap, Pow2, SameCover, Merge;
    AddPagesKeepsInv(z, live, Pow2(o));
    MergeKeepsInv(AddPages(z, Pow2(o)), live, p, o);
  }
}
