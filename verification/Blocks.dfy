/** Geometry of power-of-two page blocks: a set of blocks is a map from first page to order. */
module Blocks {
  import opened Bits

  /** The largest order, `BUDDY_GROUPS - 1`. */
  const MAX_ORDER: nat := 10

  predicate InBlock(q: int, p: nat, k: nat) {
    p <= q < p + Pow2(k)
  }

  predicate IsBlock(b: map<nat, nat>, p: nat, k: nat) {
    p in b && b[p] == k
  }

  /** Every block is aligned to its own size and lies inside the zone of `n` pages. */
  ghost predicate Placed(b: map<nat, nat>, n: nat) {
    forall p :: p in b ==> b[p] <= MAX_ORDER && Aligned(p, b[p]) && p + Pow2(b[p]) <= n
  }

  /** No page lies in two blocks. */
  ghost predicate Disjoint(b: map<nat, nat>) {
    forall p, q :: p in b && q in b && p < q ==> p + Pow2(b[p]) <= q
  }

  /** No lower half of a larger aligned block is in the set together with the upper half. */
  ghost predicate Coalesced(b: map<nat, nat>) {
    forall p :: p in b && b[p] < MAX_ORDER && Aligned(p, b[p] + 1) ==> !IsBlock(b, p + Pow2(b[p]), b[p])
  }

  /** Coalescing in the terms of `page_is_buddy`: no block below the top order has its
      `^`-buddy in the set. */
  lemma CoalescedMeansNoFreeBuddy(b: map<nat, nat>, n: nat, p: nat)
    requires Placed(b, n) && Coalesced(b) && p in b && b[p] < MAX_ORDER
    ensures !IsBlock(b, Xor(p, Pow2(b[p])), b[p])
  {
    hide Xor, And;
    BuddyArithmetic(p, b[p]);
  }

  ghost predicate Covered(b: map<nat, nat>, q: int) {
    exists p :: p in b && InBlock(q, p, b[p])
  }

  ghost predicate RunCovered(b: map<nat, nat>, p: nat, k: nat) {
    forall q :: InBlock(q, p, k) ==> Covered(b, q)
  }

  ghost predicate SameCover(b: map<nat, nat>, c: map<nat, nat>) {
    forall q :: Covered(b, q) <==> Covered(c, q)
  }

  lemma SameCoverRefl(a: map<nat, nat>)
    ensures SameCover(a, a)
  {
    hide Covered;
  }

  lemma SameCoverSym(a: map<nat, nat>, b: map<nat, nat>)
    requires SameCover(a, b)
    ensures SameCover(b, a)
  {
    hide Covered;
  }

  lemma SameCoverTrans(a: map<nat, nat>, b: map<nat, nat>, c: map<nat, nat>)
    requires SameCover(a, b) && SameCover(b, c)
    ensures SameCover(a, c)
  {
    hide Covered;
  }

  /** Block `h` of the set contains the run of order `k` at `p`. */
  predicate Contains(b: map<nat, nat>, h: nat, p: nat, k: nat) {
    h in b && k <= b[h] && h <= p && p + Pow2(k) <= h + Pow2(b[h])
  }

  lemma ContainsWhole(p: nat, k: nat, h: nat, j: nat)
    requires Aligned(p, k + 1) && Aligned(h, j) && k < j
    requires h <= p + Pow2(k) && p < h + Pow2(j)
    requires h + Pow2(j) > p + Pow2(k) || h <= p
    ensures h <= p && p + Pow2(k + 1) <= h + Pow2(j)
  {
    Nested(p, k + 1, h, j);
    Pow2Monotone(k + 1, j);
  }

  lemma ContainsBoth(b: map<nat, nat>, n: nat, p: nat, k: nat, h: nat, g: nat) returns (r: nat)
    requires Placed(b, n) && Coalesced(b) && k < MAX_ORDER && Aligned(p, k + 1)
    requires Contains(b, h, p, k) && Contains(b, g, p + Pow2(k), k)
    ensures Contains(b, r, p, k + 1)
  {
    hide Aligned, Pow2;
    if b[h] > k {
      ContainsWhole(p, k, h, b[h]);
      r := h;
    } else {
      assert IsBlock(b, p, k);
      assert !IsBlock(b, p + Pow2(k), k);
      ContainsWhole(p, k, g, b[g]);
      r := g;
    }
  }

  lemma RunHalves(b: map<nat, nat>, p: nat, k: nat)
    requires RunCovered(b, p, k + 1)
    ensures RunCovered(b, p, k) && RunCovered(b, p + Pow2(k), k)
  {
    hide Covered;
    var m := p + Pow2(k);
    assert forall q :: InBlock(q, p, k) ==> InBlock(q, p, k + 1);
    assert forall q :: InBlock(q, m, k) ==> InBlock(q, p, k + 1);
  }

  /** Under maximal coalescing an aligned run of covered pages lies inside one block. */
  lemma {:induction false} CoveringBlock(b: map<nat, nat>, n: nat, p: nat, k: nat) returns (h: nat)
    requires Placed(b, n) && Coalesced(b)
    requires k <= MAX_ORDER && Aligned(p, k) && RunCovered(b, p, k)
    ensures Contains(b, h, p, k)
    decreases k
  {
    if k == 0 {
      assert InBlock(p, p, 0);
      h :| h in b && InBlock(p, h, b[h]);
    } else {
      hide RunCovered, Placed, Coalesced, Contains;
      RunHalves(b, p, k - 1);
      AlignedStep(p, k - 1);
      h := CoveringBlock(b, n, p, k - 1);
      var g := CoveringBlock(b, n, p + Pow2(k - 1), k - 1);
      h := ContainsBoth(b, n, p, k - 1, h, g);
    }
  }

  lemma BlockHasNoCoveredParent(b: map<nat, nat>, n: nat, p: nat, k: nat)
    requires Placed(b, n) && Disjoint(b) && Coalesced(b)
    requires k < MAX_ORDER && IsBlock(b, p, k)
    ensures !RunCovered(b, Parent(p, k), k + 1)
  {
    hide RunCovered, Coalesced, Xor, And;
    if RunCovered(b, Parent(p, k), k + 1) {
      BuddyArithmetic(p, k);
      var h := CoveringBlock(b, n, Parent(p, k), k + 1);
      assert false;
    }
  }

  lemma MaximalRunIsBlock(b: map<nat, nat>, n: nat, p: nat, k: nat)
    requires Placed(b, n) && Coalesced(b)
    requires k <= MAX_ORDER && Aligned(p, k) && RunCovered(b, p, k)
    requires k < MAX_ORDER ==> !RunCovered(b, Parent(p, k), k + 1)
    ensures IsBlock(b, p, k)
  {
    hide RunCovered, Coalesced, Xor, And;
    var h := CoveringBlock(b, n, p, k);
    if b[h] > k {
      BuddyArithmetic(p, k);
      Nested(Parent(p, k), k + 1, h, b[h]);
      BlockIsCovered(b, h, Parent(p, k), k + 1);
      assert false;
    }
  }

  lemma BlockIsCovered(b: map<nat, nat>, h: nat, p: nat, k: nat)
    requires h in b && h <= p && p + Pow2(k) <= h + Pow2(b[h])
    ensures RunCovered(b, p, k)
  {
    forall q | InBlock(q, p, k) ensures Covered(b, q) {
      assert InBlock(q, h, b[h]);
    }
  }

  /** A block is present exactly when its run is covered and no larger aligned run around it is. */
  lemma BlockIsMaximalRun(b: map<nat, nat>, n: nat, p: nat, k: nat)
    requires Placed(b, n) && Disjoint(b) && Coalesced(b)
    requires k <= MAX_ORDER && Aligned(p, k)
    ensures IsBlock(b, p, k) <==>
            RunCovered(b, p, k) && (k < MAX_ORDER ==> !RunCovered(b, Parent(p, k), k + 1))
  {
    hide RunCovered, Coalesced, Disjoint, Placed, Aligned;
    if IsBlock(b, p, k) {
      BlockIsCovered(b, p, p, k);
      if k < MAX_ORDER {
        BlockHasNoCoveredParent(b, n, p, k);
      }
    } else if RunCovered(b, p, k) && (k < MAX_ORDER ==> !RunCovered(b, Parent(p, k), k + 1)) {
      MaximalRunIsBlock(b, n, p, k);
    }
  }

  /** The blocks are determined by the covered pages alone. */
  lemma Canonical(b: map<nat, nat>, c: map<nat, nat>, n: nat)
    requires Placed(b, n) && Disjoint(b) && Coalesced(b)
    requires Placed(c, n) && Disjoint(c) && Coalesced(c)
    requires SameCover(b, c)
    ensures b == c
  {
    forall p: nat, k: nat | k <= MAX_ORDER && Aligned(p, k)
      ensures IsBlock(b, p, k) <==> IsBlock(c, p, k)
    {
      BlockIsMaximalRun(b, n, p, k);
      BlockIsMaximalRun(c, n, p, k);
      assert RunCovered(b, p, k) <==> RunCovered(c, p, k);
      assert RunCovered(b, Parent(p, k), k + 1) <==> RunCovered(c, Parent(p, k), k + 1);
    }
    assert forall p :: p in b ==> IsBlock(c, p, b[p]);
    assert forall p :: p in c ==> IsBlock(b, p, c[p]);
  }

  /** Replacing an order-`k+1` block by its two halves, or two halves by their union. */
  ghost predicate Halved(u: map<nat, nat>, v: map<nat, nat>, h: nat, k: nat) {
    && IsBlock(u, h, k + 1) && h + Pow2(k) !in u
    && v == u[h := k][h + Pow2(k) := k]
  }

  lemma HalvedKeepsPlaced(u: map<nat, nat>, v: map<nat, nat>, h: nat, k: nat, n: nat)
    requires Halved(u, v, h, k) && Placed(u, n)
    ensures Placed(v, n)
  {
    AlignedStep(h, k);
  }

  lemma HalvedKeepsDisjoint(u: map<nat, nat>, v: map<nat, nat>, h: nat, k: nat)
    requires Halved(u, v, h, k) && Disjoint(u)
    ensures Disjoint(v)
  {
    forall p, q | p in v && q in v && p < q
      ensures p + Pow2(v[p]) <= q
    {
      var m := h + Pow2(k);
      if p != h && p != m {
        assert p in u && v[p] == u[p] && p != h;
        if q == m { assert p < h || p > h; }
      } else if q != m {
        assert q in u && q != h;
      }
    }
  }

  lemma UnionKeepsDisjoint(u: map<nat, nat>, v: map<nat, nat>, h: nat, k: nat)
    requires Halved(u, v, h, k) && Disjoint(v)
    ensures Disjoint(u)
  {
    forall p, q | p in u && q in u && p < q
      ensures p + Pow2(u[p]) <= q
    {
      var m := h + Pow2(k);
      assert p in v && q in v && m in v && v[m] == k;
      assert p != m && q != m;
    }
  }

  lemma UnionKeepsPlaced(u: map<nat, nat>, v: map<nat, nat>, h: nat, k: nat, n: nat)
    requires Halved(u, v, h, k) && Placed(v, n)
    requires k < MAX_ORDER && Aligned(h, k + 1)
    ensures Placed(u, n)
  {
    forall p | p in u
      ensures u[p] <= MAX_ORDER && Aligned(p, u[p]) && p + Pow2(u[p]) <= n
    {
      var m := h + Pow2(k);
      assert m in v && v[m] == k;
      assert p in v;
    }
  }

  lemma HalvedSameCover(u: map<nat, nat>, v: map<nat, nat>, h: nat, k: nat)
    requires Halved(u, v, h, k)
    ensures SameCover(u, v) && SameCover(v, u)
  {
    var m := h + Pow2(k);
    forall q ensures Covered(u, q) <==> Covered(v, q) {
      if Covered(u, q) {
        var p :| p in u && InBlock(q, p, u[p]);
        var p' := if p == h && q >= m then m else p;
        assert p' in v && InBlock(q, p', v[p']);
      }
      if Covered(v, q) {
        var p :| p in v && InBlock(q, p, v[p]);
        var p' := if p == m then h else p;
        assert p' in u && InBlock(q, p', u[p']);
      }
    }
  }

  // ----- free blocks `f` beside allocated blocks `live`

  /** The free and the allocated blocks are placed, pairwise disjoint, and the free ones coalesced. */
  ghost predicate Tiling(f: map<nat, nat>, live: map<nat, nat>, n: nat) {
    && f.Keys !! live.Keys
    && Placed(f + live, n)
    && Disjoint(f + live)
    && Coalesced(f)
  }

  lemma UpperHalfIsNew(u: map<nat, nat>, h: nat, k: nat, n: nat)
    requires Placed(u, n) && Disjoint(u) && IsBlock(u, h, k + 1)
    ensures k < MAX_ORDER && h + Pow2(k) < h + Pow2(k + 1) <= n && h + Pow2(k) !in u && Aligned(h, k + 1)
  {
  }

  lemma SplitStaysCoalesced(f: map<nat, nat>, h: nat, k: nat)
    requires Coalesced(f) && h !in f && Aligned(h, k + 1)
    ensures Coalesced(f[h + Pow2(k) := k])
  {
    AlignedStep(h, k);
  }

  lemma TilingParts(f: map<nat, nat>, live: map<nat, nat>, n: nat)
    requires Tiling(f, live, n)
    ensures Placed(f, n) && Placed(live, n) && Disjoint(f)
  {
    forall p | p in f ensures f[p] <= MAX_ORDER && Aligned(p, f[p]) && p + Pow2(f[p]) <= n {
      assert p in f + live;
    }
    forall p | p in live ensures live[p] <= MAX_ORDER && Aligned(p, live[p]) && p + Pow2(live[p]) <= n {
      assert p in f + live;
    }
    forall p, q | p in f && q in f && p < q ensures p + Pow2(f[p]) <= q {
      assert p in f + live && q in f + live;
    }
  }

  lemma SplitIsHalved(f: map<nat, nat>, live: map<nat, nat>, h: nat, m: nat, k: nat)
    requires f.Keys !! live.Keys && IsBlock(live, h, k + 1) && m !in f && m !in live
    ensures var u: map<nat, nat> := f + live;
            IsBlock(u, h, k + 1) && m !in u && f[m := k] + live[h := k] == u[h := k][m := k]
    ensures f[m := k].Keys !! live[h := k].Keys
  {
  }

  /** Splitting an allocated block in two and freeing the upper half. */
  lemma TilingSplit(f: map<nat, nat>, live: map<nat, nat>, n: nat, h: nat, k: nat)
    requires Tiling(f, live, n) && IsBlock(live, h, k + 1)
    ensures k < MAX_ORDER && h + Pow2(k) < n && h + Pow2(k) !in f
    ensures Tiling(f[h + Pow2(k) := k], live[h := k], n)
    ensures SameCover(f + live, f[h + Pow2(k) := k] + live[h := k])
  {
    hide Placed, Disjoint, Coalesced, SameCover, Aligned, Pow2;
    var m := h + Pow2(k);
    var u: map<nat, nat> := f + live;
    UpperHalfIsNew(u, h, k, n);
    SplitIsHalved(f, live, h, m, k);
    var v: map<nat, nat> := f[m := k] + live[h := k];
    HalvedKeepsPlaced(u, v, h, k, n);
    HalvedKeepsDisjoint(u, v, h, k);
    HalvedSameCover(u, v, h, k);
    SplitStaysCoalesced(f, h, k);
  }

  lemma SubsetCoalesced(f: map<nat, nat>, b: nat)
    requires Coalesced(f)
    ensures Coalesced(f - {b})
  {
  }

  lemma ReleaseStaysCoalesced(f: map<nat, nat>, p: nat, k: nat)
    requires Coalesced(f) && p !in f && Aligned(p, k)
    requires k < MAX_ORDER && Aligned(p, k + 1) ==> !IsBlock(f, p + Pow2(k), k)
    requires k < MAX_ORDER && !Aligned(p, k + 1) && p >= Pow2(k) ==> !IsBlock(f, p - Pow2(k), k)
    ensures Coalesced(f[p := k])
  {
    if p >= Pow2(k) && Aligned(p - Pow2(k), k + 1) {
      AlignedStep(p - Pow2(k), k);
    }
  }

  lemma UnionOfHalves(f: map<nat, nat>, live: map<nat, nat>, p: nat, b: nat, h: nat, m: nat, k: nat)
    requires f.Keys !! live.Keys && IsBlock(live, p, k) && IsBlock(f, b, k)
    requires h < m && ((p == h && b == m) || (p == m && b == h))
    ensures var u: map<nat, nat> := (f - {b}) + (live - {p})[h := k + 1];
            m !in u && IsBlock(u, h, k + 1) && f + live == u[h := k][m := k]
    ensures (live - {p})[h := k + 1] - {h} == live - {p}
    ensures (f - {b}).Keys !! (live - {p})[h := k + 1].Keys
  {
  }

  /** Merging an allocated block with its free buddy. */
  lemma TilingMerge(f: map<nat, nat>, live: map<nat, nat>, n: nat, p: nat, b: nat, h: nat, k: nat)
    requires Tiling(f, live, n) && IsBlock(live, p, k) && IsBlock(f, b, k) && k < MAX_ORDER
    requires Aligned(h, k + 1) && ((p == h && b == h + Pow2(k)) || (p == h + Pow2(k) && b == h))
    ensures Tiling(f - {b}, (live - {p})[h := k + 1], n)
    ensures SameCover(f + live, (f - {b}) + (live - {p})[h := k + 1])
    ensures (live - {p})[h := k + 1] - {h} == live - {p}
  {
    hide Placed, Disjoint, Coalesced, SameCover, Aligned, Pow2;
    UnionOfHalves(f, live, p, b, h, h + Pow2(k), k);
    var u: map<nat, nat> := (f - {b}) + (live - {p})[h := k + 1];
    var v: map<nat, nat> := f + live;
    UnionKeepsPlaced(u, v, h, k, n);
    UnionKeepsDisjoint(u, v, h, k);
    HalvedSameCover(u, v, h, k);
    SubsetCoalesced(f, b);
  }

  /** Freeing an allocated block whose buddy is not free. */
  lemma TilingRelease(f: map<nat, nat>, live: map<nat, nat>, n: nat, p: nat, k: nat)
    requires Tiling(f, live, n) && IsBlock(live, p, k)
    requires k < MAX_ORDER && Aligned(p, k + 1) ==> !IsBlock(f, p + Pow2(k), k)
    requires k < MAX_ORDER && !Aligned(p, k + 1) && p >= Pow2(k) ==> !IsBlock(f, p - Pow2(k), k)
    ensures Tiling(f[p := k], live - {p}, n)
    ensures f + live == f[p := k] + (live - {p})
  {
    assert f + live == f[p := k] + (live - {p});
    ReleaseStaysCoalesced(f, p, k);
  }

  /** Taking a free block. */
  lemma TilingTake(f: map<nat, nat>, live: map<nat, nat>, n: nat, p: nat)
    requires Tiling(f, live, n) && p in f
    ensures Tiling(f - {p}, live[p := f[p]], n)
    ensures f + live == (f - {p}) + live[p := f[p]]
  {
    assert f + live == (f - {p}) + live[p := f[p]];
    SubsetCoalesced(f, p);
  }
}
