/** The buddy allocator's state and operations on values. */
module Zone {
  import opened Bits
  import opened Options
  import opened Blocks
  import opened PageFlags
  import opened Sequences

  /** `BUDDY_GROUPS` */
  const GROUPS: nat := 11

  /** The buddy fields of `struct page`; `order` is the field `private`. */
  datatype Page = Page(flags: Flags, order: nat)

  /** `zone_t`: the page descriptors, the eleven free lists (head first) with their counters,
      and the page counter. */
  datatype Zone = Zone(pages: seq<Page>, lists: seq<seq<nat>>, nrFree: seq<int>, freePages: int)

  predicate Shaped(z: Zone) {
    |z.lists| == GROUPS && |z.nrFree| == GROUPS
  }

  /** Take page `p` off list `k`: `list_del`, `nr_free--`, `ClearPagePrivate`, `private = 0`. */
  function Unlink(z: Zone, k: nat, p: nat): Zone
    requires Shaped(z) && k < GROUPS && p < |z.pages|
  {
    z.(pages := z.pages[p := Page(ClearPrivate(z.pages[p].flags), 0)],
       lists := z.lists[k := Remove(z.lists[k], p)],
       nrFree := z.nrFree[k := z.nrFree[k] - 1])
  }

  /** Put page `p` at the head of list `k`: `list_add`, `nr_free++`, `private = k`, `SetPagePrivate`. */
  function Link(z: Zone, k: nat, p: nat): Zone
    requires Shaped(z) && k < GROUPS && p < |z.pages|
  {
    z.(pages := z.pages[p := Page(SetPrivate(z.pages[p].flags), k)],
       lists := z.lists[k := [p] + z.lists[k]],
       nrFree := z.nrFree[k := z.nrFree[k] + 1])
  }

  function AddPages(z: Zone, d: int): Zone { z.(freePages := z.freePages + d) }

  /** The smallest order from `k` up with a non-empty list, or `GROUPS`. */
  function FirstNonEmpty(lists: seq<seq<nat>>, k: nat): (r: nat)
    requires |lists| == GROUPS
    ensures r < GROUPS ==> k <= r && lists[r] != []
    ensures forall j :: k <= j < r && j < GROUPS ==> lists[j] == []
    decreases GROUPS - k
  {
    if k >= GROUPS then GROUPS else if lists[k] != [] then k else FirstNonEmpty(lists, k + 1)
  }

  /** The split loop: hand back the upper half until the block at `h` has order `o`. */
  function Split(z: Zone, h: nat, c: nat, o: nat): (r: Zone)
    requires Shaped(z) && o <= c < GROUPS && h + Pow2(c) <= |z.pages|
    ensures Shaped(r) && |r.pages| == |z.pages|
    decreases c - o
  {
    if c == o then z else Split(Link(z, c - 1, h + Pow2(c - 1)), h, c - 1, o)
  }

  function Alloc(z: Zone, o: nat): (r: (Zone, Option<nat>))
    requires Listed(z) && Placed(FreeMap(z), |z.pages|)
  {
    var c := FirstNonEmpty(z.lists, o);
    if c >= GROUPS then (z, None)
    else
      var h := z.lists[c][0];
      assert IsBlock(FreeMap(z), h, c);
      (Split(AddPages(Unlink(z, c, h), 0 - Pow2(o)), h, c, o), Some(h))
  }

  /** `page_is_buddy` with the bounds check before it. */
  predicate BuddyIsFree(z: Zone, b: nat, k: nat) {
    b < |z.pages| && z.pages[b].flags.priv && z.pages[b].order == k
  }

  /** The merge loop, ending with the coalesced block put on its list. */
  function Merge(z: Zone, p: nat, k: nat): (r: Zone)
    requires Shaped(z) && k < GROUPS && p < |z.pages|
    ensures Shaped(r) && |r.pages| == |z.pages|
    decreases GROUPS - k
  {
    var b := Xor(p, Pow2(k));
    if k < GROUPS - 1 && BuddyIsFree(z, b, k) then
      AndBelow(p, b);
      Merge(Unlink(z, k, b), And(p, b), k + 1)
    else Link(z, k, p)
  }

  lemma {:induction false} AndBelow(a: nat, b: nat)
    ensures And(a, b) <= a
    decreases a + b
  {
    if a == 0 && b == 0 {
    } else {
      AndBelow(a / 2, b / 2);
    }
  }

  function Free(z: Zone, p: nat, o: nat): Zone
    requires Shaped(z) && o < GROUPS && p < |z.pages|
  {
    Merge(AddPages(z, Pow2(o)), p, o)
  }

  // ----- the invariant

  /** The free blocks as the page descriptors record them. */
  ghost function FreeMap(z: Zone): map<nat, nat> {
    map p: nat | p < |z.pages| && z.pages[p].flags.priv :: z.pages[p].order
  }

  /** The descriptors, the lists and the counters agree. */
  ghost predicate Listed(z: Zone) {
    && Shaped(z)
    && (forall k :: 0 <= k < GROUPS ==> z.nrFree[k] == |z.lists[k]| && NoDup(z.lists[k]))
    && (forall k: nat, p :: k < GROUPS && p in z.lists[k] ==> IsBlock(FreeMap(z), p, k))
    && (forall p :: p in FreeMap(z) ==> FreeMap(z)[p] < GROUPS && p in z.lists[FreeMap(z)[p]])
    && (forall p :: 0 <= p < |z.pages| ==> LowClear(z.pages[p].flags))
    && (forall p :: 0 <= p < |z.pages| && !z.pages[p].flags.priv ==> z.pages[p].order == 0)
  }

  /** All blocks, free and allocated. */
  ghost function AllBlocks(z: Zone, live: map<nat, nat>): map<nat, nat> { FreeMap(z) + live }

  /** The invariant of the allocator together with the blocks `live` that callers hold. */
  ghost predicate Inv(z: Zone, live: map<nat, nat>) {
    Shaped(z) && Listed(z) && Tiling(FreeMap(z), live, |z.pages|)
  }

  lemma BuddyIsFreeBlock(z: Zone, b: nat, k: nat)
    ensures BuddyIsFree(z, b, k) <==> IsBlock(FreeMap(z), b, k)
  {
  }

  // ----- single list updates

  lemma AddPagesKeepsListed(z: Zone, d: int)
    requires Listed(z)
    ensures Listed(AddPages(z, d)) && FreeMap(AddPages(z, d)) == FreeMap(z)
  {
    assert FreeMap(AddPages(z, d)) == FreeMap(z);
  }

  lemma UnlinkKeepsListed(z: Zone, k: nat, p: nat)
    requires Listed(z) && IsBlock(FreeMap(z), p, k)
    ensures k < GROUPS && p < |z.pages|
    ensures Listed(Unlink(z, k, p))
    ensures FreeMap(Unlink(z, k, p)) == FreeMap(z) - {p}
  {
    RemoveMembers(z.lists[k], p);
    RemoveKeepsNoDup(z.lists[k], p);
    hide Remove, NoDup;
    var y := Unlink(z, k, p);
    assert FreeMap(y) == FreeMap(z) - {p};
    forall j: nat, q | j < GROUPS && q in y.lists[j] ensures IsBlock(FreeMap(y), q, j) {
      assert q in z.lists[j];
      assert IsBlock(FreeMap(z), q, j);
    }
    forall q | q in FreeMap(y) ensures FreeMap(y)[q] < GROUPS && q in y.lists[FreeMap(y)[q]] {
      assert q in FreeMap(z);
    }
  }

  lemma LinkKeepsListed(z: Zone, k: nat, p: nat)
    requires Listed(z) && k < GROUPS && p < |z.pages| && p !in FreeMap(z)
    ensures Listed(Link(z, k, p))
    ensures FreeMap(Link(z, k, p)) == FreeMap(z)[p := k]
  {
    var y := Link(z, k, p);
    assert FreeMap(y) == FreeMap(z)[p := k];
    assert p !in z.lists[k] by {
      assert p in z.lists[k] ==> IsBlock(FreeMap(z), p, k);
    }
    forall j: nat, q | j < GROUPS && q in y.lists[j] ensures IsBlock(FreeMap(y), q, j) {
      if j == k && q == p {
      } else {
        assert q in z.lists[j];
        assert IsBlock(FreeMap(z), q, j);
      }
    }
    forall q | q in FreeMap(y) ensures FreeMap(y)[q] < GROUPS && q in y.lists[FreeMap(y)[q]] {
      if q != p { assert q in FreeMap(z); }
    }
  }
}
