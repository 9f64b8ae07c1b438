/** The link words of pages and free-list heads: one ring per order, and what the buddy
    allocator's list operations leave in them. */
module ZoneLinks {
  import opened Blocks
  import opened Sequences
  import opened ListHead
  import opened Zone

  /** The two words of `page->lru` while a slab owns the page: cache in `next`, slab in `prev`. */
  function Owner(c: nat, s: nat): Links { Links(Address(c), Address(s)) }

  /** Pages come first in the node memory, the eleven list heads after them. */
  function HeadNode(z: Zone, k: nat): nat { |z.pages| + k }

  /** The words of pages and heads form one ring per order, through the pages on its list. */
  ghost predicate LinksMatch(z: Zone, lru: seq<Links>) {
    && Shaped(z) && |lru| == |z.pages| + GROUPS
    && forall k: nat :: k < GROUPS ==> Ring(lru, HeadNode(z, k), z.lists[k])
  }

  /** The words of a page that is on the list of its order. */
  ghost function PageWords(z: Zone, q: nat): Links
    requires q < |z.pages|
  {
    var k := z.pages[q].order;
    if k < |z.lists| && q in z.lists[k] then MemberWords(HeadNode(z, k), z.lists[k], Pos(z.lists[k], q)) else NO_LINKS
  }

  /** The words after list operations that lead from `before` to `after`: heads and pages on a list
      are linked as the lists say, a page that left its list has none, every other page's words
      are untouched. */
  ghost function Relinked(lru: seq<Links>, before: Zone, after: Zone): (r: seq<Links>)
    requires |before.pages| == |after.pages| && |lru| == |after.pages| + GROUPS && Shaped(after)
    ensures |r| == |lru|
  {
    seq(|lru|, q requires 0 <= q < |lru| =>
      if q >= |after.pages| then HeadWords(q, after.lists[q - |after.pages|])
      else if after.pages[q].flags.priv then PageWords(after, q)
      else if before.pages[q].flags.priv then NO_LINKS
      else lru[q])
  }

  // ----- lists and pages

  /** A page is on the list of order `k` exactly when it is flagged so; no other page is. */
  lemma OnListIff(z: Zone, k: nat, q: nat)
    requires Listed(z) && k < GROUPS
    ensures q in z.lists[k] <==> q < |z.pages| && z.pages[q].flags.priv && z.pages[q].order == k
  {
    if q in z.lists[k] { assert IsBlock(FreeMap(z), q, k); }
    if q < |z.pages| && z.pages[q].flags.priv { assert q in FreeMap(z); }
  }

  lemma ListsApart(z: Zone, j: nat, k: nat, q: nat)
    requires Listed(z) && j < GROUPS && k < GROUPS && j != k && q in z.lists[j]
    ensures q !in z.lists[k]
  {
    hide Listed;
    OnListIff(z, j, q);
    OnListIff(z, k, q);
  }

  lemma ListNoDup(z: Zone, k: nat)
    requires Listed(z) && k < GROUPS
    ensures Shaped(z) && NoDup(z.lists[k])
  {
    hide NoDup, FreeMap;
  }

  // ----- the words determine and are determined by the lists

  lemma MatchedPage(z: Zone, l: seq<Links>, q: nat)
    requires Listed(z) && LinksMatch(z, l) && q < |z.pages| && z.pages[q].flags.priv
    ensures l[q] == PageWords(z, q)
  {
    hide Listed, HeadWords, MemberWords, NoDup;
    var k := z.pages[q].order;
    PrivateOrder(z, q);
    OnListIff(z, k, q);
    assert Ring(l, HeadNode(z, k), z.lists[k]);
  }

  lemma PrivateOrder(z: Zone, q: nat)
    requires Listed(z) && q < |z.pages| && z.pages[q].flags.priv
    ensures z.pages[q].order < GROUPS && Shaped(z)
  {
    assert q in FreeMap(z);
  }

  /** Words that form the rings and are otherwise as they should be are the relinked words. */
  lemma RelinkedIs(l: seq<Links>, z: Zone, y: Zone, lru: seq<Links>)
    requires |z.pages| == |y.pages| && |l| == |y.pages| + GROUPS && Listed(y) && LinksMatch(y, lru)
    requires forall q :: 0 <= q < |y.pages| && !y.pages[q].flags.priv ==>
               lru[q] == if z.pages[q].flags.priv then NO_LINKS else l[q]
    ensures lru == Relinked(l, z, y)
  {
    hide Listed, PageWords, HeadWords;
    forall q | 0 <= q < |lru| ensures lru[q] == Relinked(l, z, y)[q] {
      if q >= |y.pages| {
        assert Ring(lru, HeadNode(y, q - |y.pages|), y.lists[q - |y.pages|]);
      } else if y.pages[q].flags.priv {
        MatchedPage(y, lru, q);
      }
    }
  }

  lemma RelinkedRefl(l: seq<Links>, z: Zone)
    requires Listed(z) && LinksMatch(z, l)
    ensures Relinked(l, z, z) == l
  {
    hide Listed, PageWords, HeadWords;
    forall q | 0 <= q < |l| ensures Relinked(l, z, z)[q] == l[q] {
      if q >= |z.pages| {
        assert Ring(l, HeadNode(z, q - |z.pages|), z.lists[q - |z.pages|]);
      } else if z.pages[q].flags.priv {
        MatchedPage(z, l, q);
      }
    }
  }

  lemma RelinkedRing(l: seq<Links>, z: Zone, y: Zone, k: nat)
    requires |z.pages| == |y.pages| && |l| == |y.pages| + GROUPS && Listed(y) && k < GROUPS && Shaped(y)
    ensures Ring(Relinked(l, z, y), HeadNode(y, k), y.lists[k])
  {
    hide Listed, HeadWords, NoDup, MemberWords;
    ListNoDup(y, k);
    var s := y.lists[k];
    forall i | 0 <= i < |s|
      ensures s[i] < |y.pages| && Relinked(l, z, y)[s[i]] == MemberWords(HeadNode(y, k), s, i)
    {
      OnListIff(y, k, s[i]);
      PosUnique(s, i);
    }
  }

  /** The relinked words form the rings of the new lists. */
  lemma RelinkedMatches(l: seq<Links>, z: Zone, y: Zone)
    requires |z.pages| == |y.pages| && |l| == |y.pages| + GROUPS && Listed(y) && Shaped(y)
    ensures LinksMatch(y, Relinked(l, z, y))
  {
    hide Listed, Ring, Relinked;
    forall k: nat | k < GROUPS ensures Ring(Relinked(l, z, y), HeadNode(y, k), y.lists[k]) { RelinkedRing(l, z, y, k); }
  }

  // ----- one list operation

  /** The nodes a list operation around position `i` of list `k` writes. */
  function Around(z: Zone, k: nat, i: nat, j: nat, p: nat): set<nat>
    requires Shaped(z) && k < GROUPS && i <= |z.lists[k]| && j <= |z.lists[k]|
  {
    {Before(HeadNode(z, k), z.lists[k], i), p, At(HeadNode(z, k), z.lists[k], j)}
  }

  /** They are the head of the list, pages on it, and `p`. */
  lemma AroundIsOnList(z: Zone, k: nat, i: nat, j: nat, p: nat)
    requires Listed(z) && k < GROUPS && Shaped(z) && i <= |z.lists[k]| && j <= |z.lists[k]|
    ensures forall n :: n in Around(z, k, i, j, p) ==> n == HeadNode(z, k) || n == p || n in z.lists[k]
  {
  }

  lemma OtherRingAvoids(z: Zone, k: nat, i: nat, j: nat, p: nat, m: nat)
    requires Listed(z) && k < GROUPS && m < GROUPS && m != k && Shaped(z) && i <= |z.lists[k]| && j <= |z.lists[k]|
    requires p < |z.pages| && p !in z.lists[m]
    ensures Avoids(HeadNode(z, m), z.lists[m], Around(z, k, i, j, p))
  {
    hide Listed, Around;
    AroundIsOnList(z, k, i, j, p);
    forall x | x in z.lists[m] ensures x !in Around(z, k, i, j, p) {
      ListsApart(z, m, k, x);
      OnListIff(z, m, x);
    }
    forall n | n in z.lists[k] ensures n < |z.pages| { OnListIff(z, k, n); }
  }

  /** Rings of the other orders are as they were. */
  lemma OtherRings(z: Zone, k: nat, i: nat, j: nat, p: nat, l: seq<Links>, r: seq<Links>, m: nat)
    requires Listed(z) && LinksMatch(z, l) && k < GROUPS && m < GROUPS && m != k && i <= |z.lists[k]|
    requires j <= |z.lists[k]|
    requires p < |z.pages| && p !in z.lists[m] && OnlyTouches(l, r, Around(z, k, i, j, p))
    ensures Ring(r, HeadNode(z, m), z.lists[m])
  {
    hide Listed, Around, Ring;
    OtherRingAvoids(z, k, i, j, p, m);
    RingStays(l, r, Around(z, k, i, j, p), HeadNode(z, m), z.lists[m]);
  }

  /** A page in no list keeps its words. */
  lemma OffListStays(z: Zone, k: nat, i: nat, j: nat, p: nat, l: seq<Links>, r: seq<Links>, q: nat)
    requires Listed(z) && Shaped(z) && k < GROUPS && i <= |z.lists[k]| && j <= |z.lists[k]|
    requires OnlyTouches(l, r, Around(z, k, i, j, p)) && q < |z.pages| <= |l| && q != p && !z.pages[q].flags.priv
    ensures r[q] == l[q]
  {
    hide Listed, Around;
    AroundIsOnList(z, k, i, j, p);
    OnListIff(z, k, q);
  }

  lemma RelinkedLink(l: seq<Links>, z: Zone, y: Zone, k: nat, p: nat, r: seq<Links>)
    requires |z.pages| == |y.pages| && |l| == |y.pages| + GROUPS && Listed(y) && Shaped(y) && k < GROUPS
    requires p < |y.pages| && !y.pages[p].flags.priv
    requires OnlyTouches(Relinked(l, z, y), r, Around(y, k, 0, 0, p)) && Ring(r, HeadNode(y, k), [p] + y.lists[k])
    ensures Listed(Link(y, k, p)) && r == Relinked(l, z, Link(y, k, p))
  {
    hide Listed, Ring, Around, PageWords, HeadWords;
    var u := Link(y, k, p);
    NotFree(y, p);
    LinkKeepsListed(y, k, p);
    RelinkedMatches(l, z, y);
    forall m: nat | m < GROUPS ensures Ring(r, HeadNode(u, m), u.lists[m]) {
      OnListIff(y, m, p);
      if m != k { OtherRings(y, k, 0, 0, p, Relinked(l, z, y), r, m); }
    }
    forall q | 0 <= q < |u.pages| && !u.pages[q].flags.priv
      ensures r[q] == if z.pages[q].flags.priv then NO_LINKS else l[q]
    {
      OffListStays(y, k, 0, 0, p, Relinked(l, z, y), r, q);
    }
    RelinkedIs(l, z, u, r);
  }

  lemma NotFree(z: Zone, p: nat)
    requires p < |z.pages| && !z.pages[p].flags.priv
    ensures p !in FreeMap(z)
  {
  }

  lemma RelinkedUnlink(l: seq<Links>, z: Zone, y: Zone, k: nat, p: nat, i: nat, r: seq<Links>)
    requires |z.pages| == |y.pages| && |l| == |y.pages| + GROUPS && Listed(y) && Shaped(y) && k < GROUPS
    requires p < |y.pages| && i < |y.lists[k]| && y.lists[k][i] == p && z.pages[p].flags.priv
    requires OnlyTouches(Relinked(l, z, y), r, Around(y, k, i, i + 1, p)) && r[p] == NO_LINKS
    requires Ring(r, HeadNode(y, k), Deleted(y.lists[k], i))
    ensures Listed(Unlink(y, k, p)) && r == Relinked(l, z, Unlink(y, k, p))
  {
    hide Listed, Ring, Around, PageWords, HeadWords, Remove, Deleted;
    var u := Unlink(y, k, p);
    OnListIff(y, k, p);
    BuddyIsFreeBlock(y, p, k);
    UnlinkKeepsListed(y, k, p);
    ListNoDup(y, k);
    PosUnique(y.lists[k], i);
    RemoveIsDeleted(y.lists[k], p);
    RelinkedMatches(l, z, y);
    forall m: nat | m < GROUPS ensures Ring(r, HeadNode(u, m), u.lists[m]) {
      OnListIff(y, m, p);
      if m != k { OtherRings(y, k, i, i + 1, p, Relinked(l, z, y), r, m); }
    }
    forall q | 0 <= q < |u.pages| && !u.pages[q].flags.priv
      ensures r[q] == if z.pages[q].flags.priv then NO_LINKS else l[q]
    {
      if q != p { OffListStays(y, k, i, i + 1, p, Relinked(l, z, y), r, q); }
    }
    RelinkedIs(l, z, u, r);
  }

  lemma RelinkedCounter(l: seq<Links>, z: Zone, y: Zone, d: int)
    requires |z.pages| == |y.pages| && |l| == |y.pages| + GROUPS && Shaped(y)
    ensures Relinked(l, z, AddPages(y, d)) == Relinked(l, z, y) && (Listed(y) ==> Listed(AddPages(y, d)))
  {
    if Listed(y) { CounterKeepsListed(y, d); }
    hide Listed;
    forall q | 0 <= q < |l| ensures Relinked(l, z, AddPages(y, d))[q] == Relinked(l, z, y)[q] {}
  }

  lemma CounterKeepsListed(y: Zone, d: int)
    requires Listed(y)
    ensures Listed(AddPages(y, d))
  {
    assert FreeMap(AddPages(y, d)) == FreeMap(y);
  }
}
