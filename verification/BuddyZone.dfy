/** The buddy allocator in place: descriptors, link words and counters updated by the source's loops. */
module BuddyZone {
  import opened Bits
  import opened Options
  import opened Blocks
  import opened PageFlags
  import opened Sequences
  import opened ListHead
  import opened Zone
  import opened ZoneLinks
  import opened ZoneProofs
  import opened ZoneTheorems
  import opened ZoneInit

  class BuddyZone {
    const present: nat
    const memMap: array<Page>
    /** The link words: `page->lru` of every page, then the eleven `free_list` heads. */
    const lru: array<Links>
    const firstPage: array<nat>
    const nrFree: array<int>
    var freePages: int
    /** The free lists as sequences of pages. */
    ghost var lists: seq<seq<nat>>

    ghost predicate Valid()
      reads this
    {
      && memMap.Length == firstPage.Length == present && lru.Length == present + GROUPS
      && nrFree.Length == GROUPS && |lists| == GROUPS
    }

    ghost function State(): (z: Zone)
      reads this, memMap, nrFree
    {
      Zone(memMap[..], lists, nrFree[..], freePages)
    }

    /** The descriptors, counters and lists agree, and the link words form the lists. */
    ghost predicate Consistent()
      reads this, memMap, nrFree, lru
    {
      Valid() && Listed(State()) && LinksMatch(State(), lru[..])
    }

    /** `create_zone` over the given descriptors: `free_pages` counts every present page. */
    constructor (pages: seq<Page>)
      ensures Valid() && present == |pages|
      ensures fresh(memMap) && fresh(lru) && fresh(firstPage) && fresh(nrFree)
      ensures State().pages == pages && State().freePages == |pages|
      ensures forall k :: 0 <= k < GROUPS ==> State().lists[k] == [] && State().nrFree[k] == 0
      ensures LinksMatch(State(), lru[..])
    {
      present := |pages|;
      memMap := new Page[|pages|](i requires 0 <= i < |pages| => pages[i]);
      lru := new Links[|pages| + GROUPS](_ => NO_LINKS);
      firstPage := new nat[|pages|](_ => 0);
      nrFree := new int[GROUPS](_ => 0);
      lists := seq(GROUPS, _ => []);
      freePages := 0;
      new;
      for i := 0 to present
        modifies this`freePages
        invariant freePages == i
      {
        freePages := freePages + 1;
      }
      for i := 0 to GROUPS
        modifies lru
        invariant forall n :: present <= n < present + i ==> lru[n] == Links(Node(n), Node(n))
      {
        InitListHead(lru, present + i);
      }
      EmptyRings(State(), lru[..]);
    }

    /** Take page `p` off list `k`: `list_del` and the updates beside it. `l` are the words before the
        operation this is part of, `z` the zone then. */
    method UnlinkPage(k: nat, p: nat, ghost z: Zone, ghost l: seq<Links>)
      requires Valid() && k < GROUPS && p < present && Listed(State())
      requires BuddyIsFree(State(), p, k)
      requires |z.pages| == present && |l| == present + GROUPS && lru[..] == Relinked(l, z, State())
      requires z.pages[p].flags.priv
      modifies this`lists, memMap, lru, nrFree
      ensures Valid() && State() == Unlink(old(State()), k, p) && Listed(State())
      ensures lru[..] == Relinked(l, z, State())
      ensures forall n :: 0 <= n < present && n !in old(lists[k]) ==> lru[n] == old(lru[n])
    {
      hide Listed, Relinked, Remove, Deleted, LinksMatch, Ring;
      ghost var y := State();
      OnListIff(y, k, p);
      RelinkedMatches(l, z, y);
      RingOf(y, lru[..], k);
      ghost var i := Pos(lists[k], p);
      AroundIsOnList(y, k, i, i + 1, p);
      ListDel(lru, p, HeadNode(y, k), lists[k], i);
      lists := lists[k := Remove(lists[k], p)];
      nrFree[k] := nrFree[k] - 1;
      memMap[p] := Page(ClearPrivate(memMap[p].flags), 0);
      RelinkedUnlink(l, z, y, k, p, i, lru[..]);
    }

    /** Put page `p`, which is on no list, at the head of list `k`: `list_add` and the updates beside it. */
    method LinkPage(k: nat, p: nat, ghost z: Zone, ghost l: seq<Links>)
      requires Valid() && k < GROUPS && p < present && Listed(State()) && !memMap[p].flags.priv
      requires |z.pages| == present && |l| == present + GROUPS && lru[..] == Relinked(l, z, State())
      modifies this`lists, memMap, lru, nrFree
      ensures Valid() && State() == Link(old(State()), k, p) && Listed(State())
      ensures lru[..] == Relinked(l, z, State())
      ensures forall n :: 0 <= n < present && n != p && n !in old(lists[k]) ==> lru[n] == old(lru[n])
    {
      hide Listed, Relinked, LinksMatch, Ring;
      ghost var y := State();
      OnListIff(y, k, p);
      RelinkedMatches(l, z, y);
      RingOf(y, lru[..], k);
      AroundIsOnList(y, k, 0, 0, p);
      ListAdd(lru, present + k, p, lists[k]);
      lists := lists[k := [p] + lists[k]];
      nrFree[k] := nrFree[k] + 1;
      memMap[p] := Page(SetPrivate(memMap[p].flags), k);
      RelinkedLink(l, z, y, k, p, lru[..]);
    }

    /** The search loop of `allocate_block`. */
    method FindOrder(order: nat) returns (current: nat)
      requires Consistent()
      ensures current == FirstNonEmpty(lists, order)
    {
      hide Listed, LinksMatch, Ring;
      current := order;
      while current < GROUPS
        invariant FirstNonEmpty(lists, order) == FirstNonEmpty(lists, current)
        decreases GROUPS - current
      {
        RingOf(State(), lru[..], current);
        var empty := ListIsEmpty(lru, present + current, lists[current]);
        if !empty { break; }
        current := current + 1;
      }
      if current > GROUPS { current := GROUPS; }
    }

    /** The split loop of `allocate_block`. */
    method SplitDown(p: nat, c: nat, order: nat, ghost z: Zone, ghost l: seq<Links>)
      requires Valid() && order <= c < GROUPS && p + Pow2(c) <= present && Listed(State())
      requires forall q :: p < q < p + Pow2(c) ==> !memMap[q].flags.priv
      requires |z.pages| == present && |l| == present + GROUPS && lru[..] == Relinked(l, z, State())
      modifies this`lists, memMap, lru, nrFree
      ensures Valid() && State() == Split(old(State()), p, c, order) && Listed(State())
      ensures lru[..] == Relinked(l, z, State())
    {
      hide Relinked, Split, Pow2, Listed;
      ghost var y := State();
      var current, size := c, Pow2(c);
      while current > order
        invariant Valid() && order <= current <= c && size == Pow2(current) && p + size <= present
        invariant Split(y, p, c, order) == Split(State(), p, current, order)
        invariant Listed(State()) && lru[..] == Relinked(l, z, State())
        invariant forall q :: p < q < p + size ==> !memMap[q].flags.priv
      {
        SplitUnfolds(State(), p, current, order);
        current := current - 1;
        size := size / 2;
        LinkPage(current, p + size, z, l);
      }
      SplitUnfolds(State(), p, current, order);
    }

    /** `allocate_block` once a list is found: take its head off and split it down. */
    method CarveBlock(p: nat, c: nat, order: nat, ghost z: Zone, ghost l: seq<Links>)
      requires Valid() && order <= c < GROUPS && p + Pow2(c) <= present && p < present
      requires State() == z && Listed(z) && lru[..] == l && LinksMatch(z, l) && BuddyIsFree(z, p, c)
      requires forall q :: p < q < p + Pow2(c) ==> !memMap[q].flags.priv
      modifies this`freePages, this`lists, memMap, lru, nrFree
      ensures Valid() && Listed(State())
      ensures State() == Split(AddPages(Unlink(z, c, p), 0 - Pow2(order)), p, c, order)
      ensures |State().pages| == present && lru[..] == Relinked(l, z, State())
    {
      hide Split, Remove, Pow2, Relinked, Listed, LinksMatch;
      RelinkedRefl(l, z);
      UnlinkPage(c, p, z, l);
      RelinkedCounter(l, z, State(), 0 - Pow2(order));
      freePages := freePages - Pow2(order);
      SplitDown(p, c, order, z, l);
    }

    /** `allocate_block` */
    method AllocateBlock(order: nat, ghost live: map<nat, nat>) returns (page: Option<nat>)
      requires Valid() && Inv(State(), live) && LinksMatch(State(), lru[..])
      modifies this`freePages, this`lists, memMap, lru, nrFree
      ensures Listed(old(State())) && Placed(FreeMap(old(State())), |old(State()).pages|)
      ensures Valid() && (State(), page) == Alloc(old(State()), order) && Listed(State())
      ensures |State().pages| == present && lru[..] == Relinked(old(lru[..]), old(State()), State())
    {
      hide Inv, LinksMatch, Listed, Placed, FreeMap, Split, Unlink, Pow2, Relinked, BuddyIsFree;
      ghost var z, l := State(), lru[..];
      InvParts(z, live);
      RelinkedRefl(l, z);
      var current := FindOrder(order);
      if current >= GROUPS {
        return None;
      }
      HeadFits(z, live, current);
      HeadWord(z, l, current);
      page := Some(lru[present + current].next.n);
      CarveBlock(page.value, current, order, z, l);
    }

    /** The merge loop of `free_block`. */
    method MergeUp(page: nat, order: nat, ghost z: Zone, ghost l: seq<Links>)
      requires Valid() && order < GROUPS && page < present && Listed(State()) && !memMap[page].flags.priv
      requires |z.pages| == present && |l| == present + GROUPS && lru[..] == Relinked(l, z, State())
      requires OnlyPrivateOf(State(), z)
      modifies this`lists, memMap, lru, nrFree
      ensures Valid() && State() == Merge(old(State()), page, order) && Listed(State())
      ensures lru[..] == Relinked(l, z, State())
    {
      hide Merge, Unlink, Link, Relinked, Pow2, Xor, And, OnlyPrivateOf, BuddyIsFree, Listed;
      ghost var y := State();
      var p: nat, k: nat := page, order;
      while k < GROUPS - 1
        invariant Valid() && k < GROUPS && p < present && !memMap[p].flags.priv
        invariant Merge(y, page, order) == Merge(State(), p, k)
        invariant OnlyPrivateOf(State(), z)
        invariant Listed(State()) && lru[..] == Relinked(l, z, State())
        decreases GROUPS - k
      {
        var buddy := Xor(p, Pow2(k));
        MergeUnfolds(State(), p, k);
        BuddyCheck(State(), buddy, k);
        if buddy >= present { break; }
        if !(memMap[buddy].flags.priv && memMap[buddy].order == k) { break; }
        UnlinkOnlyPrivate(State(), z, k, buddy);
        UnlinkedPrivate(State(), k, buddy, p);
        AndOfBuddies(p, k);
        UnlinkPage(k, buddy, z, l);
        p := And(p, buddy);
        assert memMap[p] == State().pages[p];
        k := k + 1;
      }
      MergeUnfolds(State(), p, k);
      BuddyCheck(State(), Xor(p, Pow2(k)), k);
      LinkPage(k, p, z, l);
    }

    /** `free_block` of a page that is on no list. */
    method FreeBlock(page: nat, order: nat)
      requires Consistent() && order < GROUPS && page < present && !memMap[page].flags.priv
      modifies this`freePages, this`lists, memMap, lru, nrFree
      ensures Valid() && State() == Free(old(State()), page, order) && Listed(State())
      ensures |State().pages| == present && lru[..] == Relinked(old(lru[..]), old(State()), State())
    {
      hide LinksMatch, Merge, Relinked, Pow2, OnlyPrivateOf, Listed;
      ghost var z, l := State(), lru[..];
      RelinkedRefl(l, z);
      RelinkedCounter(l, z, z, Pow2(order));
      OnlyPrivateRefl(z, Pow2(order));
      freePages := freePages + Pow2(order);
      MergeUp(page, order, z, l);
    }

    /** The order search in `add_free_region_to_buddy`. */
    method ChooseOrder(current: nat, remaining: nat) returns (order: nat)
      requires remaining > 0
      ensures order == BlockOrder(current, remaining)
    {
      var alignment := if current != 0 then Ctz(current) else GROUPS;
      var sizeOrder: nat, temp: nat := 0, remaining;
      while temp > 1
        invariant temp > 0 && Log2(remaining) == sizeOrder + Log2(temp)
      {
        temp := temp / 2;
        sizeOrder := sizeOrder + 1;
      }
      order := Min(alignment, sizeOrder);
      if order >= GROUPS { order := GROUPS - 1; }
    }

    /** `add_free_region_to_buddy` on pages `start` to `end` inclusive, none of them on a list. */
    method AddFreeRegion(start: nat, end: nat)
      requires Consistent() && start <= end < present && NonePrivate(State(), start)
      modifies this`freePages, this`lists, memMap, lru, nrFree
      ensures State() == Region(old(State()), start, end + 1) && Consistent() && NonePrivate(State(), end + 1)
    {
      hide LinksMatch, Region, BlockOrder, Free, Relinked, Listed, NonePrivate;
      ghost var z := State();
      var current := start;
      while current <= end
        invariant Consistent() && current <= end + 1 && NonePrivate(State(), current)
        invariant Region(z, start, end + 1) == Region(State(), current, end + 1)
        decreases end + 1 - current
      {
        var order := ChooseOrder(current, end - current + 1);
        BlockFits(current, end - current + 1);
        RegionUnfolds(State(), current, end + 1);
        ghost var y, l := State(), lru[..];
        NonePrivateHere(y, current);
        FreeKeepsPrivate(y, current, order);
        FreeBlock(current, order);
        RelinkedMatches(l, y, State());
        current := current + Pow2(order);
      }
      RegionUnfolds(State(), current, end + 1);
    }

    /** Skip taken and reserved pages. */
    method SkipBlocked(from: nat) returns (i: nat)
      requires Valid() && from <= present
      ensures from <= i <= present && Scan(State(), from) == Scan(State(), i)
      ensures i < present ==> !Blocked(State(), i)
      ensures from < present && Blocked(State(), from) ==> from < i
    {
      hide Scan, Blocked;
      i := from;
      BlockedHere(State(), i);
      while i < present && (memMap[i].flags.taken || memMap[i].flags.reserved)
        invariant from <= i <= present && Scan(State(), from) == Scan(State(), i)
        invariant i < present ==> (Blocked(State(), i) <==> memMap[i].flags.taken || memMap[i].flags.reserved)
        invariant i < present && Blocked(State(), i) ==> Scan(State(), i) == Scan(State(), i + 1)
      {
        i := i + 1;
        BlockedHere(State(), i);
      }
    }

    /** The first loop of `init_zone`: every page's words become a ring of its own. */
    method ResetLinks()
      requires Valid() && LinksMatch(State(), lru[..]) && NonePrivate(State(), 0) && Listed(State())
      modifies lru
      ensures LinksMatch(State(), lru[..])
      ensures forall q :: 0 <= q < present ==> Ring(lru[..], q, [])
    {
      hide LinksMatch, Listed, NonePrivate;
      for i := 0 to present
        invariant LinksMatch(State(), lru[..])
        invariant forall q :: 0 <= q < i ==> lru[q] == Links(Node(q), Node(q))
      {
        ghost var l := lru[..];
        InitListHead(lru, i);
        NonePrivateHere(State(), 0);
        OffListWrite(State(), l, lru[..], i);
      }
    }

    /** The scan loops of `init_zone`. */
    method ScanZone()
      requires Consistent() && NonePrivate(State(), 0)
      modifies this`freePages, this`lists, memMap, lru, nrFree
      ensures State() == Scan(old(State()), 0) && Consistent()
    {
      hide LinksMatch, Scan, Region, Blocked, Listed, NonePrivate;
      ghost var z := State();
      var i := SkipBlocked(0);
      var prev := i;
      NonePrivateAbove(z, 0, prev);
      while i < present
        invariant Consistent() && prev <= i <= present && NonePrivate(State(), prev)
        invariant Scan(z, 0) == Scan(State(), prev)
        invariant forall q :: prev <= q < i ==> !Blocked(State(), q)
        decreases present - prev, present - i
      {
        BlockedHere(State(), i);
        if memMap[i].flags.taken || memMap[i].flags.reserved {
          if prev < i {
            ScanRun(State(), prev, i);
            AddFreeRegion(prev, i - 1);
          }
          var next := SkipBlocked(i);
          NonePrivateAbove(State(), i, next);
          i := next;
          prev := i;
        } else {
          i := i + 1;
        }
      }
      if prev < present {
        ScanRun(State(), prev, present);
        AddFreeRegion(prev, present - 1);
      }
      ScanEnd(State());
    }

    /** `init_zone` up to its self-test. */
    method InitZone()
      requires Valid() && Fresh(State()) && LinksMatch(State(), lru[..])
      modifies this`freePages, this`lists, memMap, lru, nrFree
      ensures State() == Scan(old(State()), 0) && Consistent()
      ensures Inv(State(), map[]) && FreeSet(State()) == Usable(old(State()))
    {
      hide LinksMatch, Scan, Inv, FreeSet, Usable, Listed, Ring;
      FreshFacts(State());
      ResetLinks();
      InitTiles(State());
      ScanZone();
    }

    /** `test_buddy`: with the runs it asks for free, the zone is as before and the links form the lists. */
    method SelfTest(ghost live: map<nat, nat>)
      requires Consistent() && Inv(State(), live) && Placed(FreeMap(State()), |State().pages|)
      requires HasFreeRun(State(), 9) && HasFreeRun(Alloc(State(), 9).0, 4)
      modifies this`freePages, this`lists, memMap, lru, nrFree
      ensures State() == old(State()) && Consistent()
    {
      hide LinksMatch, Inv, Listed, Placed, FreeMap, HasFreeRun, Relinked, Alloc, Free;
      ghost var z := State();
      AllocIsComplete(z, live, 9);
      AllocKeepsInv(z, live, 9);
      FreeUndoesAlloc(z, live, 9);
      var page1 := AllocateBlock(9, live);
      ghost var z1, live1 := State(), live[page1.value := 9];
      RelinkedMatches(old(lru[..]), z, z1);
      AllocIsComplete(z1, live1, 4);
      AllocKeepsInv(z1, live1, 4);
      FreeUndoesAlloc(z1, live1, 4);
      ghost var l1 := lru[..];
      var page2 := AllocateBlock(4, live1);
      ghost var z2 := State();
      RelinkedMatches(l1, z1, z2);
      HeldIsPlain(z2, live1[page2.value := 4], page2.value);
      ghost var l2 := lru[..];
      FreeBlock(page2.value, 4);
      RelinkedMatches(l2, z2, State());
      HeldIsPlain(State(), live1, page1.value);
      ghost var l3, z3 := lru[..], State();
      FreeBlock(page1.value, 9);
      RelinkedMatches(l3, z3, State());
    }

    /** `free_buddy_system`: every list ends empty and every node that was on one is cleared. */
    method FreeBuddySystem()
      requires Consistent()
      modifies this`lists, lru
      ensures Valid() && LinksMatch(State(), lru[..]) && forall k :: 0 <= k < GROUPS ==> lists[k] == []
      ensures forall k: nat :: k < GROUPS ==> Cleared(lru[..], old(lists)[k])
      ensures forall q :: 0 <= q < present && !memMap[q].flags.priv ==> lru[q] == old(lru[q])
    {
      hide LinksMatch, Listed, Ring, Cleared;
      ghost var z, l := State(), lru[..];
      MatchRings(z, l);
      var k := 0;
      while k < GROUPS
        invariant 0 <= k <= GROUPS && Valid()
        invariant forall j: nat :: j < k ==> lists[j] == [] && Ring(lru[..], HeadNode(z, j), [])
        invariant forall j: nat :: j < k ==> Cleared(lru[..], z.lists[j])
        invariant forall j: nat :: k <= j < GROUPS ==> lists[j] == z.lists[j]
        invariant forall j: nat :: k <= j < GROUPS ==> Ring(lru[..], HeadNode(z, j), z.lists[j])
        invariant forall q :: 0 <= q < present && !z.pages[q].flags.priv ==> lru[q] == l[q]
      {
        ghost var m := lru[..];
        ghost var visited := DeleteAll(lru, present + k, lists[k]);
        ghost var r := lru[..];
        InitListHead(lru, present + k);
        ClearedStays(z, k, r, lru[..]);
        forall j: nat | j < GROUPS && j != k
          ensures Ring(m, HeadNode(z, j), z.lists[j]) ==> Ring(lru[..], HeadNode(z, j), z.lists[j])
          ensures Ring(m, HeadNode(z, j), []) ==> Ring(lru[..], HeadNode(z, j), [])
          ensures Cleared(m, z.lists[j]) ==> Cleared(lru[..], z.lists[j])
        {
          OtherListStays(z, k, j, m, lru[..]);
        }
        forall q | 0 <= q < present && !z.pages[q].flags.priv ensures lru[q] == m[q] {
          OnListIff(z, k, q);
        }
        lists := lists[k := []];
        k := k + 1;
      }
      AllEmpty(z, State(), lru[..]);
    }
  }

  lemma MatchRings(z: Zone, l: seq<Links>)
    requires LinksMatch(z, l)
    ensures Shaped(z) && forall k: nat :: k < GROUPS ==> Ring(l, HeadNode(z, k), z.lists[k])
  {
  }

  lemma AllEmpty(z: Zone, y: Zone, l: seq<Links>)
    requires Shaped(y) && |l| == |y.pages| + GROUPS && |z.pages| == |y.pages|
    requires forall k: nat :: k < GROUPS ==> y.lists[k] == [] && Ring(l, HeadNode(z, k), [])
    ensures LinksMatch(y, l)
  {
    hide Ring;
    forall k: nat | k < GROUPS ensures Ring(l, HeadNode(y, k), y.lists[k]) {
      assert Ring(l, HeadNode(z, k), []);
    }
  }

  /** Emptying one list touches nothing of the others. */
  lemma OtherListStays(z: Zone, k: nat, j: nat, m: seq<Links>, r: seq<Links>)
    requires Listed(z) && Shaped(z) && k < GROUPS && j < GROUPS && j != k
    requires OnlyTouches(m, r, NodesOf(HeadNode(z, k), z.lists[k]))
    ensures Ring(m, HeadNode(z, j), z.lists[j]) ==> Ring(r, HeadNode(z, j), z.lists[j])
    ensures Ring(m, HeadNode(z, j), []) ==> Ring(r, HeadNode(z, j), [])
    ensures Cleared(m, z.lists[j]) ==> Cleared(r, z.lists[j])
  {
    hide Listed, Ring;
    var touched := NodesOf(HeadNode(z, k), z.lists[k]);
    forall x | x in z.lists[j] ensures x !in touched {
      ListsApart(z, j, k, x);
      OnListIff(z, j, x);
    }
    forall x | x in z.lists[k] ensures x < |z.pages| { OnListIff(z, k, x); }
    assert Avoids(HeadNode(z, j), z.lists[j], touched) && Avoids(HeadNode(z, j), [], touched);
    if Ring(m, HeadNode(z, j), z.lists[j]) { RingStays(m, r, touched, HeadNode(z, j), z.lists[j]); }
    if Ring(m, HeadNode(z, j), []) { RingStays(m, r, touched, HeadNode(z, j), []); }
  }

  lemma ClearedStays(z: Zone, k: nat, m: seq<Links>, r: seq<Links>)
    requires Listed(z) && Shaped(z) && k < GROUPS && OnlyTouches(m, r, {HeadNode(z, k)}) && Cleared(m, z.lists[k])
    ensures Cleared(r, z.lists[k])
  {
    hide Listed;
    forall x | x in z.lists[k] ensures x < |z.pages| { OnListIff(z, k, x); }
  }

  /** No page from `from` on is on a list. */
  ghost predicate NonePrivate(z: Zone, from: nat) {
    forall q :: from <= q < |z.pages| ==> !z.pages[q].flags.priv
  }

  lemma NonePrivateHere(z: Zone, from: nat)
    requires NonePrivate(z, from)
    ensures forall q :: from <= q < |z.pages| ==> !z.pages[q].flags.priv
  {
  }

  lemma NonePrivateAbove(z: Zone, from: nat, above: nat)
    requires NonePrivate(z, from) && from <= above
    ensures NonePrivate(z, above)
  {
  }

  lemma FreshFacts(z: Zone)
    requires Fresh(z)
    ensures Listed(z) && NonePrivate(z, 0)
  {
    assert FreeMap(z) == map[];
  }

  lemma HeldIsPlain(z: Zone, live: map<nat, nat>, p: nat)
    requires Inv(z, live) && p in live
    ensures p < |z.pages| && !z.pages[p].flags.priv
  {
    InvParts(z, live);
    hide Listed, Coalesced;
    var u := FreeMap(z) + live;
    assert p in u && u[p] == live[p];
    assert p !in FreeMap(z);
  }

  lemma BlockFits(cur: nat, remaining: nat)
    requires remaining > 0
    ensures BlockOrder(cur, remaining) < GROUPS && Pow2(BlockOrder(cur, remaining)) <= remaining
  {
    hide BlockOrder;
    BlockOrderIsLargest(cur, remaining, 0);
    BlockOrderIsLargest(cur, remaining, BlockOrder(cur, remaining));
  }

  lemma RingOf(z: Zone, l: seq<Links>, k: nat)
    requires LinksMatch(z, l) && k < GROUPS
    ensures Shaped(z) && Ring(l, HeadNode(z, k), z.lists[k])
  {
  }

  lemma RegionUnfolds(z: Zone, cur: nat, stop: nat)
    requires Shaped(z) && stop <= |z.pages|
    ensures cur < stop ==>
              var m := BlockOrder(cur, stop - cur);
              m < GROUPS && Pow2(m) >= 1 && Region(z, cur, stop) == Region(Free(z, cur, m), cur + Pow2(m), stop)
    ensures cur >= stop ==> Region(z, cur, stop) == z
  {
  }

  lemma BlockedHere(z: Zone, i: nat)
    requires Shaped(z) && i <= |z.pages|
    ensures i < |z.pages| ==> (Blocked(z, i) <==> z.pages[i].flags.taken || z.pages[i].flags.reserved)
    ensures i < |z.pages| && Blocked(z, i) ==> Scan(z, i) == Scan(z, i + 1)
  {
  }

  lemma ScanRun(z: Zone, i: nat, j: nat)
    requires Shaped(z) && i < j <= |z.pages| && (forall q :: i <= q < j ==> !Blocked(z, q))
    requires j < |z.pages| ==> Blocked(z, j)
    ensures Scan(z, i) == Scan(Region(z, i, j), j)
  {
    assert RunEnd(z, i) == j;
  }

  lemma ScanEnd(z: Zone)
    requires Shaped(z)
    ensures Scan(z, |z.pages|) == z
  {
  }

  /** The head of a list is a free page whose block lies in the zone, with no other list member inside. */
  lemma HeadFits(z: Zone, live: map<nat, nat>, k: nat)
    requires k < GROUPS && k < |z.lists| && z.lists[k] != [] && Inv(z, live)
    ensures var p := z.lists[k][0];
            && p + Pow2(k) <= |z.pages| && p < |z.pages| && BuddyIsFree(z, p, k)
            && forall q :: p < q < p + Pow2(k) ==> !z.pages[q].flags.priv
  {
    hide Inv, Listed, Placed, FreeMap, Pow2, BuddyIsFree;
    InvParts(z, live);
    HeadIsBlock(z, k);
    BuddyIsFreeBlock(z, z.lists[k][0], k);
    InteriorIsPlain(z, live, z.lists[k][0], k);
  }

  lemma InteriorIsPlain(z: Zone, live: map<nat, nat>, p: nat, k: nat)
    requires Inv(z, live) && IsBlock(FreeMap(z), p, k)
    ensures k < GROUPS && p + Pow2(k) <= |z.pages| && p < |z.pages|
    ensures forall q :: p < q < p + Pow2(k) ==> !z.pages[q].flags.priv
  {
    hide Inv, Listed, Pow2;
    InvParts(z, live);
    BlockInteriorIsIdle(z, live, p, k);
    forall q | p < q < p + Pow2(k) ensures !z.pages[q].flags.priv {
      assert Idle(Unlink(z, k, p), q);
    }
  }

  /** The first word of a head names the first page of its list. */
  lemma HeadWord(z: Zone, l: seq<Links>, k: nat)
    requires LinksMatch(z, l) && k < GROUPS && k < |z.lists| && z.lists[k] != []
    ensures |z.pages| + k < |l| && l[|z.pages| + k].next == Node(z.lists[k][0])
  {
    assert Ring(l, HeadNode(z, k), z.lists[k]);
  }

  lemma UnlinkedPrivate(z: Zone, k: nat, b: nat, p: nat)
    requires Shaped(z) && k < GROUPS && b < |z.pages| && p < |z.pages| && !z.pages[p].flags.priv
    ensures !Unlink(z, k, b).pages[p].flags.priv && !Unlink(z, k, b).pages[b].flags.priv
  {
  }

  /** Freeing puts no page above the freed one on a list. */
  lemma {:induction false} MergeKeepsPrivate(z: Zone, p: nat, k: nat)
    requires Shaped(z) && k < GROUPS && p < |z.pages|
    ensures forall q :: p < q < |z.pages| && Merge(z, p, k).pages[q].flags.priv ==> z.pages[q].flags.priv
    decreases GROUPS - k
  {
    hide Xor, And;
    var b := Xor(p, Pow2(k));
    if k < GROUPS - 1 && BuddyIsFree(z, b, k) {
      AndBelow(p, b);
      MergeKeepsPrivate(Unlink(z, k, b), And(p, b), k + 1);
    } else {
    }
  }

  lemma FreeKeepsPrivate(z: Zone, p: nat, o: nat)
    requires Shaped(z) && o < GROUPS && p < |z.pages| && NonePrivate(z, p)
    ensures NonePrivate(Free(z, p, o), p + Pow2(o))
  {
    hide Merge;
    MergeKeepsPrivate(AddPages(z, Pow2(o)), p, o);
  }

  /** Writing the words of a page on no list leaves every ring intact. */
  lemma OffListWrite(z: Zone, l: seq<Links>, r: seq<Links>, q: nat)
    requires Listed(z) && LinksMatch(z, l) && q < |z.pages| && !z.pages[q].flags.priv && OnlyTouches(l, r, {q})
    ensures LinksMatch(z, r)
  {
    hide Listed, Ring;
    forall k: nat | k < GROUPS ensures Ring(r, HeadNode(z, k), z.lists[k]) {
      OnListIff(z, k, q);
      RingStays(l, r, {q}, HeadNode(z, k), z.lists[k]);
    }
  }

  lemma EmptyRings(z: Zone, l: seq<Links>)
    requires Shaped(z) && |l| == |z.pages| + GROUPS && forall k :: 0 <= k < GROUPS ==> z.lists[k] == []
    requires forall n :: |z.pages| <= n < |l| ==> l[n] == Links(Node(n), Node(n))
    ensures LinksMatch(z, l)
  {
    forall k: nat | k < GROUPS ensures Ring(l, HeadNode(z, k), z.lists[k]) {
      assert l[HeadNode(z, k)] == Links(Node(HeadNode(z, k)), Node(HeadNode(z, k)));
    }
  }

  /** Every private page of `y` is private in `z`. */
  ghost predicate OnlyPrivateOf(y: Zone, z: Zone) {
    |y.pages| == |z.pages| && forall q :: 0 <= q < |y.pages| && y.pages[q].flags.priv ==> z.pages[q].flags.priv
  }

  lemma OnlyPrivateRefl(z: Zone, d: int)
    ensures OnlyPrivateOf(AddPages(z, d), z)
  {
  }

  lemma UnlinkOnlyPrivate(y: Zone, z: Zone, k: nat, p: nat)
    requires Shaped(y) && k < GROUPS && p < |y.pages| && OnlyPrivateOf(y, z) && y.pages[p].flags.priv
    ensures OnlyPrivateOf(Unlink(y, k, p), z) && z.pages[p].flags.priv
  {
  }

  lemma MergeUnfolds(z: Zone, p: nat, k: nat)
    requires Shaped(z) && k < GROUPS && p < |z.pages|
    ensures var b := Xor(p, Pow2(k));
            if k < GROUPS - 1 && BuddyIsFree(z, b, k)
            then b < |z.pages| && And(p, b) <= p && Merge(z, p, k) == Merge(Unlink(z, k, b), And(p, b), k + 1)
            else Merge(z, p, k) == Link(z, k, p)
  {
    AndBelow(p, Xor(p, Pow2(k)));
  }

  lemma BuddyCheck(z: Zone, b: nat, k: nat)
    ensures BuddyIsFree(z, b, k) <==> b < |z.pages| && z.pages[b].flags.priv && z.pages[b].order == k
  {
  }

  lemma SplitUnfolds(z: Zone, h: nat, c: nat, o: nat)
    requires Shaped(z) && o <= c < GROUPS && h + Pow2(c) <= |z.pages|
    ensures c > o ==> Pow2(c) == 2 * Pow2(c - 1)
    ensures c > o ==> Split(z, h, c, o) == Split(Link(z, c - 1, h + Pow2(c - 1)), h, c - 1, o)
    ensures c == o ==> Split(z, h, c, o) == z
  {
  }
}
