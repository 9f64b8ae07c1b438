/** The three slab lists of a cache under the allocator's list moves. */
module SlabLists {
  import opened Sequences
  import opened SlabModel

  // ----- counting free objects

  lemma {:induction false} FreeCountFrame(slabs: map<nat, Slab>, slabs': map<nat, Slab>, num: nat, list: seq<nat>)
    requires forall t :: t in list ==>
               (t in slabs <==> t in slabs') && (t in slabs ==> slabs[t].inuse == slabs'[t].inuse)
    ensures FreeCount(slabs, num, list) == FreeCount(slabs', num, list)
  {
    if list == [] {
    } else {
      assert list[0] in list;
      assert forall t :: t in list[1..] ==> t in list;
      FreeCountFrame(slabs, slabs', num, list[1..]);
    }
  }

  lemma {:induction false} FreeCountAppend(slabs: map<nat, Slab>, num: nat, list: seq<nat>, s: nat)
    requires s in slabs
    ensures FreeCount(slabs, num, list + [s]) == FreeCount(slabs, num, list) + num - slabs[s].inuse
  {
    if list == [] {
      assert [] + [s] == [s];
    } else {
      FreeCountAppend(slabs, num, list[1..], s);
      assert (list + [s])[1..] == list[1..] + [s];
    }
  }

  lemma {:induction false} FreeCountRemove(slabs: map<nat, Slab>, num: nat, list: seq<nat>, s: nat)
    requires s in slabs && s in list
    ensures FreeCount(slabs, num, Remove(list, s)) == FreeCount(slabs, num, list) - num + slabs[s].inuse
  {
    if list[0] == s {
    } else {
      assert s in list[1..];
      FreeCountRemove(slabs, num, list[1..], s);
      assert Remove(list, s)[1..] == Remove(list[1..], s);
    }
  }

  lemma {:induction false} RemoveAbsent(list: seq<nat>, s: nat)
    requires s !in list
    ensures Remove(list, s) == list
  {
    if list == [] {
    } else {
      RemoveAbsent(list[1..], s);
    }
  }

  lemma {:induction false} FreeCountUpdate(slabs: map<nat, Slab>, num: nat, list: seq<nat>, s: nat, x: Slab)
    requires NoDup(list) && s in list && s in slabs
    ensures FreeCount(slabs[s := x], num, list) == FreeCount(slabs, num, list) + slabs[s].inuse - x.inuse
  {
    assert forall t :: t in list[1..] ==> t in list;
    if list[0] == s {
      assert s !in list[1..];
      FreeCountFrame(slabs, slabs[s := x], num, list[1..]);
    } else {
      FreeCountUpdate(slabs, num, list[1..], s, x);
    }
  }

  // ----- single lists

  /** `homes` and `slabs` agree with their successors except at `s`. */
  ghost predicate SameBut(homes: map<nat, Home>, slabs: map<nat, Slab>,
                          homes': map<nat, Home>, slabs': map<nat, Slab>, s: nat) {
    && (forall t :: t != s ==> (t in homes <==> t in homes') && (t in homes ==> homes[t] == homes'[t]))
    && (forall t :: t != s ==> (t in slabs <==> t in slabs') && (t in slabs ==> slabs[t] == slabs'[t]))
  }

  lemma OnListFrame(list: seq<nat>, c: nat, homes: map<nat, Home>, slabs: map<nat, Slab>, lo: nat, hi: int,
                    homes': map<nat, Home>, slabs': map<nat, Slab>, s: nat)
    requires OnList(list, c, homes, slabs, lo, hi) && SameBut(homes, slabs, homes', slabs', s) && s !in list
    ensures OnList(list, c, homes', slabs', lo, hi)
  {
    hide NoDup;
  }

  lemma OnListCons(list: seq<nat>, c: nat, homes: map<nat, Home>, slabs: map<nat, Slab>, lo: nat, hi: int, s: nat)
    requires OnList(list, c, homes, slabs, lo, hi) && s !in list
    requires s in homes && s in slabs && homes[s].cache == c && lo <= slabs[s].inuse <= hi
    ensures OnList([s] + list, c, homes, slabs, lo, hi) && OnList(list + [s], c, homes, slabs, lo, hi)
  {
  }

  lemma OnListRemove(list: seq<nat>, c: nat, homes: map<nat, Home>, slabs: map<nat, Slab>, lo: nat, hi: int, s: nat)
    requires OnList(list, c, homes, slabs, lo, hi)
    ensures OnList(Remove(list, s), c, homes, slabs, lo, hi)
    ensures forall t :: t in Remove(list, s) <==> t in list && t != s
  {
    if s in list {
      RemoveMembers(list, s);
      RemoveKeepsNoDup(list, s);
    } else {
      RemoveAbsent(list, s);
    }
  }

  lemma FreeCountOther(list: seq<nat>, c: nat, homes: map<nat, Home>, slabs: map<nat, Slab>,
                       homes': map<nat, Home>, slabs': map<nat, Slab>, s: nat, num: nat)
    requires SameBut(homes, slabs, homes', slabs', s) && s !in list
    ensures FreeCount(slabs, num, list) == FreeCount(slabs', num, list)
  {
    FreeCountFrame(slabs, slabs', num, list);
  }

  /** The lists are in order as far as every slab but `s` goes, and `s` is on none of them. */
  ghost predicate ListsBut(cc: Cache, c: nat, homes: map<nat, Home>, slabs: map<nat, Slab>, s: nat) {
    && OnList(cc.partial, c, homes, slabs, 1, cc.geo.num - 1)
    && OnList(cc.full, c, homes, slabs, cc.geo.num, cc.geo.num)
    && OnList(cc.free, c, homes, slabs, 0, 0)
    && |cc.free| <= 1
    && s !in cc.partial && s !in cc.full && s !in cc.free
    && ListedBut(cc, c, homes, s)
    && Counted(cc, slabs)
  }

  ghost predicate ListedBut(cc: Cache, c: nat, homes: map<nat, Home>, s: nat) {
    forall t :: t in homes && homes[t].cache == c && t != s ==> t in cc.partial || t in cc.full || t in cc.free
  }

  lemma ListsButFrame(cc: Cache, c: nat, homes: map<nat, Home>, slabs: map<nat, Slab>,
                      homes': map<nat, Home>, slabs': map<nat, Slab>, s: nat)
    requires ListsBut(cc, c, homes, slabs, s) && SameBut(homes, slabs, homes', slabs', s) && cc.geo.num >= 1
    ensures ListsBut(cc, c, homes', slabs', s)
  {
    var num := cc.geo.num;
    assert ListedBut(cc, c, homes', s);
    hide OnList, SameBut, ListedBut, FreeCount;
    OnListFrame(cc.partial, c, homes, slabs, 1, num - 1, homes', slabs', s);
    OnListFrame(cc.full, c, homes, slabs, num, num, homes', slabs', s);
    OnListFrame(cc.free, c, homes, slabs, 0, 0, homes', slabs', s);
    FreeCountOther(cc.partial, c, homes, slabs, homes', slabs', s, num);
    FreeCountOther(cc.full, c, homes, slabs, homes', slabs', s, num);
    FreeCountOther(cc.free, c, homes, slabs, homes', slabs', s, num);
  }

  lemma NotOurs(cc: Cache, c: nat, homes: map<nat, Home>, slabs: map<nat, Slab>, s: nat)
    requires s in homes ==> homes[s].cache != c
    ensures ListsOK(cc, c, homes, slabs) <==> ListsBut(cc, c, homes, slabs, s)
  {
    hide NoDup, FreeCount;
  }

  /** The lists of one cache do not notice a change to a slab of another. */
  lemma ListsFrame(cc: Cache, c: nat, homes: map<nat, Home>, slabs: map<nat, Slab>,
                   homes': map<nat, Home>, slabs': map<nat, Slab>, s: nat)
    requires ListsOK(cc, c, homes, slabs) && SameBut(homes, slabs, homes', slabs', s) && cc.geo.num >= 1
    requires s in homes ==> homes[s].cache != c
    requires s in homes' ==> homes'[s].cache != c
    ensures ListsOK(cc, c, homes', slabs')
  {
    hide *;
    NotOurs(cc, c, homes, slabs, s);
    ListsButFrame(cc, c, homes, slabs, homes', slabs', s);
    NotOurs(cc, c, homes', slabs', s);
  }

  // ----- taking a slab off its list, putting it on one

  ghost function Detached(cc: Cache, slabs: map<nat, Slab>, s: nat): Cache
    requires s in slabs
  {
    cc.(partial := Remove(cc.partial, s), full := Remove(cc.full, s), free := Remove(cc.free, s),
        freeObjects := cc.freeObjects - (cc.geo.num - slabs[s].inuse))
  }

  lemma FreeCountDetach(slabs: map<nat, Slab>, num: nat, list: seq<nat>, s: nat)
    requires s in slabs
    ensures FreeCount(slabs, num, Remove(list, s)) ==
            FreeCount(slabs, num, list) - if s in list then num - slabs[s].inuse else 0
  {
    hide FreeCount, Remove;
    if s in list { FreeCountRemove(slabs, num, list, s); } else { RemoveAbsent(list, s); }
  }

  lemma OnOneList(cc: Cache, c: nat, homes: map<nat, Home>, slabs: map<nat, Slab>, s: nat)
    requires ListsOK(cc, c, homes, slabs) && cc.geo.num >= 1 && s in homes && homes[s].cache == c
    ensures s in slabs
    ensures s in cc.partial <==> s !in cc.full && s !in cc.free
    ensures s in cc.full <==> s !in cc.partial && s !in cc.free
    ensures s in cc.free <==> s !in cc.partial && s !in cc.full
    ensures s in cc.full <==> slabs[s].inuse == cc.geo.num
    ensures s in cc.free <==> slabs[s].inuse == 0
    ensures slabs[s].inuse <= cc.geo.num
  {
    hide NoDup, FreeCount;
  }

  lemma DetachedOK(cc: Cache, c: nat, homes: map<nat, Home>, slabs: map<nat, Slab>, s: nat)
    requires ListsOK(cc, c, homes, slabs) && cc.geo.num >= 1 && s in homes && homes[s].cache == c
    ensures s in slabs && ListsBut(Detached(cc, slabs, s), c, homes, slabs, s)
  {
    hide FreeCount, Remove, NoDup, OnList;
    var num := cc.geo.num;
    OnOneList(cc, c, homes, slabs, s);
    OnListRemove(cc.partial, c, homes, slabs, 1, num - 1, s);
    OnListRemove(cc.full, c, homes, slabs, num, num, s);
    OnListRemove(cc.free, c, homes, slabs, 0, 0, s);
    FreeCountDetach(slabs, num, cc.partial, s);
    FreeCountDetach(slabs, num, cc.full, s);
    FreeCountDetach(slabs, num, cc.free, s);
    RemoveIsShorter(cc.free, s);
  }

  lemma {:induction false} RemoveIsShorter(list: seq<nat>, s: nat)
    ensures |Remove(list, s)| <= |list|
  {
    if list == [] {
    } else {
      RemoveIsShorter(list[1..], s);
    }
  }

  lemma AttachPartial(cc: Cache, c: nat, homes: map<nat, Home>, slabs: map<nat, Slab>, s: nat)
    requires ListsBut(cc, c, homes, slabs, s) && s in homes && s in slabs && homes[s].cache == c
    requires 0 < slabs[s].inuse < cc.geo.num
    ensures var d := cc.geo.num - slabs[s].inuse;
            && ListsOK(cc.(partial := [s] + cc.partial, freeObjects := cc.freeObjects + d), c, homes, slabs)
            && ListsOK(cc.(partial := cc.partial + [s], freeObjects := cc.freeObjects + d), c, homes, slabs)
  {
    hide FreeCount, NoDup, OnList;
    OnListCons(cc.partial, c, homes, slabs, 1, cc.geo.num - 1, s);
    FreeCountAppend(slabs, cc.geo.num, cc.partial, s);
    FreeCountFirst(slabs, cc.geo.num, cc.partial, s);
  }

  lemma FreeCountFirst(slabs: map<nat, Slab>, num: nat, list: seq<nat>, s: nat)
    requires s in slabs
    ensures FreeCount(slabs, num, [s] + list) == FreeCount(slabs, num, list) + num - slabs[s].inuse
  {
    assert ([s] + list)[1..] == list;
  }

  lemma AttachFull(cc: Cache, c: nat, homes: map<nat, Home>, slabs: map<nat, Slab>, s: nat)
    requires ListsBut(cc, c, homes, slabs, s) && s in homes && s in slabs && homes[s].cache == c
    requires slabs[s].inuse == cc.geo.num
    ensures ListsOK(cc.(full := [s] + cc.full), c, homes, slabs)
  {
    OnListCons(cc.full, c, homes, slabs, cc.geo.num, cc.geo.num, s);
    FreeCountFirst(slabs, cc.geo.num, cc.full, s);
    hide FreeCount, NoDup, OnList;
  }

  lemma AttachFree(cc: Cache, c: nat, homes: map<nat, Home>, slabs: map<nat, Slab>, s: nat)
    requires ListsBut(cc, c, homes, slabs, s) && s in homes && s in slabs && homes[s].cache == c
    requires slabs[s].inuse == 0 && cc.free == []
    ensures ListsOK(cc.(free := [s], freeObjects := cc.freeObjects + cc.geo.num), c, homes, slabs)
  {
    OnListCons(cc.free, c, homes, slabs, 0, 0, s);
    assert [s] + cc.free == [s];
    FreeCountFirst(slabs, cc.geo.num, cc.free, s);
    hide FreeCount, NoDup, OnList;
  }

  lemma ForgetSlab(cc: Cache, c: nat, homes: map<nat, Home>, slabs: map<nat, Slab>, s: nat)
    requires ListsBut(cc, c, homes, slabs, s) && s !in homes
    ensures ListsOK(cc, c, homes, slabs)
  {
    hide FreeCount, NoDup;
  }

  lemma SameButUpdate(homes: map<nat, Home>, slabs: map<nat, Slab>, s: nat, h: Home, x: Slab)
    ensures SameBut(homes, slabs, homes[s := h], slabs[s := x], s)
    ensures SameBut(homes, slabs, homes - {s}, slabs - {s}, s)
  {
  }

  // ----- the four moves

  lemma DetachFirst(cc: Cache, c: nat, homes: map<nat, Home>, slabs: map<nat, Slab>, s: nat, fromFree: bool)
    requires ListsOK(cc, c, homes, slabs) && cc.geo.num >= 1 && s in homes && homes[s].cache == c && s in slabs
    requires if fromFree then cc.free != [] && s == cc.free[0] else cc.partial != [] && s == cc.partial[0]
    ensures var d := Detached(cc, slabs, s);
            && d.full == cc.full
            && (fromFree ==> d.partial == cc.partial && d.free == [] && cc.free[1..] == [])
            && (!fromFree ==> d.partial == cc.partial[1..] && d.free == cc.free && [s] + d.partial == cc.partial)
            && ([s] + d.partial)[1..] == d.partial
  {
    OnOneList(cc, c, homes, slabs, s);
    hide ListsOK;
    RemoveAbsentUnless(cc.partial, s);
    RemoveAbsentUnless(cc.full, s);
    RemoveAbsentUnless(cc.free, s);
  }

  lemma RemoveAbsentUnless(list: seq<nat>, s: nat)
    ensures s !in list ==> Remove(list, s) == list
    ensures list != [] && list[0] == s ==> Remove(list, s) == list[1..]
  {
    if s !in list { RemoveAbsent(list, s); }
  }

  lemma TakenIsAMove(cc: Cache, d: Cache, s: nat, fromFree: bool, before: nat)
    requires if fromFree then cc.free != [] else cc.partial != []
    requires d.geo == cc.geo && d.colourNext == cc.colourNext && d.slabpCache == cc.slabpCache
    requires d.freeObjects == cc.freeObjects - (cc.geo.num - before) && d.full == cc.full
    requires fromFree ==> d.partial == cc.partial && d.free == [] && cc.free[1..] == []
    requires !fromFree ==> d.partial == cc.partial[1..] && d.free == cc.free && [s] + d.partial == cc.partial
    ensures before + 1 == cc.geo.num ==> Taken(cc, s, fromFree, true) == d.(full := [s] + d.full)
    ensures Taken(cc, s, fromFree, false) ==
            d.(partial := [s] + d.partial, freeObjects := d.freeObjects + (cc.geo.num - (before + 1)))
  {
    assert ([s] + d.partial)[1..] == d.partial;
  }

  /** Taking an object keeps the lists in order. */
  lemma TakenOK(cc: Cache, c: nat, homes: map<nat, Home>, slabs: map<nat, Slab>, s: nat, h: Home, x: Slab,
                fromFree: bool)
    requires ListsOK(cc, c, homes, slabs) && cc.geo.num >= 1
    requires if fromFree then cc.free != [] && s == cc.free[0] else cc.partial != [] && s == cc.partial[0]
    requires s in slabs && s in homes && homes[s].cache == c && h.cache == c
    requires x.inuse == slabs[s].inuse + 1 <= cc.geo.num
    ensures ListsOK(Taken(cc, s, fromFree, x.inuse == cc.geo.num), c, homes[s := h], slabs[s := x])
  {
    hide *;
    DetachedOK(cc, c, homes, slabs, s);
    DetachFirst(cc, c, homes, slabs, s, fromFree);
    var d := Detached(cc, slabs, s);
    DetachedParts(cc, slabs, s);
    SameButUpdate(homes, slabs, s, h, x);
    ListsButFrame(d, c, homes, slabs, homes[s := h], slabs[s := x], s);
    TakenIsAMove(cc, d, s, fromFree, slabs[s].inuse);
    if x.inuse == cc.geo.num {
      AttachFull(d, c, homes[s := h], slabs[s := x], s);
    } else {
      AttachPartial(d, c, homes[s := h], slabs[s := x], s);
    }
  }

  lemma DetachedParts(cc: Cache, slabs: map<nat, Slab>, s: nat)
    requires s in slabs
    ensures var d := Detached(cc, slabs, s);
            && d.geo == cc.geo && d.colourNext == cc.colourNext && d.slabpCache == cc.slabpCache
            && d.freeObjects == cc.freeObjects - (cc.geo.num - slabs[s].inuse)
            && d.partial == Remove(cc.partial, s) && d.full == Remove(cc.full, s) && d.free == Remove(cc.free, s)
  {
  }

  lemma {:induction false} FreeCountBounds(slabs: map<nat, Slab>, num: nat, list: seq<nat>)
    requires forall t :: t in list ==> t in slabs && slabs[t].inuse <= num
    ensures FreeCount(slabs, num, list) >= 0
    ensures FreeCount(slabs, num, list) == 0 ==> forall t :: t in list ==> slabs[t].inuse == num
  {
    if list == [] {
    } else {
      assert forall t :: t in list[1..] ==> t in list;
      assert list[0] in list;
      FreeCountBounds(slabs, num, list[1..]);
      assert list == [list[0]] + list[1..];
    }
  }

  /** If only the slab `s` accounts for free objects, every other slab of the cache is full. */
  lemma OthersAreFull(cc: Cache, c: nat, homes: map<nat, Home>, slabs: map<nat, Slab>, s: nat)
    requires ListsBut(cc, c, homes, slabs, s) && cc.freeObjects <= 0 && cc.geo.num >= 1
    ensures cc.partial == [] && cc.free == []
    ensures forall t :: t in homes && homes[t].cache == c && t != s ==> t in slabs && slabs[t].inuse == cc.geo.num
  {
    FreeCountBounds(slabs, cc.geo.num, cc.partial);
    FreeCountBounds(slabs, cc.geo.num, cc.full);
    FreeCountBounds(slabs, cc.geo.num, cc.free);
    hide FreeCount, NoDup;
  }

  /** Giving an object back keeps the lists in order; a slab that becomes empty is kept only if
      every other slab of the cache is full. */
  lemma ReturnedOK(cc: Cache, c: nat, homes: map<nat, Home>, slabs: map<nat, Slab>, s: nat, h: Home, x: Slab)
    requires ListsOK(cc, c, homes, slabs) && cc.geo.num >= 1
    requires s in slabs && s in homes && homes[s].cache == c && h.cache == c
    requires slabs[s].inuse == x.inuse + 1
    requires x.inuse == 0 ==> cc.freeObjects + 1 <= cc.geo.num
    ensures ListsOK(Returned(cc, s, slabs[s].inuse == cc.geo.num, x.inuse == 0), c, homes[s := h], slabs[s := x])
    ensures x.inuse == 0 ==>
              forall t :: t in homes && homes[t].cache == c && t != s ==> t in slabs && slabs[t].inuse == cc.geo.num
  {
    hide ListsOK, ListsBut, SameBut, Detached, Remove;
    DetachedOK(cc, c, homes, slabs, s);
    OnOneList(cc, c, homes, slabs, s);
    var d := Detached(cc, slabs, s);
    DetachedParts(cc, slabs, s);
    SameButUpdate(homes, slabs, s, h, x);
    ListsButFrame(d, c, homes, slabs, homes[s := h], slabs[s := x], s);
    RemoveAbsentUnless(cc.partial, s);
    RemoveAbsentUnless(cc.full, s);
    RemoveAbsentUnless(cc.free, s);
    if x.inuse == 0 {
      OthersAreFull(d, c, homes, slabs, s);
      AttachFree(d, c, homes[s := h], slabs[s := x], s);
      assert [s] + cc.free == [s];
    } else if slabs[s].inuse == cc.geo.num {
      AttachPartial(d, c, homes[s := h], slabs[s := x], s);
    } else {
      StayPartial(cc, c, homes, slabs, s, h, x);
    }
  }

  lemma StayPartial(cc: Cache, c: nat, homes: map<nat, Home>, slabs: map<nat, Slab>, s: nat, h: Home, x: Slab)
    requires ListsOK(cc, c, homes, slabs) && cc.geo.num >= 1
    requires s in slabs && s in homes && homes[s].cache == c && h.cache == c
    requires slabs[s].inuse == x.inuse + 1 < cc.geo.num && 0 < x.inuse
    ensures ListsOK(cc.(freeObjects := cc.freeObjects + 1), c, homes[s := h], slabs[s := x])
  {
    hide NoDup, FreeCount;
    OnOneList(cc, c, homes, slabs, s);
    FreeCountUpdate(slabs, cc.geo.num, cc.partial, s, x);
    FreeCountFrame(slabs, slabs[s := x], cc.geo.num, cc.full);
    FreeCountFrame(slabs, slabs[s := x], cc.geo.num, cc.free);
  }

  /** Giving up an emptied slab keeps the lists in order. */
  lemma DroppedOK(cc: Cache, c: nat, homes: map<nat, Home>, slabs: map<nat, Slab>, s: nat)
    requires ListsOK(cc, c, homes, slabs) && cc.geo.num >= 1
    requires s in slabs && s in homes && homes[s].cache == c && slabs[s].inuse == 1
    ensures ListsOK(Dropped(cc, s), c, homes - {s}, slabs - {s})
  {
    hide ListsOK, ListsBut, SameBut, Detached, Remove;
    DetachedOK(cc, c, homes, slabs, s);
    OnOneList(cc, c, homes, slabs, s);
    var d := Detached(cc, slabs, s);
    DetachedParts(cc, slabs, s);
    SameButUpdate(homes, slabs, s, homes[s], slabs[s]);
    ListsButFrame(d, c, homes, slabs, homes - {s}, slabs - {s}, s);
    RemoveAbsentUnless(cc.free, s);
    ForgetSlab(d, c, homes - {s}, slabs - {s}, s);
  }

  /** A fresh slab keeps the lists in order. */
  lemma GrownOK(cc: Cache, c: nat, homes: map<nat, Home>, slabs: map<nat, Slab>, s: nat, h: Home, x: Slab)
    requires ListsOK(cc, c, homes, slabs) && cc.geo.num >= 1 && cc.free == []
    requires s !in homes && h.cache == c && x.inuse == 0
    ensures ListsOK(Grown(cc, s), c, homes[s := h], slabs[s := x])
  {
    hide ListsOK, ListsBut, SameBut;
    NotOurs(cc, c, homes, slabs, s);
    SameButUpdate(homes, slabs, s, h, x);
    ListsButFrame(cc, c, homes, slabs, homes[s := h], slabs[s := x], s);
    AttachFree(cc, c, homes[s := h], slabs[s := x], s);
    assert cc.free + [s] == [s];
  }
}
