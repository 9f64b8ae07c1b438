/** What allocation leaves in place: everything held stays held, where it was, with its contents. */
module SlabFrames {
  import opened Blocks
  import opened PageAddr
  import opened SlabLayout
  import opened SlabModel
  import opened SlabLists
  import opened SlabPlaces
  import opened SlabLocal
  import opened SlabObjects
  import opened SlabGrow

  /** The word belongs to an object that is handed out. */
  ghost predicate InHeldObject(k: Kernel, w: nat) {
    exists t: nat, a: nat :: Holds(k, t, a) && a <= w < a + k.caches[k.homes[t].cache].geo.objsize
  }

  /** The word belongs to a page block that is handed out directly. */
  ghost predicate InHeldPages(k: Kernel, w: nat) {
    exists p :: p in k.live && p !in k.marked && InPages(w, p, k.live[p])
  }

  predicate SameWord(words: map<nat, nat>, words': map<nat, nat>, w: nat) {
    (w in words <==> w in words') && (w in words ==> words[w] == words'[w])
  }

  /** No word of anything handed out has changed. */
  ghost predicate KeepsWords(k: Kernel, k': Kernel) {
    forall w :: InHeldObject(k, w) || InHeldPages(k, w) ==> SameWord(k.words, k'.words, w)
  }

  ghost predicate KeepsHeld(k: Kernel, k': Kernel) {
    forall t: nat, a: nat :: Holds(k, t, a) ==> Holds(k', t, a)
  }

  ghost predicate KeepsBlocks(k: Kernel, k': Kernel) {
    forall p :: p in k.live ==> p in k'.live && k'.live[p] == k.live[p] && (p in k'.marked <==> p in k.marked)
  }

  /** Slabs that were not there before sit on pages that were not handed out before. */
  ghost predicate NewSlabsOnNewPages(k: Kernel, k': Kernel) {
    forall t :: t in k'.homes ==> t in k.homes || k'.homes[t].base !in k.live
  }

  ghost predicate IsBase(homes: map<nat, Home>, p: nat) {
    exists s :: s in homes && homes[s].base == p
  }

  /** Every block marked since `k` is the block of a slab, or one of `pending`. */
  ghost predicate Settles(k: Kernel, k': Kernel, pending: set<nat>) {
    forall p :: p in k'.marked ==> p in k.marked || p in pending || IsBase(k'.homes, p)
  }

  ghost predicate SameBasics(a: Cache, b: Cache) { a.geo == b.geo && a.slabpCache == b.slabpCache }

  /** Objects and page blocks held in `k` are still held in `k'`; slabs stay where they are; caches
      outside `cs` are untouched. */
  ghost predicate Extends(k: Kernel, k': Kernel, cs: set<nat>) {
    && k'.caches.Keys == k.caches.Keys
    && (forall d :: d in k.caches ==> SameBasics(k.caches[d], k'.caches[d]))
    && (forall d :: d in k.caches && d !in cs ==> k'.caches[d] == k.caches[d])
    && (forall t :: t in k.homes ==>
          t in k'.homes && k'.homes[t].cache == k.homes[t].cache && k'.homes[t].base == k.homes[t].base)
    && KeepsHeld(k, k')
    && KeepsBlocks(k, k')
    && KeepsWords(k, k')
  }

  // ----- composition

  lemma KeepsWordsTrans(k: Kernel, k1: Kernel, k2: Kernel)
    requires KeepsWords(k, k1) && KeepsWords(k1, k2) && KeepsHeld(k, k1) && KeepsBlocks(k, k1)
    requires forall t :: t in k.homes ==> t in k1.homes && k1.homes[t].cache == k.homes[t].cache
    requires forall d :: d in k.caches ==> d in k1.caches && k.caches[d].geo == k1.caches[d].geo
    ensures KeepsWords(k, k2)
  {
    hide IsObject, InPages;
    forall w: nat | InHeldObject(k, w) || InHeldPages(k, w) ensures SameWord(k.words, k2.words, w) {
      if InHeldObject(k, w) {
        var t: nat, a: nat :| Holds(k, t, a) && a <= w < a + k.caches[k.homes[t].cache].geo.objsize;
        assert Holds(k1, t, a);
      } else {
        var p :| p in k.live && p !in k.marked && InPages(w, p, k.live[p]);
        assert p in k1.live && p !in k1.marked && InPages(w, p, k1.live[p]);
      }
      assert SameWord(k.words, k1.words, w) && SameWord(k1.words, k2.words, w);
    }
  }

  lemma ExtendsTrans(k: Kernel, k1: Kernel, k2: Kernel, cs: set<nat>)
    requires Extends(k, k1, cs) && Extends(k1, k2, cs)
    ensures Extends(k, k2, cs)
  {
    hide KeepsWords, Holds;
    KeepsWordsTrans(k, k1, k2);
  }

  lemma ExtendsMore(k: Kernel, k1: Kernel, cs: set<nat>, ds: set<nat>)
    requires Extends(k, k1, cs) && cs <= ds
    ensures Extends(k, k1, ds)
  {
    hide KeepsWords, KeepsHeld, KeepsBlocks;
  }

  lemma NewSlabsTrans(k: Kernel, k1: Kernel, k2: Kernel, cs: set<nat>)
    requires NewSlabsOnNewPages(k, k1) && NewSlabsOnNewPages(k1, k2) && Extends(k, k1, cs) && Extends(k1, k2, cs)
    ensures NewSlabsOnNewPages(k, k2)
  {
    hide KeepsWords, KeepsHeld;
  }

  lemma BasesPersist(k: Kernel, k': Kernel, cs: set<nat>, p: nat)
    requires Extends(k, k', cs) && IsBase(k.homes, p)
    ensures IsBase(k'.homes, p)
  {
    hide KeepsWords, KeepsHeld, KeepsBlocks;
    var s :| s in k.homes && k.homes[s].base == p;
    assert s in k'.homes && k'.homes[s].base == p;
  }

  lemma SettlesTrans(k: Kernel, k1: Kernel, k2: Kernel, cs: set<nat>, pending: set<nat>, pending': set<nat>)
    requires Settles(k, k1, pending) && Settles(k1, k2, pending') && Extends(k1, k2, cs)
    ensures Settles(k, k2, pending + pending')
  {
    hide Extends;
    forall p | p in k2.marked ensures p in k.marked || p in pending + pending' || IsBase(k2.homes, p) {
      if p in k1.marked && p !in k.marked && p !in pending { BasesPersist(k1, k2, cs, p); }
    }
  }

  // ----- the elementary steps

  lemma TakeExtends(k: Kernel, c: nat, s: nat, fromFree: bool)
    requires KInv(k) && c in k.caches && IsNext(k.caches[c], s, fromFree)
    ensures s in k.homes && s in k.slabs && k.homes[s].chain != [] && k.slabs[s].freeList in k.words
    ensures var k' := TakeObj(k, c, s, fromFree).0; Extends(k, k', {c}) && NewSlabsOnNewPages(k, k')
  {
    hide KInv, IsObject, Taken, WordsOutside;
    HandOutKeepsInv(k, c, s, fromFree);
    var k' := TakeObj(k, c, s, fromFree).0;
    LocalFacts(k, k', c, s);
    assert forall a :: a in k'.homes[s].chain ==> a in k.homes[s].chain;
    assert KeepsHeld(k, k');
  }

  /** Nothing but pages, colours and page records moved. */
  lemma PagesExtend(k: Kernel, k': Kernel, cs: set<nat>)
    requires k'.homes == k.homes && k'.slabs == k.slabs && k'.words == k.words && KeepsBlocks(k, k')
    requires k'.caches.Keys == k.caches.Keys
    requires forall d :: d in k.caches ==> d in k'.caches && SameBasics(k.caches[d], k'.caches[d])
    requires forall d :: d in k.caches && d !in cs ==> k'.caches[d] == k.caches[d]
    ensures Extends(k, k', cs) && NewSlabsOnNewPages(k, k')
  {
    hide IsObject, KeepsBlocks;
    assert KeepsHeld(k, k');
  }

  /** The page of a guarded word belongs to a block other than the one a fresh slab gets. */
  lemma GuardedPage(k: Kernel, w: nat, base: nat)
    requires KInv(k) && (InHeldObject(k, w) || InHeldPages(k, w))
    requires base in k.marked && forall t :: t in k.homes ==> k.homes[t].base != base
    ensures exists p :: p in k.live && p != base && InBlock(VirtToPage(w), p, k.live[p])
  {
    ObjectSizes(k);
    if InHeldObject(k, w) {
      var t: nat, a: nat :| Holds(k, t, a) && a <= w < a + k.caches[k.homes[t].cache].geo.objsize;
      assert SlabOK(k, t);
      var p, g := k.homes[t].base, k.caches[k.homes[t].cache].geo;
      assert IsBlock(k.live, p, g.order);
      hide KInv, SlabOK, IsObject, VirtToPage, SlabBytes, GoodGeometry;
      InvariantParts(k);
      ObjectInPages(k, t, a);
      PageOfBlock(w, p, g.order);
    } else {
      hide KInv, VirtToPage, SlabBytes;
      var p :| p in k.live && p !in k.marked && InPages(w, p, k.live[p]);
      PageOfBlock(w, p, k.live[p]);
    }
  }

  lemma InvariantParts(k: Kernel)
    requires KInv(k)
    ensures PagesOK(k) && FlagsOK(k) && CachesOK(k) && SlabsOK(k)
  {
    hide PagesOK, FlagsOK, CachesOK, SlabsOK;
  }

  lemma GuardedIsNotNew(k: Kernel, c: nat, base: nat, colourOff: nat, w: nat)
    requires KInv(k) && c in k.caches && IsBlock(k.live, base, k.caches[c].geo.order) && base in k.marked
    requires forall t :: t in k.homes ==> k.homes[t].base != base
    requires colourOff + k.caches[c].geo.num * k.caches[c].geo.objsize <= SlabBytes(k.caches[c].geo.order)
    requires k.caches[c].geo.objsize >= 1
    requires InHeldObject(k, w) || InHeldPages(k, w)
    ensures !IsObject(k.caches[c].geo, PageAddress(base) + colourOff, w)
  {
    hide KInv, InHeldObject, InHeldPages, VirtToPage, SlabBytes, PageAddress, IsObject, PagesOK, FlagsOK, CachesOK,
         SlabsOK;
    GuardedPage(k, w, base);
    InvariantParts(k);
    if IsObject(k.caches[c].geo, PageAddress(base) + colourOff, w) {
      var p :| p in k.live && p != base && InBlock(VirtToPage(w), p, k.live[p]);
      ObjectInBlock(k, c, base, colourOff, w);
      OtherPagesStay(k, base, k.caches[c].geo.order, p, k.live[p], VirtToPage(w));
      assert false;
    }
  }

  lemma OffsetFits(g: Geometry, offset: nat)
    requires GoodGeometry(g) && offset <= MaxOffset(g)
    ensures g.objsize >= 1 && offset + Header(g) + g.num * g.objsize <= SlabBytes(g.order)
  {
    hide SlabBytes, MaxOffset, Header;
  }

  lemma InsertKeepsWord(k: Kernel, c: nat, s: nat, base: nat, offset: nat, w: nat)
    requires c in k.caches && KInv(k) && CanInsert(k, c, s, base, offset) && (InHeldObject(k, w) || InHeldPages(k, w))
    ensures SameWord(k.words, InsertSlab(k, c, s, base, offset).words, w)
  {
    hide KInv, InHeldObject, InHeldPages, HeldFrom, MaxOffset, SlabBytes, PageAddress, Thread, InsertSlab, IsObject,
         PagesOK, FlagsOK, CachesOK, SlabsOK, GoodGeometry, Header, SameWord;
    var g := k.caches[c].geo;
    InvariantParts(k);
    GeometryIsSafe(k, c);
    OffsetFits(g, offset);
    GuardedIsNotNew(k, c, base, offset + Header(g), w);
    ThreadUntouched(k.words, g, PageAddress(base) + (offset + Header(g)), w);
    InsertWords(k, c, s, base, offset);
  }

  lemma ThreadUntouched(words: map<nat, nat>, g: Geometry, sMem: nat, a: nat)
    requires g.objsize >= 1 && !IsObject(g, sMem, a)
    ensures SameWord(words, Thread(words, g, sMem, g.num, NULL).0, a)
  {
    if a in words { ThreadElsewhere(words, g, sMem, a); } else { ThreadKeys(words, g, sMem, g.num, NULL, a); }
  }

  lemma {:induction false} ThreadKeys(words: map<nat, nat>, g: Geometry, sMem: nat, i: nat, head: nat, a: nat)
    requires i <= g.num && a !in words && !IsObject(g, sMem, a)
    ensures a !in Thread(words, g, sMem, i, head).0
    decreases i
  {
    hide ObjectAt;
    if i == 0 {
    } else {
      assert a != ObjectAt(sMem, g.objsize, i - 1);
      ThreadKeys(words[ObjectAt(sMem, g.objsize, i - 1) := head], g, sMem, i - 1, ObjectAt(sMem, g.objsize, i - 1), a);
    }
  }

  lemma InsertKeepsHeld(k: Kernel, c: nat, s: nat, base: nat, offset: nat)
    requires c in k.caches && s !in k.homes
    ensures KeepsHeld(k, InsertSlab(k, c, s, base, offset))
  {
    hide InsertSlab, IsObject, SameBut;
    InsertFacts(k, c, s, base, offset);
  }

  lemma InsertExtends(k: Kernel, c: nat, s: nat, base: nat, offset: nat)
    requires c in k.caches && s !in k.homes && KInv(k) && CanInsert(k, c, s, base, offset)
    ensures Extends(k, InsertSlab(k, c, s, base, offset), {c})
  {
    hide KInv, InsertSlab, CanInsert, KeepsHeld, InHeldObject, InHeldPages, SameBut, SameWord;
    var k' := InsertSlab(k, c, s, base, offset);
    forall w: nat | InHeldObject(k, w) || InHeldPages(k, w) ensures SameWord(k.words, k'.words, w) {
      InsertKeepsWord(k, c, s, base, offset, w);
    }
    assert KeepsWords(k, k');
    hide KeepsWords;
    InsertFacts(k, c, s, base, offset);
    InsertKeepsHeld(k, c, s, base, offset);
  }
}
