/** Where slabs and objects lie, and how pages lead back to them. */
module SlabPlaces {
  import opened Bits
  import opened Blocks
  import opened PageAddr
  import opened SlabLayout
  import opened Zone
  import opened ZoneProofs
  import opened ZoneLinks
  import opened SlabModel

  /** The address lies in the direct map of the block. */
  predicate InPages(x: nat, base: nat, order: nat) {
    PAGE_OFFSET + base * PAGE_SIZE <= x < PAGE_OFFSET + base * PAGE_SIZE + SlabBytes(order)
  }

  lemma PageOfBlock(x: nat, base: nat, order: nat)
    requires InPages(x, base, order)
    ensures InBlock(VirtToPage(x), base, order)
  {
  }

  lemma BlockInDirectMap(k: Kernel, p: nat)
    requires PagesOK(k) && p in k.live
    ensures p + Pow2(k.live[p]) <= |k.zone.pages| == |k.first| <= DIRECT_PAGES && |k.zone.pages| <= |k.lru|
    ensures p < DIRECT_PAGES && PageAddress(p) == PAGE_OFFSET + p * PAGE_SIZE
  {
    InvParts(k.zone, k.live);
    hide Inv;
    PageOfAddress(p, 0);
  }

  lemma ObjectIsInside(g: Geometry, s: nat, sl: Slab, base: nat, a: nat)
    requires PlacedSlab(g, s, sl, base) && IsObject(g, sl.sMem, a)
    ensures sl.sMem <= a && a + g.objsize <= PageAddress(base) + SlabBytes(g.order)
  {
    hide SlabBytes, PageAddress;
    var i: nat :| i < g.num && a == ObjectAt(sl.sMem, g.objsize, i);
    ObjectBounds(sl.sMem, g.objsize, g.num, i);
  }

  /** Every byte of every object, live or free, lies in the slab's own pages. */
  lemma ObjectInPages(k: Kernel, s: nat, a: nat)
    requires PagesOK(k) && SlabOK(k, s)
    requires IsObject(k.caches[k.homes[s].cache].geo, k.slabs[s].sMem, a)
    ensures var h := k.homes[s]; var g := k.caches[h.cache].geo;
            && PAGE_OFFSET + h.base * PAGE_SIZE + Header(g) <= k.slabs[s].sMem <= a
            && a + g.objsize <= PAGE_OFFSET + h.base * PAGE_SIZE + SlabBytes(g.order)
            && (!g.offSlab ==> s + g.slabSize == k.slabs[s].sMem && PAGE_OFFSET + h.base * PAGE_SIZE <= s)
  {
    hide PagesOK, ChainOK, PointsBack, IsObject, SlabBytes, PageAddress;
    var h := k.homes[s];
    BlockInDirectMap(k, h.base);
    ObjectIsInside(k.caches[h.cache].geo, s, k.slabs[s], h.base, a);
  }

  /** A page of a slab's block leads to that slab and its cache. */
  lemma PageLeadsBack(k: Kernel, s: nat, q: nat)
    requires PagesOK(k) && SlabOK(k, s)
    requires InBlock(q, k.homes[s].base, k.caches[k.homes[s].cache].geo.order)
    ensures q < |k.first| && k.first[q] == k.homes[s].base
    ensures q < |k.lru| && k.lru[q] == Owner(k.homes[s].cache, s)
    ensures k.homes[s].base < |k.lru| && k.lru[k.homes[s].base] == Owner(k.homes[s].cache, s)
  {
    hide PagesOK, ChainOK, PlacedSlab;
    assert InBlock(k.homes[s].base, k.homes[s].base, k.caches[k.homes[s].cache].geo.order);
  }

  /** Two slabs that share a page are the same slab. */
  lemma SamePageSameSlab(k: Kernel, s: nat, t: nat, q: nat)
    requires PagesOK(k) && SlabOK(k, s) && SlabOK(k, t)
    requires InBlock(q, k.homes[s].base, k.caches[k.homes[s].cache].geo.order)
    requires InBlock(q, k.homes[t].base, k.caches[k.homes[t].cache].geo.order)
    ensures s == t
  {
    hide SlabOK, PagesOK;
    PageLeadsBack(k, s, q);
    PageLeadsBack(k, t, q);
  }

  lemma ObjectPage(k: Kernel, s: nat, a: nat)
    requires PagesOK(k) && SlabOK(k, s) && k.caches[k.homes[s].cache].geo.objsize >= 1
    requires IsObject(k.caches[k.homes[s].cache].geo, k.slabs[s].sMem, a)
    ensures InPages(a, k.homes[s].base, k.caches[k.homes[s].cache].geo.order)
    ensures InBlock(VirtToPage(a), k.homes[s].base, k.caches[k.homes[s].cache].geo.order)
  {
    var base, order := k.homes[s].base, k.caches[k.homes[s].cache].geo.order;
    hide SlabOK, PagesOK, IsObject, SlabBytes, VirtToPage;
    ObjectInPages(k, s, a);
    PageOfBlock(a, base, order);
  }

  /** An address is an object of at most one slab. */
  lemma ObjectHasOneSlab(k: Kernel, s: nat, t: nat, a: nat)
    requires PagesOK(k) && SlabOK(k, s) && SlabOK(k, t)
    requires k.caches[k.homes[s].cache].geo.objsize >= 1 && k.caches[k.homes[t].cache].geo.objsize >= 1
    requires IsObject(k.caches[k.homes[s].cache].geo, k.slabs[s].sMem, a)
    requires IsObject(k.caches[k.homes[t].cache].geo, k.slabs[t].sMem, a)
    ensures s == t
  {
    hide *;
    ObjectPage(k, s, a);
    ObjectPage(k, t, a);
    SamePageSameSlab(k, s, t, VirtToPage(a));
  }
}
