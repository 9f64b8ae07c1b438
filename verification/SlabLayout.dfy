/** The arithmetic of slab layout: how many objects fit, where they lie, how slabs are coloured. */
module SlabLayout {
  import opened Bits
  import opened Options
  import opened PageAddr

  /** `sizeof(slab_t)` */
  const SLAB_T: nat := 28
  /** `cache_line_size()` */
  const CACHE_LINE: nat := 32
  /** `KMALLOC_MAX_ORDER` */
  const MAX_SLAB_ORDER: nat := 10

  /** `ALIGN(x, a)` for a power of two `a`. */
  function AlignUp(x: nat, a: nat): nat
    requires a > 0
  {
    (x + a - 1) / a * a
  }

  function SlabBytes(order: nat): nat { PAGE_SIZE * Pow2(order) }

  /** `slab_mgmt_size` when the descriptor lies in the slab, nothing otherwise. */
  function MgmtSize(align: nat, off: bool): nat
    requires align > 0
  {
    if off then 0 else AlignUp(SLAB_T, align)
  }

  /** `cache_estimate`: the number of objects and the space left over. */
  function CacheEstimate(order: nat, objsize: nat, align: nat, off: bool): (int, int)
    requires objsize > 0 && align > 0
  {
    var slab := SlabBytes(order);
    var n := if off then slab / objsize else (slab - SLAB_T) / objsize;
    var num := if !off && MgmtSize(align, off) + n * objsize > slab then n - 1 else n;
    (num, slab - num * objsize - MgmtSize(align, off))
  }

  /** What `kmem_cache_create` asks of its arguments: a power-of-two alignment up to a page. */
  ghost predicate GoodAlign(align: nat) {
    exists k: nat :: k <= 12 && align == Pow2(k)
  }

  // ----- divisibility

  lemma AlignUpBounds(x: nat, a: nat)
    requires a > 0
    ensures x <= AlignUp(x, a) < x + a && AlignUp(x, a) % a == 0
  {
    var q := (x + a - 1) / a;
    assert a * q == q * a;
    assert (x + a - 1) == a * q + (x + a - 1) % a;
    MultipleHasNoRemainder(a, q);
  }

  /** The mask expression of the `ALIGN` macro, in 32 bits. */
  lemma AlignUpIsMask(x: nat, k: nat)
    requires k <= 12 && x + Pow2(k) <= Pow2(32)
    ensures Pow2(k) <= Pow2(32) && AlignUp(x, Pow2(k)) == And(x + Pow2(k) - 1, Pow2(32) - Pow2(k))
  {
    hide And, Pow2;
    HighBits(x + Pow2(k) - 1, k);
  }

  lemma MultipleSum(x: nat, y: nat, a: nat)
    requires a > 0 && x % a == 0 && y % a == 0
    ensures (x + y) % a == 0
  {
    var p, q := x / a, y / a;
    assert x == a * p && y == a * q;
    assert x + y == a * (p + q);
    MultipleHasNoRemainder(a, p + q);
  }

  lemma MultipleProduct(x: nat, k: nat, a: nat)
    requires a > 0 && x % a == 0
    ensures k * x % a == 0
  {
    var p := x / a;
    assert x == a * p;
    assert k * x == a * (k * p) by { assert k * (a * p) == a * (k * p); }
    MultipleHasNoRemainder(a, k * p);
  }

  lemma Pow2Divides(j: nat, k: nat)
    requires j <= k
    ensures Pow2(k) % Pow2(j) == 0
  {
    Pow2Sum(j, k - j);
    MultipleHasNoRemainder(Pow2(j), Pow2(k - j));
  }

  /** A good alignment divides the page size and the larger of itself and the cache line. */
  lemma GoodAlignDivides(align: nat)
    requires GoodAlign(align)
    ensures 1 <= align <= PAGE_SIZE && PAGE_SIZE % align == 0
    ensures (if CACHE_LINE < align then align else CACHE_LINE) % align == 0
  {
    var k: nat :| k <= 12 && align == Pow2(k);
    assert Pow2(12) == 4096 && Pow2(5) == 32 by { Pow2Sum(6, 6); }
    Pow2Monotone(k, 12);
    Pow2Divides(k, 12);
    if k <= 5 {
      Pow2Monotone(k, 5);
      Pow2Divides(k, 5);
    } else {
      Pow2Monotone(6, k);
      assert align % align == 0 by { MultipleHasNoRemainder(align, 1); }
    }
  }

  // ----- the estimate

  lemma DivisionBounds(x: nat, d: nat)
    requires d > 0
    ensures 0 <= x / d && x / d * d <= x < (x / d + 1) * d
  {
    assert x == d * (x / d) + x % d;
  }

  lemma OneDecrementSuffices(slab: nat, d: nat, m: nat)
    requires d > 0 && SLAB_T <= m < SLAB_T + d && m <= slab
    ensures var n := (slab - SLAB_T) / d;
            var num := if m + n * d > slab then n - 1 else n;
            0 <= num && m + num * d <= slab < m + (num + 1) * d
  {
    var n := (slab - SLAB_T) / d;
    DivisionBounds(slab - SLAB_T, d);
    assert (n - 1) * d == n * d - d && (n + 1) * d == n * d + d;
    assert n == 0 ==> n * d == 0;
  }

  /** The estimate is exact and optimal: the objects, the descriptor and the left-over fill the
      slab, and one more object would not fit. One decrement is always enough. */
  lemma EstimateIsOptimal(order: nat, objsize: nat, align: nat, off: bool)
    requires objsize > 0 && align > 0 && objsize % align == 0 && align <= PAGE_SIZE
    ensures var (num, left) := CacheEstimate(order, objsize, align, off);
            && 0 <= num && 0 <= left
            && MgmtSize(align, off) + num * objsize + left == SlabBytes(order)
            && MgmtSize(align, off) + (num + 1) * objsize > SlabBytes(order)
  {
    hide *;
    PageFits(order);
    if off {
      OffSlabEstimate(order, objsize, align);
    } else {
      MultipleIsLarge(objsize, align);
      AlignUpBounds(SLAB_T, align);
      MgmtFitsPage(align);
      OnSlabEstimate(order, objsize, align);
    }
  }

  lemma OffSlabEstimate(order: nat, objsize: nat, align: nat)
    requires objsize > 0 && align > 0
    ensures var (num, left) := CacheEstimate(order, objsize, align, true);
            && 0 <= num && 0 <= left
            && MgmtSize(align, true) + num * objsize + left == SlabBytes(order)
            && MgmtSize(align, true) + (num + 1) * objsize > SlabBytes(order)
  {
    hide SlabBytes;
    DivisionBounds(SlabBytes(order), objsize);
  }

  lemma OnSlabEstimate(order: nat, objsize: nat, align: nat)
    requires objsize >= align > 0 && PAGE_SIZE <= SlabBytes(order)
    requires SLAB_T <= AlignUp(SLAB_T, align) < SLAB_T + align && AlignUp(SLAB_T, align) <= PAGE_SIZE
    ensures var (num, left) := CacheEstimate(order, objsize, align, false);
            && 0 <= num && 0 <= left
            && MgmtSize(align, false) + num * objsize + left == SlabBytes(order)
            && MgmtSize(align, false) + (num + 1) * objsize > SlabBytes(order)
  {
    hide SlabBytes, AlignUp;
    OneDecrementSuffices(SlabBytes(order), objsize, AlignUp(SLAB_T, align));
  }

  lemma PageFits(order: nat)
    ensures SlabBytes(order) >= PAGE_SIZE
  {
  }

  lemma MultipleIsLarge(x: nat, a: nat)
    requires x > 0 && a > 0 && x % a == 0
    ensures x >= a
  {
  }

  /** A descriptor aligned to at most a page fits a page. */
  lemma MgmtFitsPage(align: nat)
    requires 0 < align <= PAGE_SIZE
    ensures AlignUp(SLAB_T, align) <= PAGE_SIZE
  {
    if align <= SLAB_T {
      AlignUpBounds(SLAB_T, align);
    } else {
      QuotientIsUnique(SLAB_T + align - 1, align, 1, SLAB_T - 1);
    }
  }

  // ----- the order of a slab

  /** `calculate_slab_order`: the first order from `from` up whose slab holds an object, or one
      past the largest. */
  function SlabOrder(objsize: nat, align: nat, off: bool, from: nat): (r: nat)
    requires objsize > 0 && align > 0
    ensures from <= MAX_SLAB_ORDER + 1 ==> from <= r <= MAX_SLAB_ORDER + 1
    decreases MAX_SLAB_ORDER + 1 - from
  {
    if from > MAX_SLAB_ORDER || CacheEstimate(from, objsize, align, off).0 != 0 then from
    else SlabOrder(objsize, align, off, from + 1)
  }

  lemma {:induction false} SlabOrderIsFirst(objsize: nat, align: nat, off: bool, from: nat)
    requires objsize > 0 && align > 0 && from <= MAX_SLAB_ORDER + 1
    ensures var r := SlabOrder(objsize, align, off, from);
            && (forall j: nat :: from <= j < r ==> CacheEstimate(j, objsize, align, off).0 == 0)
            && (r <= MAX_SLAB_ORDER ==> CacheEstimate(r, objsize, align, off).0 != 0)
    decreases MAX_SLAB_ORDER + 1 - from
  {
    hide CacheEstimate;
    if from <= MAX_SLAB_ORDER && CacheEstimate(from, objsize, align, off).0 == 0 {
      SlabOrderIsFirst(objsize, align, off, from + 1);
    } else {
    }
  }

  /** The search loop of `calculate_slab_order`. */
  method CalculateSlabOrder(size: nat, align: nat, off: bool) returns (order: nat, num: int, left: int)
    requires size > 0 && align > 0
    ensures order == SlabOrder(size, align, off, 0)
    ensures order <= MAX_SLAB_ORDER ==> (num, left) == CacheEstimate(order, size, align, off)
    ensures order > MAX_SLAB_ORDER <==> num == 0
  {
    hide CacheEstimate;
    order, num, left := 0, 0, 0;
    while order <= MAX_SLAB_ORDER
      invariant order <= MAX_SLAB_ORDER + 1
      invariant SlabOrder(size, align, off, 0) == SlabOrder(size, align, off, order)
      invariant num == 0
    {
      var r := CacheEstimate(order, size, align, off);
      num, left := r.0, r.1;
      if num != 0 { break; }
      order := order + 1;
    }
  }

  // ----- cache geometry

  /** The fields of `kmem_cache_t` that creation fixes. */
  datatype Geometry = Geometry(
    objsize: nat, num: nat, order: nat, offSlab: bool,
    slabSize: nat, colour: nat, colourOff: nat, freeLimit: nat)

  /** The bytes the slab descriptor takes inside the slab. */
  function Header(g: Geometry): nat { if g.offSlab then 0 else g.slabSize }

  /** The largest colour offset `cache_grow` can choose. */
  function MaxOffset(g: Geometry): nat {
    if g.colour == 0 then 0 else (g.colour - 1) * g.colourOff
  }

  /** Whatever the colour, descriptor and objects stay inside the slab's pages. */
  predicate GoodGeometry(g: Geometry) {
    && 1 <= g.num && g.order <= MAX_SLAB_ORDER && 4 <= g.objsize && g.freeLimit == g.num
    && CACHE_LINE <= g.colourOff
    && (g.offSlab || SLAB_T <= g.slabSize)
    && MaxOffset(g) + Header(g) + g.num * g.objsize <= SlabBytes(g.order)
  }

  function ObjectSize(size: nat, align: nat): nat
    requires align > 0
  {
    AlignUp(AlignUp(size, 4), align)
  }

  function ColourUnit(align: nat): (r: nat)
    ensures r >= CACHE_LINE
  {
    if CACHE_LINE < align then align else CACHE_LINE
  }

  /** How many colours the left-over bytes make room for. */
  function ColoursIn(left: nat, align: nat): nat { left / ColourUnit(align) }

  lemma EstimateSigns(order: nat, objsize: nat, align: nat, off: bool)
    requires objsize > 0 && align > 0 && objsize % align == 0 && align <= PAGE_SIZE
    ensures CacheEstimate(order, objsize, align, off).0 >= 0 && CacheEstimate(order, objsize, align, off).1 >= 0
  {
    hide AlignUp, CacheEstimate, SlabBytes;
    EstimateIsOptimal(order, objsize, align, off);
  }

  /** The layout part of `kmem_cache_create`; `None` when no slab order holds an object. */
  function MakeGeometry(size: nat, align: nat, off: bool): Option<Geometry>
    requires size > 0 && align > 0 && GoodAlign(align)
  {
    hide SlabOrder, CacheEstimate, AlignUp, ObjectSize, SlabBytes, GoodAlign, ColoursIn, ColourUnit;
    var objsize := ObjectSize(size, align);
    ObjectSizeBounds(size, align);
    GoodAlignDivides(align);
    var order := SlabOrder(objsize, align, off, 0);
    if order > MAX_SLAB_ORDER then None
    else
      var (num, left) := CacheEstimate(order, objsize, align, off);
      EstimateSigns(order, objsize, align, off);
      Some(Geometry(objsize, num, order, off, if off then SLAB_T else AlignUp(SLAB_T, align),
                    ColoursIn(left, align), ColourUnit(align), num))
  }

  lemma ObjectSizeBounds(size: nat, align: nat)
    requires size > 0 && align > 0
    ensures 4 <= ObjectSize(size, align) && size <= ObjectSize(size, align) < size + 4 + align
    ensures ObjectSize(size, align) % align == 0
  {
    hide AlignUp;
    AlignUpBounds(size, 4);
    AlignUpBounds(AlignUp(size, 4), align);
  }

  lemma ColourFits(left: nat, unit: nat)
    requires unit > 0
    ensures left / unit > 0 ==> (left / unit - 1) * unit <= left - unit
    ensures left / unit == 0 ==> left < unit
  {
    DivisionBounds(left, unit);
    assert (left / unit - 1) * unit == left / unit * unit - unit;
  }

  /** No slab of order `j` holds an object of this size. */
  ghost predicate TooSmall(j: nat, objsize: nat, align: nat, off: bool)
    requires align > 0
  {
    MgmtSize(align, off) + objsize > SlabBytes(j)
  }

  /** The bytes of a slab that hold neither descriptor nor objects. */
  function LeftOver(g: Geometry): int { SlabBytes(g.order) - Header(g) - g.num * g.objsize }

  /** One more object would not fit; the colours step by the cache line or the alignment, whichever is
      larger, and use up the left-over; the descriptor is rounded up to the alignment and no further. */
  predicate PacksTight(g: Geometry, align: nat) {
    && Header(g) + (g.num + 1) * g.objsize > SlabBytes(g.order)
    && g.colourOff == (if align > 32 then align else 32)
    && g.colour * g.colourOff <= LeftOver(g) < (g.colour + 1) * g.colourOff
    && (if g.offSlab then g.slabSize == SLAB_T else SLAB_T <= g.slabSize < SLAB_T + align)
  }

  lemma GeometryPacks(size: nat, align: nat, off: bool)
    requires size > 0 && align > 0 && GoodAlign(align) && MakeGeometry(size, align, off).Some?
    ensures PacksTight(MakeGeometry(size, align, off).value, align)
  {
    hide GoodAlign, ObjectSize, CacheEstimate, SlabBytes, AlignUp, SlabOrder;
    GoodAlignDivides(align);
    ObjectSizeBounds(size, align);
    AlignUpBounds(SLAB_T, align);
    var objsize := ObjectSize(size, align);
    var order := SlabOrder(objsize, align, off, 0);
    EstimateIsOptimal(order, objsize, align, off);
    DivisionBounds(CacheEstimate(order, objsize, align, off).1, ColourUnit(align));
  }

  /** `r` is the least multiple of `a` from `x` on. */
  predicate RoundsUp(x: nat, a: nat, r: nat) { a > 0 && r % a == 0 && x <= r < x + a }

  lemma ObjectSizeRounds(size: nat, align: nat)
    requires align > 0
    ensures exists w: nat :: RoundsUp(size, 4, w) && RoundsUp(w, align, ObjectSize(size, align))
  {
    hide AlignUp;
    AlignUpBounds(size, 4);
    AlignUpBounds(AlignUp(size, 4), align);
    assert RoundsUp(size, 4, AlignUp(size, 4));
  }

  /** Creation yields a geometry that fits for every colour, at the least order that holds an
      object, with as many objects and colours as there is room for; it fails only if no order
      holds one. */
  lemma CreationFits(size: nat, align: nat, off: bool)
    requires size > 0 && align > 0 && GoodAlign(align)
    ensures size <= ObjectSize(size, align) < size + 4 + align
    ensures exists w: nat :: RoundsUp(size, 4, w) && RoundsUp(w, align, ObjectSize(size, align))
    ensures match MakeGeometry(size, align, off)
            case Some(g) =>
              && GoodGeometry(g) && g.offSlab == off && g.objsize == ObjectSize(size, align)
              && PacksTight(g, align)
              && (forall j: nat :: j < g.order ==> TooSmall(j, g.objsize, align, off))
            case None =>
              forall j: nat :: j <= 10 ==> TooSmall(j, ObjectSize(size, align), align, off)
  {
    hide GoodAlign, ObjectSize, CacheEstimate, SlabBytes, AlignUp, PacksTight;
    GoodAlignDivides(align);
    ObjectSizeBounds(size, align);
    AlignUpBounds(SLAB_T, align);
    ObjectSizeRounds(size, align);
    if MakeGeometry(size, align, off).Some? { GeometryPacks(size, align, off); }
    var objsize := ObjectSize(size, align);
    var order := SlabOrder(objsize, align, off, 0);
    SlabOrderIsFirst(objsize, align, off, 0);
    forall j: nat | j < order ensures TooSmall(j, objsize, align, off) {
      EstimateIsOptimal(j, objsize, align, off);
    }
    if order <= MAX_SLAB_ORDER {
      EstimateIsOptimal(order, objsize, align, off);
      ColourFits(CacheEstimate(order, objsize, align, off).1, ColourUnit(align));
    }
  }

  // ----- placement

  /** The colour offset `cache_grow` uses for colour `c`. */
  function ColourOffset(g: Geometry, c: nat): nat { c * g.colourOff }

  predicate ColourInRange(g: Geometry, c: nat) { c == 0 || c < g.colour }

  lemma OffsetInRange(g: Geometry, c: nat)
    requires ColourInRange(g, c)
    ensures ColourOffset(g, c) <= MaxOffset(g)
  {
    if c > 0 { ProductMonotone(c, g.colour - 1, g.colourOff); }
  }

  lemma ProductMonotone(a: nat, b: nat, d: nat)
    requires a <= b
    ensures a * d <= b * d
  {
    assert b * d == a * d + (b - a) * d;
  }

  /** The offset of object `i` in a slab whose first object is at offset `first`. */
  function ObjectAt(first: nat, objsize: nat, i: nat): nat { first + i * objsize }

  lemma ObjectBounds(first: nat, objsize: nat, num: nat, i: nat)
    requires i < num
    ensures first <= ObjectAt(first, objsize, i)
    ensures ObjectAt(first, objsize, i) + objsize <= first + num * objsize
  {
    assert num * objsize == i * objsize + (num - i) * objsize;
    assert (num - i) * objsize == objsize + (num - i - 1) * objsize;
  }

  lemma ObjectsDisjoint(first: nat, objsize: nat, i: nat, j: nat)
    requires i < j
    ensures ObjectAt(first, objsize, i) + objsize <= ObjectAt(first, objsize, j)
  {
    ObjectBounds(first, objsize, j, i);
  }

  /** Whatever page, colour and index: descriptor, then objects, inside the slab, every object
      aligned as requested. */
  lemma PlacementIsSound(size: nat, align: nat, off: bool, p: nat, c: nat, i: nat)
    requires size > 0 && align > 0 && GoodAlign(align) && MakeGeometry(size, align, off).Some?
    requires var g := MakeGeometry(size, align, off).value; ColourInRange(g, c) && i < g.num
    ensures var g := MakeGeometry(size, align, off).value;
            var first := ColourOffset(g, c) + Header(g);
            var obj := ObjectAt(first, g.objsize, i);
            && (!off ==> ColourOffset(g, c) + SLAB_T <= first)
            && first <= obj && obj + g.objsize <= SlabBytes(g.order) && size <= g.objsize
            && (PAGE_OFFSET + p * PAGE_SIZE + obj) % align == 0
  {
    hide GoodAlign, MakeGeometry, ObjectSize, SlabBytes, AlignUp;
    CreationFits(size, align, off);
    var g := MakeGeometry(size, align, off).value;
    OffsetInRange(g, c);
    var first := ColourOffset(g, c) + Header(g);
    ObjectBounds(first, g.objsize, g.num, i);
    ObjectSizeBounds(size, align);
    ObjectIsAligned(size, align, off, p, c, i);
  }

  lemma ObjectIsAligned(size: nat, align: nat, off: bool, p: nat, c: nat, i: nat)
    requires size > 0 && align > 0 && GoodAlign(align) && MakeGeometry(size, align, off).Some?
    ensures var g := MakeGeometry(size, align, off).value;
            var obj := ObjectAt(ColourOffset(g, c) + Header(g), g.objsize, i);
            (PAGE_OFFSET + p * PAGE_SIZE + obj) % align == 0
  {
    hide GoodAlign, ObjectSize, SlabBytes, AlignUp, CacheEstimate, SlabOrder;
    GoodAlignDivides(align);
    ObjectSizeBounds(size, align);
    AlignUpBounds(SLAB_T, align);
    var g := MakeGeometry(size, align, off).value;
    hide MakeGeometry;
    MultipleProduct(PAGE_SIZE, 0xC0000 + p, align);
    MultipleProduct(g.colourOff, c, align);
    MultipleProduct(g.objsize, i, align);
    assert Header(g) % align == 0;
    SumOfMultiples((0xC0000 + p) * PAGE_SIZE, c * g.colourOff, Header(g), i * g.objsize, align);
  }

  lemma SumOfMultiples(w: nat, x: nat, y: nat, z: nat, a: nat)
    requires a > 0 && w % a == 0 && x % a == 0 && y % a == 0 && z % a == 0
    ensures (w + (x + y + z)) % a == 0
  {
    MultipleSum(x, y, a);
    MultipleSum(x + y, z, a);
    MultipleSum(w, x + y + z, a);
  }

  // ----- the page a slab's memory goes back to

  /** Off-slab destruction frees the page of the first object, so the colour must stay in the first page. */
  predicate PageSafe(g: Geometry) { g.offSlab ==> MaxOffset(g) < PAGE_SIZE }

  /** `virt_to_page(s_mem)` is the slab's first page exactly when the offset is under one page. */
  lemma FirstPageIff(base: nat, offset: nat)
    requires base + offset / PAGE_SIZE < DIRECT_PAGES
    ensures VirtToPage(PageAddress(base) + offset) == base <==> offset < PAGE_SIZE
  {
    PageOfAddress(base, 0);
    assert (PageAddress(base) + offset - PAGE_OFFSET) / PAGE_SIZE == base + offset / PAGE_SIZE;
  }

  /** Objects of at most a page never push an off-slab colour past the first page. */
  lemma SmallObjectsArePageSafe(size: nat, align: nat)
    requires size > 0 && align > 0 && GoodAlign(align) && ObjectSize(size, align) <= PAGE_SIZE
    ensures MakeGeometry(size, align, true).Some? ==> PageSafe(MakeGeometry(size, align, true).value)
  {
    hide GoodAlign, ObjectSize, CacheEstimate, SlabBytes, AlignUp, SlabOrder;
    GoodAlignDivides(align);
    ObjectSizeBounds(size, align);
    var objsize := ObjectSize(size, align);
    var order := SlabOrder(objsize, align, true, 0);
    if order <= MAX_SLAB_ORDER {
      EstimateIsOptimal(order, objsize, align, true);
      var (num, left) := CacheEstimate(order, objsize, align, true);
      assert (num + 1) * objsize == num * objsize + objsize;
      ColourFits(left, ColourUnit(align));
    }
  }
}
