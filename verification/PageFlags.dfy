/** The software flag word of a page descriptor (include/zone.h), one boolean per bit. */
module PageFlags {

  datatype Flags = Flags(
    locked: bool, referenced: bool, dirty: bool, lru: bool, priv: bool,
    reclaim: bool, taken: bool, reserved: bool, slab: bool)

  const NO_FLAGS := Flags(false, false, false, false, false, false, false, false, false)

  /** `flags |= PG_FLAG_private` */
  function SetPrivate(f: Flags): Flags { f.(priv := true) }

  /** `flags &= ~PG_FLAG_private`: the macro has no parentheses, so the mask is `(~1) << 4`
      and bits 0 to 4 are cleared. */
  function ClearPrivate(f: Flags): Flags {
    f.(locked := false, referenced := false, dirty := false, lru := false, priv := false)
  }

  /** `flags |= PG_FLAG_slab` */
  function SetSlab(f: Flags): Flags { f.(slab := true) }

  /** `flags &= ~PG_FLAG_slab`: the mask is `(~1) << 8`, so bits 0 to 8 are cleared. */
  function ClearSlab(f: Flags): Flags { NO_FLAGS }

  /** Bits 0 to 3 are zero; the allocators never set them. */
  predicate LowClear(f: Flags) {
    !f.locked && !f.referenced && !f.dirty && !f.lru
  }

  /** The record of a machine word. */
  function Decode(w: bv32): Flags {
    Flags(w & 0x1 != 0, w & 0x2 != 0, w & 0x4 != 0, w & 0x8 != 0, w & 0x10 != 0,
          w & 0x20 != 0, w & 0x40 != 0, w & 0x80 != 0, w & 0x100 != 0)
  }

  /** Clearing the low five bits, bit by bit. */
  lemma MaskedLow(w: bv32)
    ensures (w & 0xFFFF_FFE0) & 0x1 == 0 && (w & 0xFFFF_FFE0) & 0x2 == 0 && (w & 0xFFFF_FFE0) & 0x4 == 0
    ensures (w & 0xFFFF_FFE0) & 0x8 == 0 && (w & 0xFFFF_FFE0) & 0x10 == 0
  {
  }

  lemma MaskedHigh(w: bv32)
    ensures (w & 0xFFFF_FFE0) & 0x20 == w & 0x20 && (w & 0xFFFF_FFE0) & 0x40 == w & 0x40
    ensures (w & 0xFFFF_FFE0) & 0x80 == w & 0x80 && (w & 0xFFFF_FFE0) & 0x100 == w & 0x100
  {
  }

  /** The unparenthesised macro makes `~PG_FLAG_private` clear bits 0 to 4 and nothing else. */
  lemma ClearPrivateDecodes(w: bv32)
    ensures Decode(w & (!(1 as bv32) << 4)) == ClearPrivate(Decode(w))
  {
    assert !(1 as bv32) << 4 == 0xFFFF_FFE0;
    MaskedLow(w);
    MaskedHigh(w);
  }

  lemma MaskedAll(w: bv32)
    ensures (w & 0xFFFF_FE00) & 0x1 == 0 && (w & 0xFFFF_FE00) & 0x2 == 0 && (w & 0xFFFF_FE00) & 0x4 == 0
    ensures (w & 0xFFFF_FE00) & 0x8 == 0 && (w & 0xFFFF_FE00) & 0x10 == 0 && (w & 0xFFFF_FE00) & 0x20 == 0
    ensures (w & 0xFFFF_FE00) & 0x40 == 0 && (w & 0xFFFF_FE00) & 0x80 == 0 && (w & 0xFFFF_FE00) & 0x100 == 0
  {
  }

  /** `~PG_FLAG_slab` clears every flag. */
  lemma ClearSlabDecodes(w: bv32)
    ensures Decode(w & (!(1 as bv32) << 8)) == ClearSlab(Decode(w))
  {
    assert !(1 as bv32) << 8 == 0xFFFF_FE00;
    MaskedAll(w);
  }
}
