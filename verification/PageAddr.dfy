/** Conversions between page indices, physical and virtual addresses (include/page.h). */
module PageAddr {

  const PAGE_SIZE: nat := 4096
  const PAGE_OFFSET: nat := 0xC000_0000
  const WORD: nat := 0x1_0000_0000
  /** The number of page frames that fit between `PAGE_OFFSET` and the top of the address space. */
  const DIRECT_PAGES: nat := 0x4_0000

  /** `__pa` */
  function Pa(a: nat): nat { if a >= PAGE_OFFSET then a - PAGE_OFFSET else a }

  /** `__va`, in 32-bit arithmetic */
  function Va(x: nat): nat { (x + PAGE_OFFSET) % WORD }

  /** `page_address` */
  function PageAddress(p: nat): nat { Va(p * PAGE_SIZE % WORD) }

  /** The index of `virt_to_page` */
  function VirtToPage(a: nat): nat { Pa(a) / PAGE_SIZE }

  /** Every address inside the direct map of page `p` leads back to `p`. */
  lemma PageOfAddress(p: nat, d: nat)
    requires p < DIRECT_PAGES && d < PAGE_SIZE
    ensures PageAddress(p) == PAGE_OFFSET + p * PAGE_SIZE
    ensures VirtToPage(PageAddress(p) + d) == p
  {
  }

  /** The round trip holds exactly for the page frames below the direct-map limit. */
  lemma RoundTripIffMapped(p: nat)
    requires p < WORD / PAGE_SIZE
    ensures VirtToPage(PageAddress(p)) == p <==> p < DIRECT_PAGES
  {
  }

  /** `__pa` inverts `__va` on the same addresses and only there. */
  lemma PaOfVa(x: nat)
    requires x < WORD
    ensures Pa(Va(x)) == x <==> x < WORD - PAGE_OFFSET
  {
  }
}
