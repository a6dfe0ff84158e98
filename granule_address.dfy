/**
 * Translation between physical addresses and granule-table indices, and the
 * validating lookup that untrusted addresses go through.
 *
 * A descriptor reference (a `struct granule *` into the global array) is
 * modelled as its index in the table.
 */
module GranuleAddress {

  datatype Option<T> = None | Some(value: T)

  /** Size in bytes of one granule. */
  const GRANULE_SIZE: nat := 4096

  type AlignedAddress = a: nat | IsAligned(a) witness 0
  type GranuleCount = n: nat | 3 <= n witness 3

  /** Physical address of the first managed granule: any granule-aligned address. */
  const GRANULE_BASE: AlignedAddress
  /** Number of descriptors in the table: a first, at least one middle and a last. */
  const NR_GRANULES: GranuleCount

  predicate IsAligned(addr: nat)
  {
    addr % GRANULE_SIZE == 0
  }

  /** `addr` lies in [GRANULE_BASE, GRANULE_BASE + NR_GRANULES * GRANULE_SIZE). */
  predicate InRange(addr: nat)
  {
    GRANULE_BASE <= addr < GRANULE_BASE + NR_GRANULES * GRANULE_SIZE
  }

  /** The physical address of some managed granule. */
  predicate IsGranuleAddr(addr: nat)
  {
    IsAligned(addr) && InRange(addr)
  }

  /** `granule_addr`: the physical address of descriptor `i`. */
  function GranuleAddr(i: nat): (addr: nat)
    requires i < NR_GRANULES
    ensures IsGranuleAddr(addr)
  {
    GRANULE_BASE + i * GRANULE_SIZE
  }

  /**
   * `addr_to_granule`: the unchecked translation. Its caller must already
   * know the address is aligned and in range (it asserts otherwise).
   */
  function AddrToGranule(addr: nat): (i: nat)
    requires IsGranuleAddr(addr)
    ensures i < NR_GRANULES
    ensures GranuleAddr(i) == addr
  {
    (addr - GRANULE_BASE) / GRANULE_SIZE
  }

  /** Going from an index to its address and back gives the index again. */
  lemma IndexRoundTrip(i: nat)
    requires i < NR_GRANULES
    ensures AddrToGranule(GranuleAddr(i)) == i
  {
  }

  /** Translation preserves the order of addresses: the lower address has the lower index. */
  lemma AddrToGranuleMonotone(a1: nat, a2: nat)
    requires IsGranuleAddr(a1) && IsGranuleAddr(a2)
    ensures a1 < a2 <==> AddrToGranule(a1) < AddrToGranule(a2)
    ensures a1 == a2 <==> AddrToGranule(a1) == AddrToGranule(a2)
  {
  }

  /**
   * `find_granule`: the validating lookup. It yields no descriptor for an
   * unaligned address or one outside the managed range, and otherwise the
   * descriptor whose address is `addr`.
   */
  function FindGranule(addr: nat): (r: Option<nat>)
    ensures r.Some? <==> IsGranuleAddr(addr)
    ensures r.Some? ==> r.value < NR_GRANULES && GranuleAddr(r.value) == addr
  {
    if IsGranuleAddr(addr) then Some(AddrToGranule(addr)) else None
  }

  /** The lookup finds every descriptor at its own address. */
  lemma FindGranuleAt(i: nat)
    requires i < NR_GRANULES
    ensures FindGranule(GranuleAddr(i)) == Some(i)
  {
  }

  /** An address inside a granule but not at its start is rejected. */
  lemma FindGranuleUnaligned(i: nat, offset: nat)
    requires i < NR_GRANULES
    requires 1 <= offset < GRANULE_SIZE
    ensures FindGranule(GranuleAddr(i) + offset) == None
  {
  }

  /**
   * The test helper `get_out_of_range_granule`: an aligned address just
   * above the managed range (`draw` granules past the base, `draw` taken in
   * [NR_GRANULES, NR_GRANULES + 10]) or below it (`draw` granules below the
   * base, `draw` taken in [1, granules below the base - 1], or exactly one
   * granule below when only one granule fits under the base). There is no
   * address below the range when the base is 0.
   */
  function OutOfRangeAddress(higherRange: bool, draw: nat): (r: Option<nat>)
    requires higherRange ==> NR_GRANULES <= draw <= NR_GRANULES + 10
    requires !higherRange && GRANULE_BASE / GRANULE_SIZE > 1 ==>
               1 <= draw <= GRANULE_BASE / GRANULE_SIZE - 1
    ensures r.None? <==> !higherRange && GRANULE_BASE == 0
    ensures r.Some? ==> IsAligned(r.value) && FindGranule(r.value) == None
    ensures r.Some? && higherRange ==> r.value >= GRANULE_BASE + NR_GRANULES * GRANULE_SIZE
    ensures r.Some? && !higherRange ==> r.value < GRANULE_BASE
  {
    if higherRange then
      Some(draw * GRANULE_SIZE + GRANULE_BASE)
    else
      var granulesBelow := GRANULE_BASE / GRANULE_SIZE;
      if granulesBelow == 0 then None
      else
        var step := if granulesBelow == 1 then GRANULE_SIZE else GRANULE_SIZE * draw;
        assert step <= GRANULE_BASE;
        Some(GRANULE_BASE - step)
  }
}
