/**
 * `granule_memzero`: clearing a granule's memory through one of the
 * per-CPU mapping slots. The mapping itself belongs to the buffer layer;
 * here the mapped window is the byte array `window`.
 */
module GranuleMemzero {
  import opened GranuleAddress

  newtype byte = x: int | 0 <= x < 256

  /** A per-CPU mapping slot; `SLOT_NS`, the first slot, maps non-secure memory. */
  type BufferSlot = nat

  const SLOT_NS: BufferSlot := 0

  /** Size in bytes of the `int` words the tests read back. */
  const WORD_SIZE: nat := 4

  /**
   * Zeroes every byte of granule `g` as mapped in `slot`. Zeroing through
   * the non-secure slot is not supported and is a fatal assertion.
   */
  method GranuleMemzero(g: nat, slot: BufferSlot, window: array<byte>)
    requires g < NR_GRANULES
    requires slot != SLOT_NS
    requires window.Length == GRANULE_SIZE
    modifies window
    ensures AllZero(window[..])
  {
    forall k | 0 <= k < window.Length {
      window[k] := 0;
    }
  }

  predicate AllZero(mem: seq<byte>)
  {
    forall k :: 0 <= k < |mem| ==> mem[k] == 0
  }

  /** The value of the `l`-th four-byte word of `mem`, least significant byte first. */
  function WordAt(mem: seq<byte>, l: nat): int
    requires WORD_SIZE * l + WORD_SIZE <= |mem|
  {
    var k := WORD_SIZE * l;
    mem[k] as int + 256 * (mem[k + 1] as int + 256 * (mem[k + 2] as int + 256 * (mem[k + 3] as int)))
  }

  /**
   * A buffer made of whole words reads as zero word by word exactly when
   * every byte is zero: the check the tests apply after `granule_memzero`.
   */
  lemma WordsZeroIffBytesZero(mem: seq<byte>)
    requires |mem| % WORD_SIZE == 0
    ensures AllZero(mem) <==> forall l :: 0 <= l < |mem| / WORD_SIZE ==> WordAt(mem, l) == 0
  {
    if forall l :: 0 <= l < |mem| / WORD_SIZE ==> WordAt(mem, l) == 0 {
      forall k | 0 <= k < |mem|
        ensures mem[k] == 0
      {
        var l := k / WORD_SIZE;
        assert WordAt(mem, l) == 0;
      }
    }
  }

  /** After `GranuleMemzero` every word of the granule reads as zero. */
  lemma MemzeroWordsZero(mem: seq<byte>)
    requires |mem| == GRANULE_SIZE && AllZero(mem)
    ensures forall l :: 0 <= l < GRANULE_SIZE / WORD_SIZE ==> WordAt(mem, l) == 0
  {
  }
}
