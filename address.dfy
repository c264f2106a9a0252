/*
 * An internal address in the filesystem: a 64-bit number.
 */
module Addresses {
  datatype Address = Address(value: bv64)
  {
    /**
     * The low three bits of the address, as a byte.  Despite its name this
     * is the position of a bit within a byte, what `split_index` calls the
     * bit index.
     */
    function ByteIndex(): (b: bv8)
      ensures b < 8
      ensures b as bv64 == value % 8
    {
      (value & 7) as bv8
    }
  }

  /** `Address::from`: the address holding exactly `n`. */
  function From(n: bv64): (a: Address)
    ensures a.value == n
  {
    Address(n)
  }

  /** Addresses eight apart, with the usual 64-bit wrap-around, share their low three bits. */
  lemma ByteIndexPeriodic(n: bv64)
    ensures From(n + 8).ByteIndex() == From(n).ByteIndex()
  {
  }
}
