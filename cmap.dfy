/*
 * Index arithmetic of the collision map, a bitmap stored as a vector of
 * bytes: a bit index names a byte of the vector and a bit within it.
 */
module CollisionMap {
  import Addresses

  /** Splits a bit index into the index of its byte and its bit within that byte. */
  function SplitIndex(index: bv32): (r: (bv32, bv8))
    ensures r.1 < 8
    ensures r.0 * 8 + r.1 as bv32 == index
  {
    (index / 8, (index % 8) as bv8)
  }

  /** The byte index never exceeds the bit index it came from. */
  lemma SplitIndexByteBelow(index: bv32)
    ensures SplitIndex(index).0 <= index
  {
  }

  /** Distinct indices have distinct (byte, bit) pairs. */
  lemma SplitIndexInjective(i: bv32, j: bv32)
    ensures SplitIndex(i) == SplitIndex(j) ==> i == j
  {
  }

  /** The eight indices 8k .. 8k+7 all fall in byte k, at bits 0 .. 7 in order. */
  lemma SplitIndexGroup(k: bv32, bit: bv8)
    requires k < 0x2000_0000 && bit < 8
    ensures SplitIndex(k * 8 + bit as bv32) == (k, bit)
  {
  }

  /** The address helper's `byte_index` is the bit part of `split_index`. */
  lemma ByteIndexIsSplitBit(index: bv32)
    ensures Addresses.From(index as bv64).ByteIndex() == SplitIndex(index).1
  {
  }
}
