/*
 * A disk sector: the smallest unit a block device reads or writes, a fixed
 * array of 1024 bytes held by value.
 */
module Sectors {
  import Crc

  /** Bytes per sector. */
  const SectorSize: nat := 1024

  /** The sector's byte array, `[u8; SECTOR_SIZE]`. */
  type SectorBytes = s: seq<bv8> | |s| == SectorSize witness Crc.Zeros(SectorSize)

  datatype Sector = Sector(bytes: SectorBytes)
  {
    /** The crc64 of all the sector's bytes. */
    function Checksum(): (c: bv64)
      ensures c == Crc.Crc64(bytes)
    {
      Crc.Crc64(bytes)
    }

    /** Sector equality compares the byte arrays. */
    function Equals(other: Sector): (r: bool)
      ensures r <==> this == other
    {
      bytes == other.bytes
    }

    /** Moving the sector into its byte array. */
    function Into(): (b: SectorBytes)
      ensures Sector(b) == this
    {
      bytes
    }

    /** A shared view of the sector's byte array. */
    function AsRef(): (b: SectorBytes)
      ensures forall i :: 0 <= i < SectorSize ==> b[i] == bytes[i]
    {
      bytes
    }

    /**
     * A write through the mutable view: `write` receives the bytes the
     * sector holds and gives back what the view holds afterwards, which is
     * what the sector then holds.
     */
    function AsMut(write: SectorBytes -> SectorBytes): (s: Sector)
      ensures s.AsRef() == write(AsRef())
    {
      Sector(write(bytes))
    }
  }

  /** A zeroed sector. */
  function New(): (s: Sector)
    ensures forall i :: 0 <= i < SectorSize ==> s.bytes[i] == 0
  {
    Sector(Crc.Zeros(SectorSize))
  }

  /**
   * Setting one byte through the mutable view changes that byte of the
   * sector and leaves the other 1023 as they were.
   */
  lemma AsMutSetByte(s: Sector, i: nat, v: bv8)
    requires i < SectorSize
    ensures s.AsMut(b => b[i := v]).bytes[i] == v
    ensures forall j :: 0 <= j < SectorSize && j != i ==> s.AsMut(b => b[i := v]).bytes[j] == s.bytes[j]
  {
  }

  /** A write through the view that keeps every byte leaves the sector as it was. */
  lemma AsMutKeep(s: Sector)
    ensures s.AsMut(b => b) == s
  {
  }

  /** Two sectors are equal exactly when all their bytes are equal. */
  lemma EqualsIsBytewise(a: Sector, b: Sector)
    ensures a.Equals(b) <==> forall i :: 0 <= i < SectorSize ==> a.bytes[i] == b.bytes[i]
  {
    if forall i :: 0 <= i < SectorSize ==> a.bytes[i] == b.bytes[i] {
      assert a.bytes == b.bytes;
    }
  }

  /** Sector equality is an equivalence relation. */
  lemma EqualsIsEquivalence(a: Sector, b: Sector, c: Sector)
    ensures a.Equals(a)
    ensures a.Equals(b) ==> b.Equals(a)
    ensures a.Equals(b) && b.Equals(c) ==> a.Equals(c)
  {
  }

  /** The byte array a sector is moved into builds the same sector back. */
  lemma IntoRoundTrip(b: SectorBytes)
    ensures Sector(b).Into() == b
  {
  }

  /** A zeroed sector's checksum is the crc64 of 1024 zero bytes, which is 0. */
  lemma NewChecksum()
    ensures New().Checksum() == Crc.Crc64(Crc.Zeros(SectorSize))
    ensures New().Checksum() == 0
  {
    Crc.Crc64Zeros(SectorSize);
  }
}
