/*
 * A filesystem block: a 16-byte header (the id of the next sector of the
 * chain and a checksum) followed by a 1008-byte payload, 1024 bytes in all,
 * and the encrypted image of a block as it sits in a sector.
 */
module Blocks {
  import Crc
  import Sectors

  /** Bytes in a block image. */
  const BlockSize: nat := 1024
  /** Bytes in the header: two 64-bit words. */
  const HeaderSize: nat := 16
  /** Bytes of payload: what the header leaves of the block. */
  const BlockDataSize: nat := BlockSize - HeaderSize

  /** The next-sector id a fresh block carries. */
  const NoNextSector: bv64 := 0xffff

  /** A block's payload: exactly `BlockDataSize` bytes. */
  type BlockData = s: seq<bv8> | |s| == BlockDataSize witness Crc.Zeros(BlockDataSize)

  /** A block as stored on the device: an opaque 1024-byte image. */
  datatype EncryptedBlock = EncryptedBlock(bytes: Sectors.SectorBytes)

  /** The encrypted image read out of a sector holds the sector's bytes. */
  function FromSector(sector: Sectors.Sector): (b: EncryptedBlock)
    ensures b.bytes == sector.Into()
  {
    EncryptedBlock(sector.Into())
  }

  /** Distinct sectors give distinct encrypted images. */
  lemma FromSectorInjective(a: Sectors.Sector, b: Sectors.Sector)
    ensures FromSector(a) == FromSector(b) ==> a == b
  {
  }

  /** The check made by `validate_checksum`, on the header's checksum and the payload. */
  predicate ChecksumMatches(checksum: bv64, data: seq<bv8>)
  {
    checksum == Crc.Crc64(data)
  }

  /** A block: header fields updated in place and the payload. */
  class Block {
    var nextSectorId: bv64
    var checksum: bv64
    var data: BlockData

    /**
     * `Block::new`: no next sector, a zero payload, and a checksum computed
     * over that payload, which is the crc64 of 1008 zero bytes, 0.
     */
    constructor ()
      ensures nextSectorId == NoNextSector
      ensures forall i :: 0 <= i < BlockDataSize ==> data[i] == 0
      ensures ChecksumMatches(checksum, data)
      ensures checksum == 0
    {
      nextSectorId := NoNextSector;
      checksum := 0;
      data := Crc.Zeros(BlockDataSize);
      new;
      UpdateChecksum();
      Crc.Crc64Zeros(BlockDataSize);
    }

    /** The payload's crc64, computed with the table-driven loop. */
    method CalculateChecksum() returns (c: bv64)
      ensures c == Crc.Crc64(data)
    {
      c := Crc.ComputeCrc64(data);
    }

    /** Stores the payload's checksum in the header; nothing else changes. */
    method UpdateChecksum()
      modifies this`checksum
      ensures ChecksumMatches(checksum, data)
      ensures nextSectorId == old(nextSectorId) && data == old(data)
    {
      checksum := CalculateChecksum();
    }

    /** Whether the stored checksum is the payload's crc64. */
    method ValidateChecksum() returns (ok: bool)
      ensures ok <==> ChecksumMatches(checksum, data)
    {
      var c := CalculateChecksum();
      ok := c == checksum;
    }

    /** The size of a block image. */
    static function Size(): (n: nat)
      ensures n == HeaderSize + BlockDataSize
      ensures n == Sectors.SectorSize
    {
      BlockSize
    }
  }

  /**
   * A fresh block validates, and relinking it to another next sector keeps it
   * valid.
   */
  method NewBlockValidates(next: bv64) returns (ok: bool, relinked: bool)
    ensures ok && relinked
  {
    var b := new Block();
    ok := b.ValidateChecksum();
    b.nextSectorId := next;
    relinked := b.ValidateChecksum();
  }
}
