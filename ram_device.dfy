/*
 * The in-memory block device: a vector of sectors, read and overwritten in
 * place by index.
 */
module RamDevice {
  import Sectors

  class RamDisk {
    var data: seq<Sectors.Sector>

    /** `RAMDisk::new(n)`: `n` zeroed sectors. */
    constructor (n: nat)
      ensures |data| == n
      ensures forall i :: 0 <= i < n ==> data[i] == Sectors.New()
    {
      data := seq(n, _ => Sectors.New());
    }

    /** The number of sectors on the disk. */
    function NSectors(): (n: nat)
      reads this
      ensures n == |data|
    {
      |data|
    }

    /** The sector stored at `index`; the disk is left as it was. */
    method ReadSector(index: nat) returns (sector: Sectors.Sector)
      requires index < NSectors()
      ensures sector == data[index]
    {
      sector := data[index];
    }

    /** Overwrites the sector at `index`; every other sector is kept. */
    method WriteSector(index: nat, sector: Sectors.Sector)
      requires index < NSectors()
      modifies this
      ensures data == old(data)[index := sector]
      ensures NSectors() == old(NSectors())
      ensures forall i :: 0 <= i < NSectors() && i != index ==> data[i] == old(data[i])
    {
      data := data[index := sector];
    }
  }

  /**
   * On a fresh ten-sector disk, the sector written at index 0 is the one
   * read back.
   */
  method ReadAndWrite(sector: Sectors.Sector) returns (read: Sectors.Sector)
    ensures read == sector
  {
    var disk := new RamDisk(10);
    disk.WriteSector(0, sector);
    read := disk.ReadSector(0);
  }

  /**
   * A sector read back after a write at another index is the one that was
   * there before the write.
   */
  method WriteKeepsOthers(disk: RamDisk, i: nat, j: nat, sector: Sectors.Sector)
    returns (before: Sectors.Sector, after: Sectors.Sector)
    requires i < disk.NSectors() && j < disk.NSectors() && i != j
    modifies disk
    ensures before == after
  {
    before := disk.ReadSector(j);
    disk.WriteSector(i, sector);
    after := disk.ReadSector(j);
  }
}
