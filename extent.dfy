/*
 * An extent: a block device together with a map saying which of its blocks
 * are in use, and the allocator that works on that map.
 */
module Extents {
  import Sectors
  import Blocks
  import RamDevice

  /** The number of blocks marked in use. */
  function CountUsed(usage: seq<bool>): (c: nat)
    ensures c <= |usage|
  {
    if |usage| == 0 then 0
    else CountUsed(usage[..|usage| - 1]) + (if usage[|usage| - 1] then 1 else 0)
  }

  /** Slot `s + k` on a ring of `n` slots. */
  function Wrap(s: nat, k: nat, n: nat): (r: nat)
    requires s < n && k < n
    ensures r < n && r == (s + k) % n
  {
    if s + k < n then s + k else s + k - n
  }

  /** How many steps forward from `s` slot `r` is on a ring of `n` slots. */
  function Offset(s: nat, r: nat, n: nat): (k: nat)
    requires s < n && r < n
    ensures k < n && Wrap(s, k, n) == r
  {
    if s <= r then r - s else r + n - s
  }

  /**
   * `r` is the first free block met when probing `s, s + 1, ...` modulo the
   * number of blocks: `r` is free and every block probed before it is in use.
   */
  ghost predicate FirstFreeFrom(usage: seq<bool>, s: nat, r: nat)
    requires s < |usage| && r < |usage|
  {
    !usage[r] && forall k :: 0 <= k < Offset(s, r, |usage|) ==> usage[Wrap(s, k, |usage|)]
  }

  class Extent {
    /** One entry per block of the device, true when the block is in use. */
    var usage: seq<bool>
    const device: RamDevice.RamDisk

    /** The usage map has one entry per sector of the device. */
    ghost predicate Valid()
      reads this, device
    {
      |usage| == |device.data|
    }

    /** `Extent::new`: takes the device, with every block free. */
    constructor (device: RamDevice.RamDisk)
      ensures this.device == device && Valid()
      ensures |usage| == device.NSectors()
      ensures forall i :: 0 <= i < |usage| ==> !usage[i]
      ensures CountUsed(usage) == 0
    {
      this.device := device;
      usage := seq(device.NSectors(), _ => false);
      new;
      CountUsedZero(usage);
    }

    /** The number of blocks: the device's sector count, which is the size of the map. */
    function NBlocks(): (n: nat)
      reads this, device
      requires Valid()
      ensures n == |usage|
    {
      device.NSectors()
    }

    /** The encrypted block held by the sector at `index`. */
    method ReadBlock(index: nat) returns (block: Blocks.EncryptedBlock)
      requires Valid() && index < NBlocks()
      ensures block.bytes == device.data[index].bytes
    {
      var sector := device.ReadSector(index);
      block := Blocks.FromSector(sector);
    }

    /** Writes the encrypted block's bytes to the sector at `index`. */
    method WriteBlock(index: nat, block: Blocks.EncryptedBlock)
      requires Valid() && index < NBlocks()
      modifies device
      ensures Valid() && NBlocks() == old(NBlocks())
      ensures device.data == old(device.data)[index := Sectors.Sector(block.bytes)]
    {
      device.WriteSector(index, Sectors.Sector(block.bytes));
    }

    /** Marks block `index` free; no other entry changes. */
    method DeallocateBlock(index: nat)
      requires Valid() && index < NBlocks()
      modifies this
      ensures Valid() && NBlocks() == old(NBlocks())
      ensures usage == old(usage)[index := false]
    {
      usage := usage[index := false];
    }

    /** Marks block `index` in use; no other entry changes. */
    method AllocBlock(index: nat)
      requires Valid() && index < NBlocks()
      modifies this
      ensures Valid() && NBlocks() == old(NBlocks())
      ensures usage == old(usage)[index := true]
    {
      usage := usage[index := true];
    }

    /**
     * Probes from `start`, wrapping around, for the first free block, marks
     * it in use and returns it.  The probe only ends when a free block
     * exists, and indexing the map fails when `start` is past its end.
     */
    method AllocNextBlock(start: nat) returns (r: nat)
      requires Valid() && start < NBlocks()
      requires exists j :: 0 <= j < |usage| && !usage[j]
      modifies this
      ensures Valid() && NBlocks() == old(NBlocks())
      ensures r < |usage| && FirstFreeFrom(old(usage), start, r)
      ensures usage == old(usage)[r := true]
    {
      var n := device.NSectors();
      assert n == |usage|;
      ghost var free :| 0 <= free < |usage| && !usage[free];
      ghost var d := Offset(start, free, n);
      var index := start;
      ghost var k := 0;
      while true
        invariant usage == old(usage) && n == |usage|
        invariant 0 <= k <= d
        invariant index == Wrap(start, k, n)
        invariant forall j :: 0 <= j < k ==> usage[Wrap(start, j, n)]
        decreases d - k
      {
        if !usage[index] {
          AllocBlock(index);
          return index;
        }
        WrapSucc(start, k, n);
        index := (index + 1) % n;
        k := k + 1;
      }
    }
  }

  /** One more step of the probe moves to the next slot, wrapping at the end. */
  lemma WrapSucc(s: nat, k: nat, n: nat)
    requires s < n && k + 1 < n
    ensures Wrap(s, k + 1, n) == (Wrap(s, k, n) + 1) % n
  {
  }

  /** The probe's answer is determined by the map and the start. */
  lemma FirstFreeUnique(usage: seq<bool>, s: nat, r1: nat, r2: nat)
    requires s < |usage| && r1 < |usage| && r2 < |usage|
    requires FirstFreeFrom(usage, s, r1) && FirstFreeFrom(usage, s, r2)
    ensures r1 == r2
  {
    var n := |usage|;
    var o1, o2 := Offset(s, r1, n), Offset(s, r2, n);
    if o1 < o2 {
      assert false;
    } else if o2 < o1 {
      assert false;
    }
  }

  /** On a map where the start block is free, the probe stops at once. */
  lemma FirstFreeAtStart(usage: seq<bool>, s: nat)
    requires s < |usage| && !usage[s]
    ensures FirstFreeFrom(usage, s, s)
  {
    assert Offset(s, s, |usage|) == 0;
  }

  /** When the start block is taken and the next one is free, the probe stops at the next. */
  lemma FirstFreeAfterStart(usage: seq<bool>, s: nat)
    requires 2 <= |usage| && s < |usage| && usage[s] && !usage[(s + 1) % |usage|]
    ensures FirstFreeFrom(usage, s, (s + 1) % |usage|)
  {
    var n := |usage|;
    assert Offset(s, (s + 1) % n, n) == 1;
    assert Wrap(s, 0, n) == s;
  }

  /** Marking a block changes the number of used blocks by at most one. */
  lemma {:induction false} CountUsedUpdate(usage: seq<bool>, i: nat, b: bool)
    requires i < |usage|
    ensures CountUsed(usage[i := b]) ==
      CountUsed(usage) - (if usage[i] then 1 else 0) + (if b then 1 else 0)
    decreases |usage|
  {
    var last := |usage| - 1;
    if i < last {
      assert usage[i := b][..last] == usage[..last][i := b];
      CountUsedUpdate(usage[..last], i, b);
    } else {
      assert usage[i := b][..last] == usage[..last];
    }
  }

  /** A free block exists exactly when fewer blocks are used than there are. */
  lemma {:induction false} CountUsedFree(usage: seq<bool>)
    ensures CountUsed(usage) < |usage| <==> exists j :: 0 <= j < |usage| && !usage[j]
    decreases |usage|
  {
    if |usage| > 0 {
      var last := |usage| - 1;
      CountUsedFree(usage[..last]);
      if exists j :: 0 <= j < last && !usage[..last][j] {
        var j :| 0 <= j < last && !usage[..last][j];
        assert !usage[j];
      }
      if exists j :: 0 <= j < |usage| && !usage[j] {
        var j :| 0 <= j < |usage| && !usage[j];
        if j < last {
          assert !usage[..last][j];
        }
      }
    }
  }

  /** Marking a block in use twice is the same as marking it once. */
  method AllocTwice(extent: Extent, index: nat)
    requires extent.Valid() && index < extent.NBlocks()
    modifies extent
    ensures extent.usage == old(extent.usage)[index := true]
  {
    extent.AllocBlock(index);
    extent.AllocBlock(index);
  }

  /** Marking a block free twice is the same as marking it free once. */
  method DeallocateTwice(extent: Extent, index: nat)
    requires extent.Valid() && index < extent.NBlocks()
    modifies extent
    ensures extent.usage == old(extent.usage)[index := false]
  {
    extent.DeallocateBlock(index);
    extent.DeallocateBlock(index);
  }

  /**
   * Two allocations in a row on a fresh extent of at least two blocks: the
   * first returns the start block, the second the block after it, and the
   * two differ.
   */
  method TwoAllocations(n: nat, start: nat) returns (r1: nat, r2: nat)
    requires 2 <= n && start < n
    ensures r1 == start && r2 == (start + 1) % n && r1 != r2
  {
    var disk := new RamDevice.RamDisk(n);
    var extent := new Extent(disk);
    ghost var u0 := extent.usage;
    assert !u0[0];
    r1 := extent.AllocNextBlock(start);
    FirstFreeAtStart(u0, start);
    FirstFreeUnique(u0, start, r1, start);
    ghost var u1 := extent.usage;
    assert u1 == u0[start := true];
    assert !u1[(start + 1) % n];
    r2 := extent.AllocNextBlock(start);
    FirstFreeAfterStart(u1, start);
    FirstFreeUnique(u1, start, r2, (start + 1) % n);
  }

  /** A map with every block free has none in use. */
  lemma {:induction false} CountUsedZero(usage: seq<bool>)
    requires forall i :: 0 <= i < |usage| ==> !usage[i]
    ensures CountUsed(usage) == 0
    decreases |usage|
  {
    if |usage| > 0 {
      CountUsedZero(usage[..|usage| - 1]);
    }
  }
}
