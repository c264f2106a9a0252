/*
 * The filesystem device and the builder that configures it.
 */
module Devices {
  import Keywords
  import Addresses

  /** Unsigned 64-bit integers. */
  type U64 = x: nat | x < 0x1_0000_0000_0000_0000

  datatype Option<T> = None | Some(value: T)
  {
    /** The held value, or `default` when there is none. */
    function UnwrapOr(default: T): (v: T)
      ensures Some? ==> v == value
      ensures None? ==> v == default
    {
      match this
      case Some(v) => v
      case None => default
    }
  }

  /** Device configuration: the device's name and its sector size. */
  datatype Config = Config(device: string, sectorSize: U64)

  /** The name a device gets when the builder set none. */
  const DefaultDeviceName: string := "File"
  /** The sector size a device gets when the builder set none. */
  const DefaultSectorSize: U64 := 1024

  /**
   * A filesystem device: the addresses of the seed blocks, the address of
   * each open volume by keyword, and the configuration.  The reader the
   * device reads from is not part of the model.
   */
  datatype Device = Device(
    seedBlocks: set<Addresses.Address>,
    aspects: map<Keywords.Keyword, Addresses.Address>,
    config: Config)
  {
    /** The number of sectors of a device, fixed at 10. */
    function NSectors(): (n: U64)
      ensures n == 10
    {
      10
    }

    /**
     * The address of the seed block of `keyword`'s volume: the keyword's
     * low 64-bit word reduced modulo the number of sectors, hence always a
     * sector of the device.
     */
    function KeywordSeedIndex(keyword: Keywords.Keyword, lower64: Keywords.Keyword -> U64): (a: Addresses.Address)
      ensures a.value < 10
      ensures a.value as int == lower64(keyword) % NSectors()
    {
      var sector := lower64(keyword) % NSectors();
      SmallAddress(sector);
      Addresses.From(sector as bv64)
    }
  }

  /** A sector number below 10 stays below 10 as a 64-bit word. */
  lemma SmallAddress(n: nat)
    requires n < 10
    ensures (n as bv64) < 10
    ensures (n as bv64) as int == n
  {
    if n == 0 {
    } else if n == 1 {
    } else if n == 2 {
    } else if n == 3 {
    } else if n == 4 {
    } else if n == 5 {
    } else if n == 6 {
    } else if n == 7 {
    } else if n == 8 {
    } else {
      assert n == 9;
    }
  }

  /** Collects the options of a device before it is opened. */
  class DeviceBuilder {
    var device: Option<string>
    var sectorSize: Option<U64>
    var aspects: Option<seq<string>>

    /** A builder with nothing set. */
    constructor ()
      ensures device == None && sectorSize == None && aspects == None
    {
      device := None;
      sectorSize := None;
      aspects := None;
    }

    /** Appends `aspect` to the aspect list, starting the list if there is none. */
    method WithAspect(aspect: string)
      modifies this`aspects
      ensures old(aspects).None? ==> aspects == Some([aspect])
      ensures old(aspects).Some? ==> aspects == Some(old(aspects).value + [aspect])
    {
      if aspects.None? {
        aspects := Some([aspect]);
      } else {
        aspects := Some(aspects.value + [aspect]);
      }
    }

    /** Sets the device name; nothing else changes. */
    method DeviceName(name: string)
      modifies this`device
      ensures device == Some(name)
    {
      device := Some(name);
    }

    /** Sets the sector size; nothing else changes. */
    method SectorSize(size: U64)
      modifies this`sectorSize
      ensures sectorSize == Some(size)
    {
      sectorSize := Some(size);
    }

    /**
     * Opens a device: no seed blocks and no volumes yet, the configured name
     * or "File", the configured sector size or 1024.  The aspect list is not
     * carried over.
     */
    method FromFile() returns (d: Device)
      ensures d.seedBlocks == {} && d.aspects == map[]
      ensures device.Some? ==> d.config.device == device.value
      ensures device.None? ==> d.config.device == DefaultDeviceName
      ensures sectorSize.Some? ==> d.config.sectorSize == sectorSize.value
      ensures sectorSize.None? ==> d.config.sectorSize == DefaultSectorSize
    {
      d := Device({}, map[], Config(device.UnwrapOr(DefaultDeviceName), sectorSize.UnwrapOr(DefaultSectorSize)));
    }
  }

  /** A builder left untouched opens a device named "File" with 1024-byte sectors. */
  method DefaultConfig() returns (config: Config)
    ensures config == Config("File", 1024)
  {
    var builder := new DeviceBuilder();
    var d := builder.FromFile();
    config := d.config;
  }

  /**
   * Builder calls in any order: each setter fixes its own field, and the
   * aspects are kept in the order they were added.
   */
  method Configure(name: string, size: U64, first: string, second: string)
    returns (config: Config, aspects: Option<seq<string>>)
    ensures config == Config(name, size)
    ensures aspects == Some([first, second])
  {
    var builder := new DeviceBuilder();
    builder.WithAspect(first);
    builder.SectorSize(size);
    builder.WithAspect(second);
    builder.DeviceName(name);
    assert [first] + [second] == [first, second];
    var d := builder.FromFile();
    config, aspects := d.config, builder.aspects;
  }
}
