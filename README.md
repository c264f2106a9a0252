# rubberhose: the block-store core, modelled in Dafny

rubberhose is a draft of a deniable, keyword-addressed block store. One device
holds several encrypted volumes ("aspects"), and each volume is found only
through its keyword. This project models the self-contained logic under the
volume layer and proves properties of it:

- the ECMA-182 CRC-64 that checksums block payloads (`crc.dfy`, module `Crc`):
  - the 256-entry table generator, two nested counting loops over an array;
  - the table-driven byte loop, proved equal to a left fold of the per-byte table update;
  - the generator, proved entry by entry equal to eight shift-and-conditional-xor steps;
- the 1024-byte disk sector (`sector.dfy`, `Sectors`);
- the block record (`block.dfy`, `Blocks`):
  - a 16-byte header holding the next sector id and the checksum, then a 1008-byte payload;
  - modelled as a class whose checksum is updated in place;
- the in-memory disk (`ram_device.dfy`, `RamDevice`): a class holding a vector of sectors that writes overwrite in place;
- the extent (`extent.dfy`, `Extents`):
  - a device plus a block-usage map;
  - the allocator: set, clear, and a wrap-around linear probe for the first free block;
- the keyword (`keyword.dfy`, `Keywords`):
  - the text and its SHA-256 digest;
  - the big-endian id and the pretty-hash groups;
- the device builder and the keyword seed index (`device.dfy`, `Devices`);
- the collision-map index split (`cmap.dfy`, `CollisionMap`) and the address helper (`address.dfy`, `Addresses`).

Integer types:
- The CRC, sector and block bytes are `bv8` and the CRC registers `bv64`, so the 64-bit shift truncation of the source is exact.
- Keyword bytes are integers in `0..256`. The keyword id and the pretty-hash groups are plain numbers, proved below 2^64 and 2^32.

## Model

| member | source | states |
|---|---|---|
| `Crc.GenCrcTable` | old-src/crc.rs:18-44 | The generator returns a fresh 256-entry table. Entry i is eight MSB-first shift-and-conditional-xor steps applied to (0, i << 56). |
| `Crc.TableSlot` | old-src/crc.rs:27-38 | The inner loop for one index leaves the register at the eight-step value of that index. |
| `Crc.ComputeCrc64` | old-src/crc.rs:3-14 | The table-driven byte loop returns the left fold of the per-byte update over the data, starting from 0, with no final xor. |
| `Crc.TableEntryZero` | old-src/crc.rs:26-39 | Table entry 0 is 0: with i = 0 both registers stay 0 through all eight steps. |
| `Crc.TableEntryOne` | old-src/crc.rs:19-38 | Table entry 1 is the ECMA polynomial 0x42F0E1EBA9EA3693. |
| `Crc.TableHead` | old-src/crc.rs:21-43 | In the table the generator builds, slot 0 holds 0 and slot 1 holds the polynomial. |
| `Crc.CrcFromAppend` | old-src/crc.rs:8-13 | Folding over a concatenation is folding over the first part, then over the second. |
| `Crc.Crc64Empty` | old-src/crc.rs:8-13 | The CRC of no bytes is 0. |
| `Crc.Crc64Snoc` | old-src/crc.rs:9-12 | Appending byte b to d gives TABLE[(crc64(d) >> 56) ^ b] ^ (crc64(d) << 8), with 64-bit truncation. |
| `Crc.Crc64Zeros` | old-src/crc.rs:8-12 | The CRC of any number of zero bytes is 0. |
| `Crc.Crc64KnownVector` | src/block.rs:117-120 | crc64([0x00, 0x01, 0x02, 0x04]) == 8513814196102790297. |
| `Sectors.New` | src/sector.rs:14-16 | A new sector holds 1024 bytes, all zero. |
| `Sectors.Sector.Equals` | src/sector.rs:64-69 | Sector equality holds exactly when the two sectors are the same value. |
| `Sectors.EqualsIsBytewise` | src/sector.rs:65-69 | Two sectors are equal exactly when all 1024 of their bytes agree. |
| `Sectors.EqualsIsEquivalence` | src/sector.rs:64-69 | Sector equality is reflexive, symmetric and transitive. |
| `Sectors.Sector.Into` | src/sector.rs:46-50 | The array a sector is moved into rebuilds that same sector. |
| `Sectors.IntoRoundTrip` | src/sector.rs:46-50 | Moving a sector built from an array back out gives that array. |
| `Sectors.Sector.AsRef` | src/sector.rs:71-75 | The shared view exposes every byte the sector holds. |
| `Sectors.Sector.AsMut` | src/sector.rs:77-81 | A write through the mutable view sees the sector's own bytes, and afterwards the sector holds what the view holds. |
| `Sectors.AsMutSetByte` | src/sector.rs:77-81 | Setting byte i through the view changes byte i of the sector to the value written and keeps the other 1023 bytes. |
| `Sectors.AsMutKeep` | src/sector.rs:77-81 | A write through the view that keeps every byte leaves the sector unchanged. |
| `Sectors.Sector.Checksum` | src/sector.rs:29-33 | A sector's crc is the crc64 of all 1024 of its bytes. |
| `Sectors.NewChecksum` | src/sector.rs:29-33 | A new sector's crc is the crc64 of 1024 zero bytes, which is 0. |
| `Blocks.FromSector` | src/block.rs:33-37 | The encrypted block made from a sector holds the sector's bytes. |
| `Blocks.FromSectorInjective` | src/block.rs:33-37 | Distinct sectors give distinct encrypted blocks. |
| `Blocks.Block.constructor` | src/block.rs:66-77 | A new block: next sector 0xffff, an all-zero 1008-byte payload, and a checksum that matches the payload. That checksum is 0. |
| `Blocks.Block.CalculateChecksum` | src/block.rs:81-83 | The table-driven loop returns the crc64 of the payload. |
| `Blocks.Block.UpdateChecksum` | src/block.rs:85-87 | Afterwards the stored checksum matches the payload. Only the checksum field may change; the payload and next sector id are unchanged. |
| `Blocks.Block.ValidateChecksum` | src/block.rs:90-92 | Returns true exactly when the stored checksum equals the crc64 of the payload. Changes nothing. |
| `Blocks.Block.Size` | src/block.rs:103-105 | A block image is header plus payload, 16 + 1008 bytes, the size of a sector. |
| `Blocks.NewBlockValidates` | src/block.rs:66-92 | A new block validates. It still validates after its next sector id is changed, because the checksum covers only the payload. |
| `RamDevice.RamDisk.constructor` | old-src/device.rs:72-77 | A new disk of n sectors holds n new, all-zero sectors. |
| `RamDevice.RamDisk.NSectors` | old-src/device.rs:51-53 | The sector count is the length of the stored vector. |
| `RamDevice.RamDisk.ReadSector` | old-src/device.rs:41-44 | Returns the stored sector at the index and changes nothing. The index must be in range. |
| `RamDevice.RamDisk.WriteSector` | old-src/device.rs:46-49 | Replaces the sector at the index. The sector count and every other sector are unchanged. |
| `RamDevice.ReadAndWrite` | old-src/device.rs:148-153 | On a new 10-sector disk, reading index 0 after writing a sector there returns that sector. |
| `RamDevice.WriteKeepsOthers` | old-src/device.rs:46-49 | After a write at i, a read at any other index j returns what it returned before the write. |
| `Extents.Extent.constructor` | old-src/extent.rs:84-89 | A new extent has one usage entry per device sector, every entry free and no block in use. |
| `Extents.Extent.NBlocks` | old-src/extent.rs:91-93 | The block count is the device's sector count, which is the size of the usage map. |
| `Extents.Extent.ReadBlock` | old-src/extent.rs:95-97 | The encrypted block read holds the bytes of the sector at that index. |
| `Extents.Extent.WriteBlock` | old-src/extent.rs:99-101 | The sector at the index now holds the block's bytes. Every other sector and the block count are unchanged. The usage map is outside the method's frame. |
| `Extents.Extent.DeallocateBlock` | old-src/extent.rs:105-107 | Marks exactly that entry free. Every other entry and the block count are unchanged. |
| `Extents.Extent.AllocBlock` | old-src/extent.rs:110-112 | Marks exactly that entry in use. Every other entry and the block count are unchanged. |
| `Extents.AllocTwice` | old-src/extent.rs:110-112 | Marking a block in use twice equals marking it once. |
| `Extents.DeallocateTwice` | old-src/extent.rs:105-107 | Marking a block free twice equals marking it free once. |
| `Extents.Extent.AllocNextBlock` | old-src/extent.rs:115-124 | Requires a start below n and at least one free entry. Returns r < n that was free. Every index from the start up to r, taken modulo n, was already in use. Exactly entry r flips to used. |
| `Extents.WrapSucc` | old-src/extent.rs:122 | Each probe step, (index + 1) % n, moves to the next slot of the ring. |
| `Extents.FirstFreeUnique` | old-src/extent.rs:115-124 | The probe's answer is fully determined by the usage map and the start index. |
| `Extents.CountUsedUpdate` | old-src/extent.rs:105-112 | Setting an entry changes the in-use count by exactly what that entry's change implies. |
| `Extents.CountUsedFree` | old-src/extent.rs:115-124 | A free entry exists (so the probe ends) exactly when fewer than n blocks are in use. |
| `Extents.TwoAllocations` | old-src/extent.rs:115-124 | On a new extent of n >= 2 blocks, two probes from s return s and (s + 1) % n, which differ. |
| `Keywords.New` | src/keyword.rs:21-26 | A new keyword keeps its text unchanged and stores the digest of that text. |
| `Keywords.Keyword.Id` | src/keyword.rs:51-53 | The id is below 2^64, and its eight big-endian bytes are exactly hash bytes 24..31. |
| `Keywords.Keyword.PrettyHash` | src/keyword.rs:37-48 | Eight groups. Group k is below 2^32, and its four big-endian bytes are hash bytes 4k..4k+3. |
| `Keywords.BeValueBound` | src/keyword.rs:51-53 | A big-endian number of k bytes is below 256^k. |
| `Keywords.BeBytesOfBeValue` | src/keyword.rs:51-53 | Decoding big-endian bytes, then encoding the number back to the same length, returns the bytes. |
| `Keywords.BeValueOfBeBytes` | src/keyword.rs:51-53 | Encoding a number below 256^k as k big-endian bytes, then decoding, returns the number. |
| `Keywords.IdIsLastGroups` | src/keyword.rs:37-53 | The id is pretty-hash group 6 times 2^32, plus group 7. |
| `Keywords.SameTextSameId` | src/keyword.rs:15-26 | Keywords made from equal texts have equal hashes and equal ids. |
| `Keywords.TestKeywordId` | src/keyword.rs:86-89 | When the digest function maps "test" to its SHA-256 digest, the keyword's id is 0xd15d6c15b0f00a08. |
| `Devices.DeviceBuilder.constructor` | src/device.rs:33-39 | A new builder has device, sector_size and aspects all unset. |
| `Devices.DeviceBuilder.WithAspect` | src/device.rs:41-52 | An unset list becomes [a]. A set list gets a appended at the end, with earlier entries kept. The other fields cannot change. |
| `Devices.DeviceBuilder.DeviceName` | src/device.rs:54-57 | Sets the device name. Nothing else can change. |
| `Devices.DeviceBuilder.SectorSize` | src/device.rs:59-62 | Sets the sector size. Nothing else can change. |
| `Devices.DeviceBuilder.FromFile` | src/device.rs:65-75 | The device starts with no seed blocks and no volumes. Its name is the one set, else "File". Its sector size is the one set, else 1024. |
| `Devices.DefaultConfig` | src/device.rs:65-75 | A builder with nothing set yields the config ("File", 1024). |
| `Devices.Configure` | src/device.rs:41-75 | On a new builder, setting a name, a sector size and two aspects yields the config (name, size). The aspect list is [first, second], in call order. |
| `Devices.Device.NSectors` | src/device.rs:124-126 | A device reports 10 sectors. |
| `Devices.Device.KeywordSeedIndex` | src/device.rs:128-130 | The seed index equals the keyword's low 64-bit word modulo the sector count, so it is below 10. |
| `CollisionMap.SplitIndex` | src/cmap.rs:15-17 | Byte index times 8 plus bit index gives back the index. The bit index is below 8. |
| `CollisionMap.SplitIndexByteBelow` | src/cmap.rs:15-17 | The byte index never exceeds the index. |
| `CollisionMap.SplitIndexInjective` | src/cmap.rs:15-17 | Distinct indices give distinct (byte, bit) pairs. |
| `CollisionMap.SplitIndexGroup` | src/cmap.rs:15-17 | Indices 8k..8k+7 all fall in byte k, at bits 0..7 in order. |
| `CollisionMap.ByteIndexIsSplitBit` | src/address.rs:5-7 | An address's byte_index equals the bit part of split_index for the same number. |
| `Addresses.Address.ByteIndex` | src/address.rs:5-7 | byte_index is below 8 and equals the address modulo 8. |
| `Addresses.From` | src/address.rs:10-14 | The address made from n holds exactly n. |
| `Addresses.ByteIndexPeriodic` | src/address.rs:5-7 | Adding 8 to an address, with 64-bit wrap-around, leaves byte_index unchanged. |

## Left out

Outside the model:
- AES encryption (`Block::encrypt`): a foreign cipher applied through an unsafe transmute.
- SHA-256: it is the parameter `sha256` of `Keywords.New`. The digest is taken over the text's characters rather than its UTF-8 bytes.
- `lower_64`: no such function is defined on the keyword. It is the parameter `lower64` of `Devices.Device.KeywordSeedIndex`.
- `ExtentHandle` and its `create_aspect`, `Extent::to_handle` (which wraps the extent in `Arc<Mutex<…>>`), locking, lock poisoning and the error conversions: concurrency.
- File I/O:
  - `ImageFile`;
  - the reader of `Device`;
  - `from_new_file`, `load_file` and `overwrite_file`.
- Randomness: `randomize` and `new_rand`, both backed by the OpenSSL random generator. The sector written in the disk round-trip test is a parameter.
- Formatting: `Debug` and `Display`, `Sector::header`, the text of `pretty_hash`, and the device metadata.
- Stubs with no behaviour:
  - `Keyword::xor_block`;
  - `Device::read_block`, `load_aspect`, `create_aspect` and `load_seed_block`;
  - `CollisionMap::get`, which has no return value.
- Other source files:
  - `src/aspect.rs` is truncated mid-signature.
  - `src/main.rs` is the entry point.
  - `src/sanity.rs` uses floating point.
  - `src/mem.rs` and `src/sys.rs` declare traits only.
  - `src/extent.rs` is an empty struct.
  - `src/config.rs` holds bare constants.

Where the model departs from the source:
- `RamDevice.RamDisk`, `Extents.Extent`: the draft does not compile as written. The model follows its evident intent:
  - The block-device trait declares `read`, `write` and `len`, but the RAM disk implements `read_sector`, `write_sector` and `n_sectors`. The model uses the implemented names.
  - `Sector` is not `Copy`, yet the RAM disk moves sectors in and out of its vector by value. The model keeps sectors as values.
  - The `AsRef<Sector>` for an encrypted block that `write_block` relies on is commented out. `Extents.Extent.WriteBlock` writes the block's bytes as a sector.
- `Extents.Extent.AllocNextBlock`: requires a start below n and at least one free block. With no free block the source's loop never ends. With a start at or past n its first map index panics.
- `RamDevice.RamDisk.ReadSector`, `RamDevice.RamDisk.WriteSector`, `Extents.Extent.AllocBlock`, `Extents.Extent.DeallocateBlock`: require an index below the sector count, because the source's indexing panics otherwise. Indices are unbounded naturals. The source's `u64` to `usize` casts are lossless on 64-bit targets and are not modelled.
- `Sectors.Sector.AsMut`: the mutable borrow is modelled as a function from the sector's bytes to the bytes the view holds afterwards; the aliasing between the view and the sector is not modelled.
- `Blocks.Block.constructor`: the "no next block" sentinel is `0xffff`, as the code writes it. On a device with more than 65535 sectors, 0xffff is also the id of a real sector.
- `Devices.Device.KeywordSeedIndex`: the seed index is `lower_64 % 10`, with the sector count fixed at 10 as the code returns it.
- `Extents.Extent.AllocNextBlock`: the probe loops until it finds a free block; it has no failure result.
- `Crc`: the table-driven CRC is proved equal to the table-fold specification. It is not proved equal to a bit-at-a-time CRC over the whole message, and its error-detection properties (linearity, detection of single-bit flips) are not proved.
