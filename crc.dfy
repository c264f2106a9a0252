/*
 * The ECMA-182 CRC-64 used by rubberhose to checksum block payloads:
 * MSB-first, table driven, initial value 0 and no final xor.
 *
 * The specification is the left fold `CrcFrom` of the per-byte table update
 * `Update`, where every table entry is defined by the eight MSB-first shift
 * steps `GenSteps` of the table generator.  The two methods are the
 * imperative table generator (two nested counting loops) and the byte loop
 * of `crc64`; each is proved equal to the specification.
 */
module Crc {
  /** The ECMA-182 polynomial, without its implicit x^64 term. */
  const EcmaPoly: bv64 := 0x42F0E1EBA9EA3693
  /** The most significant bit of the 64-bit register. */
  const TopBit: bv64 := 0x8000_0000_0000_0000
  /** Number of shift steps that build one table entry. */
  const BitsPerByte: nat := 8

  /** One step of the generator's inner loop on the pair (crc, c). */
  function GenStep(crc: bv64, c: bv64): (bv64, bv64)
  {
    (if (crc ^ c) & TopBit != 0 then (crc << 1) ^ EcmaPoly else crc << 1, c << 1)
  }

  /** `k` steps of the generator's inner loop. */
  function GenSteps(crc: bv64, c: bv64, k: nat): (bv64, bv64)
  {
    if k == 0 then (crc, c) else var p := GenSteps(crc, c, k - 1); GenStep(p.0, p.1)
  }

  /** Table entry `i`: the crc register after eight steps started from (0, i << 56). */
  function TableEntry(i: bv8): bv64
  {
    GenSteps(0, (i as bv64) << 56, BitsPerByte).0
  }

  /** The per-byte update of `crc64`: look up the top byte xor the input byte, shift in. */
  function Update(crc: bv64, b: bv8): bv64
  {
    TableEntry(((crc >> 56) as bv8) ^ b) ^ (crc << 8)
  }

  /** The register after folding `Update` over `data`, starting from `crc`. */
  function CrcFrom(crc: bv64, data: seq<bv8>): bv64
    decreases |data|
  {
    if |data| == 0 then crc else CrcFrom(Update(crc, data[0]), data[1..])
  }

  /** The CRC-64 of a byte sequence: the fold started from a zero register. */
  function Crc64(data: seq<bv8>): bv64
  {
    CrcFrom(0, data)
  }

  /** `n` zero bytes. */
  function Zeros(n: nat): (z: seq<bv8>)
    ensures |z| == n
    ensures forall i :: 0 <= i < n ==> z[i] == 0
  {
    if n == 0 then [] else Zeros(n - 1) + [0]
  }

  /**
   * The table generator: for each of the 256 indices, runs the eight-step
   * inner loop and stores the register in the table.
   */
  method GenCrcTable() returns (table: array<bv64>)
    ensures fresh(table)
    ensures table.Length == 256
    ensures forall i :: 0 <= i < 256 ==> table[i] == TableAt(i)
  {
    table := new bv64[256];
    for i := 0 to 256
      invariant forall m :: 0 <= m < i ==> table[m] == TableAt(m)
    {
      var crc := TableSlot(i);
      table[i] := crc;
    }
  }

  /** The inner loop of the generator for one index. */
  method TableSlot(i: nat) returns (crc: bv64)
    requires i < 256
    ensures crc == TableAt(i)
  {
    crc := 0;
    var c: bv64 := ((i as bv8) as bv64) << 56;
    var j := 0;
    while j < BitsPerByte
      invariant 0 <= j <= BitsPerByte
      invariant (crc, c) == GenSteps(0, ((i as bv8) as bv64) << 56, j)
    {
      if (crc ^ c) & TopBit != 0 {
        crc := (crc << 1) ^ EcmaPoly;
      } else {
        crc := crc << 1;
      }
      c := c << 1;
      j := j + 1;
    }
  }

  /** The table entry at an array index, as the generator stores it. */
  function TableAt(i: nat): bv64
    requires i < 256
  {
    TableEntry(i as bv8)
  }

  /** `crc64`: builds the table, then runs the table-driven byte loop. */
  method ComputeCrc64(data: seq<bv8>) returns (crc: bv64)
    ensures crc == Crc64(data)
  {
    var table := GenCrcTable();
    crc := 0;
    for n := 0 to |data|
      invariant forall i :: 0 <= i < 256 ==> table[i] == TableAt(i)
      invariant CrcFrom(crc, data[n..]) == Crc64(data)
    {
      var t := ((crc >> 56) as bv8) ^ data[n];
      ByteIndexRoundTrip(t);
      FoldStep(crc, data, n, table[t as int]);
      crc := table[t as int] ^ (crc << 8);
    }
    assert data[|data|..] == [];
  }

  /** One iteration of the byte loop consumes one byte of the remaining fold. */
  lemma FoldStep(crc: bv64, data: seq<bv8>, n: nat, entry: bv64)
    requires n < |data|
    requires entry == TableEntry(((crc >> 56) as bv8) ^ data[n])
    ensures CrcFrom(crc, data[n..]) == CrcFrom(entry ^ (crc << 8), data[n + 1..])
  {
    assert data[n..][1..] == data[n + 1..];
  }

  /** A byte used as a table index names the slot of that byte. */
  lemma ByteIndexRoundTrip(t: bv8)
    ensures 0 <= t as int < 256 && (t as int) as bv8 == t
  {
  }

  /** The first table slot is zero. */
  lemma TableEntryZero()
    ensures TableEntry(0) == 0
  {
    var c0: bv64 := 0x0000000000000000;
    assert (0 as bv8) as bv64 << 56 == c0;
    assert GenSteps(0, c0, 1) == (0x0000000000000000, 0x0000000000000000);
    assert GenSteps(0, c0, 2) == (0x0000000000000000, 0x0000000000000000);
    assert GenSteps(0, c0, 3) == (0x0000000000000000, 0x0000000000000000);
    assert GenSteps(0, c0, 4) == (0x0000000000000000, 0x0000000000000000);
    assert GenSteps(0, c0, 5) == (0x0000000000000000, 0x0000000000000000);
    assert GenSteps(0, c0, 6) == (0x0000000000000000, 0x0000000000000000);
    assert GenSteps(0, c0, 7) == (0x0000000000000000, 0x0000000000000000);
    assert GenSteps(0, c0, 8) == (0x0000000000000000, 0x0000000000000000);
  }

  /** The second table slot is the polynomial itself. */
  lemma TableEntryOne()
    ensures TableEntry(1) == EcmaPoly
  {
    var c0: bv64 := 0x0100000000000000;
    assert (1 as bv8) as bv64 << 56 == c0;
    assert GenSteps(0, c0, 1) == (0x0000000000000000, 0x0200000000000000);
    assert GenSteps(0, c0, 2) == (0x0000000000000000, 0x0400000000000000);
    assert GenSteps(0, c0, 3) == (0x0000000000000000, 0x0800000000000000);
    assert GenSteps(0, c0, 4) == (0x0000000000000000, 0x1000000000000000);
    assert GenSteps(0, c0, 5) == (0x0000000000000000, 0x2000000000000000);
    assert GenSteps(0, c0, 6) == (0x0000000000000000, 0x4000000000000000);
    assert GenSteps(0, c0, 7) == (0x0000000000000000, 0x8000000000000000);
    assert GenSteps(0, c0, 8) == (0x42f0e1eba9ea3693, 0x0000000000000000);
  }

  /** Slot 0x40, one of the slots the known test vector visits. */
  lemma TableEntry40()
    ensures TableEntry(0x40) == 0xda050215ea6c212f
  {
    var c0: bv64 := 0x4000000000000000;
    assert (0x40 as bv8) as bv64 << 56 == c0;
    assert GenSteps(0, c0, 1) == (0x0000000000000000, 0x8000000000000000);
    assert GenSteps(0, c0, 2) == (0x42f0e1eba9ea3693, 0x0000000000000000);
    assert GenSteps(0, c0, 3) == (0x85e1c3d753d46d26, 0x0000000000000000);
    assert GenSteps(0, c0, 4) == (0x493366450e42ecdf, 0x0000000000000000);
    assert GenSteps(0, c0, 5) == (0x9266cc8a1c85d9be, 0x0000000000000000);
    assert GenSteps(0, c0, 6) == (0x663d78ff90e185ef, 0x0000000000000000);
    assert GenSteps(0, c0, 7) == (0xcc7af1ff21c30bde, 0x0000000000000000);
    assert GenSteps(0, c0, 8) == (0xda050215ea6c212f, 0x0000000000000000);
  }

  /** Slot 0x2e, one of the slots the known test vector visits. */
  lemma TableEntry2e()
    ensures TableEntry(0x2e) == 0x92ce98e760d05399
  {
    var c0: bv64 := 0x2e00000000000000;
    assert (0x2e as bv8) as bv64 << 56 == c0;
    assert GenSteps(0, c0, 1) == (0x0000000000000000, 0x5c00000000000000);
    assert GenSteps(0, c0, 2) == (0x0000000000000000, 0xb800000000000000);
    assert GenSteps(0, c0, 3) == (0x42f0e1eba9ea3693, 0x7000000000000000);
    assert GenSteps(0, c0, 4) == (0x85e1c3d753d46d26, 0xe000000000000000);
    assert GenSteps(0, c0, 5) == (0x0bc387aea7a8da4c, 0xc000000000000000);
    assert GenSteps(0, c0, 6) == (0x5577eeb6e6bb820b, 0x8000000000000000);
    assert GenSteps(0, c0, 7) == (0xe81f3c86649d3285, 0x0000000000000000);
    assert GenSteps(0, c0, 8) == (0x92ce98e760d05399, 0x0000000000000000);
  }

  /** The table that `GenCrcTable` builds starts with 0 and the polynomial. */
  method TableHead() returns (first: bv64, second: bv64)
    ensures first == 0 && second == EcmaPoly
  {
    var table := GenCrcTable();
    TableEntryZero();
    TableEntryOne();
    first, second := table[0], table[1];
  }

  /** Folding over a concatenation folds over the parts in turn. */
  lemma {:induction false} CrcFromAppend(crc: bv64, a: seq<bv8>, b: seq<bv8>)
    ensures CrcFrom(crc, a + b) == CrcFrom(CrcFrom(crc, a), b)
    decreases |a|
  {
    if |a| > 0 {
      assert (a + b)[0] == a[0];
      assert (a + b)[1..] == a[1..] + b;
      CrcFromAppend(Update(crc, a[0]), a[1..], b);
    } else {
      assert a + b == b;
    }
  }

  /** The CRC of no data is zero. */
  lemma Crc64Empty()
    ensures Crc64([]) == 0
  {
  }

  /** Appending one byte applies one table update to the previous CRC. */
  lemma Crc64Snoc(data: seq<bv8>, b: bv8)
    ensures Crc64(data + [b]) == Update(Crc64(data), b)
  {
    CrcFromAppend(0, data, [b]);
    assert [b][1..] == [];
  }

  /** A zero register stays zero across any run of zero bytes. */
  lemma {:induction false} CrcFromZeros(n: nat)
    ensures CrcFrom(0, Zeros(n)) == 0
  {
    if n > 0 {
      CrcFromZeros(n - 1);
      TableEntryZero();
      CrcFromAppend(0, Zeros(n - 1), [0]);
      assert [0 as bv8][1..] == [];
    }
  }

  /** The CRC of any number of zero bytes is zero. */
  lemma Crc64Zeros(n: nat)
    ensures Crc64(Zeros(n)) == 0
  {
    CrcFromZeros(n);
  }

  /** The test vector of the block module: crc64([0, 1, 2, 4]) == 8513814196102790297. */
  lemma Crc64KnownVector()
    ensures Crc64([0x00, 0x01, 0x02, 0x04]) == 8513814196102790297
  {
    var d: seq<bv8> := [0x00, 0x01, 0x02, 0x04];
    TableEntryZero();
    TableEntryOne();
    TableEntry40();
    TableEntry2e();
    var c1 := Update(0, 0x00);
    assert c1 == 0;
    var c2 := Update(c1, 0x01);
    assert c2 == EcmaPoly;
    var c3 := Update(c2, 0x02);
    assert c3 == 0x2ae4e9bc005ab22f;
    var c4 := Update(c3, 0x04);
    assert c4 == 8513814196102790297;
    assert d[1..][1..][1..][1..] == [];
    assert CrcFrom(0, d) == CrcFrom(c1, d[1..]);
    assert CrcFrom(c1, d[1..]) == CrcFrom(c2, d[1..][1..]);
    assert CrcFrom(c2, d[1..][1..]) == CrcFrom(c3, d[1..][1..][1..]);
    assert CrcFrom(c3, d[1..][1..][1..]) == CrcFrom(c4, d[1..][1..][1..][1..]);
  }
}
