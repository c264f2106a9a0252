/*
 * A keyword: the text a user types to reach a volume, kept together with
 * its SHA-256 digest, which serves as the volume's key.  The digest function
 * is a parameter of the model.
 */
module Keywords {
  /** Bytes in a key: a SHA-256 digest. */
  const KeySize: nat := 32

  /** An unsigned byte. */
  type Byte = x: int | 0 <= x < 256

  /** The hashed, secure key. */
  type Key = s: seq<Byte> | |s| == KeySize witness seq(KeySize, _ => 0)

  /** 256 to the power `k`: one more than the largest `k`-byte number. */
  function Pow256(k: nat): (p: nat)
    ensures p > 0
  {
    if k == 0 then 1 else 256 * Pow256(k - 1)
  }

  /** The unsigned number whose big-endian bytes are `bytes` (`from_be_bytes`). */
  function BeValue(bytes: seq<Byte>): nat
  {
    if |bytes| == 0 then 0
    else BeValue(bytes[..|bytes| - 1]) * 256 + bytes[|bytes| - 1]
  }

  /** The `k` big-endian bytes of `n` modulo 256^k (`to_be_bytes`). */
  function BeBytes(n: nat, k: nat): (bytes: seq<Byte>)
    ensures |bytes| == k
  {
    if k == 0 then [] else BeBytes(n / 256, k - 1) + [n % 256]
  }

  datatype Keyword = Keyword(text: string, hash: Key)
  {
    /**
     * The keyword's id: the big-endian number in hash bytes 24..31, so a
     * 64-bit number whose bytes are exactly those.
     */
    function Id(): (id: nat)
      ensures id < Pow256(8)
      ensures BeBytes(id, 8) == hash[24..32]
    {
      BeValueBound(hash[24..32]);
      BeBytesOfBeValue(hash[24..32]);
      BeValue(hash[24..32])
    }

    /**
     * The eight 32-bit groups shown for the hash: group `k` is the
     * big-endian number in hash bytes 4k..4k+3.
     */
    function PrettyHash(): (groups: seq<nat>)
      ensures |groups| == 8
      ensures forall k :: 0 <= k < 8 ==>
        groups[k] < Pow256(4) && BeBytes(groups[k], 4) == hash[4 * k..4 * k + 4]
    {
      var groups := seq(8, k requires 0 <= k < 8 => BeValue(hash[4 * k..4 * k + 4]));
      assert forall k :: 0 <= k < 8 ==>
        groups[k] < Pow256(4) && BeBytes(groups[k], 4) == hash[4 * k..4 * k + 4] by {
        forall k | 0 <= k < 8
          ensures groups[k] < Pow256(4) && BeBytes(groups[k], 4) == hash[4 * k..4 * k + 4]
        {
          BeValueBound(hash[4 * k..4 * k + 4]);
          BeBytesOfBeValue(hash[4 * k..4 * k + 4]);
        }
      }
      groups
    }
  }

  /** `Keyword::new`: keeps the text and stores its digest under `sha256`. */
  function New(text: string, sha256: string -> Key): (k: Keyword)
    ensures k.text == text && k.hash == sha256(text)
  {
    Keyword(text, sha256(text))
  }

  /** A big-endian number of `k` bytes is below 256^k. */
  lemma {:induction false} BeValueBound(bytes: seq<Byte>)
    ensures BeValue(bytes) < Pow256(|bytes|)
    decreases |bytes|
  {
    if |bytes| > 0 {
      BeValueBound(bytes[..|bytes| - 1]);
    }
  }

  /** Decoding big-endian bytes and encoding the number again gives the bytes back. */
  lemma {:induction false} BeBytesOfBeValue(bytes: seq<Byte>)
    ensures BeBytes(BeValue(bytes), |bytes|) == bytes
    decreases |bytes|
  {
    if |bytes| > 0 {
      var init, last := bytes[..|bytes| - 1], bytes[|bytes| - 1];
      var v := BeValue(bytes);
      assert v / 256 == BeValue(init) && v % 256 == last;
      BeBytesOfBeValue(init);
      assert bytes == init + [last];
    }
  }

  /** Encoding a number below 256^k as `k` big-endian bytes and decoding gives it back. */
  lemma {:induction false} BeValueOfBeBytes(n: nat, k: nat)
    requires n < Pow256(k)
    ensures BeValue(BeBytes(n, k)) == n
  {
    if k > 0 {
      var q, r := n / 256, n % 256;
      DivMod256(n);
      assert q < Pow256(k - 1);
      var bytes := BeBytes(n, k);
      assert bytes[..k - 1] == BeBytes(q, k - 1);
      BeValueOfBeBytes(q, k - 1);
    }
  }

  /** The bytes of a concatenation weigh as a number shifted by the length of the tail. */
  lemma {:induction false} BeValueAppend(a: seq<Byte>, b: seq<Byte>)
    ensures BeValue(a + b) == BeValue(a) * Pow256(|b|) + BeValue(b)
    decreases |b|
  {
    if |b| == 0 {
      assert a + b == a;
    } else {
      var init, last := b[..|b| - 1], b[|b| - 1];
      assert (a + b)[..|a + b| - 1] == a + init;
      BeValueAppend(a, init);
      assert BeValue(a + b) == BeValue(a + init) * 256 + last;
      assert BeValue(b) == BeValue(init) * 256 + last;
      Shift256(BeValue(a), Pow256(|init|), BeValue(init), last);
    }
  }

  /** A number is 256 times its quotient by 256 plus its remainder, which is below 256. */
  lemma DivMod256(n: nat)
    ensures n == (n / 256) * 256 + n % 256 && n % 256 < 256
  {
  }

  /** Shifting a two-part number left by one byte and adding a low byte. */
  lemma Shift256(x: nat, p: nat, y: nat, low: int)
    ensures (x * p + y) * 256 + low == x * (256 * p) + (y * 256 + low)
  {
  }

  /** The id is the last two groups of the pretty hash, high group first. */
  lemma IdIsLastGroups(k: Keyword)
    ensures k.Id() == k.PrettyHash()[6] * Pow256(4) + k.PrettyHash()[7]
  {
    assert k.hash[24..32] == k.hash[24..28] + k.hash[28..32];
    BeValueAppend(k.hash[24..28], k.hash[28..32]);
  }

  /** Keywords made from equal texts carry the same hash and the same id. */
  lemma SameTextSameId(t1: string, t2: string, sha256: string -> Key)
    requires t1 == t2
    ensures New(t1, sha256).hash == New(t2, sha256).hash
    ensures New(t1, sha256).Id() == New(t2, sha256).Id()
  {
  }

  /** The SHA-256 digest of the text "test". */
  const TestDigest: Key := [
    0x9f, 0x86, 0xd0, 0x81, 0x88, 0x4c, 0x7d, 0x65, 0x9a, 0x2f, 0xea, 0xa0, 0xc5, 0x5a, 0xd0, 0x15,
    0xa3, 0xbf, 0x4f, 0x1b, 0x2b, 0x0b, 0x82, 0x2c, 0xd1, 0x5d, 0x6c, 0x15, 0xb0, 0xf0, 0x0a, 0x08]

  /** With a digest function that maps "test" to its SHA-256 digest, the id is 0xd15d6c15b0f00a08. */
  lemma TestKeywordId(sha256: string -> Key)
    requires sha256("test") == TestDigest
    ensures New("test", sha256).Id() == 0xd15d6c15b0f00a08
  {
    var tail: seq<Byte> := [0xd1, 0x5d, 0x6c, 0x15, 0xb0, 0xf0, 0x0a, 0x08];
    assert TestDigest[24..32] == tail;
    assert BeValue(tail[..0]) == 0;
    assert BeValue(tail[..1]) == 0xd1;
    assert tail[..2][..1] == tail[..1];
    assert BeValue(tail[..2]) == 0xd15d;
    assert tail[..3][..2] == tail[..2];
    assert BeValue(tail[..3]) == 0xd15d6c;
    assert tail[..4][..3] == tail[..3];
    assert BeValue(tail[..4]) == 0xd15d6c15;
    assert tail[..5][..4] == tail[..4];
    assert BeValue(tail[..5]) == 0xd15d6c15b0;
    assert tail[..6][..5] == tail[..5];
    assert BeValue(tail[..6]) == 0xd15d6c15b0f0;
    assert tail[..7][..6] == tail[..6];
    assert BeValue(tail[..7]) == 0xd15d6c15b0f00a;
    assert tail[..8][..7] == tail[..7];
    assert BeValue(tail[..8]) == 0xd15d6c15b0f00a08;
    assert tail[..8] == tail;
  }
}
