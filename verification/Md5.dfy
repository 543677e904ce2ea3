// MD5 of Module/md5.c: the streaming context against RFC 1321.
module Md5 {
  import opened Words
  import opened Streaming
  import opened Md5Block

  /** A block as sixteen words, low-order byte first. */
  function Decode(b: Block): (X: seq<Word>)
    ensures |X| == 16
  {
    seq(16, i requires 0 <= i < 16 => LittleEndian(b[4 * i], b[4 * i + 1], b[4 * i + 2], b[4 * i + 3]))
  }

  function Encode(h: Hash): (d: seq<Byte>)
    ensures |d| == 16
  {
    LittleBytes(h.a) + LittleBytes(h.b) + LittleBytes(h.c) + LittleBytes(h.d)
  }

  function CompressBytes(h: Hash, b: Block): Hash {
    Compress(h, Decode(b))
  }

  const INIT: Hash := Hash(0x67452301, 0xefcdab89, 0x98badcfe, 0x10325476)

  /** The 64-bit length in bits, low-order word and low-order byte first. */
  function LengthBytes(low: nat, high: nat): (bs: seq<Byte>)
    requires low < TWO32 && high < TWO32
    ensures |bs| == 8
  {
    LittleBytes(low) + LittleBytes(high)
  }

  /** MD5, sections 3.1 to 3.5 of RFC 1321. */
  function Digest(m: seq<Byte>): (d: seq<Byte>)
    ensures |d| == 16
  {
    Encode(Blocks(CompressBytes, INIT, Padded(m, LengthBytes(LowBits(|m|), HighBits(|m|)))))
  }

  /** The streaming context; fed is the message so far. */
  class MD5Context {
    const buf: array<Word>
    const inb: array<Byte>
    var bits0: nat
    var bits1: nat
    ghost var fed: seq<Byte>

    ghost function State(): Hash
      requires buf.Length == 4
      reads this, buf
    {
      Hash(buf[0], buf[1], buf[2], buf[3])
    }

    ghost predicate Holds(m: seq<Byte>)
      reads this, buf, inb
    {
      && buf.Length == 4 && inb.Length == BLOCK
      && State() == Blocks(CompressBytes, INIT, m)
      && inb[..|m| % 64] == Tail(m)
    }

    ghost predicate Valid()
      reads this, buf, inb
    {
      Holds(fed) && bits0 == LowBits(|fed|) && bits1 == HighBits(|fed|)
    }

    constructor ()
      ensures Valid() && fed == [] && fresh(buf) && fresh(inb)
    {
      buf := new Word[4](_ => 0);
      inb := new Byte[BLOCK](_ => 0);
      bits0, bits1 := 0, 0;
      fed := [];
      new;
      MD5Init();
    }

    method MD5Init()
      requires buf.Length == 4 && inb.Length == BLOCK
      modifies this, buf
      ensures Valid() && fed == []
    {
      InitRegisters();
      bits0, bits1 := 0, 0;
      fed := [];
      StartsValid();
    }

    method InitRegisters()
      requires buf.Length == 4
      modifies buf
      ensures State() == INIT
    {
      buf[0], buf[1], buf[2], buf[3] := 0x67452301, 0xefcdab89, 0x98badcfe, 0x10325476;
    }

    lemma StartsValid()
      requires buf.Length == 4 && inb.Length == BLOCK && State() == INIT && fed == [] && bits0 == bits1 == 0
      ensures Valid()
    {
      BlocksOfNothing(CompressBytes, INIT, fed);
      NoBits(|fed|);
    }

    /** Runs the block function on the full buffer. */
    method Transform(ghost m: seq<Byte>, ghost x: seq<Byte>)
      requires buf.Length == 4 && inb.Length == BLOCK
      requires State() == Blocks(CompressBytes, INIT, m)
      requires |m| % 64 + |x| == BLOCK && inb[..] == Tail(m) + x
      modifies buf
      ensures Holds(m + x) && |m + x| % 64 == 0
    {
      ghost var h := State();
      Md5Transform(buf, Decode(inb[..]));
      FeedBlock(CompressBytes, INIT, m, x);
      assert State() == CompressBytes(h, Tail(m) + x);
    }

    /** Adds to the two-word bit counter. */
    method Count(ghost n: nat, len: nat)
      requires bits0 == LowBits(n) && bits1 == HighBits(n) && len < TWO32
      modifies this`bits0, this`bits1
      ensures bits0 == LowBits(n + len) && bits1 == HighBits(n + len)
    {
      CounterAdds(n, len);
      var t := bits0;
      bits0 := (t + 8 * len % 0x1_0000_0000) % 0x1_0000_0000;
      if bits0 < t {
        bits1 := (bits1 + 1) % 0x1_0000_0000;
      }
      bits1 := (bits1 + len / 0x2000_0000) % 0x1_0000_0000;
    }

    /** Keeps bytes that do not complete the block. */
    method Keep(ghost m: seq<Byte>, x: seq<Byte>, t: nat)
      requires Holds(m) && t == |m| % 64 && t + |x| < BLOCK
      modifies inb
      ensures Holds(m + x)
    {
      CopyInto(inb, t, x);
      FeedPart(CompressBytes, INIT, m, x);
      assert inb[..t + |x|] == Tail(m) + x;
    }

    /** Takes the bytes that complete the block. */
    method Complete(ghost m: seq<Byte>, x: seq<Byte>, t: nat)
      requires Holds(m) && t == |m| % 64 && t + |x| == BLOCK
      modifies buf, inb
      ensures Holds(m + x) && |m + x| % 64 == 0
    {
      CopyInto(inb, t, x);
      assert inb[..] == Tail(m) + x;
      Transform(m, x);
    }

    /** Feeds any number of bytes: the context then stands for the concatenation. */
    method MD5Update(data: seq<Byte>)
      requires Valid() && |data| < TWO32
      modifies this, buf, inb
      ensures Valid() && fed == old(fed) + data
    {
      LowBitsTail(|fed|);
      var t := bits0 / 8 % 64;
      Count(|fed|, |data|);
      ghost var done := fed;
      fed := fed + data;
      Absorb(done, data, t);
    }

    method Absorb(ghost m: seq<Byte>, data: seq<Byte>, t: nat)
      requires Holds(m) && t == |m| % 64
      modifies buf, inb
      ensures Holds(m + data)
    {
      var rest := data;
      ghost var done := m;
      if t != 0 {
        if |rest| < BLOCK - t {
          Keep(m, rest, t);
          return;
        }
        Complete(m, rest[..BLOCK - t], t);
        done := m + rest[..BLOCK - t];
        rest := rest[BLOCK - t..];
        assert m + data == done + rest;
      }
      while |rest| >= BLOCK
        invariant m + data == done + rest && |done| % 64 == 0 && Holds(done)
      {
        Complete(done, rest[..BLOCK], 0);
        ghost var more := done + rest[..BLOCK];
        assert done + rest == more + rest[BLOCK..];
        done := more;
        rest := rest[BLOCK..];
      }
      Keep(done, rest, 0);
    }

    /** The digest of everything fed. The context is used up. */
    method MD5Final() returns (digest: seq<Byte>)
      requires Valid()
      modifies buf, inb
      ensures digest == Digest(fed)
    {
      LowBitsTail(|fed|);
      var length := LengthBytes(bits0, bits1);
      Pad(fed, bits0 / 8 % 64);
      digest := Finish(fed + [0x80] + Zeros(PadZeros(|fed|)), length);
    }

    /** Puts the length into the last eight bytes of the buffer and reads the digest off. */
    method Finish(ghost m: seq<Byte>, length: seq<Byte>) returns (digest: seq<Byte>)
      requires Holds(m) && |m| % 64 == 56 && |length| == 8
      modifies buf, inb
      ensures digest == Encode(Blocks(CompressBytes, INIT, m + length))
    {
      Complete(m, length, 56);
      digest := Encode(Hash(buf[0], buf[1], buf[2], buf[3]));
    }

    /** Appends 0x80 and zeros up to eight bytes short of a block. */
    method Pad(ghost m: seq<Byte>, count: nat)
      requires Holds(m) && count == |m| % 64
      modifies buf, inb
      ensures var p := m + [0x80] + Zeros(PadZeros(|m|));
              |p| % 64 == 56 && Holds(p)
    {
      ghost var p := m + [0x80];
      if BLOCK - 1 - count < 8 {
        Complete(m, [0x80] + Zeros(BLOCK - 1 - count), count);
        ghost var q := m + ([0x80] + Zeros(BLOCK - 1 - count));
        Keep(q, Zeros(56), 0);
        assert q + Zeros(56) == p + Zeros(PadZeros(|m|));
      } else {
        Keep(m, [0x80] + Zeros(55 - count), count);
        assert m + ([0x80] + Zeros(55 - count)) == p + Zeros(PadZeros(|m|));
      }
    }
  }
}
