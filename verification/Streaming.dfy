// A digest fed in pieces: whole 64-byte blocks go through a compression
// function as soon as they are complete, the rest waits in a buffer.
module Streaming {
  import opened Words
  import opened Sequences
  import opened Modular

  const BLOCK: nat := 64

  type Block = b: seq<Byte> | |b| == BLOCK witness seq(BLOCK, _ => 0)

  /** The compression function over all complete blocks of a message. */
  function Blocks<H>(f: (H, Block) -> H, h: H, m: seq<Byte>): H
    decreases |m|
  {
    if |m| < BLOCK then h else Blocks(f, f(h, m[..BLOCK]), m[BLOCK..])
  }

  /** The length of the complete blocks among n bytes. */
  function Whole(n: nat): (w: nat)
    ensures w <= n < w + BLOCK && w % 64 == 0 && n - w == n % 64
  {
    n / 64 * 64
  }

  lemma WholeIs(n: nat, w: nat)
    requires w <= n < w + BLOCK && w % 64 == 0
    ensures w == Whole(n)
  {
  }

  /** The bytes after the last complete block. */
  function Tail(m: seq<Byte>): (t: seq<Byte>)
    ensures |t| == |m| % 64
  {
    m[Whole(|m|)..]
  }

  lemma {:induction false} BlocksAppend<H>(f: (H, Block) -> H, h: H, x: seq<Byte>, y: seq<Byte>)
    requires |x| % 64 == 0
    ensures Blocks(f, h, x + y) == Blocks(f, Blocks(f, h, x), y)
    decreases |x|
  {
    if x == [] {
      assert x + y == y;
    } else {
      assert (x + y)[..BLOCK] == x[..BLOCK];
      assert (x + y)[BLOCK..] == x[BLOCK..] + y;
      BlocksAppend(f, f(h, x[..BLOCK]), x[BLOCK..], y);
    }
  }

  lemma BlocksOfNothing<H>(f: (H, Block) -> H, h: H, m: seq<Byte>)
    requires m == []
    ensures Blocks(f, h, m) == h && Tail(m) == []
  {
  }

  lemma Split(m: seq<Byte>)
    ensures m == m[..Whole(|m|)] + Tail(m)
  {
  }

  lemma TailAfter(x: seq<Byte>, t: seq<Byte>)
    requires |x| % 64 == 0 && |t| < BLOCK
    ensures Tail(x + t) == t
  {
    WholeIs(|x + t|, |x|);
  }

  /** More bytes that do not complete the block only lengthen the tail. */
  lemma FeedPart<H>(f: (H, Block) -> H, h: H, m: seq<Byte>, x: seq<Byte>)
    requires |m| % 64 + |x| < BLOCK
    ensures Blocks(f, h, m + x) == Blocks(f, h, m)
    ensures Tail(m + x) == Tail(m) + x
  {
    var w, t := m[..Whole(|m|)], Tail(m);
    Split(m);
    AppendAssoc(w, t, x);
    BlocksAppend(f, h, w, t);
    BlocksAppend(f, h, w, t + x);
    TailAfter(w, t + x);
  }

  /** Bytes that complete the block: the tail and they are compressed, nothing is left over. */
  lemma FeedBlock<H>(f: (H, Block) -> H, h: H, m: seq<Byte>, x: seq<Byte>)
    requires |m| % 64 + |x| == BLOCK
    ensures Blocks(f, h, m + x) == f(Blocks(f, h, m), Tail(m) + x)
    ensures Tail(m + x) == [] && |m + x| % 64 == 0
  {
    var w, t := m[..Whole(|m|)], Tail(m);
    Split(m);
    AppendAssoc(w, t, x);
    BlocksAppend(f, h, w, t);
    BlocksAppend(f, h, w, t + x);
    OneBlock(f, Blocks(f, h, w), t + x);
    WholeNext(|m|, |x|);
  }

  lemma WholeNext(n: nat, k: nat)
    requires n % 64 + k == BLOCK
    ensures Whole(n + k) == n + k && (n + k) % 64 == 0
  {
    WholeIs(n + k, n + k);
  }

  lemma OneBlock<H>(f: (H, Block) -> H, h: H, b: Block)
    ensures Blocks(f, h, b) == f(h, b)
  {
    assert b[..BLOCK] == b && b[BLOCK..] == [];
  }

  /** How many zero bytes bring a message and the byte 0x80 to eight short of a whole block. */
  function PadZeros(len: nat): (n: nat)
    ensures n < BLOCK && (len + 1 + n) % 64 == BLOCK - 8
  {
    if len % 64 < 56 then 55 - len % 64 else 119 - len % 64
  }

  /** The padding both digests use: a one bit, zeros, and the 64-bit length. */
  function Padded(m: seq<Byte>, length: seq<Byte>): seq<Byte>
  {
    m + [0x80] + Zeros(PadZeros(|m|)) + length
  }

  // ----- the two-word bit counter -----

  /** The low and the high word of the number of bits in n bytes, modulo 2^64. */
  function LowBits(n: nat): (r: nat)
    ensures r < TWO32
  {
    8 * n % 0x1_0000_0000
  }

  function HighBits(n: nat): (r: nat)
    ensures r < TWO32
  {
    8 * n / 0x1_0000_0000 % 0x1_0000_0000
  }

  lemma NoBits(n: nat)
    requires n == 0
    ensures LowBits(n) == HighBits(n) == 0
  {
    assert 8 * n == 0;
  }

  lemma CounterMeaning(n: nat)
    ensures HighBits(n) * 0x1_0000_0000 + LowBits(n) == 8 * n % 0x1_0000_0000_0000_0000
  {
    var b := 8 * n;
    var q := b / 0x1_0000_0000;
    assert b == q * 0x1_0000_0000 + b % 0x1_0000_0000;
    assert q == q / 0x1_0000_0000 * 0x1_0000_0000 + q % 0x1_0000_0000;
    DivModUnique(b, 0x1_0000_0000_0000_0000, q / 0x1_0000_0000, q % 0x1_0000_0000 * 0x1_0000_0000 + b % 0x1_0000_0000);
  }

  /** The counter tells how much of a block is waiting. */
  lemma LowBitsTail(n: nat)
    ensures LowBits(n) / 8 % 64 == n % 64
  {
    var q := 8 * n / 0x1_0000_0000;
    assert LowBits(n) == 8 * n - q * 0x1_0000_0000;
    assert LowBits(n) / 8 == n - q * 0x2000_0000;
    assert n == LowBits(n) / 8 + (q * 0x80_0000) * 64;
  }

  /** Adding to the counter word by word, with the carry told by the wrapped sum. */
  lemma CounterAdds(n: nat, len: nat)
    requires len < TWO32
    ensures var t := LowBits(n);
            var sum := (t + 8 * len % 0x1_0000_0000) % 0x1_0000_0000;
            var carry := if sum < t then 1 else 0;
            && sum == LowBits(n + len)
            && ((HighBits(n) + carry) % 0x1_0000_0000 + len / 0x2000_0000) % 0x1_0000_0000 == HighBits(n + len)
  {
    var q, t := 8 * n / 0x1_0000_0000, LowBits(n);
    var p, u := len / 0x2000_0000, 8 * len % 0x1_0000_0000;
    assert 8 * n == q * 0x1_0000_0000 + t;
    assert 8 * len == p * 0x1_0000_0000 + u;
    var carry := if t + u >= TWO32 then 1 else 0;
    assert 8 * (n + len) == (q + p + carry) * 0x1_0000_0000 + (t + u - carry * 0x1_0000_0000);
    assert 8 * (n + len) / 0x1_0000_0000 == q + p + carry;
    WrapSum(q + carry, p);
    WrapSum(q, carry);
  }

  lemma WrapSum(a: nat, b: nat)
    ensures (a % 0x1_0000_0000 + b) % 0x1_0000_0000 == (a + b) % 0x1_0000_0000
  {
    assert a == a / 0x1_0000_0000 * 0x1_0000_0000 + a % 0x1_0000_0000;
  }

  /** memcpy into a buffer at an offset. */
  method CopyInto(a: array<Byte>, at: nat, s: seq<Byte>)
    requires at + |s| <= a.Length
    modifies a
    ensures a[..] == old(a[..at]) + s + old(a[at + |s|..])
  {
    for k := 0 to |s|
      invariant a[..at] == old(a[..at])
      invariant a[at..at + k] == s[..k]
      invariant a[at + k..] == old(a[at + k..])
    {
      a[at + k] := s[k];
    }
    assert a[..] == a[..at] + a[at..at + |s|] + a[at + |s|..];
  }
}
