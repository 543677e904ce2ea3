// SHA-1 of Module/md5.c: the streaming context against RFC 3174.
module Sha1 {
  import opened Words
  import opened Streaming
  import opened Modular

  datatype Regs = Regs(a: Word, b: Word, c: Word, d: Word, e: Word)

  // ----- the definition, sections 5 and 6.1 -----

  /** f(t;B,C,D) */
  function Mix(t: nat, b: Word, c: Word, d: Word): Word {
    if t < 20 then Or(And(b, c), And(Not(b), d))
    else if t < 40 then Xor(Xor(b, c), d)
    else if t < 60 then Or(Or(And(b, c), And(b, d)), And(c, d))
    else Xor(Xor(b, c), d)
  }

  /** K(t) */
  function Constant(t: nat): Word {
    if t < 20 then 0x5a827999
    else if t < 40 then 0x6ed9eba1
    else if t < 60 then 0x8f1bbcdc
    else 0xca62c1d6
  }

  /** The constants are the integer parts of 2^30 times the square roots of 2, 3, 5 and 10. */
  lemma ConstantIs(t: nat, n: nat)
    requires t < 80 && n == if t < 20 then 2 else if t < 40 then 3 else if t < 60 then 5 else 10
    ensures Constant(t) * Constant(t) <= n * 0x1000_0000_0000_0000 < (Constant(t) + 1) * (Constant(t) + 1)
  {
  }

  /** W(t), the message schedule. */
  function Schedule(X: seq<Word>, t: nat): Word
    requires |X| == 16
  {
    if t < 16 then X[t]
    else Rotl(Xor(Xor(Xor(Schedule(X, t - 3), Schedule(X, t - 8)), Schedule(X, t - 14)), Schedule(X, t - 16)), 1)
  }

  /** The registers after t rounds. */
  function Rounds(h: Regs, X: seq<Word>, t: nat): Regs
    requires |X| == 16
    decreases X, t, 0
  {
    if t == 0 then h
    else
      var p := Rounds(h, X, t - 1);
      Regs(Temp(h, X, t - 1), p.a, Rotl(p.b, 30), p.c, p.d)
  }

  /** TEMP = S^5(A) + f(t;B,C,D) + E + W(t) + K(t) */
  function Temp(h: Regs, X: seq<Word>, t: nat): Word
    requires |X| == 16
    decreases X, t, 2
  {
    Sum(Rounds(h, X, t), t, Schedule(X, t))
  }

  function Sum(p: Regs, t: nat, w: Word): Word {
    Add(Add(Add(Add(Rotl(p.a, 5), Mix(t, p.b, p.c, p.d)), p.e), w), Constant(t))
  }

  function Plus(g: Regs, h: Regs): Regs {
    Regs(Add(g.a, h.a), Add(g.b, h.b), Add(g.c, h.c), Add(g.d, h.d), Add(g.e, h.e))
  }

  function Compress(h: Regs, X: seq<Word>): Regs
    requires |X| == 16
  {
    Plus(h, Rounds(h, X, 80))
  }

  /** A block as sixteen words, high-order byte first. */
  function Decode(b: Block): (X: seq<Word>)
    ensures |X| == 16
  {
    seq(16, i requires 0 <= i < 16 => BigEndian(b[4 * i], b[4 * i + 1], b[4 * i + 2], b[4 * i + 3]))
  }

  function Encode(h: Regs): (d: seq<Byte>)
    ensures |d| == 20
  {
    BigBytes(h.a) + BigBytes(h.b) + BigBytes(h.c) + BigBytes(h.d) + BigBytes(h.e)
  }

  function CompressBytes(h: Regs, b: Block): Regs {
    Compress(h, Decode(b))
  }

  const INIT: Regs := Regs(0x67452301, 0xefcdab89, 0x98badcfe, 0x10325476, 0xc3d2e1f0)

  /** The 64-bit length in bits, most significant byte first. */
  function LengthBytes(high: nat, low: nat): (bs: seq<Byte>)
    requires high < TWO32 && low < TWO32
    ensures |bs| == 8
  {
    BigBytes(high) + BigBytes(low)
  }

  function Digest(m: seq<Byte>): (d: seq<Byte>)
    ensures |d| == 20
  {
    Encode(Blocks(CompressBytes, INIT, Padded(m, LengthBytes(HighBits(|m|), LowBits(|m|)))))
  }

  // ----- the code's round functions -----

  function Choose(b: Word, c: Word, d: Word): Word { Xor(And(Xor(c, d), b), d) }
  function Parity(b: Word, c: Word, d: Word): Word { Xor(Xor(b, c), d) }
  function Majority(b: Word, c: Word, d: Word): Word { Or(And(b, c), And(d, Or(b, c))) }

  lemma MixIs(t: nat, b: Word, c: Word, d: Word)
    ensures t < 20 ==> Mix(t, b, c, d) == Choose(b, c, d)
    ensures 20 <= t < 40 || 60 <= t ==> Mix(t, b, c, d) == Parity(b, c, d)
    ensures 40 <= t < 60 ==> Mix(t, b, c, d) == Majority(b, c, d)
  {
    Select(b, c, d);
    Words.Majority(b, c, d);
  }

  /** One round of the code, in the range its mixing function serves, is a round of the definition. */
  lemma RoundIs(h: Regs, X: seq<Word>, t: nat, p: Regs, f: Word, w: Word)
    requires |X| == 16 && Rounds(h, X, t) == p && f == Mix(t, p.b, p.c, p.d) && w == Schedule(X, t)
    ensures Rounds(h, X, t + 1)
            == Regs(Add(Add(Add(Add(Rotl(p.a, 5), f), p.e), w), Constant(t)), p.a, Rotl(p.b, 30), p.c, p.d)
  {
    assert Temp(h, X, t) == Sum(p, t, w);
  }

  /** Expands the schedule in place. */
  method Expand(W: array<Word>)
    requires W.Length == 80
    modifies W
    ensures forall t: nat :: t < 80 ==> W[t] == Schedule(old(W[..16]), t)
  {
    ghost var X := W[..16];
    for t := 16 to 80
      invariant forall i: nat :: i < t ==> W[i] == Schedule(X, i)
    {
      W[t] := Rotl(Xor(Xor(Xor(W[t - 3], W[t - 8]), W[t - 14]), W[t - 16]), 1);
    }
  }

  /** The four loops of twenty rounds. */
  method Mixed(ghost X: seq<Word>, W: array<Word>, h: Regs) returns (r: Regs)
    requires |X| == 16 && W.Length == 80 && forall t: nat :: t < 80 ==> W[t] == Schedule(X, t)
    ensures r == Rounds(h, X, 80)
  {
    var A, B, C, D, E := h.a, h.b, h.c, h.d, h.e;
    for t := 0 to 20
      invariant Rounds(h, X, t) == Regs(A, B, C, D, E)
    {
      MixIs(t, B, C, D);
      RoundIs(h, X, t, Regs(A, B, C, D, E), Choose(B, C, D), W[t]);
      var TEMP := Add(Add(Add(Add(Rotl(A, 5), Choose(B, C, D)), E), W[t]), 0x5a827999);
      E, D, C, B, A := D, C, Rotl(B, 30), A, TEMP;
    }
    for t := 20 to 40
      invariant Rounds(h, X, t) == Regs(A, B, C, D, E)
    {
      MixIs(t, B, C, D);
      RoundIs(h, X, t, Regs(A, B, C, D, E), Parity(B, C, D), W[t]);
      var TEMP := Add(Add(Add(Add(Rotl(A, 5), Parity(B, C, D)), E), W[t]), 0x6ed9eba1);
      E, D, C, B, A := D, C, Rotl(B, 30), A, TEMP;
    }
    for t := 40 to 60
      invariant Rounds(h, X, t) == Regs(A, B, C, D, E)
    {
      MixIs(t, B, C, D);
      RoundIs(h, X, t, Regs(A, B, C, D, E), Majority(B, C, D), W[t]);
      var TEMP := Add(Add(Add(Add(Rotl(A, 5), Majority(B, C, D)), E), W[t]), 0x8f1bbcdc);
      E, D, C, B, A := D, C, Rotl(B, 30), A, TEMP;
    }
    for t := 60 to 80
      invariant Rounds(h, X, t) == Regs(A, B, C, D, E)
    {
      MixIs(t, B, C, D);
      RoundIs(h, X, t, Regs(A, B, C, D, E), Parity(B, C, D), W[t]);
      var TEMP := Add(Add(Add(Add(Rotl(A, 5), Parity(B, C, D)), E), W[t]), 0xca62c1d6);
      E, D, C, B, A := D, C, Rotl(B, 30), A, TEMP;
    }
    r := Regs(A, B, C, D, E);
  }

  function RegsOf(s: seq<Word>): Regs
    requires |s| == 5
  {
    Regs(s[0], s[1], s[2], s[3], s[4])
  }

  method SHAHashBlock(H: array<Word>, W: array<Word>)
    requires H.Length == 5 && W.Length == 80 && H != W
    modifies H, W
    ensures RegsOf(H[..]) == Compress(old(RegsOf(H[..])), old(W[..16]))
  {
    ghost var X := W[..16];
    var h := Regs(H[0], H[1], H[2], H[3], H[4]);
    Expand(W);
    var r := Mixed(X, W, h);
    AddInto(H, r);
  }

  method AddInto(H: array<Word>, r: Regs)
    requires H.Length == 5
    modifies H
    ensures RegsOf(H[..]) == Plus(old(RegsOf(H[..])), r)
  {
    H[0] := Add(H[0], r.a);
    H[1] := Add(H[1], r.b);
    H[2] := Add(H[2], r.c);
    H[3] := Add(H[3], r.d);
    H[4] := Add(H[4], r.e);
  }

  // ----- bytes shifted into words -----

  /** The number some bytes spell, most significant first. */
  function Value(bs: seq<Byte>): nat {
    if bs == [] then 0 else 0x100 * Value(bs[..|bs| - 1]) + bs[|bs| - 1]
  }

  /** The k low-order bytes of a word. */
  function LowBytes(w: Word, k: nat): nat {
    if k == 0 then 0
    else if k == 1 then w % 0x100
    else if k == 2 then w % 0x1_0000
    else if k == 3 then w % 0x100_0000
    else w
  }

  /** The low-order bytes of w are the (at most four) bytes shifted in last. */
  predicate Carries(w: Word, bs: seq<Byte>) {
    |bs| <= 4 && LowBytes(w, |bs|) == Value(bs)
  }

  lemma ShiftByte(w: Word, bs: seq<Byte>, b: Byte)
    requires |bs| < 4 && Carries(w, bs)
    ensures Carries(Or(Shl(w, 8), b), bs + [b])
  {
    ShiftByteIn(w, b);
    assert (bs + [b])[..|bs|] == bs;
    assert Value(bs + [b]) == 0x100 * Value(bs) + b;
    TopByteLost(w, |bs|, b);
  }

  /** Shifting a byte in moves the low bytes up and drops the top one. */
  lemma TopByteLost(w: Word, k: nat, b: Byte)
    requires k < 4
    ensures LowBytes(w % 0x100_0000 * 0x100 + b, k + 1) == 0x100 * LowBytes(w, k) + b
  {
    var x := w % 0x100_0000;
    if k == 0 {
      DivModUnique(x * 0x100 + b, 0x100, x, b);
    } else if k == 1 {
      Nested(w, 0x100, 0x1_0000);
      DivModUnique(x * 0x100 + b, 0x1_0000, x / 0x100, x % 0x100 * 0x100 + b);
    } else if k == 2 {
      Nested(w, 0x1_0000, 0x100);
      DivModUnique(x * 0x100 + b, 0x100_0000, x / 0x1_0000, x % 0x1_0000 * 0x100 + b);
    }
  }

  /** The remainder by a divisor of 2^24, taken after the remainder by 2^24. */
  lemma Nested(w: nat, d: nat, e: nat)
    requires (d == 0x100 && e == 0x1_0000) || (d == 0x1_0000 && e == 0x100)
    ensures w % 0x100_0000 % d == w % d
  {
    var q, x := w / 0x100_0000, w % 0x100_0000;
    assert w == (q * e + x / d) * d + x % d;
    DivModUnique(w, d, q * e + x / d, x % d);
  }

  lemma FullWord(w: Word, bs: seq<Byte>)
    requires |bs| == 4 && Carries(w, bs)
    ensures w == BigEndian(bs[0], bs[1], bs[2], bs[3])
  {
    PowersOfTwo();
    var b3, b2, b1 := bs[..3], bs[..3][..2], bs[..3][..2][..1];
    assert b1[..0] == [];
    assert Value(b1) == bs[0];
    assert Value(b2) == 0x100 * Value(b1) + bs[1];
    assert Value(b3) == 0x100 * Value(b2) + bs[2];
    assert Value(bs) == 0x100 * Value(b3) + bs[3];
  }

  /** The part of the waiting bytes that word j of the buffer carries. */
  function Slice(tail: seq<Byte>, j: nat): (bs: seq<Byte>)
    ensures |bs| <= 4
  {
    if 4 * j >= |tail| then []
    else if 4 * j + 4 <= |tail| then tail[4 * j..4 * j + 4]
    else tail[4 * j..]
  }

  ghost predicate Buffered(W: seq<Word>, tail: seq<Byte>)
    requires |W| >= 16
  {
    && |tail| <= BLOCK
    && forall j: nat :: j < 16 ==> Carries(W[j], Slice(tail, j))
  }

  lemma NothingBuffered(W: seq<Word>, tail: seq<Byte>)
    requires |W| >= 16 && tail == []
    ensures Buffered(W, tail)
  {
  }

  /** One more byte into the buffer. */
  lemma BufferByte(W: seq<Word>, tail: seq<Byte>, b: Byte)
    requires |W| >= 16 && Buffered(W, tail) && |tail| < BLOCK
    ensures var i := |tail| / 4; Buffered(W[i := Or(Shl(W[i], 8), b)], tail + [b])
  {
    var i := |tail| / 4;
    var more := tail + [b];
    ShiftByte(W[i], Slice(tail, i), b);
    assert Slice(more, i) == Slice(tail, i) + [b];
    forall j: nat | j < 16 && j != i ensures Slice(more, j) == Slice(tail, j) {
    }
  }

  /** A full buffer is the decoded block. */
  lemma BufferFull(W: seq<Word>, b: Block)
    requires |W| >= 16 && Buffered(W, b)
    ensures W[..16] == Decode(b)
  {
    forall j: nat | j < 16 ensures W[j] == Decode(b)[j] {
      FullWord(W[j], Slice(b, j));
    }
  }

  lemma FullAt(k: nat)
    requires 1 <= k <= BLOCK
    ensures k % 64 == 0 <==> k == BLOCK
  {
  }

  // ----- the context -----

  class SHA_CTX {
    const H: array<Word>
    const W: array<Word>
    var lenW: nat
    var sizeHi: nat
    var sizeLo: nat
    ghost var fed: seq<Byte>

    ghost predicate Holds(m: seq<Byte>)
      reads H, W
    {
      && H.Length == 5 && W.Length == 80 && H != W
      && RegsOf(H[..]) == Blocks(CompressBytes, INIT, m)
      && Buffered(W[..], Tail(m))
    }

    ghost predicate Valid()
      reads this, H, W
    {
      Holds(fed) && lenW == |fed| % 64 && sizeLo == LowBits(|fed|) && sizeHi == HighBits(|fed|)
    }

    constructor ()
      ensures Valid() && fed == [] && fresh(H) && fresh(W)
    {
      H := new Word[5](_ => 0);
      W := new Word[80](_ => 0);
      new;
      SHAInit();
    }

    method PutByte(ghost tail: seq<Byte>, b: Byte)
      requires W.Length == 80 && H != W && Buffered(W[..], tail) && lenW == |tail| < BLOCK
      modifies this`lenW, W
      ensures Buffered(W[..], tail + [b]) && lenW == |tail| + 1
    {
      BufferByte(W[..], tail, b);
      ghost var before := W[..];
      W[lenW / 4] := Or(Shl(W[lenW / 4], 8), b);
      assert W[..] == before[lenW / 4 := W[lenW / 4]];
      lenW := lenW + 1;
    }

    /** One byte into the word it belongs to, and the block function when the block is full. */
    method Shift(ghost m: seq<Byte>, b: Byte)
      requires Holds(m) && lenW == |m| % 64
      modifies this`lenW, H, W
      ensures Holds(m + [b]) && lenW == |m + [b]| % 64
    {
      PutByte(Tail(m), b);
      Put(m, [b]);
    }

    /** One byte more is in the buffer. */
    method Put(ghost m: seq<Byte>, ghost x: seq<Byte>)
      requires H.Length == 5 && W.Length == 80 && H != W && |x| == 1
      requires RegsOf(H[..]) == Blocks(CompressBytes, INIT, m)
      requires Buffered(W[..], Tail(m) + x) && lenW == |m| % 64 + 1
      modifies this`lenW, H, W
      ensures Holds(m + x) && lenW == |m + x| % 64
    {
      FullAt(lenW);
      if lenW % 64 == 0 {
        Full(m, x);
        lenW := 0;
      } else {
        PartHolds(m, x);
      }
    }

    lemma PartHolds(m: seq<Byte>, x: seq<Byte>)
      requires H.Length == 5 && W.Length == 80 && H != W && |m| % 64 + |x| < BLOCK
      requires RegsOf(H[..]) == Blocks(CompressBytes, INIT, m) && Buffered(W[..], Tail(m) + x)
      ensures Holds(m + x) && |m + x| % 64 == |m| % 64 + |x|
    {
      FeedPart(CompressBytes, INIT, m, x);
    }

    method Full(ghost m: seq<Byte>, ghost x: seq<Byte>)
      requires H.Length == 5 && W.Length == 80 && H != W
      requires RegsOf(H[..]) == Blocks(CompressBytes, INIT, m)
      requires |m| % 64 + |x| == BLOCK && Buffered(W[..], Tail(m) + x)
      modifies H, W
      ensures Holds(m + x) && |m + x| % 64 == 0
    {
      BufferFull(W[..], Tail(m) + x);
      assert W[..][..16] == W[..16];
      ghost var h := RegsOf(H[..]);
      SHAHashBlock(H, W);
      FeedBlock(CompressBytes, INIT, m, x);
      assert RegsOf(H[..]) == CompressBytes(h, Tail(m) + x);
    }

    /** Adds eight to the two-word bit counter. */
    method Tally(ghost n: nat)
      requires sizeLo == LowBits(n) && sizeHi == HighBits(n)
      modifies this`sizeLo, this`sizeHi
      ensures sizeLo == LowBits(n + 1) && sizeHi == HighBits(n + 1)
    {
      CounterAdds(n, 1);
      sizeLo := (sizeLo + 8) % 0x1_0000_0000;
      sizeHi := (sizeHi + if sizeLo < 8 then 1 else 0) % 0x1_0000_0000;
    }

    method Feed(b: Byte)
      requires Valid()
      modifies this, H, W
      ensures Valid() && fed == old(fed) + [b]
    {
      Shift(fed, b);
      Tally(|fed|);
      fed := fed + [b];
    }

    /** Feeds any number of bytes: the context then stands for the concatenation. */
    method SHAUpdate(dataIn: seq<Byte>)
      requires Valid()
      modifies this, H, W
      ensures Valid() && fed == old(fed) + dataIn
    {
      for i := 0 to |dataIn|
        invariant Valid() && fed == old(fed) + dataIn[..i]
      {
        Feed(dataIn[i]);
        assert dataIn[..i + 1] == dataIn[..i] + [dataIn[i]];
      }
      assert dataIn[..|dataIn|] == dataIn;
    }

    /** Pads with 0x80 and zeros up to eight bytes short of a block. */
    method Pad()
      requires Valid()
      modifies this, H, W
      ensures Valid() && fed == old(fed + [0x80] + Zeros(PadZeros(|fed|)))
    {
      ghost var m := fed;
      SHAUpdate([0x80]);
      ghost var k := 0;
      assert Zeros(0) == [];
      while lenW != 56
        invariant Valid() && k <= PadZeros(|m|) && fed == m + [0x80] + Zeros(k)
        decreases PadZeros(|m|) - k
      {
        ZeroCount(|m|, k);
        SHAUpdate([0]);
        assert m + [0x80] + Zeros(k) + [0] == m + [0x80] + Zeros(k + 1);
        k := k + 1;
      }
      ZeroCount(|m|, k);
    }

    /** The digest of everything fed; the context starts afresh. */
    method SHAFinal() returns (hashout: seq<Byte>)
      requires Valid()
      modifies this, H, W
      ensures hashout == Digest(old(fed))
      ensures Valid() && fed == []
    {
      var padlen := LengthBytes(sizeHi, sizeLo);
      Pad();
      SHAUpdate(padlen);
      hashout := Output();
      SHAInit();
    }

    /** The registers, byte by byte, each shifted out of the word it is in. */
    method Output() returns (out: seq<Byte>)
      requires H.Length == 5
      modifies H
      ensures out == old(Encode(RegsOf(H[..])))
    {
      ghost var all := Encode(RegsOf(H[..]));
      ghost var h := H[..];
      out := [];
      for i := 0 to 20
        invariant out == all[..i]
        invariant forall j: nat :: j < 5 ==>
          H[j] == Shifted(h[j], if 4 * j >= i then 0 else if i >= 4 * j + 4 then 4 else i - 4 * j)
      {
        ByteOut(h, i);
        TakeOneMore(all, i);
        out := out + [Shr(H[i / 4], 24)];
        H[i / 4] := Shl(H[i / 4], 8);
      }
    }

    method SHAInit()
      requires H.Length == 5 && W.Length == 80 && H != W
      modifies this, H, W
      ensures Valid() && fed == []
    {
      InitRegisters();
      InitWords();
      lenW, sizeHi, sizeLo := 0, 0, 0;
      fed := [];
      StartsValid();
    }

    lemma StartsValid()
      requires H.Length == 5 && W.Length == 80 && H != W && RegsOf(H[..]) == INIT
      requires fed == [] && lenW == sizeHi == sizeLo == 0
      ensures Valid()
    {
      BlocksOfNothing(CompressBytes, INIT, fed);
      NothingBuffered(W[..], Tail(fed));
      NoBits(|fed|);
    }

    method InitRegisters()
      requires H.Length == 5
      modifies H
      ensures RegsOf(H[..]) == INIT
    {
      H[0], H[1], H[2], H[3], H[4] := 0x67452301, 0xefcdab89, 0x98badcfe, 0x10325476, 0xc3d2e1f0;
    }

    method InitWords()
      modifies W
    {
      for i := 0 to W.Length
        modifies W
      {
        W[i] := 0;
      }
    }
  }

  /** Zeros fed so far leave the buffer at 56 bytes exactly when the padding is complete. */
  lemma ZeroCount(n: nat, k: nat)
    requires k <= PadZeros(n)
    ensures (n + 1 + k) % 64 == 56 <==> k == PadZeros(n)
  {
    var r := n % 64;
    assert (n + 1 + k) % 64 == (r + 1 + k) % 64;
  }

  /** A word after n bytes have been shifted out of its top. */
  function Shifted(w: Word, n: nat): Word {
    if n == 0 then w else Shl(Shifted(w, n - 1), 8)
  }

  lemma ShiftedTop(w: Word, n: nat)
    requires n < 4
    ensures Shr(Shifted(w, n), 24) == BigBytes(w)[n]
  {
    PowersOfTwo();
    EndianRoundTrips(w);
    var bs := BigBytes(w);
    ShiftedBytes(w, bs[0], bs[1], bs[2], bs[3], n);
  }

  lemma {:induction false} ShiftedBytes(w: Word, a: Byte, b: Byte, c: Byte, d: Byte, n: nat)
    requires w == BigEndian(a, b, c, d) && n < 4
    ensures Shifted(w, n) / 0x100_0000 == [a, b, c, d][n]
    decreases n
  {
    if n == 0 {
      TopOf(w, a, b, c, d);
    } else {
      ShlBytes(w, a, b, c, d);
      ShiftedFront(w, n);
      ShiftedBytes(Shl(w, 8), b, c, d, 0, n - 1);
    }
  }

  lemma {:induction false} ShiftedFront(w: Word, n: nat)
    requires n >= 1
    ensures Shifted(w, n) == Shifted(Shl(w, 8), n - 1)
  {
    if n > 1 {
      ShiftedFront(w, n - 1);
    }
  }

  lemma EncodeAt(h: seq<Word>, i: nat)
    requires |h| == 5 && i < 20
    ensures Encode(RegsOf(h))[i] == BigBytes(h[i / 4])[i % 4]
  {
    var b0, b1, b2, b3, b4 := BigBytes(h[0]), BigBytes(h[1]), BigBytes(h[2]), BigBytes(h[3]), BigBytes(h[4]);
    FiveWords(b0, b1, b2, b3, b4, i);
  }

  lemma FiveWords(b0: seq<Byte>, b1: seq<Byte>, b2: seq<Byte>, b3: seq<Byte>, b4: seq<Byte>, i: nat)
    requires |b0| == 4 && |b1| == 4 && |b2| == 4 && |b3| == 4 && |b4| == 4 && i < 20
    ensures (b0 + b1 + b2 + b3 + b4)[i] == [b0, b1, b2, b3, b4][i / 4][i % 4]
  {
  }

  lemma ByteOut(h: seq<Word>, i: nat)
    requires |h| == 5 && i < 20
    ensures Shr(Shifted(h[i / 4], i % 4), 24) == Encode(RegsOf(h))[i]
  {
    EncodeAt(h, i);
    ShiftedTop(h[i / 4], i % 4);
  }

  lemma TakeOneMore(s: seq<Byte>, i: nat)
    requires i < |s|
    ensures s[..i] + [s[i]] == s[..i + 1]
  {
  }
}
