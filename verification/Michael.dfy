// The Michael message integrity code of Module/rtmp_tkip.c, a byte at a time,
// against the word-wise definition of section 8.3.2.3 of IEEE 802.11i-2004.
module Michael {
  import opened Words
  import opened Modular
  import opened Sequences

  datatype Pair = Pair(l: Word, r: Word)

  // ----- the definition -----

  /** Swaps the bytes of each half of a word. */
  function XSwap(w: Word): Word {
    Or(Shr(And(w, 0xff00ff00), 8), Shl(And(w, 0x00ff00ff), 8))
  }

  /** What the left half contributes in quarter k of the block function. */
  function Stir(k: nat, l: Word): Word {
    if k == 1 then Rotl(l, 17) else if k == 2 then XSwap(l) else if k == 3 then Rotl(l, 3) else Rotl(l, 30)
  }

  /** A quarter: r = r xor stir(l), l = l + r. */
  function Quarter(k: nat, p: Pair): Pair {
    var r := Xor(p.r, Stir(k, p.l));
    Pair(Add(p.l, r), r)
  }

  function Quarters(p: Pair, k: nat): Pair {
    if k == 0 then p else Quarter(k, Quarters(p, k - 1))
  }

  /** The block function b(l, r). */
  function Block(p: Pair): Pair {
    Quarters(p, 4)
  }

  lemma QuarterIs(k: nat, l: Word, r: Word, r1: Word, l1: Word)
    requires r1 == Xor(r, Stir(k, l)) && l1 == (l + r1) % 0x1_0000_0000
    ensures Quarter(k, Pair(l, r)) == Pair(l1, r1)
  {
  }

  lemma FourQuarters(p: Pair, p1: Pair, p2: Pair, p3: Pair)
    requires p1 == Quarter(1, p) && p2 == Quarter(2, p1) && p3 == Quarter(3, p2)
    ensures Block(p) == Quarter(4, p3)
  {
    assert Quarters(p, 0) == p;
    assert Quarters(p, 1) == p1;
    assert Quarters(p, 2) == p2;
    assert Quarters(p, 3) == p3;
  }

  /** The block function written out, as section 8.3.2.3 gives it. */
  lemma BlockIs(l: Word, r: Word, r1: Word, l1: Word, r2: Word, l2: Word, r3: Word, l3: Word, r4: Word, l4: Word)
    requires r1 == Xor(r, Rotl(l, 17)) && l1 == (l + r1) % 0x1_0000_0000
    requires r2 == Xor(r1, Or(Shr(And(l1, 0xff00ff00), 8), Shl(And(l1, 0x00ff00ff), 8))) && l2 == (l1 + r2) % 0x1_0000_0000
    requires r3 == Xor(r2, Rotl(l2, 3)) && l3 == (l2 + r3) % 0x1_0000_0000
    requires r4 == Xor(r3, Rotl(l3, 30)) && l4 == (l3 + r4) % 0x1_0000_0000
    ensures Block(Pair(l, r)) == Pair(l4, r4)
  {
    QuarterIs(1, l, r, r1, l1);
    QuarterIs(2, l1, r1, r2, l2);
    QuarterIs(3, l2, r2, r3, l3);
    QuarterIs(4, l3, r3, r4, l4);
    FourQuarters(Pair(l, r), Pair(l1, r1), Pair(l2, r2), Pair(l3, r3));
  }

  /** One message word. */
  function Take(p: Pair, m: Word): Pair {
    Block(Pair(Xor(p.l, m), p.r))
  }

  /** The number bytes spell, least significant first. */
  function Spelt(bs: seq<Byte>): nat {
    if bs == [] then 0 else bs[0] + 0x100 * Spelt(bs[1..])
  }

  lemma {:induction false} SpeltMore(bs: seq<Byte>, b: Byte)
    ensures Spelt(bs) < Pow2(8 * |bs|)
    ensures Spelt(bs + [b]) == Spelt(bs) + b * Pow2(8 * |bs|)
  {
    if bs == [] {
      assert [] + [b] == [b] && [b][1..] == [];
      assert Pow2(0) == 1;
    } else {
      assert (bs + [b])[1..] == bs[1..] + [b];
      SpeltMore(bs[1..], b);
      var p := Pow2(8 * |bs[1..]|);
      PowersOfTwo();
      PowerSum(8, 8 * |bs[1..]|);
      assert Pow2(8 * |bs|) == 0x100 * p;
      assert b * (0x100 * p) == 0x100 * (b * p);
    }
  }

  /** The first word of a message. */
  function Front(m: seq<Byte>): Word
    requires |m| >= 4
  {
    FrontBelow(m);
    Spelt(m[..4])
  }

  lemma FrontBelow(m: seq<Byte>)
    requires |m| >= 4
    ensures Spelt(m[..4]) < TWO32
  {
    SpeltMore(m[..4], 0);
    PowersOfTwo();
  }

  /** A function over the complete words of a message, low-order byte first. */
  function Fold<H>(f: (H, Word) -> H, h: H, m: seq<Byte>): H
    decreases |m|
  {
    if |m| < 4 then h else Fold(f, f(h, Front(m)), m[4..])
  }

  function Absorb(p: Pair, m: seq<Byte>): Pair {
    Fold(Take, p, m)
  }

  /** Four to seven zeros, to a whole number of words. */
  function PadZeros(n: nat): (z: nat)
    ensures 4 <= z <= 7 && (n + 1 + z) % 4 == 0
  {
    7 - n % 4
  }

  function Padded(m: seq<Byte>): seq<Byte> {
    m + [0x5a] + Zeros(PadZeros(|m|))
  }

  function Encode(p: Pair): (mic: seq<Byte>)
    ensures |mic| == 8
  {
    LittleBytes(p.l) + LittleBytes(p.r)
  }

  function Mic(key: Pair, m: seq<Byte>): (mic: seq<Byte>)
    ensures |mic| == 8
  {
    Encode(Absorb(key, Padded(m)))
  }

  lemma MicIs(key: Pair, m: seq<Byte>, l: Word, r: Word)
    requires Pair(l, r) == Absorb(key, Padded(m))
    ensures LittleBytes(l) + LittleBytes(r) == Mic(key, m)
  {
  }

  // ----- words taken one by one -----

  lemma {:induction false} FoldAppend<H>(f: (H, Word) -> H, h: H, x: seq<Byte>, y: seq<Byte>)
    requires |x| % 4 == 0
    ensures Fold(f, h, x + y) == Fold(f, Fold(f, h, x), y)
    decreases |x|
  {
    if x == [] {
      assert x + y == y;
    } else {
      assert (x + y)[4..] == x[4..] + y;
      assert (x + y)[..4] == x[..4];
      FoldAppend(f, f(h, Front(x)), x[4..], y);
    }
  }

  /** The length of the complete words among n bytes. */
  function Whole(n: nat): (w: nat)
    ensures w <= n < w + 4 && w % 4 == 0 && n - w == n % 4
  {
    n / 4 * 4
  }

  lemma WholeIs(n: nat, w: nat)
    requires w <= n < w + 4 && w % 4 == 0
    ensures w == Whole(n)
  {
  }

  /** The bytes after the last complete word. */
  function Rest(m: seq<Byte>): (t: seq<Byte>)
    ensures |t| == |m| % 4
  {
    m[Whole(|m|)..]
  }

  lemma Parts(m: seq<Byte>)
    ensures m == m[..Whole(|m|)] + Rest(m)
  {
  }

  lemma FoldWhole<H>(f: (H, Word) -> H, h: H, m: seq<Byte>)
    ensures Fold(f, h, m) == Fold(f, h, m[..Whole(|m|)])
  {
    var x, y := m[..Whole(|m|)], m[Whole(|m|)..];
    assert m == x + y;
    FoldAppend(f, h, x, y);
  }

  lemma RestAfter(x: seq<Byte>, t: seq<Byte>)
    requires |x| % 4 == 0 && |t| < 4
    ensures Rest(x + t) == t
  {
    WholeIs(|x + t|, |x|);
  }

  lemma FoldShort<H>(f: (H, Word) -> H, h: H, x: seq<Byte>, t: seq<Byte>)
    requires |x| % 4 == 0 && |t| < 4
    ensures Fold(f, h, x + t) == Fold(f, h, x)
  {
    FoldAppend(f, h, x, t);
  }

  /** A byte that does not complete a word. */
  lemma FeedPart<H>(f: (H, Word) -> H, h: H, m: seq<Byte>, b: Byte)
    requires |m| % 4 < 3
    ensures Fold(f, h, m + [b]) == Fold(f, h, m) && Rest(m + [b]) == Rest(m) + [b]
  {
    var x := m[..Whole(|m|)];
    Parts(m);
    AppendAssoc(x, Rest(m), [b]);
    FoldShort(f, h, x, Rest(m) + [b]);
    RestAfter(x, Rest(m) + [b]);
    FoldWhole(f, h, m);
  }

  /** A byte that does. */
  lemma FeedWord<H>(f: (H, Word) -> H, h: H, m: seq<Byte>, b: Byte)
    requires |m| % 4 == 3
    ensures Fold(f, h, m + [b]) == f(Fold(f, h, m), Front(Rest(m) + [b]))
    ensures Rest(m + [b]) == []
  {
    WholeIs(|m + [b]|, |m| + 1);
    FoldLast(f, h, m[..Whole(|m|)], Rest(m), b);
    FoldWhole(f, h, m);
    Parts(m);
    AppendAssoc(m[..Whole(|m|)], Rest(m), [b]);
  }

  lemma FoldLast<H>(f: (H, Word) -> H, h: H, x: seq<Byte>, t: seq<Byte>, b: Byte)
    requires |x| % 4 == 0 && |t| == 3
    ensures Fold(f, h, x + (t + [b])) == f(Fold(f, h, x), Front(t + [b]))
  {
    FoldAppend(f, h, x, t + [b]);
    OneWord(f, Fold(f, h, x), t + [b]);
  }

  lemma OneWord<H>(f: (H, Word) -> H, h: H, w: seq<Byte>)
    requires |w| == 4
    ensures Fold(f, h, w) == f(h, Front(w))
  {
    assert w[4..] == [];
  }

  // ----- the block function can be undone -----

  function Sub(x: Word, y: Word): Word {
    (x - y) % 0x1_0000_0000
  }

  function Unquarter(k: nat, p: Pair): Pair {
    var l := Sub(p.l, p.r);
    Pair(l, Xor(p.r, Stir(k, l)))
  }

  function Unquarters(p: Pair, k: nat): Pair
    decreases k
  {
    if k == 0 then p else Unquarters(Unquarter(k, p), k - 1)
  }

  function Unblock(p: Pair): Pair {
    Unquarters(p, 4)
  }

  lemma SubAdd(x: Word, y: Word)
    ensures Sub(Add(x, y), y) == x
  {
  }

  lemma {:induction false} XorTwiceBits(x: nat, y: nat, n: nat)
    requires x < Pow2(n)
    ensures XorBits(XorBits(x, y, n), y, n) == x
  {
    if n > 0 {
      XorTwiceBits(x / 2, y / 2, n - 1);
    }
  }

  lemma XorTwice(x: Word, y: Word)
    ensures Xor(Xor(x, y), y) == x
  {
    PowersOfTwo();
    XorTwiceBits(x, y, 32);
  }

  lemma QuarterInvertible(k: nat, p: Pair)
    ensures Unquarter(k, Quarter(k, p)) == p
  {
    var r := Xor(p.r, Stir(k, p.l));
    SubAdd(p.l, r);
    XorTwice(p.r, Stir(k, p.l));
  }

  lemma {:induction false} QuartersInvertible(p: Pair, k: nat)
    ensures Unquarters(Quarters(p, k), k) == p
  {
    if k > 0 {
      QuarterInvertible(k, Quarters(p, k - 1));
      QuartersInvertible(p, k - 1);
    }
  }

  /** The block function can be undone. */
  lemma BlockInvertible(p: Pair)
    ensures Unblock(Block(p)) == p
  {
    QuartersInvertible(p, 4);
  }

  /** Different states stay different through the same word, and different words part equal states. */
  lemma TakeInjective(p: Pair, q: Pair, m: Word, n: Word)
    requires Take(p, m) == Take(q, n)
    ensures p == q <==> m == n && p.l == q.l
    ensures m == n ==> p == q
    ensures p == q ==> m == n
  {
    BlockInvertible(Pair(Xor(p.l, m), p.r));
    BlockInvertible(Pair(Xor(q.l, n), q.r));
    assert Xor(p.l, m) == Xor(q.l, n) && p.r == q.r;
    XorTwice(p.l, m);
    XorTwice(q.l, n);
    Commutes(p.l, m, 32);
    Commutes(p.l, n, 32);
    XorTwice(m, p.l);
    XorTwice(n, p.l);
  }

  /** The words that follow keep different states apart. */
  lemma {:induction false} AbsorbInjective(p: Pair, q: Pair, m: seq<Byte>)
    requires Absorb(p, m) == Absorb(q, m)
    ensures p == q
    decreases |m|
  {
    if |m| >= 4 {
      AbsorbInjective(Take(p, Front(m)), Take(q, Front(m)), m[4..]);
      TakeInjective(p, q, Front(m), Front(m));
    }
  }

  lemma EncodeInjective(p: Pair, q: Pair)
    requires Encode(p) == Encode(q)
    ensures p == q
  {
    assert LittleBytes(p.l) == Encode(p)[..4] && LittleBytes(p.r) == Encode(p)[4..];
    assert LittleBytes(q.l) == Encode(q)[..4] && LittleBytes(q.r) == Encode(q)[4..];
    EndianRoundTrips(p.l);
    EndianRoundTrips(p.r);
    EndianRoundTrips(q.l);
    EndianRoundTrips(q.r);
  }

  // ----- one byte at a time -----

  lemma ShlIs(b: Word, j: nat, x: nat)
    requires x == b * Pow2(j) && x < TWO32
    ensures Shl(b, j) == x
  {
  }

  lemma OrAbove(M: Word, b: Byte, j: nat, n: nat)
    requires j <= n && M < Pow2(j) && b * Pow2(j) < Pow2(n)
    ensures OrBits(M, b * Pow2(j), n) == M + b * Pow2(j)
  {
    OrShifted(b, M, j, n);
    OrCommutes(M, b * Pow2(j), n);
  }

  /** A byte ored in above those already in the word. */
  lemma OrByte(M: Word, bs: seq<Byte>, b: Byte)
    requires |bs| < 4 && M == Spelt(bs)
    ensures Or(M, Shl(b, 8 * |bs|)) == Spelt(bs + [b])
  {
    SpeltMore(bs, b);
    SpeltMore(bs + [b], 0);
    PowersOfTwo();
    PowerUpTo(8 * |bs + [b]|, 32);
    OrAbove(M, b, 8 * |bs|, 32);
    ShlIs(b, 8 * |bs|, b * Pow2(8 * |bs|));
  }

  lemma {:induction false} PowerUpTo(m: nat, n: nat)
    requires m <= n
    ensures Pow2(m) <= Pow2(n)
  {
    if m < n {
      PowerUpTo(m, n - 1);
    }
  }

  lemma QuartersAre(p: Pair)
    ensures Block(p) == Quarter(4, Quarter(3, Quarter(2, Quarter(1, p))))
  {
    assert Quarters(p, 1) == Quarter(1, p);
    assert Quarters(p, 2) == Quarter(2, Quarters(p, 1));
    assert Quarters(p, 3) == Quarter(3, Quarters(p, 2));
  }

  function KeyOf(key: seq<Byte>): Pair
    requires |key| == 8
  {
    Pair(Front(key), Front(key[4..]))
  }

  lemma NothingFed(p: Pair)
    ensures Absorb(p, []) == p && Spelt(Rest([])) == 0
  {
  }

  /** The key information of one direction; fed is the message so far. */
  class TkipKey {
    var K0: Word
    var K1: Word
    var L: Word
    var R: Word
    var M: Word
    var nBytesInM: nat
    var MIC: seq<Byte>
    ghost var fed: seq<Byte>

    ghost predicate Valid()
      reads this
    {
      && Pair(L, R) == Absorb(Pair(K0, K1), fed)
      && nBytesInM == |fed| % 4 && M == Spelt(Rest(fed))
    }

    constructor ()
      ensures Valid() && fed == []
    {
      K0, K1, L, R, M, nBytesInM, MIC, fed := 0, 0, 0, 0, 0, 0, [], [];
      NothingFed(Pair(0, 0));
    }

    /** RTMPTkipSetMICKey. */
    method SetMICKey(key: seq<Byte>)
      requires |key| == 8
      modifies this
      ensures Valid() && fed == [] && Pair(K0, K1) == KeyOf(key)
    {
      var k := KeyOf(key);
      NothingFed(k);
      K0 := k.l;
      K1 := k.r;
      L := K0;
      R := K1;
      nBytesInM := 0;
      M := 0;
      fed := [];
    }

    /** RTMPTkipAppendByte. */
    method AppendByte(b: Byte)
      requires Valid()
      modifies this`L, this`R, this`M, this`nBytesInM, this`fed
      ensures Valid() && fed == old(fed) + [b]
    {
      ghost var tail := Rest(fed);
      OrByte(M, tail, b);
      M := Or(M, Shl(b, 8 * nBytesInM));
      nBytesInM := nBytesInM + 1;
      if nBytesInM >= 4 {
        assert (tail + [b])[..4] == tail + [b];
        FeedWord(Take, Pair(K0, K1), fed, b);
        Process();
        M := 0;
        nBytesInM := 0;
      } else {
        FeedPart(Take, Pair(K0, K1), fed, b);
      }
      fed := fed + [b];
    }

    /** The block function on L and R, as the code runs it. */
    method Process()
      modifies this`L, this`R
      ensures Pair(L, R) == old(Take(Pair(L, R), M))
    {
      QuartersAre(Pair(Xor(L, M), R));
      L := Xor(L, M);
      R := Xor(R, Rotl(L, 17));
      L := Add(L, R);
      R := Xor(R, XSwap(L));
      L := Add(L, R);
      R := Xor(R, Rotl(L, 3));
      L := Add(L, R);
      R := Xor(R, Rotl(L, 32 - 2));
      L := Add(L, R);
    }

    /** RTMPTkipAppend. */
    method Append(src: seq<Byte>)
      requires Valid()
      modifies this`L, this`R, this`M, this`nBytesInM, this`fed
      ensures Valid() && fed == old(fed) + src
    {
      for i := 0 to |src|
        invariant Valid() && fed == old(fed) + src[..i]
      {
        AppendByte(src[i]);
        assert src[..i + 1] == src[..i] + [src[i]];
      }
      assert src[..|src|] == src;
    }

    /** Appends zeros until no byte is waiting. */
    method PadWord(ghost p: seq<Byte>)
      requires Valid() && p != [] && fed == p + Zeros(4)
      modifies this`L, this`R, this`M, this`nBytesInM, this`fed
      ensures Valid() && fed == p + Zeros(PadZeros(|p| - 1))
    {
      ghost var z := 4;
      ZeroCount(|p| - 1, z, |fed|);
      while nBytesInM != 0
        invariant Valid() && 4 <= z <= PadZeros(|p| - 1) && fed == p + Zeros(z)
        decreases PadZeros(|p| - 1) - z
      {
        ZeroCount(|p| - 1, z, |fed|);
        AppendByte(0);
        OneMoreZero(p, z);
        z := z + 1;
      }
      ZeroCount(|p| - 1, z, |fed|);
    }

    /** RTMPTkipGetMIC: pads, and leaves the code of everything fed in MIC. */
    method GetMIC()
      requires Valid()
      modifies this
      ensures MIC == Mic(Pair(K0, K1), old(fed)) && K0 == old(K0) && K1 == old(K1)
    {
      ghost var m := fed;
      Append([0x5a, 0, 0, 0, 0]);
      assert m + [0x5a, 0, 0, 0, 0] == m + [0x5a] + Zeros(4);
      PadWord(m + [0x5a]);
      MicIs(Pair(K0, K1), m, L, R);
      MIC := LittleBytes(L) + LittleBytes(R);
    }
  }

  lemma OneMoreZero(p: seq<Byte>, z: nat)
    ensures p + Zeros(z) + [0] == p + Zeros(z + 1)
  {
  }

  /** Zeros appended so far complete a word exactly when the padding is complete. */
  lemma ZeroCount(n: nat, z: nat, len: nat)
    requires 4 <= z <= PadZeros(n) && len == n + 1 + z
    ensures len % 4 == 0 <==> z == PadZeros(n)
  {
    assert n == n / 4 * 4 + n % 4;
  }

  // ----- the code of an MSDU -----

  /** What Michael runs over: the addresses, the priority and three zeros, the body. */
  function Header(da: seq<Byte>, sa: seq<Byte>, priority: Byte): seq<Byte> {
    da + sa + [priority, 0, 0, 0]
  }

  /** RTMPCalculateMICValue on an Ethernet frame; encap is empty or six bytes. */
  method CalculateMICValue(tx: TkipKey, frame: seq<Byte>, encap: seq<Byte>, priority: Byte, txMic: seq<Byte>)
    requires |frame| >= 14 && |encap| in {0, 6} && |txMic| == 8
    modifies tx
    ensures tx.MIC == Mic(KeyOf(txMic), frame[..6] + frame[6..12] + [priority, 0, 0, 0]
                                        + (if |encap| == 6 then encap + frame[12..14] else []) + frame[14..])
  {
    tx.SetMICKey(txMic);
    tx.Append(frame[..6]);
    tx.Append(frame[6..12]);
    tx.Append([priority, 0, 0, 0]);
    EmptyPrefix(frame[..6]);
    ghost var header := Header(frame[..6], frame[6..12], priority);
    if encap != [] {
      tx.Append(encap);
      tx.Append(frame[12..14]);
      AppendAssoc(header, encap, frame[12..14]);
    }
    ghost var sofar := if encap == [] then [] else encap + frame[12..14];
    assert header + [] == header;
    assert tx.fed == header + sofar;
    tx.Append(frame[14..]);
    AppendAssoc(header, sofar, frame[14..]);
    tx.GetMIC();
  }

  /** RTMPTkipCompareMICValue on a plain body of len bytes with eight bytes of code after it. */
  method CompareMICValue(rx: TkipKey, src: seq<Byte>, da: seq<Byte>, sa: seq<Byte>, micKey: seq<Byte>, len: nat)
    returns (ok: bool)
    requires len + 8 <= |src| && |micKey| == 8
    modifies rx
    ensures ok <==> src[len..len + 8] == Mic(KeyOf(micKey), da + sa + [0, 0, 0, 0] + src[..len])
  {
    rx.SetMICKey(micKey);
    rx.Append(da);
    rx.Append(sa);
    rx.Append([0, 0, 0, 0]);
    EmptyPrefix(da);
    rx.Append(src[..len]);
    var oldMic := src[len..len + 8];
    rx.GetMIC();
    ok := rx.MIC == oldMic;
  }

  /** Two priorities give the same code only if they are the same. */
  lemma PriorityMatters(key: Pair, da: seq<Byte>, sa: seq<Byte>, p: Byte, q: Byte, body: seq<Byte>)
    requires |da| == 6 && |sa| == 6
    requires Mic(key, Header(da, sa, p) + body) == Mic(key, Header(da, sa, q) + body)
    ensures p == q
  {
    var a := da + sa;
    var tail := body + [0x5a] + Zeros(PadZeros(16 + |body|));
    PriorityWord(key, da, sa, p, body, tail);
    PriorityWord(key, da, sa, q, body, tail);
    EncodeInjective(Absorb(key, Padded(Header(da, sa, p) + body)), Absorb(key, Padded(Header(da, sa, q) + body)));
    var s := Absorb(key, a);
    AbsorbInjective(Take(s, p), Take(s, q), tail);
    TakeInjective(s, s, p, q);
  }

  /** The priority is the fourth word. */
  lemma PriorityWord(key: Pair, da: seq<Byte>, sa: seq<Byte>, p: Byte, body: seq<Byte>, tail: seq<Byte>)
    requires |da| == 6 && |sa| == 6 && tail == body + [0x5a] + Zeros(PadZeros(16 + |body|))
    ensures Absorb(key, Padded(Header(da, sa, p) + body)) == Absorb(Take(Absorb(key, da + sa), p), tail)
  {
    var a, w := da + sa, [p, 0, 0, 0];
    assert Padded(Header(da, sa, p) + body) == a + (w + tail);
    WordAfter(Take, key, a, w, tail);
    SpeltFirst(p);
  }

  lemma WordAfter<H>(f: (H, Word) -> H, h: H, a: seq<Byte>, w: seq<Byte>, tail: seq<Byte>)
    requires |a| == 12 && |w| == 4
    ensures Fold(f, h, a + (w + tail)) == Fold(f, f(Fold(f, h, a), Front(w)), tail)
  {
    FoldAppend(f, h, a, w + tail);
    FoldAppend(f, Fold(f, h, a), w, tail);
    OneWord(f, Fold(f, h, a), w);
  }

  lemma SpeltFirst(p: Byte)
    ensures Front([p, 0, 0, 0]) == p
  {
    var m := [p, 0, 0, 0];
    assert m[..4] == m && m[1..] == [0, 0, 0] && [0, 0, 0][1..] == [0, 0] && [0, 0][1..] == [0] && [0][1..] == [];
    assert Spelt([0]) == 0 && Spelt([0, 0]) == 0 && Spelt([0, 0, 0]) == 0;
  }

  /**
   * A received body with the code the sender computed for it is accepted if and
   * only if the sender's user priority was zero: the receiver always takes zero.
   */
  lemma AcceptedExactlyAtPriorityZero(key: Pair, da: seq<Byte>, sa: seq<Byte>, priority: Byte, body: seq<Byte>)
    requires |da| == 6 && |sa| == 6
    ensures Mic(key, Header(da, sa, priority) + body) == Mic(key, Header(da, sa, 0) + body) <==> priority == 0
  {
    if Mic(key, Header(da, sa, priority) + body) == Mic(key, Header(da, sa, 0) + body) {
      PriorityMatters(key, da, sa, priority, 0, body);
    }
  }
}
