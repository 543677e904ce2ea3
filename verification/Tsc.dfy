// The 48-bit transmit sequence counter of Module/rtmp.h and the
// initialisation vectors Module/rtmp_tkip.c and Module/rtmp_data.c make of it
// (layout of section 8.3.2.2 of IEEE 802.11i-2004).
module Tsc {
  import opened Words
  import opened Modular

  const TWO48: nat := 0x1_0000_0000_0000

  /** The number the bytes from i on spell, least significant first. */
  function From(t: seq<Byte>, i: nat): nat
    requires i <= |t|
    decreases |t| - i
  {
    if i == |t| then 0 else t[i] + 0x100 * From(t, i + 1)
  }

  function Power(i: nat): (p: nat)
    ensures p >= 1
  {
    if i == 0 then 1 else 0x100 * Power(i - 1)
  }

  lemma {:induction false} FromBelow(t: seq<Byte>, i: nat)
    requires i <= |t|
    ensures From(t, i) < Power(|t| - i)
    decreases |t| - i
  {
    if i < |t| {
      FromBelow(t, i + 1);
    }
  }

  /** The counter's six bytes as a number. */
  function Value(t: seq<Byte>): (v: nat)
    requires |t| == 6
    ensures v < TWO48
  {
    FromBelow(t, 0);
    assert Power(6) == TWO48;
    From(t, 0)
  }

  /** Counters with the same bytes from i on and zeros before differ by what is at i. */
  lemma {:induction false} ZerosBelow(t: seq<Byte>, i: nat, k: nat)
    requires k <= i <= |t| && forall j: nat :: k <= j < i ==> t[j] == 0
    ensures From(t, k) == Power(i - k) * From(t, i)
    decreases i - k
  {
    if k < i {
      ZerosBelow(t, i, k + 1);
      assert Power(i - k) == 0x100 * Power(i - k - 1);
    }
  }

  lemma OneMoreOne(p: nat, x: nat, f: int)
    requires f == p * x + p - 1
    ensures 0xff + 0x100 * f == 0x100 * p * x + 0x100 * p - 1
  {
    assert 0x100 * p * x == 0x100 * (p * x);
  }

  lemma {:induction false} OnesBelow(t: seq<Byte>, i: nat, k: nat)
    requires k <= i <= |t| && forall j: nat :: k <= j < i ==> t[j] == 0xff
    ensures From(t, k) == Power(i - k) * From(t, i) + Power(i - k) - 1
    decreases i - k
  {
    if k < i {
      OnesBelow(t, i, k + 1);
      OneMoreOne(Power(i - k - 1), From(t, i), From(t, k + 1));
      assert Power(i - k) == 0x100 * Power(i - k - 1);
    }
  }

  lemma {:induction false} SameFrom(s: seq<Byte>, t: seq<Byte>, i: nat)
    requires |s| == |t| && i <= |s| && s[i..] == t[i..]
    ensures From(s, i) == From(t, i)
    decreases |s| - i
  {
    if i < |s| {
      assert s[i..][0] == t[i..][0] && s[i + 1..] == s[i..][1..] && t[i + 1..] == t[i..][1..];
      SameFrom(s, t, i + 1);
    }
  }

  lemma TimesNext(p: nat, x: nat, y: nat)
    requires y == x + 1
    ensures p * y == p * x + p
  {
  }

  /** A carry that stopped at byte i added one. */
  lemma CarryStops(before: seq<Byte>, after: seq<Byte>, i: nat)
    requires |before| == |after| == 6 && i < 6
    requires forall j: nat :: j < i ==> before[j] == 0xff && after[j] == 0
    requires after[i] as int == before[i] as int + 1 && after[i + 1..] == before[i + 1..]
    ensures Value(after) == Value(before) + 1
  {
    OnesBelow(before, i, 0);
    ZerosBelow(after, i, 0);
    SameFrom(before, after, i + 1);
    assert From(after, i) == From(before, i) + 1;
    TimesNext(Power(i), From(before, i), From(after, i));
  }

  /** INC_TX_TSC: plus one modulo 2^48, byte by byte. */
  method IncTxTsc(tsc: array<Byte>)
    requires tsc.Length == 6
    modifies tsc
    ensures Value(tsc[..]) == (old(Value(tsc[..])) + 1) % 0x1_0000_0000_0000
  {
    ghost var before := tsc[..];
    var i := 0;
    tsc[0] := (tsc[0] as int + 1) % 0x100;
    while tsc[i] == 0
      invariant i < 6
      invariant forall j: nat :: j < i ==> before[j] == 0xff && tsc[j] == 0
      invariant tsc[i] as int == (before[i] as int + 1) % 0x100
      invariant forall j: nat :: i < j < 6 ==> tsc[j] == before[j]
      decreases 6 - i
    {
      i := i + 1;
      if i == 6 {
        OnesBelow(before, 6, 0);
        ZerosBelow(tsc[..], 6, 0);
        assert Power(6) == TWO48;
        return;
      }
      tsc[i] := (tsc[i] as int + 1) % 0x100;
    }
    assert tsc[..][i + 1..] == before[i + 1..];
    CarryStops(before, tsc[..], i);
  }

  lemma {:induction false} FromInjective(s: seq<Byte>, t: seq<Byte>, i: nat)
    requires |s| == |t| && i <= |s| && From(s, i) == From(t, i)
    ensures s[i..] == t[i..]
    decreases |s| - i
  {
    if i < |s| {
      assert s[i] == t[i] && From(s, i + 1) == From(t, i + 1);
      FromInjective(s, t, i + 1);
      assert s[i..] == [s[i]] + s[i + 1..] && t[i..] == [t[i]] + t[i + 1..];
    }
  }

  // ----- the initialisation vectors -----

  /** What a frame carries: the four bytes of the IV and the four of the extended IV. */
  datatype Iv = Iv(rc0: Byte, rc1: Byte, rc2: Byte, control: Byte, iv32: seq<Byte>)

  /** RTMPInitTkipEngine; keyId is two bits wide. */
  function TkipIv(t: seq<Byte>, keyId: nat): Iv
    requires |t| == 6 && keyId < 4
  {
    PowersOfTwo();
    Iv(t[1], AndBits(OrBits(t[1], 0x20, 8), 0x7f, 8), t[0], 0x20 + 0x40 * keyId, t[2..])
  }

  /** The AES packing of RTMPHardTransmit. */
  function AesIv(t: seq<Byte>, keyId: nat): Iv
    requires |t| == 6 && keyId < 4
  {
    Iv(t[0], t[1], 0, 0x40 * keyId + 0x20, t[2..])
  }

  /** Both packings keep all six bytes of the counter, whatever the key index. */
  lemma PackingsInjective(s: seq<Byte>, t: seq<Byte>, k: nat, l: nat)
    requires |s| == |t| == 6 && k < 4 && l < 4
    ensures TkipIv(s, k) == TkipIv(t, l) ==> s == t
    ensures AesIv(s, k) == AesIv(t, l) ==> s == t
  {
    assert s == [s[0], s[1]] + s[2..];
    assert t == [t[0], t[1]] + t[2..];
  }

  /** Bit k of a number. */
  predicate BitOf(x: nat, k: nat) {
    if k == 0 then x % 2 == 1 else BitOf(x / 2, k - 1)
  }

  lemma {:induction false} AndZero(x: nat, n: nat)
    ensures AndBits(x, 0, n) == 0
  {
    if n > 0 {
      AndZero(x / 2, n - 1);
    }
  }

  /** Setting one bit. */
  lemma {:induction false} SetBit(x: nat, k: nat, n: nat)
    requires k < n && x < Pow2(n)
    ensures OrBits(x, Pow2(k), n) == x + (if BitOf(x, k) then 0 else Pow2(k))
  {
    if k == 0 {
      OrZero(x / 2, n - 1);
    } else {
      SetBit(x / 2, k - 1, n - 1);
      assert Pow2(k) / 2 == Pow2(k - 1) && Pow2(k) % 2 == 0;
    }
  }

  /** The remainder of a number is that of its half, doubled, and its last bit. */
  lemma ModDouble(x: nat, p: nat, q: nat, r: nat)
    requires p > 0 && x / 2 == p * q + r && r < p
    ensures x % (2 * p) == 2 * r + x % 2
  {
    assert x == 2 * (p * q + r) + x % 2;
    assert 2 * (p * q) == 2 * p * q;
    DivModUnique(x, 2 * p, q, 2 * r + x % 2);
  }

  lemma HalfOf(p: nat)
    requires p > 0
    ensures (2 * p - 1) / 2 == p - 1 && (2 * p - 1) % 2 == 1
  {
  }

  lemma AndHalf(x: nat, p: nat, n: nat)
    requires p > 0 && n > 0
    ensures AndBits(x, 2 * p - 1, n) == 2 * AndBits(x / 2, p - 1, n - 1) + x % 2
  {
    HalfOf(p);
  }

  lemma Splits(x: nat, p: nat)
    requires p > 0
    ensures x == p * (x / p) + x % p && x % p < p
  {
  }

  lemma HalfRemainder(x: nat, p: nat)
    requires p > 0
    ensures x % (2 * p) == 2 * (x / 2 % p) + x % 2
  {
    Splits(x / 2, p);
    ModDouble(x, p, x / 2 / p, x / 2 % p);
  }

  lemma MaskStep(x: nat, n: nat, p: nat, rest: nat, r: nat)
    requires p > 0 && n > 0 && AndBits(x / 2, p - 1, n - 1) == rest && r == 2 * rest + x % 2
    ensures AndBits(x, 2 * p - 1, n) == r
  {
    AndHalf(x, p, n);
  }

  /** Keeping the k lowest bits. */
  lemma {:induction false} LowMask(x: nat, k: nat, n: nat, p: nat)
    requires k <= n && p == Pow2(k)
    ensures AndBits(x, p - 1, n) == x % p
  {
    if k == 0 {
      AndZero(x, n);
    } else {
      LowMask(x / 2, k - 1, n - 1, Pow2(k - 1));
      HalfRemainder(x, Pow2(k - 1));
      MaskStep(x, n, Pow2(k - 1), x / 2 % Pow2(k - 1), x % p);
    }
  }

  lemma BitFive(b: Byte)
    ensures BitOf(b, 5) <==> b / 32 % 2 == 1
  {
    assert BitOf(b, 5) == BitOf(b / 2, 4) == BitOf(b / 4, 3);
    assert BitOf(b / 4, 3) == BitOf(b / 8, 2) == BitOf(b / 16, 1);
    assert BitOf(b / 16, 1) == BitOf(b / 32, 0);
  }

  lemma SeedArithmetic(b: Byte)
    ensures b / 32 % 2 == 0 ==> (b + 0x20) % 0x80 == b % 0x80 + 0x20
  {
    var q := b / 32;
    assert b == 32 * q + b % 32 && q < 8;
    assert q % 2 == 0 ==> q in {0, 2, 4, 6};
  }

  lemma SeedOf(b: Byte, bit: nat, mask: nat, k: nat, l: nat, n: nat)
    requires bit == Pow2(k) == 0x20 && mask == Pow2(l) - 1 == 0x7f && k == 5 && l == 7 && n == 8 && Pow2(n) == 0x100
    ensures AndBits(OrBits(b, bit, n), mask, n) == b % 0x80 + (if b / 32 % 2 == 0 then 0x20 else 0)
  {
    SetBit(b, k, n);
    BitFive(b);
    LowMask(OrBits(b, bit, n), l, n, mask + 1);
    SeedArithmetic(b);
  }

  /** The weak-key octet of the TKIP packing: the second counter octet with bit 5 set and bit 7 clear. */
  lemma SeedIs(b: Byte)
    ensures AndBits(OrBits(b, 0x20, 8), 0x7f, 8) == b % 0x80 + (if b / 32 % 2 == 0 then 0x20 else 0)
  {
    PowersOfTwo();
    SeedOf(b, 0x20, 0x7f, 5, 7, 8);
  }

  lemma {:induction false} FromTail(t: seq<Byte>, i: nat)
    requires i + 2 <= |t|
    ensures From(t[2..], i) == From(t, i + 2)
    decreases |t| - i
  {
    if i + 2 < |t| {
      FromTail(t, i + 1);
    }
  }

  /** The octets of the counter. */
  lemma Octets(t: seq<Byte>)
    requires |t| == 6
    ensures t[0] == Value(t) % 0x100 && t[1] == Value(t) / 0x100 % 0x100 && From(t, 2) == Value(t) / 0x1_0000
  {
    var f2 := From(t, 2);
    assert From(t, 1) == t[1] + 0x100 * f2;
    assert Value(t) == t[0] + 0x100 * (t[1] + 0x100 * f2);
  }

  lemma ControlIs(keyId: nat)
    ensures (0x20 + 0x40 * keyId) / 0x40 == keyId && (0x20 + 0x40 * keyId) % 0x40 == 0x20
  {
    DivModUnique(0x20 + 0x40 * keyId, 0x40, keyId, 0x20);
  }

  /** The counter, the mark and the key index as they are read from an IV. */
  predicate Reads(v: Iv, low: Byte, high: Byte, n: nat, keyId: nat) {
    && low + 0x100 * high + 0x1_0000 * From(v.iv32, 0) == n
    && v.control / 0x40 == keyId && v.control % 0x40 == 0x20
  }

  lemma PackedReads(t: seq<Byte>, v: Iv, keyId: nat)
    requires |t| == 6 && keyId < 4 && v.iv32 == t[2..] && v.control == 0x20 + 0x40 * keyId
    ensures Reads(v, t[0], t[1], Value(t), keyId)
  {
    Octets(t);
    FromTail(t, 0);
    ControlIs(keyId);
  }

  /**
   * What a receiver reads from the eight octets of a TKIP frame under section
   * 8.3.2.2: TSC1, the seed made of it, TSC0, the extended-IV mark and the key
   * index, then the upper 32 bits, least significant octet first.
   */
  lemma TkipReceiverReads(t: seq<Byte>, keyId: nat)
    requires |t| == 6 && keyId < 4
    ensures var v := TkipIv(t, keyId); Reads(v, v.rc2, v.rc0, Value(t), keyId)
  {
    PackedReads(t, TkipIv(t, keyId), keyId);
  }

  /** The seed keeps TSC1 but for bit 5, which it sets, and bit 7, which it clears. */
  lemma TkipSeed(t: seq<Byte>, keyId: nat)
    requires |t| == 6 && keyId < 4
    ensures var v := TkipIv(t, keyId); v.rc1 == v.rc0 % 0x80 + (if v.rc0 / 0x20 % 2 == 0 then 0x20 else 0)
  {
    SeedIs(t[1]);
  }

  /** And from those of an AES frame: TSC0, TSC1, a reserved octet, the same mark and index, the upper bits. */
  lemma AesReceiverReads(t: seq<Byte>, keyId: nat)
    requires |t| == 6 && keyId < 4
    ensures var v := AesIv(t, keyId); Reads(v, v.rc0, v.rc1, Value(t), keyId) && v.rc2 == 0
  {
    PackedReads(t, AesIv(t, keyId), keyId);
  }

  /** A run of encrypted frames under one key: each takes the counter, then steps it. */
  ghost predicate IsRun(tscs: seq<seq<Byte>>) {
    && (forall k: nat :: k < |tscs| ==> |tscs[k]| == 6)
    && forall k: nat :: k + 1 < |tscs| ==> Value(tscs[k + 1]) == (Value(tscs[k]) + 1) % 0x1_0000_0000_0000
  }

  lemma {:induction false} ValueAt(tscs: seq<seq<Byte>>, i: nat, j: nat)
    requires IsRun(tscs) && i <= j < |tscs|
    ensures Value(tscs[j]) == (Value(tscs[i]) + (j - i)) % 0x1_0000_0000_0000
  {
    if i < j {
      ValueAt(tscs, i, j - 1);
      WrapStep(Value(tscs[i]) + (j - 1 - i), TWO48);
    }
  }

  /** Fewer than 2^48 frames apart, two frames never carry the same vector. */
  lemma NoIvReuse(tscs: seq<seq<Byte>>, i: nat, j: nat, k: nat, l: nat)
    requires IsRun(tscs) && i < j < |tscs| && j - i < TWO48 && k < 4 && l < 4
    ensures TkipIv(tscs[i], k) != TkipIv(tscs[j], l)
    ensures AesIv(tscs[i], k) != AesIv(tscs[j], l)
  {
    var a, d := Value(tscs[i]), j - i;
    ValueAt(tscs, i, j);
    Wrap(a + d, TWO48);
    PackingsInjective(tscs[i], tscs[j], k, l);
  }

  /** The bound is sharp: 2^48 frames on, the vector comes again. */
  lemma IvReusedAfterAll(tscs: seq<seq<Byte>>, i: nat, k: nat)
    requires IsRun(tscs) && i + TWO48 < |tscs| && k < 4
    ensures TkipIv(tscs[i], k) == TkipIv(tscs[i + TWO48], k) && AesIv(tscs[i], k) == AesIv(tscs[i + TWO48], k)
  {
    var s, t := tscs[i], tscs[i + TWO48];
    ValueAt(tscs, i, i + TWO48);
    DivModUnique(Value(s) + TWO48, TWO48, 1, Value(s));
    FromInjective(s, t, 0);
    assert s[0..] == s && t[0..] == t;
  }
}
