// Bytes and 32-bit words as numbers, with the machine's operators on them.
module Words {
  import opened Modular

  const TWO32: nat := 0x1_0000_0000

  type Byte = b: int | 0 <= b < 0x100
  type Word = w: int | 0 <= w < 0x1_0000_0000

  // ----- arithmetic -----

  /** Sum modulo 2^32. */
  function Add(x: Word, y: Word): Word {
    (x + y) % 0x1_0000_0000
  }

  function Pow2(n: nat): (p: nat)
    ensures p >= 1
  {
    if n == 0 then 1 else 2 * Pow2(n - 1)
  }

  // ----- bit by bit, on the low n bits -----

  function Bit(b: bool): nat {
    if b then 1 else 0
  }

  function AndBits(x: nat, y: nat, n: nat): (r: nat)
    ensures r < Pow2(n)
  {
    if n == 0 then 0 else 2 * AndBits(x / 2, y / 2, n - 1) + Bit(x % 2 == 1 && y % 2 == 1)
  }

  function OrBits(x: nat, y: nat, n: nat): (r: nat)
    ensures r < Pow2(n)
  {
    if n == 0 then 0 else 2 * OrBits(x / 2, y / 2, n - 1) + Bit(x % 2 == 1 || y % 2 == 1)
  }

  function XorBits(x: nat, y: nat, n: nat): (r: nat)
    ensures r < Pow2(n)
  {
    if n == 0 then 0 else 2 * XorBits(x / 2, y / 2, n - 1) + Bit(x % 2 != y % 2)
  }

  function NotBits(x: nat, n: nat): (r: nat)
    ensures r < Pow2(n)
  {
    if n == 0 then 0 else 2 * NotBits(x / 2, n - 1) + Bit(x % 2 == 0)
  }

  lemma PowersOfTwo()
    ensures Pow2(8) == 0x100 && Pow2(16) == 0x1_0000 && Pow2(24) == 0x100_0000 && Pow2(32) == TWO32
  {
    assert Pow2(8) == 0x100;
    PowerSum(8, 8);
    PowerSum(16, 8);
    PowerSum(16, 16);
  }

  lemma {:induction false} PowerSum(m: nat, n: nat)
    ensures Pow2(m + n) == Pow2(m) * Pow2(n)
  {
    if n > 0 {
      PowerSum(m, n - 1);
      assert Pow2(m + n) == 2 * Pow2(m + n - 1);
    }
  }

  function And(x: Word, y: Word): Word {
    PowersOfTwo();
    AndBits(x, y, 32)
  }

  function Or(x: Word, y: Word): Word {
    PowersOfTwo();
    OrBits(x, y, 32)
  }

  function Xor(x: Word, y: Word): Word {
    PowersOfTwo();
    XorBits(x, y, 32)
  }

  function Not(x: Word): Word {
    PowersOfTwo();
    NotBits(x, 32)
  }

  function XorByte(x: Byte, y: Byte): Byte {
    PowersOfTwo();
    XorBits(x, y, 8)
  }

  // ----- shifts -----

  function Shl(x: Word, n: nat): Word {
    x * Pow2(n) % 0x1_0000_0000
  }

  function Shr(x: Word, n: nat): (r: Word)
  {
    ShrShrinks(x, Pow2(n));
    x / Pow2(n)
  }

  lemma ShrShrinks(x: nat, p: nat)
    requires p >= 1
    ensures 0 <= x / p <= x
  {
    var q := x / p;
    assert x == p * q + x % p;
    if q > 0 {
      MultipleIsFar(p, q);
    }
  }

  /** Circular left shift by n places. */
  function Rotl(x: Word, n: nat): Word
    requires n <= 32
  {
    Or(Shl(x, n), Shr(x, 32 - n))
  }

  // ----- the selection functions of the digests -----

  lemma LastBits(x: nat, y: nat, n: nat)
    requires n > 0
    ensures AndBits(x, y, n) / 2 == AndBits(x / 2, y / 2, n - 1) && AndBits(x, y, n) % 2 == Bit(x % 2 == 1 && y % 2 == 1)
    ensures OrBits(x, y, n) / 2 == OrBits(x / 2, y / 2, n - 1) && OrBits(x, y, n) % 2 == Bit(x % 2 == 1 || y % 2 == 1)
    ensures XorBits(x, y, n) / 2 == XorBits(x / 2, y / 2, n - 1) && XorBits(x, y, n) % 2 == Bit(x % 2 != y % 2)
    ensures NotBits(x, n) / 2 == NotBits(x / 2, n - 1) && NotBits(x, n) % 2 == Bit(x % 2 == 0)
  {
  }

  /** z ^ (x & (y ^ z)) selects y where x has a one and z where it has a zero. */
  lemma {:induction false} SelectBits(x: nat, y: nat, z: nat, n: nat)
    ensures XorBits(z, AndBits(x, XorBits(y, z, n), n), n)
            == OrBits(AndBits(x, y, n), AndBits(NotBits(x, n), z, n), n)
  {
    if n > 0 {
      LastBits(y, z, n);
      LastBits(x, XorBits(y, z, n), n);
      LastBits(x, y, n);
      LastBits(NotBits(x, n), z, n);
      SelectBits(x / 2, y / 2, z / 2, n - 1);
    }
  }

  lemma {:induction false} Commutes(x: nat, y: nat, n: nat)
    ensures AndBits(x, y, n) == AndBits(y, x, n)
    ensures XorBits(x, y, n) == XorBits(y, x, n)
  {
    if n > 0 {
      Commutes(x / 2, y / 2, n - 1);
    }
  }

  lemma Select(x: Word, y: Word, z: Word)
    ensures Xor(z, And(x, Xor(y, z))) == Or(And(x, y), And(Not(x), z))
    ensures Xor(And(Xor(y, z), x), z) == Or(And(x, y), And(Not(x), z))
  {
    SelectBits(x, y, z, 32);
    Commutes(x, Xor(y, z), 32);
    Commutes(z, And(x, Xor(y, z)), 32);
  }

  lemma SelectByLast(x: Word, y: Word, z: Word)
    ensures Xor(y, And(z, Xor(x, y))) == Or(And(x, z), And(y, Not(z)))
  {
    Select(z, x, y);
    Commutes(z, x, 32);
    Commutes(Not(z), y, 32);
  }

  lemma {:induction false} MajorityBits(x: nat, y: nat, z: nat, n: nat)
    ensures OrBits(AndBits(x, y, n), AndBits(z, OrBits(x, y, n), n), n)
            == OrBits(OrBits(AndBits(x, y, n), AndBits(x, z, n), n), AndBits(y, z, n), n)
  {
    if n > 0 {
      LastBits(x, y, n);
      LastBits(z, OrBits(x, y, n), n);
      LastBits(x, z, n);
      LastBits(AndBits(x, y, n), AndBits(x, z, n), n);
      LastBits(y, z, n);
      MajorityBits(x / 2, y / 2, z / 2, n - 1);
    }
  }

  lemma Majority(x: Word, y: Word, z: Word)
    ensures Or(And(x, y), And(z, Or(x, y))) == Or(Or(And(x, y), And(x, z)), And(y, z))
  {
    MajorityBits(x, y, z, 32);
  }

  // ----- byte order -----

  function LittleEndian(b0: Byte, b1: Byte, b2: Byte, b3: Byte): Word {
    b3 * 0x100_0000 + b2 * 0x1_0000 + b1 * 0x100 + b0
  }

  function BigEndian(b0: Byte, b1: Byte, b2: Byte, b3: Byte): Word {
    b0 * 0x100_0000 + b1 * 0x1_0000 + b2 * 0x100 + b3
  }

  /** Zero bytes. */
  function Zeros(n: nat): (z: seq<Byte>)
    ensures |z| == n
  {
    seq(n, _ => 0)
  }

  /** The bytes of a word, least significant first. */
  function LittleBytes(w: Word): (bs: seq<Byte>)
    ensures |bs| == 4
  {
    [w % 0x100, w / 0x100 % 0x100, w / 0x1_0000 % 0x100, w / 0x100_0000]
  }

  /** The bytes of a word, most significant first. */
  function BigBytes(w: Word): (bs: seq<Byte>)
    ensures |bs| == 4
  {
    [w / 0x100_0000, w / 0x1_0000 % 0x100, w / 0x100 % 0x100, w % 0x100]
  }

  lemma EndianRoundTrips(w: Word)
    ensures var bs := LittleBytes(w); LittleEndian(bs[0], bs[1], bs[2], bs[3]) == w
    ensures var bs := BigBytes(w); BigEndian(bs[0], bs[1], bs[2], bs[3]) == w
  {
    var a := w / 0x100;
    assert w == a * 0x100 + w % 0x100;
    var b := a / 0x100;
    assert a == b * 0x100 + a % 0x100;
    DivModUnique(w, 0x1_0000, b, a % 0x100 * 0x100 + w % 0x100);
    var c := b / 0x100;
    assert b == c * 0x100 + b % 0x100;
    DivModUnique(w, 0x100_0000, c, b % 0x100 * 0x1_0000 + a % 0x100 * 0x100 + w % 0x100);
  }

  lemma {:induction false} OrCommutes(x: nat, y: nat, n: nat)
    ensures OrBits(x, y, n) == OrBits(y, x, n)
  {
    if n > 0 {
      OrCommutes(x / 2, y / 2, n - 1);
    }
  }

  /** Or of numbers whose ones do not meet is their sum. */
  lemma {:induction false} OrShifted(a: nat, b: nat, j: nat, n: nat)
    requires j <= n && b < Pow2(j) && a * Pow2(j) < Pow2(n)
    ensures OrBits(a * Pow2(j), b, n) == a * Pow2(j) + b
    decreases n
  {
    if n == 0 {
    } else if j == 0 {
      OrZero(a, n);
    } else {
      assert a * Pow2(j) == 2 * (a * Pow2(j - 1));
      OrShifted(a, b / 2, j - 1, n - 1);
    }
  }

  lemma {:induction false} OrZero(a: nat, n: nat)
    requires a < Pow2(n)
    ensures OrBits(a, 0, n) == a
  {
    if n > 0 {
      OrZero(a / 2, n - 1);
    }
  }

  /** Shifting four bytes up by one place drops the first of them. */
  lemma ShlBytes(w: Word, a: Byte, b: Byte, c: Byte, d: Byte)
    requires w == BigEndian(a, b, c, d)
    ensures Shl(w, 8) == BigEndian(b, c, d, 0)
  {
    PowersOfTwo();
    DivModUnique(w * 0x100, TWO32, a, BigEndian(b, c, d, 0));
  }

  lemma ShlEight(w: Word)
    ensures Shl(w, 8) == w % 0x100_0000 * 0x100
  {
    PowersOfTwo();
  }

  lemma TopOf(w: Word, a: Byte, b: Byte, c: Byte, d: Byte)
    requires w == BigEndian(a, b, c, d)
    ensures w / 0x100_0000 == a
  {
    DivModUnique(w, 0x100_0000, a, BigEndian(0, b, c, d));
  }

  /** A byte shifted into a word: the word moves up by eight bits and loses its top byte. */
  lemma ShiftByteIn(w: Word, b: Byte)
    ensures Or(Shl(w, 8), b) == w % 0x100_0000 * 0x100 + b
  {
    PowersOfTwo();
    ShlEight(w);
    OrShifted(w % 0x100_0000, b, 8, 32);
  }
}
