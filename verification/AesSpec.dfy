// The AES cipher and its inverse, sections 4.2 and 5 of FIPS 197.
module AesSpec {
  import opened Words
  import opened RoundCipher

  /** A column of the state, or a 32-bit word as its four bytes, most significant first. */
  datatype Col = Col(r0: Byte, r1: Byte, r2: Byte, r3: Byte)

  datatype State = State(c0: Col, c1: Col, c2: Col, c3: Col)

  // ----- the field GF(2^8) -----

  /** Multiplication by x, modulo x^8 + x^4 + x^3 + x + 1. */
  function X2(b: Byte): Byte {
    if b < 0x80 then 2 * b else XorByte(2 * b - 0x100, 0x1b)
  }

  function Sum3(a: Byte, b: Byte, c: Byte): Byte { XorByte(XorByte(a, b), c) }
  function Sum4(a: Byte, b: Byte, c: Byte, d: Byte): Byte { XorByte(XorByte(XorByte(a, b), c), d) }

  function X3(b: Byte): Byte { XorByte(X2(b), b) }
  function X4(b: Byte): Byte { X2(X2(b)) }
  function X8(b: Byte): Byte { X2(X4(b)) }
  function X9(b: Byte): Byte { XorByte(X8(b), b) }
  function XB(b: Byte): Byte { Sum3(X8(b), X2(b), b) }
  function XD(b: Byte): Byte { Sum3(X8(b), X4(b), b) }
  function XE(b: Byte): Byte { Sum3(X8(b), X4(b), X2(b)) }

  // ----- sums in the field -----

  /** Bit i of a number. */
  function BitAt(x: nat, i: nat): bool {
    if i == 0 then x % 2 == 1 else BitAt(x / 2, i - 1)
  }

  lemma {:induction false} XorBitAt(x: nat, y: nat, n: nat, i: nat)
    requires i < n
    ensures BitAt(XorBits(x, y, n), i) == (BitAt(x, i) != BitAt(y, i))
  {
    if i > 0 {
      XorBitAt(x / 2, y / 2, n - 1, i - 1);
    }
  }

  lemma {:induction false} SameBits(x: nat, y: nat, n: nat)
    requires x < Pow2(n) && y < Pow2(n) && forall i: nat :: i < n ==> BitAt(x, i) == BitAt(y, i)
    ensures x == y
  {
    if n > 0 {
      assert BitAt(x, 0) == BitAt(y, 0);
      forall i: nat | i < n - 1 ensures BitAt(x / 2, i) == BitAt(y / 2, i) {
        assert BitAt(x, i + 1) == BitAt(y, i + 1);
      }
      SameBits(x / 2, y / 2, n - 1);
    }
  }

  /** A sum of bytes, bit by bit. */
  lemma XorByteAt()
    ensures forall x: Byte, y: Byte, i: nat {:trigger BitAt(XorByte(x, y), i)} :: i < 8 ==>
              BitAt(XorByte(x, y), i) == (BitAt(x, i) != BitAt(y, i))
  {
    forall x: Byte, y: Byte, i: nat | i < 8
      ensures BitAt(XorByte(x, y), i) == (BitAt(x, i) != BitAt(y, i))
    {
      XorBitAt(x, y, 8, i);
    }
  }

  lemma SameByte(x: Byte, y: Byte)
    requires forall i: nat :: i < 8 ==> BitAt(x, i) == BitAt(y, i)
    ensures x == y
  {
    PowersOfTwo();
    SameBits(x, y, 8);
  }

  lemma {:induction false} XorZeroBits(a: nat, n: nat)
    requires a < Pow2(n)
    ensures XorBits(a, 0, n) == a && XorBits(0, a, n) == a && XorBits(a, a, n) == 0
  {
    if n > 0 {
      XorZeroBits(a / 2, n - 1);
    }
  }

  /** (a + b) + (c + d) == (a + c) + (b + d) */
  lemma Swap(a: Byte, b: Byte, c: Byte, d: Byte)
    ensures XorByte(XorByte(a, b), XorByte(c, d)) == XorByte(XorByte(a, c), XorByte(b, d))
  {
    XorByteAt();
    SameByte(XorByte(XorByte(a, b), XorByte(c, d)), XorByte(XorByte(a, c), XorByte(b, d)));
  }

  lemma Zero(a: Byte)
    ensures XorByte(a, 0) == a && XorByte(0, a) == a && XorByte(a, a) == 0
  {
    PowersOfTwo();
    XorZeroBits(a, 8);
  }

  /** Splitting off the top of n + 1 bits. */
  function Low(x: nat, p: nat): nat {
    if x >= p then x - p else x
  }

  lemma {:induction false} TopBit(x: nat, y: nat, n: nat)
    requires x < Pow2(n + 1) && y < Pow2(n + 1)
    ensures var p := Pow2(n);
            XorBits(x, y, n + 1) == XorBits(Low(x, p), Low(y, p), n) + (if (x >= p) != (y >= p) then p else 0)
  {
    var p := Pow2(n);
    if n == 0 {
      assert Pow2(0) == 1 && Pow2(1) == 2;
      assert XorBits(x / 2, y / 2, 0) == 0;
    } else {
      var q := Pow2(n - 1);
      TopBit(x / 2, y / 2, n - 1);
      assert Low(x, p) / 2 == Low(x / 2, q) && Low(x, p) % 2 == x % 2;
      assert Low(y, p) / 2 == Low(y / 2, q) && Low(y, p) % 2 == y % 2;
    }
  }

  lemma {:induction false} DoubleBits(x: nat, y: nat, n: nat)
    ensures XorBits(2 * x, 2 * y, n + 1) == 2 * XorBits(x, y, n)
  {
  }

  /** Without the reduction, doubling distributes over the sum. */
  lemma DoubleSum(a: Byte, b: Byte)
    ensures XorByte(2 * Low(a, 0x80), 2 * Low(b, 0x80)) == 2 * Low(XorByte(a, b), 0x80)
    ensures XorByte(a, b) >= 0x80 <==> (a >= 0x80) != (b >= 0x80)
  {
    PowersOfTwo();
    assert Pow2(7) == 0x80;
    TopBit(a, b, 7);
    DoubleBits(Low(a, 0x80), Low(b, 0x80), 7);
    assert XorBits(Low(a, 0x80), Low(b, 0x80), 7) < 0x80;
  }

  function Reduction(b: Byte): Byte {
    if b >= 0x80 then 0x1b else 0
  }

  lemma X2Is(b: Byte)
    ensures X2(b) == XorByte(2 * Low(b, 0x80), Reduction(b))
  {
    Zero(2 * Low(b, 0x80));
  }

  lemma X2Linear(a: Byte, b: Byte)
    ensures X2(XorByte(a, b)) == XorByte(X2(a), X2(b))
  {
    DoubleSum(a, b);
    X2Is(a);
    X2Is(b);
    X2Is(XorByte(a, b));
    Zero(0x1b);
    Zero(0);
    Swap(2 * Low(a, 0x80), Reduction(a), 2 * Low(b, 0x80), Reduction(b));
  }

  lemma Swap3(a: Byte, b: Byte, c: Byte, x: Byte, y: Byte, z: Byte)
    ensures Sum3(XorByte(a, x), XorByte(b, y), XorByte(c, z)) == XorByte(Sum3(a, b, c), Sum3(x, y, z))
  {
    Swap(a, x, b, y);
    Swap(XorByte(a, b), XorByte(x, y), c, z);
  }

  lemma Swap4(a: Byte, b: Byte, c: Byte, d: Byte, x: Byte, y: Byte, z: Byte, w: Byte)
    ensures Sum4(XorByte(a, x), XorByte(b, y), XorByte(c, z), XorByte(d, w))
            == XorByte(Sum4(a, b, c, d), Sum4(x, y, z, w))
  {
    Swap3(a, b, c, x, y, z);
    Swap(Sum3(a, b, c), Sum3(x, y, z), d, w);
  }

  /** Multiplication by each constant distributes over the sum. */
  lemma Linear(a: Byte, b: Byte)
    ensures X2(XorByte(a, b)) == XorByte(X2(a), X2(b)) && X3(XorByte(a, b)) == XorByte(X3(a), X3(b))
    ensures X9(XorByte(a, b)) == XorByte(X9(a), X9(b)) && XB(XorByte(a, b)) == XorByte(XB(a), XB(b))
    ensures XD(XorByte(a, b)) == XorByte(XD(a), XD(b)) && XE(XorByte(a, b)) == XorByte(XE(a), XE(b))
    ensures X8(XorByte(a, b)) == XorByte(X8(a), X8(b)) && X4(XorByte(a, b)) == XorByte(X4(a), X4(b))
  {
    X2Linear(a, b);
    X2Linear(X2(a), X2(b));
    X2Linear(X4(a), X4(b));
    Swap(X2(a), X2(b), a, b);
    Swap(X8(a), X8(b), a, b);
    Swap3(X8(a), X2(a), a, X8(b), X2(b), b);
    Swap3(X8(a), X4(a), a, X8(b), X4(b), b);
    Swap3(X8(a), X4(a), X2(a), X8(b), X4(b), X2(b));
  }

  // ----- columns -----

  function XorCol(a: Col, b: Col): Col {
    Col(XorByte(a.r0, b.r0), XorByte(a.r1, b.r1), XorByte(a.r2, b.r2), XorByte(a.r3, b.r3))
  }

  function MixCol(c: Col): Col {
    Col(Sum4(X2(c.r0), X3(c.r1), c.r2, c.r3),
        Sum4(c.r0, X2(c.r1), X3(c.r2), c.r3),
        Sum4(c.r0, c.r1, X2(c.r2), X3(c.r3)),
        Sum4(X3(c.r0), c.r1, c.r2, X2(c.r3)))
  }

  function InvMixCol(c: Col): Col {
    Col(Sum4(XE(c.r0), XB(c.r1), XD(c.r2), X9(c.r3)),
        Sum4(X9(c.r0), XE(c.r1), XB(c.r2), XD(c.r3)),
        Sum4(XD(c.r0), X9(c.r1), XE(c.r2), XB(c.r3)),
        Sum4(XB(c.r0), XD(c.r1), X9(c.r2), XE(c.r3)))
  }

  lemma InvMixColLinear(a: Col, b: Col)
    ensures InvMixCol(XorCol(a, b)) == XorCol(InvMixCol(a), InvMixCol(b))
  {
    Linear(a.r0, b.r0);
    Linear(a.r1, b.r1);
    Linear(a.r2, b.r2);
    Linear(a.r3, b.r3);
    Swap4(XE(a.r0), XB(a.r1), XD(a.r2), X9(a.r3), XE(b.r0), XB(b.r1), XD(b.r2), X9(b.r3));
    Swap4(X9(a.r0), XE(a.r1), XB(a.r2), XD(a.r3), X9(b.r0), XE(b.r1), XB(b.r2), XD(b.r3));
    Swap4(XD(a.r0), X9(a.r1), XE(a.r2), XB(a.r3), XD(b.r0), X9(b.r1), XE(b.r2), XB(b.r3));
    Swap4(XB(a.r0), XD(a.r1), X9(a.r2), XE(a.r3), XB(b.r0), XD(b.r1), X9(b.r2), XE(b.r3));
  }

  /** The products of one byte, as the two mixings combine them: only the byte itself is left. */
  lemma OneByte(b: Byte)
    ensures Sum4(XE(X2(b)), XB(b), XD(b), X9(X3(b))) == b
    ensures Sum4(X9(X2(b)), XE(b), XB(b), XD(X3(b))) == 0
    ensures Sum4(XD(X2(b)), X9(b), XE(b), XB(X3(b))) == 0
    ensures Sum4(XB(X2(b)), XD(b), X9(b), XE(X3(b))) == 0
  {
    Linear(X2(b), b);
    var b2, b4, b8, b16 := X2(b), X4(b), X8(b), X8(X2(b));
    assert X4(b2) == b8 && X2(b2) == b4;
    XorByteAt();
    Zero(0);
    assert forall i: nat :: i < 8 ==> !BitAt(0, i) by { NoBits(); }
    SameByte(Sum4(XE(b2), XB(b), XD(b), X9(X3(b))), b);
    SameByte(Sum4(X9(b2), XE(b), XB(b), XD(X3(b))), 0);
    SameByte(Sum4(XD(b2), X9(b), XE(b), XB(X3(b))), 0);
    SameByte(Sum4(XB(b2), XD(b), X9(b), XE(X3(b))), 0);
  }

  lemma NoBits()
    ensures forall i: nat :: i < 8 ==> !BitAt(0, i)
  {
    forall i: nat | i < 8 ensures !BitAt(0, i) {
      NoBit(i);
    }
  }

  lemma {:induction false} NoBit(i: nat)
    ensures !BitAt(0, i)
  {
    if i > 0 {
      NoBit(i - 1);
    }
  }

  /** A column turned by one row. */
  function Turn(c: Col): Col {
    Col(c.r3, c.r0, c.r1, c.r2)
  }

  lemma TurnSum(a: Byte, b: Byte, c: Byte, d: Byte)
    ensures Sum4(a, b, c, d) == Sum4(b, c, d, a)
  {
    XorByteAt();
    SameByte(Sum4(a, b, c, d), Sum4(b, c, d, a));
  }

  lemma MixTurns(c: Col)
    ensures MixCol(Turn(c)) == Turn(MixCol(c))
  {
    TurnSum(X2(c.r3), X3(c.r0), c.r1, c.r2);
    TurnSum(c.r3, X2(c.r0), X3(c.r1), c.r2);
    TurnSum(c.r3, c.r0, X2(c.r1), X3(c.r2));
    TurnSum(X3(c.r3), c.r0, c.r1, X2(c.r2));
  }

  lemma InvMixTurns(c: Col)
    ensures InvMixCol(Turn(c)) == Turn(InvMixCol(c))
  {
    TurnSum(XE(c.r3), XB(c.r0), XD(c.r1), X9(c.r2));
    TurnSum(X9(c.r3), XE(c.r0), XB(c.r1), XD(c.r2));
    TurnSum(XD(c.r3), X9(c.r0), XE(c.r1), XB(c.r2));
    TurnSum(XB(c.r3), XD(c.r0), X9(c.r1), XE(c.r2));
  }

  predicate Undone(c: Col) {
    InvMixCol(MixCol(c)) == c
  }

  lemma UndoneTurned(c: Col)
    requires Undone(c)
    ensures Undone(Turn(c))
  {
    MixTurns(c);
    InvMixTurns(MixCol(c));
  }

  lemma UndoneOne(b: Byte)
    ensures Undone(Col(b, 0, 0, 0))
  {
    Zero(0);
    Zero(X2(b));
    Zero(b);
    Zero(X3(b));
    assert MixCol(Col(b, 0, 0, 0)) == Col(X2(b), b, b, X3(b));
    OneByte(b);
  }

  lemma UndoneSum(a: Col, b: Col)
    requires Undone(a) && Undone(b)
    ensures Undone(XorCol(a, b))
  {
    MixColLinear(a, b);
    InvMixColLinear(MixCol(a), MixCol(b));
  }

  lemma MixColLinear(a: Col, b: Col)
    ensures MixCol(XorCol(a, b)) == XorCol(MixCol(a), MixCol(b))
  {
    Linear(a.r0, b.r0);
    Linear(a.r1, b.r1);
    Linear(a.r2, b.r2);
    Linear(a.r3, b.r3);
    Swap4(X2(a.r0), X3(a.r1), a.r2, a.r3, X2(b.r0), X3(b.r1), b.r2, b.r3);
    Swap4(a.r0, X2(a.r1), X3(a.r2), a.r3, b.r0, X2(b.r1), X3(b.r2), b.r3);
    Swap4(a.r0, a.r1, X2(a.r2), X3(a.r3), b.r0, b.r1, X2(b.r2), X3(b.r3));
    Swap4(X3(a.r0), a.r1, a.r2, X2(a.r3), X3(b.r0), b.r1, b.r2, X2(b.r3));
  }

  /** InvMixColumns undoes MixColumns, column by column. */
  lemma MixColInverse(c: Col)
    ensures InvMixCol(MixCol(c)) == c
  {
    var a, b, d, e := Col(c.r0, 0, 0, 0), Col(c.r1, 0, 0, 0), Col(c.r2, 0, 0, 0), Col(c.r3, 0, 0, 0);
    UndoneOne(c.r0);
    UndoneOne(c.r1);
    UndoneOne(c.r2);
    UndoneOne(c.r3);
    UndoneTurned(b);
    UndoneTurned(d);
    UndoneTurned(Turn(d));
    UndoneTurned(e);
    UndoneTurned(Turn(e));
    UndoneTurned(Turn(Turn(e)));
    UndoneSum(a, Turn(b));
    UndoneSum(Turn(Turn(d)), Turn(Turn(Turn(e))));
    UndoneSum(XorCol(a, Turn(b)), XorCol(Turn(Turn(d)), Turn(Turn(Turn(e)))));
    Zero(0);
    Zero(c.r0);
    Zero(c.r1);
    Zero(c.r2);
    Zero(c.r3);
    assert XorCol(XorCol(a, Turn(b)), XorCol(Turn(Turn(d)), Turn(Turn(Turn(e))))) == c;
  }

  // ----- the state -----

  function AddRoundKey(s: State, k: State): State {
    State(XorCol(s.c0, k.c0), XorCol(s.c1, k.c1), XorCol(s.c2, k.c2), XorCol(s.c3, k.c3))
  }

  function MixColumns(s: State): State {
    State(MixCol(s.c0), MixCol(s.c1), MixCol(s.c2), MixCol(s.c3))
  }

  function InvMixColumns(s: State): State {
    State(InvMixCol(s.c0), InvMixCol(s.c1), InvMixCol(s.c2), InvMixCol(s.c3))
  }

  /** Row r moves left by r places. */
  function ShiftRows(s: State): State {
    State(Col(s.c0.r0, s.c1.r1, s.c2.r2, s.c3.r3), Col(s.c1.r0, s.c2.r1, s.c3.r2, s.c0.r3),
          Col(s.c2.r0, s.c3.r1, s.c0.r2, s.c1.r3), Col(s.c3.r0, s.c0.r1, s.c1.r2, s.c2.r3))
  }

  function InvShiftRows(s: State): State {
    State(Col(s.c0.r0, s.c3.r1, s.c2.r2, s.c1.r3), Col(s.c1.r0, s.c0.r1, s.c3.r2, s.c2.r3),
          Col(s.c2.r0, s.c1.r1, s.c0.r2, s.c3.r3), Col(s.c3.r0, s.c2.r1, s.c1.r2, s.c0.r3))
  }

  // ----- the layers as the standard indexes them -----

  function Row(c: Col, r: nat): Byte
    requires r < 4
  {
    match r
    case 0 => c.r0
    case 1 => c.r1
    case 2 => c.r2
    case _ => c.r3
  }

  function Column(s: State, c: nat): Col
    requires c < 4
  {
    match c
    case 0 => s.c0
    case 1 => s.c1
    case 2 => s.c2
    case _ => s.c3
  }

  /** s[r, c] */
  function At(s: State, r: nat, c: nat): Byte
    requires r < 4 && c < 4
  {
    Row(Column(s, c), r)
  }

  /** Row r comes from r columns further on, sections 5.1.2 and 5.3.1. */
  lemma ShiftRowsAt(s: State, r: nat, c: nat)
    requires r < 4 && c < 4
    ensures At(ShiftRows(s), r, c) == At(s, r, (c + r) % 4)
    ensures At(InvShiftRows(s), r, (c + r) % 4) == At(s, r, c)
  {
  }

  /** The product of a factor below 16 and a byte, by repeated doubling, section 4.2.1. */
  function Times(k: nat, b: Byte): Byte {
    if k == 0 then 0 else XorByte(Times(k / 2, X2(b)), if k % 2 == 1 then b else 0)
  }

  lemma TimesSmall(b: Byte)
    ensures Times(1, b) == b && Times(2, b) == X2(b) && Times(3, b) == X3(b)
  {
    Zero(b);
    Zero(X2(b));
    assert Times(0, X2(b)) == 0 && Times(0, X2(X2(b))) == 0;
    assert Times(1, b) == XorByte(0, b);
    assert Times(1, X2(b)) == XorByte(0, X2(b));
  }

  lemma TimesEight(b: Byte)
    ensures Times(4, b) == X4(b) && Times(5, b) == XorByte(X4(b), b)
    ensures Times(6, b) == XorByte(X4(b), X2(b)) && Times(7, b) == Sum3(X4(b), X2(b), b)
  {
    TimesSmall(X2(b));
    Zero(X4(b));
    Zero(XorByte(X4(b), X2(b)));
  }

  lemma TimesLarge(b: Byte)
    ensures Times(9, b) == X9(b) && Times(11, b) == XB(b) && Times(13, b) == XD(b) && Times(14, b) == XE(b)
  {
    TimesEight(X2(b));
    assert X4(X2(b)) == X8(b) && X2(X2(b)) == X4(b);
    Zero(XorByte(X8(b), X4(b)));
    Zero(Sum3(X8(b), X4(b), X2(b)));
  }

  // The four sums of either mixing are one, turned.

  lemma MixRow1(c: Col)
    ensures MixCol(c).r1 == Sum4(X2(c.r1), X3(c.r2), c.r3, c.r0)
  {
    TurnSum(c.r0, X2(c.r1), X3(c.r2), c.r3);
  }

  lemma MixRow2(c: Col)
    ensures MixCol(c).r2 == Sum4(X2(c.r2), X3(c.r3), c.r0, c.r1)
  {
    TurnSum(c.r0, c.r1, X2(c.r2), X3(c.r3));
    TurnSum(c.r1, X2(c.r2), X3(c.r3), c.r0);
  }

  lemma MixRow3(c: Col)
    ensures MixCol(c).r3 == Sum4(X2(c.r3), X3(c.r0), c.r1, c.r2)
  {
    TurnSum(X2(c.r3), X3(c.r0), c.r1, c.r2);
  }

  lemma InvMixRow1(c: Col)
    ensures InvMixCol(c).r1 == Sum4(XE(c.r1), XB(c.r2), XD(c.r3), X9(c.r0))
  {
    TurnSum(X9(c.r0), XE(c.r1), XB(c.r2), XD(c.r3));
  }

  lemma InvMixRow2(c: Col)
    ensures InvMixCol(c).r2 == Sum4(XE(c.r2), XB(c.r3), XD(c.r0), X9(c.r1))
  {
    TurnSum(XD(c.r0), X9(c.r1), XE(c.r2), XB(c.r3));
    TurnSum(X9(c.r1), XE(c.r2), XB(c.r3), XD(c.r0));
  }

  lemma InvMixRow3(c: Col)
    ensures InvMixCol(c).r3 == Sum4(XE(c.r3), XB(c.r0), XD(c.r1), X9(c.r2))
  {
    TurnSum(XE(c.r3), XB(c.r0), XD(c.r1), X9(c.r2));
  }

  lemma TimesMix(a: Byte, b: Byte, d: Byte, e: Byte)
    ensures Sum4(Times(2, a), Times(3, b), d, e) == Sum4(X2(a), X3(b), d, e)
  {
    TimesSmall(a);
    TimesSmall(b);
  }

  lemma TimesInvMix(a: Byte, b: Byte, d: Byte, e: Byte)
    ensures Sum4(Times(14, a), Times(11, b), Times(13, d), Times(9, e)) == Sum4(XE(a), XB(b), XD(d), X9(e))
  {
    TimesLarge(a);
    TimesLarge(b);
    TimesLarge(d);
    TimesLarge(e);
  }

  /** A column is mixed by the circulant of 2, 3, 1, 1, section 5.1.3. */
  lemma MixColAt(c: Col)
    ensures MixCol(c).r0 == Sum4(Times(2, c.r0), Times(3, c.r1), c.r2, c.r3)
    ensures MixCol(c).r1 == Sum4(Times(2, c.r1), Times(3, c.r2), c.r3, c.r0)
    ensures MixCol(c).r2 == Sum4(Times(2, c.r2), Times(3, c.r3), c.r0, c.r1)
    ensures MixCol(c).r3 == Sum4(Times(2, c.r3), Times(3, c.r0), c.r1, c.r2)
  {
    MixRow1(c);
    MixRow2(c);
    MixRow3(c);
    TimesMix(c.r0, c.r1, c.r2, c.r3);
    TimesMix(c.r1, c.r2, c.r3, c.r0);
    TimesMix(c.r2, c.r3, c.r0, c.r1);
    TimesMix(c.r3, c.r0, c.r1, c.r2);
  }

  /** And unmixed by that of 14, 11, 13, 9, section 5.3.3. */
  lemma InvMixColAt(c: Col)
    ensures InvMixCol(c).r0 == Sum4(Times(14, c.r0), Times(11, c.r1), Times(13, c.r2), Times(9, c.r3))
    ensures InvMixCol(c).r1 == Sum4(Times(14, c.r1), Times(11, c.r2), Times(13, c.r3), Times(9, c.r0))
    ensures InvMixCol(c).r2 == Sum4(Times(14, c.r2), Times(11, c.r3), Times(13, c.r0), Times(9, c.r1))
    ensures InvMixCol(c).r3 == Sum4(Times(14, c.r3), Times(11, c.r0), Times(13, c.r1), Times(9, c.r2))
  {
    InvMixRow1(c);
    InvMixRow2(c);
    InvMixRow3(c);
    TimesInvMix(c.r0, c.r1, c.r2, c.r3);
    TimesInvMix(c.r1, c.r2, c.r3, c.r0);
    TimesInvMix(c.r2, c.r3, c.r0, c.r1);
    TimesInvMix(c.r3, c.r0, c.r1, c.r2);
  }

  /** A substitution table. */
  type Box = t: seq<Byte> | |t| == 256 witness seq(256, _ => 0)

  function Sub(box: Box, c: Col): Col {
    Col(box[c.r0], box[c.r1], box[c.r2], box[c.r3])
  }

  function SubBytes(box: Box, s: State): State {
    State(Sub(box, s.c0), Sub(box, s.c1), Sub(box, s.c2), Sub(box, s.c3))
  }

  /** The second table looks up what the first one put in. */
  ghost predicate Inverses(box: Box, inv: Box) {
    forall b: Byte :: inv[box[b]] == b
  }

  // ----- the laws the rounds rest on -----

  lemma AddTwice(s: State, k: State)
    ensures AddRoundKey(AddRoundKey(s, k), k) == s
  {
    AddColTwice(s.c0, k.c0);
    AddColTwice(s.c1, k.c1);
    AddColTwice(s.c2, k.c2);
    AddColTwice(s.c3, k.c3);
  }

  lemma AddColTwice(c: Col, k: Col)
    ensures XorCol(XorCol(c, k), k) == c
  {
    AddByteTwice(c.r0, k.r0);
    AddByteTwice(c.r1, k.r1);
    AddByteTwice(c.r2, k.r2);
    AddByteTwice(c.r3, k.r3);
  }

  lemma AddByteTwice(b: Byte, k: Byte)
    ensures XorByte(XorByte(b, k), k) == b
  {
    XorByteAt();
    SameByte(XorByte(XorByte(b, k), k), b);
  }

  lemma MixStateInverse(s: State)
    ensures InvMixColumns(MixColumns(s)) == s
  {
    MixColInverse(s.c0);
    MixColInverse(s.c1);
    MixColInverse(s.c2);
    MixColInverse(s.c3);
  }

  lemma InvMixStateLinear(s: State, k: State)
    ensures InvMixColumns(AddRoundKey(s, k)) == AddRoundKey(InvMixColumns(s), InvMixColumns(k))
  {
    InvMixColLinear(s.c0, k.c0);
    InvMixColLinear(s.c1, k.c1);
    InvMixColLinear(s.c2, k.c2);
    InvMixColLinear(s.c3, k.c3);
  }

  lemma SubShiftInverse(box: Box, inv: Box, s: State)
    requires Inverses(box, inv)
    ensures SubBytes(inv, InvShiftRows(ShiftRows(SubBytes(box, s)))) == s
  {
    var u := SubBytes(box, s);
    assert InvShiftRows(ShiftRows(u)) == u;
  }

  // ----- the cipher and its inverse -----

  /** The layers of AES with a pair of substitution tables. */
  function Aes(box: Box, inv: Box): Layers<State> {
    Layers((s: State) => SubBytes(box, s), (s: State) => SubBytes(inv, s),
           ShiftRows, InvShiftRows, MixColumns, InvMixColumns, AddRoundKey)
  }

  lemma AesLawful(box: Box, inv: Box)
    requires Inverses(box, inv)
    ensures Lawful(Aes(box, inv))
  {
    var L := Aes(box, inv);
    forall s: State ensures L.invSub(L.invShift(L.shift(L.sub(s)))) == s {
      SubShiftInverse(box, inv, s);
    }
    forall s: State ensures L.invMix(L.mix(s)) == s {
      MixStateInverse(s);
    }
    forall s: State, k: State ensures L.add(L.add(s, k), k) == s {
      AddTwice(s, k);
    }
    AesLinear(box, inv);
  }

  lemma AesLinear(box: Box, inv: Box)
    ensures Linearly(Aes(box, inv))
  {
    var L := Aes(box, inv);
    forall s: State, k: State ensures L.invMix(L.add(s, k)) == L.add(L.invMix(s), L.invMix(k)) {
      InvMixStateLinear(s, k);
    }
  }
}
