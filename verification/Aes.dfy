// AES key setup and block decryption of Module/md5.c.
module Aes {
  import opened Words
  import opened Modular
  import opened RoundCipher
  import opened AesSpec
  import AesTables
  import KeyWalk

  const FSB: Box := seq(256, (b: nat) requires b < 256 => AesTables.FSb(b))
  const RSB: Box := seq(256, (b: nat) requires b < 256 => AesTables.RSb(b))

  lemma BoxesInverse()
    ensures Inverses(FSB, RSB)
  {
    forall b: Byte ensures RSB[FSB[b]] == b {
      AesTables.TablesInverse(b);
    }
  }

  // ----- key expansion, section 5.2 of FIPS 197 -----

  function RotWord(c: Col): Col {
    Col(c.r1, c.r2, c.r3, c.r0)
  }

  /** x^(j - 1) in the field. */
  function Power(j: nat): Byte {
    if j <= 1 then 1 else X2(Power(j - 1))
  }

  function Rcon(j: nat): Col {
    Col(Power(j), 0, 0, 0)
  }

  /** Word j of the expanded key. */
  function Expanded(box: Box, key: seq<Col>, j: nat): Col
    requires |key| >= 1
  {
    var n := |key|;
    if j < n then key[j]
    else
      var temp := Expanded(box, key, j - 1);
      var used := if j % n == 0 then XorCol(Sub(box, RotWord(temp)), Rcon(j / n))
                  else if n > 6 && j % n == 4 then Sub(box, temp)
                  else temp;
      XorCol(Expanded(box, key, j - n), used)
  }

  /** Four expanded words from 4r on. */
  function RoundKey(box: Box, key: seq<Col>, r: nat): State
    requires |key| >= 1
  {
    State(Expanded(box, key, 4 * r), Expanded(box, key, 4 * r + 1),
          Expanded(box, key, 4 * r + 2), Expanded(box, key, 4 * r + 3))
  }

  function RoundKeys(box: Box, key: seq<Col>, n: nat): (keys: seq<State>)
    requires |key| >= 1
    ensures |keys| == n + 1
  {
    seq(n + 1, r requires 0 <= r <= n => RoundKey(box, key, r))
  }

  // ----- the tables of the code -----

  /** RT0[b], the products of RSb[b] that row 0 contributes to a column; RT1 to RT3 are its rotations. */
  function RT0(inv: Box, b: Byte): Col {
    Col(XE(inv[b]), X9(inv[b]), XD(inv[b]), XB(inv[b]))
  }

  function RT1(inv: Box, b: Byte): Col { Turn(RT0(inv, b)) }
  function RT2(inv: Box, b: Byte): Col { Turn(RT1(inv, b)) }
  function RT3(inv: Box, b: Byte): Col { Turn(RT2(inv, b)) }

  function Xor4(a: Col, b: Col, c: Col, d: Col): Col {
    XorCol(XorCol(XorCol(a, b), c), d)
  }

  /** The four table entries of a column's bytes add up to its inverse mixing. */
  lemma TablesMix(inv: Box, c: Col)
    ensures Xor4(RT0(inv, c.r0), RT1(inv, c.r1), RT2(inv, c.r2), RT3(inv, c.r3)) == InvMixCol(Sub(inv, c))
  {
  }

  lemma KeyLast(k: Byte, a: Byte, b: Byte, c: Byte, d: Byte)
    ensures XorByte(XorByte(XorByte(XorByte(k, a), b), c), d) == XorByte(Sum4(a, b, c, d), k)
  {
    XorByteAt();
    SameByte(XorByte(XorByte(XorByte(XorByte(k, a), b), c), d), XorByte(Sum4(a, b, c, d), k));
  }

  lemma KeyLastCol(k: Col, a: Col, b: Col, c: Col, d: Col)
    ensures XorCol(Xor4(k, a, b, c), d) == XorCol(Xor4(a, b, c, d), k)
  {
    KeyLast(k.r0, a.r0, b.r0, c.r0, d.r0);
    KeyLast(k.r1, a.r1, b.r1, c.r1, d.r1);
    KeyLast(k.r2, a.r2, b.r2, c.r2, d.r2);
    KeyLast(k.r3, a.r3, b.r3, c.r3, d.r3);
  }

  /** One column of AES_RROUND: the round key and four table entries. */
  function RColumn(inv: Box, k: Col, a: Byte, b: Byte, c: Byte, d: Byte): Col {
    XorCol(Xor4(k, RT0(inv, a), RT1(inv, b), RT2(inv, c)), RT3(inv, d))
  }

  lemma RColumnIs(inv: Box, k: Col, c: Col)
    ensures RColumn(inv, k, c.r0, c.r1, c.r2, c.r3) == XorCol(InvMixCol(Sub(inv, c)), k)
  {
    KeyLastCol(k, RT0(inv, c.r0), RT1(inv, c.r1), RT2(inv, c.r2), RT3(inv, c.r3));
    TablesMix(inv, c);
  }

  /** AES_RROUND. */
  function RRound(inv: Box, k: State, y: State): State {
    State(RColumn(inv, k.c0, y.c0.r0, y.c3.r1, y.c2.r2, y.c1.r3),
          RColumn(inv, k.c1, y.c1.r0, y.c0.r1, y.c3.r2, y.c2.r3),
          RColumn(inv, k.c2, y.c2.r0, y.c1.r1, y.c0.r2, y.c3.r3),
          RColumn(inv, k.c3, y.c3.r0, y.c2.r1, y.c1.r2, y.c0.r3))
  }

  lemma RRoundIs(inv: Box, k: State, y: State)
    ensures RRound(inv, k, y) == AddRoundKey(InvMixColumns(SubBytes(inv, InvShiftRows(y))), k)
  {
    var s := InvShiftRows(y);
    RColumnIs(inv, k.c0, s.c0);
    RColumnIs(inv, k.c1, s.c1);
    RColumnIs(inv, k.c2, s.c2);
    RColumnIs(inv, k.c3, s.c3);
  }

  /** The last round: no mixing, the round key in front. */
  function RLast(inv: Box, k: State, y: State): State {
    State(XorCol(k.c0, Col(inv[y.c0.r0], inv[y.c3.r1], inv[y.c2.r2], inv[y.c1.r3])),
          XorCol(k.c1, Col(inv[y.c1.r0], inv[y.c0.r1], inv[y.c3.r2], inv[y.c2.r3])),
          XorCol(k.c2, Col(inv[y.c2.r0], inv[y.c1.r1], inv[y.c0.r2], inv[y.c3.r3])),
          XorCol(k.c3, Col(inv[y.c3.r0], inv[y.c2.r1], inv[y.c1.r2], inv[y.c0.r3])))
  }

  lemma XorColCommutes(a: Col, b: Col)
    ensures XorCol(a, b) == XorCol(b, a)
  {
    Commutes(a.r0, b.r0, 8);
    Commutes(a.r1, b.r1, 8);
    Commutes(a.r2, b.r2, 8);
    Commutes(a.r3, b.r3, 8);
  }

  lemma RLastIs(inv: Box, k: State, y: State)
    ensures RLast(inv, k, y) == AddRoundKey(SubBytes(inv, InvShiftRows(y)), k)
  {
    var s := SubBytes(inv, InvShiftRows(y));
    XorColCommutes(k.c0, s.c0);
    XorColCommutes(k.c1, s.c1);
    XorColCommutes(k.c2, s.c2);
    XorColCommutes(k.c3, s.c3);
  }

  // ----- KT0 to KT3, built the first time a key is set -----

  method FillTable<C>(table: array<C>, entry: Byte -> C)
    requires table.Length == 256
    modifies table
    ensures forall b: Byte :: table[b] == entry(b)
  {
    for i := 0 to 256
      invariant forall b: Byte :: b < i ==> table[b] == entry(b)
    {
      table[i] := entry(i);
    }
  }

  /** The static key tables: row 0 of each is kept, KT1 to KT3 being its rotations as RT1 to RT3 are of RT0. */
  class KeyTables {
    const fsb: Box
    const rsb: Box
    const kt: array<Col>
    var init: bool

    ghost predicate Valid()
      reads this, kt
    {
      && Inverses(fsb, rsb)
      && kt.Length == 256 && (!init ==> forall b: Byte :: kt[b] == RT0(rsb, fsb[b]))
    }

    constructor ()
      ensures Valid() && fresh(kt) && fsb == FSB && rsb == RSB
    {
      fsb, rsb := FSB, RSB;
      kt := new Col[256](_ => Col(0, 0, 0, 0));
      init := true;
      BoxesInverse();
    }

    method Build()
      requires Valid()
      modifies this, kt
      ensures Valid() && !init
    {
      if init {
        var f, r := fsb, rsb;
        FillTable(kt, (b: Byte) => RT0(r, f[b]));
        init := false;
      }
    }
  }

  /** A word through the four key tables. */
  function ThroughTables(kt: seq<Col>, c: Col): Col
    requires |kt| == 256
  {
    Xor4(kt[c.r0], Turn(kt[c.r1]), Turn(Turn(kt[c.r2])), Turn(Turn(Turn(kt[c.r3]))))
  }

  /** RT through FSb and back is the inverse mixing. */
  lemma ThroughTablesMixes(fsb: Box, rsb: Box, kt: seq<Col>, c: Col)
    requires Inverses(fsb, rsb) && |kt| == 256 && forall b: Byte :: kt[b] == RT0(rsb, fsb[b])
    ensures ThroughTables(kt, c) == InvMixCol(c)
  {
    TablesMix(rsb, Sub(fsb, c));
    assert Sub(rsb, Sub(fsb, c)) == c;
  }

  // ----- the context -----

  function RCON(i: nat): Col
    requires i < 10
  {
    Col([0x01, 0x02, 0x04, 0x08, 0x10, 0x20, 0x40, 0x80, 0x1b, 0x36][i], 0, 0, 0)
  }

  lemma RconIs(i: nat)
    requires i < 10
    ensures RCON(i) == Rcon(i + 1)
  {
    var p8 := Power(8);
    assert Power(4) == 0x08;
    assert p8 == 0x80;
    Zero(0x1b);
    assert X2(p8) == XorByte(0, 0x1b);
    assert Power(9) == 0x1b;
    assert Power(10) == 0x36;
  }

  lemma RconInFront(a: Col, k: Col, s: Col)
    ensures XorCol(XorCol(a, k), s) == XorCol(a, XorCol(s, k))
  {
    RconByte(a.r0, k.r0, s.r0);
    RconByte(a.r1, k.r1, s.r1);
    RconByte(a.r2, k.r2, s.r2);
    RconByte(a.r3, k.r3, s.r3);
  }

  lemma RconByte(a: Byte, k: Byte, s: Byte)
    ensures XorByte(XorByte(a, k), s) == XorByte(a, XorByte(s, k))
  {
    XorByteAt();
    SameByte(XorByte(XorByte(a, k), s), XorByte(a, XorByte(s, k)));
  }

  /** The word that starts row i + 1, as the code puts it together. */
  lemma StartWord(box: Box, key: seq<Col>, i: nat, rk: nat, n: nat, first: Col, last: Col)
    requires |key| == n >= 1 && i < 10 && rk == n * i && first == Expanded(box, key, rk)
    requires last == Expanded(box, key, rk + n - 1)
    ensures XorCol(XorCol(first, RCON(i)), Sub(box, RotWord(last))) == Expanded(box, key, rk + n)
  {
    assert (i + 1) * n == rk + n;
    DivModUnique(rk + n, n, i + 1, 0);
    RconIs(i);
    RconInFront(first, RCON(i), Sub(box, RotWord(last)));
  }

  /** The words of a key. */
  function KeyWords(key: seq<Byte>): (k: seq<Col>)
    ensures |k| == |key| / 4
  {
    seq(|key| / 4, i requires 0 <= i < |key| / 4 => Col(key[4 * i], key[4 * i + 1], key[4 * i + 2], key[4 * i + 3]))
  }

  /** Sixteen bytes as a state, column by column. */
  function StateOf(b: seq<Byte>): State
    requires |b| == 16
  {
    State(Col(b[0], b[1], b[2], b[3]), Col(b[4], b[5], b[6], b[7]),
          Col(b[8], b[9], b[10], b[11]), Col(b[12], b[13], b[14], b[15]))
  }

  function BytesOf(s: State): (b: seq<Byte>)
    ensures |b| == 16
  {
    [s.c0.r0, s.c0.r1, s.c0.r2, s.c0.r3, s.c1.r0, s.c1.r1, s.c1.r2, s.c1.r3,
     s.c2.r0, s.c2.r1, s.c2.r2, s.c2.r3, s.c3.r0, s.c3.r1, s.c3.r2, s.c3.r3]
  }

  /** Input byte r + 4c is in row r of column c, section 3.4. */
  lemma StateAt(b: seq<Byte>, r: nat, c: nat)
    requires |b| == 16 && r < 4 && c < 4
    ensures At(StateOf(b), r, c) == b[r + 4 * c]
  {
  }

  lemma StateRoundTrips(b: seq<Byte>, s: State)
    requires |b| == 16
    ensures BytesOf(StateOf(b)) == b && StateOf(BytesOf(s)) == s
  {
  }

  function Group(a: Col, b: Col, c: Col, d: Col): State {
    State(a, b, c, d)
  }

  /** The words of a schedule as round keys. */
  function Grouped(words: seq<Col>, n: nat): (keys: seq<State>)
    requires 4 * n + 4 <= |words|
    ensures |keys| == n + 1
  {
    KeyWalk.Groups(Group, words, n)
  }

  lemma WalkedSchedule(box: Box, inv: Box, drk: seq<Col>, erk: seq<Col>, n: nat)
    requires n >= 1 && 4 * n + 4 <= |erk| && 4 * n + 4 <= |drk|
    requires KeyWalk.Done(drk, erk, n, InvMixCol, n + 1)
    ensures Transformed(Aes(box, inv), Grouped(erk, n), Grouped(drk, n))
  {
    var L := Aes(box, inv);
    forall a: Col, b: Col, c: Col, d: Col
      ensures L.invMix(Group(a, b, c, d)) == Group(InvMixCol(a), InvMixCol(b), InvMixCol(c), InvMixCol(d))
    {
    }
    KeyWalk.WalkTransforms(L, Group, InvMixCol, drk, erk, n);
  }

  lemma SameKeys(box: Box, key: seq<Col>, erk: seq<Col>, n: nat)
    requires |key| >= 1 && 4 * n + 4 <= |erk| && forall j: nat :: j < 4 * n + 4 ==> erk[j] == Expanded(box, key, j)
    ensures Grouped(erk, n) == RoundKeys(box, key, n)
  {
  }

  lemma RoundsMerged(box: Box, inv: Box)
    ensures Merged(Aes(box, inv), (k, s) => RRound(inv, k, s), (k, s) => RLast(inv, k, s))
  {
    var L := Aes(box, inv);
    forall k: State, s: State ensures RRound(inv, k, s) == L.add(L.invMix(L.invSub(L.invShift(s))), k) {
      RRoundIs(inv, k, s);
    }
    forall k: State, s: State ensures RLast(inv, k, s) == L.add(L.invSub(L.invShift(s)), k) {
      RLastIs(inv, k, s);
    }
  }

  lemma NextWord(box: Box, key: seq<Col>, i: nat, rk: nat, n: nat, r: nat)
    requires n in {4, 6, 8} && |key| == n && 1 <= r < n && !(n == 8 && r == 4) && rk == n * i
    ensures Expanded(box, key, rk + n + r) == XorCol(Expanded(box, key, rk + r), Expanded(box, key, rk + n + r - 1))
  {
    assert (i + 1) * n == rk + n;
    DivModUnique(rk + n + r, n, i + 1, r);
  }

  class AesContext {
    const fsb: Box
    const rsb: Box
    const erk: array<Col>
    const drk: array<Col>
    var nr: nat

    constructor ()
      ensures fsb == FSB && rsb == RSB && erk.Length == 64 && drk.Length == 64 && erk != drk && fresh(erk) && fresh(drk)
    {
      fsb, rsb := FSB, RSB;
      erk := new Col[64](_ => Col(0, 0, 0, 0));
      drk := new Col[64](_ => Col(0, 0, 0, 0));
      nr := 0;
    }

    ghost predicate Filled(key: seq<Col>, n: nat)
      requires |key| >= 1
      reads this, erk
    {
      erk.Length == 64 && n <= 64 && forall j: nat :: j < n ==> erk[j] == Expanded(fsb, key, j)
    }

    /** The next word in its place. */
    method Put(ghost key: seq<Col>, j: nat, w: Col)
      requires |key| >= 1 && j < 64 && Filled(key, j) && w == Expanded(fsb, key, j)
      modifies erk
      ensures Filled(key, j + 1)
    {
      erk[j] := w;
    }

    /** The word that starts a row: rotated, substituted, with the round constant. */
    method Start(ghost key: seq<Col>, n: nat, rk: nat, i: nat)
      requires n in {4, 6, 8} && |key| == n && i < 10 && rk == n * i && rk + n < 64
      requires Filled(key, rk + n)
      modifies erk
      ensures Filled(key, rk + n + 1)
    {
      var last := erk[rk + n - 1];
      StartWord(fsb, key, i, rk, n, erk[rk], last);
      Put(key, rk + n, XorCol(XorCol(erk[rk], RCON(i)), Col(fsb[last.r1], fsb[last.r2], fsb[last.r3], fsb[last.r0])));
    }

    /** A word that is the sum of the one before it and the one a row back. */
    method Next(ghost key: seq<Col>, n: nat, rk: nat, ghost i: nat, r: nat)
      requires n in {4, 6, 8} && |key| == n && 1 <= r < n && !(n == 8 && r == 4)
      requires rk == n * i && rk + n + r < 64
      requires Filled(key, rk + n + r)
      modifies erk
      ensures Filled(key, rk + n + r + 1)
    {
      NextWord(fsb, key, i, rk, n, r);
      Put(key, rk + n + r, XorCol(erk[rk + r], erk[rk + n + r - 1]));
    }

    /** The middle word of a row of eight: substituted, not rotated. */
    method Middle(ghost key: seq<Col>, i: nat)
      requires |key| == 8 && 8 * (i + 1) + 4 < 64
      requires Filled(key, 8 * (i + 1) + 4)
      modifies erk
      ensures Filled(key, 8 * (i + 1) + 5)
    {
      var rk := 8 * i;
      DivModUnique(rk + 12, 8, i + 1, 4);
      var last := erk[rk + 11];
      Put(key, rk + 12, XorCol(erk[rk + 4], Col(fsb[last.r0], fsb[last.r1], fsb[last.r2], fsb[last.r3])));
    }

    method Expand4(ghost key: seq<Col>)
      requires |key| == 4 && Filled(key, 4)
      modifies erk
      ensures Filled(key, 44)
    {
      for i := 0 to 10
        invariant Filled(key, 4 * i + 4)
      {
        Start(key, 4, 4 * i, i);
        Next(key, 4, 4 * i, i, 1);
        Next(key, 4, 4 * i, i, 2);
        Next(key, 4, 4 * i, i, 3);
      }
    }

    method Expand6(ghost key: seq<Col>)
      requires |key| == 6 && Filled(key, 6)
      modifies erk
      ensures Filled(key, 54)
    {
      for i := 0 to 8
        invariant Filled(key, 6 * i + 6)
      {
        Start(key, 6, 6 * i, i);
        Next(key, 6, 6 * i, i, 1);
        Next(key, 6, 6 * i, i, 2);
        Next(key, 6, 6 * i, i, 3);
        Next(key, 6, 6 * i, i, 4);
        Next(key, 6, 6 * i, i, 5);
      }
    }

    method Expand8(ghost key: seq<Col>)
      requires |key| == 8 && Filled(key, 8)
      modifies erk
      ensures Filled(key, 64)
    {
      for i := 0 to 7
        invariant Filled(key, 8 * i + 8)
      {
        Start(key, 8, 8 * i, i);
        Next(key, 8, 8 * i, i, 1);
        Next(key, 8, 8 * i, i, 2);
        Next(key, 8, 8 * i, i, 3);
        Middle(key, i);
        Next(key, 8, 8 * i, i, 5);
        Next(key, 8, 8 * i, i, 6);
        Next(key, 8, 8 * i, i, 7);
      }
    }

    /** The context is set up for a key. */
    ghost predicate Ready(key: seq<Col>)
      reads this, erk, drk
    {
      && |key| in {4, 6, 8} && nr == |key| + 6
      && drk.Length == 64 && erk != drk && Filled(key, 4 * nr + 4)
      && KeyWalk.Done(drk[..], erk[..], nr, InvMixCol, nr + 1)
    }

    /** Loads the key words and expands them. */
    method ExpandKey(key: seq<Byte>)
      requires erk.Length == 64 && |key| in {16, 24, 32}
      modifies erk
      ensures Filled(KeyWords(key), |key| + 28)
    {
      var words := KeyWords(key);
      for i := 0 to |key| / 4
        invariant Filled(words, i)
      {
        erk[i] := Col(key[4 * i], key[4 * i + 1], key[4 * i + 2], key[4 * i + 3]);
      }
      if |key| == 16 {
        Expand4(words);
      } else if |key| == 24 {
        Expand6(words);
      } else {
        Expand8(words);
      }
    }

    /** Sets up both schedules, for the three key sizes there are. */
    method AesSetKey(kt: KeyTables, key: seq<Byte>, nbits: int) returns (r: int)
      requires erk.Length == 64 && drk.Length == 64 && erk != drk
      requires kt.Valid() && kt.kt != erk && kt.kt != drk
      requires nbits in {128, 192, 256} ==> 8 * |key| >= nbits
      modifies this, erk, drk, kt, kt.kt
      ensures kt.Valid()
      ensures r == if nbits in {128, 192, 256} then 0 else 1
      ensures r == 0 ==> Ready(KeyWords(key[..nbits / 8]))
      ensures r == 1 ==> nr == old(nr) && erk[..] == old(erk[..]) && drk[..] == old(drk[..])
    {
      if nbits != 128 && nbits != 192 && nbits != 256 {
        return 1;
      }
      nr := if nbits == 128 then 10 else if nbits == 192 then 12 else 14;
      ExpandKey(key[..nbits / 8]);
      kt.Build();
      var tables := kt.kt[..];
      ReverseSchedule(tables, kt.fsb, kt.rsb);
      return 0;
    }

    method ReverseSchedule(tables: seq<Col>, ghost f: Box, ghost r: Box)
      requires erk.Length == 64 && drk.Length == 64 && erk != drk && nr in {10, 12, 14}
      requires Inverses(f, r) && |tables| == 256 && forall b: Byte :: tables[b] == RT0(r, f[b])
      modifies drk
      ensures KeyWalk.Done(drk[..], erk[..], nr, InvMixCol, nr + 1)
    {
      var mix := (c: Col) => if |tables| == 256 then ThroughTables(tables, c) else c;
      KeyWalk.WalkBack(erk, drk, nr, mix);
      forall c: Col ensures mix(c) == InvMixCol(c) {
        ThroughTablesMixes(f, r, tables, c);
      }
      KeyWalk.SameMix(drk[..], erk[..], nr, mix, InvMixCol, nr + 1);
    }

    /** Decrypts one block: the inverse cipher of section 5.3 under the round keys of section 5.2. */
    method AesDecrypt(input: seq<Byte>, ghost key: seq<Col>) returns (output: seq<Byte>)
      requires |input| == 16 && Ready(key) && Inverses(fsb, rsb)
      ensures output == BytesOf(InvCipher(Aes(fsb, rsb), RoundKeys(fsb, key, nr), StateOf(input)))
    {
      var s := DecryptState(StateOf(input), key);
      output := BytesOf(s);
    }

    method DecryptState(y: State, ghost key: seq<Col>) returns (s: State)
      requires Ready(key)
      ensures s == InvCipher(Aes(fsb, rsb), RoundKeys(fsb, key, nr), y)
    {
      RoundsMerged(fsb, rsb);
      s := RoundCipher.Decrypt(Aes(fsb, rsb), (k, s) => RRound(rsb, k, s), (k, s) => RLast(rsb, k, s),
                               Grouped(drk[..], nr), y);
      ScheduleMeaning(key, y);
    }

    lemma ScheduleMeaning(key: seq<Col>, y: State)
      requires Ready(key)
      ensures EqInvCipher(Aes(fsb, rsb), Grouped(drk[..], nr), y)
              == InvCipher(Aes(fsb, rsb), RoundKeys(fsb, key, nr), y)
    {
      SchedulesAgree(key);
      EquivalentInverse(Aes(fsb, rsb), RoundKeys(fsb, key, nr), Grouped(drk[..], nr), y);
    }

    lemma SchedulesAgree(key: seq<Col>)
      requires Ready(key)
      ensures Linearly(Aes(fsb, rsb))
      ensures Transformed(Aes(fsb, rsb), RoundKeys(fsb, key, nr), Grouped(drk[..], nr))
    {
      AesLinear(fsb, rsb);
      SameKeys(fsb, key, erk[..], nr);
      WalkedSchedule(fsb, rsb, drk[..], erk[..], nr);
    }
  }

  /** What the context decrypts to is what the cipher of section 5.1 encrypted, for every key and block. */
  lemma DecryptionInvertsCipher(key: seq<Col>, n: nat, x: State)
    requires |key| >= 1 && n >= 1
    ensures var L, keys := Aes(FSB, RSB), RoundKeys(FSB, key, n);
            InvCipher(L, keys, Cipher(L, keys, x)) == x
  {
    BoxesInverse();
    AesLawful(FSB, RSB);
    InvCipherInverts(Aes(FSB, RSB), RoundKeys(FSB, key, n), x);
  }

  /** The same on sixteen octets, the form in which blocks go in and come out. */
  lemma BlockRoundTrips(key: seq<Col>, n: nat, block: seq<Byte>)
    requires |key| >= 1 && n >= 1 && |block| == 16
    ensures var L, keys := Aes(FSB, RSB), RoundKeys(FSB, key, n);
            var sent := BytesOf(Cipher(L, keys, StateOf(block)));
            BytesOf(InvCipher(L, keys, StateOf(sent))) == block
  {
    var L, keys := Aes(FSB, RSB), RoundKeys(FSB, key, n);
    StateRoundTrips(block, Cipher(L, keys, StateOf(block)));
    DecryptionInvertsCipher(key, n, StateOf(block));
  }
}
