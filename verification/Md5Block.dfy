// The MD5 block function of Module/md5.c against section 3.4 of RFC 1321.
module Md5Block {
  import opened Words

  datatype Hash = Hash(a: Word, b: Word, c: Word, d: Word)

  // ----- the definition -----

  /** Four operations: which message words and which entries of the sine table they use. */
  datatype Row = Row(k: seq<nat>, t: seq<Word>)

  type Table = rows: seq<Row>
    | |rows| == 16 && forall q :: 0 <= q < 16 ==> Four(rows[q])
    witness seq(16, _ => Row([0, 0, 0, 0], [0, 0, 0, 0]))

  predicate Four(r: Row) {
    |r.k| == 4 && |r.t| == 4 && forall j :: 0 <= j < 4 ==> r.k[j] < 16
  }

  /** The operations of round 1, section 3.4 of RFC 1321. */
  const ROUND1: seq<Row> := [
    Row([0, 1, 2, 3], [0xd76aa478, 0xe8c7b756, 0x242070db, 0xc1bdceee]),
    Row([4, 5, 6, 7], [0xf57c0faf, 0x4787c62a, 0xa8304613, 0xfd469501]),
    Row([8, 9, 10, 11], [0x698098d8, 0x8b44f7af, 0xffff5bb1, 0x895cd7be]),
    Row([12, 13, 14, 15], [0x6b901122, 0xfd987193, 0xa679438e, 0x49b40821])
  ]

  /** The operations of round 2, section 3.4 of RFC 1321. */
  const ROUND2: seq<Row> := [
    Row([1, 6, 11, 0], [0xf61e2562, 0xc040b340, 0x265e5a51, 0xe9b6c7aa]),
    Row([5, 10, 15, 4], [0xd62f105d, 0x02441453, 0xd8a1e681, 0xe7d3fbc8]),
    Row([9, 14, 3, 8], [0x21e1cde6, 0xc33707d6, 0xf4d50d87, 0x455a14ed]),
    Row([13, 2, 7, 12], [0xa9e3e905, 0xfcefa3f8, 0x676f02d9, 0x8d2a4c8a])
  ]

  /** The operations of round 3, section 3.4 of RFC 1321. */
  const ROUND3: seq<Row> := [
    Row([5, 8, 11, 14], [0xfffa3942, 0x8771f681, 0x6d9d6122, 0xfde5380c]),
    Row([1, 4, 7, 10], [0xa4beea44, 0x4bdecfa9, 0xf6bb4b60, 0xbebfbc70]),
    Row([13, 0, 3, 6], [0x289b7ec6, 0xeaa127fa, 0xd4ef3085, 0x04881d05]),
    Row([9, 12, 15, 2], [0xd9d4d039, 0xe6db99e5, 0x1fa27cf8, 0xc4ac5665])
  ]

  /** The operations of round 4, section 3.4 of RFC 1321. */
  const ROUND4: seq<Row> := [
    Row([0, 7, 14, 5], [0xf4292244, 0x432aff97, 0xab9423a7, 0xfc93a039]),
    Row([12, 3, 10, 1], [0x655b59c3, 0x8f0ccc92, 0xffeff47d, 0x85845dd1]),
    Row([8, 15, 6, 13], [0x6fa87e4f, 0xfe2ce6e0, 0xa3014314, 0x4e0811a1]),
    Row([4, 11, 2, 9], [0xf7537e82, 0xbd3af235, 0x2ad7d2bb, 0xeb86d391])
  ]

  const OPERATIONS: Table := ROUND1 + ROUND2 + ROUND3 + ROUND4

  /** Round 1 takes the message words in order, the others in steps of 5, 3 and 7. */
  lemma WordOrder1(q: nat, j: nat)
    requires q < 4 && j < 4
    ensures ROUND1[q].k[j] == 4 * q + j
  {
  }

  lemma WordOrder2(q: nat, j: nat)
    requires q < 4 && j < 4
    ensures ROUND2[q].k[j] == (5 * (4 * q + j) + 1) % 16
  {
  }

  lemma WordOrder3(q: nat, j: nat)
    requires q < 4 && j < 4
    ensures ROUND3[q].k[j] == (3 * (4 * q + j) + 5) % 16
  {
  }

  lemma WordOrder4(q: nat, j: nat)
    requires q < 4 && j < 4
    ensures ROUND4[q].k[j] == 7 * (4 * q + j) % 16
  {
  }

  /** The auxiliary function of round i / 16. */
  function Aux(i: nat, x: Word, y: Word, z: Word): Word {
    if i < 16 then Or(And(x, y), And(Not(x), z))
    else if i < 32 then Or(And(x, z), And(y, Not(z)))
    else if i < 48 then Xor(Xor(x, y), z)
    else Xor(y, Or(x, Not(z)))
  }

  /** How far the operation in place j of a row of round r + 1 rotates. */
  function Amount(r: nat, j: nat): (s: nat)
    requires j < 4
    ensures s < 32
  {
    if r == 0 then (if j == 0 then 7 else if j == 1 then 12 else if j == 2 then 17 else 22)
    else if r == 1 then (if j == 0 then 5 else if j == 1 then 9 else if j == 2 then 14 else 20)
    else if r == 2 then (if j == 0 then 4 else if j == 1 then 11 else if j == 2 then 16 else 23)
    else (if j == 0 then 6 else if j == 1 then 10 else if j == 2 then 15 else 21)
  }

  /**
   * The registers after n operations [abcd k s i]: each computes a new b and
   * passes the other three on to the next place.
   */
  function Steps(h: Hash, X: seq<Word>, T: Table, n: nat): Hash
    requires n <= 64 && |X| == 16
    decreases X, n, 0
  {
    if n == 0 then h
    else
      var p := Steps(h, X, T, n - 1);
      Hash(p.d, NewB(h, X, T, n - 1), p.b, p.c)
  }

  /** b + ((a + F(b, c, d) + X[k] + T[i / 4].t[i % 4]) <<< s) */
  function NewB(h: Hash, X: seq<Word>, T: Table, i: nat): Word
    requires i < 64 && |X| == 16
    decreases X, i, 2
  {
    Add(Rotl(Sum(h, X, T, i), Amount(i / 16, i % 4)), Steps(h, X, T, i).b)
  }

  function Sum(h: Hash, X: seq<Word>, T: Table, i: nat): Word
    requires i < 64 && |X| == 16
    decreases X, i, 1
  {
    var p := Steps(h, X, T, i);
    Add(p.a, Add(Aux(i, p.b, p.c, p.d), Add(X[T[i / 4].k[i % 4]], T[i / 4].t[i % 4])))
  }

  function Plus(g: Hash, h: Hash): Hash {
    Hash(Add(g.a, h.a), Add(g.b, h.b), Add(g.c, h.c), Add(g.d, h.d))
  }

  function Compress(h: Hash, X: seq<Word>): Hash
    requires |X| == 16
  {
    Plus(h, Steps(h, X, OPERATIONS, 64))
  }

  // ----- the code -----

  function F1(x: Word, y: Word, z: Word): Word { Xor(z, And(x, Xor(y, z))) }
  function F2(x: Word, y: Word, z: Word): Word { F1(z, x, y) }
  function F3(x: Word, y: Word, z: Word): Word { Xor(Xor(x, y), z) }
  function F4(x: Word, y: Word, z: Word): Word { Xor(y, Or(x, Not(z))) }

  function Md5Step1(w: Word, x: Word, y: Word, z: Word, data: Word, s: nat): Word
    requires s <= 32
  {
    Add(Rotl(Add(w, Add(F1(x, y, z), data)), s), x)
  }

  function Md5Step2(w: Word, x: Word, y: Word, z: Word, data: Word, s: nat): Word
    requires s <= 32
  {
    Add(Rotl(Add(w, Add(F2(x, y, z), data)), s), x)
  }

  function Md5Step3(w: Word, x: Word, y: Word, z: Word, data: Word, s: nat): Word
    requires s <= 32
  {
    Add(Rotl(Add(w, Add(F3(x, y, z), data)), s), x)
  }

  function Md5Step4(w: Word, x: Word, y: Word, z: Word, data: Word, s: nat): Word
    requires s <= 32
  {
    Add(Rotl(Add(w, Add(F4(x, y, z), data)), s), x)
  }

  /** A line of round 1 is step i of the definition. */
  lemma Line1(h: Hash, X: seq<Word>, T: Table, i: nat, w: Word, x: Word, y: Word, z: Word)
    requires 0 <= i < 16 && |X| == 16 && Steps(h, X, T, i) == Hash(w, x, y, z)
    ensures Steps(h, X, T, i + 1)
            == Hash(z, Md5Step1(w, x, y, z,
                    Add(X[T[i / 4].k[i % 4]], T[i / 4].t[i % 4]), Amount(i / 16, i % 4)), x, y)
  {
    Select(x, y, z);
    assert F1(x, y, z) == Aux(i, x, y, z);
    assert NewB(h, X, T, i) == Add(Rotl(Sum(h, X, T, i), Amount(i / 16, i % 4)), x);
  }

  /** A line of round 2 is step i of the definition. */
  lemma Line2(h: Hash, X: seq<Word>, T: Table, i: nat, w: Word, x: Word, y: Word, z: Word)
    requires 16 <= i < 32 && |X| == 16 && Steps(h, X, T, i) == Hash(w, x, y, z)
    ensures Steps(h, X, T, i + 1)
            == Hash(z, Md5Step2(w, x, y, z,
                    Add(X[T[i / 4].k[i % 4]], T[i / 4].t[i % 4]), Amount(i / 16, i % 4)), x, y)
  {
    SelectByLast(x, y, z);
    assert F2(x, y, z) == Aux(i, x, y, z);
    assert NewB(h, X, T, i) == Add(Rotl(Sum(h, X, T, i), Amount(i / 16, i % 4)), x);
  }

  /** A line of round 3 is step i of the definition. */
  lemma Line3(h: Hash, X: seq<Word>, T: Table, i: nat, w: Word, x: Word, y: Word, z: Word)
    requires 32 <= i < 48 && |X| == 16 && Steps(h, X, T, i) == Hash(w, x, y, z)
    ensures Steps(h, X, T, i + 1)
            == Hash(z, Md5Step3(w, x, y, z,
                    Add(X[T[i / 4].k[i % 4]], T[i / 4].t[i % 4]), Amount(i / 16, i % 4)), x, y)
  {
    assert F3(x, y, z) == Aux(i, x, y, z);
    assert NewB(h, X, T, i) == Add(Rotl(Sum(h, X, T, i), Amount(i / 16, i % 4)), x);
  }

  /** A line of round 4 is step i of the definition. */
  lemma Line4(h: Hash, X: seq<Word>, T: Table, i: nat, w: Word, x: Word, y: Word, z: Word)
    requires 48 <= i < 64 && |X| == 16 && Steps(h, X, T, i) == Hash(w, x, y, z)
    ensures Steps(h, X, T, i + 1)
            == Hash(z, Md5Step4(w, x, y, z,
                    Add(X[T[i / 4].k[i % 4]], T[i / 4].t[i % 4]), Amount(i / 16, i % 4)), x, y)
  {
    assert F4(x, y, z) == Aux(i, x, y, z);
    assert NewB(h, X, T, i) == Add(Rotl(Sum(h, X, T, i), Amount(i / 16, i % 4)), x);
  }

  lemma PlaceInRow(q: nat, j: nat)
    requires j < 4
    ensures (4 * q + j) / 4 == q && (4 * q + j) % 4 == j && (4 * q + j) / 16 == q / 4
  {
  }

  /** One MD5STEP of round 1, updating register w. */
  method MD5STEP1(ghost h: Hash, X: seq<Word>, ghost T: Table, ghost i: nat, ghost q: nat, ghost j: nat,
                   w: Word, x: Word, y: Word, z: Word, k: nat, t: Word, s: nat)
    returns (w': Word)
    requires |X| == 16 && q < 4 && j < 4 && i == 4 * q + j && Steps(h, X, T, i) == Hash(w, x, y, z)
    requires k == T[q].k[j] && t == T[q].t[j] && s == Amount(0, j)
    ensures Steps(h, X, T, i + 1) == Hash(z, w', x, y)
  {
    PlaceInRow(q, j);
    Line1(h, X, T, i, w, x, y, z);
    w' := Md5Step1(w, x, y, z, Add(X[k], t), s);
  }

  /** Four lines of round 1, with its message words and constants. */
  method Lines1(ghost h: Hash, X: seq<Word>, ghost T: Table, ghost i: nat, ghost q: nat,
                 a0: Word, b0: Word, c0: Word, d0: Word, row: Row)
    returns (a: Word, b: Word, c: Word, d: Word)
    requires |X| == 16 && q < 4 && i == 4 * q && Steps(h, X, T, i) == Hash(a0, b0, c0, d0)
    requires T[q] == row
    ensures Steps(h, X, T, i + 4) == Hash(a, b, c, d)
  {
    a := MD5STEP1(h, X, T, i, q, 0, a0, b0, c0, d0, row.k[0], row.t[0], 7);
    d := MD5STEP1(h, X, T, i + 1, q, 1, d0, a, b0, c0, row.k[1], row.t[1], 12);
    c := MD5STEP1(h, X, T, i + 2, q, 2, c0, d, a, b0, row.k[2], row.t[2], 17);
    b := MD5STEP1(h, X, T, i + 3, q, 3, b0, c, d, a, row.k[3], row.t[3], 22);
  }

  /** One MD5STEP of round 2, updating register w. */
  method MD5STEP2(ghost h: Hash, X: seq<Word>, ghost T: Table, ghost i: nat, ghost q: nat, ghost j: nat,
                   w: Word, x: Word, y: Word, z: Word, k: nat, t: Word, s: nat)
    returns (w': Word)
    requires |X| == 16 && 4 <= q < 8 && j < 4 && i == 4 * q + j && Steps(h, X, T, i) == Hash(w, x, y, z)
    requires k == T[q].k[j] && t == T[q].t[j] && s == Amount(1, j)
    ensures Steps(h, X, T, i + 1) == Hash(z, w', x, y)
  {
    PlaceInRow(q, j);
    Line2(h, X, T, i, w, x, y, z);
    w' := Md5Step2(w, x, y, z, Add(X[k], t), s);
  }

  /** Four lines of round 2, with its message words and constants. */
  method Lines2(ghost h: Hash, X: seq<Word>, ghost T: Table, ghost i: nat, ghost q: nat,
                 a0: Word, b0: Word, c0: Word, d0: Word, row: Row)
    returns (a: Word, b: Word, c: Word, d: Word)
    requires |X| == 16 && 4 <= q < 8 && i == 4 * q && Steps(h, X, T, i) == Hash(a0, b0, c0, d0)
    requires T[q] == row
    ensures Steps(h, X, T, i + 4) == Hash(a, b, c, d)
  {
    a := MD5STEP2(h, X, T, i, q, 0, a0, b0, c0, d0, row.k[0], row.t[0], 5);
    d := MD5STEP2(h, X, T, i + 1, q, 1, d0, a, b0, c0, row.k[1], row.t[1], 9);
    c := MD5STEP2(h, X, T, i + 2, q, 2, c0, d, a, b0, row.k[2], row.t[2], 14);
    b := MD5STEP2(h, X, T, i + 3, q, 3, b0, c, d, a, row.k[3], row.t[3], 20);
  }

  /** One MD5STEP of round 3, updating register w. */
  method MD5STEP3(ghost h: Hash, X: seq<Word>, ghost T: Table, ghost i: nat, ghost q: nat, ghost j: nat,
                   w: Word, x: Word, y: Word, z: Word, k: nat, t: Word, s: nat)
    returns (w': Word)
    requires |X| == 16 && 8 <= q < 12 && j < 4 && i == 4 * q + j && Steps(h, X, T, i) == Hash(w, x, y, z)
    requires k == T[q].k[j] && t == T[q].t[j] && s == Amount(2, j)
    ensures Steps(h, X, T, i + 1) == Hash(z, w', x, y)
  {
    PlaceInRow(q, j);
    Line3(h, X, T, i, w, x, y, z);
    w' := Md5Step3(w, x, y, z, Add(X[k], t), s);
  }

  /** Four lines of round 3, with its message words and constants. */
  method Lines3(ghost h: Hash, X: seq<Word>, ghost T: Table, ghost i: nat, ghost q: nat,
                 a0: Word, b0: Word, c0: Word, d0: Word, row: Row)
    returns (a: Word, b: Word, c: Word, d: Word)
    requires |X| == 16 && 8 <= q < 12 && i == 4 * q && Steps(h, X, T, i) == Hash(a0, b0, c0, d0)
    requires T[q] == row
    ensures Steps(h, X, T, i + 4) == Hash(a, b, c, d)
  {
    a := MD5STEP3(h, X, T, i, q, 0, a0, b0, c0, d0, row.k[0], row.t[0], 4);
    d := MD5STEP3(h, X, T, i + 1, q, 1, d0, a, b0, c0, row.k[1], row.t[1], 11);
    c := MD5STEP3(h, X, T, i + 2, q, 2, c0, d, a, b0, row.k[2], row.t[2], 16);
    b := MD5STEP3(h, X, T, i + 3, q, 3, b0, c, d, a, row.k[3], row.t[3], 23);
  }

  /** One MD5STEP of round 4, updating register w. */
  method MD5STEP4(ghost h: Hash, X: seq<Word>, ghost T: Table, ghost i: nat, ghost q: nat, ghost j: nat,
                   w: Word, x: Word, y: Word, z: Word, k: nat, t: Word, s: nat)
    returns (w': Word)
    requires |X| == 16 && 12 <= q < 16 && j < 4 && i == 4 * q + j && Steps(h, X, T, i) == Hash(w, x, y, z)
    requires k == T[q].k[j] && t == T[q].t[j] && s == Amount(3, j)
    ensures Steps(h, X, T, i + 1) == Hash(z, w', x, y)
  {
    PlaceInRow(q, j);
    Line4(h, X, T, i, w, x, y, z);
    w' := Md5Step4(w, x, y, z, Add(X[k], t), s);
  }

  /** Four lines of round 4, with its message words and constants. */
  method Lines4(ghost h: Hash, X: seq<Word>, ghost T: Table, ghost i: nat, ghost q: nat,
                 a0: Word, b0: Word, c0: Word, d0: Word, row: Row)
    returns (a: Word, b: Word, c: Word, d: Word)
    requires |X| == 16 && 12 <= q < 16 && i == 4 * q && Steps(h, X, T, i) == Hash(a0, b0, c0, d0)
    requires T[q] == row
    ensures Steps(h, X, T, i + 4) == Hash(a, b, c, d)
  {
    a := MD5STEP4(h, X, T, i, q, 0, a0, b0, c0, d0, row.k[0], row.t[0], 6);
    d := MD5STEP4(h, X, T, i + 1, q, 1, d0, a, b0, c0, row.k[1], row.t[1], 10);
    c := MD5STEP4(h, X, T, i + 2, q, 2, c0, d, a, b0, row.k[2], row.t[2], 15);
    b := MD5STEP4(h, X, T, i + 3, q, 3, b0, c, d, a, row.k[3], row.t[3], 21);
  }

  method Round1(ghost h: Hash, X: seq<Word>, ghost T: Table, a0: Word, b0: Word, c0: Word, d0: Word)
    returns (a: Word, b: Word, c: Word, d: Word)
    requires |X| == 16 && T[0..4] == ROUND1 && Steps(h, X, T, 0) == Hash(a0, b0, c0, d0)
    ensures Steps(h, X, T, 16) == Hash(a, b, c, d)
  {
    assert T[0] == ROUND1[0] && T[1] == ROUND1[1] && T[2] == ROUND1[2] && T[3] == ROUND1[3];
    a, b, c, d := a0, b0, c0, d0;
    a, b, c, d := Lines1(h, X, T, 0, 0, a, b, c, d,
                        Row([0, 1, 2, 3], [0xd76aa478, 0xe8c7b756, 0x242070db, 0xc1bdceee]));
    a, b, c, d := Lines1(h, X, T, 4, 1, a, b, c, d,
                        Row([4, 5, 6, 7], [0xf57c0faf, 0x4787c62a, 0xa8304613, 0xfd469501]));
    a, b, c, d := Lines1(h, X, T, 8, 2, a, b, c, d,
                        Row([8, 9, 10, 11], [0x698098d8, 0x8b44f7af, 0xffff5bb1, 0x895cd7be]));
    a, b, c, d := Lines1(h, X, T, 12, 3, a, b, c, d,
                        Row([12, 13, 14, 15], [0x6b901122, 0xfd987193, 0xa679438e, 0x49b40821]));
  }

  method Round2(ghost h: Hash, X: seq<Word>, ghost T: Table, a0: Word, b0: Word, c0: Word, d0: Word)
    returns (a: Word, b: Word, c: Word, d: Word)
    requires |X| == 16 && T[4..8] == ROUND2 && Steps(h, X, T, 16) == Hash(a0, b0, c0, d0)
    ensures Steps(h, X, T, 32) == Hash(a, b, c, d)
  {
    assert T[4] == ROUND2[0] && T[5] == ROUND2[1] && T[6] == ROUND2[2] && T[7] == ROUND2[3];
    a, b, c, d := a0, b0, c0, d0;
    a, b, c, d := Lines2(h, X, T, 16, 4, a, b, c, d,
                        Row([1, 6, 11, 0], [0xf61e2562, 0xc040b340, 0x265e5a51, 0xe9b6c7aa]));
    a, b, c, d := Lines2(h, X, T, 20, 5, a, b, c, d,
                        Row([5, 10, 15, 4], [0xd62f105d, 0x02441453, 0xd8a1e681, 0xe7d3fbc8]));
    a, b, c, d := Lines2(h, X, T, 24, 6, a, b, c, d,
                        Row([9, 14, 3, 8], [0x21e1cde6, 0xc33707d6, 0xf4d50d87, 0x455a14ed]));
    a, b, c, d := Lines2(h, X, T, 28, 7, a, b, c, d,
                        Row([13, 2, 7, 12], [0xa9e3e905, 0xfcefa3f8, 0x676f02d9, 0x8d2a4c8a]));
  }

  method Round3(ghost h: Hash, X: seq<Word>, ghost T: Table, a0: Word, b0: Word, c0: Word, d0: Word)
    returns (a: Word, b: Word, c: Word, d: Word)
    requires |X| == 16 && T[8..12] == ROUND3 && Steps(h, X, T, 32) == Hash(a0, b0, c0, d0)
    ensures Steps(h, X, T, 48) == Hash(a, b, c, d)
  {
    assert T[8] == ROUND3[0] && T[9] == ROUND3[1] && T[10] == ROUND3[2] && T[11] == ROUND3[3];
    a, b, c, d := a0, b0, c0, d0;
    a, b, c, d := Lines3(h, X, T, 32, 8, a, b, c, d,
                        Row([5, 8, 11, 14], [0xfffa3942, 0x8771f681, 0x6d9d6122, 0xfde5380c]));
    a, b, c, d := Lines3(h, X, T, 36, 9, a, b, c, d,
                        Row([1, 4, 7, 10], [0xa4beea44, 0x4bdecfa9, 0xf6bb4b60, 0xbebfbc70]));
    a, b, c, d := Lines3(h, X, T, 40, 10, a, b, c, d,
                        Row([13, 0, 3, 6], [0x289b7ec6, 0xeaa127fa, 0xd4ef3085, 0x04881d05]));
    a, b, c, d := Lines3(h, X, T, 44, 11, a, b, c, d,
                        Row([9, 12, 15, 2], [0xd9d4d039, 0xe6db99e5, 0x1fa27cf8, 0xc4ac5665]));
  }

  method Round4(ghost h: Hash, X: seq<Word>, ghost T: Table, a0: Word, b0: Word, c0: Word, d0: Word)
    returns (a: Word, b: Word, c: Word, d: Word)
    requires |X| == 16 && T[12..16] == ROUND4 && Steps(h, X, T, 48) == Hash(a0, b0, c0, d0)
    ensures Steps(h, X, T, 64) == Hash(a, b, c, d)
  {
    assert T[12] == ROUND4[0] && T[13] == ROUND4[1] && T[14] == ROUND4[2] && T[15] == ROUND4[3];
    a, b, c, d := a0, b0, c0, d0;
    a, b, c, d := Lines4(h, X, T, 48, 12, a, b, c, d,
                        Row([0, 7, 14, 5], [0xf4292244, 0x432aff97, 0xab9423a7, 0xfc93a039]));
    a, b, c, d := Lines4(h, X, T, 52, 13, a, b, c, d,
                        Row([12, 3, 10, 1], [0x655b59c3, 0x8f0ccc92, 0xffeff47d, 0x85845dd1]));
    a, b, c, d := Lines4(h, X, T, 56, 14, a, b, c, d,
                        Row([8, 15, 6, 13], [0x6fa87e4f, 0xfe2ce6e0, 0xa3014314, 0x4e0811a1]));
    a, b, c, d := Lines4(h, X, T, 60, 15, a, b, c, d,
                        Row([4, 11, 2, 9], [0xf7537e82, 0xbd3af235, 0x2ad7d2bb, 0xeb86d391]));
  }

  /** The block function as the code runs it, on the four words of the context in place. */
  method Md5Transform(buf: array<Word>, X: seq<Word>)
    requires buf.Length == 4 && |X| == 16
    modifies buf
    ensures Hash(buf[0], buf[1], buf[2], buf[3])
            == Compress(old(Hash(buf[0], buf[1], buf[2], buf[3])), X)
  {
    var a, b, c, d := buf[0], buf[1], buf[2], buf[3];
    ghost var h := Hash(a, b, c, d);
    a, b, c, d := Round1(h, X, OPERATIONS, a, b, c, d);
    a, b, c, d := Round2(h, X, OPERATIONS, a, b, c, d);
    a, b, c, d := Round3(h, X, OPERATIONS, a, b, c, d);
    a, b, c, d := Round4(h, X, OPERATIONS, a, b, c, d);
    buf[0] := Add(buf[0], a);
    buf[1] := Add(buf[1], b);
    buf[2] := Add(buf[2], c);
    buf[3] := Add(buf[3], d);
  }
}
