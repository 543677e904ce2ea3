// A cipher in rounds of substitution, permutation, mixing and key addition,
// its inverse, and the equivalent inverse: sections 5.1, 5.3 and 5.3.5 of
// FIPS 197, over any state type whose layers obey the laws AES's do.
module RoundCipher {
  datatype Layers<!S> = Layers(
    sub: S -> S,
    invSub: S -> S,
    shift: S -> S,
    invShift: S -> S,
    mix: S -> S,
    invMix: S -> S,
    add: (S, S) -> S)

  /** Mixing is linear. */
  ghost predicate Linearly<S(!new)>(L: Layers<S>) {
    forall s, k {:trigger L.invMix(L.add(s, k))} :: L.invMix(L.add(s, k)) == L.add(L.invMix(s), L.invMix(k))
  }

  /** The inverse layers undo the layers. */
  ghost predicate Lawful<S(!new)>(L: Layers<S>) {
    && (forall s :: L.invSub(L.invShift(L.shift(L.sub(s)))) == s)
    && (forall s :: L.invMix(L.mix(s)) == s)
    && (forall s, k :: L.add(L.add(s, k), k) == s)
    && Linearly(L)
  }

  /** The last round of either inverse: no mixing. */
  function Final<S>(L: Layers<S>, s: S, k: S): S {
    L.add(L.invSub(L.invShift(s)), k)
  }

  // ----- the cipher, section 5.1 -----

  /** The state after r of the full rounds. */
  function Rounds<S>(L: Layers<S>, keys: seq<S>, x: S, r: nat): S
    requires r < |keys|
  {
    if r == 0 then L.add(x, keys[0])
    else L.add(L.mix(L.shift(L.sub(Rounds(L, keys, x, r - 1)))), keys[r])
  }

  function Cipher<S>(L: Layers<S>, keys: seq<S>, x: S): S
    requires |keys| >= 2
  {
    var n := |keys| - 1;
    L.add(L.shift(L.sub(Rounds(L, keys, x, n - 1))), keys[n])
  }

  // ----- the inverse cipher, section 5.3 -----

  function InvRounds<S>(L: Layers<S>, keys: seq<S>, y: S, r: nat): S
    requires r < |keys|
  {
    var n := |keys| - 1;
    if r == 0 then L.add(y, keys[n])
    else L.invMix(L.add(L.invSub(L.invShift(InvRounds(L, keys, y, r - 1))), keys[n - r]))
  }

  function InvCipher<S>(L: Layers<S>, keys: seq<S>, y: S): S
    requires |keys| >= 2
  {
    Final(L, InvRounds(L, keys, y, |keys| - 2), keys[0])
  }

  /** Each round of the inverse cipher takes back a round of the cipher. */
  lemma {:induction false} RoundsUndone<S(!new)>(L: Layers<S>, keys: seq<S>, x: S, r: nat)
    requires Lawful(L) && r + 1 < |keys|
    ensures InvRounds(L, keys, Cipher(L, keys, x), r) == L.shift(L.sub(Rounds(L, keys, x, |keys| - 2 - r)))
  {
    if r > 0 {
      RoundsUndone(L, keys, x, r - 1);
      var k := |keys| - 1 - r;
      assert Rounds(L, keys, x, k) == L.add(L.mix(L.shift(L.sub(Rounds(L, keys, x, k - 1)))), keys[k]);
    }
  }

  /** The inverse cipher inverts the cipher, for every key schedule and number of rounds. */
  lemma InvCipherInverts<S(!new)>(L: Layers<S>, keys: seq<S>, x: S)
    requires Lawful(L) && |keys| >= 2
    ensures InvCipher(L, keys, Cipher(L, keys, x)) == x
  {
    RoundsUndone(L, keys, x, |keys| - 2);
    assert Rounds(L, keys, x, 0) == L.add(x, keys[0]);
  }

  // ----- the equivalent inverse cipher, section 5.3.5 -----

  /** The schedule the equivalent form uses: reversed, its inner keys put through the inverse mixing. */
  ghost predicate Transformed<S>(L: Layers<S>, keys: seq<S>, dkeys: seq<S>) {
    && |dkeys| == |keys| >= 2
    && dkeys[0] == keys[|keys| - 1] && dkeys[|keys| - 1] == keys[0]
    && forall r: nat :: 0 < r < |keys| - 1 ==> dkeys[r] == L.invMix(keys[|keys| - 1 - r])
  }

  function EqRounds<S>(L: Layers<S>, dkeys: seq<S>, y: S, r: nat): S
    requires r < |dkeys|
  {
    if r == 0 then L.add(y, dkeys[0])
    else L.add(L.invMix(L.invSub(L.invShift(EqRounds(L, dkeys, y, r - 1)))), dkeys[r])
  }

  function EqInvCipher<S>(L: Layers<S>, dkeys: seq<S>, y: S): S
    requires |dkeys| >= 2
  {
    var n := |dkeys| - 1;
    Final(L, EqRounds(L, dkeys, y, n - 1), dkeys[n])
  }

  lemma {:induction false} EquivalentRounds<S(!new)>(L: Layers<S>, keys: seq<S>, dkeys: seq<S>, y: S, r: nat)
    requires Linearly(L) && Transformed(L, keys, dkeys) && r + 1 < |keys|
    ensures EqRounds(L, dkeys, y, r) == InvRounds(L, keys, y, r)
  {
    if r > 0 {
      EquivalentRounds(L, keys, dkeys, y, r - 1);
    }
  }

  /** With the transformed schedule the merged rounds compute the plain inverse cipher. */
  lemma EquivalentInverse<S(!new)>(L: Layers<S>, keys: seq<S>, dkeys: seq<S>, y: S)
    requires Linearly(L) && Transformed(L, keys, dkeys)
    ensures EqInvCipher(L, dkeys, y) == InvCipher(L, keys, y)
  {
    var n := |keys| - 1;
    EquivalentRounds(L, keys, dkeys, y, n - 1);
    LastRound(L, dkeys, y, keys, n, EqRounds(L, dkeys, y, n - 1));
  }

  lemma LastRound<S(!new)>(L: Layers<S>, dkeys: seq<S>, y: S, keys: seq<S>, n: nat, s: S)
    requires n >= 1 && |dkeys| == |keys| == n + 1 && dkeys[n] == keys[0]
    requires s == EqRounds(L, dkeys, y, n - 1) == InvRounds(L, keys, y, n - 1)
    ensures EqInvCipher(L, dkeys, y) == InvCipher(L, keys, y)
  {
  }

  // ----- the rounds unrolled -----

  /** What a merged round and the last round have to compute. */
  ghost predicate Merged<S(!new)>(L: Layers<S>, round: (S, S) -> S, last: (S, S) -> S) {
    && (forall k, s :: round(k, s) == L.add(L.invMix(L.invSub(L.invShift(s))), k))
    && (forall k, s :: last(k, s) == L.add(L.invSub(L.invShift(s)), k))
  }

  lemma OneRound<S(!new)>(L: Layers<S>, round: (S, S) -> S, last: (S, S) -> S, dkeys: seq<S>, y: S, s: S, r: nat)
    requires Merged(L, round, last) && 1 <= r < |dkeys| && s == EqRounds(L, dkeys, y, r - 1)
    ensures round(dkeys[r], s) == EqRounds(L, dkeys, y, r)
  {
  }

  /** Nine rounds, two more for twelve and two more for fourteen, and the last one. */
  method Decrypt<S(!new)>(L: Layers<S>, round: (S, S) -> S, last: (S, S) -> S, dkeys: seq<S>, y: S) returns (out: S)
    requires |dkeys| in {11, 13, 15} && Merged(L, round, last)
    ensures out == EqInvCipher(L, dkeys, y)
  {
    var X := L.add(y, dkeys[0]);
    var Y;
    X, Y := TwoRounds(L, round, last, dkeys, y, X, 1);
    X, Y := TwoRounds(L, round, last, dkeys, y, X, 3);
    X, Y := TwoRounds(L, round, last, dkeys, y, X, 5);
    X, Y := TwoRounds(L, round, last, dkeys, y, X, 7);
    OneRound(L, round, last, dkeys, y, X, 9);
    Y := round(dkeys[9], X);
    if |dkeys| > 11 {
      Y := NextTwo(L, round, last, dkeys, y, Y, 10);
    }
    if |dkeys| > 13 {
      Y := NextTwo(L, round, last, dkeys, y, Y, 12);
    }
    out := last(dkeys[|dkeys| - 1], Y);
  }

  /** A round into Y and a round back into X. */
  method TwoRounds<S(!new)>(L: Layers<S>, round: (S, S) -> S, last: (S, S) -> S, dkeys: seq<S>, y: S, s: S, r: nat)
    returns (X: S, Y: S)
    requires Merged(L, round, last) && 1 <= r && r + 1 < |dkeys| && s == EqRounds(L, dkeys, y, r - 1)
    ensures Y == EqRounds(L, dkeys, y, r) && X == EqRounds(L, dkeys, y, r + 1)
  {
    OneRound(L, round, last, dkeys, y, s, r);
    Y := round(dkeys[r], s);
    OneRound(L, round, last, dkeys, y, Y, r + 1);
    X := round(dkeys[r + 1], Y);
  }

  method NextTwo<S(!new)>(L: Layers<S>, round: (S, S) -> S, last: (S, S) -> S, dkeys: seq<S>, y: S, s: S, r: nat)
    returns (Y: S)
    requires Merged(L, round, last) && 1 <= r && r + 1 < |dkeys| && s == EqRounds(L, dkeys, y, r - 1)
    ensures Y == EqRounds(L, dkeys, y, r + 1)
  {
    var X;
    Y, X := TwoRounds(L, round, last, dkeys, y, s, r);
  }
}
