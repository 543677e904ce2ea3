// The walk that turns an encryption key schedule into a decryption one: four
// words at a time from the end, the inner ones put through a mixing function.
// The words and the mixing are parameters.
module KeyWalk {
  import opened RoundCipher

  /** The word at place c of round r of the decryption schedule. */
  function Word<C>(erk: seq<C>, n: nat, mix: C -> C, r: nat, c: nat): C
    requires r <= n && c < 4 && 4 * n + 4 <= |erk|
  {
    var w := erk[4 * (n - r) + c];
    if r == 0 || r == n then w else mix(w)
  }

  /** The first i rounds of the schedule are done. */
  ghost predicate Done<C>(drk: seq<C>, erk: seq<C>, n: nat, mix: C -> C, i: nat)
    requires i <= n + 1 && 4 * n + 4 <= |erk| && 4 * n + 4 <= |drk|
  {
    forall r: nat, c: nat {:trigger Word(erk, n, mix, r, c)} :: r < i && c < 4 ==>
      drk[4 * r + c] == Word(erk, n, mix, r, c)
  }

  /** Four words in place make one more round. */
  lemma OneMore<C>(was: seq<C>, drk: seq<C>, erk: seq<C>, n: nat, mix: C -> C, i: nat)
    requires i <= n && 4 * n + 4 <= |erk| && 4 * n + 4 <= |drk| == |was|
    requires Done(was, erk, n, mix, i) && drk[..4 * i] == was[..4 * i]
    requires drk[4 * i] == Word(erk, n, mix, i, 0) && drk[4 * i + 1] == Word(erk, n, mix, i, 1)
    requires drk[4 * i + 2] == Word(erk, n, mix, i, 2) && drk[4 * i + 3] == Word(erk, n, mix, i, 3)
    ensures Done(drk, erk, n, mix, i + 1)
  {
    forall r: nat, c: nat | r < i + 1 && c < 4 ensures drk[4 * r + c] == Word(erk, n, mix, r, c) {
      if r < i {
        assert drk[..4 * i][4 * r + c] == was[..4 * i][4 * r + c];
        assert was[4 * r + c] == Word(erk, n, mix, r, c);
      } else if c == 0 {
      } else if c == 1 {
      } else if c == 2 {
      }
    }
  }

  /** The walk depends on the mixing function's values only. */
  lemma SameMix<C(!new)>(drk: seq<C>, erk: seq<C>, n: nat, mix: C -> C, other: C -> C, i: nat)
    requires i <= n + 1 && 4 * n + 4 <= |erk| && 4 * n + 4 <= |drk|
    requires Done(drk, erk, n, mix, i) && forall c :: mix(c) == other(c)
    ensures Done(drk, erk, n, other, i)
  {
    forall r: nat, c: nat | r < i && c < 4 ensures drk[4 * r + c] == Word(erk, n, other, r, c) {
      assert drk[4 * r + c] == Word(erk, n, mix, r, c);
    }
  }

  method WalkBack<C>(erk: array<C>, drk: array<C>, nr: nat, mix: C -> C)
    requires nr >= 1 && 4 * nr + 4 <= erk.Length && 4 * nr + 4 <= drk.Length && erk != drk
    modifies drk
    ensures Done(drk[..], erk[..], nr, mix, nr + 1)
  {
    var rk, sk := 4 * nr, 0;
    ghost var before := drk[..];
    drk[sk], drk[sk + 1], drk[sk + 2], drk[sk + 3] := erk[rk], erk[rk + 1], erk[rk + 2], erk[rk + 3];
    OneMore(before, drk[..], erk[..], nr, mix, 0);
    rk, sk := rk + 4, sk + 4;
    for i := 1 to nr
      invariant sk == 4 * i && rk == 4 * (nr - i) + 8
      invariant Done(drk[..], erk[..], nr, mix, i)
    {
      rk := rk - 8;
      before := drk[..];
      drk[sk], drk[sk + 1] := mix(erk[rk]), mix(erk[rk + 1]);
      drk[sk + 2], drk[sk + 3] := mix(erk[rk + 2]), mix(erk[rk + 3]);
      OneMore(before, drk[..], erk[..], nr, mix, i);
      rk, sk := rk + 4, sk + 4;
    }
    rk := rk - 8;
    before := drk[..];
    drk[sk], drk[sk + 1], drk[sk + 2], drk[sk + 3] := erk[rk], erk[rk + 1], erk[rk + 2], erk[rk + 3];
    OneMore(before, drk[..], erk[..], nr, mix, nr);
  }

  /** The words of a schedule, four to a round key. */
  function Groups<C, S>(group: (C, C, C, C) -> S, words: seq<C>, n: nat): (keys: seq<S>)
    requires 4 * n + 4 <= |words|
    ensures |keys| == n + 1
  {
    seq(n + 1, r requires 0 <= r <= n => group(words[4 * r], words[4 * r + 1], words[4 * r + 2], words[4 * r + 3]))
  }

  /** Reversed and mixed word by word is what the equivalent inverse cipher asks of its schedule. */
  lemma WalkTransforms<C(!new), S(!new)>(L: Layers<S>, group: (C, C, C, C) -> S, mix: C -> C,
                                         drk: seq<C>, erk: seq<C>, n: nat)
    requires n >= 1 && 4 * n + 4 <= |erk| && 4 * n + 4 <= |drk|
    requires forall a, b, c, d {:trigger L.invMix(group(a, b, c, d))} ::
               L.invMix(group(a, b, c, d)) == group(mix(a), mix(b), mix(c), mix(d))
    requires Done(drk, erk, n, mix, n + 1)
    ensures Transformed(L, Groups(group, erk, n), Groups(group, drk, n))
  {
    var keys, dkeys := Groups(group, erk, n), Groups(group, drk, n);
    forall r: nat | r <= n
      ensures dkeys[r] == if r == 0 || r == n then keys[n - r] else L.invMix(keys[n - r])
    {
      assert drk[4 * r + 0] == Word(erk, n, mix, r, 0);
      assert drk[4 * r + 1] == Word(erk, n, mix, r, 1);
      assert drk[4 * r + 2] == Word(erk, n, mix, r, 2);
      assert drk[4 * r + 3] == Word(erk, n, mix, r, 3);
    }
  }
}
