/** Facts about positions on a ring whose size is a variable. */
module Modular {

  lemma MultipleIsFar(d: int, n: int)
    requires 0 < n
    ensures d >= 1 ==> d * n >= n
    ensures d <= -1 ==> d * n <= -n
  {
    if d >= 1 {
      assert d * n == (d - 1) * n + n;
    } else if d <= -1 {
      assert d * n == (d + 1) * n - n;
    }
  }

  /** The only quotient and remainder are the ones / and % give. */
  lemma DivModUnique(x: int, n: int, q: int, r: int)
    requires 0 < n && 0 <= r < n && x == q * n + r
    ensures x / n == q && x % n == r
  {
    var d := x / n - q;
    assert x == (x / n) * n + x % n;
    assert d * n == r - x % n;
    MultipleIsFar(d, n);
  }

  /** Positions up to one turn past the start. */
  lemma Wrap(x: nat, n: nat)
    requires x < 2 * n
    ensures x % n == if x < n then x else x - n
  {
    DivModUnique(x, n, if x < n then 0 else 1, if x < n then x else x - n);
  }

  /** The next position, as INC_RING_INDEX and the queue's Tail compute it. */
  lemma WrapStep(x: nat, n: nat)
    requires 0 < n
    ensures (x + 1) % n == if x % n + 1 == n then 0 else x % n + 1
    ensures (x % n + 1) % n == (x + 1) % n
  {
    var r := x % n;
    assert x == (x / n) * n + r;
    if r + 1 == n {
      assert x + 1 == (x / n + 1) * n + 0;
      DivModUnique(x + 1, n, x / n + 1, 0);
      DivModUnique(r + 1, n, 1, 0);
    } else {
      DivModUnique(x + 1, n, x / n, r + 1);
      DivModUnique(r + 1, n, 0, r + 1);
    }
  }

  /** Two positions less than a turn apart share a cell only if they are the same. */
  lemma WrapInjective(x: nat, y: nat, n: nat)
    requires x <= y < x + n && x % n == y % n
    ensures x == y
  {
    assert x == (x / n) * n + x % n;
    assert y == (y / n) * n + y % n;
    var d := y / n - x / n;
    assert y - x == d * n;
    MultipleIsFar(d, n);
  }

  /** Adding an offset to a wrapped position and wrapping again. */
  lemma WrapAdd(x: nat, k: nat, n: nat)
    requires 0 < n
    ensures (x % n + k) % n == (x + k) % n
  {
    var s := x % n + k;
    assert x + k == (x / n + s / n) * n + s % n by {
      assert x == (x / n) * n + x % n;
      assert s == (s / n) * n + s % n;
    }
    DivModUnique(x + k, n, x / n + s / n, s % n);
  }
}
