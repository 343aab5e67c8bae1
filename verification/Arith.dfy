/** Facts about division and remainder that the other modules share. */
module Arith {

  /** The remainder of `k` by `n`, by taking `n` away: the position reached after
      `k` steps round a circle of `n`. */
  function Wrap(k: nat, n: nat): (r: nat)
    requires n > 0
    ensures r < n
    decreases k
  {
    if k < n then k else Wrap(k - n, n)
  }

  lemma {:induction false} WrapNext(k: nat, n: nat)
    requires n > 0
    ensures Wrap(k + 1, n) == if Wrap(k, n) + 1 == n then 0 else Wrap(k, n) + 1
    decreases k
  {
    if k >= n {
      WrapNext(k - n, n);
    }
  }

  lemma {:induction false} WrapPlus(k: nat, d: nat, n: nat)
    requires n > 0
    ensures Wrap(Wrap(k, n) + d, n) == Wrap(k + d, n)
    decreases k
  {
    if k >= n {
      WrapPlus(k - n, d, n);
    }
  }

  lemma {:induction false} WrapIsMod(k: nat, n: nat)
    requires n > 0
    ensures Wrap(k, n) == k % n
    decreases k
  {
    if k < n {
      DivModUnique(k, n, 0, k);
    } else {
      WrapIsMod(k - n, n);
      var q := (k - n) / n;
      assert k - n == n * q + (k - n) % n;
      assert n * (q + 1) == n * q + n;
      DivModUnique(k, n, q + 1, (k - n) % n);
    }
  }

  lemma MulAtLeast(n: nat, k: int)
    requires k >= 1
    ensures n * k >= n
  {
  }

  lemma DivModUnique(a: int, n: nat, q: int, r: nat)
    requires a == n * q + r && r < n
    ensures a / n == q && a % n == r
  {
    var d := q - a / n;
    assert n * d == a % n - r by {
      assert a == n * (a / n) + a % n;
      assert n * d == n * q - n * (a / n);
    }
    if d >= 1 {
      MulAtLeast(n, d);
    } else if d <= -1 {
      MulAtLeast(n, -d);
    }
  }
}
