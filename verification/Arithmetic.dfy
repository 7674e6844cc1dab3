/** Quotients and remainders, for the proofs. */
module Arithmetic {
  lemma ModUnique(a: int, p: int, q: int, r: int)
    requires p > 0 && 0 <= r < p && a == p * q + r
    ensures a % p == r && a / p == q
  {
    var q', r' := a / p, a % p;
    assert a == p * q' + r';
    QuotientUnique(p, q, r, q', r');
  }

  lemma QuotientUnique(p: int, q: int, r: int, q': int, r': int)
    requires 0 <= r < p && 0 <= r' < p && p * q + r == p * q' + r'
    ensures q == q' && r == r'
  {
    assert p * (q - q') == r' - r;
    assert p * (q' - q) == r - r';
    if q > q' { Grows(p, q - q'); }
    if q < q' { Grows(p, q' - q); }
  }

  lemma Grows(p: int, n: int)
    requires p > 0 && n > 0
    ensures p * n >= p
  {
  }

  lemma Twice(x: int, y: int)
    ensures x * (2 * y) == 2 * (x * y)
  {
  }

  /** Whole multiples of k do not change the remainder by k. */
  lemma ModShift(a: int, n: int, k: int)
    requires k > 0
    ensures (a - n * k) % k == a % k
  {
    Regroup(k, a / k, n, a % k);
    ModUnique(a - n * k, k, a / k - n, a % k);
  }

  lemma Regroup(k: int, q: int, n: int, r: int)
    ensures k * q + r - n * k == k * (q - n) + r
  {
  }

  /** Counting multiples: the quotient grows by one exactly on reaching the next one. */
  lemma NextMultiple(a: int, n: int, k: int)
    requires k > 1
    ensures (a - n * k) / k == (a - n * k - 1) / k + if a % k == 0 then 1 else 0
  {
    var q, r := a / k, a % k;
    Regroup(k, q, n, r);
    ModUnique(a - n * k, k, q - n, r);
    if r == 0 {
      Regroup(k, q, n + 1, k - 1);
      Distribute(n, k);
      ModUnique(a - n * k - 1, k, q - n - 1, k - 1);
    } else {
      ModUnique(a - n * k - 1, k, q - n, r - 1);
    }
  }

  lemma Distribute(n: int, k: int)
    ensures (n + 1) * k == n * k + k
  {
  }

  lemma MultipleOfBoth(a: int, m: int, k: int)
    requires m > 0 && k > 0 && k * m > 0 && a % (k * m) == 0
    ensures a % k == 0
  {
    var q := a / (k * m);
    assert a == (k * m) * q == k * (m * q);
    ModUnique(a, k, m * q, 0);
  }
}
