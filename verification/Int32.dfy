/** JavaScript's 32-bit bitwise operators on numbers (sections 6.1.6.1.9 to 6.1.6.1.20
    of ECMA-262), and bit strings. */
module Int32 {
  import opened Arithmetic

  const TWO32: int := 0x1_0000_0000

  function Pow2(k: nat): (p: nat)
    ensures p > 0
  {
    if k == 0 then 1 else 2 * Pow2(k - 1)
  }

  function ToUint32(x: int): int { x % TWO32 }

  function ToInt32(x: int): int {
    if x % TWO32 >= 0x8000_0000 then x % TWO32 - TWO32 else x % TWO32
  }

  function OrBits(a: nat, b: nat): nat
    decreases a + b
  {
    if a == 0 then b else if b == 0 then a
    else 2 * OrBits(a / 2, b / 2) + (if a % 2 == 1 || b % 2 == 1 then 1 else 0)
  }

  function AndBits(a: nat, b: nat): nat
    decreases a + b
  {
    if a == 0 || b == 0 then 0
    else 2 * AndBits(a / 2, b / 2) + (if a % 2 == 1 && b % 2 == 1 then 1 else 0)
  }

  /** x << k, x >>> k, x | y, x & y */
  function Shl(x: int, k: nat): int { ToInt32(ToUint32(x) * Pow2(k)) }

  function Shr(x: int, k: nat): int { ToUint32(x) / Pow2(k) }

  function Or(x: int, y: int): int { ToInt32(OrBits(ToUint32(x), ToUint32(y))) }

  function And(x: int, y: int): int { ToInt32(AndBits(ToUint32(x), ToUint32(y))) }

  lemma Unsigned(x: int)
    ensures ToUint32(ToInt32(x)) == ToUint32(x) && 0 <= ToUint32(x) < TWO32
  {
  }

  /** Or-ing into zero bits adds. */
  lemma {:induction false} OrAdds(a: nat, b: nat, k: nat)
    requires b < Pow2(k)
    ensures OrBits(a * Pow2(k), b) == a * Pow2(k) + b
    decreases k
  {
    if a == 0 {
      assert a * Pow2(k) == 0;
    } else if k > 0 {
      var h := a * Pow2(k - 1);
      assert a * Pow2(k) == 2 * h;
      OrAdds(a, b / 2, k - 1);
    }
  }

  /** And-ing with k ones is the remainder by 2^k. */
  lemma {:induction false} AndMasks(a: nat, k: nat)
    ensures AndBits(a, Pow2(k) - 1) == a % Pow2(k)
    decreases k
  {
    hide AndBits;
    if k == 0 {
      AndZero(a);
    } else {
      AndMasks(a / 2, k - 1);
      AndStep(a, Pow2(k - 1));
      HalveMod(a, Pow2(k - 1));
    }
  }

  lemma AndZero(a: nat)
    ensures AndBits(a, 0) == 0
  {
  }

  lemma AndStep(a: nat, p: nat)
    requires p > 0
    ensures AndBits(a, 2 * p - 1) == 2 * AndBits(a / 2, p - 1) + a % 2
  {
    assert (2 * p - 1) / 2 == p - 1 && (2 * p - 1) % 2 == 1;
  }

  lemma HalveMod(a: nat, p: nat)
    requires p > 0
    ensures a % (2 * p) == 2 * ((a / 2) % p) + a % 2
  {
    var q, r := (a / 2) / p, (a / 2) % p;
    assert a / 2 == p * q + r;
    assert a == (2 * p) * q + (2 * r + a % 2);
    ModUnique(a, 2 * p, q, 2 * r + a % 2);
  }

  // ── Bit strings, most significant bit first ───────────────────────────────

  type Bits = seq<bool>

  function Val(s: Bits): nat {
    if s == [] then 0 else 2 * Val(s[..|s| - 1]) + (if s[|s| - 1] then 1 else 0)
  }

  function BitsOf(v: nat, n: nat): (s: Bits)
    ensures |s| == n
  {
    if n == 0 then [] else BitsOf(v / 2, n - 1) + [v % 2 == 1]
  }

  lemma {:induction false} ValBound(s: Bits)
    ensures Val(s) < Pow2(|s|)
  {
    if s != [] { ValBound(s[..|s| - 1]); }
  }

  lemma {:induction false} ValOfBits(v: nat, n: nat)
    requires v < Pow2(n)
    ensures Val(BitsOf(v, n)) == v
    decreases n
  {
    if n > 0 {
      ValOfBits(v / 2, n - 1);
      assert BitsOf(v, n)[..n - 1] == BitsOf(v / 2, n - 1);
    }
  }

  lemma {:induction false} BitsOfVal(s: Bits)
    ensures BitsOf(Val(s), |s|) == s
    decreases |s|
  {
    if s != [] {
      BitsOfVal(s[..|s| - 1]);
      assert s == s[..|s| - 1] + [s[|s| - 1]];
    }
  }

  lemma {:induction false} ValConcat(a: Bits, b: Bits)
    ensures Val(a + b) == Val(a) * Pow2(|b|) + Val(b)
    decreases |b|
  {
    if b == [] {
      assert a + b == a;
    } else {
      var b' := b[..|b| - 1];
      assert (a + b)[..|a + b| - 1] == a + b';
      ValConcat(a, b');
      assert Pow2(|b|) == 2 * Pow2(|b'|);
      Twice(Val(a), Pow2(|b'|));
    }
  }

  lemma {:induction false} Pow2Adds(a: nat, b: nat)
    ensures Pow2(a + b) == Pow2(a) * Pow2(b)
    decreases b
  {
    if b > 0 {
      Pow2Adds(a, b - 1);
      assert Pow2(a) * Pow2(b) == 2 * (Pow2(a) * Pow2(b - 1));
    }
  }
}
