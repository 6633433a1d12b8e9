/** Python's `&` on non-negative integers, bit by bit from the least significant. */
module Bitwise {

  function Pow2(k: nat): (p: nat)
    ensures p >= 1
  {
    if k == 0 then 1 else 2 * Pow2(k - 1)
  }

  lemma {:induction false} Pow2Add(a: nat, b: nat)
    ensures Pow2(a + b) == Pow2(a) * Pow2(b)
  {
    if a > 0 {
      Pow2Add(a - 1, b);
      assert Pow2(a + b) == 2 * Pow2(a - 1 + b);
    }
  }

  /** Python's `2 ** 31`. */
  lemma Pow2Of31()
    ensures Pow2(31) == 0x8000_0000
  {
    assert Pow2(8) == 0x100;
    assert Pow2(7) == 0x80;
    Pow2Add(8, 8);
    Pow2Add(16, 8);
    Pow2Add(24, 7);
  }

  /** `a & b` for `a, b >= 0`; it never exceeds either operand. */
  function And(a: nat, b: nat): (r: nat)
    ensures r <= a && r <= b
    decreases a
  {
    if a == 0 || b == 0 then 0
    else 2 * And(a / 2, b / 2) + (if a % 2 == 1 && b % 2 == 1 then 1 else 0)
  }

  /** Quotient and remainder are the only ones with their defining properties. */
  lemma DivModUnique(x: int, d: int, q: int, r: int)
    requires d > 0 && x == d * q + r && 0 <= r < d
    ensures x / d == q && x % d == r
  {
    var k := q - x / d;
    assert x == d * (x / d) + x % d;
    assert d * k == x % d - r;
    ProductBound(d, k);
  }

  /** A non-zero multiple of `d` is at least `d` away from zero. */
  lemma {:induction false} ProductBound(d: nat, k: int)
    ensures k >= 1 ==> d * k >= d
    ensures k <= -1 ==> d * k <= 0 - d
    decreases if k < 0 then -k else k
  {
    if k > 1 {
      ProductBound(d, k - 1);
      assert d * k == d * (k - 1) + d;
    } else if k < -1 {
      ProductBound(d, k + 1);
      assert d * k == d * (k + 1) - d;
    }
  }

  /** The low `k` bits of `x`, as a number. */
  function Low(k: nat, x: nat): nat {
    if k == 0 then 0 else 2 * Low(k - 1, x / 2) + x % 2
  }

  /** The bits of `x` above the low `k`, shifted down: `x >> k`. */
  function High(k: nat, x: nat): nat {
    if k == 0 then x else High(k - 1, x / 2)
  }

  /** `x` is its low `k` bits plus `2^k` times the rest. */
  lemma {:induction false} SplitBits(k: nat, x: nat)
    ensures Low(k, x) < Pow2(k)
    ensures x == Low(k, x) + Pow2(k) * High(k, x)
  {
    if k > 0 {
      var p, h := Pow2(k - 1), High(k, x);
      SplitBits(k - 1, x / 2);
      assert x / 2 == Low(k - 1, x / 2) + p * h;
      assert Pow2(k) * h == 2 * (p * h);
    }
  }

  /** Masking with `2^k - 1` keeps the low `k` bits. */
  lemma {:induction false} AndLowMask(k: nat, x: nat)
    ensures And(Pow2(k) - 1, x) == Low(k, x)
  {
    if k > 0 {
      var m := Pow2(k - 1) - 1;
      var a := Pow2(k) - 1;
      assert a == 2 * m + 1;
      DivModUnique(a, 2, m, 1);
      AndLowMask(k - 1, x / 2);
      if x > 0 {
        assert And(a, x) == 2 * And(m, x / 2) + (if x % 2 == 1 then 1 else 0);
      }
    }
  }

  /** Masking with `2^k` keeps bit `k`, in place. */
  lemma {:induction false} AndSingleBit(k: nat, x: nat)
    ensures And(Pow2(k), x) == if High(k, x) % 2 == 1 then Pow2(k) else 0
  {
    if k == 0 {
      if x > 0 {
        assert And(1, x) == 2 * And(0, x / 2) + (if x % 2 == 1 then 1 else 0);
      }
    } else {
      var m := Pow2(k - 1);
      var p := Pow2(k);
      assert p == 2 * m;
      DivModUnique(p, 2, m, 0);
      AndSingleBit(k - 1, x / 2);
      assert High(k, x) == High(k - 1, x / 2);
      if x > 0 {
        assert And(p, x) == 2 * And(m, x / 2);
      }
    }
  }

  /** A 32-bit number split at bit 31. */
  lemma SplitAt31(x: nat, low: nat, high: nat)
    requires x < 0x1_0000_0000 && low < 0x8000_0000 && x == low + 0x8000_0000 * high
    ensures high == if x < 0x8000_0000 then 0 else 1
    ensures low == if x < 0x8000_0000 then x else x - 0x8000_0000
  {
  }

  /** `(2 ** 31 - 1) & x` for a 32-bit `x`: bit 31 cleared. */
  lemma AndLow31(x: nat)
    requires x < 0x1_0000_0000
    ensures And(0x7FFF_FFFF, x) == if x < 0x8000_0000 then x else x - 0x8000_0000
  {
    Pow2Of31();
    AndLowMask(31, x);
    SplitBits(31, x);
    SplitAt31(x, Low(31, x), High(31, x));
  }

  /** `2 ** 31 & x` for a 32-bit `x` is non-zero exactly when bit 31 is set. */
  lemma AndBit31(x: nat)
    requires x < 0x1_0000_0000
    ensures (And(0x8000_0000, x) != 0) == (x >= 0x8000_0000)
  {
    var high := High(31, x);
    Pow2Of31();
    SplitBits(31, x);
    SplitAt31(x, Low(31, x), high);
    assert (high % 2 == 1) == (x >= 0x8000_0000);
    AndSingleBit(31, x);
  }
}
