/** Bit strings as natural numbers: bit i of x, shifts, masks and bitwise or.
    C's unsigned words are natural numbers below a power of two; every place where
    the program truncates or wraps says so. */
module Bits {

  function Pow2(n: nat): (p: nat)
    ensures p >= 1
  {
    if n == 0 then 1 else 2 * Pow2(n - 1)
  }

  /** Bit i of x, least significant first. */
  predicate Bit(x: nat, i: nat)
    decreases x, i
  {
    if i == 0 then x % 2 == 1 else Bit(x / 2, i - 1)
  }

  /** x >> k */
  function Shr(x: nat, k: nat): nat
    decreases x, k
  {
    if k == 0 then x else Shr(x / 2, k - 1)
  }

  /** x << k, in unbounded arithmetic. */
  function Shl(x: nat, k: nat): nat
    decreases x, k
  {
    if k == 0 then x else 2 * Shl(x, k - 1)
  }

  /** x & ((1 << k) - 1) */
  function Low(x: nat, k: nat): nat
    decreases x, k
  {
    if k == 0 then 0 else x % 2 + 2 * Low(x / 2, k - 1)
  }

  /** x | y */
  function Or(x: nat, y: nat): nat
    decreases x + y
  {
    if x == 0 then y
    else if y == 0 then x
    else (if x % 2 == 1 || y % 2 == 1 then 1 else 0) + 2 * Or(x / 2, y / 2)
  }

  lemma {:induction false} BitZero(i: nat)
    ensures !Bit(0, i)
  {
    if i > 0 { BitZero(i - 1); }
  }

  lemma {:induction false} BitOr(x: nat, y: nat, i: nat)
    ensures Bit(Or(x, y), i) <==> Bit(x, i) || Bit(y, i)
    decreases i
  {
    BitZero(i);
    if i > 0 && x != 0 && y != 0 {
      BitOr(x / 2, y / 2, i - 1);
    }
  }

  lemma {:induction false} BitShr(x: nat, k: nat, i: nat)
    ensures Bit(Shr(x, k), i) == Bit(x, i + k)
    decreases k
  {
    if k > 0 { BitShr(x / 2, k - 1, i); }
  }

  lemma {:induction false} BitShl(x: nat, k: nat, i: nat)
    ensures Bit(Shl(x, k), i) <==> i >= k && Bit(x, i - k)
    decreases k
  {
    if k > 0 && i > 0 {
      assert Shl(x, k) / 2 == Shl(x, k - 1);
      BitShl(x, k - 1, i - 1);
    }
  }

  lemma {:induction false} BitLow(x: nat, k: nat, i: nat)
    ensures Bit(Low(x, k), i) <==> i < k && Bit(x, i)
    decreases k
  {
    BitZero(i);
    if k > 0 && i > 0 {
      assert Low(x, k) / 2 == Low(x / 2, k - 1);
      BitLow(x / 2, k - 1, i - 1);
    }
  }

  lemma {:induction false} LowBound(x: nat, k: nat)
    ensures Low(x, k) < Pow2(k)
    decreases k
  {
    if k > 0 { LowBound(x / 2, k - 1); }
  }

  lemma {:induction false} LowId(x: nat, k: nat)
    requires x < Pow2(k)
    ensures Low(x, k) == x
    decreases k
  {
    if k > 0 { LowId(x / 2, k - 1); }
  }

  /** A number is determined by its bits. */
  lemma {:induction false} BitsExt(x: nat, y: nat)
    requires forall i: nat :: Bit(x, i) == Bit(y, i)
    ensures x == y
    decreases x + y
  {
    if x > 0 || y > 0 {
      assert Bit(x, 0) == Bit(y, 0);
      forall i: nat
        ensures Bit(x / 2, i) == Bit(y / 2, i)
      {
        assert Bit(x, i + 1) == Bit(y, i + 1);
      }
      BitsExt(x / 2, y / 2);
    }
  }

  lemma {:induction false} OrBound(x: nat, y: nat, k: nat)
    requires x < Pow2(k) && y < Pow2(k)
    ensures Or(x, y) < Pow2(k)
    decreases k
  {
    if x != 0 && y != 0 && k > 0 { OrBound(x / 2, y / 2, k - 1); }
  }

  lemma {:induction false} ShlIsTimes(x: nat, k: nat)
    ensures Shl(x, k) == x * Pow2(k)
    decreases k
  {
    if k > 0 { ShlIsTimes(x, k - 1); }
  }

  lemma {:induction false} ShrIsDiv(x: nat, k: nat)
    ensures Shr(x, k) == x / Pow2(k)
    decreases k
  {
    if k > 0 {
      ShrIsDiv(x / 2, k - 1);
      HalfDivMod(x, Pow2(k - 1));
    }
  }

  lemma {:induction false} LowIsMod(x: nat, k: nat)
    ensures Low(x, k) == x % Pow2(k)
    decreases k
  {
    if k > 0 {
      LowIsMod(x / 2, k - 1);
      HalfDivMod(x, Pow2(k - 1));
    }
  }

  /** Division by 2p in two steps. */
  lemma HalfDivMod(x: nat, p: nat)
    requires p > 0
    ensures x / (2 * p) == (x / 2) / p
    ensures x % (2 * p) == x % 2 + 2 * ((x / 2) % p)
  {
    var h := x / 2;
    var q, r := h / p, h % p;
    assert h == p * q + r;
    Assoc(2, p, q);
    ModUnique(x, 2 * p, q, x % 2 + 2 * r);
  }

  lemma Assoc(a: int, b: int, c: int)
    ensures (a * b) * c == a * (b * c)
  {
  }

  /** A quotient and a small remainder are the quotient and the remainder. */
  lemma ModUnique(x: nat, d: nat, q: nat, r: nat)
    requires d > 0 && r < d && x == d * q + r
    ensures x / d == q && x % d == r
  {
    var q', r' := x / d, x % d;
    assert x == d * q' + r';
    if q > q' {
      MulStep(d, q', q);
    } else if q < q' {
      MulStep(d, q, q');
    }
  }

  lemma MulStep(d: nat, a: nat, b: nat)
    requires a < b
    ensures d * a + d <= d * b
  {
    assert d * b == d * a + d * (b - a);
    MulAtLeast(d, b - a);
  }

  lemma {:induction false} MulAtLeast(d: nat, k: nat)
    requires k >= 1
    ensures d * k >= d
  {
    if k > 1 {
      MulAtLeast(d, k - 1);
      assert d * k == d * (k - 1) + d;
    }
  }

  /** Or of a multiple of 2^k and a number below 2^k is their sum. */
  lemma {:induction false} OrAdd(h: nat, x: nat, k: nat)
    requires x < Pow2(k)
    ensures Or(h * Pow2(k), x) == h * Pow2(k) + x
    decreases k
  {
    if k > 0 {
      var y := h * Pow2(k - 1);
      assert h * Pow2(k) == 2 * y;
      OrAdd(h, x / 2, k - 1);
    }
  }

  /** A field written in two parts is put together again. */
  lemma {:induction false} LowSplit(v: nat, k: nat, n: nat)
    ensures Low(Shr(v, k), n) * Pow2(k) + Low(v, k) == Low(v, n + k)
    decreases k
  {
    if k > 0 {
      LowSplit(v / 2, k - 1, n);
      Double(Low(Shr(v, k), n), Pow2(k - 1));
    }
  }

  lemma Double(h: nat, p: nat)
    ensures h * (2 * p) == 2 * (h * p)
  {
  }

  lemma OrCommutes(x: nat, y: nat)
    ensures Or(x, y) == Or(y, x)
  {
    forall i: nat
      ensures Bit(Or(x, y), i) == Bit(Or(y, x), i)
    {
      BitOr(x, y, i);
      BitOr(y, x, i);
    }
    BitsExt(Or(x, y), Or(y, x));
  }
}
