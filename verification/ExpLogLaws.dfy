/** The laws of LOG and EXP: closed form, round trip, error bound, monotonicity, sign. */
module ExpLogLaws {
  import opened Bits
  import opened ExpLog

  /** The documented range of max_exp, in which the clean-up changes nothing. */
  predicate Documented(maxExp: nat) { 2 <= maxExp <= 31 }

  lemma WidthFits(m: nat)
    requires Documented(m)
    ensures Cleaned(m) == m && ExpBits(m) <= m < Pow2(ExpBits(m))
  {
    Powers();
    assert Pow2(2) == 4;
  }

  /** The loop's closed form: the exponent is max_exp + 1 less the leading zeros, or 0. */
  lemma ExponentClosedForm(x: nat, m: nat)
    requires x < 0x8000_0000 && Documented(m)
    ensures Exponent(x, m + 1) == if m + 1 <= Nlz(x) then 0 else m + 1 - Nlz(x)
    ensures Exponent(x, m + 1) <= m && (Exponent(x, m + 1) == 0 <==> m < Nlz(x))
    ensures Shifts(x, m + 1) == if m + 1 <= Nlz(x) then m + 1 else Nlz(x)
  {
    if x > 0 { NlzZero(x); }
  }

  lemma ManyZeros(x: nat, n: nat)
    requires 0 < x < 0x8000_0000 && n <= 31 && n < Nlz(x)
    ensures x < Pow2(31 - n)
  {
    hide Pow2, Nlz;
    var p, q := Pow2(31 - n), Pow2(n + 1);
    NlzTop(x, n + 1);
    PowAdd(31 - n, n + 1);
    Powers();
    if x >= p { Monotone(p, x, q); }
  }

  lemma FewZeros(x: nat, n: nat)
    requires 0 < x < 0x8000_0000 && Nlz(x) <= n <= 31
    ensures x >= Pow2(31 - n)
  {
    hide Pow2, Nlz;
    var p, q, r := Pow2(31 - n), Pow2(n), Pow2(Nlz(x));
    NlzTop(x, Nlz(x));
    NlzZero(x * r);
    PowMono(Nlz(x), n);
    Monotone(r, q, x);
    PowAdd(31 - n, n);
    Powers();
    assert x * r >= 0x8000_0000 && x * q >= x * r && p * q == 0x8000_0000;
    NotLess(x, p, q);
  }

  lemma NotLess(a: nat, b: nat, c: nat)
    requires c > 0 && a * c >= b * c
    ensures a >= b
  {
    if a < b { MulStep(c, a, b); }
  }

  /** Leading zeros as a bound on the number. */
  lemma NlzIsBound(x: nat, n: nat)
    requires x < 0x8000_0000 && n <= 31
    ensures Nlz(x) <= n <==> x >= Pow2(31 - n)
  {
    if x > 0 {
      if n < Nlz(x) { ManyZeros(x, n); } else { FewZeros(x, n); }
    }
  }

  lemma Monotone(a: nat, b: nat, c: nat)
    requires a <= b
    ensures a * c <= b * c
  {
  }

  lemma {:induction false} PowMono(a: nat, b: nat)
    requires a <= b
    ensures Pow2(a) <= Pow2(b)
    decreases b
  {
    if a < b { PowMono(a, b - 1); }
  }

  /* ---------- The fields of the encoding ---------- */

  /** Mantissa and exponent of an encoded number are read back. */
  lemma FieldsRead(e: nat, q: nat, n: nat)
    requires n <= 31 && e < Pow2(n) && q < Pow2(31 - n)
    ensures var l := Shl(e, 31 - n) + q;
            l < 0x8000_0000 && Shr(l, 31 - n) == e && Low(Shl(l, n + 1), 32) == Shl(q, n + 1)
  {
    hide Shl, Shr, Low, Pow2;
    var p := Pow2(31 - n);
    var l := Shl(e, 31 - n) + q;
    ShlIsTimes(e, 31 - n);
    Powers();
    PowAdd(31 - n, n);
    MulStep(p, e, Pow2(n));
    ModUnique(l, p, e, q);
    ShrIsDiv(l, 31 - n);
    LowShl(l, n + 1, 31 - n);
    LowIsMod(l, 31 - n);
  }

  lemma EncodedFields(x: nat, m: nat)
    requires x < 0x8000_0000 && Documented(m)
    ensures Encoded(x, m) < 0x8000_0000
    ensures Field(Encoded(x, m), m) == Exponent(x, m + 1) && Decodable(Encoded(x, m), m)
    ensures Low(Shl(Encoded(x, m), ExpBits(m) + 1), 32) == Shl(Shr(Shifted(x, m + 1), ExpBits(m) + 1), ExpBits(m) + 1)
  {
    hide Shl, Shr, Low, Pow2, Exponent, Shifted;
    var n := ExpBits(m);
    var e, lin := Exponent(x, m + 1), Shifted(x, m + 1);
    WidthFits(m);
    ExponentClosedForm(x, m);
    PowMono(n, n + 1);
    LowId(e, n + 1);
    Powers();
    ShrBound(lin, n + 1, 31 - n);
    FieldsRead(e, Shr(lin, n + 1), n);
  }

  /* ---------- Round trip ---------- */

  /** Division of a product by one of its factors. */
  lemma DivExact(x: nat, d: nat)
    requires d > 0
    ensures x * d / d == x && x * d % d == 0
  {
    ModUnique(x * d, d, x, 0);
  }

  /** A multiple of p modulo a multiple of p. */
  lemma ModScale(a: nat, p: nat, q: nat)
    requires p > 0 && q > 0
    ensures q * p > 0 && a * p % (q * p) == a % q * p
  {
    MulAtLeast(p, q);
    QuotientAndRest(a, q);
    ScaledParts(a, p, q, a / q, a % q);
    MulStep(p, a % q, q);
    ModUnique(a * p, q * p, a / q, a % q * p);
  }

  lemma QuotientAndRest(a: nat, q: nat)
    requires q > 0
    ensures a == q * (a / q) + a % q && a % q < q
  {
  }

  lemma ScaledParts(a: nat, p: nat, q: nat, k: nat, r: nat)
    requires a == q * k + r
    ensures a * p == (q * p) * k + r * p
  {
    assert a * p == (q * k) * p + r * p;
    Assoc(q, k, p);
    Assoc(q, p, k);
  }

  /** Clearing the low n bits. */
  lemma ClearLow(x: nat, n: nat)
    ensures Shl(Shr(x, n), n) == x - x % Pow2(n)
  {
    ShrIsDiv(x, n);
    ShlIsTimes(Shr(x, n), n);
  }

  /** A denormal keeps all its bits, one place too high. */
  lemma DenormalRoundTrip(x: nat, m: nat)
    requires x < 0x8000_0000 && Documented(m) && m < Nlz(x)
    ensures Encoded(x, m) < 0x8000_0000 && Decodable(Encoded(x, m), m)
    ensures Decoded(Encoded(x, m), m) == 2 * x
  {
    hide Shl, Shr, Low, Pow2, Exponent, Shifts, Encoded, Field, Nlz, ExpBits;
    var n := ExpBits(m);
    WidthFits(m);
    EncodedFields(x, m);
    ExponentClosedForm(x, m);
    var lin := Shifted(x, m + 1);
    assert lin == x * Pow2(m + 1);
    PowAdd(m - n, n + 1);
    Assoc(x, Pow2(m - n), Pow2(n + 1));
    DivExact(x * Pow2(m - n), Pow2(n + 1));
    ClearLow(lin, n + 1);
    assert Pow2(m + 1) == 2 * Pow2(m) by { PowStep(m); }
    assert lin == 2 * x * Pow2(m);
    DivExact(2 * x, Pow2(m));
    ShrIsDiv(lin, m);
  }

  lemma PowStep(m: nat)
    ensures Pow2(m + 1) == 2 * Pow2(m)
  {
  }

  lemma RemainderFits(x: nat, d: nat)
    requires d > 0
    ensures 0 <= x % d <= x
  {
    if x < d { ModUnique(x, d, 0, x); }
  }

  /** What a normalised number loses: its bits below the mantissa. */
  function Lost(x: nat, n: nat, z: nat): (r: nat)
    ensures r <= x
  {
    hide Pow2;
    if z < n then
      RemainderFits(x, Pow2(n - z));
      x % Pow2(n - z)
    else 0
  }

  /** Clearing n bits of a number shifted up by z places, seen from the number. */
  lemma LostIsLow(x: nat, n: nat, z: nat)
    ensures x * Pow2(z) % Pow2(n) == Lost(x, n, z) * Pow2(z)
  {
    hide Pow2;
    if z < n {
      PowAdd(n - z, z);
      ModScale(x, Pow2(z), Pow2(n - z));
    } else {
      PowAdd(z - n, n);
      Assoc(x, Pow2(z - n), Pow2(n));
      DivExact(x * Pow2(z - n), Pow2(n));
    }
  }

  lemma ModMinus(w: nat, t: nat, d: nat)
    requires d > 0 && t <= w && t % d == 0
    ensures (w - t) % d == w % d
  {
    var k, q, r := t / d, w / d, w % d;
    assert t == d * k && w == d * q + r;
    if q < k { MulStep(d, q, k); }
    assert w - t == d * (q - k) + r;
    ModUnique(w - t, d, q - k, r);
  }

  /** A halved double loses half as much. */
  lemma ClearDouble(a: nat, n: nat)
    ensures Shl(Shr(2 * a, n + 1), n + 1) / 2 == a - a % Pow2(n)
  {
    ClearLow(2 * a, n + 1);
    PowStep(n);
    ModScale(a, 2, Pow2(n));
  }

  /** The top bit is a multiple of anything the mantissa drops. */
  lemma TopIsMultiple(n: nat)
    requires n <= 31
    ensures 0x8000_0000 % Pow2(n) == 0
  {
    Powers();
    PowAdd(31 - n, n);
    DivExact(Pow2(31 - n), Pow2(n));
  }

  lemma NormalRoundTrip(x: nat, m: nat)
    requires x < 0x8000_0000 && Documented(m) && Nlz(x) <= m
    ensures Encoded(x, m) < 0x8000_0000 && Decodable(Encoded(x, m), m)
    ensures Decoded(Encoded(x, m), m) == x - Lost(x, ExpBits(m), Nlz(x))
  {
    hide Shl, Shr, Low, Pow2, Exponent, Shifts, Encoded, Field, Nlz, ExpBits, Lost;
    var n, z := ExpBits(m), Nlz(x);
    WidthFits(m);
    EncodedFields(x, m);
    ExponentClosedForm(x, m);
    ShiftedTop(x, m + 1);
    var w := x * Pow2(z);
    ClearDouble(w - 0x8000_0000, n);
    TopIsMultiple(n);
    ModMinus(w, 0x8000_0000, Pow2(n));
    LostIsLow(x, n, z);
    var kept := x - Lost(x, n, z);
    assert w - w % Pow2(n) == kept * Pow2(z) by { Distribute(x, Lost(x, n, z), Pow2(z)); }
    DivExact(kept, Pow2(z));
    ShrIsDiv(kept * Pow2(z), z);
  }

  lemma Distribute(a: nat, b: nat, c: nat)
    requires b <= a
    ensures (a - b) * c == a * c - b * c
  {
  }

  /** LOG then EXP, for every magnitude: exact down to the mantissa's last bit for a
      normalised number, exactly twice a denormal one. */
  lemma RoundTrip(x: nat, m: nat)
    requires x < 0x8000_0000 && Documented(m)
    ensures Encoded(x, m) < 0x8000_0000 && Decodable(Encoded(x, m), m)
    ensures var y, eb, nlz := Decoded(Encoded(x, m), m), ExpBits(m), Nlz(x);
            if x < Pow2(31 - m) then y == 2 * x
            else if nlz < eb then y == x - x % Pow2(eb - nlz) && 0 <= x - y < Pow2(eb - nlz)
            else y == x
  {
    hide Encoded, Decoded, Nlz, ExpBits, Pow2;
    NlzIsBound(x, m);
    if Nlz(x) <= m { NormalRoundTrip(x, m); } else { DenormalRoundTrip(x, m); }
  }

  /** The round trip is exact if and only if the number is 0, or normalised without bits
      below the mantissa. */
  lemma ExactRoundTrip(x: nat, m: nat)
    requires x < 0x8000_0000 && Documented(m)
    ensures Encoded(x, m) < 0x8000_0000 && Decodable(Encoded(x, m), m)
    ensures Decoded(Encoded(x, m), m) == x <==>
            x == 0 || (x >= Pow2(31 - m) && (Nlz(x) < ExpBits(m) ==> x % Pow2(ExpBits(m) - Nlz(x)) == 0))
  {
    hide Encoded, Decoded, Nlz, ExpBits, Pow2;
    RoundTrip(x, m);
  }

  /* ---------- Monotonicity ---------- */

  lemma NlzFalls(x: nat, y: nat)
    requires x <= y < 0x8000_0000
    ensures Nlz(y) <= Nlz(x)
  {
    hide Pow2, Nlz;
    NlzAtMost32(x);
    if Nlz(x) <= 31 {
      NlzIsBound(x, Nlz(x));
      NlzIsBound(y, Nlz(x));
    } else {
      NlzAtMost32(y);
    }
  }

  lemma {:induction false} NlzAtMost32(x: nat)
    requires x < 0x1_0000_0000
    ensures Nlz(x) <= 32
  {
    hide Pow2, Nlz;
    if x == 0 { assert Nlz(0) == 32 by { NlzOfZero(); } } else if Nlz(x) > 32 {
      NlzTop(x, 32);
      Powers();
    }
  }

  lemma NlzOfZero()
    ensures Nlz(0) == 32
  {
  }

  lemma ShrMono(x: nat, y: nat, k: nat)
    requires x <= y
    ensures Shr(x, k) <= Shr(y, k)
    decreases k
  {
    if k > 0 { ShrMono(x / 2, y / 2, k - 1); }
  }

  /** A larger magnitude has a larger encoding, across every exponent step. */
  lemma EncodedMonotone(x: nat, y: nat, m: nat)
    requires x <= y < 0x8000_0000 && Documented(m)
    ensures Encoded(x, m) <= Encoded(y, m)
  {
    hide Shl, Shr, Low, Pow2, Nlz, Exponent, Shifted, Shifts;
    var n := ExpBits(m);
    var ex, ey := Exponent(x, m + 1), Exponent(y, m + 1);
    WidthFits(m);
    NlzFalls(x, y);
    ExponentClosedForm(x, m);
    ExponentClosedForm(y, m);
    PowMono(n, n + 1);
    LowId(ex, n + 1);
    LowId(ey, n + 1);
    ShlIsTimes(ex, 31 - n);
    ShlIsTimes(ey, 31 - n);
    if ex == ey {
      ShiftedMono(x, y, m);
      ShrMono(Shifted(x, m + 1), Shifted(y, m + 1), n + 1);
    } else {
      Powers();
      ShrBound(Shifted(x, m + 1), n + 1, 31 - n);
      MulStep(Pow2(31 - n), ex, ey);
    }
  }

  lemma ShiftedMono(x: nat, y: nat, m: nat)
    requires x <= y < 0x8000_0000 && Documented(m) && Exponent(x, m + 1) == Exponent(y, m + 1)
    ensures Shifted(x, m + 1) <= Shifted(y, m + 1)
  {
    hide Nlz, Pow2, Shifts;
    Monotone(x, y, Pow2(Shifts(x, m + 1)));
  }

  /** What the two instructions compute on 32-bit words. */
  function Log(x: nat, maxExp: nat, signCtrl: nat): nat
    requires x < 0x1_0000_0000 && Encoded(Magnitude(x), maxExp) < 0x1_0000_0000
  {
    Signed(Encoded(Magnitude(x), maxExp), x >= 0x8000_0000, signCtrl)
  }

  function Exp(l: nat, maxExp: nat, signCtrl: nat): nat
    requires l < 0x1_0000_0000 && Decodable(Magnitude(l), maxExp) && Decoded(Magnitude(l), maxExp) < 0x1_0000_0000
  {
    Signed(Decoded(Magnitude(l), maxExp), l >= 0x8000_0000, signCtrl)
  }

  /** A word as a two's complement number. */
  function AsInt(x: nat): int { if x >= 0x8000_0000 then x - 0x1_0000_0000 else x }

  lemma LogFits(x: nat, m: nat)
    requires x < 0x1_0000_0000 && Documented(m)
    ensures Encoded(Magnitude(x), m) < 0x8000_0000
  {
    hide Encoded, Decoded;
    EncodedFields(Magnitude(x), m);
  }

  /** log1 is monotone over all signed words when the sign is kept. */
  lemma LogMonotone(x: nat, y: nat, m: nat)
    requires x < 0x1_0000_0000 && y < 0x1_0000_0000 && Documented(m) && AsInt(x) <= AsInt(y)
    ensures Encoded(Magnitude(x), m) < 0x8000_0000 && Encoded(Magnitude(y), m) < 0x8000_0000
    ensures AsInt(Log(x, m, 0)) <= AsInt(Log(y, m, 0))
  {
    hide Encoded;
    LogFits(x, m);
    LogFits(y, m);
    if x < 0x8000_0000 && y < 0x8000_0000 { EncodedMonotone(x, y, m); }
    if x >= 0x8000_0000 && y >= 0x8000_0000 { EncodedMonotone(Magnitude(y), Magnitude(x), m); }
  }

  /* ---------- Sign control ---------- */

  lemma ExpFits(x: nat, m: nat, signCtrl: nat)
    requires x < 0x1_0000_0000 && Documented(m)
    ensures Encoded(Magnitude(x), m) < 0x8000_0000
    ensures Magnitude(Log(x, m, signCtrl)) == Encoded(Magnitude(x), m)
    ensures Decodable(Encoded(Magnitude(x), m), m) && Decoded(Encoded(Magnitude(x), m), m) < 0x8000_0000
  {
    hide Encoded, Decoded, Decodable, Nlz, Pow2, ExpBits;
    LogFits(x, m);
    RoundTrip(Magnitude(x), m);
    Powers();
    PowMono(31 - m, 30);
    PowStep(30);
  }

  /** LOG then EXP with the same sign control: 0 and 3 restore the sign, 1 gives the
      magnitude and 2 its complement. */
  lemma SignControl(x: nat, m: nat, signCtrl: nat)
    requires x < 0x1_0000_0000 && Documented(m)
    ensures Encoded(Magnitude(x), m) < 0x8000_0000
    ensures Decodable(Magnitude(Log(x, m, signCtrl)), m)
    ensures Decoded(Magnitude(Log(x, m, signCtrl)), m) < 0x8000_0000
    ensures var y := Decoded(Encoded(Magnitude(x), m), m);
            Exp(Log(x, m, signCtrl), m, signCtrl) ==
            match signCtrl % 4
            case 1 => y
            case 2 => Complement(y)
            case _ => if x >= 0x8000_0000 then Complement(y) else y
  {
    hide Encoded, Decoded, Decodable;
    ExpFits(x, m, signCtrl);
  }

  /** With the sign kept, complementing the input complements the output. */
  lemma ComplementCommutes(x: nat, m: nat)
    requires x < 0x1_0000_0000 && Documented(m)
    ensures Magnitude(Complement(x)) == Magnitude(x) && Encoded(Magnitude(x), m) < 0x8000_0000
    ensures Decodable(Magnitude(Log(x, m, 0)), m) && Decoded(Magnitude(Log(x, m, 0)), m) < 0x8000_0000
    ensures Decodable(Magnitude(Log(Complement(x), m, 0)), m) && Decoded(Magnitude(Log(Complement(x), m, 0)), m) < 0x8000_0000
    ensures Log(Complement(x), m, 0) == Complement(Log(x, m, 0))
    ensures Exp(Log(Complement(x), m, 0), m, 0) == Complement(Exp(Log(x, m, 0), m, 0))
  {
    hide Encoded, Decoded, Decodable;
    SignControl(x, m, 0);
    SignControl(Complement(x), m, 0);
  }

  /* ---------- The composition ---------- */

  /** The largest number of a length. */
  lemma AllOnesShape(z: nat)
    requires 1 <= z <= 31
    ensures 0 < Pow2(32 - z) - 1 < 0x8000_0000 && Nlz(Pow2(32 - z) - 1) == z
  {
    hide Nlz, Pow2;
    Powers();
    PowMono(32 - z, 31);
    PowStep(31 - z);
    NlzIsBound(Pow2(32 - z) - 1, z);
    NlzIsBound(Pow2(32 - z) - 1, z - 1);
  }

  lemma AllOnesLost(n: nat, z: nat)
    requires 1 <= z < n <= 5
    ensures (Pow2(32 - z) - 1) % Pow2(n - z) == Pow2(n - z) - 1
  {
    hide Pow2;
    PowAdd(32 - n, n - z);
    AllOnesMod(Pow2(32 - n), Pow2(n - z));
  }

  /** The bound of the round trip is attained by the largest number of each length. */
  lemma BoundIsSharp(m: nat, z: nat)
    requires Documented(m) && 1 <= z < ExpBits(m)
    ensures var x := Pow2(32 - z) - 1;
            x < 0x8000_0000 && Nlz(x) == z && Encoded(x, m) < 0x8000_0000 && Decodable(Encoded(x, m), m) &&
            x - Decoded(Encoded(x, m), m) == Pow2(ExpBits(m) - z) - 1
  {
    hide Encoded, Decoded, Decodable, Nlz, ExpBits, Pow2;
    AllOnesShape(z);
    WidthFits(m);
    PowStep(31 - z);
    PowMono(31 - m, 31 - z);
    RoundTrip(Pow2(32 - z) - 1, m);
    AllOnesLost(ExpBits(m), z);
  }

  lemma AllOnesMod(a: nat, d: nat)
    requires a >= 1 && d >= 1
    ensures a * d >= 1 && (a * d - 1) % d == d - 1
  {
    MulAtLeast(d, a);
    assert a * d - 1 == d * (a - 1) + (d - 1);
    ModUnique(a * d - 1, d, a - 1, d - 1);
  }

  /** The composition steps down where the denormals end, unless they are too few. */
  lemma StepsDown(m: nat)
    requires 2 <= m <= 29
    ensures var y := Pow2(31 - m);
            y < 0x8000_0000 && Decodable(Encoded(y - 1, m), m) && Decodable(Encoded(y, m), m) &&
            Decoded(Encoded(y - 1, m), m) > Decoded(Encoded(y, m), m)
  {
    hide Encoded, Decoded, Decodable, Nlz, ExpBits, Pow2;
    var y := Pow2(31 - m);
    Powers();
    PowMono(31 - m, 29);
    PowMono(2, 31 - m);
    PowStep(29);
    PowStep(30);
    assert Pow2(2) == 4 by { PowTwo(); }
    RoundTrip(y - 1, m);
    RoundTrip(y, m);
  }

  lemma PowTwo()
    ensures Pow2(2) == 4
  {
  }

  /** Clearing low bits keeps the top bit. */
  lemma KeepsTop(x: nat, n: nat)
    requires 0 < x < 0x8000_0000 && n <= 31
    ensures Nlz(x) <= 31 && x - Lost(x, n, Nlz(x)) >= Pow2(31 - Nlz(x))
  {
    hide Nlz, Pow2;
    NlzAtMost32(x);
    Powers();
    if Nlz(x) == 32 { NlzTop(x, 32); }
    var z := Nlz(x);
    NlzIsBound(x, z);
    if z < n {
      var d := Pow2(n - z);
      PowAdd(31 - n, n - z);
      DivExact(Pow2(31 - n), d);
      FloorMono(Pow2(31 - z), x, d);
    }
  }

  lemma FloorMono(x: nat, y: nat, d: nat)
    requires d > 0 && x <= y
    ensures x - x % d <= y - y % d
  {
    var a, b := x / d, y / d;
    assert x == d * a + x % d && y == d * b + y % d;
    if a > b { MulStep(d, b, a); }
    if a < b { MulStep(d, a, b); }
  }

  /** Clearing the bits below the mantissa is monotone, also across an exponent step. */
  lemma KeptMono(x: nat, y: nat, n: nat)
    requires 0 < x <= y < 0x8000_0000 && n <= 31
    ensures x - Lost(x, n, Nlz(x)) <= y - Lost(y, n, Nlz(y))
  {
    hide Nlz, Pow2;
    NlzFalls(x, y);
    KeepsTop(y, n);
    KeepsTop(x, n);
    if Nlz(x) == Nlz(y) {
      if Nlz(x) < n { FloorMono(x, y, Pow2(n - Nlz(x))); }
    } else {
      NlzIsBound(x, Nlz(x) - 1);
      PowMono(32 - Nlz(x), 31 - Nlz(y));
    }
  }

  /** LOG then EXP on a magnitude, as the round trip describes it. */
  function Rounded(x: nat, m: nat): nat
    requires x < 0x8000_0000
  {
    if x < Pow2(31 - Cleaned(m)) then 2 * x else x - Lost(x, ExpBits(m), Nlz(x))
  }

  lemma RoundedIs(x: nat, m: nat)
    requires x < 0x8000_0000 && Documented(m)
    ensures Decodable(Encoded(x, m), m) && Decoded(Encoded(x, m), m) == Rounded(x, m)
  {
    hide Encoded, Decoded, Decodable, Nlz, ExpBits, Pow2;
    RoundTrip(x, m);
  }

  lemma RoundedMono(x: nat, y: nat, m: nat)
    requires x <= y < 0x8000_0000 && 30 <= m <= 31
    ensures Rounded(x, m) <= Rounded(y, m)
  {
    hide Nlz, Pow2, ExpBits;
    assert Pow2(0) == 1 && Pow2(1) == 2 by { PowZero(); PowStep(0); }
    if x >= Pow2(31 - m) {
      KeptMono(x, y, ExpBits(m));
    } else if y >= Pow2(31 - m) {
      KeepsTop(y, ExpBits(m));
      NlzIsBound(y, m);
      PowMono(31 - m, 31 - Nlz(y));
    }
  }

  /** LOG then EXP on a word, the sign kept. */
  function ExpOfLog(x: nat, m: nat): nat
    requires x < 0x1_0000_0000 && Documented(m)
  {
    ExpFits(x, m, 0);
    Exp(Log(x, m, 0), m, 0)
  }

  lemma RoundedFits(x: nat, m: nat)
    requires x < 0x8000_0000 && Documented(m)
    ensures Rounded(x, m) < 0x8000_0000
  {
    hide Nlz, Pow2, ExpBits, Lost;
    WidthFits(m);
    Powers();
    PowMono(31 - m, 29);
    PowStep(29);
  }

  lemma ExpOfLogIs(x: nat, m: nat)
    requires x < 0x1_0000_0000 && Documented(m)
    ensures Rounded(Magnitude(x), m) < 0x8000_0000
    ensures AsInt(ExpOfLog(x, m)) == if x >= 0x8000_0000 then -1 - Rounded(Magnitude(x), m) else Rounded(Magnitude(x), m)
  {
    hide Encoded, Decoded, Decodable, Rounded;
    RoundedFits(Magnitude(x), m);
    RoundedIs(Magnitude(x), m);
    ExpFits(x, m, 0);
    SignControl(x, m, 0);
  }

  lemma ExpOfLogMono(x: nat, y: nat, m: nat)
    requires x < 0x1_0000_0000 && y < 0x1_0000_0000 && 30 <= m <= 31 && AsInt(x) <= AsInt(y)
    ensures AsInt(ExpOfLog(x, m)) <= AsInt(ExpOfLog(y, m))
  {
    hide Rounded, ExpOfLog;
    ExpOfLogIs(x, m);
    ExpOfLogIs(y, m);
    if x < 0x8000_0000 && y < 0x8000_0000 { RoundedMono(x, y, m); }
    if x >= 0x8000_0000 && y >= 0x8000_0000 { RoundedMono(Magnitude(y), Magnitude(x), m); }
  }

  /** EXP after LOG, the sign kept, is monotone over all signed words if and only if max_exp is 30 or 31. */
  lemma CompositionMonotone(m: nat)
    requires Documented(m)
    ensures (forall x: nat, y: nat :: x < 0x1_0000_0000 && y < 0x1_0000_0000 && AsInt(x) <= AsInt(y) ==>
               AsInt(ExpOfLog(x, m)) <= AsInt(ExpOfLog(y, m))) <==> m >= 30
  {
    hide Rounded, Encoded, Decoded, Decodable, Pow2, ExpOfLog;
    if m >= 30 {
      forall x: nat, y: nat | x < 0x1_0000_0000 && y < 0x1_0000_0000 && AsInt(x) <= AsInt(y)
        ensures AsInt(ExpOfLog(x, m)) <= AsInt(ExpOfLog(y, m))
      {
        ExpOfLogMono(x, y, m);
      }
    } else {
      StepsDown(m);
      var y := Pow2(31 - m);
      assert y > 0;
      RoundedIs(y - 1, m);
      RoundedIs(y, m);
      ExpOfLogIs(y - 1, m);
      ExpOfLogIs(y, m);
      assert AsInt(ExpOfLog(y - 1, m)) > AsInt(ExpOfLog(y, m));
    }
  }
}
