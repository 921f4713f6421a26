/** The LOG and EXP instructions: a floating format whose exponent has two to five bits. */
module ExpLog {
  import opened Bits

  /** ~x */
  function Complement(x: nat): nat
    requires x < 0x1_0000_0000
  {
    0xffff_ffff - x
  }

  /** max_exp as it is used after the clean-up: five bits, and at least 2. */
  function Cleaned(maxExp: nat): (m: nat)
    ensures 2 <= m < 32
  {
    if maxExp % 32 < 2 then 2 else maxExp % 32
  }

  /** The width of the exponent field. */
  function ExpBits(m: nat): (eb: nat)
    ensures 2 <= eb <= 5
  {
    if m / 16 % 2 == 1 then 5 else if m / 8 % 2 == 1 then 4 else if m / 4 % 2 == 1 then 3 else 2
  }

  /** Leading zeros of a 32-bit word. */
  function Nlz(x: nat): nat
    requires x < 0x1_0000_0000
    decreases 0x1_0000_0000 - x
  {
    if x == 0 then 32 else if x >= 0x8000_0000 then 0 else 1 + Nlz(2 * x)
  }

  /** The switch on sign control, which log1 and exp1 share. */
  function Signed(result: nat, sign: bool, signCtrl: nat): nat
    requires result < 0x1_0000_0000
  {
    match signCtrl % 4
    case 0 => if sign then Complement(result) else result
    case 1 => result
    case 2 => Complement(result)
    case _ => if sign then result else Complement(result)
  }

  /** The sign bit and what is left once a negative value is complemented. */
  function Magnitude(x: nat): (m: nat)
    requires x < 0x1_0000_0000
    ensures m < 0x8000_0000
  {
    if x >= 0x8000_0000 then Complement(x) else x
  }

  /* ---------- log1 ---------- */

  /** How often the normalisation loop shifts: until the top bit is set or the exponent,
      which starts at `start`, is used up. Zero never gets a top bit. */
  function Shifts(x: nat, start: nat): (s: nat)
    requires x < 0x8000_0000
    ensures s <= start
  {
    if x == 0 || start <= Nlz(x) then start else Nlz(x)
  }

  /** The exponent the loop ends with. */
  function Exponent(x: nat, start: nat): nat
    requires x < 0x8000_0000
  {
    start - Shifts(x, start)
  }

  lemma {:induction false} NlzTop(x: nat, i: nat)
    requires 0 < x < 0x1_0000_0000 && i <= Nlz(x)
    ensures x * Pow2(i) < 0x1_0000_0000 && Nlz(x * Pow2(i)) == Nlz(x) - i
    decreases i
  {
    if i > 0 {
      NlzTop(x, i - 1);
      var y := x * Pow2(i - 1);
      assert y < 0x8000_0000;
      assert x * Pow2(i) == 2 * y by { Assoc(2, Pow2(i - 1), x); }
    }
  }

  lemma NlzZero(y: nat)
    requires 0 < y < 0x1_0000_0000
    ensures Nlz(y) == 0 <==> y >= 0x8000_0000
  {
  }

  lemma ShiftedTop(x: nat, start: nat)
    requires x < 0x8000_0000
    ensures x * Pow2(Shifts(x, start)) < 0x1_0000_0000
    ensures Exponent(x, start) > 0 ==> x * Pow2(Shifts(x, start)) >= 0x8000_0000
  {
    if x > 0 {
      NlzTop(x, Shifts(x, start));
      NlzZero(x * Pow2(Shifts(x, start)));
    }
  }

  /** The shifted value, less its implicit top bit unless the exponent is 0. */
  function Shifted(x: nat, start: nat): (lin: nat)
    requires x < 0x8000_0000
    ensures lin < 0x1_0000_0000
  {
    ShiftedTop(x, start);
    var lin := x * Pow2(Shifts(x, start));
    if Exponent(x, start) > 0 then 2 * (lin - 0x8000_0000) else lin
  }

  /** The magnitude of the result: the exponent above the shifted value's upper bits. */
  function Encoded(x: nat, maxExp: nat): nat
    requires x < 0x8000_0000
  {
    var eb := ExpBits(Cleaned(maxExp));
    Shl(Low(Exponent(x, maxExp + 1), eb + 1), 31 - eb) + Shr(Shifted(x, maxExp + 1), eb + 1)
  }

  lemma Powers()
    ensures Pow2(3) == 8 && Pow2(4) == 16 && Pow2(5) == 32 && Pow2(6) == 64
    ensures Pow2(26) == 0x400_0000 && Pow2(27) == 0x800_0000 && Pow2(28) == 0x1000_0000 && Pow2(29) == 0x2000_0000
    ensures Pow2(31) == 0x8000_0000 && Pow2(32) == 0x1_0000_0000
  {
    assert Pow2(16) == 0x1_0000;
    assert Pow2(24) == 0x100_0000;
  }

  /** (exp << (32 - n)) | (lin >> n) in 32 bits. */
  function Pack(exp: nat, lin: nat, n: nat): nat
    requires n <= 32
  {
    Or(Low(Shl(exp, 32 - n), 32), Shr(lin, n))
  }

  /** Masking a shifted number masks the number. */
  lemma {:induction false} LowShl(x: nat, k: nat, n: nat)
    ensures Low(Shl(x, k), n + k) == Shl(Low(x, n), k)
    decreases k
  {
    if k > 0 {
      assert Shl(x, k) / 2 == Shl(x, k - 1);
      LowShl(x, k - 1, n);
    }
  }

  lemma {:induction false} ShrBound(x: nat, k: nat, n: nat)
    requires x < Pow2(n + k)
    ensures Shr(x, k) < Pow2(n)
    decreases k
  {
    if k > 0 { ShrBound(x / 2, k - 1, n); }
  }

  /** Exponent and mantissa do not overlap. */
  lemma PackIsSum(exp: nat, lin: nat, n: nat)
    requires n <= 32 && lin < 0x1_0000_0000
    ensures Pack(exp, lin, n) == Shl(Low(exp, n), 32 - n) + Shr(lin, n) < 0x1_0000_0000
    ensures Shr(lin, n) < Pow2(32 - n)
  {
    hide Or, Shl, Shr, Low, Pow2;
    Powers();
    LowShl(exp, 32 - n, n);
    ShrBound(lin, n, 32 - n);
    ShlIsTimes(Low(exp, n), 32 - n);
    OrAdd(Low(exp, n), Shr(lin, n), 32 - n);
    LowBound(exp, n);
    HighAndLow(Low(exp, n), Shr(lin, n), n);
  }

  lemma HighAndLow(h: nat, l: nat, n: nat)
    requires n <= 32 && h < Pow2(n) && l < Pow2(32 - n)
    ensures h * Pow2(32 - n) + l < 0x1_0000_0000
  {
    hide Pow2;
    Powers();
    PowAdd(32 - n, n);
    MulStep(Pow2(32 - n), h, Pow2(n));
  }

  lemma {:induction false} PowAdd(a: nat, b: nat)
    ensures Pow2(a) * Pow2(b) == Pow2(a + b)
    decreases a
  {
    if a > 0 {
      PowAdd(a - 1, b);
      Assoc(2, Pow2(a - 1), Pow2(b));
    }
  }

  /** The normalisation loop of log1, and the shift that drops the implicit top bit. */
  method Normalise(x: nat, start: nat) returns (exp: nat, lin: nat)
    requires x < 0x8000_0000 && start > 0
    ensures exp == Exponent(x, start) && lin == Shifted(x, start)
  {
    hide Pow2;
    exp, lin := start, x;
    assert Pow2(0) == 1 by { PowZero(); }
    while lin / 0x8000_0000 % 2 == 0
      invariant 0 < exp <= start && lin < 0x1_0000_0000 && lin == x * Pow2(start - exp)
      invariant x > 0 ==> start - exp <= Nlz(x)
      decreases exp
    {
      LoopShift(x, start - exp);
      lin := lin * 2 % 0x1_0000_0000;
      exp := exp - 1;
      if exp == 0 { break; }
    }
    LoopEnd(x, start, exp, lin);
    if exp != 0 { lin := lin * 2 % 0x1_0000_0000; }
  }

  /** log1. The exponent starts from max_exp before its clean-up. */
  method Log1(linData: nat, maxExp: nat, signCtrl: nat) returns (result: nat)
    requires linData < 0x1_0000_0000 && maxExp < 0x7fff_ffff
    ensures Encoded(Magnitude(linData), maxExp) < 0x1_0000_0000
    ensures result == Signed(Encoded(Magnitude(linData), maxExp), linData >= 0x8000_0000, signCtrl)
  {
    hide Pow2, Shl, Low, Shr, Pack, Exponent, Shifted;
    var m := maxExp % 32;
    var sign := linData / 0x8000_0000 % 2 == 1;
    if m < 2 { m := 2; }
    var exp, lin := Normalise(if sign then Complement(linData) else linData, maxExp + 1);
    if m / 16 % 2 == 1 {
      result := Pack(exp, lin, 6);
      PackIsSum(exp, lin, 6);
    } else if m / 8 % 2 == 1 {
      result := Pack(exp, lin, 5);
      PackIsSum(exp, lin, 5);
    } else if m / 4 % 2 == 1 {
      result := Pack(exp, lin, 4);
      PackIsSum(exp, lin, 4);
    } else {
      result := Pack(exp, lin, 3);
      PackIsSum(exp, lin, 3);
    }
    match signCtrl % 4 {
      case 0 => if sign { result := Complement(result); }
      case 2 => result := Complement(result);
      case 3 => if !sign { result := Complement(result); }
      case _ =>
    }
  }

  lemma PowZero()
    ensures Pow2(0) == 1
  {
  }

  /** One more shift of a word without its top bit. */
  lemma LoopShift(x: nat, i: nat)
    requires x < 0x8000_0000 && (x > 0 ==> i <= Nlz(x))
    requires x * Pow2(i) < 0x8000_0000
    ensures 2 * (x * Pow2(i)) == x * Pow2(i + 1) && (x > 0 ==> i + 1 <= Nlz(x))
  {
    Assoc(2, Pow2(i), x);
    if x > 0 {
      NlzTop(x, i);
      MulAtLeast(x, Pow2(i));
      NlzZero(x * Pow2(i));
    }
  }

  lemma LoopEnd(x: nat, start: nat, exp: nat, lin: nat)
    requires x < 0x8000_0000 && exp <= start && lin == x * Pow2(start - exp) && lin < 0x1_0000_0000
    requires x > 0 ==> start - exp <= Nlz(x)
    requires exp == 0 || lin >= 0x8000_0000
    ensures exp == Exponent(x, start) && lin == x * Pow2(Shifts(x, start))
  {
    if x > 0 {
      NlzTop(x, start - exp);
      if lin >= 0x8000_0000 { NlzZero(lin); }
    }
  }

  /* ---------- exp1 ---------- */

  /** The exponent field of a logarithmic magnitude. */
  function Field(l: nat, maxExp: nat): nat { Shr(l, 31 - ExpBits(Cleaned(maxExp))) }

  /** The shift that undoes the normalisation would be negative for a larger exponent. */
  predicate Decodable(l: nat, maxExp: nat) { Field(l, maxExp) <= Cleaned(maxExp) + 1 }

  /** The linear magnitude. */
  function Decoded(l: nat, maxExp: nat): nat
    requires Decodable(l, maxExp)
  {
    var exp := Field(l, maxExp);
    var lin := Low(Shl(l, ExpBits(Cleaned(maxExp)) + 1), 32);
    if exp > 0 then Shr(lin / 2 + 0x8000_0000, Cleaned(maxExp) - (exp - 1)) else Shr(lin, Cleaned(maxExp))
  }

  lemma DecodedFits(l: nat, maxExp: nat)
    requires Decodable(l, maxExp)
    ensures Decoded(l, maxExp) < 0x1_0000_0000
    ensures Low(Shl(l, ExpBits(Cleaned(maxExp)) + 1), 32) < 0x1_0000_0000
  {
    hide Shl, Low;
    var lin := Low(Shl(l, ExpBits(Cleaned(maxExp)) + 1), 32);
    Powers();
    LowBound(Shl(l, ExpBits(Cleaned(maxExp)) + 1), 32);
    forall y: nat, k: nat | y < 0x1_0000_0000
      ensures Shr(y, k) <= y
    {
      ShrShrinks(y, k);
    }
  }

  lemma {:induction false} ShrShrinks(y: nat, k: nat)
    ensures Shr(y, k) <= y
    decreases k
  {
    if k > 0 { ShrShrinks(y / 2, k - 1); }
  }

  /** exp1 */
  method Exp1(logData: nat, maxExp: nat, signCtrl: nat) returns (result: nat)
    requires logData < 0x1_0000_0000 && Decodable(Magnitude(logData), maxExp)
    ensures Decoded(Magnitude(logData), maxExp) < 0x1_0000_0000
    ensures result == Signed(Decoded(Magnitude(logData), maxExp), logData >= 0x8000_0000, signCtrl)
  {
    hide Shl, Low, Shr, Or;
    var m := maxExp % 32;
    var sign := logData / 0x8000_0000 % 2 == 1;
    if m < 2 { m := 2; }
    var data := logData;
    if sign { data := Complement(data); }
    DecodedFits(data, maxExp);
    var exp, lin;
    if m / 16 % 2 == 1 {
      exp, lin := Shr(data, 26), Low(Shl(data, 6), 32);
    } else if m / 8 % 2 == 1 {
      exp, lin := Shr(data, 27), Low(Shl(data, 5), 32);
    } else if m / 4 % 2 == 1 {
      exp, lin := Shr(data, 28), Low(Shl(data, 4), 32);
    } else {
      exp, lin := Shr(data, 29), Low(Shl(data, 3), 32);
    }
    if exp > 0 {
      TopBit(lin / 2);
      lin := Or(0x8000_0000, lin / 2);
      exp := exp - 1;
    }
    result := Shr(lin, m - exp);
    match signCtrl % 4 {
      case 0 => if sign { result := Complement(result); }
      case 1 =>
      case 2 => result := Complement(result);
      case _ => if !sign { result := Complement(result); }
    }
  }

  /** Putting back the implicit top bit. */
  lemma TopBit(x: nat)
    requires x < 0x8000_0000
    ensures Or(0x8000_0000, x) == 0x8000_0000 + x
  {
    hide Or;
    Powers();
    OrAdd(1, x, 31);
  }
}
