/** LOG and EXP with max_exp 0 and 1, which the clean-up raises to 2 for the width of the exponent but not
    for the exponent the normalisation starts from. */
module ExpLogSmall {
  import opened Bits
  import opened ExpLog
  import opened ExpLogLaws

  lemma SmallPowers()
    ensures Pow2(0) == 1 && Pow2(1) == 2 && Pow2(2) == 4 && Pow2(3) == 8 && Pow2(29) == 0x2000_0000 && Pow2(30) == 0x4000_0000
  {
    hide Pow2;
    Powers();
    PowZero();
    PowStep(0);
    PowStep(1);
    PowStep(30);
    PowStep(29);
  }

  /** One leading zero or more. */
  lemma SmallNlz(x: nat)
    requires x < 0x8000_0000
    ensures Nlz(x) >= 1 && (Nlz(x) == 1 <==> x >= 0x4000_0000)
  {
  }

  /** The loop starts from an exponent of one or two, and uses it up unless the number has 31 bits. */
  lemma SmallShape(x: nat, m: nat)
    requires x < 0x8000_0000 && m < 2
    ensures Exponent(x, m + 1) == if m == 1 && x >= 0x4000_0000 then 1 else 0
    ensures Shifted(x, m + 1) == if m == 0 then 2 * x else if x < 0x4000_0000 then 4 * x else 4 * (x - 0x4000_0000)
  {
    hide Nlz, Pow2;
    SmallPowers();
    SmallNlz(x);
  }

  /** LOG of a magnitude. */
  lemma SmallLog(x: nat, m: nat)
    requires x < 0x8000_0000 && m < 2
    ensures Encoded(x, m) ==
            if m == 0 then x / 4 else if x < 0x4000_0000 then x / 2 else 0x2000_0000 + (x - 0x4000_0000) / 2
  {
    hide Shl, Shr, Low, Pow2, Exponent, Shifted;
    SmallPowers();
    SmallShape(x, m);
    var e := Exponent(x, m + 1);
    LowId(e, 3);
    ShlIsTimes(e, 29);
    ShrIsDiv(Shifted(x, m + 1), 3);
  }

  /** EXP of what LOG makes. */
  lemma SmallExp(l: nat, m: nat)
    requires l < 0x4000_0000 && m < 2
    ensures Decodable(l, m) && Decoded(l, m) == if l < 0x2000_0000 then 2 * l else l
  {
    hide Shl, Shr, Low, Pow2;
    SmallPowers();
    Powers();
    ShrIsDiv(l, 29);
    ShlIsTimes(l, 3);
    LowIsMod(l * 8, 32);
    if l < 0x2000_0000 {
      ShrIsDiv(l * 8, 2);
    } else {
      ShrIsDiv(l * 4, 2);
    }
  }

  /** What LOG and EXP together make of a magnitude. */
  function SmallResult(x: nat, m: nat): nat {
    if m == 0 then 2 * (x / 4) else if x < 0x4000_0000 then 2 * (x / 2) else x / 2
  }

  /** The round trip in closed form, for every magnitude. */
  lemma SmallRoundTrip(x: nat, m: nat)
    requires x < 0x8000_0000 && m < 2
    ensures Encoded(x, m) < 0x4000_0000 && Decodable(Encoded(x, m), m)
    ensures Decoded(Encoded(x, m), m) == SmallResult(x, m)
  {
    hide Encoded, Decoded, Decodable;
    SmallLog(x, m);
    SmallExp(Encoded(x, m), m);
  }

  /** The magnitudes for which max_exp 0 or 1 does what max_exp 2, its default, does. */
  predicate ActsLikeTwo(x: nat, m: nat) {
    x == 0 || (m == 1 && 0x2000_0000 <= x < 0x4000_0000 && x % 2 == 0)
  }

  /** The round trip with max_exp 2. */
  lemma TwoRoundTrip(x: nat)
    requires x < 0x8000_0000
    ensures Encoded(x, 2) < 0x8000_0000 && Decodable(Encoded(x, 2), 2)
    ensures Decoded(Encoded(x, 2), 2) ==
            if x < 0x2000_0000 then 2 * x else if x < 0x4000_0000 then x else x - x % 2
  {
    hide Encoded, Decoded, Decodable, Nlz, Pow2;
    SmallPowers();
    SmallNlz(x);
    RoundTrip(x, 2);
  }

  /** Below 2 the default is not reached: the results agree with those of max_exp 2 if and only if the
      number is 0 or, for max_exp 1, even and of thirty bits. */
  lemma SmallMaxExp(x: nat, m: nat)
    requires x < 0x8000_0000 && m < 2
    ensures Decodable(Encoded(x, m), m) && Decodable(Encoded(x, 2), 2)
    ensures Decoded(Encoded(x, m), m) == Decoded(Encoded(x, 2), 2) <==> ActsLikeTwo(x, m)
  {
    hide Encoded, Decoded, Decodable;
    SmallRoundTrip(x, m);
    TwoRoundTrip(x);
  }

  /** Sign control with small max_exp, for every word: as for the documented ones. */
  lemma SmallSignControl(x: nat, m: nat, signCtrl: nat)
    requires x < 0x1_0000_0000 && m < 2
    ensures Encoded(Magnitude(x), m) < 0x8000_0000
    ensures Decodable(Magnitude(Log(x, m, signCtrl)), m)
    ensures Decoded(Magnitude(Log(x, m, signCtrl)), m) < 0x8000_0000
    ensures var y := SmallResult(Magnitude(x), m);
            y < 0x8000_0000 &&
            Exp(Log(x, m, signCtrl), m, signCtrl) ==
            match signCtrl % 4
            case 1 => y
            case 2 => Complement(y)
            case _ => if x >= 0x8000_0000 then Complement(y) else y
  {
    hide Encoded, Decoded, Decodable;
    SmallRoundTrip(Magnitude(x), m);
  }

  /** The exact agreement over all words, negative ones included: it is that of the magnitudes. */
  lemma SmallMaxExpSigned(x: nat, m: nat)
    requires x < 0x1_0000_0000 && m < 2
    ensures Encoded(Magnitude(x), m) < 0x8000_0000 && Encoded(Magnitude(x), 2) < 0x8000_0000
    ensures Decodable(Magnitude(Log(x, m, 0)), m) && Decoded(Magnitude(Log(x, m, 0)), m) < 0x8000_0000
    ensures Decodable(Magnitude(Log(x, 2, 0)), 2) && Decoded(Magnitude(Log(x, 2, 0)), 2) < 0x8000_0000
    ensures Exp(Log(x, m, 0), m, 0) == Exp(Log(x, 2, 0), 2, 0) <==> ActsLikeTwo(Magnitude(x), m)
  {
    hide Encoded, Decoded, Decodable, Exp, Log, SmallResult, ActsLikeTwo;
    SmallSignControl(x, m, 0);
    SmallRoundTrip(Magnitude(x), m);
    SignControl(x, 2, 0);
    SmallMaxExp(Magnitude(x), m);
  }
}
