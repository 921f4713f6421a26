/** Reading back the operands of one operation: the generic theorem, for any form whose
    fields are well placed. */
module OperandFields {
  import opened Bits
  import opened OpWords
  import opened Operands
  import opened Layouts
  import opened Fields

  /** The operation has a form whose fields lie in [lo, hi) without disturbing each other. */
  predicate Framed(o: Operation, lo: nat, hi: nat) {
    Shaped(o) &&
    AllApart(o.form.locs, |o.form.locs|) && LocsFit(o.form.locs, |o.form.locs|, lo, hi) &&
    (o.swap ==> Paired(o.form.locs, |o.form.locs|))
  }

  /** And its ':' stands where the form has its halves meet. */
  predicate Placed(o: Operation, lo: nat, hi: nat) {
    Framed(o, lo, hi) && o.split == SplitOf(o.form.locs)
  }

  /** The disassembler interprets 16-bit literals with the modifier the assembler used. */
  predicate MdfrShown(o: Operation) {
    o.mdfr == Mdfr16Upper || o.mdfr == Mdfr16Signed ==>
      forall j :: 0 <= j < |o.form.locs| && o.form.locs[j].ty == Lit(LITERAL_16) ==>
        o.form.locs[j].dir in {DirSrc, DirX, DirY}
  }

  lemma SwappedPlain(o: Operation, lo: nat, hi: nat, i: nat)
    requires Placed(o, lo, hi) && o.swap && i < |o.operands|
    ensures !Relative(LocOf(o, i).ty) && LocOf(o, i).ty != Lit(LITERAL_16)
  {
    PairedAt(o.form.locs, |o.form.locs|, DescIndex(i, o.swap));
  }

  /** The two 16-bit literals of a parallel move have one field, hence must be equal. */
  predicate TwinsSame(o: Operation) {
    Shaped(o) &&
    forall i, j :: 0 <= i < |o.operands| && 0 <= j < |o.operands| && TwinsAt(o.form.locs, i, j) ==>
      !o.swap && o.operands[i] == o.operands[j]
  }

  lemma LiteralTwin(o: Operand, base: Operand, twin: Operand, base': Operand, twin': Operand, mdfr: SrcMdfr)
    requires Accepts(Lit(LITERAL_16), o, base, twin, mdfr) && Accepts(Lit(LITERAL_16), twin, base', twin', mdfr)
    ensures o == twin
  {
  }

  lemma AcceptedTwins(o: Operation, lo: nat, hi: nat)
    requires Placed(o, lo, hi) && Accepted(o)
    ensures TwinsSame(o)
  {
    hide Accepts, Valid, AllApart, LocsFit, Paired, TwinsAt, SplitOf, AcceptsAt;
    forall i, j | 0 <= i < |o.operands| && 0 <= j < |o.operands| && TwinsAt(o.form.locs, i, j)
      ensures !o.swap && o.operands[i] == o.operands[j]
    {
      TwinsUnswapped(o, lo, hi, i, j);
      TwinsEqual(o, i, j);
    }
  }

  lemma TwinsUnswapped(o: Operation, lo: nat, hi: nat, i: nat, j: nat)
    requires Placed(o, lo, hi) && i < |o.operands| && j < |o.operands| && TwinsAt(o.form.locs, i, j)
    ensures !o.swap
  {
    hide AllApart, LocsFit, Paired, SplitOf;
    if o.swap { PairedAt(o.form.locs, |o.form.locs|, i); }
  }

  lemma TwinsEqual(o: Operation, i: nat, j: nat)
    requires Shaped(o) && !o.swap && o.split == SplitOf(o.form.locs)
    requires i < |o.operands| && j < |o.operands| && TwinsAt(o.form.locs, i, j) && AcceptsAt(o, i) && AcceptsAt(o, j)
    ensures o.operands[i] == o.operands[j]
  {
    hide Accepts, SplitOf;
    HalfIsSplit(o.form.locs, 2);
    assert LocOf(o, i).ty == LocOf(o, j).ty == Lit(LITERAL_16);
    LiteralTwin(o.operands[i], At(o.operands, i), o.operands[j],
                At(o.operands, Num(o, j)), At(o.operands, 2 + Num(o, j)), o.mdfr);
  }

  lemma TwinSlots(o: Operation, i: nat, j: nat)
    requires TwinsSame(o) && i < |o.operands| && j < |o.operands| && TwinsAt(o.form.locs, i, j)
    ensures SlotsAgree(SlotOf(o, i), SlotOf(o, j)) && SlotsAgree(SlotOf(o, j), SlotOf(o, i))
  {
    assert o.operands[i] == o.operands[j];
  }

  /** A relative operand's value is a multiple of 2^11. */
  lemma RelativeValue(o: Operation, i: nat)
    requires Shaped(o) && i < |o.operands| && Relative(LocOf(o, i).ty)
    ensures ValueOf(o, i) % 2048 == 0
  {
  }

  lemma SlotFits(o: Operation, lo: nat, hi: nat, i: nat)
    requires Framed(o, lo, hi) && i < |o.operands|
    ensures SlotOk(SlotOf(o, i), hi)
  {
    LocsFitAt(o.form.locs, |o.form.locs|, lo, hi, DescIndex(i, o.swap));
    if Relative(LocOf(o, i).ty) { RelativeValue(o, i); }
  }

  lemma SlotPairAgrees(o: Operation, i: nat, j: nat, i': nat, j': nat)
    requires TwinsSame(o) && i < |o.operands| && j < |o.operands| && i != j
    requires i' == DescIndex(i, o.swap) && j' == DescIndex(j, o.swap)
    requires i' < |o.form.locs| && j' < |o.form.locs| && ApartOrTwins(o.form.locs, i', j')
    ensures SlotsAgree(SlotOf(o, i), SlotOf(o, j))
  {
    if TwinsAt(o.form.locs, i', j') {
      assert !o.swap;
      TwinSlots(o, i, j);
    } else if TwinsAt(o.form.locs, j', i') {
      assert !o.swap;
      TwinSlots(o, j, i);
    } else {
      assert LocsApart(LocOf(o, i), LocOf(o, j));
    }
  }

  lemma SlotsAreOk(o: Operation, lo: nat, hi: nat)
    requires Placed(o, lo, hi) && Accepted(o)
    ensures SlotsOk(Slots(o), hi)
  {
    AcceptedTwins(o, lo, hi);
    var ss := Slots(o);
    forall i | 0 <= i < |ss|
      ensures SlotOk(ss[i], hi)
    {
      SlotFits(o, lo, hi, i);
    }
    forall i, j | 0 <= i < |ss| && 0 <= j < |ss| && i != j
      ensures SlotsAgree(ss[i], ss[j])
    {
      var i', j' := DescIndex(i, o.swap), DescIndex(j, o.swap);
      DescInRange(i, o.swap, |ss|);
      DescInRange(j, o.swap, |ss|);
      AllApartPair(o.form.locs, |o.form.locs|, i', j');
      SlotPairAgrees(o, i, j, i', j');
    }
  }

  /** The operand the compatibility check compares operand i with. */
  function CheckBase(o: Operation, i: nat): Operand { At(o.operands, Num(o, i)) }

  lemma BasesAgree(o: Operation, i: nat, d: nat)
    requires Shaped(o) && i < |o.operands| && !o.swap && d == BaseDistance(LocOf(o, i).ty)
    requires d <= i && o.split == d
    ensures BaseOf(o, i) == CheckBase(o, i) == o.operands[i - d]
  {
    assert Num(o, i) == i - d;
  }

  lemma SpanIsPow2(ty: OperandType)
    ensures Span(ty) == Pow2(Width(ty))
  {
    Pow2s();
  }

  /** The flat string has exactly the operation's own bits in its operands' fields. */
  predicate HoldsOperands(words: seq<nat>, o: Operation)
    requires Shaped(o)
  {
    forall i, p :: 0 <= i < |o.operands| && 0 <= p < 25 * |words| && InLoc(LocOf(o, i), p) ==>
      (Flat(words, p) <==> SlotsBit(Slots(o), p))
  }

  lemma PlainOperandRead(o: Operation, words: seq<nat>, i: nat)
    requires Shaped(o) && SlotsOk(Slots(o), 25 * |words|) && i < |o.operands| && HoldsOperands(words, o)
    requires !Relative(LocOf(o, i).ty) && LocOf(o, i).bits1 + LocOf(o, i).bits2 == Width(LocOf(o, i).ty)
    ensures SlotOk(SlotOf(o, i), 25 * |words|)
    ensures ReadLoc(words, LocOf(o, i)) == ValueOf(o, i) % Span(LocOf(o, i).ty)
  {
    var ss := Slots(o);
    assert ss[i] == SlotOf(o, i);
    SlotRead(ss, words, i);
    LowIsMod(ValueOf(o, i), Width(LocOf(o, i).ty));
    SpanIsPow2(LocOf(o, i).ty);
  }

  lemma RelativeOperandRead(o: Operation, words: seq<nat>, i: nat, b: nat)
    requires Shaped(o) && SlotsOk(Slots(o), 25 * |words|) && i < |o.operands| && HoldsOperands(words, o)
    requires Relative(LocOf(o, i).ty) && LocOf(o, i).bits1 == Width(LocOf(o, i).ty)
    requires b < |o.operands| && LocOf(o, b).ty == Wid(REG_11) && LocOf(o, b).bits1 == 11
    requires LocOf(o, b).bits2 == 0 && LocOf(o, b).start1 == LocOf(o, i).start2
    ensures SlotOk(SlotOf(o, i), 25 * |words|)
    ensures ReadLoc(words, LocOf(o, i)) ==
            ValueOf(o, i) / 2048 % Span(LocOf(o, i).ty) * 2048 + TokenVal(o.operands[b]) % 2048
  {
    var ss := Slots(o);
    assert ss[i] == SlotOf(o, i) && ss[b] == SlotOf(o, b);
    RelativeSlotRead(ss, words, i, b);
    var v := ValueOf(o, i);
    ShrIsDiv(v, 11);
    LowIsMod(Shr(v, 11), Width(LocOf(o, i).ty));
    SpanIsPow2(LocOf(o, i).ty);
    LowIsMod(ValueOf(o, b), 11);
    assert Pow2(11) == 2048;
    assert ValueOf(o, b) == TokenVal(o.operands[b]);
  }

  /** What get_op_operand reads for operand i. */
  lemma OperandRead(o: Operation, words: seq<nat>, lo: nat, i: nat)
    requires Placed(o, lo, 25 * |words|) && SlotsOk(Slots(o), 25 * |words|)
    requires i < |o.operands| && HoldsOperands(words, o)
    ensures SlotOk(SlotOf(o, i), 25 * |words|)
    ensures ReadLoc(words, LocOf(o, i)) == Raw(LocOf(o, i).ty, o.operands[i], CheckBase(o, i), o.mdfr)
  {
    hide AllApart, LocsFit, HoldsOperands, SlotsOk, FixedVal, HalfAt, SplitOf, ReadLoc, Paired;
    var locs := o.form.locs;
    if Relative(LocOf(o, i).ty) {
      if o.swap { SwappedPlain(o, lo, 25 * |words|, i); }
      var d := BaseDistance(LocOf(o, i).ty);
      RelativeBase(locs, |locs|, lo, 25 * |words|, i);
      HalfIsSplit(locs, d);
      RelativeOperandRead(o, words, i, i - d);
      BasesAgree(o, i, d);
    } else {
      DescInRange(i, o.swap, |locs|);
      LocsFitAt(locs, |locs|, lo, 25 * |words|, DescIndex(i, o.swap));
      PlainOperandRead(o, words, i);
      PlainValue(o, i);
    }
  }

  /** Only the relative types look at their base. */
  lemma PlainValue(o: Operation, i: nat)
    requires Shaped(o) && i < |o.operands| && !Relative(LocOf(o, i).ty)
    ensures ValueOf(o, i) == FixedVal(LocOf(o, i).ty, o.operands[i], CheckBase(o, i), o.mdfr)
  {
  }

  lemma ShownLiteral(ty: OperandType, v: nat, m: SrcMdfr, m': SrcMdfr)
    requires m == m' || ty != Lit(LITERAL_16) || (m in {MdfrNone, MdfrInc, MdfrDec, MdfrRR, MdfrRL} && m' == MdfrNone)
    ensures Decode(ty, v, m) == Decode(ty, v, m')
  {
  }

  lemma OperandShown(o: Operation, i: nat, v: nat)
    requires Shaped(o) && MdfrShown(o) && i < |o.operands|
    requires o.swap ==> LocOf(o, i).ty != Lit(LITERAL_16)
    ensures var a := LocOf(o, i);
            Decode(a.ty, v, ShownMdfr(a.dir, o.swap, o.mdfr)) == Decode(a.ty, v, o.mdfr)
  {
    var a := LocOf(o, i);
    DescInRange(i, o.swap, |o.form.locs|);
    assert a == o.form.locs[DescIndex(i, o.swap)];
    ShownLiteral(a.ty, v, o.mdfr, ShownMdfr(a.dir, o.swap, o.mdfr));
  }

  /** The operands the form cannot represent. */
  predicate NoneMisread(o: Operation)
    requires Shaped(o)
  {
    forall i :: 0 <= i < |o.operands| ==> !Misread(LocOf(o, i).ty, o.operands[i])
  }

  lemma FormReadable(o: Operation, words: seq<nat>)
    requires Shaped(o) && SlotsOk(Slots(o), 25 * |words|)
    ensures Readable(words, o.form, o.swap)
  {
    forall j | 0 <= j < |o.form.locs|
      ensures var a := o.form.locs[j];
              a.start1 + a.bits1 <= 25 * |words| && (a.bits2 > 0 ==> a.start2 + a.bits2 <= 25 * |words|)
    {
      var i := DescIndex(j, o.swap);
      DescInRange(j, o.swap, |o.form.locs|);
      assert SlotOk(Slots(o)[i], 25 * |words|);
    }
  }

  lemma OneOperandBack(o: Operation, words: seq<nat>, lo: nat, i: nat)
    requires Placed(o, lo, 25 * |words|) && SlotsOk(Slots(o), 25 * |words|) && Accepted(o) && MdfrShown(o)
    requires i < |o.operands| && HoldsOperands(words, o) && Readable(words, o.form, o.swap)
    ensures ReadOperands(words, o.form, o.swap, o.mdfr)[i] == o.operands[i] <==> !Misread(LocOf(o, i).ty, o.operands[i])
  {
    var ty := LocOf(o, i).ty;
    OperandRead(o, words, lo, i);
    if o.swap { SwappedPlain(o, lo, 25 * |words|, i); }
    OperandShown(o, i, ReadLoc(words, LocOf(o, i)));
    assert AcceptsAt(o, i);
    RelativeBaseIsRegister(o, words, lo, i);
    OperandRoundTrip(ty, o.operands[i], CheckBase(o, i), At(o.operands, o.split + Num(o, i)), o.mdfr);
  }

  lemma RelativeBaseIsRegister(o: Operation, words: seq<nat>, lo: nat, i: nat)
    requires Placed(o, lo, 25 * |words|) && Accepted(o) && i < |o.operands|
    ensures Relative(LocOf(o, i).ty) ==> Valid(CheckBase(o, i)) && IsReg(CheckBase(o, i))
  {
    if Relative(LocOf(o, i).ty) {
      if o.swap { SwappedPlain(o, lo, 25 * |words|, i); }
      var d := BaseDistance(LocOf(o, i).ty);
      RelativeBase(o.form.locs, |o.form.locs|, lo, 25 * |words|, i);
      HalfIsSplit(o.form.locs, d);
      BasesAgree(o, i, d);
      assert AcceptsAt(o, i - d);
    }
  }

  /** The operands the disassembler reads are those the assembler wrote, unless one of
      them is misread. */
  lemma OperandsBack(o: Operation, words: seq<nat>, lo: nat)
    requires Placed(o, lo, 25 * |words|) && Accepted(o) && MdfrShown(o)
    requires HoldsOperands(words, o)
    ensures Readable(words, o.form, o.swap)
    ensures ReadOperands(words, o.form, o.swap, o.mdfr) == o.operands <==> NoneMisread(o)
  {
    SlotsAreOk(o, lo, 25 * |words|);
    FormReadable(o, words);
    var r := ReadOperands(words, o.form, o.swap, o.mdfr);
    forall i | 0 <= i < |o.operands|
      ensures r[i] == o.operands[i] <==> !Misread(LocOf(o, i).ty, o.operands[i])
    {
      OneOperandBack(o, words, lo, i);
    }
  }
}
