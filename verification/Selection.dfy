/** The disassembler chooses the form the assembler chose. */
module Selection {
  import opened Bits
  import opened OpWords
  import opened Operands
  import opened Layouts
  import opened Fields
  import opened OperandFields
  import opened Tables
  import opened Instructions
  import opened Regions
  import opened ParallelRows
  import opened Disassembler

  /** The words hold an instruction the assembler accepted. */
  predicate Assembled(words: seq<nat>, ins: Instr) {
    Assembles(ins) && GoodRow(ins.row) && Encodes(words, ins)
  }

  lemma PopIsSelected(ins: Instr)
    requires Assembles(ins) && ins.pop.Some?
    ensures Selected(ins) && FormOf(ins).optArgs && RoomEnd(ins) == PRoomEnd(ins)
  {
    hide OpLayouts, PRows, Accepted, Selected, FirstRow;
    SelectedRow(ins);
  }

  /** Past the room an instruction has only its main operation's bits. */
  lemma AboveTheRoom(words: seq<nat>, ins: Instr, p: nat)
    requires Assembled(words, ins) && RoomEnd(ins) <= p < 25 * ins.len
    ensures Flat(words, p) <==> MainBit(ins, p)
  {
    hide OpLayouts, PRows, Accepted, Selected, FirstRow, MainBit, ParBit;
    if ins.pop.Some? {
      PopIsSelected(ins);
      SelectedFacts(ins);
      if ParBit(ins, p) { ParInside(ins, p); }
    }
  }

  lemma MainZero(ins: Instr, p: nat)
    requires Assembles(ins) && GoodRow(ins.row) && !NopWithArg(ins)
    requires ZeroAt(FormOf(ins), ins.len, |FormOf(ins).locs|, p)
    ensures !MainBit(ins, p)
  {
    hide OpLayouts, PRows, FirstRow, AllApart, LocsFit, NoneIn, RoomBit, Bit, SlotsBit, Framed, Ones;
    MainFormOk(ins);
    MainFramed(ins);
    OpcodeWordBit(ins.row.op, ins.len, p);
    RoomBitAt(ins, p);
    SlotsMiss(MainOp(ins), RoomEnd(ins), 25 * ins.len, p, 1, p);
    if MaskBit(FormOf(ins), p) {
      var w :| 0 <= w < 4 && WordBit(w, FormOf(ins).mask[w], p);
      MaskBitAt(FormOf(ins), |FormOf(ins).locs|, ins.len, w, p);
    }
  }

  lemma MainOne(ins: Instr, p: nat)
    requires Assembles(ins) && GoodRow(ins.row) && !NopWithArg(ins) && OneAt(FormOf(ins), p)
    ensures MainBit(ins, p)
  {
    hide OpLayouts, PRows, FirstRow, AllApart, LocsFit, NoneIn, RoomBit, Bit, SlotsBit;
    var f := FormOf(ins);
    MainFormOk(ins);
    assert MaskOk(f, |f.locs|, ins.len, 1);
    if MaskOneAt(f, 1, p) {
      MaskOnes(f.mask[1], p - 25);
      WordBitAt(1, f.mask[1], p);
      assert WordBit(1, f.mask[1], p);
    }
  }

  lemma FieldDiffers(words: seq<nat>, start: nat, len: nat, v: nat, p: nat)
    requires start <= p < start + len <= 25 * |words|
    requires Flat(words, p) != Bit(v, start + len - 1 - p)
    ensures FieldValue(words, start, len) != v
  {
    FieldValueBit(words, start, len, start + len - 1 - p);
  }

  predicate Matches(words: seq<nat>, f: Layout)
    requires f.discStart + f.discBits <= 25 * |words|
  {
    f.discBits == 0 || FieldValue(words, f.discStart, f.discBits) == f.discVal
  }

  lemma {:induction false} ChooseIs(words: seq<nat>, forms: seq<Layout>, i: nat, k: nat)
    requires i <= k < |forms| && DiscsIn(forms, 25 * |words|)
    requires forall j :: i <= j < k ==> !Matches(words, forms[j])
    requires k + 1 < |forms| ==> Matches(words, forms[k])
    ensures Choose(words, forms, i) == k
    decreases k - i
  {
    if i < k {
      assert !Matches(words, forms[i]);
      ChooseIs(words, forms, i + 1, k);
    }
  }

  lemma ToldApart(words: seq<nat>, ins: Instr, f: Layout, p: nat)
    requires Assembled(words, ins) && !NopWithArg(ins) && f.discStart + f.discBits <= 25 * |words|
    requires TellsApart(f, FormOf(ins), ins.len, |FormOf(ins).locs|, p)
    ensures !Matches(words, f)
  {
    hide OpLayouts, Encodes, Accepted, FirstRow, MainBit, ZeroAt, OneAt, FieldValue;
    if Bit(f.discVal, f.discStart + f.discBits - 1 - p) {
      MainZero(ins, p);
      assert RoomEnd(ins) <= p by { ZeroIsAbove(ins, p); }
      AboveTheRoom(words, ins, p);
    } else {
      MainOne(ins, p);
      MainShows(words, ins, p);
    }
    FieldDiffers(words, f.discStart, f.discBits, f.discVal, p);
  }

  lemma ZeroIsAbove(ins: Instr, p: nat)
    requires WellFormed(ins) && ZeroAt(FormOf(ins), ins.len, |FormOf(ins).locs|, p)
    ensures RoomEnd(ins) <= p < 25 * ins.len
  {
  }

  lemma MainShows(words: seq<nat>, ins: Instr, p: nat)
    requires Assembled(words, ins) && MainBit(ins, p) && p < 25 * ins.len
    ensures Flat(words, p)
  {
    hide OpLayouts, PRows, Accepted, FirstRow, MainBit, ParBit;
  }

  /** The discriminator of a form that is not the last reads as written. */
  lemma OwnDiscRead(words: seq<nat>, ins: Instr)
    requires Assembled(words, ins) && !NopWithArg(ins)
    requires OwnDisc(FormOf(ins), ins.len, |FormOf(ins).locs|)
    ensures FormOf(ins).discStart + FormOf(ins).discBits <= 100
    ensures Matches(words, FormOf(ins))
  {
    hide OpLayouts, Encodes, Accepted, FirstRow, MainBit, Bit, FieldValue, FormOk, Framed, NoneIn;
    var f := FormOf(ins);
    assert |words| == 4 by { FourWords(words, ins); }
    assert f.discStart + f.discBits <= 25 * ins.len by { MainFormOk(ins); DiscEnds(f, ins.len, |f.locs|); }
    if f.discBits > 0 {
      var w := Write(f.discStart, f.discBits, f.discVal);
      forall p | In(w.start, w.len, p)
        ensures Flat(words, p) <==> Covers(w, p)
      {
        DiscOnly(ins, p);
        AboveTheRoom(words, ins, p);
      }
      FieldIs(words, w);
      LowId(f.discVal, f.discBits);
    }
  }

  lemma FourWords(words: seq<nat>, ins: Instr)
    requires Assembles(ins) && Encodes(words, ins)
    ensures |words| == 4
  {
    hide Assembles, InstrBit;
  }

  lemma DiscEnds(f: Layout, len: nat, n: nat)
    requires FormOk(f, len, n)
    ensures f.discStart + f.discBits <= 25 * len
  {
  }

  lemma DiscOnly(ins: Instr, p: nat)
    requires Assembles(ins) && GoodRow(ins.row) && !NopWithArg(ins)
    requires OwnDisc(FormOf(ins), ins.len, |FormOf(ins).locs|)
    requires In(FormOf(ins).discStart, FormOf(ins).discBits, p)
    ensures RoomEnd(ins) <= p
    ensures MainBit(ins, p) <==> DiscBit(FormOf(ins), p)
  {
    hide OpLayouts, PRows, FirstRow, AllApart, LocsFit, NoneIn, RoomBit, Bit, SlotsBit, Framed, Ones;
    var f := FormOf(ins);
    MainFormOk(ins);
    MainFramed(ins);
    OpcodeWordBit(ins.row.op, ins.len, p);
    RoomBitAt(ins, p);
    SlotsMiss(MainOp(ins), RoomEnd(ins), 25 * ins.len, f.discStart, f.discBits, p);
    if MaskBit(f, p) {
      var w :| 0 <= w < 4 && WordBit(w, f.mask[w], p);
      MaskBitAt(f, |f.locs|, ins.len, w, p);
    }
  }
}
