/** A parallel operation is found again: its row, its form, its operands. */
module ParallelTrip {
  import opened Bits
  import opened OpWords
  import opened Operands
  import opened Layouts
  import opened Fields
  import opened OperandFields
  import opened Tables
  import opened Instructions
  import opened Regions
  import opened ParallelRows
  import opened Disassembler
  import opened Selection
  import opened Heads

  /** In the room an instruction has only its parallel operation's bits. */
  lemma RoomFlat(words: seq<nat>, ins: Instr, p: nat)
    requires Assembled(words, ins) && ins.pop.Some? && 10 <= p < PRoomEnd(ins)
    ensures |words| == 4 && (ins.len == 2 || ins.len == 4) && Selected(ins) && Shaped(ParOp(ins))
    ensures Flat(words, p) <==> ParBit(ins, p)
  {
    hide OpLayouts, PRows, POpLayouts, Encodes, Accepted, Selected, FirstRow, ParBit;
    FourWords(words, ins);
    PopIsSelected(ins);
    SelectedFacts(ins);
    HeadFlat(words, ins, p);
    RoomBitAt(ins, p);
    SharedBit(ins, p);
  }

  /** Opcode bits that no field, name bit or discriminator covers. */
  lemma PlainOpcodeBit(ins: Instr, p: nat)
    requires Selected(ins) && 10 <= p < LowField(PRowOf(ins).layout)
    requires p != PRowOf(ins).mdfrBit && !In(PForm(ins).discStart, PForm(ins).discBits, p)
    ensures ParBit(ins, p) <==> POpcodeBit(PRowOf(ins).op, p)
  {
    hide PRows, PRowClear, POpLayouts, Accepted, Bit, SlotsBit, AllApart, LocsFit, NoneIn;
    ParFormOk(ins);
    SelectedFacts(ins);
    POpcodeWordBit(PRowOf(ins).op, p);
    if SlotsBit(Slots(ParOp(ins)), p) {
      SlotsInside(ParOp(ins), LowField(PRowOf(ins).layout), PRoomEnd(ins), p);
    }
  }

  /** Where the discriminator may lie. */
  lemma DiscPlace(ins: Instr)
    requires Selected(ins)
    ensures var f := PForm(ins);
            f.discBits > 0 ==> f.discStart >= 15 && (f.discStart >= 16 || LowBitShared(PRowOf(ins).layout))
    ensures PRowOf(ins).mdfrBit == AltBit(PRowOf(ins).layout)
  {
    hide PRows, PRowClear, POpLayouts, Accepted, Bit, SlotsBit, AllApart, LocsFit, NoneIn;
    ParFormOk(ins);
    PFormsArePaired(PRowOf(ins).layout);
  }

  /** Splitting off the last bit of a field. */
  lemma LastBit(words: seq<nat>, start: nat, len: nat)
    requires start + len < 25 * |words|
    ensures FieldValue(words, start, len + 1) ==
            2 * FieldValue(words, start, len) + if Flat(words, start + len) then 1 else 0
  {
  }

  /** The opcode's upper bits as a field. */
  lemma UpperBits(words: seq<nat>, op: nat, n: nat)
    requires |words| == 4 && op < 64 && n <= 6
    requires forall p :: 10 <= p < 10 + n ==> (Flat(words, p) <==> Bit(op, 15 - p))
    ensures FieldValue(words, 10, n) == Shr(op, 6 - n)
  {
    forall j: nat
      ensures Bit(FieldValue(words, 10, n), j) == Bit(Shr(op, 6 - n), j)
    {
      FieldValueBit(words, 10, n, j);
      BitShr(op, 6 - n, j);
      assert Pow2(6) == 64 by { Pow2s(); }
      if j >= n { HighBit(op, 6, j + 6 - n); }
    }
    BitsExt(FieldValue(words, 10, n), Shr(op, 6 - n));
  }

  /** The row read back: the one written, or its shadow when the shared bit is set. */
  predicate SameRow(rows: seq<POpRow>, i: nat, r: nat) {
    i < |rows| && r < |rows| && (r == i || (r == i + 1 && Shadowed(rows, r)))
  }

  lemma SixBits(words: seq<nat>)
    requires |words| == 4
    ensures FieldValue(words, 10, 6) == 2 * FieldValue(words, 10, 5) + (if Flat(words, 15) then 1 else 0)
    ensures FieldValue(words, 10, 6) / 16 == FieldValue(words, 10, 2)
    ensures FieldValue(words, 10, 6) < 64
  {
    LastBit(words, 10, 2);
    LastBit(words, 10, 3);
    LastBit(words, 10, 4);
    LastBit(words, 10, 5);
    FieldValueBound(words, 10, 6);
    assert Pow2(6) == 64 by { Pow2s(); }
  }

  /** The dual moves of two-word instructions are recognised by two bits. */
  lemma DualValue(words: seq<nat>, ins: Instr)
    requires Assembled(words, ins) && ins.pop.Some?
    requires PRowOf(ins).layout == P_MOVX_DUAL_READ_2 || PRowOf(ins).layout == P_MOVX_DUAL_WRITE_2
    ensures |words| == 4 && ParallelValue(words, ins.len) == Some(PRowOf(ins).op)
  {
    hide OpLayouts, PRows, POpLayouts, Encodes, Accepted, FirstRow, ParBit, Bit, FieldValue;
    RoomFlat(words, ins, 10);
    RoomFlat(words, ins, 11);
    DiscPlace(ins);
    PlainOpcodeBit(ins, 10);
    PlainOpcodeBit(ins, 11);
    SixBits(words);
    UpperBits(words, PRowOf(ins).op, 2);
    ShrIsDiv(PRowOf(ins).op, 4);
    assert Pow2(4) == 16 by { Pow2s(); }
  }

  lemma PlainUpper(words: seq<nat>, ins: Instr)
    requires Assembled(words, ins) && ins.pop.Some?
    requires PRowOf(ins).layout != P_MOVX_DUAL_READ_2 && PRowOf(ins).layout != P_MOVX_DUAL_WRITE_2
    ensures |words| == 4
    ensures FieldValue(words, 10, 6) == PRowOf(ins).op / 2 * 2 + if Flat(words, 15) then 1 else 0
  {
    hide OpLayouts, PRows, POpLayouts, PRowClear, Encodes, Accepted, Selected, FirstRow, ParBit, Bit, FieldValue;
    var op := PRowOf(ins).op;
    forall p | 10 <= p < 15
      ensures |words| == 4 && (Flat(words, p) <==> Bit(op, 15 - p))
    {
      RoomFlat(words, ins, p);
      DiscPlace(ins);
      PlainOpcodeBit(ins, p);
    }
    RoomFlat(words, ins, 15);
    SelectedFacts(ins);
    SixBits(words);
    UpperBits(words, op, 5);
    assert Shr(op, 1) == op / 2;
  }

  /** The conditional execution leaves clear the bit that would mark the room as empty. */
  lemma ExecIsNotEmpty(ins: Instr)
    requires Selected(ins)
    ensures PRowOf(ins).layout == P_EXECUTE_COND_2 ==> !ParBit(ins, 16)
    ensures PRowOf(ins).layout == P_EXECUTE_COND_4 ==> !ParBit(ins, 17)
  {
    hide PRows, PRowClear, Accepted, SlotsBit, AllApart, LocsFit, NoneIn;
    var row := PRowOf(ins);
    if row.layout == P_EXECUTE_COND_2 || row.layout == P_EXECUTE_COND_4 {
      ParFormOk(ins);
      SelectedFacts(ins);
      POpcodeWordBit(row.op, 16);
      POpcodeWordBit(row.op, 17);
      if SlotsBit(Slots(ParOp(ins)), 16) { SlotsInside(ParOp(ins), 20, PRoomEnd(ins), 16); }
      if SlotsBit(Slots(ParOp(ins)), 17) { SlotsInside(ParOp(ins), 20, PRoomEnd(ins), 17); }
    }
  }

  /** A clear opcode is read exactly, a shared one with its lowest bit set or not. */
  lemma ValueRead(words: seq<nat>, ins: Instr)
    requires Assembled(words, ins) && ins.pop.Some?
    ensures |words| == 4 && ParallelValue(words, ins.len).Some?
    ensures var v, op := ParallelValue(words, ins.len).value, PRowOf(ins).op;
            v == op || (v == op + 1 && op % 2 == 0 && LowBitShared(PRowOf(ins).layout))
  {
    hide OpLayouts, PRows, POpLayouts, PRowClear, Encodes, Accepted, Selected, FirstRow, ParBit, FieldValue, Flat;
    var row := PRowOf(ins);
    RoomFlat(words, ins, 15);
    RoomFlat(words, ins, 16);
    RoomFlat(words, ins, 17);
    if row.layout == P_MOVX_DUAL_READ_2 || row.layout == P_MOVX_DUAL_WRITE_2 {
      DualValue(words, ins);
    } else {
      PlainUpper(words, ins);
      PlainRange(ins);
      ExecIsNotEmpty(ins);
      OneBitField(words, 16);
      OneBitField(words, 17);
      if LowBitShared(row.layout) {
        if row.op % 2 == 1 { OpcodeShows(ins, 15); }
      } else {
        DiscPlace(ins);
        PlainOpcodeBit(ins, 15);
      }
    }
  }

  lemma OpcodeShows(ins: Instr, p: nat)
    requires Selected(ins) && POpcodeBit(PRowOf(ins).op, p)
    ensures ParBit(ins, p)
  {
    hide PRows, PRowClear, POpLayouts, Accepted, Bit;
    SelectedFacts(ins);
    POpcodeWordBit(PRowOf(ins).op, p);
  }

  /** The opcodes for which the empty room has to be ruled out. */
  lemma PlainRange(ins: Instr)
    requires Selected(ins)
    requires PRowOf(ins).layout != P_MOVX_DUAL_READ_2 && PRowOf(ins).layout != P_MOVX_DUAL_WRITE_2
    ensures var row := PRowOf(ins);
            (ins.len == 2 || ins.len == 4) &&
            (row.layout == P_EXECUTE_COND_2 ==> ins.len == 2) && (row.layout == P_EXECUTE_COND_4 ==> ins.len == 4) &&
            (row.op == 0x3f <==> row.layout == P_EXECUTE_COND_2 || row.layout == P_EXECUTE_COND_4) &&
            (ins.len == 2 ==> row.op >= 0x30 && (row.op < 0x3d || row.op == 0x3f)) &&
            (row.op % 2 == 0 ==> row.op < 0x3e || !LowBitShared(row.layout))
  {
    hide PRows, POpLayouts, Accepted;
  }

  /** The row found: the one written or, if the shared bit is set, its shadow. */
  lemma RowRead(words: seq<nat>, ins: Instr)
    requires Assembled(words, ins) && ins.pop.Some?
    ensures |words| == 4 && ParallelValue(words, ins.len).Some? && (ins.len == 2 || ins.len == 4)
    ensures var r := FindPRow(PRows(ins.len), ParallelValue(words, ins.len).value, 0);
            r.Some? && SameRow(PRows(ins.len), ins.pop.value.row, r.value)
  {
    hide OpLayouts, PRows, POpLayouts, Encodes, Accepted, FirstRow, ParBit, FieldValue, Flat;
    hide ParallelValue, FindPRow;
    ValueRead(words, ins);
    RoomFlat(words, ins, 15);
    var i := ins.pop.value.row;
    RowIsFound(ins.len, i);
    if ParallelValue(words, ins.len).value == PRowOf(ins).op + 1 {
      assert PRowOf(ins).op != 0x2b;
      RowIsFound(ins.len, i + 1);
    }
  }

  /* ---------- The form and the name ---------- */

  lemma PDiscOnly(ins: Instr, p: nat)
    requires Selected(ins) && In(PForm(ins).discStart, PForm(ins).discBits, p)
    ensures 15 <= p < PRoomEnd(ins)
    ensures ParBit(ins, p) <==> POpcodeBit(PRowOf(ins).op, p) || DiscBit(PForm(ins), p)
  {
    hide PRows, PRowClear, POpLayouts, Accepted, Bit, SlotsBit, AllApart, LocsFit, NoneIn;
    var f := PForm(ins);
    ParFormOk(ins);
    SelectedFacts(ins);
    POpcodeWordBit(PRowOf(ins).op, p);
    SlotsMiss(ParOp(ins), LowField(PRowOf(ins).layout), PRoomEnd(ins), f.discStart, f.discBits, p);
  }

  /** The discriminator reads as written unless an odd opcode lies over it. */
  lemma PDiscRead(words: seq<nat>, ins: Instr)
    requires Assembled(words, ins) && ins.pop.Some?
    requires PForm(ins).discStart >= 16 || PRowOf(ins).op % 2 == 0
    ensures |words| == 4 && PForm(ins).discStart + PForm(ins).discBits <= 100
    ensures FieldValue(words, PForm(ins).discStart, PForm(ins).discBits) == PForm(ins).discVal
  {
    hide OpLayouts, PRows, POpLayouts, PRowClear, Encodes, Accepted, Selected, FirstRow, ParBit, FieldValue, Flat;
    hide AllApart, LocsFit, NoneIn;
    var f := PForm(ins);
    RoomFlat(words, ins, 15);
    ParFormOk(ins);
    SelectedFacts(ins);
    var w := Write(f.discStart, f.discBits, f.discVal);
    forall p | In(w.start, w.len, p)
      ensures p < 100 && (Flat(words, p) <==> Covers(w, p))
    {
      PDiscOnly(ins, p);
      RoomFlat(words, ins, p);
    }
    FieldIs(words, w);
    LowId(f.discVal, f.discBits);
  }

  /** The one row whose opcode hides its discriminator. */
  predicate HidesForm(ins: Instr)
    requires WellFormed(ins) && ins.pop.Some?
  {
    ins.len == 4 && PRowOf(ins).op == 0x2b && ins.pop.value.k == 0
  }

  lemma OnlyOneHides(ins: Instr)
    requires Selected(ins)
    ensures PForm(ins).discBits > 0 && PForm(ins).discStart < 16 && PRowOf(ins).op % 2 == 1 ==>
              ins.len == 4 && PRowOf(ins).op == 0x2b && PForm(ins).discStart == 15
    ensures |POpLayouts(PRowOf(ins).layout)| == 2 ==> PForm(ins).discVal == ins.pop.value.k && PForm(ins).discBits == 1
    ensures PFormsPaired(POpLayouts(PRowOf(ins).layout))
    ensures PRowOf(ins).op == 0x2b && ins.len == 4 ==>
              |POpLayouts(PRowOf(ins).layout)| == 2 && PForm(ins).discStart == 15
  {
    hide PRows, POpLayouts, Accepted, Bit, SlotsBit, AllApart, LocsFit, NoneIn;
    DiscPlace(ins);
    SelectedFacts(ins);
    PFormsArePaired(PRowOf(ins).layout);
  }

  lemma PFormInWords(ins: Instr, k: nat)
    requires Selected(ins) && k < |POpLayouts(PRowOf(ins).layout)|
    ensures POpLayouts(PRowOf(ins).layout)[k].discStart + POpLayouts(PRowOf(ins).layout)[k].discBits <= 100
  {
    hide PRows, PRowClear, POpLayouts, Accepted, AllApart, LocsFit, NoneIn;
    PFormIsOk(PRowOf(ins).layout, k);
  }

  /** The form chosen is the one written, but for the hidden one. */
  lemma PFormRead(words: seq<nat>, ins: Instr)
    requires Assembled(words, ins) && ins.pop.Some?
    ensures |words| == 4 && DiscsIn(POpLayouts(PRowOf(ins).layout), 100)
    ensures Choose(words, POpLayouts(PRowOf(ins).layout), 0) == if HidesForm(ins) then 1 else ins.pop.value.k
  {
    hide OpLayouts, PRows, POpLayouts, PRowClear, Encodes, Accepted, Selected, FirstRow, ParBit, FieldValue, Flat;
    var forms, k := POpLayouts(PRowOf(ins).layout), ins.pop.value.k;
    RoomFlat(words, ins, 15);
    OnlyOneHides(ins);
    forall j | 0 <= j < |forms|
      ensures forms[j].discStart + forms[j].discBits <= 100
    {
      PFormInWords(ins, j);
    }
    if |forms| == 2 {
      assert forms[k] == PForm(ins);
      if PForm(ins).discStart >= 16 || PRowOf(ins).op % 2 == 0 {
        PDiscRead(words, ins);
      } else {
        OpcodeShows(ins, 15);
        OneBitField(words, 15);
      }
      assert Choose(words, forms, 1) == 1;
    }
  }

  lemma NameBit(ins: Instr)
    requires Selected(ins) && PRowOf(ins).mdfrBit != 0
    ensures 10 <= PRowOf(ins).mdfrBit < PRoomEnd(ins)
    ensures ParBit(ins, PRowOf(ins).mdfrBit) <==> ins.pop.value.useAlt
  {
    hide PRows, PRowClear, POpLayouts, Accepted, Bit, SlotsBit, AllApart, LocsFit, NoneIn;
    var row := PRowOf(ins);
    ParFormOk(ins);
    SelectedFacts(ins);
    DiscPlace(ins);
    POpcodeWordBit(row.op, row.mdfrBit);
    if POpcodeBit(row.op, row.mdfrBit) { OpcodeIsClear(ins, row.mdfrBit); }
    SlotsMiss(ParOp(ins), LowField(row.layout), PRoomEnd(ins), row.mdfrBit, 1, row.mdfrBit);
  }

  lemma NameRead(words: seq<nat>, ins: Instr)
    requires Assembled(words, ins) && ins.pop.Some?
    ensures |words| == 4 && PRowOf(ins).mdfrBit < 100
    ensures var row := PRowOf(ins);
            (if row.mdfrBit != 0 && Flat(words, row.mdfrBit) then row.alt else row.name) == PName(row, ins.pop.value.useAlt)
  {
    hide OpLayouts, PRows, POpLayouts, PRowClear, Encodes, Accepted, ParBit, Flat, RowTakes;
    RoomFlat(words, ins, 15);
    var row := PRowOf(ins);
    if row.mdfrBit != 0 {
      NameBit(ins);
      RoomFlat(words, ins, row.mdfrBit);
    }
  }

  /* ---------- The operands ---------- */

  lemma {:induction false} LocsFitWider(locs: seq<Loc>, n: nat, lo: nat, hi: nat, hi': nat)
    requires n <= |locs| && hi <= hi' && LocsFit(locs, n, lo, hi)
    ensures LocsFit(locs, n, lo, hi')
    decreases n
  {
    if n > 0 { LocsFitWider(locs, n - 1, lo, hi, hi'); }
  }

  lemma FramedWider(o: Operation, lo: nat, hi: nat, hi': nat)
    requires Framed(o, lo, hi) && hi <= hi'
    ensures Framed(o, lo, hi')
  {
    LocsFitWider(o.form.locs, |o.form.locs|, lo, hi, hi');
  }

  lemma ParHolds(words: seq<nat>, ins: Instr)
    requires Assembled(words, ins) && ins.pop.Some?
    ensures |words| == 4 && Shaped(ParOp(ins)) && HoldsOperands(words, ParOp(ins))
  {
    hide OpLayouts, PRows, POpLayouts, PRowClear, Encodes, Accepted, Selected, FirstRow, ParBit, Flat, SlotsBit;
    RoomFlat(words, ins, 15);
    var o := ParOp(ins);
    forall i, p | 0 <= i < |o.operands| && 0 <= p < 25 * |words| && InLoc(LocOf(o, i), p)
      ensures Flat(words, p) <==> SlotsBit(Slots(o), p)
    {
      ParConstants(ins, i, p);
      RoomFlat(words, ins, p);
    }
  }

  /** The parallel operation's own operands come back exactly when none is misread. */
  lemma ParOperandsRead(words: seq<nat>, ins: Instr)
    requires Assembled(words, ins) && ins.pop.Some? && ins.pop.value.split == SplitOf(PForm(ins).locs)
    ensures |words| == 4 && Shaped(ParOp(ins)) && Readable(words, PForm(ins), PRowOf(ins).swap)
    ensures ReadOperands(words, PForm(ins), PRowOf(ins).swap, MdfrNone) == ins.pop.value.operands <==> NoneMisread(ParOp(ins))
  {
    hide OpLayouts, PRows, POpLayouts, PRowClear, Encodes, AcceptsAt, Selected, HoldsOperands, AllApart, LocsFit, NoneIn;
    hide ReadOperands, NoneMisread, RowTakes, Readable, ParBit, PFormOk;
    var o := ParOp(ins);
    ParHolds(words, ins);
    PopIsSelected(ins);
    ParFormOk(ins);
    SelectedFacts(ins);
    var lo := LowField(PRowOf(ins).layout);
    FramedWider(o, lo, PRoomEnd(ins), 100);
    assert MdfrShown(o);
    OperandsBack(o, words, lo);
  }
}
