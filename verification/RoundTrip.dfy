/** Disassembling an assembled instruction gives the instruction back, exactly when it is
    none of the named exceptions. */
module RoundTrip {
  import opened Bits
  import opened OpWords
  import opened Operands
  import opened Layouts
  import opened Fields
  import opened OperandFields
  import opened Tables
  import opened Instructions
  import opened Regions
  import opened ParallelRows
  import opened Disassembler
  import opened Selection
  import opened Heads
  import opened ParallelTrip

  /* ---------- The main operation's form ---------- */

  lemma MainLayout(ins: Instr)
    requires Assembles(ins) && GoodRow(ins.row) && Id(ins) != L_NOP
    ensures ins.operands != [] && FormOf(ins) == OpLayouts(Id(ins))[ins.k] && !NopWithArg(ins)
    ensures LenOf(Id(ins)) == ins.len
  {
    hide OpLayouts, PRows, Accepted, FirstRow;
    RowLayout(ins);
  }

  /** In a two-word instruction with room, the six bits of the room never read 0x3e. */
  lemma RoomValue(words: seq<nat>, ins: Instr)
    requires Assembled(words, ins) && FormOf(ins).optArgs && ins.len == 2
    ensures |words| == 4 && FieldValue(words, 10, 6) != 0x3e
  {
    hide OpLayouts, PRows, POpLayouts, PRowClear, Encodes, Accepted, Selected, FirstRow, ParBit, FieldValue, Flat;
    FourWords(words, ins);
    SixBits(words);
    if ins.pop.None? {
      HeadFlat(words, ins, 15);
      RoomBitAt(ins, 15);
    } else {
      RoomFlat(words, ins, 15);
      if PRowOf(ins).layout == P_MOVX_DUAL_READ_2 || PRowOf(ins).layout == P_MOVX_DUAL_WRITE_2 {
        DualValue(words, ins);
        DualRange(ins);
      } else {
        PlainUpper(words, ins);
        PlainRange(ins);
        if PRowOf(ins).op % 2 == 1 { OpcodeShows(ins, 15); }
      }
    }
  }

  lemma DualRange(ins: Instr)
    requires Selected(ins)
    requires PRowOf(ins).layout == P_MOVX_DUAL_READ_2 || PRowOf(ins).layout == P_MOVX_DUAL_WRITE_2
    ensures PRowOf(ins).op < 0x30
  {
    hide PRows, POpLayouts, Accepted;
  }

  lemma RoomStart(words: seq<nat>, ins: Instr)
    requires Assembled(words, ins) && FormOf(ins).optArgs && ins.len == 4
    ensures |words| == 4 && Flat(words, 10)
  {
    hide OpLayouts, PRows, POpLayouts, PRowClear, Encodes, Accepted, Selected, FirstRow, ParBit, FieldValue, Flat;
    FourWords(words, ins);
    if ins.pop.None? {
      HeadFlat(words, ins, 10);
      RoomBitAt(ins, 10);
    } else {
      RoomFlat(words, ins, 10);
      SelectedFacts(ins);
      HighOne(PRowOf(ins).op);
      OpcodeShows(ins, 10);
    }
  }

  lemma HighOne(op: nat)
    requires 32 <= op < 64
    ensures Bit(op, 5)
  {
    BitShr(op, 5, 0);
    ShrIsDiv(op, 5);
    assert Pow2(5) == 32 by { Pow2s(); }
  }

  /** What fills the room is not taken for a form without room. */
  lemma RoomTells(words: seq<nat>, ins: Instr, f: Layout)
    requires Assembled(words, ins) && FormOf(ins).optArgs && InRoom(f) && |words| == 4
    requires RoomDisc(f, ins.len)
    ensures !Matches(words, f)
  {
    hide OpLayouts, Encodes, Accepted, FirstRow, Flat;
    if ins.len == 2 {
      RoomValue(words, ins);
      LastBit(words, 10, 6);
    } else {
      RoomStart(words, ins);
      BitZero(f.discBits - 1);
      FieldDiffers(words, 10, f.discBits, 0, 10);
    }
  }

  lemma EarlierForm(words: seq<nat>, ins: Instr, j: nat)
    requires Assembled(words, ins) && Id(ins) != L_NOP && |words| == 4 && j < ins.k
    requires OpLayouts(Id(ins))[j].discStart + OpLayouts(Id(ins))[j].discBits <= 100
    ensures !Matches(words, OpLayouts(Id(ins))[j])
  {
    hide OpLayouts, Encodes, Accepted, FirstRow, Matches, TellsApart, InRoom, RoomDisc;
    MainLayout(ins);
    var f := OpLayouts(Id(ins))[j];
    if InRoom(f) && FormOf(ins).optArgs {
      RoomDiscs(Id(ins), j);
      RoomTells(words, ins, f);
    } else {
      FormsAreToldApart(Id(ins), j, ins.k);
      ToldApart(words, ins, f, Witness(Id(ins), j));
    }
  }

  /** Two layouts have a discriminator that other bits of the instruction cover. */
  predicate CoveredDisc(id: LayoutId) { id == L_R_X_Y_A_2 || id == L_LOOP_PC_LIT_16_2 }

  lemma TwoForms(id: LayoutId)
    requires CoveredDisc(id)
    ensures |OpLayouts(id)| == 2
  {
  }

  lemma FormRead(words: seq<nat>, ins: Instr)
    requires Assembled(words, ins) && Id(ins) != L_NOP
    requires !CoveredDisc(Id(ins)) || ins.k == 1
    ensures |words| == 4 && DiscsIn(OpLayouts(Id(ins)), 100) && Choose(words, OpLayouts(Id(ins)), 0) == ins.k
  {
    hide OpLayouts, Encodes, Accepted, FirstRow, Matches, OwnDisc, Choose, Readable;
    FourWords(words, ins);
    MainLayout(ins);
    var forms := OpLayouts(Id(ins));
    FormsAreReadable(words, ins.row, ins.len);
    if CoveredDisc(Id(ins)) { TwoForms(Id(ins)); }
    forall j | 0 <= j < ins.k
      ensures !Matches(words, forms[j])
    {
      EarlierForm(words, ins, j);
    }
    if ins.k + 1 < |forms| {
      FormKnowsItself(Id(ins), ins.k);
      OwnDiscRead(words, ins);
    }
    ChooseIs(words, forms, 0, ins.k);
  }

  /* ---------- The main operation's operands ---------- */

  lemma MainHolds(words: seq<nat>, ins: Instr)
    requires Assembled(words, ins) && !NopWithArg(ins)
    ensures |words| == 4 && Shaped(MainOp(ins)) && HoldsOperands(words, MainOp(ins))
  {
    hide OpLayouts, PRows, POpLayouts, Encodes, AcceptsAt, Selected, FirstRow, MainBit, Flat, SlotsBit;
    FourWords(words, ins);
    var o := MainOp(ins);
    MainFramed(ins);
    forall i, p | 0 <= i < |o.operands| && 0 <= p < 25 * |words| && InLoc(LocOf(o, i), p)
      ensures Flat(words, p) <==> SlotsBit(Slots(o), p)
    {
      MainConstants(ins, i, p);
      AboveTheRoom(words, ins, p);
    }
  }

  lemma MdfrFits(ins: Instr)
    requires WellFormed(ins) && GoodRow(ins.row)
    ensures ins.row.mdfr == Mdfr16Upper || ins.row.mdfr == Mdfr16Signed ==>
              Id(ins) != L_PC_LIT_16_2 && Id(ins) != L_LOOP_PC_LIT_16_2
  {
    hide OpLayouts;
    assert ins.row.layouts[LenIndex(ins.len)] == Id(ins);
  }

  lemma MainLiterals(ins: Instr)
    requires WellFormed(ins) && GoodRow(ins.row) && Id(ins) != L_NOP && ins.operands != []
    requires Id(ins) != L_PC_LIT_16_2 && Id(ins) != L_LOOP_PC_LIT_16_2
    ensures LiteralsShown(FormOf(ins).locs, |FormOf(ins).locs|)
  {
    hide OpLayouts, FormOk, LiteralsShown;
    FormIsOk(Id(ins), ins.k);
  }

  lemma MainMdfrShown(ins: Instr)
    requires Assembles(ins) && GoodRow(ins.row)
    ensures Shaped(MainOp(ins)) && MdfrShown(MainOp(ins))
  {
    hide OpLayouts, PRows, AcceptsAt, FirstRow, GoodRow, LiteralsShown;
    MdfrFits(ins);
    if Id(ins) == L_NOP {
      NopForm(ins.k);
    } else if Id(ins) != L_PC_LIT_16_2 && Id(ins) != L_LOOP_PC_LIT_16_2 {
      var locs := FormOf(ins).locs;
      MainLiterals(ins);
      forall j | 0 <= j < |locs| && locs[j].ty == Lit(LITERAL_16)
        ensures locs[j].dir in {DirSrc, DirX, DirY}
      {
        LiteralsShownAt(locs, |locs|, j);
      }
    }
  }

  lemma MainPlaced(words: seq<nat>, ins: Instr)
    requires Assembled(words, ins) && !NopWithArg(ins) && ins.split == SplitOf(FormOf(ins).locs)
    ensures |words| == 4 && Placed(MainOp(ins), RoomEnd(ins), 25 * |words|)
  {
    hide OpLayouts, PRows, Encodes, AcceptsAt, FirstRow, AllApart, LocsFit;
    FourWords(words, ins);
    MainFramed(ins);
    FramedWider(MainOp(ins), RoomEnd(ins), 25 * ins.len, 100);
  }

  lemma MainOperandsRead(words: seq<nat>, ins: Instr)
    requires Assembled(words, ins) && !NopWithArg(ins) && ins.split == SplitOf(FormOf(ins).locs)
    ensures |words| == 4 && Shaped(MainOp(ins)) && Readable(words, FormOf(ins), ins.row.swap)
    ensures ReadOperands(words, FormOf(ins), ins.row.swap, ins.row.mdfr) == ins.operands <==> NoneMisread(MainOp(ins))
  {
    hide OpLayouts, PRows, Encodes, AcceptsAt, HoldsOperands, Framed;
    hide ReadOperands, NoneMisread, FirstRow, Readable, MainBit, MdfrShown;
    FourWords(words, ins);
    MainHolds(words, ins);
    MainMdfrShown(ins);
    MainPlaced(words, ins);
    OperandsBack(MainOp(ins), words, RoomEnd(ins));
  }

  /* ---------- The two covered discriminators ---------- */

  /** Two forms told apart by one bit. */
  lemma OneBitChoice(words: seq<nat>, forms: seq<Layout>, p: nat)
    requires |forms| == 2 && DiscsIn(forms, 25 * |words|) && p < 25 * |words|
    requires forms[0].discStart == p && forms[0].discBits == 1 && forms[0].discVal == 0
    ensures Choose(words, forms, 0) == if Flat(words, p) then 1 else 0
  {
    OneBitField(words, p);
    assert Choose(words, forms, 1) == 1;
  }

  lemma LoopForms()
    ensures var forms := OpLayouts(L_LOOP_PC_LIT_16_2);
            |forms| == 2 && DiscsIn(forms, 100) &&
            forms[0].discStart == 9 && forms[0].discBits == 1 && forms[0].discVal == 0 &&
            |forms[0].locs| == |forms[1].locs| == 2 &&
            forms[0].locs[0].ty == Nar(REG_4) && forms[1].locs[0].ty == Lit(LITERAL_16)
  {
  }

  lemma FmaForms()
    ensures var forms := OpLayouts(L_R_X_Y_A_2);
            |forms| == 2 && |forms[0].locs| == 8 && |forms[1].locs| == 4
  {
  }

  lemma DualForms()
    ensures var forms := POpLayouts(P_MOVX_DUAL_4);
            |forms| == 2 && |forms[0].locs| == |forms[1].locs| == 4 &&
            forms[0].locs[1].ty == Adr(A_REG_X) && forms[1].locs[1].ty == Adr(A_REG_X_PLUS_MDFR)
  {
  }

  lemma OddBit(x: nat)
    ensures Bit(x, 0) <==> x % 2 == 1
  {
  }

  /** The counted loops are told apart by the opcode's lowest bit, whichever form wrote it. */
  lemma LoopFormRead(words: seq<nat>, ins: Instr)
    requires Assembled(words, ins) && Id(ins) == L_LOOP_PC_LIT_16_2
    ensures |words| == 4 && ins.k < 2 && DiscsIn(OpLayouts(Id(ins)), 100)
    ensures Choose(words, OpLayouts(Id(ins)), 0) == SeenOp(ins) % 2
  {
    hide OpLayouts, PRows, Encodes, Accepted, FirstRow, Flat, FieldValue, Choose, Bit;
    FourWords(words, ins);
    LoopForms();
    LoopForm(ins);
    PrefixFlat(words, ins, 9);
    OneBitChoice(words, OpLayouts(Id(ins)), 9);
    OddBit(ins.row.op);
  }

  /** The second Y register covers the discriminator. */
  predicate HidesY(ins: Instr)
    requires WellFormed(ins)
  {
    Id(ins) == L_R_X_Y_A_2 && ins.k == 0 && |ins.operands| == 8 &&
    ins.operands[6] in {Named(10), Named(11), Named(12)}
  }

  lemma YRange(r: nat)
    requires NarrowAccepts(REG_3_FMA_Y_T2, r)
    ensures 8 <= r <= 12
  {
  }

  lemma YField(o: Operand, base: Operand, twin: Operand, mdfr: SrcMdfr)
    requires Valid(o) && Accepts(Nar(REG_3_FMA_Y_T2), o, base, twin, mdfr)
    ensures var v := Raw(Nar(REG_3_FMA_Y_T2), o, base, mdfr);
            v < 8 && (v / 2 == 0 <==> o !in {Named(10), Named(11), Named(12)})
  {
    hide RegVal, NarrowAccepts;
    RegNamed(o);
    YRange(RegVal(o));
    assert o.Named? && (0x300 + o.reg) % 8 == o.reg - 8;
  }

  lemma FmaForm(ins: Instr)
    requires WellFormed(ins) && Id(ins) == L_R_X_Y_A_2 && ins.k == 0 && ins.operands != []
    ensures var f := FormOf(ins);
            |f.locs| == 8 && f.locs[6].ty == Nar(REG_3_FMA_Y_T2) && f.locs[6].start1 == 30 && f.locs[6].bits1 == 3 &&
            f.locs[6].bits2 == 0 && f.discStart == 30 && f.discBits == 2 && f.discVal == 0
  {
  }

  lemma SecondYAccepted(ins: Instr)
    requires Assembles(ins) && GoodRow(ins.row) && Id(ins) == L_R_X_Y_A_2 && ins.k == 0
    ensures Shaped(MainOp(ins)) && |ins.operands| == 8 && LocOf(MainOp(ins), 6) == FormOf(ins).locs[6]
    ensures var v := Raw(LocOf(MainOp(ins), 6).ty, ins.operands[6], CheckBase(MainOp(ins), 6), ins.row.mdfr);
            v < 8 && (v / 2 == 0 <==> !HidesY(ins))
  {
    hide OpLayouts, PRows, FirstRow, AllApart, LocsFit, Raw, Accepts;
    MainLayout(ins);
    RowLayout(ins);
    FmaForm(ins);
    var o := MainOp(ins);
    assert AcceptsAt(o, 6);
    YField(o.operands[6], CheckBase(o, 6), At(o.operands, o.split + Num(o, 6)), o.mdfr);
  }

  lemma SecondYValue(words: seq<nat>, ins: Instr)
    requires Assembled(words, ins) && Id(ins) == L_R_X_Y_A_2 && ins.k == 0
    requires ins.split == SplitOf(FormOf(ins).locs)
    ensures Shaped(MainOp(ins)) && |ins.operands| == 8 && LocOf(MainOp(ins), 6) == FormOf(ins).locs[6]
    ensures SlotOk(SlotOf(MainOp(ins), 6), 25 * |words|)
    ensures ReadLoc(words, FormOf(ins).locs[6]) / 2 == 0 <==> !HidesY(ins)
  {
    hide OpLayouts, PRows, Encodes, Accepted, HoldsOperands, FirstRow, Flat, Framed, Raw, SlotsOk, SlotOk;
    hide FieldValue, HidesY, CheckBase, ReadLoc, SplitOf, Slots, RoomEnd;
    MainLayout(ins);
    MainHolds(words, ins);
    MainPlaced(words, ins);
    SlotsAreOk(MainOp(ins), RoomEnd(ins), 25 * |words|);
    SecondYAccepted(ins);
    OperandRead(MainOp(ins), words, RoomEnd(ins), 6);
  }

  lemma SecondYRead(words: seq<nat>, ins: Instr)
    requires Assembled(words, ins) && Id(ins) == L_R_X_Y_A_2 && ins.k == 0
    requires ins.split == SplitOf(FormOf(ins).locs)
    ensures |words| == 4 && (FieldValue(words, 30, 2) == 0 <==> !HidesY(ins))
  {
    hide OpLayouts, PRows, Encodes, Accepted, FirstRow, Flat, HidesY, SplitOf, FieldValue, SlotOk;
    FourWords(words, ins);
    MainLayout(ins);
    FmaForm(ins);
    SecondYValue(words, ins);
    LastBit(words, 30, 2);
  }

  lemma FmaFormRead(words: seq<nat>, ins: Instr)
    requires Assembled(words, ins) && Id(ins) == L_R_X_Y_A_2 && ins.k == 0
    requires ins.split == SplitOf(FormOf(ins).locs)
    ensures |words| == 4 && DiscsIn(OpLayouts(Id(ins)), 100)
    ensures Choose(words, OpLayouts(Id(ins)), 0) == if HidesY(ins) then 1 else 0
  {
    hide PRows, Encodes, Accepted, FirstRow, Flat, FieldValue, SplitOf;
    SecondYRead(words, ins);
    assert Choose(words, OpLayouts(Id(ins)), 1) == 1;
  }

  /* ---------- The exceptions ---------- */

  /** The main operation is listed as written unless an operand is misread, its ':' stands
      elsewhere, an explicit NO_ARGS is dropped, or the form is hidden: by the second Y
      register, or by the opcode bit the counted loops share. */
  predicate FaithfulMain(ins: Instr)
    requires Assembles(ins)
  {
    NoneMisread(MainOp(ins)) && ins.split == SplitOf(FormOf(ins).locs) && !NopWithArg(ins) && !HidesY(ins) &&
    (Id(ins) == L_LOOP_PC_LIT_16_2 ==> ins.row.op % 2 == ins.k)
  }

  /** Likewise the parallel operation, one row of which hides the form. */
  predicate FaithfulPop(ins: Instr)
    requires Assembles(ins) && ins.pop.Some?
  {
    NoneMisread(ParOp(ins)) && ins.pop.value.split == SplitOf(ParOp(ins).form.locs) && !HidesForm(ins)
  }

  predicate Faithful(ins: Instr)
    requires Assembles(ins)
  {
    FaithfulMain(ins) && (ins.pop.Some? ==> FaithfulPop(ins))
  }

  /* ---------- The parallel operation as listed ---------- */

  lemma HiddenOperand(ins: Instr)
    requires Selected(ins) && HidesForm(ins)
    ensures |ins.pop.value.operands| == 4 && ins.pop.value.operands[1].IndReg?
  {
    hide PRows, POpLayouts, PRowClear, PRowOk;
    HiddenRow(ins);
    DualForms();
    assert AcceptsAt(ParOp(ins), 1);
  }

  lemma ReadAt(words: seq<nat>, f: Layout, mdfr: SrcMdfr, j: nat)
    requires Readable(words, f, false) && j < |f.locs|
    ensures ReadOperands(words, f, false, mdfr)[j] ==
            Decode(f.locs[j].ty, ReadLoc(words, f.locs[j]), ShownMdfr(f.locs[j].dir, false, mdfr))
  {
    hide Decode, ReadLoc;
  }

  lemma HiddenDiffers(words: seq<nat>, ins: Instr)
    requires Assembled(words, ins) && ins.pop.Some? && HidesForm(ins) && |words| == 4
    requires 1 < |POpLayouts(PRowOf(ins).layout)|
    requires Readable(words, POpLayouts(PRowOf(ins).layout)[1], PRowOf(ins).swap)
    ensures ReadOperands(words, POpLayouts(PRowOf(ins).layout)[1], PRowOf(ins).swap, MdfrNone) != ins.pop.value.operands
  {
    hide OpLayouts, PRows, POpLayouts, Encodes, Accepted, Selected, FirstRow, ReadLoc, ReadOperands, Readable;
    PopIsSelected(ins);
    HiddenRow(ins);
    HiddenOperand(ins);
    DualForms();
    ReadAt(words, POpLayouts(P_MOVX_DUAL_4)[1], MdfrNone, 1);
  }

  lemma HiddenRow(ins: Instr)
    requires Selected(ins) && HidesForm(ins)
    ensures PRowOf(ins).layout == P_MOVX_DUAL_4 && !PRowOf(ins).swap
  {
    hide PRows, POpLayouts, Accepted;
  }

  /** The listed form, once row and form are known. */
  function PListed(words: seq<nat>, row: POpRow, useAlt: bool, f: Layout): Shown
    requires Readable(words, f, row.swap)
  {
    Shown(PName(row, useAlt), SplitOf(f.locs), ReadOperands(words, f, row.swap, MdfrNone))
  }

  lemma PopShown(words: seq<nat>, ins: Instr)
    requires Assembled(words, ins) && ins.pop.Some?
    ensures |words| == 4 && (ins.len == 2 || ins.len == 4)
    ensures var forms := POpLayouts(PRowOf(ins).layout);
            var k := if HidesForm(ins) then 1 else ins.pop.value.k;
            k < |forms| && Readable(words, forms[k], PRowOf(ins).swap) &&
            ShowParallel(words, ins.len) == Some(PListed(words, PRowOf(ins), ins.pop.value.useAlt, forms[k]))
  {
    hide OpLayouts, PRows, POpLayouts, Encodes, Accepted, FirstRow, ParBit, FieldValue, Flat, Selected;
    hide ParallelValue, FindPRow, ReadOperands, Readable, SplitOf, Choose, HidesForm;
    var rows, i := PRows(ins.len), ins.pop.value.row;
    RowRead(words, ins);
    var r := FindPRow(rows, ParallelValue(words, ins.len).value, 0).value;
    assert rows[r] == rows[i].(op := rows[r].op);
    PFormsAreReadable(words, ins.len, r);
    PFormRead(words, ins);
    NameRead(words, ins);
  }

  lemma PopRoundTrip(words: seq<nat>, ins: Instr)
    requires Assembled(words, ins) && ins.pop.Some?
    ensures |words| == 4 && (ins.len == 2 || ins.len == 4)
    ensures ShowParallel(words, ins.len) == View(ins).pop <==> FaithfulPop(ins)
  {
    hide OpLayouts, PRows, POpLayouts, Encodes, Accepted, FirstRow, ShowParallel, ReadOperands, NoneMisread;
    hide Readable, SplitOf, PName;
    PopShown(words, ins);
    if HidesForm(ins) {
      HiddenDiffers(words, ins);
    } else if ins.pop.value.split == SplitOf(PForm(ins).locs) {
      ParOperandsRead(words, ins);
    }
  }

  /* ---------- The whole instruction ---------- */

  lemma MainShown(words: seq<nat>, ins: Instr, c: nat)
    requires Assembled(words, ins) && Id(ins) != L_NOP && |words| == 4
    requires DiscsIn(OpLayouts(Id(ins)), 100) && c == Choose(words, OpLayouts(Id(ins)), 0)
    ensures Readable(words, OpLayouts(Id(ins))[c], ins.row.swap)
    ensures var f := OpLayouts(Id(ins))[c];
            ShowRow(words, ins.row, ins.len) ==
            Listing(ins.row.op, ins.len,
                    Shown(ins.row.name, SplitOf(f.locs), ReadOperands(words, f, ins.row.swap, ins.row.mdfr)),
                    if ins.len > 1 && f.optArgs then ShowParallel(words, ins.len) else None)
  {
    hide OpLayouts, PRows, Encodes, Accepted, FirstRow, ShowParallel, ReadOperands, Readable, SplitOf, Choose;
    RowLayout(ins);
    FormsAreReadable(words, ins.row, ins.len);
  }

  /** With the right form, the listing is right when its operands and its parallel
      operation are. */
  lemma FormShown(words: seq<nat>, ins: Instr)
    requires Assembled(words, ins) && Id(ins) != L_NOP && |words| == 4
    requires DiscsIn(OpLayouts(Id(ins)), 100) && Choose(words, OpLayouts(Id(ins)), 0) == ins.k
    ensures ShowRow(words, ins.row, ins.len) == View(ins) <==>
            ins.split == SplitOf(FormOf(ins).locs) && NoneMisread(MainOp(ins)) &&
            (ins.pop.Some? ==> FaithfulPop(ins))
  {
    hide OpLayouts, PRows, Encodes, Accepted, FirstRow, ShowParallel, ShowRow, ReadOperands, NoneMisread, Readable;
    hide SplitOf, FaithfulPop, PName, Choose;
    MainLayout(ins);
    MainShown(words, ins, ins.k);
    if ins.split == SplitOf(FormOf(ins).locs) { MainOperandsRead(words, ins); }
    if ins.pop.Some? {
      PopRoundTrip(words, ins);
    } else if FormOf(ins).optArgs && ins.len > 1 {
      EmptyRoomRead(words, ins);
      assert ShowParallel(words, ins.len) == None by { NothingShown(words, ins.len); }
    }
  }

  lemma NothingShown(words: seq<nat>, len: nat)
    requires |words| == 4 && (len == 2 || len == 4) && ParallelValue(words, len) == None
    ensures ShowParallel(words, len) == None
  {
    hide PRows, ParallelValue;
  }

  /** With the wrong form, the operands are not those written. */
  lemma WrongFormDiffers(words: seq<nat>, ins: Instr, c: nat)
    requires Assembled(words, ins) && CoveredDisc(Id(ins)) && |words| == 4 && ins.k == 0 && c == 1
    requires c < |OpLayouts(Id(ins))| && Readable(words, OpLayouts(Id(ins))[c], ins.row.swap)
    ensures ReadOperands(words, OpLayouts(Id(ins))[c], ins.row.swap, ins.row.mdfr) != ins.operands
  {
    hide OpLayouts, PRows, Encodes, AcceptsAt, FirstRow, ReadLoc, FieldValue, Flat, Readable;
    MainLayout(ins);
    RowLayout(ins);
    if Id(ins) == L_R_X_Y_A_2 {
      FmaForms();
    } else {
      hide ReadOperands;
      LoopForms();
      LoopOperand(ins);
      ReadAt(words, OpLayouts(Id(ins))[c], ins.row.mdfr, 0);
    }
  }

  lemma LoopOperand(ins: Instr)
    requires Assembles(ins) && GoodRow(ins.row) && Id(ins) == L_LOOP_PC_LIT_16_2 && ins.k == 0
    ensures |ins.operands| == 2 && !ins.operands[0].Literal?
  {
    hide OpLayouts, PRows, FirstRow;
    MainLayout(ins);
    RowLayout(ins);
    LoopForms();
    assert AcceptsAt(MainOp(ins), 0);
  }

  lemma ListedRow(table: seq<OpRow>, words: seq<nat>, ins: Instr)
    requires GoodTable(table) && Assembled(words, ins) && ins.row in table
    ensures |words| == 4
    ensures Disassemble(table, words) == Some(ShowRow(words, ins.row, ins.len)) || SeenOp(ins) != ins.row.op
    ensures SeenOp(ins) != ins.row.op ==> Disassemble(table, words) != Some(View(ins))
  {
    hide OpLayouts, PRows, Encodes, Accepted, FirstRow, GoodRow, OpLen, OpcodeOf, SeenOp;
    LengthRead(words, ins);
    OpcodeRead(words, ins);
    assert forall i :: 0 <= i < |table| ==> GoodRow(table[i]);
    var i :| 0 <= i < |table| && table[i] == ins.row;
    var r := FindRow(table, SeenOp(ins), 0);
    if SeenOp(ins) == ins.row.op {
      assert r.Some? && r.value == i;
    } else if r.Some? {
      OpShown(words, table[r.value], ins.len);
    }
  }

  lemma OpShown(words: seq<nat>, row: OpRow, len: nat)
    requires |words| == 4 && GoodRow(row) && ValidLen(len)
    ensures ShowRow(words, row, len).op == row.op
  {
    hide OpLayouts, ShowParallel, ReadOperands, Choose;
  }

  lemma NopShown(words: seq<nat>, ins: Instr)
    requires Assembled(words, ins) && Id(ins) == L_NOP && |words| == 4
    ensures ShowRow(words, ins.row, ins.len) == View(ins) <==> Faithful(ins)
  {
    hide PRows, POpLayouts, Encodes, AcceptsAt, FirstRow, ShowParallel, FaithfulPop, PName, FindPRow;
    NopForm(ins.k);
    if ins.operands == [] {
      assert SplitOf(FormOf(ins).locs) == 0;
      if ins.pop.Some? {
        PopRoundTrip(words, ins);
      } else if ins.len > 1 {
        EmptyRoomRead(words, ins);
        NothingShown(words, ins.len);
      }
    }
  }

  lemma CoveredShown(words: seq<nat>, ins: Instr)
    requires Assembled(words, ins) && CoveredDisc(Id(ins)) && |words| == 4
    ensures SeenOp(ins) == ins.row.op && ShowRow(words, ins.row, ins.len) == View(ins) <==> Faithful(ins)
  {
    hide OpLayouts, PRows, Encodes, Accepted, FirstRow, ShowParallel, ShowRow, ReadOperands, NoneMisread, Readable;
    hide SplitOf, FaithfulPop, PName, Choose;
    MainLayout(ins);
    if Id(ins) == L_LOOP_PC_LIT_16_2 {
      LoopFormRead(words, ins);
    } else if ins.k == 1 {
      FormRead(words, ins);
    } else {
      FmaForms();
      if ins.split == SplitOf(FormOf(ins).locs) { FmaFormRead(words, ins); }
    }
    TwoForms(Id(ins));
    FormsAreReadable(words, ins.row, ins.len);
    var c := Choose(words, OpLayouts(Id(ins)), 0);
    if c == ins.k {
      FormShown(words, ins);
    } else {
      ChosenBefore(words, ins, c);
      MainShown(words, ins, c);
      WrongFormDiffers(words, ins, c);
    }
  }

  /** Only the first of the two forms can be missed. */
  lemma ChosenBefore(words: seq<nat>, ins: Instr, c: nat)
    requires Assembled(words, ins) && CoveredDisc(Id(ins)) && |words| == 4 && ins.k < 2
    requires DiscsIn(OpLayouts(Id(ins)), 100) && |OpLayouts(Id(ins))| == 2
    requires c == Choose(words, OpLayouts(Id(ins)), 0) && c != ins.k
    ensures ins.k == 0 && c == 1
  {
    hide OpLayouts, PRows, Encodes, Accepted, FirstRow, Choose;
    if ins.k == 1 { FormRead(words, ins); }
  }

  /** Whole-instruction round trip: the words the assembler writes for an accepted
      instruction are listed as that instruction if and only if it is faithful. */
  lemma InstrRoundTrip(table: seq<OpRow>, words: seq<nat>, ins: Instr)
    requires GoodTable(table) && ins.row in table && Assembles(ins) && Encodes(words, ins)
    ensures |words| == 4
    ensures Disassemble(table, words) == Some(View(ins)) <==> Faithful(ins)
  {
    hide OpLayouts, PRows, Encodes, Accepted, FirstRow, ShowRow, NoneMisread, Disassemble, GoodRow, SplitOf, FaithfulPop;
    RowIsGood(table, ins.row);
    ListedRow(table, words, ins);
    if Id(ins) == L_NOP {
      NopShown(words, ins);
    } else if CoveredDisc(Id(ins)) {
      CoveredShown(words, ins);
    } else {
      FormRead(words, ins);
      FormShown(words, ins);
    }
  }

  /* ---------- The text alone ---------- */

  /** Names, operands and ':' agree. */
  predicate SameText(a: Listing, b: Listing) { a.main == b.main && a.pop == b.pop }

  /** A counted loop and the row after it have different names, or that one has no operands. */
  predicate LoopsToldApart(table: seq<OpRow>)
    requires GoodTable(table)
  {
    forall i, j :: 0 <= i < |table| && 0 <= j < |table| ==> NextDiffers(table[i], table[j])
  }

  predicate NextDiffers(loop: OpRow, next: OpRow)
    requires |loop.layouts| == 3 && |next.layouts| == 3
  {
    loop.layouts[1] == L_LOOP_PC_LIT_16_2 && loop.op % 2 == 0 && next.op == loop.op + 1 ==>
      next.name != loop.name || next.layouts[1] == L_NONE
  }

  lemma RowShown(words: seq<nat>, row: OpRow, len: nat)
    requires |words| == 4 && GoodRow(row) && ValidLen(len)
    ensures var l := ShowRow(words, row, len);
            l.op == row.op && l.len == len && l.main.name == row.name &&
            (LayoutFor(row, len) == L_NONE ==> l.main.operands == [])
  {
    hide OpLayouts, ShowParallel, ReadOperands, Choose;
  }

  /** A loop listed under the next opcode does not read the same. */
  lemma LoopReadsOtherwise(table: seq<OpRow>, words: seq<nat>, ins: Instr)
    requires GoodTable(table) && LoopsToldApart(table) && ins.row in table && Assembled(words, ins)
    requires SeenOp(ins) != ins.row.op
    ensures |words| == 4 && !Faithful(ins)
    ensures Disassemble(table, words).Some? ==> !SameText(Disassemble(table, words).value, View(ins))
  {
    hide OpLayouts, PRows, Encodes, Accepted, FirstRow, GoodRow, OpLen, OpcodeOf, ShowRow, NoneMisread, SplitOf;
    RowIsGood(table, ins.row);
    LengthRead(words, ins);
    OpcodeRead(words, ins);
    LoopInstr(ins);
    var i :| 0 <= i < |table| && table[i] == ins.row;
    var r := FindRow(table, SeenOp(ins), 0);
    if r.Some? {
      RowIsGood(table, table[r.value]);
      RowShown(words, table[r.value], ins.len);
    }
  }

  lemma LoopInstr(ins: Instr)
    requires Assembles(ins) && GoodRow(ins.row) && SeenOp(ins) != ins.row.op
    ensures ins.len == 2 && ins.row.layouts[1] == L_LOOP_PC_LIT_16_2 && ins.operands != []
    ensures ins.row.op % 2 == 0 && SeenOp(ins) == ins.row.op + 1 && ins.k == 1
  {
    hide OpLayouts, PRows, POpLayouts, Accepted, FirstRow;
  }

  /** The text listed is the text written if and only if the instruction is faithful. */
  lemma TextRoundTrip(table: seq<OpRow>, words: seq<nat>, ins: Instr)
    requires GoodTable(table) && LoopsToldApart(table) && ins.row in table && Assembles(ins) && Encodes(words, ins)
    ensures |words| == 4
    ensures Disassemble(table, words).Some? && SameText(Disassemble(table, words).value, View(ins)) <==> Faithful(ins)
  {
    hide OpLayouts, PRows, Encodes, Assembles, ShowRow, Disassemble, GoodRow, Faithful, LoopsToldApart, SeenOp;
    RowIsGood(table, ins.row);
    AssemblesWell(ins);
    InstrRoundTrip(table, words, ins);
    ListedRow(table, words, ins);
    if SeenOp(ins) == ins.row.op {
      RowShown(words, ins.row, ins.len);
    } else {
      LoopReadsOtherwise(table, words, ins);
    }
  }

  lemma RowIsGood(table: seq<OpRow>, row: OpRow)
    requires GoodTable(table) && row in table
    ensures GoodRow(row)
  {
  }
}
