/** The repository's own opcode table at work: what the search answers for two requests, and the way from
    any request to its listing. */
module Lookups {
  import opened Operands
  import opened Layouts
  import opened Fields
  import opened Tables
  import opened Instructions
  import opened Regions
  import opened ParallelRows
  import opened Disassembler
  import opened Selection
  import opened ParallelTrip
  import opened RoundTrip
  import opened Assembler
  import opened Exceptions
  import opened OpTable
  import opened Search

  /* ---------- From the request to the listing ---------- */

  /** The listing says what was asked for: names, operands, and where the ':' stands. */
  predicate ReadsAs(l: Listing, req: Request) {
    l.main == Shown(req.op.name, req.op.split, req.op.operands) &&
    l.pop == match req.pop
             case None => None
             case Some(p) => Some(Shown(p.name, p.split, p.operands))
  }

  lemma AnswerReadsAs(l: Listing, ins: Instr, req: Request)
    requires Assembles(ins) && Answers(ins, req)
    ensures ReadsAs(l, req) <==> SameText(l, View(ins))
  {
    hide OpLayouts, PRows, POpLayouts, Accepted, FirstRow;
  }

  /** Search, assembly and disassembly, with the repository's opcode table and for every request: the words of
      the instruction found are listed as what was asked for if and only if the instruction is faithful. */
  method AssembleRequest(req: Request) returns (r: Outcome, words: seq<nat>)
    requires ValidRequest(req)
    ensures GoodTable(AsmOps()) && (!r.Match? && OneLength(req) ==> NoneAnswers(AsmOps(), |AsmOps()|, req))
    ensures r.Match? ==> r.ins.row in AsmOps() && Assembles(r.ins) && Answers(r.ins, req) && Encodes(words, r.ins)
    ensures r.Match? ==>
              |words| == 4 &&
              var listed := Disassemble(AsmOps(), words);
              (listed.Some? && ReadsAs(listed.value, req) <==> Faithful(r.ins)) &&
              (Faithful(r.ins) ==> listed == Some(View(r.ins)))
  {
    hide Encodes, Assembles, Faithful, View, Disassemble, AsmOps, ReadsAs, GoodRow, Answers, NoneAnswers, SameText;
    hide LoopsToldApart, PopIn, IsFirst, StopsFirst, NoneStop;
    AsmOpsAreGood();
    words := [];
    r := FindCompatibleAsmOpcode(AsmOps(), req);
    if r.Match? {
      RowIsGood(AsmOps(), r.ins.row);
      words := CreateOpWords(r.ins);
      LoopRows();
      InstrRoundTrip(AsmOps(), words, r.ins);
      TextRoundTrip(AsmOps(), words, r.ins);
      ghost var listed := Disassemble(AsmOps(), words);
      if listed.Some? { AnswerReadsAs(listed.value, r.ins, req); }
    }
  }

  /* ---------- Rows by name ---------- */

  /** The counted loops of the table, and NOP. */
  predicate LoopEntry(op: nat, e: Entry) {
    (e.kind.FarLoop? ==> (op == 0x18 && e.name == "UNK-0x18") || op == 0x19 || (op == 0x1a && e.name == "LOOP-0x10d")) &&
    (LikeNop(e.name) ==> op == 0 && e == Entry("NOP", NoOperands))
  }

  predicate LikeNop(name: string) { |name| == 3 && name[0] == 'N' && name[1] == 'O' }

  /** The entries after the loops. */
  predicate AfterLoop(op: nat, e: Entry) {
    (op == 0x19 ==> e.name == "LOOP-0x19") && (op == 0x1b ==> e.kind == Unlisted)
  }

  predicate NeitherOne(e: Entry) { !e.kind.FarLoop? && !LikeNop(e.name) }

  lemma LoopEntries()
    ensures forall i :: 0 <= i < |Ops00()| ==> LoopEntry(i, Ops00()[i]) && AfterLoop(i, Ops00()[i])
  {
  }

  lemma Neither20()
    ensures forall i :: 0 <= i < |Ops20()| ==> NeitherOne(Ops20()[i])
    ensures forall i :: 0 <= i < |Ops40()| ==> NeitherOne(Ops40()[i])
  {
  }

  lemma Neither60()
    ensures forall i :: 0 <= i < |Ops60()| ==> NeitherOne(Ops60()[i])
  {
  }

  lemma Neither80()
    ensures forall i :: 0 <= i < |Ops80()| ==> NeitherOne(Ops80()[i])
    ensures forall i :: 0 <= i < |OpsA0()| ==> NeitherOne(OpsA0()[i])
  {
  }

  lemma NeitherC0()
    ensures forall i :: 0 <= i < |OpsC0()| ==> NeitherOne(OpsC0()[i])
    ensures forall i :: 0 <= i < |OpsE0()| ==> NeitherOne(OpsE0()[i])
  {
  }

  lemma LoopKinds()
    ensures forall kind: RowKind :: KindLayouts(kind)[1] == L_LOOP_PC_LIT_16_2 ==> kind.FarLoop?
    ensures KindLayouts(Unlisted)[1] == L_NONE
  {
  }

  lemma LoopRow(row: OpRow)
    requires row in AsmOps()
    ensures |row.layouts| == 3
    ensures row.layouts[1] == L_LOOP_PC_LIT_16_2 ==>
              (row.op == 0x18 && row.name == "UNK-0x18") || row.op == 0x19 || (row.op == 0x1a && row.name == "LOOP-0x10d")
    ensures row.op == 0x19 ==> row.name == "LOOP-0x19"
    ensures row.op == 0x1b ==> row.layouts[1] == L_NONE
    ensures LikeNop(row.name) ==> row == RowOf(0, Entry("NOP", NoOperands))
  {
    hide AsmOps, Ops00, Ops20, Ops40, Ops60, Ops80, OpsA0, OpsC0, OpsE0, KindLayouts, LikeNop;
    InSomeRun(row);
    LoopEntries();
    Neither20();
    Neither60();
    Neither80();
    NeitherC0();
    LoopKinds();
  }

  lemma NamesDiffer()
    ensures "LOOP-0x19" != "UNK-0x18"
  {
    assert |"LOOP-0x19"| != |"UNK-0x18"|;
  }

  lemma LoopRows()
    ensures GoodTable(AsmOps()) && LoopsToldApart(AsmOps())
  {
    hide AsmOps, GoodRow;
    AsmOpsAreGood();
    forall i, j | 0 <= i < |AsmOps()| && 0 <= j < |AsmOps()|
      ensures GoodRow(AsmOps()[i]) && GoodRow(AsmOps()[j])
      ensures |AsmOps()[i].layouts| == 3 && |AsmOps()[j].layouts| == 3 && NextDiffers(AsmOps()[i], AsmOps()[j])
    {
      NamesDiffer();
      LoopRow(AsmOps()[i]);
      LoopRow(AsmOps()[j]);
    }
  }

  /** Told by a few letters. */
  predicate LikeFma(name: string) { |name| == 4 && name[0] == 'F' && name[3] == 'A' }

  predicate LikeMov(name: string) { |name| == 3 && name[0] == 'M' && name[1] == 'O' && name[2] == 'V' }

  /** A move that changes its source. */
  predicate Modifies(kind: RowKind) { kind.MoveInc? || kind.MoveDec? || kind.MoveRL? || kind.MoveRR? }

  lemma NamesOps00()
    ensures forall i :: 0 <= i < |Ops00()| ==> !LikeFma(Ops00()[i].name)
    ensures forall i :: 0 <= i < |Ops00()| ==> !LikeMov(Ops00()[i].name)
  {
  }

  lemma NamesOps20()
    ensures forall i :: 0 <= i < |Ops20()| ==> !LikeFma(Ops20()[i].name)
    ensures forall i :: 0 <= i < |Ops20()| ==> !LikeMov(Ops20()[i].name)
  {
  }

  lemma NamesOps40()
    ensures forall i :: 0 <= i < |Ops40()| ==> !LikeFma(Ops40()[i].name)
    ensures forall i :: 0 <= i < |Ops40()| ==> !LikeMov(Ops40()[i].name)
  {
  }

  lemma NamesOps60()
    ensures forall i :: 0 <= i < |Ops60()| ==> !LikeFma(Ops60()[i].name)
    ensures forall i :: 0 <= i < |Ops60()| ==> !LikeMov(Ops60()[i].name) || Modifies(Ops60()[i].kind)
  {
  }

  lemma NamesOps80()
    ensures forall i :: 0 <= i < |Ops80()| ==> !LikeFma(Ops80()[i].name) || (i == 0 && Ops80()[i] == Entry("F_MA", Rxya))
    ensures forall i :: 0 <= i < |Ops80()| ==> !LikeMov(Ops80()[i].name)
  {
  }

  lemma NamesOpsA0()
    ensures forall i :: 0 <= i < |OpsA0()| ==> !LikeFma(OpsA0()[i].name)
    ensures forall i :: 0 <= i < |OpsA0()| ==> !LikeMov(OpsA0()[i].name)
  {
  }

  lemma NamesOpsC0()
    ensures forall i :: 0 <= i < |OpsC0()| ==> !LikeFma(OpsC0()[i].name)
    ensures forall i :: 0 <= i < |OpsC0()| ==> !LikeMov(OpsC0()[i].name) || (i == 1 && OpsC0()[i].kind == MoveLit) || (i == 8 && OpsC0()[i] == Entry("MOV", Move))
  {
  }

  lemma NamesOpsE0()
    ensures forall i :: 0 <= i < |OpsE0()| ==> !LikeFma(OpsE0()[i].name)
    ensures forall i :: 0 <= i < |OpsE0()| ==> !LikeMov(OpsE0()[i].name)
  {
  }

  /** Every row of the table stands for one of the entries. */
  lemma InSomeRun(row: OpRow)
    requires row in AsmOps()
    ensures row in Run(0x00, Ops00()) ||
            row in Run(0x20, Ops20()) ||
            row in Run(0x40, Ops40()) ||
            row in Run(0x60, Ops60()) ||
            row in Run(0x80, Ops80()) ||
            row in Run(0xa0, OpsA0()) ||
            row in Run(0xc0, OpsC0()) ||
            row in Run(0xe0, OpsE0())
  {
    hide Ops00, Ops20, Ops40, Ops60, Ops80, OpsA0, OpsC0, OpsE0;
  }

  lemma FmaRow(row: OpRow)
    requires row in AsmOps() && row.name == "F_MA"
    ensures row == FmaExample().row
  {
    hide AsmOps, LikeFma, LikeMov, Ops00, Ops20, Ops40, Ops60, Ops80, OpsA0, OpsC0, OpsE0;
    assert LikeFma("F_MA") by { FmaLetters(); }
    InSomeRun(row);
    NamesOps00();
    NamesOps20();
    NamesOps40();
    NamesOps60();
    NamesOps80();
    NamesOpsA0();
    NamesOpsC0();
    NamesOpsE0();
  }

  lemma FmaLetters()
    ensures LikeFma("F_MA") && LikeMov("MOV")
  {
  }

  /** The name MOV without a modifier is that of a move of registers and of one of literals. */
  lemma MovRow(row: OpRow)
    requires row in AsmOps() && row.name == "MOV" && MdfrCompatible(MdfrNone, row.mdfr)
    ensures row == MoveExample().row || row.layouts == KindLayouts(MoveLit)
  {
    hide AsmOps, LikeFma, LikeMov, Ops00, Ops20, Ops40, Ops60, Ops80, OpsA0, OpsC0, OpsE0;
    assert LikeMov("MOV") by { FmaLetters(); }
    InSomeRun(row);
    NamesOps00();
    NamesOps20();
    NamesOps40();
    NamesOps60();
    NamesOps80();
    NamesOpsA0();
    NamesOpsC0();
    NamesOpsE0();
  }

  /* ---------- Two requests the search answers with instructions that are not faithful ---------- */

  function FmaRequest(): Request { Request(Parsed("F_MA", 4, FmaExample().operands), MdfrNone, None, 2) }

  function MoveRequest(): Request {
    Request(Parsed("MOV", 2, MoveExample().operands), MdfrNone,
            Some(Parsed("MOVX_P", 2, MoveExample().pop.value.operands)), 4)
  }

  lemma ExampleRows()
    ensures FmaExample().row in AsmOps() && MoveExample().row in AsmOps() && LoopExample().row in AsmOps()
    ensures GoodRow(FmaExample().row) && GoodRow(MoveExample().row) && GoodTable(AsmOps())
  {
    hide AsmOps, GoodRow;
    AsmOpsAreGood();
    assert RowOf(0x80, Entry("F_MA", Rxya)) == FmaExample().row;
    assert RowOf(0xc8, Entry("MOV", Move)) == MoveExample().row;
    assert RowOf(0x18, Entry("UNK-0x18", FarLoop)) == LoopExample().row;
    KindIsGood(0x80, Entry("F_MA", Rxya));
    KindIsGood(0xc8, Entry("MOV", Move));
    ThreeRows();
  }

  lemma ThreeRows()
    ensures RowOf(0x80, Entry("F_MA", Rxya)) in AsmOps() && RowOf(0xc8, Entry("MOV", Move)) in AsmOps()
    ensures RowOf(0x18, Entry("UNK-0x18", FarLoop)) in AsmOps()
  {
    hide Ops20, Ops40, Ops60, OpsA0, OpsE0;
    assert Ops80()[0] == Entry("F_MA", Rxya) && OpsC0()[8] == Entry("MOV", Move);
    assert Ops00()[24] == Entry("UNK-0x18", FarLoop);
    hide Ops00, Ops80, OpsC0;
    assert Run(0x80, Ops80())[0] in Run(0x80, Ops80()) && Run(0xc0, OpsC0())[8] in Run(0xc0, OpsC0());
    assert Run(0x00, Ops00())[24] in Run(0x00, Ops00());
  }

  lemma FmaRequestValid()
    ensures ValidRequest(FmaRequest()) && ValidRequest(MoveRequest())
    ensures OneLength(FmaRequest()) && OneLength(MoveRequest())
  {
  }

  lemma FmaAnswers()
    ensures Assembles(FmaExample()) && Answers(FmaExample(), FmaRequest())
    ensures GoodRow(FmaExample().row) && FirstForm(FmaExample().row, 2, 0, FmaRequest())
  {
    hide OpLayouts, Accepted, GoodRow, AsmOps;
    ExampleRows();
    FmaIsAccepted();
  }

  lemma FmaOnly(ins: Instr)
    requires ins.row in AsmOps() && Assembles(ins) && Answers(ins, FmaRequest()) && GoodRow(ins.row)
    requires FirstForm(ins.row, ins.len, ins.k, FmaRequest())
    ensures ins == FmaExample()
  {
    hide OpLayouts, Accepted, GoodRow, AsmOps, RowHolds, FirstRow, PRows, POpLayouts;
    FmaRow(ins.row);
    FmaAnswers();
  }

  /** The search answers this request with the fused multiply whose second Y register hides its form. */
  method FindFma() returns (r: Outcome)
    ensures r == Match(FmaExample())
  {
    hide AsmOps, Assembles, Answers, FirstForm, GoodRow, GoodTable, FmaExample, FmaRequest, ValidRequest, Unanswered;
    ExampleRows();
    FmaRequestValid();
    FmaAnswers();
    r := FindCompatibleAsmOpcode(AsmOps(), FmaRequest());
    if r.Match? {
      RowIsGood(AsmOps(), r.ins.row);
      FmaOnly(r.ins);
    } else {
      SomeAnswer(AsmOps(), FmaExample(), FmaRequest());
    }
  }

  /** If something answers, not nothing does. */
  lemma SomeAnswer(table: seq<OpRow>, ins: Instr, req: Request)
    requires ins.row in table && Assembles(ins) && Answers(ins, req)
    ensures !NoneAnswers(table, |table|, req)
  {
    hide Assembles, Answers;
    var i :| 0 <= i < |table| && table[i] == ins.row;
    AssemblesWell(ins);
    assert !Unanswered(table[i], ins.len, req);
  }

  lemma MoveAnswers()
    ensures Assembles(MoveExample()) && Answers(MoveExample(), MoveRequest()) && HidesForm(MoveExample())
    ensures GoodRow(MoveExample().row) && FirstForm(MoveExample().row, 4, 0, MoveRequest())
  {
    hide OpLayouts, POpLayouts, Accepted, GoodRow, AsmOps, FirstRow, PRows;
    ExampleRows();
    MoveIsAccepted();
    MoveRows();
  }

  /** The parallel operation found is the example's. */
  lemma MovePop(f: PMatchFound)
    requires Found(4, MoveRequest().pop.value, f)
    ensures f == PMatchFound(7, false, 0)
  {
    hide OpLayouts, POpLayouts, Accepted, PRows;
    MoveIsAccepted();
    MoveRows();
    var p := MoveRequest().pop.value;
    assert FirstRow(MoveExample());
    assert RowTakes(PRows(4)[7], p.name, p.split, p.operands);
    assert RowTakes(PRows(4)[f.row], p.name, p.split, p.operands);
  }

  lemma NoRoomForLiterals(k: nat)
    requires k < |OpLayouts(L_MOV_LIT_32_4)|
    ensures !OpLayouts(L_MOV_LIT_32_4)[k].optArgs
  {
  }

  lemma MoveOnly(ins: Instr)
    requires ins.row in AsmOps() && Assembles(ins) && Answers(ins, MoveRequest()) && GoodRow(ins.row)
    requires FirstForm(ins.row, ins.len, ins.k, MoveRequest()) && ins.pop.Some?
    requires Found(ins.len, MoveRequest().pop.value, PMatchFound(ins.pop.value.row, ins.pop.value.useAlt, ins.pop.value.k))
    ensures ins == MoveExample()
  {
    hide OpLayouts, Accepted, GoodRow, AsmOps, RowHolds, FirstRow, PRows, POpLayouts, Found;
    MovRow(ins.row);
    if ins.row.layouts == KindLayouts(MoveLit) { NoRoomForLiterals(ins.k); }
    MoveAnswers();
    MovePop(PMatchFound(ins.pop.value.row, ins.pop.value.useAlt, ins.pop.value.k));
  }

  /** And this one with the parallel move whose opcode bit is its discriminator. */
  method FindMove() returns (r: Outcome)
    ensures r == Match(MoveExample())
  {
    hide AsmOps, Assembles, Answers, FirstForm, GoodRow, GoodTable, MoveExample, ValidRequest, Unanswered, Found;
    ExampleRows();
    FmaRequestValid();
    MoveAnswers();
    r := FindCompatibleAsmOpcode(AsmOps(), MoveRequest());
    if r.Match? {
      RowIsGood(AsmOps(), r.ins.row);
      PopAsked(r.ins, MoveRequest());
      MoveOnly(r.ins);
    } else {
      SomeAnswer(AsmOps(), MoveExample(), MoveRequest());
    }
  }

  lemma PopAsked(ins: Instr, req: Request)
    requires Assembles(ins) && Answers(ins, req) && req.pop.Some?
    ensures ins.pop.Some?
  {
    hide OpLayouts, PRows, POpLayouts, Accepted, FirstRow;
  }

  /* ---------- A request the search misses ---------- */

  /** A NOP of one or two words beside a conditional execution, which needs two. */
  function NopRequest(): Request { Request(Parsed("NOP", 0, []), MdfrNone, Some(Parsed("EXEC_COND_P", 0, [Literal(5)])), 3) }

  function NopRow(): OpRow { RowOf(0, Entry("NOP", NoOperands)) }

  lemma NopIsThere()
    ensures NopRow() in AsmOps() && GoodRow(NopRow())
    ensures forall row :: row in AsmOps() && row.name == "NOP" ==> row == NopRow()
  {
    hide AsmOps, GoodRow, Ops20, Ops40, Ops60, Ops80, OpsA0, OpsC0, OpsE0;
    KindIsGood(0, Entry("NOP", NoOperands));
    assert Ops00()[0] == Entry("NOP", NoOperands);
    assert Run(0x00, Ops00())[0] in Run(0x00, Ops00());
    FirstRun(NopRow());
    forall row | row in AsmOps() && row.name == "NOP"
      ensures row == NopRow()
    {
      LoopRow(row);
      assert LikeNop("NOP");
    }
  }

  lemma FirstRun(row: OpRow)
    requires row in Run(0x00, Ops00())
    ensures row in AsmOps()
  {
    hide Ops00, Ops20, Ops40, Ops60, Ops80, OpsA0, OpsC0, OpsE0;
  }

  /** The conditional execution exists in two words. */
  lemma CondExists()
    ensures PopIn(NopRequest(), 2) && !PopIn(NopRequest(), 1)
  {
    var p := NopRequest().pop.value;
    var row := PRows(2)[11];
    assert POpLayouts(row.layout) == PFormsExecuteCond2();
    assert Accepted(POperation(row, 0, p.split, p.operands)) by {
      assert AcceptsAt(POperation(row, 0, p.split, p.operands), 0);
    }
    assert RowTakes(row, p.name, p.split, p.operands);
  }

  lemma NopStops(len: nat)
    requires len == 1 || len == 2
    ensures GoodRow(NopRow()) && Stops(NopRow(), len, NopRequest())
  {
    hide GoodRow, PRows, POpLayouts, NoneFound, OpLayouts, NopRow, AsmOps, PopIn;
    NopIsThere();
    NopLayouts(len);
    assert RowHolds(NopRow(), len, 0, NopRequest());
  }

  lemma NopLayouts(len: nat)
    requires ValidLen(len)
    ensures |NopRow().layouts| == 3 && LayoutFor(NopRow(), len) == L_NOP && |OpLayouts(L_NOP)| == 1
    ensures NameFits(NopRow(), NopRequest())
  {
  }

  /** The search ends at one word and gives up, though an instruction of two words answers. */
  method FindNop() returns (r: Outcome)
    ensures r == Lacking(NopRow(), 1)
    ensures !NoneAnswers(AsmOps(), |AsmOps()|, NopRequest())
  {
    hide AsmOps, Assembles, Answers, GoodRow, GoodTable, NopRow, NoneFound, SomeForm, Unanswered, PopIn, IsFirst;
    AsmOpsAreGood();
    NopIsThere();
    CondExists();
    NopStops(1);
    NopStops(2);
    StopAnswers(NopRow(), 2, NopRequest());
    ghost var i :| 0 <= i < |AsmOps()| && AsmOps()[i] == NopRow();
    assert !Unanswered(AsmOps()[i], 2, NopRequest());
    r := FindCompatibleAsmOpcode(AsmOps(), NopRequest());
  }
}
