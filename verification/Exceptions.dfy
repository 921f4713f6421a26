/** The operands and instructions the assembler accepts and the disassembler lists as
    something else, each with a concrete case. */
module Exceptions {
  import opened Bits
  import opened OpWords
  import opened Operands
  import opened Layouts
  import opened Fields
  import opened OperandFields
  import opened Tables
  import opened Instructions
  import opened Regions
  import opened ParallelRows
  import opened Disassembler
  import opened Selection
  import opened Heads
  import opened ParallelTrip
  import opened RoundTrip

  /* ---------- Operands ---------- */

  lemma FmaR12Values()
    ensures NarrowAccepts(REG_3_FMA_A_T1, 12)
    ensures NarrowFixed(REG_3_FMA_A_T1, 0x30c) % 8 == 4 && NarrowDecode(REG_3_FMA_A_T1, 4) == 4
  {
  }

  /** R12 as the accumulator of a fused multiply is listed as R04. */
  lemma FmaR12(base: Operand, twin: Operand, mdfr: SrcMdfr)
    ensures Accepts(Nar(REG_3_FMA_A_T1), Named(12), base, twin, mdfr)
    ensures Decode(Nar(REG_3_FMA_A_T1), Raw(Nar(REG_3_FMA_A_T1), Named(12), base, mdfr), mdfr) == Named(4)
  {
    hide NarrowAccepts, NarrowFixed, NarrowDecode, RegVal, TokenVal, Span;
    RegNamed(Named(12));
    FmaR12Values();
    NarrowRaw(REG_3_FMA_A_T1, 12, base, mdfr);
    assert Span(Nar(REG_3_FMA_A_T1)) == 8 by { SpanOfT1(); }
  }

  lemma NarrowRaw(t: NarrowType, r: nat, base: Operand, mdfr: SrcMdfr)
    ensures Raw(Nar(t), Named(r), base, mdfr) == NarrowFixed(t, 0x300 + r) % Span(Nar(t))
  {
    hide NarrowFixed, Span;
  }

  lemma SpanOfT1()
    ensures Span(Nar(REG_3_FMA_A_T1)) == 8
  {
  }

  /** A register measured by a four-bit offset loses its number's upper bits, and the Y file
      is taken for the X file. */
  lemma NearbyRegister(o: Operand, base: Operand, mdfr: SrcMdfr)
    requires Valid(o) && Valid(base) && IsReg(base) && WideAccepts(REG_11_4_OFFSET, o, base)
    ensures WideDecode(REG_11_4_OFFSET, Raw(Wid(REG_11_4_OFFSET), o, base, mdfr)) ==
            if o.Named? then Named(o.reg % 128) else XGpram(o.cell % 128)
  {
    hide WideDecode, Raw;
    var v, b := TokenVal(o), TokenVal(base);
    Print4Exact(o);
    Print4Exact(base);
    var h := WideFixed(REG_11_4_OFFSET, v, b) / 2048 % 16;
    RelativeRaw(REG_11_4_OFFSET, o, base, mdfr, b, h);
    Upper7(v, b);
    Decode4(v, b, h);
    assert WideDecode(REG_11_4_OFFSET, h * 2048 + b) == Print4Offset(v) by { WideIs4(h * 2048 + b); }
    Printed4(o);
  }

  lemma WideIs4(v: nat)
    ensures WideDecode(REG_11_4_OFFSET, v) == Reg4OffsetDecode(v)
  {
    hide Reg4OffsetDecode;
  }

  lemma Printed4(o: Operand)
    requires Valid(o) && IsReg(o)
    ensures Print4Offset(TokenVal(o)) == if o.Named? then Named(o.reg % 128) else XGpram(o.cell % 128)
  {
    match o
    case Named(r) => assert (0x300 + r) / 1024 % 2 == 0 && (0x300 + r) % 128 == r % 128;
    case XGpram(n) => assert (0x400 + n) / 1024 % 2 == 1 && (0x400 + n) / 2048 == 0 && (0x400 + n) % 128 == n % 128;
    case YGpram(n) => assert (0x600 + n) / 1024 % 2 == 1 && (0x600 + n) / 2048 == 0 && (0x600 + n) % 128 == n % 128;
  }

  lemma CallRaw(t: WideType, o: Operand, base: Operand, mdfr: SrcMdfr)
    requires t == A_REG_CALL || t == A_REG_CALL_MDFR
    ensures Raw(Wid(t), o, base, mdfr) == TokenVal(o) % 8
  {
    hide TokenVal;
  }

  /** A call register is any register with the right low five bits, listed by its low three. */
  lemma CallRegister(t: WideType, o: Operand, base: Operand, mdfr: SrcMdfr)
    requires t == A_REG_CALL || t == A_REG_CALL_MDFR
    requires WideAccepts(t, o, base)
    ensures WideDecode(t, Raw(Wid(t), o, base, mdfr)) == Named(TokenVal(o) % 32)
  {
    hide TokenVal, Raw;
    CallRaw(t, o, base, mdfr);
    LowFive(TokenVal(o));
  }

  lemma LowFive(v: nat)
    ensures 16 <= v % 32 < 24 ==> v % 8 + 16 == v % 32
    ensures 24 <= v % 32 ==> v % 8 + 24 == v % 32
  {
  }

  /* ---------- Instructions ---------- */

  /** A register loop count with the literal form's opcode bit, or the other way round. */
  function LoopExample(): Instr {
    Instr(OpRow("UNK-0x18", 0x18, [L_NONE, L_LOOP_PC_LIT_16_2, L_NONE], MdfrNone, false),
          2, 1, 0, [Literal(5), Literal(0x100)], None)
  }

  lemma AnyLiteral(v: nat, b: Operand)
    requires v < 0x10000
    ensures Accepts(Lit(LITERAL_16), Literal(v), b, Literal(v), MdfrNone)
  {
    hide Signed;
  }

  lemma LoopIsAccepted()
    ensures Assembles(LoopExample()) && GoodRow(LoopExample().row) && !Faithful(LoopExample())
  {
    hide OpLayouts, Accepted, NoneMisread, SplitOf, FormOf;
    LoopShape(LoopExample());
    LoopAccepted(LoopExample(), FormOf(LoopExample()));
  }

  lemma LoopShape(ins: Instr)
    requires ins == LoopExample()
    ensures WellFormed(ins) && GoodRow(ins.row) && Id(ins) == L_LOOP_PC_LIT_16_2
    ensures FormOf(ins) == OpLayouts(L_LOOP_PC_LIT_16_2)[1]
  {
    hide OpLayouts;
    LoopForms();
  }

  lemma LoopAccepted(ins: Instr, f: Layout)
    requires ins == LoopExample() && f == OpLayouts(L_LOOP_PC_LIT_16_2)[1]
    ensures Accepted(Operation(f, false, MdfrNone, 0, ins.operands))
  {
    hide Accepts, OpLayouts;
    var o := Operation(f, false, MdfrNone, 0, ins.operands);
    LoopForms();
    LoopSecond();
    AnyLiteral(5, Literal(5));
    AnyLiteral(0x100, Literal(0x100));
    assert AcceptsAt(o, 0) && AcceptsAt(o, 1);
  }

  lemma LoopSecond()
    ensures var f := OpLayouts(L_LOOP_PC_LIT_16_2)[1];
            !f.optArgs && f.locs[1].ty == Lit(LITERAL_16)
  {
  }

  /** Its words are those of the next opcode. */
  lemma LoopChangesOpcode(words: seq<nat>)
    requires Assembles(LoopExample()) && Encodes(words, LoopExample())
    ensures |words| == 4 && OpcodeOf(words[0], OpLen(words[0])) == 0x19
  {
    hide Assembles, Encodes, OpcodeOf, OpLen;
    LoopIsAccepted();
    LengthRead(words, LoopExample());
    OpcodeRead(words, LoopExample());
  }

  /** R10 as the Y register of the second half of a fused multiply. */
  function FmaExample(): Instr {
    Instr(OpRow("F_MA", 0x80, [L_R_X_Y_A_1, L_R_X_Y_A_2, L_R_X_Y_A_4], MdfrNone, false), 2, 0, 4,
          [Named(4), Named(0), Named(0), Named(4), Named(12), Named(8), Named(10), Named(4)], None)
  }

  lemma FmaIsAccepted()
    ensures Assembles(FmaExample()) && HidesY(FmaExample()) && !Faithful(FmaExample())
  {
    hide OpLayouts, Accepted, NoneMisread, SplitOf, FormOf;
    FmaShape(FmaExample());
    FmaAccepted(FmaExample(), FormOf(FmaExample()));
  }

  lemma FmaShape(ins: Instr)
    requires ins == FmaExample()
    ensures WellFormed(ins) && Id(ins) == L_R_X_Y_A_2 && FormOf(ins) == OpLayouts(L_R_X_Y_A_2)[0]
    ensures FormOf(ins).locs != [] && HidesY(ins)
  {
    hide OpLayouts;
    FmaForms();
  }

  lemma FmaTypes()
    ensures var locs := OpLayouts(L_R_X_Y_A_2)[0].locs;
            |locs| == 8 && locs[0].ty == Nar(REG_2_4) && locs[1].ty == Nar(REG_3_FMA_X_T1) &&
            locs[2].ty == Nar(REG_3_FMA_Y_T1) && locs[3].ty == locs[7].ty == Nar(REG_3_FMA_A_T1) &&
            locs[4].ty == Nar(REG_2_12) && locs[5].ty == Nar(REG_3_FMA_X_T2) && locs[6].ty == Nar(REG_3_FMA_Y_T2)
  {
  }

  lemma FmaAccepted(ins: Instr, f: Layout)
    requires ins == FmaExample() && f == OpLayouts(L_R_X_Y_A_2)[0]
    ensures Accepted(Operation(f, false, MdfrNone, 4, ins.operands))
  {
    hide Accepts, OpLayouts, Num, At;
    FmaTypes();
    var o := Operation(f, false, MdfrNone, 4, ins.operands);
    forall i | 0 <= i < 8
      ensures Valid(o.operands[i]) && AcceptsAt(o, i)
    {
      FmaOperand(LocOf(o, i).ty, o.operands[i], At(o.operands, Num(o, i)), At(o.operands, o.split + Num(o, i)), o.mdfr);
    }
  }

  lemma FmaRegisters()
    ensures NarrowAccepts(REG_2_4, 4) && NarrowAccepts(REG_3_FMA_X_T1, 0) && NarrowAccepts(REG_3_FMA_Y_T1, 0)
    ensures NarrowAccepts(REG_3_FMA_A_T1, 4) && NarrowAccepts(REG_2_12, 12) && NarrowAccepts(REG_3_FMA_X_T2, 8)
    ensures NarrowAccepts(REG_3_FMA_Y_T2, 10)
  {
  }

  lemma FmaOperand(ty: OperandType, o: Operand, b: Operand, t: Operand, m: SrcMdfr)
    requires (ty == Nar(REG_2_4) && o == Named(4)) || (ty == Nar(REG_3_FMA_X_T1) && o == Named(0)) ||
             (ty == Nar(REG_3_FMA_Y_T1) && o == Named(0)) || (ty == Nar(REG_3_FMA_A_T1) && o == Named(4)) ||
             (ty == Nar(REG_2_12) && o == Named(12)) || (ty == Nar(REG_3_FMA_X_T2) && o == Named(8)) ||
             (ty == Nar(REG_3_FMA_Y_T2) && o == Named(10))
    ensures Accepts(ty, o, b, t, m)
  {
    hide NarrowAccepts, RegVal;
    RegNamed(o);
    FmaRegisters();
  }

  /** A parallel move read through the opcode without a partner. */
  function MoveExample(): Instr {
    Instr(OpRow("MOV", 0xc8, [L_MOV_1, L_MOV_2, L_MOV_4], MdfrNone, false), 4, 0, 2,
          [Named(1), Named(2), Named(3), Named(4)],
          Some(ParallelOp(7, false, 0, 2, [Named(0), IndReg(false, 1), Named(2), IndReg(true, 3)])))
  }

  lemma MoveIsAccepted()
    ensures Assembles(MoveExample()) && HidesForm(MoveExample()) && !Faithful(MoveExample())
  {
    hide Accepts, RegVal;
    var ins := MoveExample();
    MoveRows();
    MoveForms();
    hide OpLayouts, POpLayouts, PRows;
    assert WellFormed(ins);
    assert Accepted(MainOp(ins)) by {
      forall i | 0 <= i < 4
        ensures Valid(ins.operands[i]) && AcceptsAt(MainOp(ins), i)
      {
        AnyRegister(ins.operands[i], At(ins.operands, Num(MainOp(ins), i)),
                    At(ins.operands, 2 + Num(MainOp(ins), i)));
      }
    }
    MoveParallel(ins);
  }

  /** No earlier row of the name has a place for two address operands in the dual move's order. */
  lemma MoveParallel(ins: Instr)
    requires ins == MoveExample() && WellFormed(ins)
    ensures FirstRow(ins)
  {
    hide Accepts, RegVal, PRows, POpLayouts, OpLayouts;
    MoveRows();
    MoveForms();
    var p, o := ins.pop.value, ParOp(ins);
    forall i | 0 <= i < 4
      ensures Valid(o.operands[i]) && AcceptsAt(o, i)
    {
      MoveOperand(LocOf(o, i).ty, o.operands[i], At(o.operands, Num(o, i)), At(o.operands, 2 + Num(o, i)));
    }
    forall i | 0 <= i < 7
      ensures !RowTakes(PRows(4)[i], "MOVX_P", p.split, p.operands)
    {
      var row := PRows(4)[i];
      if PMatch(row, "MOVX_P") {
        forall k | 0 <= k < |POpLayouts(row.layout)|
          ensures !Accepted(POperation(row, k, p.split, p.operands))
        {
          NotARegister(POperation(row, k, p.split, p.operands));
        }
      }
    }
  }

  lemma NotARegister(o: Operation)
    requires |o.operands| == 4 && o.operands[3].IndReg? && !o.swap && |o.form.locs| == 4 && o.form.locs[3].ty == Nar(REG_4)
    ensures !Accepted(o)
  {
    assert !AcceptsAt(o, 3) by { hide RegVal, NarrowAccepts; }
  }

  lemma MoveOperand(ty: OperandType, o: Operand, b: Operand, t: Operand)
    requires (ty == Nar(REG_4) && (o == Named(0) || o == Named(2))) || (ty == Adr(A_REG_X) && o == IndReg(false, 1)) ||
             (ty == Adr(A_REG_Y) && o == IndReg(true, 3))
    ensures Accepts(ty, o, b, t, MdfrNone)
  {
    if ty == Nar(REG_4) {
      hide RegVal;
      RegNamed(o);
    }
  }

  lemma AnyRegister(o: Operand, b: Operand, t: Operand)
    requires IsReg(o)
    ensures Accepts(Wid(REG_11), o, b, t, MdfrNone)
  {
  }

  lemma MoveRows()
    ensures |PRows(4)| == 22 && PRows(4)[7] == POpRow("MOVX_P", "", 0x2b, P_MOVX_DUAL_4, 0, false)
    ensures forall i :: 0 <= i < 7 && PMatch(PRows(4)[i], "MOVX_P") ==>
              PRows(4)[i].layout == P_MOVX_READ_X_WRITE_Y_4 && !PRows(4)[i].swap
  {
  }

  lemma MoveForms()
    ensures var f := OpLayouts(L_MOV_4)[0];
            |OpLayouts(L_MOV_4)| == 1 && f.optArgs && |f.locs| == 4 && forall i :: 0 <= i < 4 ==> f.locs[i].ty == Wid(REG_11)
    ensures var g := POpLayouts(P_MOVX_DUAL_4)[0];
            |POpLayouts(P_MOVX_DUAL_4)| == 2 && |g.locs| == 4 && g.locs[0].ty == g.locs[2].ty == Nar(REG_4) &&
            g.locs[1].ty == Adr(A_REG_X) && g.locs[3].ty == Adr(A_REG_Y)
    ensures forall k :: 0 <= k < |POpLayouts(P_MOVX_READ_X_WRITE_Y_4)| ==>
              var f := POpLayouts(P_MOVX_READ_X_WRITE_Y_4)[k];
              |f.locs| == 4 && f.locs[3].ty == Nar(REG_4)
  {
  }
}
