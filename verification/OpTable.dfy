/** The opcode table of the DSP, which keeps what the round trip asks of a table. */
module OpTable {
  import opened Operands
  import opened Layouts
  import opened Tables
  import opened Instructions

  /** What a row says besides its name and opcode. */
  datatype RowKind =
    | NoOperands | FarJump | Unlisted | RegisterJump | NearJump | FarLoop
    | NearLoopLit | NearLoopReg | InterruptClear | MovxMdfr | MovxMdfrSwapped | MovxLit
    | MovxLitSwapped | Rxya | Rxy | Move | MoveInc | MoveDec
    | LongRxya | MoveRL | MoveRR | RxLitYSigned | MoveLit | ShortMoveLit
    | MoveLitUpper | RxLitY | Stack | StackSwapped

  function KindLayouts(kind: RowKind): (r: seq<LayoutId>)
    ensures |r| == 3
  {
    match kind
    case NoOperands => [L_NOP, L_NOP, L_NOP]
    case FarJump => [L_NONE, L_PC_LIT_16_2, L_NONE]
    case Unlisted => [L_NONE, L_NONE, L_NONE]
    case RegisterJump => [L_PC_SET_REG_1, L_NONE, L_NONE]
    case NearJump => [L_PC_OFFSET_1, L_NONE, L_NONE]
    case FarLoop => [L_NONE, L_LOOP_PC_LIT_16_2, L_NONE]
    case NearLoopLit => [L_LOOP_PC_OFFSET_LIT_8_CNT_1, L_NONE, L_NONE]
    case NearLoopReg => [L_LOOP_PC_OFFSET_REG_CNT_1, L_NONE, L_NONE]
    case InterruptClear => [L_INTERRUPT_CLR_1, L_NONE, L_NONE]
    case MovxMdfr => [L_MOVX_MDFR_OFFSET_1, L_MOVX_MDFR_OFFSET_2, L_NONE]
    case MovxMdfrSwapped => [L_MOVX_MDFR_OFFSET_1, L_MOVX_MDFR_OFFSET_2, L_NONE]
    case MovxLit => [L_MOVX_LIT_OFFSET_1, L_MOVX_LIT_OFFSET_2, L_NONE]
    case MovxLitSwapped => [L_MOVX_LIT_OFFSET_1, L_MOVX_LIT_OFFSET_2, L_NONE]
    case Rxya => [L_R_X_Y_A_1, L_R_X_Y_A_2, L_R_X_Y_A_4]
    case Rxy => [L_R_X_Y_1, L_R_X_Y_2, L_R_X_Y_4]
    case Move => [L_MOV_1, L_MOV_2, L_MOV_4]
    case MoveInc => [L_MOV_1, L_MOV_2, L_MOV_4]
    case MoveDec => [L_MOV_1, L_MOV_2, L_MOV_4]
    case LongRxya => [L_NONE, L_R_X_Y_A_2, L_R_X_Y_A_4]
    case MoveRL => [L_MOV_1, L_MOV_2, L_MOV_4]
    case MoveRR => [L_MOV_1, L_MOV_2, L_MOV_4]
    case RxLitYSigned => [L_R_X_LIT_8_Y_1, L_R_X_LIT_16_Y_2, L_R_X_LIT_32_Y_4]
    case MoveLit => [L_NONE, L_MOV_LIT_16_2, L_MOV_LIT_32_4]
    case ShortMoveLit => [L_NONE, L_MOV_LIT_16_2, L_NONE]
    case MoveLitUpper => [L_NONE, L_MOV_LIT_16_2, L_MOV_LIT_32_4]
    case RxLitY => [L_R_X_LIT_8_Y_1, L_R_X_LIT_16_Y_2, L_R_X_LIT_32_Y_4]
    case Stack => [L_STACK_UNK_1, L_STACK_UNK_2, L_NONE]
    case StackSwapped => [L_STACK_UNK_1, L_STACK_UNK_2, L_NONE]
  }

  function KindMdfr(kind: RowKind): SrcMdfr {
    match kind
    case MoveInc => MdfrInc
    case MoveDec => MdfrDec
    case MoveRL => MdfrRL
    case MoveRR => MdfrRR
    case RxLitYSigned => Mdfr16Signed
    case MoveLitUpper => Mdfr16Upper
    case _ => MdfrNone
  }

  predicate KindSwap(kind: RowKind) {
    kind.MovxMdfrSwapped? || kind.MovxLitSwapped? || kind.StackSwapped?
  }

  datatype Entry = Entry(name: string, kind: RowKind)

  function RowOf(op: nat, e: Entry): OpRow {
    OpRow(e.name, op, KindLayouts(e.kind), KindMdfr(e.kind), KindSwap(e.kind))
  }

  /** A run of consecutive opcodes. */
  function Run(first: nat, entries: seq<Entry>): (r: seq<OpRow>)
    ensures |r| == |entries|
    ensures forall i :: 0 <= i < |r| ==> r[i] == RowOf(first + i, entries[i])
  {
    seq(|entries|, i requires 0 <= i < |entries| => RowOf(first + i, entries[i]))
  }

  function Ops00(): (r: seq<Entry>)
    ensures |r| == 32
  {
    [ Entry("NOP", NoOperands), Entry("JMP", FarJump), Entry("JMPC", FarJump), Entry("JMPC_T1", FarJump),
      Entry("CALL", FarJump), Entry("CALL_T1", FarJump), Entry("CALL_T2", FarJump), Entry("RET", NoOperands),
      Entry("UNK-0x008", Unlisted), Entry("UNK-0x009", Unlisted), Entry("UNK-0x00a", Unlisted),
      Entry("UNK-0x00b", Unlisted), Entry("JMP", RegisterJump), Entry("UNK-0x00d", Unlisted),
      Entry("UNK-0x00e", Unlisted), Entry("CALL", RegisterJump), Entry("S_JMP", NearJump),
      Entry("S_JMPC", NearJump), Entry("S_JMPC_T1", NearJump), Entry("S_CALL", NearJump),
      Entry("S_CALL_T1", NearJump), Entry("S_CALL_T2", NearJump), Entry("RETI", NoOperands),
      Entry("UNK-0x017", Unlisted), Entry("UNK-0x18", FarLoop), Entry("LOOP-0x19", FarLoop),
      Entry("LOOP-0x10d", FarLoop), Entry("LOOP-0x10d", Unlisted), Entry("LOOP-0x01c", NearLoopLit),
      Entry("LOOP-0x01d", NearLoopReg), Entry("UNK-0x01e", Unlisted), Entry("UNK-0x01f", Unlisted) ]
  }

  function Ops20(): (r: seq<Entry>)
    ensures |r| == 24
  {
    [ Entry("UNK-0x020", Unlisted), Entry("UNK-0x021", Unlisted), Entry("INT_CLR", InterruptClear),
      Entry("HALT", NoOperands), Entry("INT_ENABLE", NoOperands), Entry("INT_DISABLE", NoOperands),
      Entry("UNK-0x026", Unlisted), Entry("UNK-0x027", Unlisted), Entry("UNK-0x028", Unlisted),
      Entry("UNK-0x029", Unlisted), Entry("UNK-0x02a", Unlisted), Entry("UNK-0x02b", Unlisted),
      Entry("UNK-0x02c", Unlisted), Entry("UNK-0x02d", Unlisted), Entry("UNK-0x02e", Unlisted),
      Entry("UNK-0x02f", Unlisted), Entry("MOVX_T1", MovxMdfr), Entry("MOVX_T1", MovxMdfrSwapped),
      Entry("MOVX", MovxMdfr), Entry("MOVX", MovxMdfrSwapped), Entry("MOVX_T1", MovxLit),
      Entry("MOVX_T1", MovxLitSwapped), Entry("MOVX", MovxLit), Entry("MOVX", MovxLitSwapped) ]
  }

  function Ops40(): (r: seq<Entry>)
    ensures |r| == 32
  {
    [ Entry("LMA_S", Rxya), Entry("LMA_AC_MV_S", Rxya), Entry("LMA_AC_S", Rxy), Entry("LNMA_LMA_S", Rxya),
      Entry("LNMA_S", Rxya), Entry("LMS_AC_MV_S", Rxya), Entry("LMS_S", Rxya), Entry("LMA_O", Rxya),
      Entry("LMA_AC_MV_O", Rxya), Entry("LMA_AC_O", Rxy), Entry("LNMA_LMA_O", Rxya), Entry("LNMA_O", Rxya),
      Entry("U_ADD_S", Rxy), Entry("LMS_O", Rxya), Entry("U_ADD3_S", Rxya), Entry("U_SUB_S", Rxy),
      Entry("LMUL_S", Rxy), Entry("U_MOV_ACC", Move), Entry("U_ADD_O", Rxy), Entry("U_ADDC_O", Rxy),
      Entry("U_SUB_O", Rxy), Entry("U_SUBB_O", Rxy), Entry("U_ADDSUB", Rxy), Entry("U_SUBADD", Rxy),
      Entry("U_MOV_ACC", MoveInc), Entry("U_MOV_ACC", MoveDec), Entry("LMUL_O", Rxy), Entry("LNMUL_O", Rxy),
      Entry("LMUL_US_O", Rxy), Entry("LMUL_US_O_T1", Rxy), Entry("INTERP", Rxya), Entry("INTERP_T1", Rxya) ]
  }

  function Ops60(): (r: seq<Entry>)
    ensures |r| == 32
  {
    [ Entry("MA_S", Rxya), Entry("MA_C_S", Rxya), Entry("MA_AC_MV_S", Rxya), Entry("MA_AC_S", Rxy),
      Entry("NMA_MA_S", Rxya), Entry("NMA_S", Rxya), Entry("MS_S", Rxya), Entry("MA_O", Rxya),
      Entry("MA_C_O", Rxya), Entry("MA_AC_MV_O", Rxya), Entry("MA_AC_O", Rxy), Entry("NMA_MA_O", Rxya),
      Entry("NMA_O", Rxya), Entry("MS_O", LongRxya), Entry("ADD_S", Rxy), Entry("ADDC_S", Rxy),
      Entry("SUB_S", Rxy), Entry("SUBB_S", Rxy), Entry("ADD_O", Rxy), Entry("ADDC_O", Rxy),
      Entry("SUB_O", Rxy), Entry("SUBB_O", Rxy), Entry("MOV", MoveInc), Entry("MOV", MoveDec),
      Entry("MOV", MoveRL), Entry("MOV", MoveRR), Entry("MUL_O", Rxy), Entry("NMUL_O", Rxy),
      Entry("MUL_US", Rxy), Entry("MUL_US_T1", Rxy), Entry("MOV_ACC_S", Move), Entry("U_MOV_ACC_S", Move) ]
  }

  function Ops80(): (r: seq<Entry>)
    ensures |r| == 32
  {
    [ Entry("F_MA", Rxya), Entry("F_MA_AC_MV", Rxya), Entry("F_MA_AC", Rxy), Entry("F_MA_NMA", Rxya),
      Entry("F_NMA_MA", LongRxya), Entry("F_NMA", Rxya), Entry("F_MA_MS_AC_MV", Rxya), Entry("F_MS", Rxya),
      Entry("F_ADD", Rxy), Entry("F_SUB", Rxy), Entry("F_SUBADD", Rxy), Entry("F_ADDSUB", Rxy),
      Entry("F_MUL", Rxy), Entry("F_NMUL", Rxy), Entry("F_CMP", Rxy), Entry("F_INV", Move),
      Entry("F_ABS", Move), Entry("F_LIMIT", Rxya), Entry("F_LIMIT_T1", Rxya), Entry("F_ADD_EXP", Rxy),
      Entry("F_GET_SIG", Move), Entry("F_GET_EXP", Move), Entry("F_TO_I", Rxy), Entry("I_TO_F", Rxy),
      Entry("UNK-0x098", Rxya), Entry("F_SINCOS", Move), Entry("F_ARCTAN", Move), Entry("F_RCP_DIV", Rxy),
      Entry("F_RCP", Move), Entry("F_RCP_SQRT", Move), Entry("EXP", Rxya), Entry("LOG", Rxya) ]
  }

  function OpsA0(): (r: seq<Entry>)
    ensures |r| == 18
  {
    [ Entry("F_DFT_TWDL", Rxy), Entry("F_DFT_BFLY", Rxya), Entry("UNK-0x0a2", Rxya), Entry("UNK-0x0a3", Rxya),
      Entry("UNK-0x0a4", Rxya), Entry("UNK-0x0a5", Rxya), Entry("UNK-0x0a6", Rxya), Entry("UNK-0x0a7", Rxya),
      Entry("UNK-0x0a8", Rxya), Entry("UNK-0x0a9", Rxya), Entry("UNK-0x0aa", Rxya), Entry("UNK-0x0ab", Rxya),
      Entry("UNK-0x0ac", Rxya), Entry("UNK-0x0ad", Rxya), Entry("UNK-0x0ae", Rxya), Entry("UNK-0x0af", Rxya),
      Entry("ADD", RxLitYSigned), Entry("UNK-0x0b1", Unlisted) ]
  }

  function OpsC0(): (r: seq<Entry>)
    ensures |r| == 32
  {
    [ Entry("MOV_T1", MoveLit), Entry("MOV", MoveLit), Entry("MOV_T2", MoveLit),
      Entry("MOV_L_T1", ShortMoveLit), Entry("MOV_L", ShortMoveLit), Entry("MOV_L_T2", MoveLit),
      Entry("MOV_U_T1", MoveLitUpper), Entry("MOV_U", MoveLitUpper), Entry("MOV", Move), Entry("MOV_T1", Move),
      Entry("MOV_T2", Move), Entry("UNK-0x0cb", Rxya), Entry("XOR", Rxy), Entry("OR", Rxy), Entry("AND", Rxy),
      Entry("I_ABS_FFS", Move), Entry("I_INV", Move), Entry("CMPL", Move), Entry("I_ABS", Move),
      Entry("I_CMP", Rxy), Entry("I_CMP", RxLitY), Entry("LIMIT", Rxya), Entry("LIMIT_T1", Rxya),
      Entry("TST_NEG", Rxya), Entry("UNK-0x0d8", Rxya), Entry("UNK-0x0d9", Rxya), Entry("UNK-0x0da", Rxya),
      Entry("UNK-0x0db", Rxy), Entry("UNK-0x0dc", Rxya), Entry("UNK-0x0dd", Rxy), Entry("UNK-0x0de", Move),
      Entry("UNK-0x0df", Rxya) ]
  }

  function OpsE0(): (r: seq<Entry>)
    ensures |r| == 32
  {
    [ Entry("FFS", Move), Entry("FFU", Move), Entry("RO_L", Rxy), Entry("RO_R", Rxy), Entry("RO_L", RxLitY),
      Entry("RO_R", RxLitY), Entry("SH_L", Rxy), Entry("SH_R", Rxy), Entry("SH_L", RxLitY),
      Entry("SH_R", RxLitY), Entry("A_SH_L", Rxy), Entry("A_SH_R", Rxy), Entry("A_SH_L", RxLitY),
      Entry("A_SH_R", RxLitY), Entry("SH_R_CHK", Rxy), Entry("SH_R_CHK", RxLitY),
      Entry("SET_SEM_G_BIT", RxLitY), Entry("CLR_SEM_G_BIT", RxLitY), Entry("SET_BIT", Rxy),
      Entry("SET_BIT", RxLitY), Entry("CLR_BIT", Rxy), Entry("CLR_BIT", RxLitY), Entry("TGL_BIT", Rxy),
      Entry("TGL_BIT", RxLitY), Entry("SET_BITS", Rxya), Entry("SET_BITS_T1", Rxya),
      Entry("SET_BITS_T2", Rxya), Entry("GET_BITS", Rxy), Entry("UNK-0x0fc", Rxya), Entry("UNK-0x0fd", Rxy),
      Entry("POP", Stack), Entry("PUSH", StackSwapped) ]
  }

  /** asm_ops */
  function AsmOps(): seq<OpRow> {
    Run(0x00, Ops00()) +
    Run(0x20, Ops20()) +
    Run(0x40, Ops40()) +
    Run(0x60, Ops60()) +
    Run(0x80, Ops80()) +
    Run(0xa0, OpsA0()) +
    Run(0xc0, OpsC0()) +
    Run(0xe0, OpsE0())
  }

  lemma OneWordFits(kind: RowKind)
    ensures FitsLen(KindLayouts(kind)[0], 1)
  {
  }

  lemma TwoWordsFit(kind: RowKind)
    ensures FitsLen(KindLayouts(kind)[1], 2)
  {
  }

  lemma FourWordsFit(kind: RowKind)
    ensures FitsLen(KindLayouts(kind)[2], 4)
  {
  }

  lemma SwapFits(kind: RowKind)
    ensures var ls := KindLayouts(kind);
            KindSwap(kind) ==> Swappable(ls[0]) && Swappable(ls[1]) && Swappable(ls[2])
  {
  }

  lemma MdfrFits(kind: RowKind)
    ensures var ls, m := KindLayouts(kind), KindMdfr(kind);
            m == Mdfr16Upper || m == Mdfr16Signed ==>
              forall i :: 0 <= i < 3 ==> ls[i] != L_PC_LIT_16_2 && ls[i] != L_LOOP_PC_LIT_16_2
  {
  }

  lemma KindIsGood(op: nat, e: Entry)
    requires op < 256
    ensures GoodRow(RowOf(op, e))
  {
    hide KindLayouts, KindSwap, KindMdfr, FitsLen, Swappable;
    OneWordFits(e.kind);
    TwoWordsFit(e.kind);
    FourWordsFit(e.kind);
    SwapFits(e.kind);
    MdfrFits(e.kind);
  }

  /** Rows appended with higher opcodes keep a table good. */
  lemma RunIsGood(table: seq<OpRow>, hi: nat, first: nat, entries: seq<Entry>)
    requires GoodTable(table) && forall i :: 0 <= i < |table| ==> table[i].op < hi
    requires hi <= first && first + |entries| <= 256
    ensures GoodTable(table + Run(first, entries))
    ensures forall i :: 0 <= i < |table + Run(first, entries)| ==> (table + Run(first, entries))[i].op < first + |entries|
  {
    hide GoodRow, KindLayouts, KindMdfr, KindSwap;
    forall i | 0 <= i < |entries|
      ensures GoodRow(Run(first, entries)[i])
    {
      KindIsGood(first + i, entries[i]);
    }
  }

  /** The repository's own table is a good one. */
  lemma AsmOpsAreGood()
    ensures GoodTable(AsmOps())
  {
    hide GoodTable, Ops00, Ops20, Ops40, Ops60, Ops80, OpsA0, OpsC0, OpsE0;
    EmptyIsGood();
    RunIsGood([], 0x00, 0x00, Ops00());
    var t := Run(0x00, Ops00());
    assert [] + t == t;
    RunIsGood(t, 0x20, 0x20, Ops20());
    t := t + Run(0x20, Ops20());
    RunIsGood(t, 0x38, 0x40, Ops40());
    t := t + Run(0x40, Ops40());
    RunIsGood(t, 0x60, 0x60, Ops60());
    t := t + Run(0x60, Ops60());
    RunIsGood(t, 0x80, 0x80, Ops80());
    t := t + Run(0x80, Ops80());
    RunIsGood(t, 0xa0, 0xa0, OpsA0());
    t := t + Run(0xa0, OpsA0());
    RunIsGood(t, 0xb2, 0xc0, OpsC0());
    t := t + Run(0xc0, OpsC0());
    RunIsGood(t, 0xe0, 0xe0, OpsE0());
    t := t + Run(0xe0, OpsE0());
  }

  lemma EmptyIsGood()
    ensures GoodTable([])
  {
  }
}
