/** Where the fields of every instruction form lie: the layout tables shared by the
    assembler and the disassembler. */
module Layouts {
  import opened Operands
  import opened OpWords
  import opened Bits

  datatype Dir = DirNone | DirSrc | DirDst | DirX | DirY | DirA

  /** One operand: `bits1` bits at `start1`, followed by `bits2` bits at `start2`. `end`
      marks the last operand of the first of two parallel halves. */
  datatype Loc = Loc(start1: nat, bits1: nat, start2: nat, bits2: nat, ty: OperandType, dir: Dir, end: bool)

  /** One form of an instruction. It is told apart from its siblings by the value
      `discVal` of `discBits` bits at `discStart` (no bits: it needs no telling apart).
      `mask` is or-ed into the words; `optArgs` forms leave room for a parallel operation. */
  datatype Layout = Layout(discStart: nat, discBits: nat, discVal: nat, locs: seq<Loc>, mask: seq<nat>, optArgs: bool)

  datatype LayoutId =
    | L_MOV_1 | L_MOVX_MDFR_OFFSET_1 | L_MOVX_LIT_OFFSET_1 | L_R_X_Y_1
    | L_R_X_Y_A_1 | L_R_X_LIT_8_Y_1 | L_PC_OFFSET_1 | L_LOOP_PC_OFFSET_REG_CNT_1
    | L_LOOP_PC_OFFSET_LIT_8_CNT_1 | L_PC_SET_REG_1 | L_STACK_UNK_1 | L_INTERRUPT_CLR_1
    | L_MOV_2 | L_MOVX_MDFR_OFFSET_2 | L_MOVX_LIT_OFFSET_2 | L_R_X_Y_2
    | L_R_X_Y_A_2 | L_MOV_LIT_16_2 | L_R_X_LIT_16_Y_2 | L_PC_LIT_16_2
    | L_LOOP_PC_LIT_16_2 | L_STACK_UNK_2 | L_MOV_4 | L_R_X_Y_4
    | L_R_X_Y_A_4 | L_MOV_LIT_32_4 | L_R_X_LIT_32_Y_4 | L_NOP
    | L_NONE

  datatype PLayoutId =
    | P_MOV_2 | P_MOVX_2 | P_MOVX_DUAL_READ_2 | P_MOVX_DUAL_WRITE_2
    | P_EXECUTE_COND_2 | P_MOV_4 | P_MOV_DUAL_4 | P_MOVX_4
    | P_MOVX_DUAL_4 | P_MOVX_READ_X_WRITE_Y_4 | P_EXECUTE_COND_4

  /* operand_layouts: the forms of each instruction layout, in the order they are tried. */

  function FormsMov1(): seq<Layout> {
    [Layout(16, 1, 0x00, [
      Loc(9, 7, 0, 0, Nar(REG_7), DirDst, false),
      Loc(18, 7, 0, 0, Nar(REG_7), DirSrc, false)],
      [0, 0, 0, 0], false),
     Layout(16, 1, 0x01, [
      Loc(17, 4, 0, 0, Nar(REG_4), DirDst, false),
      Loc(21, 3, 0, 0, Nar(REG_3), DirSrc, true),
      Loc(9, 4, 0, 0, Nar(REG_4), DirDst, false),
      Loc(13, 3, 0, 0, Nar(REG_3_8), DirSrc, false)],
      [0x1, 0, 0, 0], false)]
  }

  function FormsMovxMdfrOffset1(): seq<Layout> {
    [Layout(21, 1, 0x01, [
      Loc(16, 5, 0, 0, Nar(REG_5), DirDst, false),
      Loc(13, 3, 22, 3, Adr(A_REG_Y_MDFR_OFFSET), DirSrc, false)],
      [0, 0, 0, 0], false),
     Layout(0, 0, 0x00, [
      Loc(16, 5, 0, 0, Nar(REG_5), DirDst, false),
      Loc(13, 3, 22, 3, Adr(A_REG_X_MDFR_OFFSET), DirSrc, false)],
      [0, 0, 0, 0], false)]
  }

  function FormsMovxLitOffset1(): seq<Layout> {
    [Layout(0, 0, 0x00, [
      Loc(16, 5, 0, 0, Nar(REG_5), DirDst, false),
      Loc(9, 7, 21, 4, Ofs(A_REG_INT_7_OFFSET), DirSrc, false)],
      [0, 0, 0, 0], false)]
  }

  function FormsRXY1(): seq<Layout> {
    [Layout(16, 1, 0x00, [
      Loc(9, 5, 0, 0, Nar(REG_5), DirDst, false),
      Loc(20, 5, 0, 0, Nar(REG_5), DirX, false),
      Loc(15, 1, 17, 3, Nar(REG_4), DirY, false)],
      [0, 0, 0, 0], false),
     Layout(16, 1, 0x01, [
      Loc(17, 3, 0, 0, Nar(REG_3_ACC), DirDst, false),
      Loc(22, 2, 0, 0, Nar(REG_2_T2), DirX, false),
      Loc(20, 2, 0, 0, Nar(REG_2), DirY, true),
      Loc(9, 3, 0, 0, Nar(REG_3_ACC), DirDst, false),
      Loc(14, 2, 0, 0, Nar(REG_2_T1), DirX, false),
      Loc(12, 2, 0, 0, Nar(REG_2_8), DirY, false)],
      [0x1, 0, 0, 0], false)]
  }

  function FormsRXYA1(): seq<Layout> {
    [Layout(0, 0, 0x00, [
      Loc(9, 3, 0, 0, Nar(REG_3_FMA), DirDst, false),
      Loc(17, 4, 0, 0, Nar(REG_4), DirX, false),
      Loc(12, 4, 0, 0, Nar(REG_4), DirY, false),
      Loc(21, 4, 0, 0, Nar(REG_4), DirA, false)],
      [0, 0, 0, 0], false)]
  }

  function FormsRXLit8Y1(): seq<Layout> {
    [Layout(0, 0, 0x00, [
      Loc(21, 4, 0, 0, Nar(REG_4), DirDst, false),
      Loc(17, 4, 0, 0, Nar(REG_4), DirX, false),
      Loc(9, 8, 0, 0, Lit(LITERAL_8_INT), DirY, false)],
      [0, 0, 0, 0], false)]
  }

  function FormsPcOffset1(): seq<Layout> {
    [Layout(0, 0, 0x00, [
      Loc(9, 8, 0, 0, Lit(LITERAL_8), DirNone, false),
      Loc(17, 8, 0, 0, Lit(LITERAL_8_INT_PC_OFFSET), DirNone, false)],
      [0, 0, 0, 0], false)]
  }

  function FormsLoopPcOffsetRegCnt1(): seq<Layout> {
    [Layout(0, 0, 0x00, [
      Loc(12, 5, 0, 0, Nar(REG_5), DirNone, false),
      Loc(17, 8, 0, 0, Lit(LITERAL_8_INT_PC_OFFSET), DirNone, false)],
      [0, 0, 0, 0], false)]
  }

  function FormsLoopPcOffsetLit8Cnt1(): seq<Layout> {
    [Layout(0, 0, 0x00, [
      Loc(9, 8, 0, 0, Lit(LITERAL_8_INT), DirNone, false),
      Loc(17, 8, 0, 0, Lit(LITERAL_8_INT_PC_OFFSET), DirNone, false)],
      [0, 0, 0, 0], false)]
  }

  function FormsPcSetReg1(): seq<Layout> {
    [Layout(18, 1, 0x01, [
      Loc(9, 8, 0, 0, Lit(LITERAL_8), DirNone, false),
      Loc(19, 3, 0, 0, Wid(A_REG_CALL_MDFR), DirNone, false),
      Loc(22, 3, 0, 0, Wid(A_REG_CALL), DirNone, false)],
      [0, 0, 0, 0], false),
     Layout(0, 0, 0x00, [
      Loc(9, 8, 0, 0, Lit(LITERAL_8), DirNone, false),
      Loc(22, 3, 0, 0, Wid(A_REG_CALL), DirNone, false)],
      [0, 0, 0, 0], false)]
  }

  function FormsStackUnk1(): seq<Layout> {
    [Layout(0, 0, 0x00, [
      Loc(14, 11, 0, 0, Wid(REG_11), DirDst, false),
      Loc(9, 5, 0, 0, Stk(C_STK_5), DirSrc, false)],
      [0, 0, 0, 0], false)]
  }

  function FormsInterruptClr1(): seq<Layout> {
    [Layout(0, 0, 0x00, [
      Loc(17, 8, 0, 0, Lit(LITERAL_8), DirNone, false)],
      [0, 0, 0, 0], false)]
  }

  function FormsMov2(): seq<Layout> {
    [Layout(10, 7, 0x7c, [
      Loc(29, 21, 0, 0, Lit(LITERAL_16_ADDR), DirDst, false),
      Loc(17, 4, 0, 0, Nar(REG_4), DirSrc, false)],
      [0, 0, 0, 0], false),
     Layout(10, 7, 0x7d, [
      Loc(17, 4, 0, 0, Nar(REG_4), DirDst, false),
      Loc(29, 21, 0, 0, Lit(LITERAL_16_ADDR), DirSrc, false)],
      [0, 0, 0, 0], false),
     Layout(38, 1, 0x00, [
      Loc(28, 10, 0, 0, Nar(REG_10), DirDst, false),
      Loc(39, 10, 0, 0, Nar(REG_10), DirSrc, false)],
      [0, 0x1, 0, 0], true),
     Layout(38, 1, 0x01, [
      Loc(39, 4, 0, 0, Nar(REG_4), DirDst, false),
      Loc(45, 4, 0, 0, Nar(REG_4), DirSrc, true),
      Loc(28, 4, 0, 0, Nar(REG_4), DirDst, false),
      Loc(34, 4, 0, 0, Nar(REG_4), DirSrc, false)],
      [0, 0x1, 0, 0], true)]
  }

  function FormsMovxMdfrOffset2(): seq<Layout> {
    [Layout(46, 1, 0x00, [
      Loc(41, 5, 0, 0, Nar(REG_5), DirDst, false),
      Loc(38, 3, 47, 3, Adr(A_REG_X_MDFR_OFFSET), DirSrc, true),
      Loc(21, 5, 0, 0, Nar(REG_5), DirDst, false),
      Loc(18, 3, 27, 3, Adr(A_REG_Y_MDFR_OFFSET), DirSrc, false)],
      [0, 0, 0, 0], false),
     Layout(23, 1, 0x01, [
      Loc(21, 1, 41, 5, Nar(REG_5_MOVX), DirDst, false),
      Loc(38, 3, 47, 3, Adr(A_REG_Y_MDFR_OFFSET), DirSrc, false)],
      [0, 0x8, 0, 0], false),
     Layout(0, 0, 0x00, [
      Loc(21, 1, 41, 5, Nar(REG_5_MOVX), DirDst, false),
      Loc(38, 3, 47, 3, Adr(A_REG_X_MDFR_OFFSET), DirSrc, false)],
      [0, 0x8, 0, 0], false)]
  }

  function FormsMovxLitOffset2(): seq<Layout> {
    [Layout(46, 1, 0x00, [
      Loc(41, 5, 0, 0, Nar(REG_5), DirDst, false),
      Loc(30, 11, 47, 3, Ofs(A_REG_X_INT_11_OFFSET), DirSrc, true),
      Loc(21, 5, 0, 0, Nar(REG_5), DirDst, false),
      Loc(10, 11, 27, 3, Ofs(A_REG_Y_INT_11_OFFSET), DirSrc, false)],
      [0, 0, 0, 0], false),
     Layout(0, 0, 0x00, [
      Loc(21, 1, 41, 5, Nar(REG_5_MOVX), DirDst, false),
      Loc(23, 18, 47, 3, Ofs(A_REG_INT_17_OFFSET), DirSrc, false)],
      [0, 0x8, 0, 0], false)]
  }

  function FormsRXY2(): seq<Layout> {
    [Layout(10, 7, 0x7d, [
      Loc(17, 4, 0, 0, Nar(REG_4), DirDst, false),
      Loc(29, 21, 0, 0, Lit(LITERAL_16_ADDR), DirX, false),
      Loc(25, 4, 0, 0, Nar(REG_4), DirY, false)],
      [0, 0, 0, 0], false),
     Layout(38, 1, 0x00, [
      Loc(28, 7, 0, 0, Nar(REG_7), DirDst, false),
      Loc(43, 7, 0, 0, Nar(REG_7), DirX, false),
      Loc(35, 3, 39, 4, Nar(REG_7), DirY, false)],
      [0, 0, 0, 0], true),
     Layout(38, 1, 0x01, [
      Loc(39, 4, 0, 0, Nar(REG_4), DirDst, false),
      Loc(46, 3, 0, 0, Nar(REG_3_X_T1), DirX, false),
      Loc(43, 3, 0, 0, Nar(REG_3_Y_T1), DirY, true),
      Loc(28, 4, 0, 0, Nar(REG_4), DirDst, false),
      Loc(35, 3, 0, 0, Nar(REG_3_X_T2), DirX, false),
      Loc(32, 3, 0, 0, Nar(REG_3_Y_T2), DirY, false)],
      [0, 0x1, 0, 0], true)]
  }

  function FormsRXYA2(): seq<Layout> {
    [Layout(30, 2, 0x00, [
      Loc(39, 2, 0, 0, Nar(REG_2_4), DirDst, false),
      Loc(44, 3, 0, 0, Nar(REG_3_FMA_X_T1), DirX, false),
      Loc(41, 3, 0, 0, Nar(REG_3_FMA_Y_T1), DirY, false),
      Loc(47, 3, 0, 0, Nar(REG_3_FMA_A_T1), DirA, true),
      Loc(28, 2, 0, 0, Nar(REG_2_12), DirDst, false),
      Loc(33, 3, 0, 0, Nar(REG_3_FMA_X_T2), DirX, false),
      Loc(30, 3, 0, 0, Nar(REG_3_FMA_Y_T2), DirY, false),
      Loc(36, 3, 0, 0, Nar(REG_3_FMA_A_T1), DirA, false)],
      [0, 0, 0, 0], true),
     Layout(30, 2, 0x03, [
      Loc(33, 5, 0, 0, Nar(REG_5), DirDst, false),
      Loc(42, 4, 0, 0, Nar(REG_4), DirX, false),
      Loc(38, 4, 0, 0, Nar(REG_4), DirY, false),
      Loc(46, 4, 0, 0, Nar(REG_4), DirA, false)],
      [0, 0xe0000, 0, 0], true)]
  }

  function FormsMovLit162(): seq<Layout> {
    [Layout(0, 0, 0x00, [
      Loc(39, 11, 0, 0, Wid(REG_11), DirDst, false),
      Loc(12, 16, 0, 0, Lit(LITERAL_16), DirSrc, true),
      Loc(28, 11, 0, 0, Wid(REG_11), DirDst, false),
      Loc(12, 16, 0, 0, Lit(LITERAL_16), DirSrc, false)],
      [0, 0, 0, 0], false)]
  }

  function FormsRXLit16Y2(): seq<Layout> {
    [Layout(0, 0, 0x00, [
      Loc(39, 11, 0, 0, Wid(REG_11), DirDst, false),
      Loc(28, 11, 0, 0, Wid(REG_11), DirX, false),
      Loc(12, 16, 0, 0, Lit(LITERAL_16), DirY, false)],
      [0, 0, 0, 0], false)]
  }

  function FormsPcLit162(): seq<Layout> {
    [Layout(0, 0, 0x00, [
      Loc(20, 8, 0, 0, Lit(LITERAL_8), DirNone, false),
      Loc(34, 16, 0, 0, Lit(LITERAL_16), DirNone, false)],
      [0, 0, 0, 0], false)]
  }

  function FormsLoopPcLit162(): seq<Layout> {
    [Layout(9, 1, 0x00, [
      Loc(24, 4, 0, 0, Nar(REG_4), DirNone, false),
      Loc(34, 16, 0, 0, Lit(LITERAL_16), DirNone, false)],
      [0, 0, 0, 0], false),
     Layout(9, 1, 0x01, [
      Loc(12, 16, 0, 0, Lit(LITERAL_16), DirNone, false),
      Loc(34, 16, 0, 0, Lit(LITERAL_16), DirNone, false)],
      [0, 0, 0, 0], false)]
  }

  function FormsStackUnk2(): seq<Layout> {
    [Layout(0, 0, 0x00, [
      Loc(39, 11, 0, 0, Wid(REG_11), DirDst, false),
      Loc(28, 11, 0, 0, Stk(C_STK_11), DirSrc, false)],
      [0, 0, 0, 0], true)]
  }

  function FormsMov4(): seq<Layout> {
    [Layout(0, 0, 0x00, [
      Loc(77, 11, 0, 0, Wid(REG_11), DirDst, false),
      Loc(89, 11, 0, 0, Wid(REG_11), DirSrc, true),
      Loc(53, 11, 0, 0, Wid(REG_11), DirDst, false),
      Loc(65, 11, 0, 0, Wid(REG_11), DirSrc, false)],
      [0, 0x2000, 0, 0], true)]
  }

  function FormsRXY4(): seq<Layout> {
    [Layout(10, 3, 0x00, [
      Loc(67, 11, 0, 0, Wid(REG_11), DirDst, false),
      Loc(89, 11, 0, 0, Wid(REG_11), DirX, false),
      Loc(78, 11, 0, 0, Wid(REG_11), DirY, true),
      Loc(34, 11, 0, 0, Wid(REG_11), DirDst, false),
      Loc(56, 11, 0, 0, Wid(REG_11), DirX, false),
      Loc(45, 11, 0, 0, Wid(REG_11), DirY, false)],
      [0, 0, 0, 0], false),
     Layout(36, 1, 0x00, [
      Loc(67, 11, 0, 0, Wid(REG_11), DirDst, false),
      Loc(89, 11, 0, 0, Wid(REG_11), DirX, false),
      Loc(78, 11, 0, 0, Wid(REG_11), DirY, false)],
      [0, 0, 0, 0], true),
     Layout(36, 1, 0x01, [
      Loc(67, 11, 0, 0, Wid(REG_11), DirDst, false),
      Loc(89, 11, 0, 0, Wid(REG_11), DirX, false),
      Loc(78, 11, 0, 0, Wid(REG_11), DirY, true),
      Loc(37, 10, 67, 11, Wid(REG_11_10_OFFSET), DirDst, false),
      Loc(57, 10, 89, 11, Wid(REG_11_10_OFFSET), DirX, false),
      Loc(47, 10, 78, 11, Wid(REG_11_10_OFFSET), DirY, false)],
      [0, 0, 0, 0], true)]
  }

  function FormsRXYA4(): seq<Layout> {
    [Layout(10, 2, 0x00, [
      Loc(56, 11, 0, 0, Wid(REG_11), DirDst, false),
      Loc(78, 11, 0, 0, Wid(REG_11), DirX, false),
      Loc(67, 11, 0, 0, Wid(REG_11), DirY, false),
      Loc(89, 11, 0, 0, Wid(REG_11), DirA, true),
      Loc(12, 11, 0, 0, Wid(REG_11), DirDst, false),
      Loc(34, 11, 0, 0, Wid(REG_11), DirX, false),
      Loc(23, 11, 0, 0, Wid(REG_11), DirY, false),
      Loc(45, 11, 0, 0, Wid(REG_11), DirA, false)],
      [0, 0, 0, 0], false),
     Layout(39, 1, 0x00, [
      Loc(56, 11, 0, 0, Wid(REG_11), DirDst, false),
      Loc(78, 11, 0, 0, Wid(REG_11), DirX, false),
      Loc(67, 11, 0, 0, Wid(REG_11), DirY, false),
      Loc(89, 11, 0, 0, Wid(REG_11), DirA, true),
      Loc(40, 4, 56, 11, Wid(REG_11_4_OFFSET), DirDst, false),
      Loc(44, 4, 78, 11, Wid(REG_11_4_OFFSET), DirX, false),
      Loc(48, 4, 67, 11, Wid(REG_11_4_OFFSET), DirY, false),
      Loc(52, 4, 89, 11, Wid(REG_11_4_OFFSET), DirA, false)],
      [0, 0x3800, 0, 0], true),
     Layout(39, 1, 0x01, [
      Loc(56, 11, 0, 0, Wid(REG_11), DirDst, false),
      Loc(78, 11, 0, 0, Wid(REG_11), DirX, false),
      Loc(67, 11, 0, 0, Wid(REG_11), DirY, false),
      Loc(89, 11, 0, 0, Wid(REG_11), DirA, false)],
      [0, 0x3800, 0, 0], true)]
  }

  function FormsMovLit324(): seq<Layout> {
    [Layout(0, 0, 0x00, [
      Loc(89, 11, 0, 0, Wid(REG_11), DirDst, false),
      Loc(42, 32, 0, 0, Lit(LITERAL_32), DirSrc, true),
      Loc(78, 11, 0, 0, Wid(REG_11), DirDst, false),
      Loc(10, 32, 0, 0, Lit(LITERAL_32), DirSrc, false)],
      [0, 0, 0, 0], false)]
  }

  function FormsRXLit32Y4(): seq<Layout> {
    [Layout(77, 1, 0x01, [
      Loc(78, 11, 0, 0, Wid(REG_11), DirDst, false),
      Loc(89, 11, 0, 0, Wid(REG_11), DirX, false),
      Loc(42, 32, 0, 0, Lit(LITERAL_32), DirY, false)],
      [0, 0, 0, 0], false),
     Layout(0, 0, 0x00, [
      Loc(90, 5, 0, 0, Nar(REG_5), DirDst, false),
      Loc(95, 5, 0, 0, Nar(REG_5), DirX, false),
      Loc(42, 32, 0, 0, Lit(LITERAL_32), DirY, true),
      Loc(80, 5, 0, 0, Nar(REG_5), DirDst, false),
      Loc(85, 5, 0, 0, Nar(REG_5), DirX, false),
      Loc(10, 32, 0, 0, Lit(LITERAL_32), DirY, false)],
      [0, 0, 0, 0], false)]
  }

  function FormsNop(): seq<Layout> {
    [Layout(0, 0, 0x00, [
      Loc(9, 1, 0, 0, Stk(NOP_ARG), DirNone, false)],
      [0, 0, 0, 0], true)]
  }

  function OpLayouts(id: LayoutId): seq<Layout> {
    match id
    case L_MOV_1 => FormsMov1()
    case L_MOVX_MDFR_OFFSET_1 => FormsMovxMdfrOffset1()
    case L_MOVX_LIT_OFFSET_1 => FormsMovxLitOffset1()
    case L_R_X_Y_1 => FormsRXY1()
    case L_R_X_Y_A_1 => FormsRXYA1()
    case L_R_X_LIT_8_Y_1 => FormsRXLit8Y1()
    case L_PC_OFFSET_1 => FormsPcOffset1()
    case L_LOOP_PC_OFFSET_REG_CNT_1 => FormsLoopPcOffsetRegCnt1()
    case L_LOOP_PC_OFFSET_LIT_8_CNT_1 => FormsLoopPcOffsetLit8Cnt1()
    case L_PC_SET_REG_1 => FormsPcSetReg1()
    case L_STACK_UNK_1 => FormsStackUnk1()
    case L_INTERRUPT_CLR_1 => FormsInterruptClr1()
    case L_MOV_2 => FormsMov2()
    case L_MOVX_MDFR_OFFSET_2 => FormsMovxMdfrOffset2()
    case L_MOVX_LIT_OFFSET_2 => FormsMovxLitOffset2()
    case L_R_X_Y_2 => FormsRXY2()
    case L_R_X_Y_A_2 => FormsRXYA2()
    case L_MOV_LIT_16_2 => FormsMovLit162()
    case L_R_X_LIT_16_Y_2 => FormsRXLit16Y2()
    case L_PC_LIT_16_2 => FormsPcLit162()
    case L_LOOP_PC_LIT_16_2 => FormsLoopPcLit162()
    case L_STACK_UNK_2 => FormsStackUnk2()
    case L_MOV_4 => FormsMov4()
    case L_R_X_Y_4 => FormsRXY4()
    case L_R_X_Y_A_4 => FormsRXYA4()
    case L_MOV_LIT_32_4 => FormsMovLit324()
    case L_R_X_LIT_32_Y_4 => FormsRXLit32Y4()
    case L_NOP => FormsNop()
    case L_NONE => []
  }

  /* p_operand_layouts: the same for parallel operations. */

  function PFormsMov2(): seq<Layout> {
    [Layout(0, 0, 0x00, [
      Loc(23, 4, 0, 0, Nar(REG_4), DirDst, false),
      Loc(17, 4, 0, 0, Nar(REG_4), DirSrc, false)],
      [0, 0, 0, 0], false)]
  }

  function PFormsMovx2(): seq<Layout> {
    [Layout(16, 1, 0x00, [
      Loc(17, 4, 0, 0, Nar(REG_4), DirDst, false),
      Loc(15, 1, 21, 3, Adr(A_REG), DirSrc, false)],
      [0, 0, 0, 0], false),
     Layout(16, 1, 0x01, [
      Loc(17, 4, 0, 0, Nar(REG_4), DirDst, false),
      Loc(15, 1, 21, 6, Adr(A_REG_PLUS_MDFR), DirSrc, false)],
      [0, 0, 0, 0], false)]
  }

  function PFormsMovxDualRead2(): seq<Layout> {
    [Layout(16, 1, 0x00, [
      Loc(20, 4, 0, 0, Nar(REG_4), DirDst, false),
      Loc(13, 3, 0, 0, Adr(A_REG_X), DirSrc, true),
      Loc(24, 4, 0, 0, Nar(REG_4), DirDst, false),
      Loc(17, 3, 0, 0, Adr(A_REG_Y), DirSrc, false)],
      [0, 0, 0, 0], false),
     Layout(16, 1, 0x01, [
      Loc(20, 4, 0, 0, Nar(REG_4), DirDst, false),
      Loc(13, 3, 0, 0, Adr(A_REG_X_INC), DirSrc, true),
      Loc(24, 4, 0, 0, Nar(REG_4), DirDst, false),
      Loc(17, 3, 0, 0, Adr(A_REG_Y_INC), DirSrc, false)],
      [0, 0, 0, 0], false)]
  }

  function PFormsMovxDualWrite2(): seq<Layout> {
    [Layout(24, 1, 0x00, [
      Loc(21, 3, 0, 0, Adr(A_REG_X), DirDst, false),
      Loc(12, 4, 0, 0, Nar(REG_4), DirSrc, true),
      Loc(25, 3, 0, 0, Adr(A_REG_Y), DirDst, false),
      Loc(16, 4, 0, 0, Nar(REG_4), DirSrc, false)],
      [0, 0, 0, 0], false),
     Layout(24, 1, 0x01, [
      Loc(21, 3, 0, 0, Adr(A_REG_X_INC), DirDst, false),
      Loc(12, 4, 0, 0, Nar(REG_4), DirSrc, true),
      Loc(25, 3, 0, 0, Adr(A_REG_Y_INC), DirDst, false),
      Loc(16, 4, 0, 0, Nar(REG_4), DirSrc, false)],
      [0, 0, 0, 0], false)]
  }

  function PFormsExecuteCond2(): seq<Layout> {
    [Layout(16, 0, 0x00, [
      Loc(20, 8, 0, 0, Lit(LITERAL_8), DirNone, false)],
      [0, 0, 0, 0], false)]
  }

  function PFormsMov4(): seq<Layout> {
    [Layout(0, 0, 0x00, [
      Loc(24, 4, 0, 0, Nar(REG_4), DirDst, false),
      Loc(18, 4, 0, 0, Nar(REG_4), DirSrc, false)],
      [0, 0, 0, 0], false)]
  }

  function PFormsMovDual4(): seq<Layout> {
    [Layout(0, 0, 0x00, [
      Loc(26, 4, 0, 0, Nar(REG_4), DirDst, false),
      Loc(16, 4, 0, 0, Nar(REG_4), DirSrc, true),
      Loc(32, 4, 0, 0, Nar(REG_4), DirDst, false),
      Loc(20, 4, 0, 0, Nar(REG_4), DirSrc, false)],
      [0, 0, 0, 0], false)]
  }

  function PFormsMovx4(): seq<Layout> {
    [Layout(17, 1, 0x00, [
      Loc(18, 4, 0, 0, Nar(REG_4), DirDst, false),
      Loc(16, 1, 22, 3, Adr(A_REG), DirSrc, false)],
      [0, 0, 0, 0], false),
     Layout(17, 1, 0x01, [
      Loc(18, 4, 0, 0, Nar(REG_4), DirDst, false),
      Loc(16, 1, 22, 6, Adr(A_REG_PLUS_MDFR), DirSrc, false)],
      [0, 0, 0, 0], false)]
  }

  function PFormsMovxDual4(): seq<Layout> {
    [Layout(15, 1, 0x00, [
      Loc(16, 4, 0, 0, Nar(REG_4), DirDst, false),
      Loc(24, 3, 0, 0, Adr(A_REG_X), DirSrc, true),
      Loc(20, 4, 0, 0, Nar(REG_4), DirDst, false),
      Loc(30, 3, 0, 0, Adr(A_REG_Y), DirSrc, false)],
      [0, 0, 0, 0], false),
     Layout(15, 1, 0x01, [
      Loc(16, 4, 0, 0, Nar(REG_4), DirDst, false),
      Loc(24, 6, 0, 0, Adr(A_REG_X_PLUS_MDFR), DirSrc, true),
      Loc(20, 4, 0, 0, Nar(REG_4), DirDst, false),
      Loc(30, 6, 0, 0, Adr(A_REG_Y_PLUS_MDFR), DirSrc, false)],
      [0, 0, 0, 0], false)]
  }

  function PFormsMovxReadXWriteY4(): seq<Layout> {
    [Layout(15, 1, 0x00, [
      Loc(16, 4, 0, 0, Nar(REG_4), DirDst, false),
      Loc(24, 3, 0, 0, Adr(A_REG_X), DirSrc, true),
      Loc(30, 3, 0, 0, Adr(A_REG_Y), DirDst, false),
      Loc(20, 4, 0, 0, Nar(REG_4), DirSrc, false)],
      [0, 0, 0, 0], false),
     Layout(15, 1, 0x01, [
      Loc(16, 4, 0, 0, Nar(REG_4), DirDst, false),
      Loc(24, 6, 0, 0, Adr(A_REG_X_PLUS_MDFR), DirSrc, true),
      Loc(30, 6, 0, 0, Adr(A_REG_Y_PLUS_MDFR), DirDst, false),
      Loc(20, 4, 0, 0, Nar(REG_4), DirSrc, false)],
      [0, 0, 0, 0], false)]
  }

  function PFormsExecuteCond4(): seq<Layout> {
    [Layout(16, 2, 0x02, [
      Loc(28, 8, 0, 0, Lit(LITERAL_8), DirNone, true),
      Loc(20, 8, 0, 0, Lit(LITERAL_8), DirNone, false)],
      [0, 0, 0, 0], true)]
  }

  function POpLayouts(id: PLayoutId): seq<Layout> {
    match id
    case P_MOV_2 => PFormsMov2()
    case P_MOVX_2 => PFormsMovx2()
    case P_MOVX_DUAL_READ_2 => PFormsMovxDualRead2()
    case P_MOVX_DUAL_WRITE_2 => PFormsMovxDualWrite2()
    case P_EXECUTE_COND_2 => PFormsExecuteCond2()
    case P_MOV_4 => PFormsMov4()
    case P_MOV_DUAL_4 => PFormsMovDual4()
    case P_MOVX_4 => PFormsMovx4()
    case P_MOVX_DUAL_4 => PFormsMovxDual4()
    case P_MOVX_READ_X_WRITE_Y_4 => PFormsMovxReadXWriteY4()
    case P_EXECUTE_COND_4 => PFormsExecuteCond4()
  }

  /** The field regions [s1, s1 + n1) and [s2, s2 + n2) have no bit in common. */
  predicate Apart(s1: nat, n1: nat, s2: nat, n2: nat) {
    n1 == 0 || n2 == 0 || s1 + n1 <= s2 || s2 + n2 <= s1
  }

  /** The second part of a relative operand is the base operand's field, to which it
      adds no bits. */
  function OwnBits2(a: Loc): nat { if Relative(a.ty) then 0 else a.bits2 }

  predicate ApartFrom(a: Loc, s: nat, n: nat) {
    Apart(a.start1, a.bits1, s, n) && Apart(a.start2, OwnBits2(a), s, n)
  }

  predicate LocsApart(a: Loc, b: Loc) {
    ApartFrom(a, b.start1, b.bits1) && ApartFrom(a, b.start2, OwnBits2(b))
  }

  /** Two 16-bit literals that share one field. */
  predicate Twins(a: Loc, b: Loc) {
    a.ty == b.ty == Lit(LITERAL_16) && a.start1 == b.start1 && a.bits1 == b.bits1 && a.bits2 == b.bits2 == 0
  }

  /** Operands i and j are the twins of the two halves. */
  predicate TwinsAt(locs: seq<Loc>, i: nat, j: nat)
    requires i < |locs| && j < |locs|
  {
    Twins(locs[i], locs[j]) && i < 2 && j == i + 2 && HalfAt(locs, 2)
  }

  /** The first of two parallel halves has d operands. */
  predicate HalfAt(locs: seq<Loc>, d: nat) {
    d <= |locs| &&
    match d
    case 2 => !locs[0].end && locs[1].end
    case 3 => !locs[0].end && !locs[1].end && locs[2].end
    case 4 => !locs[0].end && !locs[1].end && !locs[2].end && locs[3].end
    case _ => false
  }

  /** The number of operands before the ':' the form prints. */
  function SplitOf(locs: seq<Loc>): nat {
    if FirstEnd(locs, 0) == |locs| then 0 else FirstEnd(locs, 0) + 1
  }

  function FirstEnd(locs: seq<Loc>, i: nat): (r: nat)
    requires i <= |locs|
    ensures i <= r <= |locs|
    decreases |locs| - i
  {
    if i == |locs| || locs[i].end then i else FirstEnd(locs, i + 1)
  }

  lemma HalfIsSplit(locs: seq<Loc>, d: nat)
    requires HalfAt(locs, d)
    ensures SplitOf(locs) == d
  {
    assert FirstEnd(locs, 1) == if locs[1].end then 1 else FirstEnd(locs, 2);
    if d > 2 {
      assert FirstEnd(locs, 2) == if locs[2].end then 2 else FirstEnd(locs, 3);
    }
  }

  /* The table checks below count down so that they can be evaluated on a table entry. */

  predicate ApartFromFirst(locs: seq<Loc>, j: nat, m: nat)
    requires m <= j < |locs|
    decreases m
  {
    m == 0 || ((LocsApart(locs[j], locs[m - 1]) || TwinsAt(locs, m - 1, j)) && ApartFromFirst(locs, j, m - 1))
  }

  /** The first n operands have pairwise separate fields. */
  predicate AllApart(locs: seq<Loc>, n: nat)
    requires n <= |locs|
    decreases n
  {
    n == 0 || (ApartFromFirst(locs, n - 1, n - 1) && AllApart(locs, n - 1))
  }

  /** The first n operands have no bit in [s, s + m). */
  predicate NoneIn(locs: seq<Loc>, n: nat, s: nat, m: nat)
    requires n <= |locs|
    decreases n
  {
    n == 0 || (ApartFrom(locs[n - 1], s, m) && NoneIn(locs, n - 1, s, m))
  }

  /** How far before a relative operand its base operand stands. */
  function BaseDistance(ty: OperandType): nat {
    if ty == Wid(REG_11_4_OFFSET) then 4 else 3
  }

  /** The field of operand j lies in [lo, hi), is as wide as its type, and, if it is
      relative, ends with the field of the REG_11 operand it is relative to. */
  predicate LocFits(locs: seq<Loc>, j: nat, lo: nat, hi: nat)
    requires j < |locs|
  {
    var a := locs[j];
    lo <= a.start1 && a.start1 + a.bits1 <= hi && (a.bits2 == 0 || (lo <= a.start2 && a.start2 + a.bits2 <= hi)) &&
    if Relative(a.ty) then
      var d := BaseDistance(a.ty);
      j >= d && HalfAt(locs, d) && locs[j - d].ty == Wid(REG_11) && locs[j - d].bits2 == 0 &&
      locs[j - d].start1 == a.start2 && a.bits2 == 11 && a.bits1 == Width(a.ty)
    else
      a.bits1 + a.bits2 == Width(a.ty) && Apart(a.start1, a.bits1, a.start2, a.bits2)
  }

  predicate LocsFit(locs: seq<Loc>, n: nat, lo: nat, hi: nat)
    requires n <= |locs|
    decreases n
  {
    n == 0 || (LocFits(locs, n - 1, lo, hi) && LocsFit(locs, n - 1, lo, hi))
  }

  /** Destinations and sources alternate and none depends on its position, so that a form can
      be read with the two swapped. */
  predicate Paired(locs: seq<Loc>, n: nat)
    requires n <= |locs|
    decreases n
  {
    n == 0 ||
    (locs[n - 1].dir == (if n % 2 == 0 then DirSrc else DirDst) && (locs[n - 1].end ==> n % 2 == 0) &&
     !Relative(locs[n - 1].ty) && locs[n - 1].ty != Lit(LITERAL_16) && Paired(locs, n - 1))
  }

  /** Where the ones of a mask word lie: position and count. The tables use six words. */
  function Ones(word: nat): (nat, nat) {
    match word
    case 0x1 => (24, 1)
    case 0x8 => (21, 1)
    case 0x0e_0000 => (5, 3)
    case 0x2000 => (11, 1)
    case 0x3800 => (11, 3)
    case _ => (0, 0)
  }

  predicate KnownMask(word: nat) { word == 0 || Ones(word).1 > 0 }
  /** The first bit an operand may use: past the opcode, or past the room of a parallel
      operation. */
  function FirstFree(len: nat, optArgs: bool): nat {
    if len == 1 then 9 else if !optArgs then 10 else if len == 2 then 28 else 36
  }

  /** Word w of the mask has its ones clear of the operands. */
  predicate MaskOk(l: Layout, n: nat, len: nat, w: nat)
    requires n == |l.locs| && w < |l.mask|
  {
    var (s, m) := Ones(l.mask[w]);
    l.mask[w] == 0 ||
    (m > 0 && w < len && FirstFree(len, l.optArgs) <= 25 * w + s &&
     NoneIn(l.locs, n, 25 * w + s, m))
  }

  /** The discriminator lies outside the opcode and the room of a parallel operation (one
      form uses the lowest opcode bit) and puts no ones into the operands' fields. */
  predicate DiscQuiet(l: Layout, len: nat, n: nat)
    requires n == |l.locs|
  {
    l.discStart + l.discBits <= 25 * len &&
    (l.discBits == 0 ||
     ((FirstFree(len, l.optArgs) <= l.discStart || (!l.optArgs && l.discStart == 9 && l.discBits == 1)) &&
      (l.discVal == 0 || NoneIn(l.locs, n, l.discStart, l.discBits))))
  }

  /** A form of an instruction of `len` words whose n operands can all be read back. */
  predicate FormOk(l: Layout, len: nat, n: nat) {
    n == |l.locs| && n <= 8 && |l.mask| == 4 && DiscQuiet(l, len, n) &&
    AllApart(l.locs, n) && LocsFit(l.locs, n, FirstFree(len, l.optArgs), 25 * len) &&
    MaskOk(l, n, len, 0) && MaskOk(l, n, len, 1) && MaskOk(l, n, len, 2) && MaskOk(l, n, len, 3)
  }

  lemma {:induction false} ApartFromFirstAll(locs: seq<Loc>, j: nat, m: nat, i: nat)
    requires i < m <= j < |locs| && ApartFromFirst(locs, j, m)
    ensures LocsApart(locs[j], locs[i]) || TwinsAt(locs, i, j)
    decreases m
  {
    if i < m - 1 { ApartFromFirstAll(locs, j, m - 1, i); }
  }

  predicate ApartOrTwins(locs: seq<Loc>, i: nat, j: nat)
    requires i < |locs| && j < |locs|
  {
    LocsApart(locs[i], locs[j]) || TwinsAt(locs, i, j) || TwinsAt(locs, j, i)
  }

  lemma {:induction false} AllApartPair(locs: seq<Loc>, n: nat, i: nat, j: nat)
    requires i < n <= |locs| && j < n && i != j && AllApart(locs, n)
    ensures ApartOrTwins(locs, i, j)
    decreases n
  {
    if i == n - 1 {
      ApartFromFirstAll(locs, n - 1, n - 1, j);
    } else if j == n - 1 {
      ApartFromFirstAll(locs, n - 1, n - 1, i);
    } else {
      AllApartPair(locs, n - 1, i, j);
    }
  }

  lemma {:induction false} NoneInAt(locs: seq<Loc>, n: nat, s: nat, m: nat, i: nat)
    requires i < n <= |locs| && NoneIn(locs, n, s, m)
    ensures ApartFrom(locs[i], s, m)
    decreases n
  {
    if i < n - 1 { NoneInAt(locs, n - 1, s, m, i); }
  }

  lemma {:induction false} LocsFitAt(locs: seq<Loc>, n: nat, lo: nat, hi: nat, i: nat)
    requires i < n <= |locs| && LocsFit(locs, n, lo, hi)
    ensures LocFits(locs, i, lo, hi)
    decreases n
  {
    if i < n - 1 { LocsFitAt(locs, n - 1, lo, hi, i); }
  }

  lemma {:induction false} PairedAt(locs: seq<Loc>, n: nat, i: nat)
    requires i < n <= |locs| && Paired(locs, n)
    ensures locs[i].dir == (if i % 2 == 0 then DirDst else DirSrc)
    ensures !Relative(locs[i].ty) && locs[i].ty != Lit(LITERAL_16)
    ensures locs[i].end ==> i % 2 == 1
    decreases n
  {
    if i < n - 1 { PairedAt(locs, n - 1, i); }
  }

  /** A relative operand's base: an 11-bit register in the same place of the first half. */
  lemma RelativeBase(locs: seq<Loc>, n: nat, lo: nat, hi: nat, i: nat)
    requires i < n <= |locs| && LocsFit(locs, n, lo, hi) && Relative(locs[i].ty)
    ensures var d := BaseDistance(locs[i].ty);
            d <= i && HalfAt(locs, d) && locs[i].bits1 == Width(locs[i].ty) &&
            locs[i - d].ty == Wid(REG_11) && locs[i - d].start1 == locs[i].start2 &&
            locs[i - d].bits1 == 11 && locs[i - d].bits2 == 0
  {
    LocsFitAt(locs, n, lo, hi, i);
    LocsFitAt(locs, n, lo, hi, i - BaseDistance(locs[i].ty));
  }
}
