/** The layout tables checked entry by entry. */
module Tables {
  import opened Bits
  import opened OpWords
  import opened Operands
  import opened Layouts
  import opened Fields

  /** The instruction length a layout is for; the NOP layout serves all, the missing one none. */
  function LenOf(id: LayoutId): nat {
    match id
    case L_MOV_1 => 1
    case L_MOVX_MDFR_OFFSET_1 => 1
    case L_MOVX_LIT_OFFSET_1 => 1
    case L_R_X_Y_1 => 1
    case L_R_X_Y_A_1 => 1
    case L_R_X_LIT_8_Y_1 => 1
    case L_PC_OFFSET_1 => 1
    case L_LOOP_PC_OFFSET_REG_CNT_1 => 1
    case L_LOOP_PC_OFFSET_LIT_8_CNT_1 => 1
    case L_PC_SET_REG_1 => 1
    case L_STACK_UNK_1 => 1
    case L_INTERRUPT_CLR_1 => 1
    case L_MOV_2 => 2
    case L_MOVX_MDFR_OFFSET_2 => 2
    case L_MOVX_LIT_OFFSET_2 => 2
    case L_R_X_Y_2 => 2
    case L_R_X_Y_A_2 => 2
    case L_MOV_LIT_16_2 => 2
    case L_R_X_LIT_16_Y_2 => 2
    case L_PC_LIT_16_2 => 2
    case L_LOOP_PC_LIT_16_2 => 2
    case L_STACK_UNK_2 => 2
    case L_NOP => 0
    case L_NONE => 0
    case _ => 4
  }

  /** 16-bit literals stand where the disassembler applies the source modifier. */
  predicate LiteralsShown(locs: seq<Loc>, n: nat)
    requires n <= |locs|
    decreases n
  {
    n == 0 ||
    ((locs[n - 1].ty == Lit(LITERAL_16) ==> locs[n - 1].dir in {DirSrc, DirX, DirY}) && LiteralsShown(locs, n - 1))
  }

  lemma {:induction false} LiteralsShownAt(locs: seq<Loc>, n: nat, j: nat)
    requires j < n <= |locs| && LiteralsShown(locs, n)
    ensures locs[j].ty == Lit(LITERAL_16) ==> locs[j].dir in {DirSrc, DirX, DirY}
    decreases n
  {
    if j < n - 1 { LiteralsShownAt(locs, n - 1, j); }
  }

  lemma Mov1Form0()
    ensures FormOk(FormsMov1()[0], 1, 2)
    ensures LiteralsShown(FormsMov1()[0].locs, 2)
  {
  }

  lemma Mov1Form1()
    ensures FormOk(FormsMov1()[1], 1, 4)
    ensures LiteralsShown(FormsMov1()[1].locs, 4)
  {
  }

  lemma Mov1Ok(k: nat)
    requires k < |FormsMov1()|
    ensures FormOk(FormsMov1()[k], 1, |FormsMov1()[k].locs|)
    ensures FormsMov1()[k].discStart != 9 && FormsMov1()[k].locs != []
    ensures LiteralsShown(FormsMov1()[k].locs, |FormsMov1()[k].locs|)
  {
    hide FormOk, LiteralsShown;
    if k == 0 {
      Mov1Form0();
    } else if k == 1 {
      Mov1Form1();
    }
  }

  lemma MovxMdfrOffset1Form0()
    ensures FormOk(FormsMovxMdfrOffset1()[0], 1, 2)
    ensures LiteralsShown(FormsMovxMdfrOffset1()[0].locs, 2)
  {
  }

  lemma MovxMdfrOffset1Form1()
    ensures FormOk(FormsMovxMdfrOffset1()[1], 1, 2)
    ensures LiteralsShown(FormsMovxMdfrOffset1()[1].locs, 2)
  {
  }

  lemma MovxMdfrOffset1Ok(k: nat)
    requires k < |FormsMovxMdfrOffset1()|
    ensures FormOk(FormsMovxMdfrOffset1()[k], 1, |FormsMovxMdfrOffset1()[k].locs|)
    ensures FormsMovxMdfrOffset1()[k].discStart != 9 && FormsMovxMdfrOffset1()[k].locs != []
    ensures LiteralsShown(FormsMovxMdfrOffset1()[k].locs, |FormsMovxMdfrOffset1()[k].locs|)
  {
    hide FormOk, LiteralsShown;
    if k == 0 {
      MovxMdfrOffset1Form0();
    } else if k == 1 {
      MovxMdfrOffset1Form1();
    }
  }

  lemma MovxLitOffset1Ok(k: nat)
    requires k < |FormsMovxLitOffset1()|
    ensures FormOk(FormsMovxLitOffset1()[k], 1, |FormsMovxLitOffset1()[k].locs|)
    ensures FormsMovxLitOffset1()[k].discStart != 9 && FormsMovxLitOffset1()[k].locs != []
    ensures LiteralsShown(FormsMovxLitOffset1()[k].locs, |FormsMovxLitOffset1()[k].locs|)
  {
    assert |FormsMovxLitOffset1()[0].locs| == 2;
  }

  lemma RXY1Form0()
    ensures FormOk(FormsRXY1()[0], 1, 3)
    ensures LiteralsShown(FormsRXY1()[0].locs, 3)
  {
  }

  lemma RXY1Apart1()
    ensures AllApart(FormsRXY1()[1].locs, 6)
  {
  }

  lemma RXY1Fit1()
    ensures LocsFit(FormsRXY1()[1].locs, 6, 9, 25)
  {
  }

  lemma RXY1Form1()
    ensures FormOk(FormsRXY1()[1], 1, 6)
    ensures LiteralsShown(FormsRXY1()[1].locs, 6)
  {
    RXY1Apart1();
    RXY1Fit1();
  }

  lemma RXY1Ok(k: nat)
    requires k < |FormsRXY1()|
    ensures FormOk(FormsRXY1()[k], 1, |FormsRXY1()[k].locs|)
    ensures FormsRXY1()[k].discStart != 9 && FormsRXY1()[k].locs != []
    ensures LiteralsShown(FormsRXY1()[k].locs, |FormsRXY1()[k].locs|)
  {
    hide FormOk, LiteralsShown;
    if k == 0 {
      RXY1Form0();
    } else if k == 1 {
      RXY1Form1();
    }
  }

  lemma RXYA1Ok(k: nat)
    requires k < |FormsRXYA1()|
    ensures FormOk(FormsRXYA1()[k], 1, |FormsRXYA1()[k].locs|)
    ensures FormsRXYA1()[k].discStart != 9 && FormsRXYA1()[k].locs != []
    ensures LiteralsShown(FormsRXYA1()[k].locs, |FormsRXYA1()[k].locs|)
  {
    assert |FormsRXYA1()[0].locs| == 4;
  }

  lemma RXLit8Y1Ok(k: nat)
    requires k < |FormsRXLit8Y1()|
    ensures FormOk(FormsRXLit8Y1()[k], 1, |FormsRXLit8Y1()[k].locs|)
    ensures FormsRXLit8Y1()[k].discStart != 9 && FormsRXLit8Y1()[k].locs != []
    ensures LiteralsShown(FormsRXLit8Y1()[k].locs, |FormsRXLit8Y1()[k].locs|)
  {
    assert |FormsRXLit8Y1()[0].locs| == 3;
  }

  lemma PcOffset1Ok(k: nat)
    requires k < |FormsPcOffset1()|
    ensures FormOk(FormsPcOffset1()[k], 1, |FormsPcOffset1()[k].locs|)
    ensures FormsPcOffset1()[k].discStart != 9 && FormsPcOffset1()[k].locs != []
    ensures LiteralsShown(FormsPcOffset1()[k].locs, |FormsPcOffset1()[k].locs|)
  {
    assert |FormsPcOffset1()[0].locs| == 2;
  }

  lemma LoopPcOffsetRegCnt1Ok(k: nat)
    requires k < |FormsLoopPcOffsetRegCnt1()|
    ensures FormOk(FormsLoopPcOffsetRegCnt1()[k], 1, |FormsLoopPcOffsetRegCnt1()[k].locs|)
    ensures FormsLoopPcOffsetRegCnt1()[k].discStart != 9 && FormsLoopPcOffsetRegCnt1()[k].locs != []
    ensures LiteralsShown(FormsLoopPcOffsetRegCnt1()[k].locs, |FormsLoopPcOffsetRegCnt1()[k].locs|)
  {
    assert |FormsLoopPcOffsetRegCnt1()[0].locs| == 2;
  }

  lemma LoopPcOffsetLit8Cnt1Ok(k: nat)
    requires k < |FormsLoopPcOffsetLit8Cnt1()|
    ensures FormOk(FormsLoopPcOffsetLit8Cnt1()[k], 1, |FormsLoopPcOffsetLit8Cnt1()[k].locs|)
    ensures FormsLoopPcOffsetLit8Cnt1()[k].discStart != 9 && FormsLoopPcOffsetLit8Cnt1()[k].locs != []
    ensures LiteralsShown(FormsLoopPcOffsetLit8Cnt1()[k].locs, |FormsLoopPcOffsetLit8Cnt1()[k].locs|)
  {
    assert |FormsLoopPcOffsetLit8Cnt1()[0].locs| == 2;
  }

  lemma PcSetReg1Form0()
    ensures FormOk(FormsPcSetReg1()[0], 1, 3)
    ensures LiteralsShown(FormsPcSetReg1()[0].locs, 3)
  {
  }

  lemma PcSetReg1Form1()
    ensures FormOk(FormsPcSetReg1()[1], 1, 2)
    ensures LiteralsShown(FormsPcSetReg1()[1].locs, 2)
  {
  }

  lemma PcSetReg1Ok(k: nat)
    requires k < |FormsPcSetReg1()|
    ensures FormOk(FormsPcSetReg1()[k], 1, |FormsPcSetReg1()[k].locs|)
    ensures FormsPcSetReg1()[k].discStart != 9 && FormsPcSetReg1()[k].locs != []
    ensures LiteralsShown(FormsPcSetReg1()[k].locs, |FormsPcSetReg1()[k].locs|)
  {
    hide FormOk, LiteralsShown;
    if k == 0 {
      PcSetReg1Form0();
    } else if k == 1 {
      PcSetReg1Form1();
    }
  }

  lemma StackUnk1Ok(k: nat)
    requires k < |FormsStackUnk1()|
    ensures FormOk(FormsStackUnk1()[k], 1, |FormsStackUnk1()[k].locs|)
    ensures FormsStackUnk1()[k].discStart != 9 && FormsStackUnk1()[k].locs != []
    ensures LiteralsShown(FormsStackUnk1()[k].locs, |FormsStackUnk1()[k].locs|)
  {
    assert |FormsStackUnk1()[0].locs| == 2;
  }

  lemma InterruptClr1Ok(k: nat)
    requires k < |FormsInterruptClr1()|
    ensures FormOk(FormsInterruptClr1()[k], 1, |FormsInterruptClr1()[k].locs|)
    ensures FormsInterruptClr1()[k].discStart != 9 && FormsInterruptClr1()[k].locs != []
    ensures LiteralsShown(FormsInterruptClr1()[k].locs, |FormsInterruptClr1()[k].locs|)
  {
    assert |FormsInterruptClr1()[0].locs| == 1;
  }

  lemma Mov2Form0()
    ensures FormOk(FormsMov2()[0], 2, 2)
    ensures LiteralsShown(FormsMov2()[0].locs, 2)
  {
  }

  lemma Mov2Form1()
    ensures FormOk(FormsMov2()[1], 2, 2)
    ensures LiteralsShown(FormsMov2()[1].locs, 2)
  {
  }

  lemma Mov2Form2()
    ensures FormOk(FormsMov2()[2], 2, 2)
    ensures LiteralsShown(FormsMov2()[2].locs, 2)
  {
  }

  lemma Mov2Form3()
    ensures FormOk(FormsMov2()[3], 2, 4)
    ensures LiteralsShown(FormsMov2()[3].locs, 4)
  {
  }

  lemma Mov2Ok(k: nat)
    requires k < |FormsMov2()|
    ensures FormOk(FormsMov2()[k], 2, |FormsMov2()[k].locs|)
    ensures FormsMov2()[k].discStart != 9 && FormsMov2()[k].locs != []
    ensures LiteralsShown(FormsMov2()[k].locs, |FormsMov2()[k].locs|)
  {
    hide FormOk, LiteralsShown;
    if k == 0 {
      Mov2Form0();
    } else if k == 1 {
      Mov2Form1();
    } else if k == 2 {
      Mov2Form2();
    } else if k == 3 {
      Mov2Form3();
    }
  }

  lemma MovxMdfrOffset2Form0()
    ensures FormOk(FormsMovxMdfrOffset2()[0], 2, 4)
    ensures LiteralsShown(FormsMovxMdfrOffset2()[0].locs, 4)
  {
  }

  lemma MovxMdfrOffset2Form1()
    ensures FormOk(FormsMovxMdfrOffset2()[1], 2, 2)
    ensures LiteralsShown(FormsMovxMdfrOffset2()[1].locs, 2)
  {
  }

  lemma MovxMdfrOffset2Form2()
    ensures FormOk(FormsMovxMdfrOffset2()[2], 2, 2)
    ensures LiteralsShown(FormsMovxMdfrOffset2()[2].locs, 2)
  {
  }

  lemma MovxMdfrOffset2Ok(k: nat)
    requires k < |FormsMovxMdfrOffset2()|
    ensures FormOk(FormsMovxMdfrOffset2()[k], 2, |FormsMovxMdfrOffset2()[k].locs|)
    ensures FormsMovxMdfrOffset2()[k].discStart != 9 && FormsMovxMdfrOffset2()[k].locs != []
    ensures LiteralsShown(FormsMovxMdfrOffset2()[k].locs, |FormsMovxMdfrOffset2()[k].locs|)
  {
    hide FormOk, LiteralsShown;
    if k == 0 {
      MovxMdfrOffset2Form0();
    } else if k == 1 {
      MovxMdfrOffset2Form1();
    } else if k == 2 {
      MovxMdfrOffset2Form2();
    }
  }

  lemma MovxLitOffset2Form0()
    ensures FormOk(FormsMovxLitOffset2()[0], 2, 4)
    ensures LiteralsShown(FormsMovxLitOffset2()[0].locs, 4)
  {
  }

  lemma MovxLitOffset2Form1()
    ensures FormOk(FormsMovxLitOffset2()[1], 2, 2)
    ensures LiteralsShown(FormsMovxLitOffset2()[1].locs, 2)
  {
  }

  lemma MovxLitOffset2Ok(k: nat)
    requires k < |FormsMovxLitOffset2()|
    ensures FormOk(FormsMovxLitOffset2()[k], 2, |FormsMovxLitOffset2()[k].locs|)
    ensures FormsMovxLitOffset2()[k].discStart != 9 && FormsMovxLitOffset2()[k].locs != []
    ensures LiteralsShown(FormsMovxLitOffset2()[k].locs, |FormsMovxLitOffset2()[k].locs|)
  {
    hide FormOk, LiteralsShown;
    if k == 0 {
      MovxLitOffset2Form0();
    } else if k == 1 {
      MovxLitOffset2Form1();
    }
  }

  lemma RXY2Form0()
    ensures FormOk(FormsRXY2()[0], 2, 3)
    ensures LiteralsShown(FormsRXY2()[0].locs, 3)
  {
  }

  lemma RXY2Form1()
    ensures FormOk(FormsRXY2()[1], 2, 3)
    ensures LiteralsShown(FormsRXY2()[1].locs, 3)
  {
  }

  lemma RXY2Apart2()
    ensures AllApart(FormsRXY2()[2].locs, 6)
  {
  }

  lemma RXY2Fit2()
    ensures LocsFit(FormsRXY2()[2].locs, 6, 28, 50)
  {
  }

  lemma RXY2Form2()
    ensures FormOk(FormsRXY2()[2], 2, 6)
    ensures LiteralsShown(FormsRXY2()[2].locs, 6)
  {
    RXY2Apart2();
    RXY2Fit2();
  }

  lemma RXY2Ok(k: nat)
    requires k < |FormsRXY2()|
    ensures FormOk(FormsRXY2()[k], 2, |FormsRXY2()[k].locs|)
    ensures FormsRXY2()[k].discStart != 9 && FormsRXY2()[k].locs != []
    ensures LiteralsShown(FormsRXY2()[k].locs, |FormsRXY2()[k].locs|)
  {
    hide FormOk, LiteralsShown;
    if k == 0 {
      RXY2Form0();
    } else if k == 1 {
      RXY2Form1();
    } else if k == 2 {
      RXY2Form2();
    }
  }

  lemma RXYA2Apart0()
    ensures AllApart(FormsRXYA2()[0].locs, 8)
  {
  }

  lemma RXYA2Fit0()
    ensures LocsFit(FormsRXYA2()[0].locs, 8, 28, 50)
  {
  }

  lemma RXYA2Form0()
    ensures FormOk(FormsRXYA2()[0], 2, 8)
    ensures LiteralsShown(FormsRXYA2()[0].locs, 8)
  {
    RXYA2Apart0();
    RXYA2Fit0();
  }

  lemma RXYA2Form1()
    ensures FormOk(FormsRXYA2()[1], 2, 4)
    ensures LiteralsShown(FormsRXYA2()[1].locs, 4)
  {
  }

  lemma RXYA2Ok(k: nat)
    requires k < |FormsRXYA2()|
    ensures FormOk(FormsRXYA2()[k], 2, |FormsRXYA2()[k].locs|)
    ensures FormsRXYA2()[k].discStart != 9 && FormsRXYA2()[k].locs != []
    ensures LiteralsShown(FormsRXYA2()[k].locs, |FormsRXYA2()[k].locs|)
  {
    hide FormOk, LiteralsShown;
    if k == 0 {
      RXYA2Form0();
    } else if k == 1 {
      RXYA2Form1();
    }
  }

  lemma MovLit162Ok(k: nat)
    requires k < |FormsMovLit162()|
    ensures FormOk(FormsMovLit162()[k], 2, |FormsMovLit162()[k].locs|)
    ensures FormsMovLit162()[k].discStart != 9 && FormsMovLit162()[k].locs != []
    ensures LiteralsShown(FormsMovLit162()[k].locs, |FormsMovLit162()[k].locs|)
  {
    assert |FormsMovLit162()[0].locs| == 4;
  }

  lemma RXLit16Y2Ok(k: nat)
    requires k < |FormsRXLit16Y2()|
    ensures FormOk(FormsRXLit16Y2()[k], 2, |FormsRXLit16Y2()[k].locs|)
    ensures FormsRXLit16Y2()[k].discStart != 9 && FormsRXLit16Y2()[k].locs != []
    ensures LiteralsShown(FormsRXLit16Y2()[k].locs, |FormsRXLit16Y2()[k].locs|)
  {
    assert |FormsRXLit16Y2()[0].locs| == 3;
  }

  lemma PcLit162Ok(k: nat)
    requires k < |FormsPcLit162()|
    ensures FormOk(FormsPcLit162()[k], 2, |FormsPcLit162()[k].locs|)
    ensures FormsPcLit162()[k].discStart != 9 && FormsPcLit162()[k].locs != []
  {
    assert |FormsPcLit162()[0].locs| == 2;
  }

  lemma LoopPcLit162Form0()
    ensures FormOk(FormsLoopPcLit162()[0], 2, 2)
  {
  }

  lemma LoopPcLit162Form1()
    ensures FormOk(FormsLoopPcLit162()[1], 2, 2)
  {
  }

  lemma LoopPcLit162Ok(k: nat)
    requires k < |FormsLoopPcLit162()|
    ensures FormOk(FormsLoopPcLit162()[k], 2, |FormsLoopPcLit162()[k].locs|)
    ensures FormsLoopPcLit162()[k].discVal == k && FormsLoopPcLit162()[k].locs != []
  {
    hide FormOk, LiteralsShown;
    if k == 0 {
      LoopPcLit162Form0();
    } else if k == 1 {
      LoopPcLit162Form1();
    }
  }

  lemma StackUnk2Ok(k: nat)
    requires k < |FormsStackUnk2()|
    ensures FormOk(FormsStackUnk2()[k], 2, |FormsStackUnk2()[k].locs|)
    ensures FormsStackUnk2()[k].discStart != 9 && FormsStackUnk2()[k].locs != []
    ensures LiteralsShown(FormsStackUnk2()[k].locs, |FormsStackUnk2()[k].locs|)
  {
    assert |FormsStackUnk2()[0].locs| == 2;
  }

  lemma Mov4Ok(k: nat)
    requires k < |FormsMov4()|
    ensures FormOk(FormsMov4()[k], 4, |FormsMov4()[k].locs|)
    ensures FormsMov4()[k].discStart != 9 && FormsMov4()[k].locs != []
    ensures LiteralsShown(FormsMov4()[k].locs, |FormsMov4()[k].locs|)
  {
    assert |FormsMov4()[0].locs| == 4;
  }

  lemma RXY4Apart0()
    ensures AllApart(FormsRXY4()[0].locs, 6)
  {
  }

  lemma RXY4Fit0()
    ensures LocsFit(FormsRXY4()[0].locs, 6, 10, 100)
  {
  }

  lemma RXY4Form0()
    ensures FormOk(FormsRXY4()[0], 4, 6)
    ensures LiteralsShown(FormsRXY4()[0].locs, 6)
  {
    RXY4Apart0();
    RXY4Fit0();
  }

  lemma RXY4Form1()
    ensures FormOk(FormsRXY4()[1], 4, 3)
    ensures LiteralsShown(FormsRXY4()[1].locs, 3)
  {
  }

  lemma RXY4Apart2()
    ensures AllApart(FormsRXY4()[2].locs, 6)
  {
  }

  lemma RXY4Fit2()
    ensures LocsFit(FormsRXY4()[2].locs, 6, 36, 100)
  {
  }

  lemma RXY4Form2()
    ensures FormOk(FormsRXY4()[2], 4, 6)
    ensures LiteralsShown(FormsRXY4()[2].locs, 6)
  {
    RXY4Apart2();
    RXY4Fit2();
  }

  lemma RXY4Ok(k: nat)
    requires k < |FormsRXY4()|
    ensures FormOk(FormsRXY4()[k], 4, |FormsRXY4()[k].locs|)
    ensures FormsRXY4()[k].discStart != 9 && FormsRXY4()[k].locs != []
    ensures LiteralsShown(FormsRXY4()[k].locs, |FormsRXY4()[k].locs|)
  {
    hide FormOk, LiteralsShown;
    if k == 0 {
      RXY4Form0();
    } else if k == 1 {
      RXY4Form1();
    } else if k == 2 {
      RXY4Form2();
    }
  }

  lemma RXYA4Apart0()
    ensures AllApart(FormsRXYA4()[0].locs, 8)
  {
  }

  lemma RXYA4Fit0()
    ensures LocsFit(FormsRXYA4()[0].locs, 8, 10, 100)
  {
  }

  lemma RXYA4Form0()
    ensures FormOk(FormsRXYA4()[0], 4, 8)
    ensures LiteralsShown(FormsRXYA4()[0].locs, 8)
  {
    RXYA4Apart0();
    RXYA4Fit0();
  }

  lemma RXYA4Apart1()
    ensures AllApart(FormsRXYA4()[1].locs, 8)
  {
  }

  lemma RXYA4Fit1()
    ensures LocsFit(FormsRXYA4()[1].locs, 8, 36, 100)
  {
  }

  lemma RXYA4Form1()
    ensures FormOk(FormsRXYA4()[1], 4, 8)
    ensures LiteralsShown(FormsRXYA4()[1].locs, 8)
  {
    RXYA4Apart1();
    RXYA4Fit1();
  }

  lemma RXYA4Form2()
    ensures FormOk(FormsRXYA4()[2], 4, 4)
    ensures LiteralsShown(FormsRXYA4()[2].locs, 4)
  {
  }

  lemma RXYA4Ok(k: nat)
    requires k < |FormsRXYA4()|
    ensures FormOk(FormsRXYA4()[k], 4, |FormsRXYA4()[k].locs|)
    ensures FormsRXYA4()[k].discStart != 9 && FormsRXYA4()[k].locs != []
    ensures LiteralsShown(FormsRXYA4()[k].locs, |FormsRXYA4()[k].locs|)
  {
    hide FormOk, LiteralsShown;
    if k == 0 {
      RXYA4Form0();
    } else if k == 1 {
      RXYA4Form1();
    } else if k == 2 {
      RXYA4Form2();
    }
  }

  lemma MovLit324Ok(k: nat)
    requires k < |FormsMovLit324()|
    ensures FormOk(FormsMovLit324()[k], 4, |FormsMovLit324()[k].locs|)
    ensures FormsMovLit324()[k].discStart != 9 && FormsMovLit324()[k].locs != []
    ensures LiteralsShown(FormsMovLit324()[k].locs, |FormsMovLit324()[k].locs|)
  {
    assert |FormsMovLit324()[0].locs| == 4;
  }

  lemma RXLit32Y4Form0()
    ensures FormOk(FormsRXLit32Y4()[0], 4, 3)
    ensures LiteralsShown(FormsRXLit32Y4()[0].locs, 3)
  {
  }

  lemma RXLit32Y4Apart1()
    ensures AllApart(FormsRXLit32Y4()[1].locs, 6)
  {
  }

  lemma RXLit32Y4Fit1()
    ensures LocsFit(FormsRXLit32Y4()[1].locs, 6, 10, 100)
  {
  }

  lemma RXLit32Y4Form1()
    ensures FormOk(FormsRXLit32Y4()[1], 4, 6)
    ensures LiteralsShown(FormsRXLit32Y4()[1].locs, 6)
  {
    RXLit32Y4Apart1();
    RXLit32Y4Fit1();
  }

  lemma RXLit32Y4Ok(k: nat)
    requires k < |FormsRXLit32Y4()|
    ensures FormOk(FormsRXLit32Y4()[k], 4, |FormsRXLit32Y4()[k].locs|)
    ensures FormsRXLit32Y4()[k].discStart != 9 && FormsRXLit32Y4()[k].locs != []
    ensures LiteralsShown(FormsRXLit32Y4()[k].locs, |FormsRXLit32Y4()[k].locs|)
  {
    hide FormOk, LiteralsShown;
    if k == 0 {
      RXLit32Y4Form0();
    } else if k == 1 {
      RXLit32Y4Form1();
    }
  }

  /** Every form of an instruction layout is sound; only the counted loops reuse an opcode bit. */
  lemma FormIsOk(id: LayoutId, k: nat)
    requires id != L_NOP && k < |OpLayouts(id)|
    ensures FormOk(OpLayouts(id)[k], LenOf(id), |OpLayouts(id)[k].locs|)
    ensures OpLayouts(id)[k].discStart == 9 ==> id == L_LOOP_PC_LIT_16_2 && OpLayouts(id)[k].discVal == k
    ensures OpLayouts(id)[k].locs != []
    ensures id != L_LOOP_PC_LIT_16_2 && id != L_PC_LIT_16_2 ==>
              LiteralsShown(OpLayouts(id)[k].locs, |OpLayouts(id)[k].locs|)
  {
    hide FormOk, LiteralsShown;
    hide FormsMov1, FormsMovxMdfrOffset1, FormsMovxLitOffset1, FormsRXY1;
    hide FormsRXYA1, FormsRXLit8Y1, FormsPcOffset1, FormsLoopPcOffsetRegCnt1;
    hide FormsLoopPcOffsetLit8Cnt1, FormsPcSetReg1, FormsStackUnk1, FormsInterruptClr1;
    hide FormsMov2, FormsMovxMdfrOffset2, FormsMovxLitOffset2, FormsRXY2;
    hide FormsRXYA2, FormsMovLit162, FormsRXLit16Y2, FormsPcLit162;
    hide FormsLoopPcLit162, FormsStackUnk2, FormsMov4, FormsRXY4;
    hide FormsRXYA4, FormsMovLit324, FormsRXLit32Y4, FormsNop;
    match id
    case L_MOV_1 => Mov1Ok(k);
    case L_MOVX_MDFR_OFFSET_1 => MovxMdfrOffset1Ok(k);
    case L_MOVX_LIT_OFFSET_1 => MovxLitOffset1Ok(k);
    case L_R_X_Y_1 => RXY1Ok(k);
    case L_R_X_Y_A_1 => RXYA1Ok(k);
    case L_R_X_LIT_8_Y_1 => RXLit8Y1Ok(k);
    case L_PC_OFFSET_1 => PcOffset1Ok(k);
    case L_LOOP_PC_OFFSET_REG_CNT_1 => LoopPcOffsetRegCnt1Ok(k);
    case L_LOOP_PC_OFFSET_LIT_8_CNT_1 => LoopPcOffsetLit8Cnt1Ok(k);
    case L_PC_SET_REG_1 => PcSetReg1Ok(k);
    case L_STACK_UNK_1 => StackUnk1Ok(k);
    case L_INTERRUPT_CLR_1 => InterruptClr1Ok(k);
    case L_MOV_2 => Mov2Ok(k);
    case L_MOVX_MDFR_OFFSET_2 => MovxMdfrOffset2Ok(k);
    case L_MOVX_LIT_OFFSET_2 => MovxLitOffset2Ok(k);
    case L_R_X_Y_2 => RXY2Ok(k);
    case L_R_X_Y_A_2 => RXYA2Ok(k);
    case L_MOV_LIT_16_2 => MovLit162Ok(k);
    case L_R_X_LIT_16_Y_2 => RXLit16Y2Ok(k);
    case L_PC_LIT_16_2 => PcLit162Ok(k);
    case L_LOOP_PC_LIT_16_2 => LoopPcLit162Ok(k);
    case L_STACK_UNK_2 => StackUnk2Ok(k);
    case L_MOV_4 => Mov4Ok(k);
    case L_R_X_Y_4 => RXY4Ok(k);
    case L_R_X_Y_A_4 => RXYA4Ok(k);
    case L_MOV_LIT_32_4 => MovLit324Ok(k);
    case L_R_X_LIT_32_Y_4 => RXLit32Y4Ok(k);
  }

  /* ---------- Telling the forms of a layout apart ---------- */

  predicate MaskOneAt(f: Layout, w: nat, p: nat)
    requires w < |f.mask|
  {
    f.mask[w] != 0 && In(25 * w + Ones(f.mask[w]).0, Ones(f.mask[w]).1, p)
  }

  predicate MaskClear(f: Layout, w: nat, s: nat, m: nat)
    requires w < |f.mask|
  {
    f.mask[w] == 0 || Apart(25 * w + Ones(f.mask[w]).0, Ones(f.mask[w]).1, s, m)
  }

  /** The form's discriminator reads as the form wants it. */
  predicate OwnDisc(f: Layout, len: nat, n: nat) {
    n == |f.locs| && |f.mask| == 4 &&
    (f.discBits == 0 ||
     (FirstFree(len, f.optArgs) <= f.discStart && f.discStart + f.discBits <= 25 * len &&
      NoneIn(f.locs, n, f.discStart, f.discBits) && f.discVal < Pow2(f.discBits) &&
      MaskClear(f, 0, f.discStart, f.discBits) && MaskClear(f, 1, f.discStart, f.discBits) &&
      MaskClear(f, 2, f.discStart, f.discBits) && MaskClear(f, 3, f.discStart, f.discBits)))
  }

  /** Form f always has a one at position p. */
  predicate OneAt(f: Layout, p: nat) {
    |f.mask| == 4 && (Covers(Write(f.discStart, f.discBits, f.discVal), p) || MaskOneAt(f, 1, p))
  }

  /** Form f always has a zero at position p. */
  predicate ZeroAt(f: Layout, len: nat, n: nat, p: nat) {
    n == |f.locs| && |f.mask| == 4 && FirstFree(len, f.optArgs) <= p < 25 * len && NoneIn(f.locs, n, p, 1) &&
    !Covers(Write(f.discStart, f.discBits, f.discVal), p) &&
    !MaskOneAt(f, 0, p) && !MaskOneAt(f, 1, p) && !MaskOneAt(f, 2, p) && !MaskOneAt(f, 3, p)
  }

  /** Words of form g do not pass for form f, as position p shows. */
  predicate TellsApart(f: Layout, g: Layout, len: nat, n: nat, p: nat) {
    f.discStart <= p < f.discStart + f.discBits && p < 25 * len &&
    if Bit(f.discVal, f.discStart + f.discBits - 1 - p) then ZeroAt(g, len, n, p) else OneAt(g, p)
  }

  /** The discriminator lies where an instruction with room for a parallel operation has
      that operation's opcode. */
  predicate InRoom(f: Layout) { f.discStart == 10 }

  function Witness(id: LayoutId, j: nat): nat {
    match id
    case L_MOVX_MDFR_OFFSET_1 => 21
    case L_PC_SET_REG_1 => 18
    case L_MOV_2 => if j == 2 then 38 else 16
    case L_MOVX_MDFR_OFFSET_2 => if j == 0 then 46 else 23
    case L_MOVX_LIT_OFFSET_2 => 46
    case L_R_X_Y_2 => 38
    case L_R_X_Y_A_2 => 30
    case L_LOOP_PC_LIT_16_2 => 9
    case L_R_X_Y_4 => 36
    case L_R_X_Y_A_4 => 39
    case L_R_X_LIT_32_Y_4 => 77
    case _ => 16
  }

  lemma Mov1Own(k: nat)
    requires k + 1 < |FormsMov1()|
    ensures OwnDisc(FormsMov1()[k], 1, |FormsMov1()[k].locs|)
  {
    assert OwnDisc(FormsMov1()[0], 1, 2);
  }

  lemma Mov1Apart(j: nat, k: nat)
    requires j < k < |FormsMov1()| && !(InRoom(FormsMov1()[j]) && FormsMov1()[k].optArgs)
    ensures TellsApart(FormsMov1()[j], FormsMov1()[k], 1, |FormsMov1()[k].locs|, Witness(L_MOV_1, j))
  {
    assert TellsApart(FormsMov1()[0], FormsMov1()[1], 1, 4, Witness(L_MOV_1, 0));
  }

  lemma MovxMdfrOffset1Own(k: nat)
    requires k + 1 < |FormsMovxMdfrOffset1()|
    ensures OwnDisc(FormsMovxMdfrOffset1()[k], 1, |FormsMovxMdfrOffset1()[k].locs|)
  {
    assert OwnDisc(FormsMovxMdfrOffset1()[0], 1, 2);
  }

  lemma MovxMdfrOffset1Apart(j: nat, k: nat)
    requires j < k < |FormsMovxMdfrOffset1()| && !(InRoom(FormsMovxMdfrOffset1()[j]) && FormsMovxMdfrOffset1()[k].optArgs)
    ensures TellsApart(FormsMovxMdfrOffset1()[j], FormsMovxMdfrOffset1()[k], 1, |FormsMovxMdfrOffset1()[k].locs|, Witness(L_MOVX_MDFR_OFFSET_1, j))
  {
    assert TellsApart(FormsMovxMdfrOffset1()[0], FormsMovxMdfrOffset1()[1], 1, 2, Witness(L_MOVX_MDFR_OFFSET_1, 0));
  }

  lemma RXY1Own(k: nat)
    requires k + 1 < |FormsRXY1()|
    ensures OwnDisc(FormsRXY1()[k], 1, |FormsRXY1()[k].locs|)
  {
    assert OwnDisc(FormsRXY1()[0], 1, 3);
  }

  lemma RXY1Apart(j: nat, k: nat)
    requires j < k < |FormsRXY1()| && !(InRoom(FormsRXY1()[j]) && FormsRXY1()[k].optArgs)
    ensures TellsApart(FormsRXY1()[j], FormsRXY1()[k], 1, |FormsRXY1()[k].locs|, Witness(L_R_X_Y_1, j))
  {
    assert TellsApart(FormsRXY1()[0], FormsRXY1()[1], 1, 6, Witness(L_R_X_Y_1, 0));
  }

  lemma PcSetReg1Own(k: nat)
    requires k + 1 < |FormsPcSetReg1()|
    ensures OwnDisc(FormsPcSetReg1()[k], 1, |FormsPcSetReg1()[k].locs|)
  {
    assert OwnDisc(FormsPcSetReg1()[0], 1, 3);
  }

  lemma PcSetReg1Apart(j: nat, k: nat)
    requires j < k < |FormsPcSetReg1()| && !(InRoom(FormsPcSetReg1()[j]) && FormsPcSetReg1()[k].optArgs)
    ensures TellsApart(FormsPcSetReg1()[j], FormsPcSetReg1()[k], 1, |FormsPcSetReg1()[k].locs|, Witness(L_PC_SET_REG_1, j))
  {
    assert TellsApart(FormsPcSetReg1()[0], FormsPcSetReg1()[1], 1, 2, Witness(L_PC_SET_REG_1, 0));
  }

  lemma Mov2Own(k: nat)
    requires k + 1 < |FormsMov2()|
    ensures OwnDisc(FormsMov2()[k], 2, |FormsMov2()[k].locs|)
  {
    if k == 0 {
      assert OwnDisc(FormsMov2()[0], 2, 2);
    } else if k == 1 {
      assert OwnDisc(FormsMov2()[1], 2, 2);
    } else if k == 2 {
      assert OwnDisc(FormsMov2()[2], 2, 2);
    }
  }

  lemma Mov2Apart(j: nat, k: nat)
    requires j < k < |FormsMov2()| && !(InRoom(FormsMov2()[j]) && FormsMov2()[k].optArgs)
    ensures TellsApart(FormsMov2()[j], FormsMov2()[k], 2, |FormsMov2()[k].locs|, Witness(L_MOV_2, j))
  {
    assert TellsApart(FormsMov2()[0], FormsMov2()[1], 2, 2, Witness(L_MOV_2, 0));
    assert TellsApart(FormsMov2()[2], FormsMov2()[3], 2, 4, Witness(L_MOV_2, 2));
  }

  lemma MovxMdfrOffset2Own(k: nat)
    requires k + 1 < |FormsMovxMdfrOffset2()|
    ensures OwnDisc(FormsMovxMdfrOffset2()[k], 2, |FormsMovxMdfrOffset2()[k].locs|)
  {
    if k == 0 {
      assert OwnDisc(FormsMovxMdfrOffset2()[0], 2, 4);
    } else if k == 1 {
      assert OwnDisc(FormsMovxMdfrOffset2()[1], 2, 2);
    }
  }

  lemma MovxMdfrOffset2Apart(j: nat, k: nat)
    requires j < k < |FormsMovxMdfrOffset2()| && !(InRoom(FormsMovxMdfrOffset2()[j]) && FormsMovxMdfrOffset2()[k].optArgs)
    ensures TellsApart(FormsMovxMdfrOffset2()[j], FormsMovxMdfrOffset2()[k], 2, |FormsMovxMdfrOffset2()[k].locs|, Witness(L_MOVX_MDFR_OFFSET_2, j))
  {
    assert TellsApart(FormsMovxMdfrOffset2()[0], FormsMovxMdfrOffset2()[1], 2, 2, Witness(L_MOVX_MDFR_OFFSET_2, 0));
    assert TellsApart(FormsMovxMdfrOffset2()[0], FormsMovxMdfrOffset2()[2], 2, 2, Witness(L_MOVX_MDFR_OFFSET_2, 0));
    assert TellsApart(FormsMovxMdfrOffset2()[1], FormsMovxMdfrOffset2()[2], 2, 2, Witness(L_MOVX_MDFR_OFFSET_2, 1));
  }

  lemma MovxLitOffset2Own(k: nat)
    requires k + 1 < |FormsMovxLitOffset2()|
    ensures OwnDisc(FormsMovxLitOffset2()[k], 2, |FormsMovxLitOffset2()[k].locs|)
  {
    assert OwnDisc(FormsMovxLitOffset2()[0], 2, 4);
  }

  lemma MovxLitOffset2Apart(j: nat, k: nat)
    requires j < k < |FormsMovxLitOffset2()| && !(InRoom(FormsMovxLitOffset2()[j]) && FormsMovxLitOffset2()[k].optArgs)
    ensures TellsApart(FormsMovxLitOffset2()[j], FormsMovxLitOffset2()[k], 2, |FormsMovxLitOffset2()[k].locs|, Witness(L_MOVX_LIT_OFFSET_2, j))
  {
    assert TellsApart(FormsMovxLitOffset2()[0], FormsMovxLitOffset2()[1], 2, 2, Witness(L_MOVX_LIT_OFFSET_2, 0));
  }

  lemma RXY2Own(k: nat)
    requires k + 1 < |FormsRXY2()|
    ensures OwnDisc(FormsRXY2()[k], 2, |FormsRXY2()[k].locs|)
  {
    if k == 0 {
      assert OwnDisc(FormsRXY2()[0], 2, 3);
    } else if k == 1 {
      assert OwnDisc(FormsRXY2()[1], 2, 3);
    }
  }

  lemma RXY2Apart(j: nat, k: nat)
    requires j < k < |FormsRXY2()| && !(InRoom(FormsRXY2()[j]) && FormsRXY2()[k].optArgs)
    ensures TellsApart(FormsRXY2()[j], FormsRXY2()[k], 2, |FormsRXY2()[k].locs|, Witness(L_R_X_Y_2, j))
  {
    assert j == 1 && k == 2;
    assert TellsApart(FormsRXY2()[1], FormsRXY2()[2], 2, 6, Witness(L_R_X_Y_2, 1));
  }

  lemma RXYA2Apart(j: nat, k: nat)
    requires j < k < |FormsRXYA2()| && !(InRoom(FormsRXYA2()[j]) && FormsRXYA2()[k].optArgs)
    ensures TellsApart(FormsRXYA2()[j], FormsRXYA2()[k], 2, |FormsRXYA2()[k].locs|, Witness(L_R_X_Y_A_2, j))
  {
    assert TellsApart(FormsRXYA2()[0], FormsRXYA2()[1], 2, 4, Witness(L_R_X_Y_A_2, 0));
  }

  lemma LoopPcLit162Apart(j: nat, k: nat)
    requires j < k < |FormsLoopPcLit162()| && !(InRoom(FormsLoopPcLit162()[j]) && FormsLoopPcLit162()[k].optArgs)
    ensures TellsApart(FormsLoopPcLit162()[j], FormsLoopPcLit162()[k], 2, |FormsLoopPcLit162()[k].locs|, Witness(L_LOOP_PC_LIT_16_2, j))
  {
    assert TellsApart(FormsLoopPcLit162()[0], FormsLoopPcLit162()[1], 2, 2, Witness(L_LOOP_PC_LIT_16_2, 0));
  }

  lemma RXY4Own(k: nat)
    requires k + 1 < |FormsRXY4()|
    ensures OwnDisc(FormsRXY4()[k], 4, |FormsRXY4()[k].locs|)
  {
    if k == 0 {
      assert OwnDisc(FormsRXY4()[0], 4, 6);
    } else if k == 1 {
      assert OwnDisc(FormsRXY4()[1], 4, 3);
    }
  }

  lemma RXY4Apart(j: nat, k: nat)
    requires j < k < |FormsRXY4()| && !(InRoom(FormsRXY4()[j]) && FormsRXY4()[k].optArgs)
    ensures TellsApart(FormsRXY4()[j], FormsRXY4()[k], 4, |FormsRXY4()[k].locs|, Witness(L_R_X_Y_4, j))
  {
    assert j == 1 && k == 2;
    assert TellsApart(FormsRXY4()[1], FormsRXY4()[2], 4, 6, Witness(L_R_X_Y_4, 1));
  }

  lemma RXYA4Own(k: nat)
    requires k + 1 < |FormsRXYA4()|
    ensures OwnDisc(FormsRXYA4()[k], 4, |FormsRXYA4()[k].locs|)
  {
    if k == 0 {
      assert OwnDisc(FormsRXYA4()[0], 4, 8);
    } else if k == 1 {
      assert OwnDisc(FormsRXYA4()[1], 4, 8);
    }
  }

  lemma RXYA4Apart(j: nat, k: nat)
    requires j < k < |FormsRXYA4()| && !(InRoom(FormsRXYA4()[j]) && FormsRXYA4()[k].optArgs)
    ensures TellsApart(FormsRXYA4()[j], FormsRXYA4()[k], 4, |FormsRXYA4()[k].locs|, Witness(L_R_X_Y_A_4, j))
  {
    assert j == 1 && k == 2;
    assert TellsApart(FormsRXYA4()[1], FormsRXYA4()[2], 4, 4, Witness(L_R_X_Y_A_4, 1));
  }

  lemma RXLit32Y4Own(k: nat)
    requires k + 1 < |FormsRXLit32Y4()|
    ensures OwnDisc(FormsRXLit32Y4()[k], 4, |FormsRXLit32Y4()[k].locs|)
  {
    assert OwnDisc(FormsRXLit32Y4()[0], 4, 3);
  }

  lemma RXLit32Y4Apart(j: nat, k: nat)
    requires j < k < |FormsRXLit32Y4()| && !(InRoom(FormsRXLit32Y4()[j]) && FormsRXLit32Y4()[k].optArgs)
    ensures TellsApart(FormsRXLit32Y4()[j], FormsRXLit32Y4()[k], 4, |FormsRXLit32Y4()[k].locs|, Witness(L_R_X_LIT_32_Y_4, j))
  {
    assert TellsApart(FormsRXLit32Y4()[0], FormsRXLit32Y4()[1], 4, 6, Witness(L_R_X_LIT_32_Y_4, 0));
  }

  function FormCount(id: LayoutId): nat {
    match id
    case L_MOV_1 => 2
    case L_MOVX_MDFR_OFFSET_1 => 2
    case L_R_X_Y_1 => 2
    case L_PC_SET_REG_1 => 2
    case L_MOVX_LIT_OFFSET_2 => 2
    case L_R_X_Y_A_2 => 2
    case L_LOOP_PC_LIT_16_2 => 2
    case L_R_X_LIT_32_Y_4 => 2
    case L_MOVX_MDFR_OFFSET_2 => 3
    case L_R_X_Y_2 => 3
    case L_R_X_Y_4 => 3
    case L_R_X_Y_A_4 => 3
    case L_MOV_2 => 4
    case L_NONE => 0
    case _ => 1
  }

  lemma FormsCounted1(id: LayoutId)
    requires LenOf(id) == 1
    ensures |OpLayouts(id)| == FormCount(id)
  {
    hide FormsMov2, FormsMovxMdfrOffset2, FormsMovxLitOffset2, FormsRXY2;
    hide FormsRXYA2, FormsMovLit162, FormsRXLit16Y2, FormsPcLit162;
    hide FormsLoopPcLit162, FormsStackUnk2, FormsMov4, FormsRXY4;
    hide FormsRXYA4, FormsMovLit324, FormsRXLit32Y4, FormsNop;
  }

  lemma FormsCounted2(id: LayoutId)
    requires LenOf(id) == 2
    ensures |OpLayouts(id)| == FormCount(id)
  {
    hide FormsMov1, FormsMovxMdfrOffset1, FormsMovxLitOffset1, FormsRXY1;
    hide FormsRXYA1, FormsRXLit8Y1, FormsPcOffset1, FormsLoopPcOffsetRegCnt1;
    hide FormsLoopPcOffsetLit8Cnt1, FormsPcSetReg1, FormsStackUnk1, FormsInterruptClr1;
    hide FormsMov4, FormsRXY4, FormsRXYA4, FormsMovLit324;
    hide FormsRXLit32Y4, FormsNop;
  }

  lemma FormsCounted4(id: LayoutId)
    requires LenOf(id) == 4
    ensures |OpLayouts(id)| == FormCount(id)
  {
    hide FormsMov1, FormsMovxMdfrOffset1, FormsMovxLitOffset1, FormsRXY1;
    hide FormsRXYA1, FormsRXLit8Y1, FormsPcOffset1, FormsLoopPcOffsetRegCnt1;
    hide FormsLoopPcOffsetLit8Cnt1, FormsPcSetReg1, FormsStackUnk1, FormsInterruptClr1;
    hide FormsMov2, FormsMovxMdfrOffset2, FormsMovxLitOffset2, FormsRXY2;
    hide FormsRXYA2, FormsMovLit162, FormsRXLit16Y2, FormsPcLit162;
    hide FormsLoopPcLit162, FormsStackUnk2, FormsNop;
  }

  lemma FormsCounted(id: LayoutId)
    ensures |OpLayouts(id)| == FormCount(id)
  {
    if LenOf(id) > 0 {
      hide OpLayouts, FormCount;
      if LenOf(id) == 1 {
        FormsCounted1(id);
      } else if LenOf(id) == 2 {
        FormsCounted2(id);
      } else {
        FormsCounted4(id);
      }
    }
  }

  /** A form that is not the last of its layout recognises its own words. */
  lemma FormKnowsItself(id: LayoutId, k: nat)
    requires k + 1 < |OpLayouts(id)| && id != L_R_X_Y_A_2 && id != L_LOOP_PC_LIT_16_2
    ensures OwnDisc(OpLayouts(id)[k], LenOf(id), |OpLayouts(id)[k].locs|)
  {
    hide OwnDisc;
    hide FormsMov1, FormsMovxMdfrOffset1, FormsMovxLitOffset1, FormsRXY1;
    hide FormsRXYA1, FormsRXLit8Y1, FormsPcOffset1, FormsLoopPcOffsetRegCnt1;
    hide FormsLoopPcOffsetLit8Cnt1, FormsPcSetReg1, FormsStackUnk1, FormsInterruptClr1;
    hide FormsMov2, FormsMovxMdfrOffset2, FormsMovxLitOffset2, FormsRXY2;
    hide FormsRXYA2, FormsMovLit162, FormsRXLit16Y2, FormsPcLit162;
    hide FormsLoopPcLit162, FormsStackUnk2, FormsMov4, FormsRXY4;
    hide FormsRXYA4, FormsMovLit324, FormsRXLit32Y4, FormsNop;
    FormsCounted(id);
    match id
    case L_MOV_1 => Mov1Own(k);
    case L_MOVX_MDFR_OFFSET_1 => MovxMdfrOffset1Own(k);
    case L_R_X_Y_1 => RXY1Own(k);
    case L_PC_SET_REG_1 => PcSetReg1Own(k);
    case L_MOV_2 => Mov2Own(k);
    case L_MOVX_MDFR_OFFSET_2 => MovxMdfrOffset2Own(k);
    case L_MOVX_LIT_OFFSET_2 => MovxLitOffset2Own(k);
    case L_R_X_Y_2 => RXY2Own(k);
    case L_R_X_Y_4 => RXY4Own(k);
    case L_R_X_Y_A_4 => RXYA4Own(k);
    case L_R_X_LIT_32_Y_4 => RXLit32Y4Own(k);
    case _ =>
  }

  /** And an earlier form does not take the words of a later one. */
  lemma FormsAreToldApart(id: LayoutId, j: nat, k: nat)
    requires j < k < |OpLayouts(id)| && !(InRoom(OpLayouts(id)[j]) && OpLayouts(id)[k].optArgs)
    ensures TellsApart(OpLayouts(id)[j], OpLayouts(id)[k], LenOf(id), |OpLayouts(id)[k].locs|, Witness(id, j))
  {
    hide TellsApart, InRoom, Witness;
    hide FormsMov1, FormsMovxMdfrOffset1, FormsMovxLitOffset1, FormsRXY1;
    hide FormsRXYA1, FormsRXLit8Y1, FormsPcOffset1, FormsLoopPcOffsetRegCnt1;
    hide FormsLoopPcOffsetLit8Cnt1, FormsPcSetReg1, FormsStackUnk1, FormsInterruptClr1;
    hide FormsMov2, FormsMovxMdfrOffset2, FormsMovxLitOffset2, FormsRXY2;
    hide FormsRXYA2, FormsMovLit162, FormsRXLit16Y2, FormsPcLit162;
    hide FormsLoopPcLit162, FormsStackUnk2, FormsMov4, FormsRXY4;
    hide FormsRXYA4, FormsMovLit324, FormsRXLit32Y4, FormsNop;
    FormsCounted(id);
    match id
    case L_MOV_1 => Mov1Apart(j, k);
    case L_MOVX_MDFR_OFFSET_1 => MovxMdfrOffset1Apart(j, k);
    case L_R_X_Y_1 => RXY1Apart(j, k);
    case L_PC_SET_REG_1 => PcSetReg1Apart(j, k);
    case L_MOV_2 => Mov2Apart(j, k);
    case L_MOVX_MDFR_OFFSET_2 => MovxMdfrOffset2Apart(j, k);
    case L_MOVX_LIT_OFFSET_2 => MovxLitOffset2Apart(j, k);
    case L_R_X_Y_2 => RXY2Apart(j, k);
    case L_R_X_Y_A_2 => RXYA2Apart(j, k);
    case L_LOOP_PC_LIT_16_2 => LoopPcLit162Apart(j, k);
    case L_R_X_Y_4 => RXY4Apart(j, k);
    case L_R_X_Y_A_4 => RXYA4Apart(j, k);
    case L_R_X_LIT_32_Y_4 => RXLit32Y4Apart(j, k);
    case _ =>
  }

  /** A form without room whose discriminator lies in the room of its siblings. */
  predicate RoomDisc(f: Layout, len: nat) {
    (len == 2 && f.discBits == 7 && (f.discVal == 0x7c || f.discVal == 0x7d)) ||
    (len == 4 && 1 <= f.discBits <= 3 && f.discVal == 0)
  }

  lemma Mov1Room(j: nat)
    requires j + 1 < |FormsMov1()|
    ensures !InRoom(FormsMov1()[j])
  {
  }

  lemma MovxMdfrOffset1Room(j: nat)
    requires j + 1 < |FormsMovxMdfrOffset1()|
    ensures !InRoom(FormsMovxMdfrOffset1()[j])
  {
  }

  lemma RXY1Room(j: nat)
    requires j + 1 < |FormsRXY1()|
    ensures !InRoom(FormsRXY1()[j])
  {
  }

  lemma PcSetReg1Room(j: nat)
    requires j + 1 < |FormsPcSetReg1()|
    ensures !InRoom(FormsPcSetReg1()[j])
  {
  }

  lemma Mov2Room(j: nat)
    requires j + 1 < |FormsMov2()| && InRoom(FormsMov2()[j])
    ensures RoomDisc(FormsMov2()[j], 2)
  {
  }

  lemma MovxMdfrOffset2Room(j: nat)
    requires j + 1 < |FormsMovxMdfrOffset2()|
    ensures !InRoom(FormsMovxMdfrOffset2()[j])
  {
  }

  lemma MovxLitOffset2Room(j: nat)
    requires j + 1 < |FormsMovxLitOffset2()|
    ensures !InRoom(FormsMovxLitOffset2()[j])
  {
  }

  lemma RXY2Room(j: nat)
    requires j + 1 < |FormsRXY2()| && InRoom(FormsRXY2()[j])
    ensures RoomDisc(FormsRXY2()[j], 2)
  {
  }

  lemma RXYA2Room(j: nat)
    requires j + 1 < |FormsRXYA2()|
    ensures !InRoom(FormsRXYA2()[j])
  {
  }

  lemma LoopPcLit162Room(j: nat)
    requires j + 1 < |FormsLoopPcLit162()|
    ensures !InRoom(FormsLoopPcLit162()[j])
  {
  }

  lemma RXY4Room(j: nat)
    requires j + 1 < |FormsRXY4()| && InRoom(FormsRXY4()[j])
    ensures RoomDisc(FormsRXY4()[j], 4)
  {
  }

  lemma RXYA4Room(j: nat)
    requires j + 1 < |FormsRXYA4()| && InRoom(FormsRXYA4()[j])
    ensures RoomDisc(FormsRXYA4()[j], 4)
  {
  }

  lemma RXLit32Y4Room(j: nat)
    requires j + 1 < |FormsRXLit32Y4()|
    ensures !InRoom(FormsRXLit32Y4()[j])
  {
  }

  lemma RoomDiscs(id: LayoutId, j: nat)
    requires j + 1 < |OpLayouts(id)| && InRoom(OpLayouts(id)[j])
    ensures RoomDisc(OpLayouts(id)[j], LenOf(id))
  {
    hide RoomDisc, InRoom;
    hide FormsMov1, FormsMovxMdfrOffset1, FormsMovxLitOffset1, FormsRXY1;
    hide FormsRXYA1, FormsRXLit8Y1, FormsPcOffset1, FormsLoopPcOffsetRegCnt1;
    hide FormsLoopPcOffsetLit8Cnt1, FormsPcSetReg1, FormsStackUnk1, FormsInterruptClr1;
    hide FormsMov2, FormsMovxMdfrOffset2, FormsMovxLitOffset2, FormsRXY2;
    hide FormsRXYA2, FormsMovLit162, FormsRXLit16Y2, FormsPcLit162;
    hide FormsLoopPcLit162, FormsStackUnk2, FormsMov4, FormsRXY4;
    hide FormsRXYA4, FormsMovLit324, FormsRXLit32Y4, FormsNop;
    FormsCounted(id);
    match id
    case L_MOV_1 => Mov1Room(j);
    case L_MOVX_MDFR_OFFSET_1 => MovxMdfrOffset1Room(j);
    case L_R_X_Y_1 => RXY1Room(j);
    case L_PC_SET_REG_1 => PcSetReg1Room(j);
    case L_MOV_2 => Mov2Room(j);
    case L_MOVX_MDFR_OFFSET_2 => MovxMdfrOffset2Room(j);
    case L_MOVX_LIT_OFFSET_2 => MovxLitOffset2Room(j);
    case L_R_X_Y_2 => RXY2Room(j);
    case L_R_X_Y_A_2 => RXYA2Room(j);
    case L_LOOP_PC_LIT_16_2 => LoopPcLit162Room(j);
    case L_R_X_Y_4 => RXY4Room(j);
    case L_R_X_Y_A_4 => RXYA4Room(j);
    case L_R_X_LIT_32_Y_4 => RXLit32Y4Room(j);
    case _ =>
  }

  /* ---------- Forms whose operands may be swapped ---------- */

  predicate Swappable(id: LayoutId) {
    id in {L_MOVX_MDFR_OFFSET_1, L_MOVX_LIT_OFFSET_1, L_STACK_UNK_1,
           L_MOVX_MDFR_OFFSET_2, L_MOVX_LIT_OFFSET_2, L_STACK_UNK_2, L_NONE}
  }

  lemma MovxMdfrOffset1Paired(k: nat)
    requires k < |FormsMovxMdfrOffset1()|
    ensures Paired(FormsMovxMdfrOffset1()[k].locs, |FormsMovxMdfrOffset1()[k].locs|) && |FormsMovxMdfrOffset1()[k].locs| % 2 == 0
  {
    assert Paired(FormsMovxMdfrOffset1()[0].locs, 2);
    assert Paired(FormsMovxMdfrOffset1()[1].locs, 2);
  }

  lemma MovxLitOffset1Paired(k: nat)
    requires k < |FormsMovxLitOffset1()|
    ensures Paired(FormsMovxLitOffset1()[k].locs, |FormsMovxLitOffset1()[k].locs|) && |FormsMovxLitOffset1()[k].locs| % 2 == 0
  {
    assert Paired(FormsMovxLitOffset1()[0].locs, 2);
  }

  lemma StackUnk1Paired(k: nat)
    requires k < |FormsStackUnk1()|
    ensures Paired(FormsStackUnk1()[k].locs, |FormsStackUnk1()[k].locs|) && |FormsStackUnk1()[k].locs| % 2 == 0
  {
    assert Paired(FormsStackUnk1()[0].locs, 2);
  }

  lemma MovxMdfrOffset2Paired(k: nat)
    requires k < |FormsMovxMdfrOffset2()|
    ensures Paired(FormsMovxMdfrOffset2()[k].locs, |FormsMovxMdfrOffset2()[k].locs|) && |FormsMovxMdfrOffset2()[k].locs| % 2 == 0
  {
    assert Paired(FormsMovxMdfrOffset2()[0].locs, 4);
    assert Paired(FormsMovxMdfrOffset2()[1].locs, 2);
    assert Paired(FormsMovxMdfrOffset2()[2].locs, 2);
  }

  lemma MovxLitOffset2Paired(k: nat)
    requires k < |FormsMovxLitOffset2()|
    ensures Paired(FormsMovxLitOffset2()[k].locs, |FormsMovxLitOffset2()[k].locs|) && |FormsMovxLitOffset2()[k].locs| % 2 == 0
  {
    assert Paired(FormsMovxLitOffset2()[0].locs, 4);
    assert Paired(FormsMovxLitOffset2()[1].locs, 2);
  }

  lemma StackUnk2Paired(k: nat)
    requires k < |FormsStackUnk2()|
    ensures Paired(FormsStackUnk2()[k].locs, |FormsStackUnk2()[k].locs|) && |FormsStackUnk2()[k].locs| % 2 == 0
  {
    assert Paired(FormsStackUnk2()[0].locs, 2);
  }

  lemma SwappablePaired(id: LayoutId, k: nat)
    requires Swappable(id) && k < |OpLayouts(id)|
    ensures Paired(OpLayouts(id)[k].locs, |OpLayouts(id)[k].locs|)
    ensures |OpLayouts(id)[k].locs| % 2 == 0
  {
    hide Paired, FormsMovxMdfrOffset1, FormsMovxLitOffset1, FormsStackUnk1;
    hide FormsMovxMdfrOffset2, FormsMovxLitOffset2, FormsStackUnk2;
    match id
    case L_MOVX_MDFR_OFFSET_1 => MovxMdfrOffset1Paired(k);
    case L_MOVX_LIT_OFFSET_1 => MovxLitOffset1Paired(k);
    case L_STACK_UNK_1 => StackUnk1Paired(k);
    case L_MOVX_MDFR_OFFSET_2 => MovxMdfrOffset2Paired(k);
    case L_MOVX_LIT_OFFSET_2 => MovxLitOffset2Paired(k);
    case L_STACK_UNK_2 => StackUnk2Paired(k);
    case _ =>
  }

  /* ---------- Parallel operations ---------- */

  function PLenOf(id: PLayoutId): nat {
    if id in {P_MOV_2, P_MOVX_2, P_MOVX_DUAL_READ_2, P_MOVX_DUAL_WRITE_2, P_EXECUTE_COND_2} then 2 else 4
  }

  /** The first bit an operand of a parallel operation uses. Some lie within the six
      opcode bits 10 to 15. */
  function LowField(id: PLayoutId): nat {
    match id
    case P_MOVX_2 => 15
    case P_MOVX_DUAL_READ_2 => 13
    case P_MOVX_DUAL_WRITE_2 => 12
    case P_EXECUTE_COND_2 => 20
    case P_EXECUTE_COND_4 => 20
    case _ => 16
  }

  /** The bit that selects the alternative name of the rows with this layout, if any. */
  function AltBit(id: PLayoutId): nat {
    match id
    case P_MOV_2 => 16
    case P_MOVX_DUAL_READ_2 => 12
    case P_MOVX_DUAL_WRITE_2 => 20
    case P_MOV_4 => 17
    case _ => 0
  }

  /** Likewise for a form of a parallel operation, whose operands lie in [lo, hi) clear of
      the bit for the alternative name. */
  predicate PFormOk(f: Layout, lo: nat, hi: nat, alt: nat, n: nat) {
    n == |f.locs| && n <= 8 && AllApart(f.locs, n) && LocsFit(f.locs, n, lo, hi) &&
    (f.discBits > 0 ==> 15 <= f.discStart) && f.discStart + f.discBits <= hi &&
    f.discVal < Pow2(f.discBits) && NoneIn(f.locs, n, f.discStart, f.discBits) &&
    (alt > 0 ==> alt < hi && NoneIn(f.locs, n, alt, 1) && !In(f.discStart, f.discBits, alt))
  }

  lemma PMov2Ok(k: nat)
    requires k < |PFormsMov2()|
    ensures PFormOk(PFormsMov2()[k], LowField(P_MOV_2), 28, AltBit(P_MOV_2), |PFormsMov2()[k].locs|)
  {
    assert PFormOk(PFormsMov2()[0], LowField(P_MOV_2), 28, AltBit(P_MOV_2), 2);
  }

  lemma PMovx2Ok(k: nat)
    requires k < |PFormsMovx2()|
    ensures PFormOk(PFormsMovx2()[k], LowField(P_MOVX_2), 28, AltBit(P_MOVX_2), |PFormsMovx2()[k].locs|)
  {
    assert PFormOk(PFormsMovx2()[0], LowField(P_MOVX_2), 28, AltBit(P_MOVX_2), 2);
    assert PFormOk(PFormsMovx2()[1], LowField(P_MOVX_2), 28, AltBit(P_MOVX_2), 2);
  }

  lemma PMovxDualRead2Form0()
    ensures PFormOk(PFormsMovxDualRead2()[0], LowField(P_MOVX_DUAL_READ_2), 28, AltBit(P_MOVX_DUAL_READ_2), 4)
  {
  }

  lemma PMovxDualRead2Form1()
    ensures PFormOk(PFormsMovxDualRead2()[1], LowField(P_MOVX_DUAL_READ_2), 28, AltBit(P_MOVX_DUAL_READ_2), 4)
  {
  }

  lemma PMovxDualRead2Ok(k: nat)
    requires k < |PFormsMovxDualRead2()|
    ensures PFormOk(PFormsMovxDualRead2()[k], LowField(P_MOVX_DUAL_READ_2), 28, AltBit(P_MOVX_DUAL_READ_2), |PFormsMovxDualRead2()[k].locs|)
  {
    hide PFormOk;
    PMovxDualRead2Form0();
    PMovxDualRead2Form1();
  }

  lemma PMovxDualWrite2Form0()
    ensures PFormOk(PFormsMovxDualWrite2()[0], LowField(P_MOVX_DUAL_WRITE_2), 28, AltBit(P_MOVX_DUAL_WRITE_2), 4)
  {
  }

  lemma PMovxDualWrite2Form1()
    ensures PFormOk(PFormsMovxDualWrite2()[1], LowField(P_MOVX_DUAL_WRITE_2), 28, AltBit(P_MOVX_DUAL_WRITE_2), 4)
  {
  }

  lemma PMovxDualWrite2Ok(k: nat)
    requires k < |PFormsMovxDualWrite2()|
    ensures PFormOk(PFormsMovxDualWrite2()[k], LowField(P_MOVX_DUAL_WRITE_2), 28, AltBit(P_MOVX_DUAL_WRITE_2), |PFormsMovxDualWrite2()[k].locs|)
  {
    hide PFormOk;
    PMovxDualWrite2Form0();
    PMovxDualWrite2Form1();
  }

  lemma PExecuteCond2Ok(k: nat)
    requires k < |PFormsExecuteCond2()|
    ensures PFormOk(PFormsExecuteCond2()[k], LowField(P_EXECUTE_COND_2), 28, AltBit(P_EXECUTE_COND_2), |PFormsExecuteCond2()[k].locs|)
  {
    assert PFormOk(PFormsExecuteCond2()[0], LowField(P_EXECUTE_COND_2), 28, AltBit(P_EXECUTE_COND_2), 1);
  }

  lemma PMov4Ok(k: nat)
    requires k < |PFormsMov4()|
    ensures PFormOk(PFormsMov4()[k], LowField(P_MOV_4), 36, AltBit(P_MOV_4), |PFormsMov4()[k].locs|)
  {
    assert PFormOk(PFormsMov4()[0], LowField(P_MOV_4), 36, AltBit(P_MOV_4), 2);
  }

  lemma PMovDual4Ok(k: nat)
    requires k < |PFormsMovDual4()|
    ensures PFormOk(PFormsMovDual4()[k], LowField(P_MOV_DUAL_4), 36, AltBit(P_MOV_DUAL_4), |PFormsMovDual4()[k].locs|)
  {
    assert PFormOk(PFormsMovDual4()[0], LowField(P_MOV_DUAL_4), 36, AltBit(P_MOV_DUAL_4), 4);
  }

  lemma PMovx4Ok(k: nat)
    requires k < |PFormsMovx4()|
    ensures PFormOk(PFormsMovx4()[k], LowField(P_MOVX_4), 36, AltBit(P_MOVX_4), |PFormsMovx4()[k].locs|)
  {
    assert PFormOk(PFormsMovx4()[0], LowField(P_MOVX_4), 36, AltBit(P_MOVX_4), 2);
    assert PFormOk(PFormsMovx4()[1], LowField(P_MOVX_4), 36, AltBit(P_MOVX_4), 2);
  }

  lemma PMovxDual4Form0()
    ensures PFormOk(PFormsMovxDual4()[0], LowField(P_MOVX_DUAL_4), 36, AltBit(P_MOVX_DUAL_4), 4)
  {
  }

  lemma PMovxDual4Form1()
    ensures PFormOk(PFormsMovxDual4()[1], LowField(P_MOVX_DUAL_4), 36, AltBit(P_MOVX_DUAL_4), 4)
  {
  }

  lemma PMovxDual4Ok(k: nat)
    requires k < |PFormsMovxDual4()|
    ensures PFormOk(PFormsMovxDual4()[k], LowField(P_MOVX_DUAL_4), 36, AltBit(P_MOVX_DUAL_4), |PFormsMovxDual4()[k].locs|)
  {
    hide PFormOk;
    PMovxDual4Form0();
    PMovxDual4Form1();
  }

  lemma PMovxReadXWriteY4Form0()
    ensures PFormOk(PFormsMovxReadXWriteY4()[0], LowField(P_MOVX_READ_X_WRITE_Y_4), 36, AltBit(P_MOVX_READ_X_WRITE_Y_4), 4)
  {
  }

  lemma PMovxReadXWriteY4Form1()
    ensures PFormOk(PFormsMovxReadXWriteY4()[1], LowField(P_MOVX_READ_X_WRITE_Y_4), 36, AltBit(P_MOVX_READ_X_WRITE_Y_4), 4)
  {
  }

  lemma PMovxReadXWriteY4Ok(k: nat)
    requires k < |PFormsMovxReadXWriteY4()|
    ensures PFormOk(PFormsMovxReadXWriteY4()[k], LowField(P_MOVX_READ_X_WRITE_Y_4), 36, AltBit(P_MOVX_READ_X_WRITE_Y_4), |PFormsMovxReadXWriteY4()[k].locs|)
  {
    hide PFormOk;
    PMovxReadXWriteY4Form0();
    PMovxReadXWriteY4Form1();
  }

  lemma PExecuteCond4Ok(k: nat)
    requires k < |PFormsExecuteCond4()|
    ensures PFormOk(PFormsExecuteCond4()[k], LowField(P_EXECUTE_COND_4), 36, AltBit(P_EXECUTE_COND_4), |PFormsExecuteCond4()[k].locs|)
  {
    assert PFormOk(PFormsExecuteCond4()[0], LowField(P_EXECUTE_COND_4), 36, AltBit(P_EXECUTE_COND_4), 2);
  }

  lemma PFormIsOk(id: PLayoutId, k: nat)
    requires k < |POpLayouts(id)|
    ensures PFormOk(POpLayouts(id)[k], LowField(id), FirstFree(PLenOf(id), true), AltBit(id), |POpLayouts(id)[k].locs|)
  {
    hide PFormOk;
    hide PFormsMov2, PFormsMovx2, PFormsMovxDualRead2, PFormsMovxDualWrite2;
    hide PFormsExecuteCond2, PFormsMov4, PFormsMovDual4, PFormsMovx4;
    hide PFormsMovxDual4, PFormsMovxReadXWriteY4, PFormsExecuteCond4;
    match id
    case P_MOV_2 => PMov2Ok(k);
    case P_MOVX_2 => PMovx2Ok(k);
    case P_MOVX_DUAL_READ_2 => PMovxDualRead2Ok(k);
    case P_MOVX_DUAL_WRITE_2 => PMovxDualWrite2Ok(k);
    case P_EXECUTE_COND_2 => PExecuteCond2Ok(k);
    case P_MOV_4 => PMov4Ok(k);
    case P_MOV_DUAL_4 => PMovDual4Ok(k);
    case P_MOVX_4 => PMovx4Ok(k);
    case P_MOVX_DUAL_4 => PMovxDual4Ok(k);
    case P_MOVX_READ_X_WRITE_Y_4 => PMovxReadXWriteY4Ok(k);
    case P_EXECUTE_COND_4 => PExecuteCond4Ok(k);
  }

  lemma PMovx2Paired(k: nat)
    requires k < |PFormsMovx2()|
    ensures Paired(PFormsMovx2()[k].locs, |PFormsMovx2()[k].locs|) && |PFormsMovx2()[k].locs| % 2 == 0
  {
    assert Paired(PFormsMovx2()[0].locs, 2);
    assert Paired(PFormsMovx2()[1].locs, 2);
  }

  lemma PMovx4Paired(k: nat)
    requires k < |PFormsMovx4()|
    ensures Paired(PFormsMovx4()[k].locs, |PFormsMovx4()[k].locs|) && |PFormsMovx4()[k].locs| % 2 == 0
  {
    assert Paired(PFormsMovx4()[0].locs, 2);
    assert Paired(PFormsMovx4()[1].locs, 2);
  }

  lemma PMovxDual4Paired(k: nat)
    requires k < |PFormsMovxDual4()|
    ensures Paired(PFormsMovxDual4()[k].locs, |PFormsMovxDual4()[k].locs|) && |PFormsMovxDual4()[k].locs| % 2 == 0
  {
    assert Paired(PFormsMovxDual4()[0].locs, 4);
    assert Paired(PFormsMovxDual4()[1].locs, 4);
  }

  lemma PMovxReadXWriteY4Paired(k: nat)
    requires k < |PFormsMovxReadXWriteY4()|
    ensures Paired(PFormsMovxReadXWriteY4()[k].locs, |PFormsMovxReadXWriteY4()[k].locs|) && |PFormsMovxReadXWriteY4()[k].locs| % 2 == 0
  {
    assert Paired(PFormsMovxReadXWriteY4()[0].locs, 4);
    assert Paired(PFormsMovxReadXWriteY4()[1].locs, 4);
  }

  lemma PSwappablePaired(id: PLayoutId, k: nat)
    requires k < |POpLayouts(id)| && id in {P_MOVX_2, P_MOVX_4, P_MOVX_DUAL_4, P_MOVX_READ_X_WRITE_Y_4}
    ensures Paired(POpLayouts(id)[k].locs, |POpLayouts(id)[k].locs|)
    ensures |POpLayouts(id)[k].locs| % 2 == 0
  {
    hide Paired, PFormsMovx2, PFormsMovx4, PFormsMovxDual4, PFormsMovxReadXWriteY4;
    match id
    case P_MOVX_2 => PMovx2Paired(k);
    case P_MOVX_4 => PMovx4Paired(k);
    case P_MOVX_DUAL_4 => PMovxDual4Paired(k);
    case P_MOVX_READ_X_WRITE_Y_4 => PMovxReadXWriteY4Paired(k);
    case _ =>
  }

  /** Two forms of a parallel operation are told apart by one bit. */
  predicate PFormsPaired(fs: seq<Layout>) {
    |fs| == 1 ||
    (|fs| == 2 && fs[0].discStart == fs[1].discStart && fs[0].discBits == fs[1].discBits == 1 &&
     fs[0].discVal == 0 && fs[1].discVal == 1)
  }

  lemma PFormsArePaired(id: PLayoutId)
    ensures PFormsPaired(POpLayouts(id))
    ensures forall k :: 0 <= k < |POpLayouts(id)| && POpLayouts(id)[k].discBits > 0 && POpLayouts(id)[k].discStart < 16 ==>
              id == P_MOVX_DUAL_4 || id == P_MOVX_READ_X_WRITE_Y_4
    ensures id == P_MOVX_DUAL_4 ==> |POpLayouts(id)| == 2 && POpLayouts(id)[0].discStart == 15
  {
    match id
    case P_MOV_2 => assert |PFormsMov2()| == 1;
    case P_MOVX_2 => assert |PFormsMovx2()| == 2;
    case P_MOVX_DUAL_READ_2 => assert |PFormsMovxDualRead2()| == 2;
    case P_MOVX_DUAL_WRITE_2 => assert |PFormsMovxDualWrite2()| == 2;
    case P_EXECUTE_COND_2 => assert |PFormsExecuteCond2()| == 1;
    case P_MOV_4 => assert |PFormsMov4()| == 1;
    case P_MOV_DUAL_4 => assert |PFormsMovDual4()| == 1;
    case P_MOVX_4 => assert |PFormsMovx4()| == 2;
    case P_MOVX_DUAL_4 => assert |PFormsMovxDual4()| == 2;
    case P_MOVX_READ_X_WRITE_Y_4 => assert |PFormsMovxReadXWriteY4()| == 2;
    case P_EXECUTE_COND_4 => assert |PFormsExecuteCond4()| == 1;
  }
}
