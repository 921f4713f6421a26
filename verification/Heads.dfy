/** The head of an instruction: its length, its opcode, and whether it carries a parallel
    operation are read back as written. */
module Heads {
  import opened Bits
  import opened OpWords
  import opened Operands
  import opened Layouts
  import opened Fields
  import opened OperandFields
  import opened Tables
  import opened Instructions
  import opened Regions
  import opened ParallelRows
  import opened Disassembler
  import opened Selection

  /** The counted loops share the lowest opcode bit with their discriminator. */
  predicate SetsOpcodeBit(ins: Instr)
    requires WellFormed(ins)
  {
    Id(ins) == L_LOOP_PC_LIT_16_2 && ins.k == 1
  }

  lemma LoopForm(ins: Instr)
    requires WellFormed(ins) && GoodRow(ins.row) && Id(ins) == L_LOOP_PC_LIT_16_2
    ensures ins.k < 2 && FormOf(ins).discStart == 9 && FormOf(ins).discBits == 1 && FormOf(ins).discVal == ins.k
    ensures ins.len == 2
  {
    RowLayout(ins);
  }

  lemma NotLoop(ins: Instr)
    requires WellFormed(ins) && GoodRow(ins.row) && FormOf(ins).discStart == 9
    ensures Id(ins) == L_LOOP_PC_LIT_16_2
  {
    RowLayout(ins);
    if Id(ins) != L_NOP {
      hide OpLayouts, FormOk;
      FormIsOk(Id(ins), ins.k);
    }
  }

  lemma SharedBit(ins: Instr, p: nat)
    requires WellFormed(ins) && GoodRow(ins.row)
    ensures SharedDisc(FormOf(ins), p) ==> p == 9 && SetsOpcodeBit(ins)
    ensures SetsOpcodeBit(ins) ==> SharedDisc(FormOf(ins), 9) && ins.len == 2
  {
    hide OpLayouts;
    if FormOf(ins).discStart == 9 { NotLoop(ins); }
    if Id(ins) == L_LOOP_PC_LIT_16_2 { LoopForm(ins); }
    assert Bit(1, 0) && !Bit(0, 0);
  }

  lemma HeadFlat(words: seq<nat>, ins: Instr, p: nat)
    requires Assembled(words, ins) && p < RoomEnd(ins)
    ensures Flat(words, p) <==>
            OpcodeBit(ins.row.op, ins.len, p) || RoomBit(ins, p) || SharedDisc(FormOf(ins), p) ||
            (ins.pop.Some? && Selected(ins) && ParBit(ins, p))
  {
    hide OpLayouts, PRows, Accepted, Selected, FirstRow, MainBit, ParBit;
    MainHead(ins, p);
    if ins.pop.Some? {
      PopIsSelected(ins);
      SelectedFacts(ins);
    }
  }

  /** The ten or nine bits before any room. */
  lemma PrefixFlat(words: seq<nat>, ins: Instr, p: nat)
    requires Assembled(words, ins) && p < (if ins.len == 1 then 9 else 10)
    ensures Flat(words, p) <==> OpcodeBit(ins.row.op, ins.len, p) || (p == 9 && SetsOpcodeBit(ins))
    ensures SetsOpcodeBit(ins) ==> ins.len == 2
  {
    hide OpLayouts, PRows, Encodes, Accepted, Selected, FirstRow, ParBit;
    HeadFlat(words, ins, p);
    RoomBitAt(ins, p);
    SharedBit(ins, p);
    if ins.pop.Some? {
      PopIsSelected(ins);
      SelectedFacts(ins);
      if ParBit(ins, p) { ParInside(ins, p); }
    }
  }

  /** The first word alone gives the instruction's length. */
  lemma LengthRead(words: seq<nat>, ins: Instr)
    requires Assembled(words, ins)
    ensures |words| == 4 && OpLen(words[0]) == ins.len
  {
    hide OpLayouts, PRows, Encodes, Accepted, FirstRow, Bit;
    FourWords(words, ins);
    PrefixFlat(words, ins, 0);
    PrefixFlat(words, ins, 1);
    assert Flat(words, 0) == Bit(words[0], 24) && Flat(words, 1) == Bit(words[0], 23);
  }

  /** The opcode read: the one written, but made odd by a set shared bit. */
  function SeenOp(ins: Instr): nat
    requires WellFormed(ins)
  {
    if SetsOpcodeBit(ins) && ins.row.op % 2 == 0 then ins.row.op + 1 else ins.row.op
  }

  lemma SeenOpBit(ins: Instr, j: nat)
    requires WellFormed(ins)
    ensures Bit(SeenOp(ins), j) <==> Bit(ins.row.op, j) || (j == 0 && SetsOpcodeBit(ins))
  {
    hide OpLayouts;
  }

  lemma OpcodeBitRead(words: seq<nat>, ins: Instr, j: nat)
    requires Assembled(words, ins) && |words| == 4
    ensures Bit(OpcodeOf(words[0], ins.len), j) == Bit(SeenOp(ins), j)
  {
    hide OpLayouts, PRows, Encodes, Accepted, FirstRow, Bit, SeenOp;
    SeenOpBit(ins, j);
    assert Pow2(8) == 256 by { Pow2s(); }
    if ins.len > 1 {
      ExtractBitsBit(words[0], 2, 8, j);
      if j < 8 {
        PrefixFlat(words, ins, 9 - j);
        assert Flat(words, 9 - j) == Bit(words[0], j + 15);
      }
    } else {
      ExtractBitsBit(words[0], 1, 8, j);
      PrefixFlat(words, ins, 0);
      if j < 8 {
        PrefixFlat(words, ins, 8 - j);
        assert Flat(words, 8 - j) == Bit(words[0], j + 16);
      }
    }
    if j >= 8 { HighBit(ins.row.op, 8, j); }
  }

  lemma OpcodeRead(words: seq<nat>, ins: Instr)
    requires Assembled(words, ins)
    ensures |words| == 4 && OpcodeOf(words[0], ins.len) == SeenOp(ins)
  {
    hide OpLayouts, PRows, Encodes, Accepted, FirstRow, Bit, SeenOp, OpcodeOf;
    FourWords(words, ins);
    forall j: nat
      ensures Bit(OpcodeOf(words[0], ins.len), j) == Bit(SeenOp(ins), j)
    {
      OpcodeBitRead(words, ins, j);
    }
    BitsExt(OpcodeOf(words[0], ins.len), SeenOp(ins));
  }

  /* ---------- The room of a parallel operation ---------- */

  lemma OnesField(words: seq<nat>, start: nat, len: nat)
    requires start + len <= 25 * |words|
    requires forall p :: In(start, len, p) ==> Flat(words, p)
    ensures FieldValue(words, start, len) == Pow2(len) - 1
  {
    forall j: nat
      ensures Bit(FieldValue(words, start, len), j) == Bit(Pow2(len) - 1, j)
    {
      FieldValueBit(words, start, len, j);
      AllOnes(len, j);
      if j < len { assert In(start, len, start + len - 1 - j); }
    }
    BitsExt(FieldValue(words, start, len), Pow2(len) - 1);
  }

  lemma OneBitField(words: seq<nat>, p: nat)
    requires p < 25 * |words|
    ensures FieldValue(words, p, 1) == if Flat(words, p) then 1 else 0
  {
    assert FieldValue(words, p, 0) == 0;
  }

  /** No parallel operation is read where none was written. */
  lemma EmptyRoomRead(words: seq<nat>, ins: Instr)
    requires Assembled(words, ins) && ins.pop.None? && FormOf(ins).optArgs && ins.len > 1
    ensures |words| == 4 && ParallelValue(words, ins.len) == None
  {
    hide OpLayouts, Encodes, Accepted, Bit, FieldValue, Flat;
    FourWords(words, ins);
    forall p | 10 <= p < RoomEnd(ins)
      ensures Flat(words, p)
    {
      HeadFlat(words, ins, p);
      RoomBitAt(ins, p);
    }
    OnesField(words, 10, 6);
    assert Pow2(6) == 64 by { Pow2s(); }
    OneBitField(words, 16);
    OneBitField(words, 17);
  }
}
