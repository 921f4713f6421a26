/** What the tables of parallel operations keep, and the bits of a parallel operation. */
module ParallelRows {
  import opened Bits
  import opened OpWords
  import opened Operands
  import opened Layouts
  import opened Fields
  import opened OperandFields
  import opened Tables
  import opened Instructions
  import opened Regions

  /** Row i only differs from the row before it by the lowest opcode bit, which an operand
      or a discriminator of the layout covers. */
  predicate Shadowed(rows: seq<POpRow>, i: nat)
    requires i < |rows|
  {
    i > 0 && rows[i - 1].op % 2 == 0 && rows[i].op == rows[i - 1].op + 1 &&
    rows[i - 1] == rows[i].(op := rows[i - 1].op)
  }

  lemma RowBeforeTakes(ins: Instr)
    requires WellFormed(ins) && ins.pop.Some? && Accepted(ParOp(ins))
    requires ins.pop.value.useAlt ==> PRowOf(ins).alt != "" && PRowOf(ins).name != PRowOf(ins).alt
    ensures var p := ins.pop.value;
            Shadowed(PRows(ins.len), p.row) ==>
              RowTakes(PRows(ins.len)[p.row - 1], PName(PRowOf(ins), p.useAlt), p.split, p.operands)
  {
    hide PRows, POpLayouts, Accepted;
    var p := ins.pop.value;
    if Shadowed(PRows(ins.len), p.row) {
      assert POperation(PRows(ins.len)[p.row - 1], p.k, p.split, p.operands) == ParOp(ins);
    }
  }

  /** The search stops at the row before. */
  lemma ShadowedRowsAreSkipped(ins: Instr)
    requires WellFormed(ins) && ins.pop.Some? && FirstRow(ins)
    ensures !Shadowed(PRows(ins.len), ins.pop.value.row)
  {
    hide PRows, RowTakes, Accepted;
    RowBeforeTakes(ins);
  }

  predicate Rising(rows: seq<POpRow>) {
    forall i :: 0 < i < |rows| ==> rows[i - 1].op < rows[i].op
  }

  lemma {:induction false} RisingAt(rows: seq<POpRow>, i: nat, j: nat)
    requires i < j < |rows| && Rising(rows)
    ensures rows[i].op < rows[j].op
    decreases j
  {
    if i < j - 1 { RisingAt(rows, i, j - 1); }
  }

  /** The lowest opcode bit is covered by a field or a discriminator. */
  predicate LowBitShared(id: PLayoutId) {
    id in {P_MOVX_2, P_MOVX_DUAL_4, P_MOVX_READ_X_WRITE_Y_4}
  }

  predicate PRowOk(row: POpRow, len: nat) {
    row.op < 64 && PLenOf(row.layout) == len && (len == 4 ==> row.op >= 32) &&
    (len == 4 && row.op == 0x2b ==> row.layout == P_MOVX_DUAL_4 && !row.swap) &&
    (row.swap ==> row.layout in {P_MOVX_2, P_MOVX_4, P_MOVX_DUAL_4, P_MOVX_READ_X_WRITE_Y_4}) &&
    (row.alt != "" <==> row.mdfrBit != 0) && row.mdfrBit == AltBit(row.layout)
  }

  /** A row the search can stop at has zeros where its operands overlap the opcode, and is
      followed by its shadow if the lowest bit is shared. The exception is row 7 of the
      four-word table, whose opcode is odd. */
  predicate PRowClear(rows: seq<POpRow>, len: nat, i: nat)
    requires i < |rows|
  {
    var row := rows[i];
    match row.layout
    case P_MOVX_DUAL_READ_2 => row.op == 0x10
    case P_MOVX_DUAL_WRITE_2 => row.op == 0x20
    case P_MOVX_2 => row.op % 2 == 0 && 0x30 <= row.op < 0x3e && i + 1 < |rows| && Shadowed(rows, i + 1)
    case P_MOVX_DUAL_4 => (row.op % 2 == 0 && row.op < 0x3e && i + 1 < |rows| && Shadowed(rows, i + 1)) || row.op == 0x2b
    case P_MOVX_READ_X_WRITE_Y_4 => row.op % 2 == 0 && row.op < 0x3e && i + 1 < |rows| && Shadowed(rows, i + 1)
    case P_EXECUTE_COND_2 => row.op == 0x3f
    case P_EXECUTE_COND_4 => row.op == 0x3f
    case _ => 0x20 <= row.op < 0x3f && (len == 2 ==> row.op == 0x30)
  }

  lemma Row2Facts(i: nat)
    requires i < |PRows2()|
    ensures PRowOk(PRows2()[i], 2)
    ensures Shadowed(PRows2(), i) || PRowClear(PRows2(), 2, i)
    ensures i > 0 ==> PRows2()[i - 1].op < PRows2()[i].op
  {
  }

  lemma Row4FactsA(i: nat)
    requires i < 4
    ensures PRowOk(PRows4()[i], 4)
    ensures Shadowed(PRows4(), i) || PRowClear(PRows4(), 4, i)
    ensures i > 0 ==> PRows4()[i - 1].op < PRows4()[i].op
  {
  }

  lemma Row4FactsB(i: nat)
    requires 4 <= i < 7
    ensures PRowOk(PRows4()[i], 4)
    ensures Shadowed(PRows4(), i) || PRowClear(PRows4(), 4, i)
    ensures i > 0 ==> PRows4()[i - 1].op < PRows4()[i].op
  {
  }

  lemma Row4FactsC(i: nat)
    requires 7 <= i < 11
    ensures PRowOk(PRows4()[i], 4)
    ensures Shadowed(PRows4(), i) || PRowClear(PRows4(), 4, i)
    ensures i > 0 ==> PRows4()[i - 1].op < PRows4()[i].op
  {
  }

  lemma Row4FactsD(i: nat)
    requires 11 <= i < 16
    ensures PRowOk(PRows4()[i], 4)
    ensures Shadowed(PRows4(), i) || PRowClear(PRows4(), 4, i)
    ensures i > 0 ==> PRows4()[i - 1].op < PRows4()[i].op
  {
  }

  lemma Row4FactsE(i: nat)
    requires 16 <= i < |PRows4()|
    ensures PRowOk(PRows4()[i], 4)
    ensures Shadowed(PRows4(), i) || PRowClear(PRows4(), 4, i)
    ensures i > 0 ==> PRows4()[i - 1].op < PRows4()[i].op
  {
  }

  lemma RowFacts(len: nat, i: nat)
    requires (len == 2 || len == 4) && i < |PRows(len)|
    ensures PRowOk(PRows(len)[i], len)
    ensures Shadowed(PRows(len), i) || PRowClear(PRows(len), len, i)
    ensures i > 0 ==> PRows(len)[i - 1].op < PRows(len)[i].op
  {
    hide PRows2, PRows4, PRowOk, PRowClear, Shadowed;
    if len == 2 {
      Row2Facts(i);
    } else if i < 4 {
      Row4FactsA(i);
    } else if i < 7 {
      Row4FactsB(i);
    } else if i < 11 {
      Row4FactsC(i);
    } else if i < 16 {
      Row4FactsD(i);
    } else {
      Row4FactsE(i);
    }
  }

  /** A row is found by its opcode. */
  lemma RowIsFound(len: nat, i: nat)
    requires (len == 2 || len == 4) && i < |PRows(len)|
    ensures FindPRow(PRows(len), PRows(len)[i].op, 0) == Some(i)
  {
    hide PRows;
    var rows := PRows(len);
    forall j | 0 < j < |rows|
      ensures rows[j - 1].op < rows[j].op
    {
      RowFacts(len, j);
    }
    var r := FindPRow(rows, rows[i].op, 0);
    assert r.Some?;
    if r.value < i {
      RisingAt(rows, r.value, i);
    } else if i < r.value {
      RisingAt(rows, i, r.value);
    }
  }

  /* ---------- The bits of a parallel operation ---------- */

  /** The parallel operation is one the assembler can select. */
  predicate Selected(ins: Instr) {
    WellFormed(ins) && ins.pop.Some? && Accepted(ParOp(ins)) &&
    PRowClear(PRows(ins.len), ins.len, ins.pop.value.row) && PRowOk(PRowOf(ins), ins.len)
  }

  lemma SelectedRow(ins: Instr)
    requires WellFormed(ins) && ins.pop.Some? && FirstRow(ins)
    ensures Selected(ins)
  {
    hide PRows, PRowClear, PRowOk, Accepted, Shadowed, POpLayouts, RowTakes;
    ShadowedRowsAreSkipped(ins);
    RowFacts(ins.len, ins.pop.value.row);
  }

  lemma SelectedFacts(ins: Instr)
    requires Selected(ins)
    ensures PRowOf(ins).op < 64 && Shaped(ParOp(ins)) && (ins.len == 2 || ins.len == 4)
    ensures ins.len == 4 ==> PRowOf(ins).op >= 32
  {
    hide PRows, PRowClear, POpLayouts, AcceptsAt;
  }

  function PRoomEnd(ins: Instr): nat { FirstFree(ins.len, true) }

  function PForm(ins: Instr): Layout
    requires WellFormed(ins) && ins.pop.Some?
  {
    ParOp(ins).form
  }

  lemma ParFormOk(ins: Instr)
    requires Selected(ins)
    ensures PFormOk(PForm(ins), LowField(PRowOf(ins).layout), PRoomEnd(ins), PRowOf(ins).mdfrBit, |PForm(ins).locs|)
    ensures Framed(ParOp(ins), LowField(PRowOf(ins).layout), PRoomEnd(ins))
  {
    hide PRows, PRowClear, POpLayouts, AcceptsAt, AllApart, LocsFit, NoneIn;
    var row, k := PRowOf(ins), ins.pop.value.k;
    PFormIsOk(row.layout, k);
    if row.swap { PSwappablePaired(row.layout, k); }
  }

  /** The six opcode bits. */
  predicate POpcodeBit(op: nat, p: nat) { 10 <= p <= 15 && Bit(op, 15 - p) }

  lemma POpcodeWordBit(op: nat, p: nat)
    requires op < 64
    ensures WordBit(0, Shl(op, 9), p) <==> POpcodeBit(op, p)
  {
    hide Bit, Shl;
    if p < 25 {
      var d := 24 - p;
      BitShl(op, 9, d);
      assert Pow2(6) == 64 by { Pow2s(); }
      if d >= 15 { HighBit(op, 6, d - 9); }
    }
  }

  /** The opcode has zeros where operands and the name bit are. */
  lemma OpcodeIsClear(ins: Instr, p: nat)
    requires Selected(ins) && POpcodeBit(PRowOf(ins).op, p)
    ensures p < LowField(PRowOf(ins).layout) && p != PRowOf(ins).mdfrBit
  {
    hide PRows, POpLayouts, Accepted, Shadowed;
    assert !Bit(0x10, 0) && !Bit(0x10, 1) && !Bit(0x10, 2) && !Bit(0x10, 3);
    assert !Bit(0x20, 0) && !Bit(0x20, 1) && !Bit(0x20, 2) && !Bit(0x20, 3);
  }

  lemma ParInside(ins: Instr, p: nat)
    requires Selected(ins) && ParBit(ins, p)
    ensures 10 <= p < PRoomEnd(ins)
  {
    hide PRows, PRowClear, POpLayouts, Accepted, Bit, SlotsBit, AllApart, LocsFit, NoneIn;
    ParFormOk(ins);
    SelectedFacts(ins);
    POpcodeWordBit(PRowOf(ins).op, p);
    if SlotsBit(Slots(ParOp(ins)), p) {
      SlotsInside(ParOp(ins), LowField(PRowOf(ins).layout), PRoomEnd(ins), p);
    }
  }

  /** In its operands' fields the operation has its operands' bits only. */
  lemma ParConstants(ins: Instr, i: nat, p: nat)
    requires Selected(ins) && i < |ParOp(ins).operands| && InLoc(LocOf(ParOp(ins), i), p)
    ensures 10 <= p < PRoomEnd(ins)
    ensures ParBit(ins, p) <==> SlotsBit(Slots(ParOp(ins)), p)
  {
    hide PRows, PRowClear, PRowOk, POpLayouts, Accepted, Bit, SlotsBit, AllApart, LocsFit, NoneIn;
    var o, f, row := ParOp(ins), PForm(ins), PRowOf(ins);
    var lo, hi := LowField(row.layout), PRoomEnd(ins);
    ParFormOk(ins);
    SelectedFacts(ins);
    LocInside(o, lo, hi, i, p);
    POpcodeWordBit(row.op, p);
    if POpcodeBit(row.op, p) { OpcodeIsClear(ins, p); }
    LocMiss(o, lo, hi, f.discStart, f.discBits, i, p);
    if row.mdfrBit != 0 { LocMiss(o, lo, hi, row.mdfrBit, 1, i, p); }
  }
}
