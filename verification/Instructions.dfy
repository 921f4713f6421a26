/** Whole instructions: how the assembler encodes one into program words, and how the
    disassembler takes the words apart. */
module Instructions {
  import opened Bits
  import opened OpWords
  import opened Operands
  import opened Layouts
  import opened Fields
  import opened Tables

  datatype Option<T> = None | Some(value: T)

  /** A row of the opcode table: for each instruction length the layout of its operands. */
  datatype OpRow = OpRow(name: string, op: nat, layouts: seq<LayoutId>, mdfr: SrcMdfr, swap: bool)

  /** A row of a table of parallel operations. Setting the modifier bit (0: there is none)
      selects the alternative name. */
  datatype POpRow = POpRow(name: string, alt: string, op: nat, layout: PLayoutId, mdfrBit: nat, swap: bool)

  /** parallel_2_asm_ops */
  function PRows2(): seq<POpRow> {
    [ POpRow("MOVX_P", "MOVX_T1_P", 0x10, P_MOVX_DUAL_READ_2, 12, false),
      POpRow("MOVX_T1_P", "MOVX_P", 0x20, P_MOVX_DUAL_WRITE_2, 20, false),
      POpRow("MOV_T1_P", "MOV_P", 0x30, P_MOV_2, 16, false),
      POpRow("MOVX_P", "", 0x32, P_MOVX_2, 0, false),
      POpRow("MOVX_P", "", 0x33, P_MOVX_2, 0, false),
      POpRow("MOVX_T1_P", "", 0x34, P_MOVX_2, 0, false),
      POpRow("MOVX_T1_P", "", 0x35, P_MOVX_2, 0, false),
      POpRow("MOVX_P", "", 0x3a, P_MOVX_2, 0, true),
      POpRow("MOVX_P", "", 0x3b, P_MOVX_2, 0, true),
      POpRow("MOVX_T1_P", "", 0x3c, P_MOVX_2, 0, true),
      POpRow("MOVX_T1_P", "", 0x3d, P_MOVX_2, 0, true),
      POpRow("EXEC_COND_P", "", 0x3f, P_EXECUTE_COND_2, 0, false) ]
  }

  /** parallel_4_asm_ops */
  function PRows4(): seq<POpRow> {
    [ POpRow("MOV_P", "", 0x20, P_MOV_DUAL_4, 0, false),
      POpRow("MOVX_T1_P", "", 0x24, P_MOVX_READ_X_WRITE_Y_4, 0, false),
      POpRow("MOVX_T1_P", "", 0x25, P_MOVX_READ_X_WRITE_Y_4, 0, false),
      POpRow("MOVX_P", "", 0x26, P_MOVX_READ_X_WRITE_Y_4, 0, false),
      POpRow("MOVX_P", "", 0x27, P_MOVX_READ_X_WRITE_Y_4, 0, false),
      POpRow("MOVX_T1_P", "", 0x28, P_MOVX_DUAL_4, 0, false),
      POpRow("MOVX_T1_P", "", 0x29, P_MOVX_DUAL_4, 0, false),
      POpRow("MOVX_P", "", 0x2b, P_MOVX_DUAL_4, 0, false),
      POpRow("MOVX_T1_P", "", 0x2c, P_MOVX_READ_X_WRITE_Y_4, 0, true),
      POpRow("MOVX_T1_P", "", 0x2d, P_MOVX_READ_X_WRITE_Y_4, 0, true),
      POpRow("MOVX_P", "", 0x2e, P_MOVX_READ_X_WRITE_Y_4, 0, true),
      POpRow("MOVX_P", "", 0x2f, P_MOVX_READ_X_WRITE_Y_4, 0, true),
      POpRow("MOVX_T1_P", "", 0x30, P_MOVX_DUAL_4, 0, true),
      POpRow("MOVX_T1_P", "", 0x31, P_MOVX_DUAL_4, 0, true),
      POpRow("MOVX_P", "", 0x32, P_MOVX_DUAL_4, 0, true),
      POpRow("MOVX_P", "", 0x33, P_MOVX_DUAL_4, 0, true),
      POpRow("MOV_T1_P", "MOV_P", 0x38, P_MOV_4, 17, false),
      POpRow("MOVX_P", "", 0x39, P_MOVX_4, 0, false),
      POpRow("MOVX_T1_P", "", 0x3a, P_MOVX_4, 0, false),
      POpRow("MOVX_P", "", 0x3d, P_MOVX_4, 0, true),
      POpRow("MOVX_T1_P", "", 0x3e, P_MOVX_4, 0, true),
      POpRow("EXEC_COND_P", "", 0x3f, P_EXECUTE_COND_4, 0, false) ]
  }

  function PRows(len: nat): seq<POpRow> { if len == 2 then PRows2() else PRows4() }

  /** Index into the layouts of a row. */
  function LenIndex(len: nat): nat { if len == 4 then 2 else if len == 2 then 1 else 0 }

  predicate ValidLen(len: nat) { len == 1 || len == 2 || len == 4 }

  predicate FitsLen(id: LayoutId, len: nat) { id == L_NOP || id == L_NONE || LenOf(id) == len }

  /** What the opcode table keeps: every layout is listed under its length, only paired
      layouts are used with source and destination swapped, and 16-bit literals get a
      modifier only where the disassembler shows it. */
  predicate GoodRow(row: OpRow) {
    |row.layouts| == 3 && row.op < 256 &&
    FitsLen(row.layouts[0], 1) && FitsLen(row.layouts[1], 2) && FitsLen(row.layouts[2], 4) &&
    forall i :: 0 <= i < 3 ==>
      (row.swap ==> Swappable(row.layouts[i])) &&
      (row.mdfr == Mdfr16Upper || row.mdfr == Mdfr16Signed ==>
         row.layouts[i] != L_PC_LIT_16_2 && row.layouts[i] != L_LOOP_PC_LIT_16_2)
  }

  /** And no opcode is listed twice. */
  predicate GoodTable(table: seq<OpRow>) {
    (forall i :: 0 <= i < |table| ==> GoodRow(table[i])) &&
    forall i, j :: 0 <= i < |table| && 0 <= j < |table| && table[i].op == table[j].op ==> i == j
  }

  function LayoutFor(row: OpRow, len: nat): LayoutId
    requires |row.layouts| == 3
  {
    row.layouts[LenIndex(len)]
  }

  /** The parallel operation of an instruction: its table row, whether by its alternative
      name, the form chosen, and its operands. */
  datatype ParallelOp = ParallelOp(row: nat, useAlt: bool, k: nat, split: nat, operands: seq<Operand>)

  /** What the assembler has settled on before it writes an instruction. */
  datatype Instr = Instr(row: OpRow, len: nat, k: nat, split: nat, operands: seq<Operand>, pop: Option<ParallelOp>)

  predicate WellFormed(ins: Instr) {
    ValidLen(ins.len) && |ins.row.layouts| == 3 && ins.row.op < 256 &&
    ins.k < |OpLayouts(LayoutFor(ins.row, ins.len))| &&
    (ins.pop.Some? ==>
       var p := ins.pop.value;
       ins.len > 1 && p.row < |PRows(ins.len)| && p.k < |POpLayouts(PRows(ins.len)[p.row].layout)|)
  }

  function FormOf(ins: Instr): Layout
    requires WellFormed(ins)
  {
    var f := OpLayouts(LayoutFor(ins.row, ins.len))[ins.k];
    // An instruction without operands has its form written without operands.
    if ins.operands == [] then f.(locs := []) else f
  }

  function MainOp(ins: Instr): Operation
    requires WellFormed(ins)
  {
    Operation(FormOf(ins), ins.row.swap, ins.row.mdfr, ins.split, ins.operands)
  }

  function PRowOf(ins: Instr): POpRow
    requires WellFormed(ins) && ins.pop.Some?
  {
    PRows(ins.len)[ins.pop.value.row]
  }

  function POperation(row: POpRow, k: nat, split: nat, operands: seq<Operand>): Operation
    requires k < |POpLayouts(row.layout)|
  {
    Operation(POpLayouts(row.layout)[k], row.swap, MdfrNone, split, operands)
  }

  function ParOp(ins: Instr): Operation
    requires WellFormed(ins) && ins.pop.Some?
  {
    var p := ins.pop.value;
    POperation(PRowOf(ins), p.k, p.split, p.operands)
  }

  /** The name the parallel operation goes by in the source. */
  function PName(row: POpRow, useAlt: bool): string { if useAlt then row.alt else row.name }

  predicate PMatch(row: POpRow, name: string) { row.name == name || (row.alt != "" && row.alt == name) }

  /** check_op_layout_compatibility for a row of the table of parallel operations. */
  predicate RowTakes(row: POpRow, name: string, split: nat, operands: seq<Operand>) {
    PMatch(row, name) &&
    exists k :: 0 <= k < |POpLayouts(row.layout)| && Accepted(POperation(row, k, split, operands))
  }

  /** find_compatible_p_op_info returns the first row that takes the operands, and by its
      alternative name only if the first name differs. */
  predicate FirstRow(ins: Instr)
    requires WellFormed(ins) && ins.pop.Some?
  {
    var p := ins.pop.value;
    var row := PRowOf(ins);
    var name := PName(row, p.useAlt);
    (p.useAlt ==> row.alt != "" && row.name != row.alt) &&
    Accepted(ParOp(ins)) &&
    forall i :: 0 <= i < p.row ==> !RowTakes(PRows(ins.len)[i], name, p.split, p.operands)
  }

  /** The assembler accepts the instruction in this form. Only the NOP layout goes without
      operands; a parallel operation needs a form with room for it. */
  predicate Assembles(ins: Instr) {
    WellFormed(ins) &&
    (ins.operands == [] ==> LayoutFor(ins.row, ins.len) == L_NOP && ins.split == 0) &&
    Accepted(MainOp(ins)) &&
    (ins.pop.Some? ==> FormOf(ins).optArgs && FirstRow(ins))
  }

  lemma AssemblesWell(ins: Instr)
    requires Assembles(ins)
    ensures WellFormed(ins) && ValidLen(ins.len)
  {
    hide OpLayouts, PRows, POpLayouts, Accepted, FirstRow;
  }

  /* ---------- What the assembler writes ---------- */

  /** create_dsp_opcode */
  function OpcodeWord(op: nat, len: nat): nat {
    if len > 1 then
      var w := Or(0x100_0000, Shl(op, 15));
      if len == 4 then Or(w, 0x80_0000) else w
    else Shl(op, 16)
  }

  /** The bits of a constant that is or-ed into word w. */
  predicate WordBit(w: nat, c: nat, p: nat) { Covers(Write(25 * w, 25, c), p) }

  /** The room for a parallel operation is filled with ones when there is none. */
  predicate RoomBit(ins: Instr, p: nat)
    requires WellFormed(ins)
  {
    ins.pop.None? && FormOf(ins).optArgs && ins.len > 1 &&
    (WordBit(0, 0x7fff, p) || WordBit(1, if ins.len == 2 then 0x1c0_0000 else 0x1ff_c000, p))
  }

  predicate DiscBit(f: Layout, p: nat) { Covers(Write(f.discStart, f.discBits, f.discVal), p) }

  predicate MaskBit(f: Layout, p: nat) {
    exists w :: 0 <= w < |f.mask| && WordBit(w, f.mask[w], p)
  }

  predicate MainBit(ins: Instr, p: nat)
    requires WellFormed(ins) && Shaped(MainOp(ins))
  {
    WordBit(0, OpcodeWord(ins.row.op, ins.len), p) || RoomBit(ins, p) || DiscBit(FormOf(ins), p) ||
    MaskBit(FormOf(ins), p) || SlotsBit(Slots(MainOp(ins)), p)
  }

  predicate ParBit(ins: Instr, p: nat)
    requires WellFormed(ins) && ins.pop.Some? && Shaped(ParOp(ins))
  {
    var row := PRowOf(ins);
    WordBit(0, Shl(row.op, 9), p) || (ins.pop.value.useAlt && row.mdfrBit != 0 && p == row.mdfrBit) ||
    DiscBit(ParOp(ins).form, p) || SlotsBit(Slots(ParOp(ins)), p)
  }

  predicate InstrBit(ins: Instr, p: nat)
    requires Assembles(ins)
  {
    MainBit(ins, p) || (ins.pop.Some? && ParBit(ins, p))
  }

  /** The first `len` of four word slots hold the instruction; the rest may hold anything. */
  predicate Encodes(words: seq<nat>, ins: Instr)
    requires Assembles(ins)
  {
    |words| == 4 &&
    (forall w :: 0 <= w < ins.len ==> words[w] < Pow2(25)) &&
    forall p :: 0 <= p < 25 * ins.len ==> (Flat(words, p) <==> InstrBit(ins, p))
  }

  /* ---------- What the disassembler reads ---------- */

  /** get_dsp_op_len */
  function OpLen(word: nat): nat {
    if Bit(word, 24) then if Bit(word, 23) then 4 else 2 else 1
  }

  function OpcodeOf(word: nat, len: nat): nat {
    if len > 1 then ExtractBitsFromWord(word, 2, 8) else ExtractBitsFromWord(word, 1, 8)
  }

  /** The form whose discriminator matches, tried in order; one without a discriminator
      always matches, and the last one is taken when none does. */
  function Choose(words: seq<nat>, forms: seq<Layout>, i: nat): (k: nat)
    requires i < |forms|
    requires forall j :: 0 <= j < |forms| ==> forms[j].discStart + forms[j].discBits <= 25 * |words|
    ensures i <= k < |forms|
    decreases |forms| - i
  {
    var f := forms[i];
    if f.discBits == 0 || FieldValue(words, f.discStart, f.discBits) == f.discVal || i + 1 == |forms| then i
    else Choose(words, forms, i + 1)
  }

  /** The six opcode bits of the parallel operation, if there is one. */
  function ParallelValue(words: seq<nat>, len: nat): Option<nat>
    requires |words| == 4
  {
    var val := FieldValue(words, 10, 6);
    if len == 2 then
      if val >= 0x3e && FieldValue(words, 16, 1) == 1 then None
      else if val < 0x30 then Some(val / 16 % 4 * 16)
      else Some(val)
    else if val == 0x3f && FieldValue(words, 17, 1) == 1 then None
    else Some(val)
  }

  /** get_dsp_p_op_info */
  function FindPRow(rows: seq<POpRow>, op: nat, i: nat): (r: Option<nat>)
    requires i <= |rows|
    ensures r.Some? ==> i <= r.value < |rows| && rows[r.value].op == op
    ensures r.None? ==> forall j :: i <= j < |rows| ==> rows[j].op != op
    decreases |rows| - i
  {
    if i == |rows| then None else if rows[i].op == op then Some(i) else FindPRow(rows, op, i + 1)
  }

  /** get_dsp_op_info */
  function FindRow(table: seq<OpRow>, op: nat, i: nat): (r: Option<nat>)
    requires i <= |table|
    ensures r.Some? ==> i <= r.value < |table| && table[r.value].op == op
    ensures r.None? ==> forall j :: i <= j < |table| ==> table[j].op != op
    decreases |table| - i
  {
    if i == |table| then None else if table[i].op == op then Some(i) else FindRow(table, op, i + 1)
  }
}
