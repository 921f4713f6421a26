/** How the disassembler lists an instruction. */
module Disassembler {
  import opened Bits
  import opened OpWords
  import opened Operands
  import opened Layouts
  import opened Fields
  import opened OperandFields
  import opened Tables
  import opened Instructions
  import opened Regions
  import opened ParallelRows

  /** Every discriminator of the forms lies within the words. */
  predicate DiscsIn(forms: seq<Layout>, hi: nat) {
    forall j :: 0 <= j < |forms| ==> forms[j].discStart + forms[j].discBits <= hi
  }

  lemma {:induction false} LocsWithin(words: seq<nat>, locs: seq<Loc>, lo: nat, hi: nat, j: nat)
    requires j < |locs| && LocsFit(locs, |locs|, lo, hi) && hi <= 25 * |words|
    ensures locs[j].start1 + locs[j].bits1 <= 25 * |words|
    ensures locs[j].bits2 > 0 ==> locs[j].start2 + locs[j].bits2 <= 25 * |words|
  {
    LocsFitAt(locs, |locs|, lo, hi, j);
  }

  /** The form fits the operand array and, if need be, can be swapped. */
  predicate Listable(words: seq<nat>, form: Layout, swap: bool) {
    Readable(words, form, swap) && |form.locs| <= 8 && (swap ==> Paired(form.locs, |form.locs|))
  }

  /** What the layouts promise the disassembler: it reads within the four word slots. */
  lemma FormsAreReadable(words: seq<nat>, row: OpRow, len: nat)
    requires |words| == 4 && GoodRow(row) && ValidLen(len) && LayoutFor(row, len) != L_NOP
    ensures DiscsIn(OpLayouts(LayoutFor(row, len)), 100)
    ensures LayoutFor(row, len) != L_NONE ==> OpLayouts(LayoutFor(row, len)) != []
    ensures forall k :: 0 <= k < |OpLayouts(LayoutFor(row, len))| ==>
              Listable(words, OpLayouts(LayoutFor(row, len))[k], row.swap)
  {
    hide OpLayouts, AllApart, MaskOk, NoneIn;
    var id := LayoutFor(row, len);
    FormsCounted(id);
    forall k | 0 <= k < |OpLayouts(id)|
      ensures OpLayouts(id)[k].discStart + OpLayouts(id)[k].discBits <= 100
      ensures Listable(words, OpLayouts(id)[k], row.swap)
    {
      var f := OpLayouts(id)[k];
      FormIsOk(id, k);
      if row.swap { SwappablePaired(id, k); }
      forall j | 0 <= j < |f.locs|
        ensures f.locs[j].start1 + f.locs[j].bits1 <= 25 * |words|
        ensures f.locs[j].bits2 > 0 ==> f.locs[j].start2 + f.locs[j].bits2 <= 25 * |words|
      {
        LocsWithin(words, f.locs, FirstFree(LenOf(id), f.optArgs), 25 * LenOf(id), j);
      }
    }
  }

  lemma PFormsAreReadable(words: seq<nat>, len: nat, i: nat)
    requires |words| == 4 && (len == 2 || len == 4) && i < |PRows(len)|
    ensures DiscsIn(POpLayouts(PRows(len)[i].layout), 100) && POpLayouts(PRows(len)[i].layout) != []
    ensures PRows(len)[i].mdfrBit < 100
    ensures forall k :: 0 <= k < |POpLayouts(PRows(len)[i].layout)| ==>
              Listable(words, POpLayouts(PRows(len)[i].layout)[k], PRows(len)[i].swap)
  {
    hide PRows, POpLayouts, AllApart, NoneIn, PRowClear, Shadowed;
    RowFacts(len, i);
    var row := PRows(len)[i];
    PFormsArePaired(row.layout);
    forall k | 0 <= k < |POpLayouts(row.layout)|
      ensures POpLayouts(row.layout)[k].discStart + POpLayouts(row.layout)[k].discBits <= 100
      ensures Listable(words, POpLayouts(row.layout)[k], row.swap)
    {
      var f := POpLayouts(row.layout)[k];
      PFormIsOk(row.layout, k);
      if row.swap { PSwappablePaired(row.layout, k); }
      forall j | 0 <= j < |f.locs|
        ensures f.locs[j].start1 + f.locs[j].bits1 <= 25 * |words|
        ensures f.locs[j].bits2 > 0 ==> f.locs[j].start2 + f.locs[j].bits2 <= 25 * |words|
      {
        LocsWithin(words, f.locs, LowField(row.layout), FirstFree(len, true), j);
      }
    }
  }

  /** What is printed of a parallel operation, and of an instruction. */
  datatype Shown = Shown(name: string, split: nat, operands: seq<Operand>)

  datatype Listing = Listing(op: nat, len: nat, main: Shown, pop: Option<Shown>)

  /** get_parallel_op_data */
  function ShowParallel(words: seq<nat>, len: nat): Option<Shown>
    requires |words| == 4 && (len == 2 || len == 4)
  {
    hide POpLayouts, PRows;
    match ParallelValue(words, len)
    case None => None
    case Some(v) =>
      match FindPRow(PRows(len), v, 0)
      case None => None
      case Some(i) =>
        PFormsAreReadable(words, len, i);
        var row := PRows(len)[i];
        var forms := POpLayouts(row.layout);
        var f := forms[Choose(words, forms, 0)];
        var name := if row.mdfrBit != 0 && Flat(words, row.mdfrBit) then row.alt else row.name;
        Some(Shown(name, SplitOf(f.locs), ReadOperands(words, f, row.swap, MdfrNone)))
  }

  /** get_op_data, once the row is found. */
  function ShowRow(words: seq<nat>, row: OpRow, len: nat): Listing
    requires |words| == 4 && GoodRow(row) && ValidLen(len)
  {
    hide OpLayouts;
    var id := LayoutFor(row, len);
    if id == L_NONE then Listing(row.op, len, Shown(row.name, 0, []), None)
    else if id == L_NOP then
      Listing(row.op, len, Shown(row.name, 0, []), if len > 1 then ShowParallel(words, len) else None)
    else
      FormsAreReadable(words, row, len);
      var forms := OpLayouts(id);
      var f := forms[Choose(words, forms, 0)];
      Listing(row.op, len, Shown(row.name, SplitOf(f.locs), ReadOperands(words, f, row.swap, row.mdfr)),
              if len > 1 && f.optArgs then ShowParallel(words, len) else None)
  }

  /** get_next_op: nothing is listed for an opcode that is not in the table. */
  function Disassemble(table: seq<OpRow>, words: seq<nat>): Option<Listing>
    requires |words| == 4 && GoodTable(table)
  {
    var len := OpLen(words[0]);
    match FindRow(table, OpcodeOf(words[0], len), 0)
    case None => None
    case Some(i) => Some(ShowRow(words, table[i], len))
  }

  /** The listing of an instruction as it was written. */
  function View(ins: Instr): Listing
    requires WellFormed(ins)
  {
    Listing(ins.row.op, ins.len, Shown(ins.row.name, ins.split, ins.operands),
            match ins.pop
            case None => None
            case Some(p) => Some(Shown(PName(PRowOf(ins), p.useAlt), p.split, p.operands)))
  }
}
