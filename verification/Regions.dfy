/** Which part of an instruction each bit position belongs to: the opcode, the room of a
    parallel operation, and the fields of the operands stay out of one another. */
module Regions {
  import opened Bits
  import opened OpWords
  import opened Operands
  import opened Layouts
  import opened Fields
  import opened OperandFields
  import opened Tables
  import opened Instructions

  /* ---------- Operand fields within one operation ---------- */

  lemma LocInside(o: Operation, lo: nat, hi: nat, i: nat, p: nat)
    requires Framed(o, lo, hi) && i < |o.operands| && InLoc(LocOf(o, i), p)
    ensures lo <= p < hi
  {
    DescInRange(i, o.swap, |o.operands|);
    LocsFitAt(o.form.locs, |o.form.locs|, lo, hi, DescIndex(i, o.swap));
  }

  lemma SlotsInside(o: Operation, lo: nat, hi: nat, p: nat)
    requires Framed(o, lo, hi) && SlotsBit(Slots(o), p)
    ensures lo <= p < hi
  {
    var ss := Slots(o);
    var i :| 0 <= i < |ss| && SlotBit(ss[i], p);
    LocInside(o, lo, hi, i, p);
  }

  /** A region without operand fields receives no operand bits. */
  lemma SlotsMiss(o: Operation, lo: nat, hi: nat, s: nat, m: nat, p: nat)
    requires Framed(o, lo, hi) && NoneIn(o.form.locs, |o.form.locs|, s, m) && In(s, m, p)
    ensures !SlotsBit(Slots(o), p)
  {
    var ss := Slots(o);
    if SlotsBit(ss, p) {
      var i :| 0 <= i < |ss| && SlotBit(ss[i], p);
      DescInRange(i, o.swap, |o.operands|);
      NoneInAt(o.form.locs, |o.form.locs|, s, m, DescIndex(i, o.swap));
      SlotFits(o, lo, hi, i);
      if Relative(ss[i].a.ty) { RelativeAddsNothing(ss[i], hi, p); }
    }
  }

  /** Nor does it meet an operand's field, not even the shared field of a relative one. */
  lemma LocMiss(o: Operation, lo: nat, hi: nat, s: nat, m: nat, i: nat, p: nat)
    requires Framed(o, lo, hi) && NoneIn(o.form.locs, |o.form.locs|, s, m)
    requires i < |o.operands| && InLoc(LocOf(o, i), p)
    ensures !In(s, m, p)
  {
    var locs := o.form.locs;
    var j := DescIndex(i, o.swap);
    DescInRange(i, o.swap, |locs|);
    NoneInAt(locs, |locs|, s, m, j);
    if Relative(locs[j].ty) {
      RelativeBase(locs, |locs|, lo, hi, j);
      NoneInAt(locs, |locs|, s, m, j - BaseDistance(locs[j].ty));
      LocsFitAt(locs, |locs|, lo, hi, j);
    }
  }

  /* ---------- Constants or-ed into a word ---------- */

  /** Position p of word w. */
  lemma WordBitAt(w: nat, c: nat, p: nat)
    ensures WordBit(w, c, p) <==> 25 * w <= p < 25 * w + 25 && Bit(c, 24 - (p - 25 * w))
  {
  }

  lemma {:induction false} AllOnes(m: nat, d: nat)
    ensures Bit(Pow2(m) - 1, d) <==> d < m
    decreases m
  {
    BitZero(d);
    if m > 0 && d > 0 {
      assert (Pow2(m) - 1) / 2 == Pow2(m - 1) - 1;
      AllOnes(m - 1, d - 1);
    }
  }

  /** A run of m ones above k zeros. */
  lemma RunOfOnes(c: nat, m: nat, k: nat, d: nat)
    requires c == (Pow2(m) - 1) * Pow2(k)
    ensures Bit(c, d) <==> In(k, m, d)
  {
    ShlIsTimes(Pow2(m) - 1, k);
    BitShl(Pow2(m) - 1, k, d);
    if d >= k { AllOnes(m, d - k); }
  }

  lemma RunPowers()
    ensures Pow2(0) == 1 && Pow2(1) == 2 && Pow2(3) == 8 && Pow2(11) == 0x800 && Pow2(13) == 0x2000
    ensures Pow2(14) == 0x4000 && Pow2(15) == 0x8000 && Pow2(17) == 0x2_0000 && Pow2(22) == 0x40_0000
    ensures Pow2(23) == 0x80_0000 && Pow2(24) == 0x100_0000
  {
  }

  /** The ones of a known mask word lie where Ones says. */
  lemma MaskOnes(word: nat, j: nat)
    requires KnownMask(word) && j < 25
    ensures Bit(word, 24 - j) <==> In(Ones(word).0, Ones(word).1, j)
  {
    hide Bit, Pow2;
    RunPowers();
    BitZero(24 - j);
    if word != 0 {
      var (s, m) := Ones(word);
      RunOfOnes(word, m, 25 - (s + m), 24 - j);
    }
  }

  /* ---------- The opcode and the room ---------- */

  lemma HighBit(x: nat, k: nat, d: nat)
    requires x < Pow2(k) && d >= k
    ensures !Bit(x, d)
  {
    LowId(x, k);
    BitLow(x, k, d);
  }

  /** The length prefix and the eight opcode bits. */
  predicate OpcodeBit(op: nat, len: nat, p: nat) {
    if len == 1 then 1 <= p <= 8 && Bit(op, 8 - p)
    else p == 0 || (p == 1 && len == 4) || (2 <= p <= 9 && Bit(op, 9 - p))
  }

  lemma OpcodeWordBit(op: nat, len: nat, p: nat)
    requires op < 256 && ValidLen(len)
    ensures WordBit(0, OpcodeWord(op, len), p) <==> OpcodeBit(op, len, p)
  {
    hide Bit, Pow2, Or, Shl;
    if p < 25 {
      var d := 24 - p;
      RunPowers();
      assert Pow2(8) == 256 by { Pow2s(); }
      if d >= 23 { HighBit(op, 8, d - 15); }
      if d >= 24 { HighBit(op, 8, d - 16); }
      BitShl(op, 15, d);
      BitShl(op, 16, d);
      BitOr(0x100_0000, Shl(op, 15), d);
      BitOr(Or(0x100_0000, Shl(op, 15)), 0x80_0000, d);
      RunOfOnes(0x100_0000, 1, 24, d);
      RunOfOnes(0x80_0000, 1, 23, d);
    }
  }

  lemma RoomBitAt(ins: Instr, p: nat)
    requires WellFormed(ins)
    ensures RoomBit(ins, p) <==>
            ins.pop.None? && FormOf(ins).optArgs && ins.len > 1 && 10 <= p < FirstFree(ins.len, true)
  {
    hide Bit, Pow2;
    RunPowers();
    WordBitAt(0, 0x7fff, p);
    if p < 25 { RunOfOnes(0x7fff, 15, 0, 24 - p); }
    if 25 <= p < 50 {
      RunOfOnes(0x1c0_0000, 3, 22, 49 - p);
      RunOfOnes(0x1ff_c000, 11, 14, 49 - p);
    }
  }

  lemma MaskBitAt(f: Layout, n: nat, len: nat, w: nat, p: nat)
    requires FormOk(f, len, n) && w < 4 && WordBit(w, f.mask[w], p)
    ensures In(25 * w + Ones(f.mask[w]).0, Ones(f.mask[w]).1, p)
    ensures f.mask[w] != 0 && FirstFree(len, f.optArgs) <= p < 25 * len
    ensures NoneIn(f.locs, n, 25 * w + Ones(f.mask[w]).0, Ones(f.mask[w]).1)
  {
    hide AllApart, LocsFit, NoneIn, DiscQuiet;
    WordBitAt(w, f.mask[w], p);
    BitZero(24 - (p - 25 * w));
    assert MaskOk(f, n, len, w);
    assert KnownMask(f.mask[w]);
    MaskOnes(f.mask[w], p - 25 * w);
  }

  /* ---------- The main operation ---------- */

  function Id(ins: Instr): LayoutId
    requires WellFormed(ins)
  {
    LayoutFor(ins.row, ins.len)
  }

  /** The explicit NO_ARGS operand, which the NOP layout also takes. */
  predicate NopWithArg(ins: Instr)
    requires WellFormed(ins)
  {
    Id(ins) == L_NOP && ins.operands != []
  }

  function RoomEnd(ins: Instr): nat
    requires WellFormed(ins)
  {
    FirstFree(ins.len, FormOf(ins).optArgs)
  }

  lemma RowLayout(ins: Instr)
    requires WellFormed(ins) && GoodRow(ins.row)
    ensures FitsLen(Id(ins), ins.len) && Id(ins) != L_NONE
    ensures ins.row.swap ==> Swappable(Id(ins))
  {
    assert ins.row.layouts[LenIndex(ins.len)] == Id(ins);
  }

  lemma MainFormOk(ins: Instr)
    requires Assembles(ins) && GoodRow(ins.row) && !NopWithArg(ins)
    ensures FormOk(FormOf(ins), ins.len, |FormOf(ins).locs|)
  {
    hide FirstRow;
    RowLayout(ins);
    if Id(ins) == L_NOP {
      assert FormOf(ins).locs == [];
    } else {
      hide FormOk, OpLayouts;
      FormIsOk(Id(ins), ins.k);
    }
  }

  lemma MainFramed(ins: Instr)
    requires Assembles(ins) && GoodRow(ins.row) && !NopWithArg(ins)
    ensures Framed(MainOp(ins), RoomEnd(ins), 25 * ins.len)
  {
    hide FirstRow, OpLayouts;
    MainFormOk(ins);
    RowLayout(ins);
    if ins.row.swap { SwappablePaired(Id(ins), ins.k); }
  }

  /** The discriminator that reuses the lowest opcode bit. */
  predicate SharedDisc(f: Layout, p: nat) { f.discStart == 9 && DiscBit(f, p) }

  lemma NopForm(k: nat)
    requires k < |OpLayouts(L_NOP)|
    ensures OpLayouts(L_NOP)[k] == Layout(0, 0, 0, [Loc(9, 1, 0, 0, Stk(NOP_ARG), DirNone, false)], [0, 0, 0, 0], true)
  {
  }

  lemma NopArgIsZero(ins: Instr, p: nat)
    requires Assembles(ins) && NopWithArg(ins)
    ensures !SlotsBit(Slots(MainOp(ins)), p) && !MaskBit(FormOf(ins), p)
    ensures FormOf(ins).optArgs && FormOf(ins).discBits == 0
  {
    hide FirstRow, Bit, OpLayouts;
    NopForm(ins.k);
    var ss := Slots(MainOp(ins));
    assert |ss| == 1 && AcceptsAt(MainOp(ins), 0);
    assert ss[0].val == 0;
    forall d: nat
      ensures !Bit(0, d)
    {
      BitZero(d);
    }
  }

  /** Below the room's end the main operation has only its opcode and, without a parallel
      operation, the ones that fill the room. */
  lemma MainHead(ins: Instr, p: nat)
    requires Assembles(ins) && GoodRow(ins.row) && p < RoomEnd(ins)
    ensures MainBit(ins, p) <==>
            OpcodeBit(ins.row.op, ins.len, p) || RoomBit(ins, p) || SharedDisc(FormOf(ins), p)
    ensures FormOf(ins).optArgs ==> !SharedDisc(FormOf(ins), p)
  {
    hide FirstRow, OpLayouts, AllApart, LocsFit, NoneIn, RoomBit, Bit;
    OpcodeWordBit(ins.row.op, ins.len, p);
    if NopWithArg(ins) {
      NopArgIsZero(ins, p);
    } else {
      MainFormOk(ins);
      MainFramed(ins);
      if SlotsBit(Slots(MainOp(ins)), p) { SlotsInside(MainOp(ins), RoomEnd(ins), 25 * ins.len, p); }
      if MaskBit(FormOf(ins), p) {
        var w :| 0 <= w < 4 && WordBit(w, FormOf(ins).mask[w], p);
        MaskBitAt(FormOf(ins), |FormOf(ins).locs|, ins.len, w, p);
      }
      assert DiscQuiet(FormOf(ins), ins.len, |FormOf(ins).locs|);
    }
  }

  /** A constant run of ones never meets an operand's field. */
  lemma MainConstants(ins: Instr, i: nat, p: nat)
    requires Assembles(ins) && GoodRow(ins.row) && !NopWithArg(ins)
    requires i < |ins.operands| && InLoc(LocOf(MainOp(ins), i), p)
    ensures RoomEnd(ins) <= p < 25 * ins.len
    ensures MainBit(ins, p) <==> SlotsBit(Slots(MainOp(ins)), p)
  {
    hide FirstRow, OpLayouts, AllApart, LocsFit, NoneIn, RoomBit, Bit, SlotsBit;
    var o, f := MainOp(ins), FormOf(ins);
    MainFormOk(ins);
    MainFramed(ins);
    LocInside(o, RoomEnd(ins), 25 * ins.len, i, p);
    OpcodeWordBit(ins.row.op, ins.len, p);
    RoomBitAt(ins, p);
    if DiscBit(f, p) {
      assert DiscQuiet(f, ins.len, |f.locs|);
      BitZero(f.discStart + f.discBits - 1 - p);
      LocMiss(o, RoomEnd(ins), 25 * ins.len, f.discStart, f.discBits, i, p);
    }
    if MaskBit(f, p) {
      var w :| 0 <= w < 4 && WordBit(w, f.mask[w], p);
      MaskBitAt(f, |f.locs|, ins.len, w, p);
      LocMiss(o, RoomEnd(ins), 25 * ins.len, 25 * w + Ones(f.mask[w]).0, Ones(f.mask[w]).1, i, p);
    }
  }
}
