/** create_op_words: the assembler builds an instruction by or-ing its parts into a buffer
    of four words. */
module Assembler {
  import opened Bits
  import opened OpWords
  import opened Operands
  import opened Layouts
  import opened Fields
  import opened OperandFields
  import opened Tables
  import opened Instructions
  import opened Regions
  import opened ParallelRows
  import opened Disassembler

  /** The words have ones at these flat positions only. */
  ghost predicate Holds(words: seq<nat>, ones: set<nat>) {
    forall k, j: nat :: 0 <= k < |words| ==> (Bit(words[k], j) <==> j < 25 && 25 * k + 24 - j in ones)
  }

  lemma HeldFlat(words: seq<nat>, ones: set<nat>, p: nat)
    requires Holds(words, ones) && p < 25 * |words|
    ensures Flat(words, p) <==> p in ones
  {
    assert 25 * (p / 25) + 24 - (24 - p % 25) == p;
  }

  lemma HeldBound(words: seq<nat>, ones: set<nat>, k: nat)
    requires Holds(words, ones) && k < |words|
    ensures words[k] < Pow2(25)
  {
    forall j: nat
      ensures Bit(words[k], j) == Bit(Low(words[k], 25), j)
    {
      BitLow(words[k], 25, j);
    }
    BitsExt(words[k], Low(words[k], 25));
    LowBound(words[k], 25);
  }

  /** set_bits_in_op_words */
  method SetField(buf: array<nat>, ghost ones: set<nat>, start: nat, len: nat, val: nat)
    returns (ghost ones': set<nat>)
    requires buf.Length == 4 && start + len <= 100 && Holds(buf[..], ones)
    modifies buf
    ensures Holds(buf[..], ones')
    ensures forall p: nat :: p < 100 ==> (p in ones' <==> p in ones || Covers(Write(start, len, val), p))
  {
    hide Bit;
    ghost var w := Write(start, len, val);
    ghost var before := buf[..];
    SetBitsInOpWords(buf, start, len, val);
    ones' := ones + set p: nat | p < 100 && Covers(w, p);
    forall k, j: nat | 0 <= k < 4
      ensures Bit(buf[..][k], j) <==> j < 25 && 25 * k + 24 - j in ones'
    {
      assert Bit(before[k], j) <==> j < 25 && 25 * k + 24 - j in ones;
    }
  }

  /** buf[k] |= c */
  method OrWord(buf: array<nat>, ghost ones: set<nat>, k: nat, c: nat) returns (ghost ones': set<nat>)
    requires buf.Length == 4 && k < 4 && Holds(buf[..], ones)
    requires forall j: nat :: j >= 25 ==> !Bit(c, j)
    modifies buf
    ensures Holds(buf[..], ones')
    ensures forall p: nat :: p < 100 ==> (p in ones' <==> p in ones || WordBit(k, c, p))
  {
    hide Bit, Or;
    ghost var before := buf[..];
    buf[k] := Or(buf[k], c);
    ones' := ones + set p: nat | p < 100 && WordBit(k, c, p);
    forall i, j: nat | 0 <= i < 4
      ensures Bit(buf[..][i], j) <==> j < 25 && 25 * i + 24 - j in ones'
    {
      assert Bit(before[i], j) <==> j < 25 && 25 * i + 24 - j in ones;
      BitOr(before[k], c, j);
    }
  }

  /** set_op_operand, once the value is fixed up: the high part of the value goes to the
      first field, the low part to the second. */
  method SetOpOperand(buf: array<nat>, ghost ones: set<nat>, a: Loc, val: nat) returns (ghost ones': set<nat>)
    requires buf.Length == 4 && a.start1 + a.bits1 <= 100 && (a.bits2 > 0 ==> a.start2 + a.bits2 <= 100)
    requires Holds(buf[..], ones)
    modifies buf
    ensures Holds(buf[..], ones')
    ensures forall p: nat :: p < 100 ==> (p in ones' <==> p in ones || SlotBit(Slot(a, val), p))
  {
    hide Bit, Low, Shr;
    var high := Low(Shr(val, a.bits2), a.bits1);
    ones' := SetField(buf, ones, a.start1, a.bits1, high);
    MaskedCovers(a.start1, a.bits1, Shr(val, a.bits2));
    if a.bits2 > 0 {
      var low := Low(val, a.bits2);
      ones' := SetField(buf, ones', a.start2, a.bits2, low);
      MaskedCovers(a.start2, a.bits2, val);
    }
  }

  /** Masking a value to its field first makes no difference. */
  lemma MaskedCovers(start: nat, len: nat, val: nat)
    ensures forall p: nat :: Covers(Write(start, len, Low(val, len)), p) <==> Covers(Write(start, len, val), p)
  {
    forall p: nat
      ensures Covers(Write(start, len, Low(val, len)), p) <==> Covers(Write(start, len, val), p)
    {
      if start <= p < start + len { BitLow(val, len, start + len - 1 - p); }
    }
  }

  /** One of the first n operands puts a one at position p. */
  ghost predicate FirstSlotsBit(o: Operation, n: nat, p: nat)
    requires Shaped(o) && n <= |o.operands|
  {
    exists j :: 0 <= j < n && SlotBit(SlotOf(o, j), p)
  }

  lemma FirstSlotsStep(o: Operation, i: nat)
    requires Shaped(o) && i < |o.operands|
    ensures forall p: nat :: FirstSlotsBit(o, i + 1, p) <==> FirstSlotsBit(o, i, p) || SlotBit(SlotOf(o, i), p)
  {
    hide SlotBit, SlotOf;
  }

  lemma AllSlots(o: Operation)
    requires Shaped(o)
    ensures forall p: nat :: FirstSlotsBit(o, |o.operands|, p) <==> SlotsBit(Slots(o), p)
    ensures forall p: nat :: !FirstSlotsBit(o, 0, p)
  {
    hide SlotBit, SlotOf;
    forall p: nat
      ensures FirstSlotsBit(o, |o.operands|, p) <==> SlotsBit(Slots(o), p)
    {
      var ss := Slots(o);
      if FirstSlotsBit(o, |o.operands|, p) {
        var j :| 0 <= j < |o.operands| && SlotBit(SlotOf(o, j), p);
        assert SlotBit(ss[j], p);
      }
      if SlotsBit(ss, p) {
        var j :| 0 <= j < |ss| && SlotBit(ss[j], p);
        assert SlotBit(SlotOf(o, j), p);
      }
    }
  }

  /** The operands' values are rewritten in place and written one by one; a relative operand
      is measured from the value its base operand has by then. */
  method SetOperands(buf: array<nat>, ghost ones: set<nat>, o: Operation, ghost lo: nat, ghost hi: nat)
    returns (ghost ones': set<nat>)
    requires buf.Length == 4 && Framed(o, lo, hi) && hi <= 100 && Holds(buf[..], ones)
    modifies buf
    ensures Holds(buf[..], ones')
    ensures forall p: nat :: p < 100 ==> (p in ones' <==> p in ones || SlotsBit(Slots(o), p))
  {
    hide Bit, Low, Shr, AllApart, LocsFit, Covers, FirstSlotsBit, SlotsBit, SlotBit, FixedVal, WideFixed;
    var vals := new nat[8];
    ones' := ones;
    var n := |o.operands|;
    AllSlots(o);
    for i := 0 to n
      modifies buf, vals
      invariant Holds(buf[..], ones')
      invariant forall j :: 0 <= j < i ==> vals[j] == ValueOf(o, j)
      invariant forall p: nat :: p < 100 ==>
                  (p in ones' <==> p in ones || FirstSlotsBit(o, i, p))
    {
      var a := o.form.locs[if !o.swap then i else if i % 2 == 1 then i - 1 else i + 1];
      assert a == LocOf(o, i);
      if Relative(a.ty) {
        RelativeOfPlain(o, lo, hi, i);
        vals[i] := WideFixed(a.ty.w, TokenVal(o.operands[i]), vals[i - BaseDistance(a.ty)]);
      } else {
        vals[i] := FixedVal(a.ty, o.operands[i], NoArgs, o.mdfr);
        BaseUnused(a.ty, o.operands[i], BaseOf(o, i), o.mdfr);
      }
      SlotFits(o, lo, hi, i);
      ones' := SetOpOperand(buf, ones', a, vals[i]);
      FirstSlotsStep(o, i);
    }
  }

  /** A relative operand stands a fixed distance after its base, which is not rewritten. */
  lemma RelativeOfPlain(o: Operation, lo: nat, hi: nat, i: nat)
    requires Framed(o, lo, hi) && i < |o.operands| && Relative(LocOf(o, i).ty)
    ensures var d := BaseDistance(LocOf(o, i).ty);
            d <= i && ValueOf(o, i - d) == TokenVal(o.operands[i - d]) &&
            ValueOf(o, i) == WideFixed(LocOf(o, i).ty.w, TokenVal(o.operands[i]), ValueOf(o, i - d))
  {
    DescInRange(i, o.swap, |o.operands|);
    if o.swap { PairedAt(o.form.locs, |o.form.locs|, DescIndex(i, o.swap)); }
    RelativeBase(o.form.locs, |o.form.locs|, lo, hi, i);
  }

  lemma BaseUnused(ty: OperandType, o: Operand, base: Operand, mdfr: SrcMdfr)
    requires !Relative(ty)
    ensures FixedVal(ty, o, base, mdfr) == FixedVal(ty, o, NoArgs, mdfr)
  {
  }

  lemma WordPower()
    ensures Pow2(25) == 0x200_0000
  {
    RunPowers();
  }

  /** No bit of a 25-bit constant lies above the word. */
  lemma FitsWord(c: nat)
    requires c < 0x200_0000
    ensures forall j: nat :: j >= 25 ==> !Bit(c, j)
  {
    hide Pow2, Bit;
    WordPower();
    forall j: nat | j >= 25
      ensures !Bit(c, j)
    {
      HighBit(c, 25, j);
    }
  }

  lemma OpcodeFits(op: nat, len: nat)
    requires op < 256
    ensures OpcodeWord(op, len) < 0x200_0000 && Shl(op, 9) < 0x200_0000
  {
    hide Or, Shl;
    ShlIsTimes(op, 15);
    ShlIsTimes(op, 16);
    ShlIsTimes(op, 9);
    RunPowers();
    assert Pow2(25) == 0x200_0000 && Pow2(16) == 0x1_0000 && Pow2(9) == 0x200;
    OrBound(0x100_0000, Shl(op, 15), 25);
    OrBound(Or(0x100_0000, Shl(op, 15)), 0x80_0000, 25);
  }

  lemma OneBit(m: nat, p: nat)
    ensures Covers(Write(m, 1, 1), p) <==> p == m
  {
  }

  /** The masks of every form are words. */
  lemma MasksFit(ins: Instr)
    requires Assembles(ins) && GoodRow(ins.row)
    ensures |FormOf(ins).mask| == 4 && forall w :: 0 <= w < 4 ==> FormOf(ins).mask[w] < 0x200_0000
    ensures ins.operands == [] ==> FormOf(ins).mask == [0, 0, 0, 0]
    ensures FormOf(ins).discStart + FormOf(ins).discBits <= 100
  {
    hide FirstRow, OpLayouts, AcceptsAt, AllApart, LocsFit, NoneIn;
    if Id(ins) == L_NOP {
      NopForm(ins.k);
    } else {
      RowLayout(ins);
      MainFormOk(ins);
      var f := FormOf(ins);
      forall w | 0 <= w < 4
        ensures f.mask[w] < 0x200_0000
      {
        assert MaskOk(f, |f.locs|, ins.len, w);
        assert KnownMask(f.mask[w]);
      }
    }
  }

  /** The operands' fields, whichever form: the explicit NO_ARGS operand has one too. */
  lemma SomeFrame(ins: Instr) returns (lo: nat, hi: nat)
    requires Assembles(ins) && GoodRow(ins.row)
    ensures hi <= 100 && Framed(MainOp(ins), lo, hi)
  {
    hide FirstRow, OpLayouts, AcceptsAt;
    if NopWithArg(ins) {
      NopForm(ins.k);
      RowLayout(ins);
      lo, hi := 9, 10;
      assert LocsFit(MainOp(ins).form.locs, 1, 9, 10) && AllApart(MainOp(ins).form.locs, 1);
    } else {
      MainFramed(ins);
      lo, hi := RoomEnd(ins), 25 * ins.len;
    }
  }

  /** The main operation's part of create_op_words. */
  method WriteMain(buf: array<nat>, ins: Instr) returns (ghost ones: set<nat>)
    requires buf.Length == 4 && buf[..] == [0, 0, 0, 0]
    requires Assembles(ins) && GoodRow(ins.row)
    modifies buf
    ensures Holds(buf[..], ones)
    ensures forall p: nat :: p < 100 ==> (p in ones <==> MainBit(ins, p))
  {
    hide Bit, Or, Shl, Low, Shr, OpcodeWord, FirstRow, OpLayouts, Accepted, AllApart, LocsFit, PRows, GoodRow, Covers;
    hide SlotsBit, Slots;
    var f := FormOf(ins);
    ones := {};
    assert Holds(buf[..], ones) by { ZeroHolds(buf[..]); }
    OpcodeFits(ins.row.op, ins.len);
    FitsWord(OpcodeWord(ins.row.op, ins.len));
    ones := OrWord(buf, ones, 0, OpcodeWord(ins.row.op, ins.len));
    if ins.pop.None? && f.optArgs {
      FitsWord(0x7fff);
      FitsWord(0x1c0_0000);
      FitsWord(0x1ff_c000);
      if ins.len == 2 {
        ones := OrWord(buf, ones, 0, 0x7fff);
        ones := OrWord(buf, ones, 1, 0x1c0_0000);
      } else if ins.len == 4 {
        ones := OrWord(buf, ones, 0, 0x7fff);
        ones := OrWord(buf, ones, 1, 0x1ff_c000);
      }
    }
    assert forall p: nat :: p < 100 ==>
             (p in ones <==> WordBit(0, OpcodeWord(ins.row.op, ins.len), p) || RoomBit(ins, p));
    hide RoomBit;
    MasksFit(ins);
    ones := SetField(buf, ones, f.discStart, f.discBits, f.discVal);
    ghost var before := ones;
    if ins.operands != [] {
      for w := 0 to 4
        modifies buf
        invariant Holds(buf[..], ones)
        invariant forall p: nat :: p < 100 ==>
                    (p in ones <==> p in before || exists u :: 0 <= u < w && WordBit(u, f.mask[u], p))
      {
        FitsWord(f.mask[w]);
        ones := OrWord(buf, ones, w, f.mask[w]);
      }
    } else {
      NoMask(f);
    }
    assert forall p: nat :: p < 100 ==> (p in ones <==> p in before || MaskBit(f, p));
    hide MaskBit;
    ghost var lo, hi := SomeFrame(ins);
    ones := SetOperands(buf, ones, MainOp(ins), lo, hi);
  }

  lemma ZeroHolds(words: seq<nat>)
    requires words == [0, 0, 0, 0]
    ensures Holds(words, {})
  {
    forall j: nat
      ensures !Bit(0, j)
    {
      BitZero(j);
    }
  }

  lemma NoMask(f: Layout)
    requires f.mask == [0, 0, 0, 0]
    ensures forall p: nat :: !MaskBit(f, p)
  {
    hide Bit;
    forall j: nat
      ensures !Bit(0, j)
    {
      BitZero(j);
    }
  }

  /** And the parallel operation's part. */
  method WritePop(buf: array<nat>, ghost before: set<nat>, ins: Instr) returns (ghost ones: set<nat>)
    requires buf.Length == 4 && Holds(buf[..], before)
    requires Assembles(ins) && Selected(ins) && Shaped(ParOp(ins))
    modifies buf
    ensures Holds(buf[..], ones)
    ensures forall p: nat :: p < 100 ==> (p in ones <==> p in before || ParBit(ins, p))
  {
    hide Bit, Or, Shl, Low, Shr, FirstRow, OpLayouts, POpLayouts, Accepted, AllApart, LocsFit, NoneIn, PRows, Covers;
    hide SlotsBit, Slots, PRowClear;
    var row, f := PRowOf(ins), ParOp(ins).form;
    assert row.op < 64 && row.mdfrBit < 28 && (ins.len == 2 || ins.len == 4);
    ParFormOk(ins);
    OpcodeFits(row.op, ins.len);
    FitsWord(Shl(row.op, 9));
    ones := OrWord(buf, before, 0, Shl(row.op, 9));
    if ins.pop.value.useAlt && row.mdfrBit != 0 {
      ones := SetField(buf, ones, row.mdfrBit, 1, 1);
      forall p: nat
        ensures Covers(Write(row.mdfrBit, 1, 1), p) <==> p == row.mdfrBit
      {
        OneBit(row.mdfrBit, p);
      }
    }
    ones := SetField(buf, ones, f.discStart, f.discBits, f.discVal);
    ones := SetOperands(buf, ones, ParOp(ins), LowField(row.layout), PRoomEnd(ins));
  }

  /** create_op_words */
  method CreateOpWords(ins: Instr) returns (opWords: seq<nat>)
    requires Assembles(ins) && GoodRow(ins.row)
    ensures Encodes(opWords, ins)
  {
    hide Bit, MainBit, ParBit, FirstRow, OpLayouts, POpLayouts, Accepted, PRows, Holds, Flat, GoodRow, Selected;
    var buf := new nat[4][0, 0, 0, 0];
    ghost var ones := WriteMain(buf, ins);
    if ins.pop.Some? {
      SelectedRow(ins);
      SelectedFacts(ins);
      ones := WritePop(buf, ones, ins);
    }
    opWords := buf[..];
    forall p: nat | p < 25 * ins.len
      ensures Flat(opWords, p) <==> InstrBit(ins, p)
    {
      HeldFlat(opWords, ones, p);
    }
    forall w | 0 <= w < ins.len
      ensures opWords[w] < Pow2(25)
    {
      HeldBound(opWords, ones, w);
    }
  }
}
