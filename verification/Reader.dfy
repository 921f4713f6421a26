/** The disassembler at work: it reads a program word by word into a buffer it reuses, and
    lists one instruction at a time. */
module Reader {
  import opened Bits
  import opened OpWords
  import opened Operands
  import opened Layouts
  import opened Fields
  import opened OperandFields
  import opened Tables
  import opened Instructions
  import opened ParallelRows
  import opened Disassembler

  /** operand_data: what is printed of one operand, and whether a ':' follows it. */
  datatype OperandData = OperandData(operand: Operand, end: bool)

  /** An instruction as it was found: its address and the word buffer. */
  datatype Item = Item(addr: nat, words: seq<nat>)

  /** The buffer after n words are read over it. */
  function Filled(cur: seq<nat>, pmem: seq<nat>, n: nat): (r: seq<nat>)
    requires |cur| == 4 && n <= 4 && n <= |pmem|
    ensures |r| == 4
  {
    pmem[..n] + cur[n..]
  }

  /** get_dsp_op, until the words run out: a long instruction needs at least its second
      word; words it lacks beyond that are left over from earlier instructions. */
  function Items(pmem: seq<nat>, cur: seq<nat>, addr: nat): (r: seq<Item>)
    requires |cur| == 4
    ensures forall i :: 0 <= i < |r| ==> |r[i].words| == 4
    decreases |pmem|
  {
    if pmem == [] then []
    else
      var len := OpLen(pmem[0]);
      var n := Min(len, |pmem|);
      if len > 1 && n == 1 then []
      else
        var words := Filled(cur, pmem, n);
        [Item(addr, words)] + Items(pmem[n..], words, addr + len)
  }

  lemma ItemsStep(pmem: seq<nat>, cur: seq<nat>, addr: nat)
    requires |cur| == 4
    ensures pmem == [] ==> Items(pmem, cur, addr) == []
    ensures pmem != [] ==>
              var len := OpLen(pmem[0]);
              var n := Min(len, |pmem|);
              1 <= n <= 4 &&
              if len > 1 && n == 1 then Items(pmem, cur, addr) == []
              else
                |Items(pmem, cur, addr)| > 0 && Items(pmem, cur, addr)[0] == Item(addr, Filled(cur, pmem, n)) &&
                Items(pmem, cur, addr)[1..] == Items(pmem[n..], Filled(cur, pmem, n), addr + len)
  {
    hide Bit, Filled;
  }

  /** The first word is read before the others. */
  lemma FilledInTwo(cur: seq<nat>, pmem: seq<nat>, n: nat)
    requires |cur| == 4 && 1 <= n <= 4 && n <= |pmem|
    ensures var first := Filled(cur, pmem, 1);
            first[..1] + pmem[1..n] + first[n..] == Filled(cur, pmem, n)
  {
  }

  /** The buffer with n words of the program from word `start` on. */
  function Overlaid(cur: seq<nat>, start: nat, pmem: seq<nat>, at: nat, n: nat): (r: seq<nat>)
    requires start + n <= |cur| && at + n <= |pmem|
    ensures |r| == |cur|
  {
    cur[..start] + pmem[at..at + n] + cur[start + n..]
  }

  lemma OverlaidStep(cur: seq<nat>, start: nat, pmem: seq<nat>, at: nat, n: nat)
    requires start + n < |cur| && at + n < |pmem|
    ensures Overlaid(cur, start, pmem, at, n)[start + n := pmem[at + n]] == Overlaid(cur, start, pmem, at, n + 1)
  {
  }

  lemma OverlaidIs(cur: seq<nat>, start: nat, pmem: seq<nat>, at: nat, n: nat)
    requires start + n <= |cur| && at + n <= |pmem|
    ensures Overlaid(cur, start, pmem, at, 0) == cur
    ensures Overlaid(cur, start, pmem, at, n) == cur[..start] + pmem[at..at + n] + cur[start + n..]
  {
  }

  lemma LocReadable(words: seq<nat>, form: Layout, swap: bool, i: nat)
    requires Readable(words, form, swap) && i < |form.locs|
    ensures var a := form.locs[i];
            a.start1 + a.bits1 <= 25 * |words| && (a.bits2 > 0 ==> a.start2 + a.bits2 <= 25 * |words|)
  {
  }

  lemma EvenWhenSwapped(words: seq<nat>, form: Layout, swap: bool)
    requires Readable(words, form, swap) && swap
    ensures |form.locs| % 2 == 0
  {
  }

  lemma PlainShown(words: seq<nat>, form: Layout, mdfr: SrcMdfr, i: nat)
    requires Readable(words, form, false) && i < |form.locs|
    ensures var a := form.locs[i];
            ReadOperands(words, form, false, mdfr)[i] ==
            Decode(a.ty, ReadLoc(words, a), if a.dir == DirSrc || a.dir == DirX || a.dir == DirY then mdfr else MdfrNone)
  {
    hide Decode, ReadLoc;
  }

  /** The destination's field holds the source, and the other way round. */
  lemma SwappedShown(words: seq<nat>, form: Layout, mdfr: SrcMdfr, i: nat)
    requires Readable(words, form, true) && i < |form.locs| && Paired(form.locs, |form.locs|)
    ensures var a := form.locs[i];
            if i % 2 == 0 then
              a.dir == DirDst && i + 1 < |form.locs| && !a.end &&
              ReadOperands(words, form, true, mdfr)[i + 1] == Decode(a.ty, ReadLoc(words, a), mdfr)
            else
              a.dir == DirSrc && !form.locs[i - 1].end &&
              ReadOperands(words, form, true, mdfr)[i - 1] == Decode(a.ty, ReadLoc(words, a), MdfrNone)
  {
    hide Decode, ReadLoc;
    PairedAt(form.locs, |form.locs|, i);
    if i % 2 == 1 { PairedAt(form.locs, |form.locs|, i - 1); }
  }

  /** dsp_main */
  class DspMain {
    const pmem: seq<nat>
    var position: nat
    const curOp: array<nat>
    var curOpLen: nat
    var curAddr: nat

    ghost predicate Valid()
      reads this, curOp
    {
      curOp.Length == 4 && position <= |pmem|
    }

    /** What is still to be listed. */
    ghost function Rest(): seq<Item>
      requires Valid()
      reads this, curOp
    {
      Items(pmem[position..], curOp[..], curAddr)
    }

    constructor (pmem: seq<nat>)
      ensures Valid() && fresh(curOp) && this.pmem == pmem && position == 0
      ensures curOp[..] == [0, 0, 0, 0] && Rest() == Items(pmem, [0, 0, 0, 0], 0)
    {
      this.pmem := pmem;
      position, curOpLen, curAddr := 0, 0, 0;
      curOp := new nat[4][0, 0, 0, 0];
      new;
      assert pmem[0..] == pmem && curOp[..] == [0, 0, 0, 0];
    }

    /** get_op_operand */
    method GetOpOperand(a: Loc) returns (operand: nat)
      requires curOp.Length == 4 && a.start1 + a.bits1 <= 100 && (a.bits2 > 0 ==> a.start2 + a.bits2 <= 100)
      ensures operand == ReadLoc(curOp[..], a)
    {
      operand := GetBitsInOpWords(curOp, a.start1, a.bits1);
      if a.bits2 > 0 {
        var tmp := GetBitsInOpWords(curOp, a.start2, a.bits2);
        FieldValueBound(curOp[..], a.start2, a.bits2);
        ShlIsTimes(operand, a.bits2);
        OrAdd(operand, tmp, a.bits2);
        operand := Or(Shl(operand, a.bits2), tmp);
      }
    }

    /** get_op_operands: operands of swapped forms go to their neighbour's place. */
    method GetOpOperands(form: Layout, swap: bool, mdfr: SrcMdfr) returns (operands: seq<OperandData>)
      requires curOp.Length == 4 && Listable(curOp[..], form, swap)
      ensures |operands| == |form.locs|
      ensures forall i :: 0 <= i < |operands| ==>
                operands[i] == OperandData(ReadOperands(curOp[..], form, swap, mdfr)[i], form.locs[i].end)
    {
      hide Paired, Decode, ReadLoc, ReadOperands, ShownMdfr, Readable;
      ghost var words := curOp[..];
      ghost var shown := ReadOperands(words, form, swap, mdfr);
      if swap { EvenWhenSwapped(words, form, swap); }
      var cnt := |form.locs|;
      var data := new OperandData[8](i => OperandData(NoArgs, false));
      for i := 0 to cnt
        invariant words == curOp[..]
        invariant forall j :: 0 <= j < (if swap then i - i % 2 else i) ==>
                    data[j] == OperandData(shown[j], form.locs[j].end)
        invariant swap && i % 2 == 1 ==> data[i].operand == shown[i]
      {
        var a := form.locs[i];
        LocReadable(words, form, swap, i);
        var val := GetOpOperand(a);
        if swap {
          SwappedShown(words, form, mdfr, i);
          if a.dir == DirDst {
            data[i + 1] := OperandData(Decode(a.ty, val, mdfr), a.end);
          } else {
            data[i] := data[i].(end := a.end);
            data[i - 1] := OperandData(Decode(a.ty, val, MdfrNone), false);
          }
        } else {
          PlainShown(words, form, mdfr, i);
          var shownMdfr := if a.dir == DirSrc || a.dir == DirX || a.dir == DirY then mdfr else MdfrNone;
          data[i] := OperandData(Decode(a.ty, val, shownMdfr), a.end);
        }
      }
      operands := data[..cnt];
    }

    /** The operands are listed in order, with a ':' after the one that ends a half. */
    method PrintOp(name: string, form: Layout, swap: bool, mdfr: SrcMdfr) returns (shown: Shown)
      requires curOp.Length == 4 && Listable(curOp[..], form, swap)
      ensures shown == Shown(name, SplitOf(form.locs), ReadOperands(curOp[..], form, swap, mdfr))
    {
      hide ReadOperands, Readable, Paired;
      var data := GetOpOperands(form, swap, mdfr);
      var split, operands := 0, [];
      for i := 0 to |data|
        invariant operands == ReadOperands(curOp[..], form, swap, mdfr)[..i]
        invariant if split == 0 then FirstEnd(form.locs, 0) == FirstEnd(form.locs, i)
                  else FirstEnd(form.locs, 0) == split - 1 < i
      {
        operands := operands + [data[i].operand];
        if data[i].end && split == 0 { split := i + 1; }
      }
      shown := Shown(name, split, operands);
    }

    /** The search for the form whose discriminator matches. */
    method ChooseForm(forms: seq<Layout>) returns (k: nat)
      requires curOp.Length == 4 && forms != [] && DiscsIn(forms, 100)
      ensures k < |forms| && k == Choose(curOp[..], forms, 0)
    {
      hide FieldValue;
      k := 0;
      for i := 0 to |forms|
        invariant k == if i == 0 then 0 else i - 1
        invariant i == 0 || i < |forms| ==> Choose(curOp[..], forms, 0) == Choose(curOp[..], forms, i)
        invariant i > 0 && i == |forms| ==> Choose(curOp[..], forms, 0) == i - 1
      {
        k := i;
        var f := forms[i];
        if f.discBits == 0 { return; }
        var tmp := GetBitsInOpWords(curOp, f.discStart, f.discBits);
        if f.discVal == tmp { return; }
      }
    }

    /** get_dsp_p_op_info */
    method GetDspPOpInfo(op: nat) returns (row: Option<nat>)
      requires curOpLen == 2 || curOpLen == 4
      ensures row == FindPRow(PRows(curOpLen), op, 0)
    {
      hide PRows;
      var rows := PRows(curOpLen);
      for i := 0 to |rows|
        invariant FindPRow(rows, op, 0) == FindPRow(rows, op, i)
      {
        if rows[i].op == op { return Some(i); }
      }
      return None;
    }

    /** get_parallel_op_data */
    method GetParallelOpData() returns (shown: Option<Shown>)
      requires curOp.Length == 4 && (curOpLen == 2 || curOpLen == 4)
      ensures shown == ShowParallel(curOp[..], curOpLen)
    {
      hide PRows, POpLayouts, FieldValue, Flat, ReadOperands, Readable, Paired, Choose, FindPRow, SplitOf;
      var val := GetBitsInOpWords(curOp, 10, 6);
      if curOpLen == 2 {
        if val >= 0x3e {
          var b := GetBitsInOpWords(curOp, 16, 1);
          if b == 1 { return None; }
        }
        if val < 0x30 { val := val / 16 % 4 * 16; }
      } else if val == 0x3f {
        var b := GetBitsInOpWords(curOp, 17, 1);
        if b == 1 { return None; }
      }
      var found := GetDspPOpInfo(val);
      if found.None? { return None; }
      var row := PRows(curOpLen)[found.value];
      PFormsAreReadable(curOp[..], curOpLen, found.value);
      var forms := POpLayouts(row.layout);
      var k := ChooseForm(forms);
      var name := row.name;
      if row.mdfrBit != 0 {
        var b := GetBitsInOpWords(curOp, row.mdfrBit, 1);
        OneBit(curOp[..], row.mdfrBit);
        if b == 1 { name := row.alt; }
      }
      var s := PrintOp(name, forms[k], row.swap, MdfrNone);
      return Some(s);
    }

    /** get_op_data */
    method GetOpData(row: OpRow) returns (listing: Listing)
      requires curOp.Length == 4 && GoodRow(row) && ValidLen(curOpLen)
      ensures listing == ShowRow(curOp[..], row, curOpLen)
    {
      hide OpLayouts, FieldValue, Flat, ReadOperands, Readable, Paired, Choose, SplitOf, ShowParallel;
      var id := LayoutFor(row, curOpLen);
      var pop := None;
      if id == L_NONE { return Listing(row.op, curOpLen, Shown(row.name, 0, []), pop); }
      if id == L_NOP {
        if curOpLen > 1 { pop := GetParallelOpData(); }
        return Listing(row.op, curOpLen, Shown(row.name, 0, []), pop);
      }
      FormsAreReadable(curOp[..], row, curOpLen);
      var forms := OpLayouts(id);
      var k := ChooseForm(forms);
      if curOpLen > 1 && forms[k].optArgs { pop := GetParallelOpData(); }
      var main := PrintOp(row.name, forms[k], row.swap, row.mdfr);
      return Listing(row.op, curOpLen, main, pop);
    }

    /** fread into the buffer from word `start` on. */
    method ReadWords(start: nat, n: nat) returns (count: nat)
      requires Valid() && start + n <= 4
      modifies this`position, curOp
      ensures Valid() && count == Min(n, |pmem| - old(position)) && position == old(position) + count
      ensures curOp[..] == old(curOp[..start]) + pmem[old(position)..position] + old(curOp[start + count..])
    {
      hide Overlaid;
      count := Min(n, |pmem| - position);
      ghost var cur := curOp[..];
      OverlaidIs(cur, start, pmem, position, count);
      for i := 0 to count
        modifies curOp
        invariant curOp[..] == Overlaid(cur, start, pmem, position, i)
      {
        OverlaidStep(cur, start, pmem, position, i);
        curOp[start + i] := pmem[position + i];
      }
      position := position + count;
    }

    /** get_dsp_op: false at the end of the program. */
    method GetDspOp() returns (more: bool, op: nat)
      requires Valid()
      modifies this, curOp
      ensures Valid()
      ensures more <==> old(Rest()) != []
      ensures more ==>
                curOp[..] == old(Rest())[0].words && curAddr == old(Rest())[0].addr &&
                curOpLen == OpLen(curOp[0]) && op == OpcodeOf(curOp[0], curOpLen) &&
                Items(pmem[position..], curOp[..], curAddr + curOpLen) == old(Rest())[1..]
    {
      hide OpLen, OpcodeOf, Items;
      ghost var cur, rest := curOp[..], pmem[position..];
      ItemsStep(rest, cur, curAddr);
      more, op := false, 0;
      var count := ReadWords(0, 1);
      if count == 0 { return; }
      assert curOp[..] == Filled(cur, rest, 1);
      assert curOp[0] == rest[0];
      var len := GetDspOpLen(curOp[0]);
      LenIsValid(rest[0]);
      op := OpcodeOf(curOp[0], len);
      if len > 1 {
        count := ReadWords(1, len - 1);
        if count == 0 { return; }
        assert pmem[position - count..position] == rest[1..1 + count];
      }
      assert position == |pmem| - |rest| + Min(len, |rest|);
      FilledInTwo(cur, rest, Min(len, |rest|));
      assert pmem[position..] == rest[Min(len, |rest|)..];
      curOpLen := len;
      more := true;
    }

    /** get_next_op */
    method GetNextOp(table: seq<OpRow>) returns (more: bool, listing: Option<Listing>)
      requires Valid() && GoodTable(table)
      modifies this, curOp
      ensures Valid()
      ensures more <==> old(Rest()) != []
      ensures more ==> Rest() == old(Rest())[1..] && listing == Disassemble(table, old(Rest())[0].words)
    {
      hide OpcodeOf, ShowRow, OpLayouts, GoodRow;
      var op;
      listing := None;
      more, op := GetDspOp();
      if !more { return; }
      LenIsValid(curOp[0]);
      var found := GetDspOpInfo(table, op);
      if found.Some? {
        RowAt(table, found.value);
        var shown := GetOpData(table[found.value]);
        listing := Some(shown);
      }
      curAddr := curAddr + curOpLen;
    }

    /** The loop of the disassembler's main program. */
    method ListProgram(table: seq<OpRow>) returns (listings: seq<Option<Listing>>)
      requires Valid() && GoodTable(table)
      modifies this, curOp
      ensures listings == Listings(table, old(Rest()))
    {
      hide Disassemble, Items, GoodRow;
      listings := [];
      ghost var items, i := Rest(), 0;
      while true
        invariant Valid() && i <= |items| && Rest() == items[i..]
        invariant listings == Listings(table, items[..i])
        decreases |items| - i
      {
        var more, listing := GetNextOp(table);
        if !more {
          assert items[..i] == items;
          return;
        }
        listings := listings + [listing];
        i := i + 1;
      }
    }
  }

  /** What is listed of the instructions found; nothing for an unknown opcode. */
  function Listings(table: seq<OpRow>, items: seq<Item>): (r: seq<Option<Listing>>)
    requires GoodTable(table) && forall i :: 0 <= i < |items| ==> |items[i].words| == 4
    ensures |r| == |items|
  {
    seq(|items|, i requires 0 <= i < |items| => Disassemble(table, items[i].words))
  }

  lemma LenIsValid(word: nat)
    ensures ValidLen(OpLen(word))
  {
  }

  lemma RowAt(table: seq<OpRow>, i: nat)
    requires GoodTable(table) && i < |table|
    ensures GoodRow(table[i])
  {
  }

  lemma OneBit(words: seq<nat>, p: nat)
    requires p < 25 * |words|
    ensures FieldValue(words, p, 1) == if Flat(words, p) then 1 else 0
  {
    assert FieldValue(words, p, 0) == 0;
  }

  /** get_dsp_op_len */
  method GetDspOpLen(op: nat) returns (len: nat)
    ensures len == OpLen(op)
  {
    if Bit(op, 24) {
      if Bit(op, 23) { len := 4; } else { len := 2; }
    } else {
      len := 1;
    }
  }

  /** get_dsp_op_info */
  method GetDspOpInfo(table: seq<OpRow>, op: nat) returns (row: Option<nat>)
    ensures row == FindRow(table, op, 0)
  {
    for i := 0 to |table|
      invariant FindRow(table, op, 0) == FindRow(table, op, i)
    {
      if table[i].op == op { return Some(i); }
    }
    return None;
  }
}
