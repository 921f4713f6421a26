/** One operation (a main instruction or a parallel one) with its operands: the bits the
    assembler writes for it, and the operands the disassembler reads from them. */
module Fields {
  import opened Bits
  import opened OpWords
  import opened Operands
  import opened Layouts

  /** dsp_asm_op_data: the selected form, whether source and destination are swapped,
      the source modifier, the number of operands before the ':' separator (0: none). */
  datatype Operation = Operation(form: Layout, swap: bool, mdfr: SrcMdfr, split: nat, operands: seq<Operand>)

  predicate Shaped(o: Operation) {
    |o.operands| == |o.form.locs| <= 8 && (o.swap ==> |o.operands| % 2 == 0)
  }

  /** The field descriptor operand i uses. */
  function DescIndex(i: nat, swap: bool): nat {
    if !swap then i else if i % 2 == 1 then i - 1 else i + 1
  }

  lemma DescInRange(i: nat, swap: bool, n: nat)
    requires i < n && (swap ==> n % 2 == 0)
    ensures DescIndex(i, swap) < n && DescIndex(DescIndex(i, swap), swap) == i
  {
  }

  function LocOf(o: Operation, i: nat): Loc
    requires Shaped(o) && i < |o.operands|
  {
    o.form.locs[DescIndex(i, o.swap)]
  }

  /** Operand slots past the last operand are zero. */
  function At(operands: seq<Operand>, i: int): Operand {
    if 0 <= i < |operands| then operands[i] else NoArgs
  }

  /** operand_num: the position of operand i within its parallel half. */
  function Num(o: Operation, i: nat): nat {
    if o.split == 0 || i < o.split then i else i - o.split
  }

  predicate AcceptsAt(o: Operation, i: nat)
    requires Shaped(o) && i < |o.operands|
  {
    Accepts(LocOf(o, i).ty, o.operands[i], At(o.operands, Num(o, i)), At(o.operands, o.split + Num(o, i)), o.mdfr)
  }

  /** The assembler takes the operands for this form. */
  predicate Accepted(o: Operation) {
    Shaped(o) && forall i :: 0 <= i < |o.operands| ==> Valid(o.operands[i]) && AcceptsAt(o, i)
  }

  /** The operand the fix-up of operand i measures from. A relative operand's base is of
      type REG_11, whose own fix-up changes nothing. */
  function BaseOf(o: Operation, i: nat): Operand
    requires Shaped(o) && i < |o.operands|
  {
    At(o.operands, i - BaseDistance(LocOf(o, i).ty))
  }

  function ValueOf(o: Operation, i: nat): nat
    requires Shaped(o) && i < |o.operands|
  {
    FixedVal(LocOf(o, i).ty, o.operands[i], BaseOf(o, i), o.mdfr)
  }

  /** A field descriptor together with the value written to it. */
  datatype Slot = Slot(a: Loc, val: nat)

  function SlotOf(o: Operation, i: nat): Slot
    requires Shaped(o) && i < |o.operands|
  {
    Slot(LocOf(o, i), ValueOf(o, i))
  }

  function Slots(o: Operation): (r: seq<Slot>)
    requires Shaped(o)
    ensures |r| == |o.operands|
  {
    seq(|o.operands|, i requires 0 <= i < |o.operands| => SlotOf(o, i))
  }

  /* set_op_operand writes the high part of the value to the first field and the low part
     to the second. */

  function Write1(s: Slot): Write { Write(s.a.start1, s.a.bits1, Shr(s.val, s.a.bits2)) }

  function Write2(s: Slot): Write { Write(s.a.start2, s.a.bits2, s.val) }

  predicate SlotBit(s: Slot, p: nat) { Covers(Write1(s), p) || Covers(Write2(s), p) }

  /** Some operand puts a one at position p. */
  predicate SlotsBit(ss: seq<Slot>, p: nat) {
    exists i :: 0 <= i < |ss| && SlotBit(ss[i], p)
  }

  predicate In(s: nat, n: nat, p: nat) { s <= p < s + n }

  predicate InLoc(a: Loc, p: nat) { In(a.start1, a.bits1, p) || In(a.start2, a.bits2, p) }

  /** get_op_operand */
  function ReadLoc(words: seq<nat>, a: Loc): nat
    requires a.start1 + a.bits1 <= 25 * |words| && (a.bits2 > 0 ==> a.start2 + a.bits2 <= 25 * |words|)
  {
    if a.bits2 == 0 then FieldValue(words, a.start1, a.bits1)
    else FieldValue(words, a.start1, a.bits1) * Pow2(a.bits2) + FieldValue(words, a.start2, a.bits2)
  }

  /** The modifier print_operand_str sees for a descriptor. */
  function ShownMdfr(dir: Dir, swap: bool, mdfr: SrcMdfr): SrcMdfr {
    if swap then if dir == DirDst then mdfr else MdfrNone
    else if dir == DirSrc || dir == DirX || dir == DirY then mdfr
    else MdfrNone
  }

  predicate Readable(words: seq<nat>, form: Layout, swap: bool) {
    (swap ==> |form.locs| % 2 == 0) &&
    forall j :: 0 <= j < |form.locs| ==>
      var a := form.locs[j];
      a.start1 + a.bits1 <= 25 * |words| && (a.bits2 > 0 ==> a.start2 + a.bits2 <= 25 * |words|)
  }

  /** get_op_operands */
  function ReadOperands(words: seq<nat>, form: Layout, swap: bool, mdfr: SrcMdfr): (r: seq<Operand>)
    requires Readable(words, form, swap)
    ensures |r| == |form.locs|
  {
    seq(|form.locs|, i requires 0 <= i < |form.locs| =>
      var a := form.locs[DescIndex(i, swap)];
      Decode(a.ty, ReadLoc(words, a), ShownMdfr(a.dir, swap, mdfr)))
  }

  lemma FieldIs(words: seq<nat>, w: Write)
    requires w.start + w.len <= 25 * |words|
    requires forall p :: In(w.start, w.len, p) ==> (Flat(words, p) <==> Covers(w, p))
    ensures FieldValue(words, w.start, w.len) == Low(w.val, w.len)
  {
    forall i: nat
      ensures Bit(FieldValue(words, w.start, w.len), i) == Bit(Low(w.val, w.len), i)
    {
      FieldValueBit(words, w.start, w.len, i);
      BitLow(w.val, w.len, i);
      if i < w.len { assert In(w.start, w.len, w.start + w.len - 1 - i); }
    }
    BitsExt(FieldValue(words, w.start, w.len), Low(w.val, w.len));
  }

  lemma {:induction false} NoLowBits(q: nat, k: nat, i: nat)
    requires i < k
    ensures !Bit(q * Pow2(k), i)
  {
    ShlIsTimes(q, k);
    BitShl(q, k, i);
  }

  /** A relative operand adds nothing to its base operand's field. */
  predicate SlotOk(s: Slot, hi: nat) {
    s.a.start1 + s.a.bits1 <= hi && (s.a.bits2 > 0 ==> s.a.start2 + s.a.bits2 <= hi) &&
    if Relative(s.a.ty) then s.a.bits2 == 11 && s.val % 2048 == 0
    else Apart(s.a.start1, s.a.bits1, s.a.start2, s.a.bits2)
  }

  /** Two operands have separate fields or share a field and its value. */
  predicate SlotsAgree(s: Slot, t: Slot) {
    LocsApart(s.a, t.a) || (Twins(s.a, t.a) && s.val == t.val)
  }

  predicate SlotsOk(ss: seq<Slot>, hi: nat) {
    (forall i :: 0 <= i < |ss| ==> SlotOk(ss[i], hi)) &&
    (forall i, j :: 0 <= i < |ss| && 0 <= j < |ss| && i != j ==> SlotsAgree(ss[i], ss[j]))
  }

  lemma RelativeAddsNothing(s: Slot, hi: nat, p: nat)
    requires SlotOk(s, hi) && Relative(s.a.ty)
    ensures !Covers(Write2(s), p)
  {
    if In(s.a.start2, s.a.bits2, p) {
      var q := s.val / 2048;
      assert s.val == q * 2048;
      assert Pow2(11) == 2048;
      NoLowBits(q, 11, s.a.start2 + s.a.bits2 - 1 - p);
    }
  }

  /** Another operand's bits stay out of an operand's own fields, or are the same bits. */
  lemma OthersApart(s: Slot, t: Slot, hi: nat, p: nat)
    requires SlotOk(t, hi) && SlotsAgree(s, t) && SlotBit(t, p)
    requires In(s.a.start1, s.a.bits1, p) || In(s.a.start2, OwnBits2(s.a), p)
    ensures In(s.a.start1, s.a.bits1, p) && Covers(Write1(s), p)
  {
    if Relative(t.a.ty) { RelativeAddsNothing(t, hi, p); }
  }

  lemma Part1Read(ss: seq<Slot>, words: seq<nat>, i: nat)
    requires i < |ss| && SlotsOk(ss, 25 * |words|)
    requires forall p :: 0 <= p < 25 * |words| && InLoc(ss[i].a, p) ==> (Flat(words, p) <==> SlotsBit(ss, p))
    ensures var w := Write1(ss[i]);
            w.start + w.len <= 25 * |words| && FieldValue(words, w.start, w.len) == Low(w.val, w.len)
  {
    var s := ss[i];
    var w := Write1(s);
    assert SlotOk(s, 25 * |words|);
    forall p | In(w.start, w.len, p)
      ensures Flat(words, p) <==> Covers(w, p)
    {
      assert InLoc(s.a, p);
      if Covers(w, p) { assert SlotBit(s, p); }
      if SlotsBit(ss, p) {
        var j :| 0 <= j < |ss| && SlotBit(ss[j], p);
        if j != i {
          assert SlotsAgree(s, ss[j]);
          OthersApart(s, ss[j], 25 * |words|, p);
        } else if Relative(s.a.ty) {
          RelativeAddsNothing(s, 25 * |words|, p);
        }
      }
    }
    FieldIs(words, w);
  }

  lemma Part2Read(ss: seq<Slot>, words: seq<nat>, i: nat)
    requires i < |ss| && SlotsOk(ss, 25 * |words|)
    requires !Relative(ss[i].a.ty) && ss[i].a.bits2 > 0
    requires forall p :: 0 <= p < 25 * |words| && InLoc(ss[i].a, p) ==> (Flat(words, p) <==> SlotsBit(ss, p))
    ensures var w := Write2(ss[i]);
            w.start + w.len <= 25 * |words| && FieldValue(words, w.start, w.len) == Low(w.val, w.len)
  {
    var s := ss[i];
    var w := Write2(s);
    assert SlotOk(s, 25 * |words|);
    forall p | In(w.start, w.len, p)
      ensures Flat(words, p) <==> Covers(w, p)
    {
      assert InLoc(s.a, p);
      if Covers(w, p) { assert SlotBit(s, p); }
      if SlotsBit(ss, p) {
        var j :| 0 <= j < |ss| && SlotBit(ss[j], p);
        if j != i {
          assert SlotsAgree(s, ss[j]);
          OthersApart(s, ss[j], 25 * |words|, p);
        }
      }
    }
    FieldIs(words, w);
  }

  lemma SlotRead(ss: seq<Slot>, words: seq<nat>, i: nat)
    requires i < |ss| && SlotsOk(ss, 25 * |words|) && !Relative(ss[i].a.ty)
    requires forall p :: 0 <= p < 25 * |words| && InLoc(ss[i].a, p) ==> (Flat(words, p) <==> SlotsBit(ss, p))
    ensures SlotOk(ss[i], 25 * |words|)
    ensures ReadLoc(words, ss[i].a) == Low(ss[i].val, ss[i].a.bits1 + ss[i].a.bits2)
  {
    var s := ss[i];
    Part1Read(ss, words, i);
    if s.a.bits2 > 0 { Part2Read(ss, words, i); }
    LowSplit(s.val, s.a.bits2, s.a.bits1);
  }

  /** A relative operand reads as its offset followed by the base operand's field. */
  lemma RelativeSlotRead(ss: seq<Slot>, words: seq<nat>, i: nat, b: nat)
    requires i < |ss| && b < |ss| && SlotsOk(ss, 25 * |words|) && Relative(ss[i].a.ty) && !Relative(ss[b].a.ty)
    requires ss[b].a.start1 == ss[i].a.start2 && ss[b].a.bits1 == 11 && ss[b].a.bits2 == 0
    requires forall p :: 0 <= p < 25 * |words| && InLoc(ss[i].a, p) ==> (Flat(words, p) <==> SlotsBit(ss, p))
    ensures SlotOk(ss[i], 25 * |words|)
    ensures ReadLoc(words, ss[i].a) == Low(Shr(ss[i].val, 11), ss[i].a.bits1) * 2048 + Low(ss[b].val, 11)
  {
    assert SlotOk(ss[i], 25 * |words|);
    Part1Read(ss, words, i);
    forall p | 0 <= p < 25 * |words| && InLoc(ss[b].a, p)
      ensures Flat(words, p) <==> SlotsBit(ss, p)
    {
      assert InLoc(ss[i].a, p);
    }
    Part1Read(ss, words, b);
    assert Pow2(11) == 2048;
  }
}
