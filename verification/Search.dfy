/** How the assembler finds an opcode, a length and a form for the source text: the search is
    sound and complete with respect to what can be assembled. */
module Search {
  import opened Operands
  import opened Layouts
  import opened Fields
  import opened OperandFields
  import opened Tables
  import opened Instructions
  import opened Regions
  import opened ParallelRows

  /** One operation as parsed: its name, where its ':' stands, its operands. */
  datatype Parsed = Parsed(name: string, split: nat, operands: seq<Operand>)

  /** An instruction as parsed. `suffix` is the digit of an explicit length, 0 if there is none. */
  datatype Request = Request(op: Parsed, mdfr: SrcMdfr, pop: Option<Parsed>, suffix: nat)

  /** check_src_mdfr_compatibility: the 16-bit modifiers are only hints. */
  predicate MdfrCompatible(asked: SrcMdfr, listed: SrcMdfr) {
    asked == listed || ((listed == Mdfr16Upper || listed == Mdfr16Signed) && asked == MdfrNone)
  }

  /** The digit is used as a mask of lengths: 1, 2 and 4 stand for themselves, 3 for one or two words. */
  predicate LenAllowed(suffix: nat, len: nat) {
    suffix == 0 || (len == 1 && suffix % 2 == 1) || (len == 2 && suffix / 2 % 2 == 1) || (len == 4 && suffix / 4 % 2 == 1)
  }

  /** The instruction is what the request asks for, in one of the lengths it allows. */
  predicate Answers(ins: Instr, req: Request)
    requires WellFormed(ins)
  {
    ins.row.name == req.op.name && MdfrCompatible(req.mdfr, ins.row.mdfr) &&
    ins.split == req.op.split && ins.operands == req.op.operands &&
    LenAllowed(req.suffix, ins.len) &&
    (req.pop.Some? <==> ins.pop.Some?) &&
    (req.pop.Some? ==>
       PName(PRowOf(ins), ins.pop.value.useAlt) == req.pop.value.name &&
       ins.pop.value.split == req.pop.value.split && ins.pop.value.operands == req.pop.value.operands)
  }

  /** check_op_layout_operand_compatibility for one form. */
  predicate FormTakes(f: Layout, needsRoom: bool, swap: bool, mdfr: SrcMdfr, p: Parsed) {
    (needsRoom ==> f.optArgs) && Accepted(Operation(f, swap, mdfr, p.split, p.operands))
  }

  method CheckForm(f: Layout, needsRoom: bool, swap: bool, mdfr: SrcMdfr, p: Parsed) returns (ok: bool)
    requires |f.locs| <= 8 && (swap ==> |f.locs| % 2 == 0)
    requires forall i :: 0 <= i < |p.operands| ==> Valid(p.operands[i])
    ensures ok == FormTakes(f, needsRoom, swap, mdfr, p)
  {
    hide Accepts, Valid;
    var o := Operation(f, swap, mdfr, p.split, p.operands);
    if needsRoom && !f.optArgs { return false; }
    if |f.locs| != |p.operands| { return false; }
    for i := 0 to |p.operands|
      invariant forall j :: 0 <= j < i ==> AcceptsAt(o, j)
    {
      if !AcceptsAt(o, i) { return false; }
    }
    return true;
  }

  /** The first form that takes the operands. */
  method FindForm(forms: seq<Layout>, needsRoom: bool, swap: bool, mdfr: SrcMdfr, p: Parsed) returns (k: Option<nat>)
    requires forall j :: 0 <= j < |forms| ==> |forms[j].locs| <= 8 && (swap ==> |forms[j].locs| % 2 == 0)
    requires forall i :: 0 <= i < |p.operands| ==> Valid(p.operands[i])
    ensures k.Some? ==> k.value < |forms| && FormTakes(forms[k.value], needsRoom, swap, mdfr, p)
    ensures k.Some? ==> forall j :: 0 <= j < k.value ==> !FormTakes(forms[j], needsRoom, swap, mdfr, p)
    ensures k.None? ==> forall j :: 0 <= j < |forms| ==> !FormTakes(forms[j], needsRoom, swap, mdfr, p)
  {
    hide Valid, FormTakes;
    for i := 0 to |forms|
      invariant forall j :: 0 <= j < i ==> !FormTakes(forms[j], needsRoom, swap, mdfr, p)
    {
      var ok := CheckForm(forms[i], needsRoom, swap, mdfr, p);
      if ok { return Some(i); }
    }
    return None;
  }

  lemma PFormsFit(len: nat, i: nat)
    requires (len == 2 || len == 4) && i < |PRows(len)|
    ensures forall j :: 0 <= j < |POpLayouts(PRows(len)[i].layout)| ==>
              |POpLayouts(PRows(len)[i].layout)[j].locs| <= 8 &&
              (PRows(len)[i].swap ==> |POpLayouts(PRows(len)[i].layout)[j].locs| % 2 == 0)
  {
    hide PRows, POpLayouts, PRowClear, Shadowed, AllApart, LocsFit, NoneIn;
    var row := PRows(len)[i];
    RowFacts(len, i);
    forall j | 0 <= j < |POpLayouts(row.layout)|
      ensures |POpLayouts(row.layout)[j].locs| <= 8 && (row.swap ==> |POpLayouts(row.layout)[j].locs| % 2 == 0)
    {
      PFormIsOk(row.layout, j);
      if row.swap { PSwappablePaired(row.layout, j); }
    }
  }

  /** The row, the name it is taken by, and the form, if the search finds one. */
  datatype PMatchFound = PMatchFound(row: nat, useAlt: bool, k: nat)

  /** find_compatible_p_op_info */
  method FindPOp(len: nat, p: Parsed) returns (found: Option<PMatchFound>)
    requires len == 2 || len == 4
    requires forall i :: 0 <= i < |p.operands| ==> Valid(p.operands[i])
    ensures found.None? ==> NoneFound(len, p)
    ensures found.Some? ==> Found(len, p, found.value)
  {
    hide PRows, POpLayouts, Valid, Accepted;
    var rows := PRows(len);
    for i := 0 to |rows|
      invariant forall j :: 0 <= j < i ==> !RowTakes(rows[j], p.name, p.split, p.operands)
    {
      var row := rows[i];
      if row.name == p.name || (row.alt != "" && row.alt == p.name) {
        PFormsFit(len, i);
        var forms := POpLayouts(row.layout);
        var k := FindForm(forms, false, row.swap, MdfrNone, p);
        assert forall j :: 0 <= j < |forms| ==>
                 FormTakes(forms[j], false, row.swap, MdfrNone, p) == Accepted(POperation(row, j, p.split, p.operands));
        if k.Some? { return Some(PMatchFound(i, row.name != p.name, k.value)); }
      }
    }
    return None;
  }

  lemma FormsFit(row: OpRow, len: nat)
    requires GoodRow(row) && ValidLen(len)
    ensures forall j :: 0 <= j < |OpLayouts(LayoutFor(row, len))| ==>
              |OpLayouts(LayoutFor(row, len))[j].locs| <= 8 &&
              (row.swap ==> |OpLayouts(LayoutFor(row, len))[j].locs| % 2 == 0)
  {
    hide OpLayouts, AllApart, LocsFit, MaskOk, DiscQuiet;
    var id := LayoutFor(row, len);
    forall j | 0 <= j < |OpLayouts(id)|
      ensures |OpLayouts(id)[j].locs| <= 8 && (row.swap ==> |OpLayouts(id)[j].locs| % 2 == 0)
    {
      if id == L_NOP { NopForm(j); } else { FormIsOk(id, j); }
      if row.swap { SwappablePaired(id, j); }
    }
  }

  function ToPop(p: Parsed, f: PMatchFound): ParallelOp {
    ParallelOp(f.row, f.useAlt, f.k, p.split, p.operands)
  }

  /** The main operation in one row and length, with or without room. */
  predicate RowHolds(row: OpRow, len: nat, k: nat, req: Request)
    requires GoodRow(row) && ValidLen(len) && k < |OpLayouts(LayoutFor(row, len))|
  {
    var f := OpLayouts(LayoutFor(row, len))[k];
    if req.op.operands == [] then LayoutFor(row, len) == L_NOP && req.op.split == 0
    else FormTakes(f, req.pop.Some?, row.swap, row.mdfr, req.op)
  }

  /** The first form that holds it. */
  predicate FirstForm(row: OpRow, len: nat, k: nat, req: Request)
    requires GoodRow(row) && ValidLen(len)
  {
    k < |OpLayouts(LayoutFor(row, len))| && RowHolds(row, len, k, req) && forall j :: 0 <= j < k ==> !RowHolds(row, len, j, req)
  }

  /** The inner loop of find_compatible_asm_opcode: one row in one length. */
  method FindInRow(row: OpRow, len: nat, req: Request) returns (k: Option<nat>)
    requires GoodRow(row) && ValidLen(len)
    requires forall i :: 0 <= i < |req.op.operands| ==> Valid(req.op.operands[i])
    requires req.op.operands == [] ==> req.op.split == 0
    ensures k.Some? ==> FirstForm(row, len, k.value, req)
    ensures k.None? ==> forall j :: 0 <= j < |OpLayouts(LayoutFor(row, len))| ==> !RowHolds(row, len, j, req)
  {
    hide OpLayouts, Valid, FitsLen, Swappable;
    var id := LayoutFor(row, len);
    FormsCounted(id);
    if id == L_NONE { return None; }
    if req.op.operands == [] && id == L_NOP { return Some(0); }
    FormsFit(row, len);
    k := FindForm(OpLayouts(id), req.pop.Some?, row.swap, row.mdfr, req.op);
    if req.op.operands == [] { EmptyTakesNone(row, len); }
  }

  /** Only the NOP layout goes without operands. */
  lemma EmptyTakesNone(row: OpRow, len: nat)
    requires GoodRow(row) && ValidLen(len) && LayoutFor(row, len) != L_NOP
    ensures forall j :: 0 <= j < |OpLayouts(LayoutFor(row, len))| ==> OpLayouts(LayoutFor(row, len))[j].locs != []
  {
    hide OpLayouts, FormOk;
    forall j | 0 <= j < |OpLayouts(LayoutFor(row, len))|
      ensures OpLayouts(LayoutFor(row, len))[j].locs != []
    {
      FormIsOk(LayoutFor(row, len), j);
    }
  }

  /** An instruction answers the request in one row and length exactly when some form of the
      row holds the operands and, if asked for, a parallel operation is found. */
  lemma RowAnswers(ins: Instr, req: Request)
    requires WellFormed(ins) && GoodRow(ins.row) && Answers(ins, req) && Assembles(ins)
    ensures RowHolds(ins.row, ins.len, ins.k, req)
  {
    hide OpLayouts, PRows, POpLayouts, Accepted, FirstRow, GoodRow;
  }

  lemma PopAnswers(ins: Instr, req: Request)
    requires WellFormed(ins) && Answers(ins, req) && Assembles(ins) && req.pop.Some?
    ensures ins.len == 2 || ins.len == 4
    ensures ins.pop.value.row < |PRows(ins.len)|
    ensures RowTakes(PRowOf(ins), req.pop.value.name, req.pop.value.split, req.pop.value.operands)
  {
    hide OpLayouts, PRows, POpLayouts, Accepted;
    var p := ins.pop.value;
    assert Accepted(POperation(PRowOf(ins), p.k, p.split, p.operands));
  }

  predicate ValidRequest(req: Request) {
    (forall i :: 0 <= i < |req.op.operands| ==> Valid(req.op.operands[i])) &&
    (req.op.operands == [] ==> req.op.split == 0) && req.suffix < 10 &&
    (req.pop.Some? ==> forall i :: 0 <= i < |req.pop.value.operands| ==> Valid(req.pop.value.operands[i]))
  }

  /** No instruction in this row and length answers. */
  ghost predicate Unanswered(row: OpRow, len: nat, req: Request) {
    forall ins: Instr :: WellFormed(ins) && ins.row == row && ins.len == len && Assembles(ins) ==> !Answers(ins, req)
  }

  predicate Found(len: nat, p: Parsed, f: PMatchFound) {
    (len == 2 || len == 4) && f.row < |PRows(len)| && PMatch(PRows(len)[f.row], p.name) &&
    f.useAlt == (PRows(len)[f.row].name != p.name) &&
    f.k < |POpLayouts(PRows(len)[f.row].layout)| &&
    Accepted(POperation(PRows(len)[f.row], f.k, p.split, p.operands)) &&
    (forall j :: 0 <= j < f.k ==> !Accepted(POperation(PRows(len)[f.row], j, p.split, p.operands))) &&
    forall i :: 0 <= i < f.row ==> !RowTakes(PRows(len)[i], p.name, p.split, p.operands)
  }

  predicate NoneFound(len: nat, p: Parsed) {
    forall i :: 0 <= i < |PRows(len)| ==> !RowTakes(PRows(len)[i], p.name, p.split, p.operands)
  }

  lemma BuiltAssembles(ins: Instr, req: Request, pop: Option<PMatchFound>)
    requires GoodRow(ins.row) && ValidLen(ins.len) && ValidRequest(req)
    requires ins.k < |OpLayouts(LayoutFor(ins.row, ins.len))| && RowHolds(ins.row, ins.len, ins.k, req)
    requires ins.row.name == req.op.name && MdfrCompatible(req.mdfr, ins.row.mdfr)
    requires LenAllowed(req.suffix, ins.len)
    requires ins.split == req.op.split && ins.operands == req.op.operands
    requires req.pop.Some? <==> pop.Some?
    requires pop.Some? ==> ins.len > 1 && Found(ins.len, req.pop.value, pop.value)
    requires ins.pop == if pop.None? then None else Some(ToPop(req.pop.value, pop.value))
    ensures Assembles(ins) && Answers(ins, req)
  {
    hide OpLayouts, PRows, POpLayouts, AcceptsAt, FitsLen, Swappable, RowTakes, Valid;
    if req.op.operands == [] { NopForm(ins.k); }
  }

  /* ---------- Where the search ends ---------- */

  /** The parallel operation asked for, if any, exists in this length. */
  ghost predicate PopIn(req: Request, len: nat) {
    req.pop.None? || ((len == 2 || len == 4) && !NoneFound(len, req.pop.value))
  }

  /** The lengths tried: those of the explicit digit, else those in which the parallel operation exists. */
  ghost predicate LenOpen(req: Request, len: nat) {
    if req.suffix != 0 then LenAllowed(req.suffix, len) else PopIn(req, len)
  }

  predicate NameFits(row: OpRow, req: Request) { row.name == req.op.name && MdfrCompatible(req.mdfr, row.mdfr) }

  ghost predicate SomeForm(row: OpRow, len: nat, req: Request)
    requires GoodRow(row) && ValidLen(len)
  {
    exists k :: 0 <= k < |OpLayouts(LayoutFor(row, len))| && RowHolds(row, len, k, req)
  }

  /** The search ends at this row and length: they fit the main operation. An explicit length is not held
      against the parallel operation. */
  ghost predicate Stops(row: OpRow, len: nat, req: Request)
    requires GoodRow(row) && ValidLen(len)
  {
    NameFits(row, req) && LenOpen(req, len) && SomeForm(row, len, req)
  }

  ghost predicate NoneStop(table: seq<OpRow>, n: nat, req: Request)
    requires GoodTable(table) && n <= |table|
  {
    forall i, len :: 0 <= i < n && ValidLen(len) ==> !Stops(table[i], len, req)
  }

  /** Rows go in table order, lengths in rising order. */
  ghost predicate StopsFirst(table: seq<OpRow>, i: nat, len: nat, req: Request)
    requires GoodTable(table)
  {
    i < |table| && ValidLen(len) && NoneStop(table, i, req) && Stops(table[i], len, req) &&
    forall l: nat :: ValidLen(l) && l < len ==> !Stops(table[i], l, req)
  }

  /** What the search comes to: an instruction; a main operation in a length in which the parallel operation
      asked for does not exist, where the assembler gives up for one word and uses a row it has not filled in
      otherwise; or nothing. */
  datatype Outcome = Match(ins: Instr) | Lacking(row: OpRow, len: nat) | NoMatch

  /** No instruction in any of the first n rows answers. */
  ghost predicate NoneAnswers(table: seq<OpRow>, n: nat, req: Request)
    requires n <= |table|
  {
    forall i, len :: 0 <= i < n && ValidLen(len) ==> Unanswered(table[i], len, req)
  }

  lemma AnswerStops(ins: Instr, req: Request)
    requires WellFormed(ins) && GoodRow(ins.row) && Assembles(ins) && Answers(ins, req)
    ensures Stops(ins.row, ins.len, req) && PopIn(req, ins.len)
  {
    hide OpLayouts, PRows, POpLayouts, Accepted, FirstRow, GoodRow, RowTakes, RowHolds;
    RowAnswers(ins, req);
    if req.pop.Some? { PopAnswers(ins, req); }
  }

  /** Of the rows that take a parallel operation one is the first, and of its forms. */
  lemma {:induction false} FirstTaking(len: nat, p: Parsed, n: nat)
    requires (len == 2 || len == 4) && n <= |PRows(len)|
    requires forall i :: 0 <= i < n ==> !RowTakes(PRows(len)[i], p.name, p.split, p.operands)
    requires !NoneFound(len, p)
    ensures exists f :: Found(len, p, f)
    decreases |PRows(len)| - n
  {
    hide PRows, POpLayouts, Accepted;
    var row := PRows(len)[n];
    if RowTakes(row, p.name, p.split, p.operands) {
      var k := FirstTakingForm(row, p, 0);
      assert Found(len, p, PMatchFound(n, row.name != p.name, k));
    } else {
      FirstTaking(len, p, n + 1);
    }
  }

  lemma {:induction false} FirstTakingForm(row: POpRow, p: Parsed, n: nat) returns (k: nat)
    requires RowTakes(row, p.name, p.split, p.operands) && n <= |POpLayouts(row.layout)|
    requires forall j :: 0 <= j < n ==> !Accepted(POperation(row, j, p.split, p.operands))
    ensures k < |POpLayouts(row.layout)| && Accepted(POperation(row, k, p.split, p.operands))
    ensures forall j :: 0 <= j < k ==> !Accepted(POperation(row, j, p.split, p.operands))
    decreases |POpLayouts(row.layout)| - n
  {
    hide POpLayouts, Accepted;
    if Accepted(POperation(row, n, p.split, p.operands)) { k := n; } else { k := FirstTakingForm(row, p, n + 1); }
  }

  lemma StopAnswers(row: OpRow, len: nat, req: Request)
    requires GoodRow(row) && ValidLen(len) && ValidRequest(req) && Stops(row, len, req) && PopIn(req, len)
    ensures !Unanswered(row, len, req)
  {
    hide OpLayouts, PRows, POpLayouts, Accepted, FirstRow, FitsLen, Swappable, RowHolds, ValidRequest, Found, NoneFound;
    var k :| 0 <= k < |OpLayouts(LayoutFor(row, len))| && RowHolds(row, len, k, req);
    var found := None;
    if req.pop.Some? {
      FirstTaking(len, req.pop.value, 0);
      var f :| Found(len, req.pop.value, f);
      found := Some(f);
    }
    var popOf := if found.None? then None else Some(ToPop(req.pop.value, found.value));
    var ins := Instr(row, len, k, req.op.split, req.op.operands, popOf);
    BuiltAssembles(ins, req, found);
    AssemblesWell(ins);
  }

  /** Something answers exactly in the rows and lengths where the search can end and the parallel operation
      exists. */
  lemma AnsweredIff(row: OpRow, len: nat, req: Request)
    requires GoodRow(row) && ValidLen(len) && ValidRequest(req)
    ensures Unanswered(row, len, req) <==> !(Stops(row, len, req) && PopIn(req, len))
  {
    hide OpLayouts, PRows, POpLayouts, Assembles, Answers, GoodRow, Stops, PopIn, ValidRequest;
    if Stops(row, len, req) && PopIn(req, len) {
      StopAnswers(row, len, req);
    } else {
      forall ins: Instr | WellFormed(ins) && ins.row == row && ins.len == len && Assembles(ins)
        ensures !Answers(ins, req)
      {
        if Answers(ins, req) { AnswerStops(ins, req); }
      }
    }
  }

  /** No search can end with an instruction exactly if nothing answers. */
  lemma NothingAnswers(table: seq<OpRow>, req: Request)
    requires GoodTable(table) && ValidRequest(req)
    ensures NoneAnswers(table, |table|, req) <==>
            forall i, len :: 0 <= i < |table| && ValidLen(len) ==> !(Stops(table[i], len, req) && PopIn(req, len))
  {
    hide Unanswered, Stops, PopIn, ValidRequest, ValidLen;
    forall i, len | 0 <= i < |table| && ValidLen(len)
      ensures Unanswered(table[i], len, req) <==> !(Stops(table[i], len, req) && PopIn(req, len))
    {
      RowIn(table, i);
      AnsweredIff(table[i], len, req);
    }
  }

  lemma RowIn(table: seq<OpRow>, i: nat)
    requires GoodTable(table) && i < |table|
    ensures GoodRow(table[i])
  {
  }

  /** No parallel operation, no digit, or a digit for at most one length. */
  predicate OneLength(req: Request) { req.pop.None? || req.suffix !in {3, 5, 6, 7} }

  lemma OnlyLength(suffix: nat, len: nat, len': nat)
    requires 0 < suffix < 10 && suffix !in {3, 5, 6, 7} && LenAllowed(suffix, len) && LenAllowed(suffix, len')
    ensures len == len'
  {
  }

  /** For these the search misses nothing: where it ends without the parallel operation, nothing answers. */
  lemma OneLengthMissesNothing(table: seq<OpRow>, i: nat, len: nat, req: Request)
    requires GoodTable(table) && ValidRequest(req) && StopsFirst(table, i, len, req)
    requires !PopIn(req, len) && OneLength(req)
    ensures NoneAnswers(table, |table|, req)
  {
    hide NoneFound, SomeForm, NoneAnswers, GoodTable, LenAllowed, NameFits, ValidLen;
    NothingAnswers(table, req);
    forall j, l | 0 <= j < |table| && ValidLen(l)
      ensures GoodRow(table[j]) && !(Stops(table[j], l, req) && PopIn(req, l))
    {
      RowIn(table, j);
      if Stops(table[j], l, req) && PopIn(req, l) { OnlyLength(req.suffix, len, l); }
    }
  }

  /* ---------- The search ---------- */

  /** One row in one length, with the parallel operation found for that length. */
  method TryRow(row: OpRow, len: nat, req: Request, pop: Option<PMatchFound>) returns (r: Option<Outcome>)
    requires GoodRow(row) && ValidLen(len) && ValidRequest(req) && NameFits(row, req) && LenOpen(req, len)
    requires pop.Some? ==> req.pop.Some? && Found(len, req.pop.value, pop.value)
    requires req.pop.Some? && pop.None? ==> !PopIn(req, len)
    ensures r.None? <==> !Stops(row, len, req)
    ensures r.Some? ==> !r.value.NoMatch? && (r.value.Match? <==> PopIn(req, len))
    ensures r.Some? && r.value.Lacking? ==> r.value == Lacking(row, len)
    ensures r.Some? && r.value.Match? ==> IsFirst(r.value.ins, row, len, req)
  {
    hide OpLayouts, PRows, POpLayouts, Accepted, GoodRow, Valid, FirstRow, RowTakes, RowHolds, Assembles, Answers;
    var k := FindInRow(row, len, req);
    if k.None? { return None; }
    assert RowHolds(row, len, k.value, req);
    if pop.Some? { FoundIsOne(len, req.pop.value, pop.value); }
    if req.pop.Some? && pop.None? { return Some(Lacking(row, len)); }
    var popOf := if pop.None? then None else Some(ToPop(req.pop.value, pop.value));
    var ins := Instr(row, len, k.value, req.op.split, req.op.operands, popOf);
    BuiltAssembles(ins, req, pop);
    return Some(Match(ins));
  }

  lemma FoundIsOne(len: nat, p: Parsed, f: PMatchFound)
    requires Found(len, p, f)
    ensures !NoneFound(len, p)
  {
    hide PRows, POpLayouts, Accepted;
    assert RowTakes(PRows(len)[f.row], p.name, p.split, p.operands);
  }

  /** The instruction is the first of its row and length, with the first parallel operation that fits. */
  predicate IsFirst(ins: Instr, row: OpRow, len: nat, req: Request)
    requires GoodRow(row) && ValidLen(len)
  {
    ins.row == row && ins.len == len && Assembles(ins) && Answers(ins, req) && FirstForm(row, len, ins.k, req) &&
    (req.pop.Some? && ins.pop.Some? ==>
       Found(len, req.pop.value, PMatchFound(ins.pop.value.row, ins.pop.value.useAlt, ins.pop.value.k)))
  }

  /** find_compatible_asm_opcode: the first row and length that fit the main operation decide. */
  method FindCompatibleAsmOpcode(table: seq<OpRow>, req: Request) returns (r: Outcome)
    requires GoodTable(table) && ValidRequest(req)
    ensures r.Match? ==> r.ins.row in table && Assembles(r.ins) && Answers(r.ins, req) && PopIn(req, r.ins.len)
    ensures r.Match? ==> exists i: nat :: StopsFirst(table, i, r.ins.len, req) && IsFirst(r.ins, table[i], r.ins.len, req)
    ensures r.Lacking? ==> !PopIn(req, r.len) && exists i: nat :: StopsFirst(table, i, r.len, req) && table[i] == r.row
    ensures r.NoMatch? ==> NoneStop(table, |table|, req) && NoneAnswers(table, |table|, req)
    ensures !r.Match? && OneLength(req) ==> NoneAnswers(table, |table|, req)
  {
    hide OpLayouts, PRows, POpLayouts, Assembles, Answers, Unanswered, GoodRow, Found, NoneFound, ValidRequest, FirstForm;
    hide SomeForm;
    var pop2, pop4 := None, None;
    if req.pop.Some? {
      PopIsValid(req);
      pop2 := FindPOp(2, req.pop.value);
      pop4 := FindPOp(4, req.pop.value);
      if pop2.Some? { FoundIsOne(2, req.pop.value, pop2.value); }
      if pop4.Some? { FoundIsOne(4, req.pop.value, pop4.value); }
    }
    var open1 := if req.suffix != 0 then LenAllowed(req.suffix, 1) else req.pop.None?;
    var open2 := if req.suffix != 0 then LenAllowed(req.suffix, 2) else req.pop.None? || pop2.Some?;
    var open4 := if req.suffix != 0 then LenAllowed(req.suffix, 4) else req.pop.None? || pop4.Some?;
    for i := 0 to |table|
      invariant NoneStop(table, i, req)
    {
      var row := table[i];
      RowIn(table, i);
      if NameFits(row, req) {
        var found := None;
        if open1 { found := TryRow(row, 1, req, None); }
        if found.None? && open2 { found := TryRow(row, 2, req, pop2); }
        if found.None? && open4 { found := TryRow(row, 4, req, pop4); }
        if found.Some? {
          r := found.value;
          ghost var len := if r.Match? then r.ins.len else r.len;
          assert StopsFirst(table, i, len, req);
          if r.Lacking? && OneLength(req) { OneLengthMissesNothing(table, i, len, req); }
          return;
        }
      }
    }
    r := NoMatch;
    NothingAnswers(table, req);
  }

  lemma PopIsValid(req: Request)
    requires ValidRequest(req) && req.pop.Some?
    ensures forall i :: 0 <= i < |req.pop.value.operands| ==> Valid(req.pop.value.operands[i])
  {
  }
}
