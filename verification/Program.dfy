/** Whole programs: the assembler's output file is split by the disassembler exactly where
    the assembler joined it. */
module Program {
  import opened Bits
  import opened OpWords
  import opened Operands
  import opened Layouts
  import opened Fields
  import opened Instructions
  import opened Regions
  import opened Disassembler
  import opened Selection
  import opened Heads
  import opened RoundTrip
  import opened Assembler
  import opened Reader

  /** Each code holds the instruction of the same index. */
  ghost predicate Emitted(codes: seq<seq<nat>>, prog: seq<Instr>) {
    |codes| == |prog| &&
    forall i :: 0 <= i < |prog| ==> Assembled(codes[i], prog[i])
  }

  /** The used words of the codes, one after the other. */
  function Joined(codes: seq<seq<nat>>, prog: seq<Instr>): seq<nat>
    requires |codes| == |prog| && forall i :: 0 <= i < |prog| ==> prog[i].len <= |codes[i]|
  {
    if prog == [] then [] else codes[0][..prog[0].len] + Joined(codes[1..], prog[1..])
  }

  lemma {:induction false} JoinedSnoc(codes: seq<seq<nat>>, prog: seq<Instr>, code: seq<nat>, ins: Instr)
    requires |codes| == |prog| && forall i :: 0 <= i < |prog| ==> prog[i].len <= |codes[i]|
    requires ins.len <= |code|
    ensures forall i :: 0 <= i < |prog| + 1 ==> (prog + [ins])[i].len <= |(codes + [code])[i]|
    ensures Joined(codes + [code], prog + [ins]) == Joined(codes, prog) + code[..ins.len]
    decreases |prog|
  {
    if prog == [] {
      assert codes + [code] == [code] && prog + [ins] == [ins];
      assert Joined([code][1..], [ins][1..]) == [];
    } else {
      JoinedSnoc(codes[1..], prog[1..], code, ins);
      assert (codes + [code])[1..] == codes[1..] + [code] && (prog + [ins])[1..] == prog[1..] + [ins];
    }
  }

  lemma EmittedFits(codes: seq<seq<nat>>, prog: seq<Instr>)
    requires Emitted(codes, prog)
    ensures forall i :: 0 <= i < |prog| ==> |codes[i]| == 4 && ValidLen(prog[i].len)
  {
    hide Bit, OpLayouts, FirstRow, OpLen;
    forall i | 0 <= i < |prog|
      ensures |codes[i]| == 4 && ValidLen(prog[i].len)
    {
      LengthRead(codes[i], prog[i]);
    }
  }

  /** These words are those of the program's instructions, each used as far as its length says. */
  ghost predicate IsProgram(data: seq<nat>, prog: seq<Instr>) {
    exists codes ::
      Emitted(codes, prog) && (forall i :: 0 <= i < |prog| ==> prog[i].len <= |codes[i]|) && data == Joined(codes, prog)
  }

  /** read_assembly_from_file: the words are appended as far as their own length says. */
  method AssembleProgram(prog: seq<Instr>) returns (data: seq<nat>)
    requires forall i :: 0 <= i < |prog| ==> Assembles(prog[i]) && GoodRow(prog[i].row)
    ensures IsProgram(data, prog)
  {
    hide Encodes, Assembles, GoodRow;
    data := [];
    ghost var codes: seq<seq<nat>> := [];
    for i := 0 to |prog|
      invariant Emitted(codes, prog[..i])
      invariant forall j :: 0 <= j < i ==> prog[j].len <= |codes[j]|
      invariant data == Joined(codes, prog[..i])
    {
      var opcode := CreateOpWords(prog[i]);
      LengthRead(opcode, prog[i]);
      var len := GetDspOpLen(opcode[0]);
      LenIsValid(opcode[0]);
      JoinedSnoc(codes, prog[..i], opcode, prog[i]);
      data := data + opcode[..len];
      codes := codes + [opcode];
      assert prog[..i + 1] == prog[..i] + [prog[i]];
    }
    assert prog[..|prog|] == prog;
  }

  /** Words past the instruction's own do not matter. */
  lemma EncodesPrefix(words: seq<nat>, words': seq<nat>, ins: Instr)
    requires Assembled(words, ins) && |words'| == 4 && words'[..ins.len] == words[..ins.len]
    ensures Assembled(words', ins)
  {
    hide Bit, InstrBit, Accepted, OpLayouts, FirstRow;
    forall p: nat | p < 25 * ins.len
      ensures Flat(words', p) == Flat(words, p)
    {
      assert p / 25 < ins.len && words'[..ins.len][p / 25] == words[..ins.len][p / 25];
    }
    forall w | 0 <= w < ins.len
      ensures words'[w] < Pow2(25)
    {
      assert words'[..ins.len][w] == words[..ins.len][w];
    }
  }

  function TotalLen(prog: seq<Instr>): nat {
    if prog == [] then 0 else prog[0].len + TotalLen(prog[1..])
  }

  /** The reader's items are the program's instructions. */
  ghost predicate Split(items: seq<Item>, prog: seq<Instr>, addr: nat) {
    |items| == |prog| &&
    forall i :: 0 <= i < |prog| ==>
      Assembled(items[i].words, prog[i]) && items[i].addr == addr + TotalLen(prog[..i])
  }

  /** Program streams are self-delimiting: whatever the buffer held before, reading the
      joined words finds every instruction at its own address and nothing else. */
  lemma {:induction false} StreamSplits(codes: seq<seq<nat>>, prog: seq<Instr>, cur: seq<nat>, addr: nat)
    requires Emitted(codes, prog) && |cur| == 4
    requires forall i :: 0 <= i < |prog| ==> prog[i].len <= |codes[i]|
    ensures Split(Items(Joined(codes, prog), cur, addr), prog, addr)
    decreases |prog|
  {
    hide Assembled, Items, OpLen;
    if prog == [] {
      ItemsStep([], cur, addr);
    } else {
      var ins, code := prog[0], codes[0];
      var pmem := Joined(codes, prog);
      EmittedFits(codes, prog);
      assert Assembled(code, ins) && (ins.len == 1 || ins.len == 2 || ins.len == 4) && |code| == 4;
      LengthRead(code, ins);
      ItemsStep(pmem, cur, addr);
      var words := Filled(cur, pmem, ins.len);
      assert words[..ins.len] == code[..ins.len];
      EncodesPrefix(code, words, ins);
      assert pmem[ins.len..] == Joined(codes[1..], prog[1..]);
      StreamSplits(codes[1..], prog[1..], words, addr + ins.len);
      SplitCons(Items(pmem, cur, addr), prog, addr);
    }
  }

  lemma SplitCons(items: seq<Item>, prog: seq<Instr>, addr: nat)
    requires prog != [] && items != [] && Split(items[1..], prog[1..], addr + prog[0].len)
    requires Assembled(items[0].words, prog[0]) && items[0].addr == addr
    ensures Split(items, prog, addr)
  {
    hide Assembled;
    forall i | 0 <= i < |prog|
      ensures Assembled(items[i].words, prog[i]) && items[i].addr == addr + TotalLen(prog[..i])
    {
      if i > 0 {
        assert items[i] == items[1..][i - 1] && prog[i] == prog[1..][i - 1];
        assert prog[..i][1..] == prog[1..][..i - 1] && prog[..i][0] == prog[0];
      }
    }
  }

  /** The length and the opcode of every instruction found are those emitted, but for the
      opcode bit the counted loops set. */
  lemma SplitHeads(items: seq<Item>, prog: seq<Instr>, addr: nat, i: nat)
    requires Split(items, prog, addr) && i < |prog|
    ensures |items[i].words| == 4 && WellFormed(prog[i])
    ensures OpLen(items[i].words[0]) == prog[i].len
    ensures OpcodeOf(items[i].words[0], prog[i].len) == SeenOp(prog[i])
  {
    hide Encodes, OpLayouts, FirstRow, Accepted, OpLen, OpcodeOf, SeenOp;
    LengthRead(items[i].words, prog[i]);
    OpcodeRead(items[i].words, prog[i]);
  }

  lemma JoinedRoundTrip(table: seq<OpRow>, codes: seq<seq<nat>>, prog: seq<Instr>, cur: seq<nat>, addr: nat)
    requires GoodTable(table) && Emitted(codes, prog) && |cur| == 4
    requires forall i :: 0 <= i < |prog| ==> prog[i].row in table && prog[i].len <= |codes[i]|
    ensures var listings := Listings(table, Items(Joined(codes, prog), cur, addr));
            |listings| == |prog| &&
            forall i :: 0 <= i < |prog| ==>
              Assembles(prog[i]) && (listings[i] == Some(View(prog[i])) <==> Faithful(prog[i]))
  {
    hide Accepted, FirstRow, OpLayouts, Encodes, Disassemble, View, Faithful, Items, GoodRow;
    var items := Items(Joined(codes, prog), cur, addr);
    StreamSplits(codes, prog, cur, addr);
    forall i | 0 <= i < |prog|
      ensures Assembles(prog[i]) && (Disassemble(table, items[i].words) == Some(View(prog[i])) <==> Faithful(prog[i]))
    {
      InstrRoundTrip(table, items[i].words, prog[i]);
    }
  }

  /** A program is listed back, instruction by instruction, exactly where the instructions
      are faithful. */
  lemma ProgramRoundTrip(table: seq<OpRow>, data: seq<nat>, prog: seq<Instr>, cur: seq<nat>, addr: nat)
    requires GoodTable(table) && IsProgram(data, prog) && |cur| == 4 && forall i :: 0 <= i < |prog| ==> prog[i].row in table
    ensures var listings := Listings(table, Items(data, cur, addr));
            |listings| == |prog| &&
            forall i :: 0 <= i < |prog| ==>
              Assembles(prog[i]) && (listings[i] == Some(View(prog[i])) <==> Faithful(prog[i]))
  {
    hide Assembled, Assembles, Faithful, View, Disassemble, Items, GoodTable, Joined;
    var codes :|
      Emitted(codes, prog) && (forall i :: 0 <= i < |prog| ==> prog[i].len <= |codes[i]|) && data == Joined(codes, prog);
    JoinedRoundTrip(table, codes, prog, cur, addr);
  }
}
