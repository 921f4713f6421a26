/** The payload in memory, and what running it does, from any state of the machine. */
module PayloadRun {
  import opened CopyLoops
  import opened DumpRoutines
  import opened Exram
  import opened Handlers
  import opened Linking
  import opened MainRoutine
  import opened Mcs51
  import opened Payload
  import opened Routines

  const EXIT := 0xf326

  /** Where the handlers begin, one by one. */
  function Entries(hs: seq<Handler>, funcs: seq<nat>): (r: seq<nat>)
    requires GoodHandlers(hs, funcs)
    ensures |r| == |hs|
  {
    seq(|hs|, i requires 0 <= i < |hs| => HandlerAddr(hs, funcs, i))
  }

  /** Where the jump table begins. */
  function Table(hs: seq<Handler>): nat
    requires GoodHandlers(hs, FuncAddrs())
  {
    HandlerAddr(hs, FuncAddrs(), |hs|)
  }

  /** The handlers and the jump table end below the main routine. */
  predicate Fits(hs: seq<Handler>) {
    GoodHandlers(hs, FuncAddrs()) && |HandlersCode(hs, FuncAddrs())| + 6 * |hs| <= MAIN_FUNC_ENTRY - VAL_HANDLER_START
  }

  /** The payload for this table of handlers is in memory. */
  predicate Linked(m: seq<nat>, hs: seq<Handler>) {
    Fits(hs) && FunctionsLoaded(m) && HasCode(m, VAL_HANDLER_START, HandlersCode(hs, FuncAddrs())) &&
    HasCode(m, Table(hs), TableCode(Entries(hs, FuncAddrs()), EXIT)) &&
    HasCode(m, MAIN_FUNC_ENTRY, MainCode(|hs|, Table(hs)))
  }

  /** Handlers follow one another. */
  lemma CodeSnoc(hs: seq<Handler>, funcs: seq<nat>, k: nat)
    requires GoodHandlers(hs, funcs) && k < |hs|
    ensures HandlersCode(hs[..k + 1], funcs) == HandlersCode(hs[..k], funcs) + HandlerCode(hs[k], funcs)
  {
    hide HandlerCode;
    assert hs[..k + 1][..k] == hs[..k];
  }

  lemma {:induction false} CodeUpTo(m: seq<nat>, base: nat, hs: seq<Handler>, funcs: seq<nat>, k: nat)
    requires GoodHandlers(hs, funcs) && k <= |hs| && HasCode(m, base, HandlersCode(hs, funcs))
    ensures HasCode(m, base, HandlersCode(hs[..k], funcs)) && |HandlersCode(hs[..k], funcs)| <= |HandlersCode(hs, funcs)|
    decreases |hs| - k
  {
    hide HandlerCode, HasCode, HandlersCode;
    if k < |hs| {
      CodeUpTo(m, base, hs, funcs, k + 1);
      CodeSnoc(hs, funcs, k);
      HasParts(m, base, HandlersCode(hs[..k], funcs), HandlerCode(hs[k], funcs));
    } else {
      assert hs[..k] == hs;
    }
  }

  lemma HandlerAt(m: seq<nat>, base: nat, hs: seq<Handler>, funcs: seq<nat>, i: nat)
    requires GoodHandlers(hs, funcs) && i < |hs| && HasCode(m, base, HandlersCode(hs, funcs))
    ensures HasCode(m, base + |HandlersCode(hs[..i], funcs)|, HandlerCode(hs[i], funcs))
    ensures |HandlersCode(hs[..i + 1], funcs)| == |HandlersCode(hs[..i], funcs)| + |HandlerCode(hs[i], funcs)|
    ensures |HandlersCode(hs[..i + 1], funcs)| <= |HandlersCode(hs, funcs)|
  {
    hide HandlerCode, HasCode, HandlersCode;
    CodeUpTo(m, base, hs, funcs, i + 1);
    CodeSnoc(hs, funcs, i);
    HasParts(m, base, HandlersCode(hs[..i], funcs), HandlerCode(hs[i], funcs));
  }

  lemma {:induction false} SlotAt(m: seq<nat>, base: nat, entries: seq<nat>, exit: nat, i: nat)
    requires i < |entries| && HasCode(m, base, TableCode(entries, exit))
    ensures HasCode(m, base + 6 * i, SlotCode(entries[i], exit))
    decreases |entries|
  {
    hide SlotCode, HasCode;
    var last := |entries| - 1;
    HasParts(m, base, TableCode(entries[..last], exit), SlotCode(entries[last], exit));
    if i < last {
      SlotAt(m, base, entries[..last], exit, i);
    }
  }

  lemma {:induction false} HandlersLength(hs: seq<Handler>, funcs: seq<nat>)
    requires GoodHandlers(hs, funcs)
    ensures |HandlersCode(hs, funcs)| >= 4 * |hs|
    decreases |hs|
  {
    hide HandlerCode;
    if hs != [] {
      HandlersLength(hs[..|hs| - 1], funcs);
    }
  }

  /** Every handler of a linked table lies at its recorded address, behind the handlers before it and
      before those behind it, and its slot calls it; there are never more than 25. */
  lemma LinkedLayout(m: seq<nat>, hs: seq<Handler>, i: nat)
    requires Linked(m, hs) && i < |hs|
    ensures var f := FuncAddrs();
            HasCode(m, HandlerAddr(hs, f, i), HandlerCode(hs[i], f)) &&
            HandlerAddr(hs, f, i) + |HandlerCode(hs[i], f)| == HandlerAddr(hs, f, i + 1) <= Table(hs)
    ensures HasCode(m, Table(hs) + 6 * i, SlotCode(HandlerAddr(hs, FuncAddrs(), i), EXIT))
    ensures VAL_HANDLER_START <= HandlerAddr(hs, FuncAddrs(), i) && |hs| <= 25
    ensures Table(hs) + 6 * |hs| <= MAIN_FUNC_ENTRY
  {
    hide HasCode, HandlerCode, MainCode, FunctionsLoaded;
    hide TableCode, SlotCode;
    assert hs[..|hs|] == hs;
    HandlersLength(hs, FuncAddrs());
    HandlerAt(m, VAL_HANDLER_START, hs, FuncAddrs(), i);
    SlotAt(m, Table(hs), Entries(hs, FuncAddrs()), EXIT, i);
  }

  /** With any table of handlers, a value below their number calls that handler: registers saved,
      first data pointer, register bank three, and a return address in the handler's own slot. */
  lemma HandlerIsCalled(rom: Rom, s: Cpu, hs: seq<Handler>) returns (t: Cpu)
    requires Valid(s) && Linked(s.xram, hs) && s.pc == MAIN_FUNC_ENTRY && s.iram[PARAM] < |hs|
    requires s.sp + 10 <= 255 && !(s.sp < PARAM <= s.sp + 8)
    ensures Reaches(rom, s, t) && Valid(t) && RetAddr(t) == Table(hs) + 6 * s.iram[PARAM] + 3
    ensures t == s.(pc := HandlerAddr(hs, FuncAddrs(), s.iram[PARAM]), sp := s.sp + 10, acc := t.acc, b := t.b,
                    dptr0 := t.dptr0, tgl := 0, psw := t.psw, iram := t.iram) && t.psw.rs == 3
    ensures Saved(s, t.iram) && forall i :: 0 <= i < 256 && !(s.sp < i <= s.sp + 10) ==> t.iram[i] == s.iram[i]
  {
    hide HasCode, HandlerCode, MainCode, FunctionsLoaded, HandlersCode, TableCode, HandlerAddr, Entries, PswByte, Parity;
    hide CallTo, JumpTo, Reaches;
    var v := s.iram[PARAM];
    LinkedLayout(s.xram, hs, v);
    var u := Dispatches(rom, s, MAIN_FUNC_ENTRY, |hs|, Table(hs));
    SlotReached(v, Table(hs));
    var entry := HandlerAddr(hs, FuncAddrs(), v);
    HasParts(s.xram, u.pc, CallTo(entry), JumpTo(EXIT));
    t := Calls(rom, s, u, u.pc, entry);
  }

  /** And when the handler has returned, the routine does, with every register as it was. */
  lemma HandlerHasReturned(rom: Rom, s: Cpu, u: Cpu, hs: seq<Handler>) returns (t: Cpu)
    requires Valid(s) && Linked(s.xram, hs) && s.iram[PARAM] < |hs| && 2 <= s.sp
    requires Reaches(rom, s, u) && Valid(u) && u.pc == Table(hs) + 6 * s.iram[PARAM] + 3 && u.sp == s.sp + 8
    requires Saved(s, u.iram) && u.iram[s.sp] == s.iram[s.sp] && u.iram[s.sp - 1] == s.iram[s.sp - 1]
    requires CodeAreaKept(s.xram, u.xram)
    ensures Reaches(rom, s, t) && Valid(t)
    ensures t == u.(pc := RetAddr(s), sp := s.sp - 2, psw := s.psw, tgl := s.tgl, dptr0 := s.dptr0, dptr1 := s.dptr1,
                    b := s.b, acc := s.acc)
  {
    hide HasCode, HandlerCode, FunctionsLoaded, HandlersCode, TableCode, HandlerAddr, Entries, PswByte, Parity;
    hide CallTo, JumpTo, Reaches, CodeAreaKept, Part1, Part2, DptrTo, MainExit, MainCode, Saved;
    var v := s.iram[PARAM];
    LinkedLayout(s.xram, hs, v);
    var entry := HandlerAddr(hs, FuncAddrs(), v);
    HasParts(s.xram, Table(hs) + 6 * v, CallTo(entry), JumpTo(EXIT));
    MainParts(s.xram, MAIN_FUNC_ENTRY, |hs|, Table(hs));
    CodeCarried(s.xram, u.xram, u.pc, JumpTo(EXIT));
    CodeCarried(s.xram, u.xram, EXIT, MainExit());
    LinkOps(EXIT);
    var w := DoLjmp(rom, s, u, u.pc, JumpTo(EXIT), 0, EXIT);
    t := Restores(rom, s, w, EXIT);
    ReachesTrans(rom, s, w, t);
  }

  /* ---------- The tool's own handlers ---------- */

  lemma CallsAre()
    ensures CallsCode([0], FuncAddrs()) == CallTo(0xf100) && CallsCode([1, 2], FuncAddrs()) == CallTo(0xf124) + CallTo(0xf148)
  {
    hide CallTo;
    assert [0][..0] == [] && [1, 2][..1] == [1] && [1][..0] == [];
    assert CallsCode([0], FuncAddrs()) == CallsCode([], FuncAddrs()) + CallTo(0xf100);
    assert CallsCode([1], FuncAddrs()) == CallsCode([], FuncAddrs()) + CallTo(0xf124);
    assert CallsCode([1, 2], FuncAddrs()) == CallsCode([1], FuncAddrs()) + CallTo(0xf148);
  }

  lemma HandlerCodes()
    ensures HandlerCode(DumpHandlers()[0], FuncAddrs()) == PmemCode(0x15)
    ensures HandlerCode(DumpHandlers()[1], FuncAddrs()) == PmemCode(0x2a)
    ensures HandlerCode(DumpHandlers()[2], FuncAddrs()) == RamCode()
  {
    hide CallTo, CallsCode, Exit0, Exit2;
    CallsAre();
    assert Entry0() == BankEntry(0x15) && Entry1() == BankEntry(0x2a) && Exit1() == Exit0() by { Banks(); }
  }

  lemma Banks()
    ensures Entry0() == BankEntry(0x15) && Entry1() == BankEntry(0x2a) && Exit1() == Exit0()
  {
  }

  /** Their addresses. */
  lemma HandlerPlaces()
    ensures HandlerAddr(DumpHandlers(), FuncAddrs(), 0) == 0xf200 && HandlerAddr(DumpHandlers(), FuncAddrs(), 1) == 0xf20e
    ensures HandlerAddr(DumpHandlers(), FuncAddrs(), 2) == 0xf21c && Table(DumpHandlers()) == 0xf248
    ensures Fits(DumpHandlers())
  {
    hide HandlerCode, DumpHandlers, FuncAddrs;
    var hs := DumpHandlers();
    HandlerCodes();
    assert hs[..0] == [] && hs[..3] == hs && hs[..3][..2] == hs[..2] && hs[..2][..1] == hs[..1] && hs[..1][..0] == [];
    assert |HandlersCode(hs[..1], FuncAddrs())| == 14;
    assert |HandlersCode(hs[..2], FuncAddrs())| == 28;
    assert |HandlersCode(hs[..3], FuncAddrs())| == 72;
  }

  /** A copy below the code and the signal byte leave the code area alone. */
  lemma SignalKeepsCode(m: seq<nat>, n: seq<nat>)
    requires CodeAreaKept(m, n)
    ensures CodeAreaKept(m, n[0xf1ff := 0xff])
  {
  }

  lemma RamDumpedKeepsCode(m: seq<nat>, image: seq<nat>, sfrs: seq<nat>)
    requires |m| == 0x1_0000 && |image| == 256 && |sfrs| == 8
    ensures CodeAreaKept(m, RamDumped(m, image, sfrs))
  {
    hide Written;
    var a := Written(m, 0x2000, m[..0x2000]);
    LowWritesKeepCode(m, 0x2000, m[..0x2000]);
    LowWritesKeepCode(a, 0x4000, image);
    LowWritesKeepCode(Written(a, 0x4000, image), 0x4100, sfrs);
  }

  /** A caller's stack for the payload: room for fourteen bytes, clear of the working registers and
      of the requested value. */
  predicate GoodStack(sp: nat) { StackFree(sp, 14) && !(sp < PARAM <= sp + 8) }

  /** The machine is back at the caller with every register as it was; what internal memory the
      payload used lies beyond the caller's stack, and in r0 and r1 of bank three. */
  predicate BackAtCaller(s: Cpu, t: Cpu) {
    Valid(s) && t == s.(pc := RetAddr(s), sp := t.sp, iram := t.iram, xram := t.xram) && t.sp + 2 == s.sp &&
    IramKept(s.iram, t.iram, s.sp + 1, s.sp + 14)
  }

  predicate AtPayload(s: Cpu) {
    Valid(s) && Linked(s.xram, DumpHandlers()) && s.pc == MAIN_FUNC_ENTRY && GoodStack(s.sp)
  }

  lemma SavedStays(s: Cpu, m: seq<nat>, n: seq<nat>, hi: nat)
    requires Saved(s, m) && IramKept(m, n, s.sp + 11, hi) && StackFree(s.sp, 10)
    ensures Saved(s, n) && n[s.sp] == m[s.sp] && n[s.sp - 1] == m[s.sp - 1]
  {
  }

  lemma FramesJoin(s: Cpu, m: seq<nat>, n: seq<nat>, hi: nat)
    requires Valid(s) && IramKept(m, n, s.sp + 11, hi) && hi <= s.sp + 14 && |m| == 256
    requires forall i :: 0 <= i < 256 && !(s.sp < i <= s.sp + 10) ==> m[i] == s.iram[i]
    ensures IramKept(s.iram, n, s.sp + 1, s.sp + 14)
  {
  }

  /** Values 0 and 1: external memory receives the bank's code memory, and nothing else changes there but
      the signal byte. */
  lemma PmemRuns(rom: Rom, s: Cpu) returns (t: Cpu)
    requires AtPayload(s) && s.iram[PARAM] < 2
    ensures Reaches(rom, s, t) && Valid(t) && BackAtCaller(s, t)
    ensures t.xram == Written(s.xram, 0x2000, BankBytes(rom, if s.iram[PARAM] == 0 then 0x15 else 0x2a))[0xf1ff := 0xff]
  {
    hide HasCode, HandlerCode, FunctionsLoaded, HandlersCode, TableCode, HandlerAddr, Entries, PswByte, Parity;
    hide Reaches, CodeAreaKept, MainCode, Saved, PmemCode, RamCode, Written, BankBytes, IramKept, DumpHandlers;
    HandlerPlaces();
    HandlerCodes();
    var v, hs := s.iram[PARAM], DumpHandlers();
    var bank := if v == 0 then 0x15 else 0x2a;
    LinkedLayout(s.xram, hs, v);
    var u := HandlerIsCalled(rom, s, hs);
    var w := PmemHandler(rom, u, u.pc, bank);
    ReachesTrans(rom, s, u, w);
    SavedStays(s, u.iram, w.iram, s.sp + 14);
    FramesJoin(s, u.iram, w.iram, s.sp + 14);
    LowWritesKeepCode(s.xram, 0x2000, BankBytes(rom, bank));
    SignalKeepsCode(s.xram, Written(s.xram, 0x2000, BankBytes(rom, bank)));
    t := HandlerHasReturned(rom, s, w, hs);
  }

  /** The eight registers the third handler copies, for a payload called from s. */
  function RegistersSeen(s: Cpu): (r: seq<nat>)
    requires Valid(s) && s.sp + 10 <= 255
    ensures |r| == 8
  {
    [s.sfrs[0x00], s.sp + 10, s.sfrs[0x10], s.sfrs[0x20], s.ie, s.sfrs[0x30], s.sfrs[0x38], s.bank]
  }

  lemma RegistersAre(s: Cpu, u: Cpu)
    requires Valid(s) && Valid(u) && s.sp + 10 <= 255
    requires u == s.(pc := u.pc, sp := s.sp + 10, acc := u.acc, b := u.b, dptr0 := u.dptr0, tgl := 0, psw := u.psw, iram := u.iram)
    ensures SfrValues(u, DumpedSfrs()) == RegistersSeen(s)
  {
  }

  /** An image of internal memory taken while the payload runs: the caller's registers are on the
      stack it shows, and everything outside the payload's own stack and r0, r1 is the caller's. */
  predicate ImageOf(s: Cpu, image: seq<nat>) {
    Saved(s, image) && IramKept(s.iram, image, s.sp + 1, s.sp + 14) && image[0x18] == 0xe8 && image[0x19] == 0x19
  }

  /** Value 2: memory and registers are dumped. */
  lemma RamRuns(rom: Rom, s: Cpu) returns (t: Cpu, image: seq<nat>)
    requires AtPayload(s) && s.iram[PARAM] == 2
    ensures Reaches(rom, s, t) && Valid(t) && BackAtCaller(s, t)
    ensures ImageOf(s, image) && t.xram == RamDumped(s.xram, image, RegistersSeen(s))
  {
    hide HasCode, HandlerCode, FunctionsLoaded, HandlersCode, TableCode, HandlerAddr, Entries, PswByte, Parity;
    hide Reaches, CodeAreaKept, MainCode, Saved, PmemCode, RamCode, RamDumped, IramKept, DumpHandlers, SfrValues, DumpedSfrs;
    hide RegistersSeen;
    HandlerPlaces();
    HandlerCodes();
    var hs := DumpHandlers();
    LinkedLayout(s.xram, hs, 2);
    var u := HandlerIsCalled(rom, s, hs);
    var w;
    w, image := RamHandler(rom, u, u.pc);
    ReachesTrans(rom, s, u, w);
    RegistersAre(s, u);
    SavedStays(s, u.iram, w.iram, s.sp + 13);
    FramesJoin(s, u.iram, w.iram, s.sp + 13);
    SavedStays(s, u.iram, image, s.sp + 13);
    FramesJoin(s, u.iram, image, s.sp + 13);
    RamDumpedKeepsCode(s.xram, image, RegistersSeen(s));
    t := HandlerHasReturned(rom, s, w, hs);
  }

  /** Any other value: nothing happens. */
  lemma OthersReturn(rom: Rom, s: Cpu) returns (t: Cpu)
    requires AtPayload(s) && s.iram[PARAM] >= 3
    ensures Reaches(rom, s, t) && Valid(t) && BackAtCaller(s, t) && t.xram == s.xram
  {
    hide HasCode, HandlerCode, FunctionsLoaded, HandlersCode, TableCode, HandlerAddr, Entries, PswByte, Parity;
    hide Reaches, MainCode, Saved, DumpHandlers, MainExit, Part1, Part2, DptrTo;
    HandlerPlaces();
    var u := Dispatches(rom, s, MAIN_FUNC_ENTRY, 3, 0xf248);
    MainParts(s.xram, MAIN_FUNC_ENTRY, 3, 0xf248);
    SavedStays(s, u.iram, u.iram, s.sp + 11);
    t := Restores(rom, s, u, EXIT);
    ReachesTrans(rom, s, u, t);
  }

  /** External memory shows the bank's code memory, and is as it was elsewhere. */
  predicate BankShown(rom: Rom, s: Cpu, m: seq<nat>, bank: nat) {
    |m| == |s.xram| == 0x1_0000 &&
    forall p :: 0 <= p < 0x1_0000 ==>
      m[p] == if 0x2000 <= p < 0x8000 then rom(bank, 0x6000 + p) % 256 else if p == 0xf1ff then 0xff else s.xram[p]
  }

  /** The byte at p of memory dumped with this image of internal memory: memory below 0x2000 again,
      the image, eight registers, the signal. */
  function DumpByte(s: Cpu, image: seq<nat>, p: nat): nat
    requires Valid(s) && s.sp + 10 <= 255 && |image| == 256 && p < 0x1_0000
  {
    if 0x2000 <= p < 0x4000 then s.xram[p - 0x2000]
    else if 0x4000 <= p < 0x4100 then image[p - 0x4000]
    else if 0x4100 <= p < 0x4108 then RegistersSeen(s)[p - 0x4100]
    else if p == 0xf1ff then 0xff else s.xram[p]
  }

  /** External memory shows this image of internal memory and is otherwise as it was. */
  predicate RamShown(s: Cpu, m: seq<nat>, image: seq<nat>) {
    Valid(s) && |m| == 0x1_0000 && s.sp + 10 <= 255 && ImageOf(s, image) && |image| == 256 &&
    forall p :: 0 <= p < 0x1_0000 ==> m[p] == DumpByte(s, image, p)
  }

  /** External memory after a run: all 64 KiB of it. */
  ghost predicate Outcome(rom: Rom, s: Cpu, m: seq<nat>)
    requires Valid(s)
  {
    var v := s.iram[PARAM];
    (v == 0 ==> BankShown(rom, s, m, 0x15)) &&
    (v == 1 ==> BankShown(rom, s, m, 0x2a)) &&
    (v == 2 ==> exists image :: RamShown(s, m, image)) &&
    (v >= 3 ==> m == s.xram)
  }

  lemma PmemOutcome(rom: Rom, m: seq<nat>, bank: nat, p: nat)
    requires |m| == 0x1_0000 && p < 0x1_0000
    ensures Written(m, 0x2000, BankBytes(rom, bank))[0xf1ff := 0xff][p] ==
            if 0x2000 <= p < 0x8000 then rom(bank, 0x6000 + p) % 256 else if p == 0xf1ff then 0xff else m[p]
  {
    hide Written;
    WrittenAt(m, 0x2000, BankBytes(rom, bank), p);
  }

  lemma RamOutcome(s: Cpu, image: seq<nat>, p: nat)
    requires Valid(s) && s.sp + 10 <= 255 && |image| == 256 && p < 0x1_0000
    ensures RamDumped(s.xram, image, RegistersSeen(s))[p] == DumpByte(s, image, p)
  {
    hide Written, RegistersSeen;
    var m, sfrs := s.xram, RegistersSeen(s);
    var a := Written(m, 0x2000, m[..0x2000]);
    WrittenAt(m, 0x2000, m[..0x2000], p);
    WrittenAt(a, 0x4000, image, p);
    WrittenAt(Written(a, 0x4000, image), 0x4100, sfrs, p);
  }

  lemma PmemShows(rom: Rom, s: Cpu, bank: nat)
    requires Valid(s)
    ensures BankShown(rom, s, Written(s.xram, 0x2000, BankBytes(rom, bank))[0xf1ff := 0xff], bank)
  {
    hide BankBytes, Written;
    var m := Written(s.xram, 0x2000, BankBytes(rom, bank))[0xf1ff := 0xff];
    forall p | 0 <= p < 0x1_0000
      ensures m[p] == if 0x2000 <= p < 0x8000 then rom(bank, 0x6000 + p) % 256 else if p == 0xf1ff then 0xff else s.xram[p]
    {
      PmemOutcome(rom, s.xram, bank, p);
    }
  }

  lemma RamShows(s: Cpu, image: seq<nat>)
    requires Valid(s) && s.sp + 10 <= 255 && ImageOf(s, image)
    ensures RamShown(s, RamDumped(s.xram, image, RegistersSeen(s)), image)
  {
    hide RamDumped, DumpByte, RegistersSeen;
    RamDumpedKeepsCode(s.xram, image, RegistersSeen(s));
    forall p | 0 <= p < 0x1_0000
      ensures RamDumped(s.xram, image, RegistersSeen(s))[p] == DumpByte(s, image, p)
    {
      RamOutcome(s, image, p);
    }
  }

  /** The payload, for every value and from every state: it terminates, it is back at the caller with
      every register as it was, and external memory holds what the value asked for. */
  lemma PayloadRuns(rom: Rom, s: Cpu) returns (t: Cpu)
    requires AtPayload(s)
    ensures Reaches(rom, s, t) && BackAtCaller(s, t) && Outcome(rom, s, t.xram)
  {
    hide Reaches, Linked, BackAtCaller, RamDumped, ImageOf, Written, RegistersSeen, BankBytes, DumpHandlers;
    hide BankShown, RamShown;
    if s.iram[PARAM] < 2 {
      t := PmemRuns(rom, s);
      PmemShows(rom, s, if s.iram[PARAM] == 0 then 0x15 else 0x2a);
    } else if s.iram[PARAM] == 2 {
      var image;
      t, image := RamRuns(rom, s);
      RamShows(s, image);
    } else {
      t := OthersReturn(rom, s);
    }
  }
}
