/** The linker: it writes the generic functions, the handlers, the main routine and the jump table into
    the device's external memory, and records where everything lies. */
module Linker {
  import opened CopyLoops
  import opened DumpRoutines
  import opened Exram
  import opened Handlers
  import opened Linking
  import opened Mcs51
  import opened Payload
  import opened PayloadRun

  /** ca0132_dump_state_data */
  class DumpState {
    var funcAddr: seq<nat>
    var entryAddr: nat
    var exitAddr: nat
    var jmpTblAddr: nat
    var handlers: seq<Handler>
    var handlerAddr: seq<nat>

    constructor (handlers: seq<Handler>)
      ensures this.handlers == handlers && funcAddr == [] && handlerAddr == []
    {
      this.handlers := handlers;
      funcAddr, handlerAddr := [], [];
      entryAddr, exitAddr, jmpTblAddr := 0, 0, 0;
    }
  }

  predicate IsBytes(b: seq<nat>) { |b| < 0x1_0000 && forall i :: 0 <= i < |b| ==> b[i] < 256 }

  predicate AreBytes(hs: seq<Handler>) { forall i :: 0 <= i < |hs| ==> IsBytes(hs[i].entry) && IsBytes(hs[i].exit) }

  predicate AreAddresses(a: seq<nat>) { forall i :: 0 <= i < |a| ==> a[i] < 0x1_0000 }

  /** Writing a piece behind what is written already. */
  method Emit(dev: Device, ghost m: seq<nat>, ghost start: nat, ghost done: seq<nat>, offset: nat, bytes: seq<nat>)
    returns (next: nat)
    requires dev.Valid() && IsBytes(bytes) && |m| == 0x1_0000 && start < 0x1_0000
    requires dev.exram == Written(m, start, done) && offset == Addr(start, |done|)
    modifies dev
    ensures dev.Valid() && dev.exram == Written(m, start, done + bytes) && next == Addr(start, |done + bytes|)
  {
    hide Written, Addr;
    WriteExramDataRange(dev, offset, bytes);
    WrittenJoin(m, start, done, bytes);
    AddrAdds(start, |done|, |bytes|);
    next := NextOffset(offset, |bytes|);
  }

  /** Offsets have sixteen bits. */
  function NextOffset(offset: nat, size: nat): (r: nat)
    ensures r == Addr(offset, size)
  {
    (offset + size) % 0x1_0000
  }

  lemma CallBytes(a: nat)
    requires a < 0x1_0000
    ensures IsBytes(CallTo(a)) && IsBytes(JumpTo(a)) && IsBytes(DptrTo(a))
  {
  }

  lemma FuncBytes()
    ensures IsBytes(Func0()) && IsBytes(Func1()) && IsBytes(Func2()) && IsBytes(Func3())
  {
  }

  lemma MainBytes()
    ensures IsBytes(Part1()) && IsBytes(Part2()) && IsBytes(MainExit())
  {
  }

  lemma Begins(m: seq<nat>, start: nat)
    requires |m| == 0x1_0000 && start < 0x1_0000
    ensures m == Written(m, start, []) && start == Addr(start, 0)
  {
  }

  /** write_8051_mem_dump_functions */
  method WriteMemDumpFunctions(dev: Device, data: DumpState)
    requires dev.Valid()
    modifies dev, data`funcAddr
    ensures dev.Valid() && dev.exram == Written(old(dev.exram), GEN_FUNC_START, FunctionsCode())
    ensures data.funcAddr == FuncAddrs()
  {
    hide Written, Addr, Func0, Func1, Func2, Func3, IsBytes;
    ghost var m := dev.exram;
    FuncBytes();
    Begins(m, GEN_FUNC_START);
    var offset := GEN_FUNC_START;
    data.funcAddr := [offset];
    offset := Emit(dev, m, GEN_FUNC_START, [], offset, Func0());
    assert [] + Func0() == Func0();
    data.funcAddr := data.funcAddr + [offset];
    offset := Emit(dev, m, GEN_FUNC_START, Func0(), offset, Func1());
    data.funcAddr := data.funcAddr + [offset];
    offset := Emit(dev, m, GEN_FUNC_START, Func0() + Func1(), offset, Func2());
    data.funcAddr := data.funcAddr + [offset];
    offset := Emit(dev, m, GEN_FUNC_START, Func0() + Func1() + Func2(), offset, Func3());
    FunctionPlaces();
  }

  lemma FunctionPlaces()
    ensures Addr(0xf100, 36) == 0xf124 && Addr(0xf100, 72) == 0xf148 && Addr(0xf100, 97) == 0xf161
  {
  }

  lemma CallsGrow(calls: seq<nat>, funcs: seq<nat>, j: nat)
    requires j < |calls| && forall k :: 0 <= k < |calls| ==> calls[k] < |funcs|
    ensures CallsCode(calls[..j + 1], funcs) == CallsCode(calls[..j], funcs) + CallTo(funcs[calls[j]])
  {
    hide CallTo;
    assert calls[..j + 1][..j] == calls[..j];
  }

  lemma NoCalls(calls: seq<nat>, funcs: seq<nat>)
    requires forall k :: 0 <= k < |calls| ==> calls[k] < |funcs|
    ensures CallsCode(calls[..0], funcs) == []
  {
  }

  /** The handler's calls of generic functions, linked to where these lie. */
  method WriteCalls(dev: Device, funcs: seq<nat>, ghost m: seq<nat>, ghost done: seq<nat>, calls: seq<nat>, offset: nat)
    returns (next: nat)
    requires dev.Valid() && |m| == 0x1_0000 && AreAddresses(funcs) && forall j :: 0 <= j < |calls| ==> calls[j] < |funcs|
    requires dev.exram == Written(m, VAL_HANDLER_START, done) && offset == Addr(VAL_HANDLER_START, |done|)
    modifies dev
    ensures dev.Valid() && dev.exram == Written(m, VAL_HANDLER_START, done + CallsCode(calls, funcs))
    ensures next == Addr(VAL_HANDLER_START, |done + CallsCode(calls, funcs)|)
  {
    hide Written, Addr, CallTo, IsBytes, CallsCode;
    next := offset;
    NoCalls(calls, funcs);
    assert done + [] == done;
    for j := 0 to |calls|
      invariant dev.Valid() && dev.exram == Written(m, VAL_HANDLER_START, done + CallsCode(calls[..j], funcs))
      invariant next == Addr(VAL_HANDLER_START, |done + CallsCode(calls[..j], funcs)|)
    {
      var target := funcs[calls[j]];
      CallBytes(target);
      next := Emit(dev, m, VAL_HANDLER_START, done + CallsCode(calls[..j], funcs), next, CallTo(target));
      CallsGrow(calls, funcs, j);
      assert done + CallsCode(calls[..j], funcs) + CallTo(target) == done + CallsCode(calls[..j + 1], funcs);
    }
    assert calls[..|calls|] == calls;
  }

  /** One handler: its address is recorded, its bytes are written. */
  method WriteHandler(dev: Device, data: DumpState, ghost m: seq<nat>, ghost done: seq<nat>, h: Handler, offset: nat)
    returns (next: nat)
    requires dev.Valid() && |m| == 0x1_0000 && GoodHandler(h, data.funcAddr) && AreAddresses(data.funcAddr)
    requires IsBytes(h.entry) && IsBytes(h.exit)
    requires dev.exram == Written(m, VAL_HANDLER_START, done) && offset == Addr(VAL_HANDLER_START, |done|)
    modifies dev, data`handlerAddr
    ensures dev.Valid() && dev.exram == Written(m, VAL_HANDLER_START, done + HandlerCode(h, data.funcAddr))
    ensures next == Addr(VAL_HANDLER_START, |done + HandlerCode(h, data.funcAddr)|)
    ensures data.handlerAddr == old(data.handlerAddr) + [offset]
  {
    hide Written, Addr, CallTo, IsBytes, CallsCode;
    ghost var start := VAL_HANDLER_START;
    data.handlerAddr := data.handlerAddr + [offset];
    next := Emit(dev, m, start, done, offset, h.entry);
    next := WriteCalls(dev, data.funcAddr, m, done + h.entry, h.calls, next);
    ghost var called := done + h.entry + CallsCode(h.calls, data.funcAddr);
    next := Emit(dev, m, start, called, next, h.exit);
    CallBytes(data.funcAddr[SIGNAL]);
    next := Emit(dev, m, start, called + h.exit, next, CallTo(data.funcAddr[SIGNAL]));
    WriteExramAtAddr(dev, next, 0x22);
    WrittenJoin(m, start, called + h.exit + CallTo(data.funcAddr[SIGNAL]), [0x22]);
    AddrAdds(start, |called + h.exit| + 3, 1);
    next := NextOffset(next, 1);
    assert called + h.exit + CallTo(data.funcAddr[SIGNAL]) + [0x22] == done + HandlerCode(h, data.funcAddr);
  }

  lemma HandlersGrow(hs: seq<Handler>, funcs: seq<nat>, i: nat)
    requires GoodHandlers(hs, funcs) && i < |hs|
    ensures HandlersCode(hs[..i + 1], funcs) == HandlersCode(hs[..i], funcs) + HandlerCode(hs[i], funcs)
  {
    assert hs[..i + 1][..i] == hs[..i];
  }

  /** write_8051_mem_dump_handlers: the handlers, one behind the other, whatever they are. */
  method WriteMemDumpHandlers(dev: Device, data: DumpState)
    requires dev.Valid() && AreAddresses(data.funcAddr)
    requires |data.funcAddr| == 4 && GoodHandlers(data.handlers, data.funcAddr) && AreBytes(data.handlers)
    modifies dev, data`handlerAddr, data`jmpTblAddr
    ensures dev.Valid() && dev.exram == Written(old(dev.exram), VAL_HANDLER_START, HandlersCode(data.handlers, data.funcAddr))
    ensures data.handlerAddr == Entries(data.handlers, data.funcAddr)
    ensures data.jmpTblAddr == HandlerAddr(data.handlers, data.funcAddr, |data.handlers|)
  {
    hide Written, Addr, HandlerCode, HandlersCode, IsBytes;
    ghost var m := dev.exram;
    var hs, funcs := data.handlers, data.funcAddr;
    Begins(m, VAL_HANDLER_START);
    NoHandlers(hs, funcs);
    var offset := VAL_HANDLER_START;
    data.handlerAddr := [];
    for i := 0 to |hs|
      invariant dev.Valid() && data.handlers == hs && data.funcAddr == funcs
      invariant dev.exram == Written(m, VAL_HANDLER_START, HandlersCode(hs[..i], funcs))
      invariant offset == HandlerAddr(hs, funcs, i)
      invariant |data.handlerAddr| == i && forall k :: 0 <= k < i ==> data.handlerAddr[k] == HandlerAddr(hs, funcs, k)
    {
      offset := WriteHandler(dev, data, m, HandlersCode(hs[..i], funcs), hs[i], offset);
      HandlersGrow(hs, funcs, i);
    }
    data.jmpTblAddr := offset;
    assert hs[..|hs|] == hs;
  }

  lemma NoHandlers(hs: seq<Handler>, funcs: seq<nat>)
    requires GoodHandlers(hs, funcs)
    ensures HandlersCode(hs[..0], funcs) == []
  {
  }

  /** write_8051_mem_dump_entry_exit: the count of handlers and the table's address are filled in. */
  method WriteMemDumpEntryExit(dev: Device, data: DumpState)
    requires dev.Valid() && data.jmpTblAddr < 0x1_0000
    modifies dev, data`entryAddr, data`exitAddr
    ensures dev.Valid()
    ensures dev.exram == Written(old(dev.exram), MAIN_FUNC_ENTRY, MainCode(|data.handlers| % 256, data.jmpTblAddr))
    ensures data.entryAddr == MAIN_FUNC_ENTRY && data.exitAddr == EXIT
  {
    hide Written, Addr, Part1, Part2, DptrTo, MainExit, IsBytes;
    ghost var m, start := dev.exram, MAIN_FUNC_ENTRY;
    var offset := MAIN_FUNC_ENTRY;
    data.entryAddr := offset;
    MainBytes();
    CallBytes(data.jmpTblAddr);
    Begins(m, start);
    offset := Emit(dev, m, start, [], offset, Part1());
    assert [] + Part1() == Part1();
    var count := |data.handlers| % 256;
    WriteExramAtAddr(dev, offset, count);
    WrittenJoin(m, start, Part1(), [count]);
    AddrAdds(start, 25, 1);
    offset := NextOffset(offset, 1);
    offset := Emit(dev, m, start, Part1() + [count], offset, Part2());
    offset := Emit(dev, m, start, Part1() + [count] + Part2(), offset, DptrTo(data.jmpTblAddr));
    ghost var done := Part1() + [count] + Part2() + DptrTo(data.jmpTblAddr);
    WriteExramAtAddr(dev, offset, 0x73);
    WrittenJoin(m, start, done, [0x73]);
    AddrAdds(start, 37, 1);
    offset := NextOffset(offset, 1);
    data.exitAddr := offset;
    ExitPlace();
    offset := Emit(dev, m, start, done + [0x73], offset, MainExit());
  }

  lemma ExitPlace()
    ensures Addr(MAIN_FUNC_ENTRY, 38) == EXIT
  {
  }

  /** write_8051_handler_jmp_table */
  method WriteHandlerJmpTable(dev: Device, data: DumpState)
    requires dev.Valid() && data.jmpTblAddr < 0x1_0000 && data.exitAddr < 0x1_0000
    requires |data.handlerAddr| == |data.handlers| && AreAddresses(data.handlerAddr)
    modifies dev
    ensures dev.Valid() && dev.exram == Written(old(dev.exram), data.jmpTblAddr, TableCode(data.handlerAddr, data.exitAddr))
  {
    hide Written, Addr, CallTo, JumpTo, IsBytes, TableCode;
    ghost var m, start := dev.exram, data.jmpTblAddr;
    var offset := data.jmpTblAddr;
    Begins(m, start);
    TableGrows(data.handlerAddr, data.exitAddr);
    CallBytes(data.exitAddr);
    for i := 0 to |data.handlers|
      invariant dev.Valid() && dev.exram == Written(m, start, TableCode(data.handlerAddr[..i], data.exitAddr))
      invariant offset == Addr(start, |TableCode(data.handlerAddr[..i], data.exitAddr)|)
    {
      ghost var done := TableCode(data.handlerAddr[..i], data.exitAddr);
      CallBytes(data.handlerAddr[i]);
      offset := Emit(dev, m, start, done, offset, CallTo(data.handlerAddr[i]));
      offset := Emit(dev, m, start, done + CallTo(data.handlerAddr[i]), offset, JumpTo(data.exitAddr));
      assert done + CallTo(data.handlerAddr[i]) + JumpTo(data.exitAddr) == done + SlotCode(data.handlerAddr[i], data.exitAddr);
    }
    assert data.handlerAddr[..|data.handlers|] == data.handlerAddr;
  }

  lemma TableGrows(entries: seq<nat>, exit: nat)
    ensures TableCode(entries[..0], exit) == []
    ensures forall i :: 0 <= i < |entries| ==>
              TableCode(entries[..i + 1], exit) == TableCode(entries[..i], exit) + SlotCode(entries[i], exit)
  {
    hide SlotCode;
    forall i | 0 <= i < |entries|
      ensures TableCode(entries[..i + 1], exit) == TableCode(entries[..i], exit) + SlotCode(entries[i], exit)
    {
      assert entries[..i + 1][..i] == entries[..i];
    }
  }

  /* ---------- All of it ---------- */

  /** External memory with everything written, in the tool's order. */
  function LinkedMemory(m: seq<nat>, hs: seq<Handler>): (r: seq<nat>)
    requires |m| == 0x1_0000 && GoodHandlers(hs, FuncAddrs())
    ensures |r| == 0x1_0000
  {
    var functions := Written(m, GEN_FUNC_START, FunctionsCode());
    var handlers := Written(functions, VAL_HANDLER_START, HandlersCode(hs, FuncAddrs()));
    var main := Written(handlers, MAIN_FUNC_ENTRY, MainCode(|hs| % 256, Table(hs)));
    Written(main, Table(hs), TableCode(Entries(hs, FuncAddrs()), EXIT))
  }

  lemma CodeWritten(m: seq<nat>, base: nat, bytes: seq<nat>)
    requires |m| == 0x1_0000 && 0xe000 <= base && base + |bytes| <= 0x1_0000
    ensures HasCode(Written(m, base, bytes), base, bytes)
  {
    hide Written;
    forall i | 0 <= i < |bytes|
      ensures Written(m, base, bytes)[base..base + |bytes|][i] == bytes[i]
    {
      WrittenAt(m, base, bytes, base + i);
    }
  }

  /** A write to one place leaves code at another alone. */
  lemma CodeStays(m: seq<nat>, at: nat, bytes: seq<nat>, base: nat, code: seq<nat>)
    requires HasCode(m, base, code) && at + |bytes| <= 0x1_0000 && (at + |bytes| <= base || base + |code| <= at)
    ensures HasCode(Written(m, at, bytes), base, code)
  {
    hide Written, HasCode;
    forall i | 0 <= i < |bytes|
      ensures Addr(at, i) == at + i
    {
    }
    CodeKeptWritten(m, base, code, at, bytes);
  }

  lemma FunctionParts(m: seq<nat>)
    requires HasCode(m, GEN_FUNC_START, FunctionsCode())
    ensures FunctionsLoaded(m)
  {
    hide HasCode, Func0, Func1, Func2, Func3;
    HasParts(m, GEN_FUNC_START, Func0() + Func1() + Func2(), Func3());
    HasParts(m, GEN_FUNC_START, Func0() + Func1(), Func2());
    HasParts(m, GEN_FUNC_START, Func0(), Func1());
  }

  /** When handlers and table fit below the main routine, no piece overwrites another. */
  lemma LinkedMemoryIsLinked(m: seq<nat>, hs: seq<Handler>)
    requires |m| == 0x1_0000 && Fits(hs)
    ensures Linked(LinkedMemory(m, hs), hs)
  {
    hide HasCode, FunctionsCode, HandlersCode, MainCode, TableCode, Written, FunctionsLoaded, Entries;
    assert hs[..|hs|] == hs;
    HandlersLength(hs, FuncAddrs());
    var fc, hc, mc, tc := FunctionsCode(), HandlersCode(hs, FuncAddrs()), MainCode(|hs|, Table(hs)),
                          TableCode(Entries(hs, FuncAddrs()), EXIT);
    var functions := Written(m, GEN_FUNC_START, fc);
    var handlers := Written(functions, VAL_HANDLER_START, hc);
    var main := Written(handlers, MAIN_FUNC_ENTRY, mc);
    CodeWritten(m, GEN_FUNC_START, fc);
    CodeStays(functions, VAL_HANDLER_START, hc, GEN_FUNC_START, fc);
    CodeStays(handlers, MAIN_FUNC_ENTRY, mc, GEN_FUNC_START, fc);
    CodeStays(main, Table(hs), tc, GEN_FUNC_START, fc);
    FunctionParts(LinkedMemory(m, hs));
    CodeWritten(functions, VAL_HANDLER_START, hc);
    CodeStays(handlers, MAIN_FUNC_ENTRY, mc, VAL_HANDLER_START, hc);
    CodeStays(main, Table(hs), tc, VAL_HANDLER_START, hc);
    CodeWritten(handlers, MAIN_FUNC_ENTRY, mc);
    CodeStays(main, Table(hs), tc, MAIN_FUNC_ENTRY, mc);
    CodeWritten(main, Table(hs), tc);
  }

  lemma TableIsAddress(hs: seq<Handler>)
    requires GoodHandlers(hs, FuncAddrs())
    ensures Table(hs) < 0x1_0000 && AreAddresses(Entries(hs, FuncAddrs())) && AreAddresses(FuncAddrs())
  {
    hide HandlersCode;
  }

  /** Linking any table of handlers. */
  method Link(dev: Device, data: DumpState)
    requires dev.Valid() && GoodHandlers(data.handlers, FuncAddrs()) && AreBytes(data.handlers)
    modifies dev, data`funcAddr, data`handlerAddr, data`jmpTblAddr, data`entryAddr, data`exitAddr
    ensures dev.Valid() && dev.exram == LinkedMemory(old(dev.exram), data.handlers)
    ensures Fits(data.handlers) ==> Linked(dev.exram, data.handlers)
    ensures data.funcAddr == FuncAddrs() && data.handlerAddr == Entries(data.handlers, FuncAddrs())
    ensures data.jmpTblAddr == Table(data.handlers) && data.entryAddr == MAIN_FUNC_ENTRY && data.exitAddr == EXIT
  {
    hide Written, HandlersCode, MainCode, TableCode, FunctionsCode, Entries, Linked, Fits, HandlerAddr, IsBytes, AreBytes;
    ghost var m := dev.exram;
    TableIsAddress(data.handlers);
    WriteMemDumpFunctions(dev, data);
    WriteMemDumpHandlers(dev, data);
    WriteMemDumpEntryExit(dev, data);
    WriteHandlerJmpTable(dev, data);
    if Fits(data.handlers) {
      LinkedMemoryIsLinked(m, data.handlers);
    }
  }

  /** A handler begins below the end of the handlers. */
  lemma HandlerBelow(m: seq<nat>, hs: seq<Handler>, i: nat)
    requires |m| == 0x1_0000 && GoodHandlers(hs, FuncAddrs()) && |HandlersCode(hs, FuncAddrs())| <= 0x100 && i < |hs|
    ensures 0xf200 <= HandlerAddr(hs, FuncAddrs(), i) < 0xf300
  {
    hide HandlerCode, Written, HasCode;
    var hc := HandlersCode(hs, FuncAddrs());
    CodeWritten(m, VAL_HANDLER_START, hc);
    HandlerAt(Written(m, VAL_HANDLER_START, hc), VAL_HANDLER_START, hs, FuncAddrs(), i);
  }

  /** The byte of a slot that falls on the first byte of the main routine, or the one behind it, differs. */
  lemma SlotIsNotMain(entry: nat, r: nat)
    requires 0xf200 <= entry < 0xf300 && r < 6
    ensures SlotCode(entry, EXIT)[r] != 0xc0 || (r == 2 && SlotCode(entry, EXIT)[3] != 0xe0)
  {
  }

  lemma MainBegins(count: nat, tbl: nat)
    ensures MainCode(count, tbl)[0] == 0xc0 && MainCode(count, tbl)[1] == 0xe0
  {
  }

  lemma CodeByte(m: seq<nat>, base: nat, code: seq<nat>, i: nat)
    requires HasCode(m, base, code) && i < |code|
    ensures m[base + i] == code[i]
  {
    assert m[base..base + |code|][i] == code[i];
  }

  /** A jump table that does not fit always breaks the main routine: the condition is exact for
      handlers that end below it. */
  lemma TableOverrun(m: seq<nat>, hs: seq<Handler>)
    requires |m| == 0x1_0000 && GoodHandlers(hs, FuncAddrs()) && |HandlersCode(hs, FuncAddrs())| <= 0x100
    ensures HasCode(LinkedMemory(m, hs), MAIN_FUNC_ENTRY, MainCode(|hs| % 256, Table(hs))) <==> Fits(hs)
  {
    hide HasCode, FunctionsCode, HandlersCode, MainCode, TableCode, Written, FunctionsLoaded, SlotCode;
    assert hs[..|hs|] == hs;
    HandlersLength(hs, FuncAddrs());
    var l, tbl := LinkedMemory(m, hs), Table(hs);
    if Fits(hs) {
      LinkedMemoryIsLinked(m, hs);
    } else {
      var i, r := (MAIN_FUNC_ENTRY - tbl) / 6, (MAIN_FUNC_ENTRY - tbl) % 6;
      TableInLinked(m, hs);
      SlotAt(l, tbl, Entries(hs, FuncAddrs()), EXIT, i);
      HandlerBelow(m, hs, i);
      var entry := HandlerAddr(hs, FuncAddrs(), i);
      SlotIsNotMain(entry, r);
      MainBegins(|hs| % 256, tbl);
      CodeByte(l, tbl + 6 * i, SlotCode(entry, EXIT), r);
      CodeByte(l, tbl + 6 * i, SlotCode(entry, EXIT), 3);
      if HasCode(l, MAIN_FUNC_ENTRY, MainCode(|hs| % 256, tbl)) {
        CodeByte(l, MAIN_FUNC_ENTRY, MainCode(|hs| % 256, tbl), 0);
        CodeByte(l, MAIN_FUNC_ENTRY, MainCode(|hs| % 256, tbl), 1);
        assert false;
      }
    }
  }

  lemma TableInLinked(m: seq<nat>, hs: seq<Handler>)
    requires |m| == 0x1_0000 && GoodHandlers(hs, FuncAddrs()) && |HandlersCode(hs, FuncAddrs())| <= 0x100
    ensures HasCode(LinkedMemory(m, hs), Table(hs), TableCode(Entries(hs, FuncAddrs()), EXIT))
    ensures 0xf200 <= Table(hs) == 0xf200 + |HandlersCode(hs, FuncAddrs())| <= 0xf300
  {
    hide HasCode, FunctionsCode, HandlersCode, MainCode, TableCode, Written, Entries;
    assert hs[..|hs|] == hs;
    HandlersLength(hs, FuncAddrs());
    var handlers := Written(Written(m, GEN_FUNC_START, FunctionsCode()), VAL_HANDLER_START, HandlersCode(hs, FuncAddrs()));
    CodeWritten(Written(handlers, MAIN_FUNC_ENTRY, MainCode(|hs| % 256, Table(hs))), Table(hs),
                TableCode(Entries(hs, FuncAddrs()), EXIT));
  }

  /* ---------- The tool ---------- */

  const PARAM_ID_36_HANDLER_ADDR := 0x1759

  lemma DumpHandlerBytes()
    ensures AreBytes(DumpHandlers())
  {
  }

  lemma PatchStays(m: seq<nat>, hs: seq<Handler>)
    requires Linked(m, hs) && |m| == 0x1_0000
    ensures Linked(Written(m, PARAM_ID_36_HANDLER_ADDR, [0xf3, 0x00]), hs)
  {
    hide HasCode, HandlersCode, MainCode, TableCode, Written, Func0, Func1, Func2, Func3, CodeAreaKept;
    var n := Written(m, PARAM_ID_36_HANDLER_ADDR, [0xf3, 0x00]);
    LowWritesKeepCode(m, PARAM_ID_36_HANDLER_ADDR, [0xf3, 0x00]);
    FunctionsCarried(m, n);
    assert hs[..|hs|] == hs;
    CodeCarried(m, n, VAL_HANDLER_START, HandlersCode(hs, FuncAddrs()));
    CodeCarried(m, n, Table(hs), TableCode(Entries(hs, FuncAddrs()), EXIT));
    CodeCarried(m, n, MAIN_FUNC_ENTRY, MainCode(|hs|, Table(hs)));
  }

  /** The payload written by the tool is in place, and parameter 36 leads to it. */
  method WritePayload(dev: Device) returns (data: DumpState)
    requires dev.Valid()
    modifies dev
    ensures dev.Valid() && Linked(dev.exram, DumpHandlers())
    ensures dev.exram == Written(LinkedMemory(old(dev.exram), DumpHandlers()), PARAM_ID_36_HANDLER_ADDR, [0xf3, 0x00])
    ensures fresh(data) && data.handlerAddr == [0xf200, 0xf20e, 0xf21c] && data.jmpTblAddr == 0xf248 && data.exitAddr == 0xf326
  {
    hide Linked, LinkedMemory, Written, HandlersCode, HandlerAddr, DumpHandlers, AreBytes;
    data := new DumpState(DumpHandlers());
    DumpHandlerBytes();
    HandlerPlaces();
    Link(dev, data);
    PatchStays(dev.exram, DumpHandlers());
    WriteExramDataRange(dev, PARAM_ID_36_HANDLER_ADDR, [0xf3, 0x00]);
  }
}
