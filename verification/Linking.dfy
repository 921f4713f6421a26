/** What the linker lays out: handlers with their calls patched in, the main routine and the jump
    table, for any table of handlers. */
module Linking {
  import opened Exram
  import opened Mcs51
  import opened Payload

  const GEN_FUNC_START := 0xf100
  const VAL_HANDLER_START := 0xf200
  const MAIN_FUNC_ENTRY := 0xf300

  /** A handler: bytes before, the generic functions it calls, bytes behind. */
  datatype Handler = Handler(entry: seq<nat>, calls: seq<nat>, exit: seq<nat>)

  const SIGNAL := 3

  function CallTo(a: nat): (r: seq<nat>)
    ensures |r| == 3
  {
    [0x12, a / 256, a % 256]
  }

  function JumpTo(a: nat): (r: seq<nat>)
    ensures |r| == 3
  {
    [0x02, a / 256, a % 256]
  }

  function DptrTo(a: nat): (r: seq<nat>)
    ensures |r| == 3
  {
    [0x90, a / 256, a % 256]
  }

  lemma LinkOps(a: nat)
    requires a < 0x1_0000
    ensures DecodeIn(CallTo(a), 0) == Decoded(Lcall(a), 3) && DecodeIn(JumpTo(a), 0) == Decoded(Ljmp(a), 3)
    ensures DecodeIn(DptrTo(a), 0) == Decoded(MovDptr(a), 3)
  {
  }

  /** Calls of generic functions, one behind the other. */
  function CallsCode(calls: seq<nat>, funcs: seq<nat>): (r: seq<nat>)
    requires forall j :: 0 <= j < |calls| ==> calls[j] < |funcs|
    ensures |r| == 3 * |calls|
    decreases |calls|
  {
    if calls == [] then []
    else
      var last := |calls| - 1;
      CallsCode(calls[..last], funcs) + CallTo(funcs[calls[last]])
  }

  predicate GoodHandler(h: Handler, funcs: seq<nat>) {
    |funcs| == 4 && forall j :: 0 <= j < |h.calls| ==> h.calls[j] < |funcs|
  }

  /** A handler as linked: its entry, its calls, its exit, the signal, return. */
  function HandlerCode(h: Handler, funcs: seq<nat>): (r: seq<nat>)
    requires GoodHandler(h, funcs)
    ensures |r| == |h.entry| + 3 * |h.calls| + |h.exit| + 4
  {
    h.entry + CallsCode(h.calls, funcs) + h.exit + CallTo(funcs[SIGNAL]) + [0x22]
  }

  predicate GoodHandlers(hs: seq<Handler>, funcs: seq<nat>) { forall i :: 0 <= i < |hs| ==> GoodHandler(hs[i], funcs) }

  function HandlersCode(hs: seq<Handler>, funcs: seq<nat>): (r: seq<nat>)
    requires GoodHandlers(hs, funcs)
    decreases |hs|
  {
    if hs == [] then []
    else
      var last := |hs| - 1;
      HandlersCode(hs[..last], funcs) + HandlerCode(hs[last], funcs)
  }

  /** Where handler i begins, or the table for i == |hs|; offsets have sixteen bits. */
  function HandlerAddr(hs: seq<Handler>, funcs: seq<nat>, i: nat): nat
    requires GoodHandlers(hs, funcs) && i <= |hs|
  {
    Addr(VAL_HANDLER_START, |HandlersCode(hs[..i], funcs)|)
  }

  /** Slot by slot a call of the handler and a jump to the exit. */
  function SlotCode(entry: nat, exit: nat): (r: seq<nat>)
    ensures |r| == 6
  {
    CallTo(entry) + JumpTo(exit)
  }

  function TableCode(entries: seq<nat>, exit: nat): (r: seq<nat>)
    ensures |r| == 6 * |entries|
    decreases |entries|
  {
    if entries == [] then []
    else
      var last := |entries| - 1;
      TableCode(entries[..last], exit) + SlotCode(entries[last], exit)
  }

  /** The dispatch behind the saving of registers: count, range check, table address, jump. */
  function DispatchCode(count: nat, tbl: nat): (r: seq<nat>)
    ensures |r| == 38
  {
    Part1() + [count] + Part2() + DptrTo(tbl) + [0x73]
  }

  function MainCode(count: nat, tbl: nat): (r: seq<nat>)
    ensures |r| == 55
  {
    DispatchCode(count, tbl) + MainExit()
  }

  function FunctionsCode(): (r: seq<nat>)
    ensures |r| == 104
  {
    Func0() + Func1() + Func2() + Func3()
  }

  /** Where the generic functions begin. */
  function FuncAddrs(): (r: seq<nat>)
    ensures |r| == 4
  {
    [GEN_FUNC_START, GEN_FUNC_START + 36, GEN_FUNC_START + 72, GEN_FUNC_START + 97]
  }

  /** The three handlers of the tool. */
  function DumpHandlers(): (r: seq<Handler>)
    ensures |r| == 3 && GoodHandlers(r, FuncAddrs())
  {
    [Handler(Entry0(), [0], Exit0()), Handler(Entry1(), [0], Exit1()), Handler([], [1, 2], Exit2())]
  }
}
