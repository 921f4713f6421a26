/** The trace decoder's structure for the chip: internal bus writes and 8051 write runs. */
module ChipioTrace {
  import opened Bits
  import opened Verbs
  import opened Hic
  import opened Exram

  const PLL_PMU_WRITE := 0x70c

  /** The fields of struct chipio_data that the 8051 verbs use. */
  datatype RunState = RunState(addrSet0: bool, addrSet1: bool, addr: nat, start: nat, run: seq<nat>)

  datatype RunReport =
    | DataRun(start: nat, addr: nat, bytes: seq<nat>)
    | AddrRead(start: nat, addr: nat)
    | PllWrite(start: nat, addr: nat, data: nat)

  datatype RunStep = RunStep(s: RunState, out: seq<RunReport>)

  /** chipio_8051_data_clear */
  const RUN_CLEARED := RunState(false, false, 0, 0, [])

  /** The verbs handled here. */
  predicate Is8051(v: Verb) {
    v.verb == ADDRESS_LOW || v.verb == ADDRESS_HIGH || v.verb == DATA_WRITE || v.verb == PLL_PMU_WRITE ||
    v.verb == DATA_READ
  }

  /** A verb that is not one more byte ends the run. */
  function Flush(s: RunState, v: Verb): RunStep {
    if v.verb != DATA_WRITE && s.run != [] then RunStep(RUN_CLEARED, [DataRun(s.start, s.addr, s.run)])
    else RunStep(s, [])
  }

  /** chipio_8051_handler */
  function RunVerb(s0: RunState, v: Verb, at: nat): RunStep {
    var f := Flush(s0, v);
    var s := f.s;
    if v.verb == ADDRESS_LOW then
      RunStep(s.(start := at, addr := v.data, addrSet0 := true), f.out)
    else if v.verb == ADDRESS_HIGH then
      RunStep(if s.addrSet0 then s.(addr := Or(s.addr, v.data * 256), addrSet1 := true) else RUN_CLEARED, f.out)
    else if v.verb == DATA_WRITE then
      if s.addrSet0 && s.addrSet1 then RunStep(s.(addrSet0 := false, addrSet1 := false, run := s.run + [v.data]), f.out)
      else if s.run != [] then RunStep(s.(run := s.run + [v.data]), f.out)
      else RunStep(s, f.out)
    else if v.verb == PLL_PMU_WRITE then
      RunStep(RUN_CLEARED, f.out + if s.addrSet0 then [PllWrite(s.start, s.addr, v.data)] else [])
    else if v.verb == DATA_READ && s.addrSet0 && s.addrSet1 then
      RunStep(RUN_CLEARED, f.out + [AddrRead(s.start, s.addr)])
    else RunStep(s, f.out)
  }

  function RunTrace(s: RunState, trace: seq<Seen>): RunStep
    decreases |trace|
  {
    if trace == [] then RunStep(s, [])
    else
      var first := RunVerb(s, trace[0].v, trace[0].addr);
      var rest := RunTrace(first.s, trace[1..]);
      RunStep(rest.s, first.out + rest.out)
  }

  lemma {:induction false} RunJoins(s: RunState, a: seq<Seen>, b: seq<Seen>)
    ensures var first := RunTrace(s, a);
            var rest := RunTrace(first.s, b);
            RunTrace(s, a + b) == RunStep(rest.s, first.out + rest.out)
    decreases |a|
  {
    hide RunVerb;
    if a == [] {
      assert a + b == b;
    } else {
      assert (a + b)[1..] == a[1..] + b && (a + b)[0] == a[0];
      var one := RunVerb(s, a[0].v, a[0].addr);
      RunJoins(one.s, a[1..], b);
      var two := RunTrace(one.s, a[1..]);
      var three := RunTrace(two.s, b);
      assert one.out + (two.out + three.out) == (one.out + two.out) + three.out;
    }
  }

  /** What is still pending when the next address comes. */
  function Pending(s: RunState): seq<RunReport> {
    if s.run == [] then [] else [DataRun(s.start, s.addr, s.run)]
  }

  lemma AddressBytesOr(addr: nat)
    requires addr < 0x1_0000
    ensures Or(addr % 256, addr / 256 * 256) == addr
  {
    assert Pow2(8) == 256;
    hide Or, Pow2;
    OrAdd(addr / 256, addr % 256, 8);
    OrCommutes(addr % 256, addr / 256 * 256);
  }

  /** The address verbs end what came before and set up a run. */
  lemma AddressSeen(s: RunState, addr: nat, trace: seq<Seen>)
    requires addr < 0x1_0000 && |trace| == 2
    requires trace[0].v == Verb(ADDRESS_LOW, addr % 256) && trace[1].v == Verb(ADDRESS_HIGH, addr / 256)
    ensures RunTrace(s, trace) == RunStep(RunState(true, true, addr, trace[0].addr, []), Pending(s))
  {
    AddressBytesOr(addr);
    hide Or;
    var one := RunVerb(s, trace[0].v, trace[0].addr);
    var two := RunVerb(one.s, trace[1].v, trace[1].addr);
    assert trace[1..][0] == trace[1] && trace[1..][1..] == [];
    assert RunTrace(two.s, []) == RunStep(two.s, []);
    assert RunTrace(one.s, trace[1..]) == RunStep(two.s, two.out + []);
    assert Pending(s) + [] == Pending(s);
  }

  /** These verbs write these bytes. */
  predicate AreWrites(trace: seq<Seen>, bytes: seq<nat>) {
    |trace| == |bytes| && forall i :: 0 <= i < |bytes| ==> trace[i].v == Verb(DATA_WRITE, bytes[i])
  }

  lemma ByteSeen(s: RunState, b: nat, at: nat)
    requires s.run != [] && !s.addrSet0 && !s.addrSet1
    ensures RunVerb(s, Verb(DATA_WRITE, b), at) == RunStep(s.(run := s.run + [b]), [])
  {
  }

  lemma FirstByteSeen(s: RunState, bytes: seq<nat>, trace: seq<Seen>)
    requires AreWrites(trace, bytes) && bytes != [] && s.run != [] && !s.addrSet0 && !s.addrSet1
    ensures trace != [] && AreWrites(trace[1..], bytes[1..])
    ensures RunTrace(s, trace) == RunTrace(s.(run := s.run + [bytes[0]]), trace[1..])
  {
    hide RunVerb;
    ByteSeen(s, bytes[0], trace[0].addr);
  }

  /** Bytes after the first extend the run. */
  lemma {:induction false} BytesSeen(s: RunState, bytes: seq<nat>, trace: seq<Seen>)
    requires AreWrites(trace, bytes) && s.run != [] && !s.addrSet0 && !s.addrSet1
    ensures RunTrace(s, trace) == RunStep(s.(run := s.run + bytes), [])
    decreases |bytes|
  {
    hide RunVerb, AreWrites;
    if bytes == [] {
      NoWrites(trace);
      assert s.run + bytes == s.run;
    } else {
      FirstByteSeen(s, bytes, trace);
      hide RunTrace;
      var s1 := s.(run := s.run + [bytes[0]]);
      BytesSeen(s1, bytes[1..], trace[1..]);
      assert s1.run + bytes[1..] == s.run + bytes;
    }
  }

  lemma NoWrites(trace: seq<Seen>)
    requires AreWrites(trace, [])
    ensures trace == []
  {
  }

  /** A write run from any state: what was pending is printed, the run becomes pending. */
  lemma RunSeen(s: RunState, addr: nat, bytes: seq<nat>, trace: seq<Seen>)
    requires addr < 0x1_0000 && bytes != [] && forall i :: 0 <= i < |bytes| ==> bytes[i] < 256
    requires |trace| == 2 + |bytes| && forall i :: 0 <= i < |trace| ==> trace[i].v == RunVerbs(addr, bytes)[i]
    ensures RunTrace(s, trace) == RunStep(RunState(false, false, addr, trace[0].addr, bytes), Pending(s))
  {
    hide Pending, RunTrace;
    RunVerbsAre(addr, bytes);
    var a, b, c := trace[..2], trace[2..3], trace[3..];
    assert trace == a + b + c && b == [trace[2]];
    AddressSeen(s, addr, a);
    var s1 := RunState(true, true, addr, trace[0].addr, []);
    var s2 := RunState(false, false, addr, trace[0].addr, [bytes[0]]);
    assert trace[2].v == Verb(DATA_WRITE, bytes[0]);
    assert RunVerb(s1, trace[2].v, trace[2].addr) == RunStep(s2, []);
    OneSeen(s1, trace[2]);
    assert RunTrace(s1, b) == RunStep(s2, []);
    forall i | 0 <= i < |c|
      ensures c[i].v == Verb(DATA_WRITE, bytes[1..][i])
    {
      assert c[i] == trace[3 + i];
    }
    BytesSeen(s2, bytes[1..], c);
    assert [bytes[0]] + bytes[1..] == bytes;
    RunJoins(s, a, b);
    RunJoins(s, a + b, c);
  }

  lemma OneSeen(s: RunState, seen: Seen)
    ensures RunTrace(s, [seen]) == RunVerb(s, seen.v, seen.addr)
  {
    hide RunVerb;
    var one := RunVerb(s, seen.v, seen.addr);
    assert [seen][1..] == [] && RunTrace(one.s, []) == RunStep(one.s, []);
    assert one.out + [] == one.out;
  }

  lemma RunVerbsAre(addr: nat, bytes: seq<nat>)
    requires addr < 0x1_0000 && forall i :: 0 <= i < |bytes| ==> bytes[i] < 256
    ensures |RunVerbs(addr, bytes)| == 2 + |bytes|
    ensures RunVerbs(addr, bytes)[0] == Verb(ADDRESS_LOW, addr % 256)
    ensures RunVerbs(addr, bytes)[1] == Verb(ADDRESS_HIGH, addr / 256)
    ensures forall i :: 0 <= i < |bytes| ==> RunVerbs(addr, bytes)[2 + i] == Verb(DATA_WRITE, bytes[i])
  {
    hide HdaVerb;
    ParamCarried(ADDRESS_LOW, addr % 256);
    ParamCarried(ADDRESS_HIGH, addr / 256);
    forall i | 0 <= i < |bytes|
      ensures RunVerbs(addr, bytes)[2 + i] == Verb(DATA_WRITE, bytes[i])
    {
      ParamCarried(DATA_WRITE, bytes[i]);
    }
  }

  /** A range written to the 8051's memory. */
  datatype Range = Range(addr: nat, bytes: seq<nat>)

  predicate IsRange(r: Range) {
    r.addr < 0x1_0000 && 1 <= |r.bytes| <= 128 && forall i :: 0 <= i < |r.bytes| ==> r.bytes[i] < 256
  }

  /** The trace of a range write. */
  predicate IsRun(trace: seq<Seen>, r: Range) {
    |trace| == 2 + |r.bytes| && forall i :: 0 <= i < |trace| ==> trace[i].v == RunVerbs(r.addr, r.bytes)[i]
  }

  predicate AreRuns(traces: seq<seq<Seen>>, rs: seq<Range>) {
    |traces| == |rs| && forall i :: 0 <= i < |rs| ==> IsRange(rs[i]) && IsRun(traces[i], rs[i])
  }

  function Joined(traces: seq<seq<Seen>>): seq<Seen> {
    if traces == [] then [] else traces[0] + Joined(traces[1..])
  }

  function RunReports(traces: seq<seq<Seen>>, rs: seq<Range>): seq<RunReport>
    requires AreRuns(traces, rs)
  {
    seq(|rs|, i requires 0 <= i < |rs| => DataRun(traces[i][0].addr, rs[i].addr, rs[i].bytes))
  }

  /** A list of range writes followed by another address: each range is listed once, in order,
      with its start address and exactly its bytes. */
  lemma {:induction false} RunsAreListed(s: RunState, traces: seq<seq<Seen>>, rs: seq<Range>, next: Seen)
    requires AreRuns(traces, rs) && next.v.verb == ADDRESS_LOW
    ensures RunTrace(s, Joined(traces) + [next]).out == Pending(s) + RunReports(traces, rs)
    decreases |rs|
  {
    hide IsRun, IsRange, RunVerb;
    if rs == [] {
      assert Joined(traces) + [next] == [next];
      OneSeen(s, next);
      assert RunVerb(s, next.v, next.addr).out == Pending(s) by { NextAddress(s, next); }
      assert Pending(s) + RunReports(traces, rs) == Pending(s);
    } else {
      RunOfRange(s, traces[0], rs[0]);
      var first := DataRun(traces[0][0].addr, rs[0].addr, rs[0].bytes);
      var s1 := RunTrace(s, traces[0]).s;
      RunsAreListed(s1, traces[1..], rs[1..], next);
      assert Joined(traces) + [next] == traces[0] + (Joined(traces[1..]) + [next]);
      RunJoins(s, traces[0], Joined(traces[1..]) + [next]);
      assert RunReports(traces, rs) == [first] + RunReports(traces[1..], rs[1..]);
      assert Pending(s) + ([first] + RunReports(traces[1..], rs[1..])) == Pending(s) + RunReports(traces, rs);
    }
  }

  lemma NextAddress(s: RunState, next: Seen)
    requires next.v.verb == ADDRESS_LOW
    ensures RunVerb(s, next.v, next.addr).out == Pending(s)
  {
  }

  lemma RunOfRange(s: RunState, trace: seq<Seen>, r: Range)
    requires IsRange(r) && IsRun(trace, r)
    ensures RunTrace(s, trace).out == Pending(s)
    ensures |trace| > 0 && Pending(RunTrace(s, trace).s) == [DataRun(trace[0].addr, r.addr, r.bytes)]
  {
    RunSeen(s, r.addr, r.bytes, trace);
  }

  /* ---------- Which traces the run buffer holds ---------- */

  const RUN_ROOM := 128

  predicate Complete(s: RunState) { s.addrSet0 && s.addrSet1 }

  predicate All8051(trace: seq<Seen>) { forall i :: 0 <= i < |trace| ==> Is8051(trace[i].v) }

  /** Where the decoder is after the first n verbs. */
  function After(trace: seq<Seen>, n: nat): RunState
    requires n <= |trace|
  {
    RunTrace(RUN_CLEARED, trace[..n]).s
  }

  lemma AfterStep(trace: seq<Seen>, n: nat)
    requires n < |trace|
    ensures After(trace, n + 1) == RunVerb(After(trace, n), trace[n].v, trace[n].addr).s
  {
    hide RunVerb;
    assert trace[..n + 1] == trace[..n] + [trace[n]];
    RunJoins(RUN_CLEARED, trace[..n], [trace[n]]);
    assert [trace[n]][1..] == [];
  }

  predicate Writes(trace: seq<Seen>, from: nat, to: nat)
    requires to <= |trace|
  {
    forall i :: from <= i < to ==> trace[i].v.verb == DATA_WRITE
  }

  /** No address is complete while a run is being collected. */
  lemma OneVerb(s: RunState, v: Verb, at: nat)
    requires Is8051(v) && (s.run != [] ==> !s.addrSet0 && !s.addrSet1)
    ensures var t := RunVerb(s, v, at).s;
            (t.run != [] ==> !t.addrSet0 && !t.addrSet1) &&
            |t.run| == if v.verb == DATA_WRITE && (Complete(s) || s.run != []) then |s.run| + 1 else 0
  {
    hide Or;
  }

  /** A run is as long as the writes that follow a complete address without interruption. */
  lemma {:induction false} RunIsWrites(trace: seq<Seen>, n: nat)
    requires All8051(trace) && n <= |trace|
    ensures var s := After(trace, n);
            (s.run != [] ==> !s.addrSet0 && !s.addrSet1) &&
            (s.run != [] ==> |s.run| <= n && Complete(After(trace, n - |s.run|)) && Writes(trace, n - |s.run|, n))
    decreases n
  {
    hide RunVerb, Complete, After;
    if n > 0 {
      RunIsWrites(trace, n - 1);
      AfterStep(trace, n - 1);
      OneVerb(After(trace, n - 1), trace[n - 1].v, trace[n - 1].addr);
      var s := After(trace, n - 1);
      if s.run == [] { assert n - 1 == n - (|s.run| + 1); }
    } else {
      assert After(trace, 0) == RUN_CLEARED by { NothingYet(trace); }
    }
  }

  lemma NothingYet(trace: seq<Seen>)
    ensures After(trace, 0) == RUN_CLEARED
  {
    assert trace[..0] == [];
  }

  lemma {:induction false} WritesAreRun(trace: seq<Seen>, m: nat, k: nat)
    requires All8051(trace) && m + k <= |trace| && 0 < k && Complete(After(trace, m)) && Writes(trace, m, m + k)
    ensures |After(trace, m + k).run| == k
    decreases k
  {
    hide RunVerb, After;
    RunIsWrites(trace, m + k - 1);
    AfterStep(trace, m + k - 1);
    OneVerb(After(trace, m + k - 1), trace[m + k - 1].v, trace[m + k - 1].addr);
    if k > 1 { WritesAreRun(trace, m, k - 1); }
  }

  /** The run never outgrows the buffer. */
  predicate FitsRun(trace: seq<Seen>) { forall n :: 0 <= n <= |trace| ==> |After(trace, n).run| <= RUN_ROOM }

  /** What the verbs seen so far amount to, whatever their data: no address, its low byte, both bytes, or a run. */
  datatype Phase = NoAddress | LowByte | BothBytes | InRun

  function NextPhase(p: Phase, verb: nat): Phase {
    if verb == ADDRESS_LOW then if p.BothBytes? then BothBytes else LowByte
    else if verb == ADDRESS_HIGH then if p.LowByte? || p.BothBytes? then BothBytes else NoAddress
    else if verb == DATA_WRITE then if p.BothBytes? then InRun else p
    else if verb == DATA_READ && p.LowByte? then LowByte
    else NoAddress
  }

  /** The verbs alone decide. */
  function PhaseAfter(trace: seq<Seen>, n: nat): Phase
    requires n <= |trace|
  {
    if n == 0 then NoAddress else NextPhase(PhaseAfter(trace, n - 1), trace[n - 1].v.verb)
  }

  predicate InPhase(s: RunState, p: Phase) {
    match p
    case NoAddress => !s.addrSet0 && !s.addrSet1 && s.run == []
    case LowByte => s.addrSet0 && !s.addrSet1 && s.run == []
    case BothBytes => Complete(s) && s.run == []
    case InRun => !s.addrSet0 && !s.addrSet1 && s.run != []
  }

  lemma PhaseStep(s: RunState, p: Phase, v: Verb, at: nat)
    requires Is8051(v) && InPhase(s, p)
    ensures InPhase(RunVerb(s, v, at).s, NextPhase(p, v.verb))
  {
    hide Or;
  }

  /** The decoder is in the phase the verbs give. */
  lemma {:induction false} PhaseHolds(trace: seq<Seen>, n: nat)
    requires All8051(trace) && n <= |trace|
    ensures InPhase(After(trace, n), PhaseAfter(trace, n))
    decreases n
  {
    hide RunVerb, InPhase, After, NextPhase;
    if n > 0 {
      PhaseHolds(trace, n - 1);
      AfterStep(trace, n - 1);
      PhaseStep(After(trace, n - 1), PhaseAfter(trace, n - 1), trace[n - 1].v, trace[n - 1].addr);
    } else {
      NothingYet(trace);
      assert InPhase(RUN_CLEARED, NoAddress) by { ClearedPhase(); }
    }
  }

  lemma ClearedPhase()
    ensures InPhase(RUN_CLEARED, NoAddress)
  {
  }

  /** More writes than the buffer holds follow both bytes of an address. */
  predicate TooLong(trace: seq<Seen>, m: nat) {
    m + RUN_ROOM + 1 <= |trace| && PhaseAfter(trace, m).BothBytes? && Writes(trace, m, m + RUN_ROOM + 1)
  }

  /** Exactly the traces that fit, told by their verbs: no complete address is followed by 129 writes in a row. */
  lemma RunsThatFit(trace: seq<Seen>)
    requires All8051(trace)
    ensures FitsRun(trace) <==> forall m: nat :: !TooLong(trace, m)
  {
    hide After;
    forall m: nat | TooLong(trace, m)
      ensures !FitsRun(trace)
    {
      PhaseHolds(trace, m);
      WritesAreRun(trace, m, RUN_ROOM + 1);
      assert |After(trace, m + RUN_ROOM + 1).run| > RUN_ROOM;
    }
    forall n | 0 <= n <= |trace| && |After(trace, n).run| > RUN_ROOM
      ensures exists m: nat :: TooLong(trace, m)
    {
      RunIsWrites(trace, n);
      PhaseHolds(trace, n - |After(trace, n).run|);
      assert TooLong(trace, n - |After(trace, n).run|);
    }
  }

  /** struct chipio_data */
  class ChipioData {
    var addrSet0: bool
    var addrSet1: bool
    var dataSet0: bool
    var dataSet1: bool
    var readSet: bool
    var chipioAddr: nat
    var chipioData: nat
    var addrSetStart: nat
    var u8051AddrSet0: bool
    var u8051AddrSet1: bool
    var u8051Addr: nat
    var u8051AddrSetStart: nat
    var u8051DataRunLen: nat
    const u8051DataRun: array<nat>
    var hicPrinted: seq<HicReport>
    var runPrinted: seq<RunReport>

    ghost predicate Valid()
      reads this, u8051DataRun
    {
      u8051DataRun.Length == 128 && u8051DataRunLen <= 128
    }

    ghost function HicNow(): HicState
      reads this
    {
      HicState(addrSet0, addrSet1, dataSet0, dataSet1, readSet, chipioAddr, chipioData, addrSetStart)
    }

    ghost function RunNow(): RunState
      requires Valid()
      reads this, u8051DataRun
    {
      RunState(u8051AddrSet0, u8051AddrSet1, u8051Addr, u8051AddrSetStart, u8051DataRun[..u8051DataRunLen])
    }

    constructor ()
      ensures Valid() && fresh(u8051DataRun) && HicNow() == HIC_CLEARED && RunNow() == RUN_CLEARED
      ensures hicPrinted == [] && runPrinted == []
    {
      addrSet0, addrSet1, dataSet0, dataSet1, readSet := false, false, false, false, false;
      chipioAddr, chipioData, addrSetStart := 0, 0, 0;
      u8051AddrSet0, u8051AddrSet1, u8051Addr, u8051AddrSetStart, u8051DataRunLen := false, false, 0, 0, 0;
      u8051DataRun := new nat[128](i => 0);
      hicPrinted, runPrinted := [], [];
    }

    /** chipio_hic_clear */
    method HicClear()
      modifies this`addrSet0, this`addrSet1, this`dataSet0, this`dataSet1, this`readSet
      modifies this`chipioAddr, this`chipioData, this`addrSetStart
      ensures HicNow() == HIC_CLEARED
    {
      addrSet0, addrSet1, dataSet0, dataSet1, readSet := false, false, false, false, false;
      chipioAddr, chipioData, addrSetStart := 0, 0, 0;
    }

    /** chipio_hic_handler, and the two HIC verbs of chipio_verb_handler. */
    method HicHandler(v: Verb, at: nat)
      requires Valid()
      modifies this`addrSet0, this`addrSet1, this`dataSet0, this`dataSet1, this`readSet
      modifies this`chipioAddr, this`chipioData, this`addrSetStart, this`hicPrinted
      ensures var st := HicVerb(old(HicNow()), v, at);
              HicNow() == st.s && hicPrinted == old(hicPrinted) + st.out
    {
      hide Group, Payload, Or;
      var group := Group(v);
      if group == 0 {
        HicClear();
        addrSetStart := at;
        chipioAddr := Payload(v);
        addrSet0 := true;
      } else if group == 1 {
        chipioAddr := Or(chipioAddr, Payload(v) * 0x1_0000);
        addrSet1 := true;
      } else if group == 3 {
        chipioData := Payload(v);
        dataSet0 := true;
      } else if group == 4 {
        chipioData := Or(chipioData, Payload(v) * 0x1_0000);
        dataSet1 := true;
      } else if v.verb == 0x702 {
        if addrSet0 && addrSet1 { readSet := true; }
      } else if v.verb == 0xf03 {
        if addrSet0 && addrSet1 && readSet {
          hicPrinted := hicPrinted + [ReadBack(addrSetStart, chipioAddr)];
          HicClear();
        }
      }
      if (group == 0 || group == 1 || group == 3 || group == 4) && addrSet0 && addrSet1 && dataSet0 && dataSet1 {
        hicPrinted := hicPrinted + [WriteTo(addrSetStart, chipioAddr, chipioData)];
        HicClear();
      }
    }

    /** chipio_8051_data_clear */
    method DataClear()
      requires Valid()
      modifies this`u8051AddrSet0, this`u8051AddrSet1, this`u8051Addr, this`u8051AddrSetStart, this`u8051DataRunLen
      modifies u8051DataRun
      ensures Valid() && RunNow() == RUN_CLEARED
    {
      u8051AddrSet0, u8051AddrSet1, u8051Addr, u8051AddrSetStart, u8051DataRunLen := false, false, 0, 0, 0;
      forall i | 0 <= i < 128 { u8051DataRun[i] := 0; }
    }

    /** chipio_8051_handler. The run array has room for 128 bytes. */
    method Handler8051(v: Verb, at: nat)
      requires Valid() && Is8051(v) && |RunVerb(RunNow(), v, at).s.run| <= RUN_ROOM
      modifies this`u8051AddrSet0, this`u8051AddrSet1, this`u8051Addr, this`u8051AddrSetStart, this`u8051DataRunLen
      modifies u8051DataRun, this`runPrinted
      ensures Valid()
      ensures var st := RunVerb(old(RunNow()), v, at);
              RunNow() == st.s && runPrinted == old(runPrinted) + st.out
    {
      hide Or;
      if v.verb != DATA_WRITE && u8051DataRunLen > 0 {
        runPrinted := runPrinted + [DataRun(u8051AddrSetStart, u8051Addr, u8051DataRun[..u8051DataRunLen])];
        DataClear();
      }
      if v.verb == ADDRESS_LOW {
        u8051AddrSetStart := at;
        u8051Addr := v.data;
        u8051AddrSet0 := true;
      } else if v.verb == ADDRESS_HIGH {
        if u8051AddrSet0 {
          u8051Addr := Or(u8051Addr, v.data * 256);
          u8051AddrSet1 := true;
        } else {
          DataClear();
        }
      } else if v.verb == DATA_WRITE {
        if u8051AddrSet0 && u8051AddrSet1 {
          u8051AddrSet0, u8051AddrSet1 := false, false;
          u8051DataRun[u8051DataRunLen] := v.data;
          u8051DataRunLen := u8051DataRunLen + 1;
        } else if u8051DataRunLen > 0 {
          u8051DataRun[u8051DataRunLen] := v.data;
          u8051DataRunLen := u8051DataRunLen + 1;
        }
      } else if v.verb == PLL_PMU_WRITE {
        if u8051AddrSet0 { runPrinted := runPrinted + [PllWrite(u8051AddrSetStart, u8051Addr, v.data)]; }
        DataClear();
      } else if u8051AddrSet0 && u8051AddrSet1 {
        runPrinted := runPrinted + [AddrRead(u8051AddrSetStart, u8051Addr)];
        DataClear();
      }
    }

    /** A whole trace of these verbs, of which none overfills the buffer. */
    method Decode8051(trace: seq<Seen>)
      requires Valid() && RunNow() == RUN_CLEARED && All8051(trace) && FitsRun(trace)
      modifies this`u8051AddrSet0, this`u8051AddrSet1, this`u8051Addr, this`u8051AddrSetStart, this`u8051DataRunLen
      modifies u8051DataRun, this`runPrinted
      ensures Valid() && RunStep(RunNow(), runPrinted) == RunStep(RunTrace(RUN_CLEARED, trace).s,
                                                                   old(runPrinted) + RunTrace(RUN_CLEARED, trace).out)
    {
      hide RunVerb, Is8051;
      ghost var before := runPrinted;
      assert trace[..0] == [] && before + [] == before;
      for i := 0 to |trace|
        invariant Valid() && RunNow() == After(trace, i) && runPrinted == before + RunTrace(RUN_CLEARED, trace[..i]).out
      {
        assert trace[..i + 1] == trace[..i] + [trace[i]];
        RunJoins(RUN_CLEARED, trace[..i], [trace[i]]);
        assert [trace[i]][1..] == [];
        AfterStep(trace, i);
        Handler8051(trace[i].v, trace[i].addr);
      }
      assert trace[..|trace|] == trace;
    }
  }
}
