/** The trace decoder for SCP messages: a state machine over the verbs sent to the DSP. */
module ScpDecoder {
  import opened Bits
  import opened Scp
  import opened Verbs

  /** struct dsp_data. The values kept are the `cnt` received so far. */
  datatype State = State(scpSet0: bool, scpSet1: bool, dataSet0: bool, dataSet1: bool, vals: seq<nat>,
                         data: nat, scp: nat, hdr: ScpData, readCnt: nat, postCnt: nat, start: nat)

  /** What is printed of a message. */
  datatype Report = Report(start: nat, hdr: ScpData, vals: seq<nat>)

  const EMPTY := ScpData(0, 0, 0, 0, 0, 0, 0, 0)

  /** dsp_scp_clear */
  const CLEARED := State(false, false, false, false, [], 0, 0, EMPTY, 0, 0, 0)

  /** A state with what was printed on the way to it. */
  datatype Step = Step(s: State, out: seq<Report>)

  predicate ScpSet(s: State) { s.scpSet0 && s.scpSet1 }

  /** print_scp_write_data: the size in the header says how many values are printed; those
      not received are zero. */
  function Printed(s: State): Report {
    Report(s.start, s.hdr, seq(s.hdr.dataSize, i requires 0 <= i => if i < |s.vals| then s.vals[i] else 0))
  }

  /** dsp_scp_check */
  function Check(st: Step): Step {
    var s := st.s;
    if ScpSet(s) && |s.vals| == s.hdr.dataSize && (s.hdr.getFlag == 0 || (s.readCnt == 4 && s.postCnt == 2)) then
      Step(CLEARED, st.out + [Printed(s)])
    else st
  }

  /** The first half of a header starts a message. */
  function Started(payload: nat, addr: nat): State {
    CLEARED.(scpSet0 := true, scp := payload, start := addr)
  }

  /** DSPIO_SCP_WRITE_DATA_LOW */
  function LowHalf(s: State, payload: nat, addr: nat): Step {
    if !ScpSet(s) then
      Step(if s.scpSet0 then CLEARED else Started(payload, addr), [])
    else if s.hdr.dataSize != |s.vals| then
      Step(s.(dataSet0 := true, dataSet1 := false, data := payload), [])
    else
      Step(Started(payload, addr), [Printed(s)])
  }

  /** DSPIO_SCP_WRITE_DATA_HIGH. A value without its first half clears the state, and is
      then taken into the cleared one. */
  function HighHalf(s: State, payload: nat): Step {
    if !ScpSet(s) then
      if !s.scpSet0 then Step(CLEARED, [])
      else
        var header := Or(s.scp, payload * 0x1_0000);
        var h := GetScpData(header);
        if h.dataSize >= 4 then Step(CLEARED, [])
        else Step(s.(scpSet1 := true, scp := header, hdr := h), [])
    else if s.hdr.dataSize != |s.vals| then
      var t := if s.dataSet0 then s else CLEARED;
      var u := t.(data := Or(t.data, payload * 0x1_0000), dataSet1 := true);
      Step(if |u.vals| >= 15 then u else u.(vals := u.vals + [u.data]), [])
    else Step(s, [])
  }

  /** The counters are bytes. */
  function CountRead(s: State): State { s.(readCnt := (s.readCnt + 1) % 256) }
  function CountPost(s: State): State { s.(postCnt := (s.postCnt + 1) % 256) }

  /** dsp_verb_handler. The post-read verb goes on to count as a count query too. */
  function StepVerb(s: State, v: Verb, addr: nat): Step {
    if Group(v) == 0 then Check(LowHalf(s, Payload(v), addr))
    else if Group(v) == 1 then Check(HighHalf(s, Payload(v)))
    else if v.verb == 0x702 then
      var t := Check(Step(CountRead(s), []));
      Check(Step(CountPost(t.s), t.out))
    else if v.verb == 0xf02 then Check(Step(CountRead(s), []))
    else if v.verb == 0x704 || v.verb == 0xf04 then Check(Step(CountPost(s), []))
    else Step(s, [])
  }

  /** A whole trace. */
  function Run(s: State, trace: seq<Seen>): Step
    decreases |trace|
  {
    if trace == [] then Step(s, [])
    else
      var first := StepVerb(s, trace[0].v, trace[0].addr);
      var rest := Run(first.s, trace[1..]);
      Step(rest.s, first.out + rest.out)
  }

  /* ---------- What every reachable state keeps ---------- */

  ghost predicate Inv(s: State) {
    (s.scpSet1 ==> s.scpSet0) &&
    (ScpSet(s) ==>
       s.hdr == GetScpData(s.scp) && s.hdr.dataSize < 4 && |s.vals| <= s.hdr.dataSize &&
       (s.hdr.getFlag == 0 ==> |s.vals| < s.hdr.dataSize)) &&
    (s.scpSet0 && !s.scpSet1 ==> s == Started(s.scp, s.start).(readCnt := s.readCnt, postCnt := s.postCnt))
  }

  lemma CheckKeepsInv(st: Step)
    requires ScpSet(st.s) ==> st.s.hdr == GetScpData(st.s.scp) && st.s.hdr.dataSize < 4 && |st.s.vals| <= st.s.hdr.dataSize
    requires !ScpSet(st.s) ==> Inv(st.s)
    ensures Inv(Check(st).s)
  {
    hide GetScpData;
  }

  lemma LowKeepsInv(s: State, payload: nat, addr: nat)
    requires Inv(s)
    ensures Inv(Check(LowHalf(s, payload, addr)).s)
  {
    hide GetScpData, Check;
    CheckKeepsInv(LowHalf(s, payload, addr));
  }

  lemma HighKeepsInv(s: State, payload: nat)
    requires Inv(s)
    ensures Inv(Check(HighHalf(s, payload)).s)
  {
    hide GetScpData, Or, Check;
    CheckKeepsInv(HighHalf(s, payload));
  }

  lemma CountsKeepInv(s: State, out: seq<Report>)
    requires Inv(s)
    ensures Inv(Check(Step(CountRead(s), out)).s) && Inv(Check(Step(CountPost(s), out)).s)
  {
    hide GetScpData, Check;
    CheckKeepsInv(Step(CountRead(s), out));
    CheckKeepsInv(Step(CountPost(s), out));
  }

  /** Every verb keeps the invariant. */
  lemma StepKeepsInv(s: State, v: Verb, addr: nat)
    requires Inv(s)
    ensures Inv(StepVerb(s, v, addr).s)
  {
    hide Payload, Group, Inv, Check, LowHalf, HighHalf, CountRead, CountPost;
    LowKeepsInv(s, Payload(v), addr);
    HighKeepsInv(s, Payload(v));
    CountsKeepInv(s, []);
    var t := Check(Step(CountRead(s), []));
    CountsKeepInv(t.s, t.out);
  }

  lemma {:induction false} RunKeepsInv(s: State, trace: seq<Seen>)
    requires Inv(s)
    ensures Inv(Run(s, trace).s)
    decreases |trace|
  {
    if trace != [] {
      StepKeepsInv(s, trace[0].v, trace[0].addr);
      RunKeepsInv(StepVerb(s, trace[0].v, trace[0].addr).s, trace[1..]);
    }
  }

  /** The "Aborting current scp" branch. */
  predicate Aborts(s: State, v: Verb) {
    Group(v) == 0 && ScpSet(s) && s.hdr.dataSize == |s.vals|
  }

  /** After any trace, only a message that asks for data can be aborted. */
  lemma OnlyGetsAreAborted(trace: seq<Seen>, v: Verb)
    ensures var s := Run(CLEARED, trace).s;
            (ScpSet(s) ==> s.hdr.dataSize < 4 && |s.vals| <= s.hdr.dataSize) &&
            (Aborts(s, v) ==> s.hdr.getFlag == 1)
  {
    RunKeepsInv(CLEARED, trace);
  }

  /* ---------- Traces of whole messages ---------- */

  lemma {:induction false} RunJoins(s: State, a: seq<Seen>, b: seq<Seen>)
    ensures var first := Run(s, a);
            var rest := Run(first.s, b);
            Run(s, a + b) == Step(rest.s, first.out + rest.out)
    decreases |a|
  {
    hide StepVerb;
    if a == [] {
      assert a + b == b;
    } else {
      assert (a + b)[1..] == a[1..] + b && (a + b)[0] == a[0];
      var one := StepVerb(s, a[0].v, a[0].addr);
      RunJoins(one.s, a[1..], b);
      var two := Run(one.s, a[1..]);
      var three := Run(two.s, b);
      assert one.out + (two.out + three.out) == (one.out + two.out) + three.out;
    }
  }

  /** Status polls and the other verbs the decoder passes over. */
  predicate Ignored(v: Verb) {
    Group(v) != 0 && Group(v) != 1 && v.verb != 0x702 && v.verb != 0xf02 && v.verb != 0x704 && v.verb != 0xf04
  }

  function Kept(trace: seq<Seen>): (r: seq<Seen>)
    ensures |r| <= |trace|
  {
    if trace == [] then [] else (if Ignored(trace[0].v) then [] else [trace[0]]) + Kept(trace[1..])
  }

  /** They may stand anywhere in a trace. */
  lemma {:induction false} IgnoredDoNotMatter(s: State, trace: seq<Seen>)
    ensures Run(s, trace) == Run(s, Kept(trace))
    decreases |trace|
  {
    hide StepVerb;
    if trace != [] {
      var v := trace[0].v;
      assert Ignored(v) ==> StepVerb(s, v, trace[0].addr) == Step(s, []) by { IgnoredStep(s, v, trace[0].addr); }
      IgnoredDoNotMatter(StepVerb(s, v, trace[0].addr).s, trace[1..]);
      if Ignored(v) {
        assert Kept(trace) == Kept(trace[1..]);
      } else {
        assert Kept(trace)[1..] == Kept(trace[1..]) && Kept(trace)[0] == trace[0];
      }
    }
  }

  lemma IgnoredStep(s: State, v: Verb, addr: nat)
    ensures Ignored(v) ==> StepVerb(s, v, addr) == Step(s, [])
  {
  }

  /** The two verbs a 32-bit word is sent as. */
  function LowVerb(word: nat): Verb { HdaVerb(0x000, word % 0x1_0000) }
  function HighVerb(word: nat): Verb { HdaVerb(0x100, word / 0x1_0000 % 0x1_0000) }

  lemma WordVerbs(word: nat)
    requires word < 0x1_0000_0000
    ensures Group(LowVerb(word)) == 0 && Payload(LowVerb(word)) == word % 0x1_0000
    ensures Group(HighVerb(word)) == 1 && Payload(HighVerb(word)) == word / 0x1_0000
    ensures Or(word % 0x1_0000, word / 0x1_0000 * 0x1_0000) == word
  {
    hide Or, Pow2, Payload, Group, HdaVerb;
    Halves(word);
    PayloadCarried(0, word % 0x1_0000);
    PayloadCarried(1, word / 0x1_0000);
    JoinHalves(word % 0x1_0000, word / 0x1_0000);
  }

  lemma Halves(word: nat)
    requires word < 0x1_0000_0000
    ensures word / 0x1_0000 < 0x1_0000 && word / 0x1_0000 % 0x1_0000 == word / 0x1_0000
    ensures word == word / 0x1_0000 * 0x1_0000 + word % 0x1_0000
  {
  }

  lemma JoinHalves(low: nat, high: nat)
    requires low < 0x1_0000
    ensures Or(low, high * 0x1_0000) == high * 0x1_0000 + low
  {
    hide Or, Pow2;
    HeaderPowers();
    OrAdd(high, low, 16);
    OrCommutes(low, high * 0x1_0000);
  }

  /** A message that sets something: at most three values. */
  datatype Message = Message(hdr: ScpData, vals: seq<nat>)

  predicate IsSet(m: Message) {
    m.hdr == Masked(m.hdr) && m.hdr.getFlag == 0 && m.hdr.dataSize < 4 && |m.vals| == m.hdr.dataSize &&
    forall i :: 0 <= i < |m.vals| ==> m.vals[i] < 0x1_0000_0000
  }

  /** The trace holds this word's two verbs. */
  predicate IsWord(trace: seq<Seen>, word: nat) {
    |trace| == 2 && trace[0].v == LowVerb(word) && trace[1].v == HighVerb(word)
  }

  /** The words one after the other, two verbs each. */
  predicate AreWords(trace: seq<Seen>, words: seq<nat>) {
    |trace| == 2 * |words| &&
    forall i :: 0 <= i < |words| ==> trace[2 * i].v == LowVerb(words[i]) && trace[2 * i + 1].v == HighVerb(words[i])
  }

  predicate IsMessage(trace: seq<Seen>, m: Message) {
    |trace| >= 2 && IsWord(trace[..2], HeaderOf(m.hdr)) && AreWords(trace[2..], m.vals)
  }

  /** The state once the header and the first n values of a message are in. */
  function Receiving(m: Message, n: nat, start: nat): State
    requires n <= |m.vals|
  {
    State(true, true, n > 0, n > 0, m.vals[..n], if n > 0 then m.vals[n - 1] else 0, HeaderOf(m.hdr), m.hdr, 0, 0, start)
  }

  lemma HeaderReceived(m: Message, trace: seq<Seen>)
    requires IsSet(m) && IsWord(trace, HeaderOf(m.hdr))
    ensures var start := trace[0].addr;
            Run(CLEARED, trace) ==
            if m.vals == [] then Step(CLEARED, [Report(start, m.hdr, [])]) else Step(Receiving(m, 0, start), [])
  {
    hide GetScpData, HeaderOf, Payload, Group, Or, LowVerb, HighVerb;
    FieldsReadBack(m.hdr);
    WordVerbs(HeaderOf(m.hdr));
    var start := trace[0].addr;
    var low := StepVerb(CLEARED, trace[0].v, start);
    assert low == Step(Started(HeaderOf(m.hdr) % 0x1_0000, start), []);
    var ready := Receiving(m, 0, start);
    var high := StepVerb(low.s, trace[1].v, trace[1].addr);
    assert high == Check(Step(ready, []));
    if m.vals == [] { assert Printed(ready).vals == []; }
    RunTwo(CLEARED, trace);
  }

  /** One more value: its first half is kept, its second completes it. */
  lemma ValueReceived(m: Message, n: nat, start: nat, trace: seq<Seen>)
    requires IsSet(m) && n < |m.vals| && IsWord(trace, m.vals[n])
    ensures Run(Receiving(m, n, start), trace) ==
            if n + 1 == |m.vals| then Step(CLEARED, [Report(start, m.hdr, m.vals)])
            else Step(Receiving(m, n + 1, start), [])
  {
    hide GetScpData, HeaderOf, Payload, Group, Or, LowVerb, HighVerb;
    var s, word := Receiving(m, n, start), m.vals[n];
    WordVerbs(word);
    var low := StepVerb(s, trace[0].v, trace[0].addr);
    assert low == Step(s.(dataSet0 := true, dataSet1 := false, data := word % 0x1_0000), []);
    var ready := Receiving(m, n + 1, start);
    var high := StepVerb(low.s, trace[1].v, trace[1].addr);
    assert m.vals[..n] + [word] == m.vals[..n + 1];
    assert high == Check(Step(ready, []));
    if n + 1 == |m.vals| { assert Printed(ready).vals == m.vals; }
    RunTwo(s, trace);
  }

  lemma {:induction false} ValuesReceived(m: Message, n: nat, start: nat, trace: seq<Seen>)
    requires IsSet(m) && n < |m.vals| && AreWords(trace, m.vals[n..])
    ensures Run(Receiving(m, n, start), trace) == Step(CLEARED, [Report(start, m.hdr, m.vals)])
    decreases |m.vals| - n
  {
    hide IsSet, Receiving, StepVerb, LowVerb, HighVerb;
    assert trace[..2] + trace[2..] == trace;
    assert IsWord(trace[..2], m.vals[n]);
    ValueReceived(m, n, start, trace[..2]);
    RunJoins(Receiving(m, n, start), trace[..2], trace[2..]);
    if n + 1 == |m.vals| {
      assert trace[2..] == [];
    } else {
      forall i | 0 <= i < |m.vals| - (n + 1)
        ensures trace[2..][2 * i].v == LowVerb(m.vals[n + 1..][i]) && trace[2..][2 * i + 1].v == HighVerb(m.vals[n + 1..][i])
      {
        assert trace[2 * (i + 1)].v == LowVerb(m.vals[n..][i + 1]);
      }
      ValuesReceived(m, n + 1, start, trace[2..]);
    }
  }

  /** One message, header and values, is reported once and leaves nothing behind. */
  lemma MessageReceived(m: Message, trace: seq<Seen>)
    requires IsSet(m) && IsMessage(trace, m)
    ensures Run(CLEARED, trace) == Step(CLEARED, [Report(trace[0].addr, m.hdr, m.vals)])
  {
    hide Receiving, StepVerb, LowVerb, HighVerb, HeaderOf, Masked;
    assert trace[..2] + trace[2..] == trace;
    HeaderReceived(m, trace[..2]);
    RunJoins(CLEARED, trace[..2], trace[2..]);
    if m.vals == [] {
      assert trace[2..] == [];
    } else {
      assert m.vals[0..] == m.vals;
      ValuesReceived(m, 0, trace[0].addr, trace[2..]);
    }
  }

  /** The trace of a list of messages. */
  predicate AreMessages(traces: seq<seq<Seen>>, ms: seq<Message>) {
    |traces| == |ms| && forall i :: 0 <= i < |ms| ==> IsSet(ms[i]) && IsMessage(traces[i], ms[i])
  }

  function Concat(traces: seq<seq<Seen>>): seq<Seen> {
    if traces == [] then [] else traces[0] + Concat(traces[1..])
  }

  function Reports(traces: seq<seq<Seen>>, ms: seq<Message>): seq<Report>
    requires AreMessages(traces, ms)
  {
    seq(|ms|, i requires 0 <= i < |ms| => Report(traces[i][0].addr, ms[i].hdr, ms[i].vals))
  }

  /** Whatever is polled in between, a list of messages sent without retries is reported
      message by message, in order, and leaves the decoder cleared. */
  lemma {:induction false} MessagesReceived(trace: seq<Seen>, traces: seq<seq<Seen>>, ms: seq<Message>)
    requires AreMessages(traces, ms) && Kept(trace) == Concat(traces)
    ensures Run(CLEARED, trace) == Step(CLEARED, Reports(traces, ms))
  {
    IgnoredDoNotMatter(CLEARED, trace);
    ConcatReceived(traces, ms);
  }

  lemma {:induction false} ConcatReceived(traces: seq<seq<Seen>>, ms: seq<Message>)
    requires AreMessages(traces, ms)
    ensures Run(CLEARED, Concat(traces)) == Step(CLEARED, Reports(traces, ms))
    decreases |ms|
  {
    hide IsMessage, IsSet, StepVerb;
    if ms != [] {
      MessageReceived(ms[0], traces[0]);
      ConcatReceived(traces[1..], ms[1..]);
      RunJoins(CLEARED, traces[0], Concat(traces[1..]));
      assert Reports(traces, ms) == [Report(traces[0][0].addr, ms[0].hdr, ms[0].vals)] + Reports(traces[1..], ms[1..]);
    } else {
      assert Reports(traces, ms) == [];
    }
  }

  lemma RunTwo(s: State, trace: seq<Seen>)
    requires |trace| == 2
    ensures var a := StepVerb(s, trace[0].v, trace[0].addr);
            var b := StepVerb(a.s, trace[1].v, trace[1].addr);
            Run(s, trace) == Step(b.s, a.out + b.out)
  {
    hide StepVerb;
    var a := StepVerb(s, trace[0].v, trace[0].addr);
    var b := StepVerb(a.s, trace[1].v, trace[1].addr);
    assert trace[1..][0] == trace[1] && trace[1..][1..] == [];
    assert Run(b.s, []) == Step(b.s, []);
    assert Run(a.s, trace[1..]) == Step(b.s, b.out + []);
    assert b.out + [] == b.out;
  }

  /* ---------- Retries ---------- */

  /** A first half repeated: every second one is taken for an error and clears. */
  lemma {:induction false} LowsFromCleared(word: nat, lows: seq<Seen>)
    requires word < 0x1_0000_0000 && AllAre(lows, LowVerb(word))
    ensures Run(CLEARED, lows) ==
            Step(if |lows| % 2 == 1 then Started(word % 0x1_0000, lows[|lows| - 1].addr) else CLEARED, [])
    decreases |lows|
  {
    hide LowVerb, HighVerb, Payload, Group;
    WordVerbs(word);
    if |lows| == 1 {
      assert lows == [lows[0]] && lows[1..] == [];
    } else if |lows| >= 2 {
      var start := lows[0].addr;
      assert StepVerb(CLEARED, lows[0].v, start) == Step(Started(word % 0x1_0000, start), []);
      assert StepVerb(Started(word % 0x1_0000, start), lows[1].v, lows[1].addr) == Step(CLEARED, []);
      assert lows == lows[..2] + lows[2..];
      RunTwo(CLEARED, lows[..2]);
      RunJoins(CLEARED, lows[..2], lows[2..]);
      LowsFromCleared(word, lows[2..]);
      if |lows| > 2 { assert lows[2..][|lows| - 3] == lows[|lows| - 1]; }
    }
  }

  /** Second halves alone do nothing to a decoder without a header, whatever is left in it. */
  lemma {:induction false} HighsWithoutHeader(s: State, word: nat, highs: seq<Seen>)
    requires word < 0x1_0000_0000 && AllAre(highs, HighVerb(word)) && !s.scpSet0
    ensures !Run(s, highs).s.scpSet0 && Run(s, highs).out == []
    ensures s == CLEARED ==> Run(s, highs).s == CLEARED
    decreases |highs|
  {
    hide LowVerb, HighVerb, Payload, Group;
    WordVerbs(word);
    if highs != [] {
      assert StepVerb(s, highs[0].v, highs[0].addr) == Step(CLEARED, []);
      HighsWithoutHeader(CLEARED, word, highs[1..]);
    }
  }

  /** The header's verbs under retries. A message without values is reported, once, exactly
      when its first half was sent an odd number of times. A message with values is then
      ready for them exactly when, besides, its second half was sent once. */
  lemma HeaderRetries(m: Message, lows: seq<Seen>, highs: seq<Seen>)
    requires IsSet(m) && lows != [] && highs != []
    requires AllAre(lows, LowVerb(HeaderOf(m.hdr))) && AllAre(highs, HighVerb(HeaderOf(m.hdr)))
    ensures var start := lows[|lows| - 1].addr;
            var r := Run(CLEARED, lows + highs);
            if m.vals == [] then
              r == Step(CLEARED, if |lows| % 2 == 1 then [Report(start, m.hdr, [])] else [])
            else
              r.out == [] && (r.s == Receiving(m, 0, start) <==> |lows| % 2 == 1 && |highs| == 1) &&
              (!(|lows| % 2 == 1 && |highs| == 1) ==> !r.s.scpSet0)
  {
    hide StepVerb, LowVerb, HighVerb, HeaderOf, Masked;
    var word := HeaderOf(m.hdr);
    assert word < 0x1_0000_0000 by { FieldsReadBack(m.hdr); }
    LowsFromCleared(word, lows);
    RunJoins(CLEARED, lows, highs);
    if |lows| % 2 == 1 {
      var last := lows[|lows| - 1];
      if m.vals == [] { HighsAfterEmpty(m, last, highs); } else { HighsBeforeValues(m, last, highs); }
    } else {
      HighsWithoutHeader(CLEARED, word, highs);
    }
  }

  lemma EmptyPrinted(s: State)
    ensures s.hdr.dataSize == 0 ==> Printed(s).vals == []
  {
  }

  /** The second half of a header, the first time. */
  lemma HeaderCompleted(m: Message, low: Seen, high: Seen)
    requires IsSet(m) && high.v == HighVerb(HeaderOf(m.hdr))
    ensures StepVerb(Started(HeaderOf(m.hdr) % 0x1_0000, low.addr), high.v, high.addr) ==
            Check(Step(Receiving(m, 0, low.addr), []))
  {
    hide LowVerb, HighVerb, HeaderOf, Masked, GetScpData, Payload, Group, Or, Check;
    FieldsReadBack(m.hdr);
    WordVerbs(HeaderOf(m.hdr));
  }

  lemma HighsAfterEmpty(m: Message, low: Seen, highs: seq<Seen>)
    requires IsSet(m) && m.vals == [] && highs != [] && AllAre(highs, HighVerb(HeaderOf(m.hdr)))
    ensures Run(Started(HeaderOf(m.hdr) % 0x1_0000, low.addr), highs) == Step(CLEARED, [Report(low.addr, m.hdr, [])])
  {
    hide LowVerb, HighVerb, HeaderOf, Masked, GetScpData, StepVerb;
    FieldsReadBack(m.hdr);
    HeaderCompleted(m, low, highs[0]);
    EmptyPrinted(Receiving(m, 0, low.addr));
    HighsWithoutHeader(CLEARED, HeaderOf(m.hdr), highs[1..]);
  }

  lemma HighsBeforeValues(m: Message, low: Seen, highs: seq<Seen>)
    requires IsSet(m) && m.vals != [] && highs != [] && AllAre(highs, HighVerb(HeaderOf(m.hdr)))
    ensures var r := Run(Started(HeaderOf(m.hdr) % 0x1_0000, low.addr), highs);
            r.out == [] && if |highs| == 1 then r.s == Receiving(m, 0, low.addr) else !r.s.scpSet0
  {
    hide LowVerb, HighVerb, HeaderOf, Masked, GetScpData, Payload, Group, Or;
    var word := HeaderOf(m.hdr);
    FieldsReadBack(m.hdr);
    WordVerbs(word);
    var ready := Receiving(m, 0, low.addr);
    HeaderCompleted(m, low, highs[0]);
    if |highs| == 1 {
      assert highs[1..] == [];
    } else {
      var second := StepVerb(ready, highs[1].v, highs[1].addr);
      assert !second.s.scpSet0 && second.out == [];
      assert highs[1..][0] == highs[1];
      HighsWithoutHeader(second.s, word, highs[1..][1..]);
    }
  }

  /** A value's first half may be repeated freely. */
  lemma {:induction false} ValueLows(m: Message, n: nat, start: nat, lows: seq<Seen>)
    requires IsSet(m) && n < |m.vals| && lows != [] && AllAre(lows, LowVerb(m.vals[n]))
    ensures Run(Receiving(m, n, start), lows) ==
            Step(Receiving(m, n, start).(dataSet0 := true, dataSet1 := false, data := m.vals[n] % 0x1_0000), [])
    decreases |lows|
  {
    hide LowVerb, HighVerb, HeaderOf, Masked, GetScpData, Payload, Group;
    var s, word := Receiving(m, n, start), m.vals[n];
    WordVerbs(word);
    var last := |lows| - 1;
    assert lows == lows[..last] + [lows[last]];
    RunJoins(s, lows[..last], [lows[last]]);
    if last > 0 { ValueLows(m, n, start, lows[..last]); }
    assert [lows[last]][1..] == [];
  }

  /** A second half that is or-ed in again changes nothing. */
  lemma OrTwice(word: nat)
    requires word < 0x1_0000_0000
    ensures Or(word, word / 0x1_0000 * 0x1_0000) == word
  {
    WordVerbs(word);
    var l, h := word % 0x1_0000, word / 0x1_0000 * 0x1_0000;
    forall i: nat
      ensures Bit(Or(word, h), i) == Bit(word, i)
    {
      BitOr(word, h, i);
      BitOr(l, h, i);
    }
    BitsExt(Or(word, h), word);
  }
}
