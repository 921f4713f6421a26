/** Writes over the chip's internal bus (HIC): an address and a data word, each sent as two
    halves, and the trace decoder that pairs them again. */
module Hic {
  import opened Bits
  import opened Scp
  import opened Verbs
  import opened ScpDecoder
  import opened Bus

  /** The fields of struct chipio_data that the HIC verbs use. */
  datatype HicState = HicState(addrSet0: bool, addrSet1: bool, dataSet0: bool, dataSet1: bool, readSet: bool,
                               addr: nat, data: nat, start: nat)

  datatype HicReport = WriteTo(start: nat, addr: nat, data: nat) | ReadBack(start: nat, addr: nat)

  datatype HicStep = HicStep(s: HicState, out: seq<HicReport>)

  /** chipio_hic_clear */
  const HIC_CLEARED := HicState(false, false, false, false, false, 0, 0, 0)

  /** chipio_hic_check */
  function CheckWrite(s: HicState): HicStep {
    if s.addrSet0 && s.addrSet1 && s.dataSet0 && s.dataSet1 then
      HicStep(HIC_CLEARED, [WriteTo(s.start, s.addr, s.data)])
    else HicStep(s, [])
  }

  /** chipio_hic_check_read */
  function CheckRead(s: HicState): HicStep {
    if s.addrSet0 && s.addrSet1 && s.readSet then HicStep(HIC_CLEARED, [ReadBack(s.start, s.addr)])
    else HicStep(s, [])
  }

  /** chipio_verb_handler, as far as the HIC goes. */
  function HicVerb(s: HicState, v: Verb, at: nat): HicStep {
    match Group(v)
    case 0 => CheckWrite(HIC_CLEARED.(start := at, addr := Payload(v), addrSet0 := true))
    case 1 => CheckWrite(s.(addr := Or(s.addr, Payload(v) * 0x1_0000), addrSet1 := true))
    case 3 => CheckWrite(s.(data := Payload(v), dataSet0 := true))
    case 4 => CheckWrite(s.(data := Or(s.data, Payload(v) * 0x1_0000), dataSet1 := true))
    case _ =>
      if v.verb == 0x702 then HicStep(if s.addrSet0 && s.addrSet1 then s.(readSet := true) else s, [])
      else if v.verb == 0xf03 then CheckRead(s)
      else HicStep(s, [])
  }

  function HicRun(s: HicState, trace: seq<Seen>): HicStep
    decreases |trace|
  {
    if trace == [] then HicStep(s, [])
    else
      var first := HicVerb(s, trace[0].v, trace[0].addr);
      var rest := HicRun(first.s, trace[1..]);
      HicStep(rest.s, first.out + rest.out)
  }

  lemma {:induction false} HicJoins(s: HicState, a: seq<Seen>, b: seq<Seen>)
    ensures var first := HicRun(s, a);
            var rest := HicRun(first.s, b);
            HicRun(s, a + b) == HicStep(rest.s, first.out + rest.out)
    decreases |a|
  {
    hide HicVerb;
    if a == [] {
      assert a + b == b;
    } else {
      assert (a + b)[1..] == a[1..] + b && (a + b)[0] == a[0];
      var one := HicVerb(s, a[0].v, a[0].addr);
      HicJoins(one.s, a[1..], b);
      var two := HicRun(one.s, a[1..]);
      var three := HicRun(two.s, b);
      assert one.out + (two.out + three.out) == (one.out + two.out) + three.out;
    }
  }

  /* ---------- The driver's verbs ---------- */

  function StatusPoll(): Verb { HdaVerb(0xf01, 0) }
  function AddrLow(addr: nat): Verb { HdaVerb(0x000, addr % 0x1_0000) }
  function AddrHigh(addr: nat): Verb { HdaVerb(0x100, addr / 0x1_0000 % 0x1_0000) }
  function DataLow(data: nat): Verb { HdaVerb(0x300, data % 0x1_0000) }
  function DataHigh(data: nat): Verb { HdaVerb(0x400, data / 0x1_0000 % 0x1_0000) }

  lemma VerbFacts(word: nat)
    requires word < 0x1_0000_0000
    ensures Group(AddrLow(word)) == 0 && Group(AddrHigh(word)) == 1
    ensures Group(DataLow(word)) == 3 && Group(DataHigh(word)) == 4
    ensures Payload(AddrLow(word)) == Payload(DataLow(word)) == word % 0x1_0000
    ensures Payload(AddrHigh(word)) == Payload(DataHigh(word)) == word / 0x1_0000
    ensures Or(word % 0x1_0000, word / 0x1_0000 * 0x1_0000) == word && Or(word, word / 0x1_0000 * 0x1_0000) == word
  {
    hide Or, Payload, Group, HdaVerb;
    PayloadCarried(0, word % 0x1_0000);
    PayloadCarried(1, word / 0x1_0000);
    PayloadCarried(3, word % 0x1_0000);
    PayloadCarried(4, word / 0x1_0000);
    WordVerbs(word);
    OrTwice(word);
  }

  /** Where each half stands once its verbs, however often repeated, are in. */
  lemma {:induction false} AddrLows(s: HicState, addr: nat, trace: seq<Seen>)
    requires addr < 0x1_0000_0000 && trace != [] && AllAre(trace, AddrLow(addr))
    ensures HicRun(s, trace) ==
            HicStep(HIC_CLEARED.(start := trace[|trace| - 1].addr, addr := addr % 0x1_0000, addrSet0 := true), [])
    decreases |trace|
  {
    hide AddrLow, Payload, Group;
    VerbFacts(addr);
    var first := HicVerb(s, trace[0].v, trace[0].addr);
    if |trace| > 1 {
      AddrLows(first.s, addr, trace[1..]);
    } else {
      assert trace[1..] == [];
    }
  }

  lemma {:induction false} AddrHighs(s: HicState, addr: nat, trace: seq<Seen>)
    requires addr < 0x1_0000_0000 && AllAre(trace, AddrHigh(addr)) && s.addrSet0 && !s.dataSet0 && !s.dataSet1
    requires if s.addrSet1 then s.addr == addr else s.addr == addr % 0x1_0000 && trace != []
    ensures HicRun(s, trace) == HicStep(s.(addr := addr, addrSet1 := true), [])
    decreases |trace|
  {
    hide AddrHigh, Payload, Group, Or;
    VerbFacts(addr);
    if trace != [] {
      var first := HicVerb(s, trace[0].v, trace[0].addr);
      assert first == HicStep(s.(addr := addr, addrSet1 := true), []);
      AddrHighs(first.s, addr, trace[1..]);
    }
  }

  lemma {:induction false} DataLows(s: HicState, data: nat, trace: seq<Seen>)
    requires data < 0x1_0000_0000 && AllAre(trace, DataLow(data)) && !s.dataSet1 && trace != []
    ensures HicRun(s, trace) == HicStep(s.(data := data % 0x1_0000, dataSet0 := true), [])
    decreases |trace|
  {
    hide DataLow, Payload, Group;
    VerbFacts(data);
    var first := HicVerb(s, trace[0].v, trace[0].addr);
    if |trace| > 1 {
      DataLows(first.s, data, trace[1..]);
    } else {
      assert trace[1..] == [];
    }
  }

  /** Without an address nothing is reported. */
  lemma {:induction false} DataHighsAlone(s: HicState, data: nat, trace: seq<Seen>)
    requires data < 0x1_0000_0000 && AllAre(trace, DataHigh(data)) && !s.addrSet0
    ensures HicRun(s, trace).out == [] && !HicRun(s, trace).s.addrSet0
    decreases |trace|
  {
    hide DataHigh, Payload, Group, Or;
    VerbFacts(data);
    if trace != [] { DataHighsAlone(HicVerb(s, trace[0].v, trace[0].addr).s, data, trace[1..]); }
  }

  /** The first second half completes the write; its repetitions change nothing that matters. */
  lemma DataHighs(s: HicState, data: nat, trace: seq<Seen>)
    requires data < 0x1_0000_0000 && AllAre(trace, DataHigh(data)) && trace != []
    requires s.addrSet0 && s.addrSet1 && s.dataSet0 && !s.dataSet1 && s.data == data % 0x1_0000
    ensures HicRun(s, trace).out == [WriteTo(s.start, s.addr, data)] && !HicRun(s, trace).s.addrSet0
  {
    hide DataHigh, Payload, Group, Or;
    VerbFacts(data);
    var first := HicVerb(s, trace[0].v, trace[0].addr);
    DataHighsAlone(first.s, data, trace[1..]);
  }

  /* ---------- The driver ---------- */

  lemma TraceAll(v: Verb, n: nat, at: nat)
    ensures |TraceFrom(Repeat(v, n), at)| == n && AllAre(TraceFrom(Repeat(v, n), at), v)
    decreases n
  {
    if n > 0 {
      assert Repeat(v, n)[1..] == Repeat(v, n - 1);
      TraceAll(v, n - 1, at + 4);
    }
  }

  lemma {:induction false} PollsSkipped(s: HicState, n: nat, at: nat)
    ensures HicRun(s, TraceFrom(Repeat(StatusPoll(), n), at)) == HicStep(s, [])
    decreases n
  {
    hide HicVerb, StatusPoll;
    if n > 0 {
      assert Repeat(StatusPoll(), n)[1..] == Repeat(StatusPoll(), n - 1);
      PollSkipped(s, at);
      PollsSkipped(s, n - 1, at + 4);
    }
  }

  lemma PollSkipped(s: HicState, at: nat)
    ensures HicVerb(s, StatusPoll(), at) == HicStep(s, [])
  {
    hide HdaVerb, Payload, Or;
    ParamCarried(0xf01, 0);
    assert Group(Verb(0xf01, 0)) == 15;
  }

  /** Two runs of one verb each, after polls. */
  function Halves(polls: nat, low: Verb, lows: nat, high: Verb, highs: nat): seq<Verb> {
    Repeat(StatusPoll(), polls) + Repeat(low, lows) + Repeat(high, highs)
  }

  lemma HalvesTrace(s: HicState, polls: nat, low: Verb, lows: nat, high: Verb, highs: nat, at: nat)
    ensures var a := TraceFrom(Repeat(low, lows), at + 4 * polls);
            var b := TraceFrom(Repeat(high, highs), at + 4 * (polls + lows));
            HicRun(s, TraceFrom(Halves(polls, low, lows, high, highs), at)) == HicRun(s, a + b)
  {
    hide HicVerb, StatusPoll, TraceFrom;
    var p, l, h := Repeat(StatusPoll(), polls), Repeat(low, lows), Repeat(high, highs);
    var tp, a, b := TraceFrom(p, at), TraceFrom(l, at + 4 * polls), TraceFrom(h, at + 4 * (polls + lows));
    TraceJoins(p + l, h, at);
    TraceJoins(p, l, at);
    assert TraceFrom(p + l + h, at) == tp + (a + b);
    PollsSkipped(s, polls, at);
    HicJoins(s, tp, a + b);
  }

  /** chipio_hic_set_address */
  method HicSetAddress(link: Link, addr: nat) returns (failed: bool, ghost polls: nat, ghost lows: nat, ghost highs: nat)
    requires addr < 0x1_0000_0000
    modifies link
    ensures |old(link.sent)| <= |link.sent| && link.sent[..|old(link.sent)|] == old(link.sent)
    ensures !failed ==>
              1 <= polls <= 6 && 1 <= lows <= 4 && 1 <= highs <= 4 &&
              link.sent == old(link.sent) + Halves(polls, AddrLow(addr), lows, AddrHigh(addr), highs)
  {
    hide HdaVerb;
    lows, highs := 0, 0;
    var res;
    res, polls := link.SendUntilZero(StatusPoll(), 6);
    if res != 0 { return true, polls, 0, 0; }
    res, lows := link.SendUntilZero(AddrLow(addr), 4);
    if res != 0 { return true, polls, lows, 0; }
    res, highs := link.SendUntilZero(AddrHigh(addr), 4);
    failed := res != 0;
    assert link.sent == old(link.sent) + Halves(polls, AddrLow(addr), lows, AddrHigh(addr), highs);
  }

  /** chipio_hic_set_data */
  method HicSetData(link: Link, data: nat) returns (failed: bool, ghost polls: nat, ghost lows: nat, ghost highs: nat)
    requires data < 0x1_0000_0000
    modifies link
    ensures |old(link.sent)| <= |link.sent| && link.sent[..|old(link.sent)|] == old(link.sent)
    ensures !failed ==>
              1 <= polls <= 6 && 1 <= lows <= 4 && 1 <= highs <= 4 &&
              link.sent == old(link.sent) + Halves(polls, DataLow(data), lows, DataHigh(data), highs)
  {
    hide HdaVerb;
    lows, highs := 0, 0;
    var res;
    res, polls := link.SendUntilZero(StatusPoll(), 6);
    if res != 0 { return true, polls, 0, 0; }
    res, lows := link.SendUntilZero(DataLow(data), 4);
    if res != 0 { return true, polls, lows, 0; }
    res, highs := link.SendUntilZero(DataHigh(data), 4);
    failed := res != 0;
    assert link.sent == old(link.sent) + Halves(polls, DataLow(data), lows, DataHigh(data), highs);
  }

  /** How often each verb of two halves was sent. */
  datatype Tries = Tries(polls: nat, lows: nat, highs: nat)

  predicate Tried(t: Tries) { 1 <= t.lows && 1 <= t.highs }

  function AddrSent(addr: nat, t: Tries): seq<Verb> {
    Halves(t.polls, AddrLow(addr), t.lows, AddrHigh(addr), t.highs)
  }

  function DataSent(data: nat, t: Tries): seq<Verb> {
    Halves(t.polls, DataLow(data), t.lows, DataHigh(data), t.highs)
  }

  /** A write's verbs: address, then data. */
  ghost predicate WriteSent(verbs: seq<Verb>, addr: nat, data: nat) {
    exists t: Tries, u: Tries :: Tried(t) && Tried(u) && verbs == AddrSent(addr, t) + DataSent(data, u)
  }

  /** chipio_hic_write_at_addr */
  method HicWriteAtAddr(link: Link, addr: nat, data: nat) returns (failed: bool)
    requires addr < 0x1_0000_0000 && data < 0x1_0000_0000
    modifies link
    ensures |old(link.sent)| <= |link.sent| && link.sent[..|old(link.sent)|] == old(link.sent)
    ensures !failed ==> WriteSent(link.sent[|old(link.sent)|..], addr, data)
  {
    hide HdaVerb, Halves, AddrLow, AddrHigh, DataLow, DataHigh;
    ghost var p, a, b, q, c, d;
    failed, p, a, b := HicSetAddress(link, addr);
    if failed { return; }
    failed, q, c, d := HicSetData(link, data);
    if !failed {
      assert link.sent[|old(link.sent)|..] == AddrSent(addr, Tries(p, a, b)) + DataSent(data, Tries(q, c, d));
    }
  }

  /** The decoder has the address and waits for the data. */
  predicate HasAddress(s: HicState, addr: nat) {
    s.addrSet0 && s.addrSet1 && !s.dataSet0 && !s.dataSet1 && s.addr == addr
  }

  lemma AddressDecoded(s: HicState, p: nat, addr: nat, a: nat, b: nat, at: nat)
    requires addr < 0x1_0000_0000 && 1 <= a && 1 <= b
    ensures var r := HicRun(s, TraceFrom(Halves(p, AddrLow(addr), a, AddrHigh(addr), b), at));
            r.out == [] && HasAddress(r.s, addr)
  {
    hide AddrLow, AddrHigh, HicVerb, Halves, TraceFrom, AllAre;
    var ta, tb := TraceFrom(Repeat(AddrLow(addr), a), at + 4 * p), TraceFrom(Repeat(AddrHigh(addr), b), at + 4 * (p + a));
    HalvesTrace(s, p, AddrLow(addr), a, AddrHigh(addr), b, at);
    TraceAll(AddrLow(addr), a, at + 4 * p);
    TraceAll(AddrHigh(addr), b, at + 4 * (p + a));
    AddrLows(s, addr, ta);
    AddrHighs(HicRun(s, ta).s, addr, tb);
    HicJoins(s, ta, tb);
  }

  /** The first data word after an address is reported; the address is used up. */
  lemma DataDecoded(s: HicState, addr: nat, q: nat, data: nat, c: nat, d: nat, at: nat)
    requires data < 0x1_0000_0000 && 1 <= c && 1 <= d && HasAddress(s, addr)
    ensures var r := HicRun(s, TraceFrom(Halves(q, DataLow(data), c, DataHigh(data), d), at));
            r.out == [WriteTo(s.start, addr, data)] && !r.s.addrSet0
  {
    hide DataLow, DataHigh, HicVerb, Halves, TraceFrom, AllAre;
    var tc, td := TraceFrom(Repeat(DataLow(data), c), at + 4 * q), TraceFrom(Repeat(DataHigh(data), d), at + 4 * (q + c));
    HalvesTrace(s, q, DataLow(data), c, DataHigh(data), d, at);
    TraceAll(DataLow(data), c, at + 4 * q);
    TraceAll(DataHigh(data), d, at + 4 * (q + c));
    DataLows(s, data, tc);
    DataHighs(HicRun(s, tc).s, data, td);
    HicJoins(s, tc, td);
  }

  lemma BothDecoded(s: HicState, p: nat, addr: nat, a: nat, b: nat, q: nat, data: nat, c: nat, d: nat, at: nat)
    requires addr < 0x1_0000_0000 && data < 0x1_0000_0000 && 1 <= a && 1 <= b && 1 <= c && 1 <= d
    ensures var verbs := Halves(p, AddrLow(addr), a, AddrHigh(addr), b) + Halves(q, DataLow(data), c, DataHigh(data), d);
            var r := HicRun(s, TraceFrom(verbs, at));
            !r.s.addrSet0 && |r.out| == 1 && r.out[0].WriteTo? && r.out[0].addr == addr && r.out[0].data == data
  {
    hide AddrLow, AddrHigh, DataLow, DataHigh, HicVerb, HicRun, TraceFrom, Halves, HasAddress;
    var first, second := Halves(p, AddrLow(addr), a, AddrHigh(addr), b), Halves(q, DataLow(data), c, DataHigh(data), d);
    TraceJoins(first, second, at);
    HicJoins(s, TraceFrom(first, at), TraceFrom(second, at + 4 * |first|));
    AddressDecoded(s, p, addr, a, b, at);
    var s1 := HicRun(s, TraceFrom(first, at)).s;
    assert s1.addr == addr by { AddressHeld(s1, addr); }
    DataDecoded(s1, addr, q, data, c, d, at + 4 * |first|);
  }

  lemma AddressHeld(s: HicState, addr: nat)
    requires HasAddress(s, addr)
    ensures s.addr == addr
  {
  }

  /** A single write, its polls and retries included, is decoded to exactly one report of its
      address and data, whatever the decoder held before. */
  lemma WriteRoundTrip(s: HicState, verbs: seq<Verb>, addr: nat, data: nat, at: nat)
    requires addr < 0x1_0000_0000 && data < 0x1_0000_0000 && WriteSent(verbs, addr, data)
    ensures var r := HicRun(s, TraceFrom(verbs, at));
            !r.s.addrSet0 && |r.out| == 1 && r.out[0].WriteTo? && r.out[0].addr == addr && r.out[0].data == data
  {
    hide AddrLow, AddrHigh, DataLow, DataHigh, HicVerb, HicRun, TraceFrom, Halves;
    var t: Tries, u: Tries :| Tried(t) && Tried(u) && verbs == AddrSent(addr, t) + DataSent(data, u);
    BothDecoded(s, t.polls, addr, t.lows, t.highs, u.polls, data, u.lows, u.highs, at);
  }

  /* ---------- Range writes ---------- */

  /** The data words of a range, without an address in between. */
  ghost predicate WordsSent(verbs: seq<Verb>, words: seq<nat>)
    decreases |words|
  {
    if words == [] then verbs == []
    else
      exists q: nat, c: nat, d: nat, rest: seq<Verb> ::
        1 <= c && 1 <= d && verbs == Halves(q, DataLow(words[0]), c, DataHigh(words[0]), d) + rest &&
        WordsSent(rest, words[1..])
  }

  lemma {:induction false} WordsSentSnoc(verbs: seq<Verb>, words: seq<nat>, q: nat, word: nat, c: nat, d: nat)
    requires WordsSent(verbs, words) && 1 <= c && 1 <= d
    ensures WordsSent(verbs + Halves(q, DataLow(word), c, DataHigh(word), d), words + [word])
    decreases |words|
  {
    hide Halves, DataLow, DataHigh;
    var last := Halves(q, DataLow(word), c, DataHigh(word), d);
    if words == [] {
      assert verbs + last == last && words + [word] == [word];
      OneWordSent(q, word, c, d);
    } else {
      var q1: nat, c1: nat, d1: nat, rest: seq<Verb> :|
        1 <= c1 && 1 <= d1 && verbs == Halves(q1, DataLow(words[0]), c1, DataHigh(words[0]), d1) + rest &&
        WordsSent(rest, words[1..]);
      WordsSentSnoc(rest, words[1..], q, word, c, d);
      assert (words + [word])[1..] == words[1..] + [word] && (words + [word])[0] == words[0];
      assert verbs + last == Halves(q1, DataLow(words[0]), c1, DataHigh(words[0]), d1) + (rest + last);
    }
  }

  lemma OneWordSent(q: nat, word: nat, c: nat, d: nat)
    requires 1 <= c && 1 <= d
    ensures WordsSent(Halves(q, DataLow(word), c, DataHigh(word), d), [word])
  {
    hide Halves, DataLow, DataHigh;
    var verbs := Halves(q, DataLow(word), c, DataHigh(word), d);
    assert [word][1..] == [] && [word][0] == word;
    assert verbs == verbs + [] && WordsSent([], [word][1..]);
  }

  /** chipio_hic_write_data_range */
  method HicWriteDataRange(link: Link, startAddr: nat, buf: seq<nat>)
    returns (failed: bool, ghost head: seq<Verb>, ghost words: seq<Verb>)
    requires startAddr < 0x1_0000_0000 && forall i :: 0 <= i < |buf| ==> buf[i] < 0x1_0000_0000
    modifies link
    ensures !failed ==>
              link.sent == old(link.sent) + head + words && WordsSent(words, buf) &&
              exists p: nat, a: nat, b: nat ::
                1 <= a && 1 <= b && head == Halves(p, AddrLow(startAddr), a, AddrHigh(startAddr), b)
  {
    hide HdaVerb, Halves, AddrLow, AddrHigh, DataLow, DataHigh, WordsSent;
    ghost var p, a, b, q, c, d;
    words := [];
    failed, p, a, b := HicSetAddress(link, startAddr);
    head := Halves(p, AddrLow(startAddr), a, AddrHigh(startAddr), b);
    if failed { return; }
    assert WordsSent([], []) by { NoWordsSent(); }
    for i := 0 to |buf|
      modifies link
      invariant link.sent == old(link.sent) + head + words && WordsSent(words, buf[..i])
    {
      failed, q, c, d := HicSetData(link, buf[i]);
      if failed { return; }
      WordsSentSnoc(words, buf[..i], q, buf[i], c, d);
      assert buf[..i] + [buf[i]] == buf[..i + 1];
      words := words + Halves(q, DataLow(buf[i]), c, DataHigh(buf[i]), d);
    }
    assert buf[..|buf|] == buf;
  }

  lemma NoWordsSent()
    ensures WordsSent([], [])
  {
  }

  lemma {:induction false} WordsIgnored(s: HicState, verbs: seq<Verb>, words: seq<nat>, at: nat)
    requires WordsSent(verbs, words) && !s.addrSet0 && forall i :: 0 <= i < |words| ==> words[i] < 0x1_0000_0000
    ensures HicRun(s, TraceFrom(verbs, at)).out == [] && !HicRun(s, TraceFrom(verbs, at)).s.addrSet0
    decreases |words|
  {
    hide Halves, DataLow, DataHigh, HicVerb;
    if words != [] {
      var q: nat, c: nat, d: nat, rest: seq<Verb> :|
        1 <= c && 1 <= d && verbs == Halves(q, DataLow(words[0]), c, DataHigh(words[0]), d) + rest &&
        WordsSent(rest, words[1..]);
      var first := Halves(q, DataLow(words[0]), c, DataHigh(words[0]), d);
      TraceJoins(first, rest, at);
      HicJoins(s, TraceFrom(first, at), TraceFrom(rest, at + 4 * |first|));
      DataAlone(s, q, words[0], c, d, at);
      WordsIgnored(HicRun(s, TraceFrom(first, at)).s, rest, words[1..], at + 4 * |first|);
    }
  }

  lemma DataAlone(s: HicState, q: nat, data: nat, c: nat, d: nat, at: nat)
    requires data < 0x1_0000_0000 && !s.addrSet0
    ensures var r := HicRun(s, TraceFrom(Halves(q, DataLow(data), c, DataHigh(data), d), at));
            r.out == [] && !r.s.addrSet0
  {
    hide DataLow, DataHigh, HicVerb, Halves, TraceFrom, AllAre;
    var tc, td := TraceFrom(Repeat(DataLow(data), c), at + 4 * q), TraceFrom(Repeat(DataHigh(data), d), at + 4 * (q + c));
    HalvesTrace(s, q, DataLow(data), c, DataHigh(data), d, at);
    TraceAll(DataLow(data), c, at + 4 * q);
    TraceAll(DataHigh(data), d, at + 4 * (q + c));
    DataLowsAlone(s, data, tc);
    DataHighsAlone(HicRun(s, tc).s, data, td);
    HicJoins(s, tc, td);
  }

  lemma {:induction false} DataLowsAlone(s: HicState, data: nat, trace: seq<Seen>)
    requires data < 0x1_0000_0000 && AllAre(trace, DataLow(data)) && !s.addrSet0
    ensures HicRun(s, trace).out == [] && !HicRun(s, trace).s.addrSet0
    decreases |trace|
  {
    hide DataLow, Payload, Group, Or;
    VerbFacts(data);
    if trace != [] { DataLowsAlone(HicVerb(s, trace[0].v, trace[0].addr).s, data, trace[1..]); }
  }

  /** A range write is listed as a write of its first word only: the decoder forgets the
      address once it has used it. */
  lemma RangeReportsFirstWord(s: HicState, p: nat, addr: nat, a: nat, b: nat, verbs: seq<Verb>, words: seq<nat>, at: nat)
    requires addr < 0x1_0000_0000 && 1 <= a && 1 <= b && words != [] && WordsSent(verbs, words)
    requires forall i :: 0 <= i < |words| ==> words[i] < 0x1_0000_0000
    ensures var head := Halves(p, AddrLow(addr), a, AddrHigh(addr), b);
            var r := HicRun(s, TraceFrom(head + verbs, at));
            !r.s.addrSet0 && |r.out| == 1 && r.out[0].WriteTo? && r.out[0].addr == addr && r.out[0].data == words[0]
  {
    hide Halves, AddrLow, AddrHigh, DataLow, DataHigh, HicVerb, HicRun, TraceFrom, HasAddress;
    var head := Halves(p, AddrLow(addr), a, AddrHigh(addr), b);
    var q: nat, c: nat, d: nat, rest: seq<Verb> :|
      1 <= c && 1 <= d && verbs == Halves(q, DataLow(words[0]), c, DataHigh(words[0]), d) + rest &&
      WordsSent(rest, words[1..]);
    hide WordsSent;
    var first := Halves(q, DataLow(words[0]), c, DataHigh(words[0]), d);
    var at1, at2 := at + 4 * |head|, at + 4 * |head| + 4 * |first|;
    TraceJoins(head, verbs, at);
    HicJoins(s, TraceFrom(head, at), TraceFrom(verbs, at1));
    AddressDecoded(s, p, addr, a, b, at);
    var s1 := HicRun(s, TraceFrom(head, at)).s;
    TraceJoins(first, rest, at1);
    HicJoins(s1, TraceFrom(first, at1), TraceFrom(rest, at2));
    DataDecoded(s1, addr, q, words[0], c, d, at1);
    WordsIgnored(HicRun(s1, TraceFrom(first, at1)).s, rest, words[1..], at2);
  }
}
