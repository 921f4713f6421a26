/** What the trace decoder makes of a stream of words, each sent as its two halves any number of times:
    it parses the words as headers and values, and the retries decide which words it sees. */
module ScpWords {
  import opened Bits
  import opened Scp
  import opened ScpDecoder
  import opened Verbs

  /** A word, and how often its two halves were sent. */
  datatype Sent = Sent(word: nat, lows: nat, highs: nat)

  /** Between messages (perhaps with rubbish left in the fields), or in one. */
  datatype Phase = Idle(junk: bool) | Open(start: nat, hdr: ScpData, vals: seq<nat>)

  /** The phase reached, and what was listed on the way. */
  datatype Parsed = Parsed(phase: Phase, out: seq<Report>)

  const CLEAR := Idle(false)

  predicate Tried(w: Sent) { w.word < 0x1_0000_0000 && 1 <= w.lows && 1 <= w.highs }

  function Copies(word: nat, n: nat): (r: seq<nat>)
    ensures |r| == n
  {
    seq(n, _ => word)
  }

  /** A word where a header is expected. An even number of first halves cancel out; a header of four
      or more values is dropped; one that expects values is lost when its second half is repeated. */
  function TakeHeader(w: Sent, at: nat): Parsed {
    var hdr := GetScpData(w.word);
    if w.lows % 2 == 0 || hdr.dataSize >= 4 then Parsed(CLEAR, [])
    else if hdr.dataSize == 0 then
      if hdr.getFlag == 0 then Parsed(CLEAR, [Report(at, hdr, [])]) else Parsed(Open(at, hdr, []), [])
    else if w.highs == 1 then Parsed(Open(at, hdr, []), [])
    else Parsed(Idle(w.highs == 2), [])
  }

  /** A word where a value is expected: it counts once for each second half, until the message is full. */
  function TakeValue(p: Phase, w: Sent): Parsed
    requires p.Open? && |p.vals| < p.hdr.dataSize
  {
    var room := p.hdr.dataSize - |p.vals|;
    var vals := p.vals + Copies(w.word, if w.highs < room then w.highs else room);
    if |vals| == p.hdr.dataSize && p.hdr.getFlag == 0 then Parsed(CLEAR, [Report(p.start, p.hdr, vals)])
    else Parsed(p.(vals := vals), [])
  }

  /** One word. A complete request for data is listed when the next word comes. */
  function Take(p: Phase, w: Sent, at: nat): Parsed {
    if p.Open? && |p.vals| < p.hdr.dataSize then TakeValue(p, w)
    else
      var r := TakeHeader(w, at);
      if p.Open? then Parsed(r.phase, [Report(p.start, p.hdr, p.vals)] + r.out) else r
  }

  /** The whole stream; `ats` are the addresses of the words. */
  function Parse(p: Phase, ws: seq<Sent>, ats: seq<nat>): Parsed
    requires |ws| == |ats|
    decreases |ws|
  {
    if ws == [] then Parsed(p, [])
    else
      var first := Take(p, ws[0], ats[0]);
      var rest := Parse(first.phase, ws[1..], ats[1..]);
      Parsed(rest.phase, first.out + rest.out)
  }

  /* ---------- The decoder ---------- */

  /** The verbs of a word: its first half, then its second, repeated. */
  predicate IsSent(trace: seq<Seen>, w: Sent) {
    Tried(w) && |trace| == w.lows + w.highs &&
    AllAre(trace[..w.lows], LowVerb(w.word)) && AllAre(trace[w.lows..], HighVerb(w.word))
  }

  predicate AreSent(traces: seq<seq<Seen>>, ws: seq<Sent>) {
    |traces| == |ws| && forall i :: 0 <= i < |ws| ==> IsSent(traces[i], ws[i])
  }

  /** A message starts where its header's first half was sent last. */
  function Starts(traces: seq<seq<Seen>>, ws: seq<Sent>): (r: seq<nat>)
    requires AreSent(traces, ws)
    ensures |r| == |ws|
  {
    seq(|ws|, i requires 0 <= i < |ws| => traces[i][ws[i].lows - 1].addr)
  }

  predicate Without(s: State) { !s.scpSet0 && !s.scpSet1 }

  /** The decoder's fields show this phase. */
  predicate Shows(s: State, p: Phase) {
    match p
    case Idle(junk) => if junk then Without(s) && s != CLEARED else s == CLEARED
    case Open(start, hdr, vals) =>
      ScpSet(s) && s.start == start && s.hdr == hdr && s.vals == vals && s.readCnt == 0 && s.postCnt == 0 &&
      hdr.dataSize < 4 && hdr.getFlag < 2 && |vals| <= hdr.dataSize && (hdr.getFlag == 0 ==> |vals| < hdr.dataSize)
  }

  lemma OneStep(s: State, trace: seq<Seen>)
    requires trace != []
    ensures var a := StepVerb(s, trace[0].v, trace[0].addr);
            var b := Run(a.s, trace[1..]);
            Run(s, trace) == Step(b.s, a.out + b.out)
  {
    hide StepVerb;
  }

  /** Without a message the first halves of a word act as on a cleared decoder. */
  lemma LowsWithout(s: State, word: nat, lows: seq<Seen>)
    requires Without(s) && word < 0x1_0000_0000 && lows != [] && AllAre(lows, LowVerb(word))
    ensures Run(s, lows) == Run(CLEARED, lows)
  {
    hide LowVerb, HighVerb, Payload, Group;
    WordVerbs(word);
  }

  /** With a complete request, they list it first. */
  lemma LowsAfterGet(s: State, p: Phase, word: nat, lows: seq<Seen>)
    requires Shows(s, p) && p.Open? && |p.vals| == p.hdr.dataSize
    requires word < 0x1_0000_0000 && lows != [] && AllAre(lows, LowVerb(word))
    ensures Run(s, lows) == Step(Run(CLEARED, lows).s, [Report(p.start, p.hdr, p.vals)] + Run(CLEARED, lows).out)
  {
    hide LowVerb, HighVerb, Payload, Group;
    WordVerbs(word);
    assert Printed(s).vals == p.vals;
  }

  /** The first halves of a value are kept. */
  lemma {:induction false} LowsOfValue(s: State, word: nat, lows: seq<Seen>)
    requires ScpSet(s) && s.hdr.dataSize != |s.vals| && word < 0x1_0000_0000 && lows != [] && AllAre(lows, LowVerb(word))
    ensures Run(s, lows) == Step(s.(dataSet0 := true, dataSet1 := false, data := word % 0x1_0000), [])
    decreases |lows|
  {
    hide LowVerb, HighVerb, Payload, Group;
    WordVerbs(word);
    var t := s.(dataSet0 := true, dataSet1 := false, data := word % 0x1_0000);
    assert StepVerb(s, lows[0].v, lows[0].addr) == Step(t, []);
    OneStep(s, lows);
    if |lows| > 1 { LowsOfValue(t, word, lows[1..]); }
  }

  /** Further second halves do nothing to a cleared decoder. */
  lemma HighsCleared(word: nat, highs: seq<Seen>)
    requires word < 0x1_0000_0000 && AllAre(highs, HighVerb(word))
    ensures Run(CLEARED, highs) == Step(CLEARED, [])
  {
    hide StepVerb;
    HighsWithoutHeader(CLEARED, word, highs);
  }

  /** Nor to a complete request. */
  lemma {:induction false} HighsAfterGet(s: State, p: Phase, word: nat, highs: seq<Seen>)
    requires Shows(s, p) && p.Open? && |p.vals| == p.hdr.dataSize && word < 0x1_0000_0000 && AllAre(highs, HighVerb(word))
    ensures Run(s, highs) == Step(s, [])
    decreases |highs|
  {
    hide LowVerb, HighVerb, Payload, Group;
    WordVerbs(word);
    if highs != [] {
      assert StepVerb(s, highs[0].v, highs[0].addr) == Step(s, []);
      HighsAfterGet(s, p, word, highs[1..]);
    }
  }

  /** A second half of a value, once. */
  lemma HighOfValue(s: State, p: Phase, word: nat, high: Seen)
    requires Shows(s, p) && p.Open? && |p.vals| < p.hdr.dataSize && word < 0x1_0000_0000 && high.v == HighVerb(word)
    requires s.dataSet0 && (s.data == word % 0x1_0000 || s.data == word)
    ensures var r := StepVerb(s, high.v, high.addr);
            var q := TakeValue(p, Sent(word, 1, 1));
            r.out == q.out && Shows(r.s, q.phase) && (q.phase.Open? ==> r.s.dataSet0 && r.s.data == word)
  {
    hide LowVerb, HighVerb, Payload, Group, Or, GetScpData;
    WordVerbs(word);
    OrTwice(word);
    var full := s.(data := word, dataSet1 := true, vals := s.vals + [word]);
    assert Copies(word, 1) == [word];
    assert StepVerb(s, high.v, high.addr) == Check(Step(full, []));
    if |full.vals| == full.hdr.dataSize { assert Printed(full).vals == full.vals; }
  }

  /** One copy, then the others. */
  lemma CopiesJoin(p: Phase, word: nat, highs: nat)
    requires p.Open? && |p.vals| < p.hdr.dataSize && highs > 1
    ensures var one := TakeValue(p, Sent(word, 1, 1));
            TakeValue(p, Sent(word, 1, highs)) ==
            if one.phase.Open? && |one.phase.vals| < one.phase.hdr.dataSize
            then TakeValue(one.phase, Sent(word, 1, highs - 1)) else one
  {
    var one := TakeValue(p, Sent(word, 1, 1)).phase;
    var room := p.hdr.dataSize - |p.vals|;
    var n := if highs < room then highs else room;
    assert Copies(word, 1) + Copies(word, n - 1) == Copies(word, n);
    assert p.vals + Copies(word, 1) + Copies(word, n - 1) == p.vals + Copies(word, n);
  }

  lemma {:induction false} HighsOfValue(s: State, p: Phase, word: nat, highs: seq<Seen>)
    requires Shows(s, p) && p.Open? && |p.vals| < p.hdr.dataSize && word < 0x1_0000_0000
    requires highs != [] && AllAre(highs, HighVerb(word)) && s.dataSet0 && (s.data == word % 0x1_0000 || s.data == word)
    ensures var r, q := Run(s, highs), TakeValue(p, Sent(word, 1, |highs|));
            r.out == q.out && Shows(r.s, q.phase)
    decreases |highs|
  {
    hide LowVerb, HighVerb, StepVerb, TakeValue;
    HighOfValue(s, p, word, highs[0]);
    OneStep(s, highs);
    var one := TakeValue(p, Sent(word, 1, 1));
    var t := StepVerb(s, highs[0].v, highs[0].addr).s;
    if |highs| > 1 {
      CopiesJoin(p, word, |highs|);
      ValuePhase(p, word);
      if one.phase == CLEAR { HighsCleared(word, highs[1..]); }
      else if |one.phase.vals| == one.phase.hdr.dataSize { HighsAfterGet(t, one.phase, word, highs[1..]); }
      else { HighsOfValue(t, one.phase, word, highs[1..]); }
    }
  }

  lemma ValuePhase(p: Phase, word: nat)
    requires p.Open? && |p.vals| < p.hdr.dataSize
    ensures var q := TakeValue(p, Sent(word, 1, 1));
            q.phase == CLEAR || (q.phase.Open? && |q.phase.vals| <= q.phase.hdr.dataSize && q.out == [])
  {
  }

  /** The second half of a header, the first time: from here on the message is open, unless it is
      dropped or already complete. */
  lemma HeaderHigh(word: nat, at: nat, high: Seen)
    requires word < 0x1_0000_0000 && high.v == HighVerb(word)
    ensures var hdr := GetScpData(word);
            var ready := State(true, true, false, false, [], 0, word, hdr, 0, 0, at);
            StepVerb(Started(word % 0x1_0000, at), high.v, high.addr) ==
            if hdr.dataSize >= 4 then Step(CLEARED, [])
            else if hdr.dataSize == 0 && hdr.getFlag == 0 then Step(CLEARED, [Report(at, hdr, [])])
            else Step(ready, [])
  {
    hide LowVerb, HighVerb, Payload, Group, Or, GetScpData;
    WordVerbs(word);
    var hdr := GetScpData(word);
    EmptyPrinted(State(true, true, false, false, [], 0, word, hdr, 0, 0, at));
  }

  /** Repeated before the first value, it loses the header. */
  lemma HeaderHighs(s: State, word: nat, highs: seq<Seen>)
    requires ScpSet(s) && s.vals == [] && 0 < s.hdr.dataSize < 4 && !s.dataSet0
    requires word < 0x1_0000_0000 && highs != [] && AllAre(highs, HighVerb(word))
    ensures Run(s, highs).out == [] && Shows(Run(s, highs).s, Idle(|highs| == 1))
  {
    hide LowVerb, HighVerb, Payload, Group, Or, GetScpData;
    WordVerbs(word);
    OneStep(s, highs);
    var t := StepVerb(s, highs[0].v, highs[0].addr);
    assert t.out == [] && !t.s.scpSet0 && !t.s.scpSet1 && t.s.vals != [];
    if |highs| > 1 {
      OneStep(t.s, highs[1..]);
      assert StepVerb(t.s, highs[1..][0].v, highs[1..][0].addr) == Step(CLEARED, []);
      HighsCleared(word, highs[1..][1..]);
    } else {
      assert highs[1..] == [];
    }
  }

  lemma GetFlagBit(word: nat)
    ensures GetScpData(word).getFlag < 2
  {
  }

  lemma HighsOfHeader(w: Sent, at: nat, highs: seq<Seen>)
    requires Tried(w) && |highs| == w.highs && w.lows % 2 == 1 && AllAre(highs, HighVerb(w.word))
    ensures var r, q := Run(Started(w.word % 0x1_0000, at), highs), TakeHeader(w, at);
            r.out == q.out && Shows(r.s, q.phase)
  {
    hide LowVerb, HighVerb, StepVerb, GetScpData;
    var hdr := GetScpData(w.word);
    var ready := State(true, true, false, false, [], 0, w.word, hdr, 0, 0, at);
    GetFlagBit(w.word);
    HeaderHigh(w.word, at, highs[0]);
    OneStep(Started(w.word % 0x1_0000, at), highs);
    if hdr.dataSize >= 4 || (hdr.dataSize == 0 && hdr.getFlag == 0) {
      HighsCleared(w.word, highs[1..]);
    } else if hdr.dataSize == 0 {
      HighsAfterGet(ready, Open(at, hdr, []), w.word, highs[1..]);
    } else if |highs| == 1 {
      assert highs[1..] == [];
    } else {
      HeaderHighs(ready, w.word, highs[1..]);
    }
  }

  lemma HeaderTaken(trace: seq<Seen>, w: Sent)
    requires IsSent(trace, w)
    ensures var r, q := Run(CLEARED, trace), TakeHeader(w, trace[w.lows - 1].addr);
            r.out == q.out && Shows(r.s, q.phase)
  {
    hide LowVerb, HighVerb, StepVerb, GetScpData, Shows;
    var lows, highs := trace[..w.lows], trace[w.lows..];
    assert trace == lows + highs;
    LowsFromCleared(w.word, lows);
    RunJoins(CLEARED, lows, highs);
    if w.lows % 2 == 1 {
      HighsOfHeader(w, lows[w.lows - 1].addr, highs);
    } else {
      HighsCleared(w.word, highs);
      assert Shows(CLEARED, CLEAR) by { ClearedIsClear(); }
    }
  }

  lemma ClearedIsClear()
    ensures Shows(CLEARED, CLEAR)
  {
  }

  lemma ValueTaken(s: State, p: Phase, trace: seq<Seen>, w: Sent)
    requires Shows(s, p) && p.Open? && |p.vals| < p.hdr.dataSize && IsSent(trace, w)
    ensures var r, q := Run(s, trace), TakeValue(p, w);
            r.out == q.out && Shows(r.s, q.phase)
  {
    hide LowVerb, HighVerb, StepVerb;
    var lows, highs := trace[..w.lows], trace[w.lows..];
    assert trace == lows + highs;
    LowsOfValue(s, w.word, lows);
    RunJoins(s, lows, highs);
    HighsOfValue(Run(s, lows).s, p, w.word, highs);
  }

  /** One word, however often its halves were sent. */
  lemma WordTaken(s: State, p: Phase, trace: seq<Seen>, w: Sent)
    requires Shows(s, p) && IsSent(trace, w)
    ensures var r, q := Run(s, trace), Take(p, w, trace[w.lows - 1].addr);
            r.out == q.out && Shows(r.s, q.phase)
  {
    hide LowVerb, HighVerb, StepVerb, GetScpData, TakeHeader, TakeValue;
    var lows, highs := trace[..w.lows], trace[w.lows..];
    assert trace == lows + highs;
    if p.Open? && |p.vals| < p.hdr.dataSize {
      ValueTaken(s, p, trace, w);
    } else {
      HeaderTaken(trace, w);
      if p.Open? { LowsAfterGet(s, p, w.word, lows); } else { LowsWithout(s, w.word, lows); }
      RunJoins(CLEARED, lows, highs);
      RunJoins(s, lows, highs);
      assert p.Open? ==> [Report(p.start, p.hdr, p.vals)] + Run(CLEARED, lows).out + Run(Run(CLEARED, lows).s, highs).out ==
                         [Report(p.start, p.hdr, p.vals)] + Run(CLEARED, trace).out;
    }
  }

  /** For every stream of words, every number of retries of every half: the decoder lists what the parse
      of the words lists, and ends in the phase the parse ends in. */
  lemma {:induction false} StreamParsed(s: State, p: Phase, traces: seq<seq<Seen>>, ws: seq<Sent>)
    requires Shows(s, p) && AreSent(traces, ws)
    ensures var r, q := Run(s, Concat(traces)), Parse(p, ws, Starts(traces, ws));
            r.out == q.out && Shows(r.s, q.phase)
    decreases |ws|
  {
    hide StepVerb, IsSent, Shows, Take;
    if ws != [] {
      assert IsSent(traces[0], ws[0]);
      StartOf(traces[0], ws[0]);
      WordTaken(s, p, traces[0], ws[0]);
      var r := Run(s, traces[0]);
      var q := Take(p, ws[0], traces[0][ws[0].lows - 1].addr);
      StreamParsed(r.s, q.phase, traces[1..], ws[1..]);
      RunJoins(s, traces[0], Concat(traces[1..]));
      assert Starts(traces, ws)[1..] == Starts(traces[1..], ws[1..]);
    }
  }

  lemma StartOf(trace: seq<Seen>, w: Sent)
    requires IsSent(trace, w)
    ensures 1 <= w.lows <= |trace|
  {
  }
}
