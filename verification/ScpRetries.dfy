/** What the trace decoder lists of a command, for every number of retries of each half of each word,
    and of a command that is too long for it. */
module ScpRetries {
  import opened Bits
  import opened Scp
  import opened ScpDecoder
  import opened ScpWords
  import opened Verbs

  /** The words of a command: its header, then its values. */
  predicate IsCommand(ws: seq<Sent>, m: Message) {
    |ws| == 1 + |m.vals| && ws[0].word == HeaderOf(m.hdr) && forall i :: 0 <= i < |m.vals| ==> ws[1 + i].word == m.vals[i]
  }

  /** Every value as often as its second half was sent. */
  function Expanded(ws: seq<Sent>): seq<nat> {
    if ws == [] then [] else Copies(ws[0].word, ws[0].highs) + Expanded(ws[1..])
  }

  /** How many words it takes to fill n values. */
  function Needed(n: nat, ws: seq<Sent>): (r: nat)
    requires n <= |Expanded(ws)|
    ensures r <= |ws|
    decreases |ws|
  {
    if n == 0 then 0 else if n <= ws[0].highs then 1 else 1 + Needed(n - ws[0].highs, ws[1..])
  }

  /** A message being received, and the words behind it. */
  lemma {:induction false} Fills(p: Phase, ws: seq<Sent>, ats: seq<nat>)
    requires p.Open? && p.hdr.getFlag == 0 && |p.vals| < p.hdr.dataSize && |ats| == |ws|
    requires forall i :: 0 <= i < |ws| ==> Tried(ws[i])
    requires p.hdr.dataSize <= |p.vals| + |Expanded(ws)|
    ensures var n := p.hdr.dataSize - |p.vals|;
            var j := Needed(n, ws);
            var rest := Parse(CLEAR, ws[j..], ats[j..]);
            Parse(p, ws, ats) == Parsed(rest.phase, [Report(p.start, p.hdr, p.vals + Expanded(ws)[..n])] + rest.out)
    decreases |ws|
  {
    hide TakeHeader;
    var n, k := p.hdr.dataSize - |p.vals|, ws[0].highs;
    var first := Take(p, ws[0], ats[0]);
    if n <= k {
      FirstCopies(ws, n);
      assert first == Parsed(CLEAR, [Report(p.start, p.hdr, p.vals + Expanded(ws)[..n])]);
    } else {
      var q := p.(vals := p.vals + Copies(ws[0].word, k));
      assert first == Parsed(q, []);
      Fills(q, ws[1..], ats[1..]);
      var j := Needed(n - k, ws[1..]);
      assert ws[1..][j..] == ws[1 + j..] && ats[1..][j..] == ats[1 + j..];
      MoreCopies(ws, n);
      assert q.vals + Expanded(ws[1..])[..n - k] == p.vals + Expanded(ws)[..n];
    }
  }

  lemma FirstCopies(ws: seq<Sent>, n: nat)
    requires ws != [] && n <= ws[0].highs
    ensures n <= |Expanded(ws)| && Expanded(ws)[..n] == Copies(ws[0].word, n)
  {
    assert Copies(ws[0].word, ws[0].highs)[..n] == Copies(ws[0].word, n);
  }

  lemma MoreCopies(ws: seq<Sent>, n: nat)
    requires ws != [] && ws[0].highs <= n <= |Expanded(ws)|
    ensures n - ws[0].highs <= |Expanded(ws[1..])|
    ensures Expanded(ws)[..n] == Copies(ws[0].word, ws[0].highs) + Expanded(ws[1..])[..n - ws[0].highs]
  {
  }

  lemma {:induction false} ExpandedLength(ws: seq<Sent>)
    requires forall i :: 0 <= i < |ws| ==> Tried(ws[i])
    ensures |Expanded(ws)| >= |ws|
    decreases |ws|
  {
    if ws != [] { ExpandedLength(ws[1..]); }
  }

  /** The header is taken as it was meant. */
  predicate HeaderTakes(m: Message, w: Sent) { w.lows % 2 == 1 && (w.highs == 1 || m.vals == []) }

  lemma NoneNeeded(ws: seq<Sent>)
    ensures Needed(0, ws) == 0
  {
  }

  /** What a header that should be understood does under retries. */
  lemma HeaderOfCommand(m: Message, w: Sent, at: nat)
    requires IsSet(m) && w.word == HeaderOf(m.hdr) && Tried(w)
    ensures TakeHeader(w, at) ==
            if HeaderTakes(m, w) then
              if m.vals == [] then Parsed(CLEAR, [Report(at, m.hdr, [])]) else Parsed(Open(at, m.hdr, []), [])
            else Parsed(Idle(m.vals != [] && w.lows % 2 == 1 && w.highs == 2), [])
  {
    hide GetScpData, HeaderOf, Masked;
    FieldsReadBack(m.hdr);
  }

  /** A command under any retries. If its header is taken, the first thing listed is the header with as
      many values as it announces, each counted once for every second half; the words behind are parsed
      as headers. If the header is lost, all its values are. */
  lemma CommandParsed(m: Message, ws: seq<Sent>, ats: seq<nat>)
    requires IsSet(m) && IsCommand(ws, m) && |ats| == |ws| && forall i :: 0 <= i < |ws| ==> Tried(ws[i])
    ensures |m.vals| <= |Expanded(ws[1..])|
    ensures if HeaderTakes(m, ws[0]) then
              var j := 1 + Needed(|m.vals|, ws[1..]);
              var rest := Parse(CLEAR, ws[j..], ats[j..]);
              Parse(CLEAR, ws, ats) == Parsed(rest.phase, [Report(ats[0], m.hdr, Expanded(ws[1..])[..|m.vals|])] + rest.out)
            else Parse(CLEAR, ws, ats) == Parse(CLEAR, ws[1..], ats[1..])
  {
    hide GetScpData, HeaderOf, Masked, TakeValue, TakeHeader, Expanded, Needed;
    ExpandedLength(ws[1..]);
    HeaderOfCommand(m, ws[0], ats[0]);
    var first := Take(CLEAR, ws[0], ats[0]);
    if HeaderTakes(m, ws[0]) {
      if m.vals != [] {
        var p := Open(ats[0], m.hdr, []);
        Fills(p, ws[1..], ats[1..]);
        var j := Needed(|m.vals|, ws[1..]);
        assert ws[1..][j..] == ws[1 + j..] && ats[1..][j..] == ats[1 + j..];
        assert [] + Expanded(ws[1..])[..|m.vals|] == Expanded(ws[1..])[..|m.vals|];
      } else {
        NoneNeeded(ws[1..]);
      }
    } else {
      if first.phase != CLEAR { JunkIsClear(ws[1..], ats[1..]); }
    }
  }

  /** Rubbish left in the fields makes no difference to the next word. */
  lemma JunkIsClear(ws: seq<Sent>, ats: seq<nat>)
    requires |ats| == |ws| && ws != []
    ensures Parse(Idle(true), ws, ats) == Parse(CLEAR, ws, ats)
  {
    hide TakeHeader;
  }

  /** Everything listed starts at one of the words. */
  lemma {:induction false} ListedStarts(p: Phase, ws: seq<Sent>, ats: seq<nat>)
    requires |ats| == |ws|
    ensures forall r :: r in Parse(p, ws, ats).out ==> r.start in ats || (p.Open? && r.start == p.start)
    decreases |ws|
  {
    if ws != [] {
      var first := Take(p, ws[0], ats[0]);
      ListedStarts(first.phase, ws[1..], ats[1..]);
      assert forall r :: r in first.out ==> r.start == ats[0] || (p.Open? && r.start == p.start);
      assert first.phase.Open? ==> first.phase.start == ats[0] || (p.Open? && first.phase.start == p.start);
    }
  }

  /** The words of the trace stand one behind the other. */
  predicate Rising(ats: seq<nat>) { forall i, j :: 0 <= i < j < |ats| ==> ats[i] < ats[j] }

  /** The trace, polls aside, is the command's words with these retries. */
  predicate Traces(trace: seq<Seen>, traces: seq<seq<Seen>>, ws: seq<Sent>) {
    AreSent(traces, ws) && Kept(trace) == Concat(traces) && Rising(Starts(traces, ws))
  }

  lemma TraceParsed(trace: seq<Seen>, traces: seq<seq<Seen>>, ws: seq<Sent>)
    requires Traces(trace, traces, ws)
    ensures var r, q := Run(CLEARED, trace), Parse(CLEAR, ws, Starts(traces, ws));
            r.out == q.out && Shows(r.s, q.phase)
  {
    hide StepVerb, IsSent, Parse;
    IgnoredDoNotMatter(CLEARED, trace);
    ClearedIsClear();
    StreamParsed(CLEARED, CLEAR, traces, ws);
  }

  lemma AllTried(traces: seq<seq<Seen>>, ws: seq<Sent>)
    requires AreSent(traces, ws)
    ensures forall i :: 0 <= i < |ws| ==> Tried(ws[i])
  {
    forall i | 0 <= i < |ws|
      ensures Tried(ws[i])
    {
      assert IsSent(traces[i], ws[i]);
    }
  }

  /** The retries under which a command is listed as sent: the header is taken, and the values, each
      repeated as its second half was, begin like the values meant. */
  predicate ListedRight(m: Message, ws: seq<Sent>)
    requires ws != []
  {
    HeaderTakes(m, ws[0]) && m.vals <= Expanded(ws[1..])
  }

  /** For all retry counts of all words: the first report is the command if and only if that holds. */
  lemma CommandRetries(m: Message, trace: seq<Seen>, traces: seq<seq<Seen>>, ws: seq<Sent>)
    requires IsSet(m) && IsCommand(ws, m) && Traces(trace, traces, ws)
    ensures var out := Run(CLEARED, trace).out;
            out != [] && out[0] == Report(Starts(traces, ws)[0], m.hdr, m.vals) <==> ListedRight(m, ws)
  {
    hide StepVerb, IsSent, Parse, Starts, Kept, HeaderTakes, Expanded, Needed, IsSet;
    var ats := Starts(traces, ws);
    AllTried(traces, ws);
    TraceParsed(trace, traces, ws);
    CommandParsed(m, ws, ats);
    if !HeaderTakes(m, ws[0]) {
      var out := Run(CLEARED, trace).out;
      ListedStarts(CLEAR, ws[1..], ats[1..]);
      if out != [] {
        assert out[0] in out;
        assert out[0].start in ats[1..];
        assert out[0].start != ats[0];
      }
    }
  }

  /** A word with which a message begins. */
  predicate Opens(w: Sent) {
    var hdr := GetScpData(w.word);
    w.lows % 2 == 1 && hdr.dataSize < 4 && (hdr.dataSize == 0 || w.highs == 1)
  }

  lemma HeaderOpens(w: Sent, at: nat)
    requires Tried(w)
    ensures var q, hdr := TakeHeader(w, at), GetScpData(w.word);
            if !Opens(w) then q.phase.Idle? && q.out == []
            else if hdr.dataSize == 0 && hdr.getFlag == 0 then q == Parsed(CLEAR, [Report(at, hdr, [])])
            else q == Parsed(Open(at, hdr, []), [])
  {
    hide GetScpData;
  }

  /** A header after which the decoder waits for more. */
  predicate Waits(w: Sent) {
    var hdr := GetScpData(w.word);
    Opens(w) && (hdr.dataSize > 0 || hdr.getFlag == 1)
  }

  /** A header after which the decoder is not cleared: it waits, or rubbish is left. */
  predicate Remains(w: Sent) {
    Waits(w) || (w.lows % 2 == 1 && 0 < GetScpData(w.word).dataSize < 4 && w.highs == 2)
  }

  /** At most two words that leave the decoder cleared. */
  predicate Settled(ws: seq<Sent>) {
    |ws| <= 2 &&
    (|ws| == 1 ==> !Remains(ws[0])) &&
    (|ws| == 2 ==>
       var hdr := GetScpData(ws[0].word);
       if Waits(ws[0]) && hdr.dataSize > 0 then hdr.getFlag == 0 && ws[1].highs >= hdr.dataSize else !Remains(ws[1]))
  }

  lemma HeaderSettles(w: Sent, at: nat)
    requires Tried(w)
    ensures TakeHeader(w, at).phase == CLEAR <==> !Remains(w)
    ensures TakeHeader(w, at).phase.Open? <==> Waits(w)
    ensures TakeHeader(w, at).phase.Open? ==> TakeHeader(w, at).phase == Open(at, GetScpData(w.word), [])
  {
    hide GetScpData;
    GetFlagBit(w.word);
  }

  lemma OneParsed(p: Phase, ws: seq<Sent>, ats: seq<nat>)
    requires |ws| == |ats| == 1
    ensures Parse(p, ws, ats).phase == Take(p, ws[0], ats[0]).phase
  {
    assert ws[1..] == [] && ats[1..] == [];
  }

  lemma StreamSettles(ws: seq<Sent>, ats: seq<nat>)
    requires |ws| <= 2 && |ats| == |ws| && forall i :: 0 <= i < |ws| ==> Tried(ws[i])
    ensures Parse(CLEAR, ws, ats).phase == CLEAR <==> Settled(ws)
  {
    hide GetScpData, TakeHeader, Waits, Remains, Opens;
    if |ws| == 1 {
      OneParsed(CLEAR, ws, ats);
      HeaderSettles(ws[0], ats[0]);
    } else if |ws| == 2 {
      OneParsed(TakeHeader(ws[0], ats[0]).phase, ws[1..], ats[1..]);
      HeaderSettles(ws[0], ats[0]);
      HeaderSettles(ws[1], ats[1]);
      GetFlagBit(ws[0].word);
      assert Parse(CLEAR, ws, ats).phase == Take(TakeHeader(ws[0], ats[0]).phase, ws[1], ats[1]).phase;
    }
  }

  lemma {:induction false} NeededSome(n: nat, ws: seq<Sent>)
    requires 0 < n <= |Expanded(ws)|
    ensures Needed(n, ws) >= 1
  {
  }

  /** What the words behind the first report do: they are parsed as a stream of their own, of at most two
      words. The decoder ends cleared if and only if these settle, and lists nothing else if and only if
      they are silent. */
  lemma LeftOverWords(m: Message, trace: seq<Seen>, traces: seq<seq<Seen>>, ws: seq<Sent>)
    requires IsSet(m) && IsCommand(ws, m) && Traces(trace, traces, ws) && ListedRight(m, ws)
    ensures |m.vals| <= |Expanded(ws[1..])|
    ensures var r, j, ats := Run(CLEARED, trace), 1 + Needed(|m.vals|, ws[1..]), Starts(traces, ws);
            var rest := Parse(CLEAR, ws[j..], ats[j..]);
            r.out == [Report(ats[0], m.hdr, m.vals)] + rest.out && |ws[j..]| <= 2 &&
            (r.s == CLEARED <==> Settled(ws[j..])) && (|r.out| == 1 <==> Silent(ws[j..]))
  {
    hide StepVerb, IsSent, Parse, Starts, Kept, HeaderTakes, Expanded, Needed, Shows, Settled, HeaderOf, Masked, Silent;
    AllTried(traces, ws);
    TraceParsed(trace, traces, ws);
    CommandParsed(m, ws, Starts(traces, ws));
    OnlyClearIsCleared(Run(CLEARED, trace).s, Parse(CLEAR, ws, Starts(traces, ws)).phase);
    assert Expanded(ws[1..])[..|m.vals|] == m.vals;
    if m.vals != [] { NeededSome(|m.vals|, ws[1..]); }
    var j := 1 + Needed(|m.vals|, ws[1..]);
    StreamSettles(ws[j..], Starts(traces, ws)[j..]);
    WordsSilent(CLEAR, ws[j..], Starts(traces, ws)[j..]);
  }

  lemma OnlyClearIsCleared(s: State, p: Phase)
    requires Shows(s, p)
    ensures s == CLEARED <==> p == CLEAR
  {
  }

  /** When only the last value's second half was repeated, no words are left over. */
  lemma NothingLeftOver(m: Message, ws: seq<Sent>)
    requires IsCommand(ws, m) && forall i :: 0 <= i < |ws| ==> Tried(ws[i])
    requires forall i :: 1 <= i < |ws| - 1 ==> ws[i].highs == 1
    ensures |m.vals| <= |Expanded(ws[1..])| && m.vals <= Expanded(ws[1..])
    ensures 1 + Needed(|m.vals|, ws[1..]) == |ws|
  {
    ExpandedLength(ws[1..]);
    SingleCopies(ws[1..], m.vals);
  }

  lemma {:induction false} SingleCopies(ws: seq<Sent>, vals: seq<nat>)
    requires |ws| == |vals| && (forall i :: 0 <= i < |ws| ==> Tried(ws[i]) && ws[i].word == vals[i])
    requires forall i :: 0 <= i < |ws| - 1 ==> ws[i].highs == 1
    ensures |vals| <= |Expanded(ws)| && vals <= Expanded(ws) && Needed(|vals|, ws) == |ws|
    decreases |ws|
  {
    if ws != [] {
      SingleCopies(ws[1..], vals[1..]);
      assert vals == [vals[0]] + vals[1..];
      assert Copies(ws[0].word, ws[0].highs)[0] == vals[0];
    }
  }

  /* ---------- Commands too long for the decoder ---------- */

  /** A header of four or more values is dropped, however often it was sent: what follows is read as if
      nothing had come before. */
  lemma LongHeaderIsDropped(hdr: ScpData, head: seq<Seen>, w: Sent, rest: seq<Seen>)
    requires hdr == Masked(hdr) && hdr.dataSize >= 4 && w.word == HeaderOf(hdr) && IsSent(head, w)
    ensures Run(CLEARED, head + rest) == Run(CLEARED, rest)
  {
    hide StepVerb, IsSent, GetScpData, HeaderOf, Masked;
    FieldsReadBack(hdr);
    StartOf(head, w);
    HeaderTaken(head, w);
    RunJoins(CLEARED, head, rest);
  }

  predicate Once(ws: seq<Sent>) { forall i :: 0 <= i < |ws| ==> ws[i].lows == 1 && ws[i].highs == 1 }

  /** The first word with which a message begins. */
  predicate OpensFirst(ws: seq<Sent>, j: nat)
    requires j < |ws|
  {
    Opens(ws[j]) && forall i :: 0 <= i < j ==> !Opens(ws[i])
  }

  /** A message that wants n more values is not listed: they do not come, or it is a request and no word
      comes behind them. */
  predicate Unfinished(n: nat, getFlag: nat, ws: seq<Sent>) {
    |Expanded(ws)| < n || (getFlag != 0 && Needed(n, ws) == |ws|)
  }

  /** Words of which nothing is listed. */
  predicate Silent(ws: seq<Sent>) {
    forall j :: 0 <= j < |ws| && OpensFirst(ws, j) ==>
      Unfinished(GetScpData(ws[j].word).dataSize, GetScpData(ws[j].word).getFlag, ws[j + 1..])
  }

  /** A message is listed once its values are in, a request once another word follows. */
  lemma {:induction false} OpenSilent(p: Phase, ws: seq<Sent>, ats: seq<nat>)
    requires p.Open? && |p.vals| <= p.hdr.dataSize && p.hdr.getFlag < 2 && (p.hdr.getFlag == 0 ==> |p.vals| < p.hdr.dataSize)
    requires |ats| == |ws| && forall i :: 0 <= i < |ws| ==> Tried(ws[i])
    ensures Parse(p, ws, ats).out == [] <==> Unfinished(p.hdr.dataSize - |p.vals|, p.hdr.getFlag, ws)
    decreases |ws|
  {
    hide TakeHeader;
    if ws != [] && |p.vals| < p.hdr.dataSize {
      var q := TakeValue(p, ws[0]);
      if q.phase.Open? { OpenSilent(q.phase, ws[1..], ats[1..]); }
    }
  }

  lemma {:induction false} WordsSilent(p: Phase, ws: seq<Sent>, ats: seq<nat>)
    requires p.Idle? && |ats| == |ws| && forall i :: 0 <= i < |ws| ==> Tried(ws[i])
    ensures Parse(p, ws, ats).out == [] <==> Silent(ws)
    decreases |ws|
  {
    hide GetScpData, TakeValue, Unfinished, Opens, TakeHeader;
    if ws != [] {
      var hdr := GetScpData(ws[0].word);
      GetFlagBit(ws[0].word);
      HeaderOpens(ws[0], ats[0]);
      if Opens(ws[0]) {
        SilentHead(ws);
        if hdr.dataSize > 0 || hdr.getFlag == 1 {
          OpenSilent(Open(ats[0], hdr, []), ws[1..], ats[1..]);
        } else {
          NoneUnfinished(ws[1..]);
        }
      } else {
        WordsSilent(TakeHeader(ws[0], ats[0]).phase, ws[1..], ats[1..]);
        SilentTail(ws);
      }
    }
  }

  lemma NoneUnfinished(ws: seq<Sent>)
    ensures !Unfinished(0, 0, ws)
  {
  }

  lemma SilentTail(ws: seq<Sent>)
    requires ws != [] && !Opens(ws[0])
    ensures Silent(ws) <==> Silent(ws[1..])
  {
    hide Opens, Unfinished, GetScpData;
    forall j | 0 <= j < |ws| - 1
      ensures OpensFirst(ws[1..], j) <==> OpensFirst(ws, j + 1)
      ensures ws[1..][j + 1..] == ws[j + 2..]
    {
      OpensTail(ws, j);
    }
    if Silent(ws) {
      forall j | 0 <= j < |ws[1..]| && OpensFirst(ws[1..], j)
        ensures Unfinished(GetScpData(ws[1..][j].word).dataSize, GetScpData(ws[1..][j].word).getFlag, ws[1..][j + 1..])
      {
        assert OpensFirst(ws, j + 1);
      }
    }
    if Silent(ws[1..]) {
      forall j | 0 <= j < |ws| && OpensFirst(ws, j)
        ensures Unfinished(GetScpData(ws[j].word).dataSize, GetScpData(ws[j].word).getFlag, ws[j + 1..])
      {
        assert j > 0;
        assert OpensFirst(ws[1..], j - 1);
      }
    }
  }

  lemma OpensTail(ws: seq<Sent>, j: nat)
    requires ws != [] && !Opens(ws[0]) && j < |ws| - 1
    ensures OpensFirst(ws[1..], j) <==> OpensFirst(ws, j + 1)
  {
    hide Opens;
    if OpensFirst(ws[1..], j) {
      forall i | 0 <= i < j + 1
        ensures !Opens(ws[i])
      {
        if i > 0 { assert ws[1..][i - 1] == ws[i]; }
      }
    }
    if OpensFirst(ws, j + 1) {
      forall i | 0 <= i < j
        ensures !Opens(ws[1..][i])
      {
        assert ws[1..][i] == ws[i + 1];
      }
    }
  }

  lemma SilentHead(ws: seq<Sent>)
    requires ws != [] && Opens(ws[0])
    ensures Silent(ws) <==> Unfinished(GetScpData(ws[0].word).dataSize, GetScpData(ws[0].word).getFlag, ws[1..])
  {
    hide GetScpData, Opens, Unfinished;
    assert OpensFirst(ws, 0);
    forall j | 0 < j < |ws|
      ensures !OpensFirst(ws, j)
    {
    }
  }

  /** A whole command of four values or more, whatever is repeated: its values are listed as messages of
      their own, and nothing is listed if and only if the values, taken as headers, are silent. */
  lemma LongCommand(m: Message, trace: seq<Seen>, traces: seq<seq<Seen>>, ws: seq<Sent>)
    requires m.hdr == Masked(m.hdr) && m.hdr.dataSize >= 4 && IsCommand(ws, m) && Traces(trace, traces, ws)
    ensures Run(CLEARED, trace) == Run(CLEARED, Concat(traces[1..]))
    ensures Run(CLEARED, trace).out == Parse(CLEAR, ws[1..], Starts(traces, ws)[1..]).out
    ensures Run(CLEARED, trace).out == [] <==> Silent(ws[1..])
  {
    hide StepVerb, IsSent, Parse, Kept, Silent, HeaderOf, Masked;
    IgnoredDoNotMatter(CLEARED, trace);
    AllTried(traces, ws);
    assert IsSent(traces[0], ws[0]);
    LongHeaderIsDropped(m.hdr, traces[0], ws[0], Concat(traces[1..]));
    ClearedIsClear();
    StreamParsed(CLEARED, CLEAR, traces[1..], ws[1..]);
    assert Starts(traces, ws)[1..] == Starts(traces[1..], ws[1..]);
    WordsSilent(CLEAR, ws[1..], Starts(traces[1..], ws[1..]));
  }

  /* ---------- Examples ---------- */

  /** Four values of zero are listed as four empty messages. */
  lemma LongCommandExample(hdr: ScpData, trace: seq<Seen>, traces: seq<seq<Seen>>, ws: seq<Sent>)
    requires hdr == Masked(hdr) && hdr.dataSize == 4 && IsCommand(ws, Message(hdr, [0, 0, 0, 0]))
    requires Once(ws) && Traces(trace, traces, ws)
    ensures var ats := Starts(traces, ws);
            Run(CLEARED, trace).out ==
            [Report(ats[1], EMPTY, []), Report(ats[2], EMPTY, []), Report(ats[3], EMPTY, []), Report(ats[4], EMPTY, [])]
  {
    hide StepVerb, IsSent, Parse, Kept, Silent, HeaderOf, Masked, IsCommand, Starts;
    LongCommand(Message(hdr, [0, 0, 0, 0]), trace, traces, ws);
    FourZeros(ws, Starts(traces, ws), hdr);
  }

  lemma ZeroWord()
    ensures GetScpData(0) == EMPTY
  {
  }

  lemma FiveWords(ws: seq<Sent>, hdr: ScpData)
    requires IsCommand(ws, Message(hdr, [0, 0, 0, 0]))
    ensures |ws| == 5
  {
  }

  lemma ZeroSent(ws: seq<Sent>, hdr: ScpData, i: nat)
    requires IsCommand(ws, Message(hdr, [0, 0, 0, 0])) && Once(ws) && i < 4
    ensures ws[1 + i] == Sent(0, 1, 1)
  {
    var vals := [0, 0, 0, 0];
    assert ws[1 + i].word == vals[i];
  }

  lemma FourZeros(ws: seq<Sent>, ats: seq<nat>, hdr: ScpData)
    requires IsCommand(ws, Message(hdr, [0, 0, 0, 0])) && Once(ws) && |ats| == |ws|
    ensures Parse(CLEAR, ws[1..], ats[1..]).out ==
            [Report(ats[1], EMPTY, []), Report(ats[2], EMPTY, []), Report(ats[3], EMPTY, []), Report(ats[4], EMPTY, [])]
  {
    hide GetScpData, HeaderOf, Take, IsCommand, Once;
    assert |ws| == 5 by { FiveWords(ws, hdr); }
    ZeroSent(ws, hdr, 0);
    ZeroSent(ws, hdr, 1);
    ZeroSent(ws, hdr, 2);
    ZeroSent(ws, hdr, 3);
    ZeroTaken(ws[1..], ats[1..]);
    ZeroTaken(ws[2..], ats[2..]);
    ZeroTaken(ws[3..], ats[3..]);
    ZeroTaken(ws[4..], ats[4..]);
    assert ws[5..] == [] && ats[5..] == [];
  }

  lemma ZeroTaken(ws: seq<Sent>, ats: seq<nat>)
    requires ws != [] && |ats| == |ws| && ws[0] == Sent(0, 1, 1)
    ensures Parse(CLEAR, ws, ats).out == [Report(ats[0], EMPTY, [])] + Parse(CLEAR, ws[1..], ats[1..]).out
  {
    ZeroWord();
  }

  /** The values 1 and 2, the first one's second half sent twice: the message is listed with 1 and 1, and
      the value 2 is listed as a message of its own. */
  lemma RetriedValueExample(hdr: ScpData, trace: seq<Seen>, traces: seq<seq<Seen>>, ws: seq<Sent>)
    requires hdr == Masked(hdr) && hdr.dataSize == 2 && hdr.getFlag == 0
    requires ws == [Sent(HeaderOf(hdr), 1, 1), Sent(1, 1, 2), Sent(2, 1, 1)] && Traces(trace, traces, ws)
    ensures var ats := Starts(traces, ws);
            Run(CLEARED, trace).out == [Report(ats[0], hdr, [1, 1]), Report(ats[2], EMPTY.(targetId := 2), [])]
    ensures !ListedRight(Message(hdr, [1, 2]), ws)
  {
    hide StepVerb, IsSent, Kept, HeaderOf, Masked, Starts, Parse, Expanded, Needed;
    var m := Message(hdr, [1, 2]);
    var ats := Starts(traces, ws);
    AllTried(traces, ws);
    TraceParsed(trace, traces, ws);
    CommandParsed(m, ws, ats);
    OnesExpanded(ws);
    TwoTaken(ats);
    assert ws[2..] == [Sent(2, 1, 1)] && ats[2..] == [ats[2]];
    OnesOnly(Expanded(ws[1..]));
  }

  lemma OnesOnly(e: seq<nat>)
    requires |e| >= 2 && e[..2] == [1, 1]
    ensures !([1, 2] <= e)
  {
    assert e[..2][1] == e[1];
  }

  lemma OnesExpanded(ws: seq<Sent>)
    requires |ws| == 3 && ws[1] == Sent(1, 1, 2)
    ensures |Expanded(ws[1..])| >= 2 && Expanded(ws[1..])[..2] == [1, 1] && Needed(2, ws[1..]) == 1
  {
    FirstCopies(ws[1..], 2);
  }

  lemma TwoTaken(ats: seq<nat>)
    requires |ats| == 3
    ensures Parse(CLEAR, [Sent(2, 1, 1)], [ats[2]]).out == [Report(ats[2], EMPTY.(targetId := 2), [])]
  {
    assert [Sent(2, 1, 1)][1..] == [] && [ats[2]][1..] == [];
  }
}
