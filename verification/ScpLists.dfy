/** What the trace decoder lists of a list of commands, each word sent any number of times. */
module ScpLists {
  import opened Scp
  import opened ScpDecoder
  import opened ScpWords
  import opened ScpRetries
  import opened Verbs

  /** The words of all commands. */
  function Flat(wss: seq<seq<Sent>>): seq<Sent> {
    if wss == [] then [] else wss[0] + Flat(wss[1..])
  }

  predicate AreSets(ms: seq<Message>, wss: seq<seq<Sent>>) {
    |wss| == |ms| && forall i :: 0 <= i < |ms| ==> IsSet(ms[i]) && IsCommand(wss[i], ms[i])
  }

  /** Each command once, in order, starting at its own header. */
  function ListReports(ms: seq<Message>, wss: seq<seq<Sent>>, ats: seq<nat>): seq<Report>
    requires AreSets(ms, wss) && |ats| == |Flat(wss)|
    decreases |ms|
  {
    hide IsSet;
    if ms == [] then []
    else [Report(ats[0], ms[0].hdr, ms[0].vals)] + ListReports(ms[1..], wss[1..], ats[|wss[0]|..])
  }

  /** The words behind those that fill the message. */
  function LeftOver(m: Message, ws: seq<Sent>): seq<Sent>
    requires ws != [] && |m.vals| <= |Expanded(ws[1..])|
  {
    ws[1 + Needed(|m.vals|, ws[1..])..]
  }

  /** The retries of a command are harmless: it is listed as sent and nothing else is; before another
      command, no left-over word begins a message. */
  predicate Harmless(m: Message, ws: seq<Sent>, last: bool) {
    ws != [] && |m.vals| <= |Expanded(ws[1..])| && ListedRight(m, ws) &&
    if last then Silent(LeftOver(m, ws)) else NoneOpens(LeftOver(m, ws))
  }

  predicate NoneOpens(ws: seq<Sent>) { forall i :: 0 <= i < |ws| ==> !Opens(ws[i]) }

  predicate AllHarmless(ms: seq<Message>, wss: seq<seq<Sent>>) {
    |wss| == |ms| && forall i :: 0 <= i < |ms| ==> Harmless(ms[i], wss[i], i == |ms| - 1)
  }

  predicate AllTriedIn(ws: seq<Sent>) { forall i :: 0 <= i < |ws| ==> Tried(ws[i]) }

  /* ---------- Parsing one part after the other ---------- */

  lemma {:induction false} ParseJoins(p: Phase, a: seq<Sent>, b: seq<Sent>, x: seq<nat>, y: seq<nat>)
    requires |x| == |a| && |y| == |b|
    ensures var first := Parse(p, a, x);
            var rest := Parse(first.phase, b, y);
            Parse(p, a + b, x + y) == Parsed(rest.phase, first.out + rest.out)
    decreases |a|
  {
    hide Take;
    if a == [] {
      assert a + b == b && x + y == y;
    } else {
      assert (a + b)[1..] == a[1..] + b && (x + y)[1..] == x[1..] + y;
      var one := Take(p, a[0], x[0]);
      ParseJoins(one.phase, a[1..], b, x[1..], y);
    }
  }

  /** Rubbish in the fields makes no difference to what is listed. */
  lemma IdleIsClear(p: Phase, ws: seq<Sent>, ats: seq<nat>)
    requires p.Idle? && |ats| == |ws|
    ensures Parse(p, ws, ats).out == Parse(CLEAR, ws, ats).out
  {
    hide TakeHeader;
    if ws != [] && p != CLEAR { JunkIsClear(ws, ats); }
  }

  lemma {:induction false} NoneOpensIdle(p: Phase, ws: seq<Sent>, ats: seq<nat>)
    requires p.Idle? && |ats| == |ws| && AllTriedIn(ws) && NoneOpens(ws)
    ensures Parse(p, ws, ats).out == [] && Parse(p, ws, ats).phase.Idle?
    decreases |ws|
  {
    hide GetScpData, TakeHeader, Opens;
    if ws != [] {
      HeaderOpens(ws[0], ats[0]);
      NoneOpensIdle(TakeHeader(ws[0], ats[0]).phase, ws[1..], ats[1..]);
    }
  }

  /** A message being received, or a request that waits to be listed. */
  predicate Pending(p: Phase) {
    p.Open? && |p.vals| <= p.hdr.dataSize && p.hdr.getFlag < 2 && (p.hdr.getFlag == 0 ==> |p.vals| < p.hdr.dataSize)
  }

  /** It stays until it is listed, and it is listed before anything else. */
  lemma {:induction false} PendingFirst(p: Phase, ws: seq<Sent>, ats: seq<nat>)
    requires Pending(p) && |ats| == |ws| && AllTriedIn(ws)
    ensures var q := Parse(p, ws, ats);
            if q.out == [] then q.phase.Open? && q.phase.start == p.start else q.out[0].start == p.start
    ensures Parse(p, ws, ats).out == [] ==> Pending(Parse(p, ws, ats).phase)
    decreases |ws|
  {
    hide TakeHeader;
    if ws != [] && |p.vals| < p.hdr.dataSize {
      var q := TakeValue(p, ws[0]);
      if q.phase.Open? { PendingFirst(q.phase, ws[1..], ats[1..]); }
    }
  }

  /** Silent words of which one begins a message leave it pending. */
  lemma {:induction false} SilentPending(p: Phase, ws: seq<Sent>, ats: seq<nat>)
    requires p.Idle? && |ats| == |ws| && AllTriedIn(ws) && Parse(p, ws, ats).out == [] && !NoneOpens(ws)
    ensures Pending(Parse(p, ws, ats).phase) && Parse(p, ws, ats).phase.start in ats
    decreases |ws|
  {
    hide GetScpData, TakeHeader, Opens;
    GetFlagBit(ws[0].word);
    HeaderOpens(ws[0], ats[0]);
    var first := TakeHeader(ws[0], ats[0]);
    if Opens(ws[0]) {
      OpenedPending(ws[0], ats[0]);
      PendingFirst(first.phase, ws[1..], ats[1..]);
    } else {
      var i :| 0 <= i < |ws| && Opens(ws[i]);
      assert Opens(ws[1..][i - 1]);
      SilentPending(first.phase, ws[1..], ats[1..]);
    }
  }

  lemma OpenedPending(w: Sent, at: nat)
    requires Tried(w) && Opens(w) && TakeHeader(w, at).out == []
    ensures Pending(TakeHeader(w, at).phase) && TakeHeader(w, at).phase.start == at
  {
    hide GetScpData;
    GetFlagBit(w.word);
  }

  /* ---------- The list ---------- */

  /** What follows the first report of a command is right exactly if its left-over words keep quiet. */
  lemma AfterFirst(left: seq<Sent>, z: seq<nat>, f: seq<Sent>, y: seq<nat>, rest: seq<Report>, last: bool)
    requires |z| == |left| && |y| == |f| && AllTriedIn(left) && AllTriedIn(f) && forall i, j :: 0 <= i < |z| && 0 <= j < |y| ==> z[i] < y[j]
    requires if last then f == [] && rest == [] else f != [] && rest != [] && rest[0].start == y[0]
    ensures var l := Parse(CLEAR, left, z);
            l.out + Parse(l.phase, f, y).out == rest <==>
            (if last then Silent(left) else NoneOpens(left)) && Parse(CLEAR, f, y).out == rest
  {
    hide Take, Silent, NoneOpens, Pending;
    var l := Parse(CLEAR, left, z);
    WordsSilent(CLEAR, left, z);
    if !last {
      ListedStarts(CLEAR, left, z);
      if l.out != [] { assert l.out[0] in l.out; }
      if NoneOpens(left) {
        NoneOpensIdle(CLEAR, left, z);
        IdleIsClear(l.phase, f, y);
      } else if l.out == [] {
        SilentPending(CLEAR, left, z);
        PendingFirst(l.phase, f, y);
      }
    }
  }

  /** A lost header is not listed. */
  lemma LostHeader(m: Message, ws: seq<Sent>, x: seq<nat>, f: seq<Sent>, y: seq<nat>)
    requires IsSet(m) && IsCommand(ws, m) && |x| == |ws| && |y| == |f| && AllTriedIn(ws) && Rising(x + y) && !HeaderTakes(m, ws[0])
    ensures forall r :: r in Parse(CLEAR, ws + f, x + y).out ==> r.start != x[0]
  {
    hide IsSet, Take, Parse, HeaderTakes, Expanded, Needed, Rising, AllTriedIn, Tried;
    TriedAre(ws);
    CommandParsed(m, ws, x);
    ParseJoins(CLEAR, ws, f, x, y);
    ParseJoins(CLEAR, ws[1..], f, x[1..], y);
    ListedStarts(CLEAR, ws[1..] + f, x[1..] + y);
    NotFirst(x, y);
  }

  lemma TriedAre(ws: seq<Sent>)
    requires AllTriedIn(ws)
    ensures forall i :: 0 <= i < |ws| ==> Tried(ws[i])
  {
  }

  lemma NotFirst(x: seq<nat>, y: seq<nat>)
    requires Rising(x + y) && x != []
    ensures x[0] !in x[1..] + y
  {
    forall k | 0 <= k < |x[1..] + y|
      ensures (x[1..] + y)[k] != x[0]
    {
      assert (x[1..] + y)[k] == (x + y)[k + 1] && (x + y)[0] == x[0];
    }
  }

  /** A header that is taken is listed with the values that fill it, then what the left-over words and the
      rest of the list come to. */
  lemma TakenHeader(m: Message, ws: seq<Sent>, x: seq<nat>, f: seq<Sent>, y: seq<nat>)
    requires IsSet(m) && IsCommand(ws, m) && |x| == |ws| && |y| == |f| && AllTriedIn(ws) && HeaderTakes(m, ws[0])
    ensures |m.vals| <= |Expanded(ws[1..])|
    ensures var j := 1 + Needed(|m.vals|, ws[1..]);
            var l := Parse(CLEAR, ws[j..], x[j..]);
            Parse(CLEAR, ws + f, x + y).out ==
            [Report(x[0], m.hdr, Expanded(ws[1..])[..|m.vals|])] + (l.out + Parse(l.phase, f, y).out)
  {
    hide IsSet, Take, Parse, HeaderTakes, Expanded, Needed, AllTriedIn, Tried;
    TriedAre(ws);
    CommandParsed(m, ws, x);
    ParseJoins(CLEAR, ws, f, x, y);
  }

  lemma TakenFirst(m: Message, ws: seq<Sent>, x: seq<nat>, f: seq<Sent>, y: seq<nat>, rest: seq<Report>, last: bool)
    requires IsSet(m) && IsCommand(ws, m) && |x| == |ws| && |y| == |f| && AllTriedIn(ws) && AllTriedIn(f) && Rising(x + y)
    requires if last then f == [] && rest == [] else f != [] && rest != [] && rest[0].start == y[0]
    requires HeaderTakes(m, ws[0])
    ensures Parse(CLEAR, ws + f, x + y).out == [Report(x[0], m.hdr, m.vals)] + rest <==>
            Harmless(m, ws, last) && Parse(CLEAR, f, y).out == rest
  {
    hide IsSet, IsCommand, Parse, HeaderTakes, Expanded, Needed, Silent, NoneOpens, AllTriedIn, Rising, Take;
    CommandWords(m, ws);
    TakenHeader(m, ws, x, f, y);
    var j := 1 + Needed(|m.vals|, ws[1..]);
    var l := Parse(CLEAR, ws[j..], x[j..]);
    assert AllTriedIn(ws[j..]) by {
      assert ws == ws[..j] + ws[j..];
      TriedParts(ws[..j], ws[j..]);
    }
    Before(x, y, j);
    AfterFirst(ws[j..], x[j..], f, y, rest, last);
    var vals := Expanded(ws[1..])[..|m.vals|];
    SameHead(Report(x[0], m.hdr, vals), l.out + Parse(l.phase, f, y).out, Report(x[0], m.hdr, m.vals), rest);
    assert vals == m.vals <==> m.vals <= Expanded(ws[1..]);
  }

  /** The first command of a list. */
  lemma FirstCommand(m: Message, ws: seq<Sent>, x: seq<nat>, f: seq<Sent>, y: seq<nat>, rest: seq<Report>, last: bool)
    requires IsSet(m) && IsCommand(ws, m) && |x| == |ws| && |y| == |f| && AllTriedIn(ws) && AllTriedIn(f) && Rising(x + y)
    requires if last then f == [] && rest == [] else f != [] && rest != [] && rest[0].start == y[0]
    ensures Parse(CLEAR, ws + f, x + y).out == [Report(x[0], m.hdr, m.vals)] + rest <==>
            Harmless(m, ws, last) && Parse(CLEAR, f, y).out == rest
  {
    hide IsSet, IsCommand, Parse, HeaderTakes, Expanded, Needed, Silent, NoneOpens, AllTriedIn, Rising, Take, Harmless;
    CommandWords(m, ws);
    if HeaderTakes(m, ws[0]) {
      TakenFirst(m, ws, x, f, y, rest, last);
    } else {
      LostHeader(m, ws, x, f, y);
      OtherStart(Parse(CLEAR, ws + f, x + y).out, Report(x[0], m.hdr, m.vals), rest);
      assert !Harmless(m, ws, last) by { LostIsHarmful(m, ws, last); }
    }
  }

  lemma OtherStart(out: seq<Report>, r: Report, rest: seq<Report>)
    requires forall o :: o in out ==> o.start != r.start
    ensures out != [r] + rest
  {
    assert r in [r] + rest;
  }

  lemma LostIsHarmful(m: Message, ws: seq<Sent>, last: bool)
    requires ws != [] && !HeaderTakes(m, ws[0])
    ensures !Harmless(m, ws, last)
  {
  }

  lemma Before(x: seq<nat>, y: seq<nat>, k: nat)
    requires Rising(x + y) && k <= |x|
    ensures forall i, j :: 0 <= i < |x[k..]| && 0 <= j < |y| ==> x[k..][i] < y[j]
  {
    forall i, j | 0 <= i < |x[k..]| && 0 <= j < |y|
      ensures x[k..][i] < y[j]
    {
      assert (x + y)[k + i] == x[k..][i] && (x + y)[|x| + j] == y[j];
    }
  }

  lemma SameHead(a: Report, as': seq<Report>, b: Report, bs: seq<Report>)
    ensures [a] + as' == [b] + bs <==> a == b && as' == bs
  {
    assert ([a] + as')[1..] == as' && ([b] + bs)[1..] == bs;
    assert ([a] + as')[0] == a && ([b] + bs)[0] == b;
  }

  lemma ReportsStart(ms: seq<Message>, wss: seq<seq<Sent>>, ats: seq<nat>)
    requires AreSets(ms, wss) && |ats| == |Flat(wss)| && ms != []
    ensures |ats| > 0 && ListReports(ms, wss, ats) != [] && ListReports(ms, wss, ats)[0].start == ats[0]
  {
    hide IsSet;
  }

  lemma HarmlessCons(ms: seq<Message>, wss: seq<seq<Sent>>)
    requires |wss| == |ms| && ms != []
    ensures AllHarmless(ms, wss) <==> Harmless(ms[0], wss[0], |ms| == 1) && AllHarmless(ms[1..], wss[1..])
  {
    hide Harmless;
    if AllHarmless(ms[1..], wss[1..]) && Harmless(ms[0], wss[0], |ms| == 1) {
      forall i | 0 <= i < |ms|
        ensures Harmless(ms[i], wss[i], i == |ms| - 1)
      {
        if i > 0 { assert Harmless(ms[1..][i - 1], wss[1..][i - 1], i - 1 == |ms[1..]| - 1); }
      }
    }
  }

  /** For every list of commands and all retries of all words: exactly the commands are listed, each once, in
      order, if and only if the retries of each are harmless. */
  lemma {:induction false} ListParsed(ms: seq<Message>, wss: seq<seq<Sent>>, ats: seq<nat>)
    requires AreSets(ms, wss) && |ats| == |Flat(wss)| && AllTriedIn(Flat(wss)) && Rising(ats)
    ensures Parse(CLEAR, Flat(wss), ats).out == ListReports(ms, wss, ats) <==> AllHarmless(ms, wss)
    decreases |ms|
  {
    if ms != [] {
      hide IsSet, IsCommand, Take, Parse, Harmless, AllHarmless, Rising, AllTriedIn;
      var x, y, f := ats[..|wss[0]|], ats[|wss[0]|..], Flat(wss[1..]);
      assert ats == x + y;
      RisingParts(x, y);
      TriedParts(wss[0], f);
      assert AreSets(ms[1..], wss[1..]);
      ListParsed(ms[1..], wss[1..], y);
      CommandWords(ms[0], wss[0]);
      if |ms| > 1 { ReportsStart(ms[1..], wss[1..], y); }
      FirstCommand(ms[0], wss[0], x, f, y, ListReports(ms[1..], wss[1..], y), |ms| == 1);
      HarmlessCons(ms, wss);
    }
  }

  lemma RisingParts(x: seq<nat>, y: seq<nat>)
    requires Rising(x + y)
    ensures Rising(y)
  {
    forall i, j | 0 <= i < j < |y|
      ensures y[i] < y[j]
    {
      assert (x + y)[|x| + i] == y[i] && (x + y)[|x| + j] == y[j];
    }
  }

  lemma TriedParts(a: seq<Sent>, b: seq<Sent>)
    requires AllTriedIn(a + b)
    ensures AllTriedIn(a) && AllTriedIn(b)
  {
    assert forall i :: 0 <= i < |a| ==> a[i] == (a + b)[i];
    assert forall i :: 0 <= i < |b| ==> b[i] == (a + b)[|a| + i];
  }

  lemma CommandWords(m: Message, ws: seq<Sent>)
    requires IsCommand(ws, m)
    ensures |ws| == 1 + |m.vals|
  {
  }

  /** And so in the trace. */
  lemma CommandsListed(trace: seq<Seen>, traces: seq<seq<Seen>>, ms: seq<Message>, wss: seq<seq<Sent>>)
    requires AreSets(ms, wss) && Traces(trace, traces, Flat(wss))
    ensures Run(CLEARED, trace).out == ListReports(ms, wss, Starts(traces, Flat(wss))) <==> AllHarmless(ms, wss)
  {
    hide StepVerb, IsSent, Parse, Kept, AllHarmless, AreSets, Shows;
    AllTried(traces, Flat(wss));
    TraceParsed(trace, traces, Flat(wss));
    ListParsed(ms, wss, Starts(traces, Flat(wss)));
  }

  /* ---------- Without retries ---------- */

  /** A command sent once leaves nothing over. */
  lemma OnceParsed(m: Message, ws: seq<Sent>, x: seq<nat>)
    requires IsSet(m) && IsCommand(ws, m) && Once(ws) && AllTriedIn(ws) && |x| == |ws|
    ensures Parse(CLEAR, ws, x) == Parsed(CLEAR, [Report(x[0], m.hdr, m.vals)])
  {
    hide IsSet, Take, Expanded, Needed;
    CommandParsed(m, ws, x);
    NothingLeftOver(m, ws);
    assert HeaderTakes(m, ws[0]) && Expanded(ws[1..])[..|m.vals|] == m.vals;
    assert ws[|ws|..] == [] && x[|ws|..] == [];
  }

  /** The commands are listed, each once, and the decoder ends between messages with nothing left over. */
  lemma {:induction false} OnceListed(ms: seq<Message>, wss: seq<seq<Sent>>, ats: seq<nat>)
    requires AreSets(ms, wss) && |ats| == |Flat(wss)| && AllTriedIn(Flat(wss)) && Once(Flat(wss))
    ensures Parse(CLEAR, Flat(wss), ats) == Parsed(CLEAR, ListReports(ms, wss, ats))
    decreases |ms|
  {
    hide IsSet, IsCommand, Take;
    if ms != [] {
      var x, y, ws, f := ats[..|wss[0]|], ats[|wss[0]|..], wss[0], Flat(wss[1..]);
      assert ats == x + y;
      assert forall i :: 0 <= i < |ws| ==> ws[i] == Flat(wss)[i];
      assert forall i :: 0 <= i < |f| ==> f[i] == Flat(wss)[|ws| + i];
      CommandWords(ms[0], ws);
      OnceParsed(ms[0], ws, x);
      assert AreSets(ms[1..], wss[1..]);
      OnceListed(ms[1..], wss[1..], y);
      ParseJoins(CLEAR, ws, f, x, y);
    }
  }
}
