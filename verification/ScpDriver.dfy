/** Sending SCP messages, and what the trace decoder makes of it. */
module ScpDriver {
  import opened Bits
  import opened Scp
  import opened Verbs
  import opened ScpDecoder
  import opened ScpWords
  import opened ScpRetries
  import opened ScpLists
  import opened Bus

  const STATUS_BUSY := 1
  const STATUS_QUEUE_FULL := 2

  /** The status poll. */
  function Poll(): Verb { HdaVerb(0xf01, 0) }

  /** A word as dspio_write sends it: polls, the first half, the second, one more poll. */
  function WordSent(word: nat, polls: nat, lows: nat, highs: nat): seq<Verb> {
    Repeat(Poll(), polls) + Repeat(LowVerb(word), lows) + Repeat(HighVerb(word), highs) + [Poll()]
  }

  /** None of these verbs was refused. */
  ghost predicate NoneBusy(reply: nat -> nat, from: nat, to: nat) {
    forall i: nat :: from <= i < to ==> reply(i) != STATUS_BUSY
  }

  /** dspio_write: true if the word could not be written. Each half is sent at least once, and once if it was
      not refused. */
  method DspioWrite(link: Link, word: nat) returns (failed: bool, ghost polls: nat, ghost w: Sent)
    requires word < 0x1_0000_0000
    modifies link
    ensures |old(link.sent)| <= |link.sent| && link.sent[..|old(link.sent)|] == old(link.sent)
    ensures !failed ==>
              w.word == word && 1 <= w.lows <= 6 && 1 <= w.highs <= 6 &&
              link.sent == old(link.sent) + WordSent(word, polls, w.lows, w.highs)
    ensures !failed && NoneBusy(link.reply, |old(link.sent)|, |link.sent|) ==> w.lows == 1 && w.highs == 1
  {
    var res;
    ghost var lows, highs;
    w := Sent(word, 1, 1);
    res, polls := link.SendUntilZero(Poll(), 6);
    if res != 0 { return true, polls, w; }
    failed, lows := link.SendUntil(LowVerb(word), 6, STATUS_BUSY);
    if failed { return; }
    ghost var mid := |link.sent|;
    assert lows > 1 ==> link.reply(|old(link.sent)| + polls) == STATUS_BUSY;
    failed, highs := link.SendUntil(HighVerb(word), 6, STATUS_BUSY);
    if failed { return; }
    assert highs > 1 ==> link.reply(mid) == STATUS_BUSY;
    res := link.Ioctl(Poll());
    failed := res == STATUS_QUEUE_FULL;
    w := Sent(word, lows, highs);
    assert link.sent == old(link.sent) + WordSent(word, polls, lows, highs);
  }

  /* ---------- What the decoder makes of it ---------- */

  lemma {:induction false} KeptJoins(a: seq<Seen>, b: seq<Seen>)
    ensures Kept(a + b) == Kept(a) + Kept(b)
    decreases |a|
  {
    if a == [] {
      assert a + b == b;
    } else {
      assert (a + b)[1..] == a[1..] + b;
      KeptJoins(a[1..], b);
    }
  }

  /** Polls leave no trace. */
  lemma {:induction false} PollsDropped(n: nat, addr: nat)
    ensures Kept(TraceFrom(Repeat(Poll(), n), addr)) == []
    decreases n
  {
    assert Ignored(Poll());
    if n > 0 {
      assert Repeat(Poll(), n)[1..] == Repeat(Poll(), n - 1);
      PollsDropped(n - 1, addr + 4);
    }
  }

  /** A repeated verb that counts stays. */
  lemma {:induction false} RepeatKept(v: Verb, n: nat, addr: nat)
    requires !Ignored(v)
    ensures var kept := Kept(TraceFrom(Repeat(v, n), addr)); |kept| == n && AllAre(kept, v)
    decreases n
  {
    if n > 0 {
      assert Repeat(v, n)[1..] == Repeat(v, n - 1);
      RepeatKept(v, n - 1, addr + 4);
    }
  }

  /** What a word leaves in the trace: its two halves, as often as they were sent. */
  lemma WordKept(w: Sent, polls: nat, addr: nat)
    requires Tried(w)
    ensures IsSent(Kept(TraceFrom(WordSent(w.word, polls, w.lows, w.highs), addr)), w)
  {
    hide Ignored, Kept, TraceFrom, LowVerb, HighVerb, Repeat;
    var p, l, h, q := Repeat(Poll(), polls), Repeat(LowVerb(w.word), w.lows), Repeat(HighVerb(w.word), w.highs), Repeat(Poll(), 1);
    OnePoll();
    assert WordSent(w.word, polls, w.lows, w.highs) == p + l + h + q;
    WordVerbs(w.word);
    NotIgnored(LowVerb(w.word));
    NotIgnored(HighVerb(w.word));
    TraceJoins(p + l + h, q, addr);
    TraceJoins(p + l, h, addr);
    TraceJoins(p, l, addr);
    KeptJoins(TraceFrom(p + l + h, addr), TraceFrom(q, addr + 4 * |p + l + h|));
    KeptJoins(TraceFrom(p + l, addr), TraceFrom(h, addr + 4 * |p + l|));
    KeptJoins(TraceFrom(p, addr), TraceFrom(l, addr + 4 * |p|));
    PollsDropped(polls, addr);
    PollsDropped(1, addr + 4 * |p + l + h|);
    RepeatKept(LowVerb(w.word), w.lows, addr + 4 * |p|);
    RepeatKept(HighVerb(w.word), w.highs, addr + 4 * |p + l|);
  }

  lemma OnePoll()
    ensures Repeat(Poll(), 1) == [Poll()]
  {
    RepeatOneMore(Poll(), 0);
  }

  lemma NotIgnored(v: Verb)
    requires Group(v) == 0 || Group(v) == 1
    ensures !Ignored(v)
  {
    hide Group;
  }

  /** pack_scp_data: a command that sets something. */
  function PackScpData(dataSize: nat, req: nat, srcId: nat, targetId: nat): (d: ScpData)
    ensures d == Masked(d) && d.getFlag == 0
  {
    ScpData(dataSize % 32, 0, 0, 0, req % 128, 0, srcId % 256, targetId % 256)
  }

  /** Addresses in a trace rise from its beginning. */
  lemma {:induction false} KeptWithin(verbs: seq<Verb>, addr: nat)
    ensures forall s :: s in Kept(TraceFrom(verbs, addr)) ==> addr <= s.addr < addr + 4 * |verbs|
    decreases |verbs|
  {
    hide Ignored;
    if verbs != [] { KeptWithin(verbs[1..], addr + 4); }
  }

  /** All words so far start below this address, each above the one before. */
  ghost predicate StartsBelow(traces: seq<seq<Seen>>, ws: seq<Sent>, addr: nat) {
    AreSent(traces, ws) && Rising(Starts(traces, ws)) && forall i :: 0 <= i < |ws| ==> Starts(traces, ws)[i] < addr
  }

  lemma {:induction false} ConcatSnoc(traces: seq<seq<Seen>>, t: seq<Seen>)
    ensures Concat(traces + [t]) == Concat(traces) + t
    decreases |traces|
  {
    if traces == [] {
      assert [t][1..] == [] && [] + [t] == [t];
    } else {
      assert (traces + [t])[1..] == traces[1..] + [t];
      ConcatSnoc(traces[1..], t);
    }
  }

  /** One more word. */
  lemma StartsSnoc(traces: seq<seq<Seen>>, ws: seq<Sent>, t: seq<Seen>, w: Sent, addr: nat, next: nat)
    requires StartsBelow(traces, ws, addr) && IsSent(t, w) && forall s :: s in t ==> addr <= s.addr < next
    ensures StartsBelow(traces + [t], ws + [w], next) && Concat(traces + [t]) == Concat(traces) + t
  {
    hide IsSent;
    ConcatSnoc(traces, t);
    StartOf(t, w);
    var ts, us := traces + [t], ws + [w];
    assert t[w.lows - 1] in t;
    forall i | 0 <= i < |us|
      ensures IsSent(ts[i], us[i]) && Starts(ts, us)[i] == if i < |ws| then Starts(traces, ws)[i] else t[w.lows - 1].addr
    {
    }
  }

  /** The sender's state: the words sent so far have left these traces. */
  ghost predicate Left(verbs: seq<Verb>, addr: nat, traces: seq<seq<Seen>>, ws: seq<Sent>) {
    StartsBelow(traces, ws, addr + 4 * |verbs|) && Kept(TraceFrom(verbs, addr)) == Concat(traces)
  }

  lemma LeftNothing(addr: nat)
    ensures Left([], addr, [], [])
  {
  }

  lemma LeftMore(verbs: seq<Verb>, addr: nat, traces: seq<seq<Seen>>, ws: seq<Sent>, w: Sent, polls: nat)
    requires Left(verbs, addr, traces, ws) && Tried(w)
    ensures var more := WordSent(w.word, polls, w.lows, w.highs);
            var t := Kept(TraceFrom(more, addr + 4 * |verbs|));
            Left(verbs + more, addr, traces + [t], ws + [w])
  {
    hide Kept, TraceFrom, WordSent, IsSent, StartsBelow;
    var more, at := WordSent(w.word, polls, w.lows, w.highs), addr + 4 * |verbs|;
    WordKept(w, polls, at);
    KeptWithin(more, at);
    TraceJoins(verbs, more, addr);
    KeptJoins(TraceFrom(verbs, addr), TraceFrom(more, at));
    StartsSnoc(traces, ws, Kept(TraceFrom(more, at)), w, at, at + 4 * |more|);
  }

  /** The command loop of the sender: the header, then the values one by one. Whatever was refused on the way,
      the trace is the command's words with some retries, and without a refusal each was sent once. */
  method SendCommand(link: Link, req: nat, srcId: nat, targetId: nat, vals: seq<nat>, ghost addr: nat)
    returns (failed: bool, ghost traces: seq<seq<Seen>>, ghost ws: seq<Sent>)
    requires |vals| <= 31 && forall i :: 0 <= i < |vals| ==> vals[i] < 0x1_0000_0000
    modifies link
    ensures |old(link.sent)| <= |link.sent| && link.sent[..|old(link.sent)|] == old(link.sent)
    ensures !failed ==>
              IsCommand(ws, Message(PackScpData(|vals|, req, srcId, targetId), vals)) &&
              Traces(TraceFrom(link.sent[|old(link.sent)|..], addr), traces, ws)
    ensures !failed && NoneBusy(link.reply, |old(link.sent)|, |link.sent|) ==> Once(ws)
  {
    hide LowVerb, HighVerb, Left, WordSent, HeaderOf, GetScpData, Kept, TraceFrom, IsSent;
    var hdr := PackScpData(|vals|, req, srcId, targetId);
    var header := CreateScpHeader(hdr);
    WordReadBack(header);
    ghost var from, polls, w := |link.sent|, 0, Sent(0, 1, 1);
    traces, ws := [], [];
    LeftNothing(addr);
    failed, polls, w := DspioWrite(link, header);
    if failed { return; }
    LeftMore([], addr, [], [], w, polls);
    ghost var more := WordSent(w.word, polls, w.lows, w.highs);
    assert link.sent[from..] == [] + more;
    traces, ws := [Kept(TraceFrom(more, addr))], [w];
    assert traces == [] + traces && ws == [] + ws;
    for i := 0 to |vals|
      modifies link
      invariant from <= |link.sent| && link.sent[..from] == old(link.sent)
      invariant Left(link.sent[from..], addr, traces, ws)
      invariant |ws| == 1 + i && ws[0].word == header && forall j :: 0 <= j < i ==> ws[1 + j].word == vals[j]
      invariant NoneBusy(link.reply, from, |link.sent|) ==> Once(ws)
    {
      ghost var before := link.sent;
      failed, polls, w := DspioWrite(link, vals[i]);
      if failed { return; }
      LeftMore(before[from..], addr, traces, ws, w, polls);
      assert link.sent[from..] == before[from..] + WordSent(w.word, polls, w.lows, w.highs);
      traces := traces + [Kept(TraceFrom(WordSent(w.word, polls, w.lows, w.highs), addr + 4 * |before[from..]|))];
      ws := ws + [w];
    }
    LeftTraces(link.sent[from..], addr, traces, ws);
  }

  lemma LeftTraces(verbs: seq<Verb>, addr: nat, traces: seq<seq<Seen>>, ws: seq<Sent>)
    requires Left(verbs, addr, traces, ws)
    ensures Traces(TraceFrom(verbs, addr), traces, ws)
  {
  }

  /** From the driver to the listing, refusals included: the first report is the command if and only if the
      retries are harmless. */
  method SendAndList(link: Link, req: nat, srcId: nat, targetId: nat, vals: seq<nat>, ghost addr: nat)
    returns (failed: bool, ghost traces: seq<seq<Seen>>, ghost ws: seq<Sent>)
    requires |vals| < 4 && forall i :: 0 <= i < |vals| ==> vals[i] < 0x1_0000_0000
    modifies link
    ensures |old(link.sent)| <= |link.sent|
    ensures !failed ==>
              var m := Message(PackScpData(|vals|, req, srcId, targetId), vals);
              var trace := TraceFrom(link.sent[|old(link.sent)|..], addr);
              var out := Run(CLEARED, trace).out;
              IsCommand(ws, m) && Traces(trace, traces, ws) && AreSent(traces, ws) &&
              (out != [] && out[0] == Report(Starts(traces, ws)[0], m.hdr, vals) <==> ListedRight(m, ws))
    ensures !failed && NoneBusy(link.reply, |old(link.sent)|, |link.sent|) ==> Once(ws)
  {
    hide Traces, Run, TraceFrom, ListedRight, HeaderOf, Masked;
    failed, traces, ws := SendCommand(link, req, srcId, targetId, vals, addr);
    if !failed {
      ghost var m := Message(PackScpData(|vals|, req, srcId, targetId), vals);
      SentTraces(TraceFrom(link.sent[|old(link.sent)|..], addr), traces, ws);
      CommandRetries(m, TraceFrom(link.sent[|old(link.sent)|..], addr), traces, ws);
    }
  }

  lemma SentTraces(trace: seq<Seen>, traces: seq<seq<Seen>>, ws: seq<Sent>)
    requires Traces(trace, traces, ws)
    ensures AreSent(traces, ws)
  {
  }

  /** From the driver to the listing: a command with at most three values, sent without a
      refusal, is reported with its own fields and values. */
  lemma CommandIsReported(trace: seq<Seen>, traces: seq<seq<Seen>>, ws: seq<Sent>, req: nat, srcId: nat, targetId: nat, vals: seq<nat>)
    requires |vals| < 4 && forall i :: 0 <= i < |vals| ==> vals[i] < 0x1_0000_0000
    requires IsCommand(ws, Message(PackScpData(|vals|, req, srcId, targetId), vals)) && Once(ws) && Traces(trace, traces, ws)
    ensures Run(CLEARED, trace) ==
            Step(CLEARED, [Report(Starts(traces, ws)[0], PackScpData(|vals|, req, srcId, targetId), vals)])
  {
    hide StepVerb, IsSent, Parse, Kept, Shows, HeaderOf, Masked, Starts;
    var m := Message(PackScpData(|vals|, req, srcId, targetId), vals);
    AllTried(traces, ws);
    TraceParsed(trace, traces, ws);
    OnceParsed(m, ws, Starts(traces, ws));
    OnlyClearIsCleared(Run(CLEARED, trace).s, CLEAR);
  }

  /* ---------- Several commands ---------- */

  datatype Command = Command(req: nat, srcId: nat, targetId: nat, vals: seq<nat>)

  function MessageOf(c: Command): Message { Message(PackScpData(|c.vals|, c.req, c.srcId, c.targetId), c.vals) }

  predicate IsCommandData(c: Command) { |c.vals| <= 31 && forall i :: 0 <= i < |c.vals| ==> c.vals[i] < 0x1_0000_0000 }

  predicate AreCommands(wss: seq<seq<Sent>>, cmds: seq<Command>) {
    |wss| == |cmds| && forall i :: 0 <= i < |cmds| ==> IsCommand(wss[i], MessageOf(cmds[i]))
  }

  lemma {:induction false} FlatSnoc(wss: seq<seq<Sent>>, ws: seq<Sent>)
    ensures Flat(wss + [ws]) == Flat(wss) + ws
    decreases |wss|
  {
    if wss == [] {
      assert [ws][1..] == [] && [] + [ws] == [ws];
    } else {
      assert (wss + [ws])[1..] == wss[1..] + [ws];
      FlatSnoc(wss[1..], ws);
    }
  }

  lemma {:induction false} ConcatJoins(a: seq<seq<Seen>>, b: seq<seq<Seen>>)
    ensures Concat(a + b) == Concat(a) + Concat(b)
    decreases |a|
  {
    if a == [] {
      assert a + b == b;
    } else {
      assert (a + b)[1..] == a[1..] + b;
      ConcatJoins(a[1..], b);
    }
  }

  lemma {:induction false} ConcatHas(traces: seq<seq<Seen>>, i: nat, s: Seen)
    requires i < |traces| && s in traces[i]
    ensures s in Concat(traces)
    decreases i
  {
    if i > 0 { ConcatHas(traces[1..], i - 1, s); }
  }

  /** The words of one more command. */
  lemma StartsJoin(traces: seq<seq<Seen>>, ws: seq<Sent>, parts: seq<seq<Seen>>, more: seq<Sent>, addr: nat, next: nat)
    requires StartsBelow(traces, ws, addr) && AreSent(parts, more) && Rising(Starts(parts, more))
    requires addr <= next && forall s :: s in Concat(parts) ==> addr <= s.addr < next
    ensures StartsBelow(traces + parts, ws + more, next)
  {
    hide IsSent;
    var ts, us := traces + parts, ws + more;
    forall i | 0 <= i < |us|
      ensures IsSent(ts[i], us[i])
      ensures Starts(ts, us)[i] == if i < |ws| then Starts(traces, ws)[i] else Starts(parts, more)[i - |ws|]
    {
    }
    forall i | 0 <= i < |more|
      ensures addr <= Starts(parts, more)[i] < next
    {
      StartOf(parts[i], more[i]);
      ConcatHas(parts, i, parts[i][more[i].lows - 1]);
    }
  }

  lemma LeftJoin(verbs: seq<Verb>, addr: nat, traces: seq<seq<Seen>>, ws: seq<Sent>, new': seq<Verb>,
                 parts: seq<seq<Seen>>, more: seq<Sent>)
    requires Left(verbs, addr, traces, ws) && Traces(TraceFrom(new', addr + 4 * |verbs|), parts, more)
    ensures Left(verbs + new', addr, traces + parts, ws + more)
  {
    hide Kept, TraceFrom, IsSent, StartsBelow, Starts, Rising;
    var at := addr + 4 * |verbs|;
    KeptWithin(new', at);
    TraceJoins(verbs, new', addr);
    KeptJoins(TraceFrom(verbs, addr), TraceFrom(new', at));
    ConcatJoins(traces, parts);
    StartsJoin(traces, ws, parts, more, at, at + 4 * |new'|);
  }

  /** The sender's outer loop: command after command, until one fails. Whatever was refused on the way, the
      trace is the words of all commands with some retries. */
  method SendCommands(link: Link, cmds: seq<Command>, ghost addr: nat)
    returns (failed: bool, ghost traces: seq<seq<Seen>>, ghost wss: seq<seq<Sent>>)
    requires forall i :: 0 <= i < |cmds| ==> IsCommandData(cmds[i])
    modifies link
    ensures |old(link.sent)| <= |link.sent| && link.sent[..|old(link.sent)|] == old(link.sent)
    ensures !failed ==>
              AreCommands(wss, cmds) && Traces(TraceFrom(link.sent[|old(link.sent)|..], addr), traces, Flat(wss))
    ensures !failed && NoneBusy(link.reply, |old(link.sent)|, |link.sent|) ==> Once(Flat(wss))
  {
    hide Left, Kept, TraceFrom, PackScpData, AreSent, IsCommand, Traces;
    failed, traces, wss := false, [], [];
    ghost var from := |link.sent|;
    LeftNothing(addr);
    assert link.sent[from..] == [];
    for i := 0 to |cmds|
      modifies link
      invariant from <= |link.sent| && link.sent[..from] == old(link.sent)
      invariant AreCommands(wss, cmds[..i]) && Left(link.sent[from..], addr, traces, Flat(wss))
      invariant NoneBusy(link.reply, from, |link.sent|) ==> Once(Flat(wss))
    {
      ghost var before := link.sent;
      ghost var at := addr + 4 * |before[from..]|;
      var c := cmds[i];
      assert IsCommandData(c);
      ghost var parts, ws;
      failed, parts, ws := SendCommand(link, c.req, c.srcId, c.targetId, c.vals, at);
      if failed { return; }
      ghost var new' := link.sent[|before|..];
      assert link.sent[from..] == before[from..] + new';
      LeftJoin(before[from..], addr, traces, Flat(wss), new', parts, ws);
      FlatSnoc(wss, ws);
      traces, wss := traces + parts, wss + [ws];
      assert cmds[..i + 1] == cmds[..i] + [c];
    }
    LeftTraces(link.sent[from..], addr, traces, Flat(wss));
    assert cmds[..|cmds|] == cmds;
  }

  function MessagesOf(cmds: seq<Command>): (r: seq<Message>)
    ensures |r| == |cmds|
  {
    seq(|cmds|, i requires 0 <= i < |cmds| => MessageOf(cmds[i]))
  }

  predicate AreShort(cmds: seq<Command>) { forall i :: 0 <= i < |cmds| ==> IsCommandData(cmds[i]) && |cmds[i].vals| < 4 }

  lemma CommandsAreSets(wss: seq<seq<Sent>>, cmds: seq<Command>)
    requires AreCommands(wss, cmds) && AreShort(cmds)
    ensures AreSets(MessagesOf(cmds), wss)
  {
    hide IsCommand;
    forall i | 0 <= i < |cmds|
      ensures IsSet(MessageOf(cmds[i]))
    {
      assert IsCommandData(cmds[i]);
    }
  }

  /** From the driver to the listing, for any list of commands of at most three values and any refusals:
      exactly the commands are listed, each once, in order, if and only if the retries are harmless. */
  lemma CommandsAreListed(trace: seq<Seen>, traces: seq<seq<Seen>>, wss: seq<seq<Sent>>, cmds: seq<Command>)
    requires AreCommands(wss, cmds) && AreShort(cmds) && Traces(trace, traces, Flat(wss))
    ensures AreSets(MessagesOf(cmds), wss)
    ensures Run(CLEARED, trace).out == ListReports(MessagesOf(cmds), wss, Starts(traces, Flat(wss))) <==>
            AllHarmless(MessagesOf(cmds), wss)
  {
    hide AreSets, Run, AllHarmless, Starts, ListReports;
    CommandsAreSets(wss, cmds);
    CommandsListed(trace, traces, MessagesOf(cmds), wss);
  }

  /** Without a refusal they are, and the decoder ends cleared. */
  lemma CommandsAreReported(trace: seq<Seen>, traces: seq<seq<Seen>>, wss: seq<seq<Sent>>, cmds: seq<Command>)
    requires AreCommands(wss, cmds) && AreShort(cmds) && Once(Flat(wss)) && Traces(trace, traces, Flat(wss))
    ensures AreSets(MessagesOf(cmds), wss)
    ensures Run(CLEARED, trace) == Step(CLEARED, ListReports(MessagesOf(cmds), wss, Starts(traces, Flat(wss))))
  {
    hide AreSets, IsSent, Parse, Kept, Shows, Starts, ListReports, Run;
    CommandsAreSets(wss, cmds);
    AllTried(traces, Flat(wss));
    TraceParsed(trace, traces, Flat(wss));
    OnceListed(MessagesOf(cmds), wss, Starts(traces, Flat(wss)));
    OnlyClearIsCleared(Run(CLEARED, trace).s, CLEAR);
  }
}
