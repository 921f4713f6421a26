/** What the trace decoder lists of a request for data and the verbs that fetch the answer. */
module ScpGets {
  import opened Scp
  import opened ScpDecoder
  import opened ScpWords
  import opened ScpRetries
  import opened Verbs

  /** A verb that carries no half of a word: the answer is fetched with these. */
  predicate IsReply(v: Verb) { Group(v) != 0 && Group(v) != 1 }

  predicate AreReplies(trace: seq<Seen>) { forall i :: 0 <= i < |trace| ==> IsReply(trace[i].v) }

  /** What a verb counts as: a read (true), a count query (false), or first the one and then the other. */
  function Counted(v: Verb): seq<bool> {
    if v.verb == 0x702 then [true, false]
    else if v.verb == 0xf02 then [true]
    else if v.verb == 0x704 || v.verb == 0xf04 then [false]
    else []
  }

  function AllCounted(trace: seq<Seen>): seq<bool> {
    if trace == [] then [] else Counted(trace[0].v) + AllCounted(trace[1..])
  }

  function Number(us: seq<bool>, kind: bool): nat {
    if us == [] then 0 else (if us[0] == kind then 1 else 0) + Number(us[1..], kind)
  }

  /** After k of them there were four reads and two count queries; the counters are bytes. */
  predicate Meets(us: seq<bool>, readCnt: nat, postCnt: nat, k: nat) {
    1 <= k <= |us| && (readCnt + Number(us[..k], true)) % 256 == 4 && (postCnt + Number(us[..k], false)) % 256 == 2
  }

  /* ---------- One count after the other ---------- */

  function CountOne(s: State, read: bool): State { if read then CountRead(s) else CountPost(s) }

  function RunCounts(s: State, us: seq<bool>): Step
    decreases |us|
  {
    if us == [] then Step(s, [])
    else
      var first := Check(Step(CountOne(s, us[0]), []));
      var rest := RunCounts(first.s, us[1..]);
      Step(rest.s, first.out + rest.out)
  }

  lemma {:induction false} CountsJoin(s: State, a: seq<bool>, b: seq<bool>)
    ensures var first := RunCounts(s, a);
            var rest := RunCounts(first.s, b);
            RunCounts(s, a + b) == Step(rest.s, first.out + rest.out)
    decreases |a|
  {
    hide Check;
    if a == [] {
      assert a + b == b;
    } else {
      assert (a + b)[1..] == a[1..] + b;
      CountsJoin(Check(Step(CountOne(s, a[0]), [])).s, a[1..], b);
    }
  }

  lemma OneReply(s: State, v: Verb, at: nat)
    requires IsReply(v)
    ensures StepVerb(s, v, at) == RunCounts(s, Counted(v))
  {
    hide Printed;
    var one := RunCounts(s, [true]);
    assert [true, false][1..] == [false] && [true][1..] == [] && [false][1..] == [];
    assert one == Check(Step(CountRead(s), []));
    CheckAdds(CountPost(one.s), one.out);
  }

  lemma CheckAdds(s: State, out: seq<Report>)
    ensures Check(Step(s, out)) == Step(Check(Step(s, [])).s, out + Check(Step(s, [])).out)
  {
    hide Printed;
  }

  lemma {:induction false} RepliesCount(s: State, trace: seq<Seen>)
    requires AreReplies(trace)
    ensures Run(s, trace) == RunCounts(s, AllCounted(trace))
    decreases |trace|
  {
    hide StepVerb, Counted, IsReply;
    if trace != [] {
      OneReply(s, trace[0].v, trace[0].addr);
      RepliesCount(StepVerb(s, trace[0].v, trace[0].addr).s, trace[1..]);
      CountsJoin(s, Counted(trace[0].v), AllCounted(trace[1..]));
    }
  }

  /* ---------- A complete request ---------- */

  predicate Ready(s: State) { ScpSet(s) && |s.vals| == s.hdr.dataSize && s.hdr.getFlag == 1 }

  /** Once it is listed, or without a message, counts change the counters alone. */
  lemma {:induction false} IdleCounts(s: State, us: seq<bool>)
    requires !s.scpSet0 && !s.scpSet1
    ensures var r := RunCounts(s, us);
            r.out == [] && !r.s.scpSet0 && !r.s.scpSet1
    decreases |us|
  {
    if us != [] { IdleCounts(CountOne(s, us[0]), us[1..]); }
  }

  lemma WrapAdds(x: nat, n: nat)
    ensures (x % 256 + n) % 256 == (x + n) % 256
  {
  }

  /** The first count. */
  lemma FirstCount(us: seq<bool>, readCnt: nat, postCnt: nat)
    requires us != []
    ensures Meets(us, readCnt, postCnt, 1) <==>
            (readCnt + (if us[0] then 1 else 0)) % 256 == 4 && (postCnt + (if us[0] then 0 else 1)) % 256 == 2
  {
    hide Number;
    NumberFirst(us, 1);
    assert us[1..][..0] == [];
  }

  /** And the others. */
  lemma LaterCount(us: seq<bool>, readCnt: nat, postCnt: nat, k: nat)
    requires us != [] && k >= 1
    ensures var r, p := (readCnt + (if us[0] then 1 else 0)) % 256, (postCnt + (if us[0] then 0 else 1)) % 256;
            Meets(us, readCnt, postCnt, k + 1) <==> Meets(us[1..], r, p, k)
  {
    hide Number;
    if k + 1 <= |us| {
      NumberFirst(us, k + 1);
      WrapAdds(readCnt + (if us[0] then 1 else 0), Number(us[1..][..k], true));
      WrapAdds(postCnt + (if us[0] then 0 else 1), Number(us[1..][..k], false));
    }
  }

  lemma NumberFirst(us: seq<bool>, k: nat)
    requires 1 <= k <= |us|
    ensures Number(us[..k], true) == (if us[0] then 1 else 0) + Number(us[1..][..k - 1], true)
    ensures Number(us[..k], false) == (if us[0] then 0 else 1) + Number(us[1..][..k - 1], false)
    ensures Number([], true) == 0 && Number([], false) == 0
  {
    assert us[..k][1..] == us[1..][..k - 1];
  }

  /** A request is listed when four reads and two count queries have come, and not otherwise. */
  lemma {:induction false} CountsListed(s: State, us: seq<bool>)
    requires Ready(s) && s.readCnt < 256 && s.postCnt < 256
    ensures var r := RunCounts(s, us);
            if exists k: nat :: Meets(us, s.readCnt, s.postCnt, k)
            then r.out == [Printed(s)] && !r.s.scpSet0 && !r.s.scpSet1
            else r.out == [] && Ready(r.s) && Printed(r.s) == Printed(s)
    decreases |us|
  {
    hide Meets, Printed;
    if us != [] {
      FirstCount(us, s.readCnt, s.postCnt);
      var t := CountOne(s, us[0]);
      assert Printed(t) == Printed(s) by { CountsArePrinted(s, us[0]); }
      if t.readCnt == 4 && t.postCnt == 2 {
        assert Check(Step(t, [])) == Step(CLEARED, [Printed(t)]);
        IdleCounts(CLEARED, us[1..]);
      } else {
        CountsListed(t, us[1..]);
        MeetsLater(us, s.readCnt, s.postCnt, t.readCnt, t.postCnt);
      }
    } else {
      NeverMet(s.readCnt, s.postCnt);
    }
  }

  lemma NeverMet(readCnt: nat, postCnt: nat)
    ensures forall k: nat :: !Meets([], readCnt, postCnt, k)
  {
  }

  lemma MeetsLater(us: seq<bool>, readCnt: nat, postCnt: nat, r: nat, p: nat)
    requires us != [] && !Meets(us, readCnt, postCnt, 1)
    requires r == (readCnt + (if us[0] then 1 else 0)) % 256 && p == (postCnt + (if us[0] then 0 else 1)) % 256
    ensures (exists k: nat :: Meets(us, readCnt, postCnt, k)) <==> exists k: nat :: Meets(us[1..], r, p, k)
  {
    hide Number;
    if j: nat :| Meets(us, readCnt, postCnt, j) { LaterCount(us, readCnt, postCnt, j - 1); }
    if j: nat :| Meets(us[1..], r, p, j) { LaterCount(us, readCnt, postCnt, j); }
  }

  lemma CountsArePrinted(s: State, read: bool)
    ensures Printed(CountOne(s, read)) == Printed(s)
  {
  }

  /** From the phase in which a request waits for its answer: the verbs that fetch it list the request if and
      only if at some point there have been exactly four reads and two count queries. */
  lemma GetListed(s: State, p: Phase, reply: seq<Seen>)
    requires Shows(s, p) && p.Open? && |p.vals| == p.hdr.dataSize && AreReplies(reply)
    ensures var met := exists k: nat :: Meets(AllCounted(reply), 0, 0, k);
            Run(s, reply).out == if met then [Report(p.start, p.hdr, p.vals)] else []
  {
    hide RunCounts, Meets, AreReplies;
    RepliesCount(s, reply);
    CountsListed(s, AllCounted(reply));
    assert Printed(s).vals == p.vals;
  }

  /** Whatever is fetched, the request is listed exactly once by the time the next word begins, which starts
      a message of its own. */
  lemma GetListedOnce(s: State, p: Phase, reply: seq<Seen>, next: Seen)
    requires Shows(s, p) && p.Open? && |p.vals| == p.hdr.dataSize && AreReplies(reply) && Group(next.v) == 0
    ensures Run(s, reply + [next]) == Step(Started(Payload(next.v), next.addr), [Report(p.start, p.hdr, p.vals)])
  {
    hide RunCounts, Meets, AreReplies, Payload, Group;
    RepliesCount(s, reply);
    CountsListed(s, AllCounted(reply));
    assert Printed(s).vals == p.vals;
    RunJoins(s, reply, [next]);
    assert [next][1..] == [];
  }

  /* ---------- From the first word to the listing ---------- */

  predicate IsGet(m: Message) {
    m.hdr == Masked(m.hdr) && m.hdr.getFlag == 1 && m.hdr.dataSize < 4 && |m.vals| == m.hdr.dataSize
  }

  lemma {:induction false} ValuesTaken(p: Phase, ws: seq<Sent>, ats: seq<nat>, vals: seq<nat>)
    requires p.Open? && p.hdr.getFlag == 1 && p.hdr.dataSize == |p.vals| + |vals| && |ws| == |ats| == |vals| && Once(ws)
    requires forall i :: 0 <= i < |vals| ==> ws[i].word == vals[i]
    ensures Parse(p, ws, ats) == Parsed(p.(vals := p.vals + vals), [])
    decreases |ws|
  {
    hide TakeHeader;
    if ws == [] {
      assert p.vals + vals == p.vals;
    } else {
      assert Copies(ws[0].word, 1) == [vals[0]];
      ValuesTaken(p.(vals := p.vals + [vals[0]]), ws[1..], ats[1..], vals[1..]);
      assert p.vals + [vals[0]] + vals[1..] == p.vals + vals;
    }
  }

  lemma GetParsed(m: Message, ws: seq<Sent>, ats: seq<nat>)
    requires IsGet(m) && IsCommand(ws, m) && Once(ws) && |ats| == |ws| && Tried(ws[0])
    ensures Parse(CLEAR, ws, ats) == Parsed(Open(ats[0], m.hdr, m.vals), [])
  {
    hide GetScpData, HeaderOf, Masked, TakeValue;
    FieldsReadBack(m.hdr);
    ValuesTaken(Open(ats[0], m.hdr, []), ws[1..], ats[1..], m.vals);
    assert [] + m.vals == m.vals;
  }

  /** A request sent without retries, polls in between, and the verbs that fetch its answer: it is listed with
      its own fields and values if and only if the counts were met; the next word lists it in any case. */
  lemma GetReported(m: Message, trace: seq<Seen>, traces: seq<seq<Seen>>, ws: seq<Sent>, reply: seq<Seen>, next: Seen)
    requires IsGet(m) && IsCommand(ws, m) && Once(ws) && Traces(trace, traces, ws) && AreReplies(reply) && Group(next.v) == 0
    ensures var r := Report(Starts(traces, ws)[0], m.hdr, m.vals);
            (Run(CLEARED, trace + reply).out == if exists k: nat :: Meets(AllCounted(reply), 0, 0, k) then [r] else []) &&
            Run(CLEARED, trace + (reply + [next])) == Step(Started(Payload(next.v), next.addr), [r])
  {
    hide StepVerb, IsSent, Parse, Kept, HeaderOf, Masked, Starts, AreReplies, Meets, Payload, Group, Run;
    AllTried(traces, ws);
    TraceParsed(trace, traces, ws);
    GetParsed(m, ws, Starts(traces, ws));
    var s, p := Run(CLEARED, trace).s, Open(Starts(traces, ws)[0], m.hdr, m.vals);
    RunJoins(CLEARED, trace, reply);
    RunJoins(CLEARED, trace, reply + [next]);
    GetListed(s, p, reply);
    GetListedOnce(s, p, reply, next);
  }
}
