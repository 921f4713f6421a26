/** The trace decoder's structure for the DSP, updated verb by verb. */
module ScpTrace {
  import opened Bits
  import opened Scp
  import opened Verbs
  import opened ScpDecoder

  /** What was printed before is kept in front. */
  lemma CheckPrefix(s: State, before: seq<Report>, out: seq<Report>)
    ensures var st := Check(Step(s, out));
            Check(Step(s, before + out)) == Step(st.s, before + st.out)
  {
    hide Printed;
    assert before + out + [Printed(s)] == before + (out + [Printed(s)]);
  }

  /** struct dsp_data */
  class DspData {
    var scpSet0: bool
    var scpSet1: bool
    var scpDataSet0: bool
    var scpDataSet1: bool
    var curDataCnt: nat
    var data: nat
    var scp: nat
    var scpData: ScpData
    var scpReadDataSetCnt: nat
    var scpPostReadCnt: nat
    var scpStartAddr: nat
    const val: array<nat>
    var printed: seq<Report>

    ghost predicate Valid()
      reads this, val
    {
      val.Length == 32 && curDataCnt <= 15 && forall i :: curDataCnt <= i < 32 ==> val[i] == 0
    }

    /** The fields as one value. */
    ghost function Now(): State
      requires Valid()
      reads this, val
    {
      State(scpSet0, scpSet1, scpDataSet0, scpDataSet1, val[..curDataCnt], data, scp, scpData,
            scpReadDataSetCnt, scpPostReadCnt, scpStartAddr)
    }

    constructor ()
      ensures Valid() && fresh(val) && Now() == CLEARED && printed == []
    {
      scpSet0, scpSet1, scpDataSet0, scpDataSet1 := false, false, false, false;
      curDataCnt, data, scp, scpData := 0, 0, 0, EMPTY;
      scpReadDataSetCnt, scpPostReadCnt, scpStartAddr := 0, 0, 0;
      val := new nat[32](i => 0);
      printed := [];
    }

    /** dsp_scp_clear */
    method Clear()
      requires Valid()
      modifies this, val
      ensures Valid() && Now() == CLEARED && printed == old(printed)
    {
      scpSet0, scpSet1, scpDataSet0, scpDataSet1 := false, false, false, false;
      curDataCnt, data, scp, scpData := 0, 0, 0, EMPTY;
      scpReadDataSetCnt, scpPostReadCnt, scpStartAddr := 0, 0, 0;
      forall i | 0 <= i < 32 { val[i] := 0; }
    }

    /** print_scp_write_data */
    method PrintScpWriteData()
      requires Valid() && scpData.dataSize <= 32
      modifies this`printed
      ensures Valid() && printed == old(printed) + [Printed(old(Now()))] && Now() == old(Now())
    {
      var vals := [];
      for i := 0 to scpData.dataSize
        invariant |vals| == i && forall j :: 0 <= j < i ==> vals[j] == val[j]
      {
        vals := vals + [val[i]];
      }
      assert vals == Printed(Now()).vals;
      printed := printed + [Report(scpStartAddr, scpData, vals)];
    }

    /** dsp_scp_check */
    method ScpCheck()
      requires Valid() && scpData.dataSize <= 32
      modifies this, val
      ensures Valid() && scpData.dataSize <= 32
      ensures Step(Now(), printed) == Check(Step(old(Now()), old(printed)))
    {
      if scpSet0 && scpSet1 && curDataCnt == scpData.dataSize {
        if scpData.getFlag != 0 {
          if scpReadDataSetCnt == 4 && scpPostReadCnt == 2 {
            PrintScpWriteData();
            Clear();
          }
        } else {
          PrintScpWriteData();
          Clear();
        }
      }
    }

    /** dsp_scp_handler for the first half of a word. */
    method ScpLow(payload: nat, addr: nat)
      requires Valid() && scpData.dataSize <= 32
      modifies this, val
      ensures Valid() && scpData.dataSize <= 32
      ensures var st := LowHalf(old(Now()), payload, addr);
              Step(Now(), printed) == Step(st.s, old(printed) + st.out)
    {
      if !(scpSet0 && scpSet1) {
        if scpSet0 {
          Clear();
        } else {
          Clear();
          scpStartAddr := addr;
          scp := payload;
          scpSet0 := true;
        }
      } else if scpData.dataSize != curDataCnt {
        scpDataSet0, scpDataSet1 := false, false;
        data := payload;
        scpDataSet0 := true;
      } else {
        PrintScpWriteData();
        Clear();
        scpStartAddr := addr;
        scp := payload;
        scpSet0 := true;
      }
    }

    /** dsp_scp_handler for the second half of a word. */
    method ScpHigh(payload: nat)
      requires Valid() && scpData.dataSize <= 32
      modifies this, val
      ensures Valid() && scpData.dataSize <= 32
      ensures var st := HighHalf(old(Now()), payload);
              Step(Now(), printed) == Step(st.s, old(printed) + st.out)
    {
      if !(scpSet0 && scpSet1) {
        if !scpSet0 {
          Clear();
        } else {
          scp := Or(scp, payload * 0x1_0000);
          scpSet1 := true;
          scpData := GetScpData(scp);
          if scpData.dataSize >= 4 { Clear(); }
        }
      } else if scpData.dataSize != curDataCnt {
        if !scpDataSet0 { Clear(); }
        data := Or(data, payload * 0x1_0000);
        scpDataSet1 := true;
        if curDataCnt < 15 {
          val[curDataCnt] := data;
          curDataCnt := curDataCnt + 1;
        }
      }
    }

    /** dsp_verb_handler */
    method VerbHandler(v: Verb, addr: nat)
      requires Valid() && scpData.dataSize <= 32
      modifies this, val
      ensures Valid() && scpData.dataSize <= 32
      ensures var st := StepVerb(old(Now()), v, addr);
              Step(Now(), printed) == Step(st.s, old(printed) + st.out)
    {
      hide LowHalf, HighHalf, Check, Payload, Group;
      ghost var s, before := Now(), printed;
      assert before + [] == before;
      if Group(v) == 0 {
        ghost var st := LowHalf(s, Payload(v), addr);
        ScpLow(Payload(v), addr);
        ScpCheck();
        CheckPrefix(st.s, before, st.out);
      } else if Group(v) == 1 {
        ghost var st := HighHalf(s, Payload(v));
        ScpHigh(Payload(v));
        ScpCheck();
        CheckPrefix(st.s, before, st.out);
      } else if v.verb == 0x702 {
        scpReadDataSetCnt := (scpReadDataSetCnt + 1) % 256;
        ScpCheck();
        CheckPrefix(CountRead(s), before, []);
        ghost var t := Check(Step(CountRead(s), []));
        scpPostReadCnt := (scpPostReadCnt + 1) % 256;
        ScpCheck();
        CheckPrefix(CountPost(t.s), before, t.out);
      } else if v.verb == 0x704 || v.verb == 0xf04 {
        scpPostReadCnt := (scpPostReadCnt + 1) % 256;
        ScpCheck();
        CheckPrefix(CountPost(s), before, []);
      } else if v.verb == 0xf02 {
        scpReadDataSetCnt := (scpReadDataSetCnt + 1) % 256;
        ScpCheck();
        CheckPrefix(CountRead(s), before, []);
      }
    }

    /** The decoder over a whole trace. */
    method Decode(trace: seq<Seen>)
      requires Valid() && scpData.dataSize <= 32
      modifies this, val
      ensures Valid()
      ensures var st := Run(old(Now()), trace);
              Step(Now(), printed) == Step(st.s, old(printed) + st.out)
    {
      hide StepVerb;
      ghost var s, out := Now(), [];
      for i := 0 to |trace|
        invariant Valid() && scpData.dataSize <= 32
        invariant Step(Now(), printed) == Step(s, old(printed) + out)
        invariant var rest := Run(s, trace[i..]);
                  Run(old(Now()), trace) == Step(rest.s, out + rest.out)
      {
        ghost var st := StepVerb(s, trace[i].v, trace[i].addr);
        assert trace[i..][1..] == trace[i + 1..];
        VerbHandler(trace[i].v, trace[i].addr);
        s, out := st.s, out + st.out;
      }
    }
  }
}
