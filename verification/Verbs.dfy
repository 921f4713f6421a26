/** Codec verbs as they appear on the bus: a 12-bit verb and 8 bits of data. */
module Verbs {

  datatype Verb = Verb(verb: nat, data: nat)

  /** HDA_VERB, taken apart the way the codec driver sends it: a verb with a 16-bit payload
      has its upper payload byte in the low byte of the verb (HD Audio Specification
      rev 1.0a, section 7.3). */
  function HdaVerb(verb: nat, param: nat): (v: Verb)
  {
    var word := verb * 256 + param;
    Verb(word / 256 % 4096, word % 256)
  }

  /** extract_16_bit_data */
  function Payload(v: Verb): nat { v.verb % 256 * 256 + v.data }

  /** The upper four bits of the verb. */
  function Group(v: Verb): nat { v.verb / 256 % 16 }

  /** A payload verb carries its payload and keeps its group. */
  lemma PayloadCarried(group: nat, param: nat)
    requires group < 16 && param < 0x1_0000
    ensures var v := HdaVerb(group * 256, param);
            Payload(v) == param && Group(v) == group && v.verb == group * 256 + param / 256 && v.data == param % 256
  {
    assert (group * 65536 + param) / 256 == group * 256 + param / 256;
  }

  /** A verb with an 8-bit parameter keeps both. */
  lemma ParamCarried(verb: nat, param: nat)
    requires verb < 4096 && param < 256
    ensures HdaVerb(verb, param) == Verb(verb, param)
  {
  }

  /** A verb and where in the trace it stands. */
  datatype Seen = Seen(v: Verb, addr: nat)

  predicate AllAre(trace: seq<Seen>, v: Verb) { forall i :: 0 <= i < |trace| ==> trace[i].v == v }

  /** The verbs as a trace from address addr on. */
  function TraceFrom(verbs: seq<Verb>, addr: nat): (r: seq<Seen>)
    ensures |r| == |verbs|
  {
    if verbs == [] then [] else [Seen(verbs[0], addr)] + TraceFrom(verbs[1..], addr + 4)
  }

  lemma {:induction false} TraceJoins(a: seq<Verb>, b: seq<Verb>, addr: nat)
    ensures TraceFrom(a + b, addr) == TraceFrom(a, addr) + TraceFrom(b, addr + 4 * |a|)
    decreases |a|
  {
    if a == [] {
      assert a + b == b;
    } else {
      assert (a + b)[1..] == a[1..] + b;
      TraceJoins(a[1..], b, addr + 4);
    }
  }
}
