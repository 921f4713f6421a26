/** The drivers' end of the bus: every verb sent is recorded, every reply comes from a device
    whose behaviour is left open. */
module Bus {
  import opened Verbs

  /** The same verb n times. */
  function Repeat(v: Verb, n: nat): (r: seq<Verb>)
    ensures |r| == n && forall i :: 0 <= i < n ==> r[i] == v
  {
    seq(n, i => v)
  }

  lemma RepeatOneMore(v: Verb, n: nat)
    ensures Repeat(v, n) + [v] == Repeat(v, n + 1) && Repeat(v, 0) == [] && Repeat(v, 1) == [v]
  {
  }

  class Link {
    const reply: nat -> nat
    var sent: seq<Verb>

    constructor (reply: nat -> nat)
      ensures this.reply == reply && sent == []
    {
      this.reply := reply;
      sent := [];
    }

    /** ioctl(HDA_IOCTL_VERB_WRITE) */
    method Ioctl(v: Verb) returns (res: nat)
      modifies this`sent
      ensures sent == old(sent) + [v] && res == reply(|old(sent)|)
    {
      res := reply(|sent|);
      sent := sent + [v];
    }

    /** Sends the verb until the device accepts it, at most `tries` times. */
    method SendUntil(v: Verb, tries: nat, busy: nat) returns (failed: bool, ghost n: nat)
      requires tries > 0
      modifies this`sent
      ensures 1 <= n <= tries && sent == old(sent) + Repeat(v, n)
      ensures forall i: nat :: |old(sent)| <= i < |sent| - 1 ==> reply(i) == busy
      ensures failed <==> reply(|sent| - 1) == busy
      ensures failed ==> n == tries
    {
      n := 0;
      RepeatOneMore(v, 0);
      for i := 0 to tries
        invariant n == i && sent == old(sent) + Repeat(v, i)
        invariant forall j: nat :: |old(sent)| <= j < |sent| ==> reply(j) == busy
      {
        RepeatOneMore(v, i);
        var res := Ioctl(v);
        n := i + 1;
        if res != busy { return false, n; }
      }
      failed := true;
    }

    /** Sends the verb until the device replies 0, at most `tries` times. */
    method SendUntilZero(v: Verb, tries: nat) returns (res: nat, ghost n: nat)
      requires tries > 0
      modifies this`sent
      ensures 1 <= n <= tries && sent == old(sent) + Repeat(v, n)
      ensures forall i: nat :: |old(sent)| <= i < |sent| - 1 ==> reply(i) != 0
      ensures res == reply(|sent| - 1) && (res != 0 ==> n == tries)
    {
      n, res := 0, 1;
      RepeatOneMore(v, 0);
      for i := 0 to tries
        invariant n == i && sent == old(sent) + Repeat(v, i)
        invariant forall j: nat :: |old(sent)| <= j < |sent| ==> reply(j) != 0
        invariant i > 0 ==> res == reply(|sent| - 1)
      {
        RepeatOneMore(v, i);
        res := Ioctl(v);
        n := i + 1;
        if res == 0 { return; }
      }
    }
  }
}
