/** The payload's copying routines, from call to return. */
module DumpRoutines {
  import opened CopyLoops
  import opened Exram
  import opened Mcs51
  import opened Payload
  import opened Routines

  lemma HasParts(xram: seq<nat>, base: nat, a: seq<nat>, b: seq<nat>)
    requires HasCode(xram, base, a + b)
    ensures HasCode(xram, base, a) && HasCode(xram, base + |a|, b)
  {
    assert xram[base..base + |a|] == (a + b)[..|a|];
    assert xram[base + |a|..base + |a| + |b|] == (a + b)[|a|..];
  }

  /** A stack pointer under which n bytes fit, clear of the two registers the routines use. */
  predicate StackFree(sp: nat, n: nat) {
    2 <= sp && sp + n <= 255 && (sp + n < 0x18 || 0x19 < sp - 1)
  }

  /** The end of a routine: first data pointer, interrupt enables back, return. */
  lemma TailRuns(rom: Rom, s: Cpu, base: nat) returns (t: Cpu)
    requires Valid(s) && HasCode(s.xram, base, CopyTail()) && s.pc == base && base + 6 < 0x1_0000 && s.sp >= 3
    ensures Reaches(rom, s, t) && Valid(t)
    ensures t == s.(pc := s.iram[s.sp - 1] * 256 + s.iram[s.sp - 2], sp := s.sp - 3, tgl := 0, ie := s.iram[s.sp])
  {
    hide DecodeIn, CopyTail, HasCode, Reaches;
    CopyTailOps();
    ReachesSelf(rom, s);
    t := DoMovTgl(rom, s, s, base, CopyTail(), 0, 0);
    t := DoPop(rom, s, t, base, CopyTail(), 3, 0xa8);
    t := DoRet(rom, s, t, base, CopyTail(), 5);
  }

  /* ---------- Code and external memory ---------- */

  lemma HeadRuns(rom: Rom, s: Cpu, base: nat, hi: nat, lo: nat, n: nat) returns (t: Cpu)
    requires Valid(s) && HasCode(s.xram, base, CopyHead(hi, lo, n)) && s.pc == base && base + 15 < 0x1_0000
    requires s.tgl == 0 && s.psw.rs == 3 && s.sp < 255 && hi < 256 && lo < 256 && n < 256
    ensures Reaches(rom, s, t) && Valid(t)
    ensures t == s.(pc := base + 15, sp := s.sp + 1, ie := 0, dptr0 := 0x2000, dptr1 := hi * 256 + lo, tgl := 1,
                    iram := s.iram[s.sp + 1 := s.ie][0x18 := n])
  {
    hide DecodeIn, CopyHead, HasCode, Reaches;
    var code := CopyHead(hi, lo, n);
    CopyHeadOps(hi, lo, n);
    ReachesSelf(rom, s);
    t := DoPush(rom, s, s, base, code, 0, 0xa8);
    t := DoMovIe(rom, s, t, base, code, 2, 0);
    t := DoMovDptr0(rom, s, t, base, code, 5, 0x2000);
    t := DoIncTgl(rom, s, t, base, code, 8);
    t := DoMovDptr1(rom, s, t, base, code, 10, hi * 256 + lo);
    t := DoMovReg(rom, s, t, base, code, 13, 0, n);
  }

  lemma CopyParts(xram: seq<nat>, base: nat, hi: nat, lo: nat, n: nat, read: nat)
    requires HasCode(xram, base, CopyCode(hi, lo, n, read))
    ensures HasCode(xram, base, CopyHead(hi, lo, n)) && HasCode(xram, base + 15, CopyLoop(read))
    ensures HasCode(xram, base + 30, CopyTail())
  {
    hide CopyHead, CopyLoop, CopyTail, HasCode;
    HasParts(xram, base, CopyHead(hi, lo, n) + CopyLoop(read), CopyTail());
    HasParts(xram, base, CopyHead(hi, lo, n), CopyLoop(read));
  }

  lemma ClearWithin(dst: nat, n: nat, base: nat, size: nat, from: nat, k: nat)
    requires ClearOf(dst, n, base, size) && base <= from && from + k <= base + size
    ensures ClearOf(dst, n, from, k)
  {
  }

  /** The loop as the head leaves it, and the end of the routine behind it. */
  lemma LoopAndTail(rom: Rom, s: Cpu, base: nat, read: nat) returns (t: Cpu)
    requires AtLoop(s, base, read) && base + 21 < 0x1_0000 && HasCode(s.xram, base + 15, CopyTail())
    requires s.psw.rs == 3 && 3 <= s.sp && StackFree(s.sp - 1, 1)
    requires ClearOf(s.dptr0, 256 * Rounds(s.iram[0x18]), base + 15, 6)
    ensures Reaches(rom, s, t) && Valid(t)
    ensures t == s.(pc := s.iram[s.sp - 1] * 256 + s.iram[s.sp - 2], sp := s.sp - 3, acc := t.acc,
                    dptr0 := t.dptr0, dptr1 := t.dptr1, tgl := 0, ie := s.iram[s.sp],
                    iram := s.iram[0x18 := 0][0x19 := 0],
                    xram := Forward(rom, s.bank, read, s.xram, s.dptr1, s.dptr0, 256 * Rounds(s.iram[0x18])))
  {
    hide CopyLoop, CopyTail, HasCode, Reaches, Addr, Forward, ClearOf;
    var n := 256 * Rounds(s.iram[0x18]);
    var u := LoopCopies(rom, s, base, read);
    CodeKeptForward(rom, s.bank, read, s.xram, s.dptr1, s.dptr0, n, base + 15, CopyTail());
    t := TailRuns(rom, u, base + 15);
    ReachesTrans(rom, s, u, t);
  }

  /** Called with the first data pointer selected, the routine copies n pages (256 for n == 0) to
      0x2000 on and returns with the interrupt enables and every other register but the
      accumulator, the data pointers, r0 and r1 as they were. */
  lemma CopyRoutine(rom: Rom, s: Cpu, base: nat, hi: nat, lo: nat, n: nat, read: nat) returns (t: Cpu)
    requires Valid(s) && HasCode(s.xram, base, CopyCode(hi, lo, n, read)) && s.pc == base && base + 36 < 0x1_0000
    requires hi < 256 && lo < 256 && n < 256 && (read == 0x93 || read == 0xe0)
    requires s.tgl == 0 && s.psw.rs == 3 && StackFree(s.sp, 1)
    requires ClearOf(0x2000, 256 * Rounds(n), base, 36)
    ensures Reaches(rom, s, t) && Valid(t)
    ensures t == s.(pc := RetAddr(s), sp := s.sp - 2, acc := t.acc, dptr0 := t.dptr0, dptr1 := t.dptr1,
                    iram := s.iram[s.sp + 1 := s.ie][0x18 := 0][0x19 := 0],
                    xram := Forward(rom, s.bank, read, s.xram, hi * 256 + lo, 0x2000, 256 * Rounds(n)))
  {
    hide CopyHead, CopyLoop, CopyTail, CopyCode, HasCode, Reaches, Addr, Forward, ClearOf;
    CopyParts(s.xram, base, hi, lo, n, read);
    var u := HeadRuns(rom, s, base, hi, lo, n);
    ClearWithin(0x2000, 256 * Rounds(n), base, 36, base + 15, 15);
    ClearWithin(0x2000, 256 * Rounds(n), base, 36, base + 30, 6);
    t := LoopAndTail(rom, u, base + 15, read);
    ReachesTrans(rom, s, u, t);
    assert t.iram == s.iram[s.sp + 1 := s.ie][0x18 := 0][0x19 := 0];
  }

  /* ---------- Internal memory ---------- */

  lemma IramHeadRuns(rom: Rom, s: Cpu, base: nat) returns (t: Cpu)
    requires Valid(s) && HasCode(s.xram, base, IramHead()) && s.pc == base && base + 13 < 0x1_0000
    requires s.tgl == 0 && s.psw.rs == 3 && s.sp < 255
    ensures Reaches(rom, s, t) && Valid(t)
    ensures t == s.(pc := base + 13, sp := s.sp + 1, ie := 0, dptr0 := 0x4000, acc := 0,
                    iram := s.iram[s.sp + 1 := s.ie][0x18 := 0][0x19 := 0])
  {
    hide DecodeIn, IramHead, HasCode, Reaches;
    var code := IramHead();
    IramHeadOps();
    ReachesSelf(rom, s);
    t := DoPush(rom, s, s, base, code, 0, 0xa8);
    t := DoMovIe(rom, s, t, base, code, 2, 0);
    t := DoMovDptr0(rom, s, t, base, code, 5, 0x4000);
    t := DoMovReg(rom, s, t, base, code, 8, 0, 0);
    t := DoMovReg(rom, s, t, base, code, 10, 1, 0);
    t := DoClrA(rom, s, t, base, code, 12);
  }

  /** What the loop sees of internal memory: all of it, but r0 and r1 as they are when it gets there. */
  function Seen(iram: seq<nat>, i: nat): nat
    requires |iram| == 256 && i < 256
  {
    if i == 0x18 then 0xe8 else if i == 0x19 then 0x19 else iram[i]
  }

  function Image(iram: seq<nat>, k: nat): (r: seq<nat>)
    requires |iram| == 256 && k <= 256
    ensures |r| == k
  {
    seq(k, i requires 0 <= i < k => Seen(iram, i))
  }

  /** One pass of the loop. */
  lemma IramByte(rom: Rom, s: Cpu, base: nat) returns (t: Cpu)
    requires Valid(s) && HasCode(s.xram, base, IramLoop()) && s.pc == base && base + 6 < 0x1_0000
    requires s.tgl == 0 && s.psw.rs == 3 && !(base <= s.dptr0 < base + 6)
    ensures Reaches(rom, s, t) && Valid(t)
    ensures var v, byte := (s.iram[0x18] + 255) % 256, s.iram[s.iram[0x19]];
            t == s.(pc := if v != 0 then base else base + 6, acc := byte, dptr0 := Addr(s.dptr0, 1),
                    iram := s.iram[0x19 := (s.iram[0x19] + 1) % 256][0x18 := v], xram := s.xram[s.dptr0 := byte])
  {
    hide DecodeIn, IramLoop, HasCode, Reaches, Target;
    var code := IramLoop();
    IramLoopOps();
    BackToStart(base);
    ReachesSelf(rom, s);
    t := DoMovAInd(rom, s, s, base, code, 0, 1);
    t := DoMovxWrite(rom, s, t, base, code, 1);
    CodeKept(s.xram, base, code, s.dptr0, t.acc);
    t := DoIncReg(rom, s, t, base, code, 2, 1);
    t := DoIncDptr0(rom, s, t, base, code, 3);
    t := DoDjnz(rom, s, t, base, code, 4, 0, 0xfa);
  }

  lemma BackToStart(base: nat)
    requires base + 6 < 0x1_0000
    ensures Target(base + 6, 0xfa) == base
  {
  }

  /** The state when k bytes are copied. */
  ghost function Imaged(s: Cpu, base: nat, k: nat, acc: nat): Cpu
    requires Valid(s) && k <= 256
  {
    s.(pc := if k < 256 then base else base + 6, acc := acc, dptr0 := 0x4000 + k,
       iram := s.iram[0x18 := (256 - k) % 256][0x19 := k % 256],
       xram := Written(s.xram, 0x4000, Image(s.iram, k)))
  }

  predicate AtImage(s: Cpu, base: nat) {
    Valid(s) && HasCode(s.xram, base, IramLoop()) && s.pc == base && 0xe000 <= base && base + 6 < 0x1_0000 &&
    s.tgl == 0 && s.psw.rs == 3 && s.dptr0 == 0x4000 && s.iram[0x18] == 0 && s.iram[0x19] == 0
  }

  lemma {:induction false} Images(rom: Rom, s: Cpu, base: nat, k: nat) returns (t: Cpu)
    requires AtImage(s, base) && k <= 256
    ensures Reaches(rom, s, t) && Valid(t) && t == Imaged(s, base, k, t.acc)
    decreases k
  {
    hide IramLoop, HasCode, Reaches, Written, Image;
    if k == 0 {
      t := s;
      ReachesSelf(rom, s);
      assert Image(s.iram, 0) == [];
      assert Written(s.xram, 0x4000, []) == s.xram by { NothingWritten(s.xram, 0x4000); }
    } else {
      var u := Images(rom, s, base, k - 1);
      t := NextImage(rom, s, u, base, k - 1);
    }
  }

  lemma ImageOneMore(iram: seq<nat>, k: nat)
    requires |iram| == 256 && k < 256
    ensures Image(iram, k + 1) == Image(iram, k) + [Seen(iram, k)]
  {
  }

  lemma ImageApart(base: nat, k: nat)
    requires 0xe000 <= base && k <= 256
    ensures forall i :: 0 <= i < k ==> base > Addr(0x4000, i)
    ensures k < 256 ==> Addr(0x4000, k) == 0x4000 + k && Addr(0x4000 + k, 1) == 0x4000 + k + 1
  {
  }

  lemma NextImage(rom: Rom, s: Cpu, u: Cpu, base: nat, k: nat) returns (t: Cpu)
    requires AtImage(s, base) && k < 256 && Reaches(rom, s, u) && Valid(u) && u == Imaged(s, base, k, u.acc)
    ensures Reaches(rom, s, t) && Valid(t) && t == Imaged(s, base, k + 1, t.acc)
  {
    hide IramLoop, HasCode, Reaches, Written, Image, Addr;
    ImageApart(base, k);
    CodeKeptWritten(s.xram, base, IramLoop(), 0x4000, Image(s.iram, k));
    t := IramByte(rom, u, base);
    ReachesTrans(rom, s, u, t);
    CountDown(k);
    ImageOneMore(s.iram, k);
    WrittenOneMore(s.xram, 0x4000, Image(s.iram, k), t.acc);
    assert t.iram == s.iram[0x18 := (256 - (k + 1)) % 256][0x19 := (k + 1) % 256];
  }

  lemma IramParts(xram: seq<nat>, base: nat)
    requires HasCode(xram, base, Func2())
    ensures HasCode(xram, base, IramHead()) && HasCode(xram, base + 13, IramLoop()) && HasCode(xram, base + 19, CopyTail())
    ensures 0xe000 <= base
  {
    assert 0xe000 <= base;
    hide IramHead, IramLoop, CopyTail, HasCode;
    HasParts(xram, base, IramHead() + IramLoop(), CopyTail());
    HasParts(xram, base, IramHead(), IramLoop());
  }

  /** Called with the first data pointer selected, the routine copies internal memory, the pushed
      interrupt enables on its stack, to 0x4000 on. */
  lemma IramRoutine(rom: Rom, s: Cpu, base: nat) returns (t: Cpu)
    requires Valid(s) && HasCode(s.xram, base, Func2()) && s.pc == base && base + 25 < 0x1_0000
    requires s.tgl == 0 && s.psw.rs == 3 && StackFree(s.sp, 1)
    ensures Reaches(rom, s, t) && Valid(t)
    ensures t == s.(pc := RetAddr(s), sp := s.sp - 2, acc := t.acc, dptr0 := 0x4100,
                    iram := s.iram[s.sp + 1 := s.ie][0x18 := 0][0x19 := 0], xram := t.xram)
    ensures t.xram == Written(s.xram, 0x4000, Image(s.iram[s.sp + 1 := s.ie], 256))
  {
    hide IramHead, IramLoop, CopyTail, Func2, HasCode, Reaches, Written, Addr;
    IramParts(s.xram, base);
    var u := IramHeadRuns(rom, s, base);
    var v := Images(rom, u, base + 13, 256);
    ReachesTrans(rom, s, u, v);
    ImageApart(base, 256);
    CodeKeptWritten(s.xram, base + 19, CopyTail(), 0x4000, Image(u.iram, 256));
    t := TailRuns(rom, v, base + 19);
    ReachesTrans(rom, s, v, t);
    assert Image(u.iram, 256) == Image(s.iram[s.sp + 1 := s.ie], 256);
    assert t.iram == s.iram[s.sp + 1 := s.ie][0x18 := 0][0x19 := 0];
  }
}
