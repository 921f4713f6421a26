/** Single instructions of a routine in the external memory, and the signal routine. */
module Routines {
  import opened Mcs51
  import opened Payload

  /** The code after a write elsewhere. */
  lemma CodeKept(xram: seq<nat>, base: nat, bytes: seq<nat>, a: nat, v: nat)
    requires HasCode(xram, base, bytes) && a < 0x1_0000 && !(base <= a < base + |bytes|)
    ensures HasCode(xram[a := v], base, bytes)
  {
    assert xram[a := v][base..base + |bytes|] == xram[base..base + |bytes|];
  }

  /** Where a routine returns to. */
  function RetAddr(s: Cpu): (a: nat)
    requires Valid(s)
    ensures a < 0x1_0000
  {
    s.iram[s.sp] * 256 + s.iram[(s.sp + 255) % 256]
  }

  /** From s the machine has come to t, which is about to execute the instruction at off. */
  ghost predicate Ready(rom: Rom, s: Cpu, t: Cpu, base: nat, bytes: seq<nat>, off: nat) {
    Reaches(rom, s, t) && Valid(t) && HasCode(t.xram, base, bytes) && off < |bytes| && t.pc == base + off &&
    base + |bytes| < 0x1_0000
  }

  /** One more instruction. */
  lemma Next(rom: Rom, s: Cpu, t: Cpu, base: nat, bytes: seq<nat>, off: nat) returns (u: Cpu)
    requires Ready(rom, s, t, base, bytes, off) && off + DecodeIn(bytes, off).len <= |bytes|
    ensures u == Exec(rom, t.(pc := base + off + DecodeIn(bytes, off).len), DecodeIn(bytes, off).op)
    ensures Valid(u) && Reaches(rom, s, u)
  {
    hide Exec, DecodeIn, Step, Valid;
    u := Step(rom, t);
    StepIn(rom, t, base, bytes, off);
    ReachesStep(rom, t);
    ReachesTrans(rom, s, t, u);
  }

  /* Each instruction's effect. */

  lemma DoClrA(rom: Rom, s: Cpu, t: Cpu, base: nat, bytes: seq<nat>, off: nat) returns (u: Cpu)
    requires Ready(rom, s, t, base, bytes, off) && DecodeIn(bytes, off) == Decoded(ClrA, 1) && off + 1 <= |bytes|
    ensures Valid(u) && Reaches(rom, s, u)
    ensures u == t.(pc := base + off + 1, acc := 0)
  {
    hide Decode, DecodeIn, HasCode, Reaches, Parity, PswByte, FlagsOf;
    u := Next(rom, s, t, base, bytes, off);
  }

  lemma DoMovcA(rom: Rom, s: Cpu, t: Cpu, base: nat, bytes: seq<nat>, off: nat) returns (u: Cpu)
    requires Ready(rom, s, t, base, bytes, off) && DecodeIn(bytes, off) == Decoded(MovcA, 1) && off + 1 <= |bytes|
    ensures Valid(u) && Reaches(rom, s, u)
    ensures u == t.(pc := base + off + 1, acc := Fetch(rom, t, (t.acc + Dptr(t)) % 0x1_0000))
  {
    hide Decode, DecodeIn, HasCode, Reaches, Parity, PswByte, FlagsOf;
    u := Next(rom, s, t, base, bytes, off);
  }

  lemma DoMovxRead(rom: Rom, s: Cpu, t: Cpu, base: nat, bytes: seq<nat>, off: nat) returns (u: Cpu)
    requires Ready(rom, s, t, base, bytes, off) && DecodeIn(bytes, off) == Decoded(MovxRead, 1) && off + 1 <= |bytes|
    ensures Valid(u) && Reaches(rom, s, u)
    ensures u == t.(pc := base + off + 1, acc := t.xram[Dptr(t)])
  {
    hide Decode, DecodeIn, HasCode, Reaches, Parity, PswByte, FlagsOf;
    u := Next(rom, s, t, base, bytes, off);
  }

  lemma DoMovxWrite(rom: Rom, s: Cpu, t: Cpu, base: nat, bytes: seq<nat>, off: nat) returns (u: Cpu)
    requires Ready(rom, s, t, base, bytes, off) && DecodeIn(bytes, off) == Decoded(MovxWrite, 1) && off + 1 <= |bytes|
    ensures Valid(u) && Reaches(rom, s, u)
    ensures u == t.(pc := base + off + 1, xram := t.xram[Dptr(t) := t.acc])
  {
    hide Decode, DecodeIn, HasCode, Reaches, Parity, PswByte, FlagsOf;
    u := Next(rom, s, t, base, bytes, off);
  }

  lemma DoIncDptr0(rom: Rom, s: Cpu, t: Cpu, base: nat, bytes: seq<nat>, off: nat) returns (u: Cpu)
    requires Ready(rom, s, t, base, bytes, off) && DecodeIn(bytes, off) == Decoded(IncDptr, 1) && off + 1 <= |bytes|
    requires t.tgl % 2 == 0
    ensures Valid(u) && Reaches(rom, s, u)
    ensures u == t.(pc := base + off + 1, dptr0 := (t.dptr0 + 1) % 0x1_0000)
  {
    hide Decode, DecodeIn, HasCode, Reaches, Parity, PswByte, FlagsOf;
    u := Next(rom, s, t, base, bytes, off);
  }

  lemma DoIncDptr1(rom: Rom, s: Cpu, t: Cpu, base: nat, bytes: seq<nat>, off: nat) returns (u: Cpu)
    requires Ready(rom, s, t, base, bytes, off) && DecodeIn(bytes, off) == Decoded(IncDptr, 1) && off + 1 <= |bytes|
    requires t.tgl % 2 == 1
    ensures Valid(u) && Reaches(rom, s, u)
    ensures u == t.(pc := base + off + 1, dptr1 := (t.dptr1 + 1) % 0x1_0000)
  {
    hide Decode, DecodeIn, HasCode, Reaches, Parity, PswByte, FlagsOf;
    u := Next(rom, s, t, base, bytes, off);
  }

  lemma DoIncTgl(rom: Rom, s: Cpu, t: Cpu, base: nat, bytes: seq<nat>, off: nat) returns (u: Cpu)
    requires Ready(rom, s, t, base, bytes, off) && DecodeIn(bytes, off) == Decoded(IncDirect(0x86), 2) && off + 2 <= |bytes|
    ensures Valid(u) && Reaches(rom, s, u)
    ensures u == t.(pc := base + off + 2, tgl := (t.tgl + 1) % 256)
  {
    hide Decode, DecodeIn, HasCode, Reaches, Parity, PswByte, FlagsOf;
    u := Next(rom, s, t, base, bytes, off);
  }

  lemma DoMovReg(rom: Rom, s: Cpu, t: Cpu, base: nat, bytes: seq<nat>, off: nat, r: nat, n: nat) returns (u: Cpu)
    requires Ready(rom, s, t, base, bytes, off) && DecodeIn(bytes, off) == Decoded(MovReg(r, n), 2) && off + 2 <= |bytes|
    requires r < 8 && n < 256
    ensures Valid(u) && Reaches(rom, s, u)
    ensures u == t.(pc := base + off + 2, iram := t.iram[RegAddr(t, r) := n])
  {
    hide Decode, DecodeIn, HasCode, Reaches, Parity, PswByte, FlagsOf;
    u := Next(rom, s, t, base, bytes, off);
  }

  lemma DoIncReg(rom: Rom, s: Cpu, t: Cpu, base: nat, bytes: seq<nat>, off: nat, r: nat) returns (u: Cpu)
    requires Ready(rom, s, t, base, bytes, off) && DecodeIn(bytes, off) == Decoded(IncReg(r), 1) && off + 1 <= |bytes|
    requires r < 8
    ensures Valid(u) && Reaches(rom, s, u)
    ensures u == t.(pc := base + off + 1, iram := t.iram[RegAddr(t, r) := (t.iram[RegAddr(t, r)] + 1) % 256])
  {
    hide Decode, DecodeIn, HasCode, Reaches, Parity, PswByte, FlagsOf;
    u := Next(rom, s, t, base, bytes, off);
  }

  lemma DoMovDptr0(rom: Rom, s: Cpu, t: Cpu, base: nat, bytes: seq<nat>, off: nat, a: nat) returns (u: Cpu)
    requires Ready(rom, s, t, base, bytes, off) && DecodeIn(bytes, off) == Decoded(MovDptr(a), 3) && off + 3 <= |bytes|
    requires a < 0x1_0000 && t.tgl % 2 == 0
    ensures Valid(u) && Reaches(rom, s, u)
    ensures u == t.(pc := base + off + 3, dptr0 := a)
  {
    hide Decode, DecodeIn, HasCode, Reaches, Parity, PswByte, FlagsOf;
    u := Next(rom, s, t, base, bytes, off);
  }

  lemma DoMovDptr1(rom: Rom, s: Cpu, t: Cpu, base: nat, bytes: seq<nat>, off: nat, a: nat) returns (u: Cpu)
    requires Ready(rom, s, t, base, bytes, off) && DecodeIn(bytes, off) == Decoded(MovDptr(a), 3) && off + 3 <= |bytes|
    requires a < 0x1_0000 && t.tgl % 2 == 1
    ensures Valid(u) && Reaches(rom, s, u)
    ensures u == t.(pc := base + off + 3, dptr1 := a)
  {
    hide Decode, DecodeIn, HasCode, Reaches, Parity, PswByte, FlagsOf;
    u := Next(rom, s, t, base, bytes, off);
  }

  lemma DoMovIe(rom: Rom, s: Cpu, t: Cpu, base: nat, bytes: seq<nat>, off: nat, n: nat) returns (u: Cpu)
    requires Ready(rom, s, t, base, bytes, off) && DecodeIn(bytes, off) == Decoded(MovDirect(0xa8, n), 3) && off + 3 <= |bytes|
    requires n < 256
    ensures Valid(u) && Reaches(rom, s, u)
    ensures u == t.(pc := base + off + 3, ie := n)
  {
    hide Decode, DecodeIn, HasCode, Reaches, Parity, PswByte, FlagsOf;
    u := Next(rom, s, t, base, bytes, off);
  }

  lemma DoMovTgl(rom: Rom, s: Cpu, t: Cpu, base: nat, bytes: seq<nat>, off: nat, n: nat) returns (u: Cpu)
    requires Ready(rom, s, t, base, bytes, off) && DecodeIn(bytes, off) == Decoded(MovDirect(0x86, n), 3) && off + 3 <= |bytes|
    requires n < 256
    ensures Valid(u) && Reaches(rom, s, u)
    ensures u == t.(pc := base + off + 3, tgl := n)
  {
    hide Decode, DecodeIn, HasCode, Reaches, Parity, PswByte, FlagsOf;
    u := Next(rom, s, t, base, bytes, off);
  }

  lemma DoMovPsw(rom: Rom, s: Cpu, t: Cpu, base: nat, bytes: seq<nat>, off: nat, n: nat) returns (u: Cpu)
    requires Ready(rom, s, t, base, bytes, off) && DecodeIn(bytes, off) == Decoded(MovDirect(0xd0, n), 3) && off + 3 <= |bytes|
    requires n < 256
    ensures Valid(u) && Reaches(rom, s, u)
    ensures u == t.(pc := base + off + 3, psw := FlagsOf(n))
  {
    hide Decode, DecodeIn, HasCode, Reaches, Parity, PswByte;
    u := Next(rom, s, t, base, bytes, off);
  }

  lemma DoMovBank(rom: Rom, s: Cpu, t: Cpu, base: nat, bytes: seq<nat>, off: nat, n: nat) returns (u: Cpu)
    requires Ready(rom, s, t, base, bytes, off) && DecodeIn(bytes, off) == Decoded(MovDirect(0xfa, n), 3) && off + 3 <= |bytes|
    requires n < 256
    ensures Valid(u) && Reaches(rom, s, u)
    ensures u == t.(pc := base + off + 3, bank := n)
  {
    hide Decode, DecodeIn, HasCode, Reaches, Parity, PswByte, FlagsOf;
    u := Next(rom, s, t, base, bytes, off);
  }

  lemma DoMovB(rom: Rom, s: Cpu, t: Cpu, base: nat, bytes: seq<nat>, off: nat, n: nat) returns (u: Cpu)
    requires Ready(rom, s, t, base, bytes, off) && DecodeIn(bytes, off) == Decoded(MovDirect(0xf0, n), 3) && off + 3 <= |bytes|
    requires n < 256
    ensures Valid(u) && Reaches(rom, s, u)
    ensures u == t.(pc := base + off + 3, b := n)
  {
    hide Decode, DecodeIn, HasCode, Reaches, Parity, PswByte, FlagsOf;
    u := Next(rom, s, t, base, bytes, off);
  }

  lemma DoMovA(rom: Rom, s: Cpu, t: Cpu, base: nat, bytes: seq<nat>, off: nat, n: nat) returns (u: Cpu)
    requires Ready(rom, s, t, base, bytes, off) && DecodeIn(bytes, off) == Decoded(MovA(n), 2) && off + 2 <= |bytes|
    requires n < 256
    ensures Valid(u) && Reaches(rom, s, u)
    ensures u == t.(pc := base + off + 2, acc := n)
  {
    hide Decode, DecodeIn, HasCode, Reaches, Parity, PswByte, FlagsOf;
    u := Next(rom, s, t, base, bytes, off);
  }

  lemma DoMovADirect(rom: Rom, s: Cpu, t: Cpu, base: nat, bytes: seq<nat>, off: nat, d: nat) returns (u: Cpu)
    requires Ready(rom, s, t, base, bytes, off) && DecodeIn(bytes, off) == Decoded(MovADirect(d), 2) && off + 2 <= |bytes|
    requires d < 256
    ensures Valid(u) && Reaches(rom, s, u)
    ensures u == t.(pc := base + off + 2, acc := DirectRead(t, d))
  {
    hide Decode, DecodeIn, HasCode, Reaches, Parity, PswByte, FlagsOf;
    DirectReadByte(t, d);
    u := Next(rom, s, t, base, bytes, off);
  }

  lemma DoMovAInd(rom: Rom, s: Cpu, t: Cpu, base: nat, bytes: seq<nat>, off: nat, r: nat) returns (u: Cpu)
    requires Ready(rom, s, t, base, bytes, off) && DecodeIn(bytes, off) == Decoded(MovAInd(r), 1) && off + 1 <= |bytes|
    requires r < 2
    ensures Valid(u) && Reaches(rom, s, u)
    ensures u == t.(pc := base + off + 1, acc := t.iram[t.iram[RegAddr(t, r)]])
  {
    hide Decode, DecodeIn, HasCode, Reaches, Parity, PswByte, FlagsOf;
    u := Next(rom, s, t, base, bytes, off);
  }

  lemma DoPush(rom: Rom, s: Cpu, t: Cpu, base: nat, bytes: seq<nat>, off: nat, d: nat) returns (u: Cpu)
    requires Ready(rom, s, t, base, bytes, off) && DecodeIn(bytes, off) == Decoded(Push(d), 2) && off + 2 <= |bytes|
    requires d < 256 && d > 0x81 && t.sp < 255
    ensures Valid(u) && Reaches(rom, s, u)
    ensures u == t.(pc := base + off + 2, sp := t.sp + 1, iram := t.iram[t.sp + 1 := DirectRead(t, d)])
  {
    hide Decode, DecodeIn, HasCode, Reaches, Parity, PswByte, FlagsOf;
    DirectReadByte(t, d);
    u := Next(rom, s, t, base, bytes, off);
  }

  lemma DoRet(rom: Rom, s: Cpu, t: Cpu, base: nat, bytes: seq<nat>, off: nat) returns (u: Cpu)
    requires Ready(rom, s, t, base, bytes, off) && DecodeIn(bytes, off) == Decoded(Ret, 1) && off + 1 <= |bytes|
    requires t.sp >= 2
    ensures Valid(u) && Reaches(rom, s, u)
    ensures u == t.(pc := RetAddr(t), sp := t.sp - 2)
  {
    hide Decode, DecodeIn, HasCode, Reaches, Parity, PswByte, FlagsOf;
    u := Next(rom, s, t, base, bytes, off);
  }

  lemma DoLcall(rom: Rom, s: Cpu, t: Cpu, base: nat, bytes: seq<nat>, off: nat, a: nat) returns (u: Cpu)
    requires Ready(rom, s, t, base, bytes, off) && DecodeIn(bytes, off) == Decoded(Lcall(a), 3) && off + 3 <= |bytes|
    requires a < 0x1_0000 && t.sp < 254
    ensures Valid(u) && Reaches(rom, s, u)
    ensures u == t.(pc := a, sp := t.sp + 2,
                    iram := t.iram[t.sp + 1 := (base + off + 3) % 256][t.sp + 2 := (base + off + 3) / 256])
  {
    hide Decode, DecodeIn, HasCode, Reaches, Parity, PswByte, FlagsOf;
    u := Next(rom, s, t, base, bytes, off);
  }

  lemma DoLjmp(rom: Rom, s: Cpu, t: Cpu, base: nat, bytes: seq<nat>, off: nat, a: nat) returns (u: Cpu)
    requires Ready(rom, s, t, base, bytes, off) && DecodeIn(bytes, off) == Decoded(Ljmp(a), 3) && off + 3 <= |bytes|
    requires a < 0x1_0000
    ensures Valid(u) && Reaches(rom, s, u)
    ensures u == t.(pc := a)
  {
    hide Decode, DecodeIn, HasCode, Reaches, Parity, PswByte, FlagsOf;
    u := Next(rom, s, t, base, bytes, off);
  }

  lemma DoDjnz(rom: Rom, s: Cpu, t: Cpu, base: nat, bytes: seq<nat>, off: nat, r: nat, rel: nat) returns (u: Cpu)
    requires Ready(rom, s, t, base, bytes, off) && DecodeIn(bytes, off) == Decoded(Djnz(r, rel), 2) && off + 2 <= |bytes|
    requires r < 8 && rel < 256
    ensures Valid(u) && Reaches(rom, s, u)
    ensures var v := (t.iram[RegAddr(t, r)] + 255) % 256;
            u == t.(pc := if v != 0 then Target(base + off + 2, rel) else base + off + 2, iram := t.iram[RegAddr(t, r) := v])
  {
    hide Decode, DecodeIn, HasCode, Reaches, Parity, PswByte, FlagsOf;
    u := Next(rom, s, t, base, bytes, off);
  }

  lemma DoPop(rom: Rom, s: Cpu, t: Cpu, base: nat, bytes: seq<nat>, off: nat, d: nat) returns (u: Cpu)
    requires Ready(rom, s, t, base, bytes, off) && DecodeIn(bytes, off) == Decoded(Pop(d), 2) && off + 2 <= |bytes|
    requires d < 256 && d > 0x81 && t.sp >= 1
    ensures Valid(u) && Reaches(rom, s, u)
    ensures u == DirectWrite(t.(pc := base + off + 2), d, t.iram[t.sp]).(sp := t.sp - 1)
  {
    hide Decode, DecodeIn, HasCode, Reaches, Parity, PswByte, FlagsOf;
    u := Next(rom, s, t, base, bytes, off);
  }

  lemma DoSubbA(rom: Rom, s: Cpu, t: Cpu, base: nat, bytes: seq<nat>, off: nat, n: nat) returns (u: Cpu)
    requires Ready(rom, s, t, base, bytes, off) && DecodeIn(bytes, off) == Decoded(SubbA(n), 2) && off + 2 <= |bytes|
    requires n < 256
    ensures Valid(u) && Reaches(rom, s, u)
    ensures u == Subtract(t.(pc := base + off + 2), n)
  {
    hide Decode, DecodeIn, HasCode, Reaches, Parity, PswByte, FlagsOf;
    u := Next(rom, s, t, base, bytes, off);
  }

  lemma DoJnc(rom: Rom, s: Cpu, t: Cpu, base: nat, bytes: seq<nat>, off: nat, rel: nat) returns (u: Cpu)
    requires Ready(rom, s, t, base, bytes, off) && DecodeIn(bytes, off) == Decoded(Jnc(rel), 2) && off + 2 <= |bytes|
    requires rel < 128
    ensures Valid(u) && Reaches(rom, s, u)
    ensures u == t.(pc := if t.psw.cy then base + off + 2 else (base + off + 2 + rel) % 0x1_0000)
  {
    hide Decode, DecodeIn, HasCode, Reaches, Parity, PswByte, FlagsOf;
    u := Next(rom, s, t, base, bytes, off);
  }

  lemma DoMulAB(rom: Rom, s: Cpu, t: Cpu, base: nat, bytes: seq<nat>, off: nat) returns (u: Cpu)
    requires Ready(rom, s, t, base, bytes, off) && DecodeIn(bytes, off) == Decoded(MulAB, 1) && off + 1 <= |bytes|
    ensures Valid(u) && Reaches(rom, s, u)
    ensures u == t.(pc := base + off + 1, acc := t.acc * t.b % 256, b := t.acc * t.b / 256 % 256,
                    psw := t.psw.(cy := false, ov := t.acc * t.b >= 256))
  {
    hide Decode, DecodeIn, HasCode, Reaches, Parity, PswByte, FlagsOf;
    u := Next(rom, s, t, base, bytes, off);
  }

  lemma DoJmpADptr(rom: Rom, s: Cpu, t: Cpu, base: nat, bytes: seq<nat>, off: nat) returns (u: Cpu)
    requires Ready(rom, s, t, base, bytes, off) && DecodeIn(bytes, off) == Decoded(JmpADptr, 1) && off + 1 <= |bytes|
    ensures Valid(u) && Reaches(rom, s, u)
    ensures u == t.(pc := (t.acc + Dptr(t)) % 0x1_0000)
  {
    hide Decode, DecodeIn, HasCode, Reaches, Parity, PswByte, FlagsOf;
    u := Next(rom, s, t, base, bytes, off);
  }

  /** The signal routine sets the signal byte and returns. */
  lemma SignalRuns(rom: Rom, s: Cpu, base: nat) returns (t: Cpu)
    requires Valid(s) && HasCode(s.xram, base, Func3()) && s.pc == base && s.tgl % 2 == 0 && s.sp >= 2
    requires !(base <= 0xf1ff < base + 7) && base + 7 < 0x1_0000
    ensures Reaches(rom, s, t) && Valid(t)
    ensures t == s.(pc := RetAddr(s), sp := s.sp - 2, acc := 0xff, dptr0 := 0xf1ff, xram := s.xram[0xf1ff := 0xff])
  {
    hide DecodeIn, Func3, HasCode, Reaches;
    Func3Ops();
    ReachesSelf(rom, s);
    t := DoMovDptr0(rom, s, s, base, Func3(), 0, 0xf1ff);
    t := DoMovA(rom, s, t, base, Func3(), 3, 0xff);
    t := DoMovxWrite(rom, s, t, base, Func3(), 5);
    CodeKept(s.xram, base, Func3(), 0xf1ff, 0xff);
    t := DoRet(rom, s, t, base, Func3(), 6);
  }
}
