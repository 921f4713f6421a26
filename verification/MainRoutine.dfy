/** The payload's main routine: registers are saved, the value at 0x6f picks a slot of the jump
    table, registers are restored. For any number of handlers and any table address. */
module MainRoutine {
  import opened DumpRoutines
  import opened Handlers
  import opened Linking
  import opened Mcs51
  import opened Payload
  import opened Routines

  /** Where the requested value lies. */
  const PARAM := 0x6f

  /** The eight saved registers on the stack. */
  predicate Saved(s: Cpu, iram: seq<nat>) {
    Valid(s) && |iram| == 256 && s.sp + 8 <= 255 &&
    iram[s.sp + 1] == s.acc && iram[s.sp + 2] == s.b &&
    iram[s.sp + 3] == s.dptr0 / 256 && iram[s.sp + 4] == s.dptr0 % 256 &&
    iram[s.sp + 5] == s.dptr1 / 256 && iram[s.sp + 6] == s.dptr1 % 256 &&
    iram[s.sp + 7] == s.tgl && iram[s.sp + 8] == Psw(s)
  }

  lemma Part1OpsA()
    ensures DecodeIn(Part1(), 0) == Decoded(Push(0xe0), 2) && DecodeIn(Part1(), 2) == Decoded(Push(0xf0), 2)
    ensures DecodeIn(Part1(), 4) == Decoded(Push(0x83), 2)
  {
  }

  lemma Part1OpsC()
    ensures DecodeIn(Part1(), 6) == Decoded(Push(0x82), 2)
    ensures DecodeIn(Part1(), 8) == Decoded(Push(0x85), 2) && DecodeIn(Part1(), 10) == Decoded(Push(0x84), 2)
  {
  }

  lemma Part1OpsB()
    ensures DecodeIn(Part1(), 12) == Decoded(Push(0x86), 2) && DecodeIn(Part1(), 14) == Decoded(MovDirect(0x86, 0x00), 3)
    ensures DecodeIn(Part1(), 17) == Decoded(Push(0xd0), 2) && DecodeIn(Part1(), 19) == Decoded(MovDirect(0xd0, 0x18), 3)
    ensures DecodeIn(Part1(), 22) == Decoded(MovADirect(0x6f), 2)
  {
  }

  lemma Part2Ops()
    ensures DecodeIn(Part2(), 0) == Decoded(Jnc(0x0a), 2) && DecodeIn(Part2(), 2) == Decoded(MovADirect(0x6f), 2)
    ensures DecodeIn(Part2(), 4) == Decoded(MovDirect(0xf0, 0x06), 3) && DecodeIn(Part2(), 7) == Decoded(MulAB, 1)
  {
  }

  lemma CompareOp(n: nat)
    ensures DecodeIn([0x94, n], 0) == Decoded(SubbA(n), 2) && DecodeIn([0x73], 0) == Decoded(JmpADptr, 1)
  {
  }

  lemma MainParts(xram: seq<nat>, base: nat, n: nat, tbl: nat)
    requires HasCode(xram, base, MainCode(n, tbl))
    ensures HasCode(xram, base, Part1()) && HasCode(xram, base + 24, [0x94, n]) && HasCode(xram, base + 26, Part2())
    ensures HasCode(xram, base + 34, DptrTo(tbl)) && HasCode(xram, base + 37, [0x73]) && HasCode(xram, base + 38, MainExit())
  {
    hide HasCode, DptrTo, MainExit, Part2;
    HasParts(xram, base, DispatchCode(n, tbl), MainExit());
    HasParts(xram, base, Part1() + [n] + Part2() + DptrTo(tbl), [0x73]);
    HasParts(xram, base, Part1() + [n] + Part2(), DptrTo(tbl));
    HasParts(xram, base, Part1() + [n], Part2());
    HasParts(xram, base, Part1(), [n]);
    assert Part1() + [n] == Part1()[..24] + [0x94, n];
    HasParts(xram, base, Part1()[..24], [0x94, n]);
  }

  lemma Pushes(rom: Rom, s: Cpu, base: nat) returns (t: Cpu)
    requires Valid(s) && HasCode(s.xram, base, Part1()) && s.pc == base && base + 25 < 0x1_0000 && s.sp + 8 <= 255
    ensures Reaches(rom, s, t) && Valid(t)
    ensures t == s.(pc := base + 12, sp := s.sp + 6,
                    iram := s.iram[s.sp + 1 := s.acc][s.sp + 2 := s.b][s.sp + 3 := s.dptr0 / 256]
                                  [s.sp + 4 := s.dptr0 % 256][s.sp + 5 := s.dptr1 / 256][s.sp + 6 := s.dptr1 % 256])
  {
    hide DecodeIn, HasCode, Reaches, Part1;
    Part1OpsA();
    Part1OpsC();
    ReachesSelf(rom, s);
    t := DoPush(rom, s, s, base, Part1(), 0, 0xe0);
    t := DoPush(rom, s, t, base, Part1(), 2, 0xf0);
    t := DoPush(rom, s, t, base, Part1(), 4, 0x83);
    t := DoPush(rom, s, t, base, Part1(), 6, 0x82);
    t := DoPush(rom, s, t, base, Part1(), 8, 0x85);
    t := DoPush(rom, s, t, base, Part1(), 10, 0x84);
  }

  lemma SelectsBankThree()
    ensures FlagsOf(0x18) == Flags(false, false, false, 3, false, false)
  {
  }

  /** Saving: eight bytes on the stack, first data pointer, register bank three, the value read. */
  lemma Saves(rom: Rom, s: Cpu, base: nat) returns (t: Cpu)
    requires Valid(s) && HasCode(s.xram, base, Part1()) && s.pc == base && base + 25 < 0x1_0000 && s.sp + 8 <= 255
    requires !(s.sp < PARAM <= s.sp + 8)
    ensures Reaches(rom, s, t) && Valid(t)
    ensures t == s.(pc := base + 24, sp := s.sp + 8, acc := s.iram[PARAM], tgl := 0,
                    psw := Flags(false, false, false, 3, false, false), iram := t.iram)
    ensures Saved(s, t.iram) && forall i :: 0 <= i < 256 && !(s.sp < i <= s.sp + 8) ==> t.iram[i] == s.iram[i]
  {
    hide DecodeIn, HasCode, Reaches, Part1, FlagsOf, PswByte, Parity;
    var u := Pushes(rom, s, base);
    Part1OpsB();
    SelectsBankThree();
    t := DoPush(rom, s, u, base, Part1(), 12, 0x86);
    t := DoMovTgl(rom, s, t, base, Part1(), 14, 0);
    t := DoPush(rom, s, t, base, Part1(), 17, 0xd0);
    t := DoMovPsw(rom, s, t, base, Part1(), 19, 0x18);
    t := DoMovADirect(rom, s, t, base, Part1(), 22, PARAM);
  }

  /** Comparing the value with the number of handlers. */
  lemma Compares(rom: Rom, s: Cpu, base: nat, n: nat, tbl: nat) returns (t: Cpu)
    requires Valid(s) && HasCode(s.xram, base, MainCode(n, tbl)) && s.pc == base + 24 && base + 55 < 0x1_0000
    requires n < 256 && !s.psw.cy
    ensures Reaches(rom, s, t) && Valid(t)
    ensures t == s.(pc := if s.acc < n then base + 28 else base + 38, acc := t.acc,
                    psw := t.psw) && t.psw.rs == s.psw.rs
  {
    hide DecodeIn, HasCode, Reaches, Part1, Part2, DptrTo, MainExit, MainCode;
    MainParts(s.xram, base, n, tbl);
    CompareOp(n);
    Part2Ops();
    ReachesSelf(rom, s);
    t := DoSubbA(rom, s, s, base + 24, [0x94, n], 0, n);
    t := DoJnc(rom, s, t, base + 26, Part2(), 0, 0x0a);
  }

  /** The jump into the table. Only the low byte of the product reaches the accumulator. */
  lemma Jumps6(rom: Rom, s: Cpu, base: nat, n: nat, tbl: nat) returns (t: Cpu)
    requires Valid(s) && HasCode(s.xram, base, MainCode(n, tbl)) && s.pc == base + 28 && base + 55 < 0x1_0000
    requires tbl < 0x1_0000 && s.tgl == 0
    ensures Reaches(rom, s, t) && Valid(t)
    ensures t == s.(pc := (s.iram[PARAM] * 6 % 256 + tbl) % 0x1_0000, acc := t.acc, b := t.b, dptr0 := tbl, psw := t.psw)
    ensures t.psw.rs == s.psw.rs
  {
    hide DecodeIn, HasCode, Reaches, Part1, Part2, DptrTo, MainExit, MainCode;
    MainParts(s.xram, base, n, tbl);
    Part2Ops();
    CompareOp(n);
    LinkOps(tbl);
    ReachesSelf(rom, s);
    t := DoMovADirect(rom, s, s, base + 26, Part2(), 2, PARAM);
    t := DoMovB(rom, s, t, base + 26, Part2(), 4, 6);
    t := DoMulAB(rom, s, t, base + 26, Part2(), 7);
    t := DoMovDptr0(rom, s, t, base + 34, DptrTo(tbl), 0, tbl);
    t := DoJmpADptr(rom, s, t, base + 37, [0x73], 0);
  }

  /** The whole dispatch: a value below the count ends in the table, at six times the value modulo
      256; any other at the exit. */
  lemma Dispatches(rom: Rom, s: Cpu, base: nat, n: nat, tbl: nat) returns (t: Cpu)
    requires Valid(s) && HasCode(s.xram, base, MainCode(n, tbl)) && s.pc == base && base + 55 < 0x1_0000
    requires n < 256 && tbl < 0x1_0000 && s.sp + 8 <= 255 && !(s.sp < PARAM <= s.sp + 8)
    ensures Reaches(rom, s, t) && Valid(t)
    ensures var v := s.iram[PARAM];
            t == s.(pc := if v < n then (v * 6 % 256 + tbl) % 0x1_0000 else base + 38, sp := s.sp + 8, acc := t.acc,
                    b := t.b, dptr0 := t.dptr0, tgl := 0, psw := t.psw, iram := t.iram) && t.psw.rs == 3
    ensures Saved(s, t.iram) && forall i :: 0 <= i < 256 && !(s.sp < i <= s.sp + 8) ==> t.iram[i] == s.iram[i]
  {
    hide DecodeIn, HasCode, Reaches, Part1, Part2, DptrTo, MainExit, MainCode, PswByte, Parity, FlagsOf;
    MainParts(s.xram, base, n, tbl);
    var u := Saves(rom, s, base);
    t := Compares(rom, u, base, n, tbl);
    ReachesTrans(rom, s, u, t);
    if u.acc < n {
      var w := Jumps6(rom, t, base, n, tbl);
      ReachesTrans(rom, s, t, w);
      t := w;
    }
  }

  /** The product reaches the value's own slot exactly for the values up to 42. */
  lemma SlotReached(v: nat, tbl: nat)
    requires v < 256 && tbl + 6 * 255 < 0x1_0000
    ensures (v * 6 % 256 + tbl) % 0x1_0000 == tbl + 6 * v <==> v <= 42
  {
  }

  lemma PopFlags(rom: Rom, s: Cpu, t: Cpu, base: nat) returns (u: Cpu)
    requires Saved(s, t.iram) && Valid(t) && HasCode(t.xram, base, MainExit()) && t.pc == base && base + 17 < 0x1_0000
    requires t.sp == s.sp + 8
    ensures Reaches(rom, t, u) && Valid(u)
    ensures u == t.(pc := base + 4, sp := s.sp + 6, psw := s.psw, tgl := s.tgl)
  {
    hide DecodeIn, HasCode, Reaches, MainExit, FlagsOf, PswByte, Parity;
    MainExitOps();
    ReachesSelf(rom, t);
    ParityBit(s.acc);
    FlagsBack(s.psw, Parity(s.acc));
    u := DoPop(rom, t, t, base, MainExit(), 0, 0xd0);
    u := DoPop(rom, t, u, base, MainExit(), 2, 0x86);
  }

  lemma TwoBytes(x: nat, d: nat)
    ensures d / 256 * 256 + (x / 256 * 256 + d % 256) % 256 == d
  {
  }

  lemma DptrWrites(s: Cpu, v: nat)
    requires Valid(s) && v < 256
    ensures DirectWrite(s, 0x82, v) == s.(dptr0 := s.dptr0 / 256 * 256 + v)
    ensures DirectWrite(s, 0x83, v) == s.(dptr0 := v * 256 + s.dptr0 % 256)
    ensures DirectWrite(s, 0x84, v) == s.(dptr1 := s.dptr1 / 256 * 256 + v)
    ensures DirectWrite(s, 0x85, v) == s.(dptr1 := v * 256 + s.dptr1 % 256)
  {
  }

  lemma PopDptr1(rom: Rom, s: Cpu, t: Cpu, base: nat) returns (u: Cpu)
    requires Saved(s, t.iram) && Valid(t) && HasCode(t.xram, base, MainExit()) && t.pc == base + 4 && base + 17 < 0x1_0000
    requires t.sp == s.sp + 6
    ensures Reaches(rom, t, u) && Valid(u)
    ensures u == t.(pc := base + 8, sp := s.sp + 4, dptr1 := s.dptr1)
  {
    hide DecodeIn, HasCode, Reaches, MainExit, FlagsOf, PswByte, Parity;
    MainExitOps();
    ReachesSelf(rom, t);
    hide DirectWrite;
    TwoBytes(t.dptr1, s.dptr1);
    u := DoPop(rom, t, t, base, MainExit(), 4, 0x84);
    DptrWrites(t.(pc := base + 6), s.dptr1 % 256);
    DptrWrites(u.(pc := base + 8), s.dptr1 / 256);
    u := DoPop(rom, t, u, base, MainExit(), 6, 0x85);
  }

  lemma PopDptr0(rom: Rom, s: Cpu, t: Cpu, base: nat) returns (u: Cpu)
    requires Saved(s, t.iram) && Valid(t) && HasCode(t.xram, base, MainExit()) && t.pc == base + 8 && base + 17 < 0x1_0000
    requires t.sp == s.sp + 4
    ensures Reaches(rom, t, u) && Valid(u)
    ensures u == t.(pc := base + 12, sp := s.sp + 2, dptr0 := s.dptr0)
  {
    hide DecodeIn, HasCode, Reaches, MainExit, FlagsOf, PswByte, Parity;
    MainExitOps();
    ReachesSelf(rom, t);
    hide DirectWrite;
    TwoBytes(t.dptr0, s.dptr0);
    u := DoPop(rom, t, t, base, MainExit(), 8, 0x82);
    DptrWrites(t.(pc := base + 10), s.dptr0 % 256);
    DptrWrites(u.(pc := base + 12), s.dptr0 / 256);
    u := DoPop(rom, t, u, base, MainExit(), 10, 0x83);
  }

  lemma PopAccumulators(rom: Rom, s: Cpu, t: Cpu, base: nat) returns (u: Cpu)
    requires Saved(s, t.iram) && Valid(t) && HasCode(t.xram, base, MainExit()) && t.pc == base + 12 && base + 17 < 0x1_0000
    requires t.sp == s.sp + 2 && 2 <= s.sp
    ensures Reaches(rom, t, u) && Valid(u)
    ensures u == t.(pc := t.iram[s.sp] * 256 + t.iram[s.sp - 1], sp := s.sp - 2, b := s.b, acc := s.acc)
  {
    hide DecodeIn, HasCode, Reaches, MainExit, FlagsOf, PswByte, Parity;
    MainExitOps();
    ReachesSelf(rom, t);
    u := DoPop(rom, t, t, base, MainExit(), 12, 0xf0);
    u := DoPop(rom, t, u, base, MainExit(), 14, 0xe0);
    u := DoRet(rom, t, u, base, MainExit(), 16);
  }

  /** From the exit on, everything saved is restored and the routine returns. */
  lemma Restores(rom: Rom, s: Cpu, t: Cpu, base: nat) returns (u: Cpu)
    requires Saved(s, t.iram) && Valid(t) && HasCode(t.xram, base, MainExit()) && t.pc == base && base + 17 < 0x1_0000
    requires t.sp == s.sp + 8 && 2 <= s.sp && t.iram[s.sp] == s.iram[s.sp] && t.iram[s.sp - 1] == s.iram[s.sp - 1]
    ensures Reaches(rom, t, u) && Valid(u)
    ensures u == t.(pc := RetAddr(s), sp := s.sp - 2, psw := s.psw, tgl := s.tgl, dptr0 := s.dptr0, dptr1 := s.dptr1,
                    b := s.b, acc := s.acc)
  {
    hide DecodeIn, HasCode, Reaches, MainExit, FlagsOf, PswByte, Parity;
    var v := PopFlags(rom, s, t, base);
    var w := PopDptr1(rom, s, v, base);
    var x := PopDptr0(rom, s, w, base);
    u := PopAccumulators(rom, s, x, base);
    ReachesTrans(rom, t, v, w);
    ReachesTrans(rom, t, w, x);
    ReachesTrans(rom, t, x, u);
  }
}
