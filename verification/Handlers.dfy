/** The three handlers, from call to return. */
module Handlers {
  import opened CopyLoops
  import opened DumpRoutines
  import opened Exram
  import opened Linking
  import opened Mcs51
  import opened Payload
  import opened Routines

  /** The generic functions are in place. */
  predicate FunctionsLoaded(xram: seq<nat>) {
    HasCode(xram, 0xf100, Func0()) && HasCode(xram, 0xf124, Func1()) && HasCode(xram, 0xf148, Func2()) &&
    HasCode(xram, 0xf161, Func3())
  }

  /** No write hit the area of the code, the signal byte aside. */
  predicate CodeAreaKept(m: seq<nat>, n: seq<nat>) {
    |m| == |n| == 0x1_0000 && forall p :: 0xf100 <= p < 0xf400 && p != 0xf1ff ==> n[p] == m[p]
  }

  lemma CodeCarried(m: seq<nat>, n: seq<nat>, base: nat, bytes: seq<nat>)
    requires CodeAreaKept(m, n) && HasCode(m, base, bytes) && 0xf100 <= base && base + |bytes| <= 0xf400
    requires base + |bytes| <= 0xf1ff || 0xf1ff < base
    ensures HasCode(n, base, bytes)
  {
    forall i | 0 <= i < |bytes|
      ensures n[base..base + |bytes|][i] == bytes[i]
    {
      assert m[base..base + |bytes|][i] == bytes[i];
      assert n[base + i] == m[base + i];
    }
  }

  lemma FunctionsCarried(m: seq<nat>, n: seq<nat>)
    requires CodeAreaKept(m, n) && FunctionsLoaded(m)
    ensures FunctionsLoaded(n)
  {
    hide CodeAreaKept, HasCode, Func0, Func1, Func2, Func3;
    CodeCarried(m, n, 0xf100, Func0());
    CodeCarried(m, n, 0xf124, Func1());
    CodeCarried(m, n, 0xf148, Func2());
    CodeCarried(m, n, 0xf161, Func3());
  }

  lemma LowWritesKeepCode(m: seq<nat>, d: nat, bytes: seq<nat>)
    requires |m| == 0x1_0000 && d + |bytes| <= 0xf100
    ensures CodeAreaKept(m, Written(m, d, bytes))
  {
    hide Written;
    forall p | 0xf100 <= p < 0xf400
      ensures Written(m, d, bytes)[p] == m[p]
    {
      WrittenElsewhere(m, d, bytes, p);
    }
  }

  /** Internal memory but for a piece of the stack and the two registers the routines use. */
  predicate IramKept(m: seq<nat>, n: seq<nat>, lo: nat, hi: nat) {
    |m| == |n| == 256 && forall i :: 0 <= i < 256 && !(lo <= i <= hi) && i != 0x18 && i != 0x19 ==> n[i] == m[i]
  }

  /** A call of a routine. */
  lemma Calls(rom: Rom, s: Cpu, t: Cpu, at: nat, a: nat) returns (u: Cpu)
    requires Reaches(rom, s, t) && Valid(t) && HasCode(t.xram, at, CallTo(a)) && t.pc == at && at + 3 < 0x1_0000
    requires a < 0x1_0000 && t.sp < 254
    ensures Valid(u) && Reaches(rom, s, u)
    ensures u == t.(pc := a, sp := t.sp + 2, iram := t.iram[t.sp + 1 := (at + 3) % 256][t.sp + 2 := (at + 3) / 256])
    ensures RetAddr(u) == at + 3
  {
    hide DecodeIn, CallTo, HasCode, Reaches;
    LinkOps(a);
    u := DoLcall(rom, s, t, at, CallTo(a), 0, a);
  }

  /** A return instruction alone. */
  lemma Returns(rom: Rom, s: Cpu, t: Cpu, at: nat) returns (u: Cpu)
    requires Reaches(rom, s, t) && Valid(t) && HasCode(t.xram, at, [0x22]) && t.pc == at && at + 1 < 0x1_0000 && t.sp >= 2
    ensures Valid(u) && Reaches(rom, s, u)
    ensures u == t.(pc := RetAddr(t), sp := t.sp - 2)
  {
    hide HasCode, Reaches;
    u := DoRet(rom, s, t, at, [0x22], 0);
  }

  /** What all handlers end with: the signal byte is set, and the handler returns. */
  lemma SignalAndReturn(rom: Rom, s: Cpu, t: Cpu, at: nat) returns (u: Cpu)
    requires Reaches(rom, s, t) && Valid(t) && t.pc == at && 0xf200 <= at && at + 4 < 0xf400
    requires HasCode(t.xram, at, CallTo(0xf161) + [0x22]) && HasCode(t.xram, 0xf161, Func3())
    requires t.tgl == 0 && 2 <= t.sp < 254
    ensures Valid(u) && Reaches(rom, s, u)
    ensures u == t.(pc := RetAddr(t), sp := t.sp - 2, acc := 0xff, dptr0 := 0xf1ff, iram := u.iram,
                    xram := t.xram[0xf1ff := 0xff])
    ensures IramKept(t.iram, u.iram, t.sp + 1, t.sp + 2)
  {
    hide HasCode, Reaches, CallTo, Func3;
    HasParts(t.xram, at, CallTo(0xf161), [0x22]);
    var c := Calls(rom, s, t, at, 0xf161);
    var d := SignalRuns(rom, c, 0xf161);
    ReachesTrans(rom, s, c, d);
    CodeKept(t.xram, at + 3, [0x22], 0xf1ff, 0xff);
    u := Returns(rom, s, d, at + 3);
  }

  /* ---------- Program memory ---------- */

  function BankEntry(bank: nat): (r: seq<nat>)
    ensures |r| == 5
  {
    [0xc0, 0xfa, 0x75, 0xfa, bank]
  }

  lemma BankOps(bank: nat)
    ensures DecodeIn(BankEntry(bank), 0) == Decoded(Push(0xfa), 2) && DecodeIn(BankEntry(bank), 2) == Decoded(MovDirect(0xfa, bank), 3)
    ensures DecodeIn(Exit0(), 0) == Decoded(Pop(0xfa), 2)
  {
  }

  /** A program memory handler as linked. */
  function PmemCode(bank: nat): (r: seq<nat>)
    ensures |r| == 14
  {
    BankEntry(bank) + CallTo(0xf100) + Exit0() + (CallTo(0xf161) + [0x22])
  }

  lemma PmemParts(xram: seq<nat>, base: nat, bank: nat)
    requires HasCode(xram, base, PmemCode(bank))
    ensures HasCode(xram, base, BankEntry(bank)) && HasCode(xram, base + 5, CallTo(0xf100))
    ensures HasCode(xram, base + 8, Exit0()) && HasCode(xram, base + 10, CallTo(0xf161) + [0x22])
  {
    hide BankEntry, CallTo, Exit0, HasCode;
    HasParts(xram, base, BankEntry(bank) + CallTo(0xf100) + Exit0(), CallTo(0xf161) + [0x22]);
    HasParts(xram, base, BankEntry(bank) + CallTo(0xf100), Exit0());
    HasParts(xram, base, BankEntry(bank), CallTo(0xf100));
  }

  /** The contents of a code bank. */
  function BankBytes(rom: Rom, bank: nat): (r: seq<nat>)
    ensures |r| == 0x6000
  {
    seq(0x6000, i requires 0 <= i < 0x6000 => rom(bank, 0x8000 + i) % 256)
  }

  lemma PmemSource(rom: Rom, s: Cpu)
    requires Valid(s)
    ensures SourceBytes(rom, s, 0x93, 0x8000, 0x6000) == BankBytes(rom, s.bank)
  {
    var a, b := SourceBytes(rom, s, 0x93, 0x8000, 0x6000), BankBytes(rom, s.bank);
    forall i | 0 <= i < 0x6000
      ensures a[i] == b[i]
    {
      assert Addr(0x8000, i) == 0x8000 + i;
    }
  }

  lemma PlainAddr(a: nat, i: nat)
    requires a + i < 0x1_0000
    ensures Addr(a, i) == a + i
  {
  }

  lemma PlainlyApart(read: nat, src: nat, dst: nat, n: nat, base: nat)
    requires src + n <= 0x1_0000 && dst + n <= base && base + 36 <= 0x1_0000 && (dst + n <= src || src + n <= dst)
    ensures Apart(read, src, dst, n) && ClearOf(dst, n, base, 36)
  {
    hide Addr;
    forall i | 0 <= i < n
      ensures Addr(src, i) == src + i && Addr(dst, i) == dst + i
    {
      PlainAddr(src, i);
      PlainAddr(dst, i);
    }
  }

  /** The copies of the two routines touch neither their sources nor their code. */
  lemma CopiesApart()
    ensures Apart(0x93, 0x8000, 0x2000, 0x6000) && ClearOf(0x2000, 256 * Rounds(0x60), 0xf100, 36)
    ensures Apart(0xe0, 0x0000, 0x2000, 0x2000) && ClearOf(0x2000, 256 * Rounds(0x20), 0xf124, 36)
    ensures 256 * Rounds(0x60) == 0x6000 && 256 * Rounds(0x20) == 0x2000
  {
    hide Apart, ClearOf;
    PlainlyApart(0x93, 0x8000, 0x2000, 0x6000, 0xf100);
    PlainlyApart(0xe0, 0x0000, 0x2000, 0x2000, 0xf124);
  }

  /** Selecting a bank, and the call. */
  lemma PmemEnters(rom: Rom, s: Cpu, base: nat, bank: nat) returns (t: Cpu)
    requires Valid(s) && HasCode(s.xram, base, PmemCode(bank)) && s.pc == base && base + 14 < 0x1_0000
    requires bank < 256 && s.sp < 252
    ensures Reaches(rom, s, t) && Valid(t) && RetAddr(t) == base + 8
    ensures t == s.(pc := 0xf100, sp := s.sp + 3, bank := bank,
                    iram := s.iram[s.sp + 1 := s.bank][s.sp + 2 := (base + 8) % 256][s.sp + 3 := (base + 8) / 256])
  {
    hide DecodeIn, BankEntry, CallTo, Exit0, PmemCode, HasCode, Reaches;
    PmemParts(s.xram, base, bank);
    BankOps(bank);
    ReachesSelf(rom, s);
    t := DoPush(rom, s, s, base, BankEntry(bank), 0, 0xfa);
    t := DoMovBank(rom, s, t, base, BankEntry(bank), 2, bank);
    t := Calls(rom, s, t, base + 5, 0xf100);
  }

  /** The first two handlers: 0x2000 on receives the selected bank's code memory from 0x8000 on,
      the bank is selected no more, the signal byte is set. */
  lemma PmemHandler(rom: Rom, s: Cpu, base: nat, bank: nat) returns (t: Cpu)
    requires Valid(s) && HasCode(s.xram, base, PmemCode(bank)) && FunctionsLoaded(s.xram) && s.pc == base
    requires 0xf200 <= base && base + 14 < 0xf300 && bank < 256 && s.tgl == 0 && s.psw.rs == 3 && StackFree(s.sp, 4)
    ensures Reaches(rom, s, t) && Valid(t)
    ensures t == s.(pc := RetAddr(s), sp := s.sp - 2, acc := 0xff, dptr0 := 0xf1ff, dptr1 := t.dptr1,
                    iram := t.iram, xram := Written(s.xram, 0x2000, BankBytes(rom, bank))[0xf1ff := 0xff])
    ensures IramKept(s.iram, t.iram, s.sp + 1, s.sp + 4)
  {
    hide DecodeIn, BankEntry, CallTo, Exit0, PmemCode, HasCode, Reaches, Written, BankBytes, Apart, ClearOf, Forward, Func3, Rounds, CopyCode;
    hide Func1, Func2, SourceBytes, CodeAreaKept, CopyHead, CopyLoop, CopyTail;
    var u := PmemEnters(rom, s, base, bank);
    CopiesApart();
    var v := CopyRoutine(rom, u, 0xf100, 0x80, 0x00, 0x60, 0x93);
    ReachesTrans(rom, s, u, v);
    ForwardIsCopy(rom, u, 0x93, 0x8000, 0x2000, 0x6000);
    PmemSource(rom, u);
    LowWritesKeepCode(s.xram, 0x2000, BankBytes(rom, bank));
    CodeCarried(s.xram, v.xram, base, PmemCode(bank));
    PmemParts(v.xram, base, bank);
    BankOps(bank);
    var w := DoPop(rom, s, v, base + 8, Exit0(), 0, 0xfa);
    FunctionsCarried(s.xram, v.xram);
    t := SignalAndReturn(rom, s, w, base + 10);
  }

  /* ---------- Memory and registers ---------- */

  /** Code that copies these registers, each to the next address. */
  function SfrsCode(ds: seq<nat>): (r: seq<nat>)
    requires |ds| > 0
    ensures |r| == 4 * |ds| - 1
    decreases |ds|
  {
    if |ds| == 1 then [0xe5, ds[0], 0xf0] else [0xe5, ds[0], 0xf0, 0xa3] + SfrsCode(ds[1..])
  }

  /** The registers saved this way; the others are on the stack. */
  function DumpedSfrs(): (r: seq<nat>)
    ensures |r| == 8
  {
    [0x80, 0x81, 0x90, 0xa0, 0xa8, 0xb0, 0xb8, 0xfa]
  }

  lemma LastSfrs()
    ensures SfrsCode([0xa8, 0xb0, 0xb8, 0xfa]) ==
            [0xe5, 0xa8, 0xf0, 0xa3, 0xe5, 0xb0, 0xf0, 0xa3, 0xe5, 0xb8, 0xf0, 0xa3, 0xe5, 0xfa, 0xf0]
  {
    assert SfrsCode([0xfa]) == [0xe5, 0xfa, 0xf0];
    assert SfrsCode([0xb8, 0xfa]) == [0xe5, 0xb8, 0xf0, 0xa3] + SfrsCode([0xfa]);
    assert SfrsCode([0xb0, 0xb8, 0xfa]) == [0xe5, 0xb0, 0xf0, 0xa3] + SfrsCode([0xb8, 0xfa]);
    assert SfrsCode([0xa8, 0xb0, 0xb8, 0xfa]) == [0xe5, 0xa8, 0xf0, 0xa3] + SfrsCode([0xb0, 0xb8, 0xfa]);
  }

  lemma SfrsCons(d: nat, ds: seq<nat>)
    requires ds != []
    ensures SfrsCode([d] + ds) == [0xe5, d, 0xf0, 0xa3] + SfrsCode(ds)
  {
    assert ([d] + ds)[1..] == ds;
  }

  lemma SixSfrs()
    ensures SfrsCode([0x90, 0xa0, 0xa8, 0xb0, 0xb8, 0xfa]) ==
            [0xe5, 0x90, 0xf0, 0xa3, 0xe5, 0xa0, 0xf0, 0xa3, 0xe5, 0xa8, 0xf0, 0xa3,
             0xe5, 0xb0, 0xf0, 0xa3, 0xe5, 0xb8, 0xf0, 0xa3, 0xe5, 0xfa, 0xf0]
  {
    hide SfrsCode;
    LastSfrs();
    var last := [0xa8, 0xb0, 0xb8, 0xfa];
    var five := [0xa0] + last;
    assert [0x90, 0xa0, 0xa8, 0xb0, 0xb8, 0xfa] == [0x90] + five;
    SfrsCons(0xa0, last);
    SfrsCons(0x90, five);
  }

  lemma AllSfrs()
    ensures SfrsCode(DumpedSfrs()) ==
            [0xe5, 0x80, 0xf0, 0xa3, 0xe5, 0x81, 0xf0, 0xa3] + SfrsCode([0x90, 0xa0, 0xa8, 0xb0, 0xb8, 0xfa])
  {
    hide SfrsCode;
    var six := [0x90, 0xa0, 0xa8, 0xb0, 0xb8, 0xfa];
    var seven := [0x81] + six;
    assert DumpedSfrs() == [0x80] + seven;
    SfrsCons(0x81, six);
    SfrsCons(0x80, seven);
    var rest := SfrsCode(six);
    assert [0xe5, 0x80, 0xf0, 0xa3] + ([0xe5, 0x81, 0xf0, 0xa3] + rest) ==
           [0xe5, 0x80, 0xf0, 0xa3, 0xe5, 0x81, 0xf0, 0xa3] + rest;
  }

  lemma Exit2Is()
    ensures Exit2() == DptrTo(0x4100) + SfrsCode(DumpedSfrs())
  {
    hide SfrsCode, DumpedSfrs;
    AllSfrs();
    SixSfrs();
    assert DptrTo(0x4100) == [0x90, 0x41, 0x00];
  }

  /** Copying does not disturb these. */
  predicate Quiet(d: nat) { 0x80 <= d < 256 && d != 0x82 && d != 0x83 && d != 0xd0 && d != 0xe0 }

  predicate AllQuiet(ds: seq<nat>) { forall d :: d in ds ==> Quiet(d) }

  function SfrValues(s: Cpu, ds: seq<nat>): (r: seq<nat>)
    requires Valid(s) && AllQuiet(ds)
    ensures |r| == |ds|
  {
    seq(|ds|, i requires 0 <= i < |ds| && ds[i] in ds => DirectRead(s, ds[i]))
  }

  lemma SfrOps(d: nat)
    ensures DecodeIn([0xe5, d, 0xf0], 0) == Decoded(MovADirect(d), 2) && DecodeIn([0xe5, d, 0xf0], 2) == Decoded(MovxWrite, 1)
    ensures DecodeIn([0xa3], 0) == Decoded(IncDptr, 1)
  {
  }

  lemma OneSfr(rom: Rom, s: Cpu, base: nat, d: nat) returns (t: Cpu)
    requires Valid(s) && HasCode(s.xram, base, [0xe5, d, 0xf0]) && s.pc == base && base + 3 < 0x1_0000
    requires s.tgl == 0 && Quiet(d) && s.dptr0 < base
    ensures Reaches(rom, s, t) && Valid(t)
    ensures t == s.(pc := base + 3, acc := DirectRead(s, d), xram := Written(s.xram, s.dptr0, [DirectRead(s, d)]))
  {
    hide DecodeIn, HasCode, Reaches, DirectRead;
    SfrOps(d);
    ReachesSelf(rom, s);
    t := DoMovADirect(rom, s, s, base, [0xe5, d, 0xf0], 0, d);
    t := DoMovxWrite(rom, s, t, base, [0xe5, d, 0xf0], 2);
    NothingWritten(s.xram, s.dptr0);
    WrittenOneMore(s.xram, s.dptr0, [], DirectRead(s, d));
    assert [] + [DirectRead(s, d)] == [DirectRead(s, d)];
    AddrZero(s.dptr0);
  }

  lemma QuietKept(s: Cpu, t: Cpu, d: nat)
    requires Valid(s) && Valid(t) && Quiet(d) && t == s.(pc := t.pc, acc := t.acc, dptr0 := t.dptr0, xram := t.xram)
    ensures DirectRead(t, d) == DirectRead(s, d)
  {
  }

  lemma CodeBelowTop(xram: seq<nat>, base: nat, code: seq<nat>)
    requires HasCode(xram, base, code)
    ensures base < 0x1_0000 || code == []
  {
  }

  lemma SingleSfr(s: Cpu, ds: seq<nat>)
    requires Valid(s) && |ds| == 1 && Quiet(ds[0])
    ensures SfrValues(s, ds) == [DirectRead(s, ds[0])]
  {
  }

  lemma LowCodeKept(xram: seq<nat>, d: nat, byte: nat, base: nat, code: seq<nat>)
    requires HasCode(xram, base, code) && d < base
    ensures HasCode(Written(xram, d, [byte]), base, code)
  {
    hide HasCode, Written;
    CodeBelowTop(xram, base, code);
    forall i | 0 <= i < 1
      ensures !(base <= Addr(d, i) < base + |code|)
    {
      assert code != [] ==> Addr(d, i) == d;
    }
    CodeKeptWritten(xram, base, code, d, [byte]);
  }

  lemma FirstSfr(s: Cpu, u: Cpu, ds: seq<nat>)
    requires Valid(s) && Valid(u) && |ds| > 1 && AllQuiet(ds) && ds[0] in ds
    requires u == s.(pc := u.pc, acc := u.acc, dptr0 := u.dptr0, xram := u.xram)
    ensures SfrValues(s, ds) == [DirectRead(s, ds[0])] + SfrValues(u, ds[1..])
  {
    hide DirectRead;
    forall i | 1 <= i < |ds|
      ensures ds[i] in ds && Quiet(ds[i]) && DirectRead(u, ds[i]) == DirectRead(s, ds[i])
    {
      QuietKept(s, u, ds[i]);
    }
  }

  /** The registers arrive in a row. */
  lemma {:induction false} SfrsRun(rom: Rom, s: Cpu, base: nat, ds: seq<nat>) returns (t: Cpu)
    requires |ds| > 0 && AllQuiet(ds)
    requires Valid(s) && HasCode(s.xram, base, SfrsCode(ds)) && s.pc == base && base + 4 * |ds| < 0x1_0000
    requires s.tgl == 0 && s.dptr0 + |ds| <= base
    ensures Reaches(rom, s, t) && Valid(t)
    ensures t == s.(pc := base + 4 * |ds| - 1, acc := t.acc, dptr0 := t.dptr0,
                    xram := Written(s.xram, s.dptr0, SfrValues(s, ds)))
    decreases |ds|, 1
  {
    hide DecodeIn, HasCode, Reaches, DirectRead, Written, SfrValues, Addr;
    if |ds| == 1 {
      t := OneSfr(rom, s, base, ds[0]);
      assert SfrValues(s, ds) == [DirectRead(s, ds[0])] by { SingleSfr(s, ds); }
    } else {
      t := SfrsRunMore(rom, s, base, ds);
    }
  }

  lemma SfrThenNext(rom: Rom, s: Cpu, base: nat, d: nat) returns (t: Cpu)
    requires Valid(s) && HasCode(s.xram, base, [0xe5, d, 0xf0, 0xa3]) && s.pc == base && base + 4 < 0x1_0000
    requires s.tgl == 0 && Quiet(d) && s.dptr0 < base
    ensures Reaches(rom, s, t) && Valid(t)
    ensures t == s.(pc := base + 4, acc := DirectRead(s, d), dptr0 := s.dptr0 + 1,
                    xram := Written(s.xram, s.dptr0, [DirectRead(s, d)]))
  {
    hide DecodeIn, HasCode, Reaches, DirectRead, Written;
    assert [0xe5, d, 0xf0, 0xa3] == [0xe5, d, 0xf0] + [0xa3];
    HasParts(s.xram, base, [0xe5, d, 0xf0], [0xa3]);
    t := OneSfr(rom, s, base, d);
    LowCodeKept(s.xram, s.dptr0, DirectRead(s, d), base + 3, [0xa3]);
    SfrOps(d);
    t := DoIncDptr0(rom, s, t, base + 3, [0xa3], 0);
  }

  lemma {:induction false} SfrsRunMore(rom: Rom, s: Cpu, base: nat, ds: seq<nat>) returns (t: Cpu)
    requires |ds| > 1 && AllQuiet(ds)
    requires Valid(s) && HasCode(s.xram, base, SfrsCode(ds)) && s.pc == base && base + 4 * |ds| < 0x1_0000
    requires s.tgl == 0 && s.dptr0 + |ds| <= base
    ensures Reaches(rom, s, t) && Valid(t)
    ensures t == s.(pc := base + 4 * |ds| - 1, acc := t.acc, dptr0 := t.dptr0,
                    xram := Written(s.xram, s.dptr0, SfrValues(s, ds)))
    decreases |ds|, 0
  {
    hide DecodeIn, HasCode, Reaches, DirectRead, Written, SfrValues;
    HasParts(s.xram, base, [0xe5, ds[0], 0xf0, 0xa3], SfrsCode(ds[1..]));
    var u := SfrThenNext(rom, s, base, ds[0]);
    LowCodeKept(s.xram, s.dptr0, DirectRead(s, ds[0]), base + 4, SfrsCode(ds[1..]));
    t := SfrsRun(rom, u, base + 4, ds[1..]);
    ReachesTrans(rom, s, u, t);
    FirstSfr(s, u, ds);
    WrittenJoin(s.xram, s.dptr0, [DirectRead(s, ds[0])], SfrValues(u, ds[1..]));
  }

  /** The third handler as linked. */
  function RamCode(): (r: seq<nat>)
    ensures |r| == 44
  {
    CallTo(0xf124) + CallTo(0xf148) + Exit2() + (CallTo(0xf161) + [0x22])
  }

  lemma RamParts(xram: seq<nat>, base: nat)
    requires HasCode(xram, base, RamCode())
    ensures HasCode(xram, base, CallTo(0xf124)) && HasCode(xram, base + 3, CallTo(0xf148))
    ensures HasCode(xram, base + 6, DptrTo(0x4100)) && HasCode(xram, base + 9, SfrsCode(DumpedSfrs()))
    ensures HasCode(xram, base + 40, CallTo(0xf161) + [0x22])
  {
    hide CallTo, Exit2, HasCode, SfrsCode, DumpedSfrs, DptrTo;
    Exit2Is();
    HasParts(xram, base, CallTo(0xf124) + CallTo(0xf148) + Exit2(), CallTo(0xf161) + [0x22]);
    HasParts(xram, base, CallTo(0xf124) + CallTo(0xf148), Exit2());
    HasParts(xram, base, CallTo(0xf124), CallTo(0xf148));
    HasParts(xram, base + 6, DptrTo(0x4100), SfrsCode(DumpedSfrs()));
  }

  /** The call that copies external memory. */
  lemma XramCopied(rom: Rom, s: Cpu, base: nat) returns (t: Cpu)
    requires Valid(s) && HasCode(s.xram, base, RamCode()) && FunctionsLoaded(s.xram) && s.pc == base
    requires 0xf200 <= base && base + 44 < 0xf300 && s.tgl == 0 && s.psw.rs == 3 && StackFree(s.sp, 3)
    ensures Reaches(rom, s, t) && Valid(t)
    ensures t == s.(pc := base + 3, acc := t.acc, dptr0 := t.dptr0, dptr1 := t.dptr1,
                    iram := t.iram, xram := Written(s.xram, 0x2000, s.xram[..0x2000]))
    ensures IramKept(s.iram, t.iram, s.sp + 1, s.sp + 3)
    ensures HasCode(t.xram, base, RamCode()) && FunctionsLoaded(t.xram)
  {
    hide DecodeIn, CallTo, RamCode, HasCode, Reaches, Written, Apart, ClearOf, Forward, Func3, Rounds, CopyCode;
    hide Func0, Func2, SourceBytes, CodeAreaKept;
    RamParts(s.xram, base);
    ReachesSelf(rom, s);
    var u := Calls(rom, s, s, base, 0xf124);
    CopiesApart();
    t := CopyRoutine(rom, u, 0xf124, 0x00, 0x00, 0x20, 0xe0);
    ReachesTrans(rom, s, u, t);
    ForwardIsCopy(rom, u, 0xe0, 0x0000, 0x2000, 0x2000);
    LowSource(rom, u);
    LowWritesKeepCode(s.xram, 0x2000, s.xram[..0x2000]);
    CodeCarried(s.xram, t.xram, base, RamCode());
    FunctionsCarried(s.xram, t.xram);
  }

  lemma LowSource(rom: Rom, s: Cpu)
    requires Valid(s)
    ensures SourceBytes(rom, s, 0xe0, 0x0000, 0x2000) == s.xram[..0x2000]
  {
    forall i | 0 <= i < 0x2000
      ensures SourceBytes(rom, s, 0xe0, 0x0000, 0x2000)[i] == s.xram[i]
    {
      assert Addr(0x0000, i) == i;
    }
  }

  /** The call that copies internal memory. */
  lemma IramCopied(rom: Rom, s: Cpu, base: nat) returns (t: Cpu, image: seq<nat>)
    requires Valid(s) && HasCode(s.xram, base, RamCode()) && FunctionsLoaded(s.xram) && s.pc == base + 3
    requires 0xf200 <= base && base + 44 < 0xf300 && s.tgl == 0 && s.psw.rs == 3 && StackFree(s.sp, 3)
    ensures Reaches(rom, s, t) && Valid(t)
    ensures t == s.(pc := base + 6, acc := t.acc, dptr0 := t.dptr0, iram := t.iram, xram := Written(s.xram, 0x4000, image))
    ensures IramKept(s.iram, image, s.sp + 1, s.sp + 3) && image[0x18] == 0xe8 && image[0x19] == 0x19
    ensures IramKept(s.iram, t.iram, s.sp + 1, s.sp + 3)
    ensures HasCode(t.xram, base, RamCode()) && FunctionsLoaded(t.xram)
  {
    hide DecodeIn, CallTo, RamCode, HasCode, Reaches, Written, Func3, Func0, Func1, Func2, CodeAreaKept;
    RamParts(s.xram, base);
    ReachesSelf(rom, s);
    var u := Calls(rom, s, s, base + 3, 0xf148);
    t := IramRoutine(rom, u, 0xf148);
    ReachesTrans(rom, s, u, t);
    image := Image(u.iram[u.sp + 1 := u.ie], 256);
    LowWritesKeepCode(s.xram, 0x4000, image);
    CodeCarried(s.xram, t.xram, base, RamCode());
    FunctionsCarried(s.xram, t.xram);
  }

  /** None of the eight registers depends on what the routines change. */
  lemma SfrsOfHandler(s: Cpu, v: Cpu)
    requires Valid(s) && Valid(v)
    requires v == s.(pc := v.pc, acc := v.acc, dptr0 := v.dptr0, dptr1 := v.dptr1, iram := v.iram, xram := v.xram)
    ensures SfrValues(v, DumpedSfrs()) == SfrValues(s, DumpedSfrs())
  {
  }

  /** The registers' turn. */
  lemma SfrsCopied(rom: Rom, s: Cpu, base: nat) returns (t: Cpu)
    requires Valid(s) && HasCode(s.xram, base, RamCode()) && s.pc == base + 6
    requires 0xf200 <= base && base + 44 < 0xf300 && s.tgl == 0
    ensures Reaches(rom, s, t) && Valid(t)
    ensures t == s.(pc := base + 40, acc := t.acc, dptr0 := t.dptr0,
                    xram := Written(s.xram, 0x4100, SfrValues(s, DumpedSfrs())))
  {
    hide DecodeIn, CallTo, RamCode, HasCode, Reaches, Written, DptrTo, SfrsCode, SfrValues, DirectRead;
    RamParts(s.xram, base);
    LinkOps(0x4100);
    ReachesSelf(rom, s);
    var u := DoMovDptr0(rom, s, s, base + 6, DptrTo(0x4100), 0, 0x4100);
    t := SfrsRun(rom, u, base + 9, DumpedSfrs());
    ReachesTrans(rom, s, u, t);
    SfrsOfHandler(s, u);
  }

  /** What the third handler leaves in external memory. */
  function RamDumped(m: seq<nat>, image: seq<nat>, sfrs: seq<nat>): (r: seq<nat>)
    requires |m| == 0x1_0000
  {
    Written(Written(Written(m, 0x2000, m[..0x2000]), 0x4000, image), 0x4100, sfrs)[0xf1ff := 0xff]
  }

  /** The third handler: 0x2000 on receives the external memory below it, 0x4000 on an image of
      internal memory, 0x4100 on eight registers as they are at the handler, and the signal byte is set. */
  lemma RamHandler(rom: Rom, s: Cpu, base: nat) returns (t: Cpu, image: seq<nat>)
    requires Valid(s) && HasCode(s.xram, base, RamCode()) && FunctionsLoaded(s.xram) && s.pc == base
    requires 0xf200 <= base && base + 44 < 0xf300 && s.tgl == 0 && s.psw.rs == 3 && StackFree(s.sp, 3)
    ensures Reaches(rom, s, t) && Valid(t)
    ensures t == s.(pc := RetAddr(s), sp := s.sp - 2, acc := 0xff, dptr0 := 0xf1ff, dptr1 := t.dptr1,
                    iram := t.iram, xram := RamDumped(s.xram, image, SfrValues(s, DumpedSfrs())))
    ensures IramKept(s.iram, t.iram, s.sp + 1, s.sp + 3)
    ensures IramKept(s.iram, image, s.sp + 1, s.sp + 3) && image[0x18] == 0xe8 && image[0x19] == 0x19
  {
    hide DecodeIn, CallTo, RamCode, HasCode, Reaches, Written, DptrTo, SfrsCode, SfrValues, DirectRead, Func0, Func1, Func2;
    hide Func3, CodeAreaKept;
    var u := XramCopied(rom, s, base);
    var v;
    v, image := IramCopied(rom, u, base);
    ReachesTrans(rom, s, u, v);
    var w := SfrsCopied(rom, v, base);
    ReachesTrans(rom, s, v, w);
    SfrsOfHandler(s, v);
    LowWritesKeepCode(v.xram, 0x4100, SfrValues(v, DumpedSfrs()));
    CodeCarried(v.xram, w.xram, base, RamCode());
    FunctionsCarried(v.xram, w.xram);
    RamParts(w.xram, base);
    t := SignalAndReturn(rom, s, w, base + 40);
  }
}
