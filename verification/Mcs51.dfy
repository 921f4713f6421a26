/** The part of the MCS-51 instruction set the dump payload uses (Intel MCS-51 Family User's
    Manual, chapter 2), on this chip's 8051: two data pointers, the lowest bit of DP_TGL (SFR
    0x86) selects one; SFR 0xfa selects the code bank; code above 0xe000 is fetched from the
    external memory. */
module Mcs51 {
  import opened Bits

  /** The program status word without the parity bit, which follows the accumulator. */
  datatype Flags = Flags(cy: bool, ac: bool, f0: bool, rs: nat, ov: bool, ud: bool)

  datatype Cpu = Cpu(
    pc: nat, sp: nat, acc: nat, b: nat, psw: Flags,
    dptr0: nat, dptr1: nat, tgl: nat, ie: nat, bank: nat,
    sfrs: seq<nat>,          // the other special function registers, from 0x80 on
    iram: seq<nat>, xram: seq<nat>)

  predicate AllBytes(m: seq<nat>, n: nat) { |m| == n && forall i :: 0 <= i < n ==> m[i] < 256 }

  predicate Valid(s: Cpu) {
    s.pc < 0x1_0000 && s.sp < 256 && s.acc < 256 && s.b < 256 && s.psw.rs < 4 &&
    s.dptr0 < 0x1_0000 && s.dptr1 < 0x1_0000 && s.tgl < 256 && s.ie < 256 && s.bank < 256 &&
    AllBytes(s.sfrs, 128) && AllBytes(s.iram, 256) && AllBytes(s.xram, 0x1_0000)
  }

  /** Code memory below the external memory: a byte for each bank and address. */
  type Rom = (nat, nat) -> nat

  datatype Op =
    | Push(d: nat) | Pop(d: nat) | MovDirect(d: nat, n: nat) | MovDptr(a: nat) | IncDirect(d: nat)
    | MovReg(r: nat, n: nat) | IncReg(r: nat) | Djnz(r: nat, rel: nat)
    | ClrA | MovA(n: nat) | MovADirect(d: nat) | MovAInd(r: nat) | SubbA(n: nat) | MulAB
    | MovcA | MovxRead | MovxWrite | IncDptr
    | Jnc(rel: nat) | JmpADptr | Ljmp(a: nat) | Lcall(a: nat) | Ret
    | Other

  /** The instruction that starts with these bytes, and its length. */
  datatype Decoded = Decoded(op: Op, len: nat)

  function Decode(b0: nat, b1: nat, b2: nat): Decoded {
    match b0
    case 0x02 => Decoded(Ljmp(b1 * 256 + b2), 3)
    case 0x05 => Decoded(IncDirect(b1), 2)
    case 0x12 => Decoded(Lcall(b1 * 256 + b2), 3)
    case 0x22 => Decoded(Ret, 1)
    case 0x50 => Decoded(Jnc(b1), 2)
    case 0x73 => Decoded(JmpADptr, 1)
    case 0x74 => Decoded(MovA(b1), 2)
    case 0x75 => Decoded(MovDirect(b1, b2), 3)
    case 0x90 => Decoded(MovDptr(b1 * 256 + b2), 3)
    case 0x93 => Decoded(MovcA, 1)
    case 0x94 => Decoded(SubbA(b1), 2)
    case 0xa3 => Decoded(IncDptr, 1)
    case 0xa4 => Decoded(MulAB, 1)
    case 0xc0 => Decoded(Push(b1), 2)
    case 0xd0 => Decoded(Pop(b1), 2)
    case 0xe0 => Decoded(MovxRead, 1)
    case 0xe4 => Decoded(ClrA, 1)
    case 0xe5 => Decoded(MovADirect(b1), 2)
    case 0xf0 => Decoded(MovxWrite, 1)
    case _ =>
      if 0x08 <= b0 < 0x10 then Decoded(IncReg(b0 - 0x08), 1)
      else if 0x78 <= b0 < 0x80 then Decoded(MovReg(b0 - 0x78, b1), 2)
      else if 0xd8 <= b0 < 0xe0 then Decoded(Djnz(b0 - 0xd8, b1), 2)
      else if 0xe6 <= b0 < 0xe8 then Decoded(MovAInd(b0 - 0xe6), 1)
      else Decoded(Other, 1)
  }

  /** Even parity of a byte. */
  function Parity(x: nat): nat
    decreases x
  {
    if x == 0 then 0 else (x % 2 + Parity(x / 2)) % 2
  }

  function BitOf(c: bool, weight: nat): nat { if c then weight else 0 }

  /** PSW as it reads. */
  function PswByte(f: Flags, parity: nat): nat {
    BitOf(f.cy, 128) + BitOf(f.ac, 64) + BitOf(f.f0, 32) + f.rs * 8 + BitOf(f.ov, 4) + BitOf(f.ud, 2) + parity
  }

  /** The digit of v at weight k, in base m. */
  function Digit(v: nat, k: nat, m: nat): (d: nat)
    requires k > 0 && m > 0
    ensures d < m
  {
    v / k % m
  }

  lemma DigitIs(v: nat, k: nat, m: nat, up: nat, d: nat, l: nat)
    requires v == (up * m + d) * k + l && d < m && l < k
    ensures Digit(v, k, m) == d
  {
    ModUnique(v, k, up * m + d, l);
    ModUnique(up * m + d, m, up, d);
  }

  /** The flags a byte sets. */
  function FlagsOf(v: nat): Flags {
    Flags(Digit(v, 128, 2) == 1, Digit(v, 64, 2) == 1, Digit(v, 32, 2) == 1, Digit(v, 8, 4),
          Digit(v, 4, 2) == 1, Digit(v, 2, 2) == 1)
  }

  /** What is read can be written back. */
  lemma FlagsBack(f: Flags, parity: nat)
    requires f.rs < 4 && parity < 2
    ensures PswByte(f, parity) < 256 && FlagsOf(PswByte(f, parity)) == f
  {
    hide PswByte, Digit, BitOf;
    var a, b, c, d, e := BitOf(f.cy, 1), BitOf(f.ac, 1), BitOf(f.f0, 1), BitOf(f.ov, 1), BitOf(f.ud, 1);
    PswSum(f, parity);
    BitOfIs(f.cy);
    BitOfIs(f.ac);
    BitOfIs(f.f0);
    BitOfIs(f.ov);
    BitOfIs(f.ud);
    UpperFlags(PswByte(f, parity), a, b, c, f.rs * 8 + d * 4 + e * 2 + parity);
    LowerFlags(PswByte(f, parity), a * 4 + b * 2 + c, f.rs, d, e, parity);
  }

  lemma UpperFlags(v: nat, a: nat, b: nat, c: nat, low: nat)
    requires a < 2 && b < 2 && c < 2 && low < 32 && v == a * 128 + b * 64 + c * 32 + low
    ensures v < 256 && Digit(v, 128, 2) == a && Digit(v, 64, 2) == b && Digit(v, 32, 2) == c
  {
    hide Digit;
    DigitIs(v, 128, 2, 0, a, b * 64 + c * 32 + low);
    DigitIs(v, 64, 2, a, b, c * 32 + low);
    DigitIs(v, 32, 2, a * 2 + b, c, low);
  }

  lemma LowerFlags(v: nat, up: nat, rs: nat, d: nat, e: nat, p: nat)
    requires rs < 4 && d < 2 && e < 2 && p < 2 && v == up * 32 + rs * 8 + d * 4 + e * 2 + p
    ensures Digit(v, 8, 4) == rs && Digit(v, 4, 2) == d && Digit(v, 2, 2) == e
  {
    hide Digit;
    DigitIs(v, 8, 4, up, rs, d * 4 + e * 2 + p);
    DigitIs(v, 4, 2, up * 4 + rs, d, e * 2 + p);
    DigitIs(v, 2, 2, up * 8 + rs * 2 + d, e, p);
  }

  lemma BitOfIs(c: bool)
    ensures BitOf(c, 1) < 2 && (BitOf(c, 1) == 1 <==> c)
  {
  }

  lemma PswSum(f: Flags, parity: nat)
    ensures PswByte(f, parity) ==
            BitOf(f.cy, 1) * 128 + BitOf(f.ac, 1) * 64 + BitOf(f.f0, 1) * 32 + f.rs * 8 +
            BitOf(f.ov, 1) * 4 + BitOf(f.ud, 1) * 2 + parity
  {
  }

  function Psw(s: Cpu): nat { PswByte(s.psw, Parity(s.acc)) }

  function DirectRead(s: Cpu, d: nat): nat
    requires Valid(s) && d < 256
  {
    if d < 0x80 then s.iram[d]
    else
      match d
      case 0x81 => s.sp
      case 0x82 => s.dptr0 % 256
      case 0x83 => s.dptr0 / 256
      case 0x84 => s.dptr1 % 256
      case 0x85 => s.dptr1 / 256
      case 0x86 => s.tgl
      case 0xa8 => s.ie
      case 0xd0 => Psw(s)
      case 0xe0 => s.acc
      case 0xf0 => s.b
      case 0xfa => s.bank
      case _ => s.sfrs[d - 0x80]
  }

  function DirectWrite(s: Cpu, d: nat, v: nat): Cpu
    requires Valid(s) && d < 256 && v < 256
  {
    if d < 0x80 then s.(iram := s.iram[d := v])
    else
      match d
      case 0x81 => s.(sp := v)
      case 0x82 => s.(dptr0 := s.dptr0 / 256 * 256 + v)
      case 0x83 => s.(dptr0 := v * 256 + s.dptr0 % 256)
      case 0x84 => s.(dptr1 := s.dptr1 / 256 * 256 + v)
      case 0x85 => s.(dptr1 := v * 256 + s.dptr1 % 256)
      case 0x86 => s.(tgl := v)
      case 0xa8 => s.(ie := v)
      case 0xd0 => s.(psw := FlagsOf(v))
      case 0xe0 => s.(acc := v)
      case 0xf0 => s.(b := v)
      case 0xfa => s.(bank := v)
      case _ => s.(sfrs := s.sfrs[d - 0x80 := v])
  }

  /** Where register r of the selected bank lies. */
  function RegAddr(s: Cpu, r: nat): (a: nat)
    requires r < 8
    ensures a < 32
  {
    s.psw.rs % 4 * 8 + r
  }

  /** The selected data pointer. */
  function Dptr(s: Cpu): nat { if s.tgl % 2 == 0 then s.dptr0 else s.dptr1 }

  function SetDptr(s: Cpu, a: nat): Cpu { if s.tgl % 2 == 0 then s.(dptr0 := a) else s.(dptr1 := a) }

  /** A byte of code. */
  function Fetch(rom: Rom, s: Cpu, a: nat): nat
    requires Valid(s) && a < 0x1_0000
  {
    if a >= 0xe000 then s.xram[a] else rom(s.bank, a) % 256
  }

  /** A relative jump from the next instruction. */
  function Target(pc: nat, rel: nat): nat { (pc + rel + (if rel >= 128 then 0xff00 else 0)) % 0x1_0000 }

  /** One instruction; the program counter already stands behind it. */
  function Exec(rom: Rom, s: Cpu, op: Op): Cpu
    requires Valid(s)
  {
    match op
    case Push(d) =>
      if d >= 256 then s else
      var t := s.(sp := (s.sp + 1) % 256);
      t.(iram := t.iram[t.sp := DirectRead(t, d) % 256])
    case Pop(d) =>
      if d >= 256 then s else
      var t := DirectWrite(s, d, s.iram[s.sp]);
      t.(sp := (t.sp + 255) % 256)
    case MovDirect(d, n) => if d >= 256 || n >= 256 then s else DirectWrite(s, d, n)
    case MovDptr(a) => SetDptr(s, a % 0x1_0000)
    case IncDirect(d) => if d >= 256 then s else DirectWrite(s, d, (DirectRead(s, d) + 1) % 256)
    case MovReg(r, n) => if r >= 8 then s else s.(iram := s.iram[RegAddr(s, r) := n % 256])
    case IncReg(r) => if r >= 8 then s else s.(iram := s.iram[RegAddr(s, r) := (s.iram[RegAddr(s, r)] + 1) % 256])
    case Djnz(r, rel) =>
      if r >= 8 then s else
      var v := (s.iram[RegAddr(s, r)] + 255) % 256;
      var t := s.(iram := s.iram[RegAddr(s, r) := v]);
      if v != 0 then t.(pc := Target(s.pc, rel)) else t
    case ClrA => s.(acc := 0)
    case MovA(n) => s.(acc := n % 256)
    case MovADirect(d) => if d >= 256 then s else s.(acc := DirectRead(s, d) % 256)
    case MovAInd(r) => if r >= 2 then s else s.(acc := s.iram[s.iram[RegAddr(s, r)]])
    case SubbA(n) => Subtract(s, n)
    case MulAB =>
      var p := s.acc * s.b;
      s.(acc := p % 256, b := p / 256 % 256, psw := s.psw.(cy := false, ov := p >= 256))
    case MovcA => s.(acc := Fetch(rom, s, (s.acc + Dptr(s)) % 0x1_0000))
    case MovxRead => s.(acc := s.xram[Dptr(s)])
    case MovxWrite => s.(xram := s.xram[Dptr(s) := s.acc])
    case IncDptr => SetDptr(s, (Dptr(s) + 1) % 0x1_0000)
    case Jnc(rel) => if s.psw.cy then s else s.(pc := Target(s.pc, rel))
    case JmpADptr => s.(pc := (s.acc + Dptr(s)) % 0x1_0000)
    case Ljmp(a) => s.(pc := a % 0x1_0000)
    case Lcall(a) =>
      var lo, hi := (s.sp + 1) % 256, (s.sp + 2) % 256;
      s.(sp := hi, iram := s.iram[lo := s.pc % 256][hi := s.pc / 256], pc := a % 0x1_0000)
    case Ret =>
      s.(pc := s.iram[s.sp] * 256 + s.iram[(s.sp + 255) % 256], sp := (s.sp + 254) % 256)
    case Other => s
  }

  /** subb A, #n */
  function Subtract(s: Cpu, n: nat): Cpu {
    var c := BitOf(s.psw.cy, 1);
    var diff := (if s.acc >= 128 then s.acc - 256 else s.acc) - (if n >= 128 then n - 256 else n) - c;
    s.(acc := (s.acc - n - c) % 256,
       psw := s.psw.(cy := s.acc < n + c, ac := s.acc % 16 < n % 16 + c, ov := diff < -128 || diff > 127))
  }

  /** The instruction at the program counter. */
  function Here(rom: Rom, s: Cpu): Decoded
    requires Valid(s)
  {
    Decode(Fetch(rom, s, s.pc), Fetch(rom, s, (s.pc + 1) % 0x1_0000), Fetch(rom, s, (s.pc + 2) % 0x1_0000))
  }

  function Step(rom: Rom, s: Cpu): Cpu
    requires Valid(s)
  {
    var d := Here(rom, s);
    Exec(rom, s.(pc := (s.pc + d.len) % 0x1_0000), d.op)
  }

  lemma ParityBit(x: nat)
    ensures Parity(x) < 2
  {
  }

  lemma DirectReadByte(s: Cpu, d: nat)
    requires Valid(s) && d < 256
    ensures DirectRead(s, d) < 256
  {
    hide PswByte, FlagsOf;
    ParityBit(s.acc);
    FlagsBack(s.psw, Parity(s.acc));
  }

  lemma DirectWriteValid(s: Cpu, d: nat, v: nat)
    requires Valid(s) && d < 256 && v < 256
    ensures Valid(DirectWrite(s, d, v))
  {
  }

  lemma ExecValid(rom: Rom, s: Cpu, op: Op)
    requires Valid(s)
    ensures Valid(Exec(rom, s, op))
  {
    hide Parity, DirectRead, DirectWrite;
    match op
    case Push(d) =>
    case Pop(d) => if d < 256 { DirectWriteValid(s, d, s.iram[s.sp]); }
    case MovDirect(d, n) => if d < 256 && n < 256 { DirectWriteValid(s, d, n); }
    case IncDirect(d) => if d < 256 { DirectWriteValid(s, d, (DirectRead(s, d) + 1) % 256); }
    case MovcA => FetchByte(rom, s, (s.acc + Dptr(s)) % 0x1_0000);
    case _ =>
  }

  lemma FetchByte(rom: Rom, s: Cpu, a: nat)
    requires Valid(s) && a < 0x1_0000
    ensures Fetch(rom, s, a) < 256
  {
  }

  lemma StepValid(rom: Rom, s: Cpu)
    requires Valid(s)
    ensures Valid(Step(rom, s))
  {
    hide Decode, Exec;
    ExecValid(rom, s.(pc := (s.pc + Here(rom, s).len) % 0x1_0000), Here(rom, s).op);
  }

  /** n instructions. */
  ghost function Run(rom: Rom, s: Cpu, n: nat): (t: Cpu)
    requires Valid(s)
    ensures Valid(t)
    decreases n
  {
    if n == 0 then s
    else
      StepValid(rom, s);
      Run(rom, Step(rom, s), n - 1)
  }

  /** Some number of instructions leads from s to t. */
  ghost predicate Reaches(rom: Rom, s: Cpu, t: Cpu) {
    Valid(s) && exists n: nat :: Run(rom, s, n) == t
  }

  lemma {:induction false} RunAdds(rom: Rom, s: Cpu, m: nat, n: nat)
    requires Valid(s)
    ensures Run(rom, s, m + n) == Run(rom, Run(rom, s, m), n)
    decreases m
  {
    hide Step;
    if m > 0 {
      StepValid(rom, s);
      RunAdds(rom, Step(rom, s), m - 1, n);
    }
  }

  lemma ReachesSelf(rom: Rom, s: Cpu)
    requires Valid(s)
    ensures Reaches(rom, s, s)
  {
    assert Run(rom, s, 0) == s;
  }

  lemma ReachesStep(rom: Rom, s: Cpu)
    requires Valid(s)
    ensures Valid(Step(rom, s)) && Reaches(rom, s, Step(rom, s))
  {
    hide Step;
    StepValid(rom, s);
    assert Run(rom, s, 1) == Run(rom, Step(rom, s), 0) == Step(rom, s);
  }

  lemma ReachesTrans(rom: Rom, s: Cpu, t: Cpu, u: Cpu)
    requires Reaches(rom, s, t) && Reaches(rom, t, u)
    ensures Reaches(rom, s, u)
  {
    hide Step, Valid;
    var m: nat :| Run(rom, s, m) == t;
    var n: nat :| Run(rom, t, n) == u;
    RunAdds(rom, s, m, n);
  }

  /* ---------- Code in the external memory ---------- */

  /** The memory holds these bytes from address base on. */
  predicate HasCode(xram: seq<nat>, base: nat, bytes: seq<nat>) {
    |xram| == 0x1_0000 && 0xe000 <= base && base + |bytes| <= 0x1_0000 && xram[base..base + |bytes|] == bytes
  }

  /** The instruction at an offset; bytes past the end read as zero. */
  function DecodeIn(bytes: seq<nat>, off: nat): Decoded
    requires off < |bytes|
  {
    Decode(bytes[off], if off + 1 < |bytes| then bytes[off + 1] else 0, if off + 2 < |bytes| then bytes[off + 2] else 0)
  }

  /** An instruction does not depend on the bytes behind it. */
  lemma DecodeStable(b0: nat, b1: nat, b2: nat, x: nat, y: nat)
    ensures Decode(b0, b1, b2).len == 1 ==> Decode(b0, x, y) == Decode(b0, b1, b2)
    ensures Decode(b0, b1, b2).len == 2 ==> Decode(b0, b1, y) == Decode(b0, b1, b2)
    ensures 1 <= Decode(b0, b1, b2).len <= 3
  {
  }

  /** The next step executes the instruction found at the offset. */
  lemma StepIn(rom: Rom, s: Cpu, base: nat, bytes: seq<nat>, off: nat)
    requires Valid(s) && HasCode(s.xram, base, bytes) && off < |bytes| && s.pc == base + off
    requires off + DecodeIn(bytes, off).len <= |bytes|
    ensures var d := DecodeIn(bytes, off);
            Step(rom, s) == Exec(rom, s.(pc := (base + off + d.len) % 0x1_0000), d.op)
  {
    hide Decode, Exec;
    var b1, b2 := if off + 1 < |bytes| then bytes[off + 1] else 0, if off + 2 < |bytes| then bytes[off + 2] else 0;
    var x1, x2 := Fetch(rom, s, (s.pc + 1) % 0x1_0000), Fetch(rom, s, (s.pc + 2) % 0x1_0000);
    DecodeStable(bytes[off], b1, b2, x1, x2);
    forall i | 0 <= i < |bytes|
      ensures s.xram[base + i] == bytes[i]
    {
      assert s.xram[base..base + |bytes|][i] == bytes[i];
    }
    assert Fetch(rom, s, s.pc) == bytes[off];
  }
}
