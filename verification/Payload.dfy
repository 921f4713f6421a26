/** The machine code of the dump payload, byte by byte, and what the bytes decode to. */
module Payload {
  import opened Mcs51

  /** The copying routines begin alike: interrupts off, destination, source, count. */
  function CopyHead(hi: nat, lo: nat, n: nat): (r: seq<nat>)
    ensures |r| == 15
  {
    [0xc0, 0xa8, 0x75, 0xa8, 0x00, 0x90, 0x20, 0x00, 0x05, 0x86, 0x90, hi, lo, 0x78, n]
  }

  /** The nested copy loop; `read` is the instruction that reads the source. */
  function CopyLoop(read: nat): (r: seq<nat>)
    ensures |r| == 15
  {
    [0x79, 0x00, 0xe4, read, 0xa3, 0x05, 0x86, 0xf0, 0xa3, 0x05, 0x86, 0xd9, 0xf5, 0xd8, 0xf1]
  }

  /** And all dumping routines end alike. */
  function CopyTail(): (r: seq<nat>)
    ensures |r| == 6
  {
    [0x75, 0x86, 0x00, 0xd0, 0xa8, 0x22]
  }

  /** A routine that copies n pages from hi * 256 + lo on. */
  function CopyCode(hi: nat, lo: nat, n: nat, read: nat): (r: seq<nat>)
    ensures |r| == 36
  {
    CopyHead(hi, lo, n) + CopyLoop(read) + CopyTail()
  }

  function IramHead(): (r: seq<nat>)
    ensures |r| == 13
  {
    [0xc0, 0xa8, 0x75, 0xa8, 0x00, 0x90, 0x40, 0x00, 0x78, 0x00, 0x79, 0x00, 0xe4]
  }

  function IramLoop(): (r: seq<nat>)
    ensures |r| == 6
  {
    [0xe7, 0xf0, 0x09, 0xa3, 0xd8, 0xfa]
  }

  /** Copies code memory 0x8000 up to 0xdfff, in the selected bank, to 0x2000 on. */
  function Func0(): (r: seq<nat>)
    ensures |r| == 36
  {
    CopyCode(0x80, 0x00, 0x60, 0x93)
  }

  /** Copies external memory below 0x2000 to 0x2000 on. */
  function Func1(): (r: seq<nat>)
    ensures |r| == 36
  {
    CopyCode(0x00, 0x00, 0x20, 0xe0)
  }

  /** Copies internal memory to 0x4000 on. */
  function Func2(): (r: seq<nat>)
    ensures |r| == 25
  {
    IramHead() + IramLoop() + CopyTail()
  }

  /** Sets the signal byte. */
  function Func3(): (r: seq<nat>)
    ensures |r| == 7
  {
    [0x90, 0xf1, 0xff, 0x74, 0xff, 0xf0, 0x22]
  }

  /** Selects code bank 0. */
  function Entry0(): (r: seq<nat>)
    ensures |r| == 5
  {
    [0xc0, 0xfa, 0x75, 0xfa, 0x15]
  }

  function Exit0(): (r: seq<nat>)
    ensures |r| == 2
  {
    [0xd0, 0xfa]
  }

  /** Selects code bank 1. */
  function Entry1(): (r: seq<nat>)
    ensures |r| == 5
  {
    [0xc0, 0xfa, 0x75, 0xfa, 0x2a]
  }

  function Exit1(): (r: seq<nat>)
    ensures |r| == 2
  {
    [0xd0, 0xfa]
  }

  /** Copies eight special function registers to 0x4100 on. */
  function Exit2(): (r: seq<nat>)
    ensures |r| == 34
  {
    [0x90, 0x41, 0x00, 0xe5, 0x80, 0xf0, 0xa3, 0xe5, 0x81, 0xf0, 0xa3, 0xe5,
     0x90, 0xf0, 0xa3, 0xe5, 0xa0, 0xf0, 0xa3, 0xe5, 0xa8, 0xf0, 0xa3, 0xe5,
     0xb0, 0xf0, 0xa3, 0xe5, 0xb8, 0xf0, 0xa3, 0xe5, 0xfa, 0xf0]
  }

  /** Saves the registers; the count of handlers follows. */
  function Part1(): (r: seq<nat>)
    ensures |r| == 25
  {
    [0xc0, 0xe0, 0xc0, 0xf0, 0xc0, 0x83, 0xc0, 0x82, 0xc0, 0x85, 0xc0, 0x84,
     0xc0, 0x86, 0x75, 0x86, 0x00, 0xc0, 0xd0, 0x75, 0xd0, 0x18, 0xe5, 0x6f,
     0x94]
  }

  function Part2(): (r: seq<nat>)
    ensures |r| == 8
  {
    [0x50, 0x0a, 0xe5, 0x6f, 0x75, 0xf0, 0x06, 0xa4]
  }

  /** Restores the registers. */
  function MainExit(): (r: seq<nat>)
    ensures |r| == 17
  {
    [0xd0, 0xd0, 0xd0, 0x86, 0xd0, 0x84, 0xd0, 0x85, 0xd0, 0x82, 0xd0, 0x83,
     0xd0, 0xf0, 0xd0, 0xe0, 0x22]
  }

  /* ---------- Disassembly ---------- */

  lemma CopyHeadOps(hi: nat, lo: nat, n: nat)
    ensures var b := CopyHead(hi, lo, n);
            DecodeIn(b, 0) == Decoded(Push(0xa8), 2) && DecodeIn(b, 2) == Decoded(MovDirect(0xa8, 0x00), 3) &&
            DecodeIn(b, 5) == Decoded(MovDptr(0x2000), 3) && DecodeIn(b, 8) == Decoded(IncDirect(0x86), 2) &&
            DecodeIn(b, 10) == Decoded(MovDptr(hi * 256 + lo), 3) && DecodeIn(b, 13) == Decoded(MovReg(0, n), 2)
  {
  }

  lemma CopyLoopOps(read: nat)
    requires read == 0x93 || read == 0xe0
    ensures var b := CopyLoop(read);
            DecodeIn(b, 0) == Decoded(MovReg(1, 0x00), 2) && DecodeIn(b, 2) == Decoded(ClrA, 1) &&
            DecodeIn(b, 3) == Decoded(if read == 0x93 then MovcA else MovxRead, 1) &&
            DecodeIn(b, 4) == Decoded(IncDptr, 1) && DecodeIn(b, 5) == Decoded(IncDirect(0x86), 2) &&
            DecodeIn(b, 7) == Decoded(MovxWrite, 1) && DecodeIn(b, 8) == Decoded(IncDptr, 1) &&
            DecodeIn(b, 9) == Decoded(IncDirect(0x86), 2) && DecodeIn(b, 11) == Decoded(Djnz(1, 0xf5), 2) &&
            DecodeIn(b, 13) == Decoded(Djnz(0, 0xf1), 2)
  {
  }

  lemma CopyTailOps()
    ensures DecodeIn(CopyTail(), 0) == Decoded(MovDirect(0x86, 0x00), 3) && DecodeIn(CopyTail(), 3) == Decoded(Pop(0xa8), 2)
    ensures DecodeIn(CopyTail(), 5) == Decoded(Ret, 1)
  {
  }

  lemma IramHeadOps()
    ensures DecodeIn(IramHead(), 0) == Decoded(Push(0xa8), 2) && DecodeIn(IramHead(), 2) == Decoded(MovDirect(0xa8, 0x00), 3)
    ensures DecodeIn(IramHead(), 5) == Decoded(MovDptr(0x4000), 3) && DecodeIn(IramHead(), 8) == Decoded(MovReg(0, 0x00), 2)
    ensures DecodeIn(IramHead(), 10) == Decoded(MovReg(1, 0x00), 2) && DecodeIn(IramHead(), 12) == Decoded(ClrA, 1)
  {
  }

  lemma IramLoopOps()
    ensures DecodeIn(IramLoop(), 0) == Decoded(MovAInd(1), 1) && DecodeIn(IramLoop(), 1) == Decoded(MovxWrite, 1)
    ensures DecodeIn(IramLoop(), 2) == Decoded(IncReg(1), 1) && DecodeIn(IramLoop(), 3) == Decoded(IncDptr, 1)
    ensures DecodeIn(IramLoop(), 4) == Decoded(Djnz(0, 0xfa), 2)
  {
  }

  lemma Func3OpsA()
    ensures DecodeIn(Func3(), 0) == Decoded(MovDptr(0xf1ff), 3) && DecodeIn(Func3(), 3) == Decoded(MovA(0xff), 2)
    ensures DecodeIn(Func3(), 5) == Decoded(MovxWrite, 1)
  {
  }

  lemma Func3OpsB()
    ensures DecodeIn(Func3(), 6) == Decoded(Ret, 1)
  {
  }

  lemma Func3Ops()
    ensures DecodeIn(Func3(), 0) == Decoded(MovDptr(0xf1ff), 3) && DecodeIn(Func3(), 3) == Decoded(MovA(0xff), 2)
    ensures DecodeIn(Func3(), 5) == Decoded(MovxWrite, 1) && DecodeIn(Func3(), 6) == Decoded(Ret, 1)
  {
    hide DecodeIn, Func3;
    Func3OpsA();
    Func3OpsB();
  }

  lemma MainExitOpsA()
    ensures DecodeIn(MainExit(), 0) == Decoded(Pop(0xd0), 2) && DecodeIn(MainExit(), 2) == Decoded(Pop(0x86), 2)
    ensures DecodeIn(MainExit(), 4) == Decoded(Pop(0x84), 2) && DecodeIn(MainExit(), 6) == Decoded(Pop(0x85), 2)
    ensures DecodeIn(MainExit(), 8) == Decoded(Pop(0x82), 2)
  {
  }

  lemma MainExitOpsB()
    ensures DecodeIn(MainExit(), 10) == Decoded(Pop(0x83), 2) && DecodeIn(MainExit(), 12) == Decoded(Pop(0xf0), 2)
    ensures DecodeIn(MainExit(), 14) == Decoded(Pop(0xe0), 2) && DecodeIn(MainExit(), 16) == Decoded(Ret, 1)
  {
  }

  lemma MainExitOps()
    ensures DecodeIn(MainExit(), 0) == Decoded(Pop(0xd0), 2) && DecodeIn(MainExit(), 2) == Decoded(Pop(0x86), 2)
    ensures DecodeIn(MainExit(), 4) == Decoded(Pop(0x84), 2) && DecodeIn(MainExit(), 6) == Decoded(Pop(0x85), 2)
    ensures DecodeIn(MainExit(), 8) == Decoded(Pop(0x82), 2) && DecodeIn(MainExit(), 10) == Decoded(Pop(0x83), 2)
    ensures DecodeIn(MainExit(), 12) == Decoded(Pop(0xf0), 2) && DecodeIn(MainExit(), 14) == Decoded(Pop(0xe0), 2)
    ensures DecodeIn(MainExit(), 16) == Decoded(Ret, 1)
  {
    hide DecodeIn, MainExit;
    MainExitOpsA();
    MainExitOpsB();
  }
}
