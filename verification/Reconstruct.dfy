/** The host's side of the dump: it reads the copies back and rebuilds the state of the 8051 from the
    image of its stack. */
module Reconstruct {
  import opened Exram
  import opened Handlers
  import opened Linking
  import opened Mcs51
  import opened MainRoutine
  import opened PayloadRun

  const EXRAM_SIGNAL_ADDR := 0xf1ff

  /** Registers in the order in which the third handler copies them. */
  const SFR_ADDRS: seq<nat> := [0x80, 0x81, 0x90, 0xa0, 0xa8, 0xb0, 0xb8, 0xfa]

  /** Registers in the order in which they lie on the stack, from the top down. */
  const SFR_STACK: seq<nat> := [0xd0, 0x86, 0x84, 0x85, 0x82, 0x83, 0xf0, 0xe0]

  /** emu8051_dev */
  class Emu8051 {
    var pc: nat
    const xram: array<nat>
    const iram: array<nat>
    const sfr: array<nat>

    ghost predicate Valid()
    {
      xram.Length == 0x1_0000 && iram.Length == 0x100 && sfr.Length == 0x80 && iram != sfr && iram != xram && sfr != xram
    }

    constructor ()
      ensures Valid() && fresh(xram) && fresh(iram) && fresh(sfr)
    {
      pc := 0;
      xram := new nat[0x1_0000](_ => 0);
      iram := new nat[0x100](_ => 0);
      sfr := new nat[0x80](_ => 0);
    }
  }

  /** External memory as each wait leaves it: the first comes before the first poll, one more after each
      poll that finds no signal. */
  predicate AreWaits(waits: seq<seq<nat>>) {
    |waits| == 5 && forall i :: 0 <= i < |waits| ==> |waits[i]| == 0x1_0000 && IsExram(waits[i])
  }

  /** The first of the four polls that finds the signal. */
  predicate SignalAt(waits: seq<seq<nat>>, i: nat)
    requires AreWaits(waits)
  {
    i < 4 && waits[i][EXRAM_SIGNAL_ADDR] == 0xff && forall j :: 0 <= j < i ==> waits[j][EXRAM_SIGNAL_ADDR] != 0xff
  }

  /** check_dump_status: the signal byte is polled up to four times, and cleared once seen. */
  method CheckDumpStatus(dev: Device, waits: seq<seq<nat>>) returns (ok: bool)
    requires dev.Valid() && AreWaits(waits)
    modifies dev
    ensures dev.Valid() && (ok <==> exists i: nat :: SignalAt(waits, i))
    ensures forall i: nat :: SignalAt(waits, i) ==> dev.exram == waits[i][EXRAM_SIGNAL_ADDR := 0x00]
    ensures !ok ==> dev.exram == waits[4]
  {
    hide Written, IsExram;
    ok := false;
    dev.exram := waits[0];
    var i := 0;
    while i < 4 && !ok
      invariant i <= 4 && dev.Valid()
      invariant !ok ==> dev.exram == waits[i] && forall j :: 0 <= j < i ==> waits[j][EXRAM_SIGNAL_ADDR] != 0xff
      invariant ok ==> i > 0 && SignalAt(waits, i - 1) && dev.exram == waits[i - 1][EXRAM_SIGNAL_ADDR := 0x00]
    {
      SignalWritten(dev.exram);
      SetAddr(dev, EXRAM_SIGNAL_ADDR);
      var status := ReadExramData(dev);
      if status == 0xff {
        WriteExramAtAddr(dev, EXRAM_SIGNAL_ADDR, 0x00);
        ok := true;
      } else {
        dev.exram := waits[i + 1];
      }
      i := i + 1;
    }
  }

  lemma SignalWritten(m: seq<nat>)
    requires |m| == 0x1_0000
    ensures Written(m, EXRAM_SIGNAL_ADDR, [0x00]) == m[EXRAM_SIGNAL_ADDR := 0x00]
  {
    assert [0x00][..0] == [];
    assert Written(m, EXRAM_SIGNAL_ADDR, []) == m;
  }

  /** The length of so many chunks. */
  function Span(chunks: nat, size: nat): nat { chunks * size }

  lemma SpanGrows(i: nat, chunks: nat, size: nat)
    requires i < chunks
    ensures Span(i + 1, size) == Span(i, size) + size <= Span(chunks, size)
  {
    var rest: nat := chunks - i - 1;
    assert chunks * size == (i + 1) * size + rest * size;
  }

  /** A buffer with n bytes of memory at this offset. */
  function Filled(buf: seq<nat>, offset: nat, m: seq<nat>, start: nat, n: nat): (r: seq<nat>)
    requires offset + n <= |buf| && start + n <= |m|
    ensures |r| == |buf|
  {
    buf[..offset] + m[start..start + n] + buf[offset + n..]
  }

  /** Reading a piece of memory in chunks. */
  method ReadChunks(dev: Device, start: nat, chunks: nat, size: nat, buf: array<nat>, offset: nat)
    requires dev.Valid() && 0 < size && start + Span(chunks, size) <= 0x1_0000 && size < 0x1_0000
    requires offset + Span(chunks, size) <= buf.Length && start < 0x1_0000
    modifies dev, buf
    ensures dev.Valid() && dev.exram == old(dev.exram)
    ensures buf[..] == Filled(old(buf[..]), offset, dev.exram, start, Span(chunks, size))
  {
    hide Bytes, IsExram, Span, Filled;
    ghost var before := buf[..];
    var done := 0;
    NoChunks(before, offset, dev.exram, start, size);
    for i := 0 to chunks
      invariant dev.Valid() && dev.exram == old(dev.exram) && done == Span(i, size) <= Span(chunks, size)
      invariant buf[..] == Filled(before, offset, dev.exram, start, done)
    {
      SpanGrows(i, chunks, size);
      ReadExramDataRange(dev, start + done, size, buf, offset + done);
      ChunkJoins(before, offset, dev.exram, start, done, size);
      done := done + size;
    }
  }

  lemma NoChunks(before: seq<nat>, offset: nat, m: seq<nat>, start: nat, size: nat)
    requires offset <= |before| && start <= |m|
    ensures Span(0, size) == 0 && Filled(before, offset, m, start, 0) == before
  {
  }

  lemma PlainBytes(m: seq<nat>, a: nat, n: nat)
    requires |m| == 0x1_0000 && a + n <= 0x1_0000
    ensures Bytes(m, a, n) == m[a..a + n]
  {
  }

  lemma ChunkJoins(before: seq<nat>, offset: nat, m: seq<nat>, start: nat, done: nat, size: nat)
    requires offset + done + size <= |before| && start + done + size <= |m| == 0x1_0000
    ensures var now := Filled(before, offset, m, start, done);
            now[..offset + done] + Bytes(m, start + done, size) + now[offset + done + size..] ==
            Filled(before, offset, m, start, done + size)
  {
    hide Bytes;
    PlainBytes(m, start + done, size);
  }

  /** One program memory bank, read back. */
  method ReadPmemBank(dev: Device, buf: array<nat>)
    requires dev.Valid() && buf.Length == 0x6000
    modifies dev, buf
    ensures dev.Valid() && dev.exram == old(dev.exram) && buf[..] == dev.exram[0x2000..0x8000]
  {
    hide IsExram;
    ReadChunks(dev, 0x2000, 6, 0x1000, buf, 0);
    assert Span(6, 0x1000) == 0x6000;
  }

  /** Values put at register addresses: each is there, all other registers are as before. */
  predicate Placed(before: seq<nat>, after: seq<nat>, addrs: seq<nat>, values: seq<nat>, n: nat) {
    |before| == |after| == 0x80 && n <= |values| && n <= |addrs| &&
    (forall k :: 0 <= k < |addrs| ==> 0x80 <= addrs[k] < 0x100) &&
    (forall k :: 0 <= k < n ==> after[addrs[k] - 0x80] == values[k]) &&
    (forall j :: 0 <= j < 0x80 && j + 0x80 !in addrs[..n] ==> after[j] == before[j])
  }

  predicate Distinct(addrs: seq<nat>) { forall i, j :: 0 <= i < j < |addrs| ==> addrs[i] != addrs[j] }

  lemma OneMorePlaced(before: seq<nat>, after: seq<nat>, addrs: seq<nat>, values: seq<nat>, n: nat)
    requires Placed(before, after, addrs, values, n) && n < |values| && n < |addrs| && Distinct(addrs)
    ensures Placed(before, after[addrs[n] - 0x80 := values[n]], addrs, values, n + 1)
  {
    assert addrs[..n + 1] == addrs[..n] + [addrs[n]];
  }

  /** What the host takes off the stack below this stack pointer. */
  function FromStack(iram: seq<nat>, sp: nat): (r: seq<nat>)
    requires |iram| == 0x100 && 9 <= sp < 0x100
    ensures |r| == 8
  {
    seq(8, i requires 0 <= i < 8 => iram[sp - 2 - i])
  }

  /** First the copied registers, then those on the stack, last the stack pointer. */
  predicate RebuiltVia(before: seq<nat>, copied: seq<nat>, stacked: seq<nat>, after: seq<nat>, m: seq<nat>)
    requires |m| == 0x1_0000 && 9 <= m[0x4101] < 0x100
  {
    Placed(before, copied, SFR_ADDRS, m[0x4100..0x4108], 8) &&
    Placed(copied, stacked, SFR_STACK, FromStack(m[0x4000..0x4100], m[0x4101]), 8) &&
    after == stacked[1 := (stacked[1] + 256 - 12) % 256]
  }

  /** The rebuilt registers. */
  ghost predicate Rebuilt(before: seq<nat>, after: seq<nat>, m: seq<nat>)
    requires |m| == 0x1_0000 && 9 <= m[0x4101] < 0x100
  {
    exists copied, stacked :: RebuiltVia(before, copied, stacked, after, m)
  }

  /** The copied registers go to their places. */
  method PlaceSfrs(sfr: array<nat>, addrs: seq<nat>, values: seq<nat>)
    requires sfr.Length == 0x80 && |addrs| == |values| && Distinct(addrs)
    requires forall k :: 0 <= k < |addrs| ==> 0x80 <= addrs[k] < 0x100
    modifies sfr
    ensures Placed(old(sfr[..]), sfr[..], addrs, values, |values|)
  {
    ghost var before := sfr[..];
    for i := 0 to |values|
      invariant Placed(before, sfr[..], addrs, values, i)
    {
      ghost var now := sfr[..];
      OneMorePlaced(before, now, addrs, values, i);
      sfr[addrs[i] - 0x80] := values[i];
      assert sfr[..] == now[addrs[i] - 0x80 := values[i]];
    }
  }

  /** The saved registers come off the image of the stack. */
  method PlaceStacked(sfr: array<nat>, iram: array<nat>, stackPtr: nat)
    requires sfr.Length == 0x80 && iram.Length == 0x100 && sfr != iram && 7 <= stackPtr < 0xfe
    modifies sfr
    ensures Placed(old(sfr[..]), sfr[..], SFR_STACK, FromStack(iram[..], stackPtr + 2), 8)
  {
    ghost var before := sfr[..];
    ghost var values := FromStack(iram[..], stackPtr + 2);
    for i := 0 to 8
      invariant iram[..] == old(iram[..]) && Placed(before, sfr[..], SFR_STACK, values, i)
    {
      ghost var now := sfr[..];
      OneMorePlaced(before, now, SFR_STACK, values, i);
      sfr[SFR_STACK[i] - 0x80] := iram[stackPtr - i];
      assert sfr[..] == now[SFR_STACK[i] - 0x80 := values[i]];
    }
  }

  lemma MemoryByte(dev: Device, a: nat)
    requires dev.Valid() && a < 0x1_0000
    ensures dev.exram[a] < 0x100
  {
  }

  lemma StackPointerCopied(before: seq<nat>, copied: seq<nat>, m: seq<nat>)
    requires |m| == 0x1_0000 && Placed(before, copied, SFR_ADDRS, m[0x4100..0x4108], 8)
    ensures |copied| == 0x80 && copied[0x01] == m[0x4101]
  {
    assert SFR_ADDRS[1] == 0x81;
  }

  /** External memory: the copy of the part below 0x2000, and the top in place. */
  method ReadXram(emu: Emu8051, dev: Device)
    requires emu.Valid() && dev.Valid()
    modifies dev, emu.xram
    ensures dev.Valid() && dev.exram == old(dev.exram)
    ensures emu.xram[..] == dev.exram[0x2000..0x4000] + old(emu.xram[0x2000..0xe000]) + dev.exram[0xe000..]
  {
    hide IsExram;
    ReadChunks(dev, 0x2000, 4, 0x800, emu.xram, 0);
    ReadChunks(dev, 0xe000, 4, 0x800, emu.xram, 0xe000);
    XramJoins(old(emu.xram[..]), dev.exram);
  }

  lemma XramJoins(x: seq<nat>, m: seq<nat>)
    requires |x| == |m| == 0x1_0000
    ensures var y := x[..0] + m[0x2000..0x4000] + x[0x2000..];
            y[..0xe000] + m[0xe000..] + y[0x1_0000..] == m[0x2000..0x4000] + x[0x2000..0xe000] + m[0xe000..]
  {
  }

  lemma SizeOf(copied: seq<nat>, stacked: seq<nat>, more: seq<nat>)
    requires Placed(copied, stacked, SFR_STACK, more, 8)
    ensures |stacked| == 0x80
  {
  }

  /** The registers: eight copied ones, eight off the stack, and the stack pointer before the call. */
  method ReadSfrs(emu: Emu8051, dev: Device)
    requires emu.Valid() && dev.Valid() && 9 <= dev.exram[0x4101] < 0x100 && emu.iram[..] == dev.exram[0x4000..0x4100]
    modifies dev, emu.sfr
    ensures dev.Valid() && dev.exram == old(dev.exram)
    ensures Rebuilt(old(emu.sfr[..]), emu.sfr[..], dev.exram)
  {
    hide IsExram, Placed;
    ghost var m, before, image := dev.exram, emu.sfr[..], emu.iram[..];
    var tmp := new nat[8](_ => 0);
    ReadChunks(dev, 0x4100, 1, 8, tmp, 0);
    assert tmp[..] == m[0x4100..0x4108];
    PlaceSfrs(emu.sfr, SFR_ADDRS, tmp[..]);
    ghost var copied := emu.sfr[..];
    StackPointerCopied(before, copied, m);
    var stackPtr := emu.sfr[0x01] - 2;
    PlaceStacked(emu.sfr, emu.iram, stackPtr);
    ghost var stacked := emu.sfr[..];
    assert Placed(copied, stacked, SFR_STACK, FromStack(image, m[0x4101]), 8);
    emu.sfr[0x01] := (emu.sfr[0x01] + 256 - 0x0c) % 256;
    assert RebuiltVia(before, copied, stacked, emu.sfr[..], m) by { SizeOf(copied, stacked, FromStack(image, m[0x4101])); }
  }

  /** read_8051_ram_and_registers, behind the wait for the dump. */
  method ReadRamAndRegisters(emu: Emu8051, dev: Device)
    requires emu.Valid() && dev.Valid() && 9 <= dev.exram[0x4101]
    modifies dev, emu, emu.xram, emu.iram, emu.sfr
    ensures dev.Valid() && dev.exram == old(dev.exram) && dev.exram[0x4101] < 0x100
    ensures emu.xram[..] == dev.exram[0x2000..0x4000] + old(emu.xram[0x2000..0xe000]) + dev.exram[0xe000..]
    ensures emu.iram[..] == dev.exram[0x4000..0x4100]
    ensures Rebuilt(old(emu.sfr[..]), emu.sfr[..], dev.exram) && emu.pc == 0x7a99
  {
    hide IsExram, Placed, Rebuilt;
    assert dev.exram[0x4101] < 0x100 by { MemoryByte(dev, 0x4101); }
    ReadXram(emu, dev);
    ReadChunks(dev, 0x4000, 1, 0x100, emu.iram, 0);
    assert emu.iram[..] == dev.exram[0x4000..0x4100];
    ReadSfrs(emu, dev);
    emu.pc := 0x7a99;
  }

  /* ---------- What was rebuilt ---------- */

  /** The registers of the machine as it was when the payload was called, but for the stack pointer:
      that of the payload's caller before its call. */
  predicate RegistersOf(s: Cpu, sfr: seq<nat>) {
    Valid(s) && |sfr| == 0x80 && sfr[0x01] + 2 == s.sp &&
    sfr[0x60] == s.acc && sfr[0x70] == s.b && sfr[0x50] == Psw(s) && sfr[0x06] == s.tgl &&
    sfr[0x02] == s.dptr0 % 256 && sfr[0x03] == s.dptr0 / 256 && sfr[0x04] == s.dptr1 % 256 && sfr[0x05] == s.dptr1 / 256 &&
    sfr[0x28] == s.ie && sfr[0x7a] == s.bank &&
    sfr[0x00] == s.sfrs[0x00] && sfr[0x10] == s.sfrs[0x10] && sfr[0x20] == s.sfrs[0x20] && sfr[0x30] == s.sfrs[0x30] &&
    sfr[0x38] == s.sfrs[0x38]
  }

  /** Each copied register is where the host puts it, and no later step touches it. */
  lemma CopiedStays(before: seq<nat>, copied: seq<nat>, stacked: seq<nat>, values: seq<nat>, more: seq<nat>, k: nat)
    requires |values| == |more| == 8 && k < 8
    requires Placed(before, copied, SFR_ADDRS, values, 8) && Placed(copied, stacked, SFR_STACK, more, 8)
    ensures |stacked| == 0x80 && stacked[SFR_ADDRS[k] - 0x80] == values[k]
  {
    assert SFR_STACK[..8] == SFR_STACK;
    assert SFR_ADDRS[k] - 0x80 + 0x80 !in SFR_STACK;
  }

  lemma StackedIs(copied: seq<nat>, stacked: seq<nat>, more: seq<nat>)
    requires |more| == 8 && Placed(copied, stacked, SFR_STACK, more, 8)
    ensures stacked[0x50] == more[0] && stacked[0x06] == more[1] && stacked[0x04] == more[2] && stacked[0x05] == more[3]
    ensures stacked[0x02] == more[4] && stacked[0x03] == more[5] && stacked[0x70] == more[6] && stacked[0x60] == more[7]
  {
    assert SFR_STACK[0] == 0xd0 && SFR_STACK[1] == 0x86 && SFR_STACK[2] == 0x84 && SFR_STACK[3] == 0x85;
    assert SFR_STACK[4] == 0x82 && SFR_STACK[5] == 0x83 && SFR_STACK[6] == 0xf0 && SFR_STACK[7] == 0xe0;
  }

  /** The memory the host reads: a dump of s, the signal byte cleared. */
  predicate DumpRead(s: Cpu, m: seq<nat>, image: seq<nat>) {
    Valid(s) && |m| == 0x1_0000 && s.sp + 10 <= 255 && ImageOf(s, image) && |image| == 256 &&
    forall p :: 0 <= p < 0x1_0000 && p != 0xf1ff ==> m[p] == DumpByte(s, image, p)
  }

  lemma DumpPieces(s: Cpu, m: seq<nat>, image: seq<nat>)
    requires DumpRead(s, m, image)
    ensures m[0x4000..0x4100] == image && m[0x4100..0x4108] == RegistersSeen(s) && m[0x2000..0x4000] == s.xram[..0x2000]
    ensures m[0x4101] == s.sp + 10
  {
    assert m[0x4101] == DumpByte(s, image, 0x4101);
  }

  /** The host's arithmetic on the dumped stack pointer finds every register the payload pushed. */
  lemma StackFound(s: Cpu, image: seq<nat>)
    requires Saved(s, image) && s.sp + 10 <= 255
    ensures FromStack(image, s.sp + 10) ==
            [Psw(s), s.tgl, s.dptr1 % 256, s.dptr1 / 256, s.dptr0 % 256, s.dptr0 / 256, s.b, s.acc]
  {
    hide PswByte, Parity;
    var f := FromStack(image, s.sp + 10);
    assert f[0] == Psw(s) && f[1] == s.tgl && f[2] == s.dptr1 % 256 && f[3] == s.dptr1 / 256;
    assert f[4] == s.dptr0 % 256 && f[5] == s.dptr0 / 256 && f[6] == s.b && f[7] == s.acc;
  }

  lemma StateRebuiltVia(s: Cpu, m: seq<nat>, image: seq<nat>, before: seq<nat>, copied: seq<nat>, stacked: seq<nat>, after: seq<nat>)
    requires DumpRead(s, m, image) && 2 <= s.sp && 9 <= m[0x4101] < 0x100 && RebuiltVia(before, copied, stacked, after, m)
    ensures RegistersOf(s, after)
  {
    hide PswByte, Parity, Placed, DumpByte, RegistersSeen, FromStack, DumpRead;
    DumpPieces(s, m, image);
    DumpSaved(s, m, image);
    StackFound(s, image);
    forall k | 0 <= k < 8
      ensures |stacked| == 0x80 && stacked[SFR_ADDRS[k] - 0x80] == RegistersSeen(s)[k]
    {
      CopiedStays(before, copied, stacked, RegistersSeen(s), FromStack(image, s.sp + 10), k);
    }
    StackedIs(copied, stacked, FromStack(image, s.sp + 10));
    SizeOf(copied, stacked, FromStack(image, s.sp + 10));
    CopiedAre(s, stacked);
  }

  lemma DumpSaved(s: Cpu, m: seq<nat>, image: seq<nat>)
    requires DumpRead(s, m, image)
    ensures Valid(s) && s.sp + 10 <= 255 && Saved(s, image)
  {
  }

  /** For every state of the machine: what the host rebuilds are its registers. */
  lemma StateRebuilt(s: Cpu, m: seq<nat>, image: seq<nat>, before: seq<nat>, after: seq<nat>)
    requires DumpRead(s, m, image) && 2 <= s.sp && 9 <= m[0x4101] < 0x100 && Rebuilt(before, after, m)
    ensures RegistersOf(s, after)
  {
    hide RegistersOf, RebuiltVia;
    var copied, stacked :| RebuiltVia(before, copied, stacked, after, m);
    StateRebuiltVia(s, m, image, before, copied, stacked, after);
  }

  lemma CopiedAre(s: Cpu, sfr: seq<nat>)
    requires Valid(s) && s.sp + 10 <= 255 && |sfr| == 0x80
    requires forall k :: 0 <= k < 8 ==> sfr[SFR_ADDRS[k] - 0x80] == RegistersSeen(s)[k]
    ensures sfr[0x00] == s.sfrs[0x00] && sfr[0x01] == s.sp + 10 && sfr[0x10] == s.sfrs[0x10] && sfr[0x20] == s.sfrs[0x20]
    ensures sfr[0x28] == s.ie && sfr[0x30] == s.sfrs[0x30] && sfr[0x38] == s.sfrs[0x38] && sfr[0x7a] == s.bank
  {
    assert SFR_ADDRS[0] == 0x80 && SFR_ADDRS[1] == 0x81 && SFR_ADDRS[2] == 0x90 && SFR_ADDRS[3] == 0xa0;
    assert SFR_ADDRS[4] == 0xa8 && SFR_ADDRS[5] == 0xb0 && SFR_ADDRS[6] == 0xb8 && SFR_ADDRS[7] == 0xfa;
  }

  /** The third dump from end to end: by the poll that finds the signal the payload has run from any state s
      with the value 2, and the host, reading what it left, has the registers and internal memory of s, and
      its external memory below 0x2000 and from 0xe000 on. */
  method DumpMachine(emu: Emu8051, dev: Device, waits: seq<seq<nat>>, ghost i: nat, ghost rom: Rom, ghost s: Cpu)
    returns (ok: bool)
    requires emu.Valid() && dev.Valid() && AtPayload(s) && s.iram[PARAM] == 2
    requires AreWaits(waits) && SignalAt(waits, i) && Outcome(rom, s, waits[i])
    modifies dev, emu, emu.xram, emu.iram, emu.sfr
    ensures ok && RegistersOf(s, emu.sfr[..]) && IramKept(s.iram, emu.iram[..], s.sp + 1, s.sp + 14)
    ensures emu.xram[..0x2000] == s.xram[..0x2000] && emu.xram[0xe000..] == s.xram[0xe000..][0x11ff := 0x00]
  {
    hide IsExram, PswByte, Parity, Placed, RegistersOf, Rebuilt, RamShown, AtPayload;
    assert 2 <= s.sp by { StackOf(s); }
    ghost var m := waits[i];
    ghost var image :| RamShown(s, m, image);
    ShownIsRead(s, m, image);
    ok := CheckDumpStatus(dev, waits);
    DumpPieces(s, dev.exram, image);
    ReadRamAndRegisters(emu, dev);
    StateRebuilt(s, dev.exram, image, old(emu.sfr[..]), emu.sfr[..]);
  }

  lemma StackOf(s: Cpu)
    requires AtPayload(s)
    ensures 2 <= s.sp
  {
  }

  lemma ShownIsRead(s: Cpu, m: seq<nat>, image: seq<nat>)
    requires RamShown(s, m, image)
    ensures m[0xf1ff] == 0xff && DumpRead(s, m[0xf1ff := 0x00], image)
    ensures m[0xf1ff := 0x00][0xe000..] == s.xram[0xe000..][0x11ff := 0x00]
  {
    assert m[0xf1ff] == DumpByte(s, image, 0xf1ff);
    forall p | 0xe000 <= p < 0x1_0000 && p != 0xf1ff
      ensures m[p] == s.xram[p]
    {
      assert m[p] == DumpByte(s, image, p);
    }
  }

  lemma BankRead(rom: Rom, s: Cpu, m: seq<nat>, bank: nat)
    requires BankShown(rom, s, m, bank)
    ensures m[0xf1ff] == 0xff && m[0xf1ff := 0x00][0x2000..0x8000] == BankBytes(rom, bank)
  {
  }

  /** The first two dumps from end to end: after the payload has run with 0 or 1, the host's buffer holds
      the code memory of that bank from 0x8000 up to 0xdfff. */
  method DumpPmemBank(dev: Device, buf: array<nat>, waits: seq<seq<nat>>, ghost i: nat, ghost rom: Rom, ghost s: Cpu)
    returns (ok: bool)
    requires dev.Valid() && buf.Length == 0x6000 && AtPayload(s) && s.iram[PARAM] < 2
    requires AreWaits(waits) && SignalAt(waits, i) && Outcome(rom, s, waits[i])
    modifies dev, buf
    ensures ok && buf[..] == BankBytes(rom, if s.iram[PARAM] == 0 then 0x15 else 0x2a)
  {
    hide IsExram, Linked, DumpHandlers, BankShown, BankBytes;
    BankRead(rom, s, waits[i], if s.iram[PARAM] == 0 then 0x15 else 0x2a);
    ok := CheckDumpStatus(dev, waits);
    ReadPmemBank(dev, buf);
  }
}
