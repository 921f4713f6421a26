/** The nested copy loop of the payload is a memory copy. */
module CopyLoops {
  import opened Exram
  import opened Mcs51
  import opened Payload
  import opened Routines

  /** The byte the loop reads at address a: of code, or of external memory. */
  function SourceByte(rom: Rom, s: Cpu, read: nat, a: nat): (r: nat)
    requires Valid(s) && a < 0x1_0000
    ensures r < 256
  {
    if read == 0x93 then Fetch(rom, s, a) else s.xram[a]
  }

  /** The n bytes from address a on. */
  function SourceBytes(rom: Rom, s: Cpu, read: nat, a: nat, n: nat): (r: seq<nat>)
    requires Valid(s)
    ensures |r| == n
  {
    seq(n, i requires 0 <= i < n => SourceByte(rom, s, read, Addr(a, i)))
  }

  lemma {:induction false} WrittenElsewhere(m: seq<nat>, d: nat, bytes: seq<nat>, p: nat)
    requires |m| == 0x1_0000 && p < 0x1_0000 && forall i :: 0 <= i < |bytes| ==> Addr(d, i) != p
    ensures Written(m, d, bytes)[p] == m[p]
    decreases |bytes|
  {
    hide Addr;
    if bytes != [] {
      WrittenElsewhere(m, d, bytes[..|bytes| - 1], p);
      assert Addr(d, |bytes| - 1) != p;
    }
  }

  lemma CodeKeptWritten(m: seq<nat>, base: nat, code: seq<nat>, d: nat, bytes: seq<nat>)
    requires HasCode(m, base, code)
    requires forall i :: 0 <= i < |bytes| ==> !(base <= Addr(d, i) < base + |code|)
    ensures HasCode(Written(m, d, bytes), base, code)
  {
    hide Addr, Written;
    forall i | 0 <= i < |code|
      ensures Written(m, d, bytes)[base..base + |code|][i] == code[i]
    {
      WrittenElsewhere(m, d, bytes, base + i);
      assert m[base..base + |code|][i] == code[i];
    }
  }

  /** Reading the source byte, whichever instruction does it. */
  lemma ReadByte(rom: Rom, s: Cpu, t: Cpu, base: nat, read: nat) returns (u: Cpu)
    requires (read == 0x93 || read == 0xe0) && Ready(rom, s, t, base, CopyLoop(read), 3)
    requires t.acc == 0 && t.tgl % 2 == 1
    ensures Valid(u) && Reaches(rom, s, u)
    ensures u == t.(pc := base + 4, acc := SourceByte(rom, t, read, t.dptr1))
  {
    hide DecodeIn, CopyLoop, HasCode, Reaches;
    CopyLoopOps(read);
    if read == 0x93 {
      u := DoMovcA(rom, s, t, base, CopyLoop(read), 3);
    } else {
      u := DoMovxRead(rom, s, t, base, CopyLoop(read), 3);
    }
  }

  /** A conditional jump back to the byte loop or the block loop. */
  lemma Jumps(base: nat)
    requires base + 15 < 0x1_0000
    ensures Target(base + 13, 0xf5) == base + 2 && Target(base + 15, 0xf1) == base
  {
  }

  /** One pass of the inner loop, from `clr A` to `djnz r1`. */
  lemma OneByte(rom: Rom, s: Cpu, base: nat, read: nat) returns (t: Cpu)
    requires Valid(s) && HasCode(s.xram, base, CopyLoop(read)) && (read == 0x93 || read == 0xe0)
    requires s.pc == base + 2 && s.tgl % 2 == 1 && base + 15 < 0x1_0000 && !(base <= s.dptr0 < base + 15)
    ensures Reaches(rom, s, t) && Valid(t)
    ensures var r1, byte := RegAddr(s, 1), SourceByte(rom, s, read, s.dptr1);
            var v := (s.iram[r1] + 255) % 256;
            t == s.(pc := if v != 0 then base + 2 else base + 13, acc := byte, tgl := (s.tgl + 2) % 256,
                    dptr0 := Addr(s.dptr0, 1), dptr1 := Addr(s.dptr1, 1),
                    iram := s.iram[r1 := v], xram := s.xram[s.dptr0 := byte])
  {
    hide DecodeIn, CopyLoop, HasCode, Reaches, Target;
    var code := CopyLoop(read);
    CopyLoopOps(read);
    Jumps(base);
    ReachesSelf(rom, s);
    t := DoClrA(rom, s, s, base, code, 2);
    t := ReadByte(rom, s, t, base, read);
    t := DoIncDptr1(rom, s, t, base, code, 4);
    t := DoIncTgl(rom, s, t, base, code, 5);
    t := DoMovxWrite(rom, s, t, base, code, 7);
    CodeKept(s.xram, base, code, s.dptr0, t.acc);
    t := DoIncDptr0(rom, s, t, base, code, 8);
    t := DoIncTgl(rom, s, t, base, code, 9);
    t := DoDjnz(rom, s, t, base, code, 11, 1, 0xf5);
  }

  /* ---------- Blocks ---------- */

  /** The byte the loop reads at address a: code below 0xe000, external memory otherwise. */
  function ByteAt(rom: Rom, bank: nat, read: nat, m: seq<nat>, a: nat): nat
    requires |m| == 0x1_0000 && a < 0x1_0000
  {
    if read == 0x93 && a < 0xe000 then rom(bank, a) % 256 else m[a]
  }

  lemma SourceIs(rom: Rom, s: Cpu, read: nat, a: nat)
    requires Valid(s) && a < 0x1_0000 && (read == 0x93 || read == 0xe0)
    ensures SourceByte(rom, s, read, a) == ByteAt(rom, s.bank, read, s.xram, a)
  {
  }

  /** Memory after n bytes are copied upwards one by one; each byte is read when its turn comes, so the
      destination may overlap the source. */
  function Forward(rom: Rom, bank: nat, read: nat, m: seq<nat>, src: nat, dst: nat, n: nat): (r: seq<nat>)
    requires |m| == 0x1_0000
    ensures |r| == |m|
    decreases n
  {
    if n == 0 then m
    else
      var before := Forward(rom, bank, read, m, src, dst, n - 1);
      before[Addr(dst, n - 1) := ByteAt(rom, bank, read, before, Addr(src, n - 1))]
  }

  /** The destination is clear of this piece of memory. */
  predicate ClearOf(dst: nat, n: nat, base: nat, size: nat) {
    forall i :: 0 <= i < n ==> !(base <= Addr(dst, i) < base + size)
  }

  lemma {:induction false} ForwardElsewhere(rom: Rom, bank: nat, read: nat, m: seq<nat>, src: nat, dst: nat, n: nat, p: nat)
    requires |m| == 0x1_0000 && p < 0x1_0000 && forall i :: 0 <= i < n ==> Addr(dst, i) != p
    ensures Forward(rom, bank, read, m, src, dst, n)[p] == m[p]
    decreases n
  {
    hide Addr, ByteAt;
    if n > 0 {
      ForwardElsewhere(rom, bank, read, m, src, dst, n - 1, p);
      assert Addr(dst, n - 1) != p;
    }
  }

  lemma CodeKeptForward(rom: Rom, bank: nat, read: nat, m: seq<nat>, src: nat, dst: nat, n: nat, base: nat, code: seq<nat>)
    requires HasCode(m, base, code) && ClearOf(dst, n, base, |code|)
    ensures HasCode(Forward(rom, bank, read, m, src, dst, n), base, code)
  {
    hide Addr, Forward;
    forall i | 0 <= i < |code|
      ensures Forward(rom, bank, read, m, src, dst, n)[base..base + |code|][i] == code[i]
    {
      ForwardElsewhere(rom, bank, read, m, src, dst, n, base + i);
      assert m[base..base + |code|][i] == code[i];
    }
  }

  /** A copy can be made in two parts. */
  lemma {:induction false} ForwardJoins(rom: Rom, bank: nat, read: nat, m: seq<nat>, src: nat, dst: nat, n: nat, k: nat)
    requires |m| == 0x1_0000
    ensures Forward(rom, bank, read, Forward(rom, bank, read, m, src, dst, n), Addr(src, n), Addr(dst, n), k) ==
            Forward(rom, bank, read, m, src, dst, n + k)
    decreases k
  {
    hide Addr, ByteAt;
    if k > 0 {
      ForwardJoins(rom, bank, read, m, src, dst, n, k - 1);
      AddrAdds(src, n, k - 1);
      AddrAdds(dst, n, k - 1);
    }
  }

  lemma WrittenOneMore(m: seq<nat>, d: nat, bytes: seq<nat>, b: nat)
    requires |m| == 0x1_0000
    ensures Written(m, d, bytes + [b]) == Written(m, d, bytes)[Addr(d, |bytes|) := b]
  {
    assert (bytes + [b])[..|bytes|] == bytes;
  }

  lemma SourceOneMore(rom: Rom, s: Cpu, read: nat, a: nat, n: nat)
    requires Valid(s)
    ensures SourceBytes(rom, s, read, a, n + 1) == SourceBytes(rom, s, read, a, n) + [SourceByte(rom, s, read, Addr(a, n))]
  {
  }

  lemma CountDown(k: nat)
    requires k < 256
    ensures ((256 - k) % 256 + 255) % 256 == (256 - (k + 1)) % 256
  {
  }

  lemma ToggleTwice(g: nat, k: nat)
    ensures ((g + 2 * k) % 256 + 2) % 256 == (g + 2 * (k + 1)) % 256 && (g + 2 * k) % 256 % 2 == g % 2
  {
    var q, x := (g + 2 * k) / 256, (g + 2 * k) % 256;
    assert g + 2 * (k + 1) == q * 256 + (x + 2);
    assert g == 2 * (128 * q - k) + x;
  }

  /** The state when k bytes of the block are copied. */
  ghost function Copied(rom: Rom, s: Cpu, base: nat, read: nat, k: nat, acc: nat): Cpu
    requires Valid(s) && k <= 256
  {
    s.(pc := if k < 256 then base + 2 else base + 13, acc := acc, tgl := (s.tgl + 2 * k) % 256,
       dptr0 := Addr(s.dptr0, k), dptr1 := Addr(s.dptr1, k),
       iram := s.iram[RegAddr(s, 1) := (256 - k) % 256],
       xram := Forward(rom, s.bank, read, s.xram, s.dptr1, s.dptr0, k))
  }

  predicate AtBlock(s: Cpu, base: nat, read: nat) {
    Valid(s) && HasCode(s.xram, base, CopyLoop(read)) && (read == 0x93 || read == 0xe0) &&
    s.tgl % 2 == 1 && base + 15 < 0x1_0000 && ClearOf(s.dptr0, 256, base, 15)
  }

  lemma {:induction false} BytesCopied(rom: Rom, s: Cpu, base: nat, read: nat, k: nat) returns (t: Cpu)
    requires AtBlock(s, base, read) && s.pc == base + 2 && s.iram[RegAddr(s, 1)] == 0 && k <= 256
    ensures Reaches(rom, s, t) && Valid(t) && t == Copied(rom, s, base, read, k, t.acc)
    decreases k
  {
    hide CopyLoop, HasCode, Reaches, Addr, Forward;
    if k == 0 {
      t := s;
      ReachesSelf(rom, s);
      FirstByte(rom, s, read);
    } else {
      var u := BytesCopied(rom, s, base, read, k - 1);
      t := NextByte(rom, s, u, base, read, k - 1);
    }
  }

  lemma FirstByte(rom: Rom, s: Cpu, read: nat)
    requires Valid(s)
    ensures Addr(s.dptr0, 0) == s.dptr0 && Addr(s.dptr1, 0) == s.dptr1
    ensures Forward(rom, s.bank, read, s.xram, s.dptr1, s.dptr0, 0) == s.xram
  {
  }

  lemma ForwardOneMore(rom: Rom, bank: nat, read: nat, m: seq<nat>, src: nat, dst: nat, n: nat)
    requires |m| == 0x1_0000
    ensures var before := Forward(rom, bank, read, m, src, dst, n);
            Forward(rom, bank, read, m, src, dst, n + 1) ==
            before[Addr(dst, n) := ByteAt(rom, bank, read, before, Addr(src, n))]
  {
  }

  lemma ClearFewer(dst: nat, n: nat, base: nat, size: nat, k: nat)
    requires ClearOf(dst, n, base, size) && k <= n
    ensures ClearOf(dst, k, base, size)
  {
  }

  lemma NextByte(rom: Rom, s: Cpu, u: Cpu, base: nat, read: nat, k: nat) returns (t: Cpu)
    requires AtBlock(s, base, read) && s.pc == base + 2 && s.iram[RegAddr(s, 1)] == 0 && k < 256
    requires Reaches(rom, s, u) && Valid(u) && u == Copied(rom, s, base, read, k, u.acc)
    ensures Reaches(rom, s, t) && Valid(t) && t == Copied(rom, s, base, read, k + 1, t.acc)
  {
    hide CopyLoop, HasCode, Reaches, Addr, Forward, SourceByte, ByteAt;
    ClearFewer(s.dptr0, 256, base, 15, k);
    CodeKeptForward(rom, s.bank, read, s.xram, s.dptr1, s.dptr0, k, base, CopyLoop(read));
    CountDown(k);
    ToggleTwice(s.tgl, k);
    t := OneByte(rom, u, base, read);
    ReachesTrans(rom, s, u, t);
    SourceIs(rom, u, read, u.dptr1);
    ForwardOneMore(rom, s.bank, read, s.xram, s.dptr1, s.dptr0, k);
    AddrAdds(s.dptr0, k, 1);
    AddrAdds(s.dptr1, k, 1);
  }

  /* ---------- The whole loop ---------- */

  /** How often `djnz` goes around for a count byte: zero stands for 256. */
  function Rounds(n: nat): nat { if n == 0 then 256 else n }

  lemma ClearPart(dst: nat, n: nat, base: nat, size: nat, from: nat, k: nat)
    requires ClearOf(dst, n, base, size) && from + k <= n
    ensures ClearOf(Addr(dst, from), k, base, size)
  {
    hide Addr;
    forall i | 0 <= i < k
      ensures Addr(Addr(dst, from), i) == Addr(dst, from + i)
    {
      AddrAdds(dst, from, i);
    }
  }

  /** The state when m blocks are copied. */
  ghost function CopiedBlocks(rom: Rom, s: Cpu, base: nat, read: nat, m: nat, acc: nat): Cpu
    requires Valid(s) && m <= Rounds(s.iram[RegAddr(s, 0)])
  {
    var left := Rounds(s.iram[RegAddr(s, 0)]) - m;
    s.(pc := if left > 0 then base else base + 15, acc := acc,
       dptr0 := Addr(s.dptr0, 256 * m), dptr1 := Addr(s.dptr1, 256 * m),
       iram := s.iram[RegAddr(s, 1) := if m == 0 then s.iram[RegAddr(s, 1)] else 0][RegAddr(s, 0) := left % 256],
       xram := Forward(rom, s.bank, read, s.xram, s.dptr1, s.dptr0, 256 * m))
  }

  /** The loop is about to start, and will not overwrite itself. */
  predicate AtLoop(s: Cpu, base: nat, read: nat) {
    Valid(s) && HasCode(s.xram, base, CopyLoop(read)) && (read == 0x93 || read == 0xe0) && s.pc == base &&
    s.tgl % 2 == 1 && base + 15 < 0x1_0000 && ClearOf(s.dptr0, 256 * Rounds(s.iram[RegAddr(s, 0)]), base, 15)
  }

  /** Starting a block: r1 is zeroed. */
  lemma BlockStarts(rom: Rom, s: Cpu, u: Cpu, base: nat, read: nat, m: nat) returns (v: Cpu)
    requires AtLoop(s, base, read) && m < Rounds(s.iram[RegAddr(s, 0)])
    requires Reaches(rom, s, u) && Valid(u) && u == CopiedBlocks(rom, s, base, read, m, u.acc)
    ensures Reaches(rom, s, v) && Valid(v) && v == u.(pc := base + 2, iram := u.iram[RegAddr(s, 1) := 0])
    ensures AtBlock(v, base, read)
  {
    hide CopyLoop, HasCode, Reaches, Addr, Forward, DecodeIn, ClearOf;
    var n := 256 * Rounds(s.iram[RegAddr(s, 0)]);
    ClearFewer(s.dptr0, n, base, 15, 256 * m);
    CodeKeptForward(rom, s.bank, read, s.xram, s.dptr1, s.dptr0, 256 * m, base, CopyLoop(read));
    CopyLoopOps(read);
    v := DoMovReg(rom, s, u, base, CopyLoop(read), 0, 1, 0);
    ClearPart(s.dptr0, n, base, 15, 256 * m, 256);
  }

  lemma TurnedAround(g: nat)
    requires g < 256
    ensures (g + 512) % 256 == g
  {
  }

  /** The block's last instruction counts it. */
  lemma BlockEnds(rom: Rom, s: Cpu, w: Cpu, base: nat, read: nat) returns (t: Cpu)
    requires Valid(s) && AtBlock(s, base, read) && Reaches(rom, s, w) && Valid(w)
    requires w == Copied(rom, s, base, read, 256, w.acc)
    ensures Reaches(rom, s, t) && Valid(t)
    ensures var r0, r1 := RegAddr(s, 0), RegAddr(s, 1);
            var v := (s.iram[r0] + 255) % 256;
            t == w.(pc := if v != 0 then base else base + 15, tgl := s.tgl, iram := s.iram[r1 := 0][r0 := v])
  {
    hide CopyLoop, HasCode, Reaches, Addr, Forward, DecodeIn, ClearOf, Target;
    CodeKeptForward(rom, s.bank, read, s.xram, s.dptr1, s.dptr0, 256, base, CopyLoop(read));
    CopyLoopOps(read);
    Jumps(base);
    TurnedAround(s.tgl);
    t := DoDjnz(rom, s, w, base, CopyLoop(read), 13, 0, 0xf1);
  }

  lemma CountsDown(n: nat, m: nat)
    requires n < 256 && m < Rounds(n)
    ensures ((Rounds(n) - m) % 256 + 255) % 256 == (Rounds(n) - (m + 1)) % 256
    ensures (Rounds(n) - (m + 1)) % 256 == 0 <==> Rounds(n) - (m + 1) == 0
  {
  }

  lemma NextBlock(rom: Rom, s: Cpu, u: Cpu, base: nat, read: nat, m: nat) returns (t: Cpu)
    requires AtLoop(s, base, read) && m < Rounds(s.iram[RegAddr(s, 0)])
    requires Reaches(rom, s, u) && Valid(u) && u == CopiedBlocks(rom, s, base, read, m, u.acc)
    ensures Reaches(rom, s, t) && Valid(t) && t == CopiedBlocks(rom, s, base, read, m + 1, t.acc)
  {
    hide CopyLoop, HasCode, Reaches, Addr, Forward, ClearOf, Rounds;
    var v := BlockStarts(rom, s, u, base, read, m);
    var w := BytesCopied(rom, v, base, read, 256);
    t := BlockEnds(rom, v, w, base, read);
    ReachesTrans(rom, s, v, t);
    CountsDown(s.iram[RegAddr(s, 0)], m);
    ForwardJoins(rom, s.bank, read, s.xram, s.dptr1, s.dptr0, 256 * m, 256);
    AddrAdds(s.dptr0, 256 * m, 256);
    AddrAdds(s.dptr1, 256 * m, 256);
  }

  lemma {:induction false} BlocksCopied(rom: Rom, s: Cpu, base: nat, read: nat, m: nat) returns (t: Cpu)
    requires AtLoop(s, base, read) && m <= Rounds(s.iram[RegAddr(s, 0)])
    ensures Reaches(rom, s, t) && Valid(t) && t == CopiedBlocks(rom, s, base, read, m, t.acc)
    decreases m
  {
    hide CopyLoop, HasCode, Reaches, Addr, Forward, ClearOf;
    if m == 0 {
      t := s;
      ReachesSelf(rom, s);
      FirstByte(rom, s, read);
    } else {
      var u := BlocksCopied(rom, s, base, read, m - 1);
      t := NextBlock(rom, s, u, base, read, m - 1);
    }
  }

  /** The nested loop ends, behind itself, and has copied 256 bytes upwards for each round, from any source
      to any destination that does not overwrite the loop. */
  lemma LoopCopies(rom: Rom, s: Cpu, base: nat, read: nat) returns (t: Cpu)
    requires AtLoop(s, base, read)
    ensures var n := 256 * Rounds(s.iram[RegAddr(s, 0)]);
            Reaches(rom, s, t) && Valid(t) &&
            t == s.(pc := base + 15, acc := t.acc, dptr0 := Addr(s.dptr0, n), dptr1 := Addr(s.dptr1, n),
                    iram := s.iram[RegAddr(s, 0) := 0][RegAddr(s, 1) := 0],
                    xram := Forward(rom, s.bank, read, s.xram, s.dptr1, s.dptr0, n))
  {
    hide CopyLoop, HasCode, Reaches, Addr, Forward, ClearOf;
    t := BlocksCopied(rom, s, base, read, Rounds(s.iram[RegAddr(s, 0)]));
    assert t.iram == s.iram[RegAddr(s, 0) := 0][RegAddr(s, 1) := 0];
  }

  /* ---------- Copies without overlap ---------- */

  /** The destination is apart from the part of the source that lies in the same memory. */
  predicate Apart(read: nat, src: nat, dst: nat, n: nat) {
    forall i, j :: 0 <= i < n && 0 <= j < n && (read == 0xe0 || Addr(src, j) >= 0xe000) ==> Addr(dst, i) != Addr(src, j)
  }

  /** Such a copy is a memory copy: the destination receives the source as it was. */
  lemma {:induction false} ForwardIsCopy(rom: Rom, s: Cpu, read: nat, src: nat, dst: nat, n: nat)
    requires Valid(s) && (read == 0x93 || read == 0xe0) && Apart(read, src, dst, n)
    ensures Forward(rom, s.bank, read, s.xram, src, dst, n) == Written(s.xram, dst, SourceBytes(rom, s, read, src, n))
    decreases n
  {
    hide Addr, SourceByte, SourceBytes, Written;
    if n == 0 {
      NothingCopied(rom, s, read, src, dst);
    } else {
      ForwardIsCopy(rom, s, read, src, dst, n - 1);
      var a := Addr(src, n - 1);
      SourceIs(rom, s, read, a);
      if read == 0xe0 || a >= 0xe000 { ForwardElsewhere(rom, s.bank, read, s.xram, src, dst, n - 1, a); }
      SourceOneMore(rom, s, read, src, n - 1);
      WrittenOneMore(s.xram, dst, SourceBytes(rom, s, read, src, n - 1), SourceByte(rom, s, read, a));
    }
  }

  lemma NothingCopied(rom: Rom, s: Cpu, read: nat, src: nat, dst: nat)
    requires Valid(s)
    ensures Written(s.xram, dst, SourceBytes(rom, s, read, src, 0)) == s.xram
  {
  }

  lemma {:induction false} WrittenJoin(m: seq<nat>, d: nat, a: seq<nat>, b: seq<nat>)
    requires |m| == 0x1_0000
    ensures Written(Written(m, d, a), Addr(d, |a|), b) == Written(m, d, a + b)
    decreases |b|
  {
    hide Addr;
    if b == [] {
      assert a + b == a;
    } else {
      var c := b[..|b| - 1];
      WrittenJoin(m, d, a, c);
      AddrAdds(d, |a|, |c|);
      WrittenOneMore(m, d, a + c, b[|b| - 1]);
      assert a + b == a + c + [b[|b| - 1]];
    }
  }

  /** Memory after such a copy, byte by byte. */
  lemma CopiedAt(rom: Rom, s: Cpu, read: nat, src: nat, dst: nat, n: nat, p: nat)
    requires Valid(s) && (read == 0x93 || read == 0xe0) && Apart(read, src, dst, n)
    requires n <= 0x1_0000 && p < 0x1_0000 && dst < 0x1_0000
    ensures var i := (p - dst) % 0x1_0000;
            Forward(rom, s.bank, read, s.xram, src, dst, n)[p] ==
            if i < n then SourceByte(rom, s, read, Addr(src, i)) else s.xram[p]
  {
    hide SourceByte, Written, Apart, Forward;
    ForwardIsCopy(rom, s, read, src, dst, n);
    WrittenAt(s.xram, dst, SourceBytes(rom, s, read, src, n), p);
  }

  /** A count byte of zero copies 64 KiB, which hits the loop wherever the destination begins. */
  lemma ZeroOverwrites(s: Cpu, base: nat, read: nat)
    requires base + 15 < 0x1_0000 && s.dptr0 < 0x1_0000
    ensures !ClearOf(s.dptr0, 256 * Rounds(0), base, 15)
  {
    var i := (base - s.dptr0) % 0x1_0000;
    AddrIs(s.dptr0, i, base);
    assert Addr(s.dptr0, i) == base;
  }
}
