/** The 8051's external memory over the bus: an address register of two bytes that writes
    advance and reads do not. */
module Exram {
  import opened Verbs

  const ADDRESS_LOW := 0x70d
  const ADDRESS_HIGH := 0x70e
  const DATA_WRITE := 0x707
  const DATA_READ := 0xf07

  /** The memory, 64 KiB of bytes. */
  predicate IsExram(m: seq<nat>) { |m| == 0x1_0000 && forall i :: 0 <= i < |m| ==> m[i] < 256 }

  /** Address a + i, sixteen bits wide. */
  function Addr(a: nat, i: nat): (r: nat)
    ensures r < 0x1_0000
  {
    (a + i) % 0x1_0000
  }

  /** The bytes from address a on, going around at the top. */
  function Bytes(m: seq<nat>, a: nat, n: nat): (r: seq<nat>)
    requires |m| == 0x1_0000
    ensures |r| == n
  {
    seq(n, i requires 0 <= i < n => m[Addr(a, i)])
  }

  /** The memory after bytes are written from address a on. */
  function Written(m: seq<nat>, a: nat, bytes: seq<nat>): (r: seq<nat>)
    requires |m| == 0x1_0000
    ensures |r| == |m|
    decreases |bytes|
  {
    if bytes == [] then m
    else Written(m, a, bytes[..|bytes| - 1])[Addr(a, |bytes| - 1) := bytes[|bytes| - 1]]
  }

  /** The device behind the bus. */
  class Device {
    var low: nat
    var high: nat
    var exram: seq<nat>
    ghost var sent: seq<Verb>

    ghost predicate Valid()
      reads this
    {
      low < 256 && high < 256 && |exram| == 0x1_0000 && IsExram(exram)
    }

    function Address(): nat
      reads this
    {
      high * 256 + low
    }

    constructor (exram: seq<nat>, low: nat, high: nat)
      requires IsExram(exram) && low < 256 && high < 256
      ensures Valid() && this.exram == exram && this.low == low && this.high == high && sent == []
    {
      this.exram, this.low, this.high, sent := exram, low, high, [];
    }

    /** One verb at the device. */
    method Ioctl(v: Verb) returns (res: nat)
      requires Valid() && v.data < 256
      modifies this
      ensures Valid() && sent == old(sent) + [v]
      ensures low == if v.verb == ADDRESS_LOW then v.data
                     else if v.verb == DATA_WRITE then (old(Address()) + 1) % 256 else old(low)
      ensures high == if v.verb == ADDRESS_HIGH then v.data
                      else if v.verb == DATA_WRITE then Addr(old(Address()), 1) / 256 else old(high)
      ensures exram == if v.verb == DATA_WRITE then old(exram)[old(Address()) := v.data] else old(exram)
      ensures res == if v.verb == DATA_READ then old(exram)[old(Address())] else 0
    {
      res := 0;
      sent := sent + [v];
      if v.verb == ADDRESS_LOW {
        low := v.data;
      } else if v.verb == ADDRESS_HIGH {
        high := v.data;
      } else if v.verb == DATA_WRITE {
        var a := Address();
        exram := exram[a := v.data];
        low, high := (a + 1) % 256, Addr(a, 1) / 256;
      } else if v.verb == DATA_READ {
        res := exram[Address()];
      }
    }
  }

  /** chipio_8051_set_addr */
  method SetAddr(dev: Device, addr: nat)
    requires dev.Valid() && addr < 0x1_0000
    modifies dev
    ensures dev.Valid() && dev.exram == old(dev.exram) && dev.low == addr % 256 && dev.high == addr / 256
    ensures dev.sent == old(dev.sent) + [HdaVerb(ADDRESS_LOW, addr % 256), HdaVerb(ADDRESS_HIGH, addr / 256)]
  {
    ParamCarried(ADDRESS_LOW, addr % 256);
    ParamCarried(ADDRESS_HIGH, addr / 256);
    var _ := dev.Ioctl(HdaVerb(ADDRESS_LOW, addr % 256));
    var _ := dev.Ioctl(HdaVerb(ADDRESS_HIGH, addr / 256));
  }

  /** chipio_8051_set_addr_lower */
  method SetAddrLower(dev: Device, addr: nat)
    requires dev.Valid() && addr < 256
    modifies dev
    ensures dev.Valid() && dev.exram == old(dev.exram) && dev.low == addr && dev.high == old(dev.high)
  {
    ParamCarried(ADDRESS_LOW, addr);
    var _ := dev.Ioctl(HdaVerb(ADDRESS_LOW, addr));
  }

  /** chipio_8051_read_exram_data */
  method ReadExramData(dev: Device) returns (data: nat)
    requires dev.Valid()
    modifies dev
    ensures dev.Valid() && dev.exram == old(dev.exram) && dev.low == old(dev.low) && dev.high == old(dev.high)
    ensures data == dev.exram[dev.Address()] && data < 256
  {
    ParamCarried(DATA_READ, 0);
    data := dev.Ioctl(HdaVerb(DATA_READ, 0));
    data := data % 256;
  }

  lemma AddressParts(a: nat, i: nat)
    ensures Addr(a, i) / 256 * 256 + Addr(a, i) % 256 == Addr(a, i) && Addr(a, i) / 256 < 256
    ensures Addr(a, i) / 256 * 256 != 0xff
  {
  }

  lemma AddressBytes(a: nat)
    ensures a % 0x1_0000 / 256 * 256 + a % 256 == a % 0x1_0000
    ensures a % 0x1_0000 % 256 == a % 256 && a % 0x1_0000 / 256 < 256
  {
  }

  lemma BytesFilled(m: seq<nat>, a: nat, n: nat, before: seq<nat>, after: seq<nat>, offset: nat)
    requires |m| == 0x1_0000 && |after| == |before| && offset + n <= |before|
    requires forall j :: 0 <= j < |before| ==> after[j] == if offset <= j < offset + n then m[Addr(a, j - offset)] else before[j]
    ensures after == before[..offset] + Bytes(m, a, n) + before[offset + n..]
  {
    hide Addr;
    var filled := before[..offset] + Bytes(m, a, n) + before[offset + n..];
    forall j | 0 <= j < |before|
      ensures after[j] == filled[j]
    {
      if offset <= j < offset + n { assert filled[j] == Bytes(m, a, n)[j - offset]; }
    }
  }

  /** chipio_8051_read_exram_data_range: the upper address byte is sent only when it changes.
      The result is that of plain addressing, around the top of memory too. */
  method ReadExramDataRange(dev: Device, startAddr: nat, count: nat, buf: array<nat>, offset: nat)
    requires dev.Valid() && startAddr < 0x1_0000 && count < 0x1_0000 && offset + count <= buf.Length
    modifies dev, buf
    ensures dev.Valid() && dev.exram == old(dev.exram)
    ensures buf[..] == old(buf[..offset]) + Bytes(dev.exram, startAddr, count) + old(buf[offset + count..])
    ensures count > 0 ==> dev.Address() == Addr(startAddr, count - 1)
  {
    hide IsExram, Addr, Bytes;
    var curUpper := 0xff;
    for i := 0 to count
      invariant dev.Valid() && dev.exram == old(dev.exram)
      invariant forall j :: 0 <= j < buf.Length ==>
                  buf[j] == if offset <= j < offset + i then dev.exram[Addr(startAddr, j - offset)] else old(buf[j])
      invariant if i == 0 then curUpper == 0xff
                else curUpper == dev.high * 256 && dev.Address() == Addr(startAddr, i - 1)
    {
      var a := Addr(startAddr, i);
      AddressParts(startAddr, i);
      if a / 256 * 256 != curUpper {
        curUpper := a / 256 * 256;
        SetAddr(dev, a);
      } else {
        SetAddrLower(dev, a % 256);
      }
      buf[offset + i] := ReadExramData(dev);
    }
    BytesFilled(dev.exram, startAddr, count, old(buf[..]), buf[..], offset);
  }

  /** read_8051_exram_range_with_progress: eight chunks and what is left over, with offset and
      address sixteen bits wide. */
  method ReadExramRangeWithProgress(dev: Device, startAddr: nat, cnt: nat, buf: array<nat>)
    requires dev.Valid() && startAddr < 0x1_0000 && cnt < 0x1_0000 && buf.Length == cnt
    modifies dev, buf
    ensures dev.Valid() && dev.exram == old(dev.exram)
    ensures buf[..] == Bytes(dev.exram, startAddr, cnt)
  {
    hide Bytes, Addr, IsExram;
    var chunkSize := if cnt < 8 then 1 else cnt / 8;
    assert Bytes(dev.exram, startAddr, 0) == [];
    assert Addr(startAddr, 0) == startAddr by { AddrZero(startAddr); }
    var curAddr, curOffset, dataLeft := startAddr, 0, cnt;
    while dataLeft > 0
      invariant dev.Valid() && dev.exram == old(dev.exram) && 0 <= dataLeft <= cnt
      invariant dataLeft > 0 ==> curOffset == cnt - dataLeft && curAddr == Addr(startAddr, curOffset)
      invariant buf[..cnt - dataLeft] == Bytes(dev.exram, startAddr, cnt - dataLeft)
      decreases dataLeft
    {
      ghost var size := if dataLeft < chunkSize then dataLeft else chunkSize;
      if dataLeft < chunkSize {
        ReadExramDataRange(dev, curAddr, dataLeft, buf, curOffset);
      } else {
        ReadExramDataRange(dev, curAddr, chunkSize, buf, curOffset);
      }
      BytesJoin(dev.exram, startAddr, curOffset, size);
      assert buf[..curOffset + size] == buf[..curOffset] + buf[curOffset..curOffset + size];
      AddrAdds(startAddr, curOffset, chunkSize);
      curOffset := (curOffset + chunkSize) % 0x1_0000;
      curAddr := Addr(curAddr, chunkSize);
      dataLeft := if dataLeft < chunkSize then 0 else dataLeft - chunkSize;
    }
    assert buf[..cnt] == buf[..];
  }

  lemma AddrZero(a: nat)
    requires a < 0x1_0000
    ensures Addr(a, 0) == a
  {
  }

  lemma BytesJoin(m: seq<nat>, a: nat, n: nat, k: nat)
    requires |m| == 0x1_0000
    ensures Bytes(m, a, n) + Bytes(m, Addr(a, n), k) == Bytes(m, a, n + k)
  {
    forall i | 0 <= i < k
      ensures Bytes(m, Addr(a, n), k)[i] == Bytes(m, a, n + k)[n + i]
    {
      AddrAdds(a, n, i);
    }
  }

  lemma AddrAdds(a: nat, i: nat, j: nat)
    ensures Addr(Addr(a, i), j) == Addr(a, i + j)
  {
  }

  /** chipio_8051_write_exram_data_range: the address is sent once, the device advances it. */
  method WriteExramDataRange(dev: Device, startAddr: nat, bytes: seq<nat>)
    requires dev.Valid() && startAddr < 0x1_0000 && |bytes| < 0x1_0000 && forall i :: 0 <= i < |bytes| ==> bytes[i] < 256
    modifies dev
    ensures dev.Valid() && dev.exram == Written(old(dev.exram), startAddr, bytes)
    ensures dev.Address() == Addr(startAddr, |bytes|)
    ensures dev.sent == old(dev.sent) + RunVerbs(startAddr, bytes)
  {
    hide Written, Addr, RunVerbs, IsExram;
    SetAddr(dev, startAddr);
    AddressBytes(startAddr);
    AddrZero(startAddr);
    NothingWritten(dev.exram, startAddr);
    for i := 0 to |bytes|
      invariant dev.Valid() && dev.exram == Written(old(dev.exram), startAddr, bytes[..i])
      invariant dev.Address() == Addr(startAddr, i)
      invariant dev.sent == old(dev.sent) + RunVerbs(startAddr, bytes[..i])
    {
      ParamCarried(DATA_WRITE, bytes[i]);
      var _ := dev.Ioctl(HdaVerb(DATA_WRITE, bytes[i]));
      OneMoreWritten(old(dev.exram), startAddr, bytes, i);
      AddrAdds(startAddr, i, 1);
      AddrBytes(Addr(startAddr, i));
    }
    assert bytes[..|bytes|] == bytes;
  }

  /** chipio_8051_write_exram_at_addr */
  method WriteExramAtAddr(dev: Device, addr: nat, data: nat)
    requires dev.Valid() && addr < 0x1_0000 && data < 256
    modifies dev
    ensures dev.Valid() && dev.exram == Written(old(dev.exram), addr, [data])
  {
    hide Written, IsExram;
    SetAddr(dev, addr);
    AddressBytes(addr);
    AddrZero(addr);
    NothingWritten(dev.exram, addr);
    OneMoreWritten(dev.exram, addr, [data], 0);
    assert [data][..0] == [] && [data][..1] == [data];
    ParamCarried(DATA_WRITE, data);
    var _ := dev.Ioctl(HdaVerb(DATA_WRITE, data));
  }

  lemma NothingWritten(m: seq<nat>, a: nat)
    requires |m| == 0x1_0000
    ensures Written(m, a, []) == m
    ensures RunVerbs(a, []) == [HdaVerb(ADDRESS_LOW, a % 256), HdaVerb(ADDRESS_HIGH, a / 256)]
  {
  }

  lemma OneMoreWritten(m: seq<nat>, a: nat, bytes: seq<nat>, i: nat)
    requires |m| == 0x1_0000 && i < |bytes|
    ensures Written(m, a, bytes[..i + 1]) == Written(m, a, bytes[..i])[Addr(a, i) := bytes[i]]
    ensures RunVerbs(a, bytes[..i + 1]) == RunVerbs(a, bytes[..i]) + [HdaVerb(DATA_WRITE, bytes[i])]
  {
    assert bytes[..i + 1][..i] == bytes[..i];
  }

  lemma AddrBytes(a: nat)
    ensures Addr(a, 1) / 256 * 256 + (a + 1) % 256 == Addr(a, 1)
  {
    AddressBytes(a + 1);
  }

  /** The verbs of a write run. */
  function RunVerbs(addr: nat, bytes: seq<nat>): seq<Verb> {
    [HdaVerb(ADDRESS_LOW, addr % 256), HdaVerb(ADDRESS_HIGH, addr / 256)] +
    seq(|bytes|, i requires 0 <= i < |bytes| => HdaVerb(DATA_WRITE, bytes[i]))
  }

  /** What a range write leaves behind is what a range read finds, and nothing else changes. */
  lemma {:induction false} WrittenAt(m: seq<nat>, a: nat, bytes: seq<nat>, p: nat)
    requires |m| == 0x1_0000 && a < 0x1_0000 && |bytes| <= 0x1_0000 && p < 0x1_0000
    ensures var d := (p - a) % 0x1_0000;
            Written(m, a, bytes)[p] == if d < |bytes| then bytes[d] else m[p]
    decreases |bytes|
  {
    if bytes != [] {
      var n := |bytes| - 1;
      WrittenAt(m, a, bytes[..n], p);
      AddrIs(a, n, p);
    }
  }

  lemma AddrIs(a: nat, n: nat, p: nat)
    requires a < 0x1_0000 && n < 0x1_0000 && p < 0x1_0000
    ensures Addr(a, n) == p <==> (p - a) % 0x1_0000 == n
  {
  }

  lemma WriteThenRead(m: seq<nat>, a: nat, bytes: seq<nat>)
    requires |m| == 0x1_0000 && a < 0x1_0000 && |bytes| < 0x1_0000
    ensures Bytes(Written(m, a, bytes), a, |bytes|) == bytes
  {
    forall i | 0 <= i < |bytes|
      ensures Bytes(Written(m, a, bytes), a, |bytes|)[i] == bytes[i]
    {
      WrittenAt(m, a, bytes, Addr(a, i));
      AddrIs(a, i, Addr(a, i));
    }
  }
}
