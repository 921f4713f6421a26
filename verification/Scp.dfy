/** DSP commands (SCP messages): their header word, the verbs they are sent as, and the
    trace decoder that puts the verbs together again. */
module Scp {
  import opened Bits

  /* ---------- The header word ---------- */

  /** struct scp_data without the values. */
  datatype ScpData = ScpData(dataSize: nat, errorFlag: nat, respFlag: nat, deviceFlag: nat,
                             req: nat, getFlag: nat, sourceId: nat, targetId: nat)

  /** get_scp_data */
  function GetScpData(header: nat): ScpData {
    ScpData(header / 0x800_0000 % 32, header / 0x400_0000 % 2, header / 0x200_0000 % 2, header / 0x100_0000 % 2,
            header / 0x2_0000 % 128, header / 0x1_0000 % 2, header / 0x100 % 256, header % 256)
  }

  /** The fields cut to their widths. */
  function Masked(d: ScpData): ScpData {
    ScpData(d.dataSize % 32, d.errorFlag % 2, d.respFlag % 2, d.deviceFlag % 2,
            d.req % 128, d.getFlag % 2, d.sourceId % 256, d.targetId % 256)
  }

  /** The word with these fields, most significant first. */
  function HeaderOf(d: ScpData): nat {
    ((((((d.dataSize * 2 + d.errorFlag) * 2 + d.respFlag) * 2 + d.deviceFlag) * 128 + d.req) * 2 + d.getFlag) * 256
     + d.sourceId) * 256 + d.targetId
  }

  lemma Divisions(h: nat)
    ensures h / 0x1_0000 == h / 256 / 256 && h / 0x2_0000 == h / 0x1_0000 / 2
    ensures h / 0x100_0000 == h / 0x2_0000 / 128 && h / 0x200_0000 == h / 0x100_0000 / 2
    ensures h / 0x400_0000 == h / 0x200_0000 / 2 && h / 0x800_0000 == h / 0x400_0000 / 2
  {
  }

  lemma Digit256(h: nat, l: nat)
    requires l < 256
    ensures (h * 256 + l) / 256 == h && (h * 256 + l) % 256 == l
  {
  }

  lemma Digit128(h: nat, l: nat)
    requires l < 128
    ensures (h * 128 + l) / 128 == h && (h * 128 + l) % 128 == l
  {
  }

  lemma Digit2(h: nat, l: nat)
    requires l < 2
    ensures (h * 2 + l) / 2 == h && (h * 2 + l) % 2 == l
  {
  }

  lemma MaskedRange(d: ScpData)
    requires d == Masked(d)
    ensures d.dataSize < 32 && d.errorFlag < 2 && d.respFlag < 2 && d.deviceFlag < 2
    ensures d.req < 128 && d.getFlag < 2 && d.sourceId < 256 && d.targetId < 256
  {
  }

  /** Reading a header digit by digit. */
  function Digits(h: nat): ScpData {
    var b := h / 256;
    var c := b / 256;
    var d := c / 2;
    var e := d / 128;
    var f := e / 2;
    var g := f / 2;
    ScpData(g / 2 % 32, g % 2, f % 2, e % 2, d % 128, c % 2, b % 256, h % 256)
  }

  lemma DigitsAreFields(h: nat)
    ensures Digits(h) == GetScpData(h)
  {
    Divisions(h);
    assert h / 0x100 == h / 256;
  }

  lemma HeaderFits(d: ScpData)
    requires d == Masked(d)
    ensures HeaderOf(d) < 0x1_0000_0000
  {
    hide Masked;
    MaskedRange(d);
  }

  lemma HeaderDigits(d: ScpData)
    requires d == Masked(d)
    ensures Digits(HeaderOf(d)) == d
  {
    hide Masked, HeaderOf;
    MaskedRange(d);
    var i := d.dataSize;
    var g := i * 2 + d.errorFlag;
    var f := g * 2 + d.respFlag;
    var e := f * 2 + d.deviceFlag;
    var q := e * 128 + d.req;
    var c := q * 2 + d.getFlag;
    var b := c * 256 + d.sourceId;
    Horner(d, b * 256 + d.targetId, b, c, q, e, f, g);
    Digit256(b, d.targetId);
    Digit256(c, d.sourceId);
    Digit2(q, d.getFlag);
    Digit128(e, d.req);
    Digit2(f, d.deviceFlag);
    Digit2(g, d.respFlag);
    Digit2(i, d.errorFlag);
    assert i % 32 == i;
  }

  /** Every masked set of fields is read back from its word. */
  lemma FieldsReadBack(d: ScpData)
    requires d == Masked(d)
    ensures HeaderOf(d) < 0x1_0000_0000 && GetScpData(HeaderOf(d)) == d
  {
    hide Masked, GetScpData, HeaderOf, Digits;
    HeaderFits(d);
    HeaderDigits(d);
    DigitsAreFields(HeaderOf(d));
  }

  lemma Split256(x: nat)
    ensures x == x / 256 * 256 + x % 256
  {
  }

  lemma Split128(x: nat)
    ensures x == x / 128 * 128 + x % 128
  {
  }

  lemma Split2(x: nat)
    ensures x == x / 2 * 2 + x % 2
  {
  }

  lemma Horner(m: ScpData, h: nat, b: nat, c: nat, d: nat, e: nat, f: nat, g: nat)
    requires g == m.dataSize * 2 + m.errorFlag && f == g * 2 + m.respFlag && e == f * 2 + m.deviceFlag
    requires d == e * 128 + m.req && c == d * 2 + m.getFlag && b == c * 256 + m.sourceId && h == b * 256 + m.targetId
    ensures HeaderOf(m) == h
  {
  }

  /** And every word is the word of its fields. */
  lemma WordReadBack(h: nat)
    requires h < 0x1_0000_0000
    ensures HeaderOf(GetScpData(h)) == h && Masked(GetScpData(h)) == GetScpData(h)
  {
    hide GetScpData, Masked, HeaderOf;
    DigitsAreFields(h);
    DigitsMasked(h);
    SmallTop(h);
    var b := h / 256;
    var c := b / 256;
    var d := c / 2;
    var e := d / 128;
    var f := e / 2;
    var g := f / 2;
    Split256(h);
    Split256(b);
    Split2(c);
    Split128(d);
    Split2(e);
    Split2(f);
    Split2(g);
    Horner(Digits(h), h, b, c, d, e, f, g);
  }

  lemma SmallTop(h: nat)
    requires h < 0x1_0000_0000
    ensures h / 256 / 256 / 2 / 128 / 2 / 2 / 2 < 32
  {
    Divisions(h);
  }

  lemma DigitsMasked(h: nat)
    ensures Masked(Digits(h)) == Digits(h)
  {
    forall x: nat
      ensures x % 32 % 32 == x % 32 && x % 2 % 2 == x % 2 && x % 128 % 128 == x % 128 && x % 256 % 256 == x % 256
    {
    }
  }

  /** create_scp_header: the masked fields or-ed together. */
  method CreateScpHeader(d: ScpData) returns (header: nat)
    ensures header < 0x1_0000_0000 && GetScpData(header) == Masked(d)
  {
    hide Or, Shl, Masked, HeaderOf, GetScpData;
    var m := Masked(d);
    header := Shl(m.dataSize, 27);
    header := Or(header, Shl(m.errorFlag, 26));
    header := Or(header, Shl(m.respFlag, 25));
    header := Or(header, Shl(m.deviceFlag, 24));
    header := Or(header, Shl(m.req, 17));
    header := Or(header, Shl(m.getFlag, 16));
    header := Or(header, Shl(m.sourceId, 8));
    header := Or(header, m.targetId);
    MaskedTwice(d);
    OrIsHeader(m);
    FieldsReadBack(m);
  }

  lemma MaskedTwice(d: ScpData)
    ensures Masked(Masked(d)) == Masked(d)
  {
  }

  lemma HeaderPowers()
    ensures Pow2(0) == 1 && Pow2(8) == 0x100 && Pow2(16) == 0x1_0000 && Pow2(17) == 0x2_0000
    ensures Pow2(24) == 0x100_0000 && Pow2(25) == 0x200_0000 && Pow2(26) == 0x400_0000 && Pow2(27) == 0x800_0000
  {
  }

  lemma OrIsHeader(m: ScpData)
    requires m == Masked(m)
    ensures Or(Or(Or(Or(Or(Or(Or(Shl(m.dataSize, 27), Shl(m.errorFlag, 26)), Shl(m.respFlag, 25)),
                              Shl(m.deviceFlag, 24)), Shl(m.req, 17)), Shl(m.getFlag, 16)),
                  Shl(m.sourceId, 8)), m.targetId) == HeaderOf(m)
  {
    hide Or, Shl, Pow2, Masked;
    MaskedRange(m);
    HeaderPowers();
    ShlIsTimes(m.dataSize, 27);
    ShlIsTimes(m.errorFlag, 26);
    ShlIsTimes(m.respFlag, 25);
    ShlIsTimes(m.deviceFlag, 24);
    ShlIsTimes(m.req, 17);
    ShlIsTimes(m.getFlag, 16);
    ShlIsTimes(m.sourceId, 8);
    var a := m.dataSize;
    OrAdd(a, m.errorFlag * 0x400_0000, 27);
    var b := a * 2 + m.errorFlag;
    OrAdd(b, m.respFlag * 0x200_0000, 26);
    var c := b * 2 + m.respFlag;
    OrAdd(c, m.deviceFlag * 0x100_0000, 25);
    var d := c * 2 + m.deviceFlag;
    OrAdd(d, m.req * 0x2_0000, 24);
    var e := d * 128 + m.req;
    OrAdd(e, m.getFlag * 0x1_0000, 17);
    var f := e * 2 + m.getFlag;
    OrAdd(f, m.sourceId * 0x100, 16);
    var g := f * 256 + m.sourceId;
    OrAdd(g, m.targetId, 8);
  }
}
