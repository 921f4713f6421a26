/** The 25-bit-word field accessors of the DSP assembler and disassembler.
    An instruction is 1, 2 or 4 program words of 25 bits, numbered most significant
    bit first across the words; a field may cross word boundaries. */
module OpWords {
  import opened Bits

  /** A field of `len` bits from bit `start` on that receives `val` (or its low bits). */
  datatype Write = Write(start: nat, len: nat, val: nat)

  /** The write puts a one at flat position p. */
  predicate Covers(w: Write, p: nat) {
    w.start <= p < w.start + w.len && Bit(w.val, w.start + w.len - 1 - p)
  }

  /** Bit p of the instruction read as one flat string of 25-bit words. */
  predicate Flat(words: seq<nat>, p: nat)
    requires p < 25 * |words|
  {
    Bit(words[p / 25], 24 - p % 25)
  }

  /** The value of a field of the flat string, most significant bit first. */
  function FieldValue(words: seq<nat>, start: nat, len: nat): nat
    requires start + len <= 25 * |words|
  {
    if len == 0 then 0
    else 2 * FieldValue(words, start, len - 1) + (if Flat(words, start + len - 1) then 1 else 0)
  }

  lemma {:induction false} FieldValueBit(words: seq<nat>, start: nat, len: nat, i: nat)
    requires start + len <= 25 * |words|
    ensures Bit(FieldValue(words, start, len), i) <==> i < len && Flat(words, start + len - 1 - i)
  {
    if len == 0 {
      BitZero(i);
    } else if i > 0 {
      var v := FieldValue(words, start, len);
      assert v / 2 == FieldValue(words, start, len - 1);
      FieldValueBit(words, start, len - 1, i - 1);
    }
  }

  lemma {:induction false} FieldValueBound(words: seq<nat>, start: nat, len: nat)
    requires start + len <= 25 * |words|
    ensures FieldValue(words, start, len) < Pow2(len)
  {
    if len > 0 { FieldValueBound(words, start, len - 1); }
  }

  /** set_bits_in_word */
  function SetBitsInWord(word: nat, bitStart: nat, len: nat, val: nat): nat
    requires bitStart + len <= 25
  {
    Or(word, Shl(Low(val, len), 25 - (bitStart + len)))
  }

  /** extract_bits_from_word */
  function ExtractBitsFromWord(word: nat, bitStart: nat, len: nat): nat
    requires bitStart + len <= 25
  {
    Low(Shr(word, 25 - (bitStart + len)), len)
  }

  lemma SetBitsInWordBit(word: nat, bitStart: nat, len: nat, val: nat, j: nat)
    requires bitStart + len <= 25
    ensures var sh := 25 - (bitStart + len);
            Bit(SetBitsInWord(word, bitStart, len, val), j) <==>
            Bit(word, j) || (sh <= j < sh + len && Bit(val, j - sh))
  {
    var sh := 25 - (bitStart + len);
    BitOr(word, Shl(Low(val, len), sh), j);
    BitShl(Low(val, len), sh, j);
    if j >= sh { BitLow(val, len, j - sh); }
  }

  lemma ExtractBitsBit(word: nat, bitStart: nat, len: nat, j: nat)
    requires bitStart + len <= 25
    ensures Bit(ExtractBitsFromWord(word, bitStart, len), j) <==>
            j < len && Bit(word, j + 25 - (bitStart + len))
  {
    var sh := 25 - (bitStart + len);
    BitLow(Shr(word, sh), len, j);
    BitShr(word, sh, j);
  }

  function Min(a: nat, b: nat): nat { if a < b then a else b }

  /** Every bit of every word, including the bits above the 25 used ones, is the old bit or
      a bit of the written field. */
  ghost predicate Sets(before: seq<nat>, after: seq<nat>, w: Write) {
    |after| == |before| &&
    forall k, j: nat :: 0 <= k < |after| ==>
      (Bit(after[k], j) <==> Bit(before[k], j) || (j < 25 && Covers(w, 25 * k + 24 - j)))
  }

  /** Two writes give the same words in either order. */
  lemma SetsCommute(words: seq<nat>, a: seq<nat>, ab: seq<nat>, b: seq<nat>, ba: seq<nat>, v: Write, w: Write)
    requires Sets(words, a, v) && Sets(a, ab, w)
    requires Sets(words, b, w) && Sets(b, ba, v)
    ensures ab == ba
  {
    hide Bit, Covers;
    forall k | 0 <= k < |ab|
      ensures ab[k] == ba[k]
    {
      forall j: nat
        ensures Bit(ab[k], j) == Bit(ba[k], j)
      {
        assert Bit(a[k], j) <==> Bit(words[k], j) || (j < 25 && Covers(v, 25 * k + 24 - j));
        assert Bit(b[k], j) <==> Bit(words[k], j) || (j < 25 && Covers(w, 25 * k + 24 - j));
      }
      BitsExt(ab[k], ba[k]);
    }
  }

  lemma SetsFlat(before: seq<nat>, after: seq<nat>, w: Write, p: nat)
    requires Sets(before, after, w) && p < 25 * |after|
    ensures Flat(after, p) <==> Flat(before, p) || Covers(w, p)
  {
    assert 25 * (p / 25) + 24 - (24 - p % 25) == p;
  }

  /** Reading a field after writing it: the old value or-ed with the low bits written. */
  lemma GetAfterSet(before: seq<nat>, after: seq<nat>, w: Write)
    requires Sets(before, after, w) && w.start + w.len <= 25 * |after|
    ensures |before| == |after|
    ensures FieldValue(after, w.start, w.len) == Or(FieldValue(before, w.start, w.len), Low(w.val, w.len))
  {
    hide Bit, Or, Low, FieldValue, Sets, Flat;
    SameLength(before, after, w);
    var old', new' := FieldValue(before, w.start, w.len), FieldValue(after, w.start, w.len);
    forall i: nat
      ensures Bit(new', i) == Bit(Or(old', Low(w.val, w.len)), i)
    {
      FieldValueBit(before, w.start, w.len, i);
      FieldValueBit(after, w.start, w.len, i);
      BitOr(old', Low(w.val, w.len), i);
      BitLow(w.val, w.len, i);
      if i < w.len { SetsFlat(before, after, w, w.start + w.len - 1 - i); }
    }
    BitsExt(new', Or(old', Low(w.val, w.len)));
  }

  lemma SameLength(before: seq<nat>, after: seq<nat>, w: Write)
    requires Sets(before, after, w)
    ensures |before| == |after|
  {
  }

  /** A field apart from the one written keeps its value. */
  lemma GetElsewhere(before: seq<nat>, after: seq<nat>, w: Write, start: nat, len: nat)
    requires Sets(before, after, w) && start + len <= 25 * |after|
    requires start + len <= w.start || w.start + w.len <= start
    ensures |before| == |after| && FieldValue(after, start, len) == FieldValue(before, start, len)
  {
    hide Bit, FieldValue, Sets, Flat;
    SameLength(before, after, w);
    forall i: nat
      ensures Bit(FieldValue(after, start, len), i) == Bit(FieldValue(before, start, len), i)
    {
      FieldValueBit(before, start, len, i);
      FieldValueBit(after, start, len, i);
      if i < len { SetsFlat(before, after, w, start + len - 1 - i); }
    }
    BitsExt(FieldValue(after, start, len), FieldValue(before, start, len));
  }

  /** handle_op_word_bits with `set`. */
  method SetBitsInOpWords(words: array<nat>, start: nat, len: nat, val: nat)
    requires start + len <= 25 * words.Length
    modifies words
    ensures Sets(old(words[..]), words[..], Write(start, len, val))
  {
    ghost var w := Write(start, len, val);
    var curWord := start / 25;
    var startBit := start - curWord * 25;
    var bitsLeft := len;
    var inCurWord := Min(25 - startBit, bitsLeft);
    while bitsLeft > 0
      invariant 0 <= bitsLeft <= len && 0 <= curWord && 0 <= startBit
      invariant bitsLeft > 0 ==> 25 * curWord + startBit == start + len - bitsLeft
      invariant bitsLeft > 0 ==> startBit < 25 && inCurWord == Min(25 - startBit, bitsLeft)
      invariant forall k, j: nat :: 0 <= k < words.Length ==>
                  (Bit(words[k], j) <==>
                   old(Bit(words[k], j)) ||
                   (j < 25 && Covers(w, 25 * k + 24 - j) && 25 * k + 24 - j < start + len - bitsLeft))
      decreases bitsLeft
    {
      var tmp := Shr(val, bitsLeft - inCurWord);
      ghost var before := words[curWord];
      words[curWord] := SetBitsInWord(words[curWord], startBit, inCurWord, tmp);
      forall j: nat
        ensures Bit(words[curWord], j) <==>
                Bit(before, j) ||
                (j < 25 && Covers(w, 25 * curWord + 24 - j) &&
                 start + len - bitsLeft <= 25 * curWord + 24 - j < start + len - bitsLeft + inCurWord)
      {
        SetBitsInWordBit(before, startBit, inCurWord, tmp, j);
        var sh := 25 - (startBit + inCurWord);
        if sh <= j { BitShr(val, bitsLeft - inCurWord, j - sh); }
      }
      curWord := curWord + 1;
      bitsLeft := bitsLeft - inCurWord;
      inCurWord := if bitsLeft > 25 then 25 else bitsLeft;
      startBit := 0;
    }
  }

  lemma FlatAt(words: seq<nat>, p: nat)
    requires p < 25 * |words|
    ensures Flat(words, p) == Bit(words[p / 25], 24 - p % 25)
  {
  }

  /** handle_op_word_bits without `set`: the field of the flat string. */
  method GetBitsInOpWords(words: array<nat>, start: nat, len: nat) returns (val: nat)
    requires start + len <= 25 * words.Length
    ensures val == FieldValue(words[..], start, len)
  {
    hide Bit, Or, Shl, ExtractBitsFromWord, Flat;
    val := 0;
    var curWord := start / 25;
    var startBit := start - curWord * 25;
    var bitsLeft := len;
    var inCurWord := Min(25 - startBit, bitsLeft);
    forall i: nat ensures !Bit(val, i) { BitZero(i); }
    while bitsLeft > 0
      invariant 0 <= bitsLeft <= len && 0 <= curWord && 0 <= startBit
      invariant bitsLeft > 0 ==> 25 * curWord + startBit == start + len - bitsLeft
      invariant bitsLeft > 0 ==> startBit < 25 && inCurWord == Min(25 - startBit, bitsLeft)
      invariant forall i: nat :: Bit(val, i) <==> bitsLeft <= i < len && Flat(words[..], start + len - 1 - i)
      decreases bitsLeft
    {
      var tmp := ExtractBitsFromWord(words[curWord], startBit, inCurWord);
      ghost var oldVal, oldLeft := val, bitsLeft;
      bitsLeft := bitsLeft - inCurWord;
      val := Or(val, Shl(tmp, bitsLeft));
      forall i: nat
        ensures Bit(val, i) <==> bitsLeft <= i < len && Flat(words[..], start + len - 1 - i)
      {
        BitOr(oldVal, Shl(tmp, bitsLeft), i);
        BitShl(tmp, bitsLeft, i);
        if i >= bitsLeft {
          ExtractBitsBit(words[curWord], startBit, inCurWord, i - bitsLeft);
          if i < oldLeft {
            var p := start + len - 1 - i;
            assert p / 25 == curWord && 24 - p % 25 == i - bitsLeft + 25 - (startBit + inCurWord);
            assert Flat(words[..], p) == Bit(words[curWord], 24 - p % 25) by { FlatAt(words[..], p); }
          }
        }
      }
      curWord := curWord + 1;
      inCurWord := if bitsLeft > 25 then 25 else bitsLeft;
      startBit := 0;
    }
    forall i: nat
      ensures Bit(val, i) == Bit(FieldValue(words[..], start, len), i)
    {
      FieldValueBit(words[..], start, len, i);
    }
    BitsExt(val, FieldValue(words[..], start, len));
  }
}
