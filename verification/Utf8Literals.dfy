/** Single characters in UTF-8 and as escapes, byte by byte. */
module Utf8Literals {
  import opened Utf8
  import opened Utf8Strings
  import opened Utf8Escape

  /** The first and the last character of each length, and the first number that is no character. */
  lemma Ends()
    ensures Enc(0x00) == [0x00] && Enc(0x7F) == [0x7F]
    ensures Enc(0x80) == [0xC2, 0x80] && Enc(0x7FF) == [0xDF, 0xBF]
    ensures Enc(0x800) == [0xE0, 0xA0, 0x80] && Enc(0xFFFF) == [0xEF, 0xBF, 0xBF]
    ensures Enc(0x10000) == [0xF0, 0x90, 0x80, 0x80] && Enc(0x10FFFF) == [0xF4, 0x8F, 0xBF, 0xBF]
    ensures Enc(0x110000) == []
  {
  }

  /** Every character has its bits in order, six to a continuation byte. */
  lemma Bits(ch: bv32)
    ensures ch < 0x80 ==> Enc(ch) == [ch as bv8]
    ensures 0x80 <= ch < 0x800 ==> Enc(ch) == [0xC0 + (ch / 64) as bv8, 0x80 + (ch % 64) as bv8]
    ensures 0x800 <= ch < 0x10000 ==>
              Enc(ch) == [0xE0 + (ch / 4096) as bv8, 0x80 + (ch / 64 % 64) as bv8, 0x80 + (ch % 64) as bv8]
    ensures 0x10000 <= ch < 0x110000 ==>
              Enc(ch) == [0xF0 + (ch / 262144) as bv8, 0x80 + (ch / 4096 % 64) as bv8,
                          0x80 + (ch / 64 % 64) as bv8, 0x80 + (ch % 64) as bv8]
    ensures ch >= 0x110000 ==> Enc(ch) == []
  {
  }

  /** The old sequences of five and six bytes are decoded by the same tables. */
  lemma LongSequences()
    ensures Trailing(0xF8) == 4 && Dec([0xF8, 0x88, 0x80, 0x80, 0x80]) == 0x20_0000
    ensures Trailing(0xFB) == 4 && Dec([0xFB, 0xBF, 0xBF, 0xBF, 0xBF]) == 0x3FF_FFFF
    ensures Trailing(0xFC) == 5 && Dec([0xFC, 0x84, 0x80, 0x80, 0x80, 0x80]) == 0x400_0000
    ensures Trailing(0xFD) == 5 && Dec([0xFD, 0xBF, 0xBF, 0xBF, 0xBF, 0xBF]) == 0x7FFF_FFFF
  {
    Five(0xF8, 0x88, 0x80, 0x80, 0x80);
    Five(0xFB, 0xBF, 0xBF, 0xBF, 0xBF);
    Six(0xFC, 0x84, 0x80, 0x80, 0x80, 0x80);
    Six(0xFD, 0xBF, 0xBF, 0xBF, 0xBF, 0xBF);
    hide Sum;
  }

  lemma Five(a: bv8, b: bv8, c: bv8, d: bv8, e: bv8)
    ensures Sum([a, b, c, d, e]) == Glue(Glue(Glue(Glue(Glue(0, a), b), c), d), e)
  {
    hide Glue;
    SumFour(a, b, c, d);
    SumSnoc([a, b, c, d], e);
    assert [a, b, c, d] + [e] == [a, b, c, d, e];
  }

  lemma Six(a: bv8, b: bv8, c: bv8, d: bv8, e: bv8, f: bv8)
    ensures Sum([a, b, c, d, e, f]) == Glue(Glue(Glue(Glue(Glue(Glue(0, a), b), c), d), e), f)
  {
    hide Glue;
    Five(a, b, c, d, e);
    SumSnoc([a, b, c, d, e], f);
    assert [a, b, c, d, e] + [f] == [a, b, c, d, e, f];
  }

  // ---------------------------------------------------------------- escapes

  /** A backslash and the letter of a control character: a, b, t, n, v, f, r; */
  lemma LetterForms()
    ensures Escaped(0x07) == [0x5C, 0x61] && Escaped(0x08) == [0x5C, 0x62]
    ensures Escaped(0x09) == [0x5C, 0x74] && Escaped(0x0A) == [0x5C, 0x6E]
    ensures Escaped(0x0B) == [0x5C, 0x76] && Escaped(0x0C) == [0x5C, 0x66]
    ensures Escaped(0x0D) == [0x5C, 0x72] && Escaped(0x5C) == [0x5C, 0x5C]
  {
    hide Hex;
  }

  /** or x and as many digits as the number has, u and four, U and eight; the rest as it is. */
  lemma NumberForms(ch: bv32)
    requires !(7 <= ch <= 13) && ch != 0x5C
    ensures ch < 16 ==> Escaped(ch) == [0x5C, 0x78] + Hex(ch, 1)
    ensures 16 <= ch < 32 || ch == 127 ==> Escaped(ch) == [0x5C, 0x78] + Hex(ch, 2)
    ensures 128 <= ch <= 65535 ==> Escaped(ch) == [0x5C, 0x75] + Hex(ch, 4)
    ensures ch > 65535 ==> Escaped(ch) == [0x5C, 0x55] + Hex(ch, 8)
    ensures 32 <= ch < 127 ==> Escaped(ch) == [ch as bv8]
  {
    hide Hex;
  }

  /** Only a quotation mark depends on the flag. */
  lemma Quotation(ch: bv32, quotes: bool)
    ensures EscapedIn(0x22, true) == [0x5C, 0x22] && EscapedIn(0x22, false) == [0x22]
    ensures ch != 0x22 ==> EscapedIn(ch, quotes) == EscapedIn(ch, !quotes) == Escaped(ch)
  {
    hide Hex;
  }
}
