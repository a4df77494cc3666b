/** Escape sequences: u8_escape writes text as ASCII, u8_unescape reads it back.  `char` is taken
    to be signed, as on the usual platforms, and `long` to be 64 bits wide. */
module Utf8Escape {
  import opened Utf8
  import opened Utf8Strings
  import opened Utf8Convert
  import opened Utf8Index

  const BACKSLASH: bv8 := 0x5C
  const QUOTE: bv8 := 0x22

  // ---------------------------------------------------------------- digits

  /** hex_digit */
  predicate IsHex(c: bv8) {
    0x30 <= c <= 0x39 || 0x41 <= c <= 0x46 || 0x61 <= c <= 0x66
  }

  /** octal_digit */
  predicate IsOctal(c: bv8) {
    0x30 <= c <= 0x37
  }

  function DigitValue(c: bv8): bv32 {
    if c <= 0x39 then (c - 0x30) as bv32 else if c <= 0x46 then (c - 0x37) as bv32 else (c - 0x57) as bv32
  }

  /** The digits %X prints. */
  function HexDigit(v: bv32): bv8 {
    if v & 0xF < 10 then (v & 0xF) as bv8 + 0x30 else (v & 0xF) as bv8 + 0x37
  }

  function Hex(v: bv32, width: nat): (r: seq<bv8>)
    ensures |r| == width
  {
    if width == 0 then [] else Hex(v >> 4, width - 1) + [HexDigit(v)]
  }

  /** strtol on at most eight digits of `bits` bits each, as a uint32_t. */
  function Value(digits: seq<bv8>, octal: bool): bv32 {
    if digits == [] then 0
    else Digit(Value(digits[..|digits| - 1], octal), digits[|digits| - 1], octal)
  }

  function Digit(v: bv32, c: bv8, octal: bool): bv32 {
    if octal then (v << 3) + DigitValue(c) else (v << 4) + DigitValue(c)
  }

  predicate Fits(v: bv32, width: nat) {
    if width == 0 then v == 0 else Fits(v >> 4, width - 1)
  }

  lemma Nibble(v: bv32)
    ensures IsHex(HexDigit(v)) && Digit(v >> 4, HexDigit(v), false) == v
  {
  }

  lemma {:induction false} ValueOfHex(v: bv32, width: nat)
    requires Fits(v, width)
    ensures Value(Hex(v, width), false) == v
    ensures forall k :: 0 <= k < width ==> IsHex(Hex(v, width)[k])
  {
    hide Digit, HexDigit, IsHex;
    if width > 0 {
      ValueOfHex(v >> 4, width - 1);
      Nibble(v);
      assert Hex(v, width)[..width - 1] == Hex(v >> 4, width - 1);
    }
  }

  lemma Fitting(v: bv32)
    ensures v < 0x10 ==> Fits(v, 1)
    ensures v < 0x100 ==> Fits(v, 2)
    ensures v < 0x10000 ==> Fits(v, 4)
    ensures Fits(v, 8)
  {
    assert v < 0x10 ==> Fits(v >> 4, 0);
    assert v < 0x100 ==> Fits(v >> 4 >> 4, 0);
    assert v < 0x10000 ==> Fits(v >> 4 >> 4 >> 4 >> 4, 0) && Fits(v >> 4 >> 4 >> 4, 1);
    var w := v >> 4 >> 4 >> 4 >> 4;
    assert Fits(w >> 4 >> 4 >> 4 >> 4, 0);
    assert Fits(w >> 4 >> 4 >> 4, 1);
    assert Fits(w >> 4 >> 4, 2);
    assert Fits(w, 4);
    assert Fits(v >> 4 >> 4 >> 4, 5);
    assert Fits(v >> 4 >> 4, 6);
  }

  // ---------------------------------------------------------------- escaping

  /** The letter of a one-letter escape, or 0. */
  function Letter(ch: bv32): bv8 {
    if ch == 0x0A then 0x6E
    else if ch == 0x09 then 0x74
    else if ch == 0x0D then 0x72
    else if ch == 0x08 then 0x62
    else if ch == 0x0C then 0x66
    else if ch == 0x0B then 0x76
    else if ch == 0x07 then 0x61
    else if ch == 0x5C then BACKSLASH
    else 0
  }

  /** What u8_escape_wchar prints for `ch`. */
  function Escaped(ch: bv32): (r: seq<bv8>)
    ensures 1 <= |r| <= 10
  {
    if Letter(ch) != 0 then [BACKSLASH, Letter(ch)]
    else if ch < 32 || ch == 0x7F then [BACKSLASH, 0x78] + Hex(ch, if ch < 16 then 1 else 2)
    else if ch > 0xFFFF then [BACKSLASH, 0x55] + Hex(ch, 8)
    else if ch >= 0x80 then [BACKSLASH, 0x75] + Hex(ch, 4)
    else [ch as bv8]
  }

  function EscapedIn(ch: bv32, quotes: bool): (r: seq<bv8>)
    ensures 1 <= |r| <= 10
  {
    if quotes && ch == 0x22 then [BACKSLASH, QUOTE] else Escaped(ch)
  }

  function EscapeAll(cps: seq<bv32>, quotes: bool): (r: seq<bv8>)
    ensures |r| <= 10 * |cps|
  {
    if cps == [] then [] else EscapedIn(cps[0], quotes) + EscapeAll(cps[1..], quotes)
  }

  predicate Put(before: seq<bv8>, after: seq<bv8>, at: nat, room: nat, text: seq<bv8>) {
    && 1 <= room && at + room <= |after| == |before| && after[..at] == before[..at]
    && var m := if |text| < room then |text| else room - 1;
       after[at..at + m] == text[..m] && after[at + m] == 0
  }

  /** snprintf of `text` into `room` bytes at `at`: what fits, and a NUL; the full length comes back. */
  method PrintAt(dest: array<bv8>, at: nat, room: nat, text: seq<bv8>) returns (amt: nat)
    requires 1 <= room && at + room <= dest.Length
    modifies dest
    ensures amt == |text| && Put(old(dest[..]), dest[..], at, room, text)
  {
    ghost var before := dest[..];
    var m := if |text| < room then |text| else room - 1;
    for j := 0 to m
      invariant dest[..at] == before[..at]
      invariant dest[at..at + j] == text[..j]
    {
      dest[at + j] := text[j];
      assert dest[at..at + j + 1] == dest[at..at + j] + [text[j]];
    }
    ghost var done := dest[..at + m];
    dest[at + m] := 0;
    assert dest[..at + m] == done;
    assert dest[at..at + m] == done[at..];
    assert dest[..][..at] == done[..at];
    return |text|;
  }

  /** `c` bytes of `all` are out, or would be if there were room, and `rest` is to come. */
  predicate Printing(d: seq<bv8>, sz: nat, c: nat, all: seq<bv8>, rest: seq<bv8>)
    requires sz <= |d|
  {
    && (c < sz ==> all == d[..c] + rest)
    && (c >= sz ==> |all| >= sz)
    && (c >= sz > 0 ==> d[..sz - 1] == all[..sz - 1] && d[sz - 1] == 0)
  }

  /** One turn of the loop of u8_escape. */
  method EscapeNext(dest: array<bv8>, c: nat, sz: nat, src: seq<bv8>, i0: nat, quotes: bool,
                    ghost cps: seq<bv32>, ghost k: nat)
    returns (amt: nat, i: nat)
    requires IsText(src, cps) && k < |cps| && i0 == StartOf(cps, k) && c < sz <= dest.Length
    modifies dest
    ensures i == StartOf(cps, k + 1) && amt == |EscapedIn(cps[k], quotes)|
    ensures Put(old(dest[..]), dest[..], c, sz - c, EscapedIn(cps[k], quotes))
  {
    hide IsText, StartOf, Escaped, Put, Enc;
    QuoteTells(src, cps, k);
    i := i0;
    if quotes && src[i] == QUOTE {
      amt := PrintAt(dest, c, sz - c, [BACKSLASH, QUOTE]);
      i := i + 1;
      StartNext(cps, k);
    } else {
      var next;
      next, i := NextChar(src, i, cps, k);
      amt := PrintAt(dest, c, sz - c, Escaped(next));
    }
  }

  /** u8_escape: all of the text escaped, or as much of that as fits, and always a NUL. */
  method Escape(dest: array<bv8>, sz: nat, src: seq<bv8>, quotes: bool, ghost cps: seq<bv32>) returns (c: nat)
    requires IsText(src, cps) && sz <= dest.Length
    modifies dest
    ensures var all := EscapeAll(cps, quotes);
            && (c >= sz ==> |all| >= sz)
            && (c < sz ==> c == |all| && dest[..c] == all && dest[c] == 0)
            && (c >= sz > 0 ==> dest[..sz - 1] == all[..sz - 1] && dest[sz - 1] == 0)
  {
    hide IsText, StartOf, EscapedIn, EscapeAll, Escaped, Printing;
    ghost var all := EscapeAll(cps, quotes);
    var i := 0;
    ghost var k := 0;
    c := 0;
    StartEnds(cps);
    InText(src, cps, 0);
    assert cps[0..] == cps;
    NothingPrinted(dest[..], sz, all);
    while src[i] != 0 && c < sz
      invariant k <= |cps| && i == StartOf(cps, k) < |src|
      invariant src[i] == 0 <==> k == |cps|
      invariant Printing(dest[..], sz, c, all, EscapeAll(cps[k..], quotes))
      decreases |cps| - k
    {
      ghost var before := dest[..];
      var amt;
      amt, i := EscapeNext(dest, c, sz, src, i, quotes, cps, k);
      EscapeFrom(cps, quotes, k);
      Printed(before, dest[..], c, EscapedIn(cps[k], quotes), all, EscapeAll(cps[k + 1..], quotes), sz);
      c := c + amt;
      k := k + 1;
      InText(src, cps, k);
    }
    PrintingDone(dest[..], sz, c, all, cps, k, quotes);
    if c < sz {
      ghost var done := dest[..c];
      dest[c] := 0;
      assert dest[..c] == done;
    }
  }

  lemma NothingPrinted(d: seq<bv8>, sz: nat, all: seq<bv8>)
    requires sz <= |d|
    ensures Printing(d, sz, 0, all, all)
  {
    assert all == d[..0] + all;
  }

  /** After one snprintf the buffer holds the text so far, cut off at its room. */
  lemma Printed(before: seq<bv8>, after: seq<bv8>, c: nat, text: seq<bv8>, all: seq<bv8>, rest: seq<bv8>, sz: nat)
    requires c < sz <= |before| && Printing(before, sz, c, all, text + rest)
    requires Put(before, after, c, sz - c, text)
    ensures Printing(after, sz, c + |text|, all, rest)
  {
    assert all == before[..c] + (text + rest);
    if c + |text| < sz {
      assert after[..c + |text|] == after[..c] + after[c..c + |text|];
    } else {
      var m := sz - c - 1;
      assert after[..sz - 1] == after[..c] + after[c..c + m];
      assert all[..sz - 1] == before[..c] + text[..m];
    }
  }

  lemma EscapeFrom(cps: seq<bv32>, quotes: bool, k: nat)
    requires k < |cps|
    ensures EscapeAll(cps[k..], quotes) == EscapedIn(cps[k], quotes) + EscapeAll(cps[k + 1..], quotes)
  {
    hide EscapedIn;
    assert cps[k..][1..] == cps[k + 1..];
  }

  lemma PrintingDone(d: seq<bv8>, sz: nat, c: nat, all: seq<bv8>, cps: seq<bv32>, k: nat, quotes: bool)
    requires sz <= |d| && k <= |cps| && Printing(d, sz, c, all, EscapeAll(cps[k..], quotes))
    ensures c >= sz ==> |all| >= sz
    ensures c >= sz > 0 ==> d[..sz - 1] == all[..sz - 1] && d[sz - 1] == 0
    ensures c < sz && k == |cps| ==> d[..c] == all
  {
    hide EscapedIn;
    if k == |cps| {
      assert cps[k..] == [];
    }
  }

  /** Only a quotation mark starts with the byte of a quotation mark. */
  lemma QuoteTells(s: seq<bv8>, cps: seq<bv32>, k: nat)
    requires IsText(s, cps) && k < |cps|
    ensures StartOf(cps, k) < |s|
    ensures s[StartOf(cps, k)] == QUOTE <==> cps[k] == 0x22
    ensures cps[k] == 0x22 ==> CharLen(cps[k]) == 1
  {
    AtChar(s, cps, k);
    AtAnyChar(s, cps, k);
    EncodableAt(s, cps, k);
    hide IsText, StartOf, Enc;
    QuoteByte(cps[k]);
  }

  lemma QuoteByte(ch: bv32)
    requires ch < MAX_CHAR
    ensures |Enc(ch)| >= 1 && (Enc(ch)[0] == 0x22 <==> ch == 0x22)
  {
    LeadByte(ch);
  }
}
