/** There and back: what u8_unescape makes of what u8_escape wrote.  Only \x has no fixed number of
    digits, so only a control character printed with one digit can run into what follows it. */
module EscapeRoundTrip {
  import opened Utf8
  import opened Utf8Strings
  import opened Utf8Escape
  import opened Utf8Unescape

  /** Control characters printed as \x and a single digit. */
  predicate OneDigit(ch: bv32) {
    1 <= ch <= 6 || ch == 0x0E || ch == 0x0F
  }

  predicate IsHexChar(ch: bv32) {
    ch < 0x80 && IsHex(ch as bv8)
  }

  function Digit2(ch: bv32, h: bv32): bv32
    requires IsHexChar(h)
  {
    Digit(ch, h as bv8, false)
  }

  /** The text that comes back: a one-digit control swallows a hex digit right after it. */
  function Merged(cps: seq<bv32>): seq<bv32> {
    if cps == [] then []
    else if |cps| > 1 && OneDigit(cps[0]) && IsHexChar(cps[1]) then [Digit2(cps[0], cps[1])] + Merged(cps[2..])
    else [cps[0]] + Merged(cps[1..])
  }

  /** No one-digit control is directly followed by a hex digit. */
  predicate Safe(cps: seq<bv32>) {
    forall k :: 0 <= k < |cps| - 1 ==> !(OneDigit(cps[k]) && IsHexChar(cps[k + 1]))
  }

  lemma {:induction false} RunExact(d: seq<bv8>, rest: seq<bv8>, max: nat)
    requires |d| <= max && forall j :: 0 <= j < |d| ==> IsHex(d[j])
    requires |d| == max || rest == [] || !IsHex(rest[0])
    ensures DigitRun(d + rest, false, max) == |d|
  {
    hide IsHex;
    if d == [] {
      assert d + rest == rest;
    } else {
      assert (d + rest)[1..] == d[1..] + rest;
      RunExact(d[1..], rest, max - 1);
    }
  }

  /** An escape of digits, with nothing behind it that could be one more. */
  lemma DigitsComeBack(ch: bv32, c: bv8, w: nat, rest: seq<bv8>)
    requires c == 0x78 || c == 0x75 || c == 0x55
    requires Fits(ch, w) && 1 <= w <= MaxDigits(c)
    requires w == MaxDigits(c) || rest == [] || !IsHex(rest[0])
    ensures Next([BACKSLASH, c] + Hex(ch, w) + rest) == Sequence(ch, 2 + w)
  {
    hide Hex, Fits, Value, DigitRun, IsHex, Signed;
    var d := Hex(ch, w);
    ValueOfHex(ch, w);
    RunExact(d, rest, MaxDigits(c));
    var s := [BACKSLASH, c] + d + rest;
    EscapeParts(c, d, rest);
  }

  lemma EscapeParts(c: bv8, d: seq<bv8>, rest: seq<bv8>)
    ensures var s := [BACKSLASH, c] + d + rest;
            && s[0] == BACKSLASH && |s| > 1 && s[1..][0] == c
            && s[1..][1..] == d + rest && s[1..][1..1 + |d|] == d
  {
    var s := [BACKSLASH, c] + d + rest;
    assert s[1..] == [c] + (d + rest);
    assert ([c] + (d + rest))[1..] == d + rest;
    assert ([c] + (d + rest))[1..1 + |d|] == (d + rest)[..|d|] == d;
  }

  /** Escaping a character and reading one escape gives the character back. */
  lemma OneComesBack(ch: bv32, quotes: bool, rest: seq<bv8>)
    requires 0 < ch < MAX_CHAR
    requires OneDigit(ch) ==> rest == [] || !IsHex(rest[0])
    ensures var s := EscapedIn(ch, quotes) + rest;
            (s[0] == BACKSLASH ==> |s| > 1) && Next(s) == Sequence(ch, |EscapedIn(ch, quotes)|)
  {
    hide Hex, Fits, IsHex;
    var s := EscapedIn(ch, quotes) + rest;
    if quotes && ch == 0x22 {
      QuoteBack(s);
    } else if Letter(ch) != 0 {
      LetterBack(ch, s);
    } else if ch < 32 || ch == 0x7F {
      Fitting(ch);
      DigitsComeBack(ch, 0x78, if ch < 16 then 1 else 2, rest);
    } else if ch > 0xFFFF {
      Fitting(ch);
      DigitsComeBack(ch, 0x55, 8, rest);
    } else if ch >= 0x80 {
      Fitting(ch);
      DigitsComeBack(ch, 0x75, 4, rest);
    } else {
      PlainBack(ch);
    }
  }

  lemma PlainBack(ch: bv32)
    requires ch < 0x80
    ensures Signed(ch as bv8) == ch && (ch != 0x5C ==> ch as bv8 != BACKSLASH)
  {
  }

  lemma QuoteBack(s: seq<bv8>)
    requires |s| >= 2 && s[0] == BACKSLASH && s[1] == QUOTE
    ensures Next(s) == Sequence(0x22, 2)
  {
    assert s[1..][0] == QUOTE;
  }

  lemma LetterBack(ch: bv32, s: seq<bv8>)
    requires Letter(ch) != 0 && |s| >= 2 && s[0] == BACKSLASH && s[1] == Letter(ch)
    ensures Next(s) == Sequence(ch, 2)
  {
    assert s[1..][0] == Letter(ch);
  }

  /** A one-digit control and a hex digit are read as one two-digit escape. */
  lemma TwoMerge(ch: bv32, h: bv32, quotes: bool, rest: seq<bv8>)
    requires OneDigit(ch) && IsHexChar(h)
    ensures var s := EscapedIn(ch, quotes) + (EscapedIn(h, quotes) + rest);
            && s[0] == BACKSLASH && |s| > 1
            && |EscapedIn(ch, quotes)| == 3 && |EscapedIn(h, quotes)| == 1
            && Next(s) == Sequence(Digit2(ch, h), 4)
  {
    hide Hex, Fits, DigitRun, IsHex, Digit;
    var s := EscapedIn(ch, quotes) + (EscapedIn(h, quotes) + rest);
    HexCharIsPlain(h, quotes);
    Fitting(ch);
    ValueOfHex(ch, 1);
    var d := Hex(ch, 1) + [h as bv8];
    assert s == [BACKSLASH, 0x78] + d + rest;
    RunExact(d, rest, 2);
    EscapeParts(0x78, d, rest);
    assert d[..1] == Hex(ch, 1);
  }

  lemma HexCharIsPlain(h: bv32, quotes: bool)
    requires IsHexChar(h)
    ensures EscapedIn(h, quotes) == [h as bv8] && IsHex(h as bv8)
  {
  }

  /** What follows starts with a hex digit exactly when its first character is one. */
  lemma FirstEscaped(ch: bv32, quotes: bool)
    requires ch < MAX_CHAR
    ensures |EscapedIn(ch, quotes)| >= 1 && (IsHex(EscapedIn(ch, quotes)[0]) <==> IsHexChar(ch))
  {
  }

  /** The trip there and back, for every text. */
  lemma {:induction false} ThereAndBack(cps: seq<bv32>, quotes: bool)
    requires Encodable(cps) && NoZero(cps)
    ensures Closed(EscapeAll(cps, quotes))
    ensures Unescaped(EscapeAll(cps, quotes)) == EncodeAll(Merged(cps))
    decreases |cps|
  {
    hide EscapedIn, Next, Enc, EncodeAll, OneDigit, IsHexChar, IsHex, Digit2;
    var s := EscapeAll(cps, quotes);
    if cps == [] {
      EncodeNone();
    } else {
      var ch, rest := cps[0], EscapeAll(cps[1..], quotes);
      assert s == EscapedIn(ch, quotes) + rest;
      if |cps| > 1 && OneDigit(ch) && IsHexChar(cps[1]) {
        var more := EscapeAll(cps[2..], quotes);
        assert cps[1..][1..] == cps[2..];
        TwoMerge(ch, cps[1], quotes, more);
        assert s[4..] == more;
        ThereAndBack(cps[2..], quotes);
        Joins(Digit2(ch, cps[1]), Merged(cps[2..]));
      } else {
        if |cps| > 1 {
          FirstEscaped(cps[1], quotes);
        }
        OneComesBack(ch, quotes, rest);
        assert s[|EscapedIn(ch, quotes)|..] == rest;
        ThereAndBack(cps[1..], quotes);
        Joins(ch, Merged(cps[1..]));
      }
    }
  }

  lemma Joins(ch: bv32, rest: seq<bv32>)
    ensures EncodeAll([ch] + rest) == Enc(ch) + EncodeAll(rest)
  {
    hide Enc, EncodeAll;
    EncodeConcat([ch], rest);
    EncodeOne(ch);
  }

  // ---------------------------------------------------------------- when nothing is lost

  lemma {:induction false} MergedNoLonger(cps: seq<bv32>)
    ensures |Merged(cps)| <= |cps|
    ensures Safe(cps) ==> Merged(cps) == cps
    ensures !Safe(cps) ==> |Merged(cps)| < |cps|
    decreases |cps|
  {
    hide OneDigit, IsHexChar, Digit2;
    if cps != [] {
      if |cps| > 1 && OneDigit(cps[0]) && IsHexChar(cps[1]) {
        MergedNoLonger(cps[2..]);
      } else {
        MergedNoLonger(cps[1..]);
        if Safe(cps[1..]) {
          forall k | 0 <= k < |cps| - 1 ensures !(OneDigit(cps[k]) && IsHexChar(cps[k + 1])) {
            if k > 0 {
              assert cps[1..][k - 1] == cps[k] && cps[1..][k] == cps[k + 1];
            }
          }
        } else {
          var k :| 0 <= k < |cps[1..]| - 1 && OneDigit(cps[1..][k]) && IsHexChar(cps[1..][k + 1]);
          assert OneDigit(cps[k + 1]) && IsHexChar(cps[k + 1 + 1]);
        }
      }
    }
  }

  lemma {:induction false} MergedEncodable(cps: seq<bv32>)
    requires Encodable(cps)
    ensures Encodable(Merged(cps))
    decreases |cps|
  {
    hide OneDigit, IsHexChar, Digit2;
    if cps != [] {
      if |cps| > 1 && OneDigit(cps[0]) && IsHexChar(cps[1]) {
        MergedSmall(cps[0], cps[1]);
        MergedEncodable(cps[2..]);
      } else {
        MergedEncodable(cps[1..]);
      }
    }
  }

  lemma MergedSmall(ch: bv32, h: bv32)
    requires OneDigit(ch) && IsHexChar(h)
    ensures Digit2(ch, h) < 0x100
  {
  }

  /** The text comes back unchanged exactly when no one-digit control runs into a hex digit. */
  lemma RoundTripsExactly(cps: seq<bv32>, quotes: bool)
    requires Encodable(cps) && NoZero(cps)
    ensures Closed(EscapeAll(cps, quotes))
    ensures Unescaped(EscapeAll(cps, quotes)) == EncodeAll(cps) <==> Safe(cps)
  {
    hide OneDigit, IsHexChar, EscapeAll, EncodeAll, Unescaped;
    ThereAndBack(cps, quotes);
    MergedNoLonger(cps);
    MergedEncodable(cps);
    if EncodeAll(Merged(cps)) == EncodeAll(cps) {
      EncodeInjective(Merged(cps), cps);
    }
  }

  /** A text that does not come back: \x01 before the letter A returns as the one character 0x1A. */
  lemma SoftBreak()
    ensures Unescaped(EscapeAll([1, 0x41], false)) == EncodeAll([0x1A]) != EncodeAll([1, 0x41])
  {
    var cps: seq<bv32> := [1, 0x41];
    RoundTripsExactly(cps, false);
    ThereAndBack(cps, false);
    assert OneDigit(cps[0]) && IsHexChar(cps[0 + 1]);
    assert Digit2(1, 0x41) == 0x1A;
    assert cps[2..] == [];
  }

  // ---------------------------------------------------------------- room

  /** Reading one escape never makes more bytes than it used up. */
  lemma NoMoreThanUsed(s: seq<bv8>)
    requires s != [] && (s[0] == BACKSLASH ==> |s| > 1)
    ensures CharLen(Next(s).ch) <= Next(s).used
  {
    if s[0] == BACKSLASH {
      EscapeRoom(s[1..]);
    } else {
      SignedLength(s[0]);
    }
  }

  lemma SignedLength(c: bv8)
    ensures CharLen(Signed(c)) <= 1 && (CharLen(Signed(c)) == 0 <==> c >= 0x80)
  {
  }

  lemma EscapeRoom(s: seq<bv8>)
    requires s != []
    ensures CharLen(ReadEscape(s).ch) <= ReadEscape(s).used + 1
  {
    hide Signed, DigitRun, Value;
    var c := s[0];
    SignedLength(c);
    if Meaning(c) == 0 {
      if IsOctal(c) {
        Few(s[..DigitRun(s, true, 3)], true);
      } else {
        Few(s[1..1 + DigitRun(s[1..], false, MaxDigits(c))], false);
      }
    }
  }

  /** Few digits make a short character. */
  lemma Few(d: seq<bv8>, octal: bool)
    requires forall j :: 0 <= j < |d| ==> IsDigit(d[j], octal)
    ensures |d| == 1 ==> CharLen(Value(d, octal)) == 1
    ensures |d| == 2 ==> CharLen(Value(d, octal)) <= 2
    ensures CharLen(Value(d, octal)) <= 4
  {
    hide IsDigit, Digit;
    if |d| == 1 {
      assert d[..0] == [];
      assert IsDigit(d[0], octal);
      Small(0, d[0], octal);
    } else if |d| == 2 {
      assert d[..1] == [d[0]] && d[..1][..0] == [];
      assert Value(d, octal) == Digit(Value(d[..1], octal), d[1], octal);
      assert Value(d[..1], octal) == Digit(0, d[0], octal);
      assert IsDigit(d[0], octal) && IsDigit(d[1], octal);
      Small(0, d[0], octal);
      Small(Digit(0, d[0], octal), d[1], octal);
    }
  }

  lemma Small(v: bv32, c: bv8, octal: bool)
    requires IsDigit(c, octal)
    ensures v == 0 ==> Digit(v, c, octal) < 16
    ensures v < 16 ==> Digit(v, c, octal) < 256
  {
  }

  /** The unescaped text always fits where its escapes did. */
  lemma {:induction false} NeverLonger(s: seq<bv8>)
    requires Closed(s)
    ensures |Unescaped(s)| <= |s|
    decreases |s|
  {
    hide Next, Enc;
    if s != [] {
      NoMoreThanUsed(s);
      NeverLonger(s[Next(s).used..]);
    }
  }

  // ---------------------------------------------------------------- raw text

  /** The byte that one turn of u8_unescape takes as it stands: one without a backslash, or after
      one that starts no escape. */
  function TakenRaw(s: seq<bv8>): (raw: seq<bv8>)
    requires s != [] && (s[0] == BACKSLASH ==> |s| > 1)
    ensures |raw| <= 1
  {
    if s[0] != BACKSLASH then [s[0]]
    else if Meaning(s[1]) == 0 && !IsOctal(s[1]) && DigitRun(s[2..], false, MaxDigits(s[1])) == 0 then [s[1]]
    else []
  }

  /** What unescaping should make of a string: escapes are read, raw bytes stay as they are. */
  function Intended(s: seq<bv8>): seq<bv8>
    requires Closed(s)
    decreases |s|
  {
    if s == [] then []
    else (if TakenRaw(s) != [] then TakenRaw(s) else Enc(Next(s).ch)) + Intended(s[Next(s).used..])
  }

  /** Every byte that is taken as it stands is ASCII. */
  predicate RawIsAscii(s: seq<bv8>)
    requires Closed(s)
    decreases |s|
  {
    s == [] || ((TakenRaw(s) != [] ==> TakenRaw(s)[0] < 0x80) && RawIsAscii(s[Next(s).used..]))
  }

  lemma RawByteRead(c: bv8)
    ensures Enc(Signed(c)) == if c < 0x80 then [c] else []
  {
  }

  lemma RawTurn(s: seq<bv8>)
    requires s != [] && (s[0] == BACKSLASH ==> |s| > 1) && TakenRaw(s) != []
    ensures Next(s).ch == Signed(TakenRaw(s)[0])
  {
    hide Signed, DigitRun, Value, IsOctal, Meaning, MaxDigits;
    if s[0] == BACKSLASH {
      assert s[1..][0] == s[1] && s[1..][1..] == s[2..];
    }
  }

  /** Unescaping does what it should exactly for strings whose raw bytes are ASCII; every other raw
      byte is missing from the result. */
  lemma {:induction false} KeptExactly(s: seq<bv8>)
    requires Closed(s)
    ensures Unescaped(s) == Intended(s) <==> RawIsAscii(s)
    ensures |Unescaped(s)| <= |Intended(s)| && (!RawIsAscii(s) ==> |Unescaped(s)| < |Intended(s)|)
    decreases |s|
  {
    hide Next, Enc, TakenRaw, Signed;
    if s != [] {
      var rest := s[Next(s).used..];
      KeptExactly(rest);
      if TakenRaw(s) != [] {
        RawTurn(s);
        RawByteRead(TakenRaw(s)[0]);
        assert TakenRaw(s) == [TakenRaw(s)[0]];
        SameTail(TakenRaw(s), Unescaped(rest), Intended(rest));
        assert [] + Unescaped(rest) == Unescaped(rest);
      } else {
        SameTail(Enc(Next(s).ch), Unescaped(rest), Intended(rest));
      }
    }
  }

  lemma SameTail(front: seq<bv8>, a: seq<bv8>, b: seq<bv8>)
    ensures front + a == front + b <==> a == b
  {
    if front + a == front + b {
      assert a == (front + a)[|front|..] && b == (front + b)[|front|..];
    }
  }

  /** So a string without escapes comes out as it went in exactly when it is ASCII. */
  lemma {:induction false} PlainKeptExactly(s: seq<bv8>)
    requires BACKSLASH !in s
    ensures Closed(s)
    ensures Unescaped(s) == s <==> forall k :: 0 <= k < |s| ==> s[k] < 0x80
  {
    PlainIntended(s);
    KeptExactly(s);
  }

  lemma {:induction false} PlainIntended(s: seq<bv8>)
    requires BACKSLASH !in s
    ensures Closed(s) && Intended(s) == s && (RawIsAscii(s) <==> forall k :: 0 <= k < |s| ==> s[k] < 0x80)
  {
    hide Enc, Signed;
    if s != [] {
      assert s[0] in s && Next(s).used == 1;
      PlainIntended(s[1..]);
      assert [s[0]] + s[1..] == s;
      assert forall k :: 1 <= k < |s| ==> s[k] == s[1..][k - 1];
    }
  }

  lemma EscapesHoldNoZero(cps: seq<bv32>, quotes: bool)
    requires Encodable(cps) && NoZero(cps)
    ensures forall k :: 0 <= k < |EscapeAll(cps, quotes)| ==> EscapeAll(cps, quotes)[k] != 0
    decreases |cps|
  {
    hide EscapedIn;
    if cps != [] {
      EscapeHoldsNoZero(cps[0], quotes);
      EscapesHoldNoZero(cps[1..], quotes);
    }
  }

  lemma EscapeHoldsNoZero(ch: bv32, quotes: bool)
    requires 0 < ch < MAX_CHAR
    ensures forall k :: 0 <= k < |EscapedIn(ch, quotes)| ==> EscapedIn(ch, quotes)[k] != 0
  {
    hide Hex, Fits, IsHex;
    Fitting(ch);
    HexIsNoZero();
    PlainBack(ch & 0x7F);
    if Letter(ch) == 0 && (ch < 32 || ch == 0x7F) {
      ValueOfHex(ch, if ch < 16 then 1 else 2);
    } else if ch > 0xFFFF {
      ValueOfHex(ch, 8);
    } else if ch >= 0x80 {
      ValueOfHex(ch, 4);
    }
  }

  lemma HexIsNoZero()
    ensures !IsHex(0)
  {
  }

  // ---------------------------------------------------------------- the callers

  /** swish_str_escape_utf8: ten bytes a character and one for the NUL are always enough. */
  method StrEscapeUtf8(u8str: seq<bv8>, u8chrs: nat, ghost cps: seq<bv32>) returns (escaped: array<bv8>, n: nat)
    requires IsText(u8str, cps) && u8chrs == |cps|
    ensures fresh(escaped) && n < escaped.Length && escaped[..n] == EscapeAll(cps, false) && escaped[n] == 0
  {
    hide IsText, EscapeAll;
    var escLen := 10 * u8chrs + 1;
    escaped := new bv8[escLen];
    n := Escape(escaped, escLen, u8str, false, cps);
  }

  /** swish_str_unescape_utf8: the length of the input and one for the NUL are always enough. */
  method StrUnescapeUtf8(ascii: seq<bv8>, asciiLen: nat) returns (unescaped: array<bv8>, n: nat)
    requires asciiLen < |ascii| && ascii[asciiLen] == 0 && (forall k :: 0 <= k < asciiLen ==> ascii[k] != 0)
    requires Closed(ascii[..asciiLen])
    ensures fresh(unescaped) && n < unescaped.Length && unescaped[n] == 0
    ensures unescaped[..n] == Unescaped(ascii[..asciiLen])
  {
    hide Closed, Unescaped;
    NeverLonger(ascii[..asciiLen]);
    unescaped := new bv8[asciiLen + 1];
    n := Unescape(unescaped, asciiLen + 1, ascii, asciiLen);
  }

  /** One after the other: a safe text is back, byte for byte. */
  method EscapeAndBack(u8str: seq<bv8>, u8chrs: nat, ghost cps: seq<bv32>) returns (again: array<bv8>, n: nat)
    requires IsText(u8str, cps) && u8chrs == |cps|
    ensures n < again.Length && again[n] == 0 && again[..n] == EncodeAll(Merged(cps))
    ensures again[..n] == EncodeAll(cps) <==> Safe(cps)
  {
    assert Encodable(cps) && NoZero(cps);
    hide IsText, Closed, Unescaped, EscapeAll, Merged, Safe, EncodeAll, Encodable, NoZero;
    var escaped, m := StrEscapeUtf8(u8str, u8chrs, cps);
    ThereAndBack(cps, false);
    RoundTripsExactly(cps, false);
    EscapesHoldNoZero(cps, false);
    assert forall k :: 0 <= k < m ==> escaped[..][k] == escaped[..m][k];
    assert escaped[..][..m] == escaped[..m];
    again, n := StrUnescapeUtf8(escaped[..], m);
  }

  /** Bytes above ASCII are lost: a signed char turns them into no character at all. */
  lemma {:induction false} RawBytesLost(s: seq<bv8>)
    requires forall k :: 0 <= k < |s| ==> s[k] >= 0x80
    ensures Closed(s) && Unescaped(s) == []
  {
    hide Enc;
    if s != [] {
      SignedLength(s[0]);
      RawBytesLost(s[1..]);
    }
  }
}
