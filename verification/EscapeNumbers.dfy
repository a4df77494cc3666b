/** What the escapes that u8_unescape reads stand for: letters, and numbers in hex or octal digits of
    either case. */
module EscapeNumbers {
  import opened Seqs
  import opened Utf8
  import opened Utf8Escape
  import opened Utf8Unescape
  import opened Numerals

  // ---------------------------------------------------------------- digits as numbers

  /** A byte as the character it is. */
  function AsChar(b: bv8): char {
    b as int as char
  }

  function AsText(d: seq<bv8>): (s: string)
    ensures |s| == |d|
  {
    seq(|d|, i requires 0 <= i < |d| => AsChar(d[i]))
  }

  /** Taken apart, a byte's digit value is its place. */
  lemma DigitByte(c: bv8)
    ensures 0x30 <= c <= 0x39 ==> DigitValue(c) as int == c as int - 48 && DigitValue(c) < 10
    ensures 0x41 <= c <= 0x46 ==> DigitValue(c) as int == c as int - 55 && DigitValue(c) < 16
    ensures 0x61 <= c <= 0x66 ==> DigitValue(c) as int == c as int - 87 && DigitValue(c) < 16
  {
  }

  lemma InOrder(a: bv8, b: bv8)
    ensures a <= b <==> a as int <= b as int
  {
  }

  lemma DigitIs(c: bv8, n: nat)
    requires Stands(AsChar(c), n)
    ensures DigitValue(c) as int == n && DigitValue(c) < 16 && IsHex(c) && (IsOctal(c) <==> n < 8)
  {
    hide Stands, DigitValue;
    StandsFor(AsChar(c), n);
    DigitByte(c);
    InOrder(0x30, c);
    InOrder(c, 0x39);
    InOrder(c, 0x37);
    InOrder(0x41, c);
    InOrder(c, 0x46);
    InOrder(0x61, c);
    InOrder(c, 0x66);
  }

  lemma IsHexDigit(c: bv8)
    requires IsHex(c)
    ensures Stands(AsChar(c), DigitValue(c) as int)
  {
    hide Stands, DigitValue;
    StandsFor(AsChar(c), DigitValue(c) as int);
    DigitByte(c);
    InOrder(0x30, c);
    InOrder(c, 0x39);
    InOrder(0x41, c);
    InOrder(c, 0x46);
    InOrder(0x61, c);
    InOrder(c, 0x66);
  }

  /** A number of 28 bits and four more bits behind it. */
  lemma Glued(v: bv28, d: bv4)
    ensures ((v as bv32 << 4) | d as bv32) as int == v as int * 16 + d as int
  {
  }

  lemma Narrowed(v: bv32, d: bv32)
    requires v < 0x1000_0000 && d < 16
    ensures (v as bv28) as int == v as int && (d as bv4) as int == d as int
  {
  }

  lemma NoCarry(v: bv32, d: bv32)
    requires v < 0x1000_0000 && d < 16
    ensures (v << 4) + d == ((v as bv28) as bv32 << 4) | (d as bv4) as bv32
  {
  }

  lemma Sum(v: bv32, d: bv32)
    requires v < 0x1000_0000 && d < 16
    ensures ((v << 4) + d) as int == v as int * 16 + d as int
  {
    NoCarry(v, d);
    Narrowed(v, d);
    Glued(v as bv28, d as bv4);
  }

  lemma OctalGlued(v: bv29, d: bv3)
    ensures ((v as bv32 << 3) | d as bv32) as int == v as int * 8 + d as int
  {
  }

  lemma OctalNarrowed(v: bv32, d: bv32)
    requires v < 0x2000_0000 && d < 8
    ensures (v as bv29) as int == v as int && (d as bv3) as int == d as int
  {
  }

  lemma NoOctalCarry(v: bv32, d: bv32)
    requires v < 0x2000_0000 && d < 8
    ensures (v << 3) + d == ((v as bv29) as bv32 << 3) | (d as bv3) as bv32
  {
  }

  lemma OctalSum(v: bv32, d: bv32)
    requires v < 0x2000_0000 && d < 8
    ensures ((v << 3) + d) as int == v as int * 8 + d as int
  {
    NoOctalCarry(v, d);
    OctalNarrowed(v, d);
    OctalGlued(v as bv29, d as bv3);
  }

  lemma Small(v: bv32)
    ensures v as int < 0x1000_0000 <==> v < 0x1000_0000
    ensures v as int < 0x2000_0000 <==> v < 0x2000_0000
    ensures (v as int < 8 <==> v < 8) && (v as int < 16 <==> v < 16)
  {
  }

  /** The number a word holds, kept apart from its bits. */
  function Num(v: bv32): int {
    v as int
  }

  function Glue4(v: bv32, d: bv32): bv32 {
    (v << 4) + d
  }

  function Glue3(v: bv32, d: bv32): bv32 {
    (v << 3) + d
  }

  lemma SumNum(v: bv32, d: bv32)
    requires Num(v) < 0x1000_0000 && Num(d) < 16
    ensures Num(Glue4(v, d)) == Num(v) * 16 + Num(d)
  {
    Small(v);
    Small(d);
    Sum(v, d);
  }

  lemma OctalSumNum(v: bv32, d: bv32)
    requires Num(v) < 0x2000_0000 && Num(d) < 8
    ensures Num(Glue3(v, d)) == Num(v) * 8 + Num(d)
  {
    Small(v);
    Small(d);
    OctalSum(v, d);
  }

  lemma DigitNum(c: bv8, n: nat)
    requires Stands(AsChar(c), n)
    ensures Num(DigitValue(c)) == n < 16
  {
    DigitIs(c, n);
    hide DigitValue, AsChar;
  }

  lemma DigitAdds(v: bv32, c: bv8)
    ensures Digit(v, c, true) == Glue3(v, DigitValue(c))
    ensures Digit(v, c, false) == Glue4(v, DigitValue(c))
  {
    hide DigitValue;
  }

  /** One more digit is one more place. */
  lemma HexMore(v: bv32, c: bv8, n: nat)
    requires Stands(AsChar(c), n) && Num(v) < 0x1000_0000
    ensures Num(Digit(v, c, false)) == Num(v) * 16 + n
  {
    hide *;
    DigitNum(c, n);
    DigitAdds(v, c);
    SumNum(v, DigitValue(c));
  }

  lemma OctalMore(v: bv32, c: bv8, n: nat)
    requires Stands(AsChar(c), n) && n < 8 && Num(v) < 0x2000_0000
    ensures Num(Digit(v, c, true)) == Num(v) * 8 + n
  {
    hide *;
    DigitNum(c, n);
    DigitAdds(v, c);
    OctalSumNum(v, DigitValue(c));
  }

  /** strtol as it is used: up to eight hex digits are the number they spell, */
  lemma {:induction false} HexValue(d: seq<bv8>, ns: seq<nat>)
    requires Spells(AsText(d), ns, 16) && |d| <= 8
    ensures Num(Value(d, false)) == Positional(ns, 16)
  {
    hide Stands, Digit, Num;
    if d == [] {
      NumZero();
    } else {
      var k := |d| - 1;
      SpellsFront(AsText(d), ns, 16);
      assert AsText(d)[..k] == AsText(d[..k]);
      HexValue(d[..k], ns[..k]);
      PositionalBound(ns[..k], 16, Power(16, k));
      Sixteens(k);
      HexMore(Value(d[..k], false), d[k], ns[k]);
    }
  }

  /** and up to three octal ones. */
  lemma {:induction false} OctalValue(d: seq<bv8>, ns: seq<nat>)
    requires Spells(AsText(d), ns, 8) && |d| <= 3
    ensures Num(Value(d, true)) == Positional(ns, 8)
  {
    hide Stands, Digit, Num;
    if d == [] {
      NumZero();
    } else {
      var k := |d| - 1;
      SpellsFront(AsText(d), ns, 8);
      assert AsText(d)[..k] == AsText(d[..k]);
      OctalValue(d[..k], ns[..k]);
      PositionalBound(ns[..k], 8, Power(8, k));
      Eights(k);
      OctalMore(Value(d[..k], true), d[k], ns[k]);
    }
  }

  lemma NumZero()
    ensures Num(0) == 0
  {
  }

  lemma Eights(k: nat)
    requires k <= 2
    ensures Power(8, k) <= 64
  {
    assert Power(8, 0) == 1 && Power(8, 1) == 8 && Power(8, 2) == 64;
  }

  lemma Sixteens(k: nat)
    requires k <= 7
    ensures Power(16, k) <= 0x1000_0000
  {
    assert Power(16, 3) == 0x1000;
    assert Power(16, 5) == 0x10_0000 && Power(16, 4) == 0x1_0000;
    assert Power(16, 7) == 0x1000_0000 && Power(16, 6) == 0x100_0000;
    assert Power(16, 0) == 1 && Power(16, 1) == 16 && Power(16, 2) == 256;
  }

  // ---------------------------------------------------------------- escapes

  /** No digit goes on. */
  predicate Ends(rest: seq<bv8>, octal: bool) {
    rest == [] || forall n :: 0 <= n < (if octal then 8 else 16) ==> !Stands(AsChar(rest[0]), n)
  }

  lemma NoDigit(rest: seq<bv8>, octal: bool)
    requires Ends(rest, octal)
    ensures rest == [] || !IsDigit(rest[0], octal)
  {
    if rest != [] && IsHex(rest[0]) {
      IsHexDigit(rest[0]);
      DigitIs(rest[0], DigitValue(rest[0]) as int);
    }
    OctalIsHex(rest);
  }

  lemma OctalIsHex(rest: seq<bv8>)
    ensures rest != [] && IsOctal(rest[0]) ==> IsHex(rest[0])
  {
  }

  lemma AreDigits(d: seq<bv8>, ns: seq<nat>, octal: bool)
    requires Spells(AsText(d), ns, if octal then 8 else 16)
    ensures forall k :: 0 <= k < |d| ==> IsDigit(d[k], octal)
  {
    hide Stands, IsOctal, IsHex;
    forall k | 0 <= k < |d| ensures IsDigit(d[k], octal) {
      assert AsText(d)[k] == AsChar(d[k]);
      DigitIs(d[k], ns[k]);
    }
  }

  lemma {:induction false} RunOf(d: seq<bv8>, rest: seq<bv8>, octal: bool, max: nat)
    requires |d| <= max && forall j :: 0 <= j < |d| ==> IsDigit(d[j], octal)
    requires |d| == max || rest == [] || !IsDigit(rest[0], octal)
    ensures DigitRun(d + rest, octal, max) == |d|
  {
    hide IsDigit;
    if d == [] {
      assert d + rest == rest;
    } else {
      assert (d + rest)[1..] == d[1..] + rest;
      RunOf(d[1..], rest, octal, max - 1);
    }
  }

  /** The letter before the digits, and how many it takes. */
  predicate Takes(c: bv8, max: nat) {
    (AsChar(c), max) in {('x', 2), ('u', 4), ('U', 8)}
  }

  lemma TakesIs(c: bv8, max: nat)
    requires Takes(c, max)
    ensures MaxDigits(c) == max && Meaning(c) == 0 && !IsOctal(c)
  {
    InOrder(c, 0x78);
    InOrder(0x78, c);
    InOrder(c, 0x75);
    InOrder(0x75, c);
    InOrder(c, 0x55);
    InOrder(0x55, c);
  }

  /** Hex digits of either case after x, u or U are the character of the number they spell. */
  lemma HexEscape(c: bv8, max: nat, d: seq<bv8>, ns: seq<nat>, rest: seq<bv8>) returns (v: bv32)
    requires Takes(c, max) && 0 < |d| <= max && Spells(AsText(d), ns, 16)
    requires |d| == max || Ends(rest, false)
    ensures v as int == Positional(ns, 16) && v == Value(d, false)
    ensures Next([BACKSLASH, c] + d + rest) == Sequence(v, 2 + |d|)
  {
    hide Stands, Spells, Value, DigitRun, Signed, IsHex, IsOctal, Meaning, MaxDigits;
    TakesIs(c, max);
    AreDigits(d, ns, false);
    if |d| < max {
      NoDigit(rest, false);
    }
    RunOf(d, rest, false, max);
    HexValue(d, ns);
    Parts(c, d, rest);
    v := Value(d, false);
  }

  lemma Parts(c: bv8, d: seq<bv8>, rest: seq<bv8>)
    ensures var s := [BACKSLASH, c] + d + rest;
            && s[0] == BACKSLASH && |s| > 1 && s[1..][0] == c
            && s[1..][1..] == d + rest && s[1..][1..1 + |d|] == d && s[2 + |d|..] == rest
  {
    var s := [BACKSLASH, c] + d + rest;
    assert s[1..] == [c] + (d + rest);
    assert ([c] + (d + rest))[1..] == d + rest;
    assert ([c] + (d + rest))[1..1 + |d|] == (d + rest)[..|d|] == d;
  }

  /** So do up to three octal digits by themselves. */
  lemma OctalEscape(d: seq<bv8>, ns: seq<nat>, rest: seq<bv8>) returns (v: bv32)
    requires 0 < |d| <= 3 && Spells(AsText(d), ns, 8) && (|d| == 3 || Ends(rest, true))
    ensures v as int == Positional(ns, 8) && Next([BACKSLASH] + d + rest) == Sequence(v, 1 + |d|)
  {
    hide Stands, Value, DigitRun, Signed, IsHex, IsOctal, Meaning;
    AreDigits(d, ns, true);
    OctalMeans(d[0]);
    if |d| < 3 {
      NoDigit(rest, true);
    }
    RunOf(d, rest, true, 3);
    OctalValue(d, ns);
    var s := [BACKSLASH] + d + rest;
    assert s[0] == BACKSLASH && s[1..] == d + rest && s[1..][0] == d[0] && (d + rest)[..|d|] == d;
    v := Value(d, true);
  }

  lemma OctalMeans(c: bv8)
    requires IsOctal(c)
    ensures Meaning(c) == 0
  {
  }

  lemma OneUnescaped(s: seq<bv8>, v: bv32, used: nat, rest: seq<bv8>)
    requires s != [] && (s[0] == BACKSLASH ==> |s| > 1) && Next(s) == Sequence(v, used)
    requires used <= |s| && s[used..] == rest && Closed(rest)
    ensures Closed(s) && Unescaped(s) == Enc(v) + Unescaped(rest)
  {
    hide Next, Enc;
  }

  /** Either way what u8_unescape writes is the encoding of that number. */
  lemma HexUnescaped(c: bv8, max: nat, d: seq<bv8>, ns: seq<nat>, rest: seq<bv8>) returns (v: bv32)
    requires Takes(c, max) && 0 < |d| <= max && Spells(AsText(d), ns, 16) && Closed(rest)
    requires |d| == max || Ends(rest, false)
    ensures v as int == Positional(ns, 16) && v == Value(d, false) && Closed([BACKSLASH, c] + d + rest)
    ensures Unescaped([BACKSLASH, c] + d + rest) == Enc(v) + Unescaped(rest)
  {
    hide Next, Closed, Unescaped, Enc, Spells, Ends, Takes;
    v := HexEscape(c, max, d, ns, rest);
    Parts(c, d, rest);
    OneUnescaped([BACKSLASH, c] + d + rest, v, 2 + |d|, rest);
  }

  lemma OctalUnescaped(d: seq<bv8>, ns: seq<nat>, rest: seq<bv8>) returns (v: bv32)
    requires 0 < |d| <= 3 && Spells(AsText(d), ns, 8) && (|d| == 3 || Ends(rest, true)) && Closed(rest)
    ensures v as int == Positional(ns, 8) && Closed([BACKSLASH] + d + rest)
    ensures Unescaped([BACKSLASH] + d + rest) == Enc(v) + Unescaped(rest)
  {
    hide Next, Closed, Unescaped, Enc, Spells, Ends;
    v := OctalEscape(d, ns, rest);
    var s := [BACKSLASH] + d + rest;
    assert s[1 + |d|..] == rest && |s| > 1;
    OneUnescaped(s, v, 1 + |d|, rest);
  }

  /** The letters. */
  lemma LetterMeans(c: bv8)
    ensures AsChar(c) == 'n' ==> Meaning(c) == 0x0A
    ensures AsChar(c) == 't' ==> Meaning(c) == 0x09
    ensures AsChar(c) == 'r' ==> Meaning(c) == 0x0D
    ensures AsChar(c) == 'b' ==> Meaning(c) == 0x08
    ensures AsChar(c) == 'f' ==> Meaning(c) == 0x0C
    ensures AsChar(c) == 'v' ==> Meaning(c) == 0x0B
    ensures AsChar(c) == 'a' ==> Meaning(c) == 0x07
  {
    InOrder(c, 0x6E);
    InOrder(0x6E, c);
    InOrder(c, 0x74);
    InOrder(0x74, c);
    InOrder(c, 0x72);
    InOrder(0x72, c);
    InOrder(c, 0x62);
    InOrder(0x62, c);
    InOrder(c, 0x66);
    InOrder(0x66, c);
    InOrder(c, 0x76);
    InOrder(0x76, c);
    InOrder(c, 0x61);
    InOrder(0x61, c);
  }

  lemma LetterUnescaped(c: bv8, rest: seq<bv8>)
    requires Meaning(c) != 0 && Closed(rest)
    ensures Closed([BACKSLASH, c] + rest)
    ensures Unescaped([BACKSLASH, c] + rest) == Enc(Meaning(c)) + Unescaped(rest)
  {
    hide Closed, Unescaped, Enc, Meaning, Signed, DigitRun, Value, IsOctal, MaxDigits;
    var s := [BACKSLASH, c] + rest;
    assert s[1..] == [c] + rest && s[2..] == rest && |s| > 1;
    OneUnescaped(s, Meaning(c), 2, rest);
  }

  /** Any other ASCII character stands for itself. */
  lemma PlainUnescaped(c: bv8, rest: seq<bv8>)
    requires c < 0x80 && !IsOctal(c) && Closed(rest)
    requires AsChar(c) !in {'n', 't', 'r', 'b', 'f', 'v', 'a', 'x', 'u', 'U'}
    ensures Closed([BACKSLASH, c] + rest)
    ensures Unescaped([BACKSLASH, c] + rest) == [c] + Unescaped(rest)
  {
    hide Closed, Unescaped, DigitRun, Value, IsOctal;
    NoLetter(c);
    var s := [BACKSLASH, c] + rest;
    assert s[1..] == [c] + rest && s[2..] == rest && |s| > 1;
    OneUnescaped(s, Signed(c), 2, rest);
    PlainByte(c);
  }

  lemma NoLetter(c: bv8)
    requires AsChar(c) !in {'n', 't', 'r', 'b', 'f', 'v', 'a', 'x', 'u', 'U'}
    ensures Meaning(c) == 0 && forall s: seq<bv8> :: DigitRun(s, false, MaxDigits(c)) == 0
  {
    assert AsChar(0x6E) == 'n' && AsChar(0x74) == 't' && AsChar(0x72) == 'r' && AsChar(0x62) == 'b';
    assert AsChar(0x66) == 'f' && AsChar(0x76) == 'v' && AsChar(0x61) == 'a';
    assert AsChar(0x78) == 'x' && AsChar(0x75) == 'u' && AsChar(0x55) == 'U';
  }

  lemma PlainByte(c: bv8)
    requires c < 0x80
    ensures Enc(Signed(c)) == [c]
  {
  }

  /** For instance \u220e, whose last digit is a small letter. */
  lemma SmallLetters()
    ensures Closed([0x5C, 0x75, 0x32, 0x32, 0x30, 0x65])
    ensures Unescaped([0x5C, 0x75, 0x32, 0x32, 0x30, 0x65]) == [0xE2, 0x88, 0x8E]
  {
    hide Unescaped, Closed, Spells, Positional, Enc, Value;
    Spelling();
    Nothing();
    var v := HexUnescaped(0x75, 4, [0x32, 0x32, 0x30, 0x65], [2, 2, 0, 14], []);
    ItsValue();
    Tombstone();
    assert [BACKSLASH, 0x75] + [0x32, 0x32, 0x30, 0x65] + [] == [0x5C, 0x75, 0x32, 0x32, 0x30, 0x65];
  }

  lemma Spelling()
    ensures Spells(AsText([0x32, 0x32, 0x30, 0x65]), [2, 2, 0, 14], 16) && Takes(0x75, 4)
  {
    hide Stands;
    StandsFor(AsChar(0x32), 2);
    StandsFor(AsChar(0x30), 0);
    StandsFor(AsChar(0x65), 14);
  }

  lemma ItsValue()
    ensures Value([0x32, 0x32, 0x30, 0x65], false) == 0x220E
  {
    var d: seq<bv8> := [0x32, 0x32, 0x30, 0x65];
    assert d[..3] == [0x32, 0x32, 0x30] && d[..3][..2] == [0x32, 0x32] && d[..3][..2][..1] == [0x32];
    assert d[..3][..2][..1][..0] == [];
    assert Value(d[..3][..2][..1], false) == 2;
    assert Value(d[..3][..2], false) == 0x22;
    assert Value(d[..3], false) == 0x220;
  }

  lemma Nothing()
    ensures Closed([]) && Unescaped([]) == []
  {
  }

  lemma Tombstone()
    ensures Enc(0x220E) == [0xE2, 0x88, 0x8E]
  {
  }

  // ---------------------------------------------------------------- what u8_escape prints

  /** Its digits are capitals. */
  lemma PrintedDigit(v: bv32)
    ensures ((v & 0xF) as bv4) as int < 16
    ensures AsChar(HexDigit(v)) == CAPITAL_DIGITS[((v & 0xF) as bv4) as int]
  {
    Places(((v & 0xF) as bv4) as int);
    DigitBits(v);
  }

  lemma DigitBits(v: bv32)
    ensures ((v & 0xF) as bv4) as int < 10 ==> HexDigit(v) as int == 48 + ((v & 0xF) as bv4) as int
    ensures ((v & 0xF) as bv4) as int >= 10 ==> HexDigit(v) as int == 55 + ((v & 0xF) as bv4) as int
  {
  }
}
