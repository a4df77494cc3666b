/** What the escapes of an output format stand for, character by character. */
module FormatEscapes {
  import opened CString
  import opened OutputFormat
  import opened Numerals

  /** A backslash and a letter, */
  lemma LetterEscapes(rest: string)
    ensures Pieces("\\a" + rest) == [Literal('\U{7}')] + Pieces(rest)
    ensures Pieces("\\b" + rest) == [Literal('\U{8}')] + Pieces(rest)
    ensures Pieces("\\f" + rest) == [Literal('\U{C}')] + Pieces(rest)
    ensures Pieces("\\n" + rest) == [Literal('\U{A}')] + Pieces(rest)
    ensures Pieces("\\r" + rest) == [Literal('\U{D}')] + Pieces(rest)
    ensures Pieces("\\t" + rest) == [Literal('\U{9}')] + Pieces(rest)
    ensures Pieces("\\v" + rest) == [Literal('\U{B}')] + Pieces(rest)
  {
    OneEscape('a', '\U{7}', rest);
    OneEscape('b', '\U{8}', rest);
    OneEscape('f', '\U{C}', rest);
    OneEscape('n', '\U{A}', rest);
    OneEscape('r', '\U{D}', rest);
    OneEscape('t', '\U{9}', rest);
    OneEscape('v', '\U{B}', rest);
    TwoChars('a', rest);
    TwoChars('b', rest);
    TwoChars('f', rest);
    TwoChars('n', rest);
    TwoChars('r', rest);
    TwoChars('t', rest);
    TwoChars('v', rest);
    hide *;
  }

  lemma TwoChars(c: char, rest: string)
    ensures ['\\', c] + rest == "\\" + [c] + rest
    ensures ['\\', 'a'] == "\\a" && ['\\', 'b'] == "\\b" && ['\\', 'f'] == "\\f" && ['\\', 'n'] == "\\n"
    ensures ['\\', 'r'] == "\\r" && ['\\', 't'] == "\\t" && ['\\', 'v'] == "\\v"
    ensures ['\\', 'x'] == "\\x" && ['\\', '0'] == "\\0"
  {
  }

  predicate IsLetterEscape(c: char, meant: char) {
    (c, meant) in {('a', '\U{7}'), ('b', '\U{8}'), ('f', '\U{C}'), ('n', '\U{A}'), ('r', '\U{D}'), ('t', '\U{9}'),
                   ('v', '\U{B}')}
  }

  lemma OneEscape(c: char, meant: char, rest: string)
    requires IsLetterEscape(c, meant)
    ensures Pieces(['\\', c] + rest) == [Literal(meant)] + Pieces(rest)
  {
    hide StrToUL, Pieces;
    var s := ['\\', c] + rest;
    assert s[1] == c && s[2..] == rest;
    Step(s);
  }

  /** any other character that stands for itself, */
  lemma PlainEscape(c: char, rest: string)
    requires c !in "abfnrtvx0"
    ensures Pieces(['\\', c] + rest) == [Literal(c)] + Pieces(rest)
  {
    hide StrToUL, Pieces;
    var s := ['\\', c] + rest;
    assert s[1] == c && s[2..] == rest;
    NotListed(c);
    Step(s);
  }

  lemma NotListed(c: char)
    requires c !in "abfnrtvx0"
    ensures c != 'a' && c != 'b' && c != 'f' && c != 'n' && c != 'r' && c != 't' && c != 'v' && c != 'x' && c != '0'
  {
    var l := "abfnrtvx0";
    assert l[0] in l && l[1] in l && l[2] in l && l[3] in l && l[4] in l && l[5] in l && l[6] in l && l[7] in l;
    assert l[8] in l;
  }

  /** a backslash at the end, */
  lemma LastBackslash()
    ensures Pieces("\\") == [Literal('\\')]
  {
    hide StrToUL, Pieces;
    Step("\\");
    Step("");
  }

  // ---------------------------------------------------------------- numbers

  lemma DigitIs(c: char, n: nat)
    requires Stands(c, n)
    ensures DigitValue(c) == n
  {
    StandsFor(c, n);
  }

  lemma {:induction false} NumberIs(d: string, ns: seq<nat>, base: nat)
    requires Spells(d, ns, base)
    ensures Number(d, base) == Positional(ns, base)
  {
    hide DigitValue, Stands;
    if d != "" {
      SpellsFront(d, ns, base);
      NumberIs(d[..|d| - 1], ns[..|ns| - 1], base);
      DigitIs(d[|d| - 1], ns[|ns| - 1]);
    }
  }

  /** Where a number in that base ends: no digit goes on. */
  predicate Ends(rest: string, base: nat) {
    rest == "" || forall n :: 0 <= n < base ==> !Stands(rest[0], n)
  }

  lemma NoDigit(rest: string, base: nat)
    requires Ends(rest, base) && base <= 16
    ensures rest == "" || DigitValue(rest[0]) >= base
  {
    if rest != "" {
      StandsFor(rest[0], DigitValue(rest[0]));
    }
  }

  lemma FewDigits(ns: seq<nat>, base: nat)
    requires base in {8, 16} && |ns| <= 15 && forall k :: 0 <= k < |ns| ==> ns[k] < base
    ensures Positional(ns, base) < 0x1_0000_0000_0000_0000
  {
    PositionalBound(ns, base, Power(base, |ns|));
    PowerGrows(base, |ns|, 15);
    hide Positional;
    assert Power(8, 15) < 0x1_0000_0000_0000_0000 && Power(16, 15) < 0x1_0000_0000_0000_0000 by {
      SmallPowers();
    }
  }

  lemma SmallPowers()
    ensures Power(8, 15) == 0x2000_0000_0000 && Power(16, 15) == 0x1000_0000_0000_0000
  {
    assert Power(8, 5) == 0x8000 && Power(16, 5) == 0x10_0000;
    assert Power(8, 10) == 0x4000_0000 && Power(16, 10) == 0x100_0000_0000;
  }

  lemma {:induction false} PowerGrows(base: nat, a: nat, b: nat)
    requires base >= 1 && a <= b
    ensures Power(base, a) <= Power(base, b)
  {
    if a < b {
      PowerGrows(base, a, b - 1);
      assert Power(base, b - 1) * base >= Power(base, b - 1);
    }
  }

  /** The number at the front of a text, read to its last digit. */
  lemma NumberRead(d: string, ns: seq<nat>, base: nat, rest: string)
    requires base in {8, 16} && Spells(d, ns, base) && 0 < |d| <= 15 && Ends(rest, base)
    requires base == 16 ==> d != "0"
    ensures StrToUL(d + rest, base) == Numeral(Positional(ns, base), |d|)
  {
    hide Stands, Number, Positional, DigitRun;
    var s := d + rest;
    forall k | 0 <= k < |d| ensures DigitValue(d[k]) < base && DigitValue(d[k]) == ns[k] {
      DigitIs(d[k], ns[k]);
    }
    NoDigit(rest, base);
    DigitIsPlain(d[0]);
    if |d| > 1 {
      DigitIsPlain(d[1]);
    }
    assert s[0] == d[0] && (|d| > 1 ==> s[1] == d[1]);
    if |d| == 1 && base == 16 {
      ZeroOnly(d);
    }
    hide DigitValue;
    NoSkip(s);
    RunExact(d, rest, base);
    assert s[..|d|] == d;
    NumberIs(d, ns, base);
    FewDigits(ns, base);
    Unprefixed(s, base, |d|);
  }

  lemma ZeroOnly(d: string)
    requires |d| == 1 && d != "0"
    ensures d[0] != '0'
  {
    assert d == [d[0]];
  }

  lemma DigitIsPlain(c: char)
    requires DigitValue(c) < 16
    ensures !IsSpace(c) && c != '-' && c != '+' && c != 'x' && c != 'X'
  {
  }

  lemma Unprefixed(s: string, base: nat, n: nat)
    requires base in {8, 16} && 0 < n <= |s| && SkipSpace(s) == s && s[0] != '-' && s[0] != '+'
    requires base == 16 ==> s[0] != '0' || (|s| > 1 && s[1] != 'x' && s[1] != 'X')
    requires DigitRun(s, base) == n && Number(s[..n], base) < 0x1_0000_0000_0000_0000
    ensures StrToUL(s, base) == Numeral(Number(s[..n], base), n)
  {
    hide Number, DigitRun, DigitValue;
  }

  /** hex digits after an x, as many as there are, */
  lemma HexEscapes(d: string, ns: seq<nat>, rest: string)
    requires Spells(d, ns, 16) && 0 < |d| <= 15 && d != "0" && Ends(rest, 16)
    ensures Pieces("\\x" + d + rest) == [Literal((Positional(ns, 16) % 256) as char)] + Pieces(rest)
  {
    hide StrToUL, Pieces, Spells, Ends, Positional;
    var s := "\\x" + d + rest;
    assert s[2..] == d + rest && s[2 + |d|..] == rest;
    NumberRead(d, ns, 16, rest);
    Step(s);
  }

  /** and octal digits after a 0. */
  lemma OctalEscapes(d: string, ns: seq<nat>, rest: string)
    requires Spells(d, ns, 8) && |d| <= 14 && Ends(rest, 8)
    ensures Pieces("\\0" + d + rest) == [Literal((Positional(ns, 8) % 256) as char)] + Pieces(rest)
  {
    hide StrToUL, Pieces, Ends, Positional, Stands;
    var s, zd := "\\0" + d + rest, "0" + d;
    assert s[1..] == zd + rest && s[1 + |zd|..] == rest;
    ZeroStands();
    assert Spells(zd, [0] + ns, 8);
    NumberRead(zd, [0] + ns, 8, rest);
    LeadingZero(ns, 8);
    Step(s);
  }

  lemma ZeroStands()
    ensures Stands('0', 0)
  {
    StandsFor('0', 0);
  }

  /** For instance: a title, a tab, a letter by its number, and the end of the line. */
  lemma TitleLine()
    ensures Pieces("<swishtitle>\\t\\x41\\n")
         == [Property("swishtitle")] + ([Literal('\t')] + ([Literal('A')] + [Literal('\n')]))
  {
    hide *;
    NameAndRest();
    TitleParts();
    PartIsProperty("swishtitle", "\\t\\x41\\n");
    TitleTail();
  }

  lemma TitleTail()
    ensures Pieces("\\t\\x41\\n") == [Literal('\t')] + ([Literal('A')] + [Literal('\n')])
  {
    hide *;
    TitleParts();
    LetterEscapes("\\x41\\n");
    FortyOne();
    HexEscapes("41", [4, 1], "\\n");
    LetterEscapes("");
    NoPieces();
    JustOne(Literal('\n'));
  }

  lemma JustOne(p: Piece)
    ensures [p] + [] == [p] && (0x41 % 256) as char == 'A'
  {
  }

  lemma TitleParts()
    ensures "<" + "swishtitle" + ">" + "\\t\\x41\\n" == "<swishtitle>\\t\\x41\\n"
    ensures "\\t" + "\\x41\\n" == "\\t\\x41\\n" && "\\x" + "41" + "\\n" == "\\x41\\n" && "\\n" + "" == "\\n"
  {
  }

  lemma FortyOne()
    ensures Spells("41", [4, 1], 16) && Positional([4, 1], 16) == 0x41 && Ends("\\n", 16) && "41" != "0"
  {
    StandsFor('4', 4);
    StandsFor('1', 1);
    assert [4, 1][..1] == [4] && [4][..0] == [];
    assert Positional([4], 16) == 4;
    forall n | 0 <= n < 16 ensures !Stands('\\', n) {
      StandsFor('\\', n);
    }
  }

  lemma NameAndRest()
    ensures SkipSpace("swishtitle") == "swishtitle" && '>' !in "swishtitle"
    ensures forall k :: 0 <= k < |"swishtitle"| ==> !IsSpace("swishtitle"[k])
  {
  }

  lemma NoPieces()
    ensures Pieces("") == []
  {
  }

  // ---------------------------------------------------------------- what a hit then shows

  lemma MeaningFirst(p: Piece, rest: seq<Piece>, ids: map<string, int>, show: int -> string)
    requires AllKnown(Names(rest), ids) && (p.Property? ==> p.name in ids)
    ensures AllKnown(Names([p] + rest), ids)
    ensures p.Literal? ==> Meaning([p] + rest, ids, show) == [p.c] + Meaning(rest, ids, show)
    ensures p.Property? ==> Meaning([p] + rest, ids, show) == show(ids[p.name]) + Meaning(rest, ids, show)
  {
    hide Names, AllKnown;
    assert ([p] + rest)[1..] == rest && ([p] + rest)[0] == p;
    Split([p] + rest, ids);
    KnownFirst([p] + rest, rest, ids);
  }

  lemma KnownFirst(pieces: seq<Piece>, rest: seq<Piece>, ids: map<string, int>)
    requires Names(pieces) == (if pieces != [] && pieces[0].Property? then [pieces[0].name] else []) + Names(rest)
    requires AllKnown(Names(rest), ids) && (pieces != [] && pieces[0].Property? ==> pieces[0].name in ids)
    ensures AllKnown(Names(pieces), ids)
  {
    hide Names;
  }

  /** An escaped letter shows its control character, whatever follows. */
  lemma EscapeShows(c: char, meant: char, rest: string, ids: map<string, int>, show: int -> string)
    requires IsLetterEscape(c, meant) && AllKnown(Names(Pieces(rest)), ids)
    ensures AllKnown(Names(Pieces(['\\', c] + rest)), ids)
    ensures Meaning(Pieces(['\\', c] + rest), ids, show) == [meant] + Meaning(Pieces(rest), ids, show)
  {
    hide *;
    OneEscape(c, meant, rest);
    MeaningFirst(Literal(meant), Pieces(rest), ids, show);
  }

  /** That format shows the title, a tab, an A and a newline. */
  lemma TitleShows(ids: map<string, int>, show: int -> string)
    requires "swishtitle" in ids
    ensures AllKnown(Names(Pieces("<swishtitle>\\t\\x41\\n")), ids)
    ensures Meaning(Pieces("<swishtitle>\\t\\x41\\n"), ids, show) == show(ids["swishtitle"]) + "\tA\n"
  {
    hide *;
    TitleLine();
    NothingShown(ids, show);
    JustOne(Literal('\n'));
    MeaningFirst(Literal('\n'), [], ids, show);
    MeaningFirst(Literal('A'), [Literal('\n')], ids, show);
    MeaningFirst(Literal('\t'), [Literal('A')] + [Literal('\n')], ids, show);
    MeaningFirst(Property("swishtitle"), [Literal('\t')] + ([Literal('A')] + [Literal('\n')]), ids, show);
    ShownText();
  }

  lemma NothingShown(ids: map<string, int>, show: int -> string)
    ensures AllKnown(Names([]), ids) && Meaning([], ids, show) == ""
  {
  }

  lemma ShownText()
    ensures ['\t'] + (['A'] + (['\n'] + "")) == "\tA\n"
  {
  }
}
