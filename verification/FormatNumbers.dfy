/** The numbers in the escapes of an output format, as strtoul reads them: blanks, signs, the 0x of base
    16, and what is too large; and what a template is made of. */
module FormatNumbers {
  import opened CString
  import opened OutputFormat
  import opened Numerals
  import FormatEscapes
  import Directives

  /** The number of `d` as an unsigned long, negated after a minus. */
  function UnsignedLong(n: nat, minus: bool): nat {
    if n > 18446744073709551615 then 18446744073709551615
    else if minus && n > 0 then 18446744073709551616 - n
    else n
  }

  lemma Wrapped(n: nat, minus: bool)
    ensures UnsignedLong(n, minus)
         == if n >= 0x1_0000_0000_0000_0000 then 0xFFFF_FFFF_FFFF_FFFF
            else if minus then (0x1_0000_0000_0000_0000 - n) % 0x1_0000_0000_0000_0000 else n
  {
  }

  lemma DigitStarts(c: char, n: nat)
    requires Stands(c, n)
    ensures DigitValue(c) == n && !IsSpace(c) && c != '-' && c != '+' && c != 'x' && c != 'X'
  {
    FormatEscapes.DigitIs(c, n);
  }

  lemma RunOf(d: string, ns: seq<nat>, base: nat, rest: string)
    requires Spells(d, ns, base) && base <= 16 && FormatEscapes.Ends(rest, base)
    ensures DigitRun(d + rest, base) == |d|
  {
    hide Stands, DigitValue, DigitRun;
    forall k | 0 <= k < |d| ensures DigitValue(d[k]) < base {
      DigitStarts(d[k], ns[k]);
    }
    FormatEscapes.NoDigit(rest, base);
    RunExact(d, rest, base);
  }

  /** strtoul in base 8: blanks, one sign or none, digits. */
  lemma OctalNumber(blank: string, sign: string, d: string, ns: seq<nat>, rest: string)
    requires AllSpace(blank) && sign in {"", "+", "-"} && d != "" && Spells(d, ns, 8) && FormatEscapes.Ends(rest, 8)
    ensures StrToUL(blank + (sign + (d + rest)), 8)
         == Numeral(UnsignedLong(Positional(ns, 8), sign == "-"), |blank| + |sign| + |d|)
  {
    ReadFrom(blank, sign, d + rest, 8, d, ns, rest);
  }

  /** In base 16 a 0x may come before the digits. */
  lemma HexNumber(blank: string, sign: string, prefix: string, d: string, ns: seq<nat>, rest: string)
    requires AllSpace(blank) && sign in {"", "+", "-"} && prefix in {"", "0x", "0X"}
    requires d != "" && Spells(d, ns, 16) && FormatEscapes.Ends(rest, 16)
    requires prefix == "" && d == "0" ==> rest == "" || (rest[0] != 'x' && rest[0] != 'X')
    ensures StrToUL(blank + (sign + (prefix + (d + rest))), 16)
         == Numeral(UnsignedLong(Positional(ns, 16), sign == "-"), |blank| + |sign| + |prefix| + |d|)
  {
    hide Stands, Positional;
    DigitStarts(d[0], ns[0]);
    if |d| > 1 {
      DigitStarts(d[1], ns[1]);
    }
    ReadFrom(blank, sign, prefix + (d + rest), 16, d, ns, rest);
  }

  /** What the code takes for the digits, when `u` is what follows the sign. */
  function AfterPrefix(u: string, base: nat): string {
    if base == 16 && |u| > 2 && u[0] == '0' && (u[1] == 'x' || u[1] == 'X') && DigitValue(u[2]) < 16 then u[2..] else u
  }

  lemma ReadFrom(blank: string, sign: string, u: string, base: nat, d: string, ns: seq<nat>, rest: string)
    requires AllSpace(blank) && sign in {"", "+", "-"} && base in {8, 16} && Spells(d, ns, base) && d != ""
    requires u != "" && !IsSpace(u[0]) && u[0] != '-' && u[0] != '+'
    requires AfterPrefix(u, base) == d + rest && |u| >= |d + rest| && FormatEscapes.Ends(rest, base)
    ensures StrToUL(blank + (sign + u), base)
         == Numeral(UnsignedLong(Positional(ns, base), sign == "-"), |blank| + |sign| + |u| - |rest|)
  {
    hide IsSpace, AllSpace, SkipSpace, Spells, Positional, Number, DigitValue, DigitRun, StrToUL, AfterPrefix;
    hide FormatEscapes.Ends, UnsignedLong;
    var t := sign + u;
    Signs(sign, u);
    Directives.SkipLead(blank, t);
    RunOf(d, ns, base, rest);
    assert (d + rest)[..|d|] == d;
    FormatEscapes.NumberIs(d, ns, base);
    Wrapped(Positional(ns, base), sign == "-");
    Read(blank + t, sign, u, base, d + rest, |d|);
  }

  lemma Signs(sign: string, u: string)
    requires sign in {"", "+", "-"} && u != "" && !IsSpace(u[0]) && u[0] != '-' && u[0] != '+'
    ensures sign + u != "" && !IsSpace((sign + u)[0])
  {
    if sign == "" {
      assert sign + u == u;
    }
  }

  function AfterSign(t: string): string {
    if t != "" && (t[0] == '-' || t[0] == '+') then t[1..] else t
  }

  predicate Negative(t: string) {
    t != "" && t[0] == '-'
  }

  /** What `v` comes to when `n` of the characters of `digits` are digits. */
  function Taken(s: string, digits: string, n: nat, v: nat, minus: bool): Numeral
    requires n <= |digits| <= |s|
  {
    if n == 0 then Numeral(0, 0)
    else
      Numeral(
        if v >= 0x1_0000_0000_0000_0000 then 0xFFFF_FFFF_FFFF_FFFF
        else if minus then (0x1_0000_0000_0000_0000 - v) % 0x1_0000_0000_0000_0000 else v,
        |s| - |digits| + n)
  }

  lemma Unfolded(s: string, base: nat)
    requires base <= 16
    ensures |AfterPrefix(AfterSign(SkipSpace(s)), base)| <= |s|
    ensures var digits := AfterPrefix(AfterSign(SkipSpace(s)), base);
            var n := DigitRun(digits, base);
            StrToUL(s, base) == Taken(s, digits, n, Number(digits[..n], base), Negative(SkipSpace(s)))
  {
    hide SkipSpace, Number, DigitValue, DigitRun;
  }

  lemma SignTaken(sign: string, u: string)
    requires sign in {"", "+", "-"} && u != "" && u[0] != '-' && u[0] != '+'
    ensures AfterSign(sign + u) == u && (Negative(sign + u) <==> sign == "-")
  {
    if sign == "" {
      assert sign + u == u;
    } else {
      assert (sign + u)[1..] == u && (sign + u)[0] == sign[0];
    }
  }

  lemma Read(s: string, sign: string, u: string, base: nat, digits: string, n: nat)
    requires SkipSpace(s) == sign + u && sign in {"", "+", "-"} && base in {8, 16} && 0 < n <= |digits|
    requires u != "" && u[0] != '-' && u[0] != '+' && AfterPrefix(u, base) == digits && DigitRun(digits, base) == n
    ensures |digits| <= |s|
    ensures StrToUL(s, base) == Taken(s, digits, n, Number(digits[..n], base), sign == "-")
  {
    hide SkipSpace, Number, DigitValue, DigitRun, StrToUL, Taken, AfterPrefix, AfterSign, Negative;
    Unfolded(s, base);
    SignTaken(sign, u);
  }

  lemma NothingRead(s: string)
    requires s == "" || (DigitValue(s[0]) >= 16 && s[0] != '-' && s[0] != '+')
    ensures AfterPrefix(AfterSign(s), 16) == s && DigitRun(s, 16) == 0
  {
  }

  predicate NoNumberFirst(s: string) {
    s == "" || (FormatEscapes.Ends(s, 16) && !IsSpace(s[0]) && s[0] != '-' && s[0] != '+')
  }

  lemma NoDigitHere(s: string)
    requires NoNumberFirst(s)
    ensures SkipSpace(s) == s && (s == "" || (DigitValue(s[0]) >= 16 && s[0] != '-' && s[0] != '+'))
  {
    FormatEscapes.NoDigit(s, 16);
    if s != "" {
      NoSkip(s);
    }
  }

  lemma NoNumberRead(s: string)
    requires NoNumberFirst(s)
    ensures StrToUL(s, 16) == Numeral(0, 0)
  {
    hide AfterPrefix, AfterSign, SkipSpace, DigitRun, DigitValue, Number, NoNumberFirst, StrToUL, Negative;
    NoDigitHere(s);
    Unfolded(s, 16);
    NothingRead(s);
  }

  /** With no digit to read nothing is read: \x by itself is a NUL. */
  lemma NoNumber(s: string)
    requires NoNumberFirst(s)
    ensures Pieces("\\x" + s) == [Literal('\0')] + Pieces(s)
  {
    hide StrToUL, Pieces, NoNumberFirst;
    NoNumberRead(s);
    var t := "\\x" + s;
    assert t[2..] == s && t[2 + 0..] == s;
    Step(t);
  }

  // ---------------------------------------------------------------- templates

  /** A property is a \3 in the template, and blanks before its name do not belong to it. */
  lemma TemplateOfLine()
    ensures Template([Literal('a'), Property("t"), Literal('b')]) == "a\U{3}b"
    ensures Names([Literal('a'), Property("t"), Literal('b')]) == ["t"]
  {
    var p := [Literal('a'), Property("t"), Literal('b')];
    assert p[..2] == [Literal('a'), Property("t")] && p[..2][..1] == [Literal('a')] && p[..2][..1][..0] == [];
    assert Template(p[..2][..1]) == "a" && Names(p[..2][..1]) == [];
    assert Template(p[..2]) == "a\U{3}" && Names(p[..2]) == ["t"];
  }

  /** There is room for the properties of a format up to the 64th. */
  lemma PropertyLimit(names: seq<string>)
    ensures |names| <= MAX_PROPS <==> |names| < 65
  {
  }

  lemma BlanksBeforeName(blank: string, name: string, rest: string)
    requires AllSpace(blank) && name != "" && '>' !in name && forall k :: 0 <= k < |name| ==> !IsSpace(name[k])
    ensures Pieces("<" + blank + name + ">" + rest) == [Property(name)] + Pieces(rest)
  {
    var s, t := "<" + blank + name + ">" + rest, name + ">" + rest;
    NameEndsAt(t, |name|);
    assert s[1..] == blank + t && t[..|name|] == name && t[|name| + 1..] == rest && !IsSpace(t[0]);
    hide *;
    Directives.SkipLead(blank, t);
    NamedFirst(s, t, |name|);
    Step(s);
  }

  lemma NamedFirst(s: string, t: string, n: nat)
    requires s != "" && s[0] == '<' && SkipSpace(s[1..]) == t && n < |t| && NameEnd(t) == n
    ensures First(s) == Parsed(Property(t[..n]), t[n + 1..])
  {
    hide SkipSpace, NameEnd, ReadEscape;
  }

  lemma {:induction false} NameEndsAt(t: string, n: nat)
    requires n < |t| && t[n] == '>' && forall k :: 0 <= k < n ==> t[k] != '>' && !IsSpace(t[k])
    ensures NameEnd(t) == n
  {
    hide IsSpace;
    if n > 0 {
      NameEndsAt(t[1..], n - 1);
    }
  }
}
