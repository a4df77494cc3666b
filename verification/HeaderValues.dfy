/** The values of header lines: decimal numbers with their signs and their width, blanks, and names that
    mean nothing. */
module HeaderValues {
  import opened CString
  import opened Headers
  import opened StreamTheorems
  import opened HeaderFields
  import opened Numerals
  import Directives

  // ---------------------------------------------------------------- numbers

  lemma DecimalDigit(c: char, n: nat)
    requires Stands(c, n) && n < 10
    ensures IsDigit(c) && c as int - '0' as int == n
  {
    StandsFor(c, n);
  }

  /** Digits are the number they spell in base ten. */
  lemma {:induction false} DecimalIs(d: string, ns: seq<nat>)
    requires Spells(d, ns, 10)
    ensures Decimal(d) == Positional(ns, 10)
  {
    hide Stands;
    if d != "" {
      SpellsFront(d, ns, 10);
      DecimalIs(d[..|d| - 1], ns[..|ns| - 1]);
      DecimalDigit(d[|d| - 1], ns[|ns| - 1]);
    }
  }

  predicate NoDigitFirst(s: string) {
    s == "" || forall n :: 0 <= n < 10 ==> !Stands(s[0], n)
  }

  lemma NoDigit(s: string)
    requires NoDigitFirst(s)
    ensures s == "" || !IsDigit(s[0])
  {
    if s != "" {
      StandsFor(s[0], if IsDigit(s[0]) then s[0] as int - '0' as int else 0);
    }
  }

  lemma {:induction false} RunOf(d: string, ns: seq<nat>, rest: string)
    requires Spells(d, ns, 10) && NoDigitFirst(rest)
    ensures DigitRun(d + rest) == |d|
  {
    hide Stands;
    if d == "" {
      assert d + rest == rest;
      NoDigit(rest);
    } else {
      DecimalDigit(d[0], ns[0]);
      assert (d + rest)[0] == d[0] && (d + rest)[1..] == d[1..] + rest;
      RunOf(d[1..], ns[1..], rest);
    }
  }

  /** strtol: blanks, one sign or none, and then the digits as far as they go. */
  lemma NumberIs(blank: string, sign: string, d: string, ns: seq<nat>, rest: string)
    requires AllSpace(blank) && sign in {"", "+", "-"} && d != "" && Spells(d, ns, 10) && NoDigitFirst(rest)
    ensures StrToL(blank + (sign + (d + rest))) == if sign == "-" then 0 - Positional(ns, 10) else Positional(ns, 10)
  {
    var t := sign + (d + rest);
    Started(sign, d, ns, rest);
    Directives.SkipLead(blank, t);
    hide Stands, DigitRun, Decimal, Positional, IsSpace, SkipSpace, AllSpace;
    RunOf(d, ns, rest);
    DecimalIs(d, ns);
    assert (d + rest)[..|d|] == d;
    if sign == "" {
      assert t == d + rest;
    } else {
      assert t[1..] == d + rest && t[0] == sign[0];
    }
  }

  lemma Started(sign: string, d: string, ns: seq<nat>, rest: string)
    requires sign in {"", "+", "-"} && d != "" && Spells(d, ns, 10)
    ensures var t := sign + (d + rest); t != "" && !IsSpace(t[0])
    ensures d[0] != '-' && d[0] != '+'
  {
    hide Stands;
    DecimalDigit(d[0], ns[0]);
  }

  /** Where there is no digit, the number is 0. */
  lemma NoNumber(s: string)
    requires s == "" || (!IsSpace(s[0]) && s[0] != '-' && s[0] != '+' && !IsDigit(s[0]))
    ensures StrToL(s) == 0
  {
    SkipNothing(s);
    assert s[..0] == "";
  }

  /** What is too wide for an int keeps its low 32 bits, with the sign they have. */
  lemma IntOf(i: int)
    ensures -2147483648 <= ToInt32(i) <= 2147483647 && (ToInt32(i) - i) % 4294967296 == 0
    ensures -2147483648 <= i <= 2147483647 ==> ToInt32(i) == i
  {
  }

  /** What is too wide for a long ends the process. */
  lemma TooWide(s: string)
    ensures -9223372036854775808 <= StrToL(s) <= 9223372036854775807 ==> StringToInt(s) == Ok(ToInt32(StrToL(s)))
    ensures StrToL(s) > 9223372036854775807 || StrToL(s) < -9223372036854775808 ==> StringToInt(s) == Err(NumberRange)
  {
    hide StrToL, ToInt32;
  }

  /** 4294967301 bytes are announced as 5. */
  lemma FiveAgain(info: DocInfo)
    ensures ReadLine(info, "Content-Length: " + Digits(4294967301)) == Ok(info.(size := 5))
  {
    hide ReadLine, Digits;
    LengthRead(info, 4294967301);
    assert LENGTH + ": " == "Content-Length: ";
  }

  // ---------------------------------------------------------------- lines

  /** Any blanks after the colon, or none. */
  lemma LooseValue(name: string, blank: string, v: string)
    requires ':' !in name && AllSpace(blank) && (v == "" || !IsSpace(v[0]))
    ensures ':' in name + ":" + (blank + v) && Value(name + ":" + (blank + v)) == v
  {
    hide IsSpace, AllSpace, SkipSpace;
    var line := name + ":" + (blank + v);
    ColonAt(name, blank + v);
    assert line[|name|] == ':' && line[|name| + 1..] == blank + v;
    Directives.SkipLead(blank, v);
  }

  /** Without a colon the line ends the process. */
  lemma NoColon(info: DocInfo, line: string)
    requires ':' !in line
    ensures ReadLine(info, line) == Err(BadHeader(line))
  {
    hide SameCase;
  }

  /** A line that starts with none of the names, in no case, says nothing. */
  lemma UnknownName(info: DocInfo, line: string)
    requires ':' in line && NoNul(line)
    requires forall j :: 0 <= j < |NAMES| ==>
               !(|NAMES[j]| <= |line| && Lower(line[..|NAMES[j]|]) == Lower(NAMES[j]))
    ensures ReadLine(info, line) == Ok(info)
  {
    hide SameCase, Lower, NoNul, Value, NAMES, StringToInt;
    TenNames();
    forall j | 0 <= j < |NAMES| ensures !SameCase(line, NAMES[j], |NAMES[j]|) {
      PlainNames(j);
      PrefixTest(line, NAMES[j]);
    }
    NoActionTest(line);
    NoTest(line);
    Passed(info, line);
  }

  lemma TenNames()
    ensures |NAMES| == 10
  {
  }

  lemma NoTest(line: string)
    requires forall j :: 0 <= j < |NAMES| ==> !SameCase(line, NAMES[j], |NAMES[j]|)
    ensures !SameCase(line, "Content-Length", 14) && !SameCase(line, "Last-Modified", 13)
    ensures !SameCase(line, "Last-Mtime", 10) && !SameCase(line, "Content-Location", 16)
    ensures !SameCase(line, "Path-Name", 9) && !SameCase(line, "Document-Type", 13)
    ensures !SameCase(line, "Parser-Type", 11) && !SameCase(line, "Content-Type", 12)
    ensures !SameCase(line, "Encoding", 8) && !SameCase(line, "Charset", 7)
  {
    hide SameCase;
    assert NAMES[0] == "Content-Length" && NAMES[1] == "Last-Modified" && NAMES[2] == "Last-Mtime";
    assert NAMES[3] == "Content-Location" && NAMES[4] == "Path-Name" && NAMES[5] == "Document-Type";
    assert NAMES[6] == "Parser-Type" && NAMES[7] == "Content-Type" && NAMES[8] == "Encoding" && NAMES[9] == "Charset";
  }

  lemma Passed(info: DocInfo, line: string)
    requires ':' in line && !SameCase(line, "Action", 11)
    requires !SameCase(line, "Content-Length", 14) && !SameCase(line, "Last-Modified", 13)
    requires !SameCase(line, "Last-Mtime", 10) && !SameCase(line, "Content-Location", 16)
    requires !SameCase(line, "Path-Name", 9) && !SameCase(line, "Document-Type", 13)
    requires !SameCase(line, "Parser-Type", 11) && !SameCase(line, "Content-Type", 12)
    requires !SameCase(line, "Encoding", 8) && !SameCase(line, "Charset", 7)
    ensures ReadLine(info, line) == Ok(info)
  {
    hide SameCase, Value, StringToInt;
  }
}
