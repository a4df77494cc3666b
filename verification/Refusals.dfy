/** When swish_parse_fh gives up, and what it then says. */
module Refusals {
  import opened CString
  import opened Seqs
  import opened Headers
  import opened HeadersApi
  import opened StreamTheorems
  import opened HeaderFields
  import opened HeaderValues
  import opened Producers

  /** A location and, for a length, whatever `v` says. */
  function Sized(uri: string, v: string): seq<string> {
    ["Content-Location" + ": " + uri, "Content-Length" + ": " + v]
  }

  lemma TwoLines(a: string, b: string)
    requires ReadLine(NO_INFO, a).Ok?
    ensures ReadLines(HeadLines([a, b])) == ReadLine(ReadLine(NO_INFO, a).value, b)
  {
    hide ReadLine;
    NoLines();
    assert [] + [a] == [a] && [a] + [b] == [a, b];
    ReadMore([], a);
    ReadMore([a], b);
  }

  lemma SizedRead(uri: string, v: string)
    requires GoodValue(uri) && v != "" && !IsSpace(v[0])
    ensures ReadLines(HeadLines(Sized(uri, v)))
         == match StringToInt(v)
            case Ok(n) => Ok(NO_INFO.(uri := Some(uri), size := n))
            case Err(e) => Err(e)
  {
    hide GoodValue, NAMES, ReadLine, ReadLines, StringToInt, IsSpace;
    Table();
    TextRead(NO_INFO, 3, uri);
    TextMeant(NO_INFO, uri);
    HeaderIsMeant(NO_INFO.(uri := Some(uri)), 0, v);
    TwoLines(Sized(uri, v)[0], Sized(uri, v)[1]);
  }

  /** What such headers and `rest` behind them come to. */
  lemma SizedDocument(uri: string, v: string, n: int, rest: string)
    requires GoodValue(uri) && v != "" && !IsSpace(v[0]) && StringToInt(v) == Ok(n)
    ensures n == -1 ==> Document(Sized(uri, v), rest) == Err(NoLength)
    ensures n == 0 ==> Document(Sized(uri, v), rest) == Err(ZeroLength)
    ensures n < -1 ==> Document(Sized(uri, v), rest) == Err(NoMemory)
    ensures n > |rest| ==> Document(Sized(uri, v), rest) == Err(ShortRead)
    ensures 0 < n <= |rest| ==>
              Document(Sized(uri, v), rest) == Ok(Doc(NO_INFO.(uri := Some(uri), size := n), NoNulls(rest[..n])))
  {
    hide GoodValue, ReadLines, StringToInt, IsSpace, NoNulls, Sized, HeadLines;
    SizedRead(uri, v);
  }

  lemma PlainNumber(sign: string, n: nat)
    requires sign in {"", "-"}
    ensures sign + Digits(n) != "" && !IsSpace((sign + Digits(n))[0])
  {
    hide Digits;
    DigitsRead(n);
    assert IsDigit(Digits(n)[0]);
  }

  lemma Minus(n: nat)
    ensures StrToL("-" + Digits(n)) == 0 - n && StrToL(Digits(n)) == n
  {
    hide Digits, Decimal, DigitRun;
    DigitsToL(n);
    var d, s := Digits(n), "-" + Digits(n);
    DigitsRead(n);
    AllDigits(d);
    SkipNothing(s);
    assert s[1..] == d && d[..|d|] == d;
  }

  lemma Sizes(n: nat)
    ensures n < 0x8000_0000 ==> StringToInt(Digits(n)) == Ok(n as int) && StringToInt("-" + Digits(n)) == Ok(0 - n)
    ensures n >= 0x8000_0000_0000_0000 ==> StringToInt(Digits(n)) == Err(NumberRange)
  {
    Minus(n);
    hide StrToL, Digits;
  }

  /** A length that is 0, negative, too large for what follows, or no long at all. */
  lemma BadLength(uri: string, n: nat, rest: string)
    requires GoodValue(uri)
    ensures Document(Sized(uri, "0"), rest) == Err(ZeroLength)
    ensures Document(Sized(uri, "-1"), rest) == Err(NoLength)
    ensures 1 < n < 0x8000_0000 ==> Document(Sized(uri, "-" + Digits(n)), rest) == Err(NoMemory)
    ensures |rest| < n < 0x8000_0000 ==> Document(Sized(uri, Digits(n)), rest) == Err(ShortRead)
    ensures n >= 0x8000_0000_0000_0000 ==> Document(Sized(uri, Digits(n)), rest) == Err(NumberRange)
  {
    ZeroAndOne();
    hide GoodValue, ReadLines, StringToInt, IsSpace, Sized, HeadLines, Digits, Document;
    Sizes(0);
    Sizes(1);
    Sizes(n);
    PlainNumber("", 0);
    PlainNumber("-", 1);
    PlainNumber("-", n);
    PlainNumber("", n);
    assert "" + Digits(n) == Digits(n) && "" + Digits(0) == Digits(0);
    SizedDocument(uri, "0", 0, rest);
    SizedDocument(uri, "-1", -1, rest);
    if n < 0x8000_0000 {
      SizedDocument(uri, "-" + Digits(n), 0 - n, rest);
      SizedDocument(uri, Digits(n), n, rest);
    }
    if n >= 0x8000_0000_0000_0000 {
      SizedRead(uri, Digits(n));
      NumberRefused(uri, Digits(n), rest);
    }
  }

  lemma NumberRefused(uri: string, v: string, rest: string)
    requires ReadLines(HeadLines(Sized(uri, v))) == Err(NumberRange)
    ensures Document(Sized(uri, v), rest) == Err(NumberRange)
  {
    hide ReadLines, Sized, HeadLines;
  }

  lemma ZeroAndOne()
    ensures Digits(0) == "0" && "-" + Digits(1) == "-1"
  {
  }

  /** No length at all counts as length 0, and a document without location is refused first. */
  lemma Missing(uri: string, mime: string, rest: string)
    requires GoodValue(uri) && GoodValue(mime)
    ensures Document(["Content-Location" + ": " + uri, "Content-Type" + ": " + mime], rest) == Err(ZeroLength)
    ensures Document(["Content-Length" + ": " + "0", "Content-Type" + ": " + mime], rest) == Err(NoLocation)
  {
    hide GoodValue, NAMES, ReadLine, ReadLines, Meant, HeadLines, Digits;
    Table();
    ZeroAndOne();
    TextRead(NO_INFO, 3, uri);
    TextMeant(NO_INFO, uri);
    var i1 := NO_INFO.(uri := Some(uri));
    TextRead(i1, 7, mime);
    TextMeant(i1, mime);
    TwoLines("Content-Location" + ": " + uri, "Content-Type" + ": " + mime);
    NumberLines(NO_INFO, 0);
    var i2 := NO_INFO.(size := 0);
    TextRead(i2, 7, mime);
    TextMeant(i2, mime);
    TwoLines("Content-Length" + ": " + "0", "Content-Type" + ": " + mime);
  }

  /** Header lines with no blank line after them are left unparsed. */
  lemma LeftOver(lines: seq<string>)
    requires AllPlain(lines) && lines != []
    ensures Parse(Joined(lines), []) == Outcome([], Some(UnparsedLines))
  {
    hide AllPlain, Parse, Joined;
    HeadersRead(lines, "", []);
    assert Joined(lines) + "" == Joined(lines) && [] + lines == lines;
    NoMoreLines(lines);
  }

  lemma NoMoreLines(lines: seq<string>)
    requires lines != []
    ensures Parse("", lines) == Outcome([], Some(UnparsedLines))
  {
  }
}
