/** Streams as producers write them: lines that end in CR LF or have blanks around them, and every
    header the parser knows. */
module Producers {
  import opened CString
  import opened Seqs
  import opened Headers
  import opened HeadersApi
  import opened StreamTheorems
  import opened HeaderFields
  import Directives

  // ---------------------------------------------------------------- blanks around a line

  /** A header line with blanks before and behind it. */
  datatype Row = Row(lead: string, line: string, tail: string)

  predicate Blank(s: string) {
    AllSpace(s) && '\n' !in s
  }

  predicate GoodRow(r: Row) {
    Plain(r.line) && Blank(r.lead) && Blank(r.tail) && |r.lead| + |r.line| + |r.tail| < MAX_LINE - 1
  }

  predicate GoodRows(rows: seq<Row>) {
    forall k :: 0 <= k < |rows| ==> GoodRow(rows[k])
  }

  function Lines(rows: seq<Row>): (lines: seq<string>)
    ensures |lines| == |rows|
  {
    seq(|rows|, i requires 0 <= i < |rows| => rows[i].line)
  }

  function Spelled(rows: seq<Row>): string {
    if rows == [] then "" else rows[0].lead + rows[0].line + rows[0].tail + "\n" + Spelled(rows[1..])
  }

  /** Any blanks around a line come off, be it the CR of a CR LF. */
  lemma CleanLoose(lead: string, line: string, tail: string)
    requires Plain(line) && Blank(lead) && Blank(tail)
    ensures Clean(lead + line + tail + "\n") == line
  {
    hide IsSpace, NoNul, SkipSpace, TrimEnd, AllSpace;
    var raw, rest := lead + line + tail + "\n", line + tail + "\n";
    LooseNoNul(lead, line, tail);
    assert raw == lead + rest && rest[0] == line[0];
    Directives.SkipLead(lead, rest);
    assert rest[|line + tail|] == '\n';
    LastNewlineIs(rest, |line + tail|);
    assert rest[..|line + tail|] == line + tail;
    Directives.TrimTail(line, tail);
  }

  lemma LooseNoNul(lead: string, line: string, tail: string)
    requires NoNul(line) && AllSpace(lead) && AllSpace(tail)
    ensures CStr(lead + line + tail + "\n") == lead + line + tail + "\n"
  {
    assert forall i :: 0 <= i < |lead| ==> lead[i] != NUL;
    assert forall i :: 0 <= i < |tail| ==> tail[i] != NUL;
    assert NoNul(lead + line + tail + "\n");
  }

  lemma CleanBlanks(blank: string)
    requires Blank(blank)
    ensures Clean(blank + "\n") == ""
  {
    assert IsSpace('\n');
    hide IsSpace, NoNul, SkipSpace, TrimEnd;
    LooseNoNul(blank, "", "");
    assert blank + "" + "" == blank && (blank + "\n") + "" == blank + "\n";
    Directives.SkipLead(blank + "\n", "");
  }

  lemma RowLine(r: Row, more: string)
    requires GoodRow(r)
    ensures var raw := r.lead + r.line + r.tail;
            LineLength(raw + "\n" + more, MAX_LINE - 1) == |raw| + 1 && Clean(raw + "\n") == r.line != ""
  {
    hide Clean, AllSpace;
    CleanLoose(r.lead, r.line, r.tail);
    LineOf(r.lead + r.line + r.tail, more, MAX_LINE - 1);
  }

  lemma {:induction false} RowsRead(rows: seq<Row>, rest: string, heads: seq<string>)
    requires GoodRows(rows)
    ensures Parse(Spelled(rows) + rest, heads) == Parse(rest, heads + Lines(rows))
    decreases |rows|
  {
    hide GoodRow, Clean, LineLength, Parse;
    if rows == [] {
      assert heads + Lines(rows) == heads && Spelled(rows) + rest == rest;
    } else {
      var r := rows[0];
      var raw, more, s := r.lead + r.line + r.tail, Spelled(rows[1..]) + rest, Spelled(rows) + rest;
      assert s == raw + "\n" + more;
      RowLine(r, more);
      ParseStep(s, heads);
      assert s[..|raw| + 1] == raw + "\n" && s[|raw| + 1..] == more;
      RowsRead(rows[1..], rest, heads + [r.line]);
      assert heads + [r.line] + Lines(rows[1..]) == heads + Lines(rows);
    }
  }

  lemma BlankRow(blank: string, rest: string, heads: seq<string>)
    requires Blank(blank) && |blank| < MAX_LINE - 1
    ensures Parse(blank + "\n" + rest, heads) == Parse("\n" + rest, heads)
  {
    hide Clean, LineLength, Parse, AllSpace, Document;
    var s, plain := blank + "\n" + rest, "" + "\n" + rest;
    LineOf(blank, rest, MAX_LINE - 1);
    LineOf("", rest, MAX_LINE - 1);
    CleanBlanks(blank);
    CleanBlank();
    ParseStep(s, heads);
    ParseStep(plain, heads);
    assert s[..|blank| + 1] == blank + "\n" && s[|blank| + 1..] == rest;
    assert plain[..1] == "\n" && plain[1..] == rest && plain == "\n" + rest;
  }

  /** Blanks around the header lines and on the blank line make no difference to what is read. */
  lemma LooseFrame(rows: seq<Row>, blank: string, body: string, rest: string)
    requires GoodRows(rows) && Blank(blank) && |blank| < MAX_LINE - 1
    ensures Parse(Spelled(rows) + blank + "\n" + body + rest, [])
         == Parse(Framed(Message(Lines(rows), body)) + rest, [])
  {
    hide GoodRow, Parse, Blank, Plain;
    var after := body + rest;
    RowsPlain(rows);
    RowsRead(rows, blank + "\n" + after, []);
    HeadersRead(Lines(rows), "\n" + after, []);
    BlankRow(blank, after, [] + Lines(rows));
    assert Spelled(rows) + blank + "\n" + body + rest == Spelled(rows) + (blank + "\n" + after);
    assert Framed(Message(Lines(rows), body)) + rest == Joined(Lines(rows)) + ("\n" + after);
  }

  lemma RowsPlain(rows: seq<Row>)
    requires GoodRows(rows)
    ensures AllPlain(Lines(rows))
  {
    hide Plain, Blank;
    forall k | 0 <= k < |rows| ensures Plain(Lines(rows)[k]) {
      assert GoodRow(rows[k]);
    }
  }

  function WithCr(lines: seq<string>): (rows: seq<Row>)
    ensures |rows| == |lines|
  {
    seq(|lines|, i requires 0 <= i < |lines| => Row("", lines[i], "\r"))
  }

  /** So a message whose lines end in CR LF is read like one whose lines end in LF. */
  lemma CrLf(m: Message, rest: string)
    requires forall k :: 0 <= k < |m.lines| ==> Plain(m.lines[k]) && |m.lines[k]| < MAX_LINE - 2
    ensures Parse(Spelled(WithCr(m.lines)) + "\r" + "\n" + m.body + rest, []) == Parse(Framed(m) + rest, [])
  {
    hide Plain, Parse, Spelled;
    assert Blank("") && Blank("\r");
    forall k | 0 <= k < |m.lines| ensures GoodRow(WithCr(m.lines)[k]) {
    }
    assert Lines(WithCr(m.lines)) == m.lines;
    LooseFrame(WithCr(m.lines), "\r", m.body, rest);
  }

  // ---------------------------------------------------------------- every header

  /** All a producer can say of a document, in six headers. */
  datatype Sending = Sending(uri: string, time: nat, mime: string, parser: string, encoding: string, body: string)

  predicate GoodValue(v: string) {
    Plain(v) && |v| < 2000
  }

  predicate GoodSending(s: Sending) {
    && GoodValue(s.uri) && GoodValue(s.mime) && GoodValue(s.parser) && GoodValue(s.encoding)
    && s.time < 0x8000_0000 && 0 < |s.body| < 0x8000_0000 && NoNul(s.body)
  }

  function MessageOf(s: Sending): Message {
    Message(["Content-Location" + ": " + s.uri, "Last-Modified" + ": " + Digits(s.time), "Content-Type" + ": " + s.mime,
             "Parser-Type" + ": " + s.parser, "Charset" + ": " + s.encoding,
             "Content-Length" + ": " + Digits(|s.body|)],
            s.body)
  }

  /** What the handler is to get. */
  function DocSent(s: Sending): Doc {
    Doc(DocInfo(|s.body|, s.time, Some(s.uri), Some(s.mime), Some(s.parser), Some(s.encoding), None), s.body)
  }

  lemma PlainField(i: nat, v: string)
    requires i < |NAMES| && GoodValue(v)
    ensures Plain(NAMES[i] + ": " + v) && v != "" && !IsSpace(v[0]) && NoNul(v)
  {
    hide NAMES, IsSpace;
    ShortNames(i);
    var line := NAMES[i] + ": " + v;
    PlainNames(i);
    assert line[0] == NAMES[i][0] && line[|line| - 1] == v[|v| - 1];
    forall x | x in line ensures x != '\n' && x != NUL {
      assert x in NAMES[i] || x in ": " || x in v;
    }
  }

  lemma ShortNames(i: nat)
    requires i < |NAMES|
    ensures 0 < |NAMES[i]| < 20 && !IsSpace(NAMES[i][0]) && '\n' !in NAMES[i]
  {
  }

  lemma GoodNumber(n: nat)
    requires n < 0x8000_0000
    ensures GoodValue(Digits(n))
  {
    hide Digits, Plain;
    DigitsRead(n);
    DigitsFew(n, 10, 10_000_000_000);
    DigitsPlain(Digits(n));
  }

  lemma Table()
    ensures |NAMES| == 10 && NAMES[0] == "Content-Length" && NAMES[1] == "Last-Modified"
    ensures NAMES[3] == "Content-Location"
    ensures NAMES[6] == "Parser-Type" && NAMES[7] == "Content-Type" && NAMES[9] == "Charset"
  {
  }

  lemma ReadMore(lines: seq<string>, line: string)
    requires ReadLines(lines).Ok?
    ensures ReadLines(lines + [line]) == ReadLine(ReadLines(lines).value, line)
  {
    assert (lines + [line])[..|lines|] == lines;
  }

  lemma TextMeant(info: DocInfo, v: string)
    ensures Meant(info, "Content-Location", v) == Ok(info.(uri := Some(v)))
    ensures Meant(info, "Content-Type", v) == Ok(info.(mime := Some(v)))
    ensures Meant(info, "Parser-Type", v) == Ok(info.(parser := Some(v)))
    ensures Meant(info, "Charset", v) == Ok(info.(encoding := Some(v)))
  {
  }

  lemma TextRead(info: DocInfo, i: nat, v: string)
    requires i in {3, 6, 7, 9} && GoodValue(v)
    ensures ReadLine(info, NAMES[i] + ": " + v) == Meant(info, NAMES[i], v)
  {
    hide NAMES, ReadLine, Meant;
    Table();
    PlainField(i, v);
    HeaderIsMeant(info, i, v);
  }

  lemma NumberLines(info: DocInfo, n: nat)
    requires n < 0x8000_0000
    ensures ReadLine(info, "Last-Modified" + ": " + Digits(n)) == Ok(info.(mtime := n))
    ensures ReadLine(info, "Content-Length" + ": " + Digits(n)) == Ok(info.(size := n))
  {
    hide ReadLine, Digits;
    NumbersRead(info, n);
    assert "Last-Modified" + ": " == "Last-Modified: " && "Content-Length" + ": " == "Content-Length: ";
  }

  /** The six lines, read one after the other. */
  lemma SixRead(s: Sending)
    requires GoodSending(s)
    ensures ReadLines(MessageOf(s).lines) == Ok(DocSent(s).info)
  {
    hide ReadLine, ReadLines, Digits, GoodValue, NAMES, Meant;
    Table();
    NoLines();
    var l := MessageOf(s).lines;
    var i0 := NO_INFO;
    var i1 := i0.(uri := Some(s.uri));
    TextRead(i0, 3, s.uri);
    TextMeant(i0, s.uri);
    ReadMore([], l[0]);
    assert [] + [l[0]] == [l[0]];
    var i2 := i1.(mtime := s.time);
    NumberLines(i1, s.time);
    ReadMore([l[0]], l[1]);
    var i3 := i2.(mime := Some(s.mime));
    TextRead(i2, 7, s.mime);
    TextMeant(i2, s.mime);
    ReadMore([l[0]] + [l[1]], l[2]);
    var i4 := i3.(parser := Some(s.parser));
    TextRead(i3, 6, s.parser);
    TextMeant(i3, s.parser);
    ReadMore([l[0]] + [l[1]] + [l[2]], l[3]);
    var i5 := i4.(encoding := Some(s.encoding));
    TextRead(i4, 9, s.encoding);
    TextMeant(i4, s.encoding);
    ReadMore([l[0]] + [l[1]] + [l[2]] + [l[3]], l[4]);
    NumberLines(i5, |s.body|);
    ReadMore([l[0]] + [l[1]] + [l[2]] + [l[3]] + [l[4]], l[5]);
    assert l == [l[0]] + [l[1]] + [l[2]] + [l[3]] + [l[4]] + [l[5]];
  }

  lemma NoLines()
    ensures ReadLines([]) == Ok(NO_INFO)
  {
  }

  lemma SixPlain(s: Sending)
    requires GoodSending(s)
    ensures AllPlain(MessageOf(s).lines)
  {
    hide Plain, Digits, NAMES;
    Table();
    GoodNumber(s.time);
    GoodNumber(|s.body|);
    PlainField(3, s.uri);
    PlainField(1, Digits(s.time));
    PlainField(7, s.mime);
    PlainField(6, s.parser);
    PlainField(9, s.encoding);
    PlainField(0, Digits(|s.body|));
  }

  lemma SendingIsAnnounced(s: Sending)
    requires GoodSending(s)
    ensures var m := MessageOf(s);
            AllPlain(m.lines) && |m.lines| == 6 && Announced(m) && DocOf(m) == DocSent(s)
  {
    SixPlain(s);
    SixRead(s);
    BodyUnchanged(s.body);
    hide AllPlain, ReadLines, NoNul, NoNulls, GoodValue, Digits;
    assert HeadLines(MessageOf(s).lines) == MessageOf(s).lines;
  }

  function MessagesOf(sent: seq<Sending>): (ms: seq<Message>)
    ensures |ms| == |sent|
  {
    seq(|sent|, i requires 0 <= i < |sent| => MessageOf(sent[i]))
  }

  /** Whatever a producer says of its documents in these headers is what the handler gets, every field
      of every one. */
  lemma AllArrives(sent: seq<Sending>)
    requires forall k :: 0 <= k < |sent| ==> GoodSending(sent[k])
    ensures var o := Parse(Stream(MessagesOf(sent)), []);
            && o.error == None && |o.docs| == |sent|
            && forall k :: 0 <= k < |sent| ==> o.docs[k] == DocSent(sent[k])
  {
    hide Parse, Stream, MessageOf, Announced, AllPlain, DocOf, DocsOf, GoodSending, DocSent;
    var ms := MessagesOf(sent);
    forall k | 0 <= k < |ms|
      ensures AllPlain(ms[k].lines) && |ms[k].lines| >= MIN_HEADERS
      ensures Announced(ms[k]) && DocOf(ms[k]) == DocSent(sent[k])
    {
      SendingIsAnnounced(sent[k]);
    }
    StreamComesBack(ms);
    DocsAt(ms);
  }

  // ---------------------------------------------------------------- limits

  /** One header is not enough for a document, */
  lemma OneHeaderIsFew(line: string, rest: string)
    requires Plain(line)
    ensures Parse(line + "\n" + "\n" + rest, []) == Outcome([], Some(NotEnoughHeaders))
  {
    hide Plain, Clean, LineLength, Parse, Document;
    HeadersRead([line], "\n" + rest, []);
    assert [line][1..] == [] && Joined([line][1..]) == "";
    assert Joined([line]) + ("\n" + rest) == line + "\n" + "\n" + rest;
    assert [] + [line] == [line];
    var plain := "" + "\n" + rest;
    LineOf("", rest, MAX_LINE - 1);
    CleanBlank();
    ParseStep(plain, [line]);
    assert plain[..1] == "\n" && plain == "\n" + rest;
  }

  /** a seventh is passed over, */
  lemma SevenHeaders(lines: seq<string>)
    requires |lines| >= 6
    ensures HeadLines(lines) == lines[..6]
  {
  }

  /** and a line is cut after 2047 bytes. */
  lemma {:induction false} LongLine(s: string, max: nat)
    requires '\n' !in s && |s| >= max
    ensures LineLength(s, max) == max
    ensures max == 2047 ==> RawLine(s) == s[..2047]
  {
    if max > 0 {
      LongLine(s[1..], max - 1);
    }
  }
}
