/** What a stream of documents comes to: cut short it delivers nothing wrong, whole documents can be
    put one after the other, and what is framed properly comes back byte for byte. */
module StreamTheorems {
  import opened CString
  import opened Seqs
  import opened Headers
  import opened HeadersApi

  // ---------------------------------------------------------------- streams put end to end

  /** A line that has its newline, or is as long as a line can get, stays the same line. */
  lemma {:induction false} LineStable(a: string, b: string, max: nat)
    requires var n := LineLength(a, max); n == max || (n > 0 && a[n - 1] == '\n')
    ensures LineLength(a + b, max) == LineLength(a, max)
  {
    if max > 0 && a != "" {
      assert (a + b)[0] == a[0] && (a + b)[1..] == a[1..] + b;
      if a[0] != '\n' {
        LineStable(a[1..], b, max - 1);
      }
    }
  }

  lemma DocumentStable(heads: seq<string>, rest: string, more: string)
    requires Document(heads, rest).Ok?
    ensures Document(heads, rest + more) == Document(heads, rest)
  {
    hide ReadLines, HeadLines, NoNulls;
    var n := Document(heads, rest).value.info.size;
    assert (rest + more)[..n] == rest[..n];
  }

  /** The last line of a stream that ends without a newline delivers nothing and is an error. */
  lemma BrokenOff(s: string, heads: seq<string>)
    requires s != "" && LineLength(s, MAX_LINE - 1) == |s|
    ensures Parse(s, heads).docs == [] && Parse(s, heads).error != None
  {
    hide Clean, LineLength, Parse, Document;
    ParseStep(s, heads);
    ParseStep("", heads + [Clean(s[..|s|])]);
    assert s[|s|..] == "";
    NothingRead(heads);
  }

  lemma NothingRead(heads: seq<string>)
    ensures Document(heads, "").Err?
  {
    hide ReadLines, HeadLines;
  }

  /** After a stream that ends well, whatever follows is read as a stream of its own. */
  lemma {:induction false} DoneConcat(a: string, b: string, heads: seq<string>)
    requires Parse(a, heads).error == None
    ensures Parse(a + b, heads) == Then(Parse(a, heads).docs, Parse(b, []))
    decreases |a|
  {
    hide Clean, LineLength, Parse, Document;
    ParseStep(a, heads);
    if a == "" {
      assert a + b == b;
    } else {
      var n := LineLength(a, MAX_LINE - 1);
      if n == |a| && n < MAX_LINE - 1 && a[n - 1] != '\n' {
        BrokenOff(a, heads);
      } else {
        LineEnds(a, MAX_LINE - 1);
        LineStable(a, b, MAX_LINE - 1);
        ParseStep(a + b, heads);
        var line, rest := Clean(a[..n]), a[n..];
        assert (a + b)[..n] == a[..n] && (a + b)[n..] == rest + b;
        if line != "" {
          DoneConcat(rest, b, heads + [line]);
        } else if Document(heads, rest).Ok? {
          var doc := Document(heads, rest).value;
          DocumentStable(heads, rest, b);
          DropConcat(rest, b, doc.info.size);
          DoneConcat(rest[doc.info.size..], b, []);
          ThenThen([doc], Parse(rest[doc.info.size..], []).docs, Parse(b, []));
        }
      }
    }
  }

  lemma ThenThen(a: seq<Doc>, b: seq<Doc>, o: Outcome)
    ensures Then(a, Then(b, o)) == Then(a + b, o)
  {
  }

  lemma LineEnds(s: string, max: nat)
    requires s != "" && max > 0
    ensures var n := LineLength(s, max); 0 < n <= |s| && (s[n - 1] == '\n' || n == |s| || n == max)
  {
  }

  /** A stream cut anywhere delivers some of the documents of the whole, each of them complete. */
  lemma {:induction false} CutShort(a: string, b: string, heads: seq<string>)
    ensures Parse(a, heads).docs <= Parse(a + b, heads).docs
    decreases |a|
  {
    hide Clean, LineLength, Parse, Document;
    ParseStep(a, heads);
    if a != "" {
      var n := LineLength(a, MAX_LINE - 1);
      if n == |a| && n < MAX_LINE - 1 && a[n - 1] != '\n' {
        BrokenOff(a, heads);
      } else {
        LineEnds(a, MAX_LINE - 1);
        LineStable(a, b, MAX_LINE - 1);
        ParseStep(a + b, heads);
        var line, rest := Clean(a[..n]), a[n..];
        assert (a + b)[..n] == a[..n] && (a + b)[n..] == rest + b;
        if line != "" {
          CutShort(rest, b, heads + [line]);
        } else if Document(heads, rest).Ok? {
          var size := Document(heads, rest).value.info.size;
          DocumentStable(heads, rest, b);
          DropConcat(rest, b, size);
          CutShort(rest[size..], b, []);
        }
      }
    }
  }

  // ---------------------------------------------------------------- framing

  /** A header line that survives: trimmed, not empty, one line, and short enough for fgets. */
  predicate Plain(line: string) {
    line != "" && Trimmed(line) && '\n' !in line && NoNul(line) && |line| < MAX_LINE - 1
  }

  predicate AllPlain(lines: seq<string>) {
    forall k :: 0 <= k < |lines| ==> Plain(lines[k])
  }

  datatype Message = Message(lines: seq<string>, body: string)

  function Framed(m: Message): string {
    Joined(m.lines) + "\n" + m.body
  }

  function Stream(ms: seq<Message>): string {
    if ms == [] then "" else Framed(ms[0]) + Stream(ms[1..])
  }

  lemma {:induction false} LineOf(line: string, rest: string, max: nat)
    requires '\n' !in line && |line| < max
    ensures LineLength(line + "\n" + rest, max) == |line| + 1
  {
    var s := line + "\n" + rest;
    if line == "" {
      assert s[0] == '\n';
    } else {
      assert s[0] == line[0] && line[0] in line;
      assert s[1..] == line[1..] + "\n" + rest;
      LineOf(line[1..], rest, max - 1);
    }
  }

  lemma SkipNothing(s: string)
    requires s != "" ==> !IsSpace(s[0])
    ensures SkipSpace(s) == s
  {
  }

  lemma TrimNothing(s: string)
    requires s != "" ==> !IsSpace(s[|s| - 1])
    ensures TrimEnd(s) == s
  {
  }

  /** Trimming such a line changes nothing. */
  lemma CleanPlain(line: string)
    requires Plain(line)
    ensures Clean(line + "\n") == line
  {
    hide NoNul, IsSpace;
    var raw := line + "\n";
    NoNulNewline(line);
    SkipNothing(raw);
    LastNewlineIs(raw, |line|);
    assert raw[..|line|] == line;
    TrimNothing(line);
  }

  lemma NoNulNewline(line: string)
    requires NoNul(line)
    ensures NoNul(line + "\n") && CStr(line + "\n") == line + "\n"
  {
    forall x | x in line + "\n" ensures x != NUL {
    }
  }

  lemma CleanBlank()
    ensures Clean("\n") == ""
  {
    NoNulNewline("");
    assert "" + "\n" == "\n";
    assert IsSpace('\n');
    assert SkipSpace("\n") == "" by {
      assert ("\n")[1..] == "";
    }
  }

  /** Header lines are taken in one by one. */
  lemma {:induction false} HeadersRead(lines: seq<string>, rest: string, heads: seq<string>)
    requires AllPlain(lines)
    ensures Parse(Joined(lines) + rest, heads) == Parse(rest, heads + lines)
    decreases |lines|
  {
    hide Plain, Clean, LineLength, Parse;
    if lines == [] {
      assert heads + lines == heads;
      assert Joined(lines) + rest == rest;
    } else {
      var line, more := lines[0], Joined(lines[1..]) + rest;
      var s := Joined(lines) + rest;
      assert s == line + "\n" + more;
      PlainLine(line, more);
      ParseStep(s, heads);
      assert s[..|line| + 1] == line + "\n" && s[|line| + 1..] == more;
      HeadersRead(lines[1..], rest, heads + [line]);
      assert heads + [line] + lines[1..] == heads + lines;
    }
  }

  lemma PlainLine(line: string, more: string)
    requires Plain(line)
    ensures LineLength(line + "\n" + more, MAX_LINE - 1) == |line| + 1 && Clean(line + "\n") == line != ""
  {
    hide Clean;
    LineOf(line, more, MAX_LINE - 1);
    CleanPlain(line);
  }

  /** Two or more plain lines, a blank one and the bytes after it: what happens is what `Document`
      says, and what follows the body is a stream of its own. */
  lemma FramedReads(m: Message, rest: string)
    requires AllPlain(m.lines) && |m.lines| >= MIN_HEADERS
    ensures Parse(Framed(m) + rest, [])
         == match Document(m.lines, m.body + rest)
            case Err(e) => Outcome([], Some(e))
            case Ok(doc) => Then([doc], Parse((m.body + rest)[doc.info.size..], []))
  {
    hide Plain, Clean, LineLength, Parse, Document;
    var after := "\n" + m.body + rest;
    assert Framed(m) + rest == Joined(m.lines) + after;
    HeadersRead(m.lines, after, []);
    assert [] + m.lines == m.lines;
    assert after == "" + "\n" + (m.body + rest);
    LineOf("", m.body + rest, MAX_LINE - 1);
    CleanBlank();
    ParseStep(after, m.lines);
    assert after[..1] == "\n" && after[1..] == m.body + rest;
  }

  /** Its first six header lines can be read, name a location and give the length of the body. */
  predicate Announced(m: Message) {
    match ReadLines(HeadLines(m.lines))
    case Err(_) => false
    case Ok(info) => info.uri != None && info.size == |m.body| > 0
  }

  function DocOf(m: Message): Doc
    requires Announced(m)
  {
    Doc(ReadLines(HeadLines(m.lines)).value, NoNulls(m.body))
  }

  lemma AnnouncedDocument(m: Message, rest: string)
    requires Announced(m)
    ensures Document(m.lines, m.body + rest) == Ok(DocOf(m)) && (m.body + rest)[DocOf(m).info.size..] == rest
  {
    hide ReadLines, HeadLines, NoNulls;
    assert (m.body + rest)[..|m.body|] == m.body;
  }

  /** A framed document is delivered whole, with its own headers and nothing left over, exactly when
      it is announced; the body may hold anything, header lines and blank lines included. */
  lemma DeliveredExactly(m: Message)
    requires AllPlain(m.lines) && |m.lines| >= MIN_HEADERS
    ensures (exists info :: Parse(Framed(m), []) == Outcome([Doc(info, NoNulls(m.body))], None)) <==> Announced(m)
    ensures Announced(m) ==> Parse(Framed(m), []) == Outcome([DocOf(m)], None)
  {
    hide Plain, AllPlain, Parse, Framed, Announced, Document, DocOf, NoNulls;
    assert Framed(m) + "" == Framed(m) && m.body + "" == m.body;
    FramedReads(m, "");
    if Announced(m) {
      AnnouncedDocument(m, "");
      NothingMore();
      DocOfBody(m);
      assert Parse(Framed(m), []) == Outcome([Doc(DocOf(m).info, NoNulls(m.body))], None);
    } else {
      NotAnnounced(m);
      var o := Parse(Framed(m), []);
      assert o.docs == [] || |o.docs[0].body| < |NoNulls(m.body)|;
    }
  }

  lemma DocOfBody(m: Message)
    requires Announced(m)
    ensures DocOf(m).body == NoNulls(m.body)
  {
    hide ReadLines, HeadLines, NoNulls;
  }

  lemma NothingMore()
    ensures Parse("", []) == Outcome([], None)
  {
  }

  lemma NotAnnounced(m: Message)
    requires !Announced(m)
    ensures Document(m.lines, m.body).Ok? ==> |Document(m.lines, m.body).value.body| < |NoNulls(m.body)|
  {
    hide ReadLines, HeadLines;
  }

  /** Byte for byte unless the body holds a NUL. */
  lemma BodyUnchanged(body: string)
    ensures NoNulls(body) == body <==> NoNul(body)
  {
  }

  function DocsOf(ms: seq<Message>): seq<Doc>
    requires forall k :: 0 <= k < |ms| ==> Announced(ms[k])
  {
    if ms == [] then [] else [DocOf(ms[0])] + DocsOf(ms[1..])
  }

  /** A stream of framed documents parses back to exactly those documents, in order. */
  lemma {:induction false} StreamComesBack(ms: seq<Message>)
    requires forall k :: 0 <= k < |ms| ==> AllPlain(ms[k].lines) && |ms[k].lines| >= MIN_HEADERS && Announced(ms[k])
    ensures Parse(Stream(ms), []) == Outcome(DocsOf(ms), None)
  {
    hide AllPlain, Parse, Announced, DocOf, Framed, Document;
    if ms == [] {
      NothingMore();
    } else {
      FramedReads(ms[0], Stream(ms[1..]));
      AnnouncedDocument(ms[0], Stream(ms[1..]));
      StreamComesBack(ms[1..]);
    }
  }

  // ---------------------------------------------------------------- a producer

  function DigitOf(d: nat): (c: char)
    requires d < 10
    ensures IsDigit(c) && c as int - '0' as int == d
  {
    (d + '0' as int) as char
  }

  /** A number in decimal. */
  function Digits(n: nat): (r: string)
    ensures r != ""
  {
    (if n < 10 then "" else Digits(n / 10)) + [DigitOf(n % 10)]
  }

  lemma {:induction false} DigitsRead(n: nat)
    ensures Decimal(Digits(n)) == n
    ensures forall k :: 0 <= k < |Digits(n)| ==> IsDigit(Digits(n)[k])
  {
    hide IsDigit, DigitOf;
    var front := if n < 10 then "" else Digits(n / 10);
    if n >= 10 {
      DigitsRead(n / 10);
    }
    DecimalSnoc(front, n % 10);
  }

  lemma DecimalSnoc(front: string, d: nat)
    requires d < 10
    ensures Decimal(front + [DigitOf(d)]) == Decimal(front) * 10 + d
  {
    assert (front + [DigitOf(d)])[..|front|] == front;
  }

  lemma {:induction false} AllDigits(s: string)
    requires forall k :: 0 <= k < |s| ==> IsDigit(s[k])
    ensures DigitRun(s) == |s|
  {
    if s != "" {
      AllDigits(s[1..]);
    }
  }

  const LOCATION := "Content-Location"
  const LENGTH := "Content-Length"

  /** The least a producer has to send. */
  function Produced(uri: string, body: string): Message {
    Message([LOCATION + ": " + uri, LENGTH + ": " + Digits(|body|)], body)
  }

  predicate GoodUri(uri: string) {
    Plain(uri) && |uri| < 2000
  }

  lemma {:induction false} ColonAt(name: string, rest: string)
    requires ':' !in name
    ensures Colon(name + ":" + rest) == |name|
  {
    var line := name + ":" + rest;
    if name == "" {
      assert line[0] == ':';
    } else {
      assert line[0] == name[0] && name[0] in name;
      assert line[1..] == name[1..] + ":" + rest;
      ColonAt(name[1..], rest);
    }
  }

  /** The value of `name: value`. */
  lemma ValueOf(name: string, v: string)
    requires ':' !in name && v != "" && !IsSpace(v[0])
    ensures ':' in name + ": " + v && Value(name + ": " + v) == v
  {
    var line := name + ": " + v;
    assert line == name + ":" + (" " + v);
    ColonAt(name, " " + v);
    assert line[|name|] == ':';
    assert line[|name| + 1..] == " " + v;
    assert (" " + v)[1..] == v;
    assert IsSpace(' ');
    SkipNothing(v);
  }

  /** A name is recognised whatever follows it, */
  lemma {:induction false} SameSelf(name: string, rest: string)
    requires NoNul(name)
    ensures SameCase(name + rest, name, |name|)
  {
    if name != "" {
      assert (name + rest)[1..] == name[1..] + rest;
      SameSelf(name[1..], rest);
    }
  }

  /** and names that differ somewhere are told apart. */
  lemma {:induction false} SameAt(a: string, b: string, n: nat, k: nat)
    requires SameCase(a, b, n) && k < n && k < |a| && k < |b|
    ensures ToLower(a[k]) == ToLower(b[k])
  {
    if k > 0 {
      SameAt(a[1..], b[1..], n - 1, k - 1);
    }
  }

  lemma LocationName(line: string, rest: string)
    requires line == LOCATION + rest
    ensures !SameCase(line, "Content-Length", 14) && !SameCase(line, "Last-Modified", 13)
    ensures !SameCase(line, "Last-Mtime", 10) && SameCase(line, "Content-Location", 16)
  {
    hide SameCase;
    assert line[0] == 'C' && line[9] == 'o';
    if SameCase(line, "Content-Length", 14) {
      SameAt(line, "Content-Length", 14, 9);
    }
    if SameCase(line, "Last-Modified", 13) {
      SameAt(line, "Last-Modified", 13, 0);
    }
    if SameCase(line, "Last-Mtime", 10) {
      SameAt(line, "Last-Mtime", 10, 0);
    }
    SameSelf(LOCATION, rest);
  }

  lemma LocationRead(info: DocInfo, uri: string)
    requires GoodUri(uri)
    ensures ReadLine(info, LOCATION + ": " + uri) == Ok(info.(uri := Some(uri)))
  {
    hide SameCase, WithSize, WithTime, Value, Colon, SkipSpace;
    var line := LOCATION + ": " + uri;
    ValueOf(LOCATION, uri);
    assert line == LOCATION + (": " + uri);
    LocationName(line, ": " + uri);
  }

  lemma LengthRead(info: DocInfo, n: nat)
    requires n < 0x8000_0000_0000_0000
    ensures ReadLine(info, LENGTH + ": " + Digits(n)) == Ok(info.(size := ToInt32(n)))
  {
    hide SameCase, ReadLine, Digits, IsDigit, Value;
    DigitsRead(n);
    DigitNoSpace(Digits(n)[0]);
    ValueOf(LENGTH, Digits(n));
    assert LENGTH + ": " + Digits(n) == LENGTH + (": " + Digits(n));
    SameSelf(LENGTH, ": " + Digits(n));
    LengthLine(info, LENGTH + ": " + Digits(n), n);
  }

  lemma DigitNoSpace(c: char)
    requires IsDigit(c)
    ensures !IsSpace(c)
  {
  }

  lemma LengthLine(info: DocInfo, line: string, n: nat)
    requires ':' in line && Value(line) == Digits(n) && SameCase(line, "Content-Length", 14)
    requires n < 0x8000_0000_0000_0000
    ensures ReadLine(info, line) == Ok(info.(size := ToInt32(n)))
  {
    hide SameCase, Digits, Value, StrToL, ToInt32, WithTime;
    DigitsToL(n);
  }

  lemma DigitsToL(n: nat)
    ensures StrToL(Digits(n)) == n
  {
    hide Decimal;
    var d := Digits(n);
    DigitsRead(n);
    assert IsDigit(d[0]);
    SkipNothing(d);
    AllDigits(d);
    assert d[..|d|] == d;
  }

  lemma ProducedHeaders(uri: string, body: string)
    requires GoodUri(uri) && |body| < 0x8000_0000_0000_0000
    ensures ReadLines(HeadLines(Produced(uri, body).lines)) == Ok(NO_INFO.(uri := Some(uri), size := ToInt32(|body|)))
  {
    hide ReadLine, ToInt32;
    var lines := Produced(uri, body).lines;
    LocationRead(NO_INFO, uri);
    LengthRead(NO_INFO.(uri := Some(uri)), |body|);
    assert lines[..1][..0] == [] && lines[..1][0] == lines[0];
    assert ReadLines(lines[..1]) == ReadLine(NO_INFO, lines[0]);
    assert lines[..2] == lines;
  }

  /** The simplest producer is understood exactly when its body is neither empty nor 2 GiB or more:
      Content-Length goes through an int. */
  lemma ProducedIsAnnounced(uri: string, body: string)
    requires GoodUri(uri) && |body| < 0x8000_0000_0000_0000
    ensures Announced(Produced(uri, body)) <==> 0 < |body| < 0x8000_0000
  {
    hide ReadLines, HeadLines, Digits;
    ProducedHeaders(uri, body);
  }

  lemma ProducedIsPlain(uri: string, body: string)
    requires GoodUri(uri) && |body| < 0x8000_0000
    ensures AllPlain(Produced(uri, body).lines)
  {
    hide Plain;
    PlainHeader(LOCATION, uri);
    DigitsRead(|body|);
    DigitsFew(|body|, 10, 10_000_000_000);
    DigitsPlain(Digits(|body|));
    PlainHeader(LENGTH, Digits(|body|));
  }

  lemma {:induction false} DigitsFew(n: nat, k: nat, bound: nat)
    requires k >= 1 && n < bound && bound == Power10(k)
    ensures |Digits(n)| <= k
  {
    if n >= 10 {
      DigitsFew(n / 10, k - 1, Power10(k - 1));
    }
  }

  function Power10(k: nat): nat {
    if k == 0 then 1 else 10 * Power10(k - 1)
  }

  lemma DigitsPlain(d: string)
    requires d != "" && |d| < 2000 && forall k :: 0 <= k < |d| ==> IsDigit(d[k])
    ensures Plain(d)
  {
  }

  lemma PlainHeader(name: string, v: string)
    requires name == LOCATION || name == LENGTH
    requires Plain(v) && |v| < 2000
    ensures Plain(name + ": " + v)
  {
    var line := name + ": " + v;
    forall x | x in line ensures x != '\n' && x != NUL {
    }
    assert line[|line| - 1] == v[|v| - 1];
  }

  /** One produced document: what it announces is its own location and body. */
  lemma ProducedDoc(uri: string, body: string)
    requires GoodUri(uri) && 0 < |body| < 0x8000_0000 && NoNul(body)
    ensures var m := Produced(uri, body);
            && AllPlain(m.lines) && |m.lines| >= MIN_HEADERS && Announced(m)
            && DocOf(m).info.uri == Some(uri) && DocOf(m).body == body
  {
    ProducedIsPlain(uri, body);
    ProducedIsAnnounced(uri, body);
    ProducedHeaders(uri, body);
    BodyUnchanged(body);
    hide AllPlain, ReadLines, HeadLines, NoNul, NoNulls, GoodUri, Digits;
  }

  lemma {:induction false} DocsAt(ms: seq<Message>)
    requires forall k :: 0 <= k < |ms| ==> Announced(ms[k])
    ensures |DocsOf(ms)| == |ms| && forall k :: 0 <= k < |ms| ==> DocsOf(ms)[k] == DocOf(ms[k])
  {
    hide Announced, DocOf;
    if ms != [] {
      DocsAt(ms[1..]);
    }
  }

  /** Any list of locations and bodies a producer sends is what the handler is called with. */
  lemma ProducerAndParser(uris: seq<string>, bodies: seq<string>)
    requires |uris| == |bodies|
    requires forall k :: 0 <= k < |uris| ==> GoodUri(uris[k])
    requires forall k :: 0 <= k < |bodies| ==> 0 < |bodies[k]| < 0x8000_0000 && NoNul(bodies[k])
    ensures var o := Parse(Stream(Messages(uris, bodies)), []);
            && o.error == None && |o.docs| == |uris|
            && forall k :: 0 <= k < |uris| ==> o.docs[k].info.uri == Some(uris[k]) && o.docs[k].body == bodies[k]
  {
    hide Parse, Stream, Produced, Announced, AllPlain, DocOf, DocsOf, GoodUri, NoNul;
    var ms := Messages(uris, bodies);
    forall k | 0 <= k < |ms|
      ensures AllPlain(ms[k].lines) && |ms[k].lines| >= MIN_HEADERS && Announced(ms[k])
      ensures DocOf(ms[k]).info.uri == Some(uris[k]) && DocOf(ms[k]).body == bodies[k]
    {
      ProducedDoc(uris[k], bodies[k]);
    }
    StreamComesBack(ms);
    DocsAt(ms);
  }

  function Messages(uris: seq<string>, bodies: seq<string>): (r: seq<Message>)
    requires |uris| == |bodies|
    ensures |r| == |uris|
  {
    seq(|uris|, i requires 0 <= i < |uris| => Produced(uris[i], bodies[i]))
  }
}
