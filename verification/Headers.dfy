/** The header lines of the streaming API: buf_to_head and head_to_docinfo of parser.c, with the
    number and prefix tests they lean on. */
module Headers {
  import opened CString

  datatype Option<T> = None | Some(value: T)

  /** Every way the process gives up on a stream (SWISH_CROAK, or exit in swish_string_to_int). */
  datatype Error =
    | NotEnoughHeaders | UnparsedLines | IllegalNewline | BadHeader(line: string) | NumberRange
    | NoLocation | NoLength | ZeroLength | NoMemory | ShortRead

  datatype Result<T> = Ok(value: T) | Err(error: Error)

  /** SWISH_MAX_HEADERS, SWISH_MAXSTRLEN */
  const MAX_HEADERS: nat := 6
  const MAX_LINE: nat := 2048

  datatype DocInfo = DocInfo(
    size: int, mtime: int, uri: Option<string>, mime: Option<string>, parser: Option<string>,
    encoding: Option<string>, action: Option<string>)

  /** swish_docinfo_init; `encoding` is only what a header sets. */
  const NO_INFO := DocInfo(0, 0, None, None, None, None, None)

  // ---------------------------------------------------------------- strncasecmp

  function At(s: string, i: nat): char {
    if i < |s| then s[i] else NUL
  }

  /** xmlStrncasecmp(a, b, n) == 0 on C strings. */
  predicate SameCase(a: string, b: string, n: nat) {
    n == 0 || (ToLower(At(a, 0)) == ToLower(At(b, 0))
               && (n == 1 || b == "" || a == "" || SameCase(a[1..], b[1..], n - 1)))
  }

  lemma LowerCons(a: string, b: string)
    requires a != "" && b != ""
    ensures Lower(a) == Lower(b) <==> ToLower(a[0]) == ToLower(b[0]) && Lower(a[1..]) == Lower(b[1..])
  {
    hide ToLower;
    assert Lower(a) == [ToLower(a[0])] + Lower(a[1..]);
    assert Lower(b) == [ToLower(b[0])] + Lower(b[1..]);
    assert Lower(a)[1..] == Lower(a[1..]) && Lower(b)[1..] == Lower(b[1..]);
  }

  /** A prefix test that is as long as the name is what it looks like: */
  lemma {:induction false} PrefixTest(line: string, name: string)
    requires NoNul(line) && NoNul(name)
    ensures SameCase(line, name, |name|) <==> |line| >= |name| && Lower(line[..|name|]) == Lower(name)
  {
    hide ToLower, Lower;
    if name == "" {
      assert line[..0] == name;
    } else {
      assert name[0] in name;
      LowerNul(name[0]);
      LowerNul(NUL);
      if line != "" {
        PrefixTest(line[1..], name[1..]);
        assert line[0] in line;
        LowerNul(line[0]);
        assert SameCase(line, name, |name|) <==>
            ToLower(line[0]) == ToLower(name[0]) && (|name| == 1 || SameCase(line[1..], name[1..], |name[1..]|));
        if |line| >= |name| {
          assert line[..|name|][1..] == line[1..][..|name| - 1];
          LowerCons(line[..|name|], name);
        }
        if |name| == 1 {
          assert line[1..][..0] == name[1..];
        }
      }
    }
  }

  lemma LowerNul(c: char)
    ensures ToLower(c) == NUL <==> c == NUL
  {
  }

  /** one that is longer asks for the end of the line as well. */
  lemma {:induction false} LongerTest(line: string, name: string, n: nat)
    requires NoNul(line) && NoNul(name) && n > |name|
    ensures SameCase(line, name, n) <==> Lower(line) == Lower(name)
  {
    if name == "" || line == "" {
      if line != "" {
        LowerNul(line[0]);
        assert line[0] in line;
      }
      if name != "" {
        LowerNul(name[0]);
        assert name[0] in name;
      }
    } else {
      LongerTest(line[1..], name[1..], n - 1);
      LowerCons(line, name);
    }
  }

  // ---------------------------------------------------------------- numbers

  predicate IsDigit(c: char) {
    '0' <= c <= '9'
  }

  /** Digits at the start of `s`. */
  function DigitRun(s: string): (n: nat)
    ensures n <= |s|
  {
    if s != "" && IsDigit(s[0]) then 1 + DigitRun(s[1..]) else 0
  }

  function Decimal(digits: string): int {
    if digits == "" then 0
    else Decimal(digits[..|digits| - 1]) * 10 + (digits[|digits| - 1] as int - '0' as int)
  }

  /** strtol(s, NULL, 10) before it clips: blanks, a sign, digits. */
  function StrToL(s: string): int {
    var t := SkipSpace(s);
    if t != "" && (t[0] == '-' || t[0] == '+') then
      var d := Decimal(t[1..][..DigitRun(t[1..])]);
      if t[0] == '-' then -d else d
    else Decimal(t[..DigitRun(t)])
  }

  /** `(int)` of a long. */
  function ToInt32(i: int): int {
    var m := i % 0x1_0000_0000;
    if m >= 0x8000_0000 then m - 0x1_0000_0000 else m
  }

  /** swish_string_to_int: out of the range of a long ends the process. */
  function StringToInt(s: string): Result<int> {
    var i := StrToL(s);
    if -0x8000_0000_0000_0000 <= i < 0x8000_0000_0000_0000 then Ok(ToInt32(i)) else Err(NumberRange)
  }

  // ---------------------------------------------------------------- head_to_docinfo

  /** Index of the first ':' of a line, or its length. */
  function Colon(line: string): (k: nat)
    ensures k <= |line| && (k < |line| ==> line[k] == ':')
    ensures k == |line| <==> ':' !in line
  {
    if line == "" || line[0] == ':' then 0 else 1 + Colon(line[1..])
  }

  function Value(line: string): string
    requires ':' in line
  {
    SkipSpace(line[Colon(line) + 1..])
  }

  function WithSize(info: DocInfo, val: string): Result<DocInfo> {
    match StringToInt(val)
    case Ok(n) => Ok(info.(size := n))
    case Err(e) => Err(e)
  }

  function WithTime(info: DocInfo, val: string): Result<DocInfo> {
    match StringToInt(val)
    case Ok(n) => Ok(info.(mtime := n))
    case Err(e) => Err(e)
  }

  /** One header line.  The tests are in the order of the code, with the code's lengths; a line
      nothing recognises is passed over. */
  function ReadLine(info: DocInfo, line: string): Result<DocInfo> {
    if ':' !in line then Err(BadHeader(line))
    else
      var val := Value(line);
      if SameCase(line, "Content-Length", 14) then WithSize(info, val)
      else if SameCase(line, "Last-Modified", 13) then WithTime(info, val)
      else if SameCase(line, "Last-Mtime", 10) then WithTime(info, val)
      else if SameCase(line, "Content-Location", 16) then Ok(info.(uri := Some(val)))
      else if SameCase(line, "Path-Name", 9) then Ok(info.(uri := Some(val)))
      else if SameCase(line, "Document-Type", 13) then Ok(info.(parser := Some(val)))
      else if SameCase(line, "Parser-Type", 11) then Ok(info.(parser := Some(val)))
      else if SameCase(line, "Content-Type", 12) then Ok(info.(mime := Some(val)))
      else if SameCase(line, "Encoding", 8) || SameCase(line, "Charset", 7) then Ok(info.(encoding := Some(val)))
      else if SameCase(line, "Action", 11) then Ok(info.(action := Some(val)))
      else Ok(info)
  }

  function ReadLines(lines: seq<string>): Result<DocInfo> {
    if lines == [] then Ok(NO_INFO)
    else
      match ReadLines(lines[..|lines| - 1])
      case Ok(info) => ReadLine(info, lines[|lines| - 1])
      case Err(e) => Err(e)
  }

  lemma {:induction false} ErrorStays(lines: seq<string>, k: nat)
    requires k <= |lines| && ReadLines(lines[..k]).Err?
    ensures ReadLines(lines) == ReadLines(lines[..k])
    decreases |lines|
  {
    if k == |lines| {
      assert lines[..k] == lines;
    } else {
      assert lines[..|lines| - 1][..k] == lines[..k];
      ErrorStays(lines[..|lines| - 1], k);
    }
  }

  /** head_to_docinfo */
  method HeadToDocInfo(lines: seq<string>) returns (r: Result<DocInfo>)
    ensures r == ReadLines(lines)
  {
    hide ReadLine;
    var info := NO_INFO;
    assert lines[..0] == [];
    for i := 0 to |lines|
      invariant ReadLines(lines[..i]) == Ok(info)
    {
      assert lines[..i + 1][..i] == lines[..i];
      var next := ReadLine(info, lines[i]);
      if next.Err? {
        ErrorStays(lines, i + 1);
        return next;
      }
      info := next.value;
    }
    assert lines[..|lines|] == lines;
    return Ok(info);
  }

  /** No line that names an action is ever understood: a line that passes the test has no colon. */
  lemma {:induction false} ActionNeverRead(lines: seq<string>)
    requires forall k :: 0 <= k < |lines| ==> NoNul(lines[k])
    ensures ReadLines(lines).Ok? ==> ReadLines(lines).value.action == None
  {
    hide ReadLine;
    if lines != [] {
      var k := |lines| - 1;
      ActionNeverRead(lines[..k]);
      if ReadLines(lines[..k]).Ok? {
        NoActionLine(ReadLines(lines[..k]).value, lines[k]);
      }
    }
  }

  lemma NoActionLine(info: DocInfo, line: string)
    requires NoNul(line) && info.action == None
    ensures ReadLine(info, line).Ok? ==> ReadLine(info, line).value.action == None
  {
    NoActionTest(line);
    hide SameCase, StringToInt, Value, Lower;
  }

  lemma NoActionTest(line: string)
    requires NoNul(line)
    ensures SameCase(line, "Action", 11) ==> ':' !in line
  {
    LongerTest(line, "Action", 11);
    hide SameCase;
    if SameCase(line, "Action", 11) {
      ActionHasNoColon(line);
    }
  }

  lemma ActionHasNoColon(line: string)
    requires Lower(line) == Lower("Action")
    ensures ':' !in line
  {
    forall i | 0 <= i < |line| ensures line[i] != ':' {
      assert Lower(line)[i] == ToLower("Action"[i]);
    }
  }

  // ---------------------------------------------------------------- buf_to_head

  /** A header line as swish_parse_fh stores it. */
  predicate IsLine(line: string) {
    1 <= |line| <= MAX_LINE && '\n' !in line && NoNul(line)
  }

  function Joined(lines: seq<string>): string {
    if lines == [] then "" else lines[0] + "\n" + Joined(lines[1..])
  }

  function HeadLines(lines: seq<string>): (r: seq<string>)
    ensures r <= lines && |r| <= MAX_HEADERS
  {
    if |lines| <= MAX_HEADERS then lines else lines[..MAX_HEADERS]
  }

  lemma AfterLine(all: seq<string>, j: nat)
    requires j < |all|
    ensures Joined(all[j..]) == all[j] + "\n" + Joined(all[j + 1..])
  {
    assert all[j..][1..] == all[j + 1..];
  }

  /** At `from` stands a line, then its newline, and then the next line or the final NUL. */
  predicate AtLine(buf: string, from: nat, cur: string, last: bool) {
    && from + |cur| + 1 < |buf| && buf[from + |cur|] == '\n' && buf[from + |cur| + 1] != '\n'
    && (forall i :: from <= i < from + |cur| ==> buf[i] == cur[i - from] && buf[i] != '\n')
    && (buf[from + |cur| + 1] == NUL <==> last)
  }

  lemma LineAt(buf: string, from: nat, all: seq<string>, j: nat)
    requires j < |all| && from <= |buf| && buf[from..] == Joined(all[j..]) + [NUL]
    requires forall k :: 0 <= k < |all| ==> IsLine(all[k])
    ensures from + |all[j]| + 1 < |buf| && AtLine(buf, from, all[j], j + 1 == |all|)
    ensures buf[from + |all[j]| + 1..] == Joined(all[j + 1..]) + [NUL]
  {
    hide NoNul;
    AfterLine(all, j);
    var cur := all[j];
    var next := from + |cur| + 1;
    var rest := Joined(all[j + 1..]) + [NUL];
    assert buf[from..] == cur + "\n" + rest;
    forall i | from <= i < from + |cur| ensures buf[i] == cur[i - from] && buf[i] != '\n' {
      assert buf[i] == buf[from..][i - from];
    }
    assert buf[next - 1] == buf[from..][|cur|];
    assert buf[next..] == buf[from..][|cur| + 1..] == rest;
    assert buf[next] == rest[0];
    if j + 1 < |all| {
      AfterLine(all, j + 1);
      assert rest[0] == all[j + 1][0];
      FirstNotNul(all[j + 1]);
    } else {
      assert all[j + 1..] == [];
    }
  }

  lemma FirstNotNul(line: string)
    requires IsLine(line)
    ensures line[0] != NUL
  {
    assert line[0] in line;
  }

  /** buf_to_head: the first six lines of the buffer; it stops inside the buffer, and the complaint
      about a newline at the start of a line never comes up. */
  method BufToHead(buf: string, ghost all: seq<string>) returns (r: Result<seq<string>>)
    requires buf == Joined(all) + [NUL] && all != [] && forall k :: 0 <= k < |all| ==> IsLine(all[k])
    ensures r == Ok(HeadLines(all))
  {
    hide IsLine, Joined, AtLine;
    var lines: seq<string> := [];
    var line := "";
    var k := 0;
    ghost var from := 0;
    assert all[0..] == all && buf[0..] == buf;
    LineAt(buf, 0, all, 0);
    Starts(all[0]);
    while |lines| < MAX_HEADERS && |line| <= MAX_LINE
      invariant |lines| < |all| && lines == all[..|lines|] && |lines| <= MAX_HEADERS
      invariant |lines| == MAX_HEADERS ==> line == ""
      invariant |line| < |all[|lines|]| <= MAX_LINE && line == all[|lines|][..|line|]
      invariant k == from + |line| && AtLine(buf, from, all[|lines|], |lines| + 1 == |all|)
      invariant from + |all[|lines|]| + 1 <= |buf|
      invariant buf[from + |all[|lines|]| + 1..] == Joined(all[|lines| + 1..]) + [NUL]
      decreases |buf| - k
    {
      ghost var j, cur := |lines|, all[|lines|];
      Within(buf, from, cur, |line|, j + 1 == |all|);
      if buf[k] == '\n' {
        return Err(IllegalNewline);
      }
      line := line + [buf[k]];
      k := k + 1;
      if buf[k] == '\n' {
        assert line == cur;
        lines := lines + [line];
        k := k + 1;
        if buf[k] == '\n' || buf[k] == NUL {
          assert lines == all[..j + 1] == all;
          break;
        }
        from := k;
        line := "";
        LineAt(buf, from, all, j + 1);
        Starts(all[j + 1]);
      }
    }
    return Ok(lines);
  }

  lemma Starts(line: string)
    requires IsLine(line)
    ensures 1 <= |line| <= MAX_LINE
  {
  }

  lemma Within(buf: string, from: nat, cur: string, i: nat, last: bool)
    requires AtLine(buf, from, cur, last) && i < |cur|
    ensures from + |cur| + 1 < |buf| && buf[from + i] == cur[i] != '\n' && cur[..i + 1] == cur[..i] + [cur[i]]
    ensures buf[from + i + 1] == '\n' <==> i + 1 == |cur|
    ensures buf[from + |cur| + 1] != '\n' && (buf[from + |cur| + 1] == NUL <==> last)
  {
    assert buf[from + i] == cur[i];
    assert i + 1 < |cur| ==> buf[from + i + 1] == cur[i + 1];
  }
}
