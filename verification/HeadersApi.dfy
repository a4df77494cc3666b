/** The streaming API: swish_parse_fh reads documents from one handle, each as header lines, a blank
    line and as many bytes of body as Content-Length says. */
module HeadersApi {
  import opened CString
  import opened NamedBuffers
  import opened Headers

  const MIN_HEADERS: nat := 2

  /** What the handler is called with: the headers and the bytes handed to the document parser. */
  datatype Doc = Doc(info: DocInfo, body: string)

  /** The documents handled and, when the process gave up, why. */
  datatype Outcome = Outcome(docs: seq<Doc>, error: Option<Error>)

  // ---------------------------------------------------------------- reading lines

  /** How many bytes fgets takes into a buffer of `max + 1`. */
  function LineLength(s: string, max: nat): (n: nat)
    ensures n <= |s| && n <= max
    ensures forall i :: 0 <= i < n - 1 ==> s[i] != '\n'
    ensures n > 0 && s[n - 1] != '\n' ==> n == |s| || n == max
    ensures n == 0 ==> s == "" || max == 0
  {
    if s == "" || max == 0 then 0
    else if s[0] == '\n' then 1
    else 1 + LineLength(s[1..], max - 1)
  }

  /** fgets(ln, SWISH_MAXSTRLEN, fh) */
  function RawLine(s: string): string {
    s[..LineLength(s, MAX_LINE - 1)]
  }

  /** Index of the last newline, or the length. */
  function LastNewline(s: string): (n: nat)
    ensures n <= |s| && (n < |s| ==> s[n] == '\n')
    ensures n == |s| <==> '\n' !in s
    ensures forall i :: n < i < |s| ==> s[i] != '\n'
  {
    if s == "" then 0
    else if s[|s| - 1] == '\n' then |s| - 1
    else
      var k := LastNewline(s[..|s| - 1]);
      if k == |s| - 1 then |s| else k
  }

  /** A line without the blanks around it; a line that was cut short keeps those at its end. */
  function Clean(raw: string): string {
    var line := SkipSpace(CStr(raw));
    var end := LastNewline(line);
    if end < |line| then TrimEnd(line[..end]) else line
  }

  /** no_nulls: once there is a NUL, each NUL and each connector becomes a newline. */
  function NoNulls(body: string): (r: string)
    ensures |r| == |body| && (NoNul(body) ==> r == body) && NoNul(r)
    ensures forall i :: 0 <= i < |body| ==>
              (r[i] != body[i] ==> r[i] == '\n')
              && (r[i] != body[i] <==> !NoNul(body) && body[i] in {NUL, BUMPER})
  {
    if NoNul(body) then body
    else seq(|body|, i requires 0 <= i < |body| => if body[i] == NUL || body[i] == BUMPER then '\n' else body[i])
  }

  /** swish_docinfo_check, and the read of swish_io_slurp_fh after it. */
  function Body(info: DocInfo, rest: string): Result<string> {
    if info.uri == None then Err(NoLocation)
    else if info.size == -1 then Err(NoLength)
    else if info.size == 0 then Err(ZeroLength)
    else if info.size < 0 then Err(NoMemory)
    else if info.size > |rest| then Err(ShortRead)
    else Ok(NoNulls(rest[..info.size]))
  }

  /** The document that starts after the blank line. */
  function Document(heads: seq<string>, rest: string): (r: Result<Doc>)
    ensures r.Ok? ==> 0 < r.value.info.size <= |rest|
  {
    match ReadLines(HeadLines(heads))
    case Err(e) => Err(e)
    case Ok(info) =>
      match Body(info, rest)
      case Err(e) => Err(e)
      case Ok(body) => Ok(Doc(info, body))
  }

  function Then(docs: seq<Doc>, o: Outcome): Outcome {
    Outcome(docs + o.docs, o.error)
  }

  /** What swish_parse_fh does with the rest of a stream when it has `heads` lines already. */
  function Parse(s: string, heads: seq<string>): Outcome
    decreases |s|
  {
    if s == "" then Outcome([], if heads == [] then None else Some(UnparsedLines))
    else
      var raw := RawLine(s);
      var line, rest := Clean(raw), s[|raw|..];
      if line != "" then Parse(rest, heads + [line])
      else if |heads| < MIN_HEADERS then Outcome([], Some(NotEnoughHeaders))
      else
        match Document(heads, rest)
        case Err(e) => Outcome([], Some(e))
        case Ok(doc) =>
          Then([doc], Parse(rest[doc.info.size..], []))
  }

  // ---------------------------------------------------------------- the code

  /** Where the line at `pos` ends. */
  method LineEnd(data: string, pos: nat, max: nat) returns (end: nat)
    requires pos <= |data|
    ensures end == pos + LineLength(data[pos..], max) <= |data|
  {
    hide LineLength;
    ghost var n := LineLength(data[pos..], max);
    end := pos;
    while end < |data| && end - pos < max
      invariant pos <= end <= |data| && end - pos <= max
      invariant n == end - pos + LineLength(data[end..], max - (end - pos))
    {
      LengthStep(data[end..], max - (end - pos));
      if data[end] == '\n' {
        return end + 1;
      }
      assert data[end..][1..] == data[end + 1..];
      end := end + 1;
    }
    LengthStep(data[end..], max - (end - pos));
  }

  lemma SliceTail(data: string, from: nat, to: nat)
    requires from <= to <= |data|
    ensures data[from..][..to - from] == data[from..to] && data[from..][to - from..] == data[to..]
  {
  }

  class FileHandle {
    const data: string
    var pos: nat

    constructor (data: string)
      ensures this.data == data && pos == 0
    {
      this.data, pos := data, 0;
    }

    ghost function Rest(): string
      reads this
    {
      if pos <= |data| then data[pos..] else ""
    }

    /** fgets; no line at the end of the stream. */
    method Gets(size: nat) returns (ln: Option<string>)
      requires pos <= |data| && size >= 2
      modifies this
      ensures pos <= |data|
      ensures old(Rest()) == "" ==> ln == None && pos == old(pos)
      ensures old(Rest()) != "" ==>
                var n := LineLength(old(Rest()), size - 1);
                ln == Some(old(Rest())[..n]) && Rest() == old(Rest())[n..]
    {
      if pos == |data| {
        return None;
      }
      hide LineLength;
      ghost var start := pos;
      var end := LineEnd(data, pos, size - 1);
      ln := Some(data[pos..end]);
      pos := end;
      SliceTail(data, start, end);
    }

    /** fread of `n` bytes. */
    method Read(n: nat) returns (bytes: string)
      requires pos <= |data|
      modifies this
      ensures pos <= |data|
      ensures var m := if n <= |old(Rest())| then n else |old(Rest())|;
              bytes == old(Rest())[..m] && Rest() == old(Rest())[m..]
    {
      var end := if pos + n <= |data| then pos + n else |data|;
      bytes := data[pos..end];
      pos := end;
    }
  }

  lemma LengthStep(s: string, max: nat)
    ensures LineLength(s, max)
         == if s == "" || max == 0 then 0 else if s[0] == '\n' then 1 else 1 + LineLength(s[1..], max - 1)
  {
  }

  /** The handler the caller registered. */
  class Handler {
    var seen: seq<Doc>

    constructor ()
      ensures seen == []
    {
      seen := [];
    }

    method Handle(doc: Doc)
      modifies this
      ensures seen == old(seen) + [doc]
    {
      seen := seen + [doc];
    }
  }

  // ---------------------------------------------------------------- swish_parse_fh

  lemma {:induction false} JoinedSnoc(lines: seq<string>, line: string)
    ensures Joined(lines + [line]) == Joined(lines) + line + "\n"
  {
    if lines == [] {
      assert Joined([]) == "";
      assert ([line])[1..] == [];
      assert [] + [line] == [line];
    } else {
      JoinedSnoc(lines[1..], line);
      assert (lines + [line])[1..] == lines[1..] + [line];
    }
  }

  /** What is stored as a header line has no newline in it. */
  lemma CleanIsLine(s: string)
    requires Clean(RawLine(s)) != ""
    ensures IsLine(Clean(RawLine(s)))
  {
    hide SkipSpace, TrimEnd, CStr, LineLength, LastNewline, NoNul;
    var raw := RawLine(s);
    var c := CStr(raw);
    var line := SkipSpace(c);
    NewlineLast(raw, c, |c| - |line|);
    NoNulSlice(c, |c| - |line|, |c|);
    assert c[|c| - |line|..|c|] == line;
    var end := LastNewline(line);
    if end < |line| {
      var t := TrimEnd(line[..end]);
      NoNulSlice(line, 0, |t|);
      assert line[0..|t|] == t;
    }
  }

  lemma NewlineLast(raw: string, c: string, from: nat)
    requires c <= raw && from <= |c| && forall i :: 0 <= i < |raw| - 1 ==> raw[i] != '\n'
    ensures forall i :: 0 <= i < |c[from..]| - 1 ==> c[from..][i] != '\n'
  {
  }

  lemma NoNulSlice(s: string, from: nat, to: nat)
    requires from <= to <= |s| && NoNul(s)
    ensures NoNul(s[from..to])
  {
    forall x | x in s[from..to] ensures x in s {
    }
  }

  /** swish_str_skip_ws */
  method SkipWs(c: string) returns (from: nat)
    ensures from <= |c| && c[from..] == SkipSpace(c)
  {
    hide IsSpace;
    from := 0;
    assert c[0..] == c;
    while from < |c| && IsSpace(c[from])
      invariant from <= |c| && SkipSpace(c[from..]) == SkipSpace(c)
    {
      assert c[from..][1..] == c[from + 1..];
      from := from + 1;
    }
  }

  /** strrchr(line, '\n') */
  method FindLast(line: string) returns (end: nat)
    ensures end == LastNewline(line)
  {
    hide LastNewline;
    end := |line|;
    while end > 0 && line[end - 1] != '\n'
      invariant end <= |line| && forall k :: end <= k < |line| ==> line[k] != '\n'
    {
      end := end - 1;
    }
    if end > 0 {
      end := end - 1;
      LastNewlineIs(line, end);
    } else {
      end := |line|;
    }
  }

  /** The loop that moves the end of a line back over blanks. */
  method TrimBack(line: string, end0: nat) returns (end: nat)
    requires end0 <= |line|
    ensures end <= end0 && line[..end] == TrimEnd(line[..end0])
  {
    hide IsSpace;
    ghost var cut := line[..end0];
    end := end0;
    while end > 0 && IsSpace(line[end - 1])
      invariant end <= end0 && TrimEnd(line[..end]) == TrimEnd(cut)
    {
      assert line[..end][..end - 1] == line[..end - 1];
      end := end - 1;
    }
    assert end > 0 ==> line[..end][end - 1] == line[end - 1];
  }

  /** The start of the loop of swish_parse_fh, on the C string that fgets left in `ln`. */
  method CleanLine(ln: string) returns (line: string)
    ensures line == Clean(ln)
  {
    hide SkipSpace, TrimEnd, LastNewline;
    var c := CStr(ln);
    var from := SkipWs(c);
    line := c[from..];
    var end := FindLast(line);
    if end < |line| {
      end := TrimBack(line, end);
      line := line[..end];
    }
  }

  lemma LastNewlineIs(line: string, k: nat)
    requires k < |line| && line[k] == '\n' && forall i :: k < i < |line| ==> line[i] != '\n'
    ensures LastNewline(line) == k
  {
    assert line[k] in line;
  }

  /** no_nulls, on the bytes read: its test is whether the C string is shorter than they are. */
  method ReplaceNulls(bytes: string) returns (buffer: string)
    ensures buffer == NoNulls(bytes)
  {
    buffer := bytes;
    if |CStr(bytes)| < |bytes| {
      for i := 0 to |bytes|
        invariant |buffer| == |bytes|
        invariant forall k :: 0 <= k < i ==> buffer[k] == NoNulls(bytes)[k]
        invariant forall k :: i <= k < |bytes| ==> buffer[k] == bytes[k]
      {
        if buffer[i] == NUL {
          buffer := buffer[i := '\n'];
        }
        if buffer[i] == BUMPER {
          buffer := buffer[i := '\n'];
        }
      }
    }
  }

  /** From the blank line to the document: headers, checks, body. */
  method ReadDocument(fh: FileHandle, headBuf: string, ghost heads: seq<string>) returns (r: Result<Doc>)
    requires fh.pos <= |fh.data| && Buffered(headBuf, heads) && heads != []
    modifies fh
    ensures fh.pos <= |fh.data| && r == Document(heads, old(fh.Rest()))
    ensures r.Ok? ==> fh.Rest() == old(fh.Rest())[r.value.info.size..]
  {
    hide IsLine, Joined, ReadLines;
    var head := BufToHead(headBuf + [NUL], heads);
    var read := HeadToDocInfo(head.value);
    if read.Err? {
      return Err(read.error);
    }
    var info := read.value;
    if info.uri == None {
      return Err(NoLocation);
    }
    if info.size == -1 {
      return Err(NoLength);
    }
    if info.size == 0 {
      return Err(ZeroLength);
    }
    if info.size < 0 {
      return Err(NoMemory);
    }
    var bytes := fh.Read(info.size);
    if |bytes| != info.size {
      return Err(ShortRead);
    }
    var body := ReplaceNulls(bytes);
    return Ok(Doc(info, body));
  }

  /** swish_parse_fh */
  method ParseFh(fh: FileHandle, handler: Handler) returns (fileCnt: nat, error: Option<Error>)
    requires fh.pos <= |fh.data|
    modifies fh, handler
    ensures var o := Parse(old(fh.Rest()), []);
            handler.seen == old(handler.seen) + o.docs && error == o.error && fileCnt == |o.docs|
  {
    hide Parse, Clean, Buffered, Document, LineLength;
    ghost var before, all := handler.seen, Parse(fh.Rest(), []);
    ghost var heads, docs: seq<Doc> := [], [];
    var headBuf, nheaders := "", 0;
    fileCnt := 0;
    NoneBuffered();
    assert all == Then(docs, all);
    while true
      invariant fh.pos <= |fh.data| && handler.seen == before + docs && fileCnt == |docs|
      invariant Buffered(headBuf, heads) && nheaders == |heads|
      invariant all == Then(docs, Parse(fh.Rest(), heads))
      decreases |fh.Rest()|
    {
      ghost var s := fh.Rest();
      ParseStep(s, heads);
      var ln := fh.Gets(MAX_LINE);
      if ln == None {
        break;
      }
      var line := CleanLine(ln.value);
      if nheaders >= MIN_HEADERS && |line| == 0 {
        var doc := ReadDocument(fh, headBuf, heads);
        if doc.Err? {
          return fileCnt, Some(doc.error);
        }
        handler.Handle(doc.value);
        ThenOne(docs, doc.value, Parse(fh.Rest(), []));
        docs := docs + [doc.value];
        headBuf, nheaders, heads := "", 0, [];
        fileCnt := fileCnt + 1;
      } else if |line| == 0 {
        return fileCnt, Some(NotEnoughHeaders);
      } else {
        BufferedSnoc(headBuf, heads, s);
        headBuf := headBuf + line + "\n";
        heads := heads + [line];
        nheaders := nheaders + 1;
      }
    }
    SomeBuffered(headBuf, heads);
    error := if |headBuf| > 0 then Some(UnparsedLines) else None;
  }

  lemma ThenOne(docs: seq<Doc>, d: Doc, o: Outcome)
    ensures Then(docs, Then([d], o)) == Then(docs + [d], o)
  {
  }

  /** The header buffer holds these lines. */
  ghost predicate Buffered(headBuf: string, heads: seq<string>) {
    headBuf == Joined(heads) && forall k :: 0 <= k < |heads| ==> IsLine(heads[k])
  }

  lemma NoneBuffered()
    ensures Buffered("", [])
  {
  }

  lemma BufferedSnoc(headBuf: string, heads: seq<string>, s: string)
    requires Buffered(headBuf, heads) && Clean(RawLine(s)) != ""
    ensures Buffered(headBuf + Clean(RawLine(s)) + "\n", heads + [Clean(RawLine(s))])
  {
    hide IsLine, Joined, Clean, LineLength;
    CleanIsLine(s);
    JoinedSnoc(heads, Clean(RawLine(s)));
  }

  lemma SomeBuffered(headBuf: string, heads: seq<string>)
    requires Buffered(headBuf, heads)
    ensures headBuf == "" <==> heads == []
  {
  }

  /** One turn of Parse. */
  lemma ParseStep(s: string, heads: seq<string>)
    ensures s == "" ==> Parse(s, heads) == Outcome([], if heads == [] then None else Some(UnparsedLines))
    ensures s != "" ==>
              var n := LineLength(s, MAX_LINE - 1);
              var line, rest := Clean(s[..n]), s[n..];
              && 0 < n <= |s|
              && (line != "" ==> Parse(s, heads) == Parse(rest, heads + [line]))
              && (line == "" && |heads| < MIN_HEADERS ==> Parse(s, heads) == Outcome([], Some(NotEnoughHeaders)))
              && (line == "" && |heads| >= MIN_HEADERS ==>
                    var d := Document(heads, rest);
                    if d.Err? then Parse(s, heads) == Outcome([], Some(d.error))
                    else Parse(s, heads) == Then([d.value], Parse(rest[d.value.info.size..], [])))
  {
    hide Clean, Document, LineLength;
  }
}
