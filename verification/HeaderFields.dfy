/** Which header means what: every name of head_to_docinfo against the field it is for. */
module HeaderFields {
  import opened CString
  import opened Headers
  import opened StreamTheorems

  /** The field a header is for; a name outside the table changes nothing. */
  function Meant(info: DocInfo, name: string, v: string): Result<DocInfo> {
    if name in {"Content-Length", "Last-Modified", "Last-Mtime"} then
      match StringToInt(v)
      case Ok(n) => Ok(if name == "Content-Length" then info.(size := n) else info.(mtime := n))
      case Err(e) => Err(e)
    else if name in {"Content-Location", "Path-Name"} then Ok(info.(uri := Some(v)))
    else if name in {"Document-Type", "Parser-Type"} then Ok(info.(parser := Some(v)))
    else if name == "Content-Type" then Ok(info.(mime := Some(v)))
    else if name in {"Encoding", "Charset"} then Ok(info.(encoding := Some(v)))
    else Ok(info)
  }

  const NAMES := ["Content-Length", "Last-Modified", "Last-Mtime", "Content-Location", "Path-Name",
                  "Document-Type", "Parser-Type", "Content-Type", "Encoding", "Charset"]

  /** Two names of the table differ where this says, in any case. */
  function Differ(i: nat, j: nat): nat {
    if {i, j} <= {0, 3} then 9
    else if {i, j} <= {0, 3, 7} then 8
    else if {i, j} <= {0, 3, 7, 9} then 1
    else if {i, j} <= {1, 2} then 6
    else if {i, j} <= {4, 6} then 2
    else 0
  }

  lemma NamesDiffer(i: nat, j: nat)
    requires i < |NAMES| && j < |NAMES| && i != j
    ensures var k := Differ(i, j);
            k < |NAMES[i]| && k < |NAMES[j]| && ToLower(NAMES[i][k]) != ToLower(NAMES[j][k])
  {
  }

  lemma Apart(i: nat, j: nat, rest: string)
    requires i < |NAMES| && j < |NAMES| && i != j
    ensures !SameCase(NAMES[i] + rest, NAMES[j], |NAMES[j]|)
  {
    hide SameCase, Differ, NAMES, ToLower;
    NamesDiffer(i, j);
    if SameCase(NAMES[i] + rest, NAMES[j], |NAMES[j]|) {
      SameAt(NAMES[i] + rest, NAMES[j], |NAMES[j]|, Differ(i, j));
    }
  }

  lemma PlainNames(i: nat)
    requires i < |NAMES|
    ensures ':' !in NAMES[i] && NoNul(NAMES[i])
  {
  }

  /** Every header of the table sets its own field to its value and no other. */
  lemma HeaderIsMeant(info: DocInfo, i: nat, v: string)
    requires i < |NAMES| && v != "" && !IsSpace(v[0])
    ensures ReadLine(info, NAMES[i] + ": " + v) == Meant(info, NAMES[i], v)
  {
    hide SameCase, NoNul, Value, StringToInt, IsSpace, Differ;
    var line := NAMES[i] + ": " + v;
    assert line == NAMES[i] + (": " + v);
    PlainNames(i);
    ValueOf(NAMES[i], v);
    SameSelf(NAMES[i], ": " + v);
    forall j | 0 <= j < |NAMES| && j != i ensures !SameCase(line, NAMES[j], |NAMES[j]|) {
      Apart(i, j, ": " + v);
    }
    Chosen(info, i, line, v);
  }

  /** So does one whose name is written in another case. */
  lemma AnyCaseIsMeant(info: DocInfo, i: nat, name: string, v: string)
    requires i < |NAMES| && Lower(name) == Lower(NAMES[i]) && NoNul(v) && v != "" && !IsSpace(v[0])
    ensures ReadLine(info, name + ": " + v) == Meant(info, NAMES[i], v)
  {
    hide SameCase, NoNul, Value, IsSpace, Differ, NAMES, ToLower, ReadLine, Meant;
    var line, plain := name + ": " + v, NAMES[i] + ": " + v;
    PlainNames(i);
    SameInCase(name, NAMES[i], v);
    ValueOf(name, v);
    SameSelf(NAMES[i], ": " + v);
    assert plain == NAMES[i] + (": " + v);
    forall j | 0 <= j < |NAMES|
      ensures SameCase(line, NAMES[j], |NAMES[j]|) <==> j == i
    {
      PlainNames(j);
      PrefixTest(line, NAMES[j]);
      PrefixTest(plain, NAMES[j]);
      LowerFront(line, plain, |NAMES[j]|);
      if j != i {
        Apart(i, j, ": " + v);
      }
    }
    Chosen(info, i, line, v);
  }

  lemma SameInCase(name: string, other: string, v: string)
    requires Lower(name) == Lower(other) && ':' !in other && NoNul(other) && NoNul(v)
    ensures ':' !in name && NoNul(name + ": " + v) && NoNul(other + ": " + v)
    ensures Lower(name + ": " + v) == Lower(other + ": " + v)
  {
    hide ToLower;
    forall k | 0 <= k < |name| ensures name[k] != ':' && name[k] != NUL {
      assert Lower(name)[k] == ToLower(name[k]) && Lower(other)[k] == ToLower(other[k]);
      assert other[k] in other;
      NotColon(name[k], other[k]);
    }
    assert Lower(name + ": " + v) == Lower(name) + Lower(": " + v);
    assert Lower(other + ": " + v) == Lower(other) + Lower(": " + v);
  }

  lemma NotColon(a: char, b: char)
    requires ToLower(a) == ToLower(b) && b != ':' && b != NUL
    ensures a != ':' && a != NUL
  {
  }

  lemma LowerFront(a: string, b: string, n: nat)
    requires Lower(a) == Lower(b)
    ensures |a| == |b| && (n <= |a| ==> Lower(a[..n]) == Lower(b[..n]))
  {
    hide ToLower;
    assert |a| == |Lower(a)| == |Lower(b)| == |b|;
    if n <= |a| {
      forall k | 0 <= k < n ensures Lower(a[..n])[k] == Lower(b[..n])[k] {
        assert Lower(a)[k] == Lower(b)[k];
      }
    }
  }

  /** A number in decimal is the int it spells, */
  lemma NumberRead(n: nat)
    requires n < 0x8000_0000_0000_0000
    ensures StringToInt(Digits(n)) == Ok(ToInt32(n))
    ensures n < 0x8000_0000 ==> ToInt32(n) == n
  {
    hide StrToL, Digits;
    DigitsToL(n);
  }

  /** and each of the three headers that hold one sets its own field to it. */
  lemma NumbersRead(info: DocInfo, n: nat)
    requires n < 0x8000_0000
    ensures ReadLine(info, "Last-Modified: " + Digits(n)) == Ok(info.(mtime := n))
    ensures ReadLine(info, "Last-Mtime: " + Digits(n)) == Ok(info.(mtime := n))
    ensures ReadLine(info, "Content-Length: " + Digits(n)) == Ok(info.(size := n))
  {
    hide ReadLine, Digits, StringToInt, IsDigit;
    NumberRead(n);
    DigitsRead(n);
    DigitNoSpace(Digits(n)[0]);
    HeaderIsMeant(info, 0, Digits(n));
    HeaderIsMeant(info, 1, Digits(n));
    HeaderIsMeant(info, 2, Digits(n));
    assert "Content-Length" + ": " == "Content-Length: ";
    assert "Last-Modified" + ": " == "Last-Modified: " && "Last-Mtime" + ": " == "Last-Mtime: ";
  }

  lemma Chosen(info: DocInfo, i: nat, line: string, v: string)
    requires i < |NAMES| && ':' in line && Value(line) == v
    requires forall j :: 0 <= j < |NAMES| ==> (SameCase(line, NAMES[j], |NAMES[j]|) <==> j == i)
    ensures ReadLine(info, line) == Meant(info, NAMES[i], v)
  {
    hide SameCase, Value, StringToInt;
    Tests(line, i);
  }

  /** The ten tests of the code, by their places in the table. */
  lemma Tests(line: string, i: nat)
    requires i < |NAMES|
    requires forall j :: 0 <= j < |NAMES| ==> (SameCase(line, NAMES[j], |NAMES[j]|) <==> j == i)
    ensures SameCase(line, "Content-Length", 14) <==> i == 0
    ensures SameCase(line, "Last-Modified", 13) <==> i == 1
    ensures SameCase(line, "Last-Mtime", 10) <==> i == 2
    ensures SameCase(line, "Content-Location", 16) <==> i == 3
    ensures SameCase(line, "Path-Name", 9) <==> i == 4
    ensures SameCase(line, "Document-Type", 13) <==> i == 5
    ensures SameCase(line, "Parser-Type", 11) <==> i == 6
    ensures SameCase(line, "Content-Type", 12) <==> i == 7
    ensures SameCase(line, "Encoding", 8) <==> i == 8
    ensures SameCase(line, "Charset", 7) <==> i == 9
  {
    hide SameCase;
    assert forall j :: 0 <= j < |NAMES| ==> (SameCase(line, NAMES[j], |NAMES[j]|) <==> j == i);
    assert NAMES[0] == "Content-Length" && NAMES[1] == "Last-Modified" && NAMES[2] == "Last-Mtime";
    assert NAMES[3] == "Content-Location" && NAMES[4] == "Path-Name" && NAMES[5] == "Document-Type";
    assert NAMES[6] == "Parser-Type" && NAMES[7] == "Content-Type" && NAMES[8] == "Encoding" && NAMES[9] == "Charset";
  }

  // ---------------------------------------------------------------- the last of a kind counts

  datatype Field = Size | Time | Uri | Parser | Mime | Encoding

  /** The field the tests of head_to_docinfo choose for a line. */
  function FieldOf(line: string): Option<Field> {
    if SameCase(line, "Content-Length", 14) then Some(Size)
    else if SameCase(line, "Last-Modified", 13) || SameCase(line, "Last-Mtime", 10) then Some(Time)
    else if SameCase(line, "Content-Location", 16) || SameCase(line, "Path-Name", 9) then Some(Uri)
    else if SameCase(line, "Document-Type", 13) || SameCase(line, "Parser-Type", 11) then Some(Parser)
    else if SameCase(line, "Content-Type", 12) then Some(Mime)
    else if SameCase(line, "Encoding", 8) || SameCase(line, "Charset", 7) then Some(Encoding)
    else None
  }

  /** Two readings agree on a field. */
  predicate Agree(a: DocInfo, b: DocInfo, f: Field) {
    match f
    case Size => a.size == b.size
    case Time => a.mtime == b.mtime
    case Uri => a.uri == b.uri
    case Parser => a.parser == b.parser
    case Mime => a.mime == b.mime
    case Encoding => a.encoding == b.encoding
  }

  /** A line sets its own field, to what it would set in any record, and leaves the others. */
  lemma LineSets(info: DocInfo, line: string, f: Field)
    requires ReadLine(info, line).Ok?
    ensures ReadLine(NO_INFO, line).Ok?
    ensures FieldOf(line) == Some(f) ==> Agree(ReadLine(info, line).value, ReadLine(NO_INFO, line).value, f)
    ensures FieldOf(line) != Some(f) ==> Agree(ReadLine(info, line).value, info, f)
  {
    hide SameCase, Value, StringToInt;
  }

  /** Of all lines for one field the last one counts; without any, the field stays unset. */
  lemma {:induction false} LastOfAKind(lines: seq<string>, f: Field, k: int)
    requires ReadLines(lines).Ok? && -1 <= k < |lines|
    requires k >= 0 ==> FieldOf(lines[k]) == Some(f)
    requires forall i :: k < i < |lines| ==> FieldOf(lines[i]) != Some(f)
    ensures k >= 0 ==>
              && ReadLine(NO_INFO, lines[k]).Ok?
              && Agree(ReadLines(lines).value, ReadLine(NO_INFO, lines[k]).value, f)
    ensures k < 0 ==> Agree(ReadLines(lines).value, NO_INFO, f)
  {
    hide FieldOf, ReadLine;
    if lines != [] {
      var n := |lines| - 1;
      var before := ReadLines(lines[..n]).value;
      LineSets(before, lines[n], f);
      if k < n {
        LastOfAKind(lines[..n], f, k);
      }
    }
  }
}
