/** Output formats of swish_xapian.cpp: build_output_format compiles a format into a template with
    one placeholder per property and a list of property ids; `search` renders that for every hit. */
module OutputFormat {
  import opened CString
  import opened Seqs

  /** SWISH_PROP_OUTPUT_PLACEHOLDER, SWISH_MAX_OUTPUT_PROPS */
  const PLACEHOLDER: char := '\U{3}'
  const MAX_PROPS: nat := 64

  // ---------------------------------------------------------------- escapes

  /** Digit value in bases up to 16; 16 for what is no digit. */
  function DigitValue(c: char): (d: nat)
    ensures d <= 16
  {
    if '0' <= c <= '9' then c as int - '0' as int
    else if 'a' <= c <= 'f' then c as int - 'a' as int + 10
    else if 'A' <= c <= 'F' then c as int - 'A' as int + 10
    else 16
  }

  function DigitRun(s: string, base: nat): (n: nat)
    requires base <= 16
    ensures n <= |s|
  {
    if s != "" && DigitValue(s[0]) < base then 1 + DigitRun(s[1..], base) else 0
  }

  function Number(digits: string, base: nat): nat {
    if digits == "" then 0 else Number(digits[..|digits| - 1], base) * base + DigitValue(digits[|digits| - 1])
  }

  datatype Numeral = Numeral(value: nat, used: nat)

  /** strtoul: blanks, a sign, for base 16 perhaps 0x, then digits; out of range is the largest
      unsigned long. */
  function StrToUL(s: string, base: nat): (r: Numeral)
    requires base <= 16
    ensures r.used <= |s|
  {
    var t := SkipSpace(s);
    var minus := t != "" && t[0] == '-';
    var u := if t != "" && (t[0] == '-' || t[0] == '+') then t[1..] else t;
    var prefixed := base == 16 && |u| > 2 && u[0] == '0' && (u[1] == 'x' || u[1] == 'X') && DigitValue(u[2]) < 16;
    var d := if prefixed then u[2..] else u;
    var n := DigitRun(d, base);
    if n == 0 then Numeral(0, 0)
    else
      var v := Number(d[..n], base);
      Numeral(
        if v >= 0x1_0000_0000_0000_0000 then 0xFFFF_FFFF_FFFF_FFFF
        else if minus then (0x1_0000_0000_0000_0000 - v) % 0x1_0000_0000_0000_0000 else v,
        |s| - |d| + n)
  }

  datatype Escape = Escape(c: char, rest: string)

  /** swish_get_C_escaped_char at a backslash, by way of get_control_char. */
  function ReadEscape(s: string): (r: Escape)
    requires s != ""
    ensures |r.rest| < |s|
  {
    if |s| == 1 then Escape('\\', "")
    else
      match s[1]
      case 'a' => Escape('\U{7}', s[2..])
      case 'b' => Escape('\U{8}', s[2..])
      case 'f' => Escape('\U{C}', s[2..])
      case 'n' => Escape('\n', s[2..])
      case 'r' => Escape('\r', s[2..])
      case 't' => Escape('\t', s[2..])
      case 'v' => Escape('\U{B}', s[2..])
      case 'x' =>
        var n := StrToUL(s[2..], 16);
        Escape((n.value % 256) as char, s[2 + n.used..])
      case '0' =>
        var n := StrToUL(s[1..], 8);
        Escape((n.value % 256) as char, s[1 + n.used..])
      case c => Escape(c, s[2..])
  }

  lemma {:induction false} RunExact(d: string, rest: string, base: nat)
    requires base <= 16 && forall k :: 0 <= k < |d| ==> DigitValue(d[k]) < base
    requires rest == "" || DigitValue(rest[0]) >= base
    ensures DigitRun(d + rest, base) == |d|
  {
    hide DigitValue;
    if d == "" {
      assert d + rest == rest;
    } else {
      assert (d + rest)[1..] == d[1..] + rest;
      RunExact(d[1..], rest, base);
    }
  }

  lemma NumberOfTwo(a: char, b: char, base: nat)
    ensures Number([a, b], base) == DigitValue(a) * base + DigitValue(b)
  {
    assert [a, b][..1] == [a] && [a][..0] == "";
    assert Number([a], base) == DigitValue(a);
  }

  /** Two hex digits with no third are the character of that number. */
  lemma HexEscape(a: char, b: char, rest: string)
    requires DigitValue(a) < 16 && DigitValue(b) < 16 && (rest == "" || DigitValue(rest[0]) >= 16)
    ensures ReadEscape("\\x" + [a, b] + rest) == Escape((16 * DigitValue(a) + DigitValue(b)) as char, rest)
  {
    hide DigitRun, Number;
    var s := "\\x" + [a, b] + rest;
    var t := [a, b] + rest;
    assert s[2..] == t;
    DigitsAreDigits(a, b);
    NoSkip(t);
    RunExact([a, b], rest, 16);
    NumberOfTwo(a, b, 16);
    assert t[..2] == [a, b];
    assert s[4..] == rest;
  }

  lemma DigitsAreDigits(a: char, b: char)
    requires DigitValue(a) < 16 && DigitValue(b) < 16
    ensures !IsSpace(a) && a != '-' && a != '+' && b != 'x' && b != 'X'
  {
  }

  // ---------------------------------------------------------------- what a format says

  datatype Piece = Literal(c: char) | Property(name: string)

  datatype Parsed = Parsed(piece: Piece, rest: string)

  /** The end of a property name: '>' or a blank. */
  function NameEnd(s: string): (n: nat)
    ensures n <= |s|
    ensures n < |s| ==> s[n] == '>' || IsSpace(s[n])
    ensures forall k :: 0 <= k < n ==> s[k] != '>' && !IsSpace(s[k])
  {
    if s == "" || s[0] == '>' || IsSpace(s[0]) then 0 else 1 + NameEnd(s[1..])
  }

  /** The first piece of a format; what ends a property name goes with it. */
  function First(s: string): (r: Parsed)
    requires s != ""
    ensures |r.rest| < |s|
  {
    if s[0] == '<' then
      var t := SkipSpace(s[1..]);
      var n := NameEnd(t);
      Parsed(Property(t[..n]), if n < |t| then t[n + 1..] else "")
    else if s[0] == '\\' then
      var e := ReadEscape(s);
      Parsed(Literal(e.c), e.rest)
    else Parsed(Literal(s[0]), s[1..])
  }

  function Pieces(s: string): seq<Piece>
    decreases |s|
  {
    if s == "" then [] else [First(s).piece] + Pieces(First(s).rest)
  }

  /** Every '<' has its end before the format's: past it the code would read beyond the NUL. */
  predicate Closed(s: string)
    decreases |s|
  {
    s == "" || ((s[0] == '<' ==> NameEnd(SkipSpace(s[1..])) < |SkipSpace(s[1..])|) && Closed(First(s).rest))
  }

  // ---------------------------------------------------------------- compiled form

  datatype Format = Format(tmpl: string, props: seq<int>)

  datatype Compiled = Ready(format: Format) | NoSuchProperty(name: string) | TooManyProperties

  /** The template and the ids of a list of pieces. */
  function Template(pieces: seq<Piece>): (r: string)
    ensures |r| == |pieces|
  {
    if pieces == [] then ""
    else Template(pieces[..|pieces| - 1])
         + [match pieces[|pieces| - 1] case Literal(c) => c case Property(_) => PLACEHOLDER]
  }

  function Names(pieces: seq<Piece>): seq<string> {
    if pieces == [] then []
    else Names(pieces[..|pieces| - 1])
         + (match pieces[|pieces| - 1] case Literal(_) => [] case Property(name) => [name])
  }

  predicate AllKnown(names: seq<string>, ids: map<string, int>) {
    forall k :: 0 <= k < |names| ==> names[k] in ids
  }

  function Ids(names: seq<string>, ids: map<string, int>): (r: seq<int>)
    requires AllKnown(names, ids)
    ensures |r| == |names|
  {
    seq(|names|, k requires 0 <= k < |names| => ids[names[k]])
  }

  class OutputFormat {
    var tmpl: string
    var props: array<int>
    var numProps: nat

    ghost predicate Valid()
      reads this
    {
      props.Length == MAX_PROPS && numProps <= MAX_PROPS
    }

    constructor ()
      ensures Valid() && fresh(props)
    {
      tmpl, numProps := "", 0;
      props := new int[MAX_PROPS];
    }

    /** build_output_format; `ids` stands for swish_property_get_id. */
    method Build(format: string, ids: map<string, int>) returns (r: Compiled)
      requires Valid() && Closed(format)
      modifies this, props
      ensures Valid() && props == old(props)
      ensures r.Ready? <==> AllKnown(Names(Pieces(format)), ids) && |Names(Pieces(format))| <= MAX_PROPS
      ensures r.Ready? ==> tmpl == Template(Pieces(format)) && numProps == |Names(Pieces(format))|
                           && AllKnown(Names(Pieces(format)), ids)
                           && props[..numProps] == Ids(Names(Pieces(format)), ids)
                           && r.format == Format(tmpl, props[..numProps])
    {
      hide First, Closed, Pieces, Template, Names;
      numProps, tmpl := 0, "";
      var s := format;
      ghost var all, done := Pieces(format), [];
      NothingYet();
      assert done + Pieces(s) == all;
      while s != ""
        invariant Valid() && props == old(props) && Closed(s) && done + Pieces(s) == all
        invariant tmpl == Template(done) && numProps == |Names(done)|
        invariant AllKnown(Names(done), ids) && props[..numProps] == Ids(Names(done), ids)
        decreases |s|
      {
        Step(s);
        ghost var piece := First(s).piece;
        Snoc(done, piece);
        Assoc(done, [piece], Pieces(First(s).rest));
        if s[0] == '<' {
          var name;
          name, s := PropertyName(s);
          assert piece == Property(name);
          OneMore(done + [piece], Pieces(s), name);
          if name !in ids {
            return NoSuchProperty(name);
          }
          if numProps == MAX_PROPS {
            return TooManyProperties;
          }
          tmpl := tmpl + [PLACEHOLDER];
          props[numProps] := ids[name];
          numProps := numProps + 1;
        } else if s[0] == '\\' {
          FirstEscape(s);
          var e := ReadEscape(s);
          tmpl := tmpl + [e.c];
          s := e.rest;
        } else {
          FirstPlain(s);
          tmpl := tmpl + [s[0]];
          s := s[1..];
        }
        done := done + [piece];
      }
      Step(s);
      assert done + [] == done;
      r := Ready(Format(tmpl, props[..numProps]));
    }
  }

  /** The scan for a property name after '<'. */
  method PropertyName(s: string) returns (name: string, rest: string)
    requires s != "" && s[0] == '<' && Closed(s)
    ensures Parsed(Property(name), rest) == First(s)
  {
    hide SkipSpace, NameEnd, Closed, First;
    ClosedName(s);
    var t := SkipSpace(s[1..]);
    var k := ScanName(t);
    name := t[..k];
    rest := t[k + 1..];
  }

  method ScanName(t: string) returns (k: nat)
    ensures k == NameEnd(t)
  {
    hide IsSpace, NameEnd;
    k := 0;
    assert t[0..] == t;
    while k < |t| && t[k] != '>' && !IsSpace(t[k])
      invariant k <= |t| && NameEnd(t) == k + NameEnd(t[k..])
    {
      NameStep(t[k..]);
      assert t[k..][1..] == t[k + 1..];
      k := k + 1;
    }
    NameStep(t[k..]);
  }

  lemma ClosedName(s: string)
    requires s != "" && s[0] == '<' && Closed(s)
    ensures NameEnd(SkipSpace(s[1..])) < |SkipSpace(s[1..])|
    ensures FirstIsName(s, SkipSpace(s[1..]), NameEnd(SkipSpace(s[1..])))
  {
    hide SkipSpace, NameEnd, ReadEscape;
  }

  ghost predicate FirstIsName(s: string, t: string, n: nat) {
    s != "" && n < |t| && First(s) == Parsed(Property(t[..n]), t[n + 1..])
  }

  lemma NameStep(s: string)
    ensures NameEnd(s) == if s == "" || s[0] == '>' || IsSpace(s[0]) then 0 else 1 + NameEnd(s[1..])
  {
    hide IsSpace;
  }

  lemma NothingYet()
    ensures Template([]) == "" && Names([]) == []
  {
  }

  lemma Step(s: string)
    ensures s == "" ==> Pieces(s) == []
    ensures s != "" ==> Pieces(s) == [First(s).piece] + Pieces(First(s).rest)
    ensures s != "" && Closed(s) ==> Closed(First(s).rest)
  {
    hide First;
  }

  lemma FirstEscape(s: string)
    requires s != "" && s[0] == '\\'
    ensures First(s) == Parsed(Literal(ReadEscape(s).c), ReadEscape(s).rest)
  {
  }

  lemma FirstPlain(s: string)
    requires s != "" && s[0] != '<' && s[0] != '\\'
    ensures First(s) == Parsed(Literal(s[0]), s[1..])
  {
  }

  lemma Snoc(pieces: seq<Piece>, p: Piece)
    ensures Template(pieces + [p]) == Template(pieces) + [if p.Literal? then p.c else PLACEHOLDER]
    ensures Names(pieces + [p]) == Names(pieces) + if p.Literal? then [] else [p.name]
  {
    assert (pieces + [p])[..|pieces|] == pieces;
  }

  lemma {:induction false} NamesConcat(a: seq<Piece>, b: seq<Piece>)
    ensures Names(a + b) == Names(a) + Names(b)
  {
    hide Names;
    if b == [] {
      NothingYet();
      assert a + b == a;
    } else {
      var k := |b| - 1;
      NamesConcat(a, b[..k]);
      Snoc(a + b[..k], b[k]);
      Snoc(b[..k], b[k]);
      assert a + b == (a + b[..k]) + [b[k]] && b == b[..k] + [b[k]];
    }
  }

  /** A name met on the way is one of the names of the whole. */
  lemma OneMore(upto: seq<Piece>, rest: seq<Piece>, name: string)
    requires upto != [] && upto[|upto| - 1] == Property(name)
    ensures var k := |Names(upto)| - 1;
            0 <= k < |Names(upto + rest)| && Names(upto + rest)[k] == name
  {
    NamesConcat(upto, rest);
  }

  // ---------------------------------------------------------------- rendering

  datatype Rendered = Shown(text: string) | Overrun

  function Before(a: string, r: Rendered): Rendered {
    if r.Shown? then Shown(a + r.text) else Overrun
  }

  /** The render loop: it walks the template as a C string and takes the next property at each
      placeholder, whether there is one left or not. */
  function Render(tmpl: string, props: seq<int>, show: int -> string): Rendered {
    if tmpl == "" || tmpl[0] == NUL then Shown("")
    else if tmpl[0] == PLACEHOLDER then
      if props == [] then Overrun else Before(show(props[0]), Render(tmpl[1..], props[1..], show))
    else Before([tmpl[0]], Render(tmpl[1..], props, show))
  }

  /** The loop over one hit in `search`. */
  method RenderHit(format: Format, show: int -> string) returns (r: Rendered)
    ensures r == Render(format.tmpl, format.props, show)
  {
    hide Render;
    var i, j, out := 0, 0, "";
    ghost var all := Render(format.tmpl, format.props, show);
    assert format.tmpl[0..] == format.tmpl && format.props[0..] == format.props;
    NothingBefore(all);
    while j < |format.tmpl| && format.tmpl[j] != NUL
      invariant i <= |format.props| && j <= |format.tmpl|
      invariant all == Before(out, Render(format.tmpl[j..], format.props[i..], show))
      decreases |format.tmpl| - j
    {
      RenderStep(format.tmpl[j..], format.props[i..], show);
      assert format.tmpl[j..][1..] == format.tmpl[j + 1..];
      if format.tmpl[j] == PLACEHOLDER {
        if i == |format.props| {
          return Overrun;
        }
        assert format.props[i..][1..] == format.props[i + 1..];
        BeforeBefore(out, show(format.props[i]), Render(format.tmpl[j + 1..], format.props[i + 1..], show));
        out := out + show(format.props[i]);
        i := i + 1;
      } else {
        BeforeBefore(out, [format.tmpl[j]], Render(format.tmpl[j + 1..], format.props[i..], show));
        out := out + [format.tmpl[j]];
      }
      j := j + 1;
    }
    RenderStep(format.tmpl[j..], format.props[i..], show);
    assert out + "" == out;
    return Shown(out);
  }

  lemma RenderStep(tmpl: string, props: seq<int>, show: int -> string)
    ensures Render(tmpl, props, show) ==
      if tmpl == "" || tmpl[0] == NUL then Shown("")
      else if tmpl[0] == PLACEHOLDER then
        if props == [] then Overrun else Before(show(props[0]), Render(tmpl[1..], props[1..], show))
      else Before([tmpl[0]], Render(tmpl[1..], props, show))
  {
  }

  lemma BeforeBefore(a: string, b: string, r: Rendered)
    ensures Before(a, Before(b, r)) == Before(a + b, r)
  {
    if r.Shown? {
      assert a + (b + r.text) == (a + b) + r.text;
    }
  }

  lemma NothingBefore(r: Rendered)
    ensures Before("", r) == r
  {
    if r.Shown? {
      assert "" + r.text == r.text;
    }
  }

  // ---------------------------------------------------------------- the format read directly

  /** What a format means for one hit, piece by piece. */
  function Meaning(pieces: seq<Piece>, ids: map<string, int>, show: int -> string): string
    requires AllKnown(Names(pieces), ids)
    decreases |pieces|
  {
    if pieces == [] then ""
    else
      Split(pieces, ids);
      (match pieces[0] case Literal(c) => [c] case Property(name) => show(ids[name])) + Meaning(pieces[1..], ids, show)
  }

  lemma Split(pieces: seq<Piece>, ids: map<string, int>)
    requires pieces != []
    ensures Names(pieces) == (if pieces[0].Property? then [pieces[0].name] else []) + Names(pieces[1..])
    ensures AllKnown(Names(pieces), ids) ==>
              AllKnown(Names(pieces[1..]), ids) && (pieces[0].Property? ==> pieces[0].name in ids)
  {
    hide Names;
    var p, rest := pieces[0], pieces[1..];
    assert pieces == ([] + [p]) + rest;
    NothingYet();
    Snoc([], p);
    NamesConcat([] + [p], rest);
    if AllKnown(Names(pieces), ids) {
      var n := if p.Property? then 1 else 0;
      forall k | 0 <= k < |Names(rest)| ensures Names(rest)[k] in ids {
        assert Names(pieces)[k + n] == Names(rest)[k];
      }
      if p.Property? {
        assert Names(pieces)[0] == p.name;
      }
    }
  }

  lemma {:induction false} TemplateConcat(a: seq<Piece>, b: seq<Piece>)
    ensures Template(a + b) == Template(a) + Template(b)
  {
    hide Template;
    if b == [] {
      NothingYet();
      assert a + b == a;
    } else {
      var k := |b| - 1;
      TemplateConcat(a, b[..k]);
      Snoc(a + b[..k], b[k]);
      Snoc(b[..k], b[k]);
      assert a + b == (a + b[..k]) + [b[k]] && b == b[..k] + [b[k]];
    }
  }

  lemma TemplateSplit(pieces: seq<Piece>)
    requires pieces != []
    ensures Template(pieces) == [if pieces[0].Literal? then pieces[0].c else PLACEHOLDER] + Template(pieces[1..])
  {
    hide Template;
    assert pieces == ([] + [pieces[0]]) + pieces[1..];
    NothingYet();
    Snoc([], pieces[0]);
    TemplateConcat([] + [pieces[0]], pieces[1..]);
  }

  /** No literal that the template cannot tell from its own marks. */
  predicate Sober(pieces: seq<Piece>) {
    forall k :: 0 <= k < |pieces| ==> pieces[k] != Literal(NUL) && pieces[k] != Literal(PLACEHOLDER)
  }

  lemma IdsSplit(names: seq<string>, ids: map<string, int>)
    requires names != [] && AllKnown(names, ids)
    ensures AllKnown(names[1..], ids) && Ids(names, ids) == [ids[names[0]]] + Ids(names[1..], ids)
  {
    forall k | 0 <= k < |names[1..]| ensures names[1..][k] in ids {
      assert names[k + 1] in ids;
    }
  }

  /** Rendering what the compiler made of the pieces is reading them directly. */
  lemma {:induction false} RenderMeans(pieces: seq<Piece>, ids: map<string, int>, show: int -> string)
    requires AllKnown(Names(pieces), ids) && Sober(pieces)
    ensures Render(Template(pieces), Ids(Names(pieces), ids), show) == Shown(Meaning(pieces, ids, show))
  {
    hide Names, Ids, AllKnown, Template;
    if pieces == [] {
      NothingYet();
    } else {
      var p, rest := pieces[0], pieces[1..];
      Split(pieces, ids);
      TemplateSplit(pieces);
      if p.Property? {
        assert Names(pieces)[1..] == Names(rest);
        IdsSplit(Names(pieces), ids);
      } else {
        assert Names(pieces) == Names(rest);
        assert p != Literal(NUL) && p != Literal(PLACEHOLDER);
      }
      RenderMeans(rest, ids, show);
    }
  }

  function Total(props: seq<int>, show: int -> string): nat {
    if props == [] then 0 else |show(props[0])| + Total(props[1..], show)
  }

  function Literals(pieces: seq<Piece>, all: bool): nat {
    if pieces == [] then 0
    else
      (if pieces[0].Literal? && (all || (pieces[0].c != NUL && pieces[0].c != PLACEHOLDER)) then 1 else 0)
      + Literals(pieces[1..], all)
  }

  /** However the placeholders are taken, no more comes out than ordinary literals and properties. */
  lemma {:induction false} RenderedLength(pieces: seq<Piece>, props: seq<int>, show: int -> string)
    ensures var r := Render(Template(pieces), props, show);
            r.Shown? ==> |r.text| <= Literals(pieces, false) + Total(props, show)
    decreases |pieces|
  {
    hide Template;
    if pieces == [] {
      NothingYet();
    } else {
      TemplateSplit(pieces);
      RenderedLength(pieces[1..], props, show);
      if props != [] {
        RenderedLength(pieces[1..], props[1..], show);
      }
    }
  }

  lemma {:induction false} MeaningLength(pieces: seq<Piece>, ids: map<string, int>, show: int -> string)
    requires AllKnown(Names(pieces), ids)
    ensures |Meaning(pieces, ids, show)| == Literals(pieces, true) + Total(Ids(Names(pieces), ids), show)
    decreases |pieces|
  {
    hide Names, Ids, AllKnown;
    if pieces == [] {
      NothingYet();
    } else {
      Split(pieces, ids);
      MeaningLength(pieces[1..], ids, show);
      if pieces[0].Property? {
        assert Names(pieces)[1..] == Names(pieces[1..]);
        IdsSplit(Names(pieces), ids);
      } else {
        assert Names(pieces) == Names(pieces[1..]);
      }
    }
  }

  lemma {:induction false} SoberCounts(pieces: seq<Piece>)
    ensures Literals(pieces, false) <= Literals(pieces, true)
    ensures !Sober(pieces) ==> Literals(pieces, false) < Literals(pieces, true)
  {
    if pieces != [] {
      SoberCounts(pieces[1..]);
      if !Sober(pieces) && Sober(pieces[1..]) {
        forall k | 1 <= k < |pieces| ensures pieces[k] != Literal(NUL) && pieces[k] != Literal(PLACEHOLDER) {
          assert pieces[k] == pieces[1..][k - 1];
        }
      }
    }
  }

  /** Compiling and rendering gives what the format means exactly when it spells no NUL and no \3,
      in the clear or as an escape. */
  lemma RenderMeansExactly(pieces: seq<Piece>, ids: map<string, int>, show: int -> string)
    requires AllKnown(Names(pieces), ids)
    ensures Render(Template(pieces), Ids(Names(pieces), ids), show) == Shown(Meaning(pieces, ids, show))
       <==> Sober(pieces)
  {
    hide Names, Ids, AllKnown, Template, Sober, Meaning, Render, Literals;
    if Sober(pieces) {
      RenderMeans(pieces, ids, show);
    } else {
      RenderedLength(pieces, Ids(Names(pieces), ids), show);
      MeaningLength(pieces, ids, show);
      SoberCounts(pieces);
    }
  }

  /** Placeholders of a template. */
  function Marks(tmpl: string): nat {
    if tmpl == "" then 0 else Marks(tmpl[..|tmpl| - 1]) + if tmpl[|tmpl| - 1] == PLACEHOLDER then 1 else 0
  }

  /** There is a property for every placeholder exactly when no literal is one itself. */
  lemma {:induction false} MarksAreProps(pieces: seq<Piece>)
    ensures Marks(Template(pieces)) >= |Names(pieces)|
    ensures Marks(Template(pieces)) == |Names(pieces)| <==> Literal(PLACEHOLDER) !in pieces
  {
    hide Template, Names, Marks;
    NothingYet();
    NoMarks();
    if pieces != [] {
      var k := |pieces| - 1;
      var p := pieces[k];
      MarksAreProps(pieces[..k]);
      assert pieces == pieces[..k] + [p];
      Snoc(pieces[..k], p);
      MarksSnoc(Template(pieces[..k]), if p.Literal? then p.c else PLACEHOLDER);
    }
  }

  lemma NoMarks()
    ensures Marks("") == 0
  {
  }

  lemma MarksSnoc(tmpl: string, c: char)
    ensures Marks(tmpl + [c]) == Marks(tmpl) + if c == PLACEHOLDER then 1 else 0
  {
    assert (tmpl + [c])[..|tmpl|] == tmpl;
  }

  /** A blank before the '>' ends the name, and the '>' is left over as text. */
  lemma BlankEndsName(name: string, rest: string)
    requires name != "" && forall k :: 0 <= k < |name| ==> name[k] != '>' && !IsSpace(name[k])
    ensures Pieces("<" + name + " >" + rest) == [Property(name), Literal('>')] + Pieces(rest)
  {
    hide IsSpace, NameEnd, SkipSpace, First, Pieces;
    var t := name + (" >" + rest);
    NameParts(name, rest);
    NoSkip(t);
    NameUpTo(name, " >" + rest);
    NameFirst(t, |name|);
    Step("<" + t);
    Step(">" + rest);
    FirstPlain(">" + rest);
  }

  lemma NameParts(name: string, rest: string)
    requires name != ""
    ensures var t := name + (" >" + rest);
            && "<" + name + " >" + rest == "<" + t && t[0] == name[0]
            && t[..|name|] == name && t[|name| + 1..] == ">" + rest && (">" + rest)[1..] == rest
  {
    assert "<" + name + " >" + rest == "<" + (name + (" >" + rest));
  }

  lemma NameFirst(t: string, n: nat)
    requires SkipSpace(t) == t && NameEnd(t) == n < |t|
    ensures First("<" + t) == Parsed(Property(t[..n]), t[n + 1..])
  {
    hide SkipSpace, NameEnd, ReadEscape;
    assert ("<" + t)[1..] == t;
  }

  lemma NoSkip(t: string)
    requires t != "" && !IsSpace(t[0])
    ensures SkipSpace(t) == t
  {
  }

  lemma {:induction false} NameUpTo(name: string, rest: string)
    requires forall k :: 0 <= k < |name| ==> name[k] != '>' && !IsSpace(name[k])
    requires rest != "" && rest[0] == ' '
    ensures NameEnd(name + rest) == |name|
  {
    var s := name + rest;
    NameStep(s);
    if name == "" {
      assert s == rest && IsSpace(' ');
    } else {
      assert s[1..] == name[1..] + rest;
      NameUpTo(name[1..], rest);
    }
  }

  /** Digits do not run past a '>'. */
  lemma {:induction false} RunStops(s: string, base: nat, k: nat)
    requires base <= 16 && k < |s| && s[k] == '>'
    ensures DigitRun(s, base) <= k
  {
    if k > 0 {
      RunStops(s[1..], base, k - 1);
    }
  }

  lemma {:induction false} SkipStops(s: string, k: nat)
    requires k < |s| && s[k] == '>'
    ensures |s| - |SkipSpace(s)| <= k
  {
    if k > 0 {
      SkipStops(s[1..], k - 1);
    }
  }

  /** Nor does a number: blanks, a sign and a 0x stop there too. */
  lemma NumeralStops(s: string, base: nat, k: nat)
    requires base <= 16 && k < |s| && s[k] == '>'
    ensures StrToUL(s, base).used <= k
  {
    hide Number, DigitValue, SkipSpace, DigitRun;
    SkipStops(s, k);
    var t := SkipSpace(s);
    var i := k - (|s| - |t|);
    assert t[i] == '>';
    var u := if t[0] == '-' || t[0] == '+' then t[1..] else t;
    var j := i - (|t| - |u|);
    assert j >= 0 && u[j] == '>';
    var prefixed := base == 16 && |u| > 2 && u[0] == '0' && (u[1] == 'x' || u[1] == 'X') && DigitValue(u[2]) < 16;
    if prefixed {
      NotInPrefix(u, j);
      RunStops(u[2..], base, j - 2);
    } else {
      RunStops(u, base, j);
    }
  }

  lemma NotInPrefix(u: string, j: nat)
    requires |u| > 2 && u[0] == '0' && (u[1] == 'x' || u[1] == 'X') && DigitValue(u[2]) < 16
    requires j < |u| && u[j] == '>'
    ensures j > 2 && u[2..][j - 2] == '>'
  {
    AngleIsNoDigit();
    hide DigitValue;
  }

  lemma AngleIsNoDigit()
    ensures DigitValue('>') == 16 && !IsSpace('>')
  {
  }

  lemma {:induction false} NameStops(s: string, k: nat)
    requires k < |s| && s[k] == '>'
    ensures NameEnd(s) <= k
  {
    hide IsSpace;
    if k > 0 && s[0] != '>' && !IsSpace(s[0]) {
      NameStops(s[1..], k - 1);
    }
  }

  /** No piece of a format reaches past the first '>'. */
  lemma FirstStops(s: string, k: nat)
    requires k < |s| && s[k] == '>'
    ensures |s| - |First(s).rest| <= k + 1
  {
    if s[0] == '<' {
      NamePieceStops(s, k);
    } else if s[0] == '\\' {
      EscapeStops(s, k);
    }
  }

  lemma NamePieceStops(s: string, k: nat)
    requires k < |s| && s[k] == '>' && s[0] == '<'
    ensures |s| - |First(s).rest| <= k + 1
  {
    hide SkipSpace, NameEnd, ReadEscape;
    SkipStops(s[1..], k - 1);
    var t := SkipSpace(s[1..]);
    assert t[k - (|s| - |t|)] == '>';
    NameStops(t, k - (|s| - |t|));
  }

  lemma EscapeStops(s: string, k: nat)
    requires k < |s| && s[k] == '>' && s[0] == '\\'
    ensures |s| - |First(s).rest| <= k + 1
  {
    hide StrToUL, SkipSpace, NameEnd;
    if s[1] == 'x' {
      NumeralStops(s[2..], 16, k - 2);
    } else if s[1] == '0' {
      NumeralStops(s[1..], 8, k - 1);
    }
  }

  /** So a format up to and with a '>' is at least one piece of its own. */
  lemma {:induction false} UpToAngle(s: string, k: nat)
    requires k < |s| && s[k] == '>'
    ensures |Pieces(s)| > |Pieces(s[k + 1..])|
    decreases k
  {
    hide First;
    Step(s);
    FirstStops(s, k);
    var rest := First(s).rest;
    var used := |s| - |rest|;
    RestIsTail(s);
    if used == k + 1 {
      assert rest == s[k + 1..];
    } else {
      assert rest[k - used] == '>' && rest[k - used + 1..] == s[k + 1..];
      UpToAngle(rest, k - used);
    }
  }

  lemma RestIsTail(s: string)
    requires s != ""
    ensures First(s).rest == s[|s| - |First(s).rest|..]
  {
    hide StrToUL, NameEnd, SkipSpace;
  }

  /** A closed part is its property and nothing more exactly when no blank stands between the
      start of the name and the '>'. */
  lemma PartIsProperty(body: string, rest: string)
    requires '>' !in body
    ensures var s, name := "<" + body + ">" + rest, SkipSpace(body);
            Pieces(s) == [Property(name)] + Pieces(rest) <==> forall k :: 0 <= k < |name| ==> !IsSpace(name[k])
    ensures var name := SkipSpace(body);
            First("<" + body + ">" + rest).piece == Property(name[..NameEnd(name)])
  {
    hide IsSpace, First, Pieces, SkipSpace, NameEnd;
    var name := SkipSpace(body);
    NoAngle(body);
    PartReads(body, rest);
    LeftOfPart(name, rest);
  }

  lemma NoAngle(body: string)
    requires '>' !in body
    ensures '>' !in SkipSpace(body)
  {
    hide SkipSpace;
    assert forall c :: c in SkipSpace(body) ==> c in body;
  }

  lemma PartReads(body: string, rest: string)
    requires '>' !in body
    ensures var s, name := "<" + body + ">" + rest, SkipSpace(body);
            && First(s).piece == Property(name[..NameEnd(name)])
            && Pieces(s) == [Property(name[..NameEnd(name)])] + Pieces((name + ">" + rest)[NameEnd(name) + 1..])
  {
    hide IsSpace, First, Pieces, SkipSpace, NameEnd;
    FirstReads(body, rest, SkipSpace(body));
    Step("<" + body + ">" + rest);
  }

  predicate Skips(s: string, t: string) {
    SkipSpace(s) == t
  }

  lemma BodySkips(body: string, rest: string, name: string)
    requires Skips(body, name) && '>' !in body
    ensures Skips(body + ">" + rest, name + ">" + rest) && '>' !in name
  {
    hide SkipSpace;
    SkipBody(body, rest);
    NoAngle(body);
  }

  lemma FirstReads(body: string, rest: string, name: string)
    requires Skips(body, name) && '>' !in body
    ensures First("<" + body + ">" + rest)
         == Parsed(Property(name[..NameEnd(name)]), (name + ">" + rest)[NameEnd(name) + 1..])
  {
    hide *;
    BodySkips(body, rest, name);
    NameInBody(name, rest);
    Bracketed(body, rest);
    FirstOfName(body + ">" + rest, name, rest, NameEnd(name));
  }

  lemma Bracketed(body: string, rest: string)
    ensures "<" + body + ">" + rest == "<" + (body + ">" + rest)
  {
  }

  lemma FirstOfName(t: string, name: string, rest: string, n: nat)
    requires Skips(t, name + ">" + rest) && NameEnd(name + ">" + rest) == n <= |name|
    ensures First("<" + t) == Parsed(Property(name[..n]), (name + ">" + rest)[n + 1..])
  {
    hide First, NameEnd, SkipSpace;
    FirstOfPart(t, name + ">" + rest, n);
    PrefixOf(name, ">" + rest, n);
    NameThen(name, rest);
  }

  lemma NameThen(name: string, rest: string)
    ensures name + (">" + rest) == name + ">" + rest
  {
  }

  lemma PrefixOf(s: string, t: string, n: nat)
    requires n <= |s|
    ensures (s + t)[..n] == s[..n]
  {
  }

  /** What a name leaves of its part: nothing, or text of its own before the rest. */
  lemma LeftOfPart(name: string, rest: string)
    ensures var n := NameEnd(name);
            var left := (name + ">" + rest)[n + 1..];
            && (n == |name| ==> left == rest && name[..n] == name && forall k :: 0 <= k < n ==> !IsSpace(name[k]))
            && (n < |name| && '>' !in name ==> IsSpace(name[n]) && |Pieces(left)| > |Pieces(rest)|)
  {
    hide IsSpace, Pieces;
    var n := NameEnd(name);
    var left := (name + ">" + rest)[n + 1..];
    if n < |name| && '>' !in name {
      var m := |name| - n - 1;
      assert name[n] in name;
      assert left[m] == '>' && left[m + 1..] == rest;
      UpToAngle(left, m);
    }
  }

  lemma FirstOfPart(t: string, tail: string, n: nat)
    requires SkipSpace(t) == tail && NameEnd(tail) == n < |tail|
    ensures First("<" + t) == Parsed(Property(tail[..n]), tail[n + 1..])
  {
    hide SkipSpace, NameEnd, ReadEscape;
    assert ("<" + t)[1..] == t;
  }

  lemma {:induction false} SkipBody(body: string, rest: string)
    ensures SkipSpace(body + ">" + rest) == SkipSpace(body) + ">" + rest
  {
    hide IsSpace;
    var s := body + ">" + rest;
    AngleIsNoDigit();
    if body == "" {
      assert s[0] == '>' && s == "" + ">" + rest;
    } else {
      assert s[1..] == body[1..] + ">" + rest;
      SkipBody(body[1..], rest);
    }
  }

  lemma {:induction false} NameInBody(name: string, rest: string)
    requires '>' !in name
    ensures NameEnd(name + ">" + rest) == NameEnd(name)
  {
    hide IsSpace;
    var s := name + ">" + rest;
    if name == "" {
      assert s[0] == '>';
    } else {
      assert s[0] == name[0] && name[0] in name;
      assert s[1..] == name[1..] + ">" + rest;
      NameInBody(name[1..], rest);
    }
  }

  /** From the format string to the text of a hit. */
  method CompileAndRender(format: string, ids: map<string, int>, show: int -> string) returns (r: Compiled,
                          out: Rendered)
    requires Closed(format)
    ensures r.Ready? <==> AllKnown(Names(Pieces(format)), ids) && |Names(Pieces(format))| <= MAX_PROPS
    ensures r.Ready? ==> AllKnown(Names(Pieces(format)), ids)
                         && (out == Shown(Meaning(Pieces(format), ids, show)) <==> Sober(Pieces(format)))
  {
    hide Pieces, Names, Template, Render, Meaning, Sober, Closed, Ids, AllKnown;
    var of := new OutputFormat();
    r := of.Build(format, ids);
    out := Overrun;
    if r.Ready? {
      out := RenderHit(r.format, show);
      RenderMeansExactly(Pieces(format), ids, show);
    }
  }
}
