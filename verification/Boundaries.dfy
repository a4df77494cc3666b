/** Four small documents, and what their tags do to the words on two sides of them. */
module Boundaries {
  import opened CString
  import opened NamedBuffers
  import opened Seqs
  import opened TokenLists
  import opened Tokenizer
  import opened TokenTheorems
  import opened IncludedWords
  import opened DocumentTokens
  import opened TagStacks
  import opened Sax
  import opened StackDiscipline
  import opened Attribution
  import opened IncludedBuffers
  import opened DocumentTexts
  import opened DocumentWords

  // ---------------------------------------------------------------- lists read off a tree

  /** A text that comes after a tag, in those elements. */
  function Here(cfg: Config, open: seq<Elem>, text: string): Bit {
    Said(text, true, Names(MetaOf(cfg, open)))
  }

  lemma WriteMore(cfg: Config, open: seq<Elem>, p: Page, rest: seq<Page>, w: Writing)
    ensures Write(cfg, open, [p] + rest, w) == Write(cfg, open, rest, WritePage(cfg, open, p, w))
    ensures Write(cfg, open, [], w) == w
  {
    hide WritePage;
    assert ([p] + rest)[1..] == rest;
  }

  lemma SayBits(cfg: Config, open: seq<Elem>, ch: string, rest: seq<Page>, w: Writing)
    requires w.ignore == 0
    ensures Write(cfg, open, [Say(ch)] + rest, w)
         == Write(cfg, open, rest, Writing(w.bits + [Said(ch, w.cut, Names(MetaOf(cfg, open)))], false, 0))
  {
    hide Write;
    WriteMore(cfg, open, Say(ch), rest, w);
  }

  lemma OneSay(cfg: Config, open: seq<Elem>, ch: string, w: Writing)
    requires w.ignore == 0
    ensures Write(cfg, open, [Say(ch)], w) == Writing(w.bits + [Said(ch, w.cut, Names(MetaOf(cfg, open)))], false, 0)
  {
    hide Write, MetaOf;
    SayBits(cfg, open, ch, [], w);
    WriteMore(cfg, open, Say(ch), [], Writing(w.bits + [Said(ch, w.cut, Names(MetaOf(cfg, open)))], false, 0));
    assert [Say(ch)] + [] == [Say(ch)];
  }

  /** An element that is no metaname leaves only a cut before and behind it. */
  lemma PlainBits(cfg: Config, open: seq<Elem>, e: Elem, kids: seq<Page>, rest: seq<Page>, w: Writing)
    requires !GoesOnMeta(cfg, open, e) && w.ignore == 0 && Write(cfg, open + [e], kids, w.(cut := true)).ignore == 0
    ensures Write(cfg, open, [Within(e, kids)] + rest, w)
         == Write(cfg, open, rest, Write(cfg, open + [e], kids, w.(cut := true)).(cut := true))
  {
    hide Write, GoesOnMeta, Defined;
    WriteMore(cfg, open, Within(e, kids), rest, w);
  }

  /** A metaname flushes at both ends. */
  lemma MetaBits(cfg: Config, open: seq<Elem>, e: Elem, kids: seq<Page>, rest: seq<Page>, w: Writing)
    requires GoesOnMeta(cfg, open, e) && w.ignore == 0
    requires var w1 := Writing(w.bits + [Flushed(Names(MetaOf(cfg, open)), true)], true, 0);
             Write(cfg, open + [e], kids, w1).ignore == 0
    ensures var r := Write(cfg, open + [e], kids, Writing(w.bits + [Flushed(Names(MetaOf(cfg, open)), true)], true, 0));
            Write(cfg, open, [Within(e, kids)] + rest, w)
            == Write(cfg, open, rest, Writing(r.bits + [Flushed(Names(MetaOf(cfg, open + [e])), false)], true, 0))
  {
    hide Write, GoesOnMeta, Defined, MetaOf;
    WriteMore(cfg, open, Within(e, kids), rest, w);
  }

  // ---------------------------------------------------------------- texts of such a list

  /** What has been flushed of a list, and what is pending. */
  predicate Stage(cfg: Config, bits: seq<Bit>, texts: seq<string>, pending: string) {
    && Pend(bits) == pending && |PartsOf(cfg, bits)| == |texts|
    && forall i :: 0 <= i < |texts| ==> PartsOf(cfg, bits)[i].Flush? && PartsOf(cfg, bits)[i].text == texts[i]
  }

  lemma StageStart(cfg: Config)
    ensures Stage(cfg, [], [], "")
  {
  }

  lemma StageSaid(cfg: Config, bits: seq<Bit>, texts: seq<string>, pending: string, text: string, open: seq<Elem>)
    requires Stage(cfg, bits, texts, pending)
    ensures Stage(cfg, bits + [Here(cfg, open, text)], texts, pending + (if pending != "" then [BUMPER] else "") + text)
  {
    hide Pend, PartsOf, MetaOf;
    BitsSnoc(cfg, bits, Here(cfg, open, text));
    PartsSnoc(cfg, bits + [Here(cfg, open, text)]);
  }

  lemma StageFlushed(cfg: Config, bits: seq<Bit>, texts: seq<string>, pending: string, names: seq<string>, whole: bool)
    requires Stage(cfg, bits, texts, pending)
    ensures Stage(cfg, bits + [Flushed(names, whole)], texts + [pending], "")
  {
    hide Pend, PartsOf, Filing;
    BitsSnoc(cfg, bits, Flushed(names, whole));
    PartsSnoc(cfg, bits + [Flushed(names, whole)]);
  }

  // ---------------------------------------------------------------- tokens of such texts

  /** The words with their positions. */
  function Spots(items: seq<Item>): (r: seq<(string, nat)>)
    ensures |r| == |items|
  {
    seq(|items|, i requires 0 <= i < |items| => (items[i].value, items[i].pos))
  }

  /** The words of marks that start at `pos`. */
  function SpotsOf(marks: seq<Mark>, pos: nat): seq<(string, nat)> {
    if marks == [] then []
    else
      (match marks[0] case Word(v) => [(v, pos + 1)] case Bump => []) + SpotsOf(marks[1..], pos + 1)
  }

  lemma {:induction false} PlaceSpots(marks: seq<Mark>, pos: nat, meta: string, context: string)
    ensures Spots(Place(marks, pos, meta, context)) == SpotsOf(marks, pos)
  {
    if marks == [] {
      assert Place([], pos, meta, context) == [];
    } else {
      assert marks == [marks[0]] + marks[1..];
      PlaceSpots(marks[1..], pos + 1, meta, context);
      PlaceConcat([marks[0]], marks[1..], pos, meta, context);
      OneSpot(marks[0], pos, meta, context);
      SpotsConcat(Place([marks[0]], pos, meta, context), Place(marks[1..], pos + 1, meta, context));
    }
  }

  lemma OneSpot(m: Mark, pos: nat, meta: string, context: string)
    ensures Spots(Place([m], pos, meta, context)) == (match m case Word(v) => [(v, pos + 1)] case Bump => [])
  {
    assert [m][..0] == [];
  }

  lemma SpotsConcat(a: seq<Item>, b: seq<Item>)
    ensures Spots(a + b) == Spots(a) + Spots(b)
  {
  }

  /** One more flushed text. */
  lemma MoreSpots(lens: Lengths, parts: seq<Part>, marks: seq<Mark>)
    requires lens.max >= 2 && parts != [] && parts[|parts| - 1].Flush?
    requires Scan(lens, parts[|parts| - 1].text, false) == marks
    ensures var w, more := WordsOf(lens, parts[..|parts| - 1]), WordsOf(lens, parts);
            Spots(more.items) == Spots(w.items) + SpotsOf(marks, w.pos) && more.pos == w.pos + |marks|
  {
    hide Scan, Place;
    var last := parts[|parts| - 1];
    var w := WordsOf(lens, parts[..|parts| - 1]);
    PlaceSpots(marks, w.pos, last.meta, last.context);
    SpotsConcat(w.items, Place(marks, w.pos, last.meta, last.context));
  }

  // ---------------------------------------------------------------- the documents

  /** A plain element around everything. */
  lemma Wrapped(cfg: Config, d: Elem, kids: seq<Page>)
    requires !GoesOnMeta(cfg, [], d) && Write(cfg, [d], kids, Writing([], true, 0)).ignore == 0
    ensures BitsOf(cfg, [Within(d, kids)])
         == Write(cfg, [d], kids, Writing([], true, 0)).bits + [Flushed([DEFAULT_METANAME], true)]
  {
    hide Write, GoesOnMeta;
    assert [] + [d] == [d] && [Within(d, kids)] + [] == [Within(d, kids)];
    PlainBits(cfg, [], d, kids, [], Writing([], true, 0));
    WriteMore(cfg, [], Within(d, kids), [], Write(cfg, [d], kids, Writing([], true, 0)).(cut := true));
  }

  /** A metaname at the end of it, whose content is one text. */
  lemma MetaLast(cfg: Config, d: Elem, e: Elem, b: seq<Page>, said: Bit, w: Writing)
    requires GoesOnMeta(cfg, [d], e) && w.ignore == 0
    requires var w1 := Writing(w.bits + [Flushed(Names(MetaOf(cfg, [d])), true)], true, 0);
             var r := Write(cfg, [d, e], b, w1);
             r.bits == w1.bits + [said] && r.ignore == 0
    ensures Write(cfg, [d], [Within(e, b)], w)
         == Writing(w.bits + [Flushed(Names(MetaOf(cfg, [d])), true)] + [said]
                    + [Flushed(Names(MetaOf(cfg, [d, e])), false)], true, 0)
  {
    hide Write, GoesOnMeta, MetaOf;
    assert [d] + [e] == [d, e] && [Within(e, b)] + [] == [Within(e, b)];
    MetaBits(cfg, [d], e, b, [], w);
    WriteMore(cfg, [d], Within(e, b), [],
              Writing(w.bits + [Flushed(Names(MetaOf(cfg, [d])), true)] + [said]
                      + [Flushed(Names(MetaOf(cfg, [d, e])), false)], true, 0));
  }

  /** <d>a<e>b</e></d> */
  function Adjoining(d: Elem, e: Elem): seq<Page> {
    [Within(d, [Say("a")] + [Within(e, [Say("b")])])]
  }

  /** <d>a<e><x>b</x></e></d> */
  function Deeper(d: Elem, e: Elem, x: Elem): seq<Page> {
    [Within(d, [Say("a")] + [Within(e, [Within(x, [Say("b")])])])]
  }

  /** <d>a<x>c</x> <e>b</e></d> */
  function Spread(d: Elem, e: Elem, x: Elem): seq<Page> {
    [Within(d, [Say("a")] + ([Within(x, [Say("c")])] + ([Say(" ")] + [Within(e, [Say("b")])])))]
  }

  function SaidA(cfg: Config, d: Elem): seq<Bit> {
    [] + [Here(cfg, [d], "a")]
  }

  lemma AdjoiningBits(cfg: Config, d: Elem, e: Elem)
    requires !GoesOnMeta(cfg, [], d)
    ensures GoesOnMeta(cfg, [d], e) ==>
              BitsOf(cfg, Adjoining(d, e))
              == SaidA(cfg, d) + [Flushed(Names(MetaOf(cfg, [d])), true)] + [Here(cfg, [d, e], "b")]
                 + [Flushed(Names(MetaOf(cfg, [d, e])), false)] + [Flushed([DEFAULT_METANAME], true)]
    ensures !GoesOnMeta(cfg, [d], e) ==>
              BitsOf(cfg, Adjoining(d, e))
              == SaidA(cfg, d) + [Here(cfg, [d, e], "b")] + [Flushed([DEFAULT_METANAME], true)]
  {
    hide Write, GoesOnMeta, MetaOf;
    var w := Writing(SaidA(cfg, d), false, 0);
    assert [d] + [e] == [d, e];
    SayBits(cfg, [d], "a", [Within(e, [Say("b")])], Writing([], true, 0));
    if GoesOnMeta(cfg, [d], e) {
      OneSay(cfg, [d, e], "b", Writing(w.bits + [Flushed(Names(MetaOf(cfg, [d])), true)], true, 0));
      MetaLast(cfg, d, e, [Say("b")], Here(cfg, [d, e], "b"), w);
    } else {
      PlainLast(cfg, [d], e, w);
    }
    Wrapped(cfg, d, [Say("a")] + [Within(e, [Say("b")])]);
  }

  /** An ordinary element at the end whose content says b. */
  lemma PlainLast(cfg: Config, open: seq<Elem>, e: Elem, w: Writing)
    requires !GoesOnMeta(cfg, open, e) && w.ignore == 0
    ensures Write(cfg, open, [Within(e, [Say("b")])], w) == Writing(w.bits + [Here(cfg, open + [e], "b")], true, 0)
  {
    hide Write, GoesOnMeta, MetaOf;
    OneSay(cfg, open + [e], "b", w.(cut := true));
    assert [Within(e, [Say("b")])] + [] == [Within(e, [Say("b")])];
    PlainBits(cfg, open, e, [Say("b")], [], w);
    WriteMore(cfg, open, Within(e, [Say("b")]), [], Writing(w.bits + [Here(cfg, open + [e], "b")], true, 0));
  }

  lemma DeeperBits(cfg: Config, d: Elem, e: Elem, x: Elem)
    requires !GoesOnMeta(cfg, [], d) && GoesOnMeta(cfg, [d], e) && !GoesOnMeta(cfg, [d, e], x)
    ensures BitsOf(cfg, Deeper(d, e, x))
         == SaidA(cfg, d) + [Flushed(Names(MetaOf(cfg, [d])), true)] + [Here(cfg, [d, e] + [x], "b")]
            + [Flushed(Names(MetaOf(cfg, [d, e])), false)] + [Flushed([DEFAULT_METANAME], true)]
  {
    hide Write, GoesOnMeta, MetaOf;
    var w, kids := Writing(SaidA(cfg, d), false, 0), [Within(x, [Say("b")])];
    SayBits(cfg, [d], "a", [Within(e, kids)], Writing([], true, 0));
    PlainLast(cfg, [d, e], x, Writing(w.bits + [Flushed(Names(MetaOf(cfg, [d])), true)], true, 0));
    MetaLast(cfg, d, e, kids, Here(cfg, [d, e] + [x], "b"), w);
    Wrapped(cfg, d, [Say("a")] + [Within(e, kids)]);
  }

  lemma SpreadBits(cfg: Config, d: Elem, e: Elem, x: Elem)
    requires !GoesOnMeta(cfg, [], d) && GoesOnMeta(cfg, [d], e) && !GoesOnMeta(cfg, [d], x)
    ensures BitsOf(cfg, Spread(d, e, x))
         == SaidA(cfg, d) + [Here(cfg, [d] + [x], "c")] + [Here(cfg, [d], " ")]
            + [Flushed(Names(MetaOf(cfg, [d])), true)] + [Here(cfg, [d, e], "b")]
            + [Flushed(Names(MetaOf(cfg, [d, e])), false)] + [Flushed([DEFAULT_METANAME], true)]
  {
    hide Write, GoesOnMeta, MetaOf;
    var last := [Within(e, [Say("b")])];
    var rest := [Say(" ")] + last;
    var a, c := SaidA(cfg, d), Here(cfg, [d] + [x], "c");
    SayBits(cfg, [d], "a", [Within(x, [Say("c")])] + rest, Writing([], true, 0));
    OneSay(cfg, [d] + [x], "c", Writing(a, true, 0));
    PlainBits(cfg, [d], x, [Say("c")], rest, Writing(a, false, 0));
    SayBits(cfg, [d], " ", last, Writing(a + [c], true, 0));
    var w := Writing(a + [c] + [Here(cfg, [d], " ")], false, 0);
    OneSay(cfg, [d, e], "b", Writing(w.bits + [Flushed(Names(MetaOf(cfg, [d])), true)], true, 0));
    MetaLast(cfg, d, e, [Say("b")], Here(cfg, [d, e], "b"), w);
    Wrapped(cfg, d, [Say("a")] + ([Within(x, [Say("c")])] + rest));
  }

  // ---------------------------------------------------------------- their words

  lemma StageFirst(cfg: Config, bits: seq<Bit>, texts: seq<string>, text: string, open: seq<Elem>)
    requires Stage(cfg, bits, texts, "")
    ensures Stage(cfg, bits + [Here(cfg, open, text)], texts, text)
  {
    hide Stage, Here;
    StageSaid(cfg, bits, texts, "", text, open);
    assert "" + "" + text == text;
  }

  lemma StageNext(cfg: Config, bits: seq<Bit>, texts: seq<string>, pending: string, text: string, open: seq<Elem>)
    requires Stage(cfg, bits, texts, pending) && pending != ""
    ensures Stage(cfg, bits + [Here(cfg, open, text)], texts, pending + [BUMPER] + text)
  {
    hide Stage, Here;
    StageSaid(cfg, bits, texts, pending, text, open);
  }

  /** Two flushes of content and an empty one. */
  lemma TwoFlushes(cfg: Config, first: seq<Bit>, a: string, open: seq<Elem>, n: seq<string>, m: seq<string>,
                   l: seq<string>)
    requires Stage(cfg, first, [], a)
    ensures Stage(cfg, first + [Flushed(n, true)] + [Here(cfg, open, "b")] + [Flushed(m, false)] + [Flushed(l, true)],
                  [a, "b", ""], "")
  {
    hide Stage, Here;
    var bits, b := first + [Flushed(n, true)], Here(cfg, open, "b");
    StageFlushed(cfg, first, [], a, n, true);
    assert [] + [a] == [a];
    StageFirst(cfg, bits, [a], "b", open);
    StageFlushed(cfg, bits + [b], [a], "b", m, false);
    assert [a] + ["b"] == [a, "b"];
    StageFlushed(cfg, bits + [b] + [Flushed(m, false)], [a, "b"], "", l, true);
    assert [a, "b"] + [""] == [a, "b", ""];
  }

  function Spotted(cfg: Config, lens: Lengths, pages: seq<Page>): seq<(string, nat)>
    requires lens.max >= 2
  {
    Spots(WordsOf(lens, PartsOf(cfg, BitsOf(cfg, pages))).items)
  }

  lemma NoSpots(lens: Lengths)
    requires lens.max >= 2
    ensures Spots(WordsOf(lens, []).items) == [] && WordsOf(lens, []).pos == 0
    ensures Scan(lens, "", false) == [] && SpotsOf([], 0) == []
  {
  }

  lemma OneWord(lens: Lengths, v: string)
    requires lens.max >= 2 && lens.min == 1 && Proper(lens, v)
    ensures Scan(lens, v, false) == [Word(v)] && Scan(lens, v, true) == [Word(v)]
  {
    hide Scan, Proper;
    ScanWord(lens, v);
    WordBeforeMore(lens, v);
  }

  lemma ProperLetters(lens: Lengths)
    requires lens.max >= 2 && lens.min == 1
    ensures Proper(lens, "a") && Proper(lens, "b") && Proper(lens, "c")
  {
    assert forall c :: c in {'a', 'b', 'c'} ==> IsAlnum(c) && IsWordChar(c) && ToLower(c) == c;
  }

  /** Texts whose first has the words `marks`. */
  lemma ThreeTexts(cfg: Config, lens: Lengths, bits: seq<Bit>, a: string, marks: seq<Mark>)
    requires lens.max >= 2 && lens.min == 1 && Stage(cfg, bits, [a, "b", ""], "") && Scan(lens, a, false) == marks
    ensures Spots(WordsOf(lens, PartsOf(cfg, bits)).items) == SpotsOf(marks, 0) + [("b", |marks| + 1)]
  {
    hide Scan, WordsOf, Spots, PartsOf, Pend, SpotsOf, Proper;
    var parts := PartsOf(cfg, bits);
    StageTexts(cfg, bits, a);
    hide Stage;
    NoSpots(lens);
    ProperLetters(lens);
    OneWord(lens, "b");
    MoreSpots(lens, parts[..1], marks);
    MoreSpots(lens, parts[..2], [Word("b")]);
    MoreSpots(lens, parts, []);
    OneSpotOf("b", |marks|);
    ThreeSpots(SpotsOf(marks, 0), [("b", |marks| + 1)]);
  }

  lemma StageTexts(cfg: Config, bits: seq<Bit>, a: string)
    requires Stage(cfg, bits, [a, "b", ""], "")
    ensures var parts := PartsOf(cfg, bits);
            && |parts| == 3 && parts[0].Flush? && parts[1].Flush? && parts[2].Flush?
            && parts[0].text == a && parts[1].text == "b" && parts[2].text == ""
            && parts[..1][..0] == [] && parts[..2][..1] == parts[..1] && parts[..|parts| - 1] == parts[..2]
  {
    hide PartsOf, Pend;
  }

  lemma ThreeSpots(a: seq<(string, nat)>, b: seq<(string, nat)>)
    ensures [] + a + b + [] == a + b
  {
  }

  lemma OneSpotOf(v: string, pos: nat)
    ensures SpotsOf([Word(v)], pos) == [(v, pos + 1)] && SpotsOf([], pos + 1) == []
  {
    assert [Word(v)][1..] == [];
  }

  lemma OneText(cfg: Config, lens: Lengths, bits: seq<Bit>, a: string, marks: seq<Mark>)
    requires lens.max >= 2 && Stage(cfg, bits, [a], "") && Scan(lens, a, false) == marks
    ensures Spots(WordsOf(lens, PartsOf(cfg, bits)).items) == SpotsOf(marks, 0)
  {
    hide Scan, WordsOf, Spots, PartsOf, Pend;
    var parts := PartsOf(cfg, bits);
    assert parts[..|parts| - 1] == [];
    NoSpots(lens);
    MoreSpots(lens, parts, marks);
    assert [] + SpotsOf(marks, 0) == SpotsOf(marks, 0);
  }

  lemma SpreadMarks(lens: Lengths)
    requires lens.max >= 2 && lens.min == 1
    ensures Scan(lens, "a" + [BUMPER] + "c" + [BUMPER] + " ", false) == [Word("a"), Bump, Word("c"), Bump]
  {
    hide Scan, Proper;
    ProperLetters(lens);
    OneWord(lens, "a");
    OneWord(lens, "c");
    JustBlank(lens);
    SpreadText();
    ScanAtBumper(lens, "a", "c" + [BUMPER] + " ", false);
    ScanAtBumper(lens, "c", " ", false);
    assert [Word("a")] + [Bump] + ([Word("c")] + [Bump] + []) == [Word("a"), Bump, Word("c"), Bump];
  }

  lemma SpreadText()
    ensures "a" + [BUMPER] + "c" + [BUMPER] + " " == "a" + [BUMPER] + ("c" + [BUMPER] + " ")
  {
  }

  lemma JustBlank(lens: Lengths)
    requires lens.max >= 2
    ensures Scan(lens, " ", false) == []
  {
    assert " "[1..] == "" && !IsWordChar(' ');
  }

  lemma SpreadSpots()
    ensures SpotsOf([Word("a"), Bump, Word("c"), Bump], 0) == [("a", 1), ("c", 3)]
    ensures SpotsOf([Word("a"), Bump, Word("b")], 0) == [("a", 1), ("b", 3)]
    ensures SpotsOf([Word("a")], 0) == [("a", 1)]
  {
    var x, y, z := [Word("a"), Bump, Word("c"), Bump], [Word("c"), Bump], [Word("a"), Bump, Word("b")];
    assert x[1..][1..] == y && y[1..][1..] == [] && z[1..][1..] == [Word("b")] && [Word("b")][1..] == [];
    assert [Word("a")][1..] == [] && y[1..] == [Bump] && z[1..] == [Bump, Word("b")] && x[1..][0] == Bump;
    assert SpotsOf([Bump], 3) == [] + SpotsOf([], 4);
    assert SpotsOf(y, 2) == [("c", 3)] + SpotsOf([Bump], 3);
    assert SpotsOf([Word("b")], 2) == [("b", 3)] + SpotsOf([], 3);
    assert SpotsOf(x[1..], 1) == [] + SpotsOf(y, 2);
    assert SpotsOf(z[1..], 1) == [] + SpotsOf([Word("b")], 2);
  }

  /** <d>a<e>b</e></d>: a at 1, and b at 2 if `e` is a metaname, else at 3. */
  lemma AdjoiningWords(cfg: Config, lens: Lengths, d: Elem, e: Elem)
    requires lens.max >= 2 && lens.min == 1 && !GoesOnMeta(cfg, [], d)
    ensures Spotted(cfg, lens, Adjoining(d, e))
         == if GoesOnMeta(cfg, [d], e) then [("a", 1), ("b", 2)] else [("a", 1), ("b", 3)]
  {
    hide Scan, Stage, Here, SaidA, BitsOf, Adjoining, GoesOnMeta, MetaOf, Proper, WordsOf, PartsOf, Spots, SpotsOf;
    AdjoiningBits(cfg, d, e);
    StageA(cfg, d);
    SpreadSpots();
    ProperLetters(lens);
    OneWord(lens, "a");
    if GoesOnMeta(cfg, [d], e) {
      TwoFlushes(cfg, SaidA(cfg, d), "a", [d, e], Names(MetaOf(cfg, [d])), Names(MetaOf(cfg, [d, e])),
                 [DEFAULT_METANAME]);
      ThreeTexts(cfg, lens, BitsOf(cfg, Adjoining(d, e)), "a", [Word("a")]);
    } else {
      TwoWords(lens);
      StageNext(cfg, SaidA(cfg, d), [], "a", "b", [d, e]);
      StageFlushed(cfg, SaidA(cfg, d) + [Here(cfg, [d, e], "b")], [], "a" + [BUMPER] + "b", [DEFAULT_METANAME], true);
      assert [] + ["a" + [BUMPER] + "b"] == ["a" + [BUMPER] + "b"];
      OneText(cfg, lens, BitsOf(cfg, Adjoining(d, e)), "a" + [BUMPER] + "b", [Word("a"), Bump, Word("b")]);
    }
  }

  lemma StageA(cfg: Config, d: Elem)
    ensures Stage(cfg, SaidA(cfg, d), [], "a")
  {
    hide Stage, Here;
    StageStart(cfg);
    StageFirst(cfg, [], [], "a", [d]);
  }

  /** <d>a<e><x>b</x></e></d>, of which only `e` is a metaname: the tags of `x` do nothing. */
  lemma DeeperWords(cfg: Config, lens: Lengths, d: Elem, e: Elem, x: Elem)
    requires lens.max >= 2 && lens.min == 1
    requires !GoesOnMeta(cfg, [], d) && GoesOnMeta(cfg, [d], e) && !GoesOnMeta(cfg, [d, e], x)
    ensures Spotted(cfg, lens, Deeper(d, e, x)) == [("a", 1), ("b", 2)]
  {
    hide Scan, Stage, Here, SaidA, BitsOf, Deeper, GoesOnMeta, MetaOf, Proper, WordsOf, PartsOf, Spots, SpotsOf;
    DeeperBits(cfg, d, e, x);
    StageA(cfg, d);
    SpreadSpots();
    ProperLetters(lens);
    OneWord(lens, "a");
    TwoFlushes(cfg, SaidA(cfg, d), "a", [d, e] + [x], Names(MetaOf(cfg, [d])), Names(MetaOf(cfg, [d, e])),
               [DEFAULT_METANAME]);
    ThreeTexts(cfg, lens, BitsOf(cfg, Deeper(d, e, x)), "a", [Word("a")]);
  }

  /** <d>a<x>c</x> <e>b</e></d>, of which only `e` is a metaname: its tag flushes, but the blank before
      it has taken a \3 for the tag of `x`, and c and b stay apart. */
  lemma SpreadWords(cfg: Config, lens: Lengths, d: Elem, e: Elem, x: Elem)
    requires lens.max >= 2 && lens.min == 1
    requires !GoesOnMeta(cfg, [], d) && GoesOnMeta(cfg, [d], e) && !GoesOnMeta(cfg, [d], x)
    ensures Spotted(cfg, lens, Spread(d, e, x)) == [("a", 1), ("c", 3), ("b", 5)]
  {
    hide Scan, Stage, Here, SaidA, BitsOf, Spread, GoesOnMeta, MetaOf, Proper, WordsOf, PartsOf, Spots, SpotsOf;
    SpreadBits(cfg, d, e, x);
    StageA(cfg, d);
    StageNext(cfg, SaidA(cfg, d), [], "a", "c", [d] + [x]);
    StageNext(cfg, SaidA(cfg, d) + [Here(cfg, [d] + [x], "c")], [], "a" + [BUMPER] + "c", " ", [d]);
    SpreadMarks(lens);
    SpreadSpots();
    var text := "a" + [BUMPER] + "c" + [BUMPER] + " ";
    TwoFlushes(cfg, SaidA(cfg, d) + [Here(cfg, [d] + [x], "c")] + [Here(cfg, [d], " ")], text, [d, e],
               Names(MetaOf(cfg, [d])), Names(MetaOf(cfg, [d, e])), [DEFAULT_METANAME]);
    ThreeTexts(cfg, lens, BitsOf(cfg, Spread(d, e, x)), text, [Word("a"), Bump, Word("c"), Bump]);
  }
}
