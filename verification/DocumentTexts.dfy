/** What a document leaves in the buffers, read off its tree: which texts are flushed together, where a
    \3 is put between them, and what each named buffer holds, for every configuration. */
module DocumentTexts {
  import opened CString
  import opened NamedBuffers
  import opened Seqs
  import opened TagStacks
  import opened Directives
  import opened Sax
  import opened StackDiscipline
  import opened Attribution
  import opened Harvest
  import opened IncludedBuffers

  /** A document as a list: its indexed texts, each with whether a tag or an ordinary comment stands
      between it and the one before, and with the metanames it lies in; the flushes, with the names
      they go under and whether the metaname stack still stands; and the documents included. */
  datatype Bit =
    | Said(text: string, cut: bool, inside: seq<string>)
    | Flushed(names: seq<string>, whole: bool)
    | Included(bits: seq<Bit>)

  datatype Writing = Writing(bits: seq<Bit>, cut: bool, ignore: nat)

  function AtTag(cfg: Config, e: Elem, w: Writing): Writing {
    w.(cut := true, ignore := if Defined(cfg, e) then w.ignore else 0)
  }

  function Flushing(w: Writing, names: seq<string>, whole: bool): Writing {
    w.(bits := w.bits + [Flushed(names, whole)])
  }

  function Opened(cfg: Config, open: seq<Elem>, e: Elem, w: Writing): Writing {
    if GoesOnMeta(cfg, open, e) then Flushing(AtTag(cfg, e, w), Names(MetaOf(cfg, open)), true) else AtTag(cfg, e, w)
  }

  function Ended(cfg: Config, open: seq<Elem>, e: Elem, w: Writing): Writing {
    if GoesOnMeta(cfg, open, e) then Flushing(AtTag(cfg, e, w), Names(MetaOf(cfg, open + [e])), false)
    else AtTag(cfg, e, w)
  }

  function Write(cfg: Config, open: seq<Elem>, pages: seq<Page>, w: Writing): Writing
    decreases pages, 0
  {
    if pages == [] then w else Write(cfg, open, pages[1..], WritePage(cfg, open, pages[0], w))
  }

  function WritePage(cfg: Config, open: seq<Elem>, p: Page, w: Writing): Writing
    decreases p, 0
  {
    match p
    case Say(ch) =>
      if w.ignore > 0 then w
      else w.(bits := w.bits + [Said(ch, w.cut, Names(MetaOf(cfg, open)))], cut := false)
    case Note(cmt) => WriteNote(DirectiveOf(cmt), w)
    case Within(e, kids) => WriteElement(cfg, open, e, kids, w)
    case XInclude(e, inner, kids) =>
      var w1 := Flushing(w, Names(MetaOf(cfg, open)), true);
      WriteElement(cfg, open, e, kids, w1.(bits := w1.bits + [Included(BitsOf(cfg, inner))]))
  }

  function WriteElement(cfg: Config, open: seq<Elem>, e: Elem, kids: seq<Page>, w: Writing): Writing
    decreases kids, 1
  {
    Ended(cfg, open, e, Write(cfg, open + [e], kids, Opened(cfg, open, e, w)))
  }

  function WriteNote(directive: Directive, w: Writing): Writing {
    match directive
    case Blank => w
    case Command => w
    case NoIndex => w.(ignore := w.ignore + 1)
    case Index => w.(ignore := if w.ignore > 0 then w.ignore - 1 else 0)
    case Plain => w.(cut := true)
  }

  /** A whole document: what is left at its end goes to the default metaname. */
  function BitsOf(cfg: Config, pages: seq<Page>): seq<Bit>
    decreases pages, 1
  {
    Write(cfg, [], pages, Writing([], true, 0)).bits + [Flushed([DEFAULT_METANAME], true)]
  }

  // ---------------------------------------------------------------- what such a list comes to

  /** The texts since the last flush: a \3 stands before each that comes after a tag or an ordinary
      comment, unless there is nothing yet to keep it apart from. */
  function Pend(bits: seq<Bit>): string
    decreases |bits|, 0
  {
    if bits == [] then ""
    else
      match bits[|bits| - 1]
      case Said(text, _, _) => Pend(bits[..|bits| - 1]) + (if Gap(bits, |bits| - 1) then [BUMPER] else "") + text
      case Flushed(_, _) => ""
      case Included(_) => ""
  }

  predicate Gap(bits: seq<Bit>, c: nat)
    requires c < |bits|
    decreases c, 1
  {
    bits[c].Said? && bits[c].cut && Pend(bits[..c]) != ""
  }

  /** The buffers a flush adds to, in order. */
  function Filing(cfg: Config, names: seq<string>, whole: bool): seq<string> {
    if names != [] && Innermost(names) in cfg.metanames
    then Targets(cfg, Harvest.Standing(names, whole), Innermost(names))
    else []
  }

  function FlushOf(cfg: Config, names: seq<string>, whole: bool, text: string): Flush {
    Flush(names, whole, if names == [] then "" else Join(names, DOM_CHAR), Filing(cfg, names, whole), text)
  }

  /** The flushes of the document itself. */
  function FlushList(cfg: Config, bits: seq<Bit>): seq<Flush> {
    if bits == [] then []
    else
      var k := |bits| - 1;
      match bits[k]
      case Flushed(names, whole) => FlushList(cfg, bits[..k]) + [FlushOf(cfg, names, whole, Pend(bits[..k]))]
      case Said(_, _, _) => FlushList(cfg, bits[..k])
      case Included(_) => FlushList(cfg, bits[..k])
  }

  /** The named buffers, those of included documents merged in where these stand. */
  function Filed(cfg: Config, bits: seq<Bit>): Buffers {
    if bits == [] then map k | k in cfg.metanames :: ""
    else
      var k := |bits| - 1;
      match bits[k]
      case Flushed(names, whole) => AddAll(Filed(cfg, bits[..k]), Filing(cfg, names, whole), Pend(bits[..k]))
      case Said(_, _, _) => Filed(cfg, bits[..k])
      case Included(inner) => Merged(Filed(cfg, bits[..k]), Filed(cfg, inner))
  }

  // ---------------------------------------------------------------- the machine writes just that

  predicate Follows(cfg: Config, s: State, open: seq<Elem>, w: Writing) {
    && Live(cfg, s) && At(cfg, s, open) && Written(cfg, s, w)
  }

  predicate Written(cfg: Config, s: State, w: Writing) {
    && s.metaBuf == Pend(w.bits) && s.bump == w.cut && s.ignore == w.ignore
    && s.flushes == FlushList(cfg, w.bits) && s.metanames == Filed(cfg, w.bits)
  }

  lemma BitsSnoc(cfg: Config, bits: seq<Bit>, b: Bit)
    ensures (bits + [b])[..|bits|] == bits
    ensures b.Said? ==>
              && Pend(bits + [b]) == Pend(bits) + (if b.cut && Pend(bits) != "" then [BUMPER] else "") + b.text
              && FlushList(cfg, bits + [b]) == FlushList(cfg, bits) && Filed(cfg, bits + [b]) == Filed(cfg, bits)
    ensures b.Flushed? ==>
              && Pend(bits + [b]) == ""
              && FlushList(cfg, bits + [b]) == FlushList(cfg, bits) + [FlushOf(cfg, b.names, b.whole, Pend(bits))]
              && Filed(cfg, bits + [b]) == AddAll(Filed(cfg, bits), Filing(cfg, b.names, b.whole), Pend(bits))
    ensures b.Included? ==>
              && Pend(bits + [b]) == "" && FlushList(cfg, bits + [b]) == FlushList(cfg, bits)
              && Filed(cfg, bits + [b]) == Merged(Filed(cfg, bits), Filed(cfg, b.bits))
  {
    hide AddAll, Filing, Merged, FlushOf;
    assert (bits + [b])[..|bits|] == bits;
  }

  lemma TagWritten(cfg: Config, s: State, e: Elem, w: Writing)
    requires Written(cfg, s, w)
    ensures Written(cfg, Baked(cfg, s, e), AtTag(cfg, e, w))
  {
    hide Pend, FlushList, Filed, Defined;
  }

  lemma SameWritten(cfg: Config, s: State, s': State, w: Writing)
    requires Written(cfg, s, w) && s'.metaBuf == s.metaBuf && s'.bump == s.bump && s'.ignore == s.ignore
    requires s'.flushes == s.flushes && s'.metanames == s.metanames
    ensures Written(cfg, s', w)
  {
    hide Pend, FlushList, Filed;
  }

  /** A flush under `names`, of which the stack holds all or all but the last. */
  lemma FlushWritten(cfg: Config, s: State, names: seq<string>, whole: bool, context: string, w: Writing)
    requires Written(cfg, s, w) && names != [] && Innermost(names) in cfg.metanames
    requires Names(s.meta) == Harvest.Standing(names, whole) && context == Join(names, DOM_CHAR)
    ensures Written(cfg, FlushBuffer(cfg, s, Innermost(names), context, names), Flushing(w, names, whole))
  {
    hide Pend, FlushList, Filed, AddAll, Targets, Join;
    BitsSnoc(cfg, w.bits, Flushed(names, whole));
  }

  lemma OpenFollows(cfg: Config, s: State, open: seq<Elem>, e: Elem, w: Writing)
    requires Follows(cfg, s, open, w) && Known(cfg, open, e)
    ensures Follows(cfg, Step(cfg, s, Open(e)), open + [e], Opened(cfg, open, e, w))
  {
    hide Bake, Join, Targets, AddAll, DomOf, PropOf, MetaOf, IsProp, IsMeta, StackName, Written, AtTag, Flushing;
    var names := Names(MetaOf(cfg, open));
    OpenPushes(cfg, s, open, e);
    HeadName(cfg, s, open);
    HeadContext(cfg, open);
    var b, s', w' := Baked(cfg, s, e), Step(cfg, s, Open(e)), AtTag(cfg, e, w);
    TagWritten(cfg, s, e, w);
    if GoesOnMeta(cfg, open, e) {
      FlushWritten(cfg, b, names, true, Top(s.meta).context, w');
      SameWritten(cfg, FlushBuffer(cfg, b, Innermost(names), Top(s.meta).context, names), s',
                  Flushing(w', names, true));
    } else {
      SameWritten(cfg, b, s', w');
    }
  }

  lemma CloseFollows(cfg: Config, s: State, open: seq<Elem>, e: Elem, w: Writing)
    requires Follows(cfg, s, open + [e], w) && Paired(cfg, open, e)
    ensures Follows(cfg, Step(cfg, s, Close(e)), open, Ended(cfg, open, e, w))
  {
    hide Bake, Join, Targets, AddAll, DomOf, PropOf, IsProp, IsMeta, StackName, Written, AtTag, Flushing;
    var names := Names(MetaOf(cfg, open + [e]));
    Outer(open, e);
    CloseRestores(cfg, s, open, e);
    HeadName(cfg, s, open + [e]);
    HeadContext(cfg, open + [e]);
    assert GoesOnMeta(cfg, open, e) <==> Top(s.meta).raw == e.raw;
    hide MetaOf, Paired, GoesOnMeta;
    var b, s', w' := Baked(cfg, s, e), Step(cfg, s, Close(e)), AtTag(cfg, e, w);
    TagWritten(cfg, s, e, w);
    if GoesOnMeta(cfg, open, e) {
      var popped := b.(meta := s.meta[..|s.meta| - 1]);
      SameWritten(cfg, b, popped, w');
      assert Names(popped.meta) == Harvest.Standing(names, false);
      FlushWritten(cfg, popped, names, false, Top(s.meta).context, w');
      SameWritten(cfg, FlushBuffer(cfg, popped, Innermost(names), Top(s.meta).context, names), s',
                  Flushing(w', names, false));
    } else {
      SameWritten(cfg, b, s', w');
    }
  }

  lemma TakenFollows(cfg: Config, s: State, open: seq<Elem>, w: Writing, inner: seq<Bit>)
    requires Follows(cfg, s, open, w)
    ensures var w1 := Flushing(w, Names(MetaOf(cfg, open)), true);
            Follows(cfg, Taken(cfg, s, Filed(cfg, inner)), open, w1.(bits := w1.bits + [Included(inner)]))
  {
    hide Targets, AddAll, DomOf, PropOf, MetaOf, Join, Merged;
    var names := Names(MetaOf(cfg, open));
    TakenAt(cfg, s, open, Filed(cfg, inner));
    HeadName(cfg, s, open);
    HeadContext(cfg, open);
    hide Live, At;
    FlushWritten(cfg, s, names, true, Top(s.meta).context, w);
    hide FlushList, Filed, Pend;
    BitsSnoc(cfg, Flushing(w, names, true).bits, Included(inner));
    BitsSnoc(cfg, w.bits, Flushed(names, true));
  }

  lemma SayFollows(cfg: Config, s: State, open: seq<Elem>, w: Writing, ch: string)
    requires Follows(cfg, s, open, w)
    ensures Follows(cfg, Step(cfg, s, Text(ch)), open, WritePage(cfg, open, Say(ch), w))
  {
    hide MetaOf, DomOf, PropOf, Pend, FlushList, Filed;
    StillAt(cfg, s, open, Text(ch));
    BitsSnoc(cfg, w.bits, Said(ch, w.cut, Names(MetaOf(cfg, open))));
  }

  lemma NoteFollows(cfg: Config, s: State, open: seq<Elem>, w: Writing, cmt: string)
    requires Follows(cfg, s, open, w)
    ensures Follows(cfg, Step(cfg, s, Comment(cmt)), open, WriteNote(DirectiveOf(cmt), w))
  {
    hide MetaOf, DomOf, PropOf, Pend, FlushList, Filed, DirectiveOf;
    StillAt(cfg, s, open, Comment(cmt));
  }

  lemma {:induction false} PagesFollow(cfg: Config, s: State, open: seq<Elem>, pages: seq<Page>, w: Writing)
    requires DEFAULT_METANAME in cfg.metanames && Follows(cfg, s, open, w) && Legible(cfg, open, pages)
    ensures Follows(cfg, RunPages(cfg, s, pages), open, Write(cfg, open, pages, w))
    decreases pages, 0
  {
    hide Follows, LegiblePage, RunPage, WritePage;
    if pages != [] {
      PageFollows(cfg, s, open, pages[0], w);
      PagesFollow(cfg, RunPage(cfg, s, pages[0]), open, pages[1..], WritePage(cfg, open, pages[0], w));
    }
  }

  lemma {:induction false} PageFollows(cfg: Config, s: State, open: seq<Elem>, p: Page, w: Writing)
    requires DEFAULT_METANAME in cfg.metanames && Follows(cfg, s, open, w) && LegiblePage(cfg, open, p)
    ensures Follows(cfg, RunPage(cfg, s, p), open, WritePage(cfg, open, p, w))
    decreases p, 0
  {
    hide Follows, Legible, RunPages, Step, Taken, Known, Paired, MetaOf, Parsed, BitsOf, DirectiveOf, Flushing, Filed;
    match p
    case Say(ch) => SayFollows(cfg, s, open, w, ch);
    case Note(cmt) => NoteFollows(cfg, s, open, w, cmt);
    case Within(e, kids) => ElementFollows(cfg, s, open, e, kids, w);
    case XInclude(e, inner, kids) =>
      DocumentWritten(cfg, inner);
      TakenFollows(cfg, s, open, w, BitsOf(cfg, inner));
      var w1 := Flushing(w, Names(MetaOf(cfg, open)), true);
      ElementFollows(cfg, Taken(cfg, s, Parsed(cfg, inner).metanames), open, e, kids,
                     w1.(bits := w1.bits + [Included(BitsOf(cfg, inner))]));
  }

  lemma {:induction false} ElementFollows(cfg: Config, s: State, open: seq<Elem>, e: Elem, kids: seq<Page>, w: Writing)
    requires DEFAULT_METANAME in cfg.metanames && Follows(cfg, s, open, w)
    requires Known(cfg, open, e) && Paired(cfg, open, e) && Legible(cfg, open + [e], kids)
    ensures Follows(cfg, Step(cfg, RunPages(cfg, Step(cfg, s, Open(e)), kids), Close(e)), open,
                    WriteElement(cfg, open, e, kids, w))
    decreases kids, 1
  {
    hide Follows, Legible, RunPages, Write, Step, Known, Paired, Opened, Ended;
    OpenFollows(cfg, s, open, e, w);
    PagesFollow(cfg, Step(cfg, s, Open(e)), open + [e], kids, Opened(cfg, open, e, w));
    CloseFollows(cfg, RunPages(cfg, Step(cfg, s, Open(e)), kids), open, e,
                 Write(cfg, open + [e], kids, Opened(cfg, open, e, w)));
  }

  lemma StartFollows(cfg: Config)
    requires DEFAULT_METANAME in cfg.metanames
    ensures Follows(cfg, Start(cfg), [], Writing([], true, 0)) && Names(MetaOf(cfg, [])) == [DEFAULT_METANAME]
  {
  }

  lemma EndWritten(cfg: Config, s: State, w: Writing)
    requires DEFAULT_METANAME in cfg.metanames && Follows(cfg, s, [], w) && Names(MetaOf(cfg, [])) == [DEFAULT_METANAME]
    ensures Written(cfg, EndDocument(cfg, s), Flushing(w, [DEFAULT_METANAME], true))
  {
    hide MetaOf, DomOf, PropOf, Written, Flushing, Targets;
    FlushWritten(cfg, s, [DEFAULT_METANAME], true, DEFAULT_METANAME, w);
  }

  /** For every document, included ones and all, and every configuration: the machine flushes and files
      exactly what the list read off the tree says. */
  lemma {:induction false} DocumentWritten(cfg: Config, pages: seq<Page>)
    requires DEFAULT_METANAME in cfg.metanames && Legible(cfg, [], pages)
    ensures Parsed(cfg, pages).flushes == FlushList(cfg, BitsOf(cfg, pages))
    ensures Parsed(cfg, pages).metanames == Filed(cfg, BitsOf(cfg, pages))
    decreases pages, 1
  {
    StartFollows(cfg);
    hide Follows, Legible, RunPages, Write, EndDocument, MetaOf, FlushList, Filed, Start, Pend;
    PagesFollow(cfg, Start(cfg), [], pages, Writing([], true, 0));
    EndWritten(cfg, RunPages(cfg, Start(cfg), pages), Write(cfg, [], pages, Writing([], true, 0)));
  }

  // ---------------------------------------------------------------- every named buffer

  /** Texts as section 2.2 of XML 1.0 allows them. */
  predicate XmlBits(bits: seq<Bit>) {
    forall c :: 0 <= c < |bits| ==>
      match bits[c]
      case Said(text, _, _) => NoNul(text) && NoBumper(text)
      case Flushed(_, _) => true
      case Included(inner) => XmlBits(inner)
  }

  /** Nothing is pending where an included document stands. */
  predicate Settled(bits: seq<Bit>) {
    forall c :: 0 <= c < |bits| && bits[c].Included? ==> Pend(bits[..c]) == ""
  }

  lemma SettledSnoc(bits: seq<Bit>)
    requires bits != [] && Settled(bits)
    ensures Settled(bits[..|bits| - 1]) && (bits[|bits| - 1].Included? ==> Pend(bits[..|bits| - 1]) == "")
  {
    hide Pend;
    var front := bits[..|bits| - 1];
    forall c | 0 <= c < |front| && front[c].Included? ensures Pend(front[..c]) == "" {
      assert front[..c] == bits[..c];
    }
  }

  /** There is a buffer of that name: the configuration has the name, or a text that is not blank was
      filed under it. */
  ghost predicate Has(cfg: Config, bits: seq<Bit>, m: string) {
    m in cfg.metanames || exists c :: 0 <= c < |bits| && Founds(cfg, bits, c, m)
  }

  predicate Founds(cfg: Config, bits: seq<Bit>, c: nat, m: string)
    requires c < |bits|
  {
    bits[c].Flushed? && m in Filing(cfg, bits[c].names, bits[c].whole) && !AllSpace(Pend(bits[..c]))
  }

  /** The pieces of buffer `m`: each flush adds its own once for every time it files under `m`, and an
      included document its own if there is a buffer of that name by then. */
  ghost function PiecesIn(cfg: Config, bits: seq<Bit>, m: string): seq<string> {
    if bits == [] then []
    else
      var k := |bits| - 1;
      PiecesIn(cfg, bits[..k], m)
      + match bits[k]
        case Said(_, _, _) => []
        case Flushed(names, whole) => Repeat(multiset(Filing(cfg, names, whole))[m], Pieces(Pend(bits[..k])))
        case Included(inner) => if Has(cfg, bits[..k], m) then PiecesIn(cfg, inner, m) else []
  }

  lemma XmlSnoc(bits: seq<Bit>)
    requires bits != [] && XmlBits(bits)
    ensures XmlBits(bits[..|bits| - 1])
    ensures bits[|bits| - 1].Said? ==> NoNul(bits[|bits| - 1].text) && NoBumper(bits[|bits| - 1].text)
    ensures bits[|bits| - 1].Included? ==> XmlBits(bits[|bits| - 1].bits)
  {
    hide NoNul, NoBumper;
  }

  lemma {:induction false} PendNoNul(bits: seq<Bit>)
    requires XmlBits(bits)
    ensures NoNul(Pend(bits))
    decreases |bits|
  {
    hide XmlBits;
    if bits != [] {
      XmlSnoc(bits);
      PendNoNul(bits[..|bits| - 1]);
    }
  }

  lemma HasSnoc(cfg: Config, bits: seq<Bit>, m: string)
    requires bits != []
    ensures var k := |bits| - 1; Has(cfg, bits, m) <==> Has(cfg, bits[..k], m) || Founds(cfg, bits, k, m)
  {
    hide Filing, AllSpace, Pend;
    var k := |bits| - 1;
    forall c | 0 <= c < k ensures Founds(cfg, bits, c, m) <==> Founds(cfg, bits[..k], c, m) {
      assert bits[..k][..c] == bits[..c];
    }
    if Has(cfg, bits[..k], m) && m !in cfg.metanames {
      var c :| 0 <= c < |bits[..k]| && Founds(cfg, bits[..k], c, m);
      assert Founds(cfg, bits, c, m);
    }
  }

  lemma {:induction false} AddAllKeys(nb: Buffers, names: seq<string>, text: string, m: string)
    requires NoNul(text)
    ensures m in AddAll(nb, names, text) <==> m in nb || (m in names && !AllSpace(text))
    ensures NoNul(Content(nb, m)) ==> NoNul(Content(AddAll(nb, names, text), m))
  {
    hide AllSpace;
    if names != [] {
      var k := |names| - 1;
      AddAllKeys(nb, names[..k], text, m);
      assert m in names <==> m in names[..k] || m == names[k];
    }
  }

  lemma MergedKeys(nb: Buffers, other: Buffers, m: string)
    ensures m in Merged(nb, other) <==> m in nb
    ensures NoNul(Content(nb, m)) ==> NoNul(Content(Merged(nb, other), m))
  {
  }

  /** Buffer by buffer, for every configuration and every name. */
  lemma {:induction false} FiledPieces(cfg: Config, bits: seq<Bit>, m: string)
    requires XmlBits(bits)
    ensures m in Filed(cfg, bits) <==> Has(cfg, bits, m)
    ensures NoNul(Content(Filed(cfg, bits), m))
    ensures Pieces(Content(Filed(cfg, bits), m)) == PiecesIn(cfg, bits, m)
    decreases bits
  {
    hide XmlBits, Filing, Pieces, Pend, AddAll, Merged, Repeat, NoNul, Has, Content, AllSpace;
    if bits == [] {
      NothingFiled(cfg, m);
    } else {
      var k := |bits| - 1;
      var front := bits[..k];
      XmlSnoc(bits);
      FiledPieces(cfg, front, m);
      HasSnoc(cfg, bits, m);
      PendNoNul(front);
      match bits[k]
      case Said(_, _, _) =>
      case Flushed(names, whole) =>
        AddAllPieces(Filed(cfg, front), Filing(cfg, names, whole), Pend(front), m);
        AddAllKeys(Filed(cfg, front), Filing(cfg, names, whole), Pend(front), m);
      case Included(inner) =>
        FiledPieces(cfg, inner, m);
        MergedPieces(Filed(cfg, front), Filed(cfg, inner), m);
        MergedKeys(Filed(cfg, front), Filed(cfg, inner), m);
    }
  }

  lemma NothingFiled(cfg: Config, m: string)
    ensures m in Filed(cfg, []) <==> Has(cfg, [], m)
    ensures Content(Filed(cfg, []), m) == "" && NoNul("") && Pieces("") == [] == PiecesIn(cfg, [], m)
  {
    EmptyBuffer();
  }

  // ---------------------------------------------------------------- legible documents give such lists

  lemma XmlMore(bits: seq<Bit>, b: Bit)
    requires XmlBits(bits) && Settled(bits) && (b.Said? ==> NoNul(b.text) && NoBumper(b.text))
    requires b.Included? ==> XmlBits(b.bits) && Pend(bits) == ""
    ensures XmlBits(bits + [b]) && Settled(bits + [b])
  {
    hide NoNul, NoBumper, Pend;
    var more := bits + [b];
    assert more[..|bits|] == bits;
    forall c | 0 <= c < |more| && more[c].Included? ensures Pend(more[..c]) == "" {
      if c < |bits| {
        assert more[..c] == bits[..c];
      }
    }
  }

  lemma {:induction false} WriteXml(cfg: Config, open: seq<Elem>, pages: seq<Page>, w: Writing)
    requires Legible(cfg, open, pages) && XmlBits(w.bits) && Settled(w.bits)
    ensures XmlBits(Write(cfg, open, pages, w).bits) && Settled(Write(cfg, open, pages, w).bits)
    decreases pages, 0
  {
    hide LegiblePage, XmlBits, Settled, WritePage;
    if pages != [] {
      WritePageXml(cfg, open, pages[0], w);
      WriteXml(cfg, open, pages[1..], WritePage(cfg, open, pages[0], w));
    }
  }

  lemma {:induction false} WritePageXml(cfg: Config, open: seq<Elem>, p: Page, w: Writing)
    requires LegiblePage(cfg, open, p) && XmlBits(w.bits) && Settled(w.bits)
    ensures XmlBits(WritePage(cfg, open, p, w).bits) && Settled(WritePage(cfg, open, p, w).bits)
    decreases p, 0
  {
    hide Legible, XmlBits, Settled, WriteElement, Pend, Known, Paired, NoNul, NoBumper, DirectiveOf, MetaOf, BitsOf;
    match p
    case Say(ch) => XmlMore(w.bits, Said(ch, w.cut, Names(MetaOf(cfg, open))));
    case Note(_) =>
    case Within(e, kids) => ElementXml(cfg, open, e, kids, w);
    case XInclude(e, inner, kids) =>
      BitsXml(cfg, inner);
      var w1 := Flushing(w, Names(MetaOf(cfg, open)), true);
      XmlMore(w.bits, Flushed(Names(MetaOf(cfg, open)), true));
      BitsSnoc(cfg, w.bits, Flushed(Names(MetaOf(cfg, open)), true));
      XmlMore(w1.bits, Included(BitsOf(cfg, inner)));
      ElementXml(cfg, open, e, kids, w1.(bits := w1.bits + [Included(BitsOf(cfg, inner))]));
  }

  lemma {:induction false} ElementXml(cfg: Config, open: seq<Elem>, e: Elem, kids: seq<Page>, w: Writing)
    requires Legible(cfg, open + [e], kids) && XmlBits(w.bits) && Settled(w.bits)
    ensures XmlBits(WriteElement(cfg, open, e, kids, w).bits) && Settled(WriteElement(cfg, open, e, kids, w).bits)
    decreases kids, 1
  {
    hide Legible, XmlBits, Settled, Write, MetaOf, GoesOnMeta;
    XmlMore(w.bits, Flushed(Names(MetaOf(cfg, open)), true));
    WriteXml(cfg, open + [e], kids, Opened(cfg, open, e, w));
    XmlMore(Write(cfg, open + [e], kids, Opened(cfg, open, e, w)).bits, Flushed(Names(MetaOf(cfg, open + [e])), false));
  }

  lemma {:induction false} BitsXml(cfg: Config, pages: seq<Page>)
    requires Legible(cfg, [], pages)
    ensures XmlBits(BitsOf(cfg, pages)) && Settled(BitsOf(cfg, pages))
    decreases pages, 1
  {
    hide Legible, Write, NoNul, NoBumper;
    WriteXml(cfg, [], pages, Writing([], true, 0));
    XmlMore(Write(cfg, [], pages, Writing([], true, 0)).bits, Flushed([DEFAULT_METANAME], true));
  }

  /** For every document with includes, every configuration and every name, one that exists only as the
      target of an alias_for included: what buffer `m` splits to, and whether there is one. */
  lemma DocumentPieces(cfg: Config, pages: seq<Page>, m: string)
    requires DEFAULT_METANAME in cfg.metanames && Legible(cfg, [], pages)
    ensures var nb, bits := Parsed(cfg, pages).metanames, BitsOf(cfg, pages);
            && (m in nb <==> Has(cfg, bits, m)) && NoNul(Content(nb, m))
            && Pieces(Content(nb, m)) == PiecesIn(cfg, bits, m)
  {
    hide *;
    DocumentWritten(cfg, pages);
    BitsXml(cfg, pages);
    FiledPieces(cfg, BitsOf(cfg, pages), m);
  }

  /** Parse a document with all it includes and split one of its buffers. */
  method HarvestIncluded(cfg: Config, pages: seq<Page>, m: string) returns (strings: seq<string>)
    requires DEFAULT_METANAME in cfg.metanames && Legible(cfg, [], pages)
    ensures strings == PiecesIn(cfg, BitsOf(cfg, pages), m)
    ensures m in cfg.metanames && Single(cfg, [], pages, m) ==> strings == Gathered(cfg, Entries(cfg, pages), m)
  {
    hide Legible, Single, Start, Parsed, Entries, Gathered, NoNul, Pieces, PiecesIn, BitsOf, Has, Live;
    DocumentPieces(cfg, pages, m);
    if m in cfg.metanames && Single(cfg, [], pages, m) {
      ParsedGathers(cfg, pages, m);
    }
    var parser := new ParserData(cfg);
    ParseDocument(parser, pages);
    strings := SplitBuffer(if m in parser.metanames.hash then parser.metanames.hash[m] else "");
  }

  // ---------------------------------------------------------------- documents without includes

  function AsPages(ns: seq<Node>): seq<Page>
    decreases ns
  {
    if ns == [] then [] else [AsPage(ns[0])] + AsPages(ns[1..])
  }

  function AsPage(n: Node): Page
    decreases n
  {
    match n
    case Chars(ch) => Say(ch)
    case Remark(cmt) => Note(cmt)
    case Element(e, kids) => Within(e, AsPages(kids))
  }

  lemma {:induction false} SoundIsLegible(cfg: Config, open: seq<Elem>, ns: seq<Node>)
    requires Sound(cfg, open, ns) && XmlText(ns)
    ensures Legible(cfg, open, AsPages(ns))
    decreases ns
  {
    hide SoundNode, XmlTextNode, LegiblePage, AsPage;
    if ns != [] {
      SoundNodeIsLegible(cfg, open, ns[0]);
      SoundIsLegible(cfg, open, ns[1..]);
      assert AsPages(ns)[1..] == AsPages(ns[1..]);
    }
  }

  lemma {:induction false} SoundNodeIsLegible(cfg: Config, open: seq<Elem>, n: Node)
    requires SoundNode(cfg, open, n) && XmlTextNode(n)
    ensures LegiblePage(cfg, open, AsPage(n))
    decreases n
  {
    hide Sound, XmlText, Legible, Known, Paired, NoNul, NoBumper;
    if n.Element? {
      SoundIsLegible(cfg, open + [n.e], n.kids);
    }
  }

  lemma {:induction false} PagesRun(cfg: Config, s: State, ns: seq<Node>)
    requires DEFAULT_METANAME in cfg.metanames
    ensures RunPages(cfg, s, AsPages(ns)) == Run(cfg, s, Events(ns))
    decreases ns
  {
    hide Step, RunPage, NodeEvents, AsPage;
    if ns != [] {
      PageRuns(cfg, s, ns[0]);
      PagesRun(cfg, RunPage(cfg, s, AsPage(ns[0])), ns[1..]);
      RunConcat(cfg, s, NodeEvents(ns[0]), Events(ns[1..]));
      assert AsPages(ns)[1..] == AsPages(ns[1..]);
    }
  }

  lemma {:induction false} PageRuns(cfg: Config, s: State, n: Node)
    requires DEFAULT_METANAME in cfg.metanames
    ensures RunPage(cfg, s, AsPage(n)) == Run(cfg, s, NodeEvents(n))
    decreases n
  {
    hide Step, Run, RunPages, Events, AsPages;
    match n
    case Chars(ch) => RunOne(cfg, s, Text(ch));
    case Remark(cmt) => RunOne(cfg, s, Comment(cmt));
    case Element(e, kids) =>
      PagesRun(cfg, Step(cfg, s, Open(e)), kids);
      RunOne(cfg, s, Open(e));
      RunConcat(cfg, s, [Open(e)], Events(kids));
      RunConcat(cfg, s, [Open(e)] + Events(kids), [Close(e)]);
      RunOne(cfg, Run(cfg, Step(cfg, s, Open(e)), Events(kids)), Close(e));
  }

  /** The flushes and buffers of any document without includes. */
  lemma FinalWritten(cfg: Config, doc: seq<Node>)
    requires DEFAULT_METANAME in cfg.metanames && Sound(cfg, [], doc) && XmlText(doc)
    ensures var bits := BitsOf(cfg, AsPages(doc));
            && Final(cfg, doc).flushes == FlushList(cfg, bits) && Final(cfg, doc).metanames == Filed(cfg, bits)
            && XmlBits(bits) && Settled(bits)
  {
    SoundIsLegible(cfg, [], doc);
    PagesRun(cfg, Start(cfg), doc);
    DocumentWritten(cfg, AsPages(doc));
    BitsXml(cfg, AsPages(doc));
    hide Sound, XmlText, BitsOf, FlushList, Filed, XmlBits, Settled, EndDocument, RunPages, Run, Start;
  }

  // ---------------------------------------------------------------- the names a text is flushed under

  /** The pending texts lie in `names`, and so do those of every flush in the names it goes under. */
  predicate InTheirNames(bits: seq<Bit>, names: seq<string>) {
    if bits == [] then true
    else
      match bits[|bits| - 1]
      case Said(_, _, inside) => inside == names && InTheirNames(bits[..|bits| - 1], names)
      case Flushed(under, _) => InTheirNames(bits[..|bits| - 1], under)
      case Included(_) => InTheirNames(bits[..|bits| - 1], names)
  }

  /** Every flush goes to a metaname of the configuration. */
  predicate Addressed(cfg: Config, bits: seq<Bit>) {
    forall c :: 0 <= c < |bits| && bits[c].Flushed? ==>
      bits[c].names != [] && Innermost(bits[c].names) in cfg.metanames
  }

  predicate InMetaname(cfg: Config, open: seq<Elem>) {
    Innermost(Names(MetaOf(cfg, open))) in cfg.metanames
  }

  lemma LabelledMore(bits: seq<Bit>, names: seq<string>, b: Bit, next: seq<string>)
    requires InTheirNames(bits, names)
    requires match b
             case Said(_, _, inside) => inside == names && next == names
             case Flushed(under, _) => under == names
             case Included(_) => next == names
    ensures InTheirNames(bits + [b], next)
  {
    assert (bits + [b])[..|bits|] == bits;
  }

  lemma AddressedMore(cfg: Config, bits: seq<Bit>, b: Bit)
    requires Addressed(cfg, bits)
    requires b.Flushed? ==> b.names != [] && Innermost(b.names) in cfg.metanames
    ensures Addressed(cfg, bits + [b])
  {
  }

  lemma EnterNames(cfg: Config, open: seq<Elem>, e: Elem)
    requires InMetaname(cfg, open) && Known(cfg, open, e)
    ensures InMetaname(cfg, open + [e])
    ensures !GoesOnMeta(cfg, open, e) ==> MetaOf(cfg, open + [e]) == MetaOf(cfg, open)
  {
    hide GoesOnMeta, NameOf;
    Outer(open, e);
  }

  predicate NamedWriting(cfg: Config, open: seq<Elem>, w: Writing) {
    InTheirNames(w.bits, Names(MetaOf(cfg, open))) && Addressed(cfg, w.bits)
  }

  lemma OpenedLabelled(cfg: Config, open: seq<Elem>, e: Elem, w: Writing)
    requires NamedWriting(cfg, open, w) && InMetaname(cfg, open) && Known(cfg, open, e)
    ensures NamedWriting(cfg, open + [e], Opened(cfg, open, e, w))
  {
    EnterNames(cfg, open, e);
    hide InTheirNames, Addressed, GoesOnMeta, MetaOf, Known, Defined;
    var names := Names(MetaOf(cfg, open));
    LabelledMore(w.bits, names, Flushed(names, true), Names(MetaOf(cfg, open + [e])));
    AddressedMore(cfg, w.bits, Flushed(names, true));
  }

  lemma EndedLabelled(cfg: Config, open: seq<Elem>, e: Elem, w: Writing)
    requires NamedWriting(cfg, open + [e], w) && InMetaname(cfg, open) && Known(cfg, open, e)
    ensures NamedWriting(cfg, open, Ended(cfg, open, e, w))
  {
    EnterNames(cfg, open, e);
    hide InTheirNames, Addressed, GoesOnMeta, MetaOf, Known, Defined;
    var names := Names(MetaOf(cfg, open + [e]));
    LabelledMore(w.bits, names, Flushed(names, false), Names(MetaOf(cfg, open)));
    AddressedMore(cfg, w.bits, Flushed(names, false));
  }

  lemma {:induction false} WriteLabelled(cfg: Config, open: seq<Elem>, pages: seq<Page>, w: Writing)
    requires Legible(cfg, open, pages) && InMetaname(cfg, open) && NamedWriting(cfg, open, w)
    ensures NamedWriting(cfg, open, Write(cfg, open, pages, w))
    decreases pages, 0
  {
    hide LegiblePage, NamedWriting, WritePage, InMetaname;
    if pages != [] {
      WritePageLabelled(cfg, open, pages[0], w);
      WriteLabelled(cfg, open, pages[1..], WritePage(cfg, open, pages[0], w));
    }
  }

  lemma {:induction false} WritePageLabelled(cfg: Config, open: seq<Elem>, p: Page, w: Writing)
    requires LegiblePage(cfg, open, p) && InMetaname(cfg, open) && NamedWriting(cfg, open, w)
    ensures NamedWriting(cfg, open, WritePage(cfg, open, p, w))
    decreases p, 0
  {
    hide Legible, WriteElement, Known, Paired, NoNul, NoBumper, DirectiveOf, MetaOf, BitsOf, InTheirNames, Addressed;
    var names := Names(MetaOf(cfg, open));
    match p
    case Say(ch) =>
      LabelledMore(w.bits, names, Said(ch, w.cut, names), names);
      AddressedMore(cfg, w.bits, Said(ch, w.cut, names));
    case Note(_) =>
    case Within(e, kids) => ElementLabelled(cfg, open, e, kids, w);
    case XInclude(e, inner, kids) =>
      var w1 := Flushing(w, names, true);
      LabelledMore(w.bits, names, Flushed(names, true), names);
      AddressedMore(cfg, w.bits, Flushed(names, true));
      LabelledMore(w1.bits, names, Included(BitsOf(cfg, inner)), names);
      AddressedMore(cfg, w1.bits, Included(BitsOf(cfg, inner)));
      ElementLabelled(cfg, open, e, kids, w1.(bits := w1.bits + [Included(BitsOf(cfg, inner))]));
  }

  lemma {:induction false} ElementLabelled(cfg: Config, open: seq<Elem>, e: Elem, kids: seq<Page>, w: Writing)
    requires Known(cfg, open, e) && Legible(cfg, open + [e], kids)
    requires InMetaname(cfg, open) && NamedWriting(cfg, open, w)
    ensures NamedWriting(cfg, open, WriteElement(cfg, open, e, kids, w))
    decreases kids, 1
  {
    EnterNames(cfg, open, e);
    hide Legible, Known, NamedWriting, Write, Opened, Ended, InMetaname, MetaOf, GoesOnMeta;
    OpenedLabelled(cfg, open, e, w);
    WriteLabelled(cfg, open + [e], kids, Opened(cfg, open, e, w));
    EndedLabelled(cfg, open, e, Write(cfg, open + [e], kids, Opened(cfg, open, e, w)));
  }

  /** Every text of a document is flushed under the metanames it lies in. */
  lemma BitsLabelled(cfg: Config, pages: seq<Page>)
    requires DEFAULT_METANAME in cfg.metanames && Legible(cfg, [], pages)
    ensures InTheirNames(BitsOf(cfg, pages), []) && Addressed(cfg, BitsOf(cfg, pages))
  {
    StartFollows(cfg);
    hide Legible, Write, InTheirNames, Addressed, MetaOf;
    NothingLabelled(cfg);
    WriteLabelled(cfg, [], pages, Writing([], true, 0));
    var w, names := Write(cfg, [], pages, Writing([], true, 0)), [DEFAULT_METANAME];
    LabelledMore(w.bits, names, Flushed(names, true), []);
    AddressedMore(cfg, w.bits, Flushed(names, true));
  }

  lemma NothingLabelled(cfg: Config)
    ensures Addressed(cfg, []) && forall names :: InTheirNames([], names)
  {
  }
}
