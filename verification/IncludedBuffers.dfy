/** The named buffers of documents that include others, from the events to the splitter:
    process_xinclude flushes what is pending, parses the included document with a parser of its
    own, merges that one's buffers into its own and only then opens the include element. */
module IncludedBuffers {
  import opened CString
  import opened NamedBuffers
  import opened Seqs
  import opened TagStacks
  import opened Directives
  import opened Sax
  import opened StackDiscipline
  import opened Attribution
  import opened Harvest

  /** A document with the documents it includes in their places: `inner` is what the include
      element `e` names. */
  datatype Page =
    | Say(ch: string)
    | Note(cmt: string)
    | Within(e: Elem, kids: seq<Page>)
    | XInclude(e: Elem, inner: seq<Page>, kids: seq<Page>)

  // ---------------------------------------------------------------- what such a document says

  /** What a reader has gone through: passages of the document itself, each with whether its flush
      finds the metaname stack whole, and included documents. */
  datatype Entry = Mine(passage: Passage, whole: bool) | Theirs(entries: seq<Entry>)

  datatype Story = Story(done: seq<Entry>, run: string, ignore: nat)

  function Told(names: seq<string>, run: string, whole: bool): seq<Entry> {
    if AllSpace(run) then [] else [Mine(Passage(names, run), whole)]
  }

  function Break(cfg: Config, open: seq<Elem>, st: Story, whole: bool): Story {
    st.(done := st.done + Told(Names(MetaOf(cfg, open)), st.run, whole), run := "")
  }

  function BreakAtTag(cfg: Config, open: seq<Elem>, e: Elem, st: Story, whole: bool): Story {
    Break(cfg, open, st, whole).(ignore := if Defined(cfg, e) then st.ignore else 0)
  }

  /** Something in these pages flushes with the stack as it stands at their start: a metaname that
      opens, or an include. */
  predicate Flushes(cfg: Config, open: seq<Elem>, pages: seq<Page>)
    decreases pages, 0
  {
    pages != [] && (PageFlushes(cfg, open, pages[0]) || Flushes(cfg, open, pages[1..]))
  }

  predicate PageFlushes(cfg: Config, open: seq<Elem>, p: Page)
    decreases p, 0
  {
    match p
    case Say(_) => false
    case Note(_) => false
    case Within(e, kids) => ElementFlushes(cfg, open, e, kids)
    case XInclude(_, _, _) => true
  }

  predicate ElementFlushes(cfg: Config, open: seq<Elem>, e: Elem, kids: seq<Page>)
    decreases kids, 1
  {
    GoesOnMeta(cfg, open, e) || Flushes(cfg, open + [e], kids)
  }

  /** Reading on, knowing whether something flushes `later`: after these pages, but before the
      metaname around them closes. */
  function Relate(cfg: Config, open: seq<Elem>, pages: seq<Page>, st: Story, later: bool): Story
    decreases pages, 0
  {
    if pages == [] then st
    else
      Relate(cfg, open, pages[1..], RelatePage(cfg, open, pages[0], st, Flushes(cfg, open, pages[1..]) || later), later)
  }

  function RelatePage(cfg: Config, open: seq<Elem>, p: Page, st: Story, later: bool): Story
    decreases p, 0
  {
    match p
    case Say(ch) => if st.ignore > 0 then st else st.(run := st.run + ch)
    case Note(cmt) => RelateNote(cfg, open, DirectiveOf(cmt), st, later)
    case Within(e, kids) => RelateElement(cfg, open, e, kids, st, later)
    case XInclude(e, inner, kids) =>
      RelateElement(cfg, open, e, kids, Including(cfg, open, st, Entries(cfg, inner)), later)
  }

  function RelateElement(cfg: Config, open: seq<Elem>, e: Elem, kids: seq<Page>, st: Story, later: bool): Story
    decreases kids, 1
  {
    var inside := !GoesOnMeta(cfg, open, e) && later;
    var st1 := BreakAtTag(cfg, open, e, st, ElementFlushes(cfg, open, e, kids) || later);
    BreakAtTag(cfg, open + [e], e, Relate(cfg, open + [e], kids, st1, inside), inside)
  }

  function Including(cfg: Config, open: seq<Elem>, st: Story, theirs: seq<Entry>): Story {
    var st1 := Break(cfg, open, st, true);
    st1.(done := st1.done + [Theirs(theirs)])
  }

  function RelateNote(cfg: Config, open: seq<Elem>, directive: Directive, st: Story, later: bool): Story {
    match directive
    case Blank => st
    case Command => st
    case NoIndex => st.(ignore := st.ignore + 1)
    case Index => st.(ignore := if st.ignore > 0 then st.ignore - 1 else 0)
    case Plain => Break(cfg, open, st, later)
  }

  /** A whole document in reading order, included ones in their places. */
  function Entries(cfg: Config, pages: seq<Page>): seq<Entry>
    decreases pages, 1
  {
    Break(cfg, [], Relate(cfg, [], pages, Story([], "", 0), true), true).done
  }

  /** The texts that come into buffer `m`, included documents read where they stand. */
  function Gathered(cfg: Config, entries: seq<Entry>, m: string): seq<string> {
    if entries == [] then []
    else Gathered(cfg, entries[..|entries| - 1], m) + TextsIn(cfg, entries[|entries| - 1], m)
  }

  function TextsIn(cfg: Config, entry: Entry, m: string): seq<string> {
    match entry
    case Mine(p, whole) => if Share(cfg, p.names, whole, m) > 0 then [p.text] else []
    case Theirs(inner) => Gathered(cfg, inner, m)
  }

  /** These are the texts that belong there, unless the text lies directly in `m`, `m` has an
      alias_for, and its closing tag flushes it. */
  lemma TextsBelong(cfg: Config, p: Passage, whole: bool, m: string)
    requires p.names != [] && Innermost(p.names) in cfg.metanames && Copies(cfg, p.names, m) <= 1
    ensures TextsIn(cfg, Mine(p, whole), m) == (if Copies(cfg, p.names, m) > 0 then [p.text] else [])
       <==> whole || !cfg.cascade || Innermost(p.names) != m || Stored(cfg, m) == m
  {
    ShareOrCopies(cfg, p.names, whole, m);
  }

  // ---------------------------------------------------------------- which documents

  /** As `Sound` and `XmlText` say, in every document included. */
  predicate Legible(cfg: Config, open: seq<Elem>, pages: seq<Page>)
    decreases pages
  {
    pages == [] || (LegiblePage(cfg, open, pages[0]) && Legible(cfg, open, pages[1..]))
  }

  predicate LegiblePage(cfg: Config, open: seq<Elem>, p: Page)
    decreases p
  {
    match p
    case Say(ch) => NoNul(ch) && NoBumper(ch)
    case Note(_) => true
    case Within(e, kids) => Known(cfg, open, e) && Paired(cfg, open, e) && Legible(cfg, open + [e], kids)
    case XInclude(e, inner, kids) =>
      && Known(cfg, open, e) && Paired(cfg, open, e) && Legible(cfg, open + [e], kids)
      && Legible(cfg, [], inner)
  }

  /** No text is added to buffer `m` twice: with cascade_meta_context no `m` lies in another. */
  predicate Single(cfg: Config, open: seq<Elem>, pages: seq<Page>, m: string)
    decreases pages
  {
    && Copies(cfg, Names(MetaOf(cfg, open)), m) <= 1
    && (pages == [] || (SinglePage(cfg, open, pages[0], m) && Single(cfg, open, pages[1..], m)))
  }

  predicate SinglePage(cfg: Config, open: seq<Elem>, p: Page, m: string)
    decreases p
  {
    match p
    case Say(_) => true
    case Note(_) => true
    case Within(e, kids) => Single(cfg, open + [e], kids, m)
    case XInclude(e, inner, kids) => Single(cfg, open + [e], kids, m) && Single(cfg, [], inner, m)
  }

  lemma {:induction false} SingleUnlessCascading(cfg: Config, open: seq<Elem>, pages: seq<Page>, m: string)
    requires !cfg.cascade
    ensures Single(cfg, open, pages, m)
    decreases pages
  {
    hide MetaOf, Stored;
    if pages != [] {
      SinglePageUnlessCascading(cfg, open, pages[0], m);
      SingleUnlessCascading(cfg, open, pages[1..], m);
    }
  }

  lemma {:induction false} SinglePageUnlessCascading(cfg: Config, open: seq<Elem>, p: Page, m: string)
    requires !cfg.cascade
    ensures SinglePage(cfg, open, p, m)
    decreases p
  {
    hide Single;
    match p
    case Say(_) =>
    case Note(_) =>
    case Within(e, kids) => SingleUnlessCascading(cfg, open + [e], kids, m);
    case XInclude(e, inner, kids) =>
      SingleUnlessCascading(cfg, open + [e], kids, m);
      SingleUnlessCascading(cfg, [], inner, m);
  }

  // ---------------------------------------------------------------- the machine

  /** process_xinclude and xinclude_handler, once the included document is parsed. */
  function Taken(cfg: Config, s: State, theirs: Buffers): State {
    if !Live(cfg, s) then s
    else
      var flushed := FlushBuffer(cfg, s, Top(s.meta).baked, Top(s.meta).context, Names(s.meta));
      flushed.(metanames := Merged(flushed.metanames, theirs))
  }

  function RunPages(cfg: Config, s: State, pages: seq<Page>): State
    requires DEFAULT_METANAME in cfg.metanames
    decreases pages, 0
  {
    if pages == [] then s else RunPages(cfg, RunPage(cfg, s, pages[0]), pages[1..])
  }

  function RunPage(cfg: Config, s: State, p: Page): State
    requires DEFAULT_METANAME in cfg.metanames
    decreases p, 0
  {
    match p
    case Say(ch) => Step(cfg, s, Text(ch))
    case Note(cmt) => Step(cfg, s, Comment(cmt))
    case Within(e, kids) => Step(cfg, RunPages(cfg, Step(cfg, s, Open(e)), kids), Close(e))
    case XInclude(e, inner, kids) =>
      var s1 := Taken(cfg, s, Parsed(cfg, inner).metanames);
      Step(cfg, RunPages(cfg, Step(cfg, s1, Open(e)), kids), Close(e))
  }

  /** A whole document parsed by a fresh parser. */
  function Parsed(cfg: Config, pages: seq<Page>): State
    requires DEFAULT_METANAME in cfg.metanames
    decreases pages, 1
  {
    EndDocument(cfg, RunPages(cfg, Start(cfg), pages))
  }

  /** The included document is parsed first, then taken over. */
  method ProcessXInclude(parser: ParserData, inner: seq<Page>)
    requires parser.Valid() && Legible(parser.cfg, [], inner)
    modifies parser, parser.metanames
    ensures parser.Valid()
    ensures parser.View() == Taken(parser.cfg, old(parser.View()), Parsed(parser.cfg, inner).metanames)
    decreases inner, 3
  {
    hide FlushBuffer, Merged, Parsed, Legible, Consistent;
    var head := parser.metastack.entries[|parser.metastack.entries| - 1];
    parser.FlushBuf(head.baked, head.context, Names(parser.metastack.entries));
    var theirs := ParseIncluded(parser.cfg, inner);
    parser.metanames.Concat(theirs);
  }

  method ParseIncluded(cfg: Config, inner: seq<Page>) returns (theirs: NamedBuffer)
    requires DEFAULT_METANAME in cfg.metanames && Legible(cfg, [], inner)
    ensures fresh(theirs) && theirs.hash == Parsed(cfg, inner).metanames
    decreases inner, 2
  {
    hide Parsed, Legible, Start;
    var child := new ParserData(cfg);
    ParseDocument(child, inner);
    theirs := child.metanames;
  }

  method ParseDocument(parser: ParserData, pages: seq<Page>)
    requires parser.Valid() && parser.View() == Start(parser.cfg) && Legible(parser.cfg, [], pages)
    modifies parser, parser.domstack, parser.propstack, parser.metastack, parser.metanames
    ensures parser.Valid() && parser.View() == Parsed(parser.cfg, pages)
    decreases pages, 1
  {
    hide FlushBuffer, RunPages, Legible;
    StartAt(parser.cfg);
    ParsePages(parser, pages, []);
    parser.FlushBuf(DEFAULT_METANAME, DEFAULT_METANAME, [DEFAULT_METANAME]);
  }

  method ParsePages(parser: ParserData, pages: seq<Page>, ghost open: seq<Elem>)
    requires parser.Valid() && At(parser.cfg, parser.View(), open) && Legible(parser.cfg, open, pages)
    modifies parser, parser.domstack, parser.propstack, parser.metastack, parser.metanames
    ensures parser.Valid() && At(parser.cfg, parser.View(), open)
    ensures parser.View() == RunPages(parser.cfg, old(parser.View()), pages)
    decreases pages, 0
  {
    assert DEFAULT_METANAME in parser.cfg.metanames;
    hide LegiblePage, RunPage, At, Live;
    ghost var end := RunPages(parser.cfg, parser.View(), pages);
    assert pages[0..] == pages;
    for i := 0 to |pages|
      invariant parser.Valid() && At(parser.cfg, parser.View(), open)
      invariant Legible(parser.cfg, open, pages[i..])
      invariant RunPages(parser.cfg, parser.View(), pages[i..]) == end
    {
      assert pages[i..][1..] == pages[i + 1..];
      ParsePage(parser, pages[i], open);
    }
  }

  method ParsePage(parser: ParserData, p: Page, ghost open: seq<Elem>)
    requires parser.Valid() && At(parser.cfg, parser.View(), open) && LegiblePage(parser.cfg, open, p)
    modifies parser, parser.domstack, parser.propstack, parser.metastack, parser.metanames
    ensures parser.Valid() && At(parser.cfg, parser.View(), open)
    ensures parser.View() == RunPage(parser.cfg, old(parser.View()), p)
    decreases p, 0
  {
    hide Legible, RunPages, At, Parsed, Step, Known, Paired, Enabled, Taken;
    ghost var s := parser.View();
    match p
    case Say(ch) =>
      StillAt(parser.cfg, s, open, Text(ch));
      parser.BufferCharacters(ch);
    case Note(cmt) =>
      StillAt(parser.cfg, s, open, Comment(cmt));
      parser.HandleComment(cmt);
    case Within(e, kids) =>
      ParseElement(parser, e, kids, open);
    case XInclude(e, inner, kids) =>
      TakenAt(parser.cfg, s, open, Parsed(parser.cfg, inner).metanames);
      ProcessXInclude(parser, inner);
      ParseElement(parser, e, kids, open);
  }

  method ParseElement(parser: ParserData, e: Elem, kids: seq<Page>, ghost open: seq<Elem>)
    requires parser.Valid() && At(parser.cfg, parser.View(), open)
    requires Known(parser.cfg, open, e) && Paired(parser.cfg, open, e) && Legible(parser.cfg, open + [e], kids)
    modifies parser, parser.domstack, parser.propstack, parser.metastack, parser.metanames
    ensures parser.Valid() && At(parser.cfg, parser.View(), open)
    ensures parser.View()
         == Step(parser.cfg, RunPages(parser.cfg, Step(parser.cfg, old(parser.View()), Open(e)), kids), Close(e))
    decreases kids, 1
  {
    hide Legible, RunPages, At, Step, Known, Paired, Enabled;
    OpenPushes(parser.cfg, parser.View(), open, e);
    parser.OpenElement(e);
    ParsePages(parser, kids, open + [e]);
    CloseRestores(parser.cfg, parser.View(), open, e);
    parser.CloseElement(e);
  }

  lemma StartAt(cfg: Config)
    ensures At(cfg, Start(cfg), [])
  {
  }

  lemma TakenAt(cfg: Config, s: State, open: seq<Elem>, theirs: Buffers)
    requires Live(cfg, s) && At(cfg, s, open)
    ensures Live(cfg, Taken(cfg, s, theirs)) && At(cfg, Taken(cfg, s, theirs), open)
  {
    hide MetaOf, DomOf, PropOf, Targets, AddAll, Merged;
  }

  // ---------------------------------------------------------------- what waits in the buffer

  /** The runs in the buffer that are over, and the one that is not. */
  function Waiting(s: State): seq<string> {
    if s.bump then Pieces(s.metaBuf) else ClosedPieces(s.metaBuf)
  }

  function RunOf(s: State): string {
    if s.bump then "" else LastPart(s.metaBuf)
  }

  function Due(cfg: Config, names: seq<string>, whole: bool, pieces: seq<string>, m: string): seq<string> {
    if Share(cfg, names, whole, m) > 0 then pieces else []
  }

  /** Buffer `m`, with what is waiting for it under `names`, is what has been told of it, if the flush
      to come finds the stack as `whole` says. */
  predicate Balanced(cfg: Config, names: seq<string>, whole: bool, s: State, st: Story, m: string) {
    && NoNul(s.metaBuf) && m in s.metanames && NoNul(s.metanames[m])
    && st.run == RunOf(s) && st.ignore == s.ignore
    && Gathered(cfg, st.done, m) == Pieces(s.metanames[m]) + Due(cfg, names, whole, Waiting(s), m)
  }

  lemma {:induction false} GatheredConcat(cfg: Config, a: seq<Entry>, b: seq<Entry>, m: string)
    ensures Gathered(cfg, a + b, m) == Gathered(cfg, a, m) + Gathered(cfg, b, m)
  {
    hide TextsIn;
    if b == [] {
      assert a + b == a;
    } else {
      var k := |b| - 1;
      GatheredConcat(cfg, a, b[..k], m);
      assert (a + b)[..|a + b| - 1] == a + b[..k];
      Assoc(Gathered(cfg, a, m), Gathered(cfg, b[..k], m), TextsIn(cfg, b[k], m));
    }
  }

  lemma GatheredOne(cfg: Config, names: seq<string>, whole: bool, run: string, theirs: seq<Entry>, m: string)
    ensures Gathered(cfg, Told(names, run, whole), m) == Due(cfg, names, whole, Kept(run), m)
    ensures Gathered(cfg, [Theirs(theirs)], m) == Gathered(cfg, theirs, m)
  {
    hide Share, AllSpace;
    GatheredSole(cfg, Mine(Passage(names, run), whole), m);
    GatheredSole(cfg, Theirs(theirs), m);
  }

  lemma GatheredSole(cfg: Config, entry: Entry, m: string)
    ensures Gathered(cfg, [entry], m) == TextsIn(cfg, entry, m)
  {
    hide TextsIn;
    assert [entry][..0] == [];
    assert Gathered(cfg, [entry], m) == Gathered(cfg, [], m) + TextsIn(cfg, entry, m);
  }

  /** The end of a run. */
  lemma CutBalanced(cfg: Config, names: seq<string>, whole: bool, s: State, st: Story, m: string)
    requires Balanced(cfg, names, whole, s, st, m)
    ensures Balanced(cfg, names, whole, s.(bump := true),
                     st.(done := st.done + Told(names, st.run, whole), run := ""), m)
  {
    hide Gathered, Share, ClosedPieces, LastPart, Pieces, Kept, NoNul;
    GatheredConcat(cfg, st.done, Told(names, st.run, whole), m);
    GatheredOne(cfg, names, whole, st.run, [], m);
    BlankIsNothing();
    if s.bump {
      assert Waiting(s) + Kept(st.run) == Waiting(s);
    } else {
      PiecesByLastPart(s.metaBuf);
    }
    Assoc(Pieces(s.metanames[m]), Due(cfg, names, whole, Waiting(s), m), Due(cfg, names, whole, Kept(st.run), m));
  }

  lemma BlankIsNothing()
    ensures Kept("") == []
  {
  }

  lemma WordsBalanced(cfg: Config, names: seq<string>, whole: bool, s: State, st: Story, ch: string, m: string)
    requires Balanced(cfg, names, whole, s, st, m) && NoNul(ch) && NoBumper(ch) && s.ignore == 0
    ensures Balanced(cfg, names, whole, Characters(s, ch), st.(run := st.run + ch), m)
  {
    hide Gathered, Share, ClosedPieces, LastPart, Pieces;
    if s.bump && s.metaBuf != "" {
      BumpedText(s.metaBuf, ch);
      assert "" + ch == ch;
    } else {
      if s.bump {
        EmptyBuffer();
      }
      MoreText(s.metaBuf, ch);
      assert s.metaBuf + "" + ch == s.metaBuf + ch;
    }
  }

  lemma FlushedOnce(cfg: Config, names: seq<string>, whole: bool, m: string)
    requires names != [] && Innermost(names) in cfg.metanames && Copies(cfg, names, m) <= 1
    ensures multiset(Targets(cfg, Standing(names, whole), Innermost(names)))[m] == Share(cfg, names, whole, m) <= 1
  {
    hide Join, Others, NoNul;
    ShareOrCopies(cfg, names, whole, m);
    OthersCount(Standing(names, whole), Stored(cfg, Innermost(names)), m);
  }

  /** A flush moves what waits into the buffers. */
  lemma FlushBalanced(cfg: Config, names: seq<string>, whole: bool, s: State, context: string, st: Story,
                      next: seq<string>, any: bool, m: string)
    requires names != [] && Innermost(names) in cfg.metanames && Names(s.meta) == Standing(names, whole)
    requires Copies(cfg, names, m) <= 1 && s.bump && Balanced(cfg, names, whole, s, st, m)
    ensures Balanced(cfg, next, any, FlushBuffer(cfg, s, Innermost(names), context, names), st, m)
  {
    hide Gathered, Copies, Share, ClosedPieces, LastPart, Pieces, Targets, AddAll, Repeat;
    var added := Targets(cfg, Names(s.meta), Innermost(names));
    FlushedOnce(cfg, names, whole, m);
    AddAllPieces(s.metanames, added, s.metaBuf, m);
    AddAllNoNul(s.metanames, added, s.metaBuf, m);
    RepeatFew(Pieces(s.metaBuf));
    EmptyBuffer();
    var f := FlushBuffer(cfg, s, Innermost(names), context, names);
    assert Pieces(f.metanames[m]) + [] == Pieces(f.metanames[m]);
  }

  lemma {:induction false} AddAllNoNul(nb: Buffers, names: seq<string>, text: string, m: string)
    requires m in nb && NoNul(nb[m]) && NoNul(text)
    ensures m in AddAll(nb, names, text) && NoNul(AddAll(nb, names, text)[m])
  {
    if names != [] {
      AddAllNoNul(nb, names[..|names| - 1], text, m);
    }
  }

  lemma MergedNoNul(nb: Buffers, other: Buffers, m: string)
    requires m in nb && NoNul(nb[m])
    ensures m in Merged(nb, other) && NoNul(Merged(nb, other)[m])
  {
  }

  /** An included document comes after all that was flushed before it. */
  lemma TakenBalanced(cfg: Config, names: seq<string>, whole: bool, s: State, st: Story, next: State,
                      theirs: Buffers, entries: seq<Entry>, m: string)
    requires Balanced(cfg, names, whole, s, st, m) && s.metaBuf == "" && s.bump
    requires next == s.(metanames := Merged(s.metanames, theirs))
    requires m in theirs && NoNul(theirs[m]) && Pieces(theirs[m]) == Gathered(cfg, entries, m)
    ensures Balanced(cfg, names, whole, next, st.(done := st.done + [Theirs(entries)]), m)
  {
    hide Gathered, Share, ClosedPieces, LastPart, Pieces, CatBuffer, NoNul;
    EmptyBuffer();
    GatheredConcat(cfg, st.done, [Theirs(entries)], m);
    GatheredOne(cfg, [], true, "", entries, m);
    MergedPieces(s.metanames, theirs, m);
    MergedNoNul(s.metanames, theirs, m);
    assert forall p: seq<string> :: p + [] == p;
  }

  // ---------------------------------------------------------------- one event, one include

  predicate Holds(cfg: Config, s: State, open: seq<Elem>, whole: bool, st: Story, m: string) {
    Live(cfg, s) && At(cfg, s, open) && Balanced(cfg, Names(MetaOf(cfg, open)), whole, s, st, m)
  }

  lemma SameBalanced(cfg: Config, names: seq<string>, whole: bool, s: State, s': State, st: Story, ignore: nat,
                     m: string)
    requires Balanced(cfg, names, whole, s, st, m)
    requires s'.metaBuf == s.metaBuf && s'.bump == s.bump && s'.metanames == s.metanames && s'.ignore == ignore
    ensures Balanced(cfg, names, whole, s', st.(ignore := ignore), m)
  {
    hide Gathered, Due, Pieces, ClosedPieces, LastPart, NoNul;
  }

  /** With nothing in the buffer it matters neither whether a bump is due nor what the next flush finds. */
  lemma EmptyBalanced(cfg: Config, names: seq<string>, whole: bool, s: State, bump: bool, any: bool, st: Story,
                      m: string)
    requires Balanced(cfg, names, whole, s, st, m) && s.metaBuf == ""
    ensures Balanced(cfg, names, any, s.(bump := bump), st, m)
  {
    hide Gathered, Share, NoNul;
    EmptyBuffer();
  }

  lemma HeadName(cfg: Config, s: State, open: seq<Elem>)
    requires Live(cfg, s) && At(cfg, s, open)
    ensures s.meta == MetaOf(cfg, open)
    ensures var names := Names(MetaOf(cfg, open));
            names != [] && Top(s.meta).baked == Innermost(names) && Innermost(names) in cfg.metanames
  {
    hide MetaOf, DomOf, PropOf;
    HeadContext(cfg, open);
  }

  /** The bump, the end of the run and the noindex counter, at either tag. */
  lemma BakedBalanced(cfg: Config, open: seq<Elem>, e: Elem, whole: bool, s: State, st: Story, m: string)
    requires Balanced(cfg, Names(MetaOf(cfg, open)), whole, s, st, m)
    ensures Balanced(cfg, Names(MetaOf(cfg, open)), whole, Baked(cfg, s, e), BreakAtTag(cfg, open, e, st, whole), m)
    ensures BreakAtTag(cfg, open, e, st, whole).ignore == Baked(cfg, s, e).ignore
  {
    hide Balanced, MetaOf, Told, Defined;
    var names, st' := Names(MetaOf(cfg, open)), BreakAtTag(cfg, open, e, st, whole);
    IgnoreTold(cfg, names, whole, s, st, m);
    CutBalanced(cfg, names, whole, s, st, m);
    SameBalanced(cfg, names, whole, s.(bump := true), Baked(cfg, s, e), Break(cfg, open, st, whole), st'.ignore, m);
  }

  lemma OpenHolds(cfg: Config, s: State, open: seq<Elem>, e: Elem, whole: bool, any: bool, st: Story, m: string)
    requires Holds(cfg, s, open, whole, st, m) && Known(cfg, open, e) && Copies(cfg, Names(MetaOf(cfg, open)), m) <= 1
    requires if GoesOnMeta(cfg, open, e) then whole else any == whole
    ensures Holds(cfg, Step(cfg, s, Open(e)), open + [e], any, BreakAtTag(cfg, open, e, st, whole), m)
  {
    hide Bake, Join, Targets, AddAll, DomOf, PropOf, MetaOf, Balanced, Copies, IsProp, IsMeta, StackName, BreakAtTag;
    var names, next := Names(MetaOf(cfg, open)), Names(MetaOf(cfg, open + [e]));
    OpenPushes(cfg, s, open, e);
    HeadName(cfg, s, open);
    var b, s', st' := Baked(cfg, s, e), Step(cfg, s, Open(e)), BreakAtTag(cfg, open, e, st, whole);
    BakedBalanced(cfg, open, e, whole, s, st, m);
    HeadName(cfg, s', open + [e]);
    if GoesOnMeta(cfg, open, e) {
      FlushBalanced(cfg, names, true, b, Top(s.meta).context, st', next, any, m);
      var f := FlushBuffer(cfg, b, Innermost(names), Top(s.meta).context, names);
      SameBalanced(cfg, next, any, f, s', st', st'.ignore, m);
    } else {
      SameBalanced(cfg, names, whole, b, s', st', st'.ignore, m);
    }
  }

  lemma CloseHolds(cfg: Config, s: State, open: seq<Elem>, e: Elem, whole: bool, any: bool, st: Story, m: string)
    requires Holds(cfg, s, open + [e], whole, st, m) && Paired(cfg, open, e)
    requires Copies(cfg, Names(MetaOf(cfg, open + [e])), m) <= 1
    requires if GoesOnMeta(cfg, open, e) then !whole else any == whole
    ensures Holds(cfg, Step(cfg, s, Close(e)), open, any, BreakAtTag(cfg, open + [e], e, st, whole), m)
  {
    hide Bake, Join, Targets, AddAll, DomOf, PropOf, Balanced, Copies, IsProp, IsMeta, StackName, BreakAtTag;
    Outer(open, e);
    CloseRestores(cfg, s, open, e);
    HeadName(cfg, s, open + [e]);
    assert GoesOnMeta(cfg, open, e) <==> Top(s.meta).raw == e.raw;
    hide MetaOf, Paired, GoesOnMeta;
    var names, next := Names(MetaOf(cfg, open + [e])), Names(MetaOf(cfg, open));
    var b, s', st' := Baked(cfg, s, e), Step(cfg, s, Close(e)), BreakAtTag(cfg, open + [e], e, st, whole);
    BakedBalanced(cfg, open + [e], e, whole, s, st, m);
    HeadName(cfg, s', open);
    if GoesOnMeta(cfg, open, e) {
      var popped := b.(meta := s.meta[..|s.meta| - 1]);
      SameBalanced(cfg, names, whole, b, popped, st', st'.ignore, m);
      assert Names(popped.meta) == Standing(names, false);
      FlushBalanced(cfg, names, false, popped, Top(s.meta).context, st', next, any, m);
      var f := FlushBuffer(cfg, popped, Innermost(names), Top(s.meta).context, names);
      SameBalanced(cfg, next, any, f, s', st', st'.ignore, m);
    } else {
      SameBalanced(cfg, names, whole, b, s', st', st'.ignore, m);
    }
  }

  lemma TakenHolds(cfg: Config, s: State, open: seq<Elem>, any: bool, st: Story, theirs: Buffers,
                   entries: seq<Entry>, m: string)
    requires Holds(cfg, s, open, true, st, m) && Copies(cfg, Names(MetaOf(cfg, open)), m) <= 1
    requires m in theirs && NoNul(theirs[m]) && Pieces(theirs[m]) == Gathered(cfg, entries, m)
    ensures Holds(cfg, Taken(cfg, s, theirs), open, any, Including(cfg, open, st, entries), m)
  {
    hide Targets, AddAll, DomOf, PropOf, MetaOf, Balanced, Copies, Told, Gathered, Pieces, Merged, NoNul;
    var names, context := Names(MetaOf(cfg, open)), Top(s.meta).context;
    TakenAt(cfg, s, open, theirs);
    HeadName(cfg, s, open);
    CutBalanced(cfg, names, true, s, st, m);
    var b, st1 := s.(bump := true), Break(cfg, open, st, true);
    FlushBalanced(cfg, names, true, b, context, st1, names, true, m);
    var f := FlushBuffer(cfg, b, Innermost(names), context, names);
    var taken := f.(metanames := Merged(f.metanames, theirs));
    TakenBalanced(cfg, names, true, f, st1, taken, theirs, entries, m);
    EmptyBalanced(cfg, names, true, taken, s.bump, any, Including(cfg, open, st, entries), m);
    assert taken.(bump := s.bump) == Taken(cfg, s, theirs);
  }

  lemma SayHolds(cfg: Config, s: State, open: seq<Elem>, whole: bool, st: Story, ch: string, m: string)
    requires Holds(cfg, s, open, whole, st, m) && NoNul(ch) && NoBumper(ch)
    ensures Holds(cfg, Step(cfg, s, Text(ch)), open, whole, RelatePage(cfg, open, Say(ch), st, whole), m)
  {
    hide MetaOf, DomOf, PropOf, Due, Gathered, Pieces, ClosedPieces, LastPart, NoNul;
    StillAt(cfg, s, open, Text(ch));
    if s.ignore == 0 {
      WordsBalanced(cfg, Names(MetaOf(cfg, open)), whole, s, st, ch, m);
    }
  }

  lemma NoteHolds(cfg: Config, s: State, open: seq<Elem>, whole: bool, st: Story, cmt: string, m: string)
    requires Holds(cfg, s, open, whole, st, m)
    ensures Holds(cfg, Step(cfg, s, Comment(cmt)), open, whole, RelateNote(cfg, open, DirectiveOf(cmt), st, whole), m)
  {
    StillAt(cfg, s, open, Comment(cmt));
    hide MetaOf, DomOf, PropOf, Balanced, DirectiveOf, Told, At, Live, Enabled;
    var names, directive := Names(MetaOf(cfg, open)), DirectiveOf(cmt);
    assert Step(cfg, s, Comment(cmt)) == Comments(s, directive) by {
      assert Enabled(cfg, s, Comment(cmt));
    }
    IgnoreTold(cfg, names, whole, s, st, m);
    NoteBalanced(cfg, open, whole, s, directive, st, m);
  }

  lemma NoteBalanced(cfg: Config, open: seq<Elem>, whole: bool, s: State, directive: Directive, st: Story, m: string)
    requires Balanced(cfg, Names(MetaOf(cfg, open)), whole, s, st, m) && st.ignore == s.ignore
    ensures Balanced(cfg, Names(MetaOf(cfg, open)), whole, Comments(s, directive),
                     RelateNote(cfg, open, directive, st, whole), m)
  {
    hide MetaOf, Balanced, Told;
    var names, st' := Names(MetaOf(cfg, open)), RelateNote(cfg, open, directive, st, whole);
    if directive == Plain {
      CutBalanced(cfg, names, whole, s, st, m);
    } else {
      SameBalanced(cfg, names, whole, s, Comments(s, directive), st, st'.ignore, m);
    }
  }

  lemma IgnoreTold(cfg: Config, names: seq<string>, whole: bool, s: State, st: Story, m: string)
    requires Balanced(cfg, names, whole, s, st, m)
    ensures st.ignore == s.ignore
  {
  }

  // ---------------------------------------------------------------- whole documents

  lemma {:induction false} PagesHold(cfg: Config, s: State, open: seq<Elem>, pages: seq<Page>, st: Story, later: bool,
                                     m: string)
    requires m in cfg.metanames && Holds(cfg, s, open, Flushes(cfg, open, pages) || later, st, m)
    requires DEFAULT_METANAME in cfg.metanames && Legible(cfg, open, pages) && Single(cfg, open, pages, m)
    ensures Holds(cfg, RunPages(cfg, s, pages), open, later, Relate(cfg, open, pages, st, later), m)
    decreases pages, 0
  {
    hide Holds, LegiblePage, SinglePage, RunPage, RelatePage, Copies, PageFlushes;
    if pages != [] {
      var after := Flushes(cfg, open, pages[1..]) || later;
      PageHolds(cfg, s, open, pages[0], st, after, m);
      PagesHold(cfg, RunPage(cfg, s, pages[0]), open, pages[1..], RelatePage(cfg, open, pages[0], st, after), later, m);
    }
  }

  lemma {:induction false} PageHolds(cfg: Config, s: State, open: seq<Elem>, p: Page, st: Story, later: bool, m: string)
    requires m in cfg.metanames && Holds(cfg, s, open, PageFlushes(cfg, open, p) || later, st, m)
    requires Copies(cfg, Names(MetaOf(cfg, open)), m) <= 1
    requires DEFAULT_METANAME in cfg.metanames && LegiblePage(cfg, open, p) && SinglePage(cfg, open, p, m)
    ensures Holds(cfg, RunPage(cfg, s, p), open, later, RelatePage(cfg, open, p, st, later), m)
    decreases p, 0
  {
    hide Holds, Legible, Single, RunPages, RelateElement, Copies, Step, Taken, Including, Known, Paired, MetaOf,
         NoNul, NoBumper, Parsed, Entries, RelateNote, DirectiveOf, ElementFlushes;
    match p
    case Say(ch) => SayHolds(cfg, s, open, later, st, ch, m);
    case Note(cmt) => NoteHolds(cfg, s, open, later, st, cmt, m);
    case Within(e, kids) => ElementHolds(cfg, s, open, e, kids, st, later, m);
    case XInclude(e, inner, kids) =>
      ParsedGathers(cfg, inner, m);
      TakenHolds(cfg, s, open, ElementFlushes(cfg, open, e, kids) || later, st, Parsed(cfg, inner).metanames,
                 Entries(cfg, inner), m);
      ElementHolds(cfg, Taken(cfg, s, Parsed(cfg, inner).metanames), open, e, kids,
                   Including(cfg, open, st, Entries(cfg, inner)), later, m);
  }

  lemma {:induction false} ElementHolds(cfg: Config, s: State, open: seq<Elem>, e: Elem, kids: seq<Page>, st: Story,
                                        later: bool, m: string)
    requires m in cfg.metanames && Holds(cfg, s, open, ElementFlushes(cfg, open, e, kids) || later, st, m)
    requires Copies(cfg, Names(MetaOf(cfg, open)), m) <= 1
    requires DEFAULT_METANAME in cfg.metanames && Known(cfg, open, e) && Paired(cfg, open, e)
    requires Legible(cfg, open + [e], kids) && Single(cfg, open + [e], kids, m)
    ensures Holds(cfg, Step(cfg, RunPages(cfg, Step(cfg, s, Open(e)), kids), Close(e)), open, later,
                  RelateElement(cfg, open, e, kids, st, later), m)
    decreases kids, 1
  {
    CopiesInside(cfg, open + [e], kids, m);
    hide Holds, Legible, Single, RunPages, Relate, Copies, Step, BreakAtTag, Known, Paired, MetaOf, GoesOnMeta, Flushes;
    var before, inside := ElementFlushes(cfg, open, e, kids) || later, !GoesOnMeta(cfg, open, e) && later;
    var st1 := BreakAtTag(cfg, open, e, st, before);
    OpenHolds(cfg, s, open, e, before, Flushes(cfg, open + [e], kids) || inside, st, m);
    PagesHold(cfg, Step(cfg, s, Open(e)), open + [e], kids, st1, inside, m);
    CloseHolds(cfg, RunPages(cfg, Step(cfg, s, Open(e)), kids), open, e, inside, later,
               Relate(cfg, open + [e], kids, st1, inside), m);
  }

  lemma CopiesInside(cfg: Config, open: seq<Elem>, kids: seq<Page>, m: string)
    requires Single(cfg, open, kids, m)
    ensures Copies(cfg, Names(MetaOf(cfg, open)), m) <= 1
  {
  }

  lemma StartHolds(cfg: Config, whole: bool, m: string)
    requires m in cfg.metanames && DEFAULT_METANAME in cfg.metanames
    ensures Holds(cfg, Start(cfg), [], whole, Story([], "", 0), m) && Names(MetaOf(cfg, [])) == [DEFAULT_METANAME]
  {
    hide Share, Pieces;
    EmptyBuffer();
  }

  lemma EndHolds(cfg: Config, s: State, st: Story, m: string)
    requires Holds(cfg, s, [], true, st, m) && Names(MetaOf(cfg, [])) == [DEFAULT_METANAME]
    requires DEFAULT_METANAME in cfg.metanames && Copies(cfg, [DEFAULT_METANAME], m) <= 1
    ensures var nb := EndDocument(cfg, s).metanames;
            m in nb && NoNul(nb[m]) && Pieces(nb[m]) == Gathered(cfg, Break(cfg, [], st, true).done, m)
  {
    HeadName(cfg, s, []);
    hide Targets, AddAll, DomOf, PropOf, MetaOf, Copies, Share, Told, Gathered, Pieces, NoNul, At, Live, ClosedPieces,
         LastPart;
    var names := [DEFAULT_METANAME];
    CutBalanced(cfg, names, true, s, st, m);
    var b, st1 := s.(bump := true), Break(cfg, [], st, true);
    FlushBalanced(cfg, names, true, b, DEFAULT_METANAME, st1, names, true, m);
    EmptyBuffer();
    var nb := EndDocument(cfg, s).metanames;
    assert Pieces(nb[m]) + [] == Pieces(nb[m]);
  }

  /** Buffer `m` of a document that includes others, to any depth, splits to the texts told of `m`:
      its own and, where each include stands, those of the included document. */
  lemma {:induction false} ParsedGathers(cfg: Config, pages: seq<Page>, m: string)
    requires m in cfg.metanames
    requires DEFAULT_METANAME in cfg.metanames && Legible(cfg, [], pages) && Single(cfg, [], pages, m)
    ensures var nb := Parsed(cfg, pages).metanames;
            m in nb && NoNul(nb[m]) && Pieces(nb[m]) == Gathered(cfg, Entries(cfg, pages), m)
    decreases pages, 1
  {
    CopiesInside(cfg, [], pages, m);
    StartHolds(cfg, Flushes(cfg, [], pages) || true, m);
    hide Holds, Legible, Single, RunPages, Relate, Copies, Break, MetaOf, EndDocument, Gathered, Pieces, NoNul, Start,
         Flushes;
    PagesHold(cfg, Start(cfg), [], pages, Story([], "", 0), true, m);
    EndHolds(cfg, RunPages(cfg, Start(cfg), pages), Relate(cfg, [], pages, Story([], "", 0), true), m);
  }

  // ---------------------------------------------------------------- the including document by itself

  /** The document with its include elements as ordinary ones. */
  function Alone(pages: seq<Page>): seq<Node>
    decreases pages
  {
    if pages == [] then [] else [AlonePage(pages[0])] + Alone(pages[1..])
  }

  function AlonePage(p: Page): Node
    decreases p
  {
    match p
    case Say(ch) => Chars(ch)
    case Note(cmt) => Remark(cmt)
    case Within(e, kids) => Element(e, Alone(kids))
    case XInclude(e, _, kids) => Element(e, Alone(kids))
  }

  function Own(entries: seq<Entry>): seq<Passage> {
    if entries == [] then []
    else
      var k := |entries| - 1;
      Own(entries[..k]) + match entries[k] case Mine(p, _) => [p] case Theirs(_) => []
  }

  function OwnReading(st: Story): Reading {
    Reading(Own(st.done), st.run, st.ignore)
  }

  lemma OwnTold(done: seq<Entry>, names: seq<string>, run: string, whole: bool)
    ensures Own(done + Told(names, run, whole)) == Own(done) + Emit(names, run)
  {
    hide AllSpace;
    if AllSpace(run) {
      assert done + [] == done;
    } else {
      assert (done + [Mine(Passage(names, run), whole)])[..|done|] == done;
    }
  }

  lemma OwnCut(cfg: Config, open: seq<Elem>, st: Story, whole: bool)
    ensures OwnReading(Break(cfg, open, st, whole)) == Cut(cfg, open, OwnReading(st))
  {
    hide MetaOf, Own, Told, Emit;
    OwnTold(st.done, Names(MetaOf(cfg, open)), st.run, whole);
  }

  /** After the flush for an include there is no run left for its opening tag to cut. */
  lemma OwnInclude(cfg: Config, open: seq<Elem>, st: Story, theirs: seq<Entry>)
    ensures Cut(cfg, open, OwnReading(Including(cfg, open, st, theirs))) == Cut(cfg, open, OwnReading(st))
    ensures Including(cfg, open, st, theirs).ignore == st.ignore
  {
    hide MetaOf, Told, Emit, Own;
    var st1, names := Break(cfg, open, st, true), Names(MetaOf(cfg, open));
    OwnCut(cfg, open, st, true);
    OwnTheirs(st1.done, theirs);
    NoEmit(names);
    assert Own(st1.done) + [] == Own(st1.done);
  }

  lemma OwnTheirs(done: seq<Entry>, theirs: seq<Entry>)
    ensures Own(done + [Theirs(theirs)]) == Own(done)
  {
    assert (done + [Theirs(theirs)])[..|done|] == done;
  }

  lemma NoEmit(names: seq<string>)
    ensures Emit(names, "") == []
  {
  }

  lemma {:induction false} OwnRelate(cfg: Config, open: seq<Elem>, pages: seq<Page>, st: Story, later: bool)
    ensures OwnReading(Relate(cfg, open, pages, st, later)) == Read(cfg, open, Alone(pages), OwnReading(st))
    decreases pages, 0
  {
    hide RelatePage, ReadNode, AlonePage, OwnReading, Flushes;
    if pages != [] {
      var after := Flushes(cfg, open, pages[1..]) || later;
      OwnRelatePage(cfg, open, pages[0], st, after);
      OwnRelate(cfg, open, pages[1..], RelatePage(cfg, open, pages[0], st, after), later);
      assert ([AlonePage(pages[0])] + Alone(pages[1..]))[1..] == Alone(pages[1..]);
    }
  }

  lemma {:induction false} OwnRelatePage(cfg: Config, open: seq<Elem>, p: Page, st: Story, later: bool)
    ensures OwnReading(RelatePage(cfg, open, p, st, later)) == ReadNode(cfg, open, AlonePage(p), OwnReading(st))
    decreases p, 0
  {
    hide RelateElement, Read, Alone, Break, Cut, Own, MetaOf, Defined, DirectiveOf, Entries, Including;
    match p
    case Say(_) =>
    case Note(_) => OwnCut(cfg, open, st, later);
    case Within(e, kids) => OwnElement(cfg, open, e, kids, st, later);
    case XInclude(e, inner, kids) =>
      OwnInclude(cfg, open, st, Entries(cfg, inner));
      OwnElement(cfg, open, e, kids, Including(cfg, open, st, Entries(cfg, inner)), later);
  }

  lemma {:induction false} OwnElement(cfg: Config, open: seq<Elem>, e: Elem, kids: seq<Page>, st: Story, later: bool)
    ensures OwnReading(RelateElement(cfg, open, e, kids, st, later))
         == ReadNode(cfg, open, Element(e, Alone(kids)), OwnReading(st))
    decreases kids, 1
  {
    hide Relate, Read, Alone, Break, Cut, Own, MetaOf, Defined, GoesOnMeta, ElementFlushes;
    var inside := !GoesOnMeta(cfg, open, e) && later;
    var whole := ElementFlushes(cfg, open, e, kids) || later;
    var st1 := BreakAtTag(cfg, open, e, st, whole);
    OwnCut(cfg, open, st, whole);
    OwnRelate(cfg, open + [e], kids, st1, inside);
    OwnCut(cfg, open + [e], Relate(cfg, open + [e], kids, st1, inside), inside);
  }

  /** Including leaves a document's own passages as they are: none is cut, moved to another
      metaname or lost. */
  lemma OwnPassages(cfg: Config, pages: seq<Page>)
    ensures Own(Entries(cfg, pages)) == Passages(cfg, Alone(pages))
  {
    hide Relate, Read, Alone, Break, Cut, Own;
    NothingOwned();
    OwnRelate(cfg, [], pages, Story([], "", 0), true);
    OwnCut(cfg, [], Relate(cfg, [], pages, Story([], "", 0), true), true);
  }

  lemma NothingOwned()
    ensures Own([]) == []
  {
  }
}
