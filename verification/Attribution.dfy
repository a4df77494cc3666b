/** What a document means to the indexer, read off the tree without any buffer or stack, and
    the proof that the SAX machine and the splitter together compute just that. */
module Attribution {
  import opened CString
  import opened NamedBuffers
  import opened TagStacks
  import opened Directives
  import opened Sax
  import opened StackDiscipline

  datatype Node = Chars(ch: string) | Remark(cmt: string) | Element(e: Elem, kids: seq<Node>)

  function Events(ns: seq<Node>): seq<Event>
    decreases ns
  {
    if ns == [] then [] else NodeEvents(ns[0]) + Events(ns[1..])
  }

  function NodeEvents(n: Node): seq<Event>
    decreases n
  {
    match n
    case Chars(ch) => [Text(ch)]
    case Remark(cmt) => [Comment(cmt)]
    case Element(e, kids) => [Open(e)] + Events(kids) + [Close(e)]
  }

  // ---------------------------------------------------------------- the meaning of a document

  /** A run of text, and the names of the metanames it lies in, outermost first. */
  datatype Passage = Passage(names: seq<string>, text: string)

  /** Reading a document front to back: the passages complete so far, the run being read, and
      how many noindex comments are in force. */
  datatype Reading = Reading(done: seq<Passage>, run: string, ignore: nat)

  function Emit(names: seq<string>, run: string): seq<Passage> {
    if AllSpace(run) then [] else [Passage(names, run)]
  }

  /** A tag or an ordinary comment ends the run; a blank run is nothing. */
  function Cut(cfg: Config, open: seq<Elem>, r: Reading): Reading {
    r.(done := r.done + Emit(Names(MetaOf(cfg, open)), r.run), run := "")
  }

  /** Tags that are neither metanames nor aliased put indexing back on. */
  function CutAtTag(cfg: Config, open: seq<Elem>, e: Elem, r: Reading): Reading {
    Cut(cfg, open, r).(ignore := if Defined(cfg, e) then r.ignore else 0)
  }

  function ReadNode(cfg: Config, open: seq<Elem>, n: Node, r: Reading): Reading
    decreases n
  {
    match n
    case Chars(ch) => if r.ignore > 0 then r else r.(run := r.run + ch)
    case Remark(cmt) => ReadRemark(cfg, open, DirectiveOf(cmt), r)
    case Element(e, kids) =>
      CutAtTag(cfg, open + [e], e, Read(cfg, open + [e], kids, CutAtTag(cfg, open, e, r)))
  }

  function ReadRemark(cfg: Config, open: seq<Elem>, directive: Directive, r: Reading): Reading {
    match directive
    case Blank => r
    case Command => r
    case NoIndex => r.(ignore := r.ignore + 1)
    case Index => r.(ignore := if r.ignore > 0 then r.ignore - 1 else 0)
    case Plain => Cut(cfg, open, r)
  }

  function Read(cfg: Config, open: seq<Elem>, ns: seq<Node>, r: Reading): Reading
    decreases ns
  {
    if ns == [] then r else Read(cfg, open, ns[1..], ReadNode(cfg, open, ns[0], r))
  }

  /** The passages of a whole document, in document order. */
  function Passages(cfg: Config, doc: seq<Node>): seq<Passage> {
    Cut(cfg, [], Read(cfg, [], doc, Reading([], "", 0))).done
  }

  // ---------------------------------------------------------------- which documents

  /** Every element is known and paired where it stands. */
  predicate Sound(cfg: Config, open: seq<Elem>, ns: seq<Node>)
    decreases ns
  {
    ns == [] || (SoundNode(cfg, open, ns[0]) && Sound(cfg, open, ns[1..]))
  }

  predicate SoundNode(cfg: Config, open: seq<Elem>, n: Node)
    decreases n
  {
    n.Element? ==> Known(cfg, open, n.e) && Paired(cfg, open, n.e) && Sound(cfg, open + [n.e], n.kids)
  }

  /** No NUL and no \3 in the text: section 2.2 of XML 1.0 allows neither. */
  predicate XmlText(ns: seq<Node>)
    decreases ns
  {
    ns == [] || (XmlTextNode(ns[0]) && XmlText(ns[1..]))
  }

  predicate XmlTextNode(n: Node)
    decreases n
  {
    match n
    case Chars(ch) => NoNul(ch) && NoBumper(ch)
    case Remark(_) => true
    case Element(_, kids) => XmlText(kids)
  }

  // ---------------------------------------------------------------- the machine as a reader

  function Label(names: seq<string>, pieces: seq<string>): (ps: seq<Passage>)
    ensures |ps| == |pieces|
  {
    seq(|pieces|, i requires 0 <= i < |pieces| => Passage(names, pieces[i]))
  }

  /** The passages the flushes so far carried, in order. */
  function Carried(flushes: seq<Flush>): seq<Passage> {
    if flushes == [] then []
    else
      var k := |flushes| - 1;
      Carried(flushes[..k]) + Label(flushes[k].names, Pieces(flushes[k].text))
  }

  function LastPart(s: string): string {
    var parts := Split(s);
    parts[|parts| - 1]
  }

  function ClosedPieces(s: string): seq<string> {
    var parts := Split(s);
    Keep(parts[..|parts| - 1])
  }

  /** A machine state seen as a reading: with `bump` set the run in the buffer is over. */
  function ReadingOf(s: State): Reading {
    Reading(Carried(s.flushes) + Label(Names(s.meta), if s.bump then Pieces(s.metaBuf) else ClosedPieces(s.metaBuf)),
            if s.bump then "" else LastPart(s.metaBuf),
            s.ignore)
  }

  lemma LabelConcat(names: seq<string>, p: seq<string>, q: seq<string>)
    ensures Label(names, p + q) == Label(names, p) + Label(names, q)
  {
  }

  lemma PiecesByLastPart(s: string)
    ensures Pieces(s) == ClosedPieces(s) + Kept(LastPart(s))
  {
    var parts := Split(s);
    var k := |parts| - 1;
    assert parts == parts[..k] + [parts[k]];
    KeepConcat(parts[..k], [parts[k]]);
    assert Keep([parts[k]]) == Kept(parts[k]) + Keep([parts[k]][1..]);
  }

  /** Once the run in the buffer is over, the buffer holds just the passages read. */
  lemma WholeBuffer(s: State)
    ensures Carried(s.flushes) + Label(Names(s.meta), Pieces(s.metaBuf))
         == ReadingOf(s).done + Emit(Names(s.meta), ReadingOf(s).run)
  {
    hide Carried, Split, Keep;
    var names := Names(s.meta);
    if s.bump {
      assert Emit(names, "") == [];
    } else {
      PiecesByLastPart(s.metaBuf);
      LabelConcat(names, ClosedPieces(s.metaBuf), Kept(LastPart(s.metaBuf)));
      assert Label(names, Kept(LastPart(s.metaBuf))) == Emit(names, LastPart(s.metaBuf));
    }
  }

  lemma CharsRead(s: State, ch: string)
    requires NoBumper(ch)
    ensures ReadingOf(Characters(s, ch))
         == if s.ignore > 0 then ReadingOf(s) else ReadingOf(s).(run := ReadingOf(s).run + ch)
  {
    hide Carried, Split, Keep;
    if s.ignore == 0 {
      if s.bump && s.metaBuf != "" {
        BumpedText(s.metaBuf, ch);
      } else {
        if s.bump {
          EmptyBuffer();
        }
        MoreText(s.metaBuf, ch);
        assert s.metaBuf + "" + ch == s.metaBuf + ch;
      }
    }
  }

  lemma BumpedText(buf: string, ch: string)
    requires NoBumper(ch)
    ensures ClosedPieces(buf + [BUMPER] + ch) == Pieces(buf) && LastPart(buf + [BUMPER] + ch) == ch
  {
    SplitJoin(buf, ch);
    SplitPlain(ch);
    assert (Split(buf) + [ch])[..|Split(buf)|] == Split(buf);
  }

  lemma MoreText(buf: string, ch: string)
    requires NoBumper(ch)
    ensures ClosedPieces(buf + ch) == ClosedPieces(buf) && LastPart(buf + ch) == LastPart(buf) + ch
  {
    SplitExtend(buf, ch);
    var k := |Split(buf)| - 1;
    assert (Split(buf)[..k] + [Split(buf)[k] + ch])[..k] == Split(buf)[..k];
  }

  lemma EmptyBuffer()
    ensures ClosedPieces("") == [] && LastPart("") == "" && Pieces("") == []
  {
    PiecesPlain("");
    assert Split("") == [""];
  }

  /** The bump of a tag or comment cuts the run, whether or not a flush follows. */
  lemma BumpCuts(s: State)
    ensures ReadingOf(s.(bump := true))
         == ReadingOf(s).(done := ReadingOf(s).done + Emit(Names(s.meta), ReadingOf(s).run), run := "")
  {
    hide Carried, Split, Keep;
    WholeBuffer(s);
  }

  lemma CarriedSnoc(flushes: seq<Flush>, f: Flush)
    ensures Carried(flushes + [f]) == Carried(flushes) + Label(f.names, Pieces(f.text))
  {
    assert (flushes + [f])[..|flushes|] == flushes;
  }

  /** A flush under the names in force, followed by any change of the metaname stack, changes
      nothing about what has been read. */
  lemma FlushKeepsReading(cfg: Config, s: State, metaname: string, context: string, names: seq<string>, s': State)
    requires metaname in cfg.metanames && s.bump
    requires s'.flushes == FlushBuffer(cfg, s, metaname, context, names).flushes
    requires s'.metaBuf == "" && s'.bump && s'.ignore == s.ignore
    ensures ReadingOf(s').done == Carried(s.flushes) + Label(names, Pieces(s.metaBuf))
    ensures ReadingOf(s').run == "" && ReadingOf(s').ignore == s.ignore
  {
    hide Carried, Split, Keep, Targets, AddAll;
    EmptyBuffer();
    CarriedSnoc(s.flushes, FlushBuffer(cfg, s, metaname, context, names).flushes[|s.flushes|]);
    assert Label(Names(s'.meta), []) == [];
  }

  lemma OpenReads(cfg: Config, s: State, open: seq<Elem>, e: Elem)
    requires Live(cfg, s) && At(cfg, s, open) && Known(cfg, open, e)
    ensures ReadingOf(Step(cfg, s, Open(e))) == CutAtTag(cfg, open, e, ReadingOf(s))
  {
    hide Carried, Split, Keep, Targets, AddAll, Bake, Join, DomOf, PropOf, MetaOf, IsMeta, IsProp, StackName,
         ReadingOf, Defined;
    OpenPushes(cfg, s, open, e);
    var b := Baked(cfg, s, e);
    BumpReads(cfg, s, open, e);
    var tag := Bake(cfg, Names(s.dom), e);
    var path := Join(Names(s.dom) + [tag], DOT);
    if IsMeta(cfg, tag, path) {
      FlushReads(cfg, b, Top(s.meta).baked, Top(s.meta).context, Names(s.meta), Step(cfg, s, Open(e)));
    } else {
      SameReading(b, Step(cfg, s, Open(e)));
    }
  }

  lemma SameReading(s: State, s': State)
    requires s'.metaBuf == s.metaBuf && s'.bump == s.bump && s'.ignore == s.ignore
    requires s'.flushes == s.flushes && s'.meta == s.meta
    ensures ReadingOf(s') == ReadingOf(s)
  {
  }

  lemma BumpReads(cfg: Config, s: State, open: seq<Elem>, e: Elem)
    requires At(cfg, s, open)
    ensures ReadingOf(Baked(cfg, s, e)) == CutAtTag(cfg, open, e, ReadingOf(s))
  {
    hide Carried, Split, Keep, MetaOf, DomOf, PropOf, Defined;
    BumpCuts(s);
  }

  lemma FlushReads(cfg: Config, s: State, metaname: string, context: string, names: seq<string>, s': State)
    requires metaname in cfg.metanames && s.bump
    requires s'.flushes == FlushBuffer(cfg, s, metaname, context, names).flushes
    requires s'.metaBuf == "" && s'.bump && s'.ignore == s.ignore
    requires names == Names(s.meta)
    ensures ReadingOf(s') == ReadingOf(s)
  {
    hide Carried, Split, Keep, Targets, AddAll;
    FlushKeepsReading(cfg, s, metaname, context, names, s');
  }

  lemma CloseReads(cfg: Config, s: State, open: seq<Elem>, e: Elem)
    requires Live(cfg, s) && At(cfg, s, open + [e]) && Paired(cfg, open, e)
    ensures ReadingOf(Step(cfg, s, Close(e))) == CutAtTag(cfg, open + [e], e, ReadingOf(s))
  {
    hide Carried, Split, Keep, Targets, AddAll, Bake, Join, DomOf, PropOf, MetaOf, IsMeta, IsProp, StackName,
         ReadingOf, Defined, Paired;
    CloseRestores(cfg, s, open, e);
    var b := Baked(cfg, s, e);
    BumpReads(cfg, s, open + [e], e);
    var s' := Step(cfg, s, Close(e));
    if Top(s.meta).raw == e.raw {
      var popped := b.(meta := s.meta[..|s.meta| - 1]);
      FlushKeepsReading(cfg, popped, Top(s.meta).baked, Top(s.meta).context, Names(s.meta), s');
      WholeBuffer(b);
      Bumped(b);
      assert ReadingOf(s') == ReadingOf(b);
    } else {
      SameReading(b, s');
    }
  }

  lemma Bumped(s: State)
    requires s.bump
    ensures ReadingOf(s).run == "" && ReadingOf(s).ignore == s.ignore
    ensures Emit(Names(s.meta), "") == []
  {
    hide Carried, Split, Keep;
  }

  lemma RemarkReads(cfg: Config, s: State, open: seq<Elem>, cmt: string)
    requires Live(cfg, s) && At(cfg, s, open)
    ensures ReadingOf(Step(cfg, s, Comment(cmt))) == ReadRemark(cfg, open, DirectiveOf(cmt), ReadingOf(s))
  {
    hide DirectiveOf, Carried, Split, Keep, MetaOf, DomOf, PropOf;
    BumpCuts(s);
  }

  // ---------------------------------------------------------------- the whole document

  /** Running the events of a forest reads it: the machine never fails, its stacks come back,
      and its state read as a reading is what the tree says. */
  lemma {:induction false} RunReads(cfg: Config, s: State, open: seq<Elem>, ns: seq<Node>)
    requires Live(cfg, s) && At(cfg, s, open)
    requires Sound(cfg, open, ns) && XmlText(ns)
    ensures var s' := Run(cfg, s, Events(ns));
            && Runnable(cfg, s, Events(ns)) && Live(cfg, s') && At(cfg, s', open)
            && ReadingOf(s') == Read(cfg, open, ns, ReadingOf(s))
    decreases ns
  {
    hide Live, At, ReadingOf, Step, Enabled, ReadNode, NodeEvents;
    if ns != [] {
      RunReadsNode(cfg, s, open, ns[0]);
      var s1 := Run(cfg, s, NodeEvents(ns[0]));
      RunReads(cfg, s1, open, ns[1..]);
      RunConcat(cfg, s, NodeEvents(ns[0]), Events(ns[1..]));
    }
  }

  lemma {:induction false} RunReadsNode(cfg: Config, s: State, open: seq<Elem>, n: Node)
    requires Live(cfg, s) && At(cfg, s, open)
    requires SoundNode(cfg, open, n) && XmlTextNode(n)
    ensures var s' := Run(cfg, s, NodeEvents(n));
            && Runnable(cfg, s, NodeEvents(n)) && Live(cfg, s') && At(cfg, s', open)
            && ReadingOf(s') == ReadNode(cfg, open, n, ReadingOf(s))
    decreases n
  {
    hide Live, At, ReadingOf, Enabled, Read, Events, DirectiveOf, Known, Paired, OpenTag, CloseTag, Characters,
         Comments, ReadRemark, CutAtTag;
    match n {
      case Chars(ch) =>
        StillAt(cfg, s, open, Text(ch));
        RunOne(cfg, s, Text(ch));
        CharsRead(s, ch);
        IgnoreOf(s);
      case Remark(cmt) =>
        StillAt(cfg, s, open, Comment(cmt));
        RunOne(cfg, s, Comment(cmt));
        RemarkReads(cfg, s, open, cmt);
      case Element(e, kids) =>
        hide Step, Run, Runnable;
        OpenPushes(cfg, s, open, e);
        OpenReads(cfg, s, open, e);
        RunOne(cfg, s, Open(e));
        var s1 := Step(cfg, s, Open(e));
        RunReads(cfg, s1, open + [e], kids);
        var s2 := Run(cfg, s1, Events(kids));
        CloseRestores(cfg, s2, open, e);
        CloseReads(cfg, s2, open, e);
        RunOne(cfg, s2, Close(e));
        RunConcat(cfg, s, [Open(e)], Events(kids));
        RunConcat(cfg, s, [Open(e)] + Events(kids), [Close(e)]);
    }
  }

  lemma IgnoreOf(s: State)
    ensures ReadingOf(s).ignore == s.ignore
  {
  }
}
