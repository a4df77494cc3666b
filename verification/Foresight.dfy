/** What becomes of each passage under cascade_meta_context: whether the metaname it lies in still
    heads the stack when its text is flushed, read off the tree by looking ahead, and from that
    exactly what every buffer holds. */
module Foresight {
  import opened CString
  import opened NamedBuffers
  import opened Seqs
  import opened TagStacks
  import opened Directives
  import opened Sax
  import opened StackDiscipline
  import opened Attribution
  import opened Harvest

  // ---------------------------------------------------------------- looking ahead

  /** A metaname opens somewhere in these nodes. */
  predicate Opens(cfg: Config, open: seq<Elem>, ns: seq<Node>)
    decreases ns
  {
    ns != [] && (NodeOpens(cfg, open, ns[0]) || Opens(cfg, open, ns[1..]))
  }

  predicate NodeOpens(cfg: Config, open: seq<Elem>, n: Node)
    decreases n
  {
    n.Element? && (GoesOnMeta(cfg, open, n.e) || Opens(cfg, open + [n.e], n.kids))
  }

  /** A reading, and for each passage of it whether its metaname will still be on the stack. */
  datatype Told = Told(reading: Reading, fates: seq<bool>)

  function CutFates(t: Told, fate: bool): seq<bool> {
    t.fates + if AllSpace(t.reading.run) then [] else [fate]
  }

  /** Reading on, knowing whether a metaname opens `later`: after these nodes, but before the
      metaname around them closes. */
  function Tell(cfg: Config, open: seq<Elem>, ns: seq<Node>, t: Told, later: bool): Told
    decreases ns
  {
    if ns == [] then t
    else Tell(cfg, open, ns[1..], TellNode(cfg, open, ns[0], t, Opens(cfg, open, ns[1..]) || later), later)
  }

  function TellNode(cfg: Config, open: seq<Elem>, n: Node, t: Told, later: bool): Told
    decreases n
  {
    match n
    case Chars(_) => Told(ReadNode(cfg, open, n, t.reading), t.fates)
    case Remark(cmt) =>
      Told(ReadNode(cfg, open, n, t.reading), if DirectiveOf(cmt) == Plain then CutFates(t, later) else t.fates)
    case Element(e, kids) =>
      var inside := !GoesOnMeta(cfg, open, e) && later;
      var t1 := Told(CutAtTag(cfg, open, e, t.reading), CutFates(t, NodeOpens(cfg, open, n) || later));
      var t2 := Tell(cfg, open + [e], kids, t1, inside);
      Told(CutAtTag(cfg, open + [e], e, t2.reading), CutFates(t2, inside))
  }

  lemma {:induction false} TellReads(cfg: Config, open: seq<Elem>, ns: seq<Node>, t: Told, later: bool)
    ensures var r := Tell(cfg, open, ns, t, later);
            r.reading == Read(cfg, open, ns, t.reading)
            && |r.fates| - |t.fates| == |r.reading.done| - |t.reading.done|
    decreases ns
  {
    hide ReadNode, TellNode, Opens;
    if ns != [] {
      var after := Opens(cfg, open, ns[1..]) || later;
      TellNodeReads(cfg, open, ns[0], t, after);
      TellReads(cfg, open, ns[1..], TellNode(cfg, open, ns[0], t, after), later);
    }
  }

  lemma {:induction false} TellNodeReads(cfg: Config, open: seq<Elem>, n: Node, t: Told, later: bool)
    ensures var r := TellNode(cfg, open, n, t, later);
            r.reading == ReadNode(cfg, open, n, t.reading)
            && |r.fates| - |t.fates| == |r.reading.done| - |t.reading.done|
    decreases n
  {
    hide Tell, Read, MetaOf, DirectiveOf, Defined, NodeOpens, GoesOnMeta;
    if n.Element? {
      var inside := !GoesOnMeta(cfg, open, n.e) && later;
      var t1 := Told(CutAtTag(cfg, open, n.e, t.reading), CutFates(t, NodeOpens(cfg, open, n) || later));
      TellReads(cfg, open + [n.e], n.kids, t1, inside);
    }
  }

  /** A run filed under `names`. */
  function Filed(t: Told, names: seq<string>, fate: bool): Told {
    Told(Reading(t.reading.done + Emit(names, t.reading.run), "", t.reading.ignore), CutFates(t, fate))
  }

  lemma TellChars(cfg: Config, open: seq<Elem>, ch: string, rest: seq<Node>, t: Told, later: bool)
    requires t.reading.ignore == 0
    ensures Tell(cfg, open, [Chars(ch)] + rest, t, later)
         == Tell(cfg, open, rest, t.(reading := t.reading.(run := t.reading.run + ch)), later)
  {
    hide Opens;
    assert ([Chars(ch)] + rest)[1..] == rest;
  }

  /** A metaname element files what was read before it as still standing, and what ends it as gone. */
  lemma TellMeta(cfg: Config, open: seq<Elem>, e: Elem, kids: seq<Node>, rest: seq<Node>, t: Told, later: bool)
    requires GoesOnMeta(cfg, open, e) && Defined(cfg, e)
    ensures var outer, inner := Names(MetaOf(cfg, open)), Names(MetaOf(cfg, open + [e]));
            var inside := Tell(cfg, open + [e], kids, Filed(t, outer, true), false);
            Tell(cfg, open, [Element(e, kids)] + rest, t, later)
            == Tell(cfg, open, rest, Filed(inside, inner, false), later)
  {
    hide GoesOnMeta, Defined, MetaOf, CutFates, Opens;
    var n := Element(e, kids);
    assert ([n] + rest)[1..] == rest && ([n] + rest)[0] == n;
    assert NodeOpens(cfg, open, n);
    assert CutAtTag(cfg, open, e, t.reading) == Filed(t, Names(MetaOf(cfg, open)), true).reading;
  }

  // ---------------------------------------------------------------- the machine's own record

  function Same(n: nat, fate: bool): (r: seq<bool>)
    ensures |r| == n
  {
    seq(n, _ => fate)
  }

  function Flags(sent: seq<Sent>): (r: seq<bool>)
    ensures |r| == |sent|
  {
    seq(|sent|, i requires 0 <= i < |sent| => sent[i].whole)
  }

  /** How many passages are in the buffer, not flushed yet. */
  function Waiting(s: State): nat {
    |ReadingOf(s).done| - |Carried(s.flushes)|
  }

  /** The fates so far, if all that wait in the buffer come to `fate`. */
  function FatesOf(s: State, fate: bool): seq<bool> {
    Flags(SentBy(s.flushes)) + Same(Waiting(s), fate)
  }

  lemma SameConcat(a: nat, b: nat, fate: bool)
    ensures Same(a, fate) + Same(b, fate) == Same(a + b, fate)
  {
  }

  lemma NoFlushFates(s: State, s': State, fate: bool)
    requires s'.flushes == s.flushes && |ReadingOf(s').done| >= |ReadingOf(s).done|
    ensures FatesOf(s', fate) == FatesOf(s, fate) + Same(|ReadingOf(s').done| - |ReadingOf(s).done|, fate)
  {
    hide ReadingOf, Carried, SentBy, Flags;
    var d := |ReadingOf(s').done| - |ReadingOf(s).done|;
    SameConcat(Waiting(s), d, fate);
    Assoc(Flags(SentBy(s.flushes)), Same(Waiting(s), fate), Same(d, fate));
  }

  lemma FlagsSnoc(flushes: seq<Flush>, f: Flush)
    ensures Flags(SentBy(flushes + [f])) == Flags(SentBy(flushes)) + Same(|Pieces(f.text)|, f.whole)
  {
    hide Pieces;
    assert (flushes + [f])[..|flushes|] == flushes;
  }

  /** A flush decides the fate of all that waits. */
  lemma FlushFates(s: State, f: Flush, s': State, any: bool)
    requires s'.flushes == s.flushes + [f] && s'.metaBuf == "" && s'.bump
    requires |ReadingOf(s').done| >= |ReadingOf(s).done|
    ensures FatesOf(s', any) == FatesOf(s, f.whole) + Same(|ReadingOf(s').done| - |ReadingOf(s).done|, f.whole)
  {
    hide Carried, SentBy, Flags, Pieces, Split, Keep;
    EmptyBuffer();
    assert ReadingOf(s').done == Carried(s'.flushes) + [];
    FlagsSnoc(s.flushes, f);
    CarriedSnoc(s.flushes, f);
    SentPassages(s.flushes);
    SentPassages(s'.flushes);
    hide ReadingOf;
    var d := |ReadingOf(s').done| - |ReadingOf(s).done|;
    assert |Pieces(f.text)| == Waiting(s) + d;
    SameConcat(Waiting(s), d, f.whole);
    Assoc(Flags(SentBy(s.flushes)), Same(Waiting(s), f.whole), Same(d, f.whole));
    assert Same(0, any) == [];
  }

  // ---------------------------------------------------------------- one event

  /** What is cut off by an event comes to the same fate as what waits already. */
  lemma CutSame(cfg: Config, open: seq<Elem>, t: Told, fate: bool)
    ensures var d := |Cut(cfg, open, t.reading).done| - |t.reading.done|;
            d >= 0 && CutFates(t, fate) == t.fates + Same(d, fate)
  {
    hide MetaOf;
    assert Same(0, fate) == [] && Same(1, fate) == [fate];
  }

  lemma OpenFates(cfg: Config, s: State, open: seq<Elem>, e: Elem, t: Told, fate: bool, any: bool)
    requires Live(cfg, s) && At(cfg, s, open) && Known(cfg, open, e)
    requires ReadingOf(s) == t.reading && FatesOf(s, fate) == t.fates && (GoesOnMeta(cfg, open, e) ==> fate)
    ensures var s' := Step(cfg, s, Open(e));
            && (GoesOnMeta(cfg, open, e) ==> FatesOf(s', any) == CutFates(t, fate))
            && (!GoesOnMeta(cfg, open, e) ==> FatesOf(s', fate) == CutFates(t, fate))
  {
    hide Bake, Join, Targets, AddAll, DomOf, PropOf, MetaOf, IsProp, StackName, ReadingOf, Defined, FatesOf, CutFates,
         Cut;
    OpenPushes(cfg, s, open, e);
    OpenReads(cfg, s, open, e);
    CutSame(cfg, open, t, fate);
    var s' := Step(cfg, s, Open(e));
    if GoesOnMeta(cfg, open, e) {
      FlushFates(s, s'.flushes[|s.flushes|], s', any);
    } else {
      NoFlushFates(s, s', fate);
    }
  }

  lemma CloseFates(cfg: Config, s: State, open: seq<Elem>, e: Elem, t: Told, fate: bool, any: bool)
    requires Live(cfg, s) && At(cfg, s, open + [e]) && Paired(cfg, open, e)
    requires ReadingOf(s) == t.reading && FatesOf(s, fate) == t.fates && (GoesOnMeta(cfg, open, e) ==> !fate)
    ensures var s' := Step(cfg, s, Close(e));
            && (GoesOnMeta(cfg, open, e) ==> FatesOf(s', any) == CutFates(t, fate))
            && (!GoesOnMeta(cfg, open, e) ==> FatesOf(s', fate) == CutFates(t, fate))
  {
    hide Bake, Join, Targets, AddAll, DomOf, PropOf, IsMeta, IsProp, StackName, ReadingOf, Defined, FatesOf, CutFates,
         Cut;
    CloseRestores(cfg, s, open, e);
    CloseReads(cfg, s, open, e);
    CutSame(cfg, open + [e], t, fate);
    Outer(open, e);
    var s' := Step(cfg, s, Close(e));
    if GoesOnMeta(cfg, open, e) {
      assert Top(s.meta).raw == e.raw;
      FlushFates(s, s'.flushes[|s.flushes|], s', any);
    } else {
      NoFlushFates(s, s', fate);
    }
  }

  // ---------------------------------------------------------------- the whole document

  /** For every passage of a document: whether its flush finds the stack whole.  That is so when a
      metaname opens after it inside the same metaname element, and for what stands in no
      metaname element at all; otherwise the element's own closing tag flushes it. */
  function Fates(cfg: Config, doc: seq<Node>): (fates: seq<bool>)
    ensures |fates| == |Passages(cfg, doc)|
  {
    var t := Tell(cfg, [], doc, Told(Reading([], "", 0), []), true);
    TellReads(cfg, [], doc, Told(Reading([], "", 0), []), true);
    CutSame(cfg, [], t, true);
    CutFates(t, true)
  }

  /** Running the events of a forest decides the fates the tree tells. */
  lemma {:induction false} RunTells(cfg: Config, s: State, open: seq<Elem>, ns: seq<Node>, t: Told, later: bool)
    requires Live(cfg, s) && At(cfg, s, open) && Sound(cfg, open, ns) && XmlText(ns)
    requires ReadingOf(s) == t.reading && FatesOf(s, Opens(cfg, open, ns) || later) == t.fates
    ensures FatesOf(Run(cfg, s, Events(ns)), later) == Tell(cfg, open, ns, t, later).fates
    decreases ns, 0
  {
    hide Live, At, ReadingOf, Step, Enabled, ReadNode, NodeEvents, FatesOf, TellNode, NodeOpens, SoundNode, XmlTextNode;
    if ns != [] {
      var after := Opens(cfg, open, ns[1..]) || later;
      var s1, t1 := Run(cfg, s, NodeEvents(ns[0])), TellNode(cfg, open, ns[0], t, after);
      RunReadsNode(cfg, s, open, ns[0]);
      TellNodeReads(cfg, open, ns[0], t, after);
      RunNodeTells(cfg, s, open, ns[0], t, after);
      RunTells(cfg, s1, open, ns[1..], t1, later);
      RunConcat(cfg, s, NodeEvents(ns[0]), Events(ns[1..]));
    }
  }

  lemma {:induction false} RunNodeTells(cfg: Config, s: State, open: seq<Elem>, n: Node, t: Told, later: bool)
    requires Live(cfg, s) && At(cfg, s, open) && SoundNode(cfg, open, n) && XmlTextNode(n)
    requires ReadingOf(s) == t.reading && FatesOf(s, NodeOpens(cfg, open, n) || later) == t.fates
    ensures FatesOf(Run(cfg, s, NodeEvents(n)), later) == TellNode(cfg, open, n, t, later).fates
    decreases n, 0
  {
    if n.Element? {
      ElementTells(cfg, s, open, n.e, n.kids, t, later);
    } else {
      OtherTells(cfg, s, open, n, t, later);
    }
  }

  lemma OtherTells(cfg: Config, s: State, open: seq<Elem>, n: Node, t: Told, later: bool)
    requires Live(cfg, s) && At(cfg, s, open) && XmlTextNode(n) && !n.Element?
    requires ReadingOf(s) == t.reading && FatesOf(s, later) == t.fates
    ensures FatesOf(Run(cfg, s, NodeEvents(n)), later) == TellNode(cfg, open, n, t, later).fates
  {
    hide Live, At, ReadingOf, Enabled, DirectiveOf, OpenTag, CloseTag, FatesOf, CutFates, Cut;
    var ev := NodeEvents(n)[0];
    assert NodeEvents(n) == [ev];
    RunOne(cfg, s, ev);
    RunReadsNode(cfg, s, open, n);
    CutSame(cfg, open, t, later);
    var s' := Step(cfg, s, ev);
    assert s'.flushes == s.flushes;
    assert t.fates + Same(0, later) == t.fates;
    NoFlushFates(s, s', later);
  }

  lemma {:induction false} ElementTells(cfg: Config, s: State, open: seq<Elem>, e: Elem, kids: seq<Node>, t: Told,
                                        later: bool)
    requires Live(cfg, s) && At(cfg, s, open) && SoundNode(cfg, open, Element(e, kids)) && XmlText(kids)
    requires ReadingOf(s) == t.reading && FatesOf(s, NodeOpens(cfg, open, Element(e, kids)) || later) == t.fates
    ensures FatesOf(Run(cfg, s, NodeEvents(Element(e, kids))), later)
         == TellNode(cfg, open, Element(e, kids), t, later).fates
    decreases kids, 1
  {
    hide Live, At, ReadingOf, Enabled, Read, Events, Known, Paired, Step, Run, Runnable, FatesOf, CutFates, CutAtTag,
         Tell, GoesOnMeta, Opens;
    var n := Element(e, kids);
    var meta := GoesOnMeta(cfg, open, e);
    var fate, inside := NodeOpens(cfg, open, n) || later, !meta && later;
    var t1 := Told(CutAtTag(cfg, open, e, t.reading), CutFates(t, fate));
    var t2 := Tell(cfg, open + [e], kids, t1, inside);
    OpenPushes(cfg, s, open, e);
    OpenReads(cfg, s, open, e);
    RunOne(cfg, s, Open(e));
    OpenFates(cfg, s, open, e, t, fate, Opens(cfg, open + [e], kids) || inside);
    var s1 := Step(cfg, s, Open(e));
    RunReads(cfg, s1, open + [e], kids);
    TellReads(cfg, open + [e], kids, t1, inside);
    RunTells(cfg, s1, open + [e], kids, t1, inside);
    var s2 := Run(cfg, s1, Events(kids));
    CloseFates(cfg, s2, open, e, t2, inside, later);
    RunOne(cfg, s2, Close(e));
    RunConcat(cfg, s, [Open(e)], Events(kids));
    RunConcat(cfg, s, [Open(e)] + Events(kids), [Close(e)]);
  }

  // ---------------------------------------------------------------- what the buffers hold

  /** The passages of a document with their fates. */
  function Sents(cfg: Config, doc: seq<Node>): (sent: seq<Sent>)
    ensures PassagesOf(sent) == Passages(cfg, doc)
  {
    var ps, fates := Passages(cfg, doc), Fates(cfg, doc);
    var sent := seq(|ps|, i requires 0 <= i < |ps| => Sent(ps[i], fates[i]));
    assert PassagesOf(sent) == ps;
    sent
  }

  lemma SentEqual(a: seq<Sent>, b: seq<Sent>)
    requires PassagesOf(a) == PassagesOf(b) && Flags(a) == Flags(b)
    ensures a == b
  {
    assert |a| == |PassagesOf(a)| == |PassagesOf(b)| == |b|;
    forall i | 0 <= i < |a| ensures a[i] == b[i] {
      assert PassagesOf(a)[i] == PassagesOf(b)[i] && Flags(a)[i] == Flags(b)[i];
    }
  }

  /** The flushes of a document send its passages, each with the fate the tree tells. */
  lemma DocumentSends(cfg: Config, doc: seq<Node>)
    requires DEFAULT_METANAME in cfg.metanames && Sound(cfg, [], doc) && XmlText(doc)
    ensures SentBy(Final(cfg, doc).flushes) == Sents(cfg, doc)
  {
    hide Live, At, AllPaired, Accounted, Run, Events, Sound, XmlText, Read, Runnable, ReadingOf, Start, MetaOf, Carried,
         Built, Tell, FatesOf, SentBy, CutFates, Passages, AllWellLabelled;
    var s0, t0 := Start(cfg), Told(Reading([], "", 0), []);
    StartOk(cfg);
    StartFates(cfg);
    RunTells(cfg, s0, [], doc, t0, true);
    RunReads(cfg, s0, [], doc);
    TellReads(cfg, [], doc, t0, true);
    var s, t := Run(cfg, s0, Events(doc)), Tell(cfg, [], doc, t0, true);
    AtMeta(cfg, s, []);
    var s' := Final(cfg, doc);
    FlushesCarryDocument(cfg, doc);
    EndFates(cfg, s, s', t);
    SentPassages(s'.flushes);
    FlagsOfSents(cfg, doc);
    SentEqual(SentBy(s'.flushes), Sents(cfg, doc));
  }

  lemma StartFates(cfg: Config)
    ensures FatesOf(Start(cfg), true) == []
  {
    EmptyBuffer();
  }

  lemma FlagsOfSents(cfg: Config, doc: seq<Node>)
    ensures Flags(Sents(cfg, doc)) == Fates(cfg, doc)
  {
    hide Passages, Fates;
  }

  /** The last flush: what stands in no metaname finds its stack whole. */
  lemma EndFates(cfg: Config, s: State, s': State, t: Told)
    requires DEFAULT_METANAME in cfg.metanames && s' == EndDocument(cfg, s)
    requires ReadingOf(s) == t.reading && FatesOf(s, true) == t.fates && Names(s.meta) == [DEFAULT_METANAME]
    requires MetaOf(cfg, []) == s.meta
    ensures Flags(SentBy(s'.flushes)) == CutFates(t, true)
  {
    hide Carried, SentBy, Flags, Pieces, Split, Keep, Targets, AddAll;
    var f := s'.flushes[|s.flushes|];
    FlagsSnoc(s.flushes, f);
    WholeBuffer(s);
    SentPassages(s.flushes);
    CutSame(cfg, [], t, true);
    var d := |Emit(Names(s.meta), ReadingOf(s).run)|;
    assert |Pieces(f.text)| == Waiting(s) + d;
    hide ReadingOf;
    SameConcat(Waiting(s), d, true);
    Assoc(Flags(SentBy(s.flushes)), Same(Waiting(s), true), Same(d, true));
  }

  /** Every piece of buffer `m` after a document is a copy of one of its passages.  These are just
      the passages that belong in `m`, each once and in document order, exactly when each is
      served what it is owed; and then the buffer splits to the texts of `m`.  When texts are not
      both missed and doubled, the texts alone tell as much. */
  lemma BufferHoldsItsTexts(cfg: Config, doc: seq<Node>, m: string)
    requires DEFAULT_METANAME in cfg.metanames && Sound(cfg, [], doc) && XmlText(doc)
    ensures var ps, sent := Passages(cfg, doc), Sents(cfg, doc);
            var origins := Origins(Final(cfg, doc).flushes, m);
            var pieces := Pieces(Content(Final(cfg, doc).metanames, m));
            && Below(origins, |ps|) && pieces == TextsAt(ps, origins)
            && (origins == Wanted(cfg, ps, m) <==> AllServed(cfg, sent, m))
            && (AllServed(cfg, sent, m) ==> pieces == TextsFor(cfg, ps, m))
            && (NeverShort(cfg, sent, m) || NeverOver(cfg, sent, m) ==>
                  (pieces == TextsFor(cfg, ps, m) <==> AllServed(cfg, sent, m)))
  {
    hide Sound, XmlText, Built, Pieces, AllWellLabelled, Final, Passages, TextsFor, PiecesFor, Carried, Content, Start,
         Origins, Wanted, Sents, SentBy, AllServed, NeverShort, NeverOver, TextsAt, Below;
    var flushes := Final(cfg, doc).flushes;
    FinalPieces(cfg, doc, m);
    DocumentSends(cfg, doc);
    PiecesAtOrigins(flushes, m);
    OriginsAreWanted(cfg, flushes, m);
    PiecesAreTexts(cfg, flushes, m);
  }

  lemma FinalPieces(cfg: Config, doc: seq<Node>, m: string)
    requires DEFAULT_METANAME in cfg.metanames && Sound(cfg, [], doc) && XmlText(doc)
    ensures Pieces(Content(Final(cfg, doc).metanames, m)) == PiecesFor(Final(cfg, doc).flushes, m)
    ensures AllWellLabelled(cfg, Final(cfg, doc).flushes)
    ensures Carried(Final(cfg, doc).flushes) == Passages(cfg, doc)
  {
    hide Sound, XmlText, Built, Pieces, AllWellLabelled, Final, Passages, PiecesFor, Carried;
    FlushesCarryDocument(cfg, doc);
    var flushes := Final(cfg, doc).flushes;
    FlushTexts(cfg, flushes);
    BuiltPieces(Start(cfg).metanames, flushes, m);
    NothingYet(cfg, m);
    assert [] + PiecesFor(flushes, m) == PiecesFor(flushes, m);
  }

  /** A buffer has as many pieces as copies its passages come to. */
  lemma OriginsCounted(cfg: Config, doc: seq<Node>, m: string)
    requires DEFAULT_METANAME in cfg.metanames && Sound(cfg, [], doc) && XmlText(doc)
    ensures |Origins(Final(cfg, doc).flushes, m)| == SumGets(cfg, Sents(cfg, doc), m)
  {
    hide Sound, XmlText, Pieces, AllWellLabelled, Final, Passages, PiecesFor, Carried, Content, Sents, SentBy,
         Origins, SumGets;
    FinalPieces(cfg, doc, m);
    DocumentSends(cfg, doc);
    OriginsLength(cfg, Final(cfg, doc).flushes, m);
  }

  /** Where no passage reaches buffer `m` twice, the buffer splits to the texts that reach it. */
  lemma BufferHoldsServed(cfg: Config, doc: seq<Node>, m: string)
    requires DEFAULT_METANAME in cfg.metanames && Sound(cfg, [], doc) && XmlText(doc)
    requires forall t :: t in Sents(cfg, doc) ==> Gets(cfg, t, m) <= 1
    ensures Pieces(Content(Final(cfg, doc).metanames, m)) == ServedTexts(cfg, Sents(cfg, doc), m)
  {
    hide Sound, XmlText, Pieces, AllWellLabelled, Final, Passages, PiecesFor, Carried, Content, Sents, SentBy,
         ServedTexts, Gets;
    FinalPieces(cfg, doc, m);
    DocumentSends(cfg, doc);
    PiecesAreServed(cfg, Final(cfg, doc).flushes, m);
  }

  /** Every passage lies in some metaname the configuration has. */
  lemma SentsNamed(cfg: Config, doc: seq<Node>)
    requires DEFAULT_METANAME in cfg.metanames && Sound(cfg, [], doc) && XmlText(doc)
    ensures forall t :: t in Sents(cfg, doc) ==> Named(cfg, t)
  {
    hide Sound, XmlText, AllWellLabelled, Final, Passages, Carried, Sents, SentBy;
    FinalPieces(cfg, doc, "");
    DocumentSends(cfg, doc);
    FlushesNamed(cfg, Final(cfg, doc).flushes);
  }

  predicate Named(cfg: Config, t: Sent) {
    t.passage.names != [] && Innermost(t.passage.names) in cfg.metanames
  }

  lemma {:induction false} FlushesNamed(cfg: Config, flushes: seq<Flush>)
    requires AllWellLabelled(cfg, flushes)
    ensures forall t :: t in SentBy(flushes) ==> Named(cfg, t)
  {
    hide Pieces;
    if flushes != [] {
      var f := flushes[|flushes| - 1];
      assert WellLabelled(cfg, f);
      FlushesNamed(cfg, flushes[..|flushes| - 1]);
    }
  }

  /** A passage directly in a metaname with an alias_for: it adds a copy for every entry of that
      name when a metaname opens after it inside the element, and one fewer when the element's
      own closing tag flushes it. */
  lemma AliasedShare(cfg: Config, t: Sent, m: string)
    requires cfg.cascade && Named(cfg, t) && Innermost(t.passage.names) == m && Stored(cfg, m) != m
    ensures Gets(cfg, t, m) == multiset(t.passage.names)[m] - if t.whole then 0 else 1
  {
    ShareOrCopies(cfg, t.passage.names, t.whole, m);
  }

  /** With cascade, only the passages inside `m` elements can be missed or doubled. */
  lemma ServedWhereNamed(cfg: Config, sent: seq<Sent>, m: string)
    requires cfg.cascade && forall t :: t in sent ==> Named(cfg, t)
    ensures AllServed(cfg, sent, m) <==> forall t :: t in sent && m in t.passage.names ==> Gets(cfg, t, m) == 1
  {
    forall t | t in sent
      ensures Gets(cfg, t, m) == Owed(cfg, t.passage, m) <==> (m in t.passage.names ==> Gets(cfg, t, m) == 1)
    {
      assert Named(cfg, t);
      ShareOrCopies(cfg, t.passage.names, t.whole, m);
      assert m in t.passage.names <==> multiset(t.passage.names)[m] > 0;
    }
    hide Gets, Owed, Named;
  }

  /** Without an alias_for of its own, `m` is never short, and served exactly when no passage lies
      in two cascading entries named `m`. */
  lemma UnaliasedServed(cfg: Config, sent: seq<Sent>, m: string)
    requires forall t :: t in sent ==> Named(cfg, t)
    requires cfg.cascade && m in cfg.metanames ==> cfg.metanames[m].None?
    ensures NeverShort(cfg, sent, m)
    ensures AllServed(cfg, sent, m) <==> OncePerPassage(cfg, PassagesOf(sent), m)
  {
    forall t | t in sent ensures Gets(cfg, t, m) == Copies(cfg, t.passage.names, m) {
      assert Named(cfg, t);
      ShareOrCopies(cfg, t.passage.names, t.whole, m);
    }
    hide Gets, Copies, Named;
    assert forall t :: t in sent ==> t.passage in PassagesOf(sent) by {
      forall t | t in sent ensures t.passage in PassagesOf(sent) {
        var i :| 0 <= i < |sent| && sent[i] == t;
        assert PassagesOf(sent)[i] == t.passage;
      }
    }
  }

  /** Without cascade_meta_context: exactly the texts whose innermost metaname is stored as `m`. */
  lemma NearestMetanameOwns(cfg: Config, doc: seq<Node>, m: string)
    requires DEFAULT_METANAME in cfg.metanames && Sound(cfg, [], doc) && XmlText(doc) && !cfg.cascade
    ensures Pieces(Content(Final(cfg, doc).metanames, m)) == TextsFor(cfg, Passages(cfg, doc), m)
  {
    hide Sound, XmlText, Final, Passages, TextsFor, Pieces, Sents, Content, Origins, Wanted, TextsAt, Below;
    BufferHoldsItsTexts(cfg, doc, m);
    SentsNamed(cfg, doc);
    UnaliasedServed(cfg, Sents(cfg, doc), m);
  }
}
