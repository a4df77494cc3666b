/** What the attribution theorem says of the documents and configurations people have: plain
    ones, cascading ones, and where an alias_for gets in the way. */
module Documents {
  import opened CString
  import opened NamedBuffers
  import opened TagStacks
  import opened Directives
  import opened Sax
  import opened StackDiscipline
  import opened Attribution
  import opened Harvest
  import opened Foresight

  // ---------------------------------------------------------------- plain configurations

  predicate PlainNames(cfg: Config, ns: seq<Node>)
    decreases ns
  {
    ns == [] || (PlainName(cfg, ns[0]) && PlainNames(cfg, ns[1..]))
  }

  predicate PlainName(cfg: Config, n: Node)
    decreases n
  {
    n.Element? ==> PlainElem(cfg, n.e) && PlainNames(cfg, n.kids)
  }

  /** Under a configuration of undotted names every document without foreign prefixes is read
      right, however its elements nest and whatever their case. */
  lemma {:induction false} PlainIsSound(cfg: Config, open: seq<Elem>, ns: seq<Node>)
    requires PlainConfig(cfg) && AllPlain(cfg, open) && PlainNames(cfg, ns)
    ensures Sound(cfg, open, ns)
    decreases ns
  {
    hide PlainConfig, Known, Paired, PlainName, SoundNode;
    if ns != [] {
      PlainNodeIsSound(cfg, open, ns[0]);
      PlainIsSound(cfg, open, ns[1..]);
    }
  }

  lemma {:induction false} PlainNodeIsSound(cfg: Config, open: seq<Elem>, n: Node)
    requires PlainConfig(cfg) && AllPlain(cfg, open) && PlainName(cfg, n)
    ensures SoundNode(cfg, open, n)
    decreases n
  {
    hide PlainConfig, Known, Paired, PlainNames, Sound;
    if n.Element? {
      PlainIsPaired(cfg, open, n.e);
      PlainIsSound(cfg, open + [n.e], n.kids);
    }
  }

  /** The default entry is under everything. */
  lemma {:induction false} DefaultAtBottom(cfg: Config, open: seq<Elem>)
    ensures Names(MetaOf(cfg, open))[0] == DEFAULT_METANAME
  {
    hide Bake, Join, IsMeta, StackName;
    if open != [] {
      DefaultAtBottom(cfg, open[..|open| - 1]);
    }
  }

  // ---------------------------------------------------------------- what holds of every passage

  /** No metaname element stands inside one of the same name. */
  predicate NoRepeat(cfg: Config, open: seq<Elem>, ns: seq<Node>)
    decreases ns
  {
    ns == [] || (NoRepeatNode(cfg, open, ns[0]) && NoRepeat(cfg, open, ns[1..]))
  }

  predicate NoRepeatNode(cfg: Config, open: seq<Elem>, n: Node)
    decreases n
  {
    n.Element? ==>
      && (GoesOnMeta(cfg, open, n.e) ==> NameOf(cfg, open, n.e) !in Names(MetaOf(cfg, open)))
      && NoRepeat(cfg, open + [n.e], n.kids)
  }

  ghost predicate Distinct(names: seq<string>) {
    forall m :: multiset(names)[m] <= 1
  }

  ghost predicate GoodPassage(p: Passage) {
    p.names != [] && p.names[0] == DEFAULT_METANAME && Distinct(p.names)
  }

  ghost predicate GoodPassages(ps: seq<Passage>) {
    forall p :: p in ps ==> GoodPassage(p)
  }

  lemma CutGood(cfg: Config, open: seq<Elem>, r: Reading)
    requires GoodPassages(r.done) && Distinct(Names(MetaOf(cfg, open)))
    ensures GoodPassages(Cut(cfg, open, r).done)
  {
    hide Distinct, MetaOf;
    DefaultAtBottom(cfg, open);
    var names := Names(MetaOf(cfg, open));
    assert GoodPassage(Passage(names, r.run));
    assert forall p :: p in Cut(cfg, open, r).done ==> p in r.done || p == Passage(names, r.run);
  }

  lemma DistinctPush(cfg: Config, open: seq<Elem>, e: Elem)
    requires Distinct(Names(MetaOf(cfg, open)))
    requires GoesOnMeta(cfg, open, e) ==> NameOf(cfg, open, e) !in Names(MetaOf(cfg, open))
    ensures Distinct(Names(MetaOf(cfg, open + [e])))
  {
    hide Bake, Join, IsMeta, StackName, PropOf, DomOf;
    Outer(open, e);
    var names, name := Names(MetaOf(cfg, open)), NameOf(cfg, open, e);
    assert name !in names ==> multiset(names)[name] == 0;
  }

  lemma {:induction false} ReadGood(cfg: Config, open: seq<Elem>, ns: seq<Node>, r: Reading)
    requires NoRepeat(cfg, open, ns) && Distinct(Names(MetaOf(cfg, open))) && GoodPassages(r.done)
    ensures GoodPassages(Read(cfg, open, ns, r).done)
    decreases ns
  {
    hide Distinct, GoodPassages, MetaOf, NoRepeatNode, ReadNode;
    if ns != [] {
      ReadNodeGood(cfg, open, ns[0], r);
      ReadGood(cfg, open, ns[1..], ReadNode(cfg, open, ns[0], r));
    }
  }

  lemma {:induction false} ReadNodeGood(cfg: Config, open: seq<Elem>, n: Node, r: Reading)
    requires NoRepeatNode(cfg, open, n) && Distinct(Names(MetaOf(cfg, open))) && GoodPassages(r.done)
    ensures GoodPassages(ReadNode(cfg, open, n, r).done)
    decreases n
  {
    hide Distinct, GoodPassages, MetaOf, NoRepeat, Read, Cut, DirectiveOf, Defined;
    match n {
      case Chars(_) =>
      case Remark(_) => CutGood(cfg, open, r);
      case Element(e, kids) =>
        CutGood(cfg, open, r);
        DistinctPush(cfg, open, e);
        var r1 := CutAtTag(cfg, open, e, r);
        ReadGood(cfg, open + [e], kids, r1);
        CutGood(cfg, open + [e], Read(cfg, open + [e], kids, r1));
    }
  }

  lemma NoRepeatGood(cfg: Config, doc: seq<Node>)
    requires NoRepeat(cfg, [], doc)
    ensures GoodPassages(Passages(cfg, doc))
  {
    hide NoRepeat, Read, MetaOf;
    AloneDistinct(cfg);
    ReadGood(cfg, [], doc, Reading([], "", 0));
    CutGood(cfg, [], Read(cfg, [], doc, Reading([], "", 0)));
  }

  lemma AloneDistinct(cfg: Config)
    ensures Distinct(Names(MetaOf(cfg, [])))
  {
    assert Names(MetaOf(cfg, [])) == [DEFAULT_METANAME];
  }

  // ---------------------------------------------------------------- cascade_meta_context

  /** The texts of the passages that lie anywhere inside an `m` element. */
  function TextsInside(ps: seq<Passage>, m: string): seq<string> {
    if ps == [] then []
    else
      var k := |ps| - 1;
      TextsInside(ps[..k], m) + (if m in ps[k].names then [ps[k].text] else [])
  }

  function Texts(ps: seq<Passage>): (texts: seq<string>)
    ensures |texts| == |ps|
  {
    seq(|ps|, i requires 0 <= i < |ps| => ps[i].text)
  }

  /** Under cascade a passage reaches buffer `m` if its own metaname is stored there, or if it lies
      in `m`: unless it lies directly in `m` and the closing tag of `m` flushes it. */
  predicate Reaches(cfg: Config, t: Sent, m: string) {
    t.passage.names != [] && (
      var last := Innermost(t.passage.names);
      || (last in cfg.metanames && Stored(cfg, last) == m)
      || (m in t.passage.names && (last != m || t.whole)))
  }

  function TextsReaching(cfg: Config, sent: seq<Sent>, m: string): seq<string> {
    if sent == [] then []
    else
      var k := |sent| - 1;
      TextsReaching(cfg, sent[..k], m) + if Reaches(cfg, sent[k], m) then [sent[k].passage.text] else []
  }

  lemma ReachesOnce(cfg: Config, t: Sent, m: string)
    requires cfg.cascade && Named(cfg, t) && Distinct(t.passage.names)
    ensures Gets(cfg, t, m) == if Reaches(cfg, t, m) then 1 else 0
  {
    var names := t.passage.names;
    ShareOrCopies(cfg, names, t.whole, m);
    assert multiset(names)[m] <= 1;
    assert m in names <==> multiset(names)[m] > 0;
    assert names[|names| - 1] in names;
  }

  lemma {:induction false} ServedReach(cfg: Config, sent: seq<Sent>, m: string)
    requires cfg.cascade && forall t :: t in sent ==> Named(cfg, t) && Distinct(t.passage.names)
    ensures ServedTexts(cfg, sent, m) == TextsReaching(cfg, sent, m)
    ensures forall t :: t in sent ==> Gets(cfg, t, m) <= 1
  {
    hide Distinct, Reaches, Gets, Named;
    if sent != [] {
      var k := |sent| - 1;
      assert sent[k] in sent;
      ServedReach(cfg, sent[..k], m);
      ReachesOnce(cfg, sent[k], m);
      assert forall t :: t in sent ==> t in sent[..k] || t == sent[k];
    }
  }

  lemma SentsGood(cfg: Config, doc: seq<Node>)
    requires NoRepeat(cfg, [], doc)
    ensures forall t :: t in Sents(cfg, doc) ==> GoodPassage(t.passage)
  {
    hide NoRepeat, Passages, Fates, GoodPassage;
    NoRepeatGood(cfg, doc);
    var sent, ps := Sents(cfg, doc), Passages(cfg, doc);
    forall t | t in sent ensures GoodPassage(t.passage) {
      var i :| 0 <= i < |sent| && sent[i] == t;
      assert PassagesOf(sent)[i] == t.passage && ps[i] in ps;
    }
  }

  /** With cascade_meta_context on and no metaname inside itself, buffer `m` splits to the texts
      that reach it, whatever the configuration aliases. */
  lemma CascadeHoldsAllReaching(cfg: Config, doc: seq<Node>, m: string)
    requires DEFAULT_METANAME in cfg.metanames && Sound(cfg, [], doc) && XmlText(doc)
    requires cfg.cascade && NoRepeat(cfg, [], doc)
    ensures Pieces(Content(Final(cfg, doc).metanames, m)) == TextsReaching(cfg, Sents(cfg, doc), m)
  {
    hide Sound, XmlText, Final, Passages, Pieces, NoRepeat, Content, Sents, Named, Distinct, TextsReaching, ServedTexts;
    SentsGood(cfg, doc);
    SentsNamed(cfg, doc);
    ServedReach(cfg, Sents(cfg, doc), m);
    BufferHoldsServed(cfg, doc, m);
  }

  /** No metaname is stored under another's name, as far as `m` goes. */
  predicate Unaliased(cfg: Config, m: string) {
    && (m in cfg.metanames ==> cfg.metanames[m].None?)
    && forall k :: k in cfg.metanames && cfg.metanames[k] == Some(m) ==> k == m
  }

  lemma {:induction false} ReachingInside(cfg: Config, sent: seq<Sent>, m: string)
    requires Unaliased(cfg, m) && forall t :: t in sent ==> Named(cfg, t)
    ensures TextsReaching(cfg, sent, m) == TextsInside(PassagesOf(sent), m)
  {
    if sent != [] {
      var k := |sent| - 1;
      ReachingInside(cfg, sent[..k], m);
      assert sent[k] in sent;
      assert PassagesOf(sent)[..k] == PassagesOf(sent[..k]);
      var names := sent[k].passage.names;
      assert names[|names| - 1] in names;
    }
  }

  lemma {:induction false} ReachingDefault(cfg: Config, sent: seq<Sent>)
    requires DEFAULT_METANAME in cfg.metanames && cfg.metanames[DEFAULT_METANAME].None?
    requires forall t :: t in sent ==> GoodPassage(t.passage)
    ensures TextsReaching(cfg, sent, DEFAULT_METANAME) == Texts(PassagesOf(sent))
  {
    hide Distinct;
    if sent != [] {
      var k := |sent| - 1;
      ReachingDefault(cfg, sent[..k]);
      assert sent[k] in sent && GoodPassage(sent[k].passage);
      assert PassagesOf(sent)[..k] == PassagesOf(sent[..k]);
      assert Texts(PassagesOf(sent)) == Texts(PassagesOf(sent)[..k]) + [sent[k].passage.text];
    }
  }

  /** So without aliases in the way, buffer `m` splits to every text anywhere inside an `m`
      element, and the default buffer to every text of the document. */
  lemma CascadeHoldsAllInside(cfg: Config, doc: seq<Node>, m: string)
    requires DEFAULT_METANAME in cfg.metanames && Sound(cfg, [], doc) && XmlText(doc)
    requires cfg.cascade && NoRepeat(cfg, [], doc)
    ensures Unaliased(cfg, m) ==>
              Pieces(Content(Final(cfg, doc).metanames, m)) == TextsInside(Passages(cfg, doc), m)
    ensures cfg.metanames[DEFAULT_METANAME].None? ==>
              Pieces(Content(Final(cfg, doc).metanames, DEFAULT_METANAME)) == Texts(Passages(cfg, doc))
  {
    hide Sound, XmlText, Final, Passages, Pieces, NoRepeat, Content, Sents, TextsReaching, TextsInside, Named,
         GoodPassage;
    CascadeHoldsAllReaching(cfg, doc, m);
    CascadeHoldsAllReaching(cfg, doc, DEFAULT_METANAME);
    SentsGood(cfg, doc);
    SentsNamed(cfg, doc);
    if Unaliased(cfg, m) {
      ReachingInside(cfg, Sents(cfg, doc), m);
    }
    if cfg.metanames[DEFAULT_METANAME].None? {
      ReachingDefault(cfg, Sents(cfg, doc));
    }
  }

  /** For a metaname with an alias_for: its buffer holds what belongs there exactly when no text
      directly in it is left for its own closing tag to flush. */
  lemma AliasedExactly(cfg: Config, doc: seq<Node>, m: string)
    requires DEFAULT_METANAME in cfg.metanames && Sound(cfg, [], doc) && XmlText(doc)
    requires cfg.cascade && NoRepeat(cfg, [], doc) && m in cfg.metanames && Stored(cfg, m) != m
    ensures Pieces(Content(Final(cfg, doc).metanames, m)) == TextsFor(cfg, Passages(cfg, doc), m)
       <==> forall t :: t in Sents(cfg, doc) && Named(cfg, t) && Innermost(t.passage.names) == m ==> t.whole
  {
    hide Sound, XmlText, Final, Passages, Pieces, NoRepeat, Content, Sents, TextsFor, Origins, Wanted, TextsAt, Below;
    var sent := Sents(cfg, doc);
    SentsGood(cfg, doc);
    SentsNamed(cfg, doc);
    forall t | t in sent
      ensures Gets(cfg, t, m) <= Owed(cfg, t.passage, m)
      ensures Gets(cfg, t, m) == Owed(cfg, t.passage, m) <==> (Innermost(t.passage.names) == m ==> t.whole)
    {
      assert Named(cfg, t) && Distinct(t.passage.names);
      AliasedOwed(cfg, t, m);
    }
    hide Gets, Owed, Named, GoodPassage;
    BufferHoldsItsTexts(cfg, doc, m);
  }

  lemma AliasedOwed(cfg: Config, t: Sent, m: string)
    requires cfg.cascade && m in cfg.metanames && Stored(cfg, m) != m && Named(cfg, t) && Distinct(t.passage.names)
    ensures Gets(cfg, t, m) <= Owed(cfg, t.passage, m)
    ensures Gets(cfg, t, m) == Owed(cfg, t.passage, m) <==> (Innermost(t.passage.names) == m ==> t.whole)
  {
    var names := t.passage.names;
    ShareOrCopies(cfg, names, t.whole, m);
    assert multiset(names)[m] <= 1;
    assert Innermost(names) in names;
  }

  // ---------------------------------------------------------------- an alias_for in the way

  /** Cascade with an alias_for: metaname `a` is stored as `b`, `c` as itself. */
  predicate AliasConfig(cfg: Config) {
    && cfg.cascade && cfg.properties == {} && cfg.aliases == map[]
    && cfg.metanames == map[DEFAULT_METANAME := None, "a" := Some("b"), "b" := None, "c" := None]
    && cfg.lower("a") == "a" && cfg.lower("c") == "c" && cfg.lower(DEFAULT_METANAME) == DEFAULT_METANAME
  }

  const A := Elem(None, "a")
  const C := Elem(None, "c")

  lemma AliasNames(cfg: Config)
    requires AliasConfig(cfg)
    ensures PlainConfig(cfg) && PlainElem(cfg, A) && PlainElem(cfg, C)
    ensures SimpleTag(cfg, "a") == "a" && SimpleTag(cfg, "c") == "c"
  {
    assert DOT !in DEFAULT_METANAME && DOT !in "a" && DOT !in "b" && DOT !in "c";
  }

  /** An element `a` or `c` goes onto the metaname stack under its name. */
  lemma AliasPush(cfg: Config, open: seq<Elem>, e: Elem)
    requires AliasConfig(cfg) && (e == A || e == C)
    ensures GoesOnMeta(cfg, open, e) && Defined(cfg, e)
    ensures Names(MetaOf(cfg, open + [e])) == Names(MetaOf(cfg, open)) + [e.raw]
  {
    hide Bake, Join, PlainConfig;
    AliasNames(cfg);
    PlainBake(cfg, open, e);
    Outer(open, e);
  }

  const IN_A := [DEFAULT_METANAME, "a"]
  const IN_AC := [DEFAULT_METANAME, "a", "c"]

  lemma AliasStacks(cfg: Config)
    requires AliasConfig(cfg)
    ensures Names(MetaOf(cfg, [])) == [DEFAULT_METANAME]
    ensures Names(MetaOf(cfg, [A])) == IN_A && Names(MetaOf(cfg, [A, C])) == IN_AC
    ensures GoesOnMeta(cfg, [], A) && GoesOnMeta(cfg, [A], C) && Defined(cfg, A) && Defined(cfg, C)
  {
    hide AliasConfig, MetaOf, GoesOnMeta, Defined;
    BottomNames(cfg);
    AliasPush(cfg, [], A);
    AliasPush(cfg, [A], C);
    assert [] + [A] == [A] && [A] + [C] == [A, C];
  }

  /** <a>x<c>y</c>z</a> */
  const SPLIT_KIDS := [Chars("x"), Element(C, [Chars("y")]), Chars("z")]
  const SPLIT_DOC := [Element(A, SPLIT_KIDS)]

  lemma SplitKidsTold(cfg: Config)
    requires AliasConfig(cfg)
    ensures Tell(cfg, [A], SPLIT_KIDS, Told(Reading([], "", 0), []), false)
         == Told(Reading([Passage(IN_A, "x"), Passage(IN_AC, "y")], "z", 0), [true, false])
  {
    hide AliasConfig, MetaOf, GoesOnMeta, Defined, Tell, AllSpace;
    AliasStacks(cfg);
    NotBlank();
    var t0, t1 := Told(Reading([], "", 0), []), Told(Reading([], "x", 0), []);
    var rest := [Element(C, [Chars("y")])] + ([Chars("z")] + []);
    assert SPLIT_KIDS == [Chars("x")] + rest;
    TellChars(cfg, [A], "x", rest, t0, false);
    assert "" + "x" == "x" && [A] + [C] == [A, C];
    TellMeta(cfg, [A], C, [Chars("y")], [Chars("z")] + [], t1, false);
    var t2 := Told(Reading([Passage(IN_A, "x")], "", 0), [true]);
    assert Filed(t1, IN_A, true) == t2;
    assert [Chars("y")] == [Chars("y")] + [] && "" + "y" == "y" && "" + "z" == "z";
    TellChars(cfg, [A, C], "y", [], t2, false);
    var t3 := Told(Reading([Passage(IN_A, "x")], "y", 0), [true]);
    TellNothing(cfg, [A, C], t3, false);
    var t4 := Told(Reading([Passage(IN_A, "x"), Passage(IN_AC, "y")], "", 0), [true, false]);
    assert Filed(t3, IN_AC, false) == t4;
    TellChars(cfg, [A], "z", [], t4, false);
    TellNothing(cfg, [A], Told(Reading([Passage(IN_A, "x"), Passage(IN_AC, "y")], "z", 0), [true, false]), false);
  }

  /** x is flushed while `a` heads the stack, y when `c` has gone, z when `a` itself has gone. */
  lemma SplitDocSends(cfg: Config)
    requires AliasConfig(cfg)
    ensures Sents(cfg, SPLIT_DOC)
         == [Sent(Passage(IN_A, "x"), true), Sent(Passage(IN_AC, "y"), false), Sent(Passage(IN_A, "z"), false)]
  {
    hide AliasConfig, MetaOf, GoesOnMeta, Defined, Tell, AllSpace, SPLIT_KIDS, Passages, Fates;
    AliasStacks(cfg);
    NotBlank();
    var t0 := Told(Reading([], "", 0), []);
    assert SPLIT_DOC == [Element(A, SPLIT_KIDS)] + [] && [] + [A] == [A];
    TellMeta(cfg, [], A, SPLIT_KIDS, [], t0, true);
    assert Filed(t0, [DEFAULT_METANAME], true) == t0;
    SplitKidsTold(cfg);
    var t1 := Told(Reading([Passage(IN_A, "x"), Passage(IN_AC, "y")], "z", 0), [true, false]);
    var t2 := Told(Reading([Passage(IN_A, "x"), Passage(IN_AC, "y"), Passage(IN_A, "z")], "", 0), [true, false, false]);
    assert Filed(t1, IN_A, false) == t2;
    TellNothing(cfg, [], t2, true);
    DocumentTold(cfg, SPLIT_DOC, t2);
  }

  /** That document: buffer `a` gets x and y and not z, though all three lie inside `a`. */
  lemma AliasForLosesText(cfg: Config)
    requires AliasConfig(cfg)
    ensures Sound(cfg, [], SPLIT_DOC) && XmlText(SPLIT_DOC)
    ensures Pieces(Content(Final(cfg, SPLIT_DOC).metanames, "a")) == ["x", "y"]
    ensures TextsFor(cfg, Passages(cfg, SPLIT_DOC), "a") == ["x", "y", "z"]
  {
    SplitDocSound(cfg);
    SplitDocSends(cfg);
    hide Sound, XmlText, Final, Pieces, Content, Sents, Passages, SPLIT_DOC, TextsFor, ServedTexts;
    SplitTexts(cfg);
    hide AliasConfig;
    BufferHoldsServed(cfg, SPLIT_DOC, "a");
  }

  lemma SplitTexts(cfg: Config)
    requires AliasConfig(cfg)
    ensures var x, y := Sent(Passage(IN_A, "x"), true), Sent(Passage(IN_AC, "y"), false);
            var z := Sent(Passage(IN_A, "z"), false);
            && ServedTexts(cfg, [x, y, z], "a") == ["x", "y"]
            && TextsFor(cfg, PassagesOf([x, y, z]), "a") == ["x", "y", "z"]
            && forall t :: t in [x, y, z] ==> Gets(cfg, t, "a") <= 1
  {
    SplitShares(cfg);
    hide AliasConfig, Gets, Copies;
    var x, y, z := Sent(Passage(IN_A, "x"), true), Sent(Passage(IN_AC, "y"), false), Sent(Passage(IN_A, "z"), false);
    ServedThree(cfg, x, y, z, "a");
    TextsThree(cfg, x.passage, y.passage, z.passage, "a");
    assert PassagesOf([x, y, z]) == [x.passage, y.passage, z.passage];
  }

  lemma PlainCons(cfg: Config, n: Node, rest: seq<Node>)
    ensures PlainNames(cfg, [n] + rest) <==> PlainName(cfg, n) && PlainNames(cfg, rest)
    ensures XmlText([n] + rest) <==> XmlTextNode(n) && XmlText(rest)
    ensures PlainNames(cfg, []) && XmlText([])
  {
    hide PlainName, XmlTextNode;
    assert ([n] + rest)[1..] == rest;
  }

  lemma PlainChars(cfg: Config, ch: string, rest: seq<Node>)
    requires NoNul(ch) && NoBumper(ch) && PlainNames(cfg, rest) && XmlText(rest)
    ensures PlainNames(cfg, [Chars(ch)] + rest) && XmlText([Chars(ch)] + rest)
  {
    PlainCons(cfg, Chars(ch), rest);
  }

  lemma PlainElement(cfg: Config, e: Elem, kids: seq<Node>, rest: seq<Node>)
    requires PlainElem(cfg, e) && PlainNames(cfg, kids) && XmlText(kids) && PlainNames(cfg, rest) && XmlText(rest)
    ensures PlainNames(cfg, [Element(e, kids)] + rest) && XmlText([Element(e, kids)] + rest)
  {
    hide PlainElem;
    PlainCons(cfg, Element(e, kids), rest);
  }

  lemma SplitDocSound(cfg: Config)
    requires AliasConfig(cfg)
    ensures Sound(cfg, [], SPLIT_DOC) && XmlText(SPLIT_DOC)
  {
    AliasNames(cfg);
    hide AliasConfig, PlainConfig, PlainElem, Sound, PlainNames, XmlText;
    PlainCons(cfg, Chars("z"), []);
    PlainChars(cfg, "z", []);
    PlainChars(cfg, "y", []);
    assert [Chars("y")] + [] == [Chars("y")] && [Chars("z")] + [] == [Chars("z")];
    PlainElement(cfg, C, [Chars("y")], [Chars("z")]);
    PlainChars(cfg, "x", [Element(C, [Chars("y")])] + [Chars("z")]);
    assert [Chars("x")] + ([Element(C, [Chars("y")])] + [Chars("z")]) == SPLIT_KIDS;
    PlainElement(cfg, A, SPLIT_KIDS, []);
    assert [Element(A, SPLIT_KIDS)] + [] == SPLIT_DOC;
    PlainIsSound(cfg, [], SPLIT_DOC);
  }

  lemma SplitShares(cfg: Config)
    requires AliasConfig(cfg)
    ensures Gets(cfg, Sent(Passage(IN_A, "x"), true), "a") == 1
    ensures Gets(cfg, Sent(Passage(IN_AC, "y"), false), "a") == 1
    ensures Gets(cfg, Sent(Passage(IN_A, "z"), false), "a") == 0
    ensures Copies(cfg, IN_A, "a") == 1 && Copies(cfg, IN_AC, "a") == 1
  {
    assert IN_AC[..2] == IN_A && IN_A[..1] == [DEFAULT_METANAME];
    assert DEFAULT_METANAME != "a" && DEFAULT_METANAME != "c";
  }

  lemma ServedThree(cfg: Config, x: Sent, y: Sent, z: Sent, m: string)
    ensures ServedTexts(cfg, [x, y, z], m)
         == (if Gets(cfg, x, m) > 0 then [x.passage.text] else [])
            + (if Gets(cfg, y, m) > 0 then [y.passage.text] else [])
            + (if Gets(cfg, z, m) > 0 then [z.passage.text] else [])
  {
    hide Gets;
    assert [x, y, z][..2] == [x, y] && [x, y][..1] == [x] && [x][..0] == [];
    assert ServedTexts(cfg, [x], m) == ServedTexts(cfg, [], m) + if Gets(cfg, x, m) > 0 then [x.passage.text] else [];
  }

  lemma TextsThree(cfg: Config, x: Passage, y: Passage, z: Passage, m: string)
    ensures TextsFor(cfg, [x, y, z], m)
         == (if Copies(cfg, x.names, m) > 0 then [x.text] else [])
            + (if Copies(cfg, y.names, m) > 0 then [y.text] else [])
            + (if Copies(cfg, z.names, m) > 0 then [z.text] else [])
  {
    hide Copies;
    assert [x, y, z][..2] == [x, y] && [x, y][..1] == [x] && [x][..0] == [];
    assert TextsFor(cfg, [x], m) == TextsFor(cfg, [], m) + if Copies(cfg, x.names, m) > 0 then [x.text] else [];
  }

  const IN_AA := [DEFAULT_METANAME, "a", "a"]
  const IN_AAC := [DEFAULT_METANAME, "a", "a", "c"]

  /** <a><a><c>x</c></a>x</a> */
  const LUCKY_INNER := [Element(C, [Chars("x")])]
  const LUCKY_KIDS := [Element(A, LUCKY_INNER), Chars("x")]
  const LUCKY_DOC := [Element(A, LUCKY_KIDS)]

  lemma LuckyStacks(cfg: Config)
    requires AliasConfig(cfg)
    ensures GoesOnMeta(cfg, [A], A) && GoesOnMeta(cfg, [A, A], C)
    ensures Names(MetaOf(cfg, [A, A])) == IN_AA && Names(MetaOf(cfg, [A, A, C])) == IN_AAC
  {
    hide AliasConfig, MetaOf, GoesOnMeta, Defined;
    AliasStacks(cfg);
    AliasPush(cfg, [A], A);
    AliasPush(cfg, [A, A], C);
    assert [A] + [A] == [A, A] && [A, A] + [C] == [A, A, C];
    assert IN_A + ["a"] == IN_AA && IN_AA + ["c"] == IN_AAC;
  }

  lemma LuckyInnerTold(cfg: Config)
    requires AliasConfig(cfg)
    ensures Tell(cfg, [A, A], LUCKY_INNER, Told(Reading([], "", 0), []), false)
         == Told(Reading([Passage(IN_AAC, "x")], "", 0), [false])
  {
    hide AliasConfig, MetaOf, GoesOnMeta, Defined, Tell, AllSpace;
    AliasStacks(cfg);
    LuckyStacks(cfg);
    NotBlank();
    var t0, t1 := Told(Reading([], "", 0), []), Told(Reading([], "x", 0), []);
    assert LUCKY_INNER == [Element(C, [Chars("x")])] + [] && [A, A] + [C] == [A, A, C];
    TellMeta(cfg, [A, A], C, [Chars("x")], [], t0, false);
    assert Filed(t0, IN_AA, true) == t0;
    assert [Chars("x")] == [Chars("x")] + [] && "" + "x" == "x";
    TellChars(cfg, [A, A, C], "x", [], t0, false);
    TellNothing(cfg, [A, A, C], t1, false);
    assert Filed(t1, IN_AAC, false) == Told(Reading([Passage(IN_AAC, "x")], "", 0), [false]);
    TellNothing(cfg, [A, A], Told(Reading([Passage(IN_AAC, "x")], "", 0), [false]), false);
  }

  lemma LuckyDocSends(cfg: Config)
    requires AliasConfig(cfg)
    ensures Sents(cfg, LUCKY_DOC) == [Sent(Passage(IN_AAC, "x"), false), Sent(Passage(IN_A, "x"), false)]
  {
    hide AliasConfig, MetaOf, GoesOnMeta, Defined, Tell, AllSpace, LUCKY_INNER, Passages, Fates;
    AliasStacks(cfg);
    LuckyStacks(cfg);
    NotBlank();
    var t0 := Told(Reading([], "", 0), []);
    assert LUCKY_DOC == [Element(A, LUCKY_KIDS)] + [] && [] + [A] == [A] && [A] + [A] == [A, A];
    TellMeta(cfg, [], A, LUCKY_KIDS, [], t0, true);
    assert Filed(t0, [DEFAULT_METANAME], true) == t0 && Filed(t0, IN_A, true) == t0;
    assert LUCKY_KIDS == [Element(A, LUCKY_INNER)] + ([Chars("x")] + []);
    TellMeta(cfg, [A], A, LUCKY_INNER, [Chars("x")] + [], t0, false);
    LuckyInnerTold(cfg);
    var t1 := Told(Reading([Passage(IN_AAC, "x")], "", 0), [false]);
    assert Filed(t1, IN_AA, false) == t1;
    assert "" + "x" == "x";
    TellChars(cfg, [A], "x", [], t1, false);
    var t2 := Told(Reading([Passage(IN_AAC, "x")], "x", 0), [false]);
    TellNothing(cfg, [A], t2, false);
    var t3 := Told(Reading([Passage(IN_AAC, "x"), Passage(IN_A, "x")], "", 0), [false, false]);
    assert Filed(t2, IN_A, false) == t3;
    TellNothing(cfg, [], t3, true);
    DocumentTold(cfg, LUCKY_DOC, t3);
  }

  lemma LuckyDocSound(cfg: Config)
    requires AliasConfig(cfg)
    ensures Sound(cfg, [], LUCKY_DOC) && XmlText(LUCKY_DOC)
  {
    AliasNames(cfg);
    hide AliasConfig, PlainConfig, PlainElem, Sound, PlainNames, XmlText;
    PlainCons(cfg, Chars("x"), []);
    PlainChars(cfg, "x", []);
    assert [Chars("x")] + [] == [Chars("x")];
    PlainElement(cfg, C, [Chars("x")], []);
    assert [Element(C, [Chars("x")])] + [] == LUCKY_INNER;
    PlainElement(cfg, A, LUCKY_INNER, [Chars("x")]);
    assert [Element(A, LUCKY_INNER)] + [Chars("x")] == LUCKY_KIDS;
    PlainElement(cfg, A, LUCKY_KIDS, []);
    assert [Element(A, LUCKY_KIDS)] + [] == LUCKY_DOC;
    PlainIsSound(cfg, [], LUCKY_DOC);
  }

  lemma LuckyShares(cfg: Config)
    requires AliasConfig(cfg)
    ensures Gets(cfg, Sent(Passage(IN_AAC, "x"), false), "a") == 2
    ensures Gets(cfg, Sent(Passage(IN_A, "x"), false), "a") == 0
    ensures Copies(cfg, IN_A, "a") == 1 && Copies(cfg, IN_AAC, "a") == 2
  {
    assert IN_AAC[..3] == IN_AA && IN_A[..1] == [DEFAULT_METANAME];
    assert DEFAULT_METANAME != "a" && DEFAULT_METANAME != "c";
  }

  lemma LuckyTexts(cfg: Config, x: Sent, y: Sent)
    requires AliasConfig(cfg)
    requires x == Sent(Passage(IN_AAC, "x"), false) && y == Sent(Passage(IN_A, "x"), false)
    ensures SumGets(cfg, [x, y], "a") == 2 && TextsFor(cfg, [x.passage, y.passage], "a") == ["x", "x"]
    ensures !AllServed(cfg, [x, y], "a")
  {
    LuckyShares(cfg);
    hide AliasConfig, Gets, Copies;
    assert [x, y][..1] == [x] && [x][..0] == [];
    assert SumGets(cfg, [x], "a") == SumGets(cfg, [], "a") + Gets(cfg, x, "a");
    assert [x.passage, y.passage][..1] == [x.passage] && [x.passage][..0] == [];
    assert TextsFor(cfg, [x.passage], "a") == TextsFor(cfg, [], "a") + ["x"];
    assert y in [x, y];
  }

  /** One text twice and another not at all can look like each once: the texts of a buffer alone
      do not always tell, its origins do. */
  lemma TextsMayCoincide(cfg: Config)
    requires AliasConfig(cfg)
    ensures Sound(cfg, [], LUCKY_DOC) && XmlText(LUCKY_DOC) && !AllServed(cfg, Sents(cfg, LUCKY_DOC), "a")
    ensures Pieces(Content(Final(cfg, LUCKY_DOC).metanames, "a")) == ["x", "x"]
    ensures TextsFor(cfg, Passages(cfg, LUCKY_DOC), "a") == ["x", "x"]
  {
    LuckyDocSound(cfg);
    LuckyDocSends(cfg);
    var x, y := Sent(Passage(IN_AAC, "x"), false), Sent(Passage(IN_A, "x"), false);
    hide *;
    LuckyTexts(cfg, x, y);
    TwoPassages(x, y);
    TwoPieces(cfg, LUCKY_DOC, x, y, "a");
  }

  lemma TwoPassages(x: Sent, y: Sent)
    ensures PassagesOf([x, y]) == [x.passage, y.passage]
  {
  }

  /** Two copies of passages that say the same are that text twice. */
  lemma TwoPieces(cfg: Config, doc: seq<Node>, x: Sent, y: Sent, m: string)
    requires DEFAULT_METANAME in cfg.metanames && Sound(cfg, [], doc) && XmlText(doc)
    requires Sents(cfg, doc) == [x, y] && x.passage.text == y.passage.text && SumGets(cfg, [x, y], m) == 2
    ensures Pieces(Content(Final(cfg, doc).metanames, m)) == [x.passage.text, x.passage.text]
    ensures Passages(cfg, doc) == [x.passage, y.passage]
  {
    hide *;
    TwoPassages(x, y);
    BufferHoldsItsTexts(cfg, doc, m);
    OriginsCounted(cfg, doc, m);
    TwoAlike(x.passage, y.passage, Origins(Final(cfg, doc).flushes, m));
  }

  lemma TwoAlike(x: Passage, y: Passage, origins: seq<nat>)
    requires x.text == y.text && |origins| == 2 && Below(origins, 2)
    ensures TextsAt([x, y], origins) == [x.text, x.text]
  {
    assert origins[0] < 2 && origins[1] < 2;
  }

  lemma NotBlank()
    ensures AllSpace("") && !AllSpace("x") && !AllSpace("y") && !AllSpace("z")
  {
    assert !IsSpace("x"[0]) && !IsSpace("y"[0]) && !IsSpace("z"[0]);
  }

  lemma TellNothing(cfg: Config, open: seq<Elem>, t: Told, later: bool)
    ensures Tell(cfg, open, [], t, later) == t
  {
  }

  /** A document whose last run is empty. */
  lemma DocumentTold(cfg: Config, doc: seq<Node>, t: Told)
    requires t == Tell(cfg, [], doc, Told(Reading([], "", 0), []), true) && t.reading.run == ""
    ensures Passages(cfg, doc) == t.reading.done && Fates(cfg, doc) == t.fates
  {
    hide MetaOf, Tell, Read;
    TellReads(cfg, [], doc, Told(Reading([], "", 0), []), true);
    assert t.reading.done + [] == t.reading.done && t.fates + [] == t.fates;
  }

  lemma BottomNames(cfg: Config)
    ensures Names(MetaOf(cfg, [])) == [DEFAULT_METANAME]
  {
  }

  // ---------------------------------------------------------------- end to end

  predicate CleanBuffers(nb: Buffers) {
    forall k :: k in nb ==> NoNul(nb[k])
  }

  lemma {:induction false} AddAllClean(nb: Buffers, names: seq<string>, text: string)
    requires CleanBuffers(nb) && NoNul(text)
    ensures CleanBuffers(AddAll(nb, names, text))
  {
    if names != [] {
      AddAllClean(nb, names[..|names| - 1], text);
    }
  }

  lemma {:induction false} BuiltClean(nb: Buffers, flushes: seq<Flush>)
    requires CleanBuffers(nb) && forall f :: f in flushes ==> NoNul(f.text)
    ensures CleanBuffers(Built(nb, flushes))
  {
    hide AddAll, CleanBuffers;
    if flushes != [] {
      var k := |flushes| - 1;
      assert flushes[k] in flushes;
      BuiltClean(nb, flushes[..k]);
      AddAllClean(Built(nb, flushes[..k]), flushes[k].added, flushes[k].text);
    }
  }

  lemma FinalClean(cfg: Config, doc: seq<Node>, m: string)
    requires DEFAULT_METANAME in cfg.metanames && Sound(cfg, [], doc) && XmlText(doc)
    ensures NoNul(Content(Final(cfg, doc).metanames, m))
  {
    hide Sound, XmlText, Final, AllWellLabelled, Built, Passages;
    FlushesCarryDocument(cfg, doc);
    FlushTexts(cfg, Final(cfg, doc).flushes);
    BuiltClean(Start(cfg).metanames, Final(cfg, doc).flushes);
  }

  /** Parse a document with a fresh parser and split one of its buffers. */
  method HarvestMetaname(cfg: Config, doc: seq<Node>, m: string) returns (strings: seq<string>)
    requires DEFAULT_METANAME in cfg.metanames && Sound(cfg, [], doc) && XmlText(doc)
    ensures Below(Origins(Final(cfg, doc).flushes, m), |Passages(cfg, doc)|)
    ensures strings == TextsAt(Passages(cfg, doc), Origins(Final(cfg, doc).flushes, m))
    ensures !cfg.cascade || AllServed(cfg, Sents(cfg, doc), m) ==> strings == TextsFor(cfg, Passages(cfg, doc), m)
  {
    hide XmlText, Sound, TextsFor, Passages, Run, Runnable, Start, Events, EndDocument, Live, Pieces, Origins,
         AllServed, Sents, TextsAt, Below, Wanted;
    FlushesCarryDocument(cfg, doc);
    BufferHoldsItsTexts(cfg, doc, m);
    if !cfg.cascade {
      NearestMetanameOwns(cfg, doc, m);
    }
    FinalClean(cfg, doc, m);
    var parser := new ParserData(cfg);
    parser.Parse(Events(doc));
    strings := SplitBuffer(if m in parser.metanames.hash then parser.metanames.hash[m] else "");
  }
}
