/** Two documents with a title, from the configuration to the token: its metaname, its context, and the
    dotted alias that can rename it. */
module Titles {
  import opened CString
  import opened NamedBuffers
  import opened TokenLists
  import opened Tokenizer
  import opened TokenTheorems
  import opened IncludedWords
  import opened DocumentTokens
  import opened TagStacks
  import opened Sax
  import opened StackDiscipline
  import opened Harvest
  import opened IncludedBuffers
  import opened DocumentTexts
  import opened DocumentWords
  import opened Boundaries

  const DOC := Elem(None, "doc")
  const TITLE := Elem(None, "title")

  /** Tag names in small letters stay as they are. */
  predicate Plainly(cfg: Config) {
    cfg.properties == {} && cfg.lower("doc") == "doc" && cfg.lower("title") == "title"
  }

  /** title is a metaname. */
  predicate TitleConfig(cfg: Config) {
    && Plainly(cfg) && cfg.aliases == map[]
    && cfg.metanames == map["swishdefault" := None, "title" := None]
  }

  /** doc.title is another name for t, which is a metaname. */
  predicate AliasConfig(cfg: Config) {
    && Plainly(cfg) && cfg.aliases == map["doc.title" := "t"]
    && cfg.metanames == map["swishdefault" := None, "t" := None]
  }

  // ---------------------------------------------------------------- names in the tree

  lemma JoinTwo(a: string, b: string, join: char)
    ensures Join([a], join) == a && Join([a, b], join) == a + [join] + b
  {
    assert [a, b][..1] == [a];
  }

  lemma TitleTag(cfg: Config)
    requires TitleConfig(cfg)
    ensures GoesOnMeta(cfg, [], TITLE) && NameOf(cfg, [], TITLE) == "title"
  {
    assert Names([]) + ["title"] == ["title"];
  }

  lemma DocTag(cfg: Config)
    requires AliasConfig(cfg)
    ensures !GoesOnMeta(cfg, [], DOC) && TagOf(cfg, [], DOC) == "doc"
  {
    assert Names([]) + ["doc"] == ["doc"];
    assert "doc"[0] != "doc.title"[0] || |"doc"| != |"doc.title"|;
    Different();
  }

  lemma Different()
    ensures "doc" != "doc.title" && "doc" != "t" && "doc" != "swishdefault" && "title" != "doc.title"
  {
    assert |"doc"| == 3 && |"doc.title"| == 9 && |"t"| == 1 && |"swishdefault"| == 12 && |"title"| == 5;
  }

  /** The path is looked up because the name by itself is no alias. */
  lemma AliasTag(cfg: Config)
    requires AliasConfig(cfg)
    ensures TagOf(cfg, [DOC], TITLE) == "t" && GoesOnMeta(cfg, [DOC], TITLE) && NameOf(cfg, [DOC], TITLE) == "t"
  {
    hide Join;
    DocTag(cfg);
    Different();
    assert [DOC][..0] == [];
    assert Names(DomOf(cfg, [DOC])) == ["doc"];
    JoinTwo("doc", "title", '.');
    assert ["doc"] + ["title"] == ["doc", "title"] && "doc" + ['.'] + "title" == "doc.title";
  }

  lemma TitleNames(cfg: Config)
    requires TitleConfig(cfg)
    ensures Names(MetaOf(cfg, [])) == ["swishdefault"] && Names(MetaOf(cfg, [TITLE])) == ["swishdefault", "title"]
  {
    hide Join, GoesOnMeta, NameOf;
    TitleTag(cfg);
    assert [TITLE][..0] == [];
  }

  lemma AliasNames(cfg: Config)
    requires AliasConfig(cfg)
    ensures Names(MetaOf(cfg, [DOC])) == ["swishdefault"] && Names(MetaOf(cfg, [DOC, TITLE])) == ["swishdefault", "t"]
  {
    hide Join, GoesOnMeta, NameOf;
    DocTag(cfg);
    AliasTag(cfg);
    assert [DOC][..0] == [] && [DOC, TITLE][..1] == [DOC];
  }

  // ---------------------------------------------------------------- what is flushed

  /** An empty flush for what is before the title, its text, and an empty one for what is behind it. */
  function TitleBits(name: string): seq<Bit> {
    [] + [Flushed(["swishdefault"], true)] + [Said("x", true, ["swishdefault", name])]
    + [Flushed(["swishdefault", name], false)] + [Flushed(["swishdefault"], true)]
  }

  lemma TitleWritten(cfg: Config)
    requires TitleConfig(cfg)
    ensures BitsOf(cfg, [Within(TITLE, [Say("x")])]) == TitleBits("title")
  {
    TitleTag(cfg);
    TitleNames(cfg);
    hide Write, GoesOnMeta, MetaOf, TitleConfig;
    assert [] + [TITLE] == [TITLE] && [Within(TITLE, [Say("x")])] + [] == [Within(TITLE, [Say("x")])];
    var w1 := Writing([] + [Flushed(["swishdefault"], true)], true, 0);
    OneSay(cfg, [TITLE], "x", w1);
    MetaBits(cfg, [], TITLE, [Say("x")], [], Writing([], true, 0));
    WriteMore(cfg, [], Within(TITLE, [Say("x")]), [],
              Writing(w1.bits + [Said("x", true, ["swishdefault", "title"])]
                      + [Flushed(["swishdefault", "title"], false)], true, 0));
  }

  lemma AliasWritten(cfg: Config)
    requires AliasConfig(cfg)
    ensures BitsOf(cfg, [Within(DOC, [Within(TITLE, [Say("x")])])]) == TitleBits("t")
  {
    DocTag(cfg);
    AliasTag(cfg);
    AliasNames(cfg);
    hide Write, GoesOnMeta, MetaOf, AliasConfig;
    var w1 := Writing([] + [Flushed(["swishdefault"], true)], true, 0);
    OneSay(cfg, [DOC, TITLE], "x", w1);
    MetaLast(cfg, DOC, TITLE, [Say("x")], Said("x", true, ["swishdefault", "t"]), Writing([], true, 0));
    Wrapped(cfg, DOC, [Within(TITLE, [Say("x")])]);
  }

  lemma FlushedPart(cfg: Config, bits: seq<Bit>, names: seq<string>, whole: bool, text: string)
    requires names != [] && Innermost(names) in cfg.metanames && cfg.metanames[Innermost(names)] == None
    requires Pend(bits) == text
    ensures PartsOf(cfg, bits + [Flushed(names, whole)])
         == PartsOf(cfg, bits) + [Part.Flush(text, Innermost(names), Join(names, '/'))]
    ensures Pend(bits + [Flushed(names, whole)]) == ""
  {
    hide Pend, PartsOf, FlushOf, PartOf;
    BitsSnoc(cfg, bits, Flushed(names, whole));
    PartsSnoc(cfg, bits + [Flushed(names, whole)]);
    FirstFiled(cfg, names, whole, text);
  }

  lemma TitleParts(cfg: Config, name: string)
    requires "swishdefault" in cfg.metanames && cfg.metanames["swishdefault"] == None
    requires name in cfg.metanames && cfg.metanames[name] == None
    ensures PartsOf(cfg, TitleBits(name))
         == [Part.Flush("", "swishdefault", "swishdefault"),
             Part.Flush("x", name, "swishdefault" + ['/'] + name),
             Part.Flush("", "swishdefault", "swishdefault")]
  {
    hide Pend, PartsOf, Join;
    NoBits(cfg);
    JoinTwo("swishdefault", name, '/');
    var b0: seq<Bit> := [];
    var b1 := b0 + [Flushed(["swishdefault"], true)];
    var said := Said("x", true, ["swishdefault", name]);
    FlushedPart(cfg, b0, ["swishdefault"], true, "");
    BitsSnoc(cfg, b1, said);
    PartsSnoc(cfg, b1 + [said]);
    assert "" + "" + "x" == "x";
    FlushedPart(cfg, b1 + [said], ["swishdefault", name], false, "x");
    FlushedPart(cfg, b1 + [said] + [Flushed(["swishdefault", name], false)], ["swishdefault"], true, "");
  }

  lemma NoBits(cfg: Config)
    ensures PartsOf(cfg, []) == [] && Pend([]) == ""
  {
  }

  /** The one token of such parts. */
  lemma OneToken(lens: Lengths, a: Part, b: Part, c: Part)
    requires lens.max >= 2 && lens.min == 1 && a.Flush? && b.Flush? && c.Flush?
    requires a.text == "" && b.text == "x" && c.text == ""
    ensures WordsOf(lens, [a, b, c]).items == [Item("x", 1, b.meta, b.context)]
  {
    hide Scan, Place;
    NoSpots(lens);
    PlaceNone(0, a.meta, a.context);
    LetterX(lens);
    PlaceX(b.meta, b.context);
    PlaceNone(1, c.meta, c.context);
    assert [a, b, c][..2] == [a, b] && [a, b][..1] == [a] && [a][..0] == [];
    assert WordsOf(lens, [a]) == WordList([], 0);
    assert WordsOf(lens, [a, b]) == WordList([Item("x", 1, b.meta, b.context)], 1);
  }

  lemma LetterX(lens: Lengths)
    requires lens.max >= 2 && lens.min == 1
    ensures Scan(lens, "x", false) == [Word("x")]
  {
    assert ToLower('x') == 'x' && IsWordChar('x');
    ScanWord(lens, "x");
  }

  lemma PlaceX(meta: string, context: string)
    ensures Place([Word("x")], 0, meta, context) == [Item("x", 1, meta, context)]
  {
    assert [Word("x")][..0] == [];
  }

  /** <title>x</title>: the token is filed under title, in the context swishdefault/title. */
  lemma TitleToken(cfg: Config, lens: Lengths)
    requires lens.max >= 2 && lens.min == 1 && TitleConfig(cfg)
    ensures WordsOf(lens, PartsOf(cfg, BitsOf(cfg, [Within(TITLE, [Say("x")])]))).items
         == [Item("x", 1, "title", "swishdefault/title")]
  {
    TitleWritten(cfg);
    TitleParts(cfg, "title");
    hide *;
    Contexts();
    OneToken(lens, Part.Flush("", "swishdefault", "swishdefault"), Part.Flush("x", "title", "swishdefault/title"),
             Part.Flush("", "swishdefault", "swishdefault"));
  }

  /** <doc><title>x</title></doc>, where the path doc.title is an alias of t. */
  lemma AliasToken(cfg: Config, lens: Lengths)
    requires lens.max >= 2 && lens.min == 1 && AliasConfig(cfg)
    ensures WordsOf(lens, PartsOf(cfg, BitsOf(cfg, [Within(DOC, [Within(TITLE, [Say("x")])])]))).items
         == [Item("x", 1, "t", "swishdefault/t")]
  {
    AliasWritten(cfg);
    TitleParts(cfg, "t");
    hide *;
    Contexts();
    OneToken(lens, Part.Flush("", "swishdefault", "swishdefault"), Part.Flush("x", "t", "swishdefault/t"),
             Part.Flush("", "swishdefault", "swishdefault"));
  }

  lemma Contexts()
    ensures "swishdefault" + ['/'] + "title" == "swishdefault/title" && "swishdefault" + ['/'] + "t" == "swishdefault/t"
  {
  }
}
