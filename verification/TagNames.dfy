/** The names elements go by, spelled out: prefixes, aliases and dotted properties. */
module TagNames {
  import opened TagStacks
  import opened Sax
  import opened StackDiscipline
  import opened Titles

  const PREFIXED := Elem(Some("dc"), "title")

  /** Tag names in small letters stay as they are. */
  predicate KeepsCase(cfg: Config) {
    cfg.lower("doc") == "doc" && cfg.lower("title") == "title" && cfg.lower("dc") == "dc"
  }

  lemma Unequal()
    ensures "dc:title" != "title" && "title" != "t" && "doc" != "t" && "doc" != "title" && "doc.title" != "title"
    ensures "doc" != "doc.title"
  {
    assert |"dc:title"| == 8 && |"title"| == 5 && |"t"| == 1 && |"doc"| == 3 && |"doc.title"| == 9;
  }

  /** A prefix counts unless the configuration says to ignore it. */
  lemma Prefix(cfg: Config)
    requires KeepsCase(cfg) && cfg.aliases == map[]
    ensures TagOf(cfg, [], PREFIXED) == if cfg.ignoreXmlns then "title" else "dc:title"
    ensures TagOf(cfg, [], TITLE) == "title"
  {
    assert "dc" + [':'] + "title" == "dc:title";
  }

  /** Both halves of the name are lower-cased. */
  lemma PrefixInCase(cfg: Config, p: string, raw: string)
    requires cfg.lower(p) == "dc" && cfg.lower(raw) == "title" && !cfg.ignoreXmlns
    ensures XmlName(cfg, Elem(Some(p), raw)) == "dc:title" && XmlName(cfg, Elem(None, raw)) == "title"
  {
    assert "dc" + [':'] + "title" == "dc:title";
  }

  /** An alias of the name itself comes before one of the path. */
  lemma OwnAlias(cfg: Config)
    requires KeepsCase(cfg) && cfg.aliases == map["title" := "t", "doc.title" := "u"]
    ensures TagOf(cfg, [], TITLE) == "t" && TagOf(cfg, [DOC], TITLE) == "t"
  {
    Unequal();
  }

  lemma OpenDoc(cfg: Config)
    requires KeepsCase(cfg) && cfg.aliases == map[]
    ensures TagOf(cfg, [], DOC) == "doc" && PathOf(cfg, [], DOC) == "doc"
    ensures TagOf(cfg, [DOC], TITLE) == "title" && PathOf(cfg, [DOC], TITLE) == "doc.title"
  {
    assert [DOC][..0] == [] && Names(DomOf(cfg, [])) + ["doc"] == ["doc"];
    assert Names(DomOf(cfg, [DOC])) == ["doc"];
    JoinTwo("doc", "title", '.');
    assert ["doc"] + ["title"] == ["doc", "title"] && "doc" + ['.'] + "title" == "doc.title";
  }

  /** A property that is known by its path goes onto the stacks with that path, the one of the metanames
      too, */
  lemma PathName(cfg: Config)
    requires KeepsCase(cfg) && cfg.aliases == map[] && cfg.properties == {"doc.title"}
    ensures NameOf(cfg, [DOC], TITLE) == "doc.title"
    ensures GoesOnProp(cfg, [DOC], TITLE) && !GoesOnProp(cfg, [], DOC)
    ensures Names(PropOf(cfg, [DOC, TITLE])) == ["/", "doc.title"]
  {
    Unequal();
    OpenDoc(cfg);
    hide TagOf, PathOf, DomOf;
    assert [DOC][..0] == [] && [DOC, TITLE][..1] == [DOC];
    assert Names(PropOf(cfg, [DOC])) == ["/"];
  }

  /** and one that is known by its name goes there with that. */
  lemma PlainName(cfg: Config)
    requires KeepsCase(cfg) && cfg.aliases == map[] && cfg.properties == {"title"}
    ensures NameOf(cfg, [DOC], TITLE) == "title"
    ensures Names(PropOf(cfg, [DOC, TITLE])) == ["/", "title"]
    ensures PropOf(cfg, [DOC, TITLE])[1].context == "//title"
  {
    Unequal();
    OpenDoc(cfg);
    hide TagOf, PathOf, DomOf;
    assert [DOC][..0] == [] && [DOC, TITLE][..1] == [DOC];
    assert Names(PropOf(cfg, [DOC])) == ["/"];
    JoinTwo("/", "title", '/');
    assert ["/"] + ["title"] == ["/", "title"];
    assert "/" + ['/'] + "title" == "//title";
  }

  /** A metaname is known by its name or by its path. */
  lemma MetaByPath(cfg: Config)
    requires KeepsCase(cfg) && cfg.aliases == map[] && cfg.properties == {}
    ensures GoesOnMeta(cfg, [DOC], TITLE) <==> "title" in cfg.metanames || "doc.title" in cfg.metanames
    ensures NameOf(cfg, [DOC], TITLE) == "title"
  {
    OpenDoc(cfg);
    hide TagOf, PathOf;
  }

  /** A noindex stays in force at the tags of a name that is a metaname or an alias, and ends at any other. */
  lemma UndefinedEnds(cfg: Config, s: State)
    requires KeepsCase(cfg) && Live(cfg, s) && s.ignore == 2
    ensures Enabled(cfg, s, Open(TITLE)) ==>
              Step(cfg, s, Open(TITLE)).ignore == if "title" in cfg.metanames || "title" in cfg.aliases then 2 else 0
    ensures Enabled(cfg, s, Close(TITLE)) ==>
              Step(cfg, s, Close(TITLE)).ignore == if "title" in cfg.metanames || "title" in cfg.aliases then 2 else 0
  {
    hide Join, Targets, Bake;
  }
}
