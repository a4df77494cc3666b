/** What the three tag stacks hold at any point of a document: functions of the elements that
    are open there. */
module StackDiscipline {
  import opened TagStacks
  import opened Directives
  import opened Sax

  /** The name `e` bakes to as a child of `open`, and its dotted path. */
  function TagOf(cfg: Config, open: seq<Elem>, e: Elem): string
    decreases |open|, 1
  {
    Bake(cfg, Names(DomOf(cfg, open)), e)
  }

  function PathOf(cfg: Config, open: seq<Elem>, e: Elem): string {
    Join(Names(DomOf(cfg, open)) + [TagOf(cfg, open, e)], DOT)
  }

  function DomOf(cfg: Config, open: seq<Elem>): Stack
    decreases |open|, 0
  {
    if open == [] then []
    else
      var outer, e := open[..|open| - 1], open[|open| - 1];
      Pushed(DomOf(cfg, outer), e.raw, TagOf(cfg, outer, e), DOT)
  }

  predicate GoesOnMeta(cfg: Config, open: seq<Elem>, e: Elem) {
    IsMeta(cfg, TagOf(cfg, open, e), PathOf(cfg, open, e))
  }

  predicate GoesOnProp(cfg: Config, open: seq<Elem>, e: Elem) {
    IsProp(cfg, TagOf(cfg, open, e), PathOf(cfg, open, e))
  }

  function NameOf(cfg: Config, open: seq<Elem>, e: Elem): string {
    StackName(cfg, TagOf(cfg, open, e), PathOf(cfg, open, e))
  }

  /** The default entry, and the open elements that are metanames. */
  function MetaOf(cfg: Config, open: seq<Elem>): (s: Stack)
    ensures s != []
  {
    if open == [] then Pushed([], DEFAULT_METANAME, DEFAULT_METANAME, DOM_CHAR)
    else
      var outer, e := open[..|open| - 1], open[|open| - 1];
      var s := MetaOf(cfg, outer);
      if GoesOnMeta(cfg, outer, e) then Pushed(s, e.raw, NameOf(cfg, outer, e), DOM_CHAR) else s
  }

  function PropOf(cfg: Config, open: seq<Elem>): (s: Stack)
    ensures s != []
  {
    if open == [] then Pushed([], DOM_STR, DOM_STR, DOM_CHAR)
    else
      var outer, e := open[..|open| - 1], open[|open| - 1];
      var s := PropOf(cfg, outer);
      if GoesOnProp(cfg, outer, e) then Pushed(s, e.raw, NameOf(cfg, outer, e), DOM_CHAR) else s
  }

  /** The stacks of `s` are those of a document with `open` open. */
  predicate At(cfg: Config, s: State, open: seq<Elem>) {
    && s.dom == DomOf(cfg, open)
    && s.prop == PropOf(cfg, open)
    && s.meta == MetaOf(cfg, open)
  }

  /** An element that is not on a stack must not be mistaken for the head of that stack: the
      closing tag is matched by raw name alone. */
  predicate Paired(cfg: Config, open: seq<Elem>, e: Elem) {
    && (GoesOnMeta(cfg, open, e) || Top(MetaOf(cfg, open)).raw != e.raw)
    && (GoesOnProp(cfg, open, e) || Top(PropOf(cfg, open)).raw != e.raw)
  }

  /** A metaname goes on the stack under a name the configuration has. */
  predicate Known(cfg: Config, open: seq<Elem>, e: Elem) {
    GoesOnMeta(cfg, open, e) ==> NameOf(cfg, open, e) in cfg.metanames
  }

  // ---------------------------------------------------------------- one event

  lemma Outer(open: seq<Elem>, e: Elem)
    ensures (open + [e])[..|open + [e]| - 1] == open
  {
  }

  lemma OpenPushes(cfg: Config, s: State, open: seq<Elem>, e: Elem)
    requires Live(cfg, s) && At(cfg, s, open) && Known(cfg, open, e)
    ensures Enabled(cfg, s, Open(e))
    ensures At(cfg, Step(cfg, s, Open(e)), open + [e]) && Live(cfg, Step(cfg, s, Open(e)))
  {
    hide Bake, Join, Targets;
    Outer(open, e);
  }

  /** A closing tag brings back the stacks from before its opening tag exactly when its
      element is paired with its own entries. */
  lemma CloseRestores(cfg: Config, s: State, open: seq<Elem>, e: Elem)
    requires Live(cfg, s) && At(cfg, s, open + [e])
    ensures Paired(cfg, open, e)
       <==> Enabled(cfg, s, Close(e)) && At(cfg, Step(cfg, s, Close(e)), open)
    ensures Paired(cfg, open, e) ==> Live(cfg, Step(cfg, s, Close(e)))
  {
    hide Bake, Join, Targets, IsMeta, IsProp, StackName, TagOf, PathOf;
    Outer(open, e);
  }

  // ---------------------------------------------------------------- any point of a document

  /** The elements still open after `evs`, when every close so far was of the innermost open
      element and every element was known and paired. */
  function OpenAfter(cfg: Config, open: seq<Elem>, evs: seq<Event>): Option<seq<Elem>>
    decreases evs
  {
    if evs == [] then Some(open)
    else
      match evs[0]
      case Open(e) =>
        if Known(cfg, open, e) && Paired(cfg, open, e) then OpenAfter(cfg, open + [e], evs[1..]) else None
      case Close(e) =>
        if open != [] && open[|open| - 1] == e then OpenAfter(cfg, open[..|open| - 1], evs[1..]) else None
      case Text(_) => OpenAfter(cfg, open, evs[1..])
      case Comment(_) => OpenAfter(cfg, open, evs[1..])
  }

  predicate AllPaired(cfg: Config, open: seq<Elem>) {
    forall i :: 0 <= i < |open| ==> Paired(cfg, open[..i], open[i])
  }

  /** At every point of a well-nested event sequence the machine is alive and its stacks are
      those of the elements open there. */
  lemma {:induction false} StacksFollowDocument(cfg: Config, s: State, open: seq<Elem>, evs: seq<Event>)
    requires Live(cfg, s) && At(cfg, s, open) && AllPaired(cfg, open)
    requires OpenAfter(cfg, open, evs).Some?
    ensures Runnable(cfg, s, evs) && Live(cfg, Run(cfg, s, evs))
    ensures At(cfg, Run(cfg, s, evs), OpenAfter(cfg, open, evs).value)
    decreases evs
  {
    hide Step, Enabled, Live, At, Known, Paired;
    if evs != [] {
      var next := Step(cfg, s, evs[0]);
      match evs[0] {
        case Open(e) =>
          OpenPushes(cfg, s, open, e);
          AllPairedPush(cfg, open, e);
          StacksFollowDocument(cfg, next, open + [e], evs[1..]);
        case Close(e) =>
          var outer := open[..|open| - 1];
          assert open == outer + [e];
          AllPairedPop(cfg, open);
          CloseRestores(cfg, s, outer, e);
          StacksFollowDocument(cfg, next, outer, evs[1..]);
        case Text(_) =>
          StillAt(cfg, s, open, evs[0]);
          StacksFollowDocument(cfg, next, open, evs[1..]);
        case Comment(_) =>
          StillAt(cfg, s, open, evs[0]);
          StacksFollowDocument(cfg, next, open, evs[1..]);
      }
    }
  }

  lemma StillAt(cfg: Config, s: State, open: seq<Elem>, ev: Event)
    requires Live(cfg, s) && At(cfg, s, open) && (ev.Text? || ev.Comment?)
    ensures Enabled(cfg, s, ev) && Live(cfg, Step(cfg, s, ev)) && At(cfg, Step(cfg, s, ev), open)
  {
    hide DirectiveOf, Bake, DomOf, PropOf, MetaOf;
  }

  lemma AllPairedPush(cfg: Config, open: seq<Elem>, e: Elem)
    requires AllPaired(cfg, open) && Paired(cfg, open, e)
    ensures AllPaired(cfg, open + [e])
  {
    hide Paired;
    var more := open + [e];
    forall i | 0 <= i < |more| ensures Paired(cfg, more[..i], more[i]) {
      assert more[..i] == open[..i];
      assert i == |open| ==> open[..i] == open;
    }
  }

  lemma AllPairedPop(cfg: Config, open: seq<Elem>)
    requires AllPaired(cfg, open) && open != []
    ensures AllPaired(cfg, open[..|open| - 1])
    ensures Paired(cfg, open[..|open| - 1], open[|open| - 1])
  {
    hide Paired;
    var outer := open[..|open| - 1];
    forall i | 0 <= i < |outer| ensures Paired(cfg, outer[..i], outer[i]) {
      assert outer[..i] == open[..i];
    }
  }

  // ---------------------------------------------------------------- plain configurations

  /** No configured name is dotted, and the default metaname is not aliased away. */
  predicate PlainConfig(cfg: Config) {
    && (forall k :: k in cfg.metanames ==> DOT !in k)
    && (forall k :: k in cfg.properties ==> DOT !in k)
    && (forall k :: k in cfg.aliases ==> DOT !in k)
    && SimpleTag(cfg, DEFAULT_METANAME) in cfg.metanames
  }

  /** A name of an XML document (section 2.3 of XML 1.0 has no slash in it), without a
      namespace prefix unless prefixes are ignored. */
  predicate PlainElem(cfg: Config, e: Elem) {
    e.raw != DOM_STR && (e.prefix.None? || cfg.ignoreXmlns)
  }

  function SimpleTag(cfg: Config, raw: string): string {
    var tag := cfg.lower(raw);
    if tag in cfg.aliases then cfg.aliases[tag] else tag
  }

  lemma {:induction false} JoinHasDot(names: seq<string>)
    requires |names| >= 2
    ensures DOT in Join(names, DOT)
  {
    var front := Join(names[..|names| - 1], DOT);
    assert Join(names, DOT)[|front|] == DOT;
  }

  /** In a plain configuration what an element bakes to depends on its raw name alone. */
  lemma PlainBake(cfg: Config, open: seq<Elem>, e: Elem)
    requires PlainConfig(cfg) && PlainElem(cfg, e)
    ensures TagOf(cfg, open, e) == SimpleTag(cfg, e.raw)
    ensures GoesOnMeta(cfg, open, e) <==> SimpleTag(cfg, e.raw) in cfg.metanames
    ensures GoesOnProp(cfg, open, e) <==> SimpleTag(cfg, e.raw) in cfg.properties
    ensures PathOf(cfg, open, e) in cfg.properties ==> PathOf(cfg, open, e) == TagOf(cfg, open, e)
  {
    var dom := Names(DomOf(cfg, open));
    var raw := XmlName(cfg, e);
    var tag := TagOf(cfg, open, e);
    if dom == [] {
      assert dom + [raw] == [raw] && dom + [tag] == [tag];
    } else {
      JoinHasDot(dom + [raw]);
      JoinHasDot(dom + [tag]);
    }
  }

  predicate AllPlain(cfg: Config, open: seq<Elem>) {
    forall e :: e in open ==> PlainElem(cfg, e)
  }

  /** The head of a stack is its default entry or an element that belongs there. */
  lemma {:induction false} PlainHeads(cfg: Config, open: seq<Elem>)
    requires PlainConfig(cfg) && AllPlain(cfg, open)
    ensures SimpleTag(cfg, Top(MetaOf(cfg, open)).raw) in cfg.metanames
    ensures Top(PropOf(cfg, open)).raw == DOM_STR || SimpleTag(cfg, Top(PropOf(cfg, open)).raw) in cfg.properties
  {
    hide PlainConfig, Bake, Join, SimpleTag;
    if open == [] {
      hide *;
      DefaultHeads(cfg);
    } else {
      var outer, e := open[..|open| - 1], open[|open| - 1];
      PlainHeads(cfg, outer);
      PlainBake(cfg, outer, e);
    }
  }

  lemma DefaultHeads(cfg: Config)
    requires PlainConfig(cfg)
    ensures SimpleTag(cfg, Top(MetaOf(cfg, [])).raw) in cfg.metanames
    ensures Top(PropOf(cfg, [])).raw == DOM_STR
  {
    hide SimpleTag;
  }

  /** Plain documents under a plain configuration never lose track of a stack. */
  lemma PlainIsPaired(cfg: Config, open: seq<Elem>, e: Elem)
    requires PlainConfig(cfg) && AllPlain(cfg, open) && PlainElem(cfg, e)
    ensures Known(cfg, open, e) && Paired(cfg, open, e)
  {
    hide PlainConfig, Bake, Join, SimpleTag, MetaOf, PropOf, IsMeta, IsProp;
    PlainBake(cfg, open, e);
    PlainHeads(cfg, open);
  }

  /** Prefixes break it: `p:x` is a metaname and `x` is not, yet inside <p:x> the closing tag
      of <x> pops the entry of <p:x>. */
  lemma PrefixesUnpair(cfg: Config)
    requires cfg.lower("x") == "x" && cfg.lower("p") == "p" && !cfg.ignoreXmlns
    requires cfg.metanames.Keys == {DEFAULT_METANAME, "p:x"} && cfg.aliases == map[] && cfg.properties == {}
    ensures !Paired(cfg, [Elem(Some("p"), "x")], Elem(None, "x"))
  {
    var outer, inner := Elem(Some("p"), "x"), Elem(None, "x");
    assert [outer][..0] == [];
    assert Names(DomOf(cfg, [])) + ["p:x"] == ["p:x"];
    assert TagOf(cfg, [], outer) == "p:x";
    assert GoesOnMeta(cfg, [], outer);
    assert Top(MetaOf(cfg, [outer])).raw == "x";
    assert Names(DomOf(cfg, [outer])) == ["p:x"];
    assert ["p:x"] + ["x"] == ["p:x", "x"];
    assert ["p:x", "x"][..1] == ["p:x"];
    assert PathOf(cfg, [outer], inner) == "p:x" + "." + "x";
    assert |PathOf(cfg, [outer], inner)| == 5;
  }

  // ---------------------------------------------------------------- contexts

  /** Every stack numbers its entries by depth, and each context is the names below joined. */
  lemma {:induction false} StacksConsistent(cfg: Config, open: seq<Elem>)
    ensures Consistent(DomOf(cfg, open), DOT)
    ensures Consistent(MetaOf(cfg, open), DOM_CHAR) && Consistent(PropOf(cfg, open), DOM_CHAR)
  {
    hide Bake, Consistent, IsMeta, IsProp;
    if open == [] {
      NoneConsistent(DOT);
      NoneConsistent(DOM_CHAR);
      PushedConsistent([], DEFAULT_METANAME, DEFAULT_METANAME, DOM_CHAR);
      PushedConsistent([], DOM_STR, DOM_STR, DOM_CHAR);
    } else {
      var outer, e := open[..|open| - 1], open[|open| - 1];
      StacksConsistent(cfg, outer);
      PushedConsistent(DomOf(cfg, outer), e.raw, TagOf(cfg, outer, e), DOT);
      PushedConsistent(MetaOf(cfg, outer), e.raw, NameOf(cfg, outer, e), DOM_CHAR);
      PushedConsistent(PropOf(cfg, outer), e.raw, NameOf(cfg, outer, e), DOM_CHAR);
    }
  }

  lemma NoneConsistent(join: char)
    ensures Consistent([], join)
  {
  }
}
