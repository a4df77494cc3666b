/** The SAX text machine of parser.c for XML documents: open, close, text and comment events
    drive three tag stacks, a pending buffer and the named buffers of the metanames.
    The mode is UndefinedMetaTags=index and UndefinedXMLAttributes=disable, and no element
    carries an attribute that the configuration knows. */
module Sax {
  import opened CString
  import opened Directives
  import opened NamedBuffers
  import opened Seqs
  import opened TagStacks

  /** SWISH_DEFAULT_METANAME, SWISH_DOM_STR, SWISH_DOM_CHAR, SWISH_DOT, SWISH_XMLNS_CHAR */
  const DEFAULT_METANAME := "swishdefault"
  const DOM_STR := "/"
  const DOM_CHAR := '/'
  const DOT := '.'
  const XMLNS_CHAR := ':'

  datatype Option<+T> = None | Some(value: T)

  /** `metanames` maps each name to its alias_for; `lower` is swish_str_tolower, which depends
      on the locale outside ASCII. */
  datatype Config = Config(
    metanames: map<string, Option<string>>,
    properties: set<string>,
    aliases: map<string, string>,
    cascade: bool,
    ignoreXmlns: bool,
    lower: string -> string)

  /** An element as libxml2 names it. */
  datatype Elem = Elem(prefix: Option<string>, raw: string)

  datatype Event = Open(e: Elem) | Close(e: Elem) | Text(ch: string) | Comment(cmt: string)

  /** One call of flush_buffer: `names` is the metaname stack the text was read under, `whole`
      says whether that stack still stood or had its head popped already, and `added` the
      buffers the text went to, in order. */
  datatype Flush = Flush(names: seq<string>, whole: bool, context: string, added: seq<string>, text: string)

  datatype State = State(
    metaBuf: string,
    bump: bool,
    ignore: nat,
    dom: Stack,
    prop: Stack,
    meta: Stack,
    metanames: Buffers,
    flushes: seq<Flush>)

  // ---------------------------------------------------------------- names

  function XmlName(cfg: Config, e: Elem): string {
    var tag := cfg.lower(e.raw);
    if e.prefix.Some? && !cfg.ignoreXmlns then cfg.lower(e.prefix.value) + [XMLNS_CHAR] + tag else tag
  }

  predicate Defined(cfg: Config, e: Elem) {
    XmlName(cfg, e) in cfg.metanames || XmlName(cfg, e) in cfg.aliases
  }

  /** bake_tag, XML branch: the name itself may be aliased, else its whole dotted path. */
  function Bake(cfg: Config, dom: seq<string>, e: Elem): string {
    var tag := XmlName(cfg, e);
    var path := Join(dom + [tag], DOT);
    if tag in cfg.aliases then cfg.aliases[tag]
    else if path in cfg.aliases then cfg.aliases[path]
    else tag
  }

  /** The name an open tag goes onto the meta and property stacks with.  The dotted path is
      looked up among the properties for both. */
  function StackName(cfg: Config, tag: string, path: string): string {
    if path in cfg.properties then path else tag
  }

  predicate IsMeta(cfg: Config, tag: string, path: string) {
    tag in cfg.metanames || path in cfg.metanames
  }

  predicate IsProp(cfg: Config, tag: string, path: string) {
    tag in cfg.properties || path in cfg.properties
  }

  // ---------------------------------------------------------------- the machine

  /** What the original relies on: no stack runs empty, and every metaname it flushes to is
      in the configuration (a missing one would be a NULL dereference). */
  predicate Live(cfg: Config, s: State) {
    && s.meta != [] && s.prop != []
    && DEFAULT_METANAME in cfg.metanames
    && forall t :: t in s.meta ==> t.baked in cfg.metanames
  }

  function Top(s: Stack): Tag
    requires s != []
  {
    s[|s| - 1]
  }

  predicate Enabled(cfg: Config, s: State, ev: Event)
    requires Live(cfg, s)
  {
    match ev
    case Open(e) =>
      var tag := Bake(cfg, Names(s.dom), e);
      var path := Join(Names(s.dom) + [tag], DOT);
      IsMeta(cfg, tag, path) ==> StackName(cfg, tag, path) in cfg.metanames
    case Close(e) =>
      && s.dom != []
      && (|s.meta| == 1 ==> s.meta[0].raw != e.raw)
      && (|s.prop| == 1 ==> s.prop[0].raw != e.raw)
    case Text(_) => true
    case Comment(_) => true
  }

  function Stored(cfg: Config, name: string): string
    requires name in cfg.metanames
  {
    if cfg.metanames[name].Some? then cfg.metanames[name].value else name
  }

  /** The names from the head down that differ from `stored`. */
  function Others(names: seq<string>, stored: string): seq<string> {
    if names == [] then []
    else
      var k := |names| - 1;
      (if names[k] == stored then [] else [names[k]]) + Others(names[..k], stored)
  }

  lemma OthersDown(names: seq<string>, k: nat, stored: string, added: seq<string>)
    requires k < |names|
    ensures added + Others(names[..k + 1], stored)
         == (if names[k] == stored then added else added + [names[k]]) + Others(names[..k], stored)
  {
    assert names[..k + 1][..k] == names[..k];
    Assoc(added, if names[k] == stored then [] else [names[k]], Others(names[..k], stored));
    assert added + [] == added;
  }

  lemma NoOthers(names: seq<string>, stored: string)
    ensures Others(names[..0], stored) == []
  {
  }

  /** The named buffers a flush under `metaname` adds to, in order. */
  function Targets(cfg: Config, names: seq<string>, metaname: string): seq<string>
    requires metaname in cfg.metanames
  {
    var stored := Stored(cfg, metaname);
    [stored] + (if cfg.cascade then Others(names, stored) else [])
  }

  function FlushBuffer(cfg: Config, s: State, metaname: string, context: string, names: seq<string>): State
    requires metaname in cfg.metanames
  {
    var added := Targets(cfg, Names(s.meta), metaname);
    s.(metanames := AddAll(s.metanames, added, s.metaBuf),
       flushes := s.flushes + [Flush(names, Names(s.meta) == names, context, added, s.metaBuf)],
       metaBuf := "")
  }

  /** The side effects of bake_tag: bump, and index again after an undefined tag. */
  function Baked(cfg: Config, s: State, e: Elem): State {
    s.(bump := true, ignore := if Defined(cfg, e) then s.ignore else 0)
  }

  /** What is pending goes to the metaname that was open so far; then the new one is pushed. */
  function OpenMeta(cfg: Config, s: State, e: Elem, name: string): State
    requires Live(cfg, s)
  {
    var flushed := FlushBuffer(cfg, s, Top(s.meta).baked, Top(s.meta).context, Names(s.meta));
    flushed.(meta := Pushed(s.meta, e.raw, name, DOM_CHAR))
  }

  function OpenTag(cfg: Config, s: State, e: Elem): State
    requires Live(cfg, s) && Enabled(cfg, s, Open(e))
  {
    var tag := Bake(cfg, Names(s.dom), e);
    var path := Join(Names(s.dom) + [tag], DOT);
    var name := StackName(cfg, tag, path);
    var s1 := Baked(cfg, s, e);
    var s2 := s1.(
      dom := Pushed(s.dom, e.raw, tag, DOT),
      prop := if IsProp(cfg, tag, path) then Pushed(s.prop, e.raw, name, DOM_CHAR) else s.prop);
    if IsMeta(cfg, tag, path) then OpenMeta(cfg, s2, e, name) else s2
  }

  /** The metaname comes off the stack, then what is pending goes to it. */
  function CloseMeta(cfg: Config, s: State): State
    requires Live(cfg, s)
  {
    FlushBuffer(cfg, s.(meta := s.meta[..|s.meta| - 1]), Top(s.meta).baked, Top(s.meta).context, Names(s.meta))
  }

  function CloseTag(cfg: Config, s: State, e: Elem): State
    requires Live(cfg, s) && Enabled(cfg, s, Close(e))
  {
    var s1 := Baked(cfg, s, e);
    var s2 := s1.(prop := if Top(s.prop).raw == e.raw then s.prop[..|s.prop| - 1] else s.prop);
    var s3 := if Top(s.meta).raw == e.raw then CloseMeta(cfg, s2) else s2;
    s3.(dom := s.dom[..|s.dom| - 1])
  }

  function Characters(s: State, ch: string): State {
    if s.ignore > 0 then s
    else s.(metaBuf := s.metaBuf + (if s.bump && s.metaBuf != "" then [BUMPER] else "") + ch,
            bump := false)
  }

  function Comments(s: State, directive: Directive): State {
    match directive
    case Blank => s
    case Command => s
    case NoIndex => s.(ignore := s.ignore + 1)
    case Index => s.(ignore := if s.ignore > 0 then s.ignore - 1 else 0)
    case Plain => s.(bump := true)
  }

  /** One event.  Where the original would fail, the machine stands still. */
  function Step(cfg: Config, s: State, ev: Event): State {
    if !(Live(cfg, s) && Enabled(cfg, s, ev)) then s
    else
      match ev
      case Open(e) => OpenTag(cfg, s, e)
      case Close(e) => CloseTag(cfg, s, e)
      case Text(ch) => Characters(s, ch)
      case Comment(cmt) => Comments(s, DirectiveOf(cmt))
  }

  function Run(cfg: Config, s: State, evs: seq<Event>): State
    decreases evs
  {
    if evs == [] then s else Run(cfg, Step(cfg, s, evs[0]), evs[1..])
  }

  /** No event of `evs` finds the machine where the original would fail. */
  predicate Runnable(cfg: Config, s: State, evs: seq<Event>)
    decreases evs
  {
    && Live(cfg, s)
    && (evs == [] || (Enabled(cfg, s, evs[0]) && Runnable(cfg, Step(cfg, s, evs[0]), evs[1..])))
  }

  lemma {:induction false} RunConcat(cfg: Config, s: State, a: seq<Event>, b: seq<Event>)
    ensures Run(cfg, s, a + b) == Run(cfg, Run(cfg, s, a), b)
    ensures Runnable(cfg, s, a + b) <==> Runnable(cfg, s, a) && Runnable(cfg, Run(cfg, s, a), b)
    decreases a
  {
    if a == [] {
      assert a + b == b;
    } else {
      RunConcat(cfg, Step(cfg, s, a[0]), a[1..], b);
      assert (a + b)[1..] == a[1..] + b;
      assert (a + b)[0] == a[0];
    }
  }

  lemma RunOne(cfg: Config, s: State, ev: Event)
    ensures Run(cfg, s, [ev]) == Step(cfg, s, ev)
    ensures Runnable(cfg, s, [ev]) <==> Live(cfg, s) && Enabled(cfg, s, ev) && Live(cfg, Step(cfg, s, ev))
  {
    var next := Step(cfg, s, ev);
    assert [ev][1..] == [];
    assert Run(cfg, next, []) == next;
  }

  function EndDocument(cfg: Config, s: State): State
    requires DEFAULT_METANAME in cfg.metanames
  {
    FlushBuffer(cfg, s, DEFAULT_METANAME, DEFAULT_METANAME, [DEFAULT_METANAME])
  }

  function Start(cfg: Config): State {
    State("", true, 0, [],
          Pushed([], DOM_STR, DOM_STR, DOM_CHAR),
          Pushed([], DEFAULT_METANAME, DEFAULT_METANAME, DOM_CHAR),
          map k | k in cfg.metanames :: "", [])
  }

  // ---------------------------------------------------------------- swish_ParserData

  class ParserData {
    const cfg: Config
    var metaBuf: string
    var bumpWord: bool
    var ignoreContent: nat
    const domstack: TagStack
    const propstack: TagStack
    const metastack: TagStack
    const metanames: NamedBuffer
    ghost var flushes: seq<Flush>

    ghost predicate Valid()
      reads this, domstack, propstack, metastack, metanames
    {
      && domstack != propstack && domstack != metastack && propstack != metastack
      && domstack.Valid() && propstack.Valid() && metastack.Valid()
      && domstack.join == DOT && propstack.join == DOM_CHAR && metastack.join == DOM_CHAR
      && Live(cfg, View())
    }

    ghost function View(): State
      reads this, domstack, propstack, metastack, metanames
    {
      State(metaBuf, bumpWord, ignoreContent, domstack.entries, propstack.entries, metastack.entries,
            metanames.hash, flushes)
    }

    /** init_parser_data */
    constructor (cfg: Config)
      requires DEFAULT_METANAME in cfg.metanames
      ensures Valid() && this.cfg == cfg && View() == Start(cfg)
      ensures fresh(domstack) && fresh(propstack) && fresh(metastack) && fresh(metanames)
    {
      this.cfg := cfg;
      metaBuf, bumpWord, ignoreContent, flushes := "", true, 0, [];
      metanames := new NamedBuffer(cfg.metanames.Keys);
      metastack := new TagStack(DOM_CHAR);
      propstack := new TagStack(DOM_CHAR);
      domstack := new TagStack(DOT);
      new;
      metastack.Push(DEFAULT_METANAME, DEFAULT_METANAME);
      propstack.Push(DOM_STR, DOM_STR);
    }

    /** bake_tag, XML branch */
    method BakeTag(e: Elem) returns (tag: string)
      requires Valid()
      modifies this
      ensures Valid() && View() == Baked(cfg, old(View()), e)
      ensures tag == Bake(cfg, Names(domstack.entries), e)
    {
      tag := cfg.lower(e.raw);
      if e.prefix.Some? && !cfg.ignoreXmlns {
        tag := cfg.lower(e.prefix.value) + [XMLNS_CHAR] + tag;
      }
      bumpWord := true;
      if tag !in cfg.metanames && tag !in cfg.aliases {
        if ignoreContent > 0 {
          ignoreContent := 0;
        }
      }
      if tag in cfg.aliases {
        tag := cfg.aliases[tag];
      } else {
        var swishdomtag := domstack.Flatten([tag]);
        if swishdomtag in cfg.aliases {
          tag := cfg.aliases[swishdomtag];
        }
      }
    }

    /** The buffers' share of flush_buffer: the metaname's own, then with cascade_meta_context
        those of the stack from the head down. */
    method AddToBuffers(metaname: string)
      requires metaname in cfg.metanames
      modifies metanames
      ensures metanames.hash
           == AddAll(old(metanames.hash), Targets(cfg, Names(metastack.entries), metaname), metaBuf)
    {
      hide AddStr, AddAll, Others;
      var storedAs := if cfg.metanames[metaname].Some? then cfg.metanames[metaname].value else metaname;
      ghost var before := metanames.hash;
      metanames.AddBuf(storedAs, metaBuf);
      AddAllOne(before, storedAs, metaBuf);
      assert [storedAs] + [] == [storedAs];
      if cfg.cascade {
        AddToOthers(storedAs, before);
      }
    }

    /** The loop of cascade_meta_context, from the head of the stack down. */
    method AddToOthers(storedAs: string, ghost before: Buffers)
      requires metanames.hash == AddAll(before, [storedAs], metaBuf)
      modifies metanames
      ensures metanames.hash == AddAll(before, [storedAs] + Others(Names(metastack.entries), storedAs), metaBuf)
    {
      hide AddStr, AddAll, Others;
      var all := Names(metastack.entries);
      var temp := |all|;
      ghost var added := [storedAs];
      assert all[..temp] == all;
      while temp > 0
        invariant 0 <= temp <= |all|
        invariant metanames.hash == AddAll(before, added, metaBuf)
        invariant [storedAs] + Others(all, storedAs) == added + Others(all[..temp], storedAs)
      {
        temp := temp - 1;
        OthersDown(all, temp, storedAs, added);
        if all[temp] != storedAs {
          metanames.AddBuf(all[temp], metaBuf);
          AddAllSnoc(before, added, all[temp], metaBuf);
          added := added + [all[temp]];
        }
      }
      NoOthers(all, storedAs);
      assert added + [] == added;
    }

    /** flush_buffer, up to handing the text to the tokenizer */
    method FlushBuf(metaname: string, context: string, ghost names: seq<string>)
      requires Valid() && metaname in cfg.metanames
      modifies this, metanames
      ensures Valid() && View() == FlushBuffer(cfg, old(View()), metaname, context, names)
    {
      hide Consistent, Targets, AddAll;
      AddToBuffers(metaname);
      ghost var stack := Names(metastack.entries);
      flushes := flushes + [Flush(names, stack == names, context, Targets(cfg, stack, metaname), metaBuf)];
      metaBuf := "";
    }

    /** open_tag's share of the property stack */
    method PushProperty(e: Elem, tag: string, path: string)
      requires Valid()
      modifies propstack
      ensures Valid()
      ensures View() == old(View()).(prop := if IsProp(cfg, tag, path)
        then Pushed(old(View()).prop, e.raw, StackName(cfg, tag, path), DOM_CHAR) else old(View()).prop)
    {
      hide Consistent;
      if tag in cfg.properties || path in cfg.properties {
        var baked;
        if path in cfg.properties {
          baked := path;
        } else {
          baked := tag;
        }
        propstack.Push(e.raw, baked);
      }
    }

    /** open_tag's share of the metaname stack */
    method PushMetaname(e: Elem, tag: string, path: string)
      requires Valid() && (IsMeta(cfg, tag, path) ==> StackName(cfg, tag, path) in cfg.metanames)
      modifies this, metastack, metanames
      ensures Valid()
      ensures View() == if IsMeta(cfg, tag, path)
        then OpenMeta(cfg, old(View()), e, StackName(cfg, tag, path)) else old(View())
    {
      hide Consistent, Targets;
      if tag in cfg.metanames || path in cfg.metanames {
        var head := metastack.entries[|metastack.entries| - 1];
        FlushBuf(head.baked, head.context, Names(metastack.entries));
        var baked;
        if path in cfg.properties {
          baked := path;
        } else {
          baked := tag;
        }
        metastack.Push(e.raw, baked);
      }
    }

    /** open_tag */
    method OpenElement(e: Elem)
      requires Valid() && Enabled(cfg, View(), Open(e))
      modifies this, domstack, propstack, metastack, metanames
      ensures Valid() && View() == Step(cfg, old(View()), Open(e))
    {
      hide Bake, OpenMeta, XmlName, Join, Consistent, IsMeta, IsProp, StackName;
      var tag := BakeTag(e);
      domstack.Push(e.raw, tag);
      var path := domstack.entries[|domstack.entries| - 1].context;
      PushProperty(e, tag, path);
      PushMetaname(e, tag, path);
    }

    /** close_tag */
    method CloseElement(e: Elem)
      requires Valid() && Enabled(cfg, View(), Close(e))
      modifies this, domstack, propstack, metastack, metanames
      ensures Valid() && View() == Step(cfg, old(View()), Close(e))
    {
      hide Bake, FlushBuffer, XmlName, Join, Consistent;
      var _ := BakeTag(e);
      var _ := propstack.PopOnMatch(e.raw);
      PopMetaname(e);
      var _ := domstack.Pop();
    }

    /** close_tag's share of the metaname stack: the head is off before the flush. */
    method PopMetaname(e: Elem)
      requires Valid() && (|metastack.entries| == 1 ==> metastack.entries[0].raw != e.raw)
      modifies this, metastack, metanames
      ensures Valid()
      ensures View() == if Top(old(View()).meta).raw == e.raw
        then CloseMeta(cfg, old(View())) else old(View())
    {
      hide FlushBuffer, Join, Consistent;
      ghost var names := Names(metastack.entries);
      var st := metastack.PopOnMatch(e.raw);
      if |st| == 1 {
        FlushBuf(st[0].baked, st[0].context, names);
      }
    }

    /** buffer_characters */
    method BufferCharacters(ch: string)
      requires Valid()
      modifies this
      ensures Valid() && View() == Step(cfg, old(View()), Text(ch))
    {
      if ignoreContent > 0 {
        return;
      }
      if bumpWord && |metaBuf| > 0 {
        metaBuf := metaBuf + [BUMPER];
      }
      metaBuf := metaBuf + ch;
      bumpWord := false;
    }

    /** mycomments */
    method HandleComment(cmt: string)
      requires Valid()
      modifies this
      ensures Valid() && View() == Step(cfg, old(View()), Comment(cmt))
    {
      hide DirectiveOf;
      var directive := ReadDirective(cmt);
      if directive == NoIndex {
        ignoreContent := ignoreContent + 1;
      } else if directive == Index {
        if ignoreContent > 0 {
          ignoreContent := ignoreContent - 1;
        }
      } else if directive == Plain {
        bumpWord := true;
      }
    }

    /** libxml2 calling the handlers for a whole document, myendDocument last. */
    method Parse(evs: seq<Event>)
      requires Valid() && Runnable(cfg, View(), evs)
      modifies this, domstack, propstack, metastack, metanames
      ensures Valid() && View() == EndDocument(cfg, Run(cfg, old(View()), evs))
    {
      hide Step, Enabled, FlushBuffer;
      ghost var end := Run(cfg, View(), evs);
      var i := 0;
      assert evs[0..] == evs;
      while i < |evs|
        invariant 0 <= i <= |evs| && Valid()
        invariant Runnable(cfg, View(), evs[i..]) && Run(cfg, View(), evs[i..]) == end
      {
        assert evs[i..][1..] == evs[i + 1..];
        match evs[i] {
          case Open(e) => OpenElement(e);
          case Close(e) => CloseElement(e);
          case Text(ch) => BufferCharacters(ch);
          case Comment(cmt) => HandleComment(cmt);
        }
        i := i + 1;
      }
      FlushBuf(DEFAULT_METANAME, DEFAULT_METANAME, [DEFAULT_METANAME]);
    }
  }
}
