/** Who owns each character: the passages of a document, checked against a plain recursion over
    its tree that knows nothing of runs, buffers or flushes. */
module Ownership {
  import opened CString
  import opened NamedBuffers
  import opened Seqs
  import opened TagStacks
  import opened Directives
  import opened Sax
  import opened StackDiscipline
  import opened Attribution
  import opened Harvest

  /** A printing character and the metanames it lies in, outermost first. */
  datatype Ink = Ink(c: char, names: seq<string>)

  function InkOf(names: seq<string>, text: string): seq<Ink> {
    if text == "" then []
    else InkOf(names, text[..|text| - 1])
         + (if IsSpace(text[|text| - 1]) then [] else [Ink(text[|text| - 1], names)])
  }

  /** The ink of some nodes, and how many noindex comments are in force after them. */
  datatype Inked = Inked(ink: seq<Ink>, ignore: nat)

  /** The ink of a document: every element passes on its own metanames to all it holds, and a
      noindex comment holds until an index comment or an undefined tag. */
  function TreeInk(cfg: Config, open: seq<Elem>, ns: seq<Node>, ignore: nat): Inked
    decreases ns
  {
    if ns == [] then Inked([], ignore)
    else
      var first := NodeInk(cfg, open, ns[0], ignore);
      var rest := TreeInk(cfg, open, ns[1..], first.ignore);
      Inked(first.ink + rest.ink, rest.ignore)
  }

  function NodeInk(cfg: Config, open: seq<Elem>, n: Node, ignore: nat): Inked
    decreases n
  {
    match n
    case Chars(ch) => Inked(if ignore > 0 then [] else InkOf(Names(MetaOf(cfg, open)), ch), ignore)
    case Remark(cmt) =>
      Inked([], match DirectiveOf(cmt)
                case NoIndex => ignore + 1
                case Index => if ignore > 0 then ignore - 1 else 0
                case _ => ignore)
    case Element(e, kids) =>
      var inside := TreeInk(cfg, open + [e], kids, if Defined(cfg, e) then ignore else 0);
      Inked(inside.ink, if Defined(cfg, e) then inside.ignore else 0)
  }

  function PassageInk(ps: seq<Passage>): seq<Ink> {
    if ps == [] then [] else PassageInk(ps[..|ps| - 1]) + InkOf(ps[|ps| - 1].names, ps[|ps| - 1].text)
  }

  lemma {:induction false} InkConcat(names: seq<string>, a: string, b: string)
    ensures InkOf(names, a + b) == InkOf(names, a) + InkOf(names, b)
  {
    hide IsSpace;
    if b == "" {
      assert a + b == a;
    } else {
      var k := |b| - 1;
      InkConcat(names, a, b[..k]);
      assert (a + b)[..|a + b| - 1] == a + b[..k];
    }
  }

  lemma {:induction false} NoInk(names: seq<string>, text: string)
    requires AllSpace(text)
    ensures InkOf(names, text) == []
  {
    hide IsSpace;
    if text != "" {
      NoInk(names, text[..|text| - 1]);
    }
  }

  /** The ink of a reading whose run lies in `names`. */
  function ReadInk(r: Reading, names: seq<string>): seq<Ink> {
    PassageInk(r.done) + InkOf(names, r.run)
  }

  lemma CutKeepsInk(cfg: Config, open: seq<Elem>, r: Reading, names: seq<string>)
    ensures ReadInk(Cut(cfg, open, r), names) == ReadInk(r, Names(MetaOf(cfg, open)))
  {
    hide IsSpace, MetaOf, InkOf;
    var here := Names(MetaOf(cfg, open));
    var p := Passage(here, r.run);
    BlankInk(names);
    if AllSpace(r.run) {
      NoInk(here, r.run);
      assert r.done + [] == r.done;
    } else {
      assert (r.done + [p])[..|r.done|] == r.done;
    }
  }

  lemma BlankInk(names: seq<string>)
    ensures InkOf(names, "") == []
  {
  }

  lemma {:induction false} ReadsInk(cfg: Config, open: seq<Elem>, ns: seq<Node>, r: Reading)
    ensures var after, inked := Read(cfg, open, ns, r), TreeInk(cfg, open, ns, r.ignore);
            var names := Names(MetaOf(cfg, open));
            after.ignore == inked.ignore && ReadInk(after, names) == ReadInk(r, names) + inked.ink
    decreases ns
  {
    hide ReadNode, NodeInk, MetaOf, ReadInk;
    var names := Names(MetaOf(cfg, open));
    if ns == [] {
      assert ReadInk(r, names) + [] == ReadInk(r, names);
    } else {
      var next, first := ReadNode(cfg, open, ns[0], r), NodeInk(cfg, open, ns[0], r.ignore);
      NodeReadsInk(cfg, open, ns[0], r);
      ReadsInk(cfg, open, ns[1..], next);
      Assoc(ReadInk(r, names), first.ink, TreeInk(cfg, open, ns[1..], first.ignore).ink);
    }
  }

  lemma {:induction false} NodeReadsInk(cfg: Config, open: seq<Elem>, n: Node, r: Reading)
    ensures var after, inked := ReadNode(cfg, open, n, r), NodeInk(cfg, open, n, r.ignore);
            var names := Names(MetaOf(cfg, open));
            after.ignore == inked.ignore && ReadInk(after, names) == ReadInk(r, names) + inked.ink
    decreases n
  {
    hide Read, TreeInk, MetaOf, Cut, Defined, DirectiveOf, PassageInk, InkOf;
    var names := Names(MetaOf(cfg, open));
    assert ReadInk(r, names) + [] == ReadInk(r, names);
    match n {
      case Chars(ch) =>
        InkConcat(names, r.run, ch);
        Assoc(PassageInk(r.done), InkOf(names, r.run), InkOf(names, ch));
      case Remark(cmt) =>
        CutKeepsInk(cfg, open, r, names);
        CutIgnore(cfg, open, r);
      case Element(e, kids) =>
        var inner := Names(MetaOf(cfg, open + [e]));
        var r1 := CutAtTag(cfg, open, e, r);
        CutKeepsInk(cfg, open, r, inner);
        CutIgnore(cfg, open, r);
        var r2 := Read(cfg, open + [e], kids, r1);
        ReadsInk(cfg, open + [e], kids, r1);
        CutKeepsInk(cfg, open + [e], r2, names);
        CutIgnore(cfg, open + [e], r2);
    }
  }

  lemma CutIgnore(cfg: Config, open: seq<Elem>, r: Reading)
    ensures Cut(cfg, open, r).ignore == r.ignore
  {
    hide MetaOf;
  }

  /** The passages of a document hold its indexed printing characters, all of them and in order, each
      under exactly the metanames it lies in. */
  lemma PassagesOwnTheInk(cfg: Config, doc: seq<Node>)
    ensures PassageInk(Passages(cfg, doc)) == TreeInk(cfg, [], doc, 0).ink
  {
    hide Read, Cut, MetaOf, TreeInk;
    var r0 := Reading([], "", 0);
    var names := Names(MetaOf(cfg, []));
    ReadsInk(cfg, [], doc, r0);
    var r := Read(cfg, [], doc, r0);
    CutKeepsInk(cfg, [], r, names);
    CutRun(cfg, [], r);
    BlankInk(names);
    var last := Cut(cfg, [], r);
    assert PassageInk(last.done) + [] == PassageInk(last.done);
    var ink := TreeInk(cfg, [], doc, 0).ink;
    assert [] + ink == ink;
  }

  lemma CutRun(cfg: Config, open: seq<Elem>, r: Reading)
    ensures Cut(cfg, open, r).run == ""
  {
    hide MetaOf;
  }

  /** So do the buffers' flushes of a whole run of the machine. */
  lemma FlushesOwnTheInk(cfg: Config, doc: seq<Node>)
    requires DEFAULT_METANAME in cfg.metanames && Sound(cfg, [], doc) && XmlText(doc)
    ensures Runnable(cfg, Start(cfg), Events(doc))
    ensures PassageInk(Carried(Final(cfg, doc).flushes)) == TreeInk(cfg, [], doc, 0).ink
  {
    hide Sound, XmlText, Final, Passages, Carried, TreeInk, PassageInk, Runnable, Start, Events;
    FlushesCarryDocument(cfg, doc);
    PassagesOwnTheInk(cfg, doc);
  }
}
