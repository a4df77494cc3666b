/** Word counts and token lists of documents that include others: tokenize() and the XInclude
    handler of parser.c.  An included document is parsed with a token list of its own, which is
    then read into the list of its parent and freed. */
module IncludedWords {
  import opened CString
  import opened TokenLists
  import opened NamedBuffers
  import opened Tokenizer
  import opened TokenTheorems

  /** What reaches the tokenizer: flushed text, and documents included between flushes. */
  datatype Part = Flush(text: string, meta: string, context: string) | Include(parts: seq<Part>)

  /** Texts the ASCII tokenizer takes, under metanames of the configuration. */
  predicate Known(parts: seq<Part>, metas: set<string>) {
    forall k :: 0 <= k < |parts| ==>
      match parts[k]
      case Flush(text, meta, _) => Ascii(text) && NoNul(text) && meta in metas
      case Include(inner) => Known(inner, metas)
  }

  /** The tokens of an included document as its parent takes them over: one position each. */
  function Adopted(items: seq<Item>, pos: nat): (r: seq<Item>)
    ensures |r| == |items|
  {
    seq(|items|, i requires 0 <= i < |items| => items[i].(pos := pos + 1 + i))
  }

  datatype WordList = WordList(items: seq<Item>, pos: nat)

  /** The tokens of a document and the position it ends at. */
  function WordsOf(lens: Lengths, parts: seq<Part>): WordList
    requires lens.max >= 2
  {
    if parts == [] then WordList([], 0)
    else
      var k := |parts| - 1;
      var w := WordsOf(lens, parts[..k]);
      match parts[k]
      case Flush(text, meta, context) =>
        var marks := Scan(lens, text, false);
        WordList(w.items + Place(marks, w.pos, meta, context), w.pos + |marks|)
      case Include(inner) =>
        var c := WordsOf(lens, inner);
        WordList(w.items + Adopted(c.items, w.pos), w.pos + |c.items|)
  }

  class Document {
    const tk: AsciiTokenizer
    var nwords: nat

    ghost predicate Valid()
      reads this, tk, tk.tl, tk.tl.tokens, tk.tl.refs, tk.tables.word, tk.tables.start, tk.tables.end, tk.token
    {
      tk.Valid() && nwords == |tk.tl.items|
    }

    constructor (tk: AsciiTokenizer)
      requires tk.Valid() && tk.tl.items == []
      ensures Valid() && this.tk == tk
    {
      this.tk, nwords := tk, 0;
    }

    /** tokenize() */
    method Tokenize(text: string, meta: string, context: string)
      requires Valid() && Ascii(text) && NoNul(text) && meta in tk.tl.refs.cnt
      modifies this, tk.token, tk.tl, tk.tl.tokens, tk.tl.refs
      ensures Valid() && (tk.tl.tokens == old(tk.tl.tokens) || fresh(tk.tl.tokens))
      ensures tk.tl.refs.cnt.Keys == old(tk.tl.refs.cnt).Keys && tk.tl.Elsewhere() == old(tk.tl.Elsewhere())
      ensures tk.tl.items == old(tk.tl.items) + Place(Scan(tk.lens, text, false), old(tk.tl.pos), meta, context)
      ensures tk.tl.pos == old(tk.tl.pos) + |Scan(tk.lens, text, false)|
    {
      if |text| == 0 {
        NoText(tk.lens, tk.tl.items, tk.tl.pos, meta, context);
        assert text == "";
        return;
      }
      TokenizeText(text, meta, context);
    }

    method TokenizeText(text: string, meta: string, context: string)
      requires Valid() && Ascii(text) && NoNul(text) && meta in tk.tl.refs.cnt
      modifies this, tk.token, tk.tl, tk.tl.tokens, tk.tl.refs
      ensures Valid() && (tk.tl.tokens == old(tk.tl.tokens) || fresh(tk.tl.tokens))
      ensures tk.tl.refs.cnt.Keys == old(tk.tl.refs.cnt).Keys && tk.tl.Elsewhere() == old(tk.tl.Elsewhere())
      ensures tk.tl.items == old(tk.tl.items) + Place(Scan(tk.lens, text, false), old(tk.tl.pos), meta, context)
      ensures tk.tl.pos == old(tk.tl.pos) + |Scan(tk.lens, text, false)|
    {
      assert tk.lens.max >= 2 && tk.Valid() && nwords == |tk.tl.items|;
      hide *;
      var count := tk.TokenizeAscii(text, meta, context);
      AddWords(count);
    }

    method AddWords(count: nat)
      requires tk.Valid() && nwords + count == |tk.tl.items|
      modifies this`nwords
      ensures Valid()
    {
      nwords := nwords + count;
    }

    /** xinclude_handler: every token of `child`, its NUL included, goes to the end of this list. */
    method Merge(child: Document)
      requires Valid() && child.Valid()
      requires child != this && child.tk.tl != tk.tl && child.tk.tl.tokens != tk.tl.tokens
      requires child.tk.tl.refs == tk.tl.refs
      requires AllIn(child.tk.tl.items, tk.tl.refs.cnt.Keys)
      modifies this, tk.tl, tk.tl.tokens, tk.tl.refs
      ensures Valid() && (tk.tl.tokens == old(tk.tl.tokens) || fresh(tk.tl.tokens))
      ensures child.tk.tl.Valid() && child.tk.tl.items == old(child.tk.tl.items)
      ensures tk.tl.refs.cnt.Keys == old(tk.tl.refs.cnt).Keys && tk.tl.Elsewhere() == old(tk.tl.Elsewhere())
      ensures tk.tl.items == old(tk.tl.items) + Adopted(child.tk.tl.items, old(tk.tl.pos))
      ensures tk.tl.pos == old(tk.tl.pos) + |child.tk.tl.items|
    {
      hide TokenList.Elsewhere, AllIn, LaidOut, Capacity, Adopted, AsciiTables.Valid;
      Adopt(tk.tl, child.tk.tl);
      nwords := nwords + child.nwords;
    }
  }

  // ---------------------------------------------------------------- whole documents

  /** Parse a document and, at each XInclude, the document it includes (process_xinclude). */
  method Run(doc: Document, parts: seq<Part>)
    requires doc.Valid() && doc.tk.tl.items == [] && doc.tk.tl.pos == 0 && Known(parts, doc.tk.tl.refs.cnt.Keys)
    modifies doc, doc.tk.token, doc.tk.tl, doc.tk.tl.tokens, doc.tk.tl.refs
    ensures doc.Valid() && (doc.tk.tl.tokens == old(doc.tk.tl.tokens) || fresh(doc.tk.tl.tokens))
    ensures doc.tk.tl.refs.cnt.Keys == old(doc.tk.tl.refs.cnt).Keys
    ensures doc.tk.tl.Elsewhere() == old(doc.tk.tl.Elsewhere())
    ensures WordList(doc.tk.tl.items, doc.tk.tl.pos) == WordsOf(doc.tk.lens, parts)
    ensures AllIn(doc.tk.tl.items, doc.tk.tl.refs.cnt.Keys)
    decreases parts, 1
  {
    assert doc.tk.lens.max >= 2;
    hide Document.Valid, TokenList.Elsewhere, WordsOf, Ascii, NoNul, Place, Scan, Adopted, AllIn;
    var tl := doc.tk.tl;
    ghost var keys := tl.refs.cnt.Keys;
    assert parts[..0] == [];
    NoWords(doc.tk.lens, keys);
    for i := 0 to |parts|
      invariant doc.Valid() && (tl.tokens == old(tl.tokens) || fresh(tl.tokens))
      invariant tl.refs.cnt.Keys == keys && tl.Elsewhere() == old(tl.Elsewhere())
      invariant WordList(tl.items, tl.pos) == WordsOf(doc.tk.lens, parts[..i])
      invariant AllIn(tl.items, keys)
    {
      RunPart(doc, parts, i);
    }
    assert parts[..|parts|] == parts;
  }

  /** One text or one included document more. */
  method RunPart(doc: Document, parts: seq<Part>, i: nat)
    requires doc.Valid() && i < |parts| && Known(parts, doc.tk.tl.refs.cnt.Keys)
    requires WordList(doc.tk.tl.items, doc.tk.tl.pos) == WordsOf(doc.tk.lens, parts[..i])
    requires AllIn(doc.tk.tl.items, doc.tk.tl.refs.cnt.Keys)
    modifies doc, doc.tk.token, doc.tk.tl, doc.tk.tl.tokens, doc.tk.tl.refs
    ensures doc.Valid() && (doc.tk.tl.tokens == old(doc.tk.tl.tokens) || fresh(doc.tk.tl.tokens))
    ensures doc.tk.tl.refs.cnt.Keys == old(doc.tk.tl.refs.cnt).Keys
    ensures doc.tk.tl.Elsewhere() == old(doc.tk.tl.Elsewhere())
    ensures WordList(doc.tk.tl.items, doc.tk.tl.pos) == WordsOf(doc.tk.lens, parts[..i + 1])
    ensures AllIn(doc.tk.tl.items, doc.tk.tl.refs.cnt.Keys)
    decreases parts, 0
  {
    assert doc.tk.lens.max >= 2;
    hide Document.Valid, TokenList.Elsewhere, WordsOf, Ascii, NoNul, Place, Scan, Adopted, AllIn;
    WordsSnoc(doc.tk.lens, parts, i, doc.tk.tl.refs.cnt.Keys);
    match parts[i]
    case Flush(text, meta, context) => doc.Tokenize(text, meta, context);
    case Include(inner) => RunIncluded(doc, inner);
  }

  /** The included document has a list of its own; when it is freed all references it took are
      back, and the parent holds one for each token it took over. */
  method RunIncluded(doc: Document, inner: seq<Part>)
    requires doc.Valid() && Known(inner, doc.tk.tl.refs.cnt.Keys)
    modifies doc, doc.tk.tl, doc.tk.tl.tokens, doc.tk.tl.refs
    ensures doc.Valid() && (doc.tk.tl.tokens == old(doc.tk.tl.tokens) || fresh(doc.tk.tl.tokens))
    ensures doc.tk.tl.refs.cnt.Keys == old(doc.tk.tl.refs.cnt).Keys
    ensures doc.tk.tl.Elsewhere() == old(doc.tk.tl.Elsewhere())
    ensures var c := WordsOf(doc.tk.lens, inner);
            && doc.tk.tl.items == old(doc.tk.tl.items) + Adopted(c.items, old(doc.tk.tl.pos))
            && doc.tk.tl.pos == old(doc.tk.tl.pos) + |c.items|
    decreases inner, 2
  {
    hide Rest, WordsOf, Adopted, LaidOut, Capacity, AsciiTables.Valid, HeldElsewhere;
    var tl := doc.tk.tl;
    ghost var r0, mine := tl.refs.cnt, tl.tokens[..tl.n];
    var child := NewChild(doc);
    Run(child, inner);
    assert doc.Valid();
    ghost var r1, theirs := tl.refs.cnt, child.tk.tl.tokens[..child.tk.tl.n];
    doc.Merge(child);
    ghost var r2, all := tl.refs.cnt, tl.tokens[..tl.n];
    child.tk.tl.Free();
    Balance(r0, r1, r2, tl.refs.cnt, mine, theirs, all);
  }

  /** The loop of xinclude_handler. */
  method Adopt(tl: TokenList, from: TokenList)
    requires tl.Valid() && from.Valid() && from != tl && from.tokens != tl.tokens
    requires AllIn(from.items, tl.refs.cnt.Keys)
    modifies tl, tl.tokens, tl.refs
    ensures tl.Valid() && (tl.tokens == old(tl.tokens) || fresh(tl.tokens))
    ensures from.Valid()
    ensures tl.refs.cnt.Keys == old(tl.refs.cnt).Keys && tl.Elsewhere() == old(tl.Elsewhere())
    ensures tl.items == old(tl.items) + Adopted(from.items, old(tl.pos))
    ensures tl.pos == old(tl.pos) + |from.items|
  {
    hide LaidOut, Capacity, Adopted, TokenList.Elsewhere, AllIn, NoNul;
    ghost var base, pos0, theirs, keys := tl.items, tl.pos, from.items, tl.refs.cnt.Keys;
    ListLength(from);
    hide TokenList.Valid;
    var it := new TokenIterator(from);
    var token, value := NextOf(it, from, 0);
    ghost var k := 0;
    NoneAdopted(theirs, pos0);
    while token != []
      invariant k <= |theirs| && it.tl == from && fresh(it)
      invariant tl.Valid() && from.Valid() && from.n == |theirs|
      invariant tl.tokens == old(tl.tokens) || fresh(tl.tokens)
      invariant tl.refs.cnt.Keys == keys && tl.Elsewhere() == old(tl.Elsewhere())
      invariant tl.items == base + Adopted(theirs[..k], pos0) && tl.pos == pos0 + k
      invariant token == [] ==> k == |theirs|
      invariant token != [] ==> k < |theirs| && it.pos == k + 1 && Carries(token[0], value, theirs[k])
      decreases |theirs| - k
    {
      CanAdd(from, k, keys);
      AddOne(tl, from, value, token[0].meta, token[0].context);
      AdoptedSnoc(base, theirs, k, pos0);
      k := k + 1;
      token, value := NextOf(it, from, k);
    }
    assert theirs[..k] == theirs;
  }

  /** One more token, which leaves the list it was read from alone. */
  method AddOne(tl: TokenList, from: TokenList, value: string, meta: string, context: string)
    requires tl.Valid() && from.Valid() && from != tl && from.tokens != tl.tokens
    requires value != "" && NoNul(value) && meta in tl.refs.cnt
    modifies tl, tl.tokens, tl.refs
    ensures tl.Valid() && (tl.tokens == old(tl.tokens) || fresh(tl.tokens)) && from.Valid()
    ensures tl.refs.cnt.Keys == old(tl.refs.cnt).Keys && tl.Elsewhere() == old(tl.Elsewhere())
    ensures tl.items == old(tl.items) + [Item(value, old(tl.pos) + 1, meta, context)] && tl.pos == old(tl.pos) + 1
  {
    hide LaidOut, Capacity, TokenList.Elsewhere, NoNul;
    assert (value + [NUL])[..|value|] == value;
    var count := tl.AddToken(value + [NUL], meta, context);
  }

  /** A token record and its value stand for an item. */
  predicate Carries(t: Token, value: string, i: Item) {
    t.meta == i.meta && t.context == i.context && value == i.value
  }

  method NextOf(it: TokenIterator, from: TokenList, ghost k: nat) returns (token: seq<Token>, value: string)
    requires it.tl == from && from.Valid() && it.pos == k <= from.n
    modifies it
    ensures |token| <= 1 && (token == [] <==> k == from.n)
    ensures k < from.n ==> it.pos == k + 1 && Carries(token[0], value, from.items[k])
  {
    hide Packed, Capacity, GoodItem;
    token, value := it.NextToken();
    if k < from.n {
      assert from.tokens[..from.n][k] == token[0];
      assert Record(from.tokens[..from.n][k], from.items, k);
    }
  }

  ghost predicate AllIn(items: seq<Item>, metas: set<string>) {
    forall i :: i in items ==> i.meta in metas
  }

  lemma CanAdd(from: TokenList, k: nat, metas: set<string>)
    requires from.Valid() && k < |from.items| && AllIn(from.items, metas)
    ensures from.items[k].value != "" && NoNul(from.items[k].value) && from.items[k].meta in metas
  {
    hide Packed, Capacity, NoNul, Record;
    assert GoodItem(from.items[k]);
  }

  method NewChild(doc: Document) returns (child: Document)
    requires doc.Valid()
    ensures fresh(child) && fresh(child.tk) && fresh(child.tk.tl) && fresh(child.tk.tl.tokens) && fresh(child.tk.token)
    ensures child.Valid() && child.tk.tl.items == [] && child.tk.tl.pos == child.tk.tl.n == 0
    ensures child.tk.tl.refs == doc.tk.tl.refs && child.tk.lens == doc.tk.lens
  {
    var tl := new TokenList(doc.tk.tl.refs);
    var tk := new AsciiTokenizer(tl, doc.tk.tables, doc.tk.lens);
    child := new Document(tk);
  }

  lemma NoText(lens: Lengths, items: seq<Item>, pos: nat, meta: string, context: string)
    requires lens.max >= 2
    ensures Scan(lens, "", false) == [] && items + Place([], pos, meta, context) == items
  {
  }

  lemma NoWords(lens: Lengths, keys: set<string>)
    requires lens.max >= 2
    ensures WordsOf(lens, []) == WordList([], 0) && AllIn([], keys)
  {
  }

  /** What one more part adds, and that its tokens stay within the configuration's metanames. */
  lemma WordsSnoc(lens: Lengths, parts: seq<Part>, i: nat, keys: set<string>)
    requires lens.max >= 2 && i < |parts| && Known(parts, keys)
    ensures var w, n := WordsOf(lens, parts[..i]), WordsOf(lens, parts[..i + 1]);
            AllIn(w.items, keys) ==> AllIn(n.items, keys)
    ensures parts[i].Flush? ==>
              var w, p := WordsOf(lens, parts[..i]), parts[i];
              var marks := Scan(lens, p.text, false);
              && Ascii(p.text) && NoNul(p.text) && p.meta in keys
              && WordsOf(lens, parts[..i + 1])
                 == WordList(w.items + Place(marks, w.pos, p.meta, p.context), w.pos + |marks|)
    ensures parts[i].Include? ==>
              var w, c := WordsOf(lens, parts[..i]), WordsOf(lens, parts[i].parts);
              && Known(parts[i].parts, keys)
              && WordsOf(lens, parts[..i + 1]) == WordList(w.items + Adopted(c.items, w.pos), w.pos + |c.items|)
  {
    hide Ascii, NoNul, Scan, Place, Adopted;
    assert parts[..i + 1][..i] == parts[..i];
    match parts[i]
    case Flush(text, meta, context) =>
      PlacedUnder(Scan(lens, text, false), WordsOf(lens, parts[..i]).pos, meta, context);
    case Include(inner) =>
      WordsIn(lens, inner, keys);
      AdoptedIn(WordsOf(lens, inner).items, WordsOf(lens, parts[..i]).pos, keys);
  }

  lemma {:induction false} WordsIn(lens: Lengths, parts: seq<Part>, keys: set<string>)
    requires lens.max >= 2 && Known(parts, keys)
    ensures AllIn(WordsOf(lens, parts).items, keys)
    decreases parts, 0
  {
    hide Scan, Place, Adopted;
    if parts != [] {
      var k := |parts| - 1;
      WordsIn(lens, parts[..k], keys);
      match parts[k]
      case Flush(text, meta, context) =>
        PlacedUnder(Scan(lens, text, false), WordsOf(lens, parts[..k]).pos, meta, context);
      case Include(inner) =>
        WordsIn(lens, inner, keys);
        AdoptedIn(WordsOf(lens, inner).items, WordsOf(lens, parts[..k]).pos, keys);
    }
  }

  lemma AdoptedIn(items: seq<Item>, pos: nat, keys: set<string>)
    requires AllIn(items, keys)
    ensures AllIn(Adopted(items, pos), keys)
  {
    forall i | 0 <= i < |items| ensures Adopted(items, pos)[i].meta in keys {
      assert items[i] in items;
    }
  }

  lemma {:induction false} PlacedUnder(marks: seq<Mark>, pos: nat, meta: string, context: string)
    ensures forall i :: i in Place(marks, pos, meta, context) ==> i.meta == meta
  {
    if marks != [] {
      PlacedUnder(marks[..|marks| - 1], pos, meta, context);
    }
  }

  /** The references of the parent's other users come out even once the child is freed. */
  lemma Balance(r0: map<string, int>, r1: map<string, int>, r2: map<string, int>, r3: map<string, int>,
                mine: seq<Token>, theirs: seq<Token>, all: seq<Token>)
    requires r0.Keys == r1.Keys == r2.Keys == r3.Keys
    requires Rest(r1, theirs) == Rest(r0, [])
    requires Rest(r2, all) == Rest(r1, mine)
    requires forall m :: m in r3 ==> r3[m] == Rest(r2, theirs)[m]
    ensures Rest(r3, all) == Rest(r0, mine)
  {
    RestNone(r0);
    hide Owned;
    forall m: string ensures Rest(r3, all)[m] == Rest(r0, mine)[m] {
      assert Rest(r1, theirs)[m] == Rest(r0, [])[m];
      assert Rest(r2, all)[m] == Rest(r1, mine)[m];
    }
  }

  lemma NoneAdopted(items: seq<Item>, pos: nat)
    ensures Adopted(items[..0], pos) == []
  {
  }

  lemma AdoptedSnoc(base: seq<Item>, items: seq<Item>, k: nat, pos: nat)
    requires k < |items|
    ensures base + Adopted(items[..k + 1], pos)
         == base + Adopted(items[..k], pos) + [Item(items[k].value, pos + k + 1, items[k].meta, items[k].context)]
  {
    assert Adopted(items[..k + 1], pos)
        == Adopted(items[..k], pos) + [Item(items[k].value, pos + k + 1, items[k].meta, items[k].context)];
  }

  // ---------------------------------------------------------------- what the lists come to

  function Values(items: seq<Item>): (r: seq<string>)
    ensures |r| == |items|
  {
    seq(|items|, i requires 0 <= i < |items| => items[i].value)
  }

  /** The words of a document and all it includes, in the order a reader meets them. */
  function Spoken(lens: Lengths, parts: seq<Part>): seq<string>
    requires lens.max >= 2
  {
    if parts == [] then []
    else
      Spoken(lens, parts[..|parts| - 1])
      + match parts[|parts| - 1]
        case Flush(text, _, _) => Values(Place(Scan(lens, text, false), 0, "", ""))
        case Include(inner) => Spoken(lens, inner)
  }

  lemma ValuesSnoc(items: seq<Item>, i: Item)
    ensures Values(items + [i]) == Values(items) + [i.value]
  {
  }

  lemma {:induction false} ValuesAnywhere(marks: seq<Mark>, pos: nat, meta: string, context: string)
    ensures Values(Place(marks, pos, meta, context)) == Values(Place(marks, 0, "", ""))
  {
    if marks != [] {
      var k := |marks| - 1;
      ValuesAnywhere(marks[..k], pos, meta, context);
      hide Place;
      var p, q := Place(marks[..k], pos, meta, context), Place(marks[..k], 0, "", "");
      assert p + [] == p && q + [] == q;
      assert marks == marks[..k] + [marks[k]];
      PlaceSnoc(marks[..k], marks[k], pos, meta, context);
      PlaceSnoc(marks[..k], marks[k], 0, "", "");
      if marks[k].Word? {
        ValuesSnoc(Place(marks[..k], pos, meta, context), Item(marks[k].value, pos + |marks|, meta, context));
        ValuesSnoc(Place(marks[..k], 0, "", ""), Item(marks[k].value, |marks|, "", ""));
      }
    }
  }

  /** Including loses no word, adds none and keeps their order, to any depth. */
  lemma {:induction false} NoWordLost(lens: Lengths, parts: seq<Part>)
    requires lens.max >= 2
    ensures Values(WordsOf(lens, parts).items) == Spoken(lens, parts)
    decreases parts
  {
    hide Scan, Place;
    if parts != [] {
      var k := |parts| - 1;
      NoWordLost(lens, parts[..k]);
      match parts[k]
      case Flush(text, meta, context) =>
        ValuesAnywhere(Scan(lens, text, false), WordsOf(lens, parts[..k]).pos, meta, context);
      case Include(inner) =>
        NoWordLost(lens, inner);
        var theirs := WordsOf(lens, inner).items;
        assert Values(Adopted(theirs, WordsOf(lens, parts[..k]).pos)) == Values(theirs);
    }
  }

  /** The tokens without their positions. */
  function Labelled(items: seq<Item>): (r: seq<Item>)
    ensures |r| == |items|
  {
    seq(|items|, i requires 0 <= i < |items| => items[i].(pos := 0))
  }

  /** Words, each under this metaname and context. */
  function Under(words: seq<string>, meta: string, context: string): (r: seq<Item>)
    ensures |r| == |words|
  {
    seq(|words|, i requires 0 <= i < |words| => Item(words[i], 0, meta, context))
  }

  /** The words of a document and all it includes, each under what its own flush went under. */
  function SpokenUnder(lens: Lengths, parts: seq<Part>): seq<Item>
    requires lens.max >= 2
  {
    if parts == [] then []
    else
      SpokenUnder(lens, parts[..|parts| - 1])
      + match parts[|parts| - 1]
        case Flush(text, meta, context) => Under(Spoken(lens, [Part.Flush(text, meta, context)]), meta, context)
        case Include(inner) => SpokenUnder(lens, inner)
  }

  lemma {:induction false} PlaceLabels(marks: seq<Mark>, pos: nat, meta: string, context: string)
    ensures forall i :: 0 <= i < |Place(marks, pos, meta, context)| ==>
              var item := Place(marks, pos, meta, context)[i]; item.meta == meta && item.context == context
  {
    if marks != [] {
      PlaceLabels(marks[..|marks| - 1], pos, meta, context);
    }
  }

  lemma OneSpoken(lens: Lengths, text: string, meta: string, context: string)
    requires lens.max >= 2
    ensures Spoken(lens, [Part.Flush(text, meta, context)]) == Values(Place(Scan(lens, text, false), 0, "", ""))
  {
    hide Scan, Place, Values;
    var p := Part.Flush(text, meta, context);
    assert [p][..0] == [];
    assert Spoken(lens, []) == [];
  }

  lemma FlushLabels(lens: Lengths, text: string, meta: string, context: string, pos: nat)
    requires lens.max >= 2
    ensures Labelled(Place(Scan(lens, text, false), pos, meta, context))
         == Under(Spoken(lens, [Part.Flush(text, meta, context)]), meta, context)
  {
    hide Scan, Place, Spoken;
    var marks := Scan(lens, text, false);
    OneSpoken(lens, text, meta, context);
    ValuesAnywhere(marks, pos, meta, context);
    PlaceLabels(marks, pos, meta, context);
    var items := Place(marks, pos, meta, context);
    assert |Values(items)| == |items|;
    assert forall i :: 0 <= i < |items| ==> Values(items)[i] == items[i].value;
  }

  lemma LabelledConcat(a: seq<Item>, b: seq<Item>)
    ensures Labelled(a + b) == Labelled(a) + Labelled(b)
  {
  }

  /** Nor does including change the metaname or the context of any token, to any depth. */
  lemma {:induction false} NoLabelLost(lens: Lengths, parts: seq<Part>)
    requires lens.max >= 2
    ensures Labelled(WordsOf(lens, parts).items) == SpokenUnder(lens, parts)
    decreases parts
  {
    hide Scan, Place, Spoken, Under;
    if parts != [] {
      var k := |parts| - 1;
      NoLabelLost(lens, parts[..k]);
      var w := WordsOf(lens, parts[..k]);
      match parts[k]
      case Flush(text, meta, context) =>
        FlushLabels(lens, text, meta, context, w.pos);
        LabelledConcat(w.items, Place(Scan(lens, text, false), w.pos, meta, context));
      case Include(inner) =>
        NoLabelLost(lens, inner);
        var theirs := WordsOf(lens, inner).items;
        assert Labelled(Adopted(theirs, w.pos)) == Labelled(theirs);
        LabelledConcat(w.items, Adopted(theirs, w.pos));
    }
  }

  /** Positions rise strictly through the whole of a document, included ones and all. */
  lemma {:induction false} WordsRise(lens: Lengths, parts: seq<Part>)
    requires lens.max >= 2
    ensures Rising(WordsOf(lens, parts).items, 0, WordsOf(lens, parts).pos)
    decreases parts
  {
    hide Scan, Place;
    if parts != [] {
      var k := |parts| - 1;
      WordsRise(lens, parts[..k]);
      var w := WordsOf(lens, parts[..k]);
      if parts[k].Flush? {
        PositionsRise(Scan(lens, parts[k].text, false), w.pos, parts[k].meta, parts[k].context);
      }
    }
  }

  /** What one flushed text comes to in a document of its own. */
  lemma OneText(lens: Lengths, text: string, meta: string, context: string)
    requires lens.max >= 2
    ensures WordsOf(lens, [Flush(text, meta, context)]).items == Place(Scan(lens, text, false), 0, meta, context)
  {
    hide Scan, Place;
    assert [Flush(text, meta, context)][..0] == [];
  }

  lemma AdoptedPositions(items: seq<Item>, pos: nat, j: nat, k: nat)
    requires j < |items| && k < |items|
    ensures Adopted(items, pos)[k].pos - Adopted(items, pos)[j].pos == k - j
  {
  }

  /** A \3 between two words of a document keeps them from being neighbours.  Once another document
      includes it, only the tokens are taken over, and the two are kept apart exactly when a third
      token stands between them. */
  lemma BumpersDoNotTravel(lens: Lengths, a: string, b: string, meta: string, context: string, pos: nat, j: nat, k: nat)
    requires lens.max >= 2
    requires j < |Place(Scan(lens, a, true), 0, meta, context)| <= k
    requires k < |WordsOf(lens, [Flush(a + [BUMPER] + b, meta, context)]).items|
    ensures var own := WordsOf(lens, [Flush(a + [BUMPER] + b, meta, context)]).items;
            && own[k].pos > own[j].pos + 1
            && (Adopted(own, pos)[k].pos > Adopted(own, pos)[j].pos + 1 <==> k > j + 1)
  {
    hide Scan, Place, Adopted, WordsOf;
    OneText(lens, a + [BUMPER] + b, meta, context);
    var own := WordsOf(lens, [Flush(a + [BUMPER] + b, meta, context)]).items;
    AdoptedPositions(own, pos, j, k);
    ApartAt(lens, a, b, meta, context, j, k);
  }

  lemma ApartAt(lens: Lengths, a: string, b: string, meta: string, context: string, j: nat, k: nat)
    requires lens.max >= 2 && j < |Place(Scan(lens, a, true), 0, meta, context)| <= k
    requires k < |Place(Scan(lens, a + [BUMPER] + b, false), 0, meta, context)|
    ensures var own := Place(Scan(lens, a + [BUMPER] + b, false), 0, meta, context); own[k].pos > own[j].pos + 1
  {
    hide Scan, Place;
    BumperSeparates(lens, a, b, 0, meta, context);
  }

  lemma WordBeforeMore(lens: Lengths, v: string)
    requires lens.max >= 2 && Proper(lens, v)
    ensures Scan(lens, v, true) == [Word(v)]
  {
    hide Chunks, ChunkOf, IsWordChar, IsAlnum;
    RunOfWord(v);
    ProperStrip(lens, v);
    NothingMore(lens);
    assert v[..|v|] == v && v[|v|..] == "";
  }

  lemma NothingMore(lens: Lengths)
    requires lens.max >= 2
    ensures Scan(lens, "", true) == []
  {
  }

  lemma SingleLetters(lens: Lengths)
    requires lens.max >= 2 && lens.min == 1
    ensures Proper(lens, "a") && Lone("b")
  {
  }

  lemma TwoWords(lens: Lengths)
    requires lens.max >= 2 && lens.min == 1
    ensures Scan(lens, "a" + [BUMPER] + "b", false) == [Word("a"), Bump, Word("b")]
  {
    hide Scan, Proper, Lone;
    SingleLetters(lens);
    ScanAtBumper(lens, "a", "b", false);
    WordBeforeMore(lens, "a");
    ScanWord(lens, "b");
  }

  lemma PlaceTwoWords(meta: string, context: string)
    ensures Place([Word("a"), Bump, Word("b")], 0, meta, context)
         == [Item("a", 1, meta, context), Item("b", 3, meta, context)]
  {
    PlaceNone(0, meta, context);
    assert [] + [Word("a")] == [Word("a")] && [Word("a")] + [Bump] == [Word("a"), Bump];
    assert [Word("a"), Bump] + [Word("b")] == [Word("a"), Bump, Word("b")];
    hide Place;
    PlaceSnoc([], Word("a"), 0, meta, context);
    PlaceSnoc([Word("a")], Bump, 0, meta, context);
    PlaceSnoc([Word("a"), Bump], Word("b"), 0, meta, context);
  }

  /** Such a document: a at 1 and b at 3 by itself, at 1 and 2 when included. */
  lemma IncludedNeighbours(lens: Lengths, meta: string, context: string)
    requires lens.max >= 2 && lens.min == 1
    ensures var child := [Flush("a" + [BUMPER] + "b", meta, context)];
            && WordsOf(lens, child).items == [Item("a", 1, meta, context), Item("b", 3, meta, context)]
            && WordsOf(lens, [Include(child)]).items == [Item("a", 1, meta, context), Item("b", 2, meta, context)]
  {
    hide *;
    TwoWords(lens);
    PlaceTwoWords(meta, context);
    OneText(lens, "a" + [BUMPER] + "b", meta, context);
    OneInclude(lens, [Flush("a" + [BUMPER] + "b", meta, context)]);
    AdoptTwo(Item("a", 1, meta, context), Item("b", 3, meta, context));
  }

  lemma AdoptTwo(x: Item, y: Item)
    ensures Adopted([x, y], 0) == [x.(pos := 1), y.(pos := 2)]
  {
  }

  lemma OneInclude(lens: Lengths, inner: seq<Part>)
    requires lens.max >= 2
    ensures WordsOf(lens, [Include(inner)]).items == Adopted(WordsOf(lens, inner).items, 0)
  {
    hide Scan, Place, Adopted;
    assert [Include(inner)][..0] == [];
  }
}
