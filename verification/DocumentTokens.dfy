/** Word positions across a whole document, over all its flushes and includes: which run of which
    text each token comes from, and what stands between two of them. */
module DocumentTokens {
  import opened CString
  import opened NamedBuffers
  import opened Seqs
  import opened TokenLists
  import opened Tokenizer
  import opened TokenTheorems
  import opened IncludedWords

  // ---------------------------------------------------------------- positions in a document

  /** The document's own flushed texts laid end to end; an included document has its own. */
  function OwnText(parts: seq<Part>): string {
    if parts == [] then ""
    else OwnText(parts[..|parts| - 1]) + TextOf(parts[|parts| - 1])
  }

  /** A document ends at the position of its last token plus the \3 bytes in its texts. */
  lemma {:induction false} EndPosition(lens: Lengths, parts: seq<Part>)
    requires lens.max >= 2
    ensures var w := WordsOf(lens, parts); w.pos == |w.items| + Bumpers(OwnText(parts))
  {
    hide Scan, Place, Bumpers;
    if parts == [] {
      NoBumpersYet("");
      assert ""[..0] == "";
    } else {
      var k := |parts| - 1;
      EndPosition(lens, parts[..k]);
      match parts[k]
      case Flush(text, meta, context) =>
        PositionAfter(lens, text, WordsOf(lens, parts[..k]).pos, meta, context);
        BumpersConcat(OwnText(parts[..k]), text);
      case Include(_) =>
        assert OwnText(parts[..k]) + "" == OwnText(parts[..k]);
    }
  }

  function TextOf(p: Part): string {
    match p
    case Flush(text, _, _) => text
    case Include(_) => ""
  }

  // ---------------------------------------------------------------- where a token comes from

  /** The part of the document that brings the k-th token. */
  function PartAt(lens: Lengths, parts: seq<Part>, k: nat): (p: nat)
    requires lens.max >= 2 && k < |WordsOf(lens, parts).items|
    ensures p < |parts| && |WordsOf(lens, parts[..p]).items| <= k
  {
    var front := parts[..|parts| - 1];
    if k < |WordsOf(lens, front).items| then
      var p := PartAt(lens, front, k);
      assert front[..p] == parts[..p];
      p
    else |front|
  }

  /** Where in that part's text the run begins that it comes from. */
  function RunAt(lens: Lengths, parts: seq<Part>, k: nat): (i: nat)
    requires lens.max >= 2 && k < |WordsOf(lens, parts).items|
    ensures i <= |TextOf(parts[PartAt(lens, parts, k)])|
  {
    var p := PartAt(lens, parts, k);
    match parts[p]
    case Flush(text, _, _) => RunStart(lens, text, false, k - |WordsOf(lens, parts[..p]).items|)
    case Include(_) => 0
  }

  /** The k-th token of a document, counted from 0, is a chunk of that run, or one that an included
      document brought, and its position is k + 1 plus the \3 bytes of the document's own texts
      before it. */
  lemma {:induction false} TokenStands(lens: Lengths, parts: seq<Part>, k: nat)
    requires lens.max >= 2 && k < |WordsOf(lens, parts).items|
    ensures var p, i, item := PartAt(lens, parts, k), RunAt(lens, parts, k), WordsOf(lens, parts).items[k];
            && (parts[p].Flush? ==>
                  BeginsRun(parts[p].text, i) && ChunkOfRun(lens, item, parts[p].text, i, false))
            && item.pos == k + 1 + Bumpers(OwnText(parts[..p])) + Bumpers(TextOf(parts[p])[..i])
  {
    PlaceFound(lens, parts, k);
    hide Bumpers, WordsOf, OwnText, TextOf, BeginsRun, ChunkOfRun, PartAt, RunAt, RunStart;
    var front, last := parts[..|parts| - 1], parts[|parts| - 1];
    LastWords(lens, front, last);
    if k < |WordsOf(lens, front).items| {
      TokenStands(lens, front, k);
    } else {
      LastStands(lens, front, last, k);
    }
  }

  lemma SomePart(lens: Lengths, parts: seq<Part>, k: nat)
    requires lens.max >= 2 && k < |WordsOf(lens, parts).items|
    ensures parts != []
  {
  }

  lemma PartFound(lens: Lengths, parts: seq<Part>, k: nat)
    requires lens.max >= 2 && k < |WordsOf(lens, parts).items|
    ensures parts != [] && parts == parts[..|parts| - 1] + [parts[|parts| - 1]]
    ensures var front, p := parts[..|parts| - 1], PartAt(lens, parts, k);
            && (k < |WordsOf(lens, front).items| ==>
                  p == PartAt(lens, front, k) && parts[p] == front[p] && parts[..p] == front[..p])
            && (k >= |WordsOf(lens, front).items| ==> p == |front| && parts[..p] == front)
  {
    hide WordsOf;
    SomePart(lens, parts, k);
    var front := parts[..|parts| - 1];
    if k < |WordsOf(lens, front).items| {
      var p := PartAt(lens, front, k);
      assert front[..p] == parts[..p];
    }
  }

  lemma PlaceFound(lens: Lengths, parts: seq<Part>, k: nat)
    requires lens.max >= 2 && k < |WordsOf(lens, parts).items|
    ensures parts != [] && parts == parts[..|parts| - 1] + [parts[|parts| - 1]]
    ensures var front, p := parts[..|parts| - 1], PartAt(lens, parts, k);
            if k < |WordsOf(lens, front).items| then
              && p == PartAt(lens, front, k) && RunAt(lens, parts, k) == RunAt(lens, front, k)
              && parts[p] == front[p] && parts[..p] == front[..p]
            else
              && p == |front| && parts[..p] == front
              && RunAt(lens, parts, k)
                 == (if parts[p].Flush? then RunStart(lens, parts[p].text, false, k - |WordsOf(lens, front).items|)
                     else 0)
  {
    PartFound(lens, parts, k);
    hide WordsOf, RunStart, PartAt;
  }

  lemma LastWords(lens: Lengths, front: seq<Part>, last: Part)
    requires lens.max >= 2
    ensures WordsOf(lens, front).items <= WordsOf(lens, front + [last]).items
    ensures var w, more := WordsOf(lens, front), WordsOf(lens, front + [last]);
            && (last.Flush? ==>
                  more.items == w.items + Place(Scan(lens, last.text, false), w.pos, last.meta, last.context))
            && (last.Include? ==> more.items == w.items + Adopted(WordsOf(lens, last.parts).items, w.pos))
  {
    hide Scan, Place, Adopted;
    assert (front + [last])[..|front|] == front;
  }

  /** A token that the last part adds. */
  lemma LastStands(lens: Lengths, front: seq<Part>, last: Part, k: nat)
    requires lens.max >= 2 && |WordsOf(lens, front).items| <= k < |WordsOf(lens, front + [last]).items|
    ensures var i := if last.Flush? then RunStart(lens, last.text, false, k - |WordsOf(lens, front).items|) else 0;
            var item := WordsOf(lens, front + [last]).items[k];
            && (last.Flush? ==> BeginsRun(last.text, i) && ChunkOfRun(lens, item, last.text, i, false))
            && i <= |TextOf(last)| && item.pos == k + 1 + Bumpers(OwnText(front)) + Bumpers(TextOf(last)[..i])
  {
    hide Scan, Place, Bumpers, OwnText, WordsOf, BeginsRun, ChunkOfRun;
    EndPosition(lens, front);
    LastWords(lens, front, last);
    var w := WordsOf(lens, front);
    if last.Flush? {
      TokenPosition(lens, last.text, false, w.pos, last.meta, last.context, k - |w.items|);
    } else {
      AdoptedAt(WordsOf(lens, last.parts).items, w.pos, k - |w.items|);
      NoBumpersYet("");
    }
  }

  lemma AdoptedAt(items: seq<Item>, pos: nat, k: nat)
    requires k < |items|
    ensures Adopted(items, pos)[k].pos == pos + 1 + k
  {
  }

  /** Tokens come in the order of the parts and of the runs in them. */
  lemma {:induction false} PlacesRise(lens: Lengths, parts: seq<Part>, k: nat, l: nat)
    requires lens.max >= 2 && k <= l < |WordsOf(lens, parts).items|
    ensures var p, q := PartAt(lens, parts, k), PartAt(lens, parts, l);
            p < q || (p == q && RunAt(lens, parts, k) <= RunAt(lens, parts, l))
  {
    hide WordsOf, RunStart;
    PartsRise(lens, parts, k, l);
    var p := PartAt(lens, parts, k);
    if p == PartAt(lens, parts, l) && parts[p].Flush? {
      var n := |WordsOf(lens, parts[..p]).items|;
      RunsRise(lens, parts[p].text, false, k - n, l - n);
    }
  }

  lemma {:induction false} PartsRise(lens: Lengths, parts: seq<Part>, k: nat, l: nat)
    requires lens.max >= 2 && k <= l < |WordsOf(lens, parts).items|
    ensures PartAt(lens, parts, k) <= PartAt(lens, parts, l)
  {
    hide WordsOf;
    SomePart(lens, parts, k);
    var front := parts[..|parts| - 1];
    assert parts == front + [parts[|front|]];
    LastWords(lens, front, parts[|front|]);
    if l < |WordsOf(lens, front).items| {
      PartsRise(lens, front, k, l);
    }
  }

  // ---------------------------------------------------------------- neighbours

  /** The document's own text from byte `i` of part `p` to byte `j` of part `q`. */
  function Stretch(parts: seq<Part>, p: nat, i: nat, q: nat, j: nat): string
    requires p <= q < |parts| && i <= |TextOf(parts[p])| && j <= |TextOf(parts[q])| && (p == q ==> i <= j)
  {
    if p == q then TextOf(parts[p])[i..j]
    else TextOf(parts[p])[i..] + OwnText(parts[p + 1..q]) + TextOf(parts[q])[..j]
  }

  lemma {:induction false} OwnTextConcat(a: seq<Part>, b: seq<Part>)
    ensures OwnText(a + b) == OwnText(a) + OwnText(b)
  {
    hide TextOf;
    if b == [] {
      assert a + b == a;
    } else {
      var k := |b| - 1;
      OwnTextConcat(a, b[..k]);
      assert (a + b)[..|a + b| - 1] == a + b[..k];
      Assoc(OwnText(a), OwnText(b[..k]), TextOf(b[k]));
    }
  }

  lemma OwnTextOne(p: Part)
    ensures OwnText([p]) == TextOf(p)
  {
    hide TextOf;
    assert [p][..0] == [];
    assert OwnText([p]) == OwnText([]) + TextOf(p);
  }

  lemma BumpersFrom(s: string, i: nat, j: nat)
    requires i <= j <= |s|
    ensures Bumpers(s[..j]) == Bumpers(s[..i]) + Bumpers(s[i..j])
  {
    hide Bumpers;
    assert s[..j] == s[..i] + s[i..j];
    BumpersConcat(s[..i], s[i..j]);
  }

  lemma BumpersAcross(parts: seq<Part>, p: nat, q: nat)
    requires p < q < |parts|
    ensures Bumpers(OwnText(parts[..q]))
         == Bumpers(OwnText(parts[..p])) + Bumpers(TextOf(parts[p])) + Bumpers(OwnText(parts[p + 1..q]))
  {
    hide Bumpers, TextOf, OwnText;
    assert parts[..q] == parts[..p] + ([parts[p]] + parts[p + 1..q]);
    OwnTextConcat(parts[..p], [parts[p]] + parts[p + 1..q]);
    OwnTextConcat([parts[p]], parts[p + 1..q]);
    OwnTextOne(parts[p]);
    BumpersConcat(OwnText(parts[..p]), OwnText([parts[p]] + parts[p + 1..q]));
    BumpersConcat(TextOf(parts[p]), OwnText(parts[p + 1..q]));
  }

  lemma StretchBumps(parts: seq<Part>, p: nat, i: nat, q: nat, j: nat)
    requires p <= q < |parts| && i <= |TextOf(parts[p])| && j <= |TextOf(parts[q])| && (p == q ==> i <= j)
    ensures Bumpers(OwnText(parts[..q])) + Bumpers(TextOf(parts[q])[..j])
         == Bumpers(OwnText(parts[..p])) + Bumpers(TextOf(parts[p])[..i]) + Bumpers(Stretch(parts, p, i, q, j))
  {
    hide Bumpers, TextOf, OwnText;
    var s := TextOf(parts[p]);
    if p == q {
      BumpersFrom(s, i, j);
    } else {
      BumpersAcross(parts, p, q);
      BumpersFrom(s, i, |s|);
      assert s[..|s|] == s && s[i..|s|] == s[i..];
      BumpersConcat(s[i..] + OwnText(parts[p + 1..q]), TextOf(parts[q])[..j]);
      BumpersConcat(s[i..], OwnText(parts[p + 1..q]));
    }
  }

  lemma {:induction false} SomeIn(s: string)
    ensures Bumpers(s) == 0 <==> NoBumper(s)
  {
    if s != "" {
      SomeIn(s[1..]);
      assert s == [s[0]] + s[1..];
    }
  }

  /** Two tokens in a row are neighbours exactly when no \3 stands in the document's own text between
      the beginnings of the runs they come from, in one flush or in two. */
  lemma Neighbours(lens: Lengths, parts: seq<Part>, k: nat)
    requires lens.max >= 2 && k + 1 < |WordsOf(lens, parts).items|
    ensures var p, q := PartAt(lens, parts, k), PartAt(lens, parts, k + 1);
            var i, j := RunAt(lens, parts, k), RunAt(lens, parts, k + 1);
            && p <= q && (p == q ==> i <= j)
            && (WordsOf(lens, parts).items[k + 1].pos == WordsOf(lens, parts).items[k].pos + 1
                <==> NoBumper(Stretch(parts, p, i, q, j)))
  {
    hide WordsOf, OwnText, Bumpers, NoBumper, Stretch, TextOf, PartAt, RunAt, BeginsRun, ChunkOfRun;
    var p, q := PartAt(lens, parts, k), PartAt(lens, parts, k + 1);
    var i, j := RunAt(lens, parts, k), RunAt(lens, parts, k + 1);
    PlacesRise(lens, parts, k, k + 1);
    TokenStands(lens, parts, k);
    TokenStands(lens, parts, k + 1);
    StretchBumps(parts, p, i, q, j);
    SomeIn(Stretch(parts, p, i, q, j));
  }
}
