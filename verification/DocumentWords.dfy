/** From the tree of a document to its tokens: which text event each token begins in, and when two
    tokens in a row are neighbours. */
module DocumentWords {
  import opened CString
  import opened NamedBuffers
  import opened Seqs
  import opened TokenLists
  import opened Tokenizer
  import opened TokenTheorems
  import opened IncludedWords
  import opened DocumentTokens
  import opened TagStacks
  import opened Sax
  import opened StackDiscipline
  import opened Attribution
  import opened Harvest
  import opened IncludedBuffers
  import opened DocumentTexts

  // ---------------------------------------------------------------- what reaches the tokenizer

  /** What flush_buffer hands on: the text, under the first of the buffers it adds to. */
  function PartOf(f: Sax.Flush): (p: Part)
    ensures p.Flush? && p.text == f.text
  {
    Part.Flush(f.text, if f.added == [] then "" else f.added[0], f.context)
  }

  /** The parts of a document, with those of the documents it includes where these stand. */
  function PartsOf(cfg: Config, bits: seq<Bit>): seq<Part> {
    if bits == [] then []
    else
      var k := |bits| - 1;
      PartsOf(cfg, bits[..k])
      + match bits[k]
        case Said(_, _, _) => []
        case Flushed(names, whole) => [PartOf(FlushOf(cfg, names, whole, Pend(bits[..k])))]
        case Included(inner) => [Include(PartsOf(cfg, inner))]
  }

  function Flushes(parts: seq<Part>): seq<Part> {
    if parts == [] then []
    else Flushes(parts[..|parts| - 1]) + if parts[|parts| - 1].Flush? then [parts[|parts| - 1]] else []
  }

  function PartsFlushed(flushes: seq<Sax.Flush>): (parts: seq<Part>)
    ensures |parts| == |flushes|
  {
    seq(|flushes|, i requires 0 <= i < |flushes| => PartOf(flushes[i]))
  }

  lemma PartsSnoc(cfg: Config, bits: seq<Bit>)
    requires bits != []
    ensures var k := |bits| - 1; var front := PartsOf(cfg, bits[..k]);
            && (bits[k].Said? ==> PartsOf(cfg, bits) == front)
            && (bits[k].Flushed? ==>
                  PartsOf(cfg, bits) == front + [PartOf(FlushOf(cfg, bits[k].names, bits[k].whole, Pend(bits[..k])))])
            && (bits[k].Included? ==> PartsOf(cfg, bits) == front + [Include(PartsOf(cfg, bits[k].bits))])
  {
    hide FlushOf, Pend, PartOf;
  }

  lemma FlushesSnoc(parts: seq<Part>, p: Part)
    ensures Flushes(parts + [p]) == Flushes(parts) + if p.Flush? then [p] else []
  {
    assert (parts + [p])[..|parts|] == parts;
  }

  /** Its flushed parts are the flushes of the machine. */
  lemma {:induction false} OwnParts(cfg: Config, bits: seq<Bit>)
    ensures Flushes(PartsOf(cfg, bits)) == PartsFlushed(FlushList(cfg, bits))
  {
    hide PartOf, FlushOf, Pend, PartsOf, FlushList, Filed;
    if bits == [] {
      NoParts(cfg);
    } else {
      var k := |bits| - 1;
      OwnParts(cfg, bits[..k]);
      assert bits == bits[..k] + [bits[k]];
      BitsSnoc(cfg, bits[..k], bits[k]);
      PartsSnoc(cfg, bits);
      match bits[k]
      case Said(_, _, _) =>
      case Flushed(names, whole) =>
        var f := FlushOf(cfg, names, whole, Pend(bits[..k]));
        FlushesSnoc(PartsOf(cfg, bits[..k]), PartOf(f));
        assert PartsFlushed(FlushList(cfg, bits[..k]) + [f]) == PartsFlushed(FlushList(cfg, bits[..k])) + [PartOf(f)];
      case Included(inner) =>
        FlushesSnoc(PartsOf(cfg, bits[..k]), Include(PartsOf(cfg, inner)));
        assert Flushes(PartsOf(cfg, bits[..k])) + [] == Flushes(PartsOf(cfg, bits[..k]));
    }
  }

  lemma NoParts(cfg: Config)
    ensures PartsOf(cfg, []) == [] && FlushList(cfg, []) == []
  {
  }

  /** So the part list of a document with includes holds what its parser flushes, in order. */
  lemma DocumentParts(cfg: Config, pages: seq<Page>)
    requires DEFAULT_METANAME in cfg.metanames && Legible(cfg, [], pages)
    ensures Flushes(PartsOf(cfg, BitsOf(cfg, pages))) == PartsFlushed(Parsed(cfg, pages).flushes)
  {
    hide *;
    DocumentWritten(cfg, pages);
    OwnParts(cfg, BitsOf(cfg, pages));
  }

  // ---------------------------------------------------------------- bumps, text by text

  /** How many \3 the document itself writes. */
  function Gaps(bits: seq<Bit>): nat {
    if bits == [] then 0 else Gaps(bits[..|bits| - 1]) + if Gap(bits, |bits| - 1) then 1 else 0
  }

  lemma GapOfPrefix(bits: seq<Bit>, n: nat, c: nat)
    requires c < n <= |bits|
    ensures Gap(bits[..n], c) <==> Gap(bits, c)
  {
    hide Pend;
    assert bits[..n][..c] == bits[..c];
  }

  /** Without a gap in between the count stays. */
  lemma {:induction false} GapsBetween(bits: seq<Bit>, b: nat, c: nat)
    requires b <= c <= |bits|
    ensures Gaps(bits[..b]) <= Gaps(bits[..c])
    ensures Gaps(bits[..b]) == Gaps(bits[..c]) <==> forall x :: b <= x < c ==> !Gap(bits, x)
  {
    hide Gap;
    if b < c {
      GapsBetween(bits, b, c - 1);
      assert bits[..c][..c - 1] == bits[..c - 1];
      GapOfPrefix(bits, c, c - 1);
    }
  }

  lemma BumperAlone()
    ensures Bumpers([BUMPER]) == 1 && Bumpers("") == 0
  {
    assert [BUMPER][1..] == "";
  }

  lemma {:induction false} NoneInText(text: string)
    requires NoBumper(text)
    ensures Bumpers(text) == 0
  {
    SomeIn(text);
  }

  /** What one more text adds to what is pending. */
  lemma PendSnoc(bits: seq<Bit>)
    requires bits != [] && XmlBits(bits) && bits[|bits| - 1].Said?
    ensures var k := |bits| - 1; var before := Pend(bits[..k]); var sep := if Gap(bits, k) then [BUMPER] else "";
            && Pend(bits) == before + sep + bits[k].text && NoBumper(bits[k].text)
            && Bumpers(Pend(bits)) == Bumpers(before) + |sep|
  {
    hide XmlBits, NoBumper, Bumpers, Gap;
    var k := |bits| - 1;
    var before, sep := Pend(bits[..k]), if Gap(bits, k) then [BUMPER] else "";
    XmlSnoc(bits);
    BumperAlone();
    NoneInText(bits[k].text);
    BumpersConcat(before + sep, bits[k].text);
    BumpersConcat(before, sep);
  }

  lemma PendOther(bits: seq<Bit>)
    requires bits != [] && !bits[|bits| - 1].Said?
    ensures Pend(bits) == "" && !Gap(bits, |bits| - 1)
  {
  }

  /** Every \3 of the texts is such a gap. */
  lemma {:induction false} AllGaps(cfg: Config, bits: seq<Bit>)
    requires XmlBits(bits) && Settled(bits)
    ensures Bumpers(OwnText(PartsOf(cfg, bits))) + Bumpers(Pend(bits)) == Gaps(bits)
    decreases |bits|
  {
    hide XmlBits, Settled, Bumpers, PartsOf, OwnText, Pend, Gap, FlushOf;
    BumperAlone();
    if bits == [] {
      NothingWritten(cfg);
    } else {
      var k := |bits| - 1;
      XmlSnoc(bits);
      SettledSnoc(bits);
      AllGaps(cfg, bits[..k]);
      PartsSnoc(cfg, bits);
      if bits[k].Said? {
        PendSnoc(bits);
      } else {
        PendOther(bits);
        MoreOwnText(cfg, bits);
      }
    }
  }

  lemma NothingWritten(cfg: Config)
    ensures OwnText(PartsOf(cfg, [])) == "" && Pend([]) == ""
  {
  }

  lemma MoreOwnText(cfg: Config, bits: seq<Bit>)
    requires bits != [] && !bits[|bits| - 1].Said? && Settled(bits)
    ensures var k := |bits| - 1; var front, text := OwnText(PartsOf(cfg, bits[..k])), Pend(bits[..k]);
            OwnText(PartsOf(cfg, bits)) == front + text && Bumpers(front + text) == Bumpers(front) + Bumpers(text)
  {
    hide Settled, PartsOf, OwnText, Bumpers, Filing;
    var k := |bits| - 1;
    PartsSnoc(cfg, bits);
    SettledSnoc(bits);
    var last := if bits[k].Flushed? then PartOf(FlushOf(cfg, bits[k].names, bits[k].whole, Pend(bits[..k])))
                else Include(PartsOf(cfg, bits[k].bits));
    assert TextOf(last) == Pend(bits[..k]);
    OwnTextConcat(PartsOf(cfg, bits[..k]), [last]);
    OwnTextOne(last);
    BumpersConcat(OwnText(PartsOf(cfg, bits[..k])), Pend(bits[..k]));
  }

  // ---------------------------------------------------------------- where a byte was said

  /** The text event that byte `i` of the pending text is from. */
  function PendBit(bits: seq<Bit>, i: nat): (b: nat)
    requires i < |Pend(bits)|
    ensures b < |bits|
  {
    var k := |bits| - 1;
    if bits[k].Said? && i < |Pend(bits[..k])| then PendBit(bits[..k], i) else k
  }

  /** The text event that byte `i` of part `p` is from. */
  function BitAt(cfg: Config, bits: seq<Bit>, p: nat, i: nat): (b: nat)
    requires p < |PartsOf(cfg, bits)| && i < |TextOf(PartsOf(cfg, bits)[p])|
    ensures b < |bits|
  {
    var k := |bits| - 1;
    if p < |PartsOf(cfg, bits[..k])| then BitAt(cfg, bits[..k], p, i) else PendBit(bits[..k], i)
  }

  lemma {:induction false} PendByte(cfg: Config, bits: seq<Bit>, i: nat)
    requires XmlBits(bits) && Settled(bits) && i < |Pend(bits)| && Pend(bits)[i] != BUMPER
    ensures var b := PendBit(bits, i);
            && bits[b].Said? && |Pend(bits[..b])| <= i < |Pend(bits[..b + 1])|
            && Pend(bits[..b + 1]) <= Pend(bits) && |PartsOf(cfg, bits[..b])| == |PartsOf(cfg, bits)|
            && Bumpers(OwnText(PartsOf(cfg, bits))) + Bumpers(Pend(bits)[..i]) == Gaps(bits[..b + 1])
  {
    hide XmlBits, Settled, Bumpers, PartsOf, OwnText, Pend, Gap, NoBumper;
    var k := |bits| - 1;
    PendSome(bits, i);
    var before := Pend(bits[..k]);
    XmlSnoc(bits);
    SettledSnoc(bits);
    PendSnoc(bits);
    PartsSnoc(cfg, bits);
    if i < |before| {
      PendByte(cfg, bits[..k], i);
      var b := PendBit(bits[..k], i);
      assert bits[..k][..b] == bits[..b] && bits[..k][..b + 1] == bits[..b + 1];
      assert Pend(bits)[..i] == before[..i];
    } else {
      assert bits[..k + 1] == bits;
      AllGaps(cfg, bits[..k]);
      var sep := if Gap(bits, k) then [BUMPER] else "";
      BytesAfter(before, sep, bits[k].text, i);
    }
  }

  lemma PendSome(bits: seq<Bit>, i: nat)
    requires i < |Pend(bits)|
    ensures bits != [] && bits[|bits| - 1].Said?
  {
  }

  /** A byte that is no \3 is behind the separator. */
  lemma BytesAfter(before: string, sep: string, text: string, i: nat)
    requires |before| <= i < |before + sep + text| && (before + sep + text)[i] != BUMPER
    requires sep == "" || sep == [BUMPER]
    requires NoBumper(text)
    ensures Bumpers((before + sep + text)[..i]) == Bumpers(before) + |sep|
  {
    hide Bumpers;
    var n := |before| + |sep|;
    assert i >= n;
    assert (before + sep + text)[..i] == (before + sep) + text[..i - n];
    BumpersConcat(before + sep, text[..i - n]);
    BumpersConcat(before, sep);
    BumperAlone();
    NoneInText(text[..i - n]);
  }

  /** It is a text, the byte is in what that text made of the buffer, and the \3 bytes of the
      document before it are the gaps up to there. */
  lemma {:induction false} PartByte(cfg: Config, bits: seq<Bit>, p: nat, i: nat)
    requires XmlBits(bits) && Settled(bits)
    requires p < |PartsOf(cfg, bits)| && i < |TextOf(PartsOf(cfg, bits)[p])|
    requires TextOf(PartsOf(cfg, bits)[p])[i] != BUMPER
    ensures var b, parts := BitAt(cfg, bits, p, i), PartsOf(cfg, bits);
            && bits[b].Said? && |PartsOf(cfg, bits[..b])| == p && |Pend(bits[..b])| <= i < |Pend(bits[..b + 1])|
            && Bumpers(OwnText(parts[..p])) + Bumpers(TextOf(parts[p])[..i]) == Gaps(bits[..b + 1])
  {
    hide XmlBits, Settled, Bumpers, PartsOf, OwnText, Pend, Gap, Filing;
    PartSome(cfg, bits, p);
    var k := |bits| - 1;
    XmlSnoc(bits);
    SettledSnoc(bits);
    PartsSnoc(cfg, bits);
    var front := bits[..k];
    assert p <= |PartsOf(cfg, front)| && PartsOf(cfg, bits)[..p] == PartsOf(cfg, front)[..p];
    if p < |PartsOf(cfg, front)| {
      PartByte(cfg, front, p, i);
      var b := BitAt(cfg, front, p, i);
      assert front[..b] == bits[..b] && front[..b + 1] == bits[..b + 1];
    } else {
      assert TextOf(PartsOf(cfg, bits)[p]) == Pend(front);
      assert PartsOf(cfg, front)[..p] == PartsOf(cfg, front);
      PendByte(cfg, front, i);
      var b := PendBit(front, i);
      assert front[..b] == bits[..b] && front[..b + 1] == bits[..b + 1];
    }
  }

  lemma PartSome(cfg: Config, bits: seq<Bit>, p: nat)
    requires p < |PartsOf(cfg, bits)|
    ensures bits != []
  {
  }

  // ---------------------------------------------------------------- in document order

  lemma {:induction false} PendBitsRise(bits: seq<Bit>, i: nat, j: nat)
    requires i <= j < |Pend(bits)|
    ensures PendBit(bits, i) <= PendBit(bits, j)
  {
    hide Pend, Gap;
    var k := |bits| - 1;
    PendSome(bits, i);
    if j < |Pend(bits[..k])| {
      PendBitsRise(bits[..k], i, j);
    }
  }

  lemma {:induction false} PendingIsLater(cfg: Config, bits: seq<Bit>, p: nat, i: nat, j: nat)
    requires p < |PartsOf(cfg, bits)| && i < |TextOf(PartsOf(cfg, bits)[p])| && j < |Pend(bits)|
    ensures BitAt(cfg, bits, p, i) <= PendBit(bits, j)
  {
    hide Pend, PartsOf, Gap;
    var k := |bits| - 1;
    PendSome(bits, j);
    PartsSnoc(cfg, bits);
    if j < |Pend(bits[..k])| {
      PendingIsLater(cfg, bits[..k], p, i, j);
    }
  }

  lemma {:induction false} BitsRise(cfg: Config, bits: seq<Bit>, p: nat, i: nat, q: nat, j: nat)
    requires p < q || (p == q && i <= j)
    requires p < |PartsOf(cfg, bits)| && i < |TextOf(PartsOf(cfg, bits)[p])|
    requires q < |PartsOf(cfg, bits)| && j < |TextOf(PartsOf(cfg, bits)[q])|
    ensures BitAt(cfg, bits, p, i) <= BitAt(cfg, bits, q, j)
  {
    hide Pend, PartsOf, Filing;
    PartSome(cfg, bits, p);
    var k := |bits| - 1;
    PartsSnoc(cfg, bits);
    var front := bits[..k];
    if q < |PartsOf(cfg, front)| {
      BitsRise(cfg, front, p, i, q, j);
    } else {
      assert TextOf(PartsOf(cfg, bits)[q]) == Pend(front);
      if p == q {
        PendBitsRise(front, i, j);
      } else {
        PendingIsLater(cfg, front, p, i, j);
      }
    }
  }

  // ---------------------------------------------------------------- neighbours

  /** The k-th token is from the document's own text. */
  predicate IsOwn(cfg: Config, lens: Lengths, bits: seq<Bit>, k: nat)
    requires lens.max >= 2
  {
    var parts := PartsOf(cfg, bits);
    k < |WordsOf(lens, parts).items| && parts[PartAt(lens, parts, k)].Flush?
  }

  /** The text event in which the run begins that the k-th token comes from. */
  function EventOf(cfg: Config, lens: Lengths, bits: seq<Bit>, k: nat): (b: nat)
    requires lens.max >= 2 && IsOwn(cfg, lens, bits, k)
    ensures b < |bits|
  {
    TokenStands(lens, PartsOf(cfg, bits), k);
    BitAt(cfg, bits, PartAt(lens, PartsOf(cfg, bits), k), RunAt(lens, PartsOf(cfg, bits), k))
  }

  lemma WordIsNoBumper(s: string, i: nat)
    requires BeginsRun(s, i)
    ensures i < |s| && s[i] != BUMPER
  {
    BumperIsNoWord();
  }

  /** The k-th token, counted from 0, begins in the text of that event, and its position is k + 1 plus
      the gaps up to there. */
  lemma TokenSaid(cfg: Config, lens: Lengths, bits: seq<Bit>, k: nat)
    requires lens.max >= 2 && XmlBits(bits) && Settled(bits) && IsOwn(cfg, lens, bits, k)
    ensures var parts, b := PartsOf(cfg, bits), EventOf(cfg, lens, bits, k);
            && bits[b].Said? && |PartsOf(cfg, bits[..b])| == PartAt(lens, parts, k)
            && |Pend(bits[..b])| <= RunAt(lens, parts, k) < |Pend(bits[..b + 1])|
            && WordsOf(lens, parts).items[k].pos == k + 1 + Gaps(bits[..b + 1])
  {
    hide XmlBits, Settled, PartsOf, WordsOf, PartAt, RunAt, BeginsRun, ChunkOfRun, OwnText, Bumpers, Pend, Gaps, BitAt;
    var parts := PartsOf(cfg, bits);
    TokenStands(lens, parts, k);
    var p := PartAt(lens, parts, k);
    WordIsNoBumper(parts[p].text, RunAt(lens, parts, k));
    PartByte(cfg, bits, p, RunAt(lens, parts, k));
  }

  /** Two tokens in a row of the document's own are neighbours exactly when every text event after the
      one that begins the first, up to and including the one that begins the second, comes after no
      tag or ordinary comment or finds nothing buffered since the last flush. */
  lemma NeighboursSaid(cfg: Config, lens: Lengths, bits: seq<Bit>, k: nat)
    requires lens.max >= 2 && XmlBits(bits) && Settled(bits)
    requires IsOwn(cfg, lens, bits, k) && IsOwn(cfg, lens, bits, k + 1)
    ensures var items := WordsOf(lens, PartsOf(cfg, bits)).items;
            var b, c := EventOf(cfg, lens, bits, k), EventOf(cfg, lens, bits, k + 1);
            && b <= c && bits[b].Said? && bits[c].Said?
            && (items[k + 1].pos == items[k].pos + 1 <==>
                  forall x :: b < x <= c && bits[x].Said? && bits[x].cut ==> Pend(bits[..x]) == "")
  {
    hide *;
    TokenSaid(cfg, lens, bits, k);
    TokenSaid(cfg, lens, bits, k + 1);
    EventsRise(cfg, lens, bits, k);
    NoGaps(bits, EventOf(cfg, lens, bits, k), EventOf(cfg, lens, bits, k + 1));
  }

  lemma NoGaps(bits: seq<Bit>, b: nat, c: nat)
    requires b <= c < |bits|
    ensures Gaps(bits[..b + 1]) == Gaps(bits[..c + 1])
       <==> forall x :: b < x <= c && bits[x].Said? && bits[x].cut ==> Pend(bits[..x]) == ""
  {
    hide Gaps, Pend;
    GapsBetween(bits, b + 1, c + 1);
    if Gaps(bits[..b + 1]) == Gaps(bits[..c + 1]) {
      forall x | b < x <= c && bits[x].Said? && bits[x].cut ensures Pend(bits[..x]) == "" {
        assert !Gap(bits, x);
      }
    } else {
      var x :| b + 1 <= x < c + 1 && Gap(bits, x);
      assert b < x <= c && bits[x].Said? && bits[x].cut && Pend(bits[..x]) != "";
    }
  }

  lemma EventsRise(cfg: Config, lens: Lengths, bits: seq<Bit>, k: nat)
    requires lens.max >= 2 && IsOwn(cfg, lens, bits, k) && IsOwn(cfg, lens, bits, k + 1)
    ensures EventOf(cfg, lens, bits, k) <= EventOf(cfg, lens, bits, k + 1)
  {
    hide PartsOf, WordsOf, PartAt, RunAt, ChunkOfRun, OwnText, Bumpers, BitAt, BeginsRun;
    var parts := PartsOf(cfg, bits);
    TokenStands(lens, parts, k);
    TokenStands(lens, parts, k + 1);
    PlacesRise(lens, parts, k, k + 1);
    var p, q := PartAt(lens, parts, k), PartAt(lens, parts, k + 1);
    WordIsNoBumper(parts[p].text, RunAt(lens, parts, k));
    WordIsNoBumper(parts[q].text, RunAt(lens, parts, k + 1));
    BitsRise(cfg, bits, p, RunAt(lens, parts, k), q, RunAt(lens, parts, k + 1));
  }

  /** So in every document, whatever it includes. */
  lemma DocumentNeighbours(cfg: Config, lens: Lengths, pages: seq<Page>, k: nat)
    requires lens.max >= 2 && Legible(cfg, [], pages)
    requires IsOwn(cfg, lens, BitsOf(cfg, pages), k) && IsOwn(cfg, lens, BitsOf(cfg, pages), k + 1)
    ensures var bits := BitsOf(cfg, pages);
            var items := WordsOf(lens, PartsOf(cfg, bits)).items;
            var b, c := EventOf(cfg, lens, bits, k), EventOf(cfg, lens, bits, k + 1);
            && b <= c && bits[b].Said? && bits[c].Said?
            && (items[k + 1].pos == items[k].pos + 1 <==>
                  forall x :: b < x <= c && bits[x].Said? && bits[x].cut ==> Pend(bits[..x]) == "")
  {
    hide *;
    BitsXml(cfg, pages);
    NeighboursSaid(cfg, lens, BitsOf(cfg, pages), k);
  }

  // ---------------------------------------------------------------- metanames and contexts

  lemma {:induction false} PlacedWith(marks: seq<Mark>, pos: nat, meta: string, context: string)
    ensures forall i :: i in Place(marks, pos, meta, context) ==> i.meta == meta && i.context == context
  {
    if marks != [] {
      PlacedWith(marks[..|marks| - 1], pos, meta, context);
    }
  }

  /** A token carries the metaname and the context of its part. */
  lemma {:induction false} TokenOfPart(lens: Lengths, parts: seq<Part>, k: nat)
    requires lens.max >= 2 && k < |WordsOf(lens, parts).items| && parts[PartAt(lens, parts, k)].Flush?
    ensures var p, item := parts[PartAt(lens, parts, k)], WordsOf(lens, parts).items[k];
            item.meta == p.meta && item.context == p.context
  {
    PartFound(lens, parts, k);
    hide WordsOf, PartAt, Place, Scan;
    var front, last := parts[..|parts| - 1], parts[|parts| - 1];
    LastWords(lens, front, last);
    if k < |WordsOf(lens, front).items| {
      TokenOfPart(lens, front, k);
    } else {
      var marks, pos := Scan(lens, last.text, false), WordsOf(lens, front).pos;
      PlacedWith(marks, pos, last.meta, last.context);
      assert Place(marks, pos, last.meta, last.context)[k - |WordsOf(lens, front).items|]
             == WordsOf(lens, parts).items[k];
    }
  }

  lemma {:induction false} PendNames(bits: seq<Bit>, names: seq<string>, i: nat)
    requires InTheirNames(bits, names) && i < |Pend(bits)|
    ensures bits[PendBit(bits, i)].Said? && bits[PendBit(bits, i)].inside == names
  {
    hide Pend, Gap;
    var k := |bits| - 1;
    PendSome(bits, i);
    if i < |Pend(bits[..k])| {
      PendNames(bits[..k], names, i);
    }
  }

  lemma FirstFiled(cfg: Config, names: seq<string>, whole: bool, text: string)
    requires names != [] && Innermost(names) in cfg.metanames
    ensures PartOf(FlushOf(cfg, names, whole, text))
         == Part.Flush(text, Stored(cfg, Innermost(names)), Join(names, '/'))
  {
    hide Others;
  }

  /** The part a byte is in goes to the metaname that the byte's text lies directly in, with all those
      it lies in for its context. */
  lemma {:induction false} PartNames(cfg: Config, bits: seq<Bit>, names: seq<string>, p: nat, i: nat)
    requires InTheirNames(bits, names) && Addressed(cfg, bits)
    requires p < |PartsOf(cfg, bits)| && i < |TextOf(PartsOf(cfg, bits)[p])|
    ensures var b := bits[BitAt(cfg, bits, p, i)];
            && b.Said? && b.inside != [] && Innermost(b.inside) in cfg.metanames && PartsOf(cfg, bits)[p].Flush?
            && PartsOf(cfg, bits)[p].meta == Stored(cfg, Innermost(b.inside))
            && PartsOf(cfg, bits)[p].context == Join(b.inside, '/')
  {
    hide PartsOf, Pend, Gap, PartOf, FlushOf, Addressed;
    PartSome(cfg, bits, p);
    var k := |bits| - 1;
    PartsSnoc(cfg, bits);
    var front := bits[..k];
    AddressedFront(cfg, bits);
    if p < |PartsOf(cfg, front)| {
      PartNames(cfg, front, if bits[k].Flushed? then bits[k].names else names, p, i);
    } else {
      PartIsLast(cfg, bits, p, i);
      FirstFiled(cfg, bits[k].names, bits[k].whole, Pend(front));
      PendNames(front, bits[k].names, i);
    }
  }

  lemma AddressedFront(cfg: Config, bits: seq<Bit>)
    requires bits != [] && Addressed(cfg, bits)
    ensures var k := |bits| - 1;
            && Addressed(cfg, bits[..k])
            && (bits[k].Flushed? ==> bits[k].names != [] && Innermost(bits[k].names) in cfg.metanames)
  {
  }

  lemma PartIsLast(cfg: Config, bits: seq<Bit>, p: nat, i: nat)
    requires bits != [] && |PartsOf(cfg, bits[..|bits| - 1])| <= p < |PartsOf(cfg, bits)|
    requires i < |TextOf(PartsOf(cfg, bits)[p])|
    ensures bits[|bits| - 1].Flushed? && p == |PartsOf(cfg, bits[..|bits| - 1])|
    ensures TextOf(PartsOf(cfg, bits)[p]) == Pend(bits[..|bits| - 1])
  {
    hide PartsOf, Pend, Filing;
    PartsSnoc(cfg, bits);
  }

  /** Every token of a document's own carries the metaname it is stored under and the context of the
      metanames that are open where its text stands in the tree. */
  lemma TokenNames(cfg: Config, lens: Lengths, pages: seq<Page>, k: nat)
    requires lens.max >= 2 && DEFAULT_METANAME in cfg.metanames && Legible(cfg, [], pages)
    requires IsOwn(cfg, lens, BitsOf(cfg, pages), k)
    ensures var bits := BitsOf(cfg, pages);
            var b, item := bits[EventOf(cfg, lens, bits, k)], WordsOf(lens, PartsOf(cfg, bits)).items[k];
            && b.Said? && b.inside != [] && Innermost(b.inside) in cfg.metanames
            && item.meta == Stored(cfg, Innermost(b.inside)) && item.context == Join(b.inside, '/')
  {
    hide BitsOf, PartsOf, WordsOf, PartAt, RunAt, BeginsRun, ChunkOfRun, OwnText, Bumpers, Legible, InTheirNames,
         Addressed, BitAt;
    var bits := BitsOf(cfg, pages);
    var parts := PartsOf(cfg, bits);
    BitsLabelled(cfg, pages);
    TokenStands(lens, parts, k);
    TokenOfPart(lens, parts, k);
    var p := PartAt(lens, parts, k);
    WordIsNoBumper(parts[p].text, RunAt(lens, parts, k));
    PartNames(cfg, bits, [], p, RunAt(lens, parts, k));
  }
}
