/** From the flushes to the named buffers: splitting a metaname's buffer gives the passages
    that belong to that metaname. */
module Harvest {
  import opened CString
  import opened NamedBuffers
  import opened Seqs
  import opened TagStacks
  import opened Directives
  import opened Sax
  import opened StackDiscipline
  import opened Attribution

  // ---------------------------------------------------------------- what each buffer should hold

  function Innermost(names: seq<string>): string
    requires names != []
  {
    names[|names| - 1]
  }

  /** How often a text under `names` is added to buffer `m`: once for the metaname it is stored
      under, and with cascade_meta_context once for every other entry of that name. */
  function Copies(cfg: Config, names: seq<string>, m: string): nat {
    if names != [] && Innermost(names) in cfg.metanames && Stored(cfg, Innermost(names)) == m then 1
    else if cfg.cascade then multiset(names)[m]
    else 0
  }

  /** The texts of the passages that belong in buffer `m`, each once, in document order. */
  function TextsFor(cfg: Config, ps: seq<Passage>, m: string): (texts: seq<string>)
    ensures |texts| <= |ps|
  {
    if ps == [] then []
    else
      var k := |ps| - 1;
      TextsFor(cfg, ps[..k], m) + (if Copies(cfg, ps[k].names, m) > 0 then [ps[k].text] else [])
  }

  predicate OncePerPassage(cfg: Config, ps: seq<Passage>, m: string) {
    forall p :: p in ps ==> Copies(cfg, p.names, m) <= 1
  }

  // ---------------------------------------------------------------- what each flush adds

  /** The stack a flush finds: the one its text was read under, or what is left of that when
      the closing tag popped the head before it flushed. */
  function Standing(names: seq<string>, whole: bool): seq<string>
    requires names != []
  {
    if whole then names else names[..|names| - 1]
  }

  predicate WellLabelled(cfg: Config, f: Flush) {
    && f.names != [] && Innermost(f.names) in cfg.metanames
    && f.context == Join(f.names, DOM_CHAR)
    && f.added == Targets(cfg, Standing(f.names, f.whole), Innermost(f.names))
    && NoNul(f.text)
  }

  predicate AllWellLabelled(cfg: Config, flushes: seq<Flush>) {
    forall f :: f in flushes ==> WellLabelled(cfg, f)
  }

  lemma {:induction false} OthersCount(names: seq<string>, stored: string, m: string)
    ensures multiset(Others(names, stored))[m] == if m == stored then 0 else multiset(names)[m]
  {
    if names != [] {
      var k := |names| - 1;
      OthersCount(names[..k], stored, m);
      assert names == names[..k] + [names[k]];
    }
  }

  /** How often a text under `names` is really added to buffer `m`: with cascade_meta_context
      the stack that stands at the flush counts, and its head may be gone. */
  function Share(cfg: Config, names: seq<string>, whole: bool, m: string): nat {
    if names != [] && Innermost(names) in cfg.metanames && Stored(cfg, Innermost(names)) == m then 1
    else if cfg.cascade && names != [] then multiset(Standing(names, whole))[m]
    else 0
  }

  lemma TargetsCount(cfg: Config, f: Flush, m: string)
    requires WellLabelled(cfg, f)
    ensures multiset(f.added)[m] == Share(cfg, f.names, f.whole, m)
  {
    hide Join, Others, NoNul;
    OthersCount(Standing(f.names, f.whole), Stored(cfg, Innermost(f.names)), m);
  }

  /** The two differ only for a text directly in a metaname with an alias_for: that metaname
      misses one copy when its own closing tag flushes. */
  lemma ShareOrCopies(cfg: Config, names: seq<string>, whole: bool, m: string)
    requires names != [] && Innermost(names) in cfg.metanames
    ensures whole ==> Share(cfg, names, whole, m) == Copies(cfg, names, m)
    ensures !whole ==>
              Share(cfg, names, whole, m) == Copies(cfg, names, m)
              - if cfg.cascade && Innermost(names) == m && Stored(cfg, m) != m then 1 else 0
  {
    var last := Innermost(names);
    assert names == names[..|names| - 1] + [last];
    assert multiset(names)[m] == multiset(names[..|names| - 1])[m] + if m == last then 1 else 0;
  }

  // ---------------------------------------------------------------- from flushes to buffers

  /** The named buffers after adding the texts of `flushes`. */
  function Built(nb: Buffers, flushes: seq<Flush>): Buffers {
    if flushes == [] then nb
    else
      var k := |flushes| - 1;
      AddAll(Built(nb, flushes[..k]), flushes[k].added, flushes[k].text)
  }

  function Repeat<T>(n: nat, pieces: seq<T>): seq<T> {
    if n == 0 then [] else Repeat(n - 1, pieces) + pieces
  }

  lemma {:induction false} AddAllPieces(nb: Buffers, names: seq<string>, text: string, m: string)
    requires NoNul(text)
    ensures Pieces(Content(AddAll(nb, names, text), m))
         == Pieces(Content(nb, m)) + Repeat(multiset(names)[m], Pieces(text))
  {
    hide Pieces, AddStr, Content;
    if names != [] {
      var k := |names| - 1;
      AddAllPieces(nb, names[..k], text, m);
      AddStrPieces(AddAll(nb, names[..k], text), names[k], text, m);
      assert names == names[..k] + [names[k]];
      var c := multiset(names[..k])[m];
      assert multiset(names)[m] == c + if names[k] == m then 1 else 0;
      Assoc(Pieces(Content(nb, m)), Repeat(c, Pieces(text)), Pieces(text));
    }
  }

  /** Buffer `m` after the flushes, piece by piece. */
  function PiecesFor(flushes: seq<Flush>, m: string): seq<string> {
    if flushes == [] then []
    else
      var k := |flushes| - 1;
      PiecesFor(flushes[..k], m) + Repeat(multiset(flushes[k].added)[m], Pieces(flushes[k].text))
  }

  lemma {:induction false} BuiltPieces(nb: Buffers, flushes: seq<Flush>, m: string)
    requires forall f :: f in flushes ==> NoNul(f.text)
    ensures Pieces(Content(Built(nb, flushes), m)) == Pieces(Content(nb, m)) + PiecesFor(flushes, m)
  {
    hide Pieces, Repeat, AddAll, Content;
    if flushes != [] {
      var k := |flushes| - 1;
      BuiltPieces(nb, flushes[..k], m);
      assert flushes[k] in flushes;
      AddAllPieces(Built(nb, flushes[..k]), flushes[k].added, flushes[k].text, m);
    }
  }

  // ---------------------------------------------------------------- from flushes to passages

  lemma {:induction false} RepeatLength<T>(n: nat, pieces: seq<T>)
    ensures |Repeat(n, pieces)| == n * |pieces|
  {
    if n > 0 {
      RepeatLength(n - 1, pieces);
    }
  }

  lemma RepeatFew<T>(pieces: seq<T>)
    ensures Repeat(0, pieces) == [] && Repeat(1, pieces) == pieces
  {
    assert Repeat(1, pieces) == Repeat(0, pieces) + pieces;
  }

  /** A passage on its way to the buffers, and whether its flush found the stack whole. */
  datatype Sent = Sent(passage: Passage, whole: bool)

  function Dispatch(names: seq<string>, whole: bool, pieces: seq<string>): (sent: seq<Sent>)
    ensures |sent| == |pieces|
  {
    seq(|pieces|, i requires 0 <= i < |pieces| => Sent(Passage(names, pieces[i]), whole))
  }

  function SentBy(flushes: seq<Flush>): seq<Sent> {
    if flushes == [] then []
    else
      var k := |flushes| - 1;
      SentBy(flushes[..k]) + Dispatch(flushes[k].names, flushes[k].whole, Pieces(flushes[k].text))
  }

  function PassagesOf(sent: seq<Sent>): (ps: seq<Passage>)
    ensures |ps| == |sent|
  {
    seq(|sent|, i requires 0 <= i < |sent| => sent[i].passage)
  }

  lemma {:induction false} SentPassages(flushes: seq<Flush>)
    ensures PassagesOf(SentBy(flushes)) == Carried(flushes)
  {
    hide Pieces;
    if flushes != [] {
      var k := |flushes| - 1;
      SentPassages(flushes[..k]);
      var f := flushes[k];
      assert PassagesOf(Dispatch(f.names, f.whole, Pieces(f.text))) == Label(f.names, Pieces(f.text));
    }
  }

  /** How many copies of a passage reach buffer `m`, and how many should. */
  function Gets(cfg: Config, t: Sent, m: string): nat {
    Share(cfg, t.passage.names, t.whole, m)
  }

  function Owed(cfg: Config, p: Passage, m: string): nat {
    if Copies(cfg, p.names, m) > 0 then 1 else 0
  }

  predicate AllServed(cfg: Config, sent: seq<Sent>, m: string) {
    forall t :: t in sent ==> Gets(cfg, t, m) == Owed(cfg, t.passage, m)
  }

  // ---------------------------------------------------------------- where the pieces of a buffer come from

  function Range(from: nat, n: nat): (r: seq<nat>)
    ensures |r| == n
  {
    seq(n, i requires 0 <= i < n => from + i)
  }

  /** For every piece of buffer `m` the number of the passage it is a copy of. */
  function Origins(flushes: seq<Flush>, m: string): seq<nat> {
    if flushes == [] then []
    else
      var k := |flushes| - 1;
      Origins(flushes[..k], m)
      + Repeat(multiset(flushes[k].added)[m], Range(|SentBy(flushes[..k])|, |Pieces(flushes[k].text)|))
  }

  /** The numbers of the passages that belong in buffer `m`. */
  function Wanted(cfg: Config, ps: seq<Passage>, m: string): seq<nat> {
    if ps == [] then []
    else
      var k := |ps| - 1;
      Wanted(cfg, ps[..k], m) + if Owed(cfg, ps[k], m) == 1 then [k] else []
  }

  predicate Below(origins: seq<nat>, n: nat) {
    forall i :: 0 <= i < |origins| ==> origins[i] < n
  }

  predicate Above(origins: seq<nat>, n: nat) {
    forall i :: 0 <= i < |origins| ==> origins[i] >= n
  }

  function TextsAt(ps: seq<Passage>, origins: seq<nat>): (texts: seq<string>)
    requires Below(origins, |ps|)
    ensures |texts| == |origins|
  {
    seq(|origins|, i requires 0 <= i < |origins| => ps[origins[i]].text)
  }

  lemma {:induction false} RepeatIn(n: nat, from: nat, len: nat)
    ensures Above(Repeat(n, Range(from, len)), from) && Below(Repeat(n, Range(from, len)), from + len)
  {
    if n > 0 {
      RepeatIn(n - 1, from, len);
    }
  }

  lemma {:induction false} RepeatTexts(ps: seq<Passage>, n: nat, names: seq<string>, from: nat, pieces: seq<string>)
    requires from + |pieces| <= |ps| && ps[from..from + |pieces|] == Label(names, pieces)
    ensures Below(Repeat(n, Range(from, |pieces|)), |ps|)
    ensures TextsAt(ps, Repeat(n, Range(from, |pieces|))) == Repeat(n, pieces)
  {
    RepeatIn(n, from, |pieces|);
    if n > 0 {
      RepeatTexts(ps, n - 1, names, from, pieces);
      var front, r := Repeat(n - 1, Range(from, |pieces|)), Range(from, |pieces|);
      forall i | 0 <= i < |pieces| ensures ps[r[i]].text == pieces[i] {
        assert ps[from..from + |pieces|][i] == ps[from + i];
      }
      assert TextsAt(ps, front + r) == TextsAt(ps, front) + pieces;
    }
  }

  /** The pieces of buffer `m` are the texts at those numbers. */
  lemma {:induction false} PiecesAtOrigins(flushes: seq<Flush>, m: string)
    ensures Below(Origins(flushes, m), |Carried(flushes)|)
    ensures PiecesFor(flushes, m) == TextsAt(Carried(flushes), Origins(flushes, m))
  {
    hide Pieces, Repeat;
    if flushes != [] {
      var k := |flushes| - 1;
      var front, f, pieces := flushes[..k], flushes[k], Pieces(flushes[k].text);
      var ps, base, n := Carried(flushes), |Carried(front)|, multiset(f.added)[m];
      PiecesAtOrigins(front, m);
      SentPassages(front);
      assert ps == Carried(front) + Label(f.names, pieces);
      assert ps[base..base + |pieces|] == Label(f.names, pieces);
      RepeatTexts(ps, n, f.names, base, pieces);
      TextsAtConcat(Carried(front), Label(f.names, pieces), Origins(front, m), Repeat(n, Range(base, |pieces|)));
    }
  }

  lemma TextsAtConcat(ps: seq<Passage>, more: seq<Passage>, a: seq<nat>, b: seq<nat>)
    requires Below(a, |ps|) && Below(b, |ps + more|)
    ensures Below(a + b, |ps + more|)
    ensures TextsAt(ps + more, a + b) == TextsAt(ps, a) + TextsAt(ps + more, b)
  {
  }

  lemma {:induction false} TextsAtWanted(cfg: Config, ps: seq<Passage>, m: string)
    ensures Below(Wanted(cfg, ps, m), |ps|)
    ensures TextsFor(cfg, ps, m) == TextsAt(ps, Wanted(cfg, ps, m))
  {
    hide Copies;
    if ps != [] {
      var k := |ps| - 1;
      TextsAtWanted(cfg, ps[..k], m);
      var last := if Owed(cfg, ps[k], m) == 1 then [k] else [];
      assert ps == ps[..k] + [ps[k]];
      TextsAtConcat(ps[..k], [ps[k]], Wanted(cfg, ps[..k], m), last);
    }
  }

  /** Two lists of numbers that part at `n` are equal when both parts are. */
  lemma PartsEqual(a: seq<nat>, b: seq<nat>, c: seq<nat>, d: seq<nat>, n: nat)
    requires Below(a, n) && Below(c, n) && Above(b, n) && Above(d, n)
    ensures a + b == c + d <==> a == c && b == d
  {
    assert b != [] ==> (a + b)[|a|] == b[0] >= n;
    assert d != [] ==> (c + d)[|c|] == d[0] >= n;
    assert |a| < |c| ==> (c + d)[|a|] == c[|a|] < n;
    assert |c| < |a| ==> (a + b)[|c|] == a[|c|] < n;
    if a + b == c + d {
      assert |a| == |c|;
      assert a == (a + b)[..|a|] && c == (c + d)[..|c|];
      assert b == (a + b)[|a|..] && d == (c + d)[|c|..];
    }
  }

  lemma {:induction false} WantedConcat(cfg: Config, ps: seq<Passage>, names: seq<string>, pieces: seq<string>,
                                        m: string)
    ensures Wanted(cfg, ps + Label(names, pieces), m)
         == Wanted(cfg, ps, m) + if Copies(cfg, names, m) > 0 then Range(|ps|, |pieces|) else []
  {
    hide Copies, Wanted;
    if pieces == [] {
      assert ps + Label(names, pieces) == ps;
    } else {
      var k := |pieces| - 1;
      WantedConcat(cfg, ps, names, pieces[..k], m);
      assert ps + Label(names, pieces) == (ps + Label(names, pieces[..k])) + [Passage(names, pieces[k])];
      WantedSnoc(cfg, ps + Label(names, pieces[..k]), Passage(names, pieces[k]), m);
      assert Range(|ps|, k + 1) == Range(|ps|, k) + [|ps| + k];
    }
  }

  lemma WantedSnoc(cfg: Config, ps: seq<Passage>, p: Passage, m: string)
    ensures Wanted(cfg, ps + [p], m) == Wanted(cfg, ps, m) + if Copies(cfg, p.names, m) > 0 then [|ps|] else []
  {
    hide Copies;
    assert (ps + [p])[..|ps|] == ps;
  }

  lemma {:induction false} WantedBelow(cfg: Config, ps: seq<Passage>, m: string)
    ensures Below(Wanted(cfg, ps, m), |ps|)
  {
    hide Copies;
    if ps != [] {
      WantedBelow(cfg, ps[..|ps| - 1], m);
    }
  }

  lemma RangeAbove(from: nat, n: nat)
    ensures Above(Range(from, n), from) && Above([], from)
  {
  }

  lemma RepeatIsOnce(n: nat, from: nat, len: nat)
    ensures Repeat(n, Range(from, len)) == Range(from, len) <==> n == 1 || len == 0
    ensures Repeat(n, Range(from, len)) == [] <==> n == 0 || len == 0
  {
    RepeatLength(n, Range(from, len));
    RepeatFew(Range(from, len));
    if len == 0 {
      assert n * len == 0;
    } else if n >= 2 {
      assert n * len >= 2 * len by {
        assert (n - 2) * len >= 0;
      }
    }
  }

  lemma ServedConcat(cfg: Config, sent: seq<Sent>, f: Flush, m: string)
    requires f.names != []
    ensures AllServed(cfg, sent + Dispatch(f.names, f.whole, Pieces(f.text)), m)
       <==> AllServed(cfg, sent, m)
            && (Share(cfg, f.names, f.whole, m) == (if Copies(cfg, f.names, m) > 0 then 1 else 0)
                || Pieces(f.text) == [])
  {
    hide Pieces, Copies, Share;
    var tail := Dispatch(f.names, f.whole, Pieces(f.text));
    assert forall t :: t in sent + tail <==> t in sent || t in tail;
    if Pieces(f.text) != [] {
      assert tail[0] in tail;
    }
  }

  /** Buffer `m` takes its pieces from just the passages that belong there, each once and in
      order, exactly when every passage is served what it is owed. */
  lemma {:induction false} OriginsAreWanted(cfg: Config, flushes: seq<Flush>, m: string)
    requires AllWellLabelled(cfg, flushes)
    ensures Origins(flushes, m) == Wanted(cfg, Carried(flushes), m) <==> AllServed(cfg, SentBy(flushes), m)
  {
    hide Pieces, Copies, Share, Repeat, WellLabelled, AllServed;
    if flushes == [] {
      NoneServed(cfg, m);
    } else {
      var k := |flushes| - 1;
      var front, f, pieces := flushes[..k], flushes[k], Pieces(flushes[k].text);
      assert f in flushes;
      OriginsAreWanted(cfg, front, m);
      TargetsCount(cfg, f, m);
      Labelled(cfg, f);
      SentPassages(front);
      var base, n := |SentBy(front)|, Share(cfg, f.names, f.whole, m);
      ServedConcat(cfg, SentBy(front), f, m);
      WantedConcat(cfg, Carried(front), f.names, pieces, m);
      PiecesAtOrigins(front, m);
      WantedBelow(cfg, Carried(front), m);
      RepeatIn(n, base, |pieces|);
      RangeAbove(base, |pieces|);
      RepeatIsOnce(n, base, |pieces|);
      PartsEqual(Origins(front, m), Repeat(n, Range(base, |pieces|)), Wanted(cfg, Carried(front), m),
                 if Copies(cfg, f.names, m) > 0 then Range(base, |pieces|) else [], base);
    }
  }

  lemma NoneServed(cfg: Config, m: string)
    ensures AllServed(cfg, [], m)
  {
  }

  lemma Labelled(cfg: Config, f: Flush)
    requires WellLabelled(cfg, f)
    ensures f.names != []
  {
  }

  // ---------------------------------------------------------------- the texts themselves

  predicate NeverShort(cfg: Config, sent: seq<Sent>, m: string) {
    forall t :: t in sent ==> Gets(cfg, t, m) >= Owed(cfg, t.passage, m)
  }

  predicate NeverOver(cfg: Config, sent: seq<Sent>, m: string) {
    forall t :: t in sent ==> Gets(cfg, t, m) <= Owed(cfg, t.passage, m)
  }

  function SumGets(cfg: Config, sent: seq<Sent>, m: string): nat {
    if sent == [] then 0 else SumGets(cfg, sent[..|sent| - 1], m) + Gets(cfg, sent[|sent| - 1], m)
  }

  function SumOwed(cfg: Config, ps: seq<Passage>, m: string): nat {
    if ps == [] then 0 else SumOwed(cfg, ps[..|ps| - 1], m) + Owed(cfg, ps[|ps| - 1], m)
  }

  lemma DispatchSnoc(sent: seq<Sent>, names: seq<string>, whole: bool, pieces: seq<string>)
    requires pieces != []
    ensures var k := |pieces| - 1; var all := sent + Dispatch(names, whole, pieces);
            && all[..|all| - 1] == sent + Dispatch(names, whole, pieces[..k])
            && all[|all| - 1] == Sent(Passage(names, pieces[k]), whole)
    ensures sent + Dispatch(names, whole, []) == sent
  {
  }

  lemma {:induction false} SumGetsDispatch(cfg: Config, sent: seq<Sent>, names: seq<string>, whole: bool,
                                           pieces: seq<string>, m: string)
    ensures SumGets(cfg, sent + Dispatch(names, whole, pieces), m)
         == SumGets(cfg, sent, m) + Share(cfg, names, whole, m) * |pieces|
  {
    hide Share, Dispatch;
    var n := Share(cfg, names, whole, m);
    if pieces == [] {
      assert sent + Dispatch(names, whole, pieces) == sent;
    } else {
      var k := |pieces| - 1;
      DispatchSnoc(sent, names, whole, pieces);
      SumGetsDispatch(cfg, sent, names, whole, pieces[..k], m);
      assert n * |pieces| == n * k + n;
    }
  }

  lemma {:induction false} OriginsLength(cfg: Config, flushes: seq<Flush>, m: string)
    requires AllWellLabelled(cfg, flushes)
    ensures |Origins(flushes, m)| == SumGets(cfg, SentBy(flushes), m)
  {
    hide Pieces, Share, Repeat, WellLabelled;
    if flushes != [] {
      var k := |flushes| - 1;
      var f, pieces := flushes[k], Pieces(flushes[k].text);
      assert f in flushes;
      OriginsLength(cfg, flushes[..k], m);
      TargetsCount(cfg, f, m);
      RepeatLength(multiset(f.added)[m], Range(|SentBy(flushes[..k])|, |pieces|));
      SumGetsDispatch(cfg, SentBy(flushes[..k]), f.names, f.whole, pieces, m);
    }
  }

  lemma {:induction false} WantedLength(cfg: Config, ps: seq<Passage>, m: string)
    ensures |Wanted(cfg, ps, m)| == SumOwed(cfg, ps, m)
  {
    hide Copies;
    if ps != [] {
      WantedLength(cfg, ps[..|ps| - 1], m);
    }
  }

  /** Nobody short and nobody over, or else the sums differ. */
  lemma {:induction false} SumsTell(cfg: Config, sent: seq<Sent>, m: string)
    requires NeverShort(cfg, sent, m) || NeverOver(cfg, sent, m)
    ensures var gets, owed := SumGets(cfg, sent, m), SumOwed(cfg, PassagesOf(sent), m);
            && (NeverShort(cfg, sent, m) ==> gets >= owed)
            && (NeverOver(cfg, sent, m) ==> gets <= owed)
            && (gets == owed ==> AllServed(cfg, sent, m))
  {
    hide Gets, Owed;
    if sent != [] {
      var k := |sent| - 1;
      assert PassagesOf(sent)[..k] == PassagesOf(sent[..k]);
      assert sent[k] in sent && forall t :: t in sent[..k] ==> t in sent;
      SumsTell(cfg, sent[..k], m);
      assert forall t :: t in sent ==> t in sent[..k] || t == sent[k];
    }
  }

  /** Buffer `m` splits to the texts that belong there if every passage is served.  The other way
      round it takes that passages are not both missed and doubled: one could then stand in for
      the other. */
  lemma PiecesAreTexts(cfg: Config, flushes: seq<Flush>, m: string)
    requires AllWellLabelled(cfg, flushes)
    ensures var sent := SentBy(flushes);
            var same := PiecesFor(flushes, m) == TextsFor(cfg, Carried(flushes), m);
            && (AllServed(cfg, sent, m) ==> same)
            && (NeverShort(cfg, sent, m) || NeverOver(cfg, sent, m) ==> (same <==> AllServed(cfg, sent, m)))
  {
    hide Origins, Wanted, Carried, PiecesFor, TextsFor, SentBy, AllServed, NeverShort, NeverOver, AllWellLabelled;
    PiecesAtOrigins(flushes, m);
    TextsAtWanted(cfg, Carried(flushes), m);
    OriginsAreWanted(cfg, flushes, m);
    OriginsLength(cfg, flushes, m);
    WantedLength(cfg, Carried(flushes), m);
    SentPassages(flushes);
    if NeverShort(cfg, SentBy(flushes), m) || NeverOver(cfg, SentBy(flushes), m) {
      SumsTell(cfg, SentBy(flushes), m);
    }
  }

  /** The texts of the passages that are served at all. */
  function ServedTexts(cfg: Config, sent: seq<Sent>, m: string): seq<string> {
    if sent == [] then []
    else
      var k := |sent| - 1;
      ServedTexts(cfg, sent[..k], m) + if Gets(cfg, sent[k], m) > 0 then [sent[k].passage.text] else []
  }

  lemma {:induction false} ServedTextsDispatch(cfg: Config, sent: seq<Sent>, names: seq<string>, whole: bool,
                                               pieces: seq<string>, m: string)
    ensures ServedTexts(cfg, sent + Dispatch(names, whole, pieces), m)
         == ServedTexts(cfg, sent, m) + if Share(cfg, names, whole, m) > 0 then pieces else []
  {
    hide Share, Dispatch;
    if pieces == [] {
      assert sent + Dispatch(names, whole, pieces) == sent;
    } else {
      var k := |pieces| - 1;
      DispatchSnoc(sent, names, whole, pieces);
      ServedTextsDispatch(cfg, sent, names, whole, pieces[..k], m);
      assert pieces == pieces[..k] + [pieces[k]];
    }
  }

  /** Where nobody is served twice, the buffer holds just those texts. */
  lemma {:induction false} PiecesAreServed(cfg: Config, flushes: seq<Flush>, m: string)
    requires AllWellLabelled(cfg, flushes)
    requires forall t :: t in SentBy(flushes) ==> Gets(cfg, t, m) <= 1
    ensures PiecesFor(flushes, m) == ServedTexts(cfg, SentBy(flushes), m)
  {
    hide Pieces, Share, Repeat, WellLabelled, Dispatch, Gets;
    if flushes != [] {
      var k := |flushes| - 1;
      var front, f, pieces := flushes[..k], flushes[k], Pieces(flushes[k].text);
      assert f in flushes;
      var tail := Dispatch(f.names, f.whole, pieces);
      assert SentBy(flushes) == SentBy(front) + tail;
      assert forall t :: t in SentBy(front) || t in tail ==> t in SentBy(flushes);
      PiecesAreServed(cfg, front, m);
      TargetsCount(cfg, f, m);
      ServedTextsDispatch(cfg, SentBy(front), f.names, f.whole, pieces, m);
      ServedOnce(cfg, f.names, f.whole, pieces, m);
    }
  }

  lemma ServedOnce(cfg: Config, names: seq<string>, whole: bool, pieces: seq<string>, m: string)
    requires forall t :: t in Dispatch(names, whole, pieces) ==> Gets(cfg, t, m) <= 1
    ensures Repeat(Share(cfg, names, whole, m), pieces) == if Share(cfg, names, whole, m) > 0 then pieces else []
  {
    hide Share, Repeat;
    RepeatFew(pieces);
    if pieces == [] {
      RepeatLength(Share(cfg, names, whole, m), pieces);
    } else {
      assert Dispatch(names, whole, pieces)[0] in Dispatch(names, whole, pieces);
    }
  }

  // ---------------------------------------------------------------- invariants of a run

  /** The buffers are what the flushes made them, and every flush is labelled with its stack. */
  predicate Accounted(cfg: Config, nb: Buffers, s: State) {
    && s.metanames == Built(nb, s.flushes)
    && AllWellLabelled(cfg, s.flushes)
    && NoNul(s.metaBuf)
  }

  predicate TextOfEvents(evs: seq<Event>) {
    forall ev: Event :: ev in evs && ev.Text? ==> NoNul(ev.ch)
  }

  lemma BuiltSnoc(nb: Buffers, flushes: seq<Flush>, f: Flush)
    ensures Built(nb, flushes + [f]) == AddAll(Built(nb, flushes), f.added, f.text)
  {
    assert (flushes + [f])[..|flushes|] == flushes;
  }

  lemma FlushAccounted(cfg: Config, nb: Buffers, s: State, names: seq<string>, s': State)
    requires names != [] && Innermost(names) in cfg.metanames && Accounted(cfg, nb, s)
    requires Names(s.meta) == names || Names(s.meta) == names[..|names| - 1]
    requires var f := FlushBuffer(cfg, s, Innermost(names), Join(names, DOM_CHAR), names);
             s'.metanames == f.metanames && s'.flushes == f.flushes && s'.metaBuf == ""
    ensures Accounted(cfg, nb, s')
  {
    hide AddAll, Targets, Join;
    var stack := Names(s.meta);
    var f := Flush(names, stack == names, Join(names, DOM_CHAR), Targets(cfg, stack, Innermost(names)), s.metaBuf);
    BuiltSnoc(nb, s.flushes, f);
    assert WellLabelled(cfg, f);
    assert forall g :: g in s'.flushes ==> g in s.flushes || g == f;
  }

  /** The head's context is the whole stack joined. */
  lemma HeadContext(cfg: Config, open: seq<Elem>)
    ensures var s := MetaOf(cfg, open);
            Names(s) != [] && Top(s).baked == Innermost(Names(s)) && Top(s).context == Join(Names(s), DOM_CHAR)
  {
    hide Join, MetaOf, DomOf, PropOf;
    StacksConsistent(cfg, open);
    var s := MetaOf(cfg, open);
    assert Names(s)[..|s| - 1 + 1] == Names(s);
  }

  lemma OpenAccounted(cfg: Config, nb: Buffers, s: State, open: seq<Elem>, e: Elem)
    requires Live(cfg, s) && At(cfg, s, open) && Known(cfg, open, e) && Accounted(cfg, nb, s)
    ensures Accounted(cfg, nb, Step(cfg, s, Open(e)))
  {
    hide Bake, Join, Targets, AddAll, Accounted, DomOf, PropOf, MetaOf, IsMeta, IsProp, StackName, Defined, At, Known;
    OpenPushes(cfg, s, open, e);
    AtMeta(cfg, s, open);
    HeadContext(cfg, open);
    BufferNoNul(cfg, nb, s);
    var tag := Bake(cfg, Names(s.dom), e);
    var path := Join(Names(s.dom) + [tag], DOT);
    var s' := Step(cfg, s, Open(e));
    if IsMeta(cfg, tag, path) {
      FlushAccounted(cfg, nb, s, Names(s.meta), s');
    } else {
      SameAccounted(cfg, nb, s, s');
    }
  }

  lemma AtMeta(cfg: Config, s: State, open: seq<Elem>)
    requires At(cfg, s, open)
    ensures s.meta == MetaOf(cfg, open)
  {
  }

  lemma SameAccounted(cfg: Config, nb: Buffers, s: State, s': State)
    requires Accounted(cfg, nb, s)
    requires s'.metanames == s.metanames && s'.flushes == s.flushes && NoNul(s'.metaBuf)
    ensures Accounted(cfg, nb, s')
  {
  }

  lemma CloseAccounted(cfg: Config, nb: Buffers, s: State, open: seq<Elem>, e: Elem)
    requires Live(cfg, s) && At(cfg, s, open + [e]) && Paired(cfg, open, e) && Accounted(cfg, nb, s)
    ensures Accounted(cfg, nb, Step(cfg, s, Close(e)))
  {
    hide Bake, Join, Targets, AddAll, Accounted, DomOf, PropOf, MetaOf, IsMeta, IsProp, StackName, Defined, At, Paired;
    CloseRestores(cfg, s, open, e);
    AtMeta(cfg, s, open + [e]);
    HeadContext(cfg, open + [e]);
    BufferNoNul(cfg, nb, s);
    var s' := Step(cfg, s, Close(e));
    if Top(s.meta).raw == e.raw {
      var popped := s.(meta := s.meta[..|s.meta| - 1]);
      SameAccounted(cfg, nb, s, popped);
      assert Names(popped.meta) == Names(s.meta)[..|s.meta| - 1];
      FlushAccounted(cfg, nb, popped, Names(s.meta), s');
    } else {
      SameAccounted(cfg, nb, s, s');
    }
  }

  lemma TextAccounted(cfg: Config, nb: Buffers, s: State, ev: Event)
    requires Accounted(cfg, nb, s)
    requires (ev.Text? && NoNul(ev.ch)) || ev.Comment?
    ensures Accounted(cfg, nb, Step(cfg, s, ev))
  {
    hide Accounted, DirectiveOf, Live, Enabled;
    BufferNoNul(cfg, nb, s);
    SameAccounted(cfg, nb, s, Step(cfg, s, ev));
  }

  lemma BufferNoNul(cfg: Config, nb: Buffers, s: State)
    requires Accounted(cfg, nb, s)
    ensures NoNul(s.metaBuf)
  {
  }

  lemma {:induction false} RunAccounted(cfg: Config, nb: Buffers, s: State, open: seq<Elem>, evs: seq<Event>)
    requires Live(cfg, s) && At(cfg, s, open) && AllPaired(cfg, open) && Accounted(cfg, nb, s)
    requires OpenAfter(cfg, open, evs).Some? && TextOfEvents(evs)
    ensures Accounted(cfg, nb, Run(cfg, s, evs))
    decreases evs
  {
    hide Step, Enabled, Live, At, Known, Paired, Accounted, AllPaired;
    if evs != [] {
      var next := Step(cfg, s, evs[0]);
      assert evs[0] in evs;
      assert TextOfEvents(evs[1..]) by {
        assert forall ev :: ev in evs[1..] ==> ev in evs;
      }
      match evs[0] {
        case Open(e) =>
          OpenPushes(cfg, s, open, e);
          AllPairedPush(cfg, open, e);
          OpenAccounted(cfg, nb, s, open, e);
          RunAccounted(cfg, nb, next, open + [e], evs[1..]);
        case Close(e) =>
          var outer := open[..|open| - 1];
          assert open == outer + [e];
          AllPairedPop(cfg, open);
          CloseRestores(cfg, s, outer, e);
          CloseAccounted(cfg, nb, s, outer, e);
          RunAccounted(cfg, nb, next, outer, evs[1..]);
        case Text(_) =>
          StillAt(cfg, s, open, evs[0]);
          TextAccounted(cfg, nb, s, evs[0]);
          RunAccounted(cfg, nb, next, open, evs[1..]);
        case Comment(_) =>
          StillAt(cfg, s, open, evs[0]);
          TextAccounted(cfg, nb, s, evs[0]);
          RunAccounted(cfg, nb, next, open, evs[1..]);
      }
    }
  }

  // ---------------------------------------------------------------- trees as event sequences

  lemma {:induction false} OpenAfterConcat(cfg: Config, open: seq<Elem>, a: seq<Event>, b: seq<Event>)
    requires OpenAfter(cfg, open, a).Some?
    ensures OpenAfter(cfg, open, a + b) == OpenAfter(cfg, OpenAfter(cfg, open, a).value, b)
    decreases a
  {
    hide Known, Paired;
    if a == [] {
      assert a + b == b;
    } else {
      assert (a + b)[0] == a[0] && (a + b)[1..] == a[1..] + b;
      match a[0] {
        case Open(e) => OpenAfterConcat(cfg, open + [e], a[1..], b);
        case Close(e) => OpenAfterConcat(cfg, open[..|open| - 1], a[1..], b);
        case Text(_) => OpenAfterConcat(cfg, open, a[1..], b);
        case Comment(_) => OpenAfterConcat(cfg, open, a[1..], b);
      }
    }
  }

  lemma TextConcat(a: seq<Event>, b: seq<Event>)
    requires TextOfEvents(a) && TextOfEvents(b)
    ensures TextOfEvents(a + b)
  {
    assert forall ev :: ev in a + b ==> ev in a || ev in b;
  }

  /** The events of a forest close everything they open. */
  lemma {:induction false} EventsBalanced(cfg: Config, open: seq<Elem>, ns: seq<Node>)
    requires Sound(cfg, open, ns) && XmlText(ns)
    ensures OpenAfter(cfg, open, Events(ns)) == Some(open) && TextOfEvents(Events(ns))
    decreases ns
  {
    hide Known, Paired, TextOfEvents;
    if ns == [] {
      NoText();
    } else {
      NodeBalanced(cfg, open, ns[0]);
      EventsBalanced(cfg, open, ns[1..]);
      OpenAfterConcat(cfg, open, NodeEvents(ns[0]), Events(ns[1..]));
      TextConcat(NodeEvents(ns[0]), Events(ns[1..]));
    }
  }

  lemma NoText()
    ensures TextOfEvents([])
  {
  }

  lemma OneEvent(cfg: Config, open: seq<Elem>, ev: Event)
    ensures ev.Text? || ev.Comment? ==> OpenAfter(cfg, open, [ev]) == Some(open)
    ensures ev.Open? && Known(cfg, open, ev.e) && Paired(cfg, open, ev.e) ==>
              OpenAfter(cfg, open, [ev]) == Some(open + [ev.e])
    ensures (ev.Text? ==> NoNul(ev.ch)) ==> TextOfEvents([ev])
  {
    hide Known, Paired;
    assert [ev][1..] == [];
    assert forall o :: OpenAfter(cfg, o, []) == Some(o);
  }

  lemma {:induction false} NodeBalanced(cfg: Config, open: seq<Elem>, n: Node)
    requires SoundNode(cfg, open, n) && XmlTextNode(n)
    ensures OpenAfter(cfg, open, NodeEvents(n)) == Some(open) && TextOfEvents(NodeEvents(n))
    decreases n
  {
    hide Known, Paired, TextOfEvents, OpenAfter;
    match n {
      case Chars(ch) => OneEvent(cfg, open, Text(ch));
      case Remark(cmt) => OneEvent(cfg, open, Comment(cmt));
      case Element(e, kids) =>
        var first, last := [Open(e)], [Close(e)];
        OneEvent(cfg, open, Open(e));
        OneEvent(cfg, open + [e], Close(e));
        EventsBalanced(cfg, open + [e], kids);
        OpenAfterConcat(cfg, open, first, Events(kids));
        OpenAfterConcat(cfg, open, first + Events(kids), last);
        TextConcat(first, Events(kids));
        TextConcat(first + Events(kids), last);
        CloseLast(cfg, open, e);
    }
  }

  lemma CloseLast(cfg: Config, open: seq<Elem>, e: Elem)
    ensures OpenAfter(cfg, open + [e], [Close(e)]) == Some(open)
  {
    assert (open + [e])[..|open + [e]| - 1] == open;
    assert [Close(e)][1..] == [];
    assert OpenAfter(cfg, open, []) == Some(open);
  }

  // ---------------------------------------------------------------- the main theorem

  function Final(cfg: Config, doc: seq<Node>): State
    requires DEFAULT_METANAME in cfg.metanames
  {
    EndDocument(cfg, Run(cfg, Start(cfg), Events(doc)))
  }

  lemma StartOk(cfg: Config)
    requires DEFAULT_METANAME in cfg.metanames
    ensures var s := Start(cfg);
            && Live(cfg, s) && At(cfg, s, []) && AllPaired(cfg, [])
            && Accounted(cfg, s.metanames, s) && ReadingOf(s) == Reading([], "", 0)
    ensures Names(MetaOf(cfg, [])) == [DEFAULT_METANAME]
  {
    EmptyBuffer();
    assert Names(MetaOf(cfg, [])) == [DEFAULT_METANAME];
  }

  /** The texts handed on by all flushes are the document's passages, in document order, each
      with the context of the metanames it lies in. */
  lemma FlushesCarryDocument(cfg: Config, doc: seq<Node>)
    requires DEFAULT_METANAME in cfg.metanames && Sound(cfg, [], doc) && XmlText(doc)
    ensures Runnable(cfg, Start(cfg), Events(doc))
    ensures Carried(Final(cfg, doc).flushes) == Passages(cfg, doc)
    ensures AllWellLabelled(cfg, Final(cfg, doc).flushes)
    ensures Final(cfg, doc).metanames == Built(Start(cfg).metanames, Final(cfg, doc).flushes)
  {
    hide Live, At, AllPaired, Accounted, Run, Events, Sound, XmlText, Read, Runnable, ReadingOf, Start, MetaOf,
         Carried, Built;
    var s0 := Start(cfg);
    StartOk(cfg);
    RunReads(cfg, s0, [], doc);
    EventsBalanced(cfg, [], doc);
    RunAccounted(cfg, s0.metanames, s0, [], Events(doc));
    var s := Run(cfg, s0, Events(doc));
    AtMeta(cfg, s, []);
    DefaultJoin();
    FlushAccounted(cfg, s0.metanames, s, [DEFAULT_METANAME], Final(cfg, doc));
    WholeBuffer(s);
    CarriedSnoc(s.flushes, Final(cfg, doc).flushes[|s.flushes|]);
    AccountedParts(cfg, s0.metanames, Final(cfg, doc));
  }

  lemma DefaultJoin()
    ensures Join([DEFAULT_METANAME], DOM_CHAR) == DEFAULT_METANAME
  {
  }

  lemma AccountedParts(cfg: Config, nb: Buffers, s: State)
    requires Accounted(cfg, nb, s)
    ensures s.metanames == Built(nb, s.flushes) && AllWellLabelled(cfg, s.flushes)
  {
  }

  lemma NothingYet(cfg: Config, m: string)
    ensures Pieces(Content(Start(cfg).metanames, m)) == []
  {
    EmptyBuffer();
  }

  lemma FlushTexts(cfg: Config, flushes: seq<Flush>)
    requires AllWellLabelled(cfg, flushes)
    ensures forall f :: f in flushes ==> NoNul(f.text)
  {
  }
}
