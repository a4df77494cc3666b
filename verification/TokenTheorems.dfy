/** What tokenizing promises: positions that keep \3-separated texts apart, words that tokenize
    to themselves, and not a letter or digit lost. */
module TokenTheorems {
  import opened CString
  import opened NamedBuffers
  import opened Seqs
  import opened TokenLists
  import opened Tokenizer

  // ---------------------------------------------------------------- positions

  function Words(marks: seq<Mark>): nat {
    if marks == [] then 0
    else Words(marks[..|marks| - 1]) + if marks[|marks| - 1].Word? then 1 else 0
  }

  function Bumps(marks: seq<Mark>): nat {
    if marks == [] then 0
    else Bumps(marks[..|marks| - 1]) + if marks[|marks| - 1].Bump? then 1 else 0
  }

  function Bumpers(s: string): nat {
    if s == "" then 0 else (if s[0] == BUMPER then 1 else 0) + Bumpers(s[1..])
  }

  /** The k-th token, counted from 0, sits at `pos` plus k + 1 plus the bumps before it. */
  lemma {:induction false} KthPosition(marks: seq<Mark>, pos: nat, meta: string, context: string,
                                       k: nat) returns (j: nat)
    requires k < |Place(marks, pos, meta, context)|
    ensures j < |marks| && Words(marks[..j]) == k
    ensures marks[j] == Word(Place(marks, pos, meta, context)[k].value)
    ensures Place(marks, pos, meta, context)[k].pos == pos + k + 1 + Bumps(marks[..j])
  {
    var m := |marks| - 1;
    PlaceLength(marks[..m], pos, meta, context);
    if k < |Place(marks[..m], pos, meta, context)| {
      j := KthPosition(marks[..m], pos, meta, context, k);
      assert marks[..m][..j] == marks[..j];
    } else {
      j := m;
    }
  }

  lemma {:induction false} PlaceLength(marks: seq<Mark>, pos: nat, meta: string, context: string)
    ensures |Place(marks, pos, meta, context)| == Words(marks)
    ensures Words(marks) + Bumps(marks) == |marks|
  {
    if marks != [] {
      PlaceLength(marks[..|marks| - 1], pos, meta, context);
    }
  }

  /** Strictly rising positions after `lo`, up to `hi`. */
  predicate Rising(items: seq<Item>, lo: nat, hi: nat) {
    && (forall k :: 0 <= k < |items| ==> lo < items[k].pos <= hi)
    && (forall i, k :: 0 <= i < k < |items| ==> items[i].pos < items[k].pos)
  }

  lemma RisingSnoc(items: seq<Item>, i: Item, lo: nat, hi: nat)
    requires Rising(items, lo, hi) && i.pos == hi + 1 && lo <= hi
    ensures Rising(items + [i], lo, hi + 1) && Rising(items, lo, hi + 1)
  {
  }

  /** Positions rise strictly and stay within the stretch the call takes up. */
  lemma {:induction false} PositionsRise(marks: seq<Mark>, pos: nat, meta: string, context: string)
    ensures Rising(Place(marks, pos, meta, context), pos, pos + |marks|)
  {
    hide Rising;
    if marks == [] {
      NoneRise(pos);
    } else {
      var k := |marks| - 1;
      PositionsRise(marks[..k], pos, meta, context);
      RisingSnoc(Place(marks[..k], pos, meta, context), Item("", pos + |marks|, meta, context), pos, pos + k);
      if marks[k].Word? {
        RisingSnoc(Place(marks[..k], pos, meta, context), Item(marks[k].value, pos + |marks|, meta, context), pos,
                   pos + k);
      } else {
        assert Place(marks[..k], pos, meta, context) + [] == Place(marks[..k], pos, meta, context);
      }
    }
  }

  lemma NoneRise(pos: nat)
    ensures Rising([], pos, pos)
  {
  }

  lemma {:induction false} BumpsConcat(a: seq<Mark>, b: seq<Mark>)
    ensures Bumps(a + b) == Bumps(a) + Bumps(b)
  {
    if b == [] {
      assert a + b == a;
    } else {
      var k := |b| - 1;
      BumpsConcat(a, b[..k]);
      assert (a + b)[..|a + b| - 1] == a + b[..k];
    }
  }

  lemma {:induction false} ChunksNoBumps(lens: Lengths, w: string, atEnd: bool)
    requires lens.max >= 2
    ensures Bumps(Chunks(lens, w, atEnd)) == 0
    decreases |w|
  {
    if |w| > lens.max {
      ChunksNoBumps(lens, w[lens.max..], atEnd);
      BumpsConcat(Chunk(lens, w[..lens.max], false), Chunks(lens, w[lens.max..], atEnd));
    }
  }

  lemma {:induction false} BumpersConcat(a: string, b: string)
    ensures Bumpers(a + b) == Bumpers(a) + Bumpers(b)
  {
    if a == "" {
      assert a + b == b;
    } else {
      BumpersConcat(a[1..], b);
      assert (a + b)[1..] == a[1..] + b;
    }
  }

  lemma {:induction false} WordsNoBumpers(w: string)
    requires forall k :: 0 <= k < |w| ==> IsWordChar(w[k])
    ensures Bumpers(w) == 0
  {
    if w != "" {
      WordsNoBumpers(w[1..]);
    }
  }

  /** Every \3 of the text moves the position on once, wherever it stands. */
  lemma {:induction false} ScanBumps(lens: Lengths, s: string, more: bool)
    requires lens.max >= 2
    ensures Bumps(Scan(lens, s, more)) == Bumpers(s)
    decreases |s|
  {
    hide Chunks, ChunkOf;
    if s != "" {
      if IsWordChar(s[0]) {
        var n := RunLength(s);
        var chunks := Chunks(lens, Lower(s[..n]), n == |s| && !more);
        ScanBumps(lens, s[n..], more);
        ChunksNoBumps(lens, Lower(s[..n]), n == |s| && !more);
        BumpsConcat(chunks, Scan(lens, s[n..], more));
        WordsNoBumpers(s[..n]);
        assert s == s[..n] + s[n..];
        BumpersConcat(s[..n], s[n..]);
      } else {
        ScanBumps(lens, s[1..], more);
        var first: seq<Mark> := if s[0] == BUMPER then [Bump] else [];
        BumpsConcat(first, Scan(lens, s[1..], more));
        assert first == [Bump] ==> first[..0] == [];
      }
    }
  }

  /** After a call the list's position has moved by its tokens and the \3 bytes of the text. */
  lemma PositionAfter(lens: Lengths, s: string, pos: nat, meta: string, context: string)
    requires lens.max >= 2
    ensures |Scan(lens, s, false)| == |Place(Scan(lens, s, false), pos, meta, context)| + Bumpers(s)
  {
    hide Scan, Place;
    ScanBumps(lens, s, false);
    PlaceLength(Scan(lens, s, false), pos, meta, context);
  }

  /** The tokens of one run: each has the position right after the one before. */
  lemma RunPositions(lens: Lengths, w: string, atEnd: bool, pos: nat, meta: string, context: string)
    requires lens.max >= 2
    ensures var marks := Chunks(lens, w, atEnd); var items := Place(marks, pos, meta, context);
            && |items| == |marks|
            && forall k :: 0 <= k < |items| ==> items[k].pos == pos + k + 1 && Word(items[k].value) == marks[k]
  {
    hide Chunks, Place, Words, Bumps;
    var marks := Chunks(lens, w, atEnd);
    ChunksNoBumps(lens, w, atEnd);
    PlaceLength(marks, pos, meta, context);
    var items := Place(marks, pos, meta, context);
    forall k | 0 <= k < |items| ensures items[k].pos == pos + k + 1 && Word(items[k].value) == marks[k] {
      var j := KthPosition(marks, pos, meta, context, k);
      assert marks == marks[..j] + marks[j..];
      BumpsConcat(marks[..j], marks[j..]);
      PlaceLength(marks[..j], pos, meta, context);
    }
  }

  /** Byte `i` of the text begins a run of word characters. */
  predicate BeginsRun(s: string, i: nat) {
    i < |s| && IsWordChar(s[i]) && (i > 0 ==> !IsWordChar(s[i - 1]))
  }

  /** The token is a chunk of the run that begins at byte `i`. */
  predicate ChunkOfRun(lens: Lengths, item: Item, s: string, i: nat, more: bool)
    requires lens.max >= 2 && i <= |s|
  {
    var n := RunLength(s[i..]);
    Word(item.value) in Chunks(lens, Lower(s[i..][..n]), i + n == |s| && !more)
  }

  /** Where the run begins that the k-th token of a text comes from. */
  function RunStart(lens: Lengths, s: string, more: bool, k: nat): (i: nat)
    requires lens.max >= 2
    ensures i <= |s|
    decreases |s|
  {
    if s == "" then 0
    else if IsWordChar(s[0]) then
      var n := RunLength(s);
      var c := |Chunks(lens, Lower(s[..n]), n == |s| && !more)|;
      if k < c then 0 else n + RunStart(lens, s[n..], more, k - c)
    else 1 + RunStart(lens, s[1..], more, k)
  }

  /** A later token does not come from an earlier run. */
  lemma {:induction false} RunsRise(lens: Lengths, s: string, more: bool, k: nat, l: nat)
    requires lens.max >= 2 && k <= l
    ensures RunStart(lens, s, more, k) <= RunStart(lens, s, more, l)
    decreases |s|
  {
    hide Chunks, IsWordChar;
    if s != "" {
      if IsWordChar(s[0]) {
        var n := RunLength(s);
        RunsOn(s);
        var c := |Chunks(lens, Lower(s[..n]), n == |s| && !more)|;
        if c <= k {
          RunsRise(lens, s[n..], more, k - c, l - c);
        }
      } else {
        RunsRise(lens, s[1..], more, k, l);
      }
    }
  }

  /** The k-th token, counted from 0, comes from a run of the text, and its position is the old one
      plus k + 1 plus the \3 bytes of the text before that run. */
  lemma {:induction false} TokenPosition(lens: Lengths, s: string, more: bool, pos: nat, meta: string,
                                         context: string, k: nat)
    requires lens.max >= 2 && k < |Place(Scan(lens, s, more), pos, meta, context)|
    ensures var i, item := RunStart(lens, s, more, k), Place(Scan(lens, s, more), pos, meta, context)[k];
            && BeginsRun(s, i) && ChunkOfRun(lens, item, s, i, more)
            && item.pos == pos + k + 1 + Bumpers(s[..i])
    decreases |s|
  {
    hide Place, Chunks, IsWordChar, Bumpers, ChunkOfRun, Scan, RunStart, BeginsRun;
    ScanSplit(lens, s, more, pos, meta, context);
    StartSplit(lens, s, more, k);
    var item := Place(Scan(lens, s, more), pos, meta, context)[k];
    if IsWordChar(s[0]) {
      var n := RunLength(s);
      var run := Chunks(lens, Lower(s[..n]), n == |s| && !more);
      if k < |run| {
        FirstRun(lens, s, more, pos, meta, context, k);
      } else {
        TokenPosition(lens, s[n..], more, pos + |run|, meta, context, k - |run|);
        WordsNoBumpers(s[..n]);
        StartsLater(s[n..], RunStart(lens, s[n..], more, k - |run|));
        assert s[n..][0] == s[n];
        LaterRun(lens, s, n, RunStart(lens, s[n..], more, k - |run|), item, more);
      }
    } else {
      var d := if s[0] == BUMPER then 1 else 0;
      TokenPosition(lens, s[1..], more, pos + d, meta, context, k);
      OneBumper(s);
      LaterRun(lens, s, 1, RunStart(lens, s[1..], more, k), item, more);
    }
  }

  lemma StartsLater(s: string, i: nat)
    requires BeginsRun(s, i)
    ensures s != "" && (i == 0 ==> IsWordChar(s[0]))
  {
  }

  lemma StartSplit(lens: Lengths, s: string, more: bool, k: nat)
    requires lens.max >= 2
    ensures s != "" && IsWordChar(s[0]) ==>
              var n := RunLength(s);
              var c := |Chunks(lens, Lower(s[..n]), n == |s| && !more)|;
              n > 0 && RunStart(lens, s, more, k) == if k < c then 0 else n + RunStart(lens, s[n..], more, k - c)
    ensures s != "" && !IsWordChar(s[0]) ==> RunStart(lens, s, more, k) == 1 + RunStart(lens, s[1..], more, k)
  {
    hide Chunks, IsWordChar;
  }

  /** The items of a text are those of its first run or byte and then those of the rest. */
  lemma ScanSplit(lens: Lengths, s: string, more: bool, pos: nat, meta: string, context: string)
    requires lens.max >= 2
    ensures s == "" ==> Place(Scan(lens, s, more), pos, meta, context) == []
    ensures s != "" && IsWordChar(s[0]) ==>
              var n := RunLength(s);
              var run := Chunks(lens, Lower(s[..n]), n == |s| && !more);
              && 0 < n <= |s| && |Place(run, pos, meta, context)| == |run|
              && Place(Scan(lens, s, more), pos, meta, context)
                 == Place(run, pos, meta, context) + Place(Scan(lens, s[n..], more), pos + |run|, meta, context)
    ensures s != "" && !IsWordChar(s[0]) ==>
              Place(Scan(lens, s, more), pos, meta, context)
              == Place(Scan(lens, s[1..], more), pos + if s[0] == BUMPER then 1 else 0, meta, context)
  {
    hide Place, Chunks, IsWordChar;
    if s == "" {
      PlaceNone(pos, meta, context);
    } else if IsWordChar(s[0]) {
      var n := RunLength(s);
      RunsOn(s);
      RunPositions(lens, Lower(s[..n]), n == |s| && !more, pos, meta, context);
      PlaceConcat(Chunks(lens, Lower(s[..n]), n == |s| && !more), Scan(lens, s[n..], more), pos, meta, context);
    } else {
      var bump := if s[0] == BUMPER then [Bump] else [];
      var rest := Scan(lens, s[1..], more);
      PlaceConcat(bump, rest, pos, meta, context);
      PlaceBump(bump, pos, meta, context);
      var items := Place(rest, pos + |bump|, meta, context);
      assert [] + items == items;
    }
  }

  lemma FirstRun(lens: Lengths, s: string, more: bool, pos: nat, meta: string, context: string, k: nat)
    requires lens.max >= 2 && s != "" && IsWordChar(s[0])
    requires k < |Chunks(lens, Lower(s[..RunLength(s)]), RunLength(s) == |s| && !more)|
    ensures var n := RunLength(s);
            var items := Place(Chunks(lens, Lower(s[..n]), n == |s| && !more), pos, meta, context);
            && k < |items| && items[k].pos == pos + k + 1 + Bumpers(s[..0])
            && ChunkOfRun(lens, items[k], s, 0, more)
    ensures BeginsRun(s, 0)
  {
    hide Place, Chunks, IsWordChar;
    RunPositions(lens, Lower(s[..RunLength(s)]), RunLength(s) == |s| && !more, pos, meta, context);
    NoBumpersYet(s);
    assert s[0..] == s;
  }

  lemma NoBumpersYet(s: string)
    ensures Bumpers(s[..0]) == 0
  {
  }

  lemma OneBumper(s: string)
    requires s != ""
    ensures Bumpers(s[..1]) == if s[0] == BUMPER then 1 else 0
  {
    assert s[..1][1..] == "";
  }

  lemma PlaceBump(bump: seq<Mark>, pos: nat, meta: string, context: string)
    requires bump == [] || bump == [Bump]
    ensures Place(bump, pos, meta, context) == []
  {
    assert [Bump][..0] == [];
  }

  /** A run found behind the first `n` bytes, none of which it can join, is a run of the whole. */
  lemma LaterRun(lens: Lengths, s: string, n: nat, i: nat, item: Item, more: bool)
    requires lens.max >= 2 && 0 < n <= |s| && BeginsRun(s[n..], i)
    requires ChunkOfRun(lens, item, s[n..], i, more) && (i == 0 ==> !IsWordChar(s[n - 1]))
    ensures BeginsRun(s, n + i) && ChunkOfRun(lens, item, s, n + i, more)
    ensures Bumpers(s[..n + i]) == Bumpers(s[..n]) + Bumpers(s[n..][..i])
  {
    hide IsWordChar, Bumpers, Chunks;
    BumpersConcat(s[..n], s[n..][..i]);
    assert s[..n + i] == s[..n] + s[n..][..i];
    assert s[n + i..] == s[n..][i..];
  }

  lemma {:induction false} RunLengthStops(s: string, t: string)
    requires t != "" && !IsWordChar(t[0])
    ensures RunLength(s + t) == RunLength(s)
  {
    if s == "" {
      assert s + t == t;
    } else {
      assert (s + t)[0] == s[0] && (s + t)[1..] == s[1..] + t;
      RunLengthStops(s[1..], t);
    }
  }

  /** A \3 splits the marks of a text, as the end of the input would, except that a lone
      character before it is stripped like any other. */
  lemma {:induction false} ScanAtBumper(lens: Lengths, a: string, b: string, more: bool)
    requires lens.max >= 2
    ensures Scan(lens, a + [BUMPER] + b, more) == Scan(lens, a, true) + [Bump] + Scan(lens, b, more)
    decreases |a|
  {
    hide Chunks, IsWordChar;
    var s, t := a + [BUMPER] + b, [BUMPER] + b;
    assert s == a + t;
    BumperIsNoWord();
    if a == "" {
      assert s[1..] == b;
      assert Scan(lens, s, more) == [Bump] + Scan(lens, b, more);
    } else if IsWordChar(a[0]) {
      var n := RunLength(a);
      RunLengthStops(a, t);
      RunsOn(a);
      assert s[..n] == a[..n] && s[n..] == a[n..] + [BUMPER] + b;
      ScanAtBumper(lens, a[n..], b, more);
      var x := Chunks(lens, Lower(a[..n]), false);
      Assoc(x, Scan(lens, a[n..], true) + [Bump], Scan(lens, b, more));
      Assoc(x, Scan(lens, a[n..], true), [Bump]);
    } else {
      assert s[1..] == a[1..] + [BUMPER] + b;
      ScanAtBumper(lens, a[1..], b, more);
      var x: seq<Mark> := if a[0] == BUMPER then [Bump] else [];
      Assoc(x, Scan(lens, a[1..], true) + [Bump], Scan(lens, b, more));
      Assoc(x, Scan(lens, a[1..], true), [Bump]);
    }
  }

  lemma BumperIsNoWord()
    ensures !IsWordChar(BUMPER)
  {
  }

  lemma RunsOn(s: string)
    requires s != "" && IsWordChar(s[0])
    ensures RunLength(s) >= 1
  {
  }

  /** The tokens of two texts with a \3 between them are never next to each other. */
  lemma BumperSeparates(lens: Lengths, a: string, b: string, pos: nat, meta: string, context: string)
    requires lens.max >= 2
    ensures var before := Place(Scan(lens, a, true), pos, meta, context);
            var after := Place(Scan(lens, b, false), pos + |Scan(lens, a, true)| + 1, meta, context);
            && Place(Scan(lens, a + [BUMPER] + b, false), pos, meta, context) == before + after
            && forall i, k :: 0 <= i < |before| && 0 <= k < |after| ==> before[i].pos + 1 < after[k].pos
  {
    hide Scan, Place;
    var x, y := Scan(lens, a, true), Scan(lens, b, false);
    ScanAtBumper(lens, a, b, false);
    PlaceConcat(x + [Bump], y, pos, meta, context);
    PlaceSnoc(x, Bump, pos, meta, context);
    PositionsRise(x, pos, meta, context);
    PositionsRise(y, pos + |x| + 1, meta, context);
  }

  // ---------------------------------------------------------------- words are words

  /** What a stripped chunk looks like. */
  predicate Proper(lens: Lengths, v: string) {
    && 1 <= |v| <= lens.max && |v| + 1 >= lens.min
    && IsAlnum(v[0]) && IsAlnum(v[|v| - 1])
    && forall k :: 0 <= k < |v| ==> IsWordChar(v[k]) && ToLower(v[k]) == v[k]
  }

  /** A word that may only stand at the end of the input. */
  predicate Lone(v: string) {
    |v| == 1 && IsWordChar(v[0]) && ToLower(v[0]) == v[0]
  }

  predicate ProperMarks(lens: Lengths, marks: seq<Mark>) {
    forall m :: m in marks && m.Word? ==> Proper(lens, m.value)
  }

  /** All proper, save that the last may be a lone character. */
  predicate ProperButLast(lens: Lengths, marks: seq<Mark>) {
    ProperMarks(lens, marks)
    || (marks != [] && ProperMarks(lens, marks[..|marks| - 1])
        && marks[|marks| - 1].Word? && Lone(marks[|marks| - 1].value))
  }

  predicate Lowered(w: string) {
    forall k :: 0 <= k < |w| ==> IsWordChar(w[k]) && ToLower(w[k]) == w[k]
  }

  lemma StripProper(lens: Lengths, w: string)
    requires |w| <= lens.max && Lowered(w)
    ensures ProperMarks(lens, ChunkOf(lens, w))
  {
    hide IsWordChar, IsAlnum, ToLower, StripEnd, StripStart;
    var e := StripEnd(w);
    var r := StripStart(e);
    if r != "" {
      Substring(w, e, r);
      assert r[|r| - 1] == e[|e| - 1];
      assert Proper(lens, r) <== |r| + 1 >= lens.min;
    }
  }

  lemma Substring(w: string, e: string, r: string)
    requires Lowered(w) && e <= w && |r| <= |e| && r == e[|e| - |r|..]
    ensures Lowered(r)
  {
    hide IsWordChar, ToLower;
    forall k | 0 <= k < |r| ensures IsWordChar(r[k]) && ToLower(r[k]) == r[k] {
      assert r[k] == w[|e| - |r| + k];
    }
  }

  lemma {:induction false} ChunksProper(lens: Lengths, w: string, atEnd: bool)
    requires lens.max >= 2 && Lowered(w)
    ensures if atEnd then ProperButLast(lens, Chunks(lens, w, atEnd)) else ProperMarks(lens, Chunks(lens, w, atEnd))
    decreases |w|
  {
    hide Proper, Lone, ChunkOf, IsWordChar, ToLower, ProperMarks, ProperButLast;
    NoMarksProper(lens);
    if w != "" {
      if |w| <= lens.max {
        StripProper(lens, w);
        if atEnd && |w| == 1 {
          LoneMark(lens, w);
        }
      } else {
        var first, rest := Chunk(lens, w[..lens.max], false), Chunks(lens, w[lens.max..], atEnd);
        StripProper(lens, w[..lens.max]);
        ChunksProper(lens, w[lens.max..], atEnd);
        ProperConcat(lens, first, rest);
      }
    }
  }

  lemma NoMarksProper(lens: Lengths)
    ensures ProperMarks(lens, []) && forall marks :: ProperMarks(lens, marks) ==> ProperButLast(lens, marks)
  {
  }

  lemma LoneMark(lens: Lengths, w: string)
    requires Lowered(w) && |w| == 1
    ensures ProperButLast(lens, [Word(w)])
  {
    assert [Word(w)][..0] == [];
  }

  lemma ProperConcat(lens: Lengths, a: seq<Mark>, b: seq<Mark>)
    requires ProperMarks(lens, a)
    ensures ProperMarks(lens, b) ==> ProperMarks(lens, a + b)
    ensures ProperButLast(lens, b) ==> ProperButLast(lens, a + b)
  {
    hide Proper, Lone;
    assert forall m :: m in a + b ==> m in a || m in b;
    if b != [] {
      var k := |b| - 1;
      assert (a + b)[..|a + b| - 1] == a + b[..k];
      assert forall m :: m in a + b[..k] ==> m in a || m in b[..k];
    }
  }

  /** Every word of a text is proper, save a lone character at its very end. */
  lemma {:induction false} ScanProper(lens: Lengths, s: string)
    requires lens.max >= 2
    ensures ProperButLast(lens, Scan(lens, s, false))
    decreases |s|
  {
    hide Chunks, ProperButLast, ProperMarks;
    if s == "" {
      NoMarks(lens);
    } else if IsWordChar(s[0]) {
      var n := RunLength(s);
      var w := Lower(s[..n]);
      ScanProper(lens, s[n..]);
      LowerLowered(s[..n]);
      ChunksProper(lens, w, n == |s|);
      if n == |s| {
        assert Scan(lens, s[n..], false) == [];
        assert Chunks(lens, w, true) + [] == Chunks(lens, w, true);
      } else {
        ProperConcat(lens, Chunks(lens, w, false), Scan(lens, s[n..], false));
      }
    } else {
      ScanProper(lens, s[1..]);
      var first: seq<Mark> := if s[0] == BUMPER then [Bump] else [];
      BumpsProper(lens, first);
      ProperConcat(lens, first, Scan(lens, s[1..], false));
    }
  }

  lemma NoMarks(lens: Lengths)
    ensures ProperButLast(lens, [])
  {
  }

  lemma BumpsProper(lens: Lengths, marks: seq<Mark>)
    requires forall m :: m in marks ==> m == Bump
    ensures ProperMarks(lens, marks)
  {
  }

  lemma LowerLowered(w: string)
    requires forall k :: 0 <= k < |w| ==> IsWordChar(w[k])
    ensures Lowered(Lower(w))
  {
  }

  /** How many word characters the text ends in. */
  function LastRun(s: string): (n: nat)
    ensures n <= |s|
  {
    if s != "" && IsWordChar(s[|s| - 1]) then 1 + LastRun(s[..|s| - 1]) else 0
  }

  /** How long the last chunk of a run of `n` characters is. */
  function LastChunk(max: nat, n: nat): nat
    requires max >= 2
  {
    if n <= max then n else LastChunk(max, n - max)
  }

  /** The last character is no letter or digit and a chunk by itself, and words may be that short. */
  predicate LoneTail(lens: Lengths, s: string)
    requires lens.max >= 2
  {
    lens.min == 1 && LastChunk(lens.max, LastRun(s)) == 1 && !IsAlnum(s[|s| - 1])
  }

  lemma {:induction false} LastRunAfter(s: string, k: nat)
    requires k < |s| && !IsWordChar(s[k])
    ensures LastRun(s) == LastRun(s[k + 1..])
  {
    var last := |s| - 1;
    if k < last && IsWordChar(s[last]) {
      LastRunAfter(s[..last], k);
      assert s[k + 1..][..last - k - 1] == s[..last][k + 1..];
    }
  }

  lemma {:induction false} AllOneRun(s: string)
    requires forall k :: 0 <= k < |s| ==> IsWordChar(s[k])
    ensures LastRun(s) == |s|
  {
    if s != "" {
      AllOneRun(s[..|s| - 1]);
    }
  }

  /** A tail of the text that comes after a character outside words decides. */
  lemma LoneRest(lens: Lengths, s: string, n: nat)
    requires lens.max >= 2 && n <= |s|
    requires (n > 0 && !IsWordChar(s[n - 1])) || (n < |s| && !IsWordChar(s[n]))
    ensures LoneTail(lens, s) <==> LoneTail(lens, s[n..])
  {
    hide IsWordChar, IsAlnum;
    if n > 0 && !IsWordChar(s[n - 1]) {
      LastRunAfter(s, n - 1);
    } else {
      LastRunAfter(s, n);
      LastRunAfter(s[n..], 0);
      assert s[n..][1..] == s[n + 1..];
    }
  }

  lemma ConcatProper(lens: Lengths, a: seq<Mark>, b: seq<Mark>)
    ensures ProperMarks(lens, a + b) <==> ProperMarks(lens, a) && ProperMarks(lens, b)
  {
    hide Proper;
    assert forall m :: m in a + b <==> m in a || m in b;
  }

  lemma {:induction false} ChunksAllProper(lens: Lengths, w: string)
    requires lens.max >= 2 && Lowered(w)
    ensures ProperMarks(lens, Chunks(lens, w, true))
       <==> !(lens.min == 1 && LastChunk(lens.max, |w|) == 1 && !IsAlnum(w[|w| - 1]))
    decreases |w|
  {
    hide Proper, ChunkOf, IsWordChar, IsAlnum, ToLower, ProperMarks;
    if w == "" {
      NoMarksProper(lens);
    } else if |w| <= lens.max {
      StripProper(lens, w);
      LoneProper(lens, w);
      NoMarksProper(lens);
    } else {
      var first, rest := Chunk(lens, w[..lens.max], false), w[lens.max..];
      StripProper(lens, w[..lens.max]);
      ChunksAllProper(lens, rest);
      ConcatProper(lens, first, Chunks(lens, rest, true));
      assert rest[|rest| - 1] == w[|w| - 1];
    }
  }

  lemma LoneProper(lens: Lengths, w: string)
    requires lens.max >= 2 && Lowered(w)
    ensures |w| == 1 && lens.min == 1 ==> (ProperMarks(lens, [Word(w)]) <==> IsAlnum(w[0]))
  {
    hide IsAlnum;
    if |w| == 1 && lens.min == 1 {
      assert Word(w) in [Word(w)];
      assert Proper(lens, w) <==> IsAlnum(w[0]);
    }
  }

  lemma AlnumLower(c: char)
    ensures IsAlnum(ToLower(c)) <==> IsAlnum(c)
  {
  }

  /** Every word of a text is stripped exactly when the text does not end so. */
  lemma {:induction false} ProperExactly(lens: Lengths, s: string)
    requires lens.max >= 2
    ensures ProperMarks(lens, Scan(lens, s, false)) <==> !LoneTail(lens, s)
    decreases |s|
  {
    hide Chunks, ProperMarks, IsWordChar, IsAlnum, LoneTail;
    if s == "" {
      NoMarksProper(lens);
      NoLoneTail(lens);
    } else if IsWordChar(s[0]) {
      var n := RunLength(s);
      var w, rest := Lower(s[..n]), Scan(lens, s[n..], false);
      LowerLowered(s[..n]);
      ConcatProper(lens, Chunks(lens, w, n == |s|), rest);
      if n == |s| {
        NoMarksProper(lens);
        OneRunTail(lens, s);
      } else {
        ChunksProper(lens, w, false);
        LoneRest(lens, s, n);
        ProperExactly(lens, s[n..]);
      }
    } else {
      var first: seq<Mark> := if s[0] == BUMPER then [Bump] else [];
      BumpsProper(lens, first);
      ConcatProper(lens, first, Scan(lens, s[1..], false));
      LoneRest(lens, s, 1);
      ProperExactly(lens, s[1..]);
    }
  }

  lemma NoLoneTail(lens: Lengths)
    requires lens.max >= 2
    ensures !LoneTail(lens, "")
  {
  }

  /** A text that is one run. */
  lemma OneRunTail(lens: Lengths, s: string)
    requires lens.max >= 2 && s != "" && forall k :: 0 <= k < |s| ==> IsWordChar(s[k])
    ensures s[..|s|] == s
    ensures ProperMarks(lens, Chunks(lens, Lower(s), true)) <==> !LoneTail(lens, s)
  {
    hide Chunks, ProperMarks, IsWordChar, IsAlnum;
    LowerLowered(s);
    AllOneRun(s);
    ChunksAllProper(lens, Lower(s));
    AlnumLower(s[|s| - 1]);
  }

  /** Such a text: the word of _ is _ itself, which no stripping would leave. */
  lemma LoneUnderscore(lens: Lengths)
    requires lens.max >= 2 && lens.min == 1
    ensures Scan(lens, "_", false) == [Word("_")] && Strip("_") == "" && LoneTail(lens, "_")
    ensures !ProperMarks(lens, [Word("_")])
  {
    hide Scan, Proper, Strip, LoneTail, IsWordChar, IsAlnum, ProperMarks;
    Underscore(lens);
    ScanWord(lens, "_");
    ProperExactly(lens, "_");
  }

  lemma Underscore(lens: Lengths)
    requires lens.max >= 2 && lens.min == 1
    ensures Lone("_") && Strip("_") == "" && LoneTail(lens, "_")
  {
    OneUnderscore(['_'], '_');
    assert IsWordChar('_') && !IsAlnum('_') && ToLower('_') == '_';
    assert ['_'] == "_";
  }

  lemma OneUnderscore(s: string, c: char)
    requires s == [c] && IsWordChar(c) && !IsAlnum(c)
    ensures Strip(s) == "" && LastRun(s) == 1
  {
    assert s[..0] == "";
  }

  // ---------------------------------------------------------------- tokenizing again

  function Values(marks: seq<Mark>): seq<string> {
    if marks == [] then []
    else (if marks[0].Word? then [marks[0].value] else []) + Values(marks[1..])
  }

  function Spaced(vs: seq<string>): string {
    if vs == [] then "" else if |vs| == 1 then vs[0] else vs[0] + " " + Spaced(vs[1..])
  }

  function AsWords(vs: seq<string>): seq<Mark> {
    seq(|vs|, i requires 0 <= i < |vs| => Word(vs[i]))
  }

  predicate Retokenizes(lens: Lengths, vs: seq<string>) {
    forall i :: 0 <= i < |vs| ==> Proper(lens, vs[i]) || (i == |vs| - 1 && Lone(vs[i]))
  }

  lemma {:induction false} RunOfWord(v: string)
    requires forall k :: 0 <= k < |v| ==> IsWordChar(v[k])
    ensures RunLength(v) == |v|
  {
    if v != "" {
      RunOfWord(v[1..]);
    }
  }

  lemma ProperStrip(lens: Lengths, v: string)
    requires Proper(lens, v) && lens.max >= 2
    ensures Lower(v) == v && ChunkOf(lens, v) == [Word(v)] && Chunks(lens, v, false) == [Word(v)]
  {
    assert StripEnd(v) == v && StripStart(v) == v;
  }

  lemma ScanWord(lens: Lengths, v: string)
    requires lens.max >= 2 && lens.min == 1 && (Proper(lens, v) || Lone(v))
    ensures Scan(lens, v, false) == [Word(v)]
  {
    RunOfWord(v);
    assert v[..|v|] == v && v[|v|..] == "";
    assert Lower(v) == v;
    if Proper(lens, v) {
      ProperStrip(lens, v);
    }
    assert Chunks(lens, v, true) == [Word(v)];
    assert Scan(lens, "", false) == [];
  }

  lemma ScanWordSpace(lens: Lengths, v: string, rest: string)
    requires lens.max >= 2 && Proper(lens, v)
    ensures Scan(lens, v + " " + rest, false) == [Word(v)] + Scan(lens, rest, false)
  {
    hide Scan;
    var t := " " + rest;
    assert v + " " + rest == v + t;
    ScanRun(lens, v, t);
    ProperStrip(lens, v);
    ScanSpace(lens, rest);
  }

  lemma ScanSpace(lens: Lengths, rest: string)
    requires lens.max >= 2
    ensures Scan(lens, " " + rest, false) == Scan(lens, rest, false)
  {
    hide Chunks;
    assert (" " + rest)[1..] == rest;
    assert [] + Scan(lens, rest, false) == Scan(lens, rest, false);
  }

  /** A run and what comes after it are scanned apart. */
  lemma ScanRun(lens: Lengths, v: string, t: string)
    requires lens.max >= 2 && v != "" && (forall k :: 0 <= k < |v| ==> IsWordChar(v[k]))
    requires t != "" && !IsWordChar(t[0])
    ensures Scan(lens, v + t, false) == Chunks(lens, Lower(v), false) + Scan(lens, t, false)
  {
    hide Chunks, IsWordChar;
    RunOfWord(v);
    RunLengthStops(v, t);
    assert (v + t)[..|v|] == v && (v + t)[|v|..] == t;
  }

  lemma {:induction false} ScanSpaced(lens: Lengths, vs: seq<string>)
    requires lens.max >= 2 && lens.min == 1 && Retokenizes(lens, vs)
    ensures Scan(lens, Spaced(vs), false) == AsWords(vs)
  {
    hide Scan, Proper, Lone;
    if vs == [] {
      NothingToScan(lens);
    } else if |vs| == 1 {
      ScanWord(lens, vs[0]);
    } else {
      ScanWordSpace(lens, vs[0], Spaced(vs[1..]));
      assert forall i :: 0 <= i < |vs[1..]| ==> vs[1..][i] == vs[i + 1];
      ScanSpaced(lens, vs[1..]);
      assert AsWords(vs) == [Word(vs[0])] + AsWords(vs[1..]);
    }
  }

  lemma NothingToScan(lens: Lengths)
    requires lens.max >= 2
    ensures Scan(lens, "", false) == []
  {
  }

  lemma {:induction false} ValuesRetokenize(lens: Lengths, marks: seq<Mark>)
    requires ProperButLast(lens, marks)
    ensures Retokenizes(lens, Values(marks))
  {
    hide Proper, Lone;
    if marks != [] {
      var rest := marks[1..];
      assert forall m :: m in rest ==> m in marks;
      if |marks| == 1 {
        assert rest == [];
        assert marks[0] in marks;
      } else {
        assert rest[..|rest| - 1] == marks[..|marks| - 1][1..];
        assert forall m {:trigger m in rest} :: m in rest[..|rest| - 1] ==> m in marks[..|marks| - 1];
        assert marks[0] == marks[..|marks| - 1][0];
        assert marks[0] in marks && marks[0] in marks[..|marks| - 1];
        ValuesRetokenize(lens, rest);
        HeadOfMore(lens, marks);
      }
    }
  }

  /** Only the last value may be lone, and a value that is not last has a later one behind it. */
  lemma HeadOfMore(lens: Lengths, marks: seq<Mark>)
    requires |marks| >= 2 && Retokenizes(lens, Values(marks[1..]))
    requires marks[0].Word? ==> Proper(lens, marks[0].value)
    ensures Retokenizes(lens, Values(marks))
  {
    hide Proper, Lone, Retokenizes;
    MoreInFront(lens, if marks[0].Word? then [marks[0].value] else [], Values(marks[1..]));
  }

  lemma MoreInFront(lens: Lengths, first: seq<string>, rest: seq<string>)
    requires forall i :: 0 <= i < |first| ==> Proper(lens, first[i])
    requires Retokenizes(lens, rest)
    ensures Retokenizes(lens, first + rest)
  {
    hide Proper, Lone;
    forall i | 0 <= i < |first + rest|
      ensures Proper(lens, (first + rest)[i]) || (i == |first + rest| - 1 && Lone((first + rest)[i]))
    {
      if i >= |first| {
        assert (first + rest)[i] == rest[i - |first|];
      }
    }
  }

  /** Tokenizing the words of a text, with a space between each two, gives the same words. */
  lemma TokenizingIsFixed(lens: Lengths, s: string)
    requires lens.max >= 2 && lens.min == 1
    ensures var vs := Values(Scan(lens, s, false));
            Scan(lens, Spaced(vs), false) == AsWords(vs)
  {
    hide Scan;
    ScanProper(lens, s);
    ValuesRetokenize(lens, Scan(lens, s, false));
    ScanSpaced(lens, Values(Scan(lens, s, false)));
  }

  /** Tokenizing one word gives just that word. */
  lemma WordIsFixed(lens: Lengths, s: string, v: string)
    requires lens.max >= 2 && lens.min == 1 && v in Values(Scan(lens, s, false))
    ensures Scan(lens, v, false) == [Word(v)]
  {
    hide Scan, Proper, Lone;
    ScanProper(lens, s);
    ValuesRetokenize(lens, Scan(lens, s, false));
    ScanWord(lens, v);
  }

  // ---------------------------------------------------------------- nothing is lost

  /** The letters and digits of a text. */
  function Letters(s: string): string {
    if s == "" then "" else (if IsAlnum(s[0]) then [s[0]] else "") + Letters(s[1..])
  }

  function Text(marks: seq<Mark>): string {
    if marks == [] then "" else (if marks[0].Word? then marks[0].value else "") + Text(marks[1..])
  }

  lemma {:induction false} LettersConcat(a: string, b: string)
    ensures Letters(a + b) == Letters(a) + Letters(b)
  {
    hide IsAlnum;
    if a == "" {
      assert a + b == b;
    } else {
      LettersConcat(a[1..], b);
      assert (a + b)[0] == a[0] && (a + b)[1..] == a[1..] + b;
      Assoc(if IsAlnum(a[0]) then [a[0]] else "", Letters(a[1..]), Letters(b));
    }
  }

  lemma {:induction false} TextConcat(a: seq<Mark>, b: seq<Mark>)
    ensures Text(a + b) == Text(a) + Text(b)
  {
    if a == [] {
      assert a + b == b;
    } else {
      TextConcat(a[1..], b);
      assert (a + b)[0] == a[0] && (a + b)[1..] == a[1..] + b;
      Assoc(if a[0].Word? then a[0].value else "", Text(a[1..]), Text(b));
    }
  }

  lemma {:induction false} LettersStripEnd(w: string)
    ensures Letters(StripEnd(w)) == Letters(w)
  {
    if w != "" && !IsAlnum(w[|w| - 1]) {
      LettersStripEnd(w[..|w| - 1]);
      assert w == w[..|w| - 1] + [w[|w| - 1]];
      LettersConcat(w[..|w| - 1], [w[|w| - 1]]);
    }
  }

  lemma {:induction false} LettersStripStart(w: string)
    ensures Letters(StripStart(w)) == Letters(w)
  {
    if w != "" && !IsAlnum(w[0]) {
      LettersStripStart(w[1..]);
    }
  }

  lemma ChunkLetters(lens: Lengths, w: string, atEnd: bool)
    requires lens.min == 1
    ensures Letters(Text(Chunk(lens, w, atEnd))) == Letters(w)
  {
    hide Letters, Text, StripEnd, StripStart, IsAlnum;
    LettersStripEnd(w);
    LettersStripStart(StripEnd(w));
    TextOfOne(w);
    TextOfOne(Strip(w));
    NoLetters();
  }

  lemma TextOfOne(v: string)
    ensures Text([Word(v)]) == v
  {
    assert [Word(v)][1..] == [] && v + "" == v;
  }

  lemma {:induction false} ChunksLetters(lens: Lengths, w: string, atEnd: bool)
    requires lens.max >= 2 && lens.min == 1
    ensures Letters(Text(Chunks(lens, w, atEnd))) == Letters(w)
    decreases |w|
  {
    hide Chunk, Letters, Text;
    if w == "" {
      NoLetters();
    } else if |w| <= lens.max {
      ChunkLetters(lens, w, atEnd);
    } else {
      var x, y := Chunk(lens, w[..lens.max], false), Chunks(lens, w[lens.max..], atEnd);
      ChunkLetters(lens, w[..lens.max], false);
      ChunksLetters(lens, w[lens.max..], atEnd);
      TextConcat(x, y);
      LettersConcat(Text(x), Text(y));
      LettersConcat(w[..lens.max], w[lens.max..]);
      assert w == w[..lens.max] + w[lens.max..];
    }
  }

  lemma NoLetters()
    ensures Letters("") == "" && Text([]) == ""
  {
  }

  /** The words of a text hold exactly its letters and digits, lowercased, in order. */
  lemma {:induction false} NoLetterLost(lens: Lengths, s: string, more: bool)
    requires lens.max >= 2 && lens.min == 1
    ensures Letters(Text(Scan(lens, s, more))) == Letters(Lower(s))
    decreases |s|
  {
    hide Chunks, Letters, Text;
    if s == "" {
      NoLetters();
      assert Lower(s) == "";
    } else if IsWordChar(s[0]) {
      var n := RunLength(s);
      var x, y := Chunks(lens, Lower(s[..n]), n == |s| && !more), Scan(lens, s[n..], more);
      ChunksLetters(lens, Lower(s[..n]), n == |s| && !more);
      NoLetterLost(lens, s[n..], more);
      TextConcat(x, y);
      LettersConcat(Text(x), Text(y));
      assert Lower(s) == Lower(s[..n]) + Lower(s[n..]);
      LettersConcat(Lower(s[..n]), Lower(s[n..]));
    } else {
      var x: seq<Mark> := if s[0] == BUMPER then [Bump] else [];
      NoLetterLost(lens, s[1..], more);
      TextConcat(x, Scan(lens, s[1..], more));
      assert Lower(s) == [ToLower(s[0])] + Lower(s[1..]);
      LettersConcat([ToLower(s[0])], Lower(s[1..]));
      OddLetters(s[0]);
      assert Text(x) == "" by { BumpsNoText(x); }
      assert Text(x) + Text(Scan(lens, s[1..], more)) == Text(Scan(lens, s[1..], more));
      assert "" + Letters(Lower(s[1..])) == Letters(Lower(s[1..]));
    }
  }

  lemma BumpsNoText(x: seq<Mark>)
    requires x == [] || x == [Bump]
    ensures Text(x) == ""
  {
  }

  lemma OddLetters(c: char)
    requires !IsWordChar(c)
    ensures Letters([ToLower(c)]) == ""
  {
    assert [ToLower(c)][1..] == "";
  }
}
