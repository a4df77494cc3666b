/** The ASCII tokenizer of tokenizer.c: a character machine that cuts text into words, and the
    declarative reading of the text it computes. */
module Tokenizer {
  import opened CString
  import opened NamedBuffers
  import opened Seqs
  import opened TokenLists

  // ---------------------------------------------------------------- character classes

  predicate IsAlnum(c: char) {
    '0' <= c <= '9' || 'a' <= c <= 'z' || 'A' <= c <= 'Z'
  }

  /** iscntrl() and ispunct() in the C and UTF-8 locales, for ASCII. */
  predicate IsCntrl(c: char) {
    c < ' ' || c == '\U{7F}'
  }

  predicate IsPunct(c: char) {
    '!' <= c <= '/' || ':' <= c <= '@' || '[' <= c <= '`' || '{' <= c <= '~'
  }

  predicate IgnoredAtEnds(c: char) {
    c == NUL || IsSpace(c) || IsCntrl(c) || IsPunct(c)
  }

  predicate IgnoredInWord(c: char) {
    c != '\'' && c != '_' && IgnoredAtEnds(c)
  }

  predicate IsWordChar(c: char) {
    IsAlnum(c) || c == '\'' || c == '_'
  }

  predicate Ascii(s: string) {
    forall c :: c in s ==> c < '\U{80}'
  }

  /** The lookup tables; DEL is never filled in and stays 0. */
  class AsciiTables {
    const word: array<bool>
    const start: array<bool>
    const end: array<bool>

    ghost predicate Valid()
      reads word, start, end
    {
      && word.Length == start.Length == end.Length == 128
      && forall i :: 0 <= i < 128 ==>
           && (word[i] <==> IsWordChar(i as char))
           && (start[i] <==> IsAlnum(i as char))
           && (end[i] <==> IsAlnum(i as char))
    }

    /** make_ascii_tables */
    constructor ()
      ensures Valid() && fresh(word) && fresh(start) && fresh(end)
    {
      word := new bool[128](_ => false);
      start := new bool[128](_ => false);
      end := new bool[128](_ => false);
      new;
      var i := 0;
      while i < 127
        invariant 0 <= i <= 127
        invariant word != start && word != end && start != end && fresh(word) && fresh(start) && fresh(end)
        invariant forall k :: i <= k < 128 ==> !word[k] && !start[k] && !end[k]
        invariant forall k :: 0 <= k < i ==>
          && (word[k] <==> IsWordChar(k as char))
          && (start[k] <==> IsAlnum(k as char)) && (end[k] <==> IsAlnum(k as char))
      {
        word[i] := !IgnoredInWord(i as char);
        end[i] := !IgnoredAtEnds(i as char);
        start[i] := !IgnoredAtEnds(i as char);
        i := i + 1;
      }
    }
  }

  // ---------------------------------------------------------------- what a text says

  /** In order of position: a word, or a \3 that keeps its neighbours apart. */
  datatype Mark = Word(value: string) | Bump

  /** Without the trailing characters that are no letter or digit. */
  function StripEnd(w: string): (r: string)
    ensures r <= w && (r != "" ==> IsAlnum(r[|r| - 1]))
  {
    if w != "" && !IsAlnum(w[|w| - 1]) then StripEnd(w[..|w| - 1]) else w
  }

  /** Without the leading ones. */
  function StripStart(w: string): (r: string)
    ensures |r| <= |w| && r == w[|w| - |r|..] && (r != "" ==> IsAlnum(r[0]))
  {
    if w != "" && !IsAlnum(w[0]) then StripStart(w[1..]) else w
  }

  function Strip(w: string): string {
    StripStart(StripEnd(w))
  }

  datatype Lengths = Lengths(min: nat, max: nat)

  /** A chunk the way most chunks end: stripped, and dropped when nothing or too little is left. */
  function ChunkOf(lens: Lengths, w: string): seq<Mark> {
    if Strip(w) != "" && |Strip(w)| + 1 >= lens.min then [Word(Strip(w))] else []
  }

  /** One chunk of a run.  A single character that ends the input is taken as it is, or with
      another minimum than 1 is never finished. */
  function Chunk(lens: Lengths, w: string, atEnd: bool): seq<Mark> {
    if atEnd && |w| == 1 then (if lens.min == 1 then [Word(w)] else []) else ChunkOf(lens, w)
  }

  /** A run is cut into chunks of the maximum length. */
  function Chunks(lens: Lengths, w: string, atEnd: bool): seq<Mark>
    requires lens.max >= 2
    decreases |w|
  {
    if w == "" then []
    else if |w| <= lens.max then Chunk(lens, w, atEnd)
    else Chunk(lens, w[..lens.max], false) + Chunks(lens, w[lens.max..], atEnd)
  }

  /** How far the run of word characters at the front of `s` goes. */
  function RunLength(s: string): (n: nat)
    ensures n <= |s|
    ensures forall i :: 0 <= i < n ==> IsWordChar(s[i])
    ensures n < |s| ==> !IsWordChar(s[n])
  {
    if s != "" && IsWordChar(s[0]) then 1 + RunLength(s[1..]) else 0
  }

  /** The marks of a text: maximal runs of word characters, lowercased and cut, and bumps.
      `more` says that the input goes on after `s`. */
  function Scan(lens: Lengths, s: string, more: bool): seq<Mark>
    requires lens.max >= 2
    decreases |s|
  {
    if s == "" then []
    else if IsWordChar(s[0]) then
      var n := RunLength(s);
      Chunks(lens, Lower(s[..n]), n == |s| && !more) + Scan(lens, s[n..], more)
    else (if s[0] == BUMPER then [Bump] else []) + Scan(lens, s[1..], more)
  }

  /** The items of a list of marks: every mark moves the position on by one. */
  function Place(marks: seq<Mark>, pos: nat, meta: string, context: string): seq<Item> {
    if marks == [] then []
    else
      var k := |marks| - 1;
      Place(marks[..k], pos, meta, context)
      + (if marks[k].Word? then [Item(marks[k].value, pos + |marks|, meta, context)] else [])
  }

  // ---------------------------------------------------------------- the machine

  /** The marks still to come from a pending chunk `w` and the rest of the input. */
  function Pending(lens: Lengths, w: string, s: string): seq<Mark>
    requires lens.max >= 2
  {
    var n := RunLength(s);
    Chunks(lens, w + Lower(s[..n]), n == |s|) + Scan(lens, s[n..], false)
  }

  lemma NothingPending(lens: Lengths, s: string)
    requires lens.max >= 2
    ensures Pending(lens, "", s) == Scan(lens, s, false)
  {
    var n := RunLength(s);
    assert "" + Lower(s[..n]) == Lower(s[..n]);
    if n == 0 {
      assert s[n..] == s;
      assert Lower(s[..n]) == "";
    }
  }

  /** A character that is no word character ends the pending chunk. */
  lemma PendingStops(lens: Lengths, w: string, s: string)
    requires lens.max > |w| && lens.max >= 2 && s != "" && !IsWordChar(s[0])
    ensures Pending(lens, w, s)
         == (if w == "" then [] else Chunk(lens, w, false))
            + (if s[0] == BUMPER then [Bump] else []) + Scan(lens, s[1..], false)
  {
    hide Chunk, IsWordChar;
    assert RunLength(s) == 0;
    assert w + Lower(s[..0]) == w;
    assert s[0..] == s;
    assert Chunks(lens, w, false) == if w == "" then [] else Chunk(lens, w, false);
    Assoc(Chunks(lens, w, false), if s[0] == BUMPER then [Bump] else [], Scan(lens, s[1..], false));
  }

  /** A word character joins it. */
  lemma PendingGrows(lens: Lengths, w: string, s: string)
    requires lens.max >= 2 && s != "" && IsWordChar(s[0])
    ensures Pending(lens, w, s) == Pending(lens, w + [ToLower(s[0])], s[1..])
  {
    var n := RunLength(s);
    assert Lower(s[..n]) == [ToLower(s[0])] + Lower(s[1..][..n - 1]);
    assert w + Lower(s[..n]) == (w + [ToLower(s[0])]) + Lower(s[1..][..n - 1]);
    assert s[n..] == s[1..][n - 1..];
  }

  /** The marks once a character outside words has ended the pending word `w`. */
  function MarksWhenStopped(lens: Lengths, marks: seq<Mark>, w: string, c: char): seq<Mark>
    requires lens.max >= 2
  {
    (marks + (if w == "" then [] else ChunkOf(lens, w))) + (if c == BUMPER then [Bump] else [])
  }

  lemma Stopped(lens: Lengths, marks: seq<Mark>, w: string, s: string)
    requires lens.max > |w| && lens.max >= 2 && s != "" && !IsWordChar(s[0])
    ensures MarksWhenStopped(lens, marks, w, s[0]) + Pending(lens, "", s[1..]) == marks + Pending(lens, w, s)
  {
    hide Chunk, ChunkOf, IsWordChar, Pending, Scan;
    PendingStops(lens, w, s);
    NothingPending(lens, s[1..]);
    ChunkBefore(lens, w);
    Regroup(marks, if w == "" then [] else ChunkOf(lens, w), if s[0] == BUMPER then [Bump] else [],
            Scan(lens, s[1..], false));
  }

  lemma ChunkBefore(lens: Lengths, w: string)
    requires lens.max >= 2
    ensures w != "" ==> Chunk(lens, w, false) == ChunkOf(lens, w)
  {
    hide ChunkOf;
  }

  lemma FinishedAt(lens: Lengths, marks: seq<Mark>, w: string, s: string)
    requires 1 <= |w| <= lens.max && lens.max >= 2
    requires |w| == lens.max || s == ""
    ensures (marks + Chunk(lens, w, s == "")) + Pending(lens, "", s) == marks + Pending(lens, w, s)
  {
    hide Chunk, Pending, Scan;
    PendingCut(lens, w, s);
    NothingPending(lens, s);
    Assoc(marks, Chunk(lens, w, s == ""), Scan(lens, s, false));
  }

  /** A full chunk, or the end of the input, finishes it. */
  lemma PendingCut(lens: Lengths, w: string, s: string)
    requires 1 <= |w| <= lens.max && lens.max >= 2
    requires |w| == lens.max || s == ""
    ensures Pending(lens, w, s) == Chunk(lens, w, s == "") + Scan(lens, s, false)
  {
    var n := RunLength(s);
    var run := Lower(s[..n]);
    NothingPending(lens, s);
    if n == 0 {
      assert w + run == w;
    } else {
      assert (w + run)[..lens.max] == w && (w + run)[lens.max..] == run;
    }
  }

  lemma PlaceSnoc(marks: seq<Mark>, m: Mark, pos: nat, meta: string, context: string)
    ensures Place(marks + [m], pos, meta, context)
         == Place(marks, pos, meta, context)
            + (if m.Word? then [Item(m.value, pos + |marks| + 1, meta, context)] else [])
  {
    assert (marks + [m])[..|marks|] == marks;
  }

  lemma {:induction false} PlaceConcat(a: seq<Mark>, b: seq<Mark>, pos: nat, meta: string, context: string)
    ensures Place(a + b, pos, meta, context) == Place(a, pos, meta, context) + Place(b, pos + |a|, meta, context)
  {
    if b == [] {
      assert a + b == a;
    } else {
      var k := |b| - 1;
      PlaceConcat(a, b[..k], pos, meta, context);
      assert a + b == (a + b[..k]) + [b[k]];
      assert b == b[..k] + [b[k]];
      PlaceSnoc(a + b[..k], b[k], pos, meta, context);
      PlaceSnoc(b[..k], b[k], pos + |a|, meta, context);
    }
  }

  lemma PlaceChunk(lens: Lengths, w: string, pos: nat, meta: string, context: string)
    ensures Place(ChunkOf(lens, w), pos, meta, context)
         == if ChunkOf(lens, w) == [] then [] else [Item(Strip(w), pos + 1, meta, context)]
  {
    if ChunkOf(lens, w) != [] {
      PlaceSnoc([], Word(Strip(w)), pos, meta, context);
      assert [] + [Word(Strip(w))] == ChunkOf(lens, w);
    }
  }

  lemma WordsNoNul(w: string)
    requires forall k :: 0 <= k < |w| ==> IsWordChar(w[k])
    ensures NoNul(w)
  {
  }

  lemma StripStartStep(w: string)
    ensures w != "" && !IsAlnum(w[0]) ==> StripStart(w) == StripStart(w[1..])
    ensures w == "" || IsAlnum(w[0]) ==> StripStart(w) == w
  {
  }

  lemma PlaceNone(pos: nat, meta: string, context: string)
    ensures Place([], pos, meta, context) == []
  {
  }

  lemma Regroup<T>(a: seq<T>, b: seq<T>, c: seq<T>, d: seq<T>)
    ensures a + (b + c + d) == ((a + b) + c) + d
    ensures a + (c + d) == (a + c) + d
  {
  }

  lemma ListLength(tl: TokenList)
    requires tl.Valid()
    ensures tl.n == |tl.items|
  {
  }

  /** What the loop knows of the character it is at. */
  lemma CharAt(buf: string, i: nat, c: char)
    requires i < |buf| && Ascii(buf) && NoNul(buf) && c == ToLower(buf[i])
    ensures c < '\U{80}' && c != NUL && (IsWordChar(c) <==> IsWordChar(buf[i])) && (c == BUMPER <==> buf[i] == BUMPER)
    ensures buf[i..][0] == buf[i] && buf[i..][1..] == buf[i + 1..]
    ensures i + 1 < |buf| ==> ToLower(buf[i + 1]) != NUL
  {
    assert buf[i] in buf;
    assert i + 1 < |buf| ==> buf[i + 1] in buf;
  }

  /** At the end of the input only a lone character that is never finished can be pending. */
  lemma LoneLast(lens: Lengths, w: string)
    requires lens.max >= 2 && |w| <= 1 && (w != "" ==> lens.min != 1)
    ensures Pending(lens, w, "") == []
  {
    assert w + Lower("") == w;
  }

  lemma NoNulTail(w: string, i: nat)
    requires NoNul(w) && i <= |w|
    ensures NoNul(w[i..])
  {
  }

  /** swish_TokenIterator, swish_Analyzer and the scratch array of one call, which has a slot
      for the NUL of a chunk of the full length. */
  class AsciiTokenizer {
    const tl: TokenList
    const tables: AsciiTables
    const lens: Lengths
    const token: array<char>

    ghost predicate Valid()
      reads this, tl, tl.tokens, tl.refs, tables.word, tables.start, tables.end, token
    {
      && tl.Valid() && tables.Valid() && lens.max >= 2 && token.Length == lens.max + 1
    }

    constructor (tl: TokenList, tables: AsciiTables, lens: Lengths)
      requires tl.Valid() && tables.Valid() && lens.max >= 2
      ensures Valid() && this.tl == tl && this.tables == tables && this.lens == lens && fresh(token)
    {
      this.tl, this.tables, this.lens := tl, tables, lens;
      token := new char[lens.max + 1](_ => NUL);
    }

    /** The end characters' half of strip_ascii_chrs: each one becomes a NUL. */
    method StripTail(len: nat) returns (i: nat)
      requires tables.Valid() && 1 <= len <= token.Length && token[len - 1] == NUL
      requires forall k :: 0 <= k < len - 1 ==> IsWordChar(token[k])
      modifies token
      ensures i < len && token[i] == NUL && token[..i] == StripEnd(old(token[..len - 1]))
    {
      ghost var w := token[..len - 1];
      token[len - 1] := NUL;
      i := len - 1;
      assert w[..i] == w;
      while i > 0 && !tables.end[token[i - 1] as int]
        invariant i < len && token[i] == NUL
        invariant token[..i] == w[..i] && StripEnd(w[..i]) == StripEnd(w)
        invariant forall k :: 0 <= k < i ==> IsWordChar(token[k])
      {
        assert w[..i][..i - 1] == w[..i - 1];
        i := i - 1;
        assert token[i] == w[..i + 1][i];
        token[i] := NUL;
      }
      assert i > 0 ==> token[..i][i - 1] == token[i - 1];
    }

    /** The start characters' half: how many to skip, */
    method HeadLength(ghost n: nat) returns (i: nat)
      requires tables.Valid() && n < token.Length && token[n] == NUL
      requires forall k :: 0 <= k < n ==> IsWordChar(token[k])
      ensures i <= n && StripStart(token[..n]) == token[i..n]
    {
      hide StripStart;
      ghost var w := token[..n];
      i := 0;
      assert w[0..] == w;
      while token[i] != NUL && !tables.start[token[i] as int]
        invariant 0 <= i <= n && StripStart(w[i..]) == StripStart(w)
        decreases n - i
      {
        assert token[i] == w[i..][0];
        assert w[i..][1..] == w[i + 1..];
        StripStartStep(w[i..]);
        i := i + 1;
      }
      assert i < n ==> w[i..][0] == token[i];
      StripStartStep(w[i..]);
    }

    /** and the rest moved down over them. */
    method MoveDown(i: nat, ghost n: nat)
      requires i <= n < token.Length && token[n] == NUL && NoNul(token[..n])
      modifies token
      ensures token[..n - i] == old(token[i..n]) && token[n - i] == NUL
    {
      ghost var w := token[i..n];
      assert forall m :: 0 <= m < |w| ==> w[m] == token[..n][i + m];
      if i != 0 {
        var k, j := i, 0;
        while token[k] != NUL
          invariant i <= k <= n && j == k - i && token[n] == NUL
          invariant forall m :: 0 <= m < j ==> token[m] == w[m]
          invariant forall m :: k <= m < n ==> token[m] == w[m - i]
          decreases n - k
        {
          token[j] := token[k];
          j, k := j + 1, k + 1;
        }
        token[j] := NUL;
      }
    }

    /** xmlStrlen of the scratch array */
    method TokenLength(ghost n: nat) returns (len: nat)
      requires n < token.Length && token[n] == NUL && NoNul(token[..n])
      ensures len == n
    {
      len := 0;
      while token[len] != NUL
        invariant len <= n
        decreases n - len
      {
        len := len + 1;
      }
      assert forall k :: 0 <= k < n ==> token[k] == token[..n][k];
    }

    /** strip_ascii_chrs: `len` counts the NUL, and so does the length returned. */
    method StripAsciiChrs(len: nat) returns (wlen: nat)
      requires tables.Valid() && 1 <= len <= token.Length && token[len - 1] == NUL
      requires forall k :: 0 <= k < len - 1 ==> IsWordChar(token[k])
      modifies token
      ensures 1 <= wlen <= len && token[wlen - 1] == NUL && NoNul(token[..wlen - 1])
      ensures token[..wlen - 1] == Strip(old(token[..len - 1]))
    {
      hide StripStart, StripEnd, IsWordChar, IsAlnum, NoNul;
      ghost var w := token[..len - 1];
      var n := StripTail(len);
      ghost var stem := token[..n];
      assert stem <= w;
      assert forall k :: 0 <= k < n ==> token[k] == stem[k] == w[k];
      var i := HeadLength(n);
      WordsNoNul(stem);
      NoNulTail(stem, i);
      assert token[i..n] == stem[i..];
      MoveDown(i, n);
      wlen := TokenLength(n - i);
      wlen := wlen + 1;
    }

    /** Put the NUL behind a finished chunk, strip it and add what is left. */
    method FinishChunk(tokenLen: nat, meta: string, context: string)
      requires Valid() && 1 <= tokenLen <= lens.max && meta in tl.refs.cnt
      requires forall k :: 0 <= k < tokenLen ==> IsWordChar(token[k])
      modifies token, tl, tl.tokens, tl.refs
      ensures Valid() && (tl.tokens == old(tl.tokens) || fresh(tl.tokens))
      ensures tl.refs.cnt.Keys == old(tl.refs.cnt).Keys && tl.Elsewhere() == old(tl.Elsewhere())
      ensures tl.items == old(tl.items) + Place(ChunkOf(lens, old(token[..tokenLen])), old(tl.pos), meta, context)
      ensures tl.pos == old(tl.pos) + |ChunkOf(lens, old(token[..tokenLen]))|
    {
      hide IsWordChar, IsAlnum, LaidOut, Packed, Capacity, Strip, TokenList.Elsewhere;
      token[tokenLen] := NUL;
      assert token[..tokenLen] == old(token[..tokenLen]);
      var len := StripAsciiChrs(tokenLen + 1);
      ghost var value := token[..len - 1];
      PlaceChunk(lens, old(token[..tokenLen]), tl.pos, meta, context);
      assert token[..len][..len - 1] == value;
      if token[0] != NUL && len >= lens.min {
        var _ := tl.AddToken(token[..len], meta, context);
      }
    }

    /** A finished chunk added after `marks`. */
    method AddChunk(tokenLen: nat, meta: string, context: string, ghost items: seq<Item>, ghost pos: nat,
                    ghost marks: seq<Mark>)
      requires Valid() && 1 <= tokenLen <= lens.max && meta in tl.refs.cnt
      requires forall k :: 0 <= k < tokenLen ==> IsWordChar(token[k])
      requires tl.items == items + Place(marks, pos, meta, context) && tl.pos == pos + |marks|
      modifies token, tl, tl.tokens, tl.refs
      ensures Valid() && (tl.tokens == old(tl.tokens) || fresh(tl.tokens))
      ensures tl.refs.cnt.Keys == old(tl.refs.cnt).Keys && tl.Elsewhere() == old(tl.Elsewhere())
      ensures var more := marks + ChunkOf(lens, old(token[..tokenLen]));
              tl.items == items + Place(more, pos, meta, context) && tl.pos == pos + |more|
    {
      hide Place, ChunkOf, IsWordChar, LaidOut, Capacity, TokenList.Elsewhere;
      PlaceConcat(marks, ChunkOf(lens, token[..tokenLen]), pos, meta, context);
      FinishChunk(tokenLen, meta, context);
    }

    /** The one-character word at the end of the input, added as it is. */
    method AddLast(meta: string, context: string, ghost items: seq<Item>, ghost pos: nat, ghost marks: seq<Mark>)
      requires Valid() && meta in tl.refs.cnt && IsWordChar(token[0])
      requires tl.items == items + Place(marks, pos, meta, context) && tl.pos == pos + |marks|
      modifies token, tl, tl.tokens, tl.refs
      ensures Valid() && (tl.tokens == old(tl.tokens) || fresh(tl.tokens))
      ensures tl.refs.cnt.Keys == old(tl.refs.cnt).Keys && tl.Elsewhere() == old(tl.Elsewhere())
      ensures var more := marks + [Word([old(token[0])])];
              tl.items == items + Place(more, pos, meta, context) && tl.pos == pos + |more|
    {
      hide Place, LaidOut, Capacity, TokenList.Elsewhere;
      PlaceSnoc(marks, Word([token[0]]), pos, meta, context);
      token[1] := NUL;
      assert token[..2][..1] == [token[0]];
      var _ := tl.AddToken(token[..2], meta, context);
    }

    /** A character outside every word: the word it ends, if any, then the bump it may be. */
    method IgnoreChar(c: char, tokenLen: nat, insideToken: bool, meta: string, context: string,
                      ghost items: seq<Item>, ghost pos: nat, ghost marks: seq<Mark>)
      requires Valid() && meta in tl.refs.cnt
      requires insideToken ==> 1 <= tokenLen <= lens.max && forall k :: 0 <= k < tokenLen ==> IsWordChar(token[k])
      requires tl.items == items + Place(marks, pos, meta, context) && tl.pos == pos + |marks|
      modifies token, tl, tl.tokens, tl.refs
      ensures Valid() && (tl.tokens == old(tl.tokens) || fresh(tl.tokens))
      ensures tl.refs.cnt.Keys == old(tl.refs.cnt).Keys && tl.Elsewhere() == old(tl.Elsewhere())
      ensures var more := MarksWhenStopped(lens, marks, if insideToken then old(token[..tokenLen]) else "", c);
              tl.items == items + Place(more, pos, meta, context) && tl.pos == pos + |more|
    {
      hide Place, ChunkOf, LaidOut, Capacity, IsWordChar, AsciiTables.Valid, TokenList.Elsewhere;
      ghost var after := marks;
      if insideToken {
        after := marks + ChunkOf(lens, token[..tokenLen]);
        AddChunk(tokenLen, meta, context, items, pos, marks);
      } else {
        assert marks + [] == marks;
      }
      if c == BUMPER {
        PlaceSnoc(after, Bump, pos, meta, context);
        tl.pos := tl.pos + 1;
      } else {
        assert after + [] == after;
      }
    }

    /** A word character: it joins the pending word or starts one, which may be complete with it. */
    method TakeChar(c: char, atEnd: bool, tokenLen0: nat, insideToken0: bool, meta: string, context: string,
                    ghost items: seq<Item>, ghost pos: nat, ghost marks: seq<Mark>, ghost w: string)
      returns (tokenLen: nat, insideToken: bool)
      requires Valid() && meta in tl.refs.cnt && IsWordChar(c)
      requires if insideToken0 then 1 <= tokenLen0 < lens.max && w == token[..tokenLen0] else w == ""
      requires forall k :: 0 <= k < |w| ==> IsWordChar(w[k])
      requires tl.items == items + Place(marks, pos, meta, context) && tl.pos == pos + |marks|
      modifies token, tl, tl.tokens, tl.refs
      ensures Valid() && (tl.tokens == old(tl.tokens) || fresh(tl.tokens))
      ensures tl.refs.cnt.Keys == old(tl.refs.cnt).Keys && tl.Elsewhere() == old(tl.Elsewhere())
      ensures !insideToken <==> (atEnd && (insideToken0 || lens.min == 1)) || |w| + 1 == lens.max
      ensures insideToken ==> tokenLen == |w| + 1 < lens.max && token[..tokenLen] == w + [c]
      ensures var more := if insideToken then marks else marks + Chunk(lens, w + [c], atEnd);
              tl.items == items + Place(more, pos, meta, context) && tl.pos == pos + |more|
    {
      hide Place, ChunkOf, LaidOut, Capacity, IsWordChar, AsciiTables.Valid, TokenList.Elsewhere;
      tokenLen, insideToken := tokenLen0, insideToken0;
      if insideToken {
        PutChar(tokenLen, c);
        tokenLen := tokenLen + 1;
        if tokenLen >= lens.max || atEnd {
          insideToken := false;
          AddChunk(tokenLen, meta, context, items, pos, marks);
        }
      } else {
        tokenLen, insideToken := 0, true;
        PutChar(tokenLen, c);
        tokenLen := tokenLen + 1;
        assert w + [c] == [c];
        if atEnd && lens.min == 1 {
          insideToken := false;
          AddLast(meta, context, items, pos, marks);
        }
      }
    }

    method PutChar(at: nat, c: char)
      requires Valid() && at < lens.max
      modifies token
      ensures Valid() && token[..at + 1] == old(token[..at]) + [c]
    {
      hide LaidOut, Capacity, AsciiTables.Valid;
      token[at] := c;
    }

    lemma ListCount()
      requires Valid()
      ensures tl.n == |tl.items|
    {
    }

    method InWordTable(c: char) returns (b: bool)
      requires Valid() && c < '\U{80}'
      ensures b <==> IsWordChar(c)
    {
      b := tables.word[c as int];
      assert (c as int) as char == c;
    }

    /** swish_tokenize_ascii */
    method TokenizeAscii(buf: string, meta: string, context: string) returns (count: nat)
      requires Valid() && Ascii(buf) && NoNul(buf) && meta in tl.refs.cnt
      modifies token, tl, tl.tokens, tl.refs
      ensures Valid() && (tl.tokens == old(tl.tokens) || fresh(tl.tokens))
      ensures tl.refs.cnt.Keys == old(tl.refs.cnt).Keys && tl.Elsewhere() == old(tl.Elsewhere())
      ensures tl.items == old(tl.items) + Place(Scan(lens, buf, false), old(tl.pos), meta, context)
      ensures tl.pos == old(tl.pos) + |Scan(lens, buf, false)|
      ensures count == |tl.items| - |old(tl.items)|
    {
      hide Place, ChunkOf, LaidOut, Capacity, Scan, Chunks, IsWordChar, RunLength, Pending;
      hide NoNul, Ascii, ToLower, Lower, AsciiTables.Valid, TokenList.Elsewhere;
      assert lens.max >= 2;
      ListLength(tl);
      hide AsciiTokenizer.Valid, TokenList.Valid;
      ghost var items, pos := tl.items, tl.pos;
      ghost var marks, w := [], "";
      var tokenLen: nat, insideToken := 0, false;
      var nstart := tl.n;
      assert buf[0..] == buf;
      NothingPending(lens, buf);
      assert Place([], pos, meta, context) == [] by { PlaceNone(pos, meta, context); }
      var i := 0;
      while i < |buf|
        invariant 0 <= i <= |buf| && Valid() && (tl.tokens == old(tl.tokens) || fresh(tl.tokens))
        invariant tl.refs.cnt.Keys == old(tl.refs.cnt).Keys && tl.Elsewhere() == old(tl.Elsewhere())
        invariant tl.items == items + Place(marks, pos, meta, context) && tl.pos == pos + |marks|
        invariant insideToken ==> 1 <= tokenLen < lens.max && w == token[..tokenLen]
        invariant !insideToken ==> w == ""
        invariant forall k :: 0 <= k < |w| ==> IsWordChar(w[k])
        invariant marks + Pending(lens, w, buf[i..]) == Scan(lens, buf, false)
        invariant insideToken && i == |buf| ==> tokenLen == 1 && lens.min != 1
      {
        var c := ToLower(buf[i]);
        var nextc := if i + 1 < |buf| then ToLower(buf[i + 1]) else NUL;
        ghost var rest := buf[i..];
        CharAt(buf, i, c);
        var wordChar := InWordTable(c);
        if !wordChar {
          Stopped(lens, marks, w, rest);
          ghost var after := MarksWhenStopped(lens, marks, w, c);
          IgnoreChar(c, tokenLen, insideToken, meta, context, items, pos, marks);
          insideToken := false;
          marks, w := after, "";
        } else {
          PendingGrows(lens, w, rest);
          ghost var more := w + [c];
          assert more != "";
          tokenLen, insideToken :=
            TakeChar(c, nextc == NUL, tokenLen, insideToken, meta, context, items, pos, marks, w);
          if insideToken {
            w := more;
          } else {
            FinishedAt(lens, marks, more, rest[1..]);
            marks, w := marks + Chunk(lens, more, nextc == NUL), "";
          }
        }
        i := i + 1;
      }
      assert lens.min == 1 ==> !insideToken;
      LoneLast(lens, w);
      assert buf[i..] == "" && marks + [] == marks;
      ListCount();
      count := tl.n - nstart;
    }
  }
}
