/** The characters that text and words are cut at, against lists of them, and the lengths a word may have. */
module Characters {
  import opened CString
  import opened NamedBuffers
  import opened Seqs
  import opened Tokenizer
  import opened TokenTheorems
  import opened LetterCase
  import HeadersApi

  const BLANKS := " \t\n\r\U{B}\U{C}"
  const NUMBERS := "0123456789"
  const JOINERS := "'_"

  lemma BlankIs(c: char)
    ensures IsSpace(c) <==> c in BLANKS
  {
    var l := BLANKS;
    assert l[0] in l && l[1] in l && l[2] in l && l[3] in l && l[4] in l && l[5] in l;
  }

  lemma NumberAt(c: char)
    ensures c in NUMBERS <==> '0' <= c <= '9'
  {
    var l := NUMBERS;
    assert forall i :: 0 <= i < 10 ==> l[i] as int == 48 + i;
    if '0' <= c <= '9' {
      assert c == l[c as int - 48];
    }
  }

  lemma SmallAt(c: char)
    ensures c in SMALL <==> 'a' <= c <= 'z'
  {
    hide SMALL, CAPITALS;
    TwentySix();
    if 'a' <= c <= 'z' {
      Alphabet(c as int - 97);
      assert c == SMALL[c as int - 97];
    }
    if c in SMALL {
      var i :| 0 <= i < |SMALL| && SMALL[i] == c;
      Alphabet(i);
    }
  }

  /** Letters and digits, */
  lemma AlnumIs(c: char)
    ensures IsAlnum(c) <==> c in SMALL || c in CAPITALS || c in NUMBERS
  {
    hide SMALL, CAPITALS;
    TwentySix();
    CapitalAt(c);
    SmallAt(c);
    NumberAt(c);
  }

  /** and with the apostrophe and the underscore what a word is made of. */
  lemma WordCharIs(c: char)
    ensures IsWordChar(c) <==> c in SMALL || c in CAPITALS || c in NUMBERS || c in JOINERS
  {
    AlnumIs(c);
    hide IsAlnum;
    var l := JOINERS;
    assert l[0] in l && l[1] in l;
  }

  // ---------------------------------------------------------------- how long a word may be

  lemma Alone(lens: Lengths, s: string, rest: string)
    requires lens.max >= 2 && s != "" && (forall i :: 0 <= i < |s| ==> IsAlnum(s[i]))
    requires rest == "" || !IsWordChar(rest[0])
    ensures Scan(lens, s + rest, false) == Chunks(lens, Lower(s), rest == "") + Scan(lens, rest, false)
  {
    hide IsAlnum, Chunks;
    var t := s + rest;
    forall i | 0 <= i < |s| ensures IsWordChar(t[i]) {
      assert t[i] == s[i] && IsAlnum(s[i]);
      AnyAlnum(s[i]);
    }
    RunTo(t, |s|);
    assert IsWordChar(t[0]);
    assert t[..|s|] == s && t[|s|..] == rest;
  }

  lemma AnyAlnum(c: char)
    ensures IsAlnum(c) ==> IsWordChar(c)
  {
  }

  lemma {:induction false} RunTo(t: string, n: nat)
    requires n <= |t| && (forall i :: 0 <= i < n ==> IsWordChar(t[i])) && (n == |t| || !IsWordChar(t[n]))
    ensures RunLength(t) == n
  {
    hide IsWordChar;
    if n > 0 {
      RunTo(t[1..], n - 1);
    }
  }

  lemma Stripped(s: string)
    requires s != "" && forall i :: 0 <= i < |s| ==> IsAlnum(s[i])
    ensures Strip(Lower(s)) == Lower(s) != ""
  {
    hide IsAlnum, ToLower;
    var w := Lower(s);
    forall i | 0 <= i < |s| ensures IsAlnum(w[i]) {
      AlnumLower(s[i]);
    }
    assert StripEnd(w) == w && StripStart(w) == w;
  }

  /** A word is dropped when it has fewer than `min - 1` letters, for the count includes its NUL. */
  lemma Shortest(lens: Lengths, s: string, rest: string)
    requires 2 <= |s| <= lens.max && (forall i :: 0 <= i < |s| ==> IsAlnum(s[i]))
    requires rest == "" || !IsWordChar(rest[0])
    ensures Scan(lens, s + rest, false)
         == (if |s| < lens.min - 1 then [] else [Word(Lower(s))]) + Scan(lens, rest, false)
  {
    Alone(lens, s, rest);
    Stripped(s);
    hide Strip, Scan, IsAlnum, Lower;
    assert Chunks(lens, Lower(s), rest == "") == Chunk(lens, Lower(s), rest == "");
  }

  /** A single letter is dropped when the minimum is above 2, and where the input ends unless it is 1. */
  lemma Single(lens: Lengths, s: string, rest: string)
    requires lens.max >= 2 && |s| == 1 && IsAlnum(s[0]) && (rest == "" || !IsWordChar(rest[0]))
    ensures rest == "" ==> Scan(lens, s, false) == if lens.min == 1 then [Word(Lower(s))] else []
    ensures rest != "" ==>
              Scan(lens, s + rest, false)
              == (if lens.min <= 2 then [Word(Lower(s))] else []) + Scan(lens, rest, false)
  {
    Alone(lens, s, rest);
    Stripped(s);
    hide Strip, IsAlnum, Lower, IsWordChar, Scan;
    var all := Chunks(lens, Lower(s), rest == "");
    assert all == Chunk(lens, Lower(s), rest == "");
    if rest == "" {
      NoMore(lens);
      assert s + rest == s && all + [] == all;
    }
  }

  /** A longer one is cut after `max` letters. */
  lemma Longest(lens: Lengths, s: string, rest: string)
    requires 2 <= lens.max < |s| <= 2 * lens.max && |s| >= lens.max + 2 && lens.min <= 1
    requires (forall i :: 0 <= i < |s| ==> IsAlnum(s[i])) && (rest == "" || !IsWordChar(rest[0]))
    ensures Scan(lens, s + rest, false)
         == [Word(Lower(s)[..lens.max])] + [Word(Lower(s)[lens.max..])] + Scan(lens, rest, false)
  {
    Alone(lens, s, rest);
    TwoWords(lens, s, rest == "");
    hide *;
    var w := Lower(s);
    SameRest(Chunks(lens, w, rest == ""), [Word(w[..lens.max])] + [Word(w[lens.max..])], Scan(lens, rest, false));
  }

  lemma SameRest<T>(a: seq<T>, b: seq<T>, c: seq<T>)
    requires a == b
    ensures a + c == b + c
  {
  }

  lemma TwoWords(lens: Lengths, s: string, atEnd: bool)
    requires 2 <= lens.max < |s| <= 2 * lens.max && |s| >= lens.max + 2 && lens.min <= 1
    requires forall i :: 0 <= i < |s| ==> IsAlnum(s[i])
    ensures Chunks(lens, Lower(s), atEnd) == [Word(Lower(s)[..lens.max])] + [Word(Lower(s)[lens.max..])]
  {
    var a, b := s[..lens.max], s[lens.max..];
    hide IsAlnum, Strip, Lower;
    Stripped(a);
    Stripped(b);
    TwoChunks(lens, Lower(s), atEnd);
    LowerParts(s, lens.max);
    WholeChunk(lens, Lower(a));
    WholeChunk(lens, Lower(b));
  }

  lemma WholeChunk(lens: Lengths, w: string)
    requires Strip(w) == w != "" && lens.min <= 1
    ensures ChunkOf(lens, w) == [Word(w)]
  {
    hide Strip;
  }

  lemma LowerParts(s: string, n: nat)
    requires n <= |s|
    ensures Lower(s[..n]) == Lower(s)[..n] && Lower(s[n..]) == Lower(s)[n..]
  {
    hide ToLower;
  }

  lemma TwoChunks(lens: Lengths, w: string, atEnd: bool)
    requires 2 <= lens.max < |w| <= 2 * lens.max && |w| >= lens.max + 2
    ensures Chunks(lens, w, atEnd) == ChunkOf(lens, w[..lens.max]) + ChunkOf(lens, w[lens.max..])
  {
    hide Strip;
    var b := w[lens.max..];
    assert Chunks(lens, b, atEnd) == Chunk(lens, b, atEnd);
  }

  // ---------------------------------------------------------------- the byte that keeps texts apart

  /** Two texts with a \3 between them: two tokens that are no neighbours, and two parts of a buffer. */
  lemma Separated(lens: Lengths)
    requires lens.max >= 5 && lens.min == 1
    ensures Scan(lens, "Hello\U{3}World", false) == [Word("hello")] + ([Bump] + [Word("world")])
    ensures Pieces("Hello\U{3}World") == ["Hello", "World"]
  {
    hide Scan, Pieces, IsAlnum, IsWordChar;
    Spelling();
    Shortest(lens, "Hello", "\U{3}World");
    Shortest(lens, "World", "");
    NoMore(lens);
    assert [Word("world")] + [] == [Word("world")];
    BumpFirst(lens);
    Parts();
  }

  lemma Spelling()
    ensures Lower("Hello") == "hello" && Lower("World") == "world"
    ensures "Hello" + "\U{3}World" == "Hello\U{3}World" && "World" + "" == "World"
    ensures (forall i :: 0 <= i < 5 ==> IsAlnum("Hello"[i])) && (forall i :: 0 <= i < 5 ==> IsAlnum("World"[i]))
    ensures !IsWordChar("\U{3}World"[0])
  {
    LowerHello();
    assert ToLower('W') == 'w' && ToLower('o') == 'o' && ToLower('r') == 'r' && ToLower('l') == 'l';
    assert ToLower('d') == 'd';
  }

  lemma BumpFirst(lens: Lengths)
    requires lens.max >= 2
    ensures Scan(lens, "\U{3}World", false) == [Bump] + Scan(lens, "World", false)
  {
    assert "\U{3}World"[1..] == "World";
  }

  lemma Parts()
    ensures Pieces("Hello\U{3}World") == ["Hello", "World"]
  {
    hide Split, Keep, AllSpace;
    NoThree();
    assert "Hello" + [BUMPER] + "World" == "Hello\U{3}World";
    SplitJoin("Hello", "World");
    SplitPlain("Hello");
    SplitPlain("World");
    assert ["Hello"] + ["World"] == ["Hello", "World"];
    KeepBoth("Hello", "World");
  }

  lemma NoThree()
    ensures NoBumper("Hello") && NoBumper("World") && !AllSpace("Hello") && !AllSpace("World")
  {
    assert !IsSpace("Hello"[0]) && !IsSpace("World"[0]);
  }

  lemma KeepBoth(a: string, b: string)
    requires !AllSpace(a) && !AllSpace(b)
    ensures Keep([a, b]) == [a, b]
  {
    hide AllSpace;
    assert [a, b][1..] == [b] && [b][1..] == [];
    assert Keep([b]) == [b];
  }

  /** With a NUL in it both that and the \3 of a body become newlines. */
  lemma BodyBytes()
    ensures HeadersApi.NoNulls("a\0b\U{3}c") == "a\nb\nc"
    ensures HeadersApi.NoNulls("ab\U{3}c") == "ab\U{3}c"
  {
    assert "a\0b\U{3}c"[1] == NUL;
  }
}
