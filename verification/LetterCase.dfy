/** What lower case means, against the alphabet itself: tokens, comments and header lines. */
module LetterCase {
  import opened CString
  import opened NamedBuffers
  import opened Seqs
  import opened Tokenizer
  import opened TokenTheorems

  const SMALL := "abcdefghijklmnopqrstuvwxyz"
  const CAPITALS := "ABCDEFGHIJKLMNOPQRSTUVWXYZ"

  predicate IsCapital(c: char) {
    'A' <= c <= 'Z'
  }

  /** `t` is the small letter of a capital `c`, and `c` itself otherwise. */
  predicate SmallOf(t: char, c: char) {
    && (forall i :: 0 <= i < 26 && c == CAPITALS[i] ==> t == SMALL[i])
    && ((forall i :: 0 <= i < 26 ==> c != CAPITALS[i]) ==> t == c)
  }

  /** The same of two texts, character by character. */
  predicate InSmall(t: string, s: string) {
    |t| == |s| && forall i :: 0 <= i < |s| ==> SmallOf(t[i], s[i])
  }

  lemma TwentySix()
    ensures |SMALL| == |CAPITALS| == 26
  {
  }

  lemma Alphabet(i: nat)
    requires i < 26
    ensures SMALL[i] as int == 97 + i && CAPITALS[i] as int == 65 + i
  {
  }

  lemma CapitalAt(c: char)
    ensures IsCapital(c) <==> exists i :: 0 <= i < 26 && c == CAPITALS[i]
  {
    hide SMALL, CAPITALS;
    TwentySix();
    if IsCapital(c) {
      Alphabet(c as int - 65);
      assert c == CAPITALS[c as int - 65];
    }
    forall i | 0 <= i < 26 && c == CAPITALS[i] ensures IsCapital(c) {
      Alphabet(i);
    }
  }

  /** There is just one such character, and it is no capital. */
  lemma LowerIsSmall(t: char, c: char)
    ensures SmallOf(t, c) <==> t == ToLower(c)
    ensures !IsCapital(ToLower(c))
  {
    hide SMALL, CAPITALS;
    TwentySix();
    CapitalAt(c);
    if IsCapital(c) {
      var k := c as int - 65;
      Alphabet(k);
      assert c == CAPITALS[k];
      forall i | 0 <= i < 26 && c == CAPITALS[i] ensures i == k {
        Alphabet(i);
      }
    }
  }

  /** So a lower-cased text is that text in small letters, and nothing else is. */
  lemma LowerText(t: string, s: string)
    ensures InSmall(t, s) <==> t == Lower(s)
  {
    hide SmallOf, ToLower;
    forall i | 0 <= i < |s| && i < |t| ensures SmallOf(t[i], s[i]) <==> t[i] == ToLower(s[i]) {
      LowerIsSmall(t[i], s[i]);
    }
    if InSmall(t, s) {
      assert forall i :: 0 <= i < |s| ==> t[i] == ToLower(s[i]);
    }
  }

  // ---------------------------------------------------------------- tokens

  predicate NoCapitals(s: string) {
    forall i :: 0 <= i < |s| ==> !IsCapital(s[i])
  }

  predicate SmallMarks(marks: seq<Mark>) {
    forall m :: m in marks && m.Word? ==> NoCapitals(m.value)
  }

  lemma SmallConcat(a: seq<Mark>, b: seq<Mark>)
    requires SmallMarks(a) && SmallMarks(b)
    ensures SmallMarks(a + b)
  {
    hide NoCapitals;
    assert forall m :: m in a + b ==> m in a || m in b;
  }

  lemma SmallLower(s: string)
    ensures NoCapitals(Lower(s))
  {
    hide ToLower, IsCapital;
    forall i | 0 <= i < |s| ensures !IsCapital(Lower(s)[i]) {
      LowerIsSmall(Lower(s)[i], s[i]);
    }
  }

  lemma SmallSlice(w: string, i: nat, j: nat)
    requires NoCapitals(w) && i <= j <= |w|
    ensures NoCapitals(w[i..j])
  {
    hide IsCapital;
  }

  lemma SmallStrip(w: string)
    requires NoCapitals(w)
    ensures NoCapitals(Strip(w))
  {
    hide IsCapital, IsAlnum;
    var e := StripEnd(w);
    var r := StripStart(e);
    SmallSlice(w, 0, |e|);
    assert e == w[0..|e|];
    SmallSlice(e, |e| - |r|, |e|);
    assert r == e[|e| - |r|..|e|];
  }

  lemma SmallChunk(lens: Lengths, w: string, atEnd: bool)
    requires NoCapitals(w)
    ensures SmallMarks(Chunk(lens, w, atEnd))
  {
    hide NoCapitals, Strip;
    SmallStrip(w);
  }

  lemma {:induction false} SmallChunks(lens: Lengths, w: string, atEnd: bool)
    requires lens.max >= 2 && NoCapitals(w)
    ensures SmallMarks(Chunks(lens, w, atEnd))
    decreases |w|
  {
    hide NoCapitals, Chunk, SmallMarks;
    NoSmallMarks();
    if w != "" {
      if |w| <= lens.max {
        SmallChunk(lens, w, atEnd);
      } else {
        SmallSlice(w, 0, lens.max);
        SmallSlice(w, lens.max, |w|);
        assert w[0..lens.max] == w[..lens.max] && w[lens.max..|w|] == w[lens.max..];
        SmallChunk(lens, w[..lens.max], false);
        SmallChunks(lens, w[lens.max..], atEnd);
        SmallConcat(Chunk(lens, w[..lens.max], false), Chunks(lens, w[lens.max..], atEnd));
      }
    }
  }

  lemma NoSmallMarks()
    ensures SmallMarks([]) && SmallMarks([Bump])
  {
  }

  /** No token holds a capital letter. */
  lemma {:induction false} TokensAreSmall(lens: Lengths, s: string, more: bool)
    requires lens.max >= 2
    ensures forall m :: m in Scan(lens, s, more) && m.Word? ==> NoCapitals(m.value)
    decreases |s|
  {
    hide Chunks, SmallMarks, NoCapitals, IsWordChar;
    NoSmallMarks();
    if s != "" {
      if IsWordChar(s[0]) {
        var n := RunLength(s);
        RunsOn(s);
        SmallLower(s[..n]);
        SmallChunks(lens, Lower(s[..n]), n == |s| && !more);
        TokensAreSmall(lens, s[n..], more);
        SmallAre(Chunks(lens, Lower(s[..n]), n == |s| && !more));
      } else {
        TokensAreSmall(lens, s[1..], more);
      }
    }
  }

  lemma SmallAre(marks: seq<Mark>)
    requires SmallMarks(marks)
    ensures forall m :: m in marks && m.Word? ==> NoCapitals(m.value)
  {
    hide NoCapitals;
  }

  lemma {:induction false} LettersLower(s: string)
    ensures InSmall(Letters(Lower(s)), Letters(s))
  {
    hide ToLower, IsAlnum, SmallOf, Lower;
    if s != "" {
      LowerFirst(s);
      LettersLower(s[1..]);
      LowerIsSmall(ToLower(s[0]), s[0]);
      AlnumLower(s[0]);
    }
  }

  lemma LowerFirst(s: string)
    requires s != ""
    ensures Lower(s) != "" && Lower(s)[0] == ToLower(s[0]) && Lower(s)[1..] == Lower(s[1..])
  {
    hide ToLower;
  }

  /** At minimum length 1 the letters and digits of the tokens are those of the text, one for one, each
      in the small letter of its place in the alphabet. */
  lemma TokenLetters(lens: Lengths, s: string, more: bool)
    requires lens.max >= 2 && lens.min == 1
    ensures InSmall(Letters(Text(Scan(lens, s, more))), Letters(s))
  {
    hide Scan, Letters, Text, InSmall;
    NoLetterLost(lens, s, more);
    LettersLower(s);
  }

  /** Hello */
  lemma HelloIsSmall(lens: Lengths)
    requires lens.max >= 5 && lens.min == 1
    ensures Scan(lens, "Hello", false) == [Word("hello")]
  {
    LowerHello();
    OneRun(lens, "Hello", "hello");
  }

  lemma LowerHello()
    ensures Lower("Hello") == "hello"
  {
    assert ToLower('H') == 'h' && ToLower('e') == 'e' && ToLower('l') == 'l' && ToLower('o') == 'o';
  }

  lemma OneRun(lens: Lengths, s: string, w: string)
    requires lens.max >= 2 && 2 <= |s| <= lens.max && lens.min == 1 && w == Lower(s)
    requires forall i :: 0 <= i < |s| ==> IsAlnum(s[i])
    ensures Scan(lens, s, false) == [Word(w)]
  {
    hide IsAlnum, ToLower;
    forall i | 0 <= i < |s| ensures IsWordChar(s[i]) && IsAlnum(w[i]) {
      AlnumLower(s[i]);
    }
    RunOfWord(s);
    assert s[..|s|] == s && s[|s|..] == "";
    assert StripEnd(w) == w && StripStart(w) == w;
    NoMore(lens);
    assert [Word(w)] + [] == [Word(w)];
  }

  lemma NoMore(lens: Lengths)
    requires lens.max >= 2
    ensures Scan(lens, "", false) == []
  {
  }
}
