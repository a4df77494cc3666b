/** Words with quotes, backslashes and line ends in them, spelled out. */
module QuotedWords {
  import opened CString
  import opened StringLists

  lemma More(c: char, s: string, quote: char, escaped: bool)
    requires c != '\n' && c != '\r'
    requires escaped || ((c != '\\' || quote == NUL) && c != quote && (quote == NUL ==> !IsSpace(c)))
    ensures var g := ReadWord(s, quote, false); ReadWord([c] + s, quote, escaped) == Got([c] + g.word, g.rest)
  {
    hide IsSpace;
    ReadStep([c] + s, quote, escaped);
    assert ([c] + s)[1..] == s;
  }

  /** In quotes a blank is a character like any other, */
  lemma Blank(s: string)
    ensures ReadWord(" " + s, '"', false) == Got(" " + ReadWord(s, '"', false).word, ReadWord(s, '"', false).rest)
    ensures ReadWord(" " + s, NUL, false) == Got("", s)
  {
    hide ReadWord;
    More(' ', s, '"', false);
    ReadStep(" " + s, NUL, false);
    assert (" " + s)[1..] == s && [' '] == " ";
  }

  /** only the quote that opened it ends the word, */
  lemma Quote(s: string)
    ensures ReadWord("\"" + s, '"', false) == Got("", s) && ReadWord("'" + s, '\'', false) == Got("", s)
    ensures ReadWord("'" + s, '"', false) == Got("'" + ReadWord(s, '"', false).word, ReadWord(s, '"', false).rest)
    ensures ReadWord("\"" + s, NUL, false) == Got("\"" + ReadWord(s, NUL, false).word, ReadWord(s, NUL, false).rest)
  {
    hide ReadWord;
    ReadStep("\"" + s, '"', false);
    ReadStep("'" + s, '\'', false);
    assert ("\"" + s)[1..] == s && ("'" + s)[1..] == s;
    More('\'', s, '"', false);
    More('"', s, NUL, false);
    assert ['\''] == "'" && ['"'] == "\"";
  }

  /** and a backslash before it makes it an ordinary character; outside quotes a backslash is one itself. */
  lemma Backslash(c: char, s: string)
    requires c != '\n' && c != '\r'
    ensures var g := ReadWord(s, '"', false); ReadWord("\\" + [c] + s, '"', false) == Got([c] + g.word, g.rest)
    ensures ReadWord("\\" + s, NUL, false) == Got("\\" + ReadWord(s, NUL, false).word, ReadWord(s, NUL, false).rest)
    ensures ReadWord("\\", '"', false) == Got("\\", "")
  {
    hide ReadWord;
    var t := "\\" + [c] + s;
    ReadStep(t, '"', false);
    assert t[1..] == [c] + s;
    More(c, s, '"', true);
    assert !IsSpace('\\');
    More('\\', s, NUL, false);
    assert ['\\'] == "\\";
    ReadStep("\\", '"', false);
    ReadStep("", '"', true);
  }

  /** A line end ends a word even in quotes, with a backslash before it kept. */
  lemma LineEnd(s: string)
    ensures ReadWord("\n" + s, '"', false) == Got("", s) && ReadWord("\r" + s, '"', false) == Got("", s)
    ensures ReadWord("\n" + s, NUL, false) == Got("", s) && ReadWord("\r" + s, NUL, false) == Got("", s)
    ensures ReadWord("\\" + ("\n" + s), '"', false) == Got("\\", s)
  {
    hide ReadWord, IsSpace;
    ReadStep("\n" + s, '"', false);
    ReadStep("\r" + s, '"', false);
    ReadStep("\n" + s, NUL, false);
    ReadStep("\r" + s, NUL, false);
    ReadStep("\n" + s, '"', true);
    ReadStep("\\" + ("\n" + s), '"', false);
    assert ("\n" + s)[1..] == s && ("\r" + s)[1..] == s && ("\\" + ("\n" + s))[1..] == "\n" + s;
  }

  lemma Opening(t: string)
    requires t != "" && !IsSpace(t[0])
    ensures Word(t) == if t[0] == '"' || t[0] == '\'' then ReadWord(t[1..], t[0], false) else ReadWord(t, NUL, false)
  {
    hide ReadWord, IsSpace;
  }

  /** "a b" c is the word a b, with a blank before c left. */
  lemma AWordInQuotes()
    ensures Word("\"a b\" c") == Got("a b", " c")
  {
    hide ReadWord;
    Opening("\"a b\" c");
    Spelling();
    More('a', " b\" c", '"', false);
    Blank("b\" c");
    More('b', "\" c", '"', false);
    Quote(" c");
  }

  lemma Spelling()
    ensures "\"a b\" c"[1..] == ['a'] + " b\" c" && " " + "b\" c" == " b\" c" && ['b'] + "\" c" == "b\" c"
    ensures "\"" + " c" == "\" c" && !IsSpace("\"a b\" c"[0]) && "\"a b\" c"[0] == '"'
    ensures ['a'] + (" " + (['b'] + "")) == "a b"
  {
  }

  /** A word of 256 characters fits the word buffer and one of 257 does not. */
  lemma WordLimit(w: string)
    ensures AllShort([w]) <==> |w| < 257
  {
    assert [w][0] == w;
  }
}
