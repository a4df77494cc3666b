/** Sort strings as users write them, spelled out. */
module SortExamples {
  import opened CString
  import opened StringLists
  import opened SortString

  predicate Usual(words: seq<string>) {
    AllBare(words) && QuoteFreeWords(words)
  }

  /** Words with a blank between each two, the first one without. */
  lemma Typed(words: seq<string>)
    requires words != [] && Usual(words)
    ensures Normalised(Spaced(words)[1..]) == Directed(words)
  {
    hide Bare, Words, Directed, FirstLine, IsSpace;
    var s := Spaced(words);
    SpacedIsOneLine(words);
    BlankDropped(words);
    BareComeBack(words);
    OneLine(s);
    NormalisedIsDirected(s[1..]);
  }

  lemma OneLine(s: string)
    requires s != "" && FirstLine(s) == s && QuoteFree(s)
    ensures FirstLine(s[1..]) == s[1..] && QuoteFree(s[1..])
  {
  }

  lemma UsualWords()
    ensures Usual(["title"]) && Usual(["title", "desc"]) && Usual(["title", "asc", "rank"])
    ensures Usual(["title", "rank", "desc"])
  {
    assert Bare("title") && Bare("rank") && Bare("asc") && Bare("desc");
    assert QuoteFree("title") && QuoteFree("rank") && QuoteFree("asc") && QuoteFree("desc");
    hide Bare, QuoteFree;
  }

  lemma Spellings()
    ensures Spaced(["title"])[1..] == "title" && Spaced(["title", "desc"])[1..] == "title desc"
    ensures Spaced(["title", "asc", "rank"])[1..] == "title asc rank"
    ensures Spaced(["title", "rank", "desc"])[1..] == "title rank desc"
  {
    SpacedThree("title", "desc", "");
    SpacedThree("title", "asc", "rank");
    SpacedThree("title", "rank", "desc");
  }

  lemma SpacedThree(a: string, b: string, c: string)
    ensures Spaced([a])[1..] == a && Spaced([a, b])[1..] == a + " " + b
    ensures Spaced([a, b, c])[1..] == a + " " + b + " " + c
  {
    assert [a, b, c][1..] == [b, c] && [b, c][1..] == [c] && [c][1..] == [] && [a][1..] == [] && [a, b][1..] == [b];
    assert [b][1..] == [];
    assert Spaced([c]) == " " + c && Spaced([b]) == " " + b && Spaced([a]) == " " + a;
    assert Spaced([b, c]) == " " + b + (" " + c);
    assert Spaced([a, b]) == " " + a + (" " + b);
    assert Spaced([a, b, c]) == " " + a + (" " + b + (" " + c));
  }

  lemma DirectedWords()
    ensures Directed(["title"]) == ["title", "asc"] && Directed(["title", "desc"]) == ["title", "desc"]
    ensures Directed(["title", "asc", "rank"]) == ["title", "asc", "rank", "asc"]
    ensures Directed(["title", "rank", "desc"]) == ["title", "asc", "rank", "desc"]
  {
    assert |"title"| == 5 && |"rank"| == 4 && |"asc"| == 3 && |"desc"| == 4 && "rank"[0] != "desc"[0];
    assert ["title"][1..] == [] && ["title", "desc"][2..] == [];
    assert ["title", "asc", "rank"][2..] == ["rank"] && ["rank"][1..] == [];
    assert ["title", "rank", "desc"][1..] == ["rank", "desc"] && ["rank", "desc"][2..] == [];
    assert Directed(["rank"]) == ["rank", "asc"] && Directed(["rank", "desc"]) == ["rank", "desc"];
  }

  /** What a few strings come to. */
  lemma Examples()
    ensures Normalised("title") == ["title", "asc"]
    ensures Normalised("title desc") == ["title", "desc"]
    ensures Normalised("title asc rank") == ["title", "asc", "rank", "asc"]
    ensures Normalised("title rank desc") == ["title", "asc", "rank", "desc"]
  {
    hide *;
    UsualWords();
    Spellings();
    DirectedWords();
    Typed(["title"]);
    Typed(["title", "desc"]);
    Typed(["title", "asc", "rank"]);
    Typed(["title", "rank", "desc"]);
  }

  /** The sorter is told `true` for a descending key, and the last key first. */
  lemma SorterExample()
    ensures Backwards(SortKeys(["title", "asc", "rank", "desc"])) == [("rank", true), ("title", false)]
  {
    var words := ["title", "asc", "rank", "desc"];
    assert words[2..] == ["rank", "desc"] && words[2..][2..] == [];
    assert SortKeys(words[2..]) == [("rank", true)];
    assert |"asc"| == 3 && |"desc"| == 4;
    assert SortKeys(words) == [("title", false)] + [("rank", true)];
    assert ([("title", false)] + [("rank", true)])[1..] == [("rank", true)] && [("rank", true)][1..] == [];
    assert Backwards([("rank", true)]) == Backwards([]) + [("rank", true)];
  }
}
