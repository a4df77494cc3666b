/** Sort strings: swish_stringlist_parse_sort_string fills in directions, and the loop in `search`
    hands the keys to the sorter. */
module SortString {
  import opened CString
  import opened Seqs
  import opened StringLists

  const ASC := "asc"
  const DESC := "desc"

  predicate IsDirection(w: string) {
    w == ASC || w == DESC
  }

  /** Every word a property, with the direction after it or else "asc". */
  function Directed(words: seq<string>): seq<string> {
    if words == [] then []
    else if |words| > 1 && IsDirection(words[1]) then [words[0], words[1]] + Directed(words[2..])
    else [words[0], ASC] + Directed(words[1..])
  }

  /** The normalised string: a blank before every word. */
  function Spaced(words: seq<string>): string {
    if words == [] then "" else " " + words[0] + Spaced(words[1..])
  }

  lemma {:induction false} SpacedConcat(a: seq<string>, b: seq<string>)
    ensures Spaced(a + b) == Spaced(a) + Spaced(b)
  {
    if a == [] {
      assert a + b == b;
    } else {
      assert (a + b)[1..] == a[1..] + b;
      SpacedConcat(a[1..], b);
    }
  }

  /** The property names among the words, by the same reading. */
  function Props(words: seq<string>): seq<string> {
    if words == [] then []
    else if |words| > 1 && IsDirection(words[1]) then [words[0]] + Props(words[2..])
    else [words[0]] + Props(words[1..])
  }

  // ---------------------------------------------------------------- words that stand for themselves

  /** A word that needs no quotes. */
  predicate Bare(w: string) {
    w != "" && !IsQuote(w[0]) && forall k :: 0 <= k < |w| ==> !IsSpace(w[k]) && w[k] != NUL
  }

  predicate AllBare(words: seq<string>) {
    forall k :: 0 <= k < |words| ==> Bare(words[k])
  }

  predicate QuoteFree(s: string) {
    NoNul(s) && forall k :: 0 <= k < |s| ==> !IsQuote(s[k])
  }

  lemma {:induction false} ReadBare(w: string, rest: string)
    requires forall k :: 0 <= k < |w| ==> !IsSpace(w[k]) && w[k] != NUL
    requires rest != "" ==> rest[0] == ' '
    ensures ReadWord(w + rest, NUL, false) == Got(w, if rest == "" then "" else rest[1..])
  {
    var s := w + rest;
    if w == "" {
      assert s == rest;
      assert IsSpace(' ');
    } else {
      assert s[0] == w[0] && s[1..] == w[1..] + rest;
      ReadBare(w[1..], rest);
      assert IsSpace('\n') && IsSpace('\r');
    }
  }

  lemma BlankSkipped(s: string)
    requires s != "" ==> !IsSpace(s[0])
    ensures SkipSpace(" " + s) == s
  {
    assert (" " + s)[1..] == s;
  }

  /** Bare words written with blanks between them are read back. */
  lemma {:induction false} BareComeBack(words: seq<string>)
    requires AllBare(words)
    ensures Words(Spaced(words)) == words
  {
    hide Words, Word, Bare;
    var s := Spaced(words);
    NothingToRead();
    if words != [] {
      var w, rest := words[0], Spaced(words[1..]);
      assert Bare(w) && s == " " + (w + rest);
      WordOfBare(w, rest);
      WordsStep(s);
      BareComeBack(words[1..]);
      if words[1..] != [] {
        BlankDropped(words[1..]);
      }
    }
  }

  lemma WordOfBare(w: string, rest: string)
    requires Bare(w) && (rest != "" ==> rest[0] == ' ')
    ensures Word(" " + (w + rest)) == Got(w, if rest == "" then "" else rest[1..])
    ensures w != ""
  {
    hide ReadWord, IsSpace, SkipSpace;
    FirstBare(w);
    BlankSkipped(w + rest);
    ReadBare(w, rest);
  }

  lemma FirstBare(w: string)
    requires Bare(w)
    ensures w != "" && !IsSpace(w[0]) && !IsQuote(w[0])
  {
  }

  lemma NothingToRead()
    ensures Words("") == [] && Word("") == Got("", "")
  {
  }

  /** The blank at the front makes no difference. */
  lemma BlankDropped(words: seq<string>)
    requires words != [] && AllBare(words)
    ensures Words(Spaced(words)[1..]) == Words(Spaced(words))
  {
    hide ReadWord, IsSpace, Words, SkipSpace, Bare;
    var s := Spaced(words);
    var t := words[0] + Spaced(words[1..]);
    assert Bare(words[0]);
    assert s[1..] == t && s == " " + t;
    FirstBare(words[0]);
    BlankSkipped(t);
    SkipsNothing(t);
    WordsStep(s);
    WordsStep(t);
  }

  lemma SkipsNothing(s: string)
    requires s != "" ==> !IsSpace(s[0])
    ensures SkipSpace(s) == s
  {
  }

  /** Without quotes every word read is bare. */
  lemma {:induction false} WordsAreBare(s: string)
    requires QuoteFree(s)
    ensures AllBare(Words(s))
    decreases |s|
  {
    hide IsSpace, IsQuote, ReadWord, NoNul, SkipSpace;
    WordsStep(s);
    hide Words;
    if Word(s).word != "" {
      var t := SkipSpace(s);
      SkippedIsFree(s);
      UnquotedBare(t);
      WordsAreBare(ReadWord(t, NUL, false).rest);
    }
  }

  lemma SkippedIsFree(s: string)
    requires QuoteFree(s)
    ensures QuoteFree(SkipSpace(s)) && (SkipSpace(s) != "" ==> !IsSpace(SkipSpace(s)[0]))
  {
    var t := SkipSpace(s);
    assert t == s[|s| - |t|..];
  }

  lemma {:induction false} UnquotedBare(t: string)
    requires QuoteFree(t)
    ensures var g := ReadWord(t, NUL, false);
            && QuoteFree(g.rest) && (g.word != "" ==> t != "" && g.word[0] == t[0])
            && forall k :: 0 <= k < |g.word| ==> !IsSpace(g.word[k]) && g.word[k] != NUL
  {
    if t != "" {
      assert t[0] in t;
      assert QuoteFree(t[1..]);
      UnquotedBare(t[1..]);
    }
  }

  // ---------------------------------------------------------------- words in quotes

  /** A word with a backslash before every quote of its kind and every backslash. */
  function Guarded(w: string, quote: char): string {
    if w == "" then ""
    else (if w[0] == quote || w[0] == '\\' then ['\\', w[0]] else [w[0]]) + Guarded(w[1..], quote)
  }

  predicate OneLine(w: string) {
    forall k :: 0 <= k < |w| ==> w[k] != '\n' && w[k] != '\r'
  }

  /** Any text on one line, blanks and quotes and all, can be put in quotes and is read as one word. */
  lemma {:induction false} GuardedReads(w: string, quote: char, rest: string)
    requires IsQuote(quote) && OneLine(w)
    ensures ReadWord(Guarded(w, quote) + [quote] + rest, quote, false) == Got(w, rest)
  {
    hide IsSpace, ReadWord;
    var s := Guarded(w, quote) + [quote] + rest;
    ReadStep(s, quote, false);
    if w == "" {
      assert s == [quote] + rest && s[1..] == rest;
    } else {
      var more := Guarded(w[1..], quote) + [quote] + rest;
      GuardedReads(w[1..], quote, rest);
      if w[0] == quote || w[0] == '\\' {
        assert s == ['\\', w[0]] + more && s[1..] == [w[0]] + more;
        ReadStep(s[1..], quote, true);
        assert s[1..][1..] == more;
      } else {
        assert s == [w[0]] + more && s[1..] == more;
      }
    }
  }

  lemma QuotedWord(w: string, quote: char, rest: string)
    requires IsQuote(quote) && OneLine(w)
    ensures Word([quote] + (Guarded(w, quote) + [quote] + rest)) == Got(w, rest)
  {
    hide ReadWord, Guarded, IsSpace, SkipSpace;
    var body := Guarded(w, quote) + [quote] + rest;
    var s := [quote] + body;
    QuoteNoSpace(quote);
    SkipsNothing(s);
    assert s[0] == quote && s[1..] == body;
    GuardedReads(w, quote, rest);
  }

  lemma QuoteNoSpace(c: char)
    requires IsQuote(c)
    ensures !IsSpace(c)
  {
  }

  // ---------------------------------------------------------------- directions

  /** Properties and directions take turns. */
  predicate Alternating(words: seq<string>) {
    |words| % 2 == 0 && forall k :: 0 <= k < |words| && k % 2 == 1 ==> IsDirection(words[k])
  }

  lemma {:induction false} DirectedAlternates(words: seq<string>)
    ensures Alternating(Directed(words))
    decreases |words|
  {
    hide IsDirection;
    DirectionsBare();
    if words != [] {
      var j := if |words| > 1 && IsDirection(words[1]) then 2 else 1;
      var d := Directed(words[j..]);
      DirectedAlternates(words[j..]);
      assert Directed(words)[2..] == d;
      forall k | 0 <= k < |Directed(words)| && k % 2 == 1 ensures IsDirection(Directed(words)[k]) {
        if k > 1 {
          assert Directed(words)[k] == d[k - 2];
        }
      }
    }
  }

  lemma {:induction false} DirectedBare(words: seq<string>)
    requires AllBare(words)
    ensures AllBare(Directed(words))
    decreases |words|
  {
    hide Bare, IsDirection;
    DirectionsBare();
    if words != [] {
      DirectedBare(words[if |words| > 1 && IsDirection(words[1]) then 2 else 1..]);
    }
  }

  /** The words in the places of properties. */
  function Firsts(words: seq<string>): seq<string> {
    if |words| < 2 then [] else [words[0]] + Firsts(words[2..])
  }

  /** Every property comes out once, in order, each with its direction right after it. */
  lemma {:induction false} DirectedProps(words: seq<string>)
    ensures Firsts(Directed(words)) == Props(words)
    decreases |words|
  {
    hide IsDirection;
    if words != [] {
      var two := |words| > 1 && IsDirection(words[1]);
      var rest := words[if two then 2 else 1..];
      DirectedProps(rest);
      assert Directed(words)[2..] == Directed(rest);
    }
  }

  lemma DirectionsBare()
    ensures Bare(ASC) && Bare(DESC) && IsDirection(ASC)
  {
  }

  /** Normalising a list that has all its directions changes nothing. */
  lemma {:induction false} AlternatingStays(words: seq<string>)
    requires Alternating(words)
    ensures Directed(words) == words
    decreases |words|
  {
    hide IsDirection;
    if words != [] {
      assert IsDirection(words[1]);
      forall k | 0 <= k < |words[2..]| && k % 2 == 1 ensures IsDirection(words[2..][k]) {
        assert IsDirection(words[k + 2]);
      }
      AlternatingStays(words[2..]);
    }
  }

  /** The list swish_stringlist_parse_sort_string returns. */
  function Normalised(s: string): seq<string> {
    Words(FirstLine(Spaced(Directed(Words(FirstLine(s))))))
  }

  lemma {:induction false} SpacedIsOneLine(words: seq<string>)
    requires AllBare(words)
    ensures FirstLine(Spaced(words)) == Spaced(words)
    ensures QuoteFreeWords(words) ==> QuoteFree(Spaced(words))
  {
    NoNewline(words);
  }

  predicate QuoteFreeWords(words: seq<string>) {
    forall k :: 0 <= k < |words| ==> QuoteFree(words[k])
  }

  lemma {:induction false} NoNewline(words: seq<string>)
    requires AllBare(words)
    ensures forall k :: 0 <= k < |Spaced(words)| ==> Spaced(words)[k] != '\n' && Spaced(words)[k] != NUL
    ensures QuoteFreeWords(words) ==> QuoteFree(Spaced(words))
  {
    if words != [] {
      NoNewline(words[1..]);
      assert Bare(words[0]);
      if QuoteFreeWords(words) {
        assert QuoteFree(words[0]) && QuoteFreeWords(words[1..]);
      }
    }
  }

  /** For a string without quotes the result is its words with every direction filled in. */
  lemma NormalisedIsDirected(s: string)
    requires QuoteFree(FirstLine(s))
    ensures Normalised(s) == Directed(Words(FirstLine(s)))
    ensures Alternating(Normalised(s)) && AllBare(Normalised(s))
  {
    hide Bare, Words, Directed, QuoteFree;
    WordsAreBare(FirstLine(s));
    DirectedAlternates(Words(FirstLine(s)));
    DirectedBare(Words(FirstLine(s)));
    var d := Directed(Words(FirstLine(s)));
    SpacedIsOneLine(d);
    BareComeBack(d);
  }

  /** Normalising the blank-joined result once more gives the same list. */
  lemma NormalisedTwice(s: string)
    requires QuoteFree(FirstLine(s))
    ensures Normalised(Spaced(Normalised(s))) == Normalised(s)
  {
    hide Bare, Words, Directed, QuoteFree;
    NormalisedIsDirected(s);
    var n := Normalised(s);
    SpacedIsOneLine(n);
    BareComeBack(n);
    AlternatingStays(n);
  }

  /** How the words are read: true for a property, false for a direction. */
  function Roles(words: seq<string>): (r: seq<bool>)
    ensures |r| == |words|
  {
    if words == [] then []
    else if |words| > 1 && IsDirection(words[1]) then [true, false] + Roles(words[2..])
    else [true] + Roles(words[1..])
  }

  function LowerAll(words: seq<string>): (r: seq<string>)
    ensures |r| == |words|
  {
    seq(|words|, i requires 0 <= i < |words| => Lower(words[i]))
  }

  /** No word that stands in a direction's place is a direction only in another case. */
  predicate CaseSafe(words: seq<string>) {
    || |words| <= 1
    || if IsDirection(words[1]) then CaseSafe(words[2..])
       else !IsDirection(Lower(words[1])) && CaseSafe(words[1..])
  }

  lemma LowerDirection(w: string)
    requires IsDirection(w)
    ensures Lower(w) == w
  {
  }

  lemma LowerRest(words: seq<string>, k: nat)
    requires k <= |words|
    ensures LowerAll(words)[k..] == LowerAll(words[k..])
  {
    hide Lower;
  }

  /** The lowercased copy of the string is thrown away.  Reading is blind to case all the same,
      exactly for the strings of which that holds; */
  lemma {:induction false} BlindToCase(words: seq<string>)
    ensures Roles(LowerAll(words)) == Roles(words) <==> CaseSafe(words)
  {
    hide Lower, IsDirection, LowerAll;
    if |words| > 1 {
      LowerRest(words, 1);
      LowerRest(words, 2);
      LowerAt(words, 1);
      if IsDirection(words[1]) {
        LowerDirection(words[1]);
        BlindToCase(words[2..]);
        SameRoles([true, false], Roles(LowerAll(words[2..])), Roles(words[2..]));
      } else if IsDirection(Lower(words[1])) {
        assert Roles(LowerAll(words))[1] == false;
        RolesStart(words[1..]);
        assert Roles(words)[1] == true;
      } else {
        BlindToCase(words[1..]);
        SameRoles([true], Roles(LowerAll(words[1..])), Roles(words[1..]));
      }
    } else if words != [] {
      LowerRest(words, 1);
      assert words[1..] == [];
    }
  }

  lemma RolesStart(words: seq<string>)
    requires words != []
    ensures Roles(words)[0]
  {
  }

  lemma LowerAt(words: seq<string>, k: nat)
    requires k < |words|
    ensures LowerAll(words)[k] == Lower(words[k])
  {
  }

  lemma SameRoles(front: seq<bool>, a: seq<bool>, b: seq<bool>)
    ensures front + a == front + b <==> a == b
  {
    if front + a == front + b {
      assert a == (front + a)[|front|..] && b == (front + b)[|front|..];
    }
  }

  /** and of these the directions are filled in alike. */
  lemma {:induction false} DirectedLower(words: seq<string>)
    requires CaseSafe(words)
    ensures Directed(LowerAll(words)) == LowerAll(Directed(words))
  {
    hide Lower, IsDirection;
    AscIsLower();
    if words != [] {
      LowerRest(words, 1);
      if |words| > 1 && IsDirection(words[1]) {
        LowerRest(words, 2);
        LowerDirection(words[1]);
        DirectedLower(words[2..]);
      } else {
        DirectedLower(words[1..]);
      }
    }
  }

  lemma AscIsLower()
    ensures Lower(ASC) == ASC
  {
  }

  lemma LowerCons(s: string)
    requires s != ""
    ensures Lower(s)[0] == ToLower(s[0]) && Lower(s)[1..] == Lower(s[1..])
    ensures Lower(s) == [ToLower(s[0])] + Lower(s[1..])
  {
    hide ToLower;
  }

  /** What a word is read by has no case. */
  lemma NoCase(c: char)
    ensures IsSpace(ToLower(c)) == IsSpace(c) && IsQuote(ToLower(c)) == IsQuote(c)
    ensures (ToLower(c) == NUL <==> c == NUL) && (ToLower(c) == '\\' <==> c == '\\')
    ensures (ToLower(c) == '\n' <==> c == '\n') && (ToLower(c) == '\r' <==> c == '\r')
    ensures (ToLower(c) == '"' <==> c == '"') && (ToLower(c) == '\'' <==> c == '\'')
  {
  }

  lemma {:induction false} SkipLower(s: string)
    ensures SkipSpace(Lower(s)) == Lower(SkipSpace(s))
  {
    hide Lower, ToLower, IsSpace;
    if s != "" {
      LowerCons(s);
      NoCase(s[0]);
      SkipLower(s[1..]);
    }
  }

  lemma {:induction false} ReadLower(s: string, quote: char, escaped: bool)
    requires quote == NUL || IsQuote(quote)
    ensures ReadWord(Lower(s), quote, escaped)
         == Got(Lower(ReadWord(s, quote, escaped).word), Lower(ReadWord(s, quote, escaped).rest))
  {
    hide Lower, ToLower, IsSpace, ReadWord;
    ReadStep(s, quote, escaped);
    ReadStep(Lower(s), quote, escaped);
    FewLower();
    if s != "" {
      LowerCons(s);
      NoCase(s[0]);
      ReadLower(s[1..], quote, true);
      ReadLower(s[1..], quote, false);
      LowerJoined(s[0], ReadWord(s[1..], quote, false).word);
    }
  }

  lemma FewLower()
    ensures Lower("") == "" && Lower("\\") == "\\"
  {
  }

  lemma LowerJoined(c: char, w: string)
    ensures Lower([c] + w) == [ToLower(c)] + Lower(w)
  {
    hide ToLower;
  }

  lemma WordLower(s: string)
    ensures Word(Lower(s)) == Got(Lower(Word(s).word), Lower(Word(s).rest))
  {
    hide Lower, ToLower, IsSpace, ReadWord, SkipSpace;
    SkipLower(s);
    FewLower();
    var t := SkipSpace(s);
    if t != "" {
      LowerCons(t);
      NoCase(t[0]);
      ReadLower(t, NUL, false);
      if IsQuote(t[0]) {
        ReadLower(t[1..], t[0], false);
      }
    }
  }

  lemma {:induction false} WordsLower(s: string)
    ensures Words(Lower(s)) == LowerAll(Words(s))
    decreases |s|
  {
    hide Lower, Word;
    WordLower(s);
    var g := Word(s);
    if g.word != "" {
      WordsLower(g.rest);
      assert LowerAll([g.word] + Words(g.rest)) == [Lower(g.word)] + LowerAll(Words(g.rest));
    }
  }

  lemma {:induction false} FirstLineLower(s: string)
    ensures FirstLine(Lower(s)) == Lower(FirstLine(s))
  {
    hide Lower, ToLower;
    FewLower();
    if s != "" {
      LowerCons(s);
      NoCase(s[0]);
      FirstLineLower(s[1..]);
      LowerJoined(s[0], FirstLine(s[1..]));
    }
  }

  /** Of a whole sort string, quotes and backslashes included: lower-casing it leaves every word its
      role exactly when it is safe, and then only lower-cases the list. */
  lemma SortStringBlindToCase(s: string)
    ensures Roles(Words(FirstLine(Lower(s)))) == Roles(Words(FirstLine(s))) <==> CaseSafe(Words(FirstLine(s)))
    ensures CaseSafe(Words(FirstLine(s))) ==>
              Directed(Words(FirstLine(Lower(s)))) == LowerAll(Directed(Words(FirstLine(s))))
  {
    hide *;
    var words := Words(FirstLine(s));
    FirstLineLower(s);
    WordsLower(FirstLine(s));
    BlindToCase(words);
    if CaseSafe(words) {
      DirectedLower(words);
    }
  }

  /** Another string: an upper-case direction is taken for a property. */
  lemma CaseIsKept(prop: string)
    requires !IsDirection(prop)
    ensures Directed([prop, "DESC"]) == [prop, ASC, "DESC", ASC]
  {
    var words := [prop, "DESC"];
    assert "DESC"[0] != ASC[0] && "DESC"[0] != DESC[0];
    assert words[1..] == ["DESC"] && ["DESC"][1..] == [];
    assert Directed(["DESC"]) == ["DESC", ASC] + Directed([]);
  }

  // ---------------------------------------------------------------- what the user meant

  /** One sort key as written: a property and perhaps a direction. */
  datatype Key = Key(prop: string, direction: string)

  predicate GoodKey(k: Key) {
    Bare(k.prop) && (k.direction == "" || IsDirection(k.direction))
  }

  /** The words of the keys. */
  function Written(keys: seq<Key>): seq<string> {
    if keys == [] then []
    else [keys[0].prop] + (if keys[0].direction == "" then [] else [keys[0].direction]) + Written(keys[1..])
  }

  /** The keys with their directions, the way they are to be understood. */
  function Understood(keys: seq<Key>): seq<string> {
    if keys == [] then []
    else [keys[0].prop, if keys[0].direction == "" then ASC else keys[0].direction] + Understood(keys[1..])
  }

  predicate GoodKeys(keys: seq<Key>) {
    forall k :: 0 <= k < |keys| ==> GoodKey(keys[k])
  }

  /** A key without a direction takes the next property for one if that is named so.  No harm is
      done only if the two are what is written for a key in ascending order and a property `asc`:
      then the direction of the second key is read as that property, without one. */
  predicate AsMeant(keys: seq<Key>)
    decreases |keys|
  {
    || |keys| <= 1
    || if keys[0].direction != "" || !IsDirection(keys[1].prop) then AsMeant(keys[1..])
       else keys[1] == Key(ASC, ASC) && AsMeant([Key(ASC, "")] + keys[2..])
  }

  /** What is left to read when the second key's property was taken for a direction. */
  function LeftOver(keys: seq<Key>): (rest: seq<Key>)
    requires |keys| >= 2
    ensures |rest| < |keys|
  {
    (if keys[1].direction == "" then [] else [Key(keys[1].direction, "")]) + keys[2..]
  }

  lemma WrittenCons(k: Key, rest: seq<Key>)
    ensures Written([k] + rest) == [k.prop] + (if k.direction == "" then [] else [k.direction]) + Written(rest)
    ensures Understood([k] + rest) == [k.prop, if k.direction == "" then ASC else k.direction] + Understood(rest)
  {
    assert ([k] + rest)[1..] == rest;
  }

  /** How the words of one or two keys are read. */
  lemma FirstKeyRead(keys: seq<Key>)
    requires keys != [] && GoodKeys(keys)
    ensures var k, d := keys[0], Directed(Written(keys));
            && (k.direction != "" ==> d == [k.prop, k.direction] + Directed(Written(keys[1..])))
            && (k.direction == "" && (|keys| == 1 || !IsDirection(keys[1].prop)) ==>
                  d == [k.prop, ASC] + Directed(Written(keys[1..])))
            && (k.direction == "" && |keys| > 1 && IsDirection(keys[1].prop) ==>
                  d == [k.prop, keys[1].prop] + Directed(Written(LeftOver(keys))))
  {
    hide IsDirection, Bare, Written, Directed;
    var k, rest := keys[0], keys[1..];
    assert GoodKey(k) && keys == [k] + rest;
    if k.direction != "" {
      KeyWithDirection(k, rest);
    } else if |keys| == 1 || !IsDirection(keys[1].prop) {
      KeyWithout(k, rest);
    } else {
      assert rest == [keys[1]] + keys[2..];
      KeyMisread(k, keys[1], keys[2..]);
    }
  }

  lemma KeyWithDirection(k: Key, rest: seq<Key>)
    requires IsDirection(k.direction)
    ensures Directed(Written([k] + rest)) == [k.prop, k.direction] + Directed(Written(rest))
  {
    WrittenCons(k, rest);
    hide Written, Directed;
    WithDirection(k.prop, k.direction, Written(rest));
  }

  lemma KeyWithout(k: Key, rest: seq<Key>)
    requires k.direction == "" && (rest == [] || !IsDirection(rest[0].prop))
    ensures Directed(Written([k] + rest)) == [k.prop, ASC] + Directed(Written(rest))
  {
    WrittenCons(k, rest);
    NothingWritten();
    if rest != [] {
      WrittenHead(rest);
    }
    hide Written, Directed, IsDirection;
    WithoutDirection(k.prop, Written(rest));
  }

  lemma KeyMisread(k: Key, q: Key, last: seq<Key>)
    requires k.direction == "" && IsDirection(q.prop)
    ensures var left := (if q.direction == "" then [] else [Key(q.direction, "")]) + last;
            Directed(Written([k] + ([q] + last))) == [k.prop, q.prop] + Directed(Written(left))
  {
    var left := (if q.direction == "" then [] else [Key(q.direction, "")]) + last;
    hide Written, Directed, IsDirection;
    WrittenCons(k, [q] + last);
    WrittenCons(q, last);
    LeftWritten(q, last);
    WithDirection(k.prop, q.prop, Written(left));
  }

  lemma LeftWritten(q: Key, last: seq<Key>)
    ensures var left := (if q.direction == "" then [] else [Key(q.direction, "")]) + last;
            [q.prop] + (if q.direction == "" then [] else [q.direction]) + Written(last) == [q.prop] + Written(left)
  {
    hide Written;
    if q.direction == "" {
      assert [] + last == last && [q.prop] + [] == [q.prop];
    } else {
      WrittenCons(Key(q.direction, ""), last);
      assert [q.direction] + [] == [q.direction];
      Assoc([q.prop], [q.direction], Written(last));
    }
  }

  lemma WrittenHead(keys: seq<Key>)
    requires keys != []
    ensures Written(keys) != [] && Written(keys)[0] == keys[0].prop
  {
  }

  lemma WithDirection(p: string, d: string, rest: seq<string>)
    requires IsDirection(d)
    ensures Directed([p] + [d] + rest) == [p, d] + Directed(rest) == Directed([p] + ([d] + rest))
    ensures Directed([p] + [] + ([d] + rest)) == [p, d] + Directed(rest)
  {
    hide IsDirection;
    var w := [p] + [d] + rest;
    assert w == [p] + ([d] + rest) == [p] + [] + ([d] + rest);
    assert w[1] == d && w[2..] == rest;
  }

  lemma WithoutDirection(p: string, rest: seq<string>)
    requires rest == [] || !IsDirection(rest[0])
    ensures Directed([p] + [] + rest) == [p, ASC] + Directed(rest)
  {
    hide IsDirection;
    var w := [p] + [] + rest;
    assert w[1..] == rest;
  }

  lemma RestGood(keys: seq<Key>)
    requires GoodKeys(keys)
    ensures keys != [] ==> GoodKeys(keys[1..])
    ensures |keys| > 1 ==> GoodKeys(LeftOver(keys))
  {
    assert |keys| > 1 ==> GoodKey(keys[1]);
    DirectionsBare();
  }

  /** No more comes out than was meant. */
  lemma {:induction false} NoMoreThanMeant(keys: seq<Key>)
    requires GoodKeys(keys)
    ensures |Directed(Written(keys))| <= 2 * |keys|
    decreases |keys|
  {
    hide IsDirection, GoodKey, Written;
    if keys == [] {
      NothingWritten();
    } else {
      FirstKeyRead(keys);
      RestGood(keys);
      NoMoreThanMeant(keys[1..]);
      if |keys| > 1 {
        NoMoreThanMeant(LeftOver(keys));
      }
    }
  }

  lemma NothingWritten()
    ensures Written([]) == [] && Understood([]) == [] && Directed([]) == []
  {
  }

  lemma {:induction false} UnderstoodLength(keys: seq<Key>)
    ensures |Understood(keys)| == 2 * |keys|
  {
    if keys != [] {
      UnderstoodLength(keys[1..]);
    }
  }

  lemma {:induction false} FirstWord(words: seq<string>)
    requires words != []
    ensures Directed(words) != [] && Directed(words)[0] == words[0]
  {
  }

  /** Keys written out are understood as they are meant exactly under that condition. */
  lemma {:induction false} KeysUnderstood(keys: seq<Key>)
    requires GoodKeys(keys)
    ensures Directed(Written(keys)) == Understood(keys) <==> AsMeant(keys)
    decreases |keys|
  {
    assert AsMeant([]);
    hide GoodKey, IsDirection, Written, Directed, AsMeant, Understood, GoodKeys;
    NothingWritten();
    if keys != [] {
      FirstKeyRead(keys);
      RestGood(keys);
      KeysUnderstood(keys[1..]);
      assert keys == [keys[0]] + keys[1..];
      WrittenCons(keys[0], keys[1..]);
      MeantStep(keys);
      if keys[0].direction == "" && |keys| > 1 && IsDirection(keys[1].prop) {
        Swallowed(keys);
        if keys[1] == Key(ASC, ASC) {
          KeysUnderstood(LeftOver(keys));
        }
      } else {
        var front := [keys[0].prop, if keys[0].direction == "" then ASC else keys[0].direction];
        SamePrefix(front, Directed(Written(keys[1..])), Understood(keys[1..]));
      }
    }
  }

  lemma SamePrefix(front: seq<string>, a: seq<string>, b: seq<string>)
    ensures front + a == front + b <==> a == b
  {
    if front + a == front + b {
      assert a == (front + a)[|front|..] && b == (front + b)[|front|..];
    }
  }

  lemma MeantStep(keys: seq<Key>)
    requires keys != [] && GoodKeys(keys)
    ensures AsMeant(keys) <==>
            if keys[0].direction == "" && |keys| > 1 && IsDirection(keys[1].prop)
            then keys[1] == Key(ASC, ASC) && AsMeant(LeftOver(keys)) else AsMeant(keys[1..])
  {
    hide IsDirection, GoodKey;
  }

  /** When the second property is swallowed, all depends on what is left over. */
  lemma Swallowed(keys: seq<Key>)
    requires |keys| > 1 && GoodKeys(keys) && keys[0].direction == "" && IsDirection(keys[1].prop)
    ensures Directed(Written(keys)) == Understood(keys)
       <==> keys[1] == Key(ASC, ASC) && Directed(Written(LeftOver(keys))) == Understood(LeftOver(keys))
  {
    assert GoodKey(keys[1]);
    var q, rest, left := keys[1], keys[2..], LeftOver(keys);
    FirstKeyRead(keys);
    RestGood(keys);
    assert keys == [keys[0]] + ([q] + rest);
    hide Bare, Written, Directed, Understood;
    WrittenCons(keys[0], [q] + rest);
    WrittenCons(q, rest);
    var meant := [q.prop, if q.direction == "" then ASC else q.direction] + Understood(rest);
    TwoAndRest(keys[0].prop, q.prop, ASC, Directed(Written(left)), meant);
    if q.direction == "" {
      assert left == rest;
      NoMoreThanMeant(rest);
      UnderstoodLength(rest);
    } else {
      WrittenCons(Key(q.direction, ""), rest);
      FirstWord(Written(left));
      assert meant[0] == q.prop;
    }
  }

  lemma TwoAndRest(p: string, a: string, b: string, x: seq<string>, y: seq<string>)
    ensures [p, a] + x == [p, b] + y <==> a == b && x == y
  {
    if [p, a] + x == [p, b] + y {
      assert ([p, a] + x)[1] == a && ([p, b] + y)[1] == b;
      assert ([p, a] + x)[2..] == x && ([p, b] + y)[2..] == y;
    }
  }

  lemma {:induction false} WrittenBare(keys: seq<Key>)
    requires GoodKeys(keys)
    ensures AllBare(Written(keys))
  {
    hide Bare, IsDirection;
    if keys != [] {
      assert GoodKey(keys[0]);
      DirectionIsBare(keys[0].direction);
      WrittenBare(keys[1..]);
    }
  }

  lemma DirectionIsBare(w: string)
    requires w == "" || IsDirection(w)
    ensures w == "" || Bare(w)
  {
  }

  /** From the string a user writes to the list the search takes its keys from. */
  lemma SortStringUnderstood(keys: seq<Key>)
    requires GoodKeys(keys)
    ensures Normalised(Spaced(Written(keys))) == Understood(keys) <==> AsMeant(keys)
  {
    hide Bare, Words, Directed, GoodKeys, AsMeant, FirstLine;
    var w := Written(keys);
    WrittenBare(keys);
    KeysUnderstood(keys);
    DirectedBare(w);
    SpacedIsOneLine(w);
    BareComeBack(w);
    SpacedIsOneLine(Directed(w));
    BareComeBack(Directed(w));
  }

  /** A property named like a direction after one that has none is lost. */
  lemma DescSwallowed(prop: string)
    requires !IsDirection(prop)
    ensures Directed(Written([Key(prop, ""), Key(DESC, "")])) == [prop, DESC]
  {
    var keys := [Key(prop, ""), Key(DESC, "")];
    assert keys[1..] == [Key(DESC, "")] && [Key(DESC, "")][1..] == [];
    assert Written([Key(DESC, "")]) == [DESC] + [] + Written([]);
    assert Written(keys) == [prop, DESC];
    assert [prop, DESC][2..] == [];
  }

  // ---------------------------------------------------------------- the code

  predicate AllKnown(props: seq<string>, known: set<string>) {
    forall k :: 0 <= k < |props| ==> props[k] in known
  }

  lemma NoKeys(known: set<string>)
    ensures Spaced(Directed([])) == "" && AllKnown(Props([]), known)
  {
  }

  /** What one turn of the loop takes off the words and puts out. */
  lemma OneKey(words: seq<string>, i: nat, dir: string, known: set<string>)
    requires i < |words| && dir == if i + 1 < |words| then words[i + 1] else ""
    ensures var two := dir == ASC || dir == DESC;
            var j := if two then i + 2 else i + 1;
            && j <= |words|
            && Spaced(Directed(words[i..]))
               == " " + words[i] + " " + (if two then dir else ASC) + Spaced(Directed(words[j..]))
            && (AllKnown(Props(words[i..]), known) <==> words[i] in known && AllKnown(Props(words[j..]), known))
  {
    hide Spaced;
    var w := words[i..];
    var two := dir == ASC || dir == DESC;
    assert w[1..] == words[i + 1..];
    if two {
      assert w[1] == dir && w[2..] == words[i + 2..];
      SpacedTwo(words[i], dir, Directed(words[i + 2..]));
      KnownCons(words[i], Props(words[i + 2..]), known);
    } else {
      assert |w| > 1 ==> w[1] == dir;
      SpacedTwo(words[i], ASC, Directed(words[i + 1..]));
      KnownCons(words[i], Props(words[i + 1..]), known);
    }
  }

  lemma SpacedTwo(a: string, b: string, rest: seq<string>)
    ensures Spaced([a, b] + rest) == " " + a + " " + b + Spaced(rest)
  {
    assert ([a, b] + rest)[1..] == [b] + rest;
    assert ([b] + rest)[1..] == rest;
    assert Spaced([b] + rest) == " " + b + Spaced(rest);
    assert Spaced([a, b] + rest) == " " + a + Spaced([b] + rest);
  }

  lemma KnownCons(p: string, rest: seq<string>, known: set<string>)
    ensures AllKnown([p] + rest, known) <==> p in known && AllKnown(rest, known)
  {
    var all := [p] + rest;
    if AllKnown(all, known) {
      assert all[0] in known;
      forall k | 0 <= k < |rest| ensures rest[k] in known {
        assert all[k + 1] == rest[k];
      }
    }
  }

  /** swish_stringlist_parse_sort_string; `known` stands for the look-up that ends the process for
      a property the configuration does not have. */
  method ParseSortString(sortString: string, known: set<string>) returns (ok: bool, sl: StringList)
    requires AllShort(Words(FirstLine(sortString))) && AllShort(Normalised(sortString))
    ensures ok <==> AllKnown(Props(Words(FirstLine(sortString))), known)
    ensures fresh(sl) && sl.Valid()
    ensures ok ==> sl.terminated && sl.Contents() == Normalised(sortString)
  {
    hide Words, AllShort, Spaced, Directed, Props, FirstLine, AllKnown;
    var normalized := "";
    ghost var words := Words(FirstLine(sortString));
    sl := Build(sortString);
    var i := 0;
    assert words[0..] == words;
    while i < sl.n
      invariant i <= sl.n == |words| && sl.Valid() && sl.terminated && sl.Contents() == words
      invariant Spaced(Directed(words)) == normalized + Spaced(Directed(words[i..]))
      invariant AllKnown(Props(words), known) <==> AllKnown(Props(words[i..]), known)
      decreases sl.n - i
    {
      var prop, dir := sl.word[i], sl.word[i + 1];
      assert sl.Contents()[i] == prop && (i + 1 < sl.n ==> sl.Contents()[i + 1] == dir);
      OneKey(words, i, dir, known);
      ghost var done := normalized;
      if prop !in known {
        return false, sl;
      }
      normalized := normalized + " " + prop + " ";
      if dir == ASC || dir == DESC {
        normalized := normalized + dir;
        i := i + 1;
      } else {
        normalized := normalized + ASC;
      }
      i := i + 1;
      Assoc(done, " " + prop + " " + (if IsDirection(dir) then dir else ASC), Spaced(Directed(words[i..])));
      assert normalized == done + (" " + prop + " " + (if IsDirection(dir) then dir else ASC));
    }
    assert words[i..] == [];
    NoKeys(known);
    assert normalized + "" == normalized;
    sl := Build(normalized);
    ok := true;
  }

  /** The keys a list of alternating words stands for, a true for "desc", in the order written. */
  function SortKeys(words: seq<string>): seq<(string, bool)> {
    if |words| < 2 then [] else [(words[0], words[1] != ASC)] + SortKeys(words[2..])
  }

  function Backwards<T>(s: seq<T>): (r: seq<T>)
    ensures |r| == |s|
  {
    if s == [] then [] else Backwards(s[1..]) + [s[0]]
  }

  /** The loop of `search` that fills the sorter, from the last pair of the list to the first. */
  method AddSortKeys(sl: StringList) returns (sorter: seq<(string, bool)>)
    requires sl.Valid() && Alternating(sl.Contents())
    ensures sorter == Backwards(SortKeys(sl.Contents()))
  {
    hide IsDirection, SortKeys, Backwards;
    ghost var words := sl.Contents();
    assert sl.n % 2 == 0;
    hide Alternating;
    sorter := [];
    var i := sl.n as int - 1;
    NoneLeft(words);
    while i > 0
      invariant -1 <= i < sl.n && i % 2 == 1
      invariant sorter == Backwards(SortKeys(words[i + 1..]))
      decreases i
    {
      assert words[i - 1] == sl.word[i - 1];
      assert words[i] == sl.word[i];
      OnePair(words, i);
      sorter := sorter + [(sl.word[i - 1], sl.word[i] != ASC)];
      i := i - 2;
    }
    assert words[0..] == words;
  }

  lemma NoneLeft(words: seq<string>)
    ensures Backwards(SortKeys(words[|words|..])) == []
  {
  }

  lemma OnePair(words: seq<string>, i: nat)
    requires 0 < i < |words|
    ensures Backwards(SortKeys(words[i - 1..]))
         == Backwards(SortKeys(words[i + 1..])) + [(words[i - 1], words[i] != ASC)]
  {
    assert words[i - 1..][2..] == words[i + 1..];
    var key := (words[i - 1], words[i] != ASC);
    assert ([key] + SortKeys(words[i + 1..]))[1..] == SortKeys(words[i + 1..]);
  }

  /** Every key of the string is added once, with its own direction, the last one first. */
  lemma {:induction false} KeysAdded(keys: seq<Key>, k: nat)
    requires k < |keys|
    ensures var added := Backwards(SortKeys(Understood(keys)));
            && |added| == |keys|
            && added[|keys| - 1 - k] == (keys[k].prop, keys[k].direction != "" && keys[k].direction != ASC)
    decreases |keys|
  {
    KeyCount(keys);
    var rest := keys[1..];
    assert Understood(keys)[2..] == Understood(rest);
    KeyCount(rest);
    if k > 0 {
      KeysAdded(rest, k - 1);
    }
  }

  lemma {:induction false} KeyCount(keys: seq<Key>)
    ensures |SortKeys(Understood(keys))| == |keys|
  {
    if keys != [] {
      assert Understood(keys)[2..] == Understood(keys[1..]);
      KeyCount(keys[1..]);
    }
  }
}
