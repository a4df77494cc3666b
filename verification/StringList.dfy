/** String lists: the word reader getword and the growing list of string.c. */
module StringLists {
  import opened CString
  import opened Seqs

  /** SWISH_MAX_WORD_LEN */
  const MAX_WORD: nat := 256

  datatype Got = Got(word: string, rest: string)

  predicate IsQuote(c: char) {
    c == '"' || c == '\''
  }

  /** The inside of a word: up to a blank, or in quotes up to the same quote, where a backslash
      makes the next character an ordinary one.  A newline ends it either way. */
  function ReadWord(s: string, quote: char, escaped: bool): (r: Got)
    ensures |r.rest| <= |s|
    ensures s == "" || |r.rest| < |s|
  {
    if s == "" then Got(if escaped then "\\" else "", "")
    else if s[0] == '\\' && !escaped && quote != NUL then ReadWord(s[1..], quote, true)
    else if s[0] == '\n' || s[0] == '\r' then Got(if escaped then "\\" else "", s[1..])
    else if !escaped && (s[0] == quote || (quote == NUL && IsSpace(s[0]))) then Got("", s[1..])
    else
      var g := ReadWord(s[1..], quote, false);
      Got([s[0]] + g.word, g.rest)
  }

  /** What getword reads off the front of a line; an empty word at its end. */
  function Word(s: string): (r: Got)
    ensures |r.rest| <= |s| && (r.word != "" ==> |r.rest| < |s|)
  {
    var t := SkipSpace(s);
    if t == "" then Got("", "")
    else if IsQuote(t[0]) then ReadWord(t[1..], t[0], false)
    else ReadWord(t, NUL, false)
  }

  /** The words swish_stringlist_build finds: an empty one ends the list. */
  function Words(s: string): seq<string>
    decreases |s|
  {
    var g := Word(s);
    if g.word == "" then [] else [g.word] + Words(g.rest)
  }

  function FirstLine(s: string): (r: string)
    ensures r <= s && '\n' !in r && (|r| < |s| ==> s[|r|] == '\n')
    ensures '\n' !in s ==> r == s
  {
    if s == "" || s[0] == '\n' then "" else [s[0]] + FirstLine(s[1..])
  }

  predicate AllShort(words: seq<string>) {
    forall k :: 0 <= k < |words| ==> |words[k]| <= MAX_WORD
  }

  lemma ReadStep(s: string, quote: char, escaped: bool)
    ensures ReadWord(s, quote, escaped) ==
      if s == "" then Got(if escaped then "\\" else "", "")
      else if s[0] == '\\' && !escaped && quote != NUL then ReadWord(s[1..], quote, true)
      else if s[0] == '\n' || s[0] == '\r' then Got(if escaped then "\\" else "", s[1..])
      else if !escaped && (s[0] == quote || (quote == NUL && IsSpace(s[0]))) then Got("", s[1..])
      else Got([s[0]] + ReadWord(s[1..], quote, false).word, ReadWord(s[1..], quote, false).rest)
  {
    hide IsSpace;
  }

  method Put(buf: array<char>, cur: nat, c: char)
    requires cur < buf.Length
    modifies buf
    ensures buf[..cur] == old(buf[..cur]) && buf[cur] == c && buf[..cur + 1] == old(buf[..cur]) + [c]
  {
    buf[cur] := c;
  }

  /** getword's loop on `t` from `p0`: the cursor moves on, and the word is put together in `buf`. */
  method FillWord(t: string, p0: nat, quote: char, buf: array<char>) returns (cur: nat, p: nat)
    requires p0 <= |t| && buf.Length == MAX_WORD + 1
    requires |ReadWord(t[p0..], quote, false).word| <= MAX_WORD
    modifies buf
    ensures cur <= MAX_WORD && p <= |t| && Got(buf[..cur], t[p..]) == ReadWord(t[p0..], quote, false)
  {
    hide IsSpace, ReadWord;
    var backslash := false;
    cur, p := 0, p0;
    ghost var all := ReadWord(t[p0..], quote, false);
    while p < |t|
      invariant p <= |t| && cur <= |all.word|
      invariant buf[..cur] + ReadWord(t[p..], quote, backslash).word == all.word
      invariant ReadWord(t[p..], quote, backslash).rest == all.rest
      decreases |t| - p
    {
      ReadStep(t[p..], quote, backslash);
      assert t[p..][1..] == t[p + 1..];
      var uc := t[p];
      if uc == '\\' && !backslash && quote != NUL {
        p := p + 1;
        backslash := true;
        continue;
      }
      if uc == '\n' || uc == '\r' {
        p := p + 1;
        Ended(t, p, all, buf[..cur], backslash);
        cur := Finish(buf, cur, backslash);
        return;
      }
      if !backslash {
        if uc == quote || (quote == NUL && IsSpace(uc)) {
          p := p + 1;
          Ended(t, p, all, buf[..cur], backslash);
          cur := Finish(buf, cur, backslash);
          return;
        }
      }
      Assoc(buf[..cur], [uc], ReadWord(t[p + 1..], quote, false).word);
      backslash := false;
      Put(buf, cur, uc);
      cur := cur + 1;
      p := p + 1;
    }
    ReadStep(t[p..], quote, backslash);
    Ended(t, p, all, buf[..cur], backslash);
    cur := Finish(buf, cur, backslash);
  }

  /** Where the loop ends, a backslash that was to escape something is the last of the word. */
  lemma Ended(t: string, p: nat, all: Got, sofar: string, backslash: bool)
    requires p <= |t| && t[p..] == all.rest && sofar + (if backslash then "\\" else "") == all.word
    ensures all == Got(if backslash then sofar + ['\\'] else sofar, t[p..])
  {
  }

  /** The end of getword: a pending backslash, and the NUL. */
  method Finish(buf: array<char>, cur0: nat, backslash: bool) returns (cur: nat)
    requires cur0 + (if backslash then 1 else 0) <= MAX_WORD && buf.Length == MAX_WORD + 1
    modifies buf
    ensures cur <= MAX_WORD && buf[..cur] == if backslash then old(buf[..cur0]) + ['\\'] else old(buf[..cur0])
    ensures buf[cur] == NUL
  {
    cur := cur0;
    if backslash {
      Put(buf, cur, '\\');
      cur := cur + 1;
    }
    Put(buf, cur, NUL);
  }

  /** getword */
  method GetWord(s: string) returns (g: Got)
    requires |Word(s).word| <= MAX_WORD
    ensures g == Word(s)
  {
    hide IsSpace, ReadWord;
    var t := SkipSpace(s);
    if t == "" {
      return Got("", t);
    }
    var buf := new char[MAX_WORD + 1];
    assert t[0..] == t;
    var cur, p;
    if IsQuote(t[0]) {
      cur, p := FillWord(t, 1, t[0], buf);
    } else {
      cur, p := FillWord(t, 0, NUL, buf);
    }
    return Got(buf[..cur], t[p..]);
  }

  // ---------------------------------------------------------------- swish_StringList

  class StringList {
    var n: nat
    var max: nat
    var word: array<string>
    ghost var terminated: bool

    ghost predicate Valid()
      reads this, word
    {
      n <= max == word.Length && max >= 2 && (terminated ==> n < max && word[n] == "")
    }

    ghost function Contents(): seq<string>
      reads this, word
      requires Valid()
    {
      word[..n]
    }

    /** swish_stringlist_init */
    constructor ()
      ensures Valid() && fresh(word) && Contents() == [] && !terminated
    {
      n, max, terminated := 0, 2, false;
      word := new string[2](_ => "");
    }

    /** The realloc both users of it need. */
    method Grow(size: nat)
      requires Valid() && size >= max && !terminated
      modifies this`max, this`word
      ensures Valid() && fresh(word) && max == size && Contents() == old(Contents())
    {
      var bigger := new string[size](_ => "");
      forall k | 0 <= k < n {
        bigger[k] := word[k];
      }
      word, max := bigger, size;
    }

    /** swish_stringlist_add_string */
    method AddString(str: string) returns (count: nat)
      requires Valid() && !terminated
      modifies this, word
      ensures Valid() && !terminated && (word == old(word) || fresh(word))
      ensures Contents() == old(Contents()) + [str] && count == n
    {
      ghost var before := Contents();
      if n == max {
        Grow(max * 2);
      }
      assert word[..n] == before;
      word[n] := str;
      assert word[..n] == before;
      n := n + 1;
      assert word[..n] == before + [str];
      count := n;
    }

    /** The end of swish_stringlist_build: room for the terminating NULL, which "" stands for. */
    method Terminate()
      requires Valid() && !terminated
      modifies this, word
      ensures Valid() && terminated && (word == old(word) || fresh(word)) && Contents() == old(Contents())
    {
      ghost var before := Contents();
      if n == max {
        Grow(max + 1);
      }
      word[n] := "";
      terminated := true;
      assert word[..n] == before;
    }
  }

  /** swish_stringlist_build, on the first line of its argument. */
  method Build(line: string) returns (sl: StringList)
    requires AllShort(Words(FirstLine(line)))
    ensures fresh(sl) && fresh(sl.word) && sl.Valid() && sl.terminated && sl.Contents() == Words(FirstLine(line))
  {
    hide Word, Words, AllShort;
    sl := new StringList();
    var rest := FirstLine(line);
    ghost var all := Words(rest);
    assert all == [] + Words(rest);
    NextIsShort(all, [], rest);
    var g := GetWord(rest);
    while g.word != ""
      invariant fresh(sl) && fresh(sl.word) && sl.Valid() && !sl.terminated
      invariant g == Word(rest) && all == sl.Contents() + Words(rest)
      decreases |rest|
    {
      WordsStep(rest);
      Assoc(sl.Contents(), [g.word], Words(g.rest));
      var count := sl.AddString(g.word);
      rest := g.rest;
      NextIsShort(all, sl.Contents(), rest);
      g := GetWord(rest);
    }
    WordsStep(rest);
    assert sl.Contents() + [] == sl.Contents();
    sl.Terminate();
  }

  lemma NextIsShort(all: seq<string>, front: seq<string>, rest: string)
    requires AllShort(all) && all == front + Words(rest)
    ensures |Word(rest).word| <= MAX_WORD
  {
    hide Word;
    WordsStep(rest);
    if Word(rest).word != "" {
      assert all[|front|] == Word(rest).word;
    }
  }

  lemma WordsStep(s: string)
    ensures Words(s) == if Word(s).word == "" then [] else [Word(s).word] + Words(Word(s).rest)
    ensures Words(s) == [] ==> Word(s).word == ""
    ensures Word(s).word != "" ==> |Word(s).rest| < |s|
  {
    hide Word;
  }
}
