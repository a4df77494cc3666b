/** Comments that ask for something: mycomments of parser.c lets a document turn indexing off and on. */
module Directives {
  import opened CString
  import opened Seqs

  const NOINDEX := "noindex"
  const INDEX := "index"
  const COMMAND := "swishcommand"

  datatype Directive = Blank | NoIndex | Index | Command | Plain

  /** What mycomments makes of a comment. */
  function DirectiveOf(cmt: string): Directive {
    var text := TrimEnd(SkipSpace(cmt));
    var command := COMMAND <= Lower(text);
    var word := if command then SkipSpace(text[|COMMAND|..]) else text;
    if text == "" then Blank
    else if Lower(word) == NOINDEX then NoIndex
    else if Lower(word) == INDEX then Index
    else if command then Command
    else Plain
  }

  // ---------------------------------------------------------------- what that means

  /** The comment is `word` in any case, with blanks around it and perhaps SwishCommand, in any
      case too, and more blanks before it. */
  predicate SaysSo(cmt: string, word: string, lead: string, cmd: string, gap: string, w: string, tail: string) {
    && cmt == lead + (cmd + gap + w) + tail
    && AllSpace(lead) && AllSpace(gap) && AllSpace(tail)
    && (cmd + gap == "" || Lower(cmd) == COMMAND) && Lower(w) == word
  }

  ghost predicate Says(cmt: string, word: string) {
    exists lead, cmd, gap, w, tail :: SaysSo(cmt, word, lead, cmd, gap, w, tail)
  }

  predicate StartsSo(cmt: string, lead: string, cmd: string, rest: string) {
    cmt == lead + (cmd + rest) && AllSpace(lead) && Lower(cmd) == COMMAND
  }

  /** Its first word starts with SwishCommand. */
  ghost predicate Commands(cmt: string) {
    exists lead, cmd, rest :: StartsSo(cmt, lead, cmd, rest)
  }

  lemma {:induction false} SkipLead(lead: string, rest: string)
    requires AllSpace(lead) && (rest != "" ==> !IsSpace(rest[0]))
    ensures SkipSpace(lead + rest) == rest
  {
    hide IsSpace;
    if lead == "" {
      assert lead + rest == rest;
    } else {
      assert (lead + rest)[1..] == lead[1..] + rest;
      SkipLead(lead[1..], rest);
    }
  }

  lemma {:induction false} TrimTail(front: string, tail: string)
    requires AllSpace(tail) && (front != "" ==> !IsSpace(front[|front| - 1]))
    ensures TrimEnd(front + tail) == front
  {
    hide IsSpace;
    if tail == "" {
      assert front + tail == front;
    } else {
      var k := |tail| - 1;
      assert (front + tail)[..|front + tail| - 1] == front + tail[..k];
      TrimTail(front, tail[..k]);
    }
  }

  /** What is left of a comment without the blanks at its ends. */
  lemma CoreOf(cmt: string) returns (lead: string, core: string, tail: string)
    ensures cmt == lead + core + tail && core == TrimEnd(SkipSpace(cmt)) && AllSpace(lead) && AllSpace(tail)
    ensures core == "" <==> AllSpace(cmt)
  {
    hide IsSpace, SkipSpace, TrimEnd;
    var s := SkipSpace(cmt);
    lead, core := cmt[..|cmt| - |s|], TrimEnd(s);
    tail := s[|core|..];
    assert cmt == lead + s && s == core + tail;
    if core == "" {
      Blanks(lead, tail);
      assert cmt == lead + tail;
    } else {
      assert cmt[|lead|] == s[0];
    }
  }

  lemma Blanks(a: string, b: string)
    requires AllSpace(a) && AllSpace(b)
    ensures AllSpace(a + b)
  {
  }

  lemma CoreIs(lead: string, core: string, tail: string)
    requires AllSpace(lead) && AllSpace(tail) && core != "" && !IsSpace(core[0]) && !IsSpace(core[|core| - 1])
    ensures TrimEnd(SkipSpace(lead + core + tail)) == core
  {
    hide IsSpace, AllSpace, SkipSpace, TrimEnd;
    Assoc(lead, core, tail);
    SkipLead(lead, core + tail);
    TrimTail(core, tail);
  }

  lemma Unspaced(w: string, word: string)
    requires Lower(w) == word && word in {NOINDEX, INDEX, COMMAND}
    ensures w != "" && !IsSpace(w[0]) && !IsSpace(w[|w| - 1])
  {
    assert forall i :: 0 <= i < |w| ==> ToLower(w[i]) == word[i];
  }

  /** The word after SwishCommand, if that is there. */
  lemma WordOf(cmd: string, gap: string, w: string, word: string)
    requires word in {NOINDEX, INDEX} && AllSpace(gap) && Lower(w) == word
    requires cmd + gap == "" || Lower(cmd) == COMMAND
    ensures var core := cmd + gap + w; var command := COMMAND <= Lower(core);
            (if command then SkipSpace(core[|COMMAND|..]) else core) == w
  {
    hide IsSpace, Lower, AllSpace, SkipSpace;
    Unspaced(w, word);
    if cmd + gap == "" {
      assert cmd == "" && gap == "" && cmd + gap + w == w;
      NoCommand(word);
    } else {
      var core := cmd + gap + w;
      assert core == cmd + (gap + w);
      LowerParts(cmd, gap + w);
      assert core[|cmd|..] == gap + w;
      SkipLead(gap, w);
    }
  }

  /** A comment that says a word is read as that word. */
  lemma SaidIsRead(cmt: string, word: string, lead: string, cmd: string, gap: string, w: string, tail: string)
    requires word in {NOINDEX, INDEX} && SaysSo(cmt, word, lead, cmd, gap, w, tail)
    ensures DirectiveOf(cmt) == if word == NOINDEX then NoIndex else Index
  {
    hide IsSpace, Lower, AllSpace, SkipSpace, TrimEnd;
    var core := cmd + gap + w;
    Unspaced(w, word);
    if cmd + gap == "" {
      assert core == w;
    } else {
      Unspaced(cmd, COMMAND);
      assert core[0] == cmd[0];
    }
    assert core[|core| - 1] == w[|w| - 1];
    CoreIs(lead, core, tail);
    WordOf(cmd, gap, w, word);
  }

  lemma PartsOf(core: string) returns (cmd: string, gap: string, w: string)
    ensures core == cmd + gap + w && AllSpace(gap) && (cmd + gap == "" || Lower(cmd) == COMMAND)
    ensures w == if COMMAND <= Lower(core) then SkipSpace(core[|COMMAND|..]) else core
    ensures COMMAND <= Lower(core) ==> Lower(cmd) == COMMAND
  {
    hide IsSpace, SkipSpace;
    if COMMAND <= Lower(core) {
      var rest := core[|COMMAND|..];
      cmd, w := core[..|COMMAND|], SkipSpace(rest);
      gap := rest[..|rest| - |w|];
      hide Lower, AllSpace;
      LowerFront(core, |COMMAND|);
      assert core == cmd + rest && rest == gap + w;
    } else {
      cmd, gap, w := "", "", core;
    }
  }

  lemma LowerFront(s: string, n: nat)
    requires n <= |s|
    ensures Lower(s[..n]) == Lower(s)[..n]
  {
  }

  /** And only such a comment is. */
  lemma ReadIsSaid(cmt: string)
    ensures DirectiveOf(cmt) == NoIndex ==> Says(cmt, NOINDEX)
    ensures DirectiveOf(cmt) == Index ==> Says(cmt, INDEX)
    ensures COMMAND <= Lower(TrimEnd(SkipSpace(cmt))) ==> Commands(cmt)
  {
    hide IsSpace, Lower, AllSpace, SkipSpace, TrimEnd, Says, Commands;
    var lead, core, tail := CoreOf(cmt);
    CoreSaid(lead, core, tail);
  }

  lemma CoreSaid(lead: string, core: string, tail: string)
    requires AllSpace(lead) && AllSpace(tail)
    ensures Says(lead + core + tail, Lower(if COMMAND <= Lower(core) then SkipSpace(core[|COMMAND|..]) else core))
    ensures COMMAND <= Lower(core) ==> Commands(lead + core + tail)
  {
    hide *;
    var cmd, gap, w := PartsOf(core);
    Said(lead, cmd, gap, w, tail);
    if COMMAND <= Lower(core) {
      Starts(lead, cmd, gap, w, tail);
    }
  }

  lemma Said(lead: string, cmd: string, gap: string, w: string, tail: string)
    requires AllSpace(lead) && AllSpace(gap) && AllSpace(tail) && (cmd + gap == "" || Lower(cmd) == COMMAND)
    ensures Says(lead + (cmd + gap + w) + tail, Lower(w))
  {
    hide AllSpace, Lower;
    assert SaysSo(lead + (cmd + gap + w) + tail, Lower(w), lead, cmd, gap, w, tail);
  }

  lemma Starts(lead: string, cmd: string, gap: string, w: string, tail: string)
    requires AllSpace(lead) && Lower(cmd) == COMMAND
    ensures Commands(lead + (cmd + gap + w) + tail)
  {
    hide AllSpace, Lower;
    Assoc(cmd, gap, w);
    Assoc(cmd, gap + w, tail);
    Assoc(lead, cmd + (gap + w), tail);
    assert StartsSo(lead + (cmd + gap + w) + tail, lead, cmd, gap + w + tail);
  }

  lemma CommandSeen(cmt: string)
    requires Commands(cmt)
    ensures COMMAND <= Lower(TrimEnd(SkipSpace(cmt)))
  {
    var lead, cmd, rest :| StartsSo(cmt, lead, cmd, rest);
    Unspaced(cmd, COMMAND);
    KeepsWord(cmd, rest);
    var core := TrimEnd(cmd + rest);
    StillCommand(cmd, core);
    hide IsSpace, Lower, AllSpace, TrimEnd;
    assert (cmd + rest)[0] == cmd[0];
    SkipLead(lead, cmd + rest);
  }

  lemma StillCommand(cmd: string, core: string)
    requires cmd <= core && Lower(cmd) == COMMAND
    ensures COMMAND <= Lower(core)
  {
    LowerFront(core, |cmd|);
    assert core[..|cmd|] == cmd;
  }

  /** Trimming does not cut into a word. */
  lemma {:induction false} KeepsWord(cmd: string, rest: string)
    requires cmd != "" && !IsSpace(cmd[|cmd| - 1])
    ensures cmd <= TrimEnd(cmd + rest)
  {
    hide IsSpace;
    if rest == "" {
      assert cmd + rest == cmd;
    } else {
      var k := |rest| - 1;
      assert (cmd + rest)[..|cmd + rest| - 1] == cmd + rest[..k];
      KeepsWord(cmd, rest[..k]);
    }
  }

  /** What each reading means for the comment. */
  lemma DirectiveMeans(cmt: string)
    ensures DirectiveOf(cmt) == Blank <==> AllSpace(cmt)
    ensures DirectiveOf(cmt) == NoIndex <==> Says(cmt, NOINDEX)
    ensures DirectiveOf(cmt) == Index <==> Says(cmt, INDEX)
    ensures DirectiveOf(cmt) == Command <==> Commands(cmt) && !Says(cmt, NOINDEX) && !Says(cmt, INDEX)
  {
    hide IsSpace, Lower, SkipSpace, TrimEnd, SaysSo, Commands;
    var lead, core, tail := CoreOf(cmt);
    ReadIsSaid(cmt);
    if Commands(cmt) {
      CommandSeen(cmt);
    }
    if Says(cmt, NOINDEX) {
      var lead, cmd, gap, w, tail :| SaysSo(cmt, NOINDEX, lead, cmd, gap, w, tail);
      SaidIsRead(cmt, NOINDEX, lead, cmd, gap, w, tail);
    }
    if Says(cmt, INDEX) {
      var lead, cmd, gap, w, tail :| SaysSo(cmt, INDEX, lead, cmd, gap, w, tail);
      SaidIsRead(cmt, INDEX, lead, cmd, gap, w, tail);
    }
  }

  /** The tests of mycomments. */
  method ReadDirective(cmt: string) returns (d: Directive)
    ensures d == DirectiveOf(cmt)
    ensures d == Blank <==> AllSpace(cmt)
    ensures d == NoIndex <==> Says(cmt, NOINDEX)
    ensures d == Index <==> Says(cmt, INDEX)
    ensures d == Command <==> Commands(cmt) && !Says(cmt, NOINDEX) && !Says(cmt, INDEX)
  {
    hide Says, Commands, AllSpace;
    DirectiveMeans(cmt);
    var text := TrimEnd(SkipSpace(cmt));
    if text == "" {
      return Blank;
    }
    var swishcmd := COMMAND <= Lower(text);
    if swishcmd {
      text := SkipSpace(text[|COMMAND|..]);
    }
    if Lower(text) == NOINDEX {
      return NoIndex;
    } else if Lower(text) == INDEX {
      return Index;
    }
    return if swishcmd then Command else Plain;
  }

  lemma NoCommand(word: string)
    requires word in {NOINDEX, INDEX}
    ensures !(COMMAND <= word)
  {
  }

  lemma LowerParts(a: string, b: string)
    ensures Lower(a + b) == Lower(a) + Lower(b)
  {
  }
}
