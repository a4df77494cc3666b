/** Comments and header lines in whatever case they are written. */
module AnyCase {
  import opened CString
  import opened LetterCase
  import Directives
  import Headers
  import HeaderFields
  import StreamTheorems

  /** noindex and index in any case, by themselves or after a SwishCommand in any case. */
  lemma CommentInAnyCase(cmd: string, w: string)
    requires InSmall("swishcommand", cmd)
    ensures InSmall("noindex", w) ==>
              && Directives.DirectiveOf(w) == Directives.NoIndex
              && Directives.DirectiveOf(cmd + " " + w) == Directives.NoIndex
    ensures InSmall("index", w) ==>
              && Directives.DirectiveOf(w) == Directives.Index
              && Directives.DirectiveOf(cmd + " " + w) == Directives.Index
  {
    LowerText("swishcommand", cmd);
    if InSmall("noindex", w) {
      LowerText("noindex", w);
      Said(cmd, w, "noindex");
    }
    if InSmall("index", w) {
      LowerText("index", w);
      Said(cmd, w, "index");
    }
  }

  lemma Said(cmd: string, w: string, word: string)
    requires Lower(cmd) == "swishcommand" && Lower(w) == word && (word == "noindex" || word == "index")
    ensures Directives.DirectiveOf(w) == (if word == "noindex" then Directives.NoIndex else Directives.Index)
    ensures Directives.DirectiveOf(cmd + " " + w) == Directives.DirectiveOf(w)
  {
    hide Lower, Directives.DirectiveOf;
    BlankText();
    assert w == "" + ("" + "" + w) + "" && "" + "" == "";
    assert Directives.SaysSo(w, word, "", "", "", w, "");
    assert cmd + " " + w == "" + (cmd + " " + w) + "";
    assert Directives.SaysSo(cmd + " " + w, word, "", cmd, " ", w, "");
    Directives.DirectiveMeans(w);
    Directives.DirectiveMeans(cmd + " " + w);
  }

  lemma BlankText()
    ensures AllSpace("") && AllSpace(" ")
  {
  }

  lemma SpelledCommand()
    ensures InSmall("swishcommand", "SwishCommand")
  {
    LowerText("swishcommand", "SwishCommand");
    hide SmallOf;
  }

  lemma SpelledWords()
    ensures InSmall("noindex", "NOINDEX") && InSmall("noindex", "NoIndex") && InSmall("index", "INDEX")
  {
    LowerText("noindex", "NOINDEX");
    LowerText("noindex", "NoIndex");
    LowerText("index", "INDEX");
    hide SmallOf;
  }

  lemma SpelledLength()
    ensures InSmall("content-length", "CONTENT-LENGTH")
  {
    LowerText("content-length", "CONTENT-LENGTH");
    hide SmallOf;
  }

  /** Three comments. */
  lemma Comments()
    ensures Directives.DirectiveOf("NOINDEX") == Directives.NoIndex
    ensures Directives.DirectiveOf("INDEX") == Directives.Index
    ensures Directives.DirectiveOf("SwishCommand NoIndex") == Directives.NoIndex
  {
    SpelledCommand();
    SpelledWords();
    hide *;
    CommentInAnyCase("SwishCommand", "NOINDEX");
    CommentInAnyCase("SwishCommand", "INDEX");
    CommentInAnyCase("SwishCommand", "NoIndex");
    OneComment();
  }

  lemma OneComment()
    ensures "SwishCommand" + " " + "NoIndex" == "SwishCommand NoIndex"
  {
  }

  /** A length, however its name is written. */
  lemma LengthInAnyCase(info: Headers.DocInfo, name: string)
    requires InSmall("content-length", name)
    ensures Headers.ReadLine(info, name + ": " + "5") == Headers.Ok(info.(size := 5))
  {
    LowerText("content-length", name);
    SmallLength();
    Five(info);
    hide *;
    FiveIsText();
    HeaderFields.AnyCaseIsMeant(info, 0, name, "5");
  }

  lemma SmallLength()
    ensures |HeaderFields.NAMES| == 10 && HeaderFields.NAMES[0] == "Content-Length"
    ensures Lower("Content-Length") == "content-length"
  {
    LowerLength();
    hide Lower;
  }

  lemma LowerLength()
    ensures Lower("Content-Length") == "content-length"
  {
    LowerText("content-length", "Content-Length");
    hide SmallOf, HeaderFields.NAMES;
  }

  lemma FiveIsText()
    ensures NoNul("5") && "5" != "" && !IsSpace("5"[0])
  {
  }

  lemma Five(info: Headers.DocInfo)
    ensures HeaderFields.Meant(info, "Content-Length", "5") == Headers.Ok(info.(size := 5))
  {
    assert StreamTheorems.Digits(5) == "5";
    HeaderFields.NumberRead(5);
  }

  /** CONTENT-LENGTH: 5 */
  lemma CapitalLength(info: Headers.DocInfo)
    ensures Headers.ReadLine(info, "CONTENT-LENGTH: 5") == Headers.Ok(info.(size := 5))
  {
    SpelledLength();
    hide *;
    LengthInAnyCase(info, "CONTENT-LENGTH");
    OneLine();
  }

  lemma OneLine()
    ensures "CONTENT-LENGTH" + ": " + "5" == "CONTENT-LENGTH: 5"
  {
  }
}
