/** Named buffers: one text buffer a name, the texts added to it held apart by the byte \3. */
module NamedBuffers {
  import opened CString
  import opened Seqs

  /** SWISH_TOKENPOS_BUMPER */
  const BUMPER: char := '\U{3}'

  type Buffers = map<string, string>

  predicate NoBumper(s: string) {
    BUMPER !in s
  }

  // ---------------------------------------------------------------- splitting

  /** One more byte: a \3 opens a new part, any other byte lengthens the last one. */
  function AddByte(parts: seq<string>, c: char): (r: seq<string>)
    requires |parts| >= 1
    ensures |r| >= 1
  {
    var k := |parts| - 1;
    if c == BUMPER then parts + [""] else parts[..k] + [parts[k] + [c]]
  }

  /** The parts of `s` between its \3 bytes; always at least one. */
  function Split(s: string): (parts: seq<string>)
    ensures |parts| >= 1
  {
    if s == "" then [""] else AddByte(Split(s[..|s| - 1]), s[|s| - 1])
  }

  lemma SplitSnoc(s: string, c: char)
    ensures Split(s + [c]) == AddByte(Split(s), c)
  {
    assert (s + [c])[..|s|] == s;
  }

  function Kept(part: string): (kept: seq<string>)
    ensures |kept| <= 1
  {
    if AllSpace(part) then [] else [part]
  }

  /** The parts that are not blank, in order. */
  function Keep(parts: seq<string>): (kept: seq<string>)
    ensures |kept| <= |parts|
  {
    if parts == [] then []
    else Kept(parts[0]) + Keep(parts[1..])
  }

  function Pieces(s: string): seq<string> {
    Keep(Split(s))
  }

  /** Put back together with a \3 between each two parts. */
  function Unsplit(parts: seq<string>): string
    requires |parts| >= 1
  {
    if |parts| == 1 then parts[0]
    else Unsplit(parts[..|parts| - 1]) + [BUMPER] + parts[|parts| - 1]
  }

  /** `Split` is the only way to cut `s` at every \3: gluing undoes it and no part holds one. */
  lemma {:induction false} SplitUnsplit(s: string)
    ensures Unsplit(Split(s)) == s
    ensures forall p :: p in Split(s) ==> NoBumper(p)
  {
    if s != "" {
      var front, c := s[..|s| - 1], s[|s| - 1];
      SplitUnsplit(front);
      assert s == front + [c];
      UnsplitAddByte(Split(front), c);
      NoBumperAddByte(Split(front), c);
    }
  }

  lemma {:induction false} UnsplitAddByte(parts: seq<string>, c: char)
    requires |parts| >= 1
    ensures Unsplit(AddByte(parts, c)) == Unsplit(parts) + [c]
  {
    var k, r := |parts| - 1, AddByte(parts, c);
    if c == BUMPER {
      assert r[..|r| - 1] == parts;
      assert Unsplit(r) == Unsplit(parts) + [BUMPER] + "";
    } else {
      assert r[..k] == parts[..k];
      if k > 0 {
        var front := Unsplit(parts[..k]) + [BUMPER];
        assert Unsplit(r) == front + (parts[k] + [c]) == (front + parts[k]) + [c];
      }
    }
  }

  lemma NoBumperAddByte(parts: seq<string>, c: char)
    requires |parts| >= 1
    requires forall p :: p in parts ==> NoBumper(p)
    ensures forall p :: p in AddByte(parts, c) ==> NoBumper(p)
  {
    var k := |parts| - 1;
    assert parts[k] in parts;
    assert c != BUMPER ==> NoBumper(parts[k] + [c]);
  }

  lemma {:induction false} UnsplitSplit(parts: seq<string>)
    requires |parts| >= 1
    requires forall p :: p in parts ==> NoBumper(p)
    ensures Split(Unsplit(parts)) == parts
  {
    var k := |parts| - 1;
    SplitPlain(parts[k]);
    if k != 0 {
      UnsplitSplit(parts[..k]);
      SplitJoin(Unsplit(parts[..k]), parts[k]);
      assert parts == parts[..k] + [parts[k]];
    }
  }

  lemma {:induction false} SplitJoin(a: string, b: string)
    ensures Split(a + [BUMPER] + b) == Split(a) + Split(b)
  {
    if b == "" {
      assert a + [BUMPER] + b == a + [BUMPER];
      SplitSnoc(a, BUMPER);
    } else {
      var front, c := b[..|b| - 1], b[|b| - 1];
      SplitJoin(a, front);
      assert a + [BUMPER] + b == (a + [BUMPER] + front) + [c];
      SplitSnoc(a + [BUMPER] + front, c);
      AddByteConcat(Split(a), Split(front), c);
    }
  }

  lemma AddByteConcat(p: seq<string>, q: seq<string>, c: char)
    requires |q| >= 1
    ensures AddByte(p + q, c) == p + AddByte(q, c)
  {
  }

  /** Text without a \3 only lengthens the last part. */
  lemma {:induction false} SplitExtend(a: string, t: string)
    requires NoBumper(t)
    ensures var k := |Split(a)| - 1;
            Split(a + t) == Split(a)[..k] + [Split(a)[k] + t]
  {
    var k := |Split(a)| - 1;
    if t == "" {
      assert a + t == a;
      assert Split(a)[k] + t == Split(a)[k];
    } else {
      var front, c := t[..|t| - 1], t[|t| - 1];
      assert t == front + [c];
      SplitExtend(a, front);
      assert a + t == (a + front) + [c];
      SplitSnoc(a + front, c);
      assert Split(a)[k] + front + [c] == Split(a)[k] + t;
    }
  }

  lemma SplitPlain(t: string)
    requires NoBumper(t)
    ensures Split(t) == [t]
  {
    SplitExtend("", t);
    assert "" + t == t;
  }

  lemma {:induction false} KeepConcat(p: seq<string>, q: seq<string>)
    ensures Keep(p + q) == Keep(p) + Keep(q)
  {
    hide Kept;
    if p == [] {
      assert p + q == q;
    } else {
      KeepConcat(p[1..], q);
      assert (p + q)[1..] == p[1..] + q;
      assert (p + q)[0] == p[0];
      Assoc(Kept(p[0]), Keep(p[1..]), Keep(q));
    }
  }

  lemma PiecesJoin(a: string, b: string)
    ensures Pieces(a + [BUMPER] + b) == Pieces(a) + Pieces(b)
  {
    SplitJoin(a, b);
    KeepConcat(Split(a), Split(b));
  }

  lemma PiecesPlain(t: string)
    requires NoBumper(t)
    ensures Pieces(t) == Kept(t)
  {
    SplitPlain(t);
  }

  /** One part and its bumper, peeled off the front. */
  lemma PiecesFirst(str: string, len: nat, kept: seq<string>)
    requires len < |str| && str[len] == BUMPER && NoBumper(str[..len])
    ensures kept + Pieces(str) == kept + Kept(str[..len]) + Pieces(str[len + 1..])
  {
    assert str == str[..len] + [BUMPER] + str[len + 1..];
    PiecesJoin(str[..len], str[len + 1..]);
    PiecesPlain(str[..len]);
  }

  /** xmlStrstr(str, "\3"): how far the first bumper is, or the length when there is none. */
  method Find(str: string) returns (at: nat)
    ensures at <= |str| && NoBumper(str[..at])
    ensures at < |str| ==> str[at] == BUMPER
  {
    at := 0;
    while at < |str| && str[at] != BUMPER
      invariant at <= |str| && NoBumper(str[..at])
    {
      at := at + 1;
      assert str[..at] == str[..at - 1] + [str[at - 1]];
    }
  }

  /** newSVpvn of a part, unless it is empty or blank. */
  method PushPart(strings: seq<string>, part: string) returns (r: seq<string>)
    ensures r == strings + Kept(part)
  {
    var blank := AllWsLen(part, |part|);
    assert part[..|part|] == part;
    r := if |part| != 0 && !blank then strings + [part] else strings;
  }

  /** sp_nb_hash_to_phash: walk the buffer from bumper to bumper and keep what is not blank. */
  method SplitBuffer(content: string) returns (strings: seq<string>)
    ensures strings == Pieces(CStr(content))
  {
    var str := CStr(content);
    strings := [];
    var len := Find(str);
    while len < |str|
      invariant 0 <= len <= |str| && NoBumper(str[..len])
      invariant len < |str| ==> str[len] == BUMPER
      invariant Pieces(CStr(content)) == strings + Pieces(str)
      decreases |str|
    {
      PiecesFirst(str, len, strings);
      strings := PushPart(strings, str[..len]);
      str := str[len + 1..];
      len := Find(str);
    }
    assert str[..len] == str;
    PiecesPlain(str);
    strings := PushPart(strings, str);
  }

  // ---------------------------------------------------------------- adding

  function Content(nb: Buffers, name: string): string {
    if name in nb then nb[name] else ""
  }

  /** What swish_nb_add_str (no whitespace cleaning, autovivify on) leaves in the hash. */
  function AddStr(nb: Buffers, name: string, text: string): Buffers {
    if AllSpace(CStr(text)) then nb
    else
      var before := Content(nb, name);
      nb[name := (if before == "" then "" else before + [BUMPER]) + text]
  }

  function AddAll(nb: Buffers, names: seq<string>, text: string): Buffers {
    if names == [] then nb
    else AddStr(AddAll(nb, names[..|names| - 1], text), names[|names| - 1], text)
  }

  lemma AddAllSnoc(nb: Buffers, names: seq<string>, name: string, text: string)
    ensures AddAll(nb, names + [name], text) == AddStr(AddAll(nb, names, text), name, text)
  {
    assert (names + [name])[..|names|] == names;
  }

  lemma AddAllOne(nb: Buffers, name: string, text: string)
    ensures AddAll(nb, [name], text) == AddStr(nb, name, text)
  {
    hide AddStr;
    assert [name][..0] == [];
    assert AddAll(nb, [name], text) == AddStr(AddAll(nb, [], text), name, text);
  }

  /** Adding a text adds its pieces to the named buffer and touches no other. */
  lemma AddStrPieces(nb: Buffers, name: string, text: string, m: string)
    requires NoNul(text)
    ensures Pieces(Content(AddStr(nb, name, text), m))
         == Pieces(Content(nb, m)) + (if m == name then Pieces(text) else [])
  {
    PiecesPlain("");
    if AllSpace(text) {
      assert NoBumper(text) by {
        assert forall i :: 0 <= i < |text| ==> text[i] != BUMPER;
      }
      PiecesPlain(text);
    } else if m == name {
      var before := Content(nb, m);
      if before == "" {
        assert "" + text == text;
      } else {
        PiecesJoin(before, text);
      }
    }
  }

  class NamedBuffer {
    var hash: Buffers

    /** swish_nb_init: an empty buffer for every key of the configuration hash. */
    constructor (confhash: set<string>)
      ensures hash == map k | k in confhash :: ""
    {
      hash := map k | k in confhash :: "";
    }

    /** swish_nb_add_buf / swish_nb_add_str with cleanwsp off and autovivify on. */
    method AddBuf(name: string, text: string)
      modifies this
      ensures hash == AddStr(old(hash), name, text)
    {
      var blank := AllWsLen(CStr(text), |CStr(text)|);
      assert CStr(text)[..|CStr(text)|] == CStr(text);
      if blank {
        return;
      }
      if name !in hash {
        hash := hash[name := ""];
      }
      if |hash[name]| != 0 {
        hash := hash[name := hash[name] + [BUMPER]];
      }
      hash := hash[name := hash[name] + text];
    }

    /** swish_buffer_concat: every buffer of `this` takes what `other` holds under the same name. */
    method Concat(other: NamedBuffer)
      requires this != other
      modifies this
      ensures hash == Merged(old(hash), other.hash)
    {
      var todo := hash.Keys;
      while todo != {}
        invariant todo <= hash.Keys == old(hash).Keys
        invariant forall m :: m in todo ==> hash[m] == old(hash)[m]
        invariant forall m :: m in hash.Keys - todo ==> hash[m] == CatBuffer(old(hash)[m], Content(other.hash, m))
        decreases todo
      {
        var name :| name in todo;
        var text := CStr(Content(other.hash, name));
        if text != "" {
          var sep := if |hash[name]| != 0 then [BUMPER] else "";
          hash := hash[name := hash[name] + sep + text];
        }
        todo := todo - {name};
      }
    }
  }

  /** cat_buffer: append the C string, after a \3 when there is something to keep apart. */
  function CatBuffer(buffer: string, other: string): string {
    var text := CStr(other);
    if text == "" then buffer else buffer + (if buffer != "" then [BUMPER] else "") + text
  }

  function Merged(nb: Buffers, other: Buffers): Buffers {
    map m | m in nb :: CatBuffer(nb[m], Content(other, m))
  }

  /** Merging named buffers appends the pieces of the second to those of the first, name by name;
      what the second holds under a name the first does not have is lost. */
  lemma MergedPieces(nb: Buffers, other: Buffers, m: string)
    requires NoNul(Content(other, m))
    ensures Pieces(Content(Merged(nb, other), m))
         == Pieces(Content(nb, m)) + if m in nb then Pieces(Content(other, m)) else []
  {
    PiecesPlain("");
    if m in nb {
      CatBufferPieces(nb[m], Content(other, m));
    }
  }

  lemma CatBufferPieces(a: string, b: string)
    requires NoNul(b)
    ensures Pieces(CatBuffer(a, b)) == Pieces(a) + Pieces(b)
  {
    PiecesPlain("");
    if b != "" {
      if a == "" {
        assert a + "" + b == b;
      } else {
        PiecesJoin(a, b);
      }
    }
  }

  // ---------------------------------------------------------------- byte for byte

  /** Texts put together with one \3 between each two. */
  function Glued(parts: seq<string>): string {
    if parts == [] then "" else Unsplit(parts)
  }

  function AddTexts(nb: Buffers, name: string, texts: seq<string>): Buffers {
    if texts == [] then nb else AddStr(AddTexts(nb, name, texts[..|texts| - 1]), name, texts[|texts| - 1])
  }

  lemma GluedSnoc(parts: seq<string>, t: string)
    requires t != "" && forall p :: p in parts ==> p != ""
    ensures Glued(parts + [t]) == (if parts == [] then "" else Glued(parts) + [BUMPER]) + t
    ensures parts != [] ==> Glued(parts) != ""
  {
    var all := parts + [t];
    assert all[..|parts|] == parts && all[|parts|] == t;
    if |parts| == 1 {
      assert parts[0] in parts;
    }
  }

  lemma {:induction false} KeptOnly(texts: seq<string>)
    ensures forall p :: p in Keep(texts) ==> p != ""
  {
    if texts != [] {
      KeptOnly(texts[1..]);
    }
  }

  lemma KeepSnoc(texts: seq<string>, t: string)
    ensures Keep(texts + [t]) == Keep(texts) + Kept(t)
  {
    hide Kept;
    assert [t][1..] == [] && Keep([t]) == Kept(t) + Keep([]);
    KeepConcat(texts, [t]);
  }

  /** What was added to a buffer is in it byte for byte: the texts that are not blank, a \3 between each
      two and none before, behind or doubled; and no other buffer changes. */
  lemma {:induction false} TextsJoined(nb: Buffers, name: string, texts: seq<string>)
    requires Content(nb, name) == "" && forall t :: t in texts ==> NoNul(t)
    ensures Content(AddTexts(nb, name, texts), name) == Glued(Keep(texts))
    ensures forall m :: m != name ==> (m in AddTexts(nb, name, texts) <==> m in nb)
                                      && Content(AddTexts(nb, name, texts), m) == Content(nb, m)
  {
    hide AllSpace, NoNul, Unsplit;
    if texts != [] {
      var k := |texts| - 1;
      var t := texts[k];
      TextsJoined(nb, name, texts[..k]);
      assert texts == texts[..k] + [t] && NoNul(t);
      KeepSnoc(texts[..k], t);
      KeptOnly(texts[..k]);
      hide Glued, Keep, AddTexts;
      AddOne(AddTexts(nb, name, texts[..k]), name, t, Keep(texts[..k]));
    }
  }

  lemma AddOne(nb: Buffers, name: string, t: string, parts: seq<string>)
    requires NoNul(t) && Content(nb, name) == Glued(parts) && forall p :: p in parts ==> p != ""
    ensures Content(AddStr(nb, name, t), name) == Glued(parts + Kept(t))
    ensures forall m :: m != name ==> (m in AddStr(nb, name, t) <==> m in nb)
                                      && Content(AddStr(nb, name, t), m) == Content(nb, m)
  {
    hide NoNul, Unsplit, Glued;
    if AllSpace(t) {
      assert parts + [] == parts;
    } else {
      NotBlank(t);
      GluedSnoc(parts, t);
      NoneGlued();
      hide AllSpace;
    }
  }

  lemma NotBlank(t: string)
    ensures !AllSpace(t) ==> t != ""
  {
  }

  lemma NoneGlued()
    ensures Glued([]) == ""
  {
  }

  /** Merging puts one \3 between what was there and what comes, when there is both. */
  lemma MergedJoined(nb: Buffers, other: Buffers, m: string)
    requires NoNul(Content(other, m))
    ensures Merged(nb, other).Keys == nb.Keys
    ensures m in nb ==>
              var (a, b) := (nb[m], Content(other, m));
              Merged(nb, other)[m] == if a == "" then b else if b == "" then a else a + "\U{3}" + b
  {
    assert [BUMPER] == "\U{3}";
  }
}
