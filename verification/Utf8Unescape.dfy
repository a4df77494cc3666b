/** Reading escape sequences back: u8_read_escape_sequence and u8_unescape, and what a trip
    through u8_escape and back does to a text. */
module Utf8Unescape {
  import opened Seqs
  import opened Utf8
  import opened Utf8Strings
  import opened Utf8Convert
  import opened Utf8Escape

  /** `(uint32_t) c` for a signed char. */
  function Signed(c: bv8): bv32 {
    if c < 0x80 then c as bv32 else 0xFFFFFF00 | c as bv32
  }

  predicate IsDigit(c: bv8, octal: bool) {
    if octal then IsOctal(c) else IsHex(c)
  }

  /** Digits at the start of `s`, at most `max`. */
  function DigitRun(s: seq<bv8>, octal: bool, max: nat): (n: nat)
    ensures n <= |s| && n <= max
    ensures forall j :: 0 <= j < n ==> IsDigit(s[j], octal)
    ensures n < max && n < |s| ==> !IsDigit(s[n], octal)
  {
    if max > 0 && s != [] && IsDigit(s[0], octal) then 1 + DigitRun(s[1..], octal, max - 1) else 0
  }

  /** How many digits may follow `x`, `u` and `U`. */
  function MaxDigits(c: bv8): nat {
    if c == 0x78 then 2 else if c == 0x75 then 4 else if c == 0x55 then 8 else 0
  }

  /** The character a single letter stands for, or 0. */
  function Meaning(c: bv8): bv32 {
    if c == 0x6E then 0x0A
    else if c == 0x74 then 0x09
    else if c == 0x72 then 0x0D
    else if c == 0x62 then 0x08
    else if c == 0x66 then 0x0C
    else if c == 0x76 then 0x0B
    else if c == 0x61 then 0x07
    else 0
  }

  datatype Sequence = Sequence(ch: bv32, used: nat)

  /** What u8_read_escape_sequence makes of the bytes after a backslash. */
  function ReadEscape(s: seq<bv8>): (r: Sequence)
    requires s != []
    ensures 1 <= r.used <= |s|
  {
    var c := s[0];
    if Meaning(c) != 0 then Sequence(Meaning(c), 1)
    else if IsOctal(c) then
      var n := DigitRun(s, true, 3);
      Sequence(Value(s[..n], true), if n == 0 then 1 else n)
    else
      var n := DigitRun(s[1..], false, MaxDigits(c));
      if n == 0 then Sequence(Signed(c), 1) else Sequence(Value(s[1..1 + n], false), 1 + n)
  }

  /** What one turn of u8_unescape reads. */
  function Next(s: seq<bv8>): (r: Sequence)
    requires s != [] && (s[0] == BACKSLASH ==> |s| > 1)
    ensures 1 <= r.used <= |s|
  {
    if s[0] == BACKSLASH then
      var e := ReadEscape(s[1..]);
      Sequence(e.ch, 1 + e.used)
    else Sequence(Signed(s[0]), 1)
  }

  /** No backslash is left without a character to escape. */
  predicate Closed(s: seq<bv8>)
    decreases |s|
  {
    s == [] || ((s[0] == BACKSLASH ==> |s| > 1) && Closed(s[Next(s).used..]))
  }

  /** What u8_unescape makes of a string. */
  function Unescaped(s: seq<bv8>): (r: seq<bv8>)
    requires Closed(s)
    decreases |s|
  {
    if s == [] then [] else Enc(Next(s).ch) + Unescaped(s[Next(s).used..])
  }

  // ---------------------------------------------------------------- the code

  /** The `digs` loops: collect up to `max` digits from `i0` on. */
  method Digits(src: seq<bv8>, len: nat, i0: nat, octal: bool, max: nat) returns (digs: seq<bv8>, i: nat)
    requires i0 <= len < |src| && src[len] == 0
    ensures i == i0 + DigitRun(src[i0..len], octal, max) <= len && digs == src[i0..i]
  {
    hide IsDigit, DigitRun;
    ghost var run := DigitRun(src[i0..len], octal, max);
    digs, i := [], i0;
    NulIsNoDigit(octal);
    while IsDigit(src[i], octal) && |digs| < max
      invariant i0 <= i <= len && |digs| == i - i0 <= max && digs == src[i0..i]
      invariant run == i - i0 + DigitRun(src[i..len], octal, max - |digs|)
      decreases len - i
    {
      RunAt(src, i, len, octal, max - |digs|);
      digs := digs + [src[i]];
      i := i + 1;
    }
    RunAt(src, i, len, octal, max - |digs|);
  }

  lemma RunAt(src: seq<bv8>, i: nat, len: nat, octal: bool, max: nat)
    requires i <= len < |src|
    ensures DigitRun(src[i..len], octal, max)
         == if max > 0 && i < len && IsDigit(src[i], octal) then 1 + DigitRun(src[i + 1..len], octal, max - 1) else 0
  {
    hide IsDigit, DigitRun;
    RunStep(src[i..len], octal, max);
    if i < len {
      SliceOfSlice(src, i, len, 1, len - i);
      assert src[i..len][1..] == src[i..len][1..len - i];
    }
  }

  lemma RunStep(s: seq<bv8>, octal: bool, max: nat)
    ensures DigitRun(s, octal, max)
         == if max > 0 && s != [] && IsDigit(s[0], octal) then 1 + DigitRun(s[1..], octal, max - 1) else 0
  {
    hide IsDigit;
  }

  lemma NulIsNoDigit(octal: bool)
    ensures !IsDigit(0, octal)
  {
  }

  /** u8_read_escape_sequence at `p`. */
  method ReadEscapeSequence(src: seq<bv8>, len: nat, p: nat) returns (ch: bv32, used: nat)
    requires p < len < |src| && src[len] == 0
    ensures Sequence(ch, used) == ReadEscape(src[p..len])
  {
    hide Signed, Value, DigitRun;
    ghost var s := src[p..len];
    assert s[0] == src[p];
    var c := src[p];
    ch := Signed(c);
    used := 1;
    if Meaning(c) != 0 {
      ch := Meaning(c);
    } else if IsOctal(c) {
      var digs, i := Digits(src, len, p, true, 3);
      assert s[..i - p] == digs;
      OneDigit(s);
      ch := Value(digs, true);
      used := i - p;
    } else {
      var digs, i := Digits(src, len, p + 1, false, MaxDigits(c));
      assert src[p + 1..len] == s[1..];
      SliceOfSlice(src, p, len, 1, i - p);
      if |digs| > 0 {
        ch := Value(digs, false);
        used := i - p;
      }
    }
  }

  lemma OneDigit(s: seq<bv8>)
    requires s != [] && IsOctal(s[0])
    ensures DigitRun(s, true, 3) >= 1
  {
  }

  lemma Step(s: seq<bv8>)
    requires s != [] && Closed(s)
    ensures s[0] == BACKSLASH ==> |s| > 1
    ensures Closed(s[Next(s).used..]) && Unescaped(s) == Enc(Next(s).ch) + Unescaped(s[Next(s).used..])
  {
    hide Enc, Next;
  }

  lemma Appended(d: seq<bv8>, before: seq<bv8>, e: seq<bv8>)
    requires |before| + |e| <= |d| && d[..|before|] == before && d[|before|..|before| + |e|] == e
    ensures d[..|before| + |e|] == before + e
  {
  }

  lemma NoneLeft()
    ensures Unescaped([]) == []
  {
  }

  method ReadOne(src: seq<bv8>, len: nat, p: nat) returns (ch: bv32, q: nat)
    requires p < len < |src| && src[len] == 0 && (src[p] == BACKSLASH ==> p + 1 < len)
    ensures p < q <= len && Sequence(ch, q - p) == Next(src[p..len])
    ensures src[p..len][q - p..] == src[q..len]
  {
    hide ReadEscape, Signed;
    ghost var s := src[p..len];
    assert s[0] == src[p];
    var used;
    if src[p] == BACKSLASH {
      assert s[1..] == src[p + 1..len];
      ch, used := ReadEscapeSequence(src, len, p + 1);
      q := p + 1 + used;
    } else {
      ch, q := Signed(src[p]), p + 1;
    }
  }

  /** u8_unescape: everything read back, or as many whole characters as fit. */
  method Unescape(buf: array<bv8>, sz: nat, src: seq<bv8>, len: nat) returns (c: nat)
    requires len < |src| && src[len] == 0 && (forall k :: 0 <= k < len ==> src[k] != 0)
    requires Closed(src[..len]) && sz <= buf.Length
    modifies buf
    ensures c <= sz && buf[..c] <= Unescaped(src[..len])
    ensures c < sz ==> buf[c] == 0
    ensures |Unescaped(src[..len])| <= sz ==> c == |Unescaped(src[..len])|
    ensures |Unescaped(src[..len])| > sz ==> sz - c < 4
  {
    hide Signed, ReadEscape, Enc, Closed, Unescaped, Next;
    ghost var all := Unescaped(src[..len]);
    c := 0;
    var p := 0;
    assert src[..len] == src[p..len];
    while src[p] != 0 && c < sz
      invariant p <= len && c <= sz && Closed(src[p..len])
      invariant all == buf[..c] + Unescaped(src[p..len])
      decreases len - p
    {
      Step(src[p..len]);
      ghost var before := buf[..c];
      var ch;
      ch, p := ReadOne(src, len, p);
      Assoc(before, Enc(ch), Unescaped(src[p..len]));
      if CharLen(ch) > sz - c {
        break;
      }
      var amt := WcToUtf8(buf, c, ch);
      Appended(buf[..], before, Enc(ch));
      c := c + amt;
    }
    ghost var done := buf[..c];
    if c < sz {
      buf[c] := 0;
    }
    assert buf[..c] == done;
    NoneLeft();
  }
}
