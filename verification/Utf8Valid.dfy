/** The validator u8_isvalid, against the definition of UTF-8 in section 2 of RFC 2279: sequences
    of one to six bytes, each in its shortest form. */
module Utf8Valid {
  import opened Utf8
  import opened Utf8Strings

  /** The bits that mark the lead byte of an `n`-byte sequence. */
  predicate LeadOf(b: bv8, n: nat) {
    match n
    case 1 => b < 0x80
    case 2 => b & 0xE0 == 0xC0
    case 3 => b & 0xF0 == 0xE0
    case 4 => b & 0xF8 == 0xF0
    case 5 => b & 0xFC == 0xF8
    case 6 => b & 0xFE == 0xFC
    case _ => false
  }

  /** The smallest character that needs `n` bytes. */
  function Least(n: nat): bv32 {
    match n
    case 2 => 0x80
    case 3 => 0x800
    case 4 => 0x10000
    case 5 => 0x200000
    case 6 => 0x4000000
    case _ => 0
  }

  function Bits(b: bv8, mask: bv8): bv32 {
    (b & mask) as bv32
  }

  function More(v: bv32, b: bv8): bv32 {
    (v << 6) | Bits(b, 0x3F)
  }

  /** The character number the free bits of a sequence spell. */
  function Payload(e: seq<bv8>): bv32
    requires 1 <= |e| <= 6
  {
    if |e| == 1 then Bits(e[0], 0x7F)
    else if |e| == 2 then More(Bits(e[0], 0x1F), e[1])
    else if |e| == 3 then More(More(Bits(e[0], 0x0F), e[1]), e[2])
    else if |e| == 4 then More(More(More(Bits(e[0], 0x07), e[1]), e[2]), e[3])
    else if |e| == 5 then More(More(More(More(Bits(e[0], 0x03), e[1]), e[2]), e[3]), e[4])
    else More(More(More(More(More(Bits(e[0], 0x01), e[1]), e[2]), e[3]), e[4]), e[5])
  }

  /** One character by the table of RFC 2279: its marks, and no more bytes than it needs. */
  predicate Shortest(e: seq<bv8>) {
    && 1 <= |e| <= 6 && LeadOf(e[0], |e|)
    && (forall j :: 1 <= j < |e| ==> Continues(e[j]))
    && Payload(e) >= Least(|e|)
  }

  ghost predicate AllShortest(pieces: seq<seq<bv8>>) {
    forall k :: 0 <= k < |pieces| ==> Shortest(pieces[k])
  }

  function Joined(pieces: seq<seq<bv8>>): seq<bv8> {
    if pieces == [] then [] else pieces[0] + Joined(pieces[1..])
  }

  /** A string is valid when it can be cut into such characters. */
  ghost predicate Valid(s: seq<bv8>) {
    exists pieces :: AllShortest(pieces) && s == Joined(pieces)
  }

  // ---------------------------------------------------------------- what a scan sees

  /** The string starts with a character, whose length its first byte tells. */
  predicate StartsWithChar(s: seq<bv8>) {
    s != [] && Trailing(s[0]) < |s| && Shortest(s[..Trailing(s[0]) + 1])
  }

  lemma LeadTellsLength(b: bv8, n: nat)
    requires LeadOf(b, n)
    ensures Trailing(b) == n - 1
  {
  }

  /** There is one way to cut: the first character must come off, and the rest be valid. */
  lemma ValidStep(s: seq<bv8>)
    requires s != []
    ensures Valid(s) <==> StartsWithChar(s) && Valid(s[Trailing(s[0]) + 1..])
  {
    hide Shortest, Trailing, AllShortest, Joined;
    var n := Trailing(s[0]) + 1;
    if Valid(s) {
      var pieces :| AllShortest(pieces) && s == Joined(pieces);
      CutOff(s, pieces);
    }
    if StartsWithChar(s) && Valid(s[n..]) {
      var pieces :| AllShortest(pieces) && s[n..] == Joined(pieces);
      PutOn(s[..n], pieces);
      assert s == s[..n] + s[n..];
    }
  }

  lemma CutOff(s: seq<bv8>, pieces: seq<seq<bv8>>)
    requires s != [] && AllShortest(pieces) && s == Joined(pieces)
    ensures pieces != [] && StartsWithChar(s)
    ensures AllShortest(pieces[1..]) && s[Trailing(s[0]) + 1..] == Joined(pieces[1..])
  {
    hide Shortest, Trailing;
    assert pieces != [];
    var e := pieces[0];
    ShortestLength(e);
    assert s[0] == e[0];
    assert s[..|e|] == e && s[|e|..] == Joined(pieces[1..]);
  }

  lemma PutOn(e: seq<bv8>, pieces: seq<seq<bv8>>)
    requires Shortest(e) && AllShortest(pieces)
    ensures AllShortest([e] + pieces) && Joined([e] + pieces) == e + Joined(pieces)
  {
    hide Shortest;
    assert ([e] + pieces)[1..] == pieces;
  }

  lemma ShortestLength(e: seq<bv8>)
    requires Shortest(e)
    ensures |e| >= 1 && |e| == Trailing(e[0]) + 1
  {
    hide Payload, Least, Trailing, Continues;
    LeadTellsLength(e[0], |e|);
  }

  lemma NothingValid()
    ensures Valid([])
  {
    var none: seq<seq<bv8>> := [];
    assert AllShortest(none) && [] == Joined(none);
  }

  // ---------------------------------------------------------------- the code's own tests

  /** `(c & 0xc0) == 0xc0` */
  predicate Leads(c: bv8) {
    c & 0xC0 == 0xC0
  }

  /** The overlong test of each length, on the first two bytes; with it goes the test for 0xFE
      and 0xFF, which lead nothing. */
  predicate Overlong(ab: nat, c: bv8, second: bv8) {
    match ab
    case 1 => c & 0x3E == 0
    case 2 => c == 0xE0 && second & 0x20 == 0
    case 3 => c == 0xF0 && second & 0x30 == 0
    case 4 => c == 0xF8 && second & 0x38 == 0
    case 5 => c == 0xFE || c == 0xFF || (c == 0xFC && second & 0x3C == 0)
    case _ => false
  }

  lemma Short2(a: bv8, b: bv8)
    requires Leads(a) && Trailing(a) == 1 && Continues(b)
    ensures LeadOf(a, 2) && (More(Bits(a, 0x1F), b) >= 0x80 <==> !Overlong(1, a, b))
  {
  }

  lemma Short3(a: bv8, b: bv8, c: bv8)
    requires Leads(a) && Trailing(a) == 2 && Continues(b)
    ensures LeadOf(a, 3) && (More(More(Bits(a, 0x0F), b), c) >= 0x800 <==> !Overlong(2, a, b))
  {
  }

  lemma Short4(a: bv8, b: bv8, c: bv8, d: bv8)
    requires Leads(a) && Trailing(a) == 3 && Continues(b)
    ensures LeadOf(a, 4) && (More(More(More(Bits(a, 0x07), b), c), d) >= 0x10000 <==> !Overlong(3, a, b))
  {
  }

  lemma Short5(a: bv8, b: bv8, c: bv8, d: bv8, e: bv8)
    requires Leads(a) && Trailing(a) == 4 && Continues(b)
    ensures LeadOf(a, 5) && (More(More(More(More(Bits(a, 0x03), b), c), d), e) >= 0x200000 <==> !Overlong(4, a, b))
  {
  }

  lemma Short6(a: bv8, b: bv8, c: bv8, d: bv8, e: bv8, f: bv8)
    requires Leads(a) && Trailing(a) == 5 && Continues(b)
    ensures (LeadOf(a, 6) && More(More(More(More(More(Bits(a, 0x01), b), c), d), e), f) >= 0x4000000)
            <==> !Overlong(5, a, b)
  {
  }

  /** Two bytes decide whether a sequence with all its marks is as short as can be. */
  lemma TwoBytesDecide(e: seq<bv8>)
    requires |e| >= 2 && Leads(e[0]) && |e| == Trailing(e[0]) + 1
    requires forall j :: 1 <= j < |e| ==> Continues(e[j])
    ensures Shortest(e) <==> !Overlong(|e| - 1, e[0], e[1])
  {
    hide Leads, Overlong, Continues, Bits, More, LeadOf, Trailing;
    if |e| == 2 {
      Short2(e[0], e[1]);
    } else if |e| == 3 {
      Short3(e[0], e[1], e[2]);
    } else if |e| == 4 {
      Short4(e[0], e[1], e[2], e[3]);
    } else if |e| == 5 {
      Short5(e[0], e[1], e[2], e[3], e[4]);
    } else {
      Short6(e[0], e[1], e[2], e[3], e[4], e[5]);
    }
  }

  lemma ByteTests(c: bv8)
    ensures c < 0x80 ==> Trailing(c) == 0 && Shortest([c])
    ensures c >= 0x80 && !Leads(c) ==> !Shortest([c]) && Trailing(c) == 0
    ensures Leads(c) ==> c >= 0x80 && 1 <= Trailing(c) <= 5
    ensures !IsUtf(c) <==> Continues(c)
    ensures c == 0 ==> IsUtf(c)
  {
  }

  // ---------------------------------------------------------------- u8_isvalid

  /** The rest of a sequence whose lead byte is at `p`.  Whatever it meets, it stops at the NUL
      at `length` at the latest; when it does not object, the sequence ends at `q`. */
  method CheckSequence(s: seq<bv8>, length: nat, p: nat) returns (ok: bool, q: nat)
    requires p < length < |s| && s[length] == 0 && Leads(s[p])
    ensures ok <==> StartsWithChar(s[p..length])
    ensures ok ==> q == p + Trailing(s[p]) < length
  {
    hide Leads, Overlong, Continues, Trailing, Shortest, IsUtf;
    var c := s[p];
    var ab := Trailing(c);
    ByteTests(c);
    ByteTests(s[length]);
    ghost var n := ab + 1;
    ghost var t := s[p..length];
    assert t[0] == c;
    q := p + 1;
    if IsUtf(s[q]) {
      NotContinued(s, length, p, 1);
      return false, q;
    }
    ByteTests(s[q]);
    ghost var second := s[q];
    var long := Overlong(ab, c, s[q]);
    if !long && ab > 1 {
      var left := ab - 1;
      while left > 0
        invariant left + (q - p) == ab && 1 <= q - p && q < length
        invariant forall j :: p < j <= q ==> Continues(s[j])
        decreases left
      {
        q := q + 1;
        if IsUtf(s[q]) {
          NotContinued(s, length, p, q - p);
          return false, q;
        }
        ByteTests(s[q]);
        left := left - 1;
      }
    }
    ok := !long;
    if n <= |t| {
      assert ok ==> forall j :: 1 <= j < n ==> t[j] == s[p + j];
      if forall j :: 1 <= j < n ==> Continues(t[j]) {
        TwoBytesDecide(t[..n]);
      } else {
        var j :| 1 <= j < n && !Continues(t[j]);
        NotCharacter(t, j);
      }
    }
  }

  lemma NotCharacter(t: seq<bv8>, j: nat)
    requires 1 <= j < |t| && j <= Trailing(t[0]) && !Continues(t[j])
    ensures !StartsWithChar(t)
  {
    hide LeadOf, Payload, Continues, Trailing, Least;
    if Trailing(t[0]) < |t| {
      assert t[..Trailing(t[0]) + 1][j] == t[j];
    }
  }

  lemma NotContinued(s: seq<bv8>, length: nat, p: nat, j: nat)
    requires p < length < |s| && 1 <= j <= Trailing(s[p]) && p + j <= length && IsUtf(s[p + j])
    ensures !StartsWithChar(s[p..length])
  {
    hide Shortest, Continues, Trailing, IsUtf;
    var t := s[p..length];
    if p + j < length {
      ByteTests(s[p + j]);
      NotCharacter(t, j);
    }
  }

  /** u8_isvalid: 1 for exactly the valid strings, reading nothing beyond the NUL.  `length`
      shrinks by the trailing bytes of each sequence, which never turns a valid string away. */
  method IsValid(s: seq<bv8>, length: nat) returns (r: int)
    requires length < |s| && s[length] == 0
    ensures r == 1 || r == 0
    ensures r == 1 <==> Valid(s[..length])
  {
    hide Leads, Trailing, Shortest, Valid, StartsWithChar;
    var p, left := 0, length;
    assert s[..length] == s[0..length];
    while p < length
      invariant p <= length && left >= length - p
      invariant Valid(s[..length]) <==> Valid(s[p..length])
      decreases length - p
    {
      var c := s[p];
      ghost var t := s[p..length];
      ValidStep(t);
      ByteTests(c);
      if c < 128 {
        OneByte(t);
        assert t[1..] == s[p + 1..length];
        p := p + 1;
        continue;
      }
      if !Leads(c) {
        OneByte(t);
        return 0;
      }
      if left < Trailing(c) {
        TooLong(t);
        return 0;
      }
      left := left - Trailing(c);
      var ok, q := CheckSequence(s, length, p);
      if !ok {
        return 0;
      }
      assert t[Trailing(c) + 1..] == s[q + 1..length];
      p := q + 1;
    }
    assert s[p..length] == [];
    NothingValid();
    return 1;
  }

  lemma OneByte(t: seq<bv8>)
    requires t != [] && Trailing(t[0]) == 0
    ensures StartsWithChar(t) <==> Shortest([t[0]])
  {
    assert t[..1] == [t[0]];
  }

  lemma TooLong(t: seq<bv8>)
    requires t != [] && |t| <= Trailing(t[0])
    ensures !StartsWithChar(t)
  {
  }

  // ---------------------------------------------------------------- what the encoder writes

  lemma WellFormedIsShortest(e: seq<bv8>)
    requires WellFormedChar(e)
    ensures Shortest(e)
  {
    hide Bits, More, LeadOf, Payload, Least, Shortest;
    LeadsIn(e[0]);
    WellFormedLength(e);
    if |e| == 1 {
      assert e == [e[0]];
    } else {
      NotOverlong(e);
      TwoBytesDecide(e);
    }
  }

  lemma LeadsIn(a: bv8)
    ensures a >= 0xC0 ==> Leads(a)
    ensures a < 0x80 ==> Shortest([a])
  {
  }

  lemma NotOverlong(e: seq<bv8>)
    requires WellFormedChar(e) && |e| >= 2
    ensures !Overlong(|e| - 1, e[0], e[1])
  {
  }

  /** The validator accepts whatever the encoder wrote. */
  lemma {:induction false} EncodedIsValid(cps: seq<bv32>)
    requires Encodable(cps)
    ensures Valid(EncodeAll(cps))
    decreases |cps|
  {
    hide Enc, Shortest, EncodeAll;
    if cps == [] {
      EncodeNone();
      NothingValid();
    } else {
      var ch, rest := cps[0], cps[1..];
      assert cps == [ch] + rest;
      EncodeConcat([ch], rest);
      EncodeOne(ch);
      EncodedIsValid(rest);
      EncWellFormed(ch);
      WellFormedIsShortest(Enc(ch));
      var pieces :| AllShortest(pieces) && EncodeAll(rest) == Joined(pieces);
      PutOn(Enc(ch), pieces);
    }
  }
}
