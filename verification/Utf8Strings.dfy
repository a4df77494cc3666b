/** Strings of characters and their bytes: encoding, decoding, and where each character starts. */
module Utf8Strings {
  import opened Utf8

  /** Characters the encoder accepts, and those among them a C string can hold. */
  predicate Encodable(cps: seq<bv32>) {
    forall k :: 0 <= k < |cps| ==> cps[k] < MAX_CHAR
  }

  predicate NoZero(cps: seq<bv32>) {
    forall k :: 0 <= k < |cps| ==> cps[k] != 0
  }

  function EncodeAll(cps: seq<bv32>): seq<bv8> {
    if cps == [] then [] else EncodeAll(cps[..|cps| - 1]) + Enc(cps[|cps| - 1])
  }

  lemma EncodeSnoc(cps: seq<bv32>, ch: bv32)
    ensures EncodeAll(cps + [ch]) == EncodeAll(cps) + Enc(ch)
  {
    assert (cps + [ch])[..|cps|] == cps;
  }

  lemma {:induction false} EncodeConcat(a: seq<bv32>, b: seq<bv32>)
    ensures EncodeAll(a + b) == EncodeAll(a) + EncodeAll(b)
  {
    hide Enc, EncodeAll;
    if b == [] {
      assert a + b == a;
      EncodeNone();
    } else {
      var k := |b| - 1;
      EncodeConcat(a, b[..k]);
      assert a + b == (a + b[..k]) + [b[k]];
      EncodeSnoc(a + b[..k], b[k]);
      assert b == b[..k] + [b[k]];
      EncodeSnoc(b[..k], b[k]);
    }
  }

  lemma EncodeOne(ch: bv32)
    ensures EncodeAll([ch]) == Enc(ch)
  {
    hide Enc;
    EncodeSnoc([], ch);
    assert [] + [ch] == [ch];
  }

  /** Byte offset of character `k`; of the end for `k == |cps|`. */
  function StartOf(cps: seq<bv32>, k: nat): nat
    requires k <= |cps|
  {
    |EncodeAll(cps[..k])|
  }

  lemma StartNext(cps: seq<bv32>, k: nat)
    requires k < |cps|
    ensures StartOf(cps, k + 1) == StartOf(cps, k) + CharLen(cps[k])
    ensures StartOf(cps, 0) == 0 && StartOf(cps, |cps|) == |EncodeAll(cps)|
  {
    hide Enc;
    assert cps[..k + 1] == cps[..k] + [cps[k]];
    EncodeSnoc(cps[..k], cps[k]);
    StartEnds(cps);
  }

  lemma StartEnds(cps: seq<bv32>)
    ensures StartOf(cps, 0) == 0 && StartOf(cps, |cps|) == |EncodeAll(cps)|
  {
    assert cps[..0] == [];
    assert cps[..|cps|] == cps;
  }

  lemma {:induction false} StartRises(cps: seq<bv32>, i: nat, k: nat)
    requires Encodable(cps) && i < k <= |cps|
    ensures StartOf(cps, i) < StartOf(cps, k)
    decreases k - i
  {
    StartNext(cps, k - 1);
    if i < k - 1 {
      StartRises(cps, i, k - 1);
    }
  }

  lemma Cut<T>(s: seq<T>, k: nat)
    requires k < |s|
    ensures s == (s[..k] + [s[k]]) + s[k + 1..]
  {
  }

  /** A string is what comes before character `k`, its bytes, and what comes after. */
  lemma Parts(cps: seq<bv32>, k: nat)
    requires k < |cps|
    ensures EncodeAll(cps) == EncodeAll(cps[..k]) + Enc(cps[k]) + EncodeAll(cps[k + 1..])
  {
    hide Enc, EncodeAll;
    Cut(cps, k);
    EncodeSnoc(cps[..k], cps[k]);
    EncodeConcat(cps[..k] + [cps[k]], cps[k + 1..]);
  }

  lemma Middle<T>(s: seq<T>, a: seq<T>, e: seq<T>, r: seq<T>)
    requires |s| >= |a| + |e| + |r| && s[..|a| + |e| + |r|] == a + e + r
    ensures s[..|a|] == a && s[|a|..|a| + |e|] == e
    ensures s[|a| + |e|..|a| + |e| + |r|] == r
  {
    var n := |a| + |e| + |r|;
    assert s[..|a|] == s[..n][..|a|];
    assert s[|a|..|a| + |e|] == s[..n][|a|..|a| + |e|];
    assert s[|a| + |e|..n] == s[..n][|a| + |e|..];
  }

  // ---------------------------------------------------------------- well-formed strings

  predicate WellFormed(s: seq<bv8>) {
    s == [] || (
      var n := Trailing(s[0]) + 1;
      n <= |s| && WellFormedChar(s[..n]) && WellFormed(s[n..]))
  }

  function DecodeAll(s: seq<bv8>): seq<bv32>
    requires WellFormed(s)
  {
    if s == [] then []
    else
      var n := Trailing(s[0]) + 1;
      [Dec(s[..n])] + DecodeAll(s[n..])
  }

  lemma {:induction false} EncodeUndoesDecode(s: seq<bv8>)
    requires WellFormed(s)
    ensures Encodable(DecodeAll(s)) && EncodeAll(DecodeAll(s)) == s
  {
    hide Enc, Dec, WellFormedChar, Trailing, EncodeAll;
    if s == [] {
      EncodeNone();
    } else {
      var n := Trailing(s[0]) + 1;
      var ch := Dec(s[..n]);
      EncUndoesDec(s[..n]);
      EncodeUndoesDecode(s[n..]);
      EncodeConcat([ch], DecodeAll(s[n..]));
      EncodeOne(ch);
      assert s == s[..n] + s[n..];
    }
  }

  /** Characters are nonzero when their bytes are. */
  lemma NonzeroBytes(cps: seq<bv32>)
    requires Encodable(cps) && forall k :: 0 <= k < |EncodeAll(cps)| ==> EncodeAll(cps)[k] != 0
    ensures NoZero(cps)
  {
    hide Enc;
    forall k | 0 <= k < |cps| ensures cps[k] != 0 {
      Parts(cps, k);
      ZeroChar(cps[k]);
      assert EncodeAll(cps)[|EncodeAll(cps[..k])|] == Enc(cps[k])[0];
    }
  }

  lemma ZeroChar(ch: bv32)
    requires ch < MAX_CHAR
    ensures ch == 0 <==> Enc(ch)[0] == 0
  {
    LeadByte(ch);
  }

  lemma {:induction false} DecodeUndoesEncode(cps: seq<bv32>)
    requires Encodable(cps)
    ensures WellFormed(EncodeAll(cps)) && DecodeAll(EncodeAll(cps)) == cps
    decreases |cps|
  {
    hide Enc, Dec, WellFormedChar, Trailing, Lead;
    if cps != [] {
      var ch, rest := cps[0], cps[1..];
      var s := EncodeAll(cps);
      assert cps == [ch] + rest;
      EncodeConcat([ch], rest);
      EncodeOne(ch);
      EncWellFormed(ch);
      LeadByte(ch);
      EncLead(ch);
      DecodeUndoesEncode(rest);
      DecUndoesEnc(ch);
      var n := |Enc(ch)|;
      assert s[..n] == Enc(ch) && s[n..] == EncodeAll(rest);
      assert s[0] == Enc(ch)[0];
    }
  }

  lemma EncLead(ch: bv32)
    requires ch < MAX_CHAR
    ensures |Enc(ch)| >= 1 && Enc(ch)[0] == Lead(ch)
  {
    hide Lead, Tail;
  }

  /** A string encodes characters in one way only. */
  lemma EncodeInjective(a: seq<bv32>, b: seq<bv32>)
    requires Encodable(a) && Encodable(b) && EncodeAll(a) == EncodeAll(b)
    ensures a == b
  {
    DecodeUndoesEncode(a);
    DecodeUndoesEncode(b);
  }

  // ---------------------------------------------------------------- C strings

  /** The bytes of `cps` and the NUL that ends them. */
  predicate Holds(s: seq<bv8>, cps: seq<bv32>) {
    Encodable(cps) && |s| > |EncodeAll(cps)| && s[..|EncodeAll(cps)|] == EncodeAll(cps) && s[|EncodeAll(cps)|] == 0
  }

  predicate IsText(s: seq<bv8>, cps: seq<bv32>) {
    Holds(s, cps) && NoZero(cps)
  }

  /** Every well-formed string without a NUL, ended by one, is the text of what it decodes to. */
  lemma WellFormedIsText(s: seq<bv8>)
    requires WellFormed(s) && forall k :: 0 <= k < |s| ==> s[k] != 0
    ensures IsText(s + [0], DecodeAll(s))
  {
    hide WellFormed, DecodeAll, EncodeAll, Encodable, NoZero;
    EncodeUndoesDecode(s);
    NonzeroBytes(DecodeAll(s));
    assert (s + [0])[..|s|] == s;
  }

  /** What stepping through the bytes meets at character `k`: its lead byte, its continuation
      bytes, and then the next lead byte or the NUL. */
  lemma AtAnyChar(s: seq<bv8>, cps: seq<bv32>, k: nat)
    requires Holds(s, cps) && k < |cps|
    ensures var o, n := StartOf(cps, k), CharLen(cps[k]);
            && 1 <= n <= 4 && o + n < |s| && StartOf(cps, k + 1) == o + n
            && s[o..o + n] == Enc(cps[k]) && s[o] == Enc(cps[k])[0] && IsUtf(s[o])
            && (forall j :: 1 <= j < n ==> s[o + j] == Enc(cps[k])[j] && !IsUtf(s[o + j]) && s[o + j] != 0)
            && IsUtf(s[o + n])
            && (k + 1 < |cps| ==> s[o + n] == Enc(cps[k + 1])[0])
            && (k + 1 == |cps| ==> s[o + n] == 0 && o + n == |EncodeAll(cps)|)
            && (k + 1 < |cps| ==> o + n < |EncodeAll(cps)|)
  {
    hide Enc, IsUtf, Lead, Trailing, EncodeAll, Holds, StartOf;
    var e, o, n := Enc(cps[k]), StartOf(cps, k), CharLen(cps[k]);
    CharIn(s, cps, k);
    CharBytes(cps[k]);
    assert s[o] == s[o..o + n][0];
    forall j | 1 <= j < n ensures s[o + j] == e[j] && !IsUtf(s[o + j]) && s[o + j] != 0 {
      assert s[o + j] == s[o..o + n][j];
      EncTail(cps[k], j);
    }
    ByteAfter(s, cps, k);
  }

  /** The bytes of character `k`. */
  lemma CharIn(s: seq<bv8>, cps: seq<bv32>, k: nat)
    requires Holds(s, cps) && k < |cps|
    ensures var o, n := StartOf(cps, k), CharLen(cps[k]);
            && cps[k] < MAX_CHAR && 1 <= n <= 4 && StartOf(cps, k + 1) == o + n <= |EncodeAll(cps)| < |s|
            && s[o..o + n] == Enc(cps[k])
  {
    hide Enc, EncodeAll;
    StartNext(cps, k);
    Parts(cps, k);
    Middle(s, EncodeAll(cps[..k]), Enc(cps[k]), EncodeAll(cps[k + 1..]));
  }

  /** The byte behind character `k`: the next one's first, or the NUL. */
  lemma ByteAfter(s: seq<bv8>, cps: seq<bv32>, k: nat)
    requires Holds(s, cps) && k < |cps|
    ensures var at := StartOf(cps, k + 1);
            && at < |s| && IsUtf(s[at])
            && (k + 1 < |cps| ==> s[at] == Enc(cps[k + 1])[0] && at < |EncodeAll(cps)|)
            && (k + 1 == |cps| ==> s[at] == 0 && at == |EncodeAll(cps)|)
  {
    hide Enc, IsUtf, Lead, Trailing, EncodeAll, StartOf;
    var at := StartOf(cps, k + 1);
    if k + 1 < |cps| {
      CharIn(s, cps, k + 1);
      CharBytes(cps[k + 1]);
      assert s[at] == s[at..at + CharLen(cps[k + 1])][0];
    } else {
      StartEnds(cps);
      NulIsUtf();
    }
  }

  /** In a text only its end is a NUL. */
  lemma AtChar(s: seq<bv8>, cps: seq<bv32>, k: nat)
    requires IsText(s, cps) && k < |cps|
    ensures var o, n := StartOf(cps, k), CharLen(cps[k]);
            && 1 <= n <= 4 && o + n < |s| && StartOf(cps, k + 1) == o + n
            && s[o..o + n] == Enc(cps[k])
            && s[o] != 0 && IsUtf(s[o])
            && (forall j :: 1 <= j < n ==> s[o + j] == Enc(cps[k])[j] && !IsUtf(s[o + j]) && s[o + j] != 0)
            && IsUtf(s[o + n]) && (s[o + n] == 0 <==> k + 1 == |cps|)
  {
    hide Enc, IsUtf, Lead, Trailing, EncodeAll, StartOf;
    AtAnyChar(s, cps, k);
    CharBytes(cps[k]);
    if k + 1 < |cps| {
      CharBytes(cps[k + 1]);
    }
  }

  lemma EncodeNone()
    ensures EncodeAll([]) == []
  {
  }

  lemma CharBytes(ch: bv32)
    requires ch < MAX_CHAR
    ensures |Enc(ch)| >= 1 && IsUtf(Enc(ch)[0]) && (ch != 0 ==> Enc(ch)[0] != 0)
    ensures Trailing(Enc(ch)[0]) == |Enc(ch)| - 1
  {
    LeadByte(ch);
  }

  lemma NulIsUtf()
    ensures IsUtf(0)
  {
  }

  /** At the end of a text stands its NUL. */
  lemma AtEnd(s: seq<bv8>, cps: seq<bv32>)
    requires IsText(s, cps)
    ensures StartOf(cps, |cps|) < |s| && s[StartOf(cps, |cps|)] == 0
  {
    StartEnds(cps);
  }
}
