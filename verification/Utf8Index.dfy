/** Stepping through UTF-8 text, counting and searching: u8_nextchar, u8_inc, u8_dec, u8_offset,
    u8_charnum, u8_strchr, u8_memchr and swish_utf8_codepoint.  `cps` names the characters the
    bytes stand for. */
module Utf8Index {
  import opened Seqs
  import opened Utf8
  import opened Utf8Strings

  /** One turn of `isutf(s[++i]) || isutf(s[++i]) || isutf(s[++i]) || ++i`. */
  function StepOver(s: seq<bv8>, i: nat): (j: nat)
    requires i + 1 < |s|
    requires !IsUtf(s[i + 1]) ==> i + 2 < |s|
    requires !IsUtf(s[i + 1]) && !IsUtf(s[i + 2]) ==> i + 3 < |s|
    ensures i < j <= i + 4
  {
    if IsUtf(s[i + 1]) then i + 1
    else if IsUtf(s[i + 2]) then i + 2
    else if IsUtf(s[i + 3]) then i + 3
    else i + 4
  }

  /** From the start of a character the step leads to the start of the next one. */
  lemma StepIsNext(s: seq<bv8>, cps: seq<bv32>, k: nat)
    requires IsText(s, cps) && k < |cps|
    ensures var o := StartOf(cps, k);
            && o + 1 < |s|
            && (!IsUtf(s[o + 1]) ==> o + 2 < |s|)
            && (!IsUtf(s[o + 1]) && !IsUtf(s[o + 2]) ==> o + 3 < |s|)
            && StepOver(s, o) == StartOf(cps, k + 1)
  {
    hide IsText, Enc, IsUtf, StartOf;
    AtChar(s, cps, k);
    var o := StartOf(cps, k);
    assert CharLen(cps[k]) >= 2 ==> !IsUtf(s[o + 1]);
    assert CharLen(cps[k]) >= 3 ==> !IsUtf(s[o + 2]);
    assert CharLen(cps[k]) >= 4 ==> !IsUtf(s[o + 3]);
  }

  /** u8_inc */
  method Advance(s: seq<bv8>, i0: nat, ghost cps: seq<bv32>, ghost k: nat) returns (i: nat)
    requires IsText(s, cps) && k < |cps| && i0 == StartOf(cps, k)
    ensures i == StartOf(cps, k + 1)
  {
    hide IsText, Enc, IsUtf, StartOf;
    StepIsNext(s, cps, k);
    i := i0 + 1;
    if !IsUtf(s[i]) {
      i := i + 1;
      if !IsUtf(s[i]) {
        i := i + 1;
        if !IsUtf(s[i]) {
          i := i + 1;
        }
      }
    }
  }

  /** u8_dec */
  method Retreat(s: seq<bv8>, i0: nat, ghost cps: seq<bv32>, ghost k: nat) returns (i: nat)
    requires IsText(s, cps) && k < |cps| && i0 == StartOf(cps, k + 1)
    ensures i == StartOf(cps, k)
  {
    hide IsText, Enc, IsUtf, StartOf;
    AtChar(s, cps, k);
    ghost var o, n := StartOf(cps, k), CharLen(cps[k]);
    i := i0 - 1;
    assert n >= 2 ==> i == o + (n - 1) && !IsUtf(s[o + (n - 1)]);
    if !IsUtf(s[i]) {
      i := i - 1;
      assert n >= 3 ==> i == o + (n - 2) && !IsUtf(s[o + (n - 2)]);
      if !IsUtf(s[i]) {
        i := i - 1;
        assert n >= 4 ==> i == o + (n - 3) && !IsUtf(s[o + (n - 3)]);
        if !IsUtf(s[i]) {
          i := i - 1;
        }
      }
    }
  }

  /** u8_nextchar */
  method NextChar(s: seq<bv8>, i0: nat, ghost cps: seq<bv32>, ghost k: nat) returns (ch: bv32, i: nat)
    requires IsText(s, cps) && k < |cps| && i0 == StartOf(cps, k)
    ensures ch == cps[k] && i == StartOf(cps, k + 1)
  {
    hide IsText, Enc, IsUtf, StartOf, Glue, Settle, Utf8.Dec;
    AtChar(s, cps, k);
    ghost var n := CharLen(cps[k]);
    ghost var e := Enc(cps[k]);
    ch := 0;
    i := i0;
    var sz := 0;
    assert e[..0] == [];
    while sz == 0 || (s[i] != 0 && !IsUtf(s[i]))
      invariant 0 <= sz <= n && i == i0 + sz
      invariant ch == Sum(e[..sz])
      decreases n - sz
    {
      assert sz < n;
      assert s[i] == e[sz] by { assert s[i0..i0 + n][sz] == s[i]; }
      assert e[..sz + 1] == e[..sz] + [e[sz]];
      SumSnoc(e[..sz], e[sz]);
      ch := Glue(ch, s[i]);
      i := i + 1;
      sz := sz + 1;
    }
    assert sz == n;
    assert e[..n] == e;
    EncodableAt(s, cps, k);
    DecUndoesEnc(cps[k]);
    DecSettles(e);
    ch := Settle(ch, sz - 1);
  }

  lemma DecSettles(e: seq<bv8>)
    requires 1 <= |e| <= 6
    ensures Utf8.Dec(e) == Settle(Sum(e), |e| - 1)
  {
    hide Settle, Sum;
  }

  lemma EncodableAt(s: seq<bv8>, cps: seq<bv32>, k: nat)
    requires IsText(s, cps) && k < |cps|
    ensures cps[k] < MAX_CHAR && cps[k] != 0
  {
  }

  // ---------------------------------------------------------------- offsets and numbers

  /** Where u8_offset puts character number `charnum`; past the end is the end. */
  function OffsetOf(cps: seq<bv32>, charnum: int): nat {
    StartOf(cps, if charnum < 0 then 0 else if charnum > |cps| then |cps| else charnum)
  }

  /** u8_offset */
  method CharOffset(s: seq<bv8>, charnum: int, ghost cps: seq<bv32>) returns (offs: nat)
    requires IsText(s, cps)
    ensures offs == OffsetOf(cps, charnum)
  {
    hide IsText, StartOf;
    AtEnd(s, cps);
    StartEnds(cps);
    InText(s, cps, 0);
    offs := 0;
    var left := charnum;
    ghost var k := 0;
    while left > 0 && s[offs] != 0
      invariant 0 <= k <= |cps| && offs == StartOf(cps, k) && offs < |s|
      invariant if charnum <= 0 then k == 0 && left == charnum else left == charnum - k >= 0
      invariant k < |cps| ==> s[offs] != 0
      invariant k == |cps| ==> s[offs] == 0
      decreases left
    {
      offs := Advance(s, offs, cps, k);
      left := left - 1;
      k := k + 1;
      InText(s, cps, k);
    }
  }

  lemma InText(s: seq<bv8>, cps: seq<bv32>, k: nat)
    requires IsText(s, cps) && k <= |cps|
    ensures StartOf(cps, k) < |s| && (s[StartOf(cps, k)] == 0 <==> k == |cps|)
  {
    hide IsText, StartOf;
    if k < |cps| {
      AtChar(s, cps, k);
    } else {
      AtEnd(s, cps);
    }
  }

  /** The number of the first character that starts at or after `offset`; of the end if none does. */
  predicate IsNumberOf(cps: seq<bv32>, offset: int, n: nat) {
    && n <= |cps|
    && (n < |cps| ==> StartOf(cps, n) >= offset)
    && (n > 0 ==> StartOf(cps, n - 1) < offset)
  }

  /** u8_charnum */
  method CharNum(s: seq<bv8>, offset: int, ghost cps: seq<bv32>) returns (charnum: nat)
    requires IsText(s, cps)
    ensures IsNumberOf(cps, offset, charnum)
  {
    hide IsText, StartOf;
    StartEnds(cps);
    charnum := 0;
    var offs := 0;
    InText(s, cps, 0);
    while offs < offset && s[offs] != 0
      invariant charnum <= |cps| && offs == StartOf(cps, charnum) < |s|
      invariant charnum > 0 ==> StartOf(cps, charnum - 1) < offset
      invariant s[offs] == 0 <==> charnum == |cps|
      decreases |cps| - charnum
    {
      offs := Advance(s, offs, cps, charnum);
      charnum := charnum + 1;
      InText(s, cps, charnum);
    }
  }

  lemma {:induction false} StartsOrdered(cps: seq<bv32>, i: nat, k: nat)
    requires Encodable(cps) && i <= |cps| && k <= |cps|
    ensures i < k <==> StartOf(cps, i) < StartOf(cps, k)
  {
    hide StartOf;
    if i < k {
      StartRises(cps, i, k);
    } else if k < i {
      StartRises(cps, k, i);
    }
  }

  /** A character's number is the number of its own offset. */
  lemma NumberOfOffset(cps: seq<bv32>, k: nat, n: nat)
    requires Encodable(cps) && k <= |cps| && IsNumberOf(cps, OffsetOf(cps, k), n)
    ensures n == k
  {
    hide StartOf;
    StartsOrdered(cps, n, k);
    if n > 0 {
      StartsOrdered(cps, n - 1, k);
    }
  }

  /** The offset of an offset's number is the least boundary not before it, or the end. */
  lemma OffsetOfNumber(cps: seq<bv32>, o: int, n: nat, k: nat)
    requires Encodable(cps) && IsNumberOf(cps, o, n) && k <= |cps|
    requires o <= StartOf(cps, |cps|)
    ensures OffsetOf(cps, n) >= o
    ensures StartOf(cps, k) >= o ==> StartOf(cps, k) >= OffsetOf(cps, n)
  {
    hide StartOf;
    StartsOrdered(cps, k, n);
    if n > 0 {
      StartsOrdered(cps, n - 1, k);
    }
  }

  /** An offset has one number. */
  lemma NumberUnique(cps: seq<bv32>, o: int, n: nat, m: nat)
    requires Encodable(cps) && IsNumberOf(cps, o, n) && IsNumberOf(cps, o, m)
    ensures n == m
  {
    hide StartOf;
    if n < m {
      StartsOrdered(cps, n, m);
      StartsOrdered(cps, m - 1, n);
    } else if m < n {
      StartsOrdered(cps, m, n);
      StartsOrdered(cps, n - 1, m);
    }
  }

  // ---------------------------------------------------------------- search

  /** The first `ch` among the characters. */
  predicate IsFirst(cps: seq<bv32>, ch: bv32, k: nat) {
    k < |cps| && cps[k] == ch && ch !in cps[..k]
  }

  /** u8_strchr: the byte offset of the first match and its character number. */
  method StrChr(s: seq<bv8>, ch: bv32, ghost cps: seq<bv32>) returns (at: int, charn: nat)
    requires IsText(s, cps)
    ensures if at < 0 then ch !in cps && charn == |cps|
            else IsFirst(cps, ch, charn) && at == OffsetOf(cps, charn)
  {
    hide IsText, StartOf;
    var i, lasti := 0, 0;
    charn := 0;
    StartEnds(cps);
    InText(s, cps, 0);
    while s[i] != 0
      invariant charn <= |cps| && i == lasti == StartOf(cps, charn) < |s|
      invariant ch !in cps[..charn]
      invariant s[i] == 0 <==> charn == |cps|
      decreases |cps| - charn
    {
      var c;
      c, i := NextChar(s, i, cps, charn);
      if c == ch {
        return lasti, charn;
      }
      lasti := i;
      assert cps[..charn + 1] == cps[..charn] + [cps[charn]];
      charn := charn + 1;
      InText(s, cps, charn);
    }
    assert cps[..charn] == cps;
    return -1, charn;
  }

  /** u8_memchr: the same search in `sz` bytes, which may hold zeros. */
  method MemChr(s: seq<bv8>, ch: bv32, sz: nat, ghost cps: seq<bv32>) returns (at: int, charn: nat)
    requires Encodable(cps) && sz <= |s| && s[..sz] == EncodeAll(cps)
    ensures if at < 0 then ch !in cps && charn == |cps|
            else IsFirst(cps, ch, charn) && at == OffsetOf(cps, charn)
  {
    hide Encodable, StartOf, Glue, Settle, Utf8.Dec, Enc, IsUtf, EncodeAll;
    var i, lasti := 0, 0;
    charn := 0;
    StartEnds(cps);
    StartsOrdered(cps, 0, |cps|);
    while i < sz
      invariant charn <= |cps| && i == lasti == StartOf(cps, charn) <= sz
      invariant i < sz <==> charn < |cps|
      invariant ch !in cps[..charn]
      decreases |cps| - charn
    {
      var c;
      AtCharWithin(s, sz, cps, charn);
      EncodableChar(cps, charn);
      c, i := CharWithin(s, sz, i, cps[charn]);
      if c == ch {
        return lasti, charn;
      }
      lasti := i;
      assert cps[..charn + 1] == cps[..charn] + [cps[charn]];
      charn := charn + 1;
    }
    assert cps[..charn] == cps;
    return -1, charn;
  }

  lemma EncodableChar(cps: seq<bv32>, k: nat)
    requires Encodable(cps) && k < |cps|
    ensures cps[k] < MAX_CHAR
  {
  }

  /** What the bytes of a buffer without a NUL show at character `k`. */
  lemma AtCharWithin(s: seq<bv8>, sz: nat, cps: seq<bv32>, k: nat)
    requires Encodable(cps) && sz <= |s| && s[..sz] == EncodeAll(cps) && k < |cps|
    ensures var o, n := StartOf(cps, k), |Enc(cps[k])|;
            && 1 <= n <= 4 && o + n <= sz && StartOf(cps, k + 1) == o + n
            && s[o..o + n] == Enc(cps[k])
            && (o + n < sz ==> IsUtf(s[o + n]))
            && (o + n < sz <==> k + 1 < |cps|)
  {
    hide Enc, IsUtf, StartOf, EncodeAll;
    var t := s[..sz] + [0];
    assert t[..sz] == s[..sz];
    AtAnyChar(t, cps, k);
    var o, n := StartOf(cps, k), |Enc(cps[k])|;
    SliceOfSlice(s, 0, sz, o, o + n);
    SliceOfSlice(t, 0, sz, o, o + n);
    assert s[0..sz] == t[0..sz];
    if o + n < sz {
      assert s[o + n] == s[0..sz][o + n] == t[0..sz][o + n];
    }
  }

  /** The inner loop of u8_memchr: it stops at `sz` rather than at a NUL. */
  method CharWithin(s: seq<bv8>, sz: nat, i0: nat, ghost ch: bv32) returns (c: bv32, i: nat)
    requires ch < MAX_CHAR && i0 + |Enc(ch)| <= sz <= |s| && s[i0..i0 + |Enc(ch)|] == Enc(ch)
    requires i0 + |Enc(ch)| < sz ==> IsUtf(s[i0 + |Enc(ch)|])
    ensures c == ch && i == i0 + |Enc(ch)|
  {
    hide Glue, Settle, Utf8.Dec, Enc, IsUtf;
    ghost var e := Enc(ch);
    ghost var n := |e|;
    var csz := 0;
    c, i := 0, i0;
    assert e[..0] == [];
    while csz == 0 || (i < sz && !IsUtf(s[i]))
      invariant 0 <= csz <= n && i == i0 + csz && c == Sum(e[..csz])
      invariant 1 <= csz < n ==> !IsUtf(s[i])
      decreases n - csz
    {
      assert csz < n;
      assert s[i] == e[csz] by { assert s[i0..i0 + n][csz] == s[i]; }
      assert e[..csz + 1] == e[..csz] + [e[csz]];
      SumSnoc(e[..csz], e[csz]);
      c := Glue(c, s[i]);
      i := i + 1;
      csz := csz + 1;
      if csz < n {
        EncTail(ch, csz);
        assert s[i] == e[csz] by { assert s[i0..i0 + n][csz] == s[i]; }
      }
    }
    assert csz == n;
    assert e[..n] == e;
    DecUndoesEnc(ch);
    DecSettles(e);
    c := Settle(c, csz - 1);
  }

  // ---------------------------------------------------------------- swish_utf8_codepoint

  /** The arithmetic of swish_utf8_codepoint for a character of `len` bytes, in 32 bits. */
  function CodePoint(e: seq<bv8>, len: nat): bv32
    requires len <= |e| && (len < 1 || len > 3 ==> |e| >= 4)
  {
    if len == 1 then e[0] as bv32
    else if len == 2 then Weigh2(e[0], e[1])
    else if len == 3 then Weigh3(e[0], e[1], e[2])
    else Weigh4(e[0], e[1], e[2], e[3])
  }

  function Weigh2(a: bv8, b: bv8): bv32 {
    (a as bv32 - 192) * 64 + b as bv32 - 128
  }

  function Weigh3(a: bv8, b: bv8, c: bv8): bv32 {
    (a as bv32 - 224) * 4096 + (b as bv32 - 128) * 64 + c as bv32 - 128
  }

  function Weigh4(a: bv8, b: bv8, c: bv8, d: bv8): bv32 {
    (a as bv32 - 240) * 262144 + (b as bv32 - 128) * 4096 + (c as bv32 - 128) * 64 + d as bv32 - 128
  }

  lemma WeighIs2(a: bv8, b: bv8)
    ensures Weigh2(a, b) == Settle(Glue(Glue(0, a), b), 1)
  {
  }

  lemma WeighIs3(a: bv8, b: bv8, c: bv8)
    ensures Weigh3(a, b, c) == Settle(Glue(Glue(Glue(0, a), b), c), 2)
  {
  }

  lemma WeighIs4(a: bv8, b: bv8, c: bv8, d: bv8)
    ensures Weigh4(a, b, c, d) == Settle(Glue(Glue(Glue(Glue(0, a), b), c), d), 3)
  {
  }

  lemma WeighIs1(a: bv8)
    ensures a as bv32 == Settle(Glue(0, a), 0)
  {
  }

  /** Weighing each byte's payload is one subtraction from their sum, for any bytes at all. */
  lemma CodePointIsDec(e: seq<bv8>)
    requires 1 <= |e| <= 4
    ensures CodePoint(e, |e|) == Utf8.Dec(e)
  {
    hide Glue, Settle, Sum, Weigh2, Weigh3, Weigh4, Utf8.Dec;
    if |e| <= 2 {
      DecShort(e);
      WeighIs1(e[0]);
      if |e| == 2 {
        WeighIs2(e[0], e[1]);
      }
    } else if |e| == 3 {
      DecThree(e);
      WeighIs3(e[0], e[1], e[2]);
    } else {
      DecFour(e);
      WeighIs4(e[0], e[1], e[2], e[3]);
    }
  }

  /** So swish_utf8_codepoint agrees with u8_nextchar at every character of a text. */
  lemma CodePointIsNextChar(s: seq<bv8>, cps: seq<bv32>, k: nat)
    requires IsText(s, cps) && k < |cps|
    ensures var o, n := StartOf(cps, k), CharLen(cps[k]);
            1 <= n <= 4 && o + n <= |s| && CodePoint(s[o..o + n], n) == cps[k]
  {
    AtChar(s, cps, k);
    EncodableAt(s, cps, k);
    hide IsText, StartOf, CodePoint, Enc, Utf8.Dec, IsUtf;
    CodePointIsDec(Enc(cps[k]));
    DecUndoesEnc(cps[k]);
  }
}
