/** u8_toucs, u8_toutf8, u8_codingsize and u8_reverse: whole strings converted in C buffers. */
module Utf8Convert {
  import opened Seqs
  import opened Utf8
  import opened Utf8Strings

  /** u8_codingsize: exactly the bytes the encoding takes. */
  method CodingSize(wcstr: array<bv32>, n: nat) returns (c: nat)
    requires n <= wcstr.Length
    ensures c == |EncodeAll(wcstr[..n])|
  {
    hide Enc;
    c := 0;
    for i := 0 to n
      invariant c == |EncodeAll(wcstr[..i])|
    {
      assert wcstr[..i + 1] == wcstr[..i] + [wcstr[i]];
      EncodeSnoc(wcstr[..i], wcstr[i]);
      c := c + CharLen(wcstr[i]);
    }
  }

  lemma EncBits(ch: bv32)
    ensures ch < 0x80 ==> Enc(ch) == [ch as bv8]
    ensures 0x80 <= ch < 0x800 ==> Enc(ch) == [((ch >> 6) | 0xC0) as bv8, ((ch & 0x3F) | 0x80) as bv8]
    ensures 0x800 <= ch < 0x10000 ==>
              Enc(ch) == [((ch >> 12) | 0xE0) as bv8, (((ch >> 6) & 0x3F) | 0x80) as bv8, ((ch & 0x3F) | 0x80) as bv8]
    ensures 0x10000 <= ch < MAX_CHAR ==>
              Enc(ch) == [((ch >> 18) | 0xF0) as bv8, (((ch >> 12) & 0x3F) | 0x80) as bv8,
                          (((ch >> 6) & 0x3F) | 0x80) as bv8, ((ch & 0x3F) | 0x80) as bv8]
  {
  }

  /** u8_wc_toutf8 at `at`. */
  method WcToUtf8(dest: array<bv8>, at: nat, ch: bv32) returns (n: nat)
    requires at + CharLen(ch) <= dest.Length
    modifies dest
    ensures n == CharLen(ch)
    ensures dest[..at] == old(dest[..at]) && dest[at..at + n] == Enc(ch) && dest[at + n..] == old(dest[at + n..])
  {
    EncBits(ch);
    hide Enc;
    if ch < 0x80 {
      dest[at] := ch as bv8;
      return 1;
    }
    if ch < 0x800 {
      dest[at] := ((ch >> 6) | 0xC0) as bv8;
      dest[at + 1] := ((ch & 0x3F) | 0x80) as bv8;
      return 2;
    }
    if ch < 0x10000 {
      dest[at] := ((ch >> 12) | 0xE0) as bv8;
      dest[at + 1] := (((ch >> 6) & 0x3F) | 0x80) as bv8;
      dest[at + 2] := ((ch & 0x3F) | 0x80) as bv8;
      return 3;
    }
    if ch < MAX_CHAR {
      dest[at] := ((ch >> 18) | 0xF0) as bv8;
      dest[at + 1] := (((ch >> 12) & 0x3F) | 0x80) as bv8;
      dest[at + 2] := (((ch >> 6) & 0x3F) | 0x80) as bv8;
      dest[at + 3] := ((ch & 0x3F) | 0x80) as bv8;
      return 4;
    }
    return 0;
  }

  /** The characters `src` holds: `srcsz` of them, or when that is negative those before the 0. */
  function Source(src: seq<bv32>, srcsz: int): (r: seq<bv32>)
    requires srcsz <= |src|
    ensures r <= src
    ensures srcsz >= 0 ==> |r| == srcsz
    ensures srcsz < 0 ==> NoZero(r) && (|r| < |src| ==> src[|r|] == 0)
  {
    if srcsz >= 0 then src[..srcsz] else BeforeZero(src)
  }

  function BeforeZero(src: seq<bv32>): (r: seq<bv32>)
    ensures r <= src && NoZero(r) && (|r| < |src| ==> src[|r|] == 0)
  {
    if src == [] || src[0] == 0 then [] else [src[0]] + BeforeZero(src[1..])
  }

  /** u8_toutf8: whole characters as long as they fit, and a NUL when all of them and it do. */
  method ToUtf8(dest: array<bv8>, sz: nat, src: array<bv32>, srcsz: int) returns (i: nat)
    requires sz <= dest.Length && srcsz <= src.Length
    requires srcsz < 0 ==> |Source(src[..], srcsz)| < src.Length
    modifies dest
    ensures var chars := Source(src[..], srcsz);
            && i <= |chars|
            && var c := |EncodeAll(chars[..i])|;
               && c <= sz && dest[..c] == EncodeAll(chars[..i])
               && (i < |chars| ==> c + CharLen(chars[i]) > sz)
               && (i == |chars| && c < sz ==> dest[c] == 0)
               && (forall k :: c <= k < dest.Length && !(i == |chars| && k == c < sz) ==> dest[k] == old(dest[k]))
  {
    hide Enc, Source, EncodeAll;
    ghost var chars := Source(src[..], srcsz);
    ghost var before := dest[..];
    i := 0;
    var d := 0;
    EncodeNone();
    assert chars[..0] == [];
    SourceEnds(src[..], srcsz, i);
    while if srcsz < 0 then src[i] != 0 else i < srcsz
      invariant 0 <= i <= |chars| && i <= src.Length && (srcsz < 0 ==> i < src.Length)
      invariant d == |EncodeAll(chars[..i])| <= sz && dest[..d] == EncodeAll(chars[..i])
      invariant dest[d..] == before[d..]
      decreases |chars| - i
    {
      SourceEnds(src[..], srcsz, i);
      var ch := src[i];
      if d + CharLen(ch) > sz {
        SameTail(dest[..], before, d);
        return;
      }
      ghost var done := dest[..d];
      TailOfTail(dest[..], before, d, CharLen(ch));
      var n := WcToUtf8(dest, d, ch);
      assert chars[..i + 1] == chars[..i] + [ch];
      EncodeSnoc(chars[..i], ch);
      assert dest[..d + n] == done + dest[d..d + n];
      d := d + n;
      i := i + 1;
      SourceEnds(src[..], srcsz, i);
    }
    SourceEnds(src[..], srcsz, i);
    SameTail(dest[..], before, d);
    if d < sz {
      ghost var done := dest[..d];
      dest[d] := 0;
      assert dest[..d] == done;
    }
  }

  /** The loop of u8_toutf8 goes on exactly while there are characters left. */
  lemma SourceEnds(src: seq<bv32>, srcsz: int, i: nat)
    requires srcsz <= |src| && i <= |Source(src, srcsz)| && (srcsz < 0 ==> |Source(src, srcsz)| < |src|)
    ensures |Source(src, srcsz)| <= |src|
    ensures (if srcsz < 0 then i < |src| && src[i] != 0 else i < srcsz) <==> i < |Source(src, srcsz)|
    ensures i < |Source(src, srcsz)| ==> Source(src, srcsz)[i] == src[i]
  {
  }

  lemma TailOfTail(a: seq<bv8>, b: seq<bv8>, d: nat, n: nat)
    requires d + n <= |a| == |b| && a[d..] == b[d..]
    ensures a[d + n..] == b[d + n..]
  {
    SliceOfSlice(a, d, |a|, n, |a| - d);
    SliceOfSlice(b, d, |b|, n, |b| - d);
    assert a[d..|a|] == b[d..|b|];
  }

  lemma SameTail(a: seq<bv8>, b: seq<bv8>, d: nat)
    requires d <= |a| == |b| && a[d..] == b[d..]
    ensures forall k :: d <= k < |a| ==> a[k] == b[k]
  {
    forall k | d <= k < |a| ensures a[k] == b[k] {
      assert a[d..][k - d] == b[d..][k - d];
    }
  }

  /** The bytes of one character summed as the fall-through switch of u8_toucs does it. */
  method SumBytes(src: seq<bv8>, p0: nat, nb: nat) returns (ch: bv32, p: nat)
    requires nb <= 3 && p0 + nb < |src|
    ensures p == p0 + nb + 1 && ch == Sum(src[p0..p])
  {
    hide Glue, Sum, Added, MadeRoom;
    ch, p := 0, p0;
    if nb == 3 {
      ch, p := Added(ch, src[p]), p + 1;
      ch := MadeRoom(ch);
    }
    if nb >= 2 {
      ch, p := Added(ch, src[p]), p + 1;
      ch := MadeRoom(ch);
    }
    if nb >= 1 {
      ch, p := Added(ch, src[p]), p + 1;
      ch := MadeRoom(ch);
    }
    ch, p := Added(ch, src[p]), p + 1;
    if nb == 0 {
      FallThrough(src[p0], 0, 0, 0);
      SumFour(src[p0], 0, 0, 0);
      assert src[p0..p] == [src[p0]];
    } else if nb == 1 {
      FallThrough(src[p0], src[p0 + 1], 0, 0);
      SumFour(src[p0], src[p0 + 1], 0, 0);
      assert src[p0..p] == [src[p0], src[p0 + 1]];
    } else if nb == 2 {
      FallThrough(src[p0], src[p0 + 1], src[p0 + 2], 0);
      SumFour(src[p0], src[p0 + 1], src[p0 + 2], 0);
      assert src[p0..p] == [src[p0], src[p0 + 1], src[p0 + 2]];
    } else {
      FallThrough(src[p0], src[p0 + 1], src[p0 + 2], src[p0 + 3]);
      SumFour(src[p0], src[p0 + 1], src[p0 + 2], src[p0 + 3]);
      assert p == p0 + 4;
      assert src[p0..p] == [src[p0], src[p0 + 1], src[p0 + 2], src[p0 + 3]];
    }
  }

  lemma AddedIsGlued(sum: bv32, b: bv8)
    ensures Added(MadeRoom(sum), b) == Glue(sum, b)
  {
    hide Added, MadeRoom;
  }

  lemma NoRoom()
    ensures MadeRoom(0) == 0
  {
  }

  /** Adding then shifting, with the last byte added alone, is shifting then adding. */
  lemma FallThrough(a: bv8, b: bv8, c: bv8, d: bv8)
    ensures Added(0, a) == Glue(0, a)
    ensures Added(MadeRoom(Added(0, a)), b) == Glue(Glue(0, a), b)
    ensures Added(MadeRoom(Added(MadeRoom(Added(0, a)), b)), c) == Glue(Glue(Glue(0, a), b), c)
    ensures Added(MadeRoom(Added(MadeRoom(Added(MadeRoom(Added(0, a)), b)), c)), d)
         == Glue(Glue(Glue(Glue(0, a), b), c), d)
  {
    hide Glue, Added, MadeRoom;
    NoRoom();
    AddedIsGlued(0, a);
    var one := Glue(0, a);
    AddedIsGlued(one, b);
    var two := Glue(one, b);
    AddedIsGlued(two, c);
    var three := Glue(two, c);
    AddedIsGlued(three, d);
  }

  /** u8_toucs: decode until the destination is full but for its 0, or the source is used up;
      a character cut off by `srcsz` is left out. */
  method ToUcs(dest: array<bv32>, sz: int, src: seq<bv8>, srcsz: int, ghost cps: seq<bv32>) returns (i: nat)
    requires dest.Length >= 1 && sz <= dest.Length
    requires if srcsz == -1 then IsText(src, cps)
             else Encodable(cps) && 0 <= srcsz <= |EncodeAll(cps)| < |src| && src[..|EncodeAll(cps)|] == EncodeAll(cps)
    modifies dest
    ensures i <= |cps| && i < dest.Length && dest[..i] == cps[..i] && dest[i] == 0
    ensures i > 0 ==> i < sz
    ensures i + 1 < sz ==> if srcsz == -1 then i == |cps| else i == |cps| || StartOf(cps, i + 1) > srcsz
    ensures srcsz != -1 ==> StartOf(cps, i) <= srcsz
  {
    hide Enc, Trailing, Dec, Settle, EncodeAll;
    i := 0;
    var p := 0;
    StartEnds(cps);
    while i < sz - 1
      invariant 0 <= i <= |cps| && (i > 0 ==> i < sz) && p == StartOf(cps, i)
      invariant dest[..i] == cps[..i]
      invariant srcsz != -1 ==> p <= srcsz
      decreases sz - i
    {
      hide IsText;
      StartsAt(src, srcsz, cps, i);
      var nb := Trailing(src[p]);
      if srcsz == -1 {
        if src[p] == 0 {
          break;
        }
      } else {
        if p + nb >= srcsz {
          if i < |cps| {
            StartNext(cps, i);
          }
          break;
        }
      }
      var sum;
      sum, p := SumBytes(src, p, nb);
      StartNext(cps, i);
      DecUndoesEnc(cps[i]);
      var ch := Settle(sum, nb);
      assert ch == cps[i] by { DecIs(cps[i]); }
      dest[i] := ch;
      i := i + 1;
      assert dest[..i] == dest[..i - 1] + [ch];
    }
    dest[i] := 0;
    assert dest[..i] == cps[..i];
  }

  lemma DecIs(ch: bv32)
    requires ch < MAX_CHAR
    ensures Dec(Enc(ch)) == Settle(Sum(Enc(ch)), CharLen(ch) - 1)
  {
    hide Settle, Sum;
  }

  /** What u8_toucs finds at the start of character `k`, or past the last one. */
  lemma StartsAt(src: seq<bv8>, srcsz: int, cps: seq<bv32>, k: nat)
    requires k <= |cps|
    requires if srcsz == -1 then IsText(src, cps)
             else Encodable(cps) && 0 <= srcsz <= |EncodeAll(cps)| < |src| && src[..|EncodeAll(cps)|] == EncodeAll(cps)
    ensures StartOf(cps, k) < |src|
    ensures k < |cps| ==>
              var o, n := StartOf(cps, k), CharLen(cps[k]);
              && cps[k] < MAX_CHAR && 1 <= n <= 4 && Trailing(src[o]) == n - 1
              && o + n < |src| && src[o..o + n] == Enc(cps[k])
    ensures srcsz == -1 ==> (src[StartOf(cps, k)] == 0 <==> k == |cps|)
    ensures k == |cps| ==> StartOf(cps, k) >= srcsz
  {
    hide Enc, EncodeAll, Lead, Trailing;
    StartEnds(cps);
    if k < |cps| {
      StartNext(cps, k);
      Parts(cps, k);
      Middle(src, EncodeAll(cps[..k]), Enc(cps[k]), EncodeAll(cps[k + 1..]));
      var o := StartOf(cps, k);
      CharBytes(cps[k]);
      assert src[o] == src[o..o + CharLen(cps[k])][0];
    }
  }

  /** To UTF-8 in a buffer of u8_codingsize bytes and a NUL, and back: the same characters. */
  method ConvertAndBack(wcs: array<bv32>, n: nat) returns (back: array<bv32>, m: nat)
    requires n < wcs.Length && wcs[n] == 0 && Encodable(wcs[..n]) && NoZero(wcs[..n])
    ensures m == n < back.Length && back[..m] == wcs[..n] && back[m] == 0
  {
    ghost var cps := wcs[..n];
    var sz := CodingSize(wcs, n);
    var bytes := new bv8[sz + 1];
    var i := ToUtf8(bytes, sz + 1, wcs, n);
    StartEnds(cps);
    assert Source(wcs[..], n) == cps;
    assert cps[..n] == cps;
    assert i == n by {
      if i < n {
        assert CharLen(cps[i]) >= 1;
        StartNext(cps, i);
        StartsUpTo(cps, i + 1);
      }
    }
    assert bytes[..][..sz] == bytes[..sz];
    back := new bv32[n + 1];
    m := ToUcs(back, n + 1, bytes[..], -1, cps);
  }

  lemma StartsUpTo(cps: seq<bv32>, k: nat)
    requires Encodable(cps) && k <= |cps|
    ensures StartOf(cps, k) <= |EncodeAll(cps)|
  {
    StartEnds(cps);
    if k < |cps| {
      StartRises(cps, k, |cps|);
    }
  }

  // ---------------------------------------------------------------- reversal

  function Reversed<T>(s: seq<T>): (r: seq<T>)
    ensures |r| == |s|
  {
    if s == [] then [] else [s[|s| - 1]] + Reversed(s[..|s| - 1])
  }

  lemma ReversedNone<T>()
    ensures Reversed<T>([]) == []
  {
  }

  lemma {:induction false} ReversedAt<T>(s: seq<T>, k: nat)
    requires k < |s|
    ensures Reversed(s)[k] == s[|s| - 1 - k]
  {
    if k > 0 {
      ReversedAt(s[..|s| - 1], k - 1);
    }
  }

  lemma ReversedTwice<T>(s: seq<T>)
    ensures Reversed(Reversed(s)) == s
  {
    forall k | 0 <= k < |s| ensures Reversed(Reversed(s))[k] == s[k] {
      ReversedAt(Reversed(s), k);
      ReversedAt(s, |s| - 1 - k);
    }
  }

  /** Reversing a string twice gives it back, and it decodes to the reversed characters. */
  lemma ReversedText(cps: seq<bv32>)
    requires Encodable(cps)
    ensures WellFormed(EncodeAll(Reversed(cps))) && DecodeAll(EncodeAll(Reversed(cps))) == Reversed(cps)
    ensures EncodeAll(Reversed(Reversed(cps))) == EncodeAll(cps)
  {
    forall k | 0 <= k < |cps| ensures Reversed(cps)[k] < MAX_CHAR {
      ReversedAt(cps, k);
    }
    DecodeUndoesEncode(Reversed(cps));
    ReversedTwice(cps);
  }

  /** The 2-, 3- and 4-byte copies of u8_reverse. */
  method CopyBytes(dest: array<bv8>, di: nat, src: seq<bv8>, si: nat, n: nat)
    requires di + n <= dest.Length && si + n <= |src|
    modifies dest
    ensures dest[di..di + n] == src[si..si + n]
    ensures dest[di + n..] == old(dest[di + n..])
  {
    for j := 0 to n
      invariant dest[di..di + j] == src[si..si + j]
      invariant dest[di + n..] == old(dest[di + n..])
    {
      dest[di + j] := src[si + j];
      assert dest[di..di + j + 1] == dest[di..di + j] + [dest[di + j]];
    }
  }

  /** The length the high bits of a lead byte tell; 0 for a byte that leads nothing. */
  function NibbleLength(c: bv8): nat {
    if !c & 0x80 != 0 then 1
    else if c >> 4 == 0xC || c >> 4 == 0xD then 2
    else if c >> 4 == 0xE then 3
    else if c >> 4 == 0xF then 4
    else 0
  }

  /** The case distinction of u8_reverse. */
  method LeadLength(c: bv8) returns (n: nat)
    ensures n == NibbleLength(c)
  {
    if !c & 0x80 != 0 {
      return 1;
    }
    var nibble := c >> 4;
    if nibble == 0xC || nibble == 0xD {
      return 2;
    } else if nibble == 0xE {
      return 3;
    } else if nibble == 0xF {
      return 4;
    }
    return 0;
  }

  lemma NibbleLengths(ch: bv32, b: bv8)
    ensures ch < MAX_CHAR ==> NibbleLength(Lead(ch)) == CharLen(ch)
    ensures Continues(b) ==> NibbleLength(b) == 0
  {
  }

  /** Going by lead bytes alone, the bytes can be cut into sequences, */
  predicate Readable(s: seq<bv8>)
    decreases |s|
  {
    s == [] || (1 <= NibbleLength(s[0]) <= |s| && Readable(s[NibbleLength(s[0])..]))
  }

  /** or up to a byte that leads nothing; what is excluded is a sequence that the end cuts off. */
  predicate NotCutOff(s: seq<bv8>)
    decreases |s|
  {
    s == [] || NibbleLength(s[0]) == 0 || (NibbleLength(s[0]) <= |s| && NotCutOff(s[NibbleLength(s[0])..]))
  }

  /** The sequences in reverse order. */
  function Backwards(s: seq<bv8>): (r: seq<bv8>)
    requires Readable(s)
    ensures |r| == |s|
    decreases |s|
  {
    if s == [] then [] else Backwards(s[NibbleLength(s[0])..]) + s[..NibbleLength(s[0])]
  }

  /** What is done and what is left of a reversal. */
  ghost predicate Reversing(all: seq<bv8>, left: seq<bv8>, done: seq<bv8>) {
    && NotCutOff(left) && |all| == |left| + |done| && (Readable(all) <==> Readable(left))
    && (Readable(all) ==> Backwards(all) == Backwards(left) + done)
  }

  lemma ReverseNext(all: seq<bv8>, left: seq<bv8>, done: seq<bv8>)
    requires Reversing(all, left, done) && left != []
    ensures var n := NibbleLength(left[0]);
            && (n == 0 ==> !Readable(all))
            && (n > 0 ==> n <= |left| && Reversing(all, left[n..], left[..n] + done))
  {
    hide NibbleLength;
    var n := NibbleLength(left[0]);
    if n > 0 && Readable(left) {
      Assoc(Backwards(left[n..]), left[..n], done);
    }
  }

  lemma ReverseStart(all: seq<bv8>)
    requires NotCutOff(all)
    ensures Reversing(all, all, [])
  {
    hide NibbleLength;
    if Readable(all) {
      assert Backwards(all) + [] == Backwards(all);
    }
  }

  lemma ReverseEnd(all: seq<bv8>, done: seq<bv8>)
    requires Reversing(all, [], done)
    ensures Readable(all) && Backwards(all) == done
  {
    hide NibbleLength;
    assert [] + done == done;
  }

  /** u8_reverse, on any bytes that `len` does not cut off in the middle of a sequence. */
  method Reverse(dest: array<bv8>, src: seq<bv8>, len: nat) returns (err: int)
    requires len < dest.Length && len <= |src| && NotCutOff(src[..len])
    modifies dest
    ensures err == if Readable(src[..len]) then 0 else 1
    ensures err == 0 ==> dest[..len] == Backwards(src[..len]) && dest[len] == 0
  {
    hide NibbleLength, Readable, NotCutOff, Reversing, Backwards;
    ghost var all := src[..len];
    var si, di := 0, len;
    dest[di] := 0;
    ReverseStart(all);
    assert src[0..len] == all && dest[len..len] == [];
    while si < len
      invariant si <= len && di == len - si && dest[len] == 0
      invariant Reversing(all, src[si..len], dest[di..len])
      decreases len - si
    {
      ghost var left, done, tail := src[si..len], dest[di..len], dest[di..];
      var c := src[si];
      assert left[0] == c;
      ReverseNext(all, left, done);
      var n := LeadLength(c);
      if n == 0 {
        return 1;
      }
      SliceOfSlice(src, si, len, 0, n);
      SliceOfSlice(src, si, len, n, len - si);
      di := di - n;
      CopyBytes(dest, di, src, si, n);
      CopiedInFront(dest[..], di, n, len, tail);
      assert done == tail[..len - (di + n)];
      si := si + n;
    }
    assert src[si..len] == [] && dest[0..len] == dest[..len];
    ReverseEnd(all, dest[..len]);
    return 0;
  }

  lemma {:induction false} ReversedCons<T>(x: T, s: seq<T>)
    ensures Reversed([x] + s) == Reversed(s) + [x]
  {
    var t := [x] + s;
    if s == [] {
      assert t == [x] && t[..0] == [];
    } else {
      var k := |s| - 1;
      assert t[..|t| - 1] == [x] + s[..k];
      ReversedCons(x, s[..k]);
    }
  }

  lemma CharRuns(ch: bv32)
    requires ch < MAX_CHAR
    ensures |Enc(ch)| >= 1 && NibbleLength(Enc(ch)[0]) == |Enc(ch)|
  {
    hide Lead, Tail, NibbleLength;
    EncLead(ch);
    NibbleLengths(ch, 0);
  }

  /** On well-formed text the sequences are the characters, */
  lemma {:induction false} ReverseOfText(cps: seq<bv32>)
    requires Encodable(cps)
    ensures Readable(EncodeAll(cps)) && Backwards(EncodeAll(cps)) == EncodeAll(Reversed(cps))
    decreases |cps|
  {
    hide Enc, EncodeAll, NibbleLength, Reversed;
    if cps == [] {
      EncodeNone();
      ReversedNone<bv32>();
    } else {
      var ch, rest := cps[0], cps[1..];
      assert cps == [ch] + rest;
      EncodeConcat([ch], rest);
      EncodeOne(ch);
      CharRuns(ch);
      ReverseOfText(rest);
      ReversedCons(ch, rest);
      EncodeConcat(Reversed(rest), [ch]);
      var s, n := EncodeAll(cps), |Enc(ch)|;
      assert s[0] == Enc(ch)[0] && s[..n] == Enc(ch) && s[n..] == EncodeAll(rest);
    }
  }

  /** and a continuation byte where a character should start is what makes it fail. */
  lemma {:induction false} StrayFails(cps: seq<bv32>, stray: seq<bv8>)
    requires Encodable(cps) && stray != [] && Continues(stray[0])
    ensures NotCutOff(EncodeAll(cps) + stray) && !Readable(EncodeAll(cps) + stray)
    decreases |cps|
  {
    hide Enc, EncodeAll, NibbleLength, Continues;
    NibbleLengths(0, stray[0]);
    if cps == [] {
      EncodeNone();
      assert [] + stray == stray;
    } else {
      var ch, rest := cps[0], cps[1..];
      assert cps == [ch] + rest;
      EncodeConcat([ch], rest);
      EncodeOne(ch);
      CharRuns(ch);
      StrayFails(rest, stray);
      var s, n := EncodeAll(cps) + stray, |Enc(ch)|;
      assert s[0] == Enc(ch)[0] && s[n..] == EncodeAll(rest) + stray;
    }
  }

  lemma CopiedInFront(d: seq<bv8>, di: nat, n: nat, len: nat, tail: seq<bv8>)
    requires di + n <= len < |d| && d[di + n..] == tail
    ensures d[di..len] == d[di..di + n] + tail[..len - (di + n)]
    ensures d[len] == tail[len - (di + n)]
  {
    assert d[di..len] == d[di..di + n] + d[di + n..len];
    SliceOfSlice(d, di + n, |d|, 0, len - (di + n));
    assert d[di + n..|d|] == tail;
  }
}
