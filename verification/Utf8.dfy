/** The encoding at the bottom of utf8.c, one character at a time.  Bytes are bv8 and
    characters bv32, so shifts, masks and wrap-around are the original's own. */
module Utf8 {

  const MAX_CHAR: bv32 := 0x110000

  /** offsetsFromUTF8 */
  function Offset(n: nat): bv32
    requires n < 6
  {
    if n == 0 then 0 else if n == 1 then 0x3080 else if n == 2 then 0xE2080
    else if n == 3 then 0x3C82080 else if n == 4 then 0xFA082080 else 0x82082080
  }

  /** trailingBytesForUTF8 */
  function Trailing(b: bv8): (n: nat)
    ensures n < 6
  {
    if b < 0xC0 then 0 else if b < 0xE0 then 1 else if b < 0xF0 then 2
    else if b < 0xF8 then 3 else if b < 0xFC then 4 else 5
  }

  /** isutf: not a continuation byte */
  predicate IsUtf(b: bv8) {
    b & 0xC0 != 0x80
  }

  /** u8_charlen */
  function CharLen(ch: bv32): (n: nat)
    ensures n <= 4 && (n > 0 <==> ch < MAX_CHAR)
  {
    if ch < 0x80 then 1 else if ch < 0x800 then 2 else if ch < 0x10000 then 3
    else if ch < MAX_CHAR then 4 else 0
  }

  function Tail(ch: bv32): bv8 {
    ((ch & 0x3F) | 0x80) as bv8
  }

  function Lead(ch: bv32): bv8
    requires ch < MAX_CHAR
  {
    if ch < 0x80 then ch as bv8
    else if ch < 0x800 then ((ch >> 6) | 0xC0) as bv8
    else if ch < 0x10000 then ((ch >> 12) | 0xE0) as bv8
    else ((ch >> 18) | 0xF0) as bv8
  }

  /** The bytes u8_wc_toutf8 writes, and u8_toutf8 too; none for what is no character. */
  function Enc(ch: bv32): (e: seq<bv8>)
    ensures |e| == CharLen(ch)
  {
    if ch < 0x80 then [Lead(ch)]
    else if ch < 0x800 then [Lead(ch), Tail(ch)]
    else if ch < 0x10000 then [Lead(ch), Tail(ch >> 6), Tail(ch)]
    else if ch < MAX_CHAR then [Lead(ch), Tail(ch >> 12), Tail(ch >> 6), Tail(ch)]
    else []
  }

  /** One step of the decoders: shift by six, add the next raw byte, wrap at 32 bits. */
  function Glue(ch: bv32, b: bv8): bv32 {
    Added(MadeRoom(ch), b)
  }

  function MadeRoom(ch: bv32): bv32 {
    ch << 6
  }

  function Added(ch: bv32, b: bv8): bv32 {
    ch + b as bv32
  }

  function Sum(bytes: seq<bv8>): bv32 {
    if bytes == [] then 0 else Glue(Sum(bytes[..|bytes| - 1]), bytes[|bytes| - 1])
  }

  /** Their last step. */
  function Settle(sum: bv32, n: nat): bv32
    requires n < 6
  {
    sum - Offset(n)
  }

  /** What the decoders make of the bytes of one character. */
  function Dec(e: seq<bv8>): bv32
    requires 1 <= |e| <= 6
  {
    Settle(Sum(e), |e| - 1)
  }

  lemma LeadByte(ch: bv32)
    requires ch < MAX_CHAR
    ensures Trailing(Lead(ch)) == CharLen(ch) - 1 && IsUtf(Lead(ch))
    ensures ch < 0x80 ==> Lead(ch) == ch as bv8
    ensures ch >= 0x80 ==> Lead(ch) >= 0xC0
  {
  }

  lemma TailByte(ch: bv32)
    ensures !IsUtf(Tail(ch)) && 0x80 <= Tail(ch) < 0xC0
  {
  }

  lemma EncTail(ch: bv32, k: nat)
    requires 1 <= k < CharLen(ch)
    ensures !IsUtf(Enc(ch)[k]) && Enc(ch)[k] != 0
  {
    TailByte(ch);
    TailByte(ch >> 6);
    TailByte(ch >> 12);
  }

  lemma {:induction false} SumSnoc(bytes: seq<bv8>, b: bv8)
    ensures Sum(bytes + [b]) == Glue(Sum(bytes), b)
  {
    hide Glue;
    assert (bytes + [b])[..|bytes|] == bytes;
  }

  lemma SumFour(a: bv8, b: bv8, c: bv8, d: bv8)
    ensures Sum([a]) == Glue(0, a)
    ensures Sum([a, b]) == Glue(Glue(0, a), b)
    ensures Sum([a, b, c]) == Glue(Glue(Glue(0, a), b), c)
    ensures Sum([a, b, c, d]) == Glue(Glue(Glue(Glue(0, a), b), c), d)
  {
    hide Glue;
    SumSnoc([], a);
    SumSnoc([a], b);
    SumSnoc([a, b], c);
    SumSnoc([a, b, c], d);
    assert [] + [a] == [a];
    assert [a] + [b] == [a, b];
    assert [a, b] + [c] == [a, b, c];
    assert [a, b, c] + [d] == [a, b, c, d];
  }

  lemma Undo1(ch: bv32)
    requires ch < 0x80
    ensures Settle(Glue(0, Lead(ch)), 0) == ch
  {
  }

  lemma Undo2(ch: bv32)
    requires 0x80 <= ch < 0x800
    ensures Settle(Glue(Glue(0, Lead(ch)), Tail(ch)), 1) == ch
  {
  }

  lemma Undo3(ch: bv32)
    requires 0x800 <= ch < 0x10000
    ensures Settle(Glue(Glue(Glue(0, Lead(ch)), Tail(ch >> 6)), Tail(ch)), 2) == ch
  {
  }

  lemma Undo4(ch: bv32)
    requires 0x10000 <= ch < MAX_CHAR
    ensures Settle(Glue(Glue(Glue(Glue(0, Lead(ch)), Tail(ch >> 12)), Tail(ch >> 6)), Tail(ch)), 3) == ch
  {
  }

  /** Subtracting the constant of the length takes all the marker bits out of the sum at once. */
  lemma DecUndoesEnc(ch: bv32)
    requires ch < MAX_CHAR
    ensures Dec(Enc(ch)) == ch
  {
    hide Sum, Tail, Lead, Glue, Offset, Settle;
    var b, c, d := Tail(ch >> 12), Tail(ch >> 6), Tail(ch);
    if ch < 0x80 {
      Undo1(ch);
      SumFour(Lead(ch), b, c, d);
    } else if ch < 0x800 {
      Undo2(ch);
      SumFour(Lead(ch), d, b, c);
    } else if ch < 0x10000 {
      Undo3(ch);
      SumFour(Lead(ch), c, d, b);
    } else {
      Undo4(ch);
      SumFour(Lead(ch), b, c, d);
    }
  }

  // ---------------------------------------------------------------- the other way round

  predicate Continues(b: bv8) {
    0x80 <= b < 0xC0
  }

  /** The byte sequences of section 4 of RFC 3629, surrogates included: shortest form, below
      0x110000. */
  predicate WellFormedChar(e: seq<bv8>) {
    || (|e| == 1 && e[0] < 0x80)
    || (|e| == 2 && 0xC2 <= e[0] < 0xE0 && Continues(e[1]))
    || (|e| == 3 && 0xE0 <= e[0] < 0xF0 && Continues(e[1]) && Continues(e[2]) && (e[0] == 0xE0 ==> e[1] >= 0xA0))
    || (|e| == 4 && 0xF0 <= e[0] <= 0xF4 && Continues(e[1]) && Continues(e[2]) && Continues(e[3])
        && (e[0] == 0xF0 ==> e[1] >= 0x90) && (e[0] == 0xF4 ==> e[1] < 0x90))
  }

  lemma EncWellFormed(ch: bv32)
    requires ch < MAX_CHAR
    ensures WellFormedChar(Enc(ch))
  {
    TailByte(ch);
    TailByte(ch >> 6);
    TailByte(ch >> 12);
    LeadRanges(ch);
  }

  lemma LeadRanges(ch: bv32)
    requires ch < MAX_CHAR
    ensures ch < 0x80 ==> Lead(ch) < 0x80
    ensures 0x80 <= ch < 0x800 ==> 0xC2 <= Lead(ch) < 0xE0
    ensures 0x800 <= ch < 0x10000 ==> 0xE0 <= Lead(ch) < 0xF0 && (Lead(ch) == 0xE0 ==> Tail(ch >> 6) >= 0xA0)
    ensures 0x10000 <= ch ==> 0xF0 <= Lead(ch) <= 0xF4
    ensures 0x10000 <= ch ==> (Lead(ch) == 0xF0 ==> Tail(ch >> 12) >= 0x90)
    ensures 0x10000 <= ch ==> (Lead(ch) == 0xF4 ==> Tail(ch >> 12) < 0x90)
  {
  }

  lemma Redo1(ch: bv32, a: bv8)
    requires a < 0x80 && ch == Settle(Glue(0, a), 0)
    ensures ch < 0x80 && Lead(ch) == a
  {
  }

  lemma Redo2(ch: bv32, a: bv8, b: bv8)
    requires 0xC2 <= a < 0xE0 && Continues(b) && ch == Settle(Glue(Glue(0, a), b), 1)
    ensures 0x80 <= ch < 0x800 && Lead(ch) == a && Tail(ch) == b
  {
  }

  lemma Redo3(ch: bv32, a: bv8, b: bv8, c: bv8)
    requires 0xE0 <= a < 0xF0 && Continues(b) && Continues(c) && (a == 0xE0 ==> b >= 0xA0)
    requires ch == Settle(Glue(Glue(Glue(0, a), b), c), 2)
    ensures 0x800 <= ch < 0x10000 && Lead(ch) == a && Tail(ch >> 6) == b && Tail(ch) == c
  {
  }

  lemma Redo4(ch: bv32, a: bv8, b: bv8, c: bv8, d: bv8)
    requires 0xF0 <= a <= 0xF4 && Continues(b) && Continues(c) && Continues(d)
    requires (a == 0xF0 ==> b >= 0x90) && (a == 0xF4 ==> b < 0x90)
    requires ch == Settle(Glue(Glue(Glue(Glue(0, a), b), c), d), 3)
    ensures 0x10000 <= ch < MAX_CHAR && Lead(ch) == a && Tail(ch >> 12) == b && Tail(ch >> 6) == c && Tail(ch) == d
  {
  }

  lemma EncForm(ch: bv32)
    ensures ch < 0x80 ==> Enc(ch) == [Lead(ch)]
    ensures 0x80 <= ch < 0x800 ==> Enc(ch) == [Lead(ch), Tail(ch)]
    ensures 0x800 <= ch < 0x10000 ==> Enc(ch) == [Lead(ch), Tail(ch >> 6), Tail(ch)]
    ensures 0x10000 <= ch < MAX_CHAR ==> Enc(ch) == [Lead(ch), Tail(ch >> 12), Tail(ch >> 6), Tail(ch)]
  {
    hide Lead, Tail;
  }

  lemma DecFour(e: seq<bv8>)
    requires |e| == 4
    ensures Dec(e) == Settle(Glue(Glue(Glue(Glue(0, e[0]), e[1]), e[2]), e[3]), 3)
  {
    hide Sum, Glue, Settle;
    SumFour(e[0], e[1], e[2], e[3]);
    assert e == [e[0], e[1], e[2], e[3]];
  }

  lemma DecThree(e: seq<bv8>)
    requires |e| == 3
    ensures Dec(e) == Settle(Glue(Glue(Glue(0, e[0]), e[1]), e[2]), 2)
  {
    hide Sum, Glue, Settle;
    SumFour(e[0], e[1], e[2], 0);
    assert e == [e[0], e[1], e[2]];
  }

  /** Decoding a well-formed sequence gives the one character that encodes to it. */
  lemma EncUndoesDec(e: seq<bv8>)
    requires WellFormedChar(e)
    ensures Dec(e) < MAX_CHAR && Enc(Dec(e)) == e
  {
    hide Sum, Tail, Lead, Glue, Offset, Settle, Continues, Dec, Enc;
    EncForm(Dec(e));
    if |e| == 1 {
      DecShort(e);
      Redo1(Dec(e), e[0]);
    } else if |e| == 2 {
      DecShort(e);
      Redo2(Dec(e), e[0], e[1]);
    } else if |e| == 3 {
      DecThree(e);
      Redo3(Dec(e), e[0], e[1], e[2]);
    } else {
      EncUndoesDecFour(e, Dec(e));
    }
  }

  lemma EncUndoesDecFour(e: seq<bv8>, ch: bv32)
    requires WellFormedChar(e) && |e| == 4 && ch == Dec(e)
    ensures 0x10000 <= ch < MAX_CHAR && Enc(ch) == e
  {
    hide Sum, Tail, Lead, Glue, Offset, Settle, Dec, Enc;
    assert 0x10000 <= ch < MAX_CHAR && Lead(ch) == e[0]
           && Tail(ch >> 12) == e[1] && Tail(ch >> 6) == e[2] && Tail(ch) == e[3] by {
      DecFour(e);
      Redo4(ch, e[0], e[1], e[2], e[3]);
    }
    hide *;
    EncForm(ch);
  }

  lemma DecShort(e: seq<bv8>)
    requires 1 <= |e| <= 2
    ensures Dec(e) == if |e| == 1 then Settle(Glue(0, e[0]), 0) else Settle(Glue(Glue(0, e[0]), e[1]), 1)
  {
    hide Sum, Glue, Settle;
    if |e| == 1 {
      SumFour(e[0], 0, 0, 0);
      assert e == [e[0]];
    } else {
      SumFour(e[0], e[1], 0, 0);
      assert e == [e[0], e[1]];
    }
  }

  lemma WellFormedLength(e: seq<bv8>)
    requires WellFormedChar(e)
    ensures |e| == Trailing(e[0]) + 1
  {
  }
}
