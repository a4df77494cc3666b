/** The token list of tokenizer.c: every token's bytes, NUL included, lie back to back in one
    buffer, and the token records hold offsets into it. */
module TokenLists {
  import opened CString

  /** SWISH_TOKEN_LIST_SIZE */
  const TOKEN_LIST_SIZE: nat := 1024

  /** `refCnt` counts the list itself and whoever else holds on to the token. */
  datatype Token = Token(pos: nat, meta: string, context: string, offset: nat, len: nat, refCnt: nat)

  /** A token as its users see it. */
  datatype Item = Item(value: string, pos: nat, meta: string, context: string)

  /** The buffer that holds `items`. */
  function Packed(items: seq<Item>): string {
    if items == [] then "" else Packed(items[..|items| - 1]) + items[|items| - 1].value + [NUL]
  }

  predicate GoodItem(i: Item) {
    i.value != "" && NoNul(i.value)
  }

  /** The records `ts` and the buffer `buf` represent `items`. */
  predicate LaidOut(ts: seq<Token>, buf: string, items: seq<Item>) {
    && |ts| == |items| && buf == Packed(items)
    && forall k :: 0 <= k < |items| ==> GoodItem(items[k]) && Record(ts[k], items, k)
  }

  predicate Record(t: Token, items: seq<Item>, k: nat)
    requires k < |items|
  {
    && t.pos == items[k].pos && t.meta == items[k].meta && t.context == items[k].context
    && t.offset == |Packed(items[..k])| && t.len == |items[k].value| && t.refCnt >= 1
  }

  lemma PackedSnoc(items: seq<Item>, i: Item)
    ensures Packed(items + [i]) == Packed(items) + i.value + [NUL]
  {
    assert (items + [i])[..|items|] == items;
  }

  /** Appending a token's bytes and its record appends the item. */
  lemma LaidOutSnoc(ts: seq<Token>, buf: string, items: seq<Item>, i: Item)
    requires LaidOut(ts, buf, items) && GoodItem(i)
    ensures LaidOut(ts + [Token(i.pos, i.meta, i.context, |buf|, |i.value|, 1)], buf + (i.value + [NUL]), items + [i])
  {
    hide NoNul, Packed;
    var more := items + [i];
    PackedSnoc(items, i);
    assert more[..|items|] == items;
    assert buf + (i.value + [NUL]) == Packed(items) + i.value + [NUL];
    forall k | 0 <= k < |items|
      ensures GoodItem(more[k]) && Record(ts[k], more, k)
    {
      assert more[..k] == items[..k];
    }
  }

  /** Slots the chunked growth has room for when `n` are in use. */
  function Capacity(n: nat): nat {
    TOKEN_LIST_SIZE * (if n <= TOKEN_LIST_SIZE then 1 else (n + TOKEN_LIST_SIZE - 1) / TOKEN_LIST_SIZE)
  }

  lemma CapacityGrows(n: nat)
    ensures n <= Capacity(n)
    ensures Capacity(n + 1) == if n > 0 && n % TOKEN_LIST_SIZE == 0
                               then TOKEN_LIST_SIZE * (n / TOKEN_LIST_SIZE + 1) else Capacity(n)
    ensures n < Capacity(n + 1)
  {
  }

  /** Room for 1024 tokens at a time. */
  lemma CapacitySteps()
    ensures Capacity(0) == Capacity(1) == Capacity(1024) == 1024 && Capacity(1025) == Capacity(2048) == 2048
    ensures Capacity(2049) == 3072
  {
  }

  lemma {:induction false} PackedPrefix(items: seq<Item>, k: nat)
    requires k <= |items|
    ensures Packed(items[..k]) <= Packed(items)
  {
    if k == |items| {
      assert items[..k] == items;
    } else {
      PackedPrefix(items[..|items| - 1], k);
      assert items[..|items| - 1][..k] == items[..k];
    }
  }

  /** Item `k` is the slice at its offset, a NUL follows it, and the next item comes right after. */
  lemma PackedSlice(items: seq<Item>, k: nat)
    requires k < |items|
    ensures var offset, len := |Packed(items[..k])|, |items[k].value|;
            && offset + len < |Packed(items)|
            && Packed(items)[offset..offset + len] == items[k].value
            && Packed(items)[offset + len] == NUL
            && |Packed(items[..k + 1])| == offset + len + 1
  {
    var upto := items[..k + 1];
    assert upto[..k] == items[..k];
    var front, value := Packed(items[..k]), items[k].value;
    assert Packed(upto) == front + value + [NUL];
    PackedPrefix(items, k + 1);
    assert Packed(items)[..|Packed(upto)|] == Packed(upto);
    assert Packed(upto)[|front|..|front| + |value|] == value;
    assert Packed(items)[|front|..|front| + |value|] == Packed(upto)[|front|..|front| + |value|];
  }

  function Lengths(items: seq<Item>): nat {
    if items == [] then 0 else Lengths(items[..|items| - 1]) + |items[|items| - 1].value| + 1
  }

  lemma {:induction false} PackedLength(items: seq<Item>)
    ensures |Packed(items)| == Lengths(items)
  {
    if items != [] {
      PackedLength(items[..|items| - 1]);
    }
  }

  /** The ref_cnt of every metaname of the configuration, and those that were freed because their
      count came to zero. */
  class MetaRefs {
    var cnt: map<string, int>
    var freed: set<string>

    constructor (cnt: map<string, int>)
      ensures this.cnt == cnt && freed == {}
    {
      this.cnt, freed := cnt, {};
    }

    /** The end of swish_token_free: one reference less, and nobody left means the metaname goes. */
    method GiveBack(meta: string)
      requires meta in cnt
      modifies this
      ensures cnt == old(cnt)[meta := old(cnt)[meta] - 1]
      ensures freed == old(freed) + if cnt[meta] == 0 then {meta} else {}
    {
      cnt := cnt[meta := cnt[meta] - 1];
      if cnt[meta] == 0 {
        freed := freed + {meta};
      }
    }
  }

  /** A reference of a metaname belongs to each token that nobody but its list holds on to. */
  function Owned(ts: seq<Token>, m: string): nat {
    if ts == [] then 0
    else Owned(ts[..|ts| - 1], m) + if ts[|ts| - 1].meta == m && ts[|ts| - 1].refCnt <= 1 then 1 else 0
  }

  /** What the counts come to without those references. */
  ghost function Rest(cnt: map<string, int>, ts: seq<Token>): imap<string, int> {
    imap m: string :: (if m in cnt then cnt[m] else 0) - Owned(ts, m)
  }

  lemma OwnedSnoc(ts: seq<Token>, t: Token, m: string)
    ensures Owned(ts + [t], m) == Owned(ts, m) + if t.meta == m && t.refCnt <= 1 then 1 else 0
  {
    assert (ts + [t])[..|ts|] == ts;
  }

  /** A token that is added takes a reference of its metaname. */
  lemma RestTaken(cnt: map<string, int>, ts: seq<Token>, t: Token)
    requires t.meta in cnt && t.refCnt == 1
    ensures Rest(cnt[t.meta := cnt[t.meta] + 1], ts + [t]) == Rest(cnt, ts)
  {
    hide Owned;
    forall m ensures Owned(ts + [t], m) == Owned(ts, m) + if t.meta == m then 1 else 0 {
      OwnedSnoc(ts, t, m);
    }
  }

  /** A token that is dropped gives it back unless somebody else holds the token. */
  lemma RestGiven(cnt: map<string, int>, ts: seq<Token>, t: Token)
    requires t.meta in cnt
    ensures Rest(Given(cnt, t), ts) == Rest(cnt, ts + [t])
  {
    hide Owned;
    forall m ensures Owned(ts + [t], m) == Owned(ts, m) + if t.meta == m && t.refCnt <= 1 then 1 else 0 {
      OwnedSnoc(ts, t, m);
    }
  }

  lemma RestNone(cnt: map<string, int>)
    ensures forall m: string :: Rest(cnt, [])[m] == if m in cnt then cnt[m] else 0
  {
  }

  lemma {:induction false} OwnedHeld(ts: seq<Token>, k: nat, m: string)
    requires k < |ts| && ts[k].refCnt >= 1
    ensures Owned(ts[k := ts[k].(refCnt := ts[k].refCnt + 1)], m)
         == Owned(ts, m) - if ts[k].meta == m && ts[k].refCnt == 1 then 1 else 0
  {
    var last := |ts| - 1;
    var more := ts[k := ts[k].(refCnt := ts[k].refCnt + 1)];
    if k < last {
      OwnedHeld(ts[..last], k, m);
      assert more[..last] == ts[..last][k := more[k]];
    } else {
      assert more[..last] == ts[..last];
    }
  }

  /** A token without the reference of its list. */
  function Dropped(t: Token): Token
    requires t.refCnt >= 1
  {
    t.(refCnt := t.refCnt - 1)
  }

  function Given(cnt: map<string, int>, t: Token): map<string, int>
    requires t.meta in cnt
  {
    if t.refCnt <= 1 then cnt[t.meta := cnt[t.meta] - 1] else cnt
  }

  /** Every metaname has a reference that is none of the list's. */
  ghost predicate HeldElsewhere(cnt: map<string, int>, ts: seq<Token>) {
    forall m :: m in cnt ==> Rest(cnt, ts)[m] >= 1
  }

  lemma CountedElsewhere(cnt: map<string, int>, ts: seq<Token>)
    requires HeldElsewhere(cnt, ts)
    ensures forall m :: m in cnt ==> cnt[m] >= 1
  {
    hide Owned;
    forall m | m in cnt ensures cnt[m] >= 1 {
      assert Rest(cnt, ts)[m] >= 1;
    }
  }

  lemma SplitAt(s: string, i: nat, len: nat, value: string)
    requires i + len < |s| && s[i..i + len] == value && s[i + len] == NUL
    ensures s[i..] == value + [NUL] + s[i + len + 1..]
  {
  }

  class TokenList {
    var n: nat
    var pos: nat
    var buf: string
    var tokens: array<Token>
    const refs: MetaRefs
    ghost var items: seq<Item>

    ghost predicate Valid()
      reads this, tokens
    {
      tokens.Length == Capacity(n) && n <= tokens.Length && LaidOut(tokens[..n], buf, items)
    }

    /** What the references to each metaname come to without those of this list. */
    ghost function Elsewhere(): imap<string, int>
      reads this`n, this`tokens, tokens, refs`cnt
    {
      Rest(refs.cnt, if n <= tokens.Length then tokens[..n] else [])
    }

    /** swish_token_list_init */
    constructor (refs: MetaRefs)
      ensures Valid() && fresh(tokens) && items == [] && n == pos == 0 && this.refs == refs
    {
      this.refs := refs;
      n, pos, buf, items := 0, 0, "", [];
      tokens := new Token[TOKEN_LIST_SIZE];
    }

    /** The realloc of swish_token_list_add_token: one more chunk when the last one is full. */
    method Reserve()
      requires Valid()
      modifies this`tokens
      ensures tokens == old(tokens) || fresh(tokens)
      ensures tokens.Length == Capacity(n + 1)
      ensures forall k :: 0 <= k < n ==> tokens[k] == old(tokens[k])
    {
      CapacityGrows(n);
      var numOfAllocs := n / TOKEN_LIST_SIZE;
      if numOfAllocs != 0 && n % TOKEN_LIST_SIZE == 0 {
        numOfAllocs := numOfAllocs + 1;
        var grown := new Token[TOKEN_LIST_SIZE * numOfAllocs];
        forall k | 0 <= k < n {
          grown[k] := tokens[k];
        }
        tokens := grown;
      }
    }

    /** swish_token_list_add_token: `token` is the token's bytes, its NUL included. */
    method AddToken(token: string, meta: string, context: string) returns (count: nat)
      requires Valid() && |token| >= 2 && token[|token| - 1] == NUL && NoNul(token[..|token| - 1])
      requires meta in refs.cnt
      modifies this, tokens, refs
      ensures Valid() && (tokens == old(tokens) || fresh(tokens))
      ensures items == old(items) + [Item(token[..|token| - 1], old(pos) + 1, meta, context)]
      ensures pos == old(pos) + 1 && count == n == old(n) + 1
      ensures refs.cnt == old(refs.cnt)[meta := old(refs.cnt)[meta] + 1]
      ensures Elsewhere() == old(Elsewhere())
    {
      hide LaidOut, NoNul, Packed, Rest, Capacity, Record;
      ghost var item := Item(token[..|token| - 1], pos + 1, meta, context);
      assert token == item.value + [NUL];
      var stoken := Token(pos + 1, meta, context, |buf|, |token| - 1, 1);
      ghost var records := tokens[..n];
      LaidOutSnoc(records, buf, items, item);
      RestTaken(refs.cnt, records, stoken);
      CapacityGrows(n);
      Reserve();
      assert tokens[..n] == records;
      buf := buf + token;
      tokens[n] := stoken;
      n := n + 1;
      assert tokens[..n] == records + [stoken];
      pos := pos + 1;
      items := items + [item];
      refs.cnt := refs.cnt[meta := refs.cnt[meta] + 1];
      count := n;
    }

    /** swish_token_list_get_token_value: the C string at the token's offset. */
    method GetTokenValue(k: nat) returns (value: string)
      requires Valid() && k < n
      ensures value == items[k].value
    {
      hide LaidOut, Packed, Capacity, NoNul, CStr;
      var t := tokens[k];
      BytesAt(k);
      CStrStops(items[k].value, buf[t.offset + t.len + 1..]);
      value := CStr(buf[t.offset..]);
    }

    /** The bytes of token `k` are where its record says. */
    lemma BytesAt(k: nat)
      requires Valid() && k < n
      ensures k < |items| && k < tokens.Length && NoNul(items[k].value)
      ensures var t := tokens[k];
              t.offset + t.len < |buf| && buf[t.offset..] == items[k].value + [NUL] + buf[t.offset + t.len + 1..]
    {
      hide NoNul, Capacity, Packed;
      var t := tokens[k];
      assert tokens[..n][k] == t;
      assert Record(t, items, k) && GoodItem(items[k]);
      PackedSlice(items, k);
      SplitAt(buf, t.offset, t.len, items[k].value);
    }

    lemma Metas()
      requires Valid()
      ensures n == |items| <= tokens.Length
      ensures forall k :: 0 <= k < n ==> tokens[k].meta == items[k].meta && tokens[k].refCnt >= 1
    {
      hide Packed, Capacity, GoodItem;
      forall k | 0 <= k < n ensures tokens[k].meta == items[k].meta && tokens[k].refCnt >= 1 {
        assert tokens[..n][k] == tokens[k];
        assert Record(tokens[..n][k], items, k);
      }
    }

    /** Somebody else takes a reference to a token. */
    method Hold(k: nat)
      requires Valid() && k < n
      modifies tokens
      ensures Valid() && tokens[k] == old(tokens[k]).(refCnt := old(tokens[k]).refCnt + 1)
      ensures forall i :: 0 <= i < n && i != k ==> tokens[i] == old(tokens[i])
      ensures forall m: string ::
                Elsewhere()[m] == old(Elsewhere())[m]
                                  + if tokens[k].meta == m && old(tokens[k]).refCnt == 1 then 1 else 0
    {
      hide Packed, Capacity, GoodItem, Owned;
      ghost var ts := tokens[..n];
      assert Record(ts[k], items, k);
      tokens[k] := tokens[k].(refCnt := tokens[k].refCnt + 1);
      assert tokens[..n] == ts[k := tokens[k]];
      forall m: string {
        OwnedHeld(ts, k, m);
      }
    }

    /** One turn of the loop of swish_token_list_free: the last token loses the list's reference,
        and if nobody else holds it, it gives back its reference to its metaname. */
    method Release()
      requires 0 < n <= tokens.Length && tokens[n - 1].refCnt >= 1 && tokens[n - 1].meta in refs.cnt
      modifies this`n, tokens, refs
      ensures n == old(n) - 1
      ensures tokens[..] == old(tokens[..])[n := Dropped(old(tokens[n - 1]))]
      ensures refs.cnt == Given(old(refs.cnt), old(tokens[n - 1]))
      ensures var t := old(tokens[n - 1]);
              refs.freed == old(refs.freed) + if t.refCnt <= 1 && refs.cnt[t.meta] == 0 then {t.meta} else {}
    {
      n := n - 1;
      tokens[n] := Dropped(tokens[n]);
      if tokens[n].refCnt < 1 {
        refs.GiveBack(tokens[n].meta);
      }
    }

    /** The loop of swish_token_list_free. */
    method ReleaseAll()
      requires n <= tokens.Length
      requires forall k :: 0 <= k < n ==> tokens[k].refCnt >= 1 && tokens[k].meta in refs.cnt
      modifies this`n, tokens, refs
      ensures n == 0 && refs.cnt.Keys == old(refs.cnt).Keys && Rest(refs.cnt, []) == old(Elsewhere())
      ensures old(HeldElsewhere(refs.cnt, tokens[..n])) ==> refs.freed == old(refs.freed)
    {
      hide Rest, HeldElsewhere, Dropped, Given;
      ghost var ts := tokens[..n];
      while n > 0
        modifies this`n, tokens, refs
        invariant n <= |ts| <= tokens.Length && tokens[..n] == ts[..n]
        invariant refs.cnt.Keys == old(refs.cnt).Keys && Rest(refs.cnt, ts[..n]) == Rest(old(refs.cnt), ts)
        invariant HeldElsewhere(old(refs.cnt), ts) ==> refs.freed == old(refs.freed)
      {
        ghost var now, t := refs.cnt, ts[n - 1];
        assert tokens[..n][n - 1] == t;
        Release();
        assert tokens[..n] == ts[..n];
        OneGiven(old(refs.cnt), now, ts, n, t);
      }
      assert ts[..0] == [];
    }

    /** swish_token_list_free.  Every metaname ends with the references from outside this list, of
        which there is one for each token that somebody still holds; where these leave none at
        zero, none is freed. */
    method Free()
      requires Valid()
      requires forall i :: i in items ==> i.meta in refs.cnt
      modifies this, tokens, refs
      ensures n == 0 && refs.cnt.Keys == old(refs.cnt).Keys
      ensures forall m :: m in refs.cnt ==> refs.cnt[m] == old(Elsewhere())[m]
      ensures old(HeldElsewhere(refs.cnt, tokens[..n])) ==> refs.freed == old(refs.freed)
    {
      hide LaidOut, Packed, Capacity, Rest, HeldElsewhere;
      Metas();
      forall k | 0 <= k < n ensures tokens[k].meta in refs.cnt {
        assert items[k] in items;
      }
      ReleaseAll();
      RestNone(refs.cnt);
    }
  }

  lemma OneGiven(before: map<string, int>, now: map<string, int>, ts: seq<Token>, k: nat, t: Token)
    requires k < |ts| && t == ts[k] && t.meta in now && now.Keys == before.Keys
    requires Rest(now, ts[..k + 1]) == Rest(before, ts)
    ensures Given(now, t).Keys == now.Keys && Rest(Given(now, t), ts[..k]) == Rest(before, ts)
    ensures HeldElsewhere(before, ts) ==> Given(now, t)[t.meta] >= 1
  {
    assert ts[..k + 1] == ts[..k] + [t];
    RestGiven(now, ts[..k], t);
    if HeldElsewhere(before, ts) {
      hide Owned, Rest;
      assert HeldElsewhere(Given(now, t), ts[..k]);
      CountedElsewhere(Given(now, t), ts[..k]);
    }
  }

  /** swish_TokenIterator */
  class TokenIterator {
    const tl: TokenList
    var pos: nat

    constructor (tl: TokenList)
      ensures this.tl == tl && pos == 0
    {
      this.tl, pos := tl, 0;
    }

    /** swish_token_iterator_next_token */
    method NextToken() returns (token: seq<Token>, value: string)
      requires tl.Valid()
      modifies this
      ensures if old(pos) >= tl.n then token == [] && pos == old(pos)
              else pos == old(pos) + 1 && token == [tl.tokens[old(pos)]] && value == tl.items[old(pos)].value
    {
      hide LaidOut, Capacity;
      if pos >= tl.n {
        return [], "";
      }
      token := [tl.tokens[pos]];
      value := tl.GetTokenValue(pos);
      pos := pos + 1;
    }
  }

  /** Draining a fresh iterator yields every token once, in the order added. */
  method Drain(tl: TokenList) returns (drained: seq<Item>)
    requires tl.Valid()
    ensures drained == tl.items
  {
    hide Packed, Capacity, GoodItem;
    var it := new TokenIterator(tl);
    drained := [];
    var token, value := it.NextToken();
    while token != []
      invariant it.tl == tl && tl.Valid() && |token| <= 1
      invariant token != [] ==> 1 <= it.pos <= tl.n && |drained| == it.pos - 1 && value == tl.items[it.pos - 1].value
      invariant token != [] ==> token[0] == tl.tokens[..tl.n][it.pos - 1]
      invariant token == [] ==> |drained| == tl.n
      invariant |drained| <= tl.n && drained == tl.items[..|drained|]
      decreases token != [], tl.n - |drained|
    {
      assert Record(token[0], tl.items, |drained|);
      drained := drained + [Item(value, token[0].pos, token[0].meta, token[0].context)];
      token, value := it.NextToken();
    }
  }
}
