/** The linked stacks of open tags (swish_TagStack).  `entries` lists the chain from the
    bottom up, so the head is the last entry. */
module TagStacks {

  datatype Tag = Tag(raw: string, baked: string, context: string, n: nat)

  type Stack = seq<Tag>

  function Names(s: Stack): (names: seq<string>)
    ensures |names| == |s|
    ensures forall i :: 0 <= i < |s| ==> names[i] == s[i].baked
  {
    seq(|s|, i requires 0 <= i < |s| => s[i].baked)
  }

  /** The names from the bottom up with the join character in between. */
  function Join(names: seq<string>, join: char): string
    requires |names| >= 1
  {
    if |names| == 1 then names[0]
    else Join(names[..|names| - 1], join) + [join] + names[|names| - 1]
  }

  /** push_tag_stack */
  function Pushed(s: Stack, raw: string, baked: string, join: char): (r: Stack)
    ensures Names(r) == Names(s) + [baked]
    ensures |r| == |s| + 1 && r[..|s|] == s
  {
    s + [Tag(raw, baked, Join(Names(s) + [baked], join), |s|)]
  }

  /** Every entry is numbered by its depth and carries the joined names up to itself. */
  predicate Consistent(s: Stack, join: char) {
    forall i :: 0 <= i < |s| ==> s[i].n == i && s[i].context == Join(Names(s)[..i + 1], join)
  }

  lemma PushedConsistent(s: Stack, raw: string, baked: string, join: char)
    requires Consistent(s, join)
    ensures Consistent(Pushed(s, raw, baked, join), join)
  {
    var r := Pushed(s, raw, baked, join);
    forall i | 0 <= i < |r| ensures r[i].n == i && r[i].context == Join(Names(r)[..i + 1], join) {
      if i < |s| {
        assert Names(r)[..i + 1] == Names(s)[..i + 1];
      } else {
        assert Names(r)[..i + 1] == Names(s) + [baked];
      }
    }
  }

  lemma PoppedConsistent(s: Stack, join: char)
    requires Consistent(s, join) && s != []
    ensures Consistent(s[..|s| - 1], join)
  {
    var r := s[..|s| - 1];
    forall i | 0 <= i < |r| ensures r[i].n == i && r[i].context == Join(Names(r)[..i + 1], join) {
      assert Names(r)[..i + 1] == Names(s)[..i + 1];
    }
  }

  /** The context of an entry is the context below it, the join character, and its own name. */
  lemma ContextExtends(s: Stack, join: char, i: nat)
    requires Consistent(s, join) && 0 < i < |s|
    ensures s[i].context == s[i - 1].context + [join] + s[i].baked
  {
    assert Names(s)[..i + 1][..i] == Names(s)[..i];
  }

  lemma {:induction false} JoinPrepend(first: string, rest: seq<string>, join: char)
    requires |rest| >= 1
    ensures Join([first] + rest, join) == first + [join] + Join(rest, join)
  {
    var names := [first] + rest;
    var k := |rest| - 1;
    if k == 0 {
      assert names[..1] == [first];
    } else {
      JoinPrepend(first, rest[..k], join);
      assert names[..|names| - 1] == [first] + rest[..k];
      calc {
        Join(names, join);
        first + [join] + Join(rest[..k], join) + [join] + rest[k];
        first + [join] + (Join(rest[..k], join) + [join] + rest[k]);
        first + [join] + Join(rest, join);
      }
    }
  }

  class TagStack {
    var entries: Stack
    var count: nat
    const join: char

    ghost predicate Valid()
      reads this
    {
      count == |entries| && Consistent(entries, join)
    }

    constructor (join: char)
      ensures Valid() && entries == [] && this.join == join
    {
      this.join := join;
      entries, count := [], 0;
    }

    /** flatten_tag_stack: start from `baked`, or from the head when it is absent, and put
        each entry further down in front. */
    method Flatten(baked: seq<string>) returns (flat: string)
      requires |baked| <= 1 && |baked| + |entries| >= 1
      ensures flat == Join(Names(entries) + baked, join)
    {
      var temp := |entries|;
      if |baked| == 1 {
        flat := baked[0];
      } else {
        flat := entries[temp - 1].baked;
        temp := temp - 1;
      }
      ghost var all := Names(entries) + baked;
      assert all[temp..] == [flat];
      while temp > 0
        invariant 0 <= temp < |all| && temp <= |entries|
        invariant flat == Join(all[temp..], join)
      {
        temp := temp - 1;
        JoinPrepend(entries[temp].baked, all[temp + 1..], join);
        assert all[temp..] == [entries[temp].baked] + all[temp + 1..];
        flat := entries[temp].baked + [join] + flat;
      }
      assert all[0..] == all;
    }

    method Push(raw: string, baked: string)
      requires Valid()
      modifies this
      ensures Valid() && entries == Pushed(old(entries), raw, baked, join)
    {
      PushedConsistent(entries, raw, baked, join);
      var n := count;
      count := count + 1;
      entries := entries + [Tag(raw, baked, "", n)];
      var context := Flatten([]);
      assert Names(entries) + [] == Names(old(entries)) + [baked];
      entries := entries[..n] + [Tag(raw, baked, context, n)];
    }

    /** pop_tag_stack: None only when the stack is empty already. */
    method Pop() returns (st: seq<Tag>)
      requires Valid()
      modifies this
      ensures Valid()
      ensures if old(entries) == [] then st == [] && entries == []
              else st == [old(entries)[|old(entries)| - 1]] && entries == old(entries)[..|old(entries)| - 1]
    {
      if |entries| == 0 {
        return [];
      }
      var top := |entries| - 1;
      st := [entries[top]];
      PoppedConsistent(entries, join);
      entries := entries[..top];
      count := count - 1;
    }

    /** pop_tag_stack_on_match: pop the head when its raw name is the closing tag's. */
    method PopOnMatch(raw: string) returns (st: seq<Tag>)
      requires Valid() && entries != []
      modifies this
      ensures Valid()
      ensures if old(entries)[|old(entries)| - 1].raw == raw
              then st == [old(entries)[|old(entries)| - 1]] && entries == old(entries)[..|old(entries)| - 1]
              else st == [] && entries == old(entries)
    {
      if entries[|entries| - 1].raw == raw {
        st := Pop();
      } else {
        st := [];
      }
    }
  }
}
