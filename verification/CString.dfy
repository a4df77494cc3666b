/** NUL-terminated byte strings, and the whitespace helpers every other module leans on.
    A `string` stands for a C buffer, one `char` per byte.  Where the original walks a
    buffer up to its NUL, the walk is over `CStr` of the buffer. */
module CString {

  const NUL: char := '\0'

  /** isspace() in the C and UTF-8 locales: space, and the five controls \t \n \v \f \r. */
  predicate IsSpace(c: char) {
    c == ' ' || '\U{9}' <= c <= '\U{D}'
  }

  predicate NoNul(s: string) {
    NUL !in s
  }

  /** What a C string function sees of `s`: everything before the first NUL. */
  function CStr(s: string): (r: string)
    ensures r <= s && NoNul(r)
    ensures |r| < |s| ==> s[|r|] == NUL
    ensures NoNul(s) ==> r == s
  {
    if s == "" || s[0] == NUL then "" else [s[0]] + CStr(s[1..])
  }

  lemma {:induction false} CStrStops(v: string, rest: string)
    requires NoNul(v)
    ensures CStr(v + [NUL] + rest) == v
  {
    var s := v + [NUL] + rest;
    if v != "" {
      assert s[0] == v[0] && v[0] in v;
      assert forall c :: c in v[1..] ==> c in v;
      CStrStops(v[1..], rest);
      assert s[1..] == v[1..] + [NUL] + rest;
    }
  }

  predicate AllSpace(s: string) {
    forall i :: 0 <= i < |s| ==> IsSpace(s[i])
  }

  /** swish_str_all_ws_len: the loop gives up at the first byte that is not whitespace. */
  method AllWsLen(s: string, len: nat) returns (b: bool)
    requires len <= |s|
    ensures b <==> AllSpace(s[..len])
  {
    for i := 0 to len
      invariant AllSpace(s[..i])
    {
      if !IsSpace(s[i]) {
        assert s[..len][i] == s[i];
        return false;
      }
    }
    return true;
  }

  /** The rest of `s` from its first byte that is not whitespace. */
  function SkipSpace(s: string): (r: string)
    ensures |r| <= |s| && r == s[|s| - |r|..]
    ensures AllSpace(s[..|s| - |r|])
    ensures r != "" ==> !IsSpace(r[0])
  {
    if s != "" && IsSpace(s[0]) then
      var r := SkipSpace(s[1..]);
      assert s[..|s| - |r|] == [s[0]] + s[1..][..|s| - 1 - |r|];
      r
    else s
  }

  /** `s` without its trailing whitespace. */
  function TrimEnd(s: string): (r: string)
    ensures r <= s && AllSpace(s[|r|..])
    ensures r != "" ==> !IsSpace(r[|r| - 1])
  {
    if s != "" && IsSpace(s[|s| - 1]) then TrimEnd(s[..|s| - 1]) else s
  }

  predicate Trimmed(s: string) {
    s != "" ==> !IsSpace(s[0]) && !IsSpace(s[|s| - 1])
  }

  function ToLower(c: char): char {
    if 'A' <= c <= 'Z' then (c as int + 32) as char else c
  }

  function Lower(s: string): (r: string)
    ensures |r| == |s|
    ensures forall i :: 0 <= i < |s| ==> r[i] == ToLower(s[i])
  {
    seq(|s|, i requires 0 <= i < |s| => ToLower(s[i]))
  }
}
