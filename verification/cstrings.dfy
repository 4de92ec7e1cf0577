/** The C string helpers of libovf2.c (`ovfIsSpace`, `strToLower`, `hasPrefix`, `strEq`) and the
    C library predicates they rest on (`isspace`, `tolower`, `strstr`, `strcmp`), over `string`.
    A C string is the sequence of its characters before the terminating NUL; reading past the
    end of a sequence yields that terminator. */
module CStrings {
  import opened Wrappers

  /** `ovfIsSpace`: the blanks stripped around header keys and values. */
  predicate IsBlank(c: char)
  {
    c == ' ' || c == '\t'
  }

  /** `isspace` in the "C" locale: blank, tab, line feed, vertical tab, form feed, carriage return. */
  predicate IsSpace(c: char)
  {
    c == ' ' || '\t' <= c <= '\r'
  }

  /** The length of the longest prefix of `s` whose characters all satisfy `p`. */
  function LeadingRun(s: string, p: char -> bool): (n: nat)
    ensures n <= |s|
    ensures forall i :: 0 <= i < n ==> p(s[i])
    ensures n < |s| ==> !p(s[n])
    decreases |s|
  {
    if |s| == 0 || !p(s[0]) then 0 else 1 + LeadingRun(s[1..], p)
  }

  /** A run of `p` characters in front of `t` adds its own length to the run of `t`. */
  lemma {:induction false} LeadingRunAppend(s: string, t: string, p: char -> bool)
    requires forall i :: 0 <= i < |s| ==> p(s[i])
    ensures LeadingRun(s + t, p) == |s| + LeadingRun(t, p)
    decreases |s|
  {
    if |s| > 0 {
      assert (s + t)[1..] == s[1..] + t;
      LeadingRunAppend(s[1..], t, p);
    } else {
      assert s + t == t;
    }
  }

  predicate IsUpper(c: char)
  {
    'A' <= c <= 'Z'
  }

  /** `tolower` in the "C" locale. */
  function LowerChar(c: char): (r: char)
    ensures !IsUpper(r)
    ensures IsUpper(c) ==> r as int == c as int + 32
    ensures !IsUpper(c) ==> r == c
  {
    if IsUpper(c) then (c as int + 32) as char else c
  }

  predicate NoUpper(s: string)
  {
    forall i :: 0 <= i < |s| ==> !IsUpper(s[i])
  }

  /** `strToLower`: every character through `tolower`, in place. */
  function ToLower(s: string): (r: string)
    ensures |r| == |s|
    ensures NoUpper(r)
    ensures forall i :: 0 <= i < |s| && !IsUpper(s[i]) ==> r[i] == s[i]
    ensures forall i :: 0 <= i < |s| && IsUpper(s[i]) ==> r[i] as int == s[i] as int + 32
  {
    seq(|s|, i requires 0 <= i < |s| => LowerChar(s[i]))
  }

  /** Lower-casing leaves a string alone exactly when it has no capital letter. */
  lemma {:induction false} ToLowerFixpoint(s: string)
    ensures ToLower(s) == s <==> NoUpper(s)
  {
    if NoUpper(s) {
      assert forall i :: 0 <= i < |s| ==> ToLower(s)[i] == s[i];
    }
  }

  lemma {:induction false} ToLowerAppend(a: string, b: string)
    ensures ToLower(a + b) == ToLower(a) + ToLower(b)
  {
    assert forall i :: 0 <= i < |a + b| ==> ToLower(a + b)[i] == (ToLower(a) + ToLower(b))[i];
  }

  predicate OccursAt(s: string, p: string, i: nat)
  {
    i + |p| <= |s| && s[i .. i + |p|] == p
  }

  /** The first position at or after `from` where `p` occurs in `s`. */
  function FindFrom(s: string, p: string, from: nat): (r: Option<nat>)
    requires from <= |s|
    ensures r.Some? ==> from <= r.value && OccursAt(s, p, r.value)
    ensures r.Some? ==> forall j :: from <= j < r.value ==> !OccursAt(s, p, j)
    ensures r.None? ==> forall j :: from <= j <= |s| ==> !OccursAt(s, p, j)
    decreases |s| - from
  {
    if OccursAt(s, p, from) then Some(from)
    else if from == |s| then None
    else FindFrom(s, p, from + 1)
  }

  /** `strstr`: the first occurrence of `p` in `s`, or NULL. */
  function StrStr(s: string, p: string): (r: Option<nat>)
    ensures r.Some? ==> OccursAt(s, p, r.value) && forall j :: 0 <= j < r.value ==> !OccursAt(s, p, j)
    ensures r.None? ==> forall j :: 0 <= j <= |s| ==> !OccursAt(s, p, j)
  {
    FindFrom(s, p, 0)
  }

  /** `hasPrefix`: `s` starts with `prefix`. */
  predicate HasPrefix(s: string, prefix: string)
  {
    prefix <= s
  }

  /** The source decides `hasPrefix` by asking whether the first occurrence `strstr` finds is at
      the very start of `s`; that is the same test. */
  lemma {:induction false} HasPrefixByStrStr(s: string, prefix: string)
    ensures HasPrefix(s, prefix) <==> StrStr(s, prefix) == Some(0)
  {
    if HasPrefix(s, prefix) {
      assert OccursAt(s, prefix, 0);
    }
  }

  /** The character at `i`, or the terminating NUL once `i` is past the end. */
  function CharAt(s: string, i: nat): char
  {
    if i < |s| then s[i] else '\0'
  }

  function Longer(a: string, b: string): nat
  {
    if |a| < |b| then |b| else |a|
  }

  /** `strcmp` from position `i`: the difference of the first differing characters, or 0 once both
      strings reach their terminator together. */
  function CompareFrom(a: string, b: string, i: nat): int
    decreases Longer(a, b) - i
  {
    var ca, cb := CharAt(a, i), CharAt(b, i);
    if ca != cb then ca as int - cb as int
    else if ca == '\0' then 0
    else CompareFrom(a, b, i + 1)
  }

  ghost predicate NulFree(s: string)
  {
    forall i :: 0 <= i < |s| ==> s[i] != '\0'
  }

  lemma {:induction false} CompareFromZero(a: string, b: string, i: nat)
    requires NulFree(a) && NulFree(b)
    requires i <= |a| && i <= |b| && a[..i] == b[..i]
    ensures CompareFrom(a, b, i) == 0 <==> a == b
    decreases Longer(a, b) - i
  {
    var ca, cb := CharAt(a, i), CharAt(b, i);
    if ca != cb {
      if a == b {
        assert false;
      }
    } else if ca == '\0' {
      assert i == |a| && i == |b|;
      assert a == a[..i] && b == b[..i];
    } else {
      assert a[..i + 1] == a[..i] + [ca] && b[..i + 1] == b[..i] + [cb];
      CompareFromZero(a, b, i + 1);
    }
  }

  lemma {:induction false} CompareEquality(a: string, b: string)
    ensures NulFree(a) && NulFree(b) ==> (CompareFrom(a, b, 0) == 0 <==> a == b)
  {
    if NulFree(a) && NulFree(b) {
      CompareFromZero(a, b, 0);
    }
  }

  /** `strEq`: `strcmp` reports no difference; for C strings that is plain equality. */
  function StrEq(a: string, b: string): (r: bool)
    ensures NulFree(a) && NulFree(b) ==> (r <==> a == b)
  {
    CompareEquality(a, b);
    CompareFrom(a, b, 0) == 0
  }
}
