/** Library functions on texts, here sequences of Unicode scalar values: trimming and substring search. */
module Chars {
  import opened Wrappers

  /** The characters with Unicode's White_Space property. */
  predicate IsSpace(c: char) {
    || '\t' <= c <= '\r' || c == ' ' || c == '\U{85}' || c == '\U{A0}' || c == '\U{1680}'
    || '\U{2000}' <= c <= '\U{200A}' || c == '\U{2028}' || c == '\U{2029}' || c == '\U{202F}'
    || c == '\U{205F}' || c == '\U{3000}'
  }

  predicate AllSpace(s: string) {
    forall c | c in s :: IsSpace(c)
  }

  function TrimStart(s: string): string {
    if s != "" && IsSpace(s[0]) then TrimStart(s[1..]) else s
  }

  function TrimEnd(s: string): string {
    if s != "" && IsSpace(s[|s| - 1]) then TrimEnd(s[..|s| - 1]) else s
  }

  function Trim(s: string): string {
    TrimEnd(TrimStart(s))
  }

  /** What trimming cuts off. */
  lemma {:induction false} TrimStartSplit(s: string) returns (a: string)
    ensures s == a + TrimStart(s) && AllSpace(a)
  {
    if s != "" && IsSpace(s[0]) {
      a := TrimStartSplit(s[1..]);
      a := [s[0]] + a;
    } else {
      a := "";
    }
  }

  lemma {:induction false} TrimEndSplit(s: string) returns (b: string)
    ensures s == TrimEnd(s) + b && AllSpace(b)
  {
    if s != "" && IsSpace(s[|s| - 1]) {
      b := TrimEndSplit(s[..|s| - 1]);
      b := b + [s[|s| - 1]];
    } else {
      b := "";
    }
  }

  lemma TrimSplit(s: string) returns (a: string, b: string)
    ensures s == a + Trim(s) + b && AllSpace(a) && AllSpace(b)
  {
    a := TrimStartSplit(s);
    b := TrimEndSplit(TrimStart(s));
  }

  lemma {:induction false} TrimEndSpaces(s: string, b: string)
    requires AllSpace(b)
    ensures TrimEnd(s + b) == TrimEnd(s)
  {
    if b == "" {
      assert s + b == s;
    } else {
      assert b[|b| - 1] in b;
      assert (s + b)[..|s + b| - 1] == s + b[..|b| - 1];
      TrimEndSpaces(s, b[..|b| - 1]);
    }
  }

  lemma {:induction false} TrimStartSpaces(a: string, s: string)
    requires AllSpace(a)
    ensures TrimStart(a + s) == TrimStart(s)
  {
    if a == "" {
      assert a + s == s;
    } else {
      assert a[0] in a;
      assert (a + s)[1..] == a[1..] + s;
      TrimStartSpaces(a[1..], s);
    }
  }

  /** Trimming finds a core that neither starts nor ends with white space. */
  lemma TrimCore(a: string, s: string, b: string)
    requires AllSpace(a) && AllSpace(b)
    requires s != "" && !IsSpace(s[0]) && !IsSpace(s[|s| - 1])
    ensures Trim(a + s + b) == s
  {
    assert a + s + b == a + (s + b);
    TrimStartSpaces(a, s + b);
    TrimEndSpaces(s, b);
  }

  // ----- searching -----

  predicate StartsWith(s: string, p: string) {
    |p| <= |s| && s[..|p|] == p
  }

  predicate At(s: string, pat: string, i: nat) {
    i + |pat| <= |s| && s[i..i + |pat|] == pat
  }

  ghost predicate Free(s: string, pat: string) {
    forall i :: !At(s, pat, i)
  }

  /** The leftmost occurrence at or behind `i`. */
  function FindFrom(s: string, pat: string, i: nat): (k: Option<nat>)
    ensures k.Some? ==> i <= k.value && k.value + |pat| <= |s|
    decreases |s| - i
  {
    if i + |pat| > |s| then None else if At(s, pat, i) then Some(i) else FindFrom(s, pat, i + 1)
  }

  function Find(s: string, pat: string): Option<nat> {
    FindFrom(s, pat, 0)
  }

  lemma {:induction false} FindFromLeftmost(s: string, pat: string, i: nat)
    ensures var k := FindFrom(s, pat, i);
            if k.Some? then At(s, pat, k.value) && forall j | i <= j < k.value :: !At(s, pat, j)
            else forall j | i <= j :: !At(s, pat, j)
    decreases |s| - i
  {
    if i + |pat| <= |s| && !At(s, pat, i) { FindFromLeftmost(s, pat, i + 1); }
  }

  /** Searching the text behind an offset is searching on from that offset. */
  lemma {:induction false} FindShift(s: string, pat: string, i: nat, j: nat)
    requires i <= |s|
    ensures var k := FindFrom(s[i..], pat, j);
            FindFrom(s, pat, i + j) == if k.None? then None else Some(i + k.value)
    decreases |s| - j
  {
    if i + j + |pat| <= |s| {
      assert s[i..][j..j + |pat|] == s[i + j..i + j + |pat|];
      FindShift(s, pat, i, j + 1);
    }
  }

  /** Conversely, a leftmost occurrence is the one that is found. */
  lemma FindIs(s: string, pat: string, k: nat)
    requires At(s, pat, k) && forall j | 0 <= j < k :: !At(s, pat, j)
    ensures Find(s, pat) == Some(k)
  {
    FindFromLeftmost(s, pat, 0);
  }

  lemma FindNothing(s: string, pat: string)
    ensures Find(s, pat).None? <==> Free(s, pat)
  {
    FindFromLeftmost(s, pat, 0);
  }

  /** A pattern that does not contain its first character again: it has no border, so two of its
    * occurrences never overlap. */
  predicate NoBorder(pat: string) {
    pat != "" && forall k | 0 < k < |pat| :: pat[k] != pat[0]
  }

  lemma NotBefore(text: string, pat: string, rest: string, j: nat)
    requires Free(text, pat) && j + |pat| <= |text|
    ensures !At(text + pat + rest, pat, j)
  {
    assert !At(text, pat, j);
    assert (text + pat + rest)[j..j + |pat|] == text[j..j + |pat|];
  }

  lemma NotAcross(text: string, pat: string, rest: string, j: nat)
    requires NoBorder(pat) && j < |text| < j + |pat|
    ensures !At(text + pat + rest, pat, j)
  {
    var s := text + pat + rest;
    if j + |pat| <= |s| {
      assert s[j..j + |pat|][|text| - j] == s[|text|] == pat[0];
    }
  }

  /** Putting such a pattern behind a text that is free of it creates no earlier occurrence. */
  lemma FindBehind(text: string, pat: string, rest: string)
    requires NoBorder(pat) && Free(text, pat)
    ensures Find(text + pat + rest, pat) == Some(|text|)
  {
    var s := text + pat + rest;
    assert At(s, pat, |text|);
    forall j: nat | j < |text|
      ensures !At(s, pat, j)
    {
      if j + |pat| <= |text| {
        NotBefore(text, pat, rest, j);
      } else {
        NotAcross(text, pat, rest, j);
      }
    }
    FindIs(s, pat, |text|);
  }

  /** What is in front of the leftmost occurrence is free of the pattern. */
  lemma FreePrefix(s: string, pat: string, n: nat)
    requires pat != "" && Find(s, pat) == Some(n)
    ensures At(s, pat, n) && Free(s[..n], pat)
  {
    FindFromLeftmost(s, pat, 0);
    forall j: nat
      ensures !At(s[..n], pat, j)
    {
      if j + |pat| <= n {
        assert !At(s, pat, j);
        assert s[j..j + |pat|] == s[..n][j..j + |pat|];
      }
    }
  }

  lemma Cut(a: string, b: string, c: string)
    ensures (a + b + c)[..|a|] == a && (a + b + c)[|a| + |b|..] == c
  {
  }
}
