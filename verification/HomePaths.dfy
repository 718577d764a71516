/** The scanner for real home directories, whose substring search skips overlapping matches. */
module HomePaths {
  import opened Chars

  /** A path prefix, and the separator that ends the segment behind it. */
  datatype Pattern = Pattern(text: string, sep: char)

  const PATTERNS := [Pattern("/home/", '/'), Pattern("/Users/", '/'), Pattern("C:\\Users\\", '\\')]

  const ALLOWLIST := ["USER", "<user>", "<username>"]

  /** The matches of `pat` from `i` on, left to right, each search starting behind the last match. */
  function MatchIndices(line: string, pat: string, i: nat): (ms: seq<nat>)
    requires pat != ""
    ensures forall m | m in ms :: At(line, pat, m)
    decreases |line| - i
  {
    var k := FindFrom(line, pat, i);
    FindFromLeftmost(line, pat, i);
    if k.None? then [] else [k.value] + MatchIndices(line, pat, k.value + |pat|)
  }

  predicate EndsSegment(c: char, sep: char) {
    c == sep || c == ' ' || c == '"' || c == '\''
  }

  function SegmentEnd(line: string, i: nat, sep: char): (j: nat)
    requires i <= |line|
    ensures i <= j <= |line|
    ensures forall k | i <= k < j :: !EndsSegment(line[k], sep)
    ensures j < |line| ==> EndsSegment(line[j], sep)
    decreases |line| - i
  {
    if i == |line| || EndsSegment(line[i], sep) then i else SegmentEnd(line, i + 1, sep)
  }

  /** The path segment behind the match at `i`. */
  function Segment(line: string, p: Pattern, i: nat): string
    requires At(line, p.text, i)
  {
    line[i + |p.text|..SegmentEnd(line, i + |p.text|, p.sep)]
  }

  predicate IsReal(segment: string) {
    segment != "" && segment !in ALLOWLIST
  }

  predicate IsPii(line: string) {
    exists p | p in PATTERNS :: p.text != "" && exists m | m in MatchIndices(line, p.text, 0) ::
      IsReal(Segment(line, p, m))
  }

  // ----- what skipping overlapping matches can lose -----

  /** An occurrence that is not a match is overlapped by the match before it. */
  lemma {:induction false} Overlapped(line: string, pat: string, i: nat, q: nat) returns (m: nat)
    requires pat != "" && i <= q && At(line, pat, q)
    ensures m in MatchIndices(line, pat, i) && At(line, pat, m) && m <= q < m + |pat|
    decreases |line| - i
  {
    FindFromLeftmost(line, pat, i);
    var k := FindFrom(line, pat, i).value;
    if q < k + |pat| {
      m := k;
    } else {
      m := Overlapped(line, pat, k + |pat|, q);
    }
  }

  /** A pattern of the form `/word/` whose word is itself a real segment. */
  ghost predicate IsWordPattern(p: Pattern) {
    && |p.text| >= 3 && p.text[0] == p.sep && p.text[|p.text| - 1] == p.sep
    && (forall k | 0 < k < |p.text| - 1 :: !EndsSegment(p.text[k], p.sep))
    && IsReal(p.text[1..|p.text| - 1])
  }

  /** If a match hides an occurrence, they share the separator between them, so the segment behind the
    * match is the pattern's own word, which is real. */
  lemma HidingMatchIsHit(line: string, p: Pattern, m: nat, q: nat)
    requires IsWordPattern(p) && At(line, p.text, m) && At(line, p.text, q) && m < q < m + |p.text|
    ensures Segment(line, p, m) == p.text[1..|p.text| - 1]
  {
    var n := |p.text|;
    AtChars(line, p.text, m);
    AtChars(line, p.text, q);
    assert line[q] == p.text[0] == p.text[q - m];
    assert q == m + n - 1;
    SegmentOf(line, q + 1, q + n - 1, p.sep);
    assert line[q + 1..q + n - 1] == p.text[1..n - 1];
  }

  lemma AtChars(line: string, pat: string, i: nat)
    requires At(line, pat, i)
    ensures forall c | i <= c < i + |pat| :: line[c] == pat[c - i]
  {
    assert forall c | i <= c < i + |pat| :: line[c] == line[i..i + |pat|][c - i];
  }

  lemma {:induction false} SegmentOf(line: string, i: nat, j: nat, sep: char)
    requires i <= j < |line| && EndsSegment(line[j], sep)
    requires forall k | i <= k < j :: !EndsSegment(line[k], sep)
    ensures SegmentEnd(line, i, sep) == j
    decreases j - i
  {
    if i < j { SegmentOf(line, i + 1, j, sep); }
  }

  lemma PatternShapes()
    ensures forall p | p in PATTERNS :: p.text != "" && (IsWordPattern(p) || NoBorder(p.text))
  {
    assert "/home/"[1..5] == "home" && "/Users/"[1..6] == "Users";
    assert IsWordPattern(PATTERNS[0]);
    assert IsWordPattern(PATTERNS[1]);
    assert NoBorder(PATTERNS[2].text);
  }

  /** For each pattern the non-overlapping search finds a real segment exactly if some occurrence,
    * overlapping ones included, has one. */
  lemma {:induction false} SearchExact(line: string, p: Pattern)
    requires p in PATTERNS && p.text != ""
    ensures (exists m | m in MatchIndices(line, p.text, 0) :: IsReal(Segment(line, p, m)))
       <==> (exists q :: At(line, p.text, q) && IsReal(Segment(line, p, q)))
  {
    PatternShapes();
    if q :| At(line, p.text, q) && IsReal(Segment(line, p, q)) {
      var m := Overlapped(line, p.text, 0, q);
      if m < q {
        if IsWordPattern(p) {
          HidingMatchIsHit(line, p, m, q);
        } else {
          NoOverlap(line, p.text, m, q);
        }
      }
    }
  }

  lemma NoOverlap(line: string, pat: string, m: nat, q: nat)
    requires NoBorder(pat) && At(line, pat, m) && m < q < m + |pat|
    ensures !At(line, pat, q)
  {
    if q + |pat| <= |line| {
      assert line[m..m + |pat|][q - m] == line[q];
      assert line[q..q + |pat|][0] == line[q];
    }
  }

  /** At `q` stands `prefix`, and behind it a segment up to the separator, a space, a quote or the end of the
    * line, which is neither empty nor one of the placeholders. */
  ghost predicate RealPathAt(line: string, prefix: string, sep: char, q: nat) {
    At(line, prefix, q) && RealFrom(line, sep, q + |prefix|)
  }

  ghost predicate RealFrom(line: string, sep: char, i: nat) {
    exists e :: RealSegment(line, sep, i, e)
  }

  predicate RealSegment(line: string, sep: char, i: nat, e: nat) {
    && i < e <= |line|
    && (forall k | i <= k < e :: line[k] != sep && line[k] != ' ' && line[k] != '"' && line[k] != '\'')
    && (e < |line| ==> line[e] == sep || line[e] == ' ' || line[e] == '"' || line[e] == '\'')
    && line[i..e] != "USER" && line[i..e] != "<user>" && line[i..e] != "<username>"
  }

  lemma {:induction false} SegmentReal(line: string, p: Pattern, q: nat)
    requires At(line, p.text, q)
    ensures IsReal(Segment(line, p, q)) <==> RealPathAt(line, p.text, p.sep, q)
  {
    var i := q + |p.text|;
    var e := SegmentEnd(line, i, p.sep);
    if IsReal(Segment(line, p, q)) { assert RealSegment(line, p.sep, i, e); }
    if RealPathAt(line, p.text, p.sep, q) {
      var f :| RealSegment(line, p.sep, i, f);
      SameEnd(line, p.sep, i, f, e);
    }
  }

  lemma {:induction false} SameEnd(line: string, sep: char, i: nat, f: nat, e: nat)
    requires RealSegment(line, sep, i, f) && i <= e <= |line|
    requires (forall k | i <= k < e :: !EndsSegment(line[k], sep)) && (e < |line| ==> EndsSegment(line[e], sep))
    ensures f == e
  {
    assert f < e ==> EndsSegment(line[f], sep);
  }

  /** The scanner flags a line exactly if some occurrence of a prefix, overlapping ones included, is followed
    * by a segment that is neither empty nor a placeholder. */
  lemma {:induction false} PiiExact(line: string)
    ensures IsPii(line) <==> exists q: nat ::
              RealPathAt(line, "/home/", '/', q) || RealPathAt(line, "/Users/", '/', q)
              || RealPathAt(line, "C:\\Users\\", '\\', q)
  {
    hide RealPathAt;
    PiiOccurs(line);
    forall p, q: nat | p in PATTERNS && At(line, p.text, q) { SegmentReal(line, p, q); }
    forall p, q: nat | p in PATTERNS
      ensures RealPathAt(line, p.text, p.sep, q) ==> At(line, p.text, q)
    {
      RealPathStands(line, p, q);
    }
    assert PATTERNS[0] in PATTERNS && PATTERNS[1] in PATTERNS && PATTERNS[2] in PATTERNS;
  }

  lemma {:induction false} RealPathStands(line: string, p: Pattern, q: nat)
    ensures RealPathAt(line, p.text, p.sep, q) ==> At(line, p.text, q)
  {
  }

  lemma {:induction false} PiiOccurs(line: string)
    ensures IsPii(line) <==>
              exists p, q :: p in PATTERNS && At(line, p.text, q) && IsReal(Segment(line, p, q))
  {
    PatternShapes();
    forall p | p in PATTERNS { SearchExact(line, p); }
  }

  /** A placeholder earlier on the line cannot mask a real path later on it: flagging is monotone in the
    * text before. */
  lemma PrefixNeverMasks(before: string, line: string)
    requires IsPii(line)
    ensures IsPii(before + line)
  {
    PiiOccurs(line);
    PiiOccurs(before + line);
    var p, q :| p in PATTERNS && At(line, p.text, q) && IsReal(Segment(line, p, q));
    SegmentBehind(before, line, p, q);
  }

  lemma SegmentBehind(before: string, line: string, p: Pattern, q: nat)
    requires At(line, p.text, q)
    ensures At(before + line, p.text, |before| + q)
    ensures Segment(before + line, p, |before| + q) == Segment(line, p, q)
  {
    var all, b, i := before + line, |before|, q + |p.text|;
    assert all[b + q..b + i] == line[q..i];
    SegmentShift(before, line, i, p.sep);
    var e := SegmentEnd(line, i, p.sep);
    assert all[b + i..b + e] == line[i..e];
  }

  lemma {:induction false} SegmentShift(before: string, line: string, i: nat, sep: char)
    requires i <= |line|
    ensures SegmentEnd(before + line, |before| + i, sep) == |before| + SegmentEnd(line, i, sep)
    decreases |line| - i
  {
    if i < |line| && !EndsSegment(line[i], sep) { SegmentShift(before, line, i + 1, sep); }
  }
}
