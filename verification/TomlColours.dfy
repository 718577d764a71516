/** What highlighted TOML looks like, told from the source and the HTML alone. */
module TomlColours {
  import opened Wrappers
  import opened Utf8
  import opened Html
  import opened Scanners
  import opened Colours
  import opened Toml

  // ----- pass one, line by line -----

  /** A line, its newline included. */
  ghost predicate IsLine(s: string, a: nat, b: nat) {
    && a < b <= |s|
    && (a > 0 ==> s[a - 1] == '\n')
    && (forall q | a <= q < b - 1 :: s[q] != '\n')
    && (b < |s| ==> s[b - 1] == '\n')
  }

  /** Behind its leading white space a line is a header up to the first closing bracket, or text with
    * comments and strings. */
  ghost predicate LineTrue(line: string, look: seq<Shown>) {
    var n := Lead(line);
    && |look| == |line| && (forall q | 0 <= q < n :: Bare(look[q])) && SpaceLen(line[n..]) == 0
    && if n < |line| && line[n] == '[' && ']' in line[n..] then
         exists c :: HeaderEndsAt(line, look, n, c)
       else
         TrueColours(look[n..], [], "#", "\"'", false)
  }

  ghost predicate HeaderEndsAt(line: string, look: seq<Shown>, n: nat, c: nat) {
    && n <= c < |line| == |look| && line[c] == ']'
    && (forall q | n <= q < c :: line[q] != ']')
    && (forall q | n <= q <= c :: In(look[q], Kw))
    && (forall q | c < q < |line| :: Bare(look[q]))
  }

  ghost predicate LinesTrue(src: string, was: seq<Shown>) {
    |was| == |src| && forall a: nat, b: nat | IsLine(src, a, b) :: LineTrueAt(src, was, a, b)
  }

  ghost predicate LineTrueAt(src: string, was: seq<Shown>, a: nat, b: nat) {
    a <= b <= |src| == |was| && LineTrue(src[a..b], was[a..b])
  }

  lemma {:induction false} HeaderLook(trim: string)
    requires IsHeader(trim)
    ensures HeaderEndsAt(trim, Looks(BodyTokens(trim)), 0, Bracket(trim))
  {
    var ts, c := BodyTokens(trim), Bracket(trim);
    assert ts == [ts[0]] + [ts[1]];
    GatherCons(ts[0], [ts[1]], Look);
    GatherCons(ts[1], [], Look);
  }

  lemma {:induction false} BracketIn(trim: string)
    ensures ']' in trim <==> Bracket(trim) < |trim|
  {
  }

  lemma {:induction false} LineLook(line: string)
    requires Valid(line)
    ensures LineTrue(line, Looks(LineTokens(line)))
  {
    var n := Lead(line);
    var trim := line[n..];
    var lead, body := Tint(line[..n], []), Looks(BodyTokens(trim));
    LeadIsAll(line);
    GatherCons(Token(Plain, line[..n]), BodyTokens(trim), Look);
    assert Looks(LineTokens(line)) == lead + body;
    assert (lead + body)[n..] == body;
    TomlLineValid(line);
    BracketIn(trim);
    if IsHeader(trim) {
      HeaderLook(trim);
      HeaderBehind(line, lead, body, Bracket(trim));
    } else {
      assert trim != "" ==> trim[0] == line[n];
      ColoursTrue(Shell([], '#'), trim, "#", "\"'", false);
      PaintedLetters(Shell([], '#'), trim);
    }
  }

  lemma {:induction false} HeaderBehind(line: string, lead: seq<Shown>, body: seq<Shown>, c: nat)
    requires |lead| <= |line| && HeaderEndsAt(line[|lead|..], body, 0, c)
    ensures HeaderEndsAt(line, lead + body, |lead|, |lead| + c)
  {
    var n, all := |lead|, lead + body;
    assert forall q | n <= q < |line| :: line[q] == line[n..][q - n] && all[q] == body[q - n];
  }

  lemma {:induction false} LineStopIs(s: string, a: nat, b: nat)
    requires IsLine(s, a, b)
    ensures a < b <= |s| && LineStop(s, a) == b && IsLineStart(s, 0, a)
  {
    LineStarts(s, 0, a);
  }

  lemma {:induction false} ShownTrue(src: string, was: seq<Shown>, a: nat, b: nat, z: seq<Shown>)
    requires a < b <= |src| == |was| && |z| == b - a && ShownAt(was, a, z) && LineTrue(src[a..b], z)
    ensures LineTrueAt(src, was, a, b)
  {
    hide LineTrue;
  }

  /** The look of `line` stands at `a`, in what is shown of the text from `i` on. */
  ghost predicate ShownAt(all: seq<Shown>, n: int, z: seq<Shown>) {
    0 <= n && n + |z| <= |all| && all[n..n + |z|] == z
  }

  lemma {:induction false} ShownBehind(x: seq<Shown>, y: seq<Shown>, n: int, z: seq<Shown>)
    requires ShownAt(y, n, z)
    ensures ShownAt(x + y, |x| + n, z)
  {
    assert (x + y)[|x| + n..|x| + n + |z|] == y[n..n + |z|];
  }

  /** A line starts at `a`, the first one being at `i`. */
  predicate IsLineStart(s: string, i: nat, a: nat)
    requires i <= |s|
    decreases |s| - i
  {
    i == a || (i < |s| && IsLineStart(s, LineStop(s, i), a))
  }

  lemma {:induction false} LineStarts(s: string, i: nat, a: nat)
    requires i <= a < |s| && (a > 0 ==> s[a - 1] == '\n')
    ensures IsLineStart(s, i, a)
    decreases |s| - i
  {
    if i < a {
      assert LineStop(s, i) <= a;
      LineStarts(s, LineStop(s, i), a);
    }
  }

  lemma {:induction false} FirstLine(s: string, a: nat)
    requires a < |s|
    ensures ShownAt(Looks(TomlTokens(s, a)), 0, Looks(LineTokens(s[a..LineStop(s, a)])))
  {
    hide *;
    LooksStep(s, a);
    ShownFirst(Looks(LineTokens(s[a..LineStop(s, a)])), Looks(TomlTokens(s, LineStop(s, a))));
  }

  lemma {:induction false} LaterLine(s: string, i: nat, n: int, z: seq<Shown>)
    requires i < |s| && ShownAt(Looks(TomlTokens(s, LineStop(s, i))), n, z)
    ensures ShownAt(Looks(TomlTokens(s, i)), LineStop(s, i) - i + n, z)
  {
    hide *;
    LooksStep(s, i);
    LineLength(s[i..LineStop(s, i)]);
    ShownBehind(Looks(LineTokens(s[i..LineStop(s, i)])), Looks(TomlTokens(s, LineStop(s, i))), n, z);
  }

  /** The look of a line does not depend on the lines around it. */
  lemma {:induction false} LineAlone(s: string, i: nat, a: nat)
    requires i <= |s| && a < |s| && IsLineStart(s, i, a)
    ensures ShownAt(Looks(TomlTokens(s, i)), a - i, Looks(LineTokens(s[a..LineStop(s, a)])))
    decreases |s| - i
  {
    hide ShownAt, Looks, LineTokens, LineStop, TomlTokens;
    if i == a {
      FirstLine(s, a);
    } else {
      LineAlone(s, LineStop(s, i), a);
      LaterLine(s, i, a - LineStop(s, i), Looks(LineTokens(s[a..LineStop(s, a)])));
    }
  }

  lemma {:induction false} ShownFirst(x: seq<Shown>, y: seq<Shown>)
    ensures ShownAt(x + y, 0, x)
  {
    assert (x + y)[0..0 + |x|] == x;
  }

  lemma {:induction false} LooksStep(s: string, i: nat)
    requires i < |s|
    ensures Looks(TomlTokens(s, i))
         == Looks(LineTokens(s[i..LineStop(s, i)])) + Looks(TomlTokens(s, LineStop(s, i)))
  {
    GatherConcat(LineTokens(s[i..LineStop(s, i)]), TomlTokens(s, LineStop(s, i)), Look);
  }

  lemma {:induction false} AllLength(s: string, i: nat)
    requires i <= |s|
    ensures |Looks(TomlTokens(s, i))| == |s| - i
  {
    TomlCover(s, i);
    LettersOfLooks(TomlTokens(s, i));
  }

  lemma {:induction false} LineLength(line: string)
    ensures |Looks(LineTokens(line))| == |line|
  {
    LineCover(line);
    LettersOfLooks(LineTokens(line));
  }

  lemma {:induction false} LineValid(s: string, a: nat, b: nat)
    requires Valid(s) && IsLine(s, a, b)
    ensures Valid(s[a..b])
  {
    if a > 0 { AfterAscii(s, a - 1); }
    if b < |s| { AfterAscii(s, b - 1); }
    ValidSlice(s, a, b);
  }

  lemma {:induction false} OneLineTrue(src: string, a: nat, b: nat)
    requires Valid(src) && IsLine(src, a, b)
    ensures LineTrueAt(src, Looks(TomlTokens(src, 0)), a, b)
  {
    hide *;
    LineStopIs(src, a, b);
    LineValid(src, a, b);
    AllLength(src, 0);
    LineAlone(src, 0, a);
    LineLength(src[a..b]);
    LineLook(src[a..b]);
    ShownTrue(src, Looks(TomlTokens(src, 0)), a, b, Looks(LineTokens(src[a..b])));
  }

  /** Pass one colours every line as its own text says. */
  lemma {:induction false} PassOneTrue(src: string)
    requires Valid(src)
    ensures LinesTrue(src, Looks(TomlTokens(src, 0)))
  {
    hide TomlTokens, LineTrueAt, Valid, IsLine, Looks;
    AllLength(src, 0);
    forall a: nat, b: nat | IsLine(src, a, b) { OneLineTrue(src, a, b); }
  }

  // ----- pass two: no value is missed -----

  /** Reading on from an equals sign that is no value itself, the character behind the spaces is none that a
    * number could start with, and is the sign's value even if it is another equals sign. */
  predicate Marked(h: string)
    decreases |h|
  {
    if h == "" then true
    else if h[0] != '=' then Marked(h[1..])
    else
      var j := Spaces(h, 1);
      j < |h| ==> !('0' <= h[j] <= '9') && h[j] != '-' && Marked(h[j + 1..])
  }

  lemma {:induction false} MarkedRun(p: string, h: string)
    requires '=' !in p
    ensures Marked(p + h) <==> Marked(h)
    decreases |p|
  {
    if p == "" {
      assert p + h == h;
    } else {
      assert p[0] in p && forall c | c in p[1..] :: c in p;
      assert (p + h)[0] == p[0] && (p + h)[1..] == p[1..] + h;
      MarkedRun(p[1..], h);
    }
  }

  /** An equals sign, spaces and its value. */
  lemma {:induction false} MarkedTurn(p: string, c: char, h: string)
    requires p != "" && p[0] == '=' && (forall k | 0 < k < |p| :: p[k] == ' ') && c != ' '
    ensures Marked(p + [c] + h) <==> !('0' <= c <= '9') && c != '-' && Marked(h)
  {
    var all := p + [c] + h;
    assert all[|p|] == c && all[|p| + 1..] == h;
    SpacesTo(all, 1, |p|);
  }

  lemma {:induction false} SpacesTo(s: string, i: nat, j: nat)
    requires i <= j <= |s| && (forall k | i <= k < j :: s[k] == ' ') && (j < |s| ==> s[j] != ' ')
    ensures Spaces(s, i) == j
    decreases j - i
  {
    if i < j { SpacesTo(s, i + 1, j); }
  }

  lemma {:induction false} OpenMarked(h: string)
    requires Marked(h)
    ensures Open(Nm) == "<" + Open(Nm)[1..] && Marked(Open(Nm)[1..] + h)
  {
    var o := Open(Nm);
    TagShape(Nm);
    var a, b := o[1..11], o[13..];
    assert o[11..13] == ['=', '"'];
    assert o[1..] + h == a + ("=" + ['"'] + (b + h));
    assert o[0] == '<' && o == "<" + o[1..];
    assert forall c | c in a :: c != '=';
    assert forall c | c in b :: c != '=';
    MarkedRun(b, h);
    MarkedTurn("=", '"', b + h);
    MarkedRun(a, "=" + ['"'] + (b + h));
  }

  lemma {:induction false} Regroup(p: string, a: string, b: string, num: string, c: string, h: string)
    ensures p + (a + b) + num + c + h == p + a + (b + (num + (c + h)))
  {
  }

  lemma {:induction false} NumberMarked(p: string, num: string, h: string)
    requires p != "" && p[0] == '=' && (forall k | 0 < k < |p| :: p[k] == ' ')
    requires '=' !in num && Marked(h)
    ensures Marked(p + Open(Nm) + num + CLOSE + h)
  {
    var more := num + (CLOSE + h);
    MarkedRun(CLOSE, h);
    MarkedRun(num, CLOSE + h);
    OpenMarked(more);
    MarkedTurn(p, '<', Open(Nm)[1..] + more);
    Regroup(p, "<", Open(Nm)[1..], num, CLOSE, h);
  }

  lemma {:induction false} NumberTurnMarked(s: string, i: nat)
    requires i < |s| && s[i] == '=' && Spaces(s, i + 1) < |s| && StartsNumber(s, Spaces(s, i + 1))
    requires var rest := Numbered(s, SignedEnd(s, Spaces(s, i + 1))); rest.Some? && Marked(rest.value)
    ensures Numbered(s, i).Some? && Marked(Numbered(s, i).value)
  {
    hide Marked, Numbered, Spaces, SignedEnd, Open;
    var j := Spaces(s, i + 1);
    var k := SignedEnd(s, j);
    NumberStep(s, i);
    assert forall c | c in s[j..k] :: c != '=';
    NumberMarked(s[i..j], s[j..k], Numbered(s, k).value);
  }

  lemma {:induction false} CopyTurnMarked(s: string, i: nat)
    requires i < |s| && s[i] == '=' && Spaces(s, i + 1) < |s| && !StartsNumber(s, Spaces(s, i + 1))
    requires var rest := Numbered(s, Spaces(s, i + 1) + 1); rest.Some? && Marked(rest.value)
    ensures Numbered(s, i).Some? && Marked(Numbered(s, i).value)
  {
    hide Marked, Spaces;
    var j := Spaces(s, i + 1);
    MarkedTurn(s[i..j], s[j], Numbered(s, j + 1).value);
    assert s[i..j + 1] == s[i..j] + [s[j]];
  }

  /** Pass two leaves no number behind an equals sign unmarked. */
  lemma {:induction false} PassTwoMarks(s: string, i: nat)
    requires i <= |s| && Numbered(s, i).Some?
    ensures Marked(Numbered(s, i).value)
    decreases |s| - i
  {
    if i == |s| {
    } else if s[i] != '=' {
      PassTwoMarks(s, i + 1);
      MarkedRun([s[i]], Numbered(s, i + 1).value);
    } else {
      var j := Spaces(s, i + 1);
      if StartsNumber(s, j) {
        PassTwoMarks(s, SignedEnd(s, j));
        NumberTurnMarked(s, i);
      } else {
        PassTwoMarks(s, j + 1);
        CopyTurnMarked(s, i);
      }
    }
  }

  /** An assignment in a text: an equals sign with no equals sign in front of it, spaces left aside, and the
    * first character behind it that is no space. */
  ghost predicate IsAssignment(h: string, e: nat, j: nat) {
    && e < j < |h| && h[e] == '=' && h[j] != ' '
    && (forall q | e < q < j :: h[q] == ' ')
    && (forall p | 0 <= p < e && h[p] == '=' :: exists q :: p < q < e && h[q] != ' ')
  }

  lemma {:induction false} ValueBefore(h: string, e: nat, j: nat) returns (v: nat)
    requires Marked(h) && IsAssignment(h, e, j) && e > 0 && h[0] == '='
    ensures v < e < |h| && Marked(h[v + 1..])
  {
    v := Spaces(h, 1);
    var q :| 0 < q < e && h[q] != ' ';
    assert v <= q;
  }

  lemma {:induction false} FirstAssignment(h: string, j: nat)
    requires Marked(h) && IsAssignment(h, 0, j)
    ensures !('0' <= h[j] <= '9') && h[j] != '-'
  {
    SpacesTo(h, 1, j);
  }

  lemma {:induction false} MarkedAssignment(h: string, e: nat, j: nat)
    requires Marked(h) && IsAssignment(h, e, j)
    ensures j < |h| && !('0' <= h[j] <= '9') && h[j] != '-'
    decreases |h|
  {
    hide IsAssignment, Marked, Spaces;
    AssignmentBounds(h, e, j);
    if e == 0 {
      FirstAssignment(h, j);
    } else if h[0] != '=' {
      MarkedTail(h);
      AssignmentBehind(h, 1, e, j);
      MarkedAssignment(h[1..], e - 1, j - 1);
    } else {
      var v := ValueBefore(h, e, j);
      AssignmentBehind(h, v + 1, e, j);
      MarkedAssignment(h[v + 1..], e - v - 1, j - v - 1);
    }
  }

  lemma {:induction false} MarkedTail(h: string)
    requires Marked(h) && h != "" && h[0] != '='
    ensures Marked(h[1..])
  {
  }

  lemma {:induction false} AssignmentBounds(h: string, e: nat, j: nat)
    requires IsAssignment(h, e, j)
    ensures e < j < |h|
  {
  }

  lemma {:induction false} AssignmentBehind(h: string, n: nat, e: nat, j: nat)
    requires n <= e && IsAssignment(h, e, j)
    ensures IsAssignment(h[n..], e - n, j - n)
  {
    var t := h[n..];
    forall p | 0 <= p < e - n && t[p] == '='
      ensures exists q :: p < q < e - n && t[q] != ' '
    {
      assert h[n + p] == '=';
      var q :| n + p < q < e && h[q] != ' ';
      assert t[q - n] == h[q];
    }
  }

  // ----- the whole -----

  /** The HTML shows the source; its lines are coloured as they say, with number spans added on values; and
    * no assignment has a bare number. */
  ghost predicate TrueToml(html: string, src: string) {
    && Displays(html, 2, src)
    && (exists was :: LinesTrue(src, was) && AddsNumbers(Read(html, [], 2).value, was))
    && forall e: nat, j: nat | IsAssignment(html, e, j) :: !('0' <= html[j] <= '9') && html[j] != '-'
  }

  lemma {:induction false} TomlTrue(src: string, html: string)
    requires Valid(src) && Numbered(Render(TomlTokens(src, 0)), 0) == Some(html)
    ensures TrueToml(html, src)
  {
    hide TomlTokens, Numbered, Read, LinesTrue, AddsNumbers, Marked, Valid;
    TomlReads(src);
    PassOneTrue(src);
    PassTwoMarks(Render(TomlTokens(src, 0)), 0);
    forall e: nat, j: nat | IsAssignment(html, e, j)
      ensures !('0' <= html[j] <= '9') && html[j] != '-'
    {
      MarkedAssignment(html, e, j);
    }
  }
}
