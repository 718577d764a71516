/** TOML: a first pass line by line, and a second pass over the HTML the first one wrote. */
module Toml {
  import Chars
  import opened Wrappers
  import opened Utf8
  import opened Html
  import opened Scanners

  // ----- white space -----

  /** The number of bytes of the white-space character that `s` starts with, 0 if there is none
    * (the characters with Unicode's White_Space property). */
  function SpaceLen(s: string): (n: nat)
    ensures n <= |s|
  {
    if s == "" then 0
    else if '\t' <= s[0] <= '\r' || s[0] == ' ' then 1
    else if |s| >= 2 && s[0] == '\U{C2}' && (s[1] == '\U{85}' || s[1] == '\U{A0}') then 2
    else if |s| >= 3 && s[0] == '\U{E1}' && s[1] == '\U{9A}' && s[2] == '\U{80}' then 3
    else if |s| >= 3 && s[0] == '\U{E2}' && s[1] == '\U{80}'
            && ('\U{80}' <= s[2] <= '\U{8A}' || s[2] == '\U{A8}' || s[2] == '\U{A9}' || s[2] == '\U{AF}') then 3
    else if |s| >= 3 && s[0] == '\U{E2}' && s[1] == '\U{81}' && s[2] == '\U{9F}' then 3
    else if |s| >= 3 && s[0] == '\U{E3}' && s[1] == '\U{80}' && s[2] == '\U{80}' then 3
    else 0
  }

  lemma {:induction false} Undo64(n: nat)
    ensures n == n / 64 * 64 + n % 64 && n / 4096 == n / 64 / 64
  {
  }

  /** The table of bytes says what the table of characters says. */
  lemma {:induction false} SpaceTables(c: char, rest: string)
    ensures SpaceLen(Encode(c) + rest) == if Chars.IsSpace(c) then |Encode(c)| else 0
  {
    var n := c as int;
    Undo64(n);
    Undo64(n / 64);
    var s := Encode(c) + rest;
    assert s[0] == Encode(c)[0];
    if n >= 0x80 {
      assert s[1] == Encode(c)[1];
      if n >= 0x800 { assert s[2] == Encode(c)[2]; }
    }
  }

  /** The length of the leading white space. */
  function Lead(s: string): (n: nat)
    ensures n <= |s|
    decreases |s|
  {
    var n := SpaceLen(s);
    if n == 0 then 0 else n + Lead(s[n..])
  }

  lemma {:induction false} SpaceIsChar(s: string)
    requires Valid(s) && SpaceLen(s) > 0
    ensures SpaceLen(s) == CharLen(s[0])
    ensures forall k | 0 <= k < SpaceLen(s) :: !IsSpecial(s[k])
  {
  }

  /** No white space follows the leading white space. */
  lemma {:induction false} LeadIsAll(s: string)
    ensures SpaceLen(s[Lead(s)..]) == 0
    decreases |s|
  {
    var n := SpaceLen(s);
    if n == 0 {
      assert s[0..] == s;
    } else {
      LeadIsAll(s[n..]);
      assert s[n..][Lead(s[n..])..] == s[Lead(s)..];
    }
  }

  lemma {:induction false} LeadSafe(s: string)
    requires Valid(s)
    ensures forall c | c in s[..Lead(s)] :: !IsSpecial(c)
    decreases |s|
  {
    var n := SpaceLen(s);
    if n > 0 {
      SpaceIsChar(s);
      LeadSafe(s[n..]);
      assert s[..Lead(s)] == s[..n] + s[n..][..Lead(s[n..])];
    }
  }

  lemma {:induction false} LeadBoundary(s: string)
    requires Valid(s)
    ensures Boundary(s, Lead(s))
    decreases |s|
  {
    var n := SpaceLen(s);
    if n > 0 {
      SpaceIsChar(s);
      NextBoundary(s, 0);
      LeadBoundary(s[n..]);
      if n < Lead(s) < |s| { assert s[Lead(s)] == s[n..][Lead(s[n..])]; }
    }
  }

  // ----- pass one: lines -----

  /** Where the line that starts at `i` ends, its newline included. */
  function LineStop(s: string, i: nat): (j: nat)
    requires i < |s|
    ensures i < j <= |s|
  {
    var e := LineEnd(s, i);
    if e < |s| then e + 1 else e
  }

  function Bracket(s: string): (j: nat)
    ensures j <= |s| && (j < |s| ==> s[j] == ']')
  {
    QuoteAt(s, 0, ']')
  }

  predicate IsHeader(s: string) {
    s != "" && s[0] == '[' && Bracket(s) < |s|
  }

  function BodyTokens(trim: string): seq<Token> {
    if IsHeader(trim) then
      [Token(Kw, trim[..Bracket(trim) + 1]), Token(Plain, trim[Bracket(trim) + 1..])]
    else
      Tokens(Shell([], '#'), trim, 0)
  }

  function LineTokens(line: string): seq<Token> {
    [Token(Plain, line[..Lead(line)])] + BodyTokens(line[Lead(line)..])
  }

  function TomlTokens(s: string, i: nat): seq<Token>
    requires i <= |s|
    decreases |s| - i
  {
    if i == |s| then [] else LineTokens(s[i..LineStop(s, i)]) + TomlTokens(s, LineStop(s, i))
  }

  lemma BodyCover(trim: string)
    ensures Text(BodyTokens(trim)) == trim
  {
    if IsHeader(trim) {
      var k := Bracket(trim) + 1;
      var ts := BodyTokens(trim);
      assert ts == [ts[0]] + [ts[1]];
      GatherCons(ts[0], [ts[1]], Source);
      GatherCons(ts[1], [], Source);
      assert trim == trim[..k] + trim[k..];
    } else {
      TokensCover(Shell([], '#'), trim, 0);
    }
  }

  lemma LineCover(line: string)
    ensures Text(LineTokens(line)) == line
  {
    var n := Lead(line);
    var rest := BodyTokens(line[n..]);
    BodyCover(line[n..]);
    assert LineTokens(line)[1..] == rest;
    assert line == line[..n] + line[n..];
  }

  lemma CoverStep(line: seq<Token>, rest: seq<Token>, a: string, b: string)
    requires Text(line) == a && Text(rest) == b
    ensures Text(line + rest) == a + b
  {
    GatherConcat(line, rest, Source);
  }

  /** Pass one covers the source. */
  lemma {:induction false} TomlCover(s: string, i: nat)
    requires i <= |s|
    ensures Text(TomlTokens(s, i)) == s[i..]
    decreases |s| - i
  {
    if i < |s| {
      var j := LineStop(s, i);
      var line, rest := s[i..j], s[j..];
      assert s[i..] == line + rest;
      LineCover(line);
      TomlCover(s, j);
      CoverStep(LineTokens(line), TomlTokens(s, j), line, rest);
    }
  }

  /** What each colour of pass one promises: a header runs from its bracket to the first closing one. */
  ghost predicate TomlColour(t: Token) {
    if t.kind.Kw? then
      |t.text| >= 2 && t.text[0] == '[' && t.text[|t.text| - 1] == ']'
      && forall k | 0 <= k < |t.text| - 1 :: t.text[k] != ']'
    else Coloured(Shell([], '#'), t)
  }

  lemma LineColoured(line: string)
    ensures forall t | t in LineTokens(line) :: TomlColour(t)
  {
    var trim := line[Lead(line)..];
    TokensColoured(Shell([], '#'), trim, 0);
    if IsHeader(trim) { assert trim[..Bracket(trim) + 1][Bracket(trim)] == ']'; }
  }

  lemma {:induction false} TomlColoured(s: string, i: nat)
    requires i <= |s|
    ensures forall t | t in TomlTokens(s, i) :: TomlColour(t)
    decreases |s| - i
  {
    if i < |s| {
      LineColoured(s[i..LineStop(s, i)]);
      TomlColoured(s, LineStop(s, i));
    }
  }

  // ----- pass two: numbers behind an equals sign -----

  function Spaces(s: string, i: nat): (j: nat)
    requires i <= |s|
    ensures i <= j <= |s|
    ensures forall k | i <= k < j :: s[k] == ' '
    ensures j < |s| ==> s[j] != ' '
    decreases |s| - i
  {
    if i == |s| || s[i] != ' ' then i else Spaces(s, i + 1)
  }

  predicate StartsNumber(s: string, i: nat)
    requires i < |s|
  {
    IsDigit(s[i]) || s[i] == '-'
  }

  function SignedEnd(s: string, i: nat): (j: nat)
    requires i < |s| && StartsNumber(s, i)
    ensures i < j <= |s|
    ensures forall k | i < k < j :: IsNumberChar(s[k])
    ensures j < |s| ==> !IsNumberChar(s[j])
  {
    NumberEnd(s, i + 1)
  }

  /** What pass two makes of `s` from `i` on. None: the program reads behind the end and stops. */
  function Numbered(s: string, i: nat): Option<string>
    requires i <= |s|
    decreases |s| - i
  {
    if i == |s| then Some("")
    else if s[i] != '=' then Prepend([s[i]], Numbered(s, i + 1))
    else
      var j := Spaces(s, i + 1);
      if j == |s| then None
      else if StartsNumber(s, j) then
        var k := SignedEnd(s, j);
        Prepend(s[i..j] + Open(Nm) + s[j..k] + CLOSE, Numbered(s, k))
      else
        Prepend(s[i..j + 1], Numbered(s, j + 1))
  }

  /** Pass two leaves everything but equals signs alone. */
  lemma {:induction false} CopyRun(s: string, i: nat, j: nat)
    requires i <= j <= |s| && forall k | i <= k < j :: s[k] != '='
    ensures Numbered(s, i) == Prepend(s[i..j], Numbered(s, j))
    decreases j - i
  {
    if i == j {
      if Numbered(s, j).Some? { assert s[i..j] + Numbered(s, j).value == Numbered(s, j).value; }
    } else {
      CopyRun(s, i + 1, j);
      PrependPrepend([s[i]], s[i + 1..j], Numbered(s, j));
      assert s[i..j] == [s[i]] + s[i + 1..j];
    }
  }

  lemma TagShape(k: Kind)
    requires k != Plain
    ensures |Open(k)| == 17 && Open(k)[11] == '=' && Open(k)[12] == '"'
    ensures forall m | 0 <= m < 17 && m != 11 :: Open(k)[m] != '='
  {
  }

  /** The equals sign inside a tag has a quote behind it, so pass two copies tags whole. */
  lemma CopyTag(s: string, i: nat, tag: string)
    requires |tag| == 17 && tag[11] == '=' && tag[12] == '"'
    requires forall m | 0 <= m < 17 && m != 11 :: tag[m] != '='
    requires i + 17 <= |s| && s[i..i + 17] == tag
    ensures Numbered(s, i) == Prepend(tag, Numbered(s, i + 17))
  {
    assert forall q | i <= q < i + 17 :: s[q] == s[i..i + 17][q - i];
    var rest := Numbered(s, i + 17);
    CopyRun(s, i, i + 11);
    CopyRun(s, i + 13, i + 17);
    assert Spaces(s, i + 12) == i + 12;
    assert Numbered(s, i + 11) == Prepend(s[i + 11..i + 13], Numbered(s, i + 13));
    PrependPrepend(s[i + 11..i + 13], s[i + 13..i + 17], rest);
    PrependPrepend(s[i..i + 11], s[i + 11..i + 13] + s[i + 13..i + 17], rest);
    assert s[i..i + 11] + (s[i + 11..i + 13] + s[i + 13..i + 17]) == s[i..i + 17];
  }

  // ----- what pass two shows -----

  /** A shown character that belongs to a value: from a minus sign or a digit on, only number characters up
    * to it, and in front of that an equals sign with only spaces in between. */
  ghost predicate InValue(was: seq<Shown>, k: nat) {
    k < |was| && exists e, j | 0 <= e < j <= k :: ValueSpan(was, e, j, k)
  }

  predicate ValueSpan(was: seq<Shown>, e: nat, j: nat, k: nat)
    requires e < j <= k < |was|
  {
    && was[e].c == '='
    && (forall q | e < q < j :: was[q].c == ' ')
    && (was[j].c == '-' || IsDigit(was[j].c))
    && (forall q | j < q <= k :: IsNumberChar(was[q].c))
  }

  /** `out` is `was` with another number colour on some characters, each of them in a value; nothing else is
    * added, lost or recoloured. */
  ghost predicate AddsNumbers(out: seq<Shown>, was: seq<Shown>) {
    |out| == |was| && forall k | 0 <= k < |was| :: KeptOrNumber(out[k], was, k)
  }

  ghost predicate KeptOrNumber(x: Shown, was: seq<Shown>, k: nat)
    requires k < |was|
  {
    x == was[k] || (x == Shown(was[k].c, was[k].colours + [Nm]) && InValue(was, k))
  }

  lemma {:induction false} InValueWithin(a: seq<Shown>, was: seq<Shown>, b: seq<Shown>, k: nat)
    requires InValue(was, k)
    ensures InValue(a + was + b, |a| + k)
  {
    var all := a + was + b;
    assert forall q | 0 <= q < |was| :: all[|a| + q] == was[q];
    var e, j :| 0 <= e < j <= k && ValueSpan(was, e, j, k);
    assert forall q | |a| + e < q < |a| + j :: all[q] == was[q - |a|];
    assert forall q | |a| + j < q <= |a| + k :: all[q] == was[q - |a|];
    assert ValueSpan(all, |a| + e, |a| + j, |a| + k);
  }

  lemma {:induction false} AddsConcat(a: seq<Shown>, wasA: seq<Shown>, b: seq<Shown>, wasB: seq<Shown>)
    requires AddsNumbers(a, wasA) && AddsNumbers(b, wasB)
    ensures AddsNumbers(a + b, wasA + wasB)
  {
    hide InValue;
    forall k | 0 <= k < |wasA + wasB|
      ensures KeptOrNumber((a + b)[k], wasA + wasB, k)
    {
      if k < |wasA| {
        assert KeptOrNumber(a[k], wasA, k);
        if InValue(wasA, k) {
          InValueWithin([], wasA, wasB, k);
          assert [] + wasA + wasB == wasA + wasB;
        }
      } else {
        assert KeptOrNumber(b[k - |wasA|], wasB, k - |wasA|);
        if InValue(wasB, k - |wasA|) {
          InValueWithin(wasA, wasB, [], k - |wasA|);
          assert wasA + wasB + [] == wasA + wasB;
        }
      }
    }
  }

  lemma {:induction false} AddsNothing(was: seq<Shown>)
    ensures AddsNumbers(was, was)
  {
  }

  /** Equals sign and spaces as before, and the number in its new span. */
  lemma {:induction false} AddsNumber(p: string, num: string, outer: seq<Kind>)
    requires p != "" && p[0] == '=' && forall k | 0 < k < |p| :: p[k] == ' '
    requires num != "" && (num[0] == '-' || IsDigit(num[0])) && forall k | 0 < k < |num| :: IsNumberChar(num[k])
    ensures AddsNumbers(Tint(p, outer) + Tint(num, outer + [Nm]), Tint(p + num, outer))
  {
    var out, was := Tint(p, outer) + Tint(num, outer + [Nm]), Tint(p + num, outer);
    forall k | 0 <= k < |was|
      ensures KeptOrNumber(out[k], was, k)
    {
      if |p| <= k { assert ValueSpan(was, 0, |p|, k); }
    }
  }

  lemma {:induction false} AddsKeepsLetters(out: seq<Shown>, was: seq<Shown>)
    requires AddsNumbers(out, was)
    ensures Letters(out) == Letters(was)
  {
    hide InValue;
    assert forall k | 0 <= k < |was| :: KeptOrNumber(out[k], was, k);
  }

  /** What the reader shows of `h` is what it shows of `s` from `i` on, but for added numbers; one more level
    * of spans is allowed. */
  ghost predicate Same(h: Option<string>, s: string, i: nat, outer: seq<Kind>, limit: nat)
    requires i <= |s|
  {
    h.Some? && SameLook(Read(h.value, outer, limit + 1), Read(s[i..], outer, limit))
  }

  ghost predicate SameLook(out: Option<seq<Shown>>, was: Option<seq<Shown>>) {
    out.Some? && was.Some? && AddsNumbers(out.value, was.value)
  }

  lemma {:induction false} SameLookPrepend(a: seq<Shown>, wasA: seq<Shown>,
                                          out: Option<seq<Shown>>, was: Option<seq<Shown>>)
    requires AddsNumbers(a, wasA) && SameLook(out, was)
    ensures SameLook(Prepend(a, out), Prepend(wasA, was))
  {
    hide AddsNumbers;
    AddsConcat(a, wasA, out.value, was.value);
  }

  lemma {:induction false} ReadRun(p: string, h: string, outer: seq<Kind>, limit: nat)
    requires forall c | c in p :: !IsSpecial(c)
    ensures Read(p + h, outer, limit) == Prepend(Tint(p, outer), Read(h, outer, limit))
  {
    hide Read;
    EscSafe(p);
    ReadEsc(p, h, outer, limit);
  }

  lemma {:induction false} ReadNumber(p: string, num: string, h: string, outer: seq<Kind>, limit: nat)
    requires (forall c | c in p :: !IsSpecial(c)) && (forall c | c in num :: !IsSpecial(c))
    requires |outer| < limit
    ensures Read(p + Open(Nm) + num + CLOSE + h, outer, limit)
         == Prepend(Tint(p, outer) + Tint(num, outer + [Nm]), Read(h, outer, limit))
  {
    hide Read, Open, Tint;
    assert p + Open(Nm) + num + CLOSE + h == p + (Open(Nm) + num + CLOSE + h);
    ReadRun(p, Open(Nm) + num + CLOSE + h, outer, limit);
    EscSafe(num);
    ReadSpan(Nm, num, h, outer, limit);
    PrependPrepend(Tint(p, outer), Tint(num, outer + [Nm]), Read(h, outer, limit));
  }

  lemma {:induction false} SameOpen(s: string, i: nat, k: Kind, outer: seq<Kind>, limit: nat)
    requires k != Plain && |outer| < limit && i + 17 <= |s| && s[i..i + 17] == Open(k)
    requires Same(Numbered(s, i + 17), s, i + 17, outer + [k], limit)
    ensures Same(Numbered(s, i), s, i, outer, limit)
  {
    hide Read, Numbered, SameLook;
    TagShape(k);
    CopyTag(s, i, Open(k));
    ReadOpen(k, Numbered(s, i + 17).value, outer, limit + 1);
    ReadOpen(k, s[i + 17..], outer, limit);
    assert s[i..] == Open(k) + s[i + 17..];
  }

  lemma {:induction false} CopyPiece(s: string, i: nat, piece: string)
    requires i + |piece| <= |s| && s[i..i + |piece|] == piece && '=' !in piece
    ensures Numbered(s, i) == Prepend(piece, Numbered(s, i + |piece|))
    ensures s[i..] == piece + s[i + |piece|..]
  {
    assert forall q | i <= q < i + |piece| :: s[q] == piece[q - i] && piece[q - i] in piece;
    CopyRun(s, i, i + |piece|);
  }

  lemma {:induction false} SameClose(s: string, i: nat, outer: seq<Kind>, limit: nat)
    requires outer != [] && i + 7 <= |s| && s[i..i + 7] == CLOSE
    requires Same(Numbered(s, i + 7), s, i + 7, outer[..|outer| - 1], limit)
    ensures Same(Numbered(s, i), s, i, outer, limit)
  {
    hide Read, Numbered, SameLook;
    CopyPiece(s, i, CLOSE);
    ReadClose(Numbered(s, i + 7).value, outer, limit + 1);
    ReadClose(s[i + 7..], outer, limit);
  }

  lemma {:induction false} SameEntity(s: string, i: nat, c: char, outer: seq<Kind>, limit: nat)
    requires IsSpecial(c) && i + |EscChar(c)| <= |s| && s[i..i + |EscChar(c)|] == EscChar(c)
    requires Same(Numbered(s, i + |EscChar(c)|), s, i + |EscChar(c)|, outer, limit)
    ensures Same(Numbered(s, i), s, i, outer, limit)
  {
    hide Read, Numbered, SameLook, AddsNumbers;
    var j := i + |EscChar(c)|;
    CopyPiece(s, i, EscChar(c));
    ReadEscChar(c, Numbered(s, j).value, outer, limit + 1);
    ReadEscChar(c, s[j..], outer, limit);
    AddsNothing([Shown(c, outer)]);
    SameLookPrepend([Shown(c, outer)], [Shown(c, outer)], Read(Numbered(s, j).value, outer, limit + 1),
                    Read(s[j..], outer, limit));
  }

  /** A piece without special characters that pass two copies. */
  lemma {:induction false} SameRun(s: string, i: nat, j: nat, outer: seq<Kind>, limit: nat)
    requires i <= j <= |s| && forall c | c in s[i..j] :: !IsSpecial(c)
    requires Numbered(s, i) == Prepend(s[i..j], Numbered(s, j))
    requires Same(Numbered(s, j), s, j, outer, limit)
    ensures Same(Numbered(s, i), s, i, outer, limit)
  {
    hide Read, Numbered, SameLook, AddsNumbers;
    ReadRun(s[i..j], Numbered(s, j).value, outer, limit + 1);
    ReadRun(s[i..j], s[j..], outer, limit);
    assert s[i..] == s[i..j] + s[j..];
    var p := Tint(s[i..j], outer);
    AddsNothing(p);
    SameLookPrepend(p, p, Read(Numbered(s, j).value, outer, limit + 1), Read(s[j..], outer, limit));
  }

  lemma {:induction false} NumberStep(s: string, i: nat)
    requires i < |s| && s[i] == '=' && Spaces(s, i + 1) < |s| && StartsNumber(s, Spaces(s, i + 1))
    ensures var j := Spaces(s, i + 1);
            var k := SignedEnd(s, j);
            && Numbered(s, i) == Prepend(s[i..j] + Open(Nm) + s[j..k] + CLOSE, Numbered(s, k))
            && s[i..] == s[i..j] + s[j..k] + s[k..]
            && (forall c | c in s[i..j] + s[j..k] :: !IsSpecial(c))
  {
    hide SignedEnd, Spaces, Open;
    var j := Spaces(s, i + 1);
    var k := SignedEnd(s, j);
    assert s[i..j] + s[j..k] == s[i..k];
    assert s[i..] == s[i..j] + s[j..k] + s[k..];
  }

  lemma {:induction false} SameNumber(s: string, i: nat, outer: seq<Kind>, limit: nat)
    requires i < |s| && s[i] == '=' && Spaces(s, i + 1) < |s| && StartsNumber(s, Spaces(s, i + 1))
    requires |outer| <= limit
    requires Same(Numbered(s, SignedEnd(s, Spaces(s, i + 1))), s, SignedEnd(s, Spaces(s, i + 1)), outer, limit)
    ensures Same(Numbered(s, i), s, i, outer, limit)
  {
    hide Read, Numbered, Spaces, SignedEnd, SameLook, AddsNumbers, Tint, Open;
    var j := Spaces(s, i + 1);
    var k := SignedEnd(s, j);
    var p, num := s[i..j], s[j..k];
    NumberStep(s, i);
    assert forall c | c in p :: c in p + num;
    assert forall c | c in num :: c in p + num;
    ReadNumber(p, num, Numbered(s, k).value, outer, limit + 1);
    ReadRun(p + num, s[k..], outer, limit);
    AddsNumber(p, num, outer);
    SameLookPrepend(Tint(p, outer) + Tint(num, outer + [Nm]), Tint(p + num, outer),
                    Read(Numbered(s, k).value, outer, limit + 1), Read(s[k..], outer, limit));
  }

  /** What the reader finds behind the piece at `i` is readable again. */
  lemma {:induction false} ReadOn(s: string, i: nat, j: nat, outer: seq<Kind>, limit: nat)
    requires i <= j <= |s| && forall c | c in s[i..j] :: !IsSpecial(c)
    requires Read(s[i..], outer, limit).Some?
    ensures Read(s[j..], outer, limit).Some?
  {
    hide Read;
    ReadRun(s[i..j], s[j..], outer, limit);
    assert s[i..] == s[i..j] + s[j..];
  }

  lemma {:induction false} EqualsStep(s: string, i: nat)
    requires i < |s| && s[i] == '=' && Spaces(s, i + 1) < |s|
    requires !StartsNumber(s, Spaces(s, i + 1)) && s[Spaces(s, i + 1)] != '='
    ensures Numbered(s, i) == Prepend(s[i..Spaces(s, i + 1)], Numbered(s, Spaces(s, i + 1)))
  {
    hide Spaces, StartsNumber;
    var j := Spaces(s, i + 1);
    PrependPrepend(s[i..j], [s[j]], Numbered(s, j + 1));
    assert s[i..j + 1] == s[i..j] + [s[j]];
  }

  lemma {:induction false} SameAtEnd(s: string, outer: seq<Kind>, limit: nat)
    requires Read("", outer, limit).Some?
    ensures Same(Numbered(s, |s|), s, |s|, outer, limit)
  {
    assert s[|s|..] == "";
    AddsNothing([]);
  }

  /** Pass two preserves the meaning of every well-formed HTML text: it inserts no span inside a tag or an
    * entity, closes what it opens, shows the same text, keeps every colour, and adds number spans on values
    * only. */
  lemma {:induction false} NumberedReads(s: string, i: nat, outer: seq<Kind>, limit: nat)
    requires i <= |s| && |outer| <= limit
    requires Read(s[i..], outer, limit).Some? && Numbered(s, i).Some?
    ensures Same(Numbered(s, i), s, i, outer, limit)
    decreases |s| - i, 2
  {
    hide Same;
    var h := s[i..];
    if i == |s| {
      SameAtEnd(s, outer, limit);
    } else if s[i] == '<' {
      NumberedReadsTag(s, i, outer, limit);
    } else if s[i] == '&' {
      var c := Entity(h).value;
      var j := i + |EscChar(c)|;
      assert s[i..j] == h[..|EscChar(c)|] && s[j..] == h[|EscChar(c)|..];
      CopyPiece(s, i, EscChar(c));
      NumberedReads(s, j, outer, limit);
      SameEntity(s, i, c, outer, limit);
    } else if s[i] == '=' {
      NumberedReadsEquals(s, i, outer, limit);
    } else {
      assert h[1..] == s[i + 1..];
      assert s[i..i + 1] == [s[i]];
      NumberedReads(s, i + 1, outer, limit);
      SameRun(s, i, i + 1, outer, limit);
    }
  }

  lemma {:induction false} NumberedReadsTag(s: string, i: nat, outer: seq<Kind>, limit: nat)
    requires i < |s| && |outer| <= limit && s[i] == '<'
    requires Read(s[i..], outer, limit).Some? && Numbered(s, i).Some?
    ensures Same(Numbered(s, i), s, i, outer, limit)
    decreases |s| - i, 0
  {
    hide Same;
    var h := s[i..];
    if OpenTag(h).Some? {
      var k := OpenTag(h).value;
      TagShape(k);
      assert h[..17] == s[i..i + 17] && h[17..] == s[i + 17..];
      CopyTag(s, i, Open(k));
      NumberedReads(s, i + 17, outer + [k], limit);
      SameOpen(s, i, k, outer, limit);
    } else {
      assert h[..7] == s[i..i + 7] && h[7..] == s[i + 7..];
      CopyPiece(s, i, CLOSE);
      NumberedReads(s, i + 7, outer[..|outer| - 1], limit);
      SameClose(s, i, outer, limit);
    }
  }

  lemma {:induction false} NumberedReadsNumber(s: string, i: nat, outer: seq<Kind>, limit: nat)
    requires i < |s| && |outer| <= limit && s[i] == '='
    requires Spaces(s, i + 1) < |s| && StartsNumber(s, Spaces(s, i + 1))
    requires Read(s[i..], outer, limit).Some? && Numbered(s, i).Some?
    ensures Same(Numbered(s, i), s, i, outer, limit)
    decreases |s| - i, 0
  {
    hide Same, Read;
    var k := SignedEnd(s, Spaces(s, i + 1));
    ReadOn(s, i, k, outer, limit);
    NumberedReads(s, k, outer, limit);
    SameNumber(s, i, outer, limit);
  }

  lemma {:induction false} NumberedReadsEquals(s: string, i: nat, outer: seq<Kind>, limit: nat)
    requires i < |s| && |outer| <= limit && s[i] == '='
    requires Read(s[i..], outer, limit).Some? && Numbered(s, i).Some?
    ensures Same(Numbered(s, i), s, i, outer, limit)
    decreases |s| - i, 1
  {
    hide Read, Same;
    var j := Spaces(s, i + 1);
    if StartsNumber(s, j) {
      NumberedReadsNumber(s, i, outer, limit);
    } else if s[j] == '=' {
      ReadOn(s, i, j + 1, outer, limit);
      NumberedReads(s, j + 1, outer, limit);
      SameRun(s, i, j + 1, outer, limit);
    } else {
      EqualsStep(s, i);
      ReadOn(s, i, j, outer, limit);
      NumberedReads(s, j, outer, limit);
      SameRun(s, i, j, outer, limit);
    }
  }

  // ----- when pass two reads behind the end -----

  predicate InRun(c: char) {
    c == '=' || c == ' '
  }

  predicate AllRun(s: string) {
    forall c | c in s :: InRun(c)
  }

  /** The number of equals signs that have nothing but equals signs and spaces behind them. */
  function TailEquals(s: string): nat {
    if s == "" then 0
    else TailEquals(s[1..]) + if s[0] == '=' && AllRun(s[1..]) then 1 else 0
  }

  lemma AllRunConcat(p: string, s: string)
    ensures AllRun(p + s) <==> AllRun(p) && AllRun(s)
  {
    assert forall c :: c in p + s <==> c in p || c in s;
  }

  lemma {:induction false} TailConcat(p: string, s: string)
    ensures TailEquals(p + s) == TailEquals(s) + if AllRun(s) then TailEquals(p) else 0
  {
    if p == "" {
      assert p + s == s;
    } else {
      assert (p + s)[1..] == p[1..] + s;
      AllRunConcat(p[1..], s);
      TailConcat(p[1..], s);
    }
  }

  lemma {:induction false} TailNone(p: string)
    requires p == "" || !InRun(p[|p| - 1]) || '=' !in p
    ensures TailEquals(p) == 0
  {
    if p != "" {
      if |p| > 1 { assert p[1..][|p| - 2] == p[|p| - 1] && p[|p| - 1] in p[1..]; }
      TailNone(p[1..]);
    }
  }

  /** An equals sign and the spaces behind it. */
  lemma TailOne(s: string, i: nat, j: nat)
    requires i < j <= |s| && s[i] == '=' && forall k | i < k < j :: s[k] == ' '
    ensures TailEquals(s[i..j]) == 1 && AllRun(s[i..j])
  {
    assert s[i..j][1..] == s[i + 1..j];
    TailNone(s[i + 1..j]);
  }

  /** Cutting one turn of pass two off: only a lone equals sign, or two, can be left at the end. */
  lemma TailTurn(s: string, i: nat, m: nat)
    requires i < |s| && s[i] == '=' && i < m <= |s|
    requires !InRun(s[m - 1]) || TailEquals(s[i..m]) == 2
    ensures !InRun(s[m - 1]) ==> TailEquals(s[i..]) == TailEquals(s[m..])
    ensures TailEquals(s[i..m]) == 2 ==> TailEquals(s[i..]) % 2 == TailEquals(s[m..]) % 2
  {
    TailConcat(s[i..m], s[m..]);
    assert s[i..] == s[i..m] + s[m..];
    if !InRun(s[m - 1]) { TailNone(s[i..m]); }
  }

  lemma TailTwo(s: string, i: nat, j: nat)
    requires i < j < |s| && s[i] == '=' && s[j] == '=' && forall k | i < k < j :: s[k] == ' '
    ensures TailEquals(s[i..j + 1]) == 2
  {
    var p, q := s[i..j], s[j..j + 1];
    TailOne(s, i, j);
    TailOne(s, j, j + 1);
    TailConcat(p, q);
    assert s[i..j + 1] == p + q;
  }

  /** Pass two fails exactly when an odd number of equals signs ends the text: each of them either
    * starts an assignment or is swallowed as the value of the one before it. */
  lemma {:induction false} NumberedFails(s: string, i: nat)
    requires i <= |s|
    ensures Numbered(s, i).None? <==> TailEquals(s[i..]) % 2 == 1
    decreases |s| - i, 1
  {
    if i < |s| {
      if s[i] == '=' {
        NumberedFailsEquals(s, i);
      } else {
        TailNone([s[i]]);
        TailConcat([s[i]], s[i + 1..]);
        assert s[i..] == [s[i]] + s[i + 1..];
        NumberedFails(s, i + 1);
      }
    }
  }

  lemma {:induction false} NumberedFailsEquals(s: string, i: nat)
    requires i < |s| && s[i] == '='
    ensures Numbered(s, i).None? <==> TailEquals(s[i..]) % 2 == 1
    decreases |s| - i, 0
  {
    hide TailEquals;
    var j := Spaces(s, i + 1);
    if j == |s| {
      TailOne(s, i, j);
      assert s[i..j] == s[i..];
    } else if StartsNumber(s, j) {
      TailTurn(s, i, SignedEnd(s, j));
      NumberedFails(s, SignedEnd(s, j));
    } else {
      if s[j] == '=' { TailTwo(s, i, j); }
      TailTurn(s, i, j + 1);
      NumberedFails(s, j + 1);
    }
  }

  predicate AllPlain(ts: seq<Token>) {
    forall t | t in ts :: t.kind.Plain?
  }

  /** The source behind the last coloured piece. */
  function PlainTail(ts: seq<Token>): string {
    if AllPlain(ts) then Text(ts) else PlainTail(ts[1..])
  }

  lemma {:induction false} TailEsc(s: string)
    ensures TailEquals(Esc(s)) == TailEquals(s) && (AllRun(Esc(s)) <==> AllRun(s))
  {
    if s != "" {
      EscCons(s);
      TailEsc(s[1..]);
      var c, e := s[0], EscChar(s[0]);
      assert s == [c] + s[1..];
      if IsSpecial(c) {
        assert e[|e| - 1] == ';' && ';' in e;
        assert c in [c];
        TailNone(e);
        TailNone([c]);
      }
      TailConcat(e, Esc(s[1..]));
      TailConcat([c], s[1..]);
      AllRunConcat(e, Esc(s[1..]));
      AllRunConcat([c], s[1..]);
    }
  }

  lemma {:induction false} PlainRender(ts: seq<Token>)
    requires AllPlain(ts)
    ensures Render(ts) == Esc(Text(ts))
  {
    if ts != [] {
      assert ts[0] in ts;
      PlainRender(ts[1..]);
      EscConcat(ts[0].text, Text(ts[1..]));
    }
  }

  lemma SpanEnd(t: Token)
    requires !t.kind.Plain?
    ensures RenderToken(t) != "" && RenderToken(t)[|RenderToken(t)| - 1] == '>'
  {
  }

  /** A span ends with a tag, so only the plain text behind the last span matters. */
  lemma {:induction false} TailRender(ts: seq<Token>)
    ensures TailEquals(Render(ts)) == TailEquals(PlainTail(ts))
    ensures !AllPlain(ts) ==> !AllRun(Render(ts))
  {
    if AllPlain(ts) {
      PlainRender(ts);
      TailEsc(Text(ts));
    } else {
      var p, r := RenderToken(ts[0]), Render(ts[1..]);
      TailRender(ts[1..]);
      TailConcat(p, r);
      AllRunConcat(p, r);
      if AllPlain(ts[1..]) {
        SpanEnd(ts[0]);
        TailNone(p);
        assert '>' in p;
      }
    }
  }

  lemma {:induction false} PlainTailSuffix(ts: seq<Token>) returns (p: string)
    ensures Text(ts) == p + PlainTail(ts)
  {
    if AllPlain(ts) {
      p := "";
    } else {
      p := PlainTailSuffix(ts[1..]);
      p := ts[0].text + p;
    }
  }

  /** When highlighting TOML stops the program. */
  predicate Stops(src: string) {
    TailEquals(PlainTail(TomlTokens(src, 0))) % 2 == 1
  }

  lemma {:induction false} PlainTailOf(ts: seq<Token>, src: string)
    requires Text(ts) == src
    ensures TailEquals(PlainTail(ts)) <= TailEquals(src)
    ensures AllPlain(ts) ==> PlainTail(ts) == src
  {
    var p := PlainTailSuffix(ts);
    TailConcat(p, PlainTail(ts));
  }

  lemma {:induction false} TomlTail(src: string, tail: string)
    requires tail == PlainTail(TomlTokens(src, 0))
    ensures TailEquals(tail) <= TailEquals(src)
    ensures AllPlain(TomlTokens(src, 0)) ==> tail == src
  {
    TomlCover(src, 0);
    assert src[0..] == src;
    PlainTailOf(TomlTokens(src, 0), src);
  }

  /** A source with no equals sign at its end, such as one that ends with a newline, is safe. */
  lemma {:induction false} NoTailIsSafe(src: string)
    requires TailEquals(src) == 0
    ensures !Stops(src)
  {
    var tail := PlainTail(TomlTokens(src, 0));
    TomlTail(src, tail);
    assert TailEquals(tail) == 0;
  }

  /** Nothing that pass one colours. */
  predicate Colourless(s: string) {
    forall c | c in s :: c != '#' && c != '"' && c != '\'' && c != '['
  }

  lemma {:induction false} ColourlessTokens(s: string, i: nat)
    requires i <= |s| && Colourless(s)
    ensures AllPlain(Tokens(Shell([], '#'), s, i))
    decreases |s| - i
  {
    if i < |s| {
      assert s[i] in s;
      assert TokenAt(Shell([], '#'), s, i).kind.Plain?;
      ColourlessTokens(s, TokenEnd(Shell([], '#'), s, i));
    }
  }

  lemma {:induction false} ColourlessToml(s: string, i: nat)
    requires i <= |s| && Colourless(s)
    ensures AllPlain(TomlTokens(s, i))
    decreases |s| - i
  {
    if i < |s| {
      var line := s[i..LineStop(s, i)];
      var trim := line[Lead(line)..];
      assert forall c | c in trim :: c in line;
      assert forall c | c in line :: c in s;
      assert trim != "" ==> trim[0] in trim;
      ColourlessTokens(trim, 0);
      ColourlessToml(s, LineStop(s, i));
    }
  }

  /** Without comments, strings and headers the source alone tells: `x =` stops the program, but
    * `x ==` does not. */
  lemma {:induction false} ColourlessStops(src: string)
    requires Colourless(src)
    ensures Stops(src) <==> TailEquals(src) % 2 == 1
  {
    ColourlessToml(src, 0);
    TomlTail(src, PlainTail(TomlTokens(src, 0)));
  }

  lemma {:induction false} TailCounts(one: string, two: string)
    requires one == "x =" && two == "x =="
    ensures TailEquals(one) == 1 && TailEquals(two) == 2
  {
    TailOne(one, 2, 3);
    TailTwo(two, 2, 3);
    TailNone(one[..2]);
    TailNone(two[..2]);
    TailConcat(one[..2], one[2..3]);
    TailConcat(two[..2], two[2..4]);
    assert one == one[..2] + one[2..3] && two == two[..2] + two[2..4];
  }

  lemma StopsExamples(one: string, two: string)
    requires one == "x =" && two == "x =="
    ensures Stops(one) && !Stops(two)
  {
    TailCounts(one, two);
    ColourlessStops(one);
    ColourlessStops(two);
  }

  /** The highlighter's promise for TOML: it stops exactly on the sources named by `Stops`, and otherwise
    * writes well-formed HTML that shows the source in the colours of pass one, with numbers added on values;
    * a number inside a comment or a string is the only span inside a span. */
  lemma {:induction false} TomlReads(src: string)
    ensures var html := Numbered(Render(TomlTokens(src, 0)), 0);
            && (html.None? <==> Stops(src))
            && (html.Some? ==> TomlLook(html.value, src))
  {
    var ts := TomlTokens(src, 0);
    var one := Render(ts);
    assert one[0..] == one && src[0..] == src;
    NumberedFails(one, 0);
    TailRender(ts);
    TomlCover(src, 0);
    ReadRender(ts);
    LettersOfLooks(ts);
    if Numbered(one, 0).Some? {
      NumberedReads(one, 0, [], 1);
      AddsKeepsLetters(Read(Numbered(one, 0).value, [], 2).value, Looks(ts));
    }
  }

  /** The HTML shows the source, in the colours of pass one with numbers added on values. */
  ghost predicate TomlLook(html: string, src: string) {
    Displays(html, 2, src) && AddsNumbers(Read(html, [], 2).value, Looks(TomlTokens(src, 0)))
  }

  // ----- the two loops -----

  lemma {:induction false} BodyValid(trim: string)
    requires Valid(trim)
    ensures forall t | t in BodyTokens(trim) :: Valid(t.text)
  {
    if IsHeader(trim) {
      AfterAscii(trim, Bracket(trim));
      ValidSplit(trim, Bracket(trim) + 1);
    } else {
      TokensValid(Shell([], '#'), trim, 0);
    }
  }

  lemma {:induction false} TomlLineValid(line: string)
    requires Valid(line)
    ensures Boundary(line, Lead(line)) && Valid(line[Lead(line)..])
    ensures forall t | t in LineTokens(line) :: Valid(t.text)
  {
    LeadBoundary(line);
    ValidSplit(line, Lead(line));
    BodyValid(line[Lead(line)..]);
  }

  lemma {:induction false} LineStopBoundary(s: string, i: nat)
    requires Valid(s) && i < |s|
    ensures Boundary(s, LineStop(s, i))
  {
    if LineEnd(s, i) < |s| { AfterAscii(s, LineEnd(s, i)); }
  }

  lemma {:induction false} TomlTokensValid(s: string, i: nat)
    requires Valid(s) && Boundary(s, i)
    ensures forall t | t in TomlTokens(s, i) :: Valid(t.text)
    decreases |s| - i
  {
    if i < |s| {
      LineStopBoundary(s, i);
      ValidSlice(s, i, LineStop(s, i));
      TomlLineValid(s[i..LineStop(s, i)]);
      TomlTokensValid(s, LineStop(s, i));
    }
  }

  lemma {:induction false} LineRender(line: string)
    requires Valid(line)
    ensures Render(LineTokens(line)) == line[..Lead(line)] + Render(BodyTokens(line[Lead(line)..]))
  {
    var n := Lead(line);
    LeadSafe(line);
    EscSafe(line[..n]);
    GatherCons(Token(Plain, line[..n]), BodyTokens(line[n..]), RenderToken);
  }

  method TomlLine(line: string) returns (out: string)
    requires Valid(line)
    ensures out == Render(LineTokens(line))
  {
    TomlLineValid(line);
    LineRender(line);
    var lead := Lead(line);
    var body := TomlBody(line[lead..]);
    out := Slice(line, 0, lead) + body;
  }

  method TomlBody(trim: string) returns (out: string)
    requires Valid(trim)
    ensures out == Render(BodyTokens(trim))
  {
    if trim != "" && trim[0] == '[' {
      var close := Bracket(trim);
      if close < |trim| {
        AfterAscii(trim, close);
        HeaderRender(trim);
        assert Slice(trim, 0, close + 1) == trim[..close + 1] && Slice(trim, close + 1, |trim|) == trim[close + 1..];
        return Open(Kw) + Esc(Slice(trim, 0, close + 1)) + CLOSE + Esc(Slice(trim, close + 1, |trim|));
      }
    }
    out := HighlightShell(trim, [], '#');
  }

  lemma HeaderRender(trim: string)
    requires IsHeader(trim)
    ensures Render(BodyTokens(trim))
         == Open(Kw) + Esc(trim[..Bracket(trim) + 1]) + CLOSE + Esc(trim[Bracket(trim) + 1..])
  {
    var ts := BodyTokens(trim);
    assert ts == [ts[0]] + [ts[1]];
    GatherCons(ts[0], [ts[1]], RenderToken);
    GatherCons(ts[1], [], RenderToken);
  }

  /** Where pass two copies the character at `i`, perhaps behind an equals sign and spaces. */
  lemma CharCopied(s: string, start: nat, i: nat)
    requires Valid(s) && start <= i < |s| && Boundary(s, i)
    requires if s[start] == '=' then i == Spaces(s, start + 1) && !StartsNumber(s, i) else i == start
    ensures Boundary(s, i + CharLen(s[i]))
    ensures Numbered(s, start) == Prepend(s[start..i + CharLen(s[i])], Numbered(s, i + CharLen(s[i])))
  {
    hide Valid, Spaces, StartsNumber;
    NextBoundary(s, i);
    var end := i + CharLen(s[i]);
    CopyRun(s, i + 1, end);
    if s[start] == '=' {
      PrependPrepend(s[start..i + 1], s[i + 1..end], Numbered(s, end));
      assert s[start..i + 1] + s[i + 1..end] == s[start..end];
    } else {
      PrependPrepend([s[i]], s[i + 1..end], Numbered(s, end));
      assert [s[i]] + s[i + 1..end] == s[start..end];
    }
  }

  method ScanSpaces(s: string, start: nat) returns (i: nat)
    requires start <= |s|
    ensures i == Spaces(s, start)
  {
    i := start;
    while i < |s| && s[i] == ' '
      invariant i <= |s| && Spaces(s, i) == Spaces(s, start)
    {
      i := i + 1;
    }
  }

  /** A number: the sign, then digits, underscores and full stops. */
  method ScanSigned(s: string, start: nat) returns (i: nat)
    requires start < |s| && StartsNumber(s, start)
    ensures i == SignedEnd(s, start)
  {
    i := start;
    if s[i] == '-' {
      i := i + 1;
    }
    i := ScanNumber(s, i);
  }

  lemma {:induction false} NumberBoundary(s: string, start: nat)
    requires Valid(s) && start < |s| && StartsNumber(s, start)
    ensures Boundary(s, SignedEnd(s, start))
  {
    AfterAscii(s, SignedEnd(s, start) - 1);
  }

  /** One turn of pass two: the HTML it writes, and where it stands afterwards. None: the turn reads
    * behind the end of the text. */
  method NumberTurn(html: string, start: nat) returns (turn: Option<(string, nat)>)
    requires Valid(html) && Boundary(html, start) && start < |html|
    ensures turn.None? ==> Numbered(html, start).None?
    ensures turn.Some? ==>
              var (piece, end) := turn.value;
              start < end && Boundary(html, end) && Numbered(html, start) == Prepend(piece, Numbered(html, end))
  {
    var i := start;
    if html[i] == '=' {
      i := ScanSpaces(html, start + 1);
      AfterAscii(html, i - 1);
      if i < |html| && (IsDigit(html[i]) || html[i] == '-') {
        var end := ScanSigned(html, i);
        NumberBoundary(html, i);
        return Some((Slice(html, start, i) + Open(Nm) + Slice(html, i, end) + CLOSE, end));
      }
    }
    if i == |html| {
      return None;
    }
    CharCopied(html, start, i);
    var end := i + CharLen(html[i]);
    return Some((Slice(html, start, end), end));
  }

  method NumberPass(html: string) returns (numbered: Option<string>)
    requires Valid(html)
    ensures numbered == Numbered(html, 0)
  {
    var out := "";
    var i := 0;
    PrependEmpty(Numbered(html, 0));
    while i < |html|
      invariant Boundary(html, i)
      invariant Numbered(html, 0) == Prepend(out, Numbered(html, i))
    {
      var turn := NumberTurn(html, i);
      if turn.None? {
        return None;
      }
      var (piece, end) := turn.value;
      PrependPrepend(out, piece, Numbered(html, end));
      out, i := out + piece, end;
    }
    assert out + "" == out;
    return Some(out);
  }

  lemma {:induction false} LineStep(s: string, i: nat)
    requires i < |s|
    ensures Render(TomlTokens(s, i))
         == Render(LineTokens(s[i..LineStop(s, i)])) + Render(TomlTokens(s, LineStop(s, i)))
  {
    GatherConcat(LineTokens(s[i..LineStop(s, i)]), TomlTokens(s, LineStop(s, i)), RenderToken);
  }

  /** One item of `split_inclusive`: the line with its newline. */
  method NextLine(src: string, start: nat) returns (line: string, end: nat)
    requires Valid(src) && Boundary(src, start) && start < |src|
    ensures end == LineStop(src, start) && Boundary(src, end)
    ensures line == src[start..end] && Valid(line)
  {
    end := ScanLine(src, start);
    if end < |src| {
      end := end + 1;
    }
    LineStopBoundary(src, start);
    ValidSlice(src, start, end);
    line := Slice(src, start, end);
  }

  method LinePass(src: string) returns (out: string)
    requires Valid(src)
    ensures out == Render(TomlTokens(src, 0))
  {
    out := "";
    var i := 0;
    while i < |src|
      invariant Boundary(src, i)
      invariant Render(TomlTokens(src, 0)) == out + Render(TomlTokens(src, i))
    {
      var line, end := NextLine(src, i);
      var piece := TomlLine(line);
      LineStep(src, i);
      Assoc(out, piece, Render(TomlTokens(src, end)));
      out, i := out + piece, end;
    }
  }

  method HighlightToml(src: string) returns (html: Option<string>)
    requires Valid(src)
    ensures html == Numbered(Render(TomlTokens(src, 0)), 0)
    ensures html.None? <==> Stops(src)
    ensures html.Some? ==> TomlLook(html.value, src)
  {
    var out := LinePass(src);
    TomlTokensValid(src, 0);
    RenderValid(TomlTokens(src, 0));
    TomlReads(src);
    html := NumberPass(out);
  }
}
