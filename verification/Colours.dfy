/** What the colours of highlighted text say, told from the text alone. */
module Colours {
  import opened Chars
  import opened Utf8
  import opened Html
  import opened Scanners

  // ----- the promise -----

  predicate Bare(x: Shown) {
    x.colours == []
  }

  predicate In(x: Shown, k: Kind) {
    x.colours == [k]
  }

  /** A maximal stretch in one colour. */
  ghost predicate IsRun(out: seq<Shown>, k: Kind, i: nat, j: nat) {
    && i < j <= |out|
    && (forall q | i <= q < j :: In(out[q], k))
    && (i > 0 ==> !In(out[i - 1], k))
    && (j < |out| ==> !In(out[j], k))
  }

  predicate StartsWord(c: char) {
    IsAlpha(c) || c == '_'
  }

  ghost predicate BareWordChars(out: seq<Shown>, i: nat, j: nat) {
    j <= |out| && forall q | i <= q < j :: Bare(out[q]) && IsIdentChar(out[q].c)
  }

  /** A maximal uncoloured identifier: it starts at the first letter or underscore of its stretch of
    * uncoloured identifier characters and goes on to the end of the stretch. */
  ghost predicate IsBareWord(out: seq<Shown>, i: nat, j: nat) {
    && i < j && BareWordChars(out, i, j) && StartsWord(out[i].c)
    && (j < |out| ==> !(Bare(out[j]) && IsIdentChar(out[j].c)))
    && (forall p | 0 <= p < i && BareWordChars(out, p, i) :: !StartsWord(out[p].c))
  }

  /** No comment mark begins in uncoloured text. */
  ghost predicate NoBareMark(out: seq<Shown>, mark: string) {
    forall k | 0 <= k < |out| && Bare(out[k]) :: !At(Letters(out), mark, k)
  }

  ghost predicate NoBareQuote(out: seq<Shown>, quotes: string) {
    forall k | 0 <= k < |out| && Bare(out[k]) :: out[k].c !in quotes
  }

  /** An uncoloured digit is part of an identifier. */
  ghost predicate BareDigitsInWords(out: seq<Shown>) {
    forall k | 0 <= k < |out| && Bare(out[k]) && IsDigit(out[k].c) ::
      exists j | 0 <= j <= k :: BareWordChars(out, j, k + 1) && StartsWord(out[j].c)
  }

  ghost predicate NoBareKeyword(out: seq<Shown>, kws: seq<string>) {
    forall i: nat, j: nat | IsBareWord(out, i, j) :: Letters(out)[i..j] !in kws
  }

  ghost predicate KeywordRuns(out: seq<Shown>, kws: seq<string>) {
    forall i: nat, j: nat | IsRun(out, Kw, i, j) ::
      Letters(out)[i..j] in kws && (j < |out| ==> !IsIdentChar(out[j].c))
  }

  ghost predicate NumberRuns(out: seq<Shown>) {
    forall i: nat, j: nat | IsRun(out, Nm, i, j) ::
      && IsDigit(out[i].c) && (forall q | i <= q < j :: IsNumberChar(out[q].c))
      && (j < |out| ==> !IsNumberChar(out[j].c))
  }

  /** A comment begins with its mark and goes on to the end of its line. */
  ghost predicate CommentRuns(out: seq<Shown>, mark: string) {
    forall i: nat, j: nat | IsRun(out, Cm, i, j) ::
      && At(Letters(out), mark, i) && '\n' !in Letters(out)[i..j]
      && (j < |out| ==> out[j].c == '\n')
  }

  /** The literal opened at `i` ends in front of `b`: behind the first quote that closes it, or with the
    * text. */
  ghost predicate LiteralEnds(text: string, i: nat, b: nat, escapes: bool)
    requires i < |text|
  {
    if escapes then EndsString(text, i + 1, b)
    else
      && i < b <= |text|
      && (forall k | i < k < b - 1 :: text[k] != text[i])
      && (b < |text| ==> b - 1 > i && text[b - 1] == text[i])
  }

  /** The text from `i` to `j` is one literal behind the other. */
  ghost predicate Literals(text: string, i: nat, j: nat, quotes: string, escapes: bool)
    requires j <= |text|
    decreases j - i
  {
    i == j
    || (i < j && text[i] in quotes
        && exists b: nat | i < b <= j :: LiteralEnds(text, i, b, escapes) && Literals(text, b, j, quotes, escapes))
  }

  ghost predicate StringRuns(out: seq<Shown>, quotes: string, escapes: bool) {
    forall i: nat, j: nat | IsRun(out, St, i, j) :: Literals(Letters(out), i, j, quotes, escapes)
  }

  /** Every comment, string, keyword and, in Rust, number is in its colour, and nothing else is. */
  ghost predicate TrueColours(out: seq<Shown>, kws: seq<string>, mark: string, quotes: string, rust: bool) {
    && (forall x | x in out :: Bare(x) || In(x, Kw) || In(x, St) || In(x, Cm) || (rust && In(x, Nm)))
    && NoBareMark(out, mark) && NoBareQuote(out, quotes) && NoBareKeyword(out, kws)
    && (rust ==> BareDigitsInWords(out))
    && CommentRuns(out, mark) && StringRuns(out, quotes, rust) && KeywordRuns(out, kws) && NumberRuns(out)
  }

  // ----- the token around a character -----

  /** A token starts at `a`, the first one being at `i`. */
  predicate IsStart(lx: Lexer, s: string, i: nat, a: nat)
    requires i <= |s|
    decreases |s| - i
  {
    i == a || (i < |s| && TokenEnd(lx, s, i) <= a && IsStart(lx, s, TokenEnd(lx, s, i), a))
  }

  function Painted(lx: Lexer, s: string): seq<Shown> {
    Looks(Tokens(lx, s, 0))
  }

  function ColourOf(lx: Lexer, s: string, a: nat): seq<Kind>
    requires a < |s|
  {
    var k := TokenAt(lx, s, a).kind;
    if k.Plain? then [] else [k]
  }

  lemma {:induction false} StartAround(lx: Lexer, s: string, i: nat, k: nat) returns (a: nat)
    requires i <= k < |s|
    ensures a <= k < TokenEnd(lx, s, a) && IsStart(lx, s, i, a)
    decreases |s| - i
  {
    if k < TokenEnd(lx, s, i) {
      a := i;
    } else {
      a := StartAround(lx, s, TokenEnd(lx, s, i), k);
      StartOrder(lx, s, TokenEnd(lx, s, i), a);
    }
  }

  lemma {:induction false} StartOrder(lx: Lexer, s: string, i: nat, a: nat)
    requires i <= |s| && IsStart(lx, s, i, a)
    ensures i <= a
  {
  }

  lemma {:induction false} NextStart(lx: Lexer, s: string, i: nat, a: nat)
    requires i <= |s| && a < |s| && IsStart(lx, s, i, a)
    ensures IsStart(lx, s, i, TokenEnd(lx, s, a))
    decreases |s| - i
  {
    if i < a {
      NextStart(lx, s, TokenEnd(lx, s, i), a);
      StartOrder(lx, s, TokenEnd(lx, s, i), TokenEnd(lx, s, a));
    }
  }

  lemma {:induction false} StartBoundary(lx: Lexer, s: string, i: nat, a: nat)
    requires Valid(s) && Boundary(s, i) && IsStart(lx, s, i, a)
    ensures Boundary(s, a)
    decreases |s| - i
  {
    if i < a {
      TokenEndBoundary(lx, s, i);
      StartBoundary(lx, s, TokenEnd(lx, s, i), a);
    }
  }

  lemma {:induction false} PaintedAt(lx: Lexer, s: string, i: nat, a: nat, q: nat)
    requires i <= a <= q < |s| && IsStart(lx, s, i, a) && q < TokenEnd(lx, s, a)
    ensures |Looks(Tokens(lx, s, i))| == |s| - i
    ensures Looks(Tokens(lx, s, i))[q - i] == Shown(s[q], ColourOf(lx, s, a))
    decreases |s| - i
  {
    hide TokenEnd, FormAt, KindOf;
    var t, e := TokenAt(lx, s, i), TokenEnd(lx, s, i);
    PaintedLength(lx, s, i);
    PaintedLength(lx, s, e);
    GatherCons(t, Tokens(lx, s, e), Look);
    if i < a { PaintedAt(lx, s, e, a, q); }
  }

  lemma {:induction false} PaintedLength(lx: Lexer, s: string, i: nat)
    requires i <= |s|
    ensures |Looks(Tokens(lx, s, i))| == |s| - i
  {
    TokensCover(lx, s, i);
    LettersOfLooks(Tokens(lx, s, i));
  }

  /** All that a token has to say: its extent, its form, and how its characters are shown. */
  ghost predicate IsToken(lx: Lexer, s: string, a: nat, e: nat) {
    && a < e <= |s| && e == TokenEnd(lx, s, a) && |Painted(lx, s)| == |s|
    && (forall q | a <= q < e :: Painted(lx, s)[q] == Shown(s[q], ColourOf(lx, s, a)))
    && (FormAt(lx, s, a).Single? ==> forall q | a < q < e :: IsCont(s[q]))
  }

  lemma {:induction false} StartIsToken(lx: Lexer, s: string, a: nat)
    requires Valid(s) && IsStart(lx, s, 0, a) && a < |s|
    ensures IsToken(lx, s, a, TokenEnd(lx, s, a))
  {
    PaintedLength(lx, s, 0);
    StartBoundary(lx, s, 0, a);
    NextBoundary(s, a);
    hide Valid, Boundary, TokenEnd, IsStart, Looks, Tokens, ColourOf;
    forall q | a <= q < TokenEnd(lx, s, a)
      ensures Painted(lx, s)[q] == Shown(s[q], ColourOf(lx, s, a))
    {
      PaintedAt(lx, s, 0, a, q);
    }
    if FormAt(lx, s, a).Single? { SingleEnd(lx, s, a); }
  }

  lemma {:induction false} SingleEnd(lx: Lexer, s: string, a: nat)
    requires a < |s| && FormAt(lx, s, a).Single?
    ensures TokenEnd(lx, s, a) <= a + CharLen(s[a])
  {
  }

  lemma {:induction false} TokenAround(lx: Lexer, s: string, k: nat) returns (a: nat, e: nat)
    requires Valid(s) && k < |s|
    ensures a <= k < e && IsToken(lx, s, a, e)
    ensures e < |s| ==> IsToken(lx, s, e, TokenEnd(lx, s, e))
  {
    a := StartAround(lx, s, 0, k);
    e := TokenEnd(lx, s, a);
    StartIsToken(lx, s, a);
    NextStart(lx, s, 0, a);
    if e < |s| { StartIsToken(lx, s, e); }
  }

  lemma {:induction false} PaintedLetters(lx: Lexer, s: string)
    ensures Letters(Painted(lx, s)) == s && |Painted(lx, s)| == |s|
  {
    TokensCover(lx, s, 0);
    LettersOfLooks(Tokens(lx, s, 0));
    assert s[0..] == s;
  }

  // ----- the promise is kept -----

  /** How a lexer's language writes its comments and strings. */
  predicate Speaks(lx: Lexer, mark: string, quotes: string, rust: bool) {
    if lx.Curly? then mark == "//" && quotes == "\"" && rust
    else quotes == "\"'" && !rust && mark == (if lx.lead == '#' then "#" else "--")
  }

  /** An uncoloured ASCII character is a token of its own or in a word. */
  lemma {:induction false} BareToken(lx: Lexer, s: string, k: nat) returns (a: nat, e: nat)
    requires Valid(s) && k < |s| && |Painted(lx, s)| == |s| && Bare(Painted(lx, s)[k]) && IsAscii(s[k])
    ensures a <= k < e && IsToken(lx, s, a, e)
    ensures FormAt(lx, s, a).Word? || (FormAt(lx, s, a).Single? && a == k)
    ensures FormAt(lx, s, a).Word? ==> TokenAt(lx, s, a).text !in lx.kws
  {
    hide Valid, Painted, FormAt, TokenEnd;
    a, e := TokenAround(lx, s, k);
  }

  lemma {:induction false} WordToken(lx: Lexer, s: string, a: nat, e: nat)
    requires IsToken(lx, s, a, e) && FormAt(lx, s, a).Word?
    ensures StartsWord(s[a]) && (forall q | a <= q < e :: IsIdentChar(s[q])) && (e < |s| ==> !IsIdentChar(s[e]))
    ensures TokenAt(lx, s, a).text == s[a..e]
  {
  }

  lemma {:induction false} MarksColoured(lx: Lexer, s: string, mark: string, quotes: string, rust: bool)
    requires Valid(s) && Speaks(lx, mark, quotes, rust)
    ensures NoBareMark(Painted(lx, s), mark) && NoBareQuote(Painted(lx, s), quotes)
  {
    hide Painted, Tokens, Valid;
    PaintedLetters(lx, s);
    forall k | 0 <= k < |s| && Bare(Painted(lx, s)[k])
      ensures !At(s, mark, k) && s[k] !in quotes
    {
      MarkColoured(lx, s, k, mark, quotes, rust);
    }
  }

  lemma {:induction false} MarkForm(lx: Lexer, s: string, k: nat, mark: string, quotes: string, rust: bool)
    requires Speaks(lx, mark, quotes, rust) && k < |s|
    ensures s[k] in quotes || At(s, mark, k) ==>
              IsAscii(s[k]) && !IsIdentChar(s[k]) && (FormAt(lx, s, k).Comment? || FormAt(lx, s, k).Quoted?)
  {
    if At(s, mark, k) {
      assert s[k] == s[k..k + |mark|][0];
      if |mark| == 2 { assert s[k + 1] == s[k..k + |mark|][1]; }
    }
  }

  lemma {:induction false} MarkColoured(lx: Lexer, s: string, k: nat, mark: string, quotes: string, rust: bool)
    requires Valid(s) && Speaks(lx, mark, quotes, rust)
    requires k < |s| && |Painted(lx, s)| == |s| && Bare(Painted(lx, s)[k])
    ensures !At(s, mark, k) && s[k] !in quotes
  {
    hide Painted, Valid, FormAt;
    MarkForm(lx, s, k, mark, quotes, rust);
    if IsAscii(s[k]) {
      var a, e := BareToken(lx, s, k);
      if FormAt(lx, s, a).Word? { WordToken(lx, s, a, e); }
    }
  }

  lemma {:induction false} DigitsColoured(lx: Lexer, s: string)
    requires Valid(s) && lx.Curly?
    ensures BareDigitsInWords(Painted(lx, s))
  {
    var out := Painted(lx, s);
    PaintedLetters(lx, s);
    hide Painted, Valid, TokenEnd;
    forall k | 0 <= k < |out| && Bare(out[k]) && IsDigit(out[k].c)
      ensures exists j | 0 <= j <= k :: BareWordChars(out, j, k + 1) && StartsWord(out[j].c)
    {
      assert out[k].c == Letters(out)[k];
      var a, e := BareToken(lx, s, k);
      assert FormAt(lx, s, a).Word?;
      WordToken(lx, s, a, e);
      assert BareWordChars(out, a, k + 1);
    }
  }

  lemma {:induction false} WordsColoured(lx: Lexer, s: string)
    requires Valid(s)
    ensures NoBareKeyword(Painted(lx, s), lx.kws)
  {
    var out := Painted(lx, s);
    hide Painted, Valid, TokenEnd;
    PaintedLetters(lx, s);
    forall i: nat, j: nat | IsBareWord(out, i, j)
      ensures Letters(out)[i..j] !in lx.kws
    {
      BareWordIsToken(lx, s, i, j);
    }
  }

  lemma {:induction false} BareWordIsToken(lx: Lexer, s: string, i: nat, j: nat)
    requires Valid(s) && Letters(Painted(lx, s)) == s && |Painted(lx, s)| == |s| && IsBareWord(Painted(lx, s), i, j)
    ensures s[i..j] !in lx.kws
  {
    var out := Painted(lx, s);
    hide Painted, Valid, TokenEnd, FormAt;
    assert forall q | 0 <= q < |out| :: out[q].c == Letters(out)[q];
    var a, e := BareToken(lx, s, i);
    SingleIsNoWord(lx, s, a);
    WordToken(lx, s, a, e);
    assert BareWordChars(out, a, i);
  }

  lemma {:induction false} SingleIsNoWord(lx: Lexer, s: string, a: nat)
    requires a < |s|
    ensures FormAt(lx, s, a).Single? ==> !StartsWord(s[a])
  {
  }

  /** The first token of a run starts with it. */
  lemma {:induction false} RunToken(lx: Lexer, s: string, k: Kind, i: nat, j: nat) returns (e: nat)
    requires Valid(s) && |Painted(lx, s)| == |s| && IsRun(Painted(lx, s), k, i, j)
    ensures i < e <= j && IsToken(lx, s, i, e) && ColourOf(lx, s, i) == [k]
    ensures e < |s| ==> IsToken(lx, s, e, TokenEnd(lx, s, e))
  {
    hide Painted, Valid, TokenEnd, ColourOf;
    var a;
    a, e := TokenAround(lx, s, i);
    assert In(Painted(lx, s)[i], k);
    assert forall q | i <= q < e :: In(Painted(lx, s)[q], k);
  }

  /** A run of words or numbers is a single token. */
  lemma {:induction false} RunIsToken(lx: Lexer, s: string, k: Kind, i: nat, j: nat)
    requires Valid(s) && |Painted(lx, s)| == |s| && IsRun(Painted(lx, s), k, i, j) && k != St
    ensures IsToken(lx, s, i, j) && ColourOf(lx, s, i) == [k]
  {
    var e := RunToken(lx, s, k, i, j);
    if e < j {
      assert In(Painted(lx, s)[e], k);
      assert ColourOf(lx, s, e) == [k];
      hide Painted, Valid, Tokens;
      NoTwinTokens(lx, s, k, i, e);
    }
  }

  lemma {:induction false} NoTwinTokens(lx: Lexer, s: string, k: Kind, i: nat, e: nat)
    requires i < e < |s| && e == TokenEnd(lx, s, i) && k != Plain && k != St
    requires ColourOf(lx, s, i) == [k]
    ensures ColourOf(lx, s, e) != [k]
  {
  }

  lemma {:induction false} RunsTrue(lx: Lexer, s: string, mark: string, quotes: string, rust: bool)
    requires Valid(s) && Speaks(lx, mark, quotes, rust)
    ensures KeywordRuns(Painted(lx, s), lx.kws) && NumberRuns(Painted(lx, s)) && CommentRuns(Painted(lx, s), mark)
  {
    var out := Painted(lx, s);
    hide Painted, Valid, TokenEnd, FormAt, KindOf;
    PaintedLetters(lx, s);
    assert forall q | 0 <= q < |out| :: out[q].c == Letters(out)[q];
    forall i: nat, j: nat | IsRun(out, Kw, i, j)
      ensures Letters(out)[i..j] in lx.kws && (j < |out| ==> !IsIdentChar(out[j].c))
    {
      RunIsToken(lx, s, Kw, i, j);
      KeywordToken(lx, s, i, j);
    }
    forall i: nat, j: nat | IsRun(out, Nm, i, j)
      ensures IsDigit(out[i].c) && (forall q | i <= q < j :: IsNumberChar(out[q].c))
      ensures j < |out| ==> !IsNumberChar(out[j].c)
    {
      RunIsToken(lx, s, Nm, i, j);
      NumberToken(lx, s, i, j);
    }
    forall i: nat, j: nat | IsRun(out, Cm, i, j)
      ensures At(Letters(out), mark, i) && '\n' !in Letters(out)[i..j] && (j < |out| ==> out[j].c == '\n')
    {
      RunIsToken(lx, s, Cm, i, j);
      CommentToken(lx, s, i, j, mark, quotes, rust);
    }
  }

  lemma {:induction false} KeywordToken(lx: Lexer, s: string, i: nat, j: nat)
    requires IsToken(lx, s, i, j) && ColourOf(lx, s, i) == [Kw]
    ensures s[i..j] in lx.kws && (j < |s| ==> !IsIdentChar(s[j]))
  {
    WordToken(lx, s, i, j);
  }

  lemma {:induction false} NumberToken(lx: Lexer, s: string, i: nat, j: nat)
    requires IsToken(lx, s, i, j) && ColourOf(lx, s, i) == [Nm]
    ensures IsDigit(s[i]) && (forall q | i <= q < j :: IsNumberChar(s[q])) && (j < |s| ==> !IsNumberChar(s[j]))
  {
  }

  lemma {:induction false} CommentToken(lx: Lexer, s: string, i: nat, j: nat, mark: string, quotes: string, rust: bool)
    requires IsToken(lx, s, i, j) && ColourOf(lx, s, i) == [Cm] && Speaks(lx, mark, quotes, rust)
    ensures At(s, mark, i) && '\n' !in s[i..j] && (j < |s| ==> s[j] == '\n')
  {
    assert IsComment(lx, s, i);
    assert |mark| == 1 ==> s[i..i + 1] == [s[i]];
    assert |mark| == 2 ==> s[i..i + 2] == [s[i], s[i + 1]];
  }

  lemma {:induction false} StringToken(lx: Lexer, s: string, i: nat, e: nat, mark: string, quotes: string, rust: bool)
    requires IsToken(lx, s, i, e) && ColourOf(lx, s, i) == [St] && Speaks(lx, mark, quotes, rust)
    ensures s[i] in quotes && LiteralEnds(s, i, e, rust)
  {
    assert FormAt(lx, s, i).Quoted?;
    assert e == StringEnd(lx, s, i);
    if rust { EscapedQuoteIsFirst(s, i + 1, i + 1); }
  }

  lemma {:induction false} LiteralsFrom(lx: Lexer, s: string, i: nat, j: nat, mark: string, quotes: string, rust: bool)
    requires Speaks(lx, mark, quotes, rust)
    requires |Painted(lx, s)| == |s| && i < j <= |s| && (j < |s| ==> !In(Painted(lx, s)[j], St))
    requires (forall q | i <= q < j :: In(Painted(lx, s)[q], St))
    requires Valid(s) && IsStart(lx, s, 0, i)
    ensures Literals(s, i, j, quotes, rust)
    decreases j - i
  {
    hide Painted, Valid, TokenEnd, FormAt, KindOf, LiteralEnds, IsStart, Speaks;
    StartIsToken(lx, s, i);
    var e := TokenEnd(lx, s, i);
    assert In(Painted(lx, s)[i], St);
    assert forall q | i <= q < e :: In(Painted(lx, s)[q], St);
    StringToken(lx, s, i, e, mark, quotes, rust);
    if e < j {
      NextStart(lx, s, 0, i);
      LiteralsFrom(lx, s, e, j, mark, quotes, rust);
    }
  }

  lemma {:induction false} StringsTrue(lx: Lexer, s: string, mark: string, quotes: string, rust: bool)
    requires Valid(s) && Speaks(lx, mark, quotes, rust)
    ensures StringRuns(Painted(lx, s), quotes, rust)
  {
    hide Painted, Valid, TokenEnd, FormAt, KindOf, Speaks, Literals;
    PaintedLetters(lx, s);
    forall i: nat, j: nat | IsRun(Painted(lx, s), St, i, j)
      ensures Literals(s, i, j, quotes, rust)
    {
      RunStart(lx, s, i, j);
      LiteralsFrom(lx, s, i, j, mark, quotes, rust);
    }
  }

  lemma {:induction false} RunStart(lx: Lexer, s: string, i: nat, j: nat)
    requires Valid(s) && |Painted(lx, s)| == |s| && IsRun(Painted(lx, s), St, i, j)
    ensures IsStart(lx, s, 0, i)
  {
    hide Painted, Valid, TokenEnd, ColourOf, IsStart;
    var a := StartAround(lx, s, 0, i);
    StartIsToken(lx, s, a);
    assert In(Painted(lx, s)[i], St);
  }

  lemma {:induction false} KindsTrue(lx: Lexer, s: string, k: nat)
    requires Valid(s) && |Painted(lx, s)| == |s| && k < |s|
    ensures var x := Painted(lx, s)[k];
            Bare(x) || In(x, Kw) || In(x, St) || In(x, Cm) || (lx.Curly? && In(x, Nm))
  {
    var a, e := TokenAround(lx, s, k);
  }

  /** Highlighting keeps the promise. */
  lemma {:induction false} ColoursTrue(lx: Lexer, s: string, mark: string, quotes: string, rust: bool)
    requires Valid(s) && Speaks(lx, mark, quotes, rust)
    ensures TrueColours(Painted(lx, s), lx.kws, mark, quotes, rust)
  {
    hide Painted, Valid, NoBareMark, NoBareQuote, NoBareKeyword, BareDigitsInWords;
    hide CommentRuns, StringRuns, KeywordRuns, NumberRuns;
    PaintedLetters(lx, s);
    forall k | 0 <= k < |s| { KindsTrue(lx, s, k); }
    MarksColoured(lx, s, mark, quotes, rust);
    WordsColoured(lx, s);
    if rust { DigitsColoured(lx, s); }
    RunsTrue(lx, s, mark, quotes, rust);
    StringsTrue(lx, s, mark, quotes, rust);
  }
}
