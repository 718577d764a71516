/** The one-pass scanners: Rust, and shell or SQL. */
module Scanners {
  import opened Wrappers
  import opened Chars
  import opened Utf8
  import opened Html

  // ----- what the languages are made of -----

  const RUST_KW := [
    "fn", "let", "mut", "pub", "mod", "use", "struct", "enum", "impl", "trait", "match", "if",
    "else", "for", "while", "loop", "return", "async", "await", "Self", "self", "where", "type",
    "const", "static", "ref", "move", "as", "in", "break", "continue", "true", "false"]

  const BASH_KW := [
    "if", "then", "fi", "else", "elif", "for", "in", "do", "done", "while", "case", "esac",
    "function", "return", "exit", "echo"]

  const SQL_KW := [
    "SELECT", "FROM", "WHERE", "JOIN", "LEFT", "RIGHT", "INNER", "OUTER", "ON", "AND", "OR", "NOT",
    "NULL", "CREATE", "TABLE", "INDEX", "UPDATE", "DELETE", "INSERT", "VALUES", "PRAGMA", "ORDER",
    "BY", "GROUP", "HAVING", "LIMIT", "OFFSET", "DISTINCT", "AS"]

  predicate IsDigit(c: char) {
    '0' <= c <= '9'
  }

  predicate IsAlpha(c: char) {
    'a' <= c <= 'z' || 'A' <= c <= 'Z'
  }

  predicate IsIdentChar(c: char) {
    IsAlpha(c) || IsDigit(c) || c == '_'
  }

  predicate IsNumberChar(c: char) {
    IsDigit(c) || c == '_' || c == '.'
  }

  /** The two scanners with their parameters. */
  datatype Lexer = Curly(kws: seq<string>) | Shell(kws: seq<string>, lead: char)

  // ----- where a token that starts before `i` ends -----

  function LineEnd(s: string, i: nat): (j: nat)
    requires i <= |s|
    ensures i <= j <= |s|
    ensures forall k | i <= k < j :: s[k] != '\n'
    ensures j < |s| ==> s[j] == '\n'
    decreases |s| - i
  {
    if i == |s| || s[i] == '\n' then i else LineEnd(s, i + 1)
  }

  function IdentEnd(s: string, i: nat): (j: nat)
    requires i <= |s|
    ensures i <= j <= |s|
    ensures forall k | i <= k < j :: IsIdentChar(s[k])
    ensures j < |s| ==> !IsIdentChar(s[j])
    decreases |s| - i
  {
    if i == |s| || !IsIdentChar(s[i]) then i else IdentEnd(s, i + 1)
  }

  function NumberEnd(s: string, i: nat): (j: nat)
    requires i <= |s|
    ensures i <= j <= |s|
    ensures forall k | i <= k < j :: IsNumberChar(s[k])
    ensures j < |s| ==> !IsNumberChar(s[j])
    decreases |s| - i
  {
    if i == |s| || !IsNumberChar(s[i]) then i else NumberEnd(s, i + 1)
  }

  /** The closing quote of a Rust string, a backslash hiding the byte after it. */
  function EscapedQuote(s: string, i: nat): (j: nat)
    requires i <= |s|
    ensures i <= j <= |s|
    ensures j < |s| ==> s[j] == '"'
    decreases |s| - i
  {
    if i == |s| || s[i] == '"' then i
    else if s[i] == '\\' && i + 1 < |s| then EscapedQuote(s, i + 2)
    else EscapedQuote(s, i + 1)
  }

  /** The number of backslashes directly in front of `k`, counted from `lo` on. */
  function Slashes(s: string, lo: nat, k: nat): nat
    requires lo <= k <= |s|
  {
    if k == lo || s[k - 1] != '\\' then 0 else Slashes(s, lo, k - 1) + 1
  }

  /** A quote behind an even number of backslashes. */
  predicate Unescaped(s: string, lo: nat, k: nat)
    requires lo <= k < |s|
  {
    s[k] == '"' && Slashes(s, lo, k) % 2 == 0
  }

  /** `q` is the first unescaped quote from `lo` on, or the end of a text without one. */
  ghost predicate FirstUnescaped(s: string, lo: nat, q: nat) {
    && lo <= q <= |s|
    && (forall k | lo <= k < q :: !Unescaped(s, lo, k))
    && (q < |s| ==> Unescaped(s, lo, q))
  }

  /** A string with content from `lo` on ends at `i`: behind its first unescaped quote, or with the text. */
  ghost predicate EndsString(s: string, lo: nat, i: nat) {
    exists q: nat :: FirstUnescaped(s, lo, q) && i == (if q < |s| then q + 1 else q)
  }

  /** Stepping over every backslash and the byte behind it finds the first unescaped quote. */
  lemma {:induction false} EscapedQuoteIsFirst(s: string, lo: nat, i: nat)
    requires lo <= i <= |s| && Slashes(s, lo, i) % 2 == 0 && forall k | lo <= k < i :: !Unescaped(s, lo, k)
    ensures FirstUnescaped(s, lo, EscapedQuote(s, i))
    decreases |s| - i
  {
    if i < |s| && s[i] != '"' {
      if s[i] != '\\' {
        EscapedQuoteIsFirst(s, lo, i + 1);
      } else if i + 1 < |s| {
        assert Slashes(s, lo, i + 1) == Slashes(s, lo, i) + 1;
        EscapedQuoteIsFirst(s, lo, i + 2);
      }
    }
  }

  lemma {:induction false} SlashesOfSlice(s: string, i: nat, j: nat, k: nat)
    requires i < j <= |s| && 1 <= k < j - i
    ensures Slashes(s[i..j], 1, k) == Slashes(s, i + 1, i + k)
  {
    if k > 1 { SlashesOfSlice(s, i, j, k - 1); }
  }

  function QuoteAt(s: string, i: nat, quote: char): (j: nat)
    requires i <= |s|
    ensures i <= j <= |s|
    ensures forall k | i <= k < j :: s[k] != quote
    ensures j < |s| ==> s[j] == quote
    decreases |s| - i
  {
    if i == |s| || s[i] == quote then i else QuoteAt(s, i + 1, quote)
  }

  // ----- the specification: the token at a position, and all tokens from there -----

  predicate IsComment(lx: Lexer, s: string, i: nat)
    requires i < |s|
  {
    if lx.Curly? then s[i] == '/' && i + 1 < |s| && s[i + 1] == '/'
    else if lx.lead == '#' then s[i] == '#'
    else s[i] == '-' && i + 1 < |s| && s[i + 1] == '-'
  }

  predicate IsQuote(lx: Lexer, c: char) {
    c == '"' || (lx.Shell? && c == '\'')
  }

  /** The end of the string literal whose opening quote is at `i`: behind its closing quote, or the
    * end of the text. */
  function StringEnd(lx: Lexer, s: string, i: nat): (j: nat)
    requires i < |s|
    ensures i < j <= |s|
  {
    var q := if lx.Curly? then EscapedQuote(s, i + 1) else QuoteAt(s, i + 1, s[i]);
    if q < |s| then q + 1 else q
  }

  /** The class of the token at `i`. */
  datatype Form = Comment | Quoted | Word | Number | Single

  function FormAt(lx: Lexer, s: string, i: nat): Form
    requires i < |s|
  {
    if IsComment(lx, s, i) then Comment
    else if IsQuote(lx, s[i]) then Quoted
    else if IsAlpha(s[i]) || s[i] == '_' then Word
    else if lx.Curly? && IsDigit(s[i]) then Number
    else Single
  }

  function TokenEnd(lx: Lexer, s: string, i: nat): (j: nat)
    requires i < |s|
    ensures i < j <= |s|
  {
    match FormAt(lx, s, i)
    case Comment => LineEnd(s, i)
    case Quoted => StringEnd(lx, s, i)
    case Word => IdentEnd(s, i)
    case Number => NumberEnd(s, i)
    case Single => if i + CharLen(s[i]) <= |s| then i + CharLen(s[i]) else |s|
  }

  function KindOf(lx: Lexer, f: Form, text: string): Kind {
    match f
    case Comment => Cm
    case Quoted => St
    case Word => if text in lx.kws then Kw else Plain
    case Number => Nm
    case Single => Plain
  }

  function TokenAt(lx: Lexer, s: string, i: nat): Token
    requires i < |s|
  {
    var text := s[i..TokenEnd(lx, s, i)];
    Token(KindOf(lx, FormAt(lx, s, i), text), text)
  }

  function Tokens(lx: Lexer, s: string, i: nat): seq<Token>
    requires i <= |s|
    decreases |s| - i
  {
    if i == |s| then [] else [TokenAt(lx, s, i)] + Tokens(lx, s, TokenEnd(lx, s, i))
  }

  /** Every token ends where the text may be cut, even a string literal whose scan has jumped into
    * the middle of a character behind a backslash. */
  lemma {:induction false} TokenEndBoundary(lx: Lexer, s: string, i: nat)
    requires Valid(s) && Boundary(s, i) && i < |s|
    ensures Boundary(s, TokenEnd(lx, s, i))
  {
    match FormAt(lx, s, i)
    case Comment => LineEndBoundary(s, i);
    case Quoted => StringEndBoundary(lx, s, i);
    case Word => WordEndBoundary(s, i);
    case Number => NumberEndBoundary(s, i);
    case Single => NextBoundary(s, i);
  }

  lemma {:induction false} LineEndBoundary(s: string, i: nat)
    requires i <= |s|
    ensures Boundary(s, LineEnd(s, i))
  {
  }

  lemma {:induction false} StringEndBoundary(lx: Lexer, s: string, i: nat)
    requires Valid(s) && i < |s| && IsQuote(lx, s[i])
    ensures Boundary(s, StringEnd(lx, s, i))
  {
    var q := if lx.Curly? then EscapedQuote(s, i + 1) else QuoteAt(s, i + 1, s[i]);
    if q < |s| { AfterAscii(s, q); }
  }

  lemma {:induction false} WordEndBoundary(s: string, i: nat)
    requires Valid(s) && i < |s| && IsIdentChar(s[i])
    ensures Boundary(s, IdentEnd(s, i))
  {
    AfterAscii(s, IdentEnd(s, i) - 1);
  }

  lemma {:induction false} NumberEndBoundary(s: string, i: nat)
    requires Valid(s) && i < |s| && IsNumberChar(s[i])
    ensures Boundary(s, NumberEnd(s, i))
  {
    AfterAscii(s, NumberEnd(s, i) - 1);
  }

  // ----- what the tokens mean -----

  /** The tokens partition the text. */
  lemma {:induction false} TokensCover(lx: Lexer, s: string, i: nat)
    requires i <= |s|
    ensures Text(Tokens(lx, s, i)) == s[i..]
    decreases |s| - i
  {
    if i < |s| {
      var j := TokenEnd(lx, s, i);
      TokensCover(lx, s, j);
      assert s[i..] == s[i..j] + s[j..];
    }
  }

  /** What each colour promises of the piece of source it is put on. */
  ghost predicate Coloured(lx: Lexer, t: Token) {
    match t.kind
    case Kw => t.text in lx.kws
    case Cm =>
      && '\n' !in t.text
      && (if lx.Curly? then StartsWith(t.text, "//")
          else if lx.lead == '#' then StartsWith(t.text, "#")
          else StartsWith(t.text, "--"))
    case St =>
      && 0 < |t.text| && IsQuote(lx, t.text[0])
      && (if lx.Curly? then forall k | 0 < k < |t.text| - 1 :: !Unescaped(t.text, 1, k)
          else forall k | 0 < k < |t.text| - 1 :: t.text[k] != t.text[0])
    case Nm => lx.Curly? && t.text != "" && IsDigit(t.text[0]) && forall c | c in t.text :: IsNumberChar(c)
    case Plain => t.text != "" && (IsAlpha(t.text[0]) || t.text[0] == '_') ==> t.text !in lx.kws
  }

  lemma TokenColoured(lx: Lexer, s: string, i: nat)
    requires i < |s|
    ensures Coloured(lx, TokenAt(lx, s, i))
  {
    var t := TokenAt(lx, s, i);
    assert t.text[0] == s[i];
    if t.kind.St? {
      if lx.Curly? {
        RustStringColoured(s, i, TokenEnd(lx, s, i));
      } else {
        assert forall k | 0 < k < |t.text| - 1 :: t.text[k] == s[i + k];
      }
    }
  }

  lemma {:induction false} RustStringColoured(s: string, i: nat, e: nat)
    requires i < e <= |s|
    requires var q := EscapedQuote(s, i + 1); e == if q < |s| then q + 1 else q
    ensures forall k | 0 < k < e - i - 1 :: !Unescaped(s[i..e], 1, k)
  {
    EscapedQuoteIsFirst(s, i + 1, i + 1);
    hide EscapedQuote;
    forall k | 0 < k < e - i - 1
      ensures !Unescaped(s[i..e], 1, k)
    {
      SlashesOfSlice(s, i, e, k);
      assert s[i..e][k] == s[i + k] && !Unescaped(s, i + 1, i + k);
    }
  }

  /** Every token of a text keeps its colour's promise. */
  lemma {:induction false} TokensColoured(lx: Lexer, s: string, i: nat)
    requires i <= |s|
    ensures forall t | t in Tokens(lx, s, i) :: Coloured(lx, t)
    decreases |s| - i
  {
    if i < |s| {
      TokenColoured(lx, s, i);
      TokensColoured(lx, s, TokenEnd(lx, s, i));
    }
  }

  lemma {:induction false} TokensValid(lx: Lexer, s: string, i: nat)
    requires Valid(s) && Boundary(s, i)
    ensures forall t | t in Tokens(lx, s, i) :: Valid(t.text)
    decreases |s| - i
  {
    if i < |s| {
      TokenEndBoundary(lx, s, i);
      ValidSlice(s, i, TokenEnd(lx, s, i));
      TokensValid(lx, s, TokenEnd(lx, s, i));
    }
  }

  /** The highlighter's promise for a one-pass language: well-formed HTML that shows the source, every
    * token in its colour. */
  lemma {:induction false} HighlightReads(lx: Lexer, s: string)
    ensures Read(Render(Tokens(lx, s, 0)), [], 1) == Some(Looks(Tokens(lx, s, 0)))
    ensures Displays(Render(Tokens(lx, s, 0)), 1, s)
  {
    TokensCover(lx, s, 0);
    ReadRender(Tokens(lx, s, 0));
    LettersOfLooks(Tokens(lx, s, 0));
  }

  /** Highlighting is injective: no two sources give the same HTML. */
  lemma {:induction false} HighlightInjective(lx: Lexer, s: string, t: string)
    requires Render(Tokens(lx, s, 0)) == Render(Tokens(lx, t, 0))
    ensures s == t
  {
    HighlightReads(lx, s);
    HighlightReads(lx, t);
  }

  // ----- the scanners -----

  lemma {:induction false} RenderStep(lx: Lexer, s: string, i: nat)
    requires i < |s|
    ensures Render(Tokens(lx, s, i))
         == RenderToken(TokenAt(lx, s, i)) + Render(Tokens(lx, s, TokenEnd(lx, s, i)))
  {
    var t, ts := TokenAt(lx, s, i), Tokens(lx, s, TokenEnd(lx, s, i));
    assert ([t] + ts)[0] == t && ([t] + ts)[1..] == ts;
  }

  method ScanLine(src: string, start: nat) returns (i: nat)
    requires start <= |src|
    ensures i == LineEnd(src, start)
  {
    i := start;
    while i < |src| && src[i] != '\n'
      invariant i <= |src| && LineEnd(src, i) == LineEnd(src, start)
    {
      i := i + 1;
    }
  }

  method ScanIdent(src: string, start: nat) returns (i: nat)
    requires start <= |src|
    ensures i == IdentEnd(src, start)
  {
    i := start;
    while i < |src| && IsIdentChar(src[i])
      invariant i <= |src| && IdentEnd(src, i) == IdentEnd(src, start)
    {
      i := i + 1;
    }
  }

  method ScanNumber(src: string, start: nat) returns (i: nat)
    requires start <= |src|
    ensures i == NumberEnd(src, start)
  {
    i := start;
    while i < |src| && IsNumberChar(src[i])
      invariant i <= |src| && NumberEnd(src, i) == NumberEnd(src, start)
    {
      i := i + 1;
    }
  }

  method ScanCurlyString(src: string, start: nat, ghost lx: Lexer) returns (i: nat)
    requires start < |src| && lx.Curly?
    ensures i == StringEnd(lx, src, start)
    ensures EndsString(src, start + 1, i)
  {
    EscapedQuoteIsFirst(src, start + 1, start + 1);
    i := start + 1;
    while i < |src| && src[i] != '"'
      invariant i <= |src| && EscapedQuote(src, i) == EscapedQuote(src, start + 1)
    {
      if src[i] == '\\' && i + 1 < |src| {
        i := i + 2;
      } else {
        i := i + 1;
      }
    }
    if i < |src| {
      i := i + 1;
    }
  }

  method ScanShellString(src: string, start: nat, ghost lx: Lexer) returns (i: nat)
    requires start < |src| && lx.Shell?
    ensures i == StringEnd(lx, src, start)
  {
    var quote := src[start];
    i := start + 1;
    while i < |src| && src[i] != quote
      invariant i <= |src| && QuoteAt(src, i, quote) == QuoteAt(src, start + 1, quote)
    {
      i := i + 1;
    }
    if i < |src| {
      i := i + 1;
    }
  }

  /** Words and numbers are written without escaping; they need none. */
  lemma WordSafe(s: string, i: nat, j: nat)
    requires i <= j <= |s| && forall k | i <= k < j :: IsIdentChar(s[k]) || IsNumberChar(s[k])
    ensures Esc(s[i..j]) == s[i..j]
  {
    EscSafe(s[i..j]);
  }

  lemma TokenShown(lx: Lexer, s: string, i: nat, f: Form, j: nat)
    requires i < |s| && f == FormAt(lx, s, i) && j == TokenEnd(lx, s, i)
    ensures RenderToken(TokenAt(lx, s, i)) == RenderToken(Token(KindOf(lx, f, s[i..j]), s[i..j]))
  {
  }

  /** One turn of the Rust scanner: the HTML of the token at `start`, and where the token ends. */
  method CurlyToken(src: string, kws: seq<string>, start: nat) returns (piece: string, i: nat)
    requires Valid(src) && Boundary(src, start) && start < |src|
    ensures i == TokenEnd(Curly(kws), src, start) && Boundary(src, i)
    ensures piece == RenderToken(TokenAt(Curly(kws), src, start))
  {
    ghost var lx := Curly(kws);
    TokenEndBoundary(lx, src, start);
    var c := src[start];
    if c == '/' && start + 1 < |src| && src[start + 1] == '/' {
      i := ScanLine(src, start);
      piece := Open(Cm) + Esc(Slice(src, start, i)) + CLOSE;
      TokenShown(lx, src, start, Comment, i);
    } else if c == '"' {
      i := ScanCurlyString(src, start, lx);
      piece := Open(St) + Esc(Slice(src, start, i)) + CLOSE;
      TokenShown(lx, src, start, Quoted, i);
    } else if IsAlpha(c) || c == '_' {
      i := ScanIdent(src, start);
      var ident := Slice(src, start, i);
      WordSafe(src, start, i);
      piece := if ident in kws then Open(Kw) + ident + CLOSE else Esc(ident);
      TokenShown(lx, src, start, Word, i);
    } else if IsDigit(c) {
      i := ScanNumber(src, start);
      WordSafe(src, start, i);
      piece := Open(Nm) + Slice(src, start, i) + CLOSE;
      TokenShown(lx, src, start, Number, i);
    } else {
      NextBoundary(src, start);
      i := start + CharLen(c);
      piece := Esc(Slice(src, start, i));
      TokenShown(lx, src, start, Single, i);
    }
  }

  method HighlightCurly(src: string, kws: seq<string>) returns (out: string)
    requires Valid(src)
    ensures out == Render(Tokens(Curly(kws), src, 0))
  {
    ghost var lx := Curly(kws);
    out := "";
    var i := 0;
    while i < |src|
      invariant Boundary(src, i)
      invariant Render(Tokens(lx, src, 0)) == out + Render(Tokens(lx, src, i))
    {
      var piece, end := CurlyToken(src, kws, i);
      RenderStep(lx, src, i);
      Assoc(out, piece, Render(Tokens(lx, src, end)));
      out, i := out + piece, end;
    }
  }

  /** One turn of the shell and SQL scanner. */
  method ShellToken(src: string, kws: seq<string>, lead: char, start: nat) returns (piece: string, i: nat)
    requires Valid(src) && Boundary(src, start) && start < |src|
    ensures i == TokenEnd(Shell(kws, lead), src, start) && Boundary(src, i)
    ensures piece == RenderToken(TokenAt(Shell(kws, lead), src, start))
  {
    ghost var lx := Shell(kws, lead);
    TokenEndBoundary(lx, src, start);
    var c := src[start];
    var isComment :=
      if lead == '#' then c == '#' else c == '-' && start + 1 < |src| && src[start + 1] == '-';
    if isComment {
      i := ScanLine(src, start);
      piece := Open(Cm) + Esc(Slice(src, start, i)) + CLOSE;
      TokenShown(lx, src, start, Comment, i);
    } else if c == '"' || c == '\'' {
      i := ScanShellString(src, start, lx);
      piece := Open(St) + Esc(Slice(src, start, i)) + CLOSE;
      TokenShown(lx, src, start, Quoted, i);
    } else if IsAlpha(c) || c == '_' {
      i := ScanIdent(src, start);
      var ident := Slice(src, start, i);
      WordSafe(src, start, i);
      piece := if ident in kws then Open(Kw) + ident + CLOSE else Esc(ident);
      TokenShown(lx, src, start, Word, i);
    } else {
      NextBoundary(src, start);
      i := start + CharLen(c);
      piece := Esc(Slice(src, start, i));
      TokenShown(lx, src, start, Single, i);
    }
  }

  method HighlightShell(src: string, kws: seq<string>, lead: char) returns (out: string)
    requires Valid(src)
    ensures out == Render(Tokens(Shell(kws, lead), src, 0))
  {
    ghost var lx := Shell(kws, lead);
    out := "";
    var i := 0;
    while i < |src|
      invariant Boundary(src, i)
      invariant Render(Tokens(lx, src, 0)) == out + Render(Tokens(lx, src, i))
    {
      var piece, end := ShellToken(src, kws, lead, i);
      RenderStep(lx, src, i);
      Assoc(out, piece, Render(Tokens(lx, src, end)));
      out, i := out + piece, end;
    }
  }
}
