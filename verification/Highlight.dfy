/** The entry point of the highlighter. */
module Highlight {
  import opened Wrappers
  import opened Utf8
  import opened Html
  import opened Scanners
  import opened Toml
  import opened Colours
  import opened TomlColours

  datatype Lang = LangRust | LangBash | LangToml | LangSql

  function LexerOf(lang: Lang): Lexer
    requires !lang.LangToml?
  {
    match lang
    case LangRust => Curly(RUST_KW)
    case LangBash => Shell(BASH_KW, '#')
    case LangSql => Shell(SQL_KW, '-')
  }

  /** The HTML colours the source as its language says: Rust has slash comments, strings with escapes and
    * numbers, bash and SQL have strings in either quote, and TOML has headers and values. */
  ghost predicate TrueTo(lang: Lang, html: string, src: string) {
    match lang
    case LangRust => TrueHtml(html, src, RUST_KW, "//", "\"", true)
    case LangBash => TrueHtml(html, src, BASH_KW, "#", "\"'", false)
    case LangSql => TrueHtml(html, src, SQL_KW, "--", "\"'", false)
    case LangToml => TrueToml(html, src)
  }

  ghost predicate TrueHtml(html: string, src: string, kws: seq<string>, mark: string, quotes: string, rust: bool) {
    Displays(html, 1, src) && TrueColours(Read(html, [], 1).value, kws, mark, quotes, rust)
  }

  lemma {:induction false} HighlightTrue(lx: Lexer, src: string, mark: string, quotes: string, rust: bool)
    requires Valid(src) && Speaks(lx, mark, quotes, rust)
    ensures TrueHtml(Render(Tokens(lx, src, 0)), src, lx.kws, mark, quotes, rust)
  {
    hide Read, Tokens, Valid, TrueColours;
    HighlightReads(lx, src);
    ColoursTrue(lx, src, mark, quotes, rust);
  }

  /** For every text in every language the result is well-formed HTML that shows the text, except
    * that TOML stops the program on the texts named by `Stops`. */
  method Highlight(lang: Lang, src: string) returns (html: Option<string>)
    requires Valid(src)
    ensures html.None? <==> lang.LangToml? && Stops(src)
    ensures html.Some? ==> Displays(html.value, if lang.LangToml? then 2 else 1, src)
    ensures html.Some? ==> TrueTo(lang, html.value, src)
    ensures html.Some? && lang.LangToml? ==> TomlLook(html.value, src)
    ensures html.Some? && !lang.LangToml? ==>
              Read(html.value, [], 1) == Some(Looks(Tokens(LexerOf(lang), src, 0)))
              && forall t | t in Tokens(LexerOf(lang), src, 0) :: Coloured(LexerOf(lang), t)
  {
    hide Read, Tokens, Valid, TrueHtml, TrueToml, Stops, TomlLook, Numbered;
    if !lang.LangToml? {
      HighlightReads(LexerOf(lang), src);
      ColoursHold(lang, src);
    }
    match lang
    case LangRust =>
      var out := HighlightCurly(src, RUST_KW);
      HighlightTrue(Curly(RUST_KW), src, "//", "\"", true);
      html := Some(out);
    case LangBash =>
      var out := HighlightShell(src, BASH_KW, '#');
      HighlightTrue(Shell(BASH_KW, '#'), src, "#", "\"'", false);
      html := Some(out);
    case LangToml =>
      html := HighlightToml(src);
      if html.Some? { TomlTrue(src, html.value); }
    case LangSql =>
      var out := HighlightShell(src, SQL_KW, '-');
      HighlightTrue(Shell(SQL_KW, '-'), src, "--", "\"'", false);
      html := Some(out);
  }

  /** In Rust, bash and SQL sources every coloured piece is what its colour says. */
  lemma {:induction false} ColoursHold(lang: Lang, src: string)
    requires !lang.LangToml?
    ensures forall t | t in Tokens(LexerOf(lang), src, 0) :: Coloured(LexerOf(lang), t)
  {
    TokensColoured(LexerOf(lang), src, 0);
  }
}
