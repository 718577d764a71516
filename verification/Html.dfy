/** The HTML that the highlighter writes: escaping, coloured spans, and an independent reader. */
module Html {
  import opened Wrappers
  import opened Chars
  import opened Utf8

  /** How a piece of source is shown: as is, or in a span of one of four classes. */
  datatype Kind = Plain | Kw | St | Cm | Nm

  datatype Token = Token(kind: Kind, text: string)

  function Class(k: Kind): string {
    match k
    case Plain => ""
    case Kw => "kw"
    case St => "st"
    case Cm => "cm"
    case Nm => "nm"
  }

  const TAG := "<span class"
  const CLOSE := "</span>"

  function Open(k: Kind): string {
    TAG + "=\"" + Class(k) + "\">"
  }

  /** The class of a span names its colour: keyword, string, comment, number. */
  lemma {:induction false} OpenIs()
    ensures Open(Kw) == "<span class=\"kw\">" && Open(St) == "<span class=\"st\">"
    ensures Open(Cm) == "<span class=\"cm\">" && Open(Nm) == "<span class=\"nm\">" && CLOSE == "</span>"
  {
  }

  predicate IsSpecial(c: char) {
    c == '&' || c == '<' || c == '>'
  }

  // ----- escaping -----

  /** Every `c` replaced by `r`. */
  function ReplaceAll(s: string, c: char, r: string): string {
    if s == "" then "" else (if s[0] == c then r else [s[0]]) + ReplaceAll(s[1..], c, r)
  }

  /** HTML escaping: three replacements, the ampersand first. */
  function Esc(s: string): string {
    ReplaceAll(ReplaceAll(ReplaceAll(s, '&', "&amp;"), '<', "&lt;"), '>', "&gt;")
  }

  function EscChar(c: char): string {
    if c == '&' then "&amp;" else if c == '<' then "&lt;" else if c == '>' then "&gt;" else [c]
  }

  lemma {:induction false} ReplaceConcat(s: string, t: string, c: char, r: string)
    ensures ReplaceAll(s + t, c, r) == ReplaceAll(s, c, r) + ReplaceAll(t, c, r)
  {
    if s == "" {
      assert s + t == t;
    } else {
      assert (s + t)[0] == s[0] && (s + t)[1..] == s[1..] + t;
      ReplaceConcat(s[1..], t, c, r);
    }
  }

  lemma {:induction false} ReplaceAbsent(s: string, c: char, r: string)
    requires c !in s
    ensures ReplaceAll(s, c, r) == s
  {
    if s != "" { ReplaceAbsent(s[1..], c, r); }
  }

  lemma EscConcat(s: string, t: string)
    ensures Esc(s + t) == Esc(s) + Esc(t)
  {
    ReplaceConcat(s, t, '&', "&amp;");
    var s', t' := ReplaceAll(s, '&', "&amp;"), ReplaceAll(t, '&', "&amp;");
    ReplaceConcat(s', t', '<', "&lt;");
    ReplaceConcat(ReplaceAll(s', '<', "&lt;"), ReplaceAll(t', '<', "&lt;"), '>', "&gt;");
  }

  lemma {:induction false} ReplaceOne(c: char, d: char, r: string)
    ensures ReplaceAll([c], d, r) == if c == d then r else [c]
  {
    assert [c][1..] == "";
  }

  lemma EscOne(c: char)
    ensures Esc([c]) == EscChar(c)
  {
    hide ReplaceAll;
    var a := ReplaceAll([c], '&', "&amp;");
    ReplaceOne(c, '&', "&amp;");
    ReplaceOne(c, '<', "&lt;");
    ReplaceOne(c, '>', "&gt;");
    ReplaceAbsent("&amp;", '<', "&lt;");
    ReplaceAbsent("&amp;", '>', "&gt;");
    ReplaceAbsent("&lt;", '>', "&gt;");
    if c == '&' {
      assert a == "&amp;";
    } else {
      assert a == [c];
    }
  }

  /** The three passes do not disturb each other: escaping works character by character. */
  lemma EscCons(s: string)
    requires s != ""
    ensures Esc(s) == EscChar(s[0]) + Esc(s[1..])
  {
    EscOne(s[0]);
    EscConcat([s[0]], s[1..]);
    assert s == [s[0]] + s[1..];
  }

  lemma EscSafe(s: string)
    requires forall c | c in s :: !IsSpecial(c)
    ensures Esc(s) == s
  {
    ReplaceAbsent(s, '&', "&amp;");
    ReplaceAbsent(s, '<', "&lt;");
    ReplaceAbsent(s, '>', "&gt;");
  }

  lemma EscCharValid(c: string)
    requires IsChar(c)
    ensures Valid(Esc(c))
  {
    if |c| == 1 {
      EscOne(c[0]);
      assert c == [c[0]];
      AsciiValid(EscChar(c[0]));
    } else {
      EscSafe(c);
      assert CharLen(c[0]) == |c| && c[..|c|] == c && c[|c|..] == "";
    }
  }

  lemma {:induction false} EscValid(s: string)
    requires Valid(s)
    ensures Valid(Esc(s))
  {
    if s != "" {
      var c, rest := s[..CharLen(s[0])], s[CharLen(s[0])..];
      EscCharValid(c);
      EscValid(rest);
      EscConcat(c, rest);
      ValidConcat(Esc(c), Esc(rest));
      assert s == c + rest;
    }
  }

  // ----- rendering -----

  function RenderToken(t: Token): string {
    if t.kind.Plain? then Esc(t.text) else Open(t.kind) + Esc(t.text) + CLOSE
  }

  /** The pieces `f(t)`, one after the other. */
  function Gather<T>(ts: seq<Token>, f: Token -> seq<T>): seq<T> {
    if ts == [] then [] else f(ts[0]) + Gather(ts[1..], f)
  }

  function Render(ts: seq<Token>): string {
    Gather(ts, RenderToken)
  }

  function Source(t: Token): string {
    t.text
  }

  /** The source text that a token list covers. */
  function Text(ts: seq<Token>): string {
    Gather(ts, Source)
  }

  lemma {:induction false} GatherCons<T>(t: Token, ts: seq<Token>, f: Token -> seq<T>)
    ensures Gather([t] + ts, f) == f(t) + Gather(ts, f)
    ensures Gather([t], f) == f(t)
  {
    assert ([t] + ts)[0] == t && ([t] + ts)[1..] == ts;
    assert [t][1..] == [] && f(t) + [] == f(t);
  }

  lemma {:induction false} GatherConcat<T>(ts: seq<Token>, us: seq<Token>, f: Token -> seq<T>)
    ensures Gather(ts + us, f) == Gather(ts, f) + Gather(us, f)
  {
    if ts == [] {
      assert ts + us == us;
    } else {
      GatherConcat(ts[1..], us, f);
      assert (ts + us)[1..] == ts[1..] + us;
    }
  }

  // ----- an independent reader -----

  /** A character as it is shown, with the classes of the spans around it, outermost first. */
  datatype Shown = Shown(c: char, colours: seq<Kind>)

  function Tint(s: string, colours: seq<Kind>): seq<Shown> {
    seq(|s|, i requires 0 <= i < |s| => Shown(s[i], colours))
  }

  function Letters(out: seq<Shown>): string {
    seq(|out|, i requires 0 <= i < |out| => out[i].c)
  }

  /** What a token is to look like. */
  function Look(t: Token): seq<Shown> {
    Tint(t.text, if t.kind.Plain? then [] else [t.kind])
  }

  function Looks(ts: seq<Token>): seq<Shown> {
    Gather(ts, Look)
  }

  lemma {:induction false} LettersOfLooks(ts: seq<Token>)
    ensures Letters(Looks(ts)) == Text(ts)
  {
    if ts != [] {
      LettersOfLooks(ts[1..]);
      var a, b := Look(ts[0]), Looks(ts[1..]);
      assert Letters(a + b) == Letters(a) + Letters(b);
      assert Letters(a) == ts[0].text;
    }
  }

  function Prepend<T>(s: seq<T>, o: Option<seq<T>>): Option<seq<T>> {
    match o
    case None => None
    case Some(t) => Some(s + t)
  }

  function OpenTag(h: string): Option<Kind> {
    if StartsWith(h, Open(Kw)) then Some(Kw)
    else if StartsWith(h, Open(St)) then Some(St)
    else if StartsWith(h, Open(Cm)) then Some(Cm)
    else if StartsWith(h, Open(Nm)) then Some(Nm)
    else None
  }

  function Entity(h: string): Option<char> {
    if StartsWith(h, "&amp;") then Some('&')
    else if StartsWith(h, "&lt;") then Some('<')
    else if StartsWith(h, "&gt;") then Some('>')
    else None
  }

  /** Reads HTML made of text, the three entities and spans of the four classes, inside the spans `outer`
    * and with never more than `limit` of them open. The result is what is shown: every character with its
    * colours, the entities decoded. None: malformed, that is a bare special character, an unknown tag or
    * entity, a close without an open, a span left open, or nesting beyond the limit. */
  function Read(h: string, outer: seq<Kind>, limit: nat): Option<seq<Shown>>
    decreases |h|
  {
    if h == "" then
      if outer == [] then Some([]) else None
    else if h[0] == '<' then
      var k := OpenTag(h);
      if k.Some? then
        if |outer| < limit then Read(h[|Open(k.value)|..], outer + [k.value], limit) else None
      else if StartsWith(h, CLOSE) && outer != [] then
        Read(h[|CLOSE|..], outer[..|outer| - 1], limit)
      else None
    else if h[0] == '&' then
      match Entity(h)
      case None => None
      case Some(c) => Prepend([Shown(c, outer)], Read(h[|EscChar(c)|..], outer, limit))
    else if h[0] == '>' then None
    else Prepend([Shown(h[0], outer)], Read(h[1..], outer, limit))
  }

  /** Well-formed HTML, nested no deeper than `limit`, that shows the text `s`. */
  ghost predicate Displays(h: string, limit: nat, s: string) {
    var out := Read(h, [], limit);
    out.Some? && Letters(out.value) == s
  }

  lemma {:induction false} StartsWithConcat(p: string, h: string)
    ensures StartsWith(p + h, p) && (p + h)[|p|..] == h
  {
  }

  lemma {:induction false} Assoc(a: string, b: string, c: string)
    ensures a + (b + c) == (a + b) + c
  {
  }

  lemma {:induction false} PrependEmpty<T>(o: Option<seq<T>>)
    ensures Prepend([], o) == o
  {
    if o.Some? { assert [] + o.value == o.value; }
  }

  lemma {:induction false} PrependPrepend<T>(s: seq<T>, t: seq<T>, o: Option<seq<T>>)
    ensures Prepend(s, Prepend(t, o)) == Prepend(s + t, o)
  {
    if o.Some? { assert s + (t + o.value) == (s + t) + o.value; }
  }

  lemma {:induction false} OpenTagOf(k: Kind, h: string)
    requires k != Plain
    ensures |Open(k)| == 17 && OpenTag(Open(k) + h) == Some(k) && (Open(k) + h)[0] == '<'
  {
    var g := Open(k) + h;
    StartsWithConcat(Open(k), h);
    assert g[13] == Class(k)[0];
    forall k' | k' != Plain && k' != k
      ensures !StartsWith(g, Open(k'))
    {
      assert Open(k')[13] == Class(k')[0];
      assert g[..17][13] == g[13];
    }
  }

  lemma {:induction false} ReadOpen(k: Kind, h: string, outer: seq<Kind>, limit: nat)
    requires k != Plain && |outer| < limit
    ensures Read(Open(k) + h, outer, limit) == Read(h, outer + [k], limit)
  {
    hide OpenTag, Open;
    OpenTagOf(k, h);
    StartsWithConcat(Open(k), h);
  }

  lemma {:induction false} NoOpenTag(h: string)
    ensures OpenTag(CLOSE + h).None?
  {
    var g := CLOSE + h;
    assert g[1] == '/';
    forall k
      ensures !StartsWith(g, Open(k))
    {
      if 1 < |g| && |Open(k)| <= |g| {
        assert Open(k)[1] == 's';
        assert g[..|Open(k)|][1] == g[1];
      }
    }
  }

  lemma {:induction false} ReadClose(h: string, outer: seq<Kind>, limit: nat)
    requires outer != []
    ensures Read(CLOSE + h, outer, limit) == Read(h, outer[..|outer| - 1], limit)
  {
    hide OpenTag;
    NoOpenTag(h);
    StartsWithConcat(CLOSE, h);
    assert (CLOSE + h)[0] == '<';
  }

  lemma {:induction false} EntityOf(c: char, h: string)
    requires IsSpecial(c)
    ensures Entity(EscChar(c) + h) == Some(c) && (EscChar(c) + h)[0] == '&'
  {
    var e := EscChar(c);
    var g := e + h;
    StartsWithConcat(e, h);
    assert g[0] == '&' && g[1] == e[1] && g[2] == e[2];
    if c == '>' && |"&lt;"| <= |g| { assert g[..4][1] == g[1]; }
    if c != '&' && |"&amp;"| <= |g| { assert g[..5][1] == g[1]; }
  }

  lemma {:induction false} ReadEscChar(c: char, h: string, outer: seq<Kind>, limit: nat)
    ensures Read(EscChar(c) + h, outer, limit) == Prepend([Shown(c, outer)], Read(h, outer, limit))
  {
    StartsWithConcat(EscChar(c), h);
    if IsSpecial(c) {
      hide Entity, EscChar;
      EntityOf(c, h);
    } else {
      assert EscChar(c) == [c] && ([c] + h)[0] == c;
    }
  }

  lemma {:induction false} TintCons(c: char, rest: string, outer: seq<Kind>)
    ensures Tint([c] + rest, outer) == [Shown(c, outer)] + Tint(rest, outer)
  {
  }

  lemma {:induction false} ReadEsc(s: string, h: string, outer: seq<Kind>, limit: nat)
    ensures Read(Esc(s) + h, outer, limit) == Prepend(Tint(s, outer), Read(h, outer, limit))
  {
    hide Read;
    if s == "" {
      assert Esc(s) + h == h && Tint(s, outer) == [];
      PrependEmpty(Read(h, outer, limit));
    } else {
      var c, rest := s[0], s[1..];
      ReadEsc(rest, h, outer, limit);
      assert s == [c] + rest;
      TintCons(c, rest, outer);
      calc {
        Read(Esc(s) + h, outer, limit);
        { EscCons(s); Assoc(EscChar(c), Esc(rest), h); }
        Read(EscChar(c) + (Esc(rest) + h), outer, limit);
        { ReadEscChar(c, Esc(rest) + h, outer, limit); }
        Prepend([Shown(c, outer)], Prepend(Tint(rest, outer), Read(h, outer, limit)));
        { PrependPrepend([Shown(c, outer)], Tint(rest, outer), Read(h, outer, limit)); }
        Prepend(Tint(s, outer), Read(h, outer, limit));
      }
    }
  }

  lemma {:induction false} ReadSpan(k: Kind, text: string, h: string, outer: seq<Kind>, limit: nat)
    requires k != Plain && |outer| < limit
    ensures Read(Open(k) + Esc(text) + CLOSE + h, outer, limit)
         == Prepend(Tint(text, outer + [k]), Read(h, outer, limit))
  {
    hide Read, Esc;
    var o, e := Open(k), Esc(text);
    Assoc(o + e, CLOSE, h);
    Assoc(o, e, CLOSE + h);
    ReadOpen(k, e + (CLOSE + h), outer, limit);
    ReadEsc(text, CLOSE + h, outer + [k], limit);
    ReadClose(h, outer + [k], limit);
    assert (outer + [k])[..|outer + [k]| - 1] == outer;
  }

  lemma {:induction false} ReadToken(t: Token, h: string)
    ensures Read(RenderToken(t) + h, [], 1) == Prepend(Look(t), Read(h, [], 1))
  {
    hide Read, Esc;
    if t.kind.Plain? {
      ReadEsc(t.text, h, [], 1);
    } else {
      ReadSpan(t.kind, t.text, h, [], 1);
      assert [] + [t.kind] == [t.kind];
    }
  }

  /** Rendering loses nothing: every token list is read back as the characters it covers in the colours
    * of their tokens, with all spans closed and none inside another. */
  lemma {:induction false} ReadRender(ts: seq<Token>)
    ensures Read(Render(ts), [], 1) == Some(Looks(ts))
  {
    if ts != [] {
      ReadRender(ts[1..]);
      ReadToken(ts[0], Render(ts[1..]));
    }
  }

  lemma TokenValid(t: Token)
    requires Valid(t.text)
    ensures Valid(RenderToken(t))
  {
    EscValid(t.text);
    if !t.kind.Plain? {
      AsciiValid(Open(t.kind));
      AsciiValid(CLOSE);
      ValidConcat(Open(t.kind), Esc(t.text));
      ValidConcat(Open(t.kind) + Esc(t.text), CLOSE);
    }
  }

  lemma {:induction false} RenderValid(ts: seq<Token>)
    requires forall t | t in ts :: Valid(t.text)
    ensures Valid(Render(ts))
  {
    if ts != [] {
      RenderValid(ts[1..]);
      TokenValid(ts[0]);
      ValidConcat(RenderToken(ts[0]), Render(ts[1..]));
    }
  }
}
