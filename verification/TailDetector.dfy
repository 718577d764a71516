/** The heuristic that recognises a line cut off while it was being written. */
module TailDetector {
  import opened Chars
  import opened JsonText

  /** The detector's three variables. */
  datatype Scan = Scan(depth: int, inString: bool, escape: bool)

  const START := Scan(0, false, false)

  function Step(st: Scan, c: char): Scan {
    if st.escape then st.(escape := false)
    else if c == '\\' && st.inString then st.(escape := true)
    else if c == '"' then st.(inString := !st.inString)
    else if c == '{' && !st.inString then st.(depth := st.depth + 1)
    else if c == '}' && !st.inString then st.(depth := st.depth - 1)
    else st
  }

  function Run(st: Scan, s: string): Scan
    decreases |s|
  {
    if s == "" then st else Run(Step(st, s[0]), s[1..])
  }

  const I32_LIMIT := 0x8000_0000

  /** Two's-complement wrap-around of a 32-bit counter. */
  function WrapI32(n: int): (w: int)
    ensures -I32_LIMIT <= w < I32_LIMIT
    ensures -I32_LIMIT <= n < I32_LIMIT ==> w == n
  {
    (n + I32_LIMIT) % (2 * I32_LIMIT) - I32_LIMIT
  }

  /** The detector's answer, its depth being kept in a 32-bit counter. */
  predicate Incomplete(line: string) {
    var st := Run(START, line);
    WrapI32(st.depth) > 0 || st.inString
  }

  lemma {:induction false} RunConcat(st: Scan, s: string, t: string)
    ensures Run(st, s + t) == Run(Run(st, s), t)
    decreases |s|
  {
    if s == "" {
      assert s + t == t;
    } else {
      assert (s + t)[1..] == s[1..] + t;
      RunConcat(Step(st, s[0]), s[1..], t);
    }
  }

  // ----- texts that the detector passes over -----

  /** The greatest depth on the way. */
  function Peak(st: Scan, s: string): int
    decreases |s|
  {
    if s == "" then st.depth else Max(st.depth, Peak(Step(st, s[0]), s[1..]))
  }

  function Max(a: int, b: int): int {
    if a < b then b else a
  }

  lemma {:induction false} PeakConcat(st: Scan, s: string, t: string)
    ensures Peak(st, s + t) == Max(Peak(st, s), Peak(Run(st, s), t))
    decreases |s|
  {
    if s == "" {
      assert s + t == t;
      PeakAtLeast(st, t);
    } else {
      assert (s + t)[1..] == s[1..] + t;
      PeakConcat(Step(st, s[0]), s[1..], t);
    }
  }

  lemma {:induction false} PeakAtLeast(st: Scan, s: string)
    ensures st.depth <= Peak(st, s)
  {
  }

  lemma {:induction false} PeakBounds(st: Scan, s: string, k: nat)
    requires k <= |s|
    ensures Run(st, s[..k]).depth <= Peak(st, s)
  {
    assert s == s[..k] + s[k..];
    PeakConcat(st, s[..k], s[k..]);
    PeakAtLeast(Run(st, s[..k]), s[k..]);
  }

  /** Every depth up to the peak is reached, by an opening brace. */
  lemma {:induction false} Climb(st: Scan, s: string, depth: int) returns (k: nat)
    requires st.depth < depth <= Peak(st, s)
    ensures k <= |s| && Run(st, s[..k]).depth == depth && !Run(st, s[..k]).inString
    decreases |s|
  {
    var next := Step(st, s[0]);
    if next.depth == depth {
      k := 1;
      assert s[..1][1..] == "";
    } else {
      k := Climb(next, s[1..], depth);
      k := k + 1;
      assert s[..k][1..] == s[1..][..k - 1];
    }
  }

  /** Scanning `s` leads back to `st`, never below its depth, and at most `n` above it. */
  ghost predicate Keeps(st: Scan, s: string, n: nat) {
    Run(st, s) == st && Peak(st, s) == st.depth + n && forall k | 0 <= k <= |s| :: Run(st, s[..k]).depth >= st.depth
  }

  ghost predicate Neutral(s: string, n: nat) {
    forall d :: Keeps(Scan(d, false, false), s, n)
  }

  lemma {:induction false} KeepsConcat(st: Scan, s: string, t: string, m: nat, n: nat)
    requires Keeps(st, s, m) && Keeps(st, t, n)
    ensures Keeps(st, s + t, Max(m, n))
  {
    RunConcat(st, s, t);
    PeakConcat(st, s, t);
    forall k | 0 <= k <= |s + t|
      ensures Run(st, (s + t)[..k]).depth >= st.depth
    {
      if k <= |s| {
        assert (s + t)[..k] == s[..k];
      } else {
        assert (s + t)[..k] == s + t[..k - |s|];
        RunConcat(st, s, t[..k - |s|]);
      }
    }
  }

  lemma {:induction false} NeutralConcat(s: string, t: string, m: nat, n: nat)
    requires Neutral(s, m) && Neutral(t, n)
    ensures Neutral(s + t, Max(m, n))
  {
    forall d { KeepsConcat(Scan(d, false, false), s, t, m, n); }
  }

  lemma {:induction false} KeepsPlain(st: Scan, s: string)
    requires !st.escape && forall c | c in s :: c != '"' && c != '\\' && c != '{' && c != '}'
    ensures Keeps(st, s, 0)
  {
    if s != "" {
      assert s[0] in s && forall c | c in s[1..] :: c in s;
      KeepsPlain(st, s[1..]);
      assert Step(st, s[0]) == st;
      forall k | 0 <= k <= |s|
        ensures Run(st, s[..k]).depth >= st.depth
      {
        if k > 0 { assert s[..k][1..] == s[1..][..k - 1]; }
      }
    }
  }

  lemma {:induction false} NeutralPlain(s: string)
    requires forall c | c in s :: c != '"' && c != '\\' && c != '{' && c != '}'
    ensures Neutral(s, 0)
  {
    forall d { KeepsPlain(Scan(d, false, false), s); }
  }

  /** Wrapping in a pair of characters that enter and leave a deeper or quoted state. */
  lemma {:induction false} KeepsWrapped(st: Scan, inner: Scan, open: char, s: string, close: char, n: nat)
    requires Step(st, open) == inner && Keeps(inner, s, n) && Step(inner, close) == st
    requires inner.depth >= st.depth
    ensures Keeps(st, [open] + s + [close], n + inner.depth - st.depth)
  {
    var w := [open] + s + [close];
    RunConcat(inner, s, [close]);
    PeakConcat(inner, s, [close]);
    assert w[1..] == s + [close];
    assert [close][1..] == "";
    assert Peak(inner, [close]) == inner.depth;
    forall k | 0 <= k <= |w|
      ensures Run(st, w[..k]).depth >= st.depth
    {
      if k == 0 {
      } else if k <= |s| + 1 {
        assert w[..k][0] == open && w[..k][1..] == s[..k - 1];
      } else {
        assert w[..k] == w;
      }
    }
  }

  lemma {:induction false} KeepsChars(d: int, chars: seq<StrChar>)
    requires StrOk(chars)
    ensures Keeps(Scan(d, true, false), CharsText(chars), 0)
  {
    var st := Scan(d, true, false);
    if chars != [] {
      assert StrCharOk(chars[0]);
      KeepsStrChar(d, chars[0]);
      KeepsChars(d, chars[1..]);
      KeepsConcat(st, StrCharText(chars[0]), CharsText(chars[1..]), 0, 0);
    }
  }

  lemma {:induction false} KeepsStrChar(d: int, x: StrChar)
    requires StrCharOk(x)
    ensures Keeps(Scan(d, true, false), StrCharText(x), 0)
  {
    var st := Scan(d, true, false);
    match x
    case Unescaped(c) =>
      KeepsOne(st, c);
    case Escaped(c) =>
      KeepsEscape(st, c);
    case Unicode(hex) =>
      KeepsEscape(st, 'u');
      KeepsPlain(st, hex);
      KeepsConcat(st, "\\u", hex, 0, 0);
  }

  lemma {:induction false} KeepsOne(st: Scan, c: char)
    requires Step(st, c) == st
    ensures Keeps(st, [c], 0)
  {
    assert [c][1..] == "";
    assert forall k | 0 <= k <= 1 :: [c][..k] == if k == 0 then "" else [c];
  }

  lemma {:induction false} KeepsEscape(st: Scan, c: char)
    requires st.inString && !st.escape
    ensures Keeps(st, ['\\', c], 0)
  {
    var s := ['\\', c];
    assert s[1..] == [c] && [c][1..] == "";
    var escaped := st.(escape := true);
    assert Run(escaped, [c]) == Run(st, "") && Peak(escaped, [c]) == st.depth;
    assert s[..0] == "" && s[..1] == ['\\'] && s[..2] == s && ['\\'][1..] == "";
    assert Run(st, ['\\']) == Run(escaped, "");
  }

  lemma {:induction false} NeutralString(chars: seq<StrChar>)
    requires StrOk(chars)
    ensures Neutral(StrText(chars), 0)
  {
    forall d
      ensures Keeps(Scan(d, false, false), StrText(chars), 0)
    {
      KeepsChars(d, chars);
      KeepsWrapped(Scan(d, false, false), Scan(d, true, false), '"', CharsText(chars), '"', 0);
    }
  }

  lemma {:induction false} NeutralBraces(s: string, n: nat)
    requires Neutral(s, n)
    ensures Neutral("{" + s + "}", n + 1)
  {
    forall d
      ensures Keeps(Scan(d, false, false), "{" + s + "}", n + 1)
    {
      KeepsWrapped(Scan(d, false, false), Scan(d + 1, false, false), '{', s, '}', n);
    }
  }

  lemma {:induction false} NeutralBrackets(s: string, n: nat)
    requires Neutral(s, n)
    ensures Neutral("[" + s + "]", n)
  {
    NeutralPlain("[");
    NeutralPlain("]");
    NeutralConcat("[", s, 0, n);
    NeutralConcat("[" + s, "]", n, 0);
  }

  lemma {:induction false} NeutralNumber(v: Value)
    requires v.Number? && ValueOk(v)
    ensures Neutral(Text(v), 0)
  {
    NeutralPlain(if v.minus then "-" else "");
    NeutralPlain(v.whole);
    assert v.frac != "" ==> v.frac == [v.frac[0]] + v.frac[1..];
    NeutralPlain(v.frac);
    assert v.exp != "" ==> v.exp == [v.exp[0]] + v.exp[1..];
    assert 1 < |v.exp| ==> v.exp == [v.exp[0], v.exp[1]] + v.exp[2..];
    NeutralPlain(v.exp);
    NeutralConcat(if v.minus then "-" else "", v.whole, 0, 0);
    NeutralConcat((if v.minus then "-" else "") + v.whole, v.frac, 0, 0);
    NeutralConcat((if v.minus then "-" else "") + v.whole + v.frac, v.exp, 0, 0);
  }

  lemma {:induction false} NeutralWs(s: string)
    requires IsWs(s)
    ensures Neutral(s, 0)
  {
    NeutralPlain(s);
  }

  lemma {:induction false} NeutralBetween(a: string, b: string, c: string, n: nat)
    requires Neutral(a, 0) && Neutral(b, n) && Neutral(c, 0)
    ensures Neutral(a + b + c, n)
  {
    NeutralConcat(a, b, 0, n);
    NeutralConcat(a + b, c, n, 0);
  }

  /** How deep objects are nested in a value. */
  function Nesting(v: Value): nat {
    match v
    case Array(items) => ItemsNesting(items)
    case EmptyObject(_) => 1
    case Object(members) => MembersNesting(members) + 1
    case _ => 0
  }

  function ItemsNesting(it: Items): nat {
    Max(Nesting(it.v), if it.rest.None? then 0 else ItemsNesting(it.rest.value))
  }

  function MembersNesting(m: Members): nat {
    Max(Nesting(m.v), if m.rest.None? then 0 else MembersNesting(m.rest.value))
  }

  /** Every JSON value is passed over: braces and quotes balance, none closes too early, and the depth goes
    * up by exactly the nesting of objects. */
  lemma {:induction false} NeutralValue(v: Value)
    requires ValueOk(v)
    ensures Neutral(Text(v), Nesting(v))
  {
    match v
    case Null => NeutralPlain("null");
    case True => NeutralPlain("true");
    case False => NeutralPlain("false");
    case Number(_, _, _, _) => NeutralNumber(v);
    case String(chars) => NeutralString(chars);
    case EmptyArray(ws) => NeutralWs(ws); NeutralBrackets(ws, 0);
    case Array(items) => NeutralItems(items); NeutralBrackets(ItemsText(items), ItemsNesting(items));
    case EmptyObject(ws) => NeutralWs(ws); NeutralBraces(ws, 0);
    case Object(members) => NeutralMembers(members); NeutralBraces(MembersText(members), MembersNesting(members));
  }

  lemma {:induction false} NeutralItems(it: Items)
    requires ItemsOk(it)
    ensures Neutral(ItemsText(it), ItemsNesting(it))
  {
    NeutralWs(it.before);
    NeutralValue(it.v);
    NeutralWs(it.after);
    NeutralBetween(it.before, Text(it.v), it.after, Nesting(it.v));
    var rest := if it.rest.None? then "" else "," + ItemsText(it.rest.value);
    var n := if it.rest.None? then 0 else ItemsNesting(it.rest.value);
    NeutralPlain("");
    if it.rest.Some? {
      NeutralItems(it.rest.value);
      NeutralPlain(",");
      NeutralConcat(",", ItemsText(it.rest.value), 0, n);
    }
    NeutralConcat(it.before + Text(it.v) + it.after, rest, Nesting(it.v), n);
  }

  lemma {:induction false} NeutralMember(m: Members)
    requires Neutral(Text(m.v), Nesting(m.v)) && MembersOk(m)
    ensures Neutral(m.before + StrText(m.key) + m.colonBefore + ":" + m.colonAfter + Text(m.v) + m.after, Nesting(m.v))
  {
    NeutralWs(m.before);
    NeutralString(m.key);
    NeutralWs(m.colonBefore);
    NeutralPlain(":");
    NeutralWs(m.colonAfter);
    NeutralWs(m.after);
    var key := m.before + StrText(m.key) + m.colonBefore;
    NeutralBetween(m.before, StrText(m.key), m.colonBefore, 0);
    NeutralBetween(key, ":", m.colonAfter, 0);
    NeutralBetween(key + ":" + m.colonAfter, Text(m.v), m.after, Nesting(m.v));
  }

  lemma {:induction false} NeutralMembers(m: Members)
    requires MembersOk(m)
    ensures Neutral(MembersText(m), MembersNesting(m))
  {
    NeutralValue(m.v);
    NeutralMember(m);
    var rest := if m.rest.None? then "" else "," + MembersText(m.rest.value);
    var n := if m.rest.None? then 0 else MembersNesting(m.rest.value);
    NeutralPlain("");
    if m.rest.Some? {
      NeutralMembers(m.rest.value);
      NeutralPlain(",");
      NeutralConcat(",", MembersText(m.rest.value), 0, n);
    }
    NeutralConcat(m.before + StrText(m.key) + m.colonBefore + ":" + m.colonAfter + Text(m.v) + m.after, rest,
                  Nesting(m.v), n);
  }

  // ----- the detector is exact on objects -----

  /** The detector never fires on a complete JSON text. */
  lemma {:induction false} CompleteJson(s: string)
    requires IsJson(s)
    ensures !Incomplete(s)
  {
    var before, v, after :| IsWs(before) && ValueOk(v) && IsWs(after) && s == before + Text(v) + after;
    NeutralWs(before);
    NeutralValue(v);
    NeutralWs(after);
    NeutralBetween(before, Text(v), after, Nesting(v));
    assert Keeps(START, s, Nesting(v));
  }

  /** Inside the braces the depth is at least one; behind them the scan is back at its start. */
  lemma {:induction false} CutBraces(body: string, n: nat, k: nat)
    requires Neutral(body, n) && 0 < k <= |body| + 2
    ensures var st := Run(START, ("{" + body + "}")[..k]);
            if k < |body| + 2 then st.depth >= 1 else st == START
  {
    var text := "{" + body + "}";
    if k < |text| {
      var st := Scan(1, false, false);
      assert text[..k] == "{" + body[..k - 1];
      RunConcat(START, "{", body[..k - 1]);
      assert "{"[1..] == "";
      assert Run(START, "{") == st;
      assert Keeps(st, body, n);
    } else {
      NeutralBraces(body, n);
      assert text[..k] == text;
      assert Keeps(START, text, n + 1);
    }
  }

  lemma {:induction false} ObjectBody(v: Value) returns (body: string, n: nat)
    requires ValueOk(v) && IsObject(v)
    ensures Text(v) == "{" + body + "}" && Neutral(body, n)
  {
    if v.EmptyObject? {
      body, n := v.ws, 0;
      NeutralWs(v.ws);
    } else {
      body, n := MembersText(v.members), MembersNesting(v.members);
      NeutralMembers(v.members);
    }
  }

  /** In a proper prefix of an object the depth is between one and the nesting of the object. */
  lemma {:induction false} CutDepth(v: Value, k: nat)
    requires ValueOk(v) && IsObject(v) && 0 < k <= |Text(v)|
    ensures var st := Run(START, Text(v)[..k]);
            if k < |Text(v)| then 1 <= st.depth <= Nesting(v) else st == START
  {
    var body, n := ObjectBody(v);
    CutBraces(body, n, k);
    NeutralValue(v);
    assert Keeps(START, Text(v), Nesting(v));
    PeakBounds(START, Text(v), k);
  }

  /** The detector says of every non-empty prefix of an object whether it is cut. */
  ghost predicate ExactOn(v: Value) {
    forall k | 0 < k <= |Text(v)| :: Incomplete(Text(v)[..k]) <==> k < |Text(v)|
  }

  lemma {:induction false} ShallowExact(v: Value, k: nat)
    requires ValueOk(v) && IsObject(v) && 0 < k <= |Text(v)| && Nesting(v) < I32_LIMIT
    ensures Incomplete(Text(v)[..k]) <==> k < |Text(v)|
  {
    hide Run, Text, Nesting, ValueOk, IsObject;
    CutDepth(v, k);
  }

  /** The brace with which the counter wraps around. */
  lemma {:induction false} DeepPrefix(s: string, n: nat) returns (k: nat)
    requires Keeps(START, s, n) && n >= I32_LIMIT
    ensures 0 < k <= |s| && Run(START, s[..k]) == Scan(I32_LIMIT, false, Run(START, s[..k]).escape)
  {
    k := Climb(START, s, I32_LIMIT);
    assert s[..0] == "";
  }

  lemma {:induction false} DeepInexact(v: Value) returns (k: nat)
    requires ValueOk(v) && IsObject(v) && Nesting(v) >= I32_LIMIT
    ensures 0 < k < |Text(v)| && !Incomplete(Text(v)[..k])
  {
    hide Text, Nesting, ValueOk, IsObject, Run, Keeps;
    NeutralValue(v);
    KeepsAtStart(Text(v), Nesting(v));
    k := DeepPrefix(Text(v), Nesting(v));
    CutDepth(v, k);
  }

  lemma {:induction false} KeepsAtStart(s: string, n: nat)
    requires Neutral(s, n)
    ensures Keeps(START, s, n)
  {
  }

  /** It does so exactly for the objects nested less than 2^31 deep: at that depth the counter wraps
    * around. */
  lemma {:induction false} DetectorExact(v: Value)
    requires ValueOk(v) && IsObject(v)
    ensures ExactOn(v) <==> Nesting(v) < I32_LIMIT
  {
    hide Text, Nesting, ValueOk, IsObject, Incomplete;
    if Nesting(v) < I32_LIMIT {
      forall k | 0 < k <= |Text(v)| { ShallowExact(v, k); }
    } else {
      var k := DeepInexact(v);
    }
  }

  /** An object shorter than 2^31 characters cannot be nested as deep. */
  lemma {:induction false} CutObject(v: Value, k: nat)
    requires ValueOk(v) && IsObject(v) && 0 < k <= |Text(v)|
    ensures Nesting(v) < I32_LIMIT || |Text(v)| < I32_LIMIT ==> (Incomplete(Text(v)[..k]) <==> k < |Text(v)|)
  {
    DetectorExact(v);
    NeutralValue(v);
    hide Text, Nesting, ValueOk, IsObject, Incomplete;
    assert Keeps(START, Text(v), Nesting(v));
    PeakLength(START, Text(v));
  }

  lemma {:induction false} PeakLength(st: Scan, s: string)
    ensures Peak(st, s) <= st.depth + |s|
    decreases |s|
  {
    if s != "" { PeakLength(Step(st, s[0]), s[1..]); }
  }

  // ----- trimming and the width of the counter -----

  lemma {:induction false} SpacesKeepVerdict(st: Scan, s: string)
    requires AllSpace(s)
    ensures Run(st, s).depth == st.depth && Run(st, s).inString == st.inString
    ensures !st.escape ==> Run(st, s) == st
    decreases |s|
  {
    if s != "" {
      assert s[0] in s;
      SpacesKeepVerdict(Step(st, s[0]), s[1..]);
    }
  }

  /** Surrounding white space makes no difference. */
  lemma TrimKeepsVerdict(line: string)
    ensures Incomplete(Trim(line)) <==> Incomplete(line)
  {
    var a, b := TrimSplit(line);
    RunConcat(START, a + Trim(line), b);
    RunConcat(START, a, Trim(line));
    SpacesKeepVerdict(START, a);
    SpacesKeepVerdict(Run(START, Trim(line)), b);
  }

  lemma {:induction false} DepthBound(st: Scan, s: string)
    ensures st.depth - |s| <= Run(st, s).depth <= st.depth + |s|
    decreases |s|
  {
    if s != "" { DepthBound(Step(st, s[0]), s[1..]); }
  }

  lemma WrapStep(n: int, delta: int)
    ensures WrapI32(WrapI32(n) + delta) == WrapI32(n + delta)
  {
  }

  lemma RunLast(line: string, i: nat)
    requires i < |line|
    ensures Run(START, line[..i + 1]) == Step(Run(START, line[..i]), line[i])
  {
    RunConcat(START, line[..i], [line[i]]);
    assert line[..i + 1] == line[..i] + [line[i]];
    assert [line[i]][1..] == "";
  }

  method LooksIncomplete(line: string) returns (yes: bool)
    ensures yes <==> Incomplete(line)
  {
    var depth := 0;
    var inString, escape := false, false;
    for i := 0 to |line|
      invariant var st := Run(START, line[..i]);
                depth == WrapI32(st.depth) && inString == st.inString && escape == st.escape
    {
      var ch := line[i];
      RunLast(line, i);
      WrapStep(Run(START, line[..i]).depth, 1);
      WrapStep(Run(START, line[..i]).depth, -1);
      if escape {
        escape := false;
        continue;
      }
      if ch == '\\' && inString {
        escape := true;
      } else if ch == '"' {
        inString := !inString;
      } else if ch == '{' && !inString {
        depth := WrapI32(depth + 1);
      } else if ch == '}' && !inString {
        depth := WrapI32(depth - 1);
      }
    }
    assert line[..|line|] == line;
    yes := depth > 0 || inString;
  }
}
