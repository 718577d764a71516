/** Extraction of announced tools from `<tools_changed_notice>` blocks. */
module Notices {
  import opened Wrappers
  import opened Chars

  const OPEN := "<tools_changed_notice>"
  const CLOSE := "</tools_changed_notice>"
  const PREFIX := "New tools available:"
  const MCP := "mcp__"

  // ----- blocks -----

  /** From offset `i` on: where the piece behind the leftmost open tag starts and, at the first close tag
    * behind it, ends. */
  function FirstPiece(s: string, i: nat, open: string, close: string): (r: Option<(nat, nat)>)
    ensures r.Some? ==> i + |open| <= r.value.0 <= r.value.1 <= |s| - |close|
  {
    var start := FindFrom(s, open, i);
    if start.None? then None
    else
      var end := FindFrom(s, close, start.value + |open|);
      if end.None? then None else Some((start.value + |open|, end.value))
  }

  /** From offset `i` on, the pieces between an open and a close tag, left to right, up to the first open
    * tag that is never closed. */
  function Between(s: string, i: nat, open: string, close: string): seq<string>
    requires open != "" && close != ""
    decreases |s| - i
  {
    var piece := FirstPiece(s, i, open, close);
    if piece.None? then []
    else [s[piece.value.0..piece.value.1]] + Between(s, piece.value.1 + |close|, open, close)
  }

  /** The block bodies of a text. */
  function Blocks(s: string): seq<string> {
    Between(s, 0, OPEN, CLOSE)
  }

  lemma PieceShift(s: string, i: nat, j: nat, open: string, close: string)
    requires i <= |s|
    ensures var p, q := FirstPiece(s[i..], j, open, close), FirstPiece(s, i + j, open, close);
            q == if p.None? then None else Some((i + p.value.0, i + p.value.1))
  {
    FindShift(s, open, i, j);
    var start := FindFrom(s[i..], open, j);
    if start.Some? { FindShift(s, close, i, start.value + |open|); }
  }

  /** Scanning on from an offset is scanning the text behind it. */
  lemma {:induction false} BetweenShift(s: string, i: nat, j: nat, open: string, close: string)
    requires open != "" && close != "" && i <= |s|
    ensures Between(s[i..], j, open, close) == Between(s, i + j, open, close)
    decreases |s| - j
  {
    hide FirstPiece, FindFrom;
    PieceShift(s, i, j, open, close);
    var p := FirstPiece(s[i..], j, open, close);
    if p.Some? {
      assert s[i..][p.value.0..p.value.1] == s[i + p.value.0..i + p.value.1];
      BetweenShift(s, i, p.value.1 + |close|, open, close);
    }
  }

  /** The iterator over the blocks of `content`. */
  class Scanner {
    const content: string
    var searchStart: nat

    ghost predicate Valid()
      reads this
    {
      searchStart <= |content|
    }

    constructor (content: string)
      ensures Valid() && this.content == content && searchStart == 0
    {
      this.content := content;
      searchStart := 0;
    }

    /** Yields the next piece between the tags; once there is none, every later call says so again. */
    method NextBetween(open: string, close: string) returns (piece: Option<string>)
      requires Valid() && open != "" && close != ""
      modifies this
      ensures Valid()
      ensures var todo := Between(content, old(searchStart), open, close);
              if todo == [] then piece == None && searchStart == old(searchStart)
              else piece == Some(todo[0]) && searchStart > old(searchStart)
                   && Between(content, searchStart, open, close) == todo[1..]
    {
      hide FindFrom;
      FindShift(content, open, searchStart, 0);
      var openAt := Find(content[searchStart..], open);
      if openAt.None? {
        return None;
      }
      var blockStart := searchStart + openAt.value + |open|;
      FindShift(content, close, blockStart, 0);
      var closeAt := Find(content[blockStart..], close);
      if closeAt.None? {
        return None;
      }
      var blockEnd := blockStart + closeAt.value;
      searchStart := blockEnd + |close|;
      return Some(content[blockStart..blockEnd]);
    }

    method Next() returns (block: Option<string>)
      requires Valid()
      modifies this
      ensures Valid()
      ensures var todo := Between(content, old(searchStart), OPEN, CLOSE);
              if todo == [] then block == None && searchStart == old(searchStart)
              else block == Some(todo[0]) && searchStart > old(searchStart)
                   && Between(content, searchStart, OPEN, CLOSE) == todo[1..]
    {
      block := NextBetween(OPEN, CLOSE);
    }
  }

  /** A stretch of text and the block behind it. */
  datatype Part = Part(text: string, body: string)

  function Assemble(parts: seq<Part>, tail: string): string {
    if parts == [] then tail
    else parts[0].text + OPEN + parts[0].body + CLOSE + Assemble(parts[1..], tail)
  }

  function Bodies(parts: seq<Part>): seq<string> {
    seq(|parts|, i requires 0 <= i < |parts| => parts[i].body)
  }

  ghost predicate PartsOk(parts: seq<Part>) {
    forall p | p in parts :: Free(p.text, OPEN) && Free(p.body, CLOSE)
  }

  /** No open tag, or one that is never closed. */
  predicate TailOk(tail: string) {
    var open := Find(tail, OPEN);
    open.Some? ==> Find(tail[open.value + |OPEN|..], CLOSE).None?
  }

  lemma TagsHaveNoBorder()
    ensures NoBorder(OPEN) && NoBorder(CLOSE)
  {
  }

  lemma {:induction false} OneBetween(text: string, body: string, more: string, open: string, close: string)
    requires NoBorder(open) && NoBorder(close) && Free(text, open) && Free(body, close)
    ensures Between(text + open + (body + close + more), 0, open, close) == [body] + Between(more, 0, open, close)
  {
    hide FindFrom, FirstPiece;
    var tail := body + close + more;
    var s := text + open + tail;
    OnePiece(text, body, more, open, close);
    var n := |text + open + body + close|;
    assert s[|text + open|..|text + open + body|] == body && s[n..] == more;
    BetweenShift(s, n, 0, open, close);
  }

  lemma OnePiece(text: string, body: string, more: string, open: string, close: string)
    requires NoBorder(open) && NoBorder(close) && Free(text, open) && Free(body, close)
    ensures FirstPiece(text + open + (body + close + more), 0, open, close)
         == Some((|text + open|, |text + open + body|))
  {
    hide FindFrom, Free, NoBorder;
    var tail := body + close + more;
    FindBehind(text, open, tail);
    FindBehind(body, close, more);
    Cut(text, open, tail);
    FindShift(text + open + tail, close, |text + open|, 0);
  }

  lemma OneBlock(text: string, body: string, more: string)
    requires Free(text, OPEN) && Free(body, CLOSE)
    ensures Blocks(text + OPEN + (body + CLOSE + more)) == [body] + Blocks(more)
  {
    TagsHaveNoBorder();
    OneBetween(text, body, more, OPEN, CLOSE);
  }

  lemma {:induction false} AssembleStep(p: Part, parts: seq<Part>, tail: string)
    ensures Assemble([p] + parts, tail) == p.text + OPEN + (p.body + CLOSE + Assemble(parts, tail))
    ensures Bodies([p] + parts) == [p.body] + Bodies(parts)
  {
    var more := Assemble(parts, tail);
    assert ([p] + parts)[0] == p && ([p] + parts)[1..] == parts;
    Regroup(p.text + OPEN, p.body, CLOSE, more);
  }

  lemma Regroup(a: string, b: string, c: string, d: string)
    ensures a + b + c + d == a + (b + c + d)
  {
  }

  /** The scanner returns exactly the bodies that were put in, because neither tag can arise across the
    * seam between a text and the tag behind it. */
  lemma {:induction false} ScanAssembled(parts: seq<Part>, tail: string)
    requires PartsOk(parts) && TailOk(tail)
    ensures Blocks(Assemble(parts, tail)) == Bodies(parts)
  {
    if parts == [] {
      var open := Find(tail, OPEN);
      if open.Some? { FindShift(tail, CLOSE, open.value + |OPEN|, 0); }
    } else {
      var p, rest := parts[0], parts[1..];
      assert parts == [p] + rest && p in parts;
      ScanAssembled(rest, tail);
      AssembleStep(p, rest, tail);
      OneBlock(p.text, p.body, Assemble(rest, tail));
    }
  }

  /** Conversely every text has such a reading, so the blocks found are disjoint, in order, and each
    * starts behind the leftmost open tag that was left. */
  lemma {:induction false} Reading(s: string) returns (parts: seq<Part>, tail: string)
    ensures s == Assemble(parts, tail) && PartsOk(parts) && TailOk(tail) && Blocks(s) == Bodies(parts)
    decreases |s|
  {
    var p, more := FirstPart(s);
    if p.None? {
      parts, tail := [], s;
    } else {
      parts, tail := Reading(more);
      AssembleStep(p.value, parts, tail);
      OneBlock(p.value.text, p.value.body, more);
      parts := [p.value] + parts;
    }
  }

  lemma FirstPart(s: string) returns (p: Option<Part>, more: string)
    ensures p.None? ==> TailOk(s) && Blocks(s) == []
    ensures p.Some? ==> |more| < |s| && Free(p.value.text, OPEN) && Free(p.value.body, CLOSE)
                        && s == p.value.text + OPEN + (p.value.body + CLOSE + more)
  {
    p, more := FirstBetween(s, OPEN, CLOSE);
  }

  lemma FirstBetween(s: string, open: string, close: string) returns (p: Option<Part>, more: string)
    requires open != "" && close != ""
    ensures p.None? ==> Between(s, 0, open, close) == []
                        && (Find(s, open).Some? ==> Find(s[Find(s, open).value + |open|..], close).None?)
    ensures p.Some? ==> |more| < |s| && Free(p.value.text, open) && Free(p.value.body, close)
                        && s == p.value.text + open + (p.value.body + close + more)
  {
    hide FindFrom;
    p, more := None, "";
    var start := Find(s, open);
    if start.Some? {
      var rest := s[start.value + |open|..];
      FindShift(s, close, start.value + |open|, 0);
      var end := Find(rest, close);
      if end.Some? {
        FreePrefix(s, open, start.value);
        FreePrefix(rest, close, end.value);
        more := rest[end.value + |close|..];
        p := Some(Part(s[..start.value], rest[..end.value]));
        assert rest == p.value.body + close + more;
        assert s == p.value.text + open + rest;
      }
    }
  }

  // ----- the lines of a block -----

  /** Cuts at line feeds, dropping them, one carriage return before each, and an empty last line. */
  function Lines(s: string): seq<string>
    decreases |s|
  {
    if s == "" then []
    else
      var eol := Find(s, "\n");
      if eol.None? then [s] else [DropCr(s[..eol.value])] + Lines(s[eol.value + 1..])
  }

  function DropCr(s: string): string {
    if s != "" && s[|s| - 1] == '\r' then s[..|s| - 1] else s
  }

  /** Cuts at commas. */
  function Split(s: string): seq<string>
    decreases |s|
  {
    var comma := Find(s, ",");
    if comma.None? then [s] else [s[..comma.value]] + Split(s[comma.value + 1..])
  }

  predicate IsNameChar(c: char) {
    'a' <= c <= 'z' || 'A' <= c <= 'Z' || '0' <= c <= '9' || c == '_' || c == '-'
  }

  predicate IsValidToolName(s: string) {
    s != "" && forall c | c in s :: IsNameChar(c)
  }

  /** The valid names among the pieces, trimmed. */
  function ValidNames(pieces: seq<string>): seq<string> {
    if pieces == [] then []
    else (if IsValidToolName(Trim(pieces[0])) then [Trim(pieces[0])] else []) + ValidNames(pieces[1..])
  }

  function LineNames(line: string): seq<string> {
    var trimmed := Trim(line);
    if StartsWith(trimmed, PREFIX) then ValidNames(Split(trimmed[|PREFIX|..])) else []
  }

  function NamesOf(lines: seq<string>): seq<string> {
    if lines == [] then [] else LineNames(lines[0]) + NamesOf(lines[1..])
  }

  lemma {:induction false} ValidNamesConcat(a: seq<string>, b: seq<string>)
    ensures ValidNames(a + b) == ValidNames(a) + ValidNames(b)
  {
    if a == [] {
      assert a + b == b;
    } else {
      assert (a + b)[1..] == a[1..] + b;
      ValidNamesConcat(a[1..], b);
    }
  }

  lemma {:induction false} NamesOfConcat(a: seq<string>, b: seq<string>)
    ensures NamesOf(a + b) == NamesOf(a) + NamesOf(b)
  {
    if a == [] {
      assert a + b == b;
    } else {
      assert (a + b)[1..] == a[1..] + b;
      NamesOfConcat(a[1..], b);
    }
  }

  lemma PushValid(pieces: seq<string>, k: nat)
    requires k < |pieces|
    ensures ValidNames(pieces[..k + 1])
         == ValidNames(pieces[..k]) + if IsValidToolName(Trim(pieces[k])) then [Trim(pieces[k])] else []
  {
    assert pieces[..k + 1] == pieces[..k] + [pieces[k]];
    ValidNamesConcat(pieces[..k], [pieces[k]]);
  }

  lemma PushNames(lines: seq<string>, k: nat)
    requires k < |lines|
    ensures NamesOf(lines[..k + 1]) == NamesOf(lines[..k]) + LineNames(lines[k])
  {
    assert lines[..k + 1] == lines[..k] + [lines[k]];
    NamesOfConcat(lines[..k], [lines[k]]);
  }

  method PushNamesOfPieces(out0: seq<string>, pieces: seq<string>) returns (out: seq<string>)
    ensures out == out0 + ValidNames(pieces)
  {
    out := out0;
    for m := 0 to |pieces|
      invariant out == out0 + ValidNames(pieces[..m])
    {
      PushValid(pieces, m);
      var name := Trim(pieces[m]);
      if name != "" && IsValidToolName(name) {
        out := out + [name];
      }
    }
    assert pieces[..|pieces|] == pieces;
  }

  // ----- the names of a block, told from its text -----

  /** A name of letters, digits, underscores and hyphens. */
  predicate IsName(n: string) {
    n != "" && forall c | c in n ::
      'a' <= c <= 'z' || 'A' <= c <= 'Z' || '0' <= c <= '9' || c == '_' || c == '-'
  }

  /** `n` stands between commas behind the announcement that a line starts with, white space left aside. */
  ghost predicate LineAnnounces(line: string, n: string) {
    && IsName(n) && StartsWith(Trim(line), "New tools available:")
    && exists piece :: piece in Split(Trim(line)[20..]) && Trim(piece) == n
  }

  ghost predicate Announces(block: string, n: string) {
    exists line :: line in Lines(block) && LineAnnounces(line, n)
  }

  /** The pieces between the commas of a text. */
  predicate ArePieces(pieces: seq<string>, s: string) {
    if pieces == [] then false
    else if |pieces| == 1 then s == pieces[0] && ',' !in s
    else ',' !in pieces[0] && StartsWith(s, pieces[0] + ",") && ArePieces(pieces[1..], s[|pieces[0]| + 1..])
  }

  /** The lines of a text, each ended by a line feed with or without a carriage return, the last one perhaps
    * by neither. */
  predicate AreLines(lines: seq<string>, s: string) {
    if lines == [] then s == ""
    else
      var l := lines[0];
      && '\n' !in l
      && ((|lines| == 1 && l != "" && s == l)
          || (StartsWith(s, l + "\r\n") && AreLines(lines[1..], s[|l| + 2..]))
          || (StartsWith(s, l + "\n") && (l == "" || l[|l| - 1] != '\r') && AreLines(lines[1..], s[|l| + 1..])))
  }

  lemma {:induction false} FindChar(s: string, pat: string)
    requires |pat| == 1
    ensures var k := Find(s, pat);
            if k.None? then pat[0] !in s else k.value < |s| && s[k.value] == pat[0] && pat[0] !in s[..k.value]
  {
    FindFromLeftmost(s, pat, 0);
    var k := Find(s, pat);
    hide FindFrom;
    var n := if k.None? then |s| else k.value;
    forall i | 0 <= i < n
      ensures s[i] != pat[0]
    {
      assert !At(s, pat, i);
      assert s[i..i + 1] == [s[i]] && pat == [pat[0]];
    }
    if k.Some? { assert s[n..n + 1][0] == s[n]; }
  }

  lemma {:induction false} PieceFirst(p: string, more: seq<string>, s: string, rest: string)
    requires ',' !in p && s == p + "," + rest && ArePieces(more, rest)
    ensures ArePieces([p] + more, s)
  {
    assert ([p] + more)[1..] == more;
    assert s[..|p| + 1] == p + "," && s[|p| + 1..] == rest;
  }

  lemma {:induction false} SplitPieces(s: string)
    ensures ArePieces(Split(s), s)
    decreases |s|
  {
    FindChar(s, ",");
    var comma := Find(s, ",");
    hide FindFrom, Find, ArePieces;
    if comma.None? {
      OnePieceOnly(s);
    } else {
      var k := comma.value;
      SplitPieces(s[k + 1..]);
      PieceFirst(s[..k], Split(s[k + 1..]), s, s[k + 1..]);
    }
  }

  lemma {:induction false} OnePieceOnly(s: string)
    requires ',' !in s
    ensures ArePieces([s], s)
  {
  }

  lemma {:induction false} LineFirst(l: string, end: string, more: seq<string>, s: string, rest: string)
    requires '\n' !in l && s == l + end + rest && AreLines(more, rest)
    requires end == "\r\n" || (end == "\n" && (l == "" || l[|l| - 1] != '\r'))
    ensures AreLines([l] + more, s)
  {
    assert ([l] + more)[1..] == more;
    assert s[..|l| + |end|] == l + end && s[|l| + |end|..] == rest;
  }

  lemma {:induction false} LineEnded(s: string, k: nat, more: seq<string>)
    requires k < |s| && s[k] == '\n' && '\n' !in s[..k] && AreLines(more, s[k + 1..])
    ensures AreLines([DropCr(s[..k])] + more, s)
  {
    hide AreLines;
    var l, rest := DropCr(s[..k]), s[k + 1..];
    if l == s[..k] {
      assert s == l + "\n" + rest;
      LineFirst(l, "\n", more, s, rest);
    } else {
      assert s[..k] == l + "\r";
      assert s == l + "\r\n" + rest;
      LineFirst(l, "\r\n", more, s, rest);
    }
  }

  lemma {:induction false} LinesAre(s: string)
    ensures AreLines(Lines(s), s)
    decreases |s|
  {
    if s != "" {
      FindChar(s, "\n");
      var eol := Find(s, "\n");
      hide FindFrom, Find, AreLines;
      if eol.None? {
        LastLine(s);
      } else {
        LinesAre(s[eol.value + 1..]);
        LineEnded(s, eol.value, Lines(s[eol.value + 1..]));
      }
    }
  }

  lemma {:induction false} LastLine(s: string)
    requires s != "" && '\n' !in s
    ensures AreLines([s], s)
  {
  }

  lemma {:induction false} ValidNamesAre(pieces: seq<string>, n: string)
    ensures n in ValidNames(pieces) <==> IsName(n) && exists piece :: piece in pieces && Trim(piece) == n
  {
    if pieces != [] {
      hide Trim;
      ValidNamesAre(pieces[1..], n);
      assert pieces == [pieces[0]] + pieces[1..];
    }
  }

  lemma {:induction false} NamesAre(lines: seq<string>, n: string)
    ensures n in NamesOf(lines) <==> exists line :: line in lines && LineAnnounces(line, n)
  {
    if lines != [] {
      NamesAre(lines[1..], n);
      LineNamesAre(lines[0], n);
      assert lines == [lines[0]] + lines[1..];
      hide LineAnnounces, LineNames;
    }
  }

  lemma {:induction false} LineNamesAre(line: string, n: string)
    ensures n in LineNames(line) <==> LineAnnounces(line, n)
  {
    hide Trim, ValidNames, Split, IsName;
    if StartsWith(Trim(line), PREFIX) { ValidNamesAre(Split(Trim(line)[|PREFIX|..]), n); }
  }

  method ParseNewToolsLine(block: string) returns (out: seq<string>)
    ensures out == NamesOf(Lines(block))
    ensures forall n :: n in out <==> Announces(block, n)
    ensures AreLines(Lines(block), block)
  {
    LinesAre(block);
    forall n { NamesAre(Lines(block), n); }
    out := [];
    var lines := Lines(block);
    for k := 0 to |lines|
      invariant out == NamesOf(lines[..k])
    {
      PushNames(lines, k);
      var trimmed := Trim(lines[k]);
      if StartsWith(trimmed, PREFIX) {
        out := PushNamesOfPieces(out, Split(trimmed[|PREFIX|..]));
      }
    }
    assert lines[..|lines|] == lines;
  }

  // ----- events and sessions -----

  datatype Event = UserMessage(transformedContent: Option<string>) | OtherEvent

  function AsSet(names: seq<string>): set<string> {
    set n | n in names
  }

  predicate IsMcp(name: string) {
    StartsWith(name, MCP)
  }

  function AnnouncedBy(blocks: seq<string>): set<string> {
    if blocks == [] then {} else AsSet(NamesOf(Lines(blocks[0]))) + AnnouncedBy(blocks[1..])
  }

  function LoadedSet(ev: Event): set<string> {
    if ev.OtherEvent? || ev.transformedContent.None? then {}
    else set n | n in AnnouncedBy(Blocks(ev.transformedContent.value)) && IsMcp(n)
  }

  lemma {:induction false} BlockNames(block: string, n: string)
    ensures n in AsSet(NamesOf(Lines(block))) <==> Announces(block, n)
  {
    hide LineAnnounces, NamesOf, Lines;
    NamesAre(Lines(block), n);
  }

  lemma {:induction false} AnnouncedAre(blocks: seq<string>, n: string)
    ensures n in AnnouncedBy(blocks) <==> exists block :: block in blocks && Announces(block, n)
  {
    if blocks != [] {
      hide Announces, NamesOf, Lines;
      AnnouncedAre(blocks[1..], n);
      BlockNames(blocks[0], n);
      assert blocks == [blocks[0]] + blocks[1..];
    }
  }

  lemma {:induction false} LoadedAre(ev: Event, n: string)
    ensures n in LoadedSet(ev) <==>
              && ev.UserMessage? && ev.transformedContent.Some? && StartsWith(n, "mcp__")
              && exists block :: block in Blocks(ev.transformedContent.value) && Announces(block, n)
  {
    hide AnnouncedBy, Announces, Blocks;
    if ev.UserMessage? && ev.transformedContent.Some? { AnnouncedAre(Blocks(ev.transformedContent.value), n); }
  }

  function SessionSet(events: seq<Event>): set<string> {
    if events == [] then {} else SessionSet(events[..|events| - 1]) + LoadedSet(events[|events| - 1])
  }

  method ExtractFromEvent(ev: Event) returns (acc: set<string>)
    ensures acc == LoadedSet(ev)
    ensures forall n :: n in acc <==>
              && ev.UserMessage? && ev.transformedContent.Some? && StartsWith(n, "mcp__")
              && exists block :: block in Blocks(ev.transformedContent.value) && Announces(block, n)
  {
    forall n { LoadedAre(ev, n); }
    acc := {};
    if ev.OtherEvent? || ev.transformedContent.None? {
      return;
    }
    var content := ev.transformedContent.value;
    var scanner := new Scanner(content);
    var more := true;
    while more
      invariant scanner.Valid() && scanner.content == content
      invariant AnnouncedBy(Blocks(content))
             == acc + AnnouncedBy(Between(content, scanner.searchStart, OPEN, CLOSE))
      invariant !more ==> Between(content, scanner.searchStart, OPEN, CLOSE) == []
      decreases more, |content| - scanner.searchStart
    {
      ghost var todo := Between(content, scanner.searchStart, OPEN, CLOSE);
      var block := scanner.Next();
      more := block.Some?;
      if more {
        assert AnnouncedBy(todo) == AsSet(NamesOf(Lines(todo[0]))) + AnnouncedBy(todo[1..]);
        var names := ParseNewToolsLine(block.value);
        acc := acc + AsSet(names);
      }
    }
    acc := set n | n in acc && IsMcp(n);
  }

  method ExtractFromSession(events: seq<Event>) returns (acc: set<string>)
    ensures acc == SessionSet(events)
  {
    acc := {};
    for k := 0 to |events|
      invariant acc == SessionSet(events[..k])
    {
      assert events[..k + 1][..k] == events[..k];
      var more := ExtractFromEvent(events[k]);
      acc := acc + more;
    }
    assert events[..|events|] == events;
  }

  /** The set only ever grows: no later event, and no removal notice, takes a name out again. */
  lemma {:induction false} SessionGrows(events: seq<Event>, more: seq<Event>)
    ensures SessionSet(events + more) == SessionSet(events) + SessionSet(more)
    decreases |more|
  {
    if more == [] {
      assert events + more == events;
    } else {
      assert (events + more)[..|events + more| - 1] == events + more[..|more| - 1];
      SessionGrows(events, more[..|more| - 1]);
    }
  }

  // ----- printed notices are read back -----

  /** A line of a notice: an announcement, or anything else, such as a removal. */
  datatype Entry = New(names: seq<string>) | Note(text: string)

  datatype Notice = Notice(text: string, entries: seq<Entry>)

  predicate EntryOk(e: Entry) {
    match e
    case New(names) => forall n | n in names :: IsValidToolName(n)
    case Note(text) => '\n' !in text && '\r' !in text && !StartsWith(Trim(text), PREFIX)
  }

  function Listed(names: seq<string>): string {
    if names == [] then ""
    else if |names| == 1 then " " + names[0]
    else " " + names[0] + "," + Listed(names[1..])
  }

  function EntryLine(e: Entry): string {
    match e
    case New(names) => PREFIX + if names == [] then " " else Listed(names)
    case Note(text) => text
  }

  function EntryLines(es: seq<Entry>): string {
    if es == [] then "" else EntryLine(es[0]) + "\n" + EntryLines(es[1..])
  }

  function PrintBody(es: seq<Entry>): string {
    "" + "\n" + EntryLines(es)
  }

  function EntryNames(e: Entry): seq<string> {
    if e.New? then e.names else []
  }

  function AllNames(es: seq<Entry>): seq<string> {
    if es == [] then [] else EntryNames(es[0]) + AllNames(es[1..])
  }

  function Padded(names: seq<string>): seq<string> {
    seq(|names|, i requires 0 <= i < |names| => " " + names[i])
  }

  lemma FreeOfChar(s: string, pat: string)
    requires pat != "" && pat[0] !in s
    ensures Free(s, pat)
  {
    forall i: nat
      ensures !At(s, pat, i)
    {
      if i + |pat| <= |s| { assert s[i..i + |pat|][0] == s[i]; }
    }
  }

  lemma NamePlain(n: string, c: char)
    requires IsValidToolName(n) && !IsNameChar(c)
    ensures c !in n
  {
  }

  lemma {:induction false} SplitBehind(piece: string, rest: string)
    requires ',' !in piece
    ensures Split(piece + "," + rest) == [piece] + Split(rest)
    ensures Split(piece) == [piece]
  {
    FreeOfChar(piece, ",");
    FindNothing(piece, ",");
    FindBehind(piece, ",", rest);
    Cut(piece, ",", rest);
  }

  lemma PaddedStep(names: seq<string>)
    requires names != []
    ensures Padded(names) == [" " + names[0]] + Padded(names[1..])
  {
  }

  lemma {:induction false} SplitListed(names: seq<string>)
    requires names != [] && forall n | n in names :: IsValidToolName(n)
    ensures Split(Listed(names)) == Padded(names)
  {
    var piece, rest := " " + names[0], names[1..];
    assert names[0] in names;
    NamePlain(names[0], ',');
    PaddedStep(names);
    if |names| == 1 {
      SplitBehind(piece, "");
      assert Padded(rest) == [];
    } else {
      SplitListed(rest);
      SplitBehind(piece, Listed(rest));
    }
  }

  lemma {:induction false} NamesOfPadded(names: seq<string>)
    requires forall n | n in names :: IsValidToolName(n)
    ensures ValidNames(Padded(names)) == names
  {
    if names != [] {
      var n := names[0];
      assert n in names && n[0] in n && n[|n| - 1] in n;
      TrimCore(" ", n, "");
      assert " " + n + "" == " " + n;
      NamesOfPadded(names[1..]);
      assert Padded(names)[1..] == Padded(names[1..]);
    }
  }

  lemma {:induction false} ListedEnd(names: seq<string>)
    requires names != [] && forall n | n in names :: IsValidToolName(n)
    ensures Listed(names) != "" && IsNameChar(Listed(names)[|Listed(names)| - 1])
    ensures forall c | c in Listed(names) :: IsNameChar(c) || c == ',' || c == ' '
  {
    var n := names[0];
    assert n in names && n[|n| - 1] in n;
    if |names| > 1 { ListedEnd(names[1..]); }
  }

  lemma EmptyLineRoundTrip()
    ensures LineNames(EntryLine(New([]))) == []
  {
    TrimCore("", PREFIX, " ");
    assert "" + PREFIX + " " == EntryLine(New([]));
    assert PREFIX[|PREFIX|..] == "";
    assert Split("") == [""] && [""][1..] == [] && Trim("") == "";
    assert ValidNames([""]) == [];
  }

  lemma PrefixLine(listed: string)
    requires listed != "" && !IsSpace(listed[|listed| - 1])
    ensures Trim(PREFIX + listed) == PREFIX + listed
    ensures StartsWith(PREFIX + listed, PREFIX) && (PREFIX + listed)[|PREFIX|..] == listed
  {
    TrimCore("", PREFIX + listed, "");
    assert "" + (PREFIX + listed) + "" == PREFIX + listed;
  }

  /** An announcement line is read back as its names, whatever their number. */
  lemma LineRoundTrip(names: seq<string>)
    requires forall n | n in names :: IsValidToolName(n)
    ensures LineNames(EntryLine(New(names))) == names
  {
    if names == [] {
      EmptyLineRoundTrip();
    } else {
      ListedEnd(names);
      PrefixLine(Listed(names));
      SplitListed(names);
      NamesOfPadded(names);
    }
  }

  lemma {:induction false} LineBehind(l: string, more: string)
    requires '\n' !in l && '\r' !in l
    ensures Lines(l + "\n" + more) == [l] + Lines(more)
  {
    FreeOfChar(l, "\n");
    FindBehind(l, "\n", more);
    Cut(l, "\n", more);
    assert l != "" ==> l[|l| - 1] in l;
  }

  lemma PlainLine(listed: string)
    requires forall c | c in listed :: IsNameChar(c) || c == ',' || c == ' '
    ensures forall c | c in PREFIX + listed :: IsNameChar(c) || c == ',' || c == ' ' || c == ':'
  {
  }

  lemma EntryLinePlain(e: Entry)
    requires EntryOk(e)
    ensures '\n' !in EntryLine(e) && '\r' !in EntryLine(e)
  {
    if e.New? {
      if e.names != [] { ListedEnd(e.names); }
      PlainLine(if e.names == [] then " " else Listed(e.names));
    }
  }

  lemma EntryRoundTrip(e: Entry)
    requires EntryOk(e)
    ensures LineNames(EntryLine(e)) == EntryNames(e)
  {
    if e.New? { LineRoundTrip(e.names); }
  }

  lemma {:induction false} LinesRoundTrip(es: seq<Entry>)
    requires forall e | e in es :: EntryOk(e)
    ensures NamesOf(Lines(EntryLines(es))) == AllNames(es)
  {
    if es != [] {
      assert es[0] in es;
      EntryLinePlain(es[0]);
      EntryRoundTrip(es[0]);
      LineBehind(EntryLine(es[0]), EntryLines(es[1..]));
      LinesRoundTrip(es[1..]);
      NamesOfConcat([EntryLine(es[0])], Lines(EntryLines(es[1..])));
    }
  }

  lemma {:induction false} BodyRoundTrip(es: seq<Entry>)
    requires forall e | e in es :: EntryOk(e)
    ensures NamesOf(Lines(PrintBody(es))) == AllNames(es)
  {
    LinesRoundTrip(es);
    LineBehind("", EntryLines(es));
    assert LineNames("") == [];
    NamesOfConcat([""], Lines(EntryLines(es)));
  }

  ghost predicate NoticeOk(n: Notice) {
    && Free(n.text, OPEN)
    && (forall e | e in n.entries :: EntryOk(e))
    && Free(PrintBody(n.entries), CLOSE)
  }

  /** A notice of announcements alone cannot contain a close tag. */
  lemma {:induction false} AnnouncementsNeedNoCare(es: seq<Entry>)
    requires forall e | e in es :: e.New? && EntryOk(e)
    ensures Free(PrintBody(es), CLOSE)
  {
    NoAngle(es);
    FreeOfChar(PrintBody(es), CLOSE);
  }

  lemma NoAngleLine(e: Entry)
    requires e.New? && EntryOk(e)
    ensures '<' !in EntryLine(e)
  {
    if e.names != [] { ListedEnd(e.names); }
    PlainLine(if e.names == [] then " " else Listed(e.names));
  }

  lemma {:induction false} NoAngle(es: seq<Entry>)
    requires forall e | e in es :: e.New? && EntryOk(e)
    ensures '<' !in EntryLines(es)
  {
    if es != [] {
      assert es[0] in es;
      NoAngleLine(es[0]);
      NoAngle(es[1..]);
    }
  }

  function PartsOf(ns: seq<Notice>): seq<Part> {
    seq(|ns|, i requires 0 <= i < |ns| => Part(ns[i].text, PrintBody(ns[i].entries)))
  }

  function NamesIn(ns: seq<Notice>): set<string> {
    if ns == [] then {} else AsSet(AllNames(ns[0].entries)) + NamesIn(ns[1..])
  }

  lemma {:induction false} AnnouncedInNotices(ns: seq<Notice>)
    requires forall n | n in ns :: NoticeOk(n)
    ensures AnnouncedBy(Bodies(PartsOf(ns))) == NamesIn(ns)
  {
    if ns != [] {
      assert ns[0] in ns;
      BodyRoundTrip(ns[0].entries);
      AnnouncedInNotices(ns[1..]);
      var bodies := Bodies(PartsOf(ns));
      assert bodies[0] == PrintBody(ns[0].entries) && bodies[1..] == Bodies(PartsOf(ns[1..]));
    }
  }

  /** The extraction round trip: from any run of printed notices with other text between them, exactly
    * the announced `mcp__` names come back. */
  lemma {:induction false} ExtractionRoundTrip(ns: seq<Notice>, tail: string)
    requires (forall n | n in ns :: NoticeOk(n)) && TailOk(tail)
    ensures LoadedSet(UserMessage(Some(Assemble(PartsOf(ns), tail)))) == set n | n in NamesIn(ns) && IsMcp(n)
  {
    assert forall i | 0 <= i < |ns| :: ns[i] in ns;
    ScanAssembled(PartsOf(ns), tail);
    AnnouncedInNotices(ns);
  }
}
