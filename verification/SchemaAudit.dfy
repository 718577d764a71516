/** The schema audit: a raw pass over the same lines, its re-alignment with the typed pass, and the
  * classification of what was found. */
module SchemaAudit {
  import opened Wrappers
  import opened Chars
  import opened JsonText
  import opened TailDetector
  import opened EventParser

  /** A decoded JSON value: its `type` field when that is a string, and its redacted form. */
  datatype RawValue = RawValue(typeField: Option<string>, redacted: string)

  /** A raw line with its number, counted from 1. */
  datatype RawLine = RawLine(lineNo: nat, value: RawValue)

  type RawDecoder = string -> Option<RawValue>

  // ----- the raw pass -----

  function RawAt(line: LineRead, i: nat, raw: RawDecoder): Option<RawLine> {
    if line.IoFailure? || Trim(line.text) == "" then None
    else
      var v := raw(Trim(line.text));
      if v.Some? then Some(RawLine(i + 1, v.value)) else None
  }

  function Push<T>(s: seq<T>, o: Option<T>): seq<T> {
    if o.Some? then s + [o.value] else s
  }

  function RawLines(lines: seq<LineRead>, n: nat, raw: RawDecoder): seq<RawLine>
    requires n <= |lines|
  {
    if n == 0 then [] else Push(RawLines(lines, n - 1, raw), RawAt(lines[n - 1], n - 1, raw))
  }

  /** A raw line is the decoded text of the line with its number. */
  predicate IsRawOf(r: RawLine, lines: seq<LineRead>, raw: RawDecoder) {
    && 1 <= r.lineNo <= |lines| && HasText(lines[r.lineNo - 1])
    && raw(Trim(lines[r.lineNo - 1].text)) == Some(r.value)
  }

  /** The raw lines are exactly those, in the order of the file. */
  ghost predicate IsRawPass(rs: seq<RawLine>, lines: seq<LineRead>, raw: RawDecoder) {
    && (forall r | r in rs :: IsRawOf(r, lines, raw))
    && (forall i | 0 <= i < |lines| && HasText(lines[i]) && raw(Trim(lines[i].text)).Some? ::
          RawLine(i + 1, raw(Trim(lines[i].text)).value) in rs)
    && (forall j, k | 0 <= j < k < |rs| :: rs[j].lineNo < rs[k].lineNo)
  }

  lemma {:induction false} RawPassIs(lines: seq<LineRead>, raw: RawDecoder)
    ensures IsRawPass(RawLines(lines, |lines|, raw), lines, raw)
  {
    RawLinesAre(lines, |lines|, raw);
    var rs := RawLines(lines, |lines|, raw);
    hide RawLines, HasText, Trim;
    forall i | 0 <= i < |lines| && HasText(lines[i]) && raw(Trim(lines[i].text)).Some?
      ensures RawLine(i + 1, raw(Trim(lines[i].text)).value) in rs
    {
      assert IsRawOf(RawLine(i + 1, raw(Trim(lines[i].text)).value), lines, raw);
    }
  }

  lemma {:induction false} RawLinesAre(lines: seq<LineRead>, n: nat, raw: RawDecoder)
    requires n <= |lines|
    ensures forall r :: r in RawLines(lines, n, raw) <==> r.lineNo <= n && IsRawOf(r, lines, raw)
    ensures forall j, k | 0 <= j < k < |RawLines(lines, n, raw)| ::
              RawLines(lines, n, raw)[j].lineNo < RawLines(lines, n, raw)[k].lineNo
  {
    if n > 0 {
      RawLinesAre(lines, n - 1, raw);
      var before := RawLines(lines, n - 1, raw);
      assert forall j | 0 <= j < |before| :: before[j] in before;
    }
  }

  method ReadRawLines(lines: seq<LineRead>, raw: RawDecoder) returns (r: Result<seq<RawLine>, string>)
    ensures r.Ok? <==> forall l | l in lines :: l.Line?
    ensures r.Ok? ==> r.value == RawLines(lines, |lines|, raw)
    ensures r.Ok? ==> IsRawPass(r.value, lines, raw)
  {
    hide IsRawPass;
    RawPassIs(lines, raw);
    var out: seq<RawLine> := [];
    for idx := 0 to |lines|
      invariant out == RawLines(lines, idx, raw)
      invariant forall k | 0 <= k < idx :: lines[k].Line?
    {
      if lines[idx].IoFailure? {
        assert lines[idx] in lines;
        return Err(lines[idx].error);
      }
      var trimmed := Trim(lines[idx].text);
      if trimmed == "" {
        continue;
      }
      var v := raw(trimmed);
      if v.Some? {
        out := out + [RawLine(idx + 1, v.value)];
      }
    }
    return Ok(out);
  }

  // ----- alignment -----

  function BadLines(warnings: seq<Warning>): set<nat> {
    set w | w in warnings && NamesLine(w) :: LineOf(w)
  }

  function WithoutLines(raws: seq<RawLine>, bad: set<nat>): seq<RawLine> {
    if raws == [] then []
    else
      var last := raws[|raws| - 1];
      WithoutLines(raws[..|raws| - 1], bad)
      + if (if last.lineNo == 0 then 0 else last.lineNo - 1) in bad then [] else [last]
  }

  function AlignedRawLines(raws: seq<RawLine>, warnings: seq<Warning>): seq<RawLine> {
    WithoutLines(raws, BadLines(warnings))
  }

  /** Pairs up two lists, dropping what the longer one has more. */
  function Zip<A, B>(a: seq<A>, b: seq<B>): seq<(A, B)> {
    seq(if |a| < |b| then |a| else |b|, i requires 0 <= i < |a| && i < |b| => (a[i], b[i]))
  }

  /** What is taken for granted about the two decoders: the raw one accepts only JSON texts, and a
    * line that decodes to an event is JSON. */
  ghost predicate DecodersSound(typed: Decoder, raw: RawDecoder) {
    && (forall s :: raw(s).Some? ==> IsJson(s))
    && (forall s :: typed(s).Ok? ==> raw(Trim(s)).Some?)
  }

  function MatchAt(lines: seq<LineRead>, i: nat, live: bool, typed: Decoder, raw: RawDecoder): Option<(RawLine, Event)>
    requires i < |lines|
  {
    var fate, r := FateOf(lines, i, live, typed), RawAt(lines[i], i, raw);
    if fate.Good? && r.Some? then Some((r.value, fate.event)) else None
  }

  /** The lines that are events, each with its raw form and its event. */
  function Matched(lines: seq<LineRead>, n: nat, live: bool, typed: Decoder, raw: RawDecoder): seq<(RawLine, Event)>
    requires n <= |lines|
  {
    if n == 0 then []
    else Push(Matched(lines, n - 1, live, typed, raw), MatchAt(lines, n - 1, live, typed, raw))
  }

  function Firsts<A, B>(ps: seq<(A, B)>): seq<A> {
    seq(|ps|, i requires 0 <= i < |ps| => ps[i].0)
  }

  function Seconds<A, B>(ps: seq<(A, B)>): seq<B> {
    seq(|ps|, i requires 0 <= i < |ps| => ps[i].1)
  }

  lemma ZipParts<A, B>(ps: seq<(A, B)>)
    ensures Zip(Firsts(ps), Seconds(ps)) == ps
  {
  }

  lemma {:induction false} WithoutLast(raws: seq<RawLine>, r: RawLine, bad: set<nat>)
    requires r.lineNo > 0
    ensures WithoutLines(raws + [r], bad) == WithoutLines(raws, bad) + if r.lineNo - 1 in bad then [] else [r]
  {
    assert (raws + [r])[..|raws + [r]| - 1] == raws;
  }

  lemma {:induction false} EventsMatched(lines: seq<LineRead>, n: nat, live: bool, typed: Decoder, raw: RawDecoder)
    requires DecodersSound(typed, raw) && n <= |lines|
    ensures Events(lines, n, live, typed) == Seconds(Matched(lines, n, live, typed, raw))
  {
    if n > 0 {
      EventsMatched(lines, n - 1, live, typed, raw);
      var m := MatchAt(lines, n - 1, live, typed, raw);
      if m.Some? { PushFirsts(Matched(lines, n - 1, live, typed, raw), m.value); }
    }
  }

  /** A line that the raw pass kept and the typed pass did not warn about is an event: the only other
    * way to leave no warning is to be taken for cut off, and no JSON text is. */
  lemma RawKeptIsGood(lines: seq<LineRead>, i: nat, live: bool, typed: Decoder, raw: RawDecoder)
    requires DecodersSound(typed, raw) && i < |lines| && RawAt(lines[i], i, raw).Some?
    ensures FateOf(lines, i, live, typed).Good? || FateOf(lines, i, live, typed).Warned?
  {
    CompleteJson(Trim(lines[i].text));
    TrimKeepsVerdict(lines[i].text);
  }

  lemma PushFirsts<A, B>(ps: seq<(A, B)>, p: (A, B))
    ensures Firsts(ps + [p]) == Firsts(ps) + [p.0] && Seconds(ps + [p]) == Seconds(ps) + [p.1]
  {
  }

  /** On one line, the filtered raw pass keeps what the matching keeps. */
  ghost predicate LineAgrees(lines: seq<LineRead>, i: nat, live: bool, typed: Decoder, raw: RawDecoder, bad: set<nat>)
    requires i < |lines|
  {
    var r, m := RawAt(lines[i], i, raw), MatchAt(lines, i, live, typed, raw);
    && (m.Some? <==> r.Some? && i !in bad)
    && (r.Some? ==> r.value.lineNo == i + 1)
    && (m.Some? ==> m.value.0 == r.value)
  }

  lemma LinesAgree(lines: seq<LineRead>, live: bool, typed: Decoder, raw: RawDecoder, bad: set<nat>)
    requires DecodersSound(typed, raw)
    requires forall i | 0 <= i < |lines| :: i in bad <==> FateOf(lines, i, live, typed).Warned?
    ensures forall i | 0 <= i < |lines| :: LineAgrees(lines, i, live, typed, raw, bad)
  {
    forall i | 0 <= i < |lines|
      ensures LineAgrees(lines, i, live, typed, raw, bad)
    {
      if RawAt(lines[i], i, raw).Some? { RawKeptIsGood(lines, i, live, typed, raw); }
    }
  }

  lemma {:induction false} PushAgrees(raws: seq<RawLine>, r: Option<RawLine>, bad: set<nat>,
                                      ps: seq<(RawLine, Event)>, m: Option<(RawLine, Event)>)
    requires WithoutLines(raws, bad) == Firsts(ps)
    requires r.Some? ==> r.value.lineNo > 0
    requires m.Some? <==> r.Some? && r.value.lineNo - 1 !in bad
    requires m.Some? ==> m.value.0 == r.value
    ensures WithoutLines(Push(raws, r), bad) == Firsts(Push(ps, m))
  {
    if r.Some? { WithoutLast(raws, r.value, bad); }
    if m.Some? { PushFirsts(ps, m.value); }
  }

  lemma {:induction false} RawMatched(lines: seq<LineRead>, n: nat, live: bool, typed: Decoder, raw: RawDecoder,
                                      bad: set<nat>)
    requires n <= |lines| && forall i | 0 <= i < n :: LineAgrees(lines, i, live, typed, raw, bad)
    ensures WithoutLines(RawLines(lines, n, raw), bad) == Firsts(Matched(lines, n, live, typed, raw))
  {
    if n > 0 {
      RawMatched(lines, n - 1, live, typed, raw, bad);
      assert LineAgrees(lines, n - 1, live, typed, raw, bad);
      PushAgrees(RawLines(lines, n - 1, raw), RawAt(lines[n - 1], n - 1, raw), bad,
                 Matched(lines, n - 1, live, typed, raw), MatchAt(lines, n - 1, live, typed, raw));
    }
  }

  lemma {:induction false} BadLinesExact(lines: seq<LineRead>, live: bool, typed: Decoder, warnings: seq<Warning>)
    requires warnings == LineWarnings(lines, |lines|, live, typed)
          || warnings == LineWarnings(lines, |lines|, live, typed) + [OutOfOrder]
    ensures forall i | 0 <= i < |lines| :: i in BadLines(warnings) <==> FateOf(lines, i, live, typed).Warned?
  {
    var ws := LineWarnings(lines, |lines|, live, typed);
    WarningsNamed(lines, |lines|, live, typed);
    forall i | 0 <= i < |lines|
      ensures i in BadLines(warnings) <==> FateOf(lines, i, live, typed).Warned?
    {
      if FateOf(lines, i, live, typed).Warned? {
        var w := FateOf(lines, i, live, typed).warning;
        WarningsComplete(lines, |lines|, i, live, typed);
        assert w in ws && w in warnings && LineOf(w) == i;
      }
      if i in BadLines(warnings) {
        var w :| w in warnings && NamesLine(w) && LineOf(w) == i;
        assert w in ws;
      }
    }
  }

  /** The alignment theorem. For every file and both settings of the live flag, zipping the aligned
    * raw lines with the typed events pairs every event with the raw form of its own line, and drops
    * nothing on either side. */
  lemma {:induction false} AlignmentExact(lines: seq<LineRead>, live: bool, typed: Decoder, raw: RawDecoder)
    requires DecodersSound(typed, raw) && ParseSpec(lines, live, typed).Ok?
    ensures var s := ParseSpec(lines, live, typed).value;
            var aligned := AlignedRawLines(RawLines(lines, |lines|, raw), s.warnings);
            && |aligned| == |s.events|
            && Zip(aligned, s.events) == Matched(lines, |lines|, live, typed, raw)
  {
    var s := ParseSpec(lines, live, typed).value;
    BadLinesExact(lines, live, typed, s.warnings);
    LinesAgree(lines, live, typed, raw, BadLines(s.warnings));
    RawMatched(lines, |lines|, live, typed, raw, BadLines(s.warnings));
    EventsMatched(lines, |lines|, live, typed, raw);
    ZipParts(Matched(lines, |lines|, live, typed, raw));
  }

  ghost predicate PairsInLineOrder(ps: seq<(RawLine, Event)>) {
    forall j, k | 0 <= j < k < |ps| :: ps[j].0.lineNo < ps[k].0.lineNo
  }

  /** Each matched pair comes from one line: the decoders agree on it. */
  lemma {:induction false} MatchedFromLines(lines: seq<LineRead>, n: nat, live: bool, typed: Decoder, raw: RawDecoder)
    requires n <= |lines|
    ensures forall p | p in Matched(lines, n, live, typed, raw) ::
              && 1 <= p.0.lineNo <= n && lines[p.0.lineNo - 1].Line?
              && typed(lines[p.0.lineNo - 1].text) == Ok(p.1)
              && raw(Trim(lines[p.0.lineNo - 1].text)) == Some(p.0.value)
    ensures PairsInLineOrder(Matched(lines, n, live, typed, raw))
  {
    if n > 0 {
      hide Trim, Incomplete, PairsInLineOrder;
      MatchedFromLines(lines, n - 1, live, typed, raw);
      var before, m := Matched(lines, n - 1, live, typed, raw), MatchAt(lines, n - 1, live, typed, raw);
      if m.Some? { OrderPush(before, m.value); }
    }
  }

  lemma {:induction false} OrderPush(ps: seq<(RawLine, Event)>, p: (RawLine, Event))
    requires PairsInLineOrder(ps) && forall q | q in ps :: q.0.lineNo < p.0.lineNo
    ensures PairsInLineOrder(ps + [p])
  {
    assert forall k | 0 <= k < |ps| :: ps[k] in ps;
  }

  // ----- classification -----

  /** One scanned session: both views of its file. */
  datatype Audit = Audit(id: string, raws: seq<RawLine>, session: Session)

  /** An event with the session and the raw value it is filed under. */
  datatype Item = Item(id: string, value: RawValue, event: Event)

  datatype Group = Group(count: nat, samples: seq<string>, example: Option<string>)

  datatype Classification =
    Classification(sessionCount: nat, eventCount: nat, kinds: map<string, nat>, unknown: map<string, Group>)

  const SAMPLES_PER_UNKNOWN := 2

  function TypeOf(v: RawValue): string {
    if v.typeField.Some? then v.typeField.value else "(no type field)"
  }

  /** An unrecognised event is filed under its own `type` field, and under the fallback without one. */
  predicate FiledUnder(v: RawValue, t: string) {
    v.typeField == Some(t) || (v.typeField == None && t == "(no type field)")
  }

  lemma {:induction false} TypeOfFiles(v: RawValue, t: string)
    ensures TypeOf(v) == t <==> FiledUnder(v, t)
  {
  }

  function ItemOf(id: string, p: (RawLine, Event)): Item {
    Item(id, p.0.value, p.1)
  }

  function ItemsOf(a: Audit): seq<Item> {
    var ps := Zip(AlignedRawLines(a.raws, a.session.warnings), a.session.events);
    seq(|ps|, i requires 0 <= i < |ps| => ItemOf(a.id, ps[i]))
  }

  function AllItems(audits: seq<Audit>, n: nat): seq<Item>
    requires n <= |audits|
  {
    if n == 0 then [] else AllItems(audits, n - 1) + ItemsOf(audits[n - 1])
  }

  function EventTotal(audits: seq<Audit>, n: nat): nat
    requires n <= |audits|
  {
    if n == 0 then 0 else EventTotal(audits, n - 1) + |audits[n - 1].session.events|
  }

  /** The events of one kind, in order. */
  function OfKind(items: seq<Item>, kind: string): seq<Item> {
    if items == [] then []
    else
      var last := items[|items| - 1];
      OfKind(items[..|items| - 1], kind) + if last.event.Kind() == kind then [last] else []
  }

  /** The unrecognised events whose own line has the given `type`, in order. */
  function OfType(items: seq<Item>, t: string): seq<Item> {
    if items == [] then []
    else
      var last := items[|items| - 1];
      OfType(items[..|items| - 1], t) + if last.event.Unknown? && FiledUnder(last.value, t) then [last] else []
  }

  /** The group that the items `us` of one unknown type make. */
  function GroupOf(us: seq<Item>): Group {
    var kept := if |us| < SAMPLES_PER_UNKNOWN then |us| else SAMPLES_PER_UNKNOWN;
    Group(|us|, seq(kept, i requires 0 <= i < |us| => us[i].value.redacted),
          if us == [] then None else Some(us[0].id))
  }

  /** Every kind that occurs is counted, with its exact count. */
  ghost predicate KindsFiled(kinds: map<string, nat>, items: seq<Item>) {
    && (forall k :: k in kinds <==> OfKind(items, k) != [])
    && (forall k | k in kinds :: kinds[k] == |OfKind(items, k)|)
  }

  /** Every unrecognised type that occurs has its group, made of exactly its own items. */
  ghost predicate TypesFiled(unknown: map<string, Group>, items: seq<Item>) {
    && (forall t :: t in unknown <==> OfType(items, t) != [])
    && (forall t | t in unknown :: unknown[t] == GroupOf(OfType(items, t)))
  }

  /** How many items are unrecognised events with the type field `t`, or without one if `t` stands for that. */
  function CountOf(items: seq<Item>, t: string): nat {
    if items == [] then 0
    else
      var last := items[|items| - 1];
      var field := last.value.typeField;
      CountOf(items[..|items| - 1], t)
      + if last.event.Unknown? && (field == Some(t) || (field == None && t == "(no type field)")) then 1 else 0
  }

  /** The groups count exactly that, and keep two samples and the first session at most. */
  ghost predicate GroupsExact(unknown: map<string, Group>, items: seq<Item>) {
    && (forall t :: t in unknown <==> CountOf(items, t) > 0)
    && (forall t | t in unknown ::
          && unknown[t].count == CountOf(items, t)
          && |unknown[t].samples| == (if unknown[t].count < 2 then unknown[t].count else 2)
          && unknown[t].example.Some?)
  }

  function NameOf(e: Event): string {
    if e.SessionStart? then "SessionStart" else if e.Unknown? then "Unknown" else e.name
  }

  lemma {:induction false} KindsNamed(kinds: map<string, nat>, items: seq<Item>)
    requires KindsFiled(kinds, items)
    ensures forall it | it in items :: NameOf(it.event) in kinds
  {
    forall it | it in items { KindOccurs(items, it); }
  }

  lemma {:induction false} CountIsOfType(items: seq<Item>, t: string)
    ensures CountOf(items, t) == |OfType(items, t)|
  {
    if items != [] { CountIsOfType(items[..|items| - 1], t); }
  }

  lemma {:induction false} FiledExactly(unknown: map<string, Group>, items: seq<Item>)
    requires TypesFiled(unknown, items)
    ensures GroupsExact(unknown, items)
  {
    hide OfType, CountOf;
    forall t { CountIsOfType(items, t); }
  }

  lemma NothingFiled()
    ensures KindsFiled(map[], []) && TypesFiled(map[], [])
  {
  }

  lemma {:induction false} KindLast(items: seq<Item>, it: Item, kind: string)
    ensures OfKind(items + [it], kind)
         == if it.event.Kind() == kind then OfKind(items, kind) + [it] else OfKind(items, kind)
  {
    assert (items + [it])[..|items + [it]| - 1] == items;
  }

  lemma {:induction false} TypeLast(items: seq<Item>, it: Item, t: string)
    ensures OfType(items + [it], t)
         == if it.event.Unknown? && FiledUnder(it.value, t) then OfType(items, t) + [it] else OfType(items, t)
  {
    assert (items + [it])[..|items + [it]| - 1] == items;
  }

  method FileKind(kinds: map<string, nat>, it: Item, ghost items: seq<Item>) returns (kinds': map<string, nat>)
    requires KindsFiled(kinds, items)
    ensures KindsFiled(kinds', items + [it])
  {
    forall k { KindLast(items, it, k); }
    var kind := it.event.Kind();
    kinds' := kinds[kind := (if kind in kinds then kinds[kind] else 0) + 1];
  }

  /** Filing an unrecognised event replaces its group and leaves the others. */
  lemma {:induction false} TypesFiledNext(unknown: map<string, Group>, items: seq<Item>, it: Item)
    requires TypesFiled(unknown, items)
    ensures var t := TypeOf(it.value);
            TypesFiled(if it.event.Unknown? then unknown[t := GroupOf(OfType(items, t) + [it])] else unknown,
                       items + [it])
  {
    hide OfType, GroupOf, TypeOf, FiledUnder;
    forall u
      ensures OfType(items + [it], u)
           == if it.event.Unknown? && TypeOf(it.value) == u then OfType(items, u) + [it] else OfType(items, u)
    {
      TypeLast(items, it, u);
      TypeOfFiles(it.value, u);
    }
  }

  lemma {:induction false} FiledGroup(unknown: map<string, Group>, items: seq<Item>, t: string)
    requires TypesFiled(unknown, items)
    ensures GroupOf(OfType(items, t)) == if t in unknown then unknown[t] else Group(0, [], None)
  {
    hide OfType;
  }

  method FileUnknown(unknown: map<string, Group>, it: Item, ghost items: seq<Item>)
    returns (unknown': map<string, Group>)
    requires TypesFiled(unknown, items)
    ensures TypesFiled(unknown', items + [it])
  {
    hide TypesFiled, OfType, GroupOf, TypeOf;
    TypesFiledNext(unknown, items, it);
    unknown' := unknown;
    if it.event.Unknown? {
      var t := TypeOf(it.value);
      FiledGroup(unknown, items, t);
      GroupGrows(OfType(items, t), it);
      var group := if t in unknown then unknown[t] else Group(0, [], None);
      group := group.(count := group.count + 1);
      if group.example.None? {
        group := group.(example := Some(it.id));
      }
      if |group.samples| < SAMPLES_PER_UNKNOWN {
        group := group.(samples := group.samples + [it.value.redacted]);
      }
      unknown' := unknown[t := group];
    }
  }

  lemma GroupGrows(us: seq<Item>, it: Item)
    ensures var g, g' := GroupOf(us), GroupOf(us + [it]);
            && g'.count == g.count + 1
            && g'.example == (if g.example.None? then Some(it.id) else g.example)
            && g'.samples == (if |g.samples| < SAMPLES_PER_UNKNOWN then g.samples + [it.value.redacted] else g.samples)
    ensures GroupOf([]) == Group(0, [], None)
  {
  }

  method ClassifyAudit(a: Audit, kinds0: map<string, nat>, unknown0: map<string, Group>, ghost before: seq<Item>)
    returns (kinds: map<string, nat>, unknown: map<string, Group>)
    requires KindsFiled(kinds0, before) && TypesFiled(unknown0, before)
    ensures KindsFiled(kinds, before + ItemsOf(a)) && TypesFiled(unknown, before + ItemsOf(a))
  {
    hide KindsFiled, TypesFiled;
    kinds, unknown := kinds0, unknown0;
    ghost var items := ItemsOf(a);
    var pairs := Zip(AlignedRawLines(a.raws, a.session.warnings), a.session.events);
    assert before + items[..0] == before;
    for k := 0 to |pairs|
      invariant KindsFiled(kinds, before + items[..k])
      invariant TypesFiled(unknown, before + items[..k])
    {
      var it := ItemOf(a.id, pairs[k]);
      kinds := FileKind(kinds, it, before + items[..k]);
      unknown := FileUnknown(unknown, it, before + items[..k]);
      assert before + items[..k + 1] == before + items[..k] + [it];
    }
    assert items[..|pairs|] == items;
  }

  method Classify(audits: seq<Audit>) returns (c: Classification)
    ensures c.sessionCount == |audits| && c.eventCount == EventTotal(audits, |audits|)
    ensures KindsFiled(c.kinds, AllItems(audits, |audits|))
    ensures TypesFiled(c.unknown, AllItems(audits, |audits|))
    ensures GroupsExact(c.unknown, AllItems(audits, |audits|))
    ensures forall it | it in AllItems(audits, |audits|) :: NameOf(it.event) in c.kinds
  {
    hide KindsFiled, TypesFiled, ItemsOf, GroupsExact;
    NothingFiled();
    var eventCount := 0;
    var kinds: map<string, nat>, unknown: map<string, Group> := map[], map[];
    for n := 0 to |audits|
      invariant eventCount == EventTotal(audits, n)
      invariant KindsFiled(kinds, AllItems(audits, n))
      invariant TypesFiled(unknown, AllItems(audits, n))
    {
      eventCount := eventCount + |audits[n].session.events|;
      kinds, unknown := ClassifyAudit(audits[n], kinds, unknown, AllItems(audits, n));
    }
    FiledExactly(unknown, AllItems(audits, |audits|));
    KindsNamed(kinds, AllItems(audits, |audits|));
    c := Classification(|audits|, eventCount, kinds, unknown);
  }

  // ----- what the classification of scanned files says -----

  /** `a` is what scanning a file gives: the raw and the typed view of the same lines. */
  ghost predicate Scanned(a: Audit, lines: seq<LineRead>, live: bool, typed: Decoder, raw: RawDecoder) {
    && ParseSpec(lines, live, typed) == Ok(a.session)
    && a.raws == RawLines(lines, |lines|, raw)
  }

  /** The zip drops no event of a scanned file. */
  lemma ScannedItems(a: Audit, lines: seq<LineRead>, live: bool, typed: Decoder, raw: RawDecoder)
    requires DecodersSound(typed, raw) && Scanned(a, lines, live, typed, raw)
    ensures |ItemsOf(a)| == |a.session.events|
    ensures forall k | 0 <= k < |ItemsOf(a)| :: ItemsOf(a)[k].event == a.session.events[k]
  {
    AlignmentExact(lines, live, typed, raw);
  }

  /** A line that is an unrecognised event and whose own text is filed under `t`. */
  predicate IsUnknownLine(l: LineRead, typed: Decoder, raw: RawDecoder, t: string) {
    && HasText(l) && typed(l.text) == Ok(Unknown)
    && raw(Trim(l.text)).Some? && FiledUnder(raw(Trim(l.text)).value, t)
  }

  /** How many of the first `n` lines are that. */
  function UnknownLines(lines: seq<LineRead>, n: nat, typed: Decoder, raw: RawDecoder, t: string): nat
    requires n <= |lines|
  {
    if n == 0 then 0
    else UnknownLines(lines, n - 1, typed, raw, t) + if IsUnknownLine(lines[n - 1], typed, raw, t) then 1 else 0
  }

  function ItemList(id: string, ps: seq<(RawLine, Event)>): seq<Item> {
    seq(|ps|, i requires 0 <= i < |ps| => ItemOf(id, ps[i]))
  }

  predicate IsUnknownOf(m: Option<(RawLine, Event)>, t: string) {
    m.Some? && m.value.1.Unknown? && FiledUnder(m.value.0.value, t)
  }

  lemma {:induction false} MatchIsLine(lines: seq<LineRead>, i: nat, live: bool, typed: Decoder, raw: RawDecoder,
                                       t: string)
    requires i < |lines|
    ensures IsUnknownOf(MatchAt(lines, i, live, typed, raw), t) <==> IsUnknownLine(lines[i], typed, raw, t)
  {
  }

  lemma {:induction false} UnknownPush(id: string, ps: seq<(RawLine, Event)>, m: Option<(RawLine, Event)>, t: string)
    ensures |OfType(ItemList(id, Push(ps, m)), t)|
         == |OfType(ItemList(id, ps), t)| + if IsUnknownOf(m, t) then 1 else 0
  {
    hide OfType, FiledUnder;
    if m.Some? {
      assert ItemList(id, ps + [m.value]) == ItemList(id, ps) + [ItemOf(id, m.value)];
      TypeLast(ItemList(id, ps), ItemOf(id, m.value), t);
    }
  }

  lemma {:induction false} UnknownByLine(id: string, lines: seq<LineRead>, n: nat, live: bool, typed: Decoder,
                                         raw: RawDecoder, t: string)
    requires n <= |lines|
    ensures |OfType(ItemList(id, Matched(lines, n, live, typed, raw)), t)|
         == UnknownLines(lines, n, typed, raw, t)
  {
    if n > 0 {
      hide RawAt, MatchAt, OfType, FateOf, IsUnknownOf, IsUnknownLine;
      MatchIsLine(lines, n - 1, live, typed, raw, t);
      UnknownByLine(id, lines, n - 1, live, typed, raw, t);
      UnknownPush(id, Matched(lines, n - 1, live, typed, raw), MatchAt(lines, n - 1, live, typed, raw), t);
    }
  }

  lemma {:induction false} OfTypeConcat(a: seq<Item>, b: seq<Item>, t: string)
    ensures OfType(a + b, t) == OfType(a, t) + OfType(b, t)
    decreases |b|
  {
    if b == [] {
      assert a + b == a;
    } else {
      assert (a + b)[..|a + b| - 1] == a + b[..|b| - 1];
      OfTypeConcat(a, b[..|b| - 1], t);
    }
  }

  /** A file to scan. */
  datatype File = File(lines: seq<LineRead>, live: bool)

  ghost predicate AllScanned(audits: seq<Audit>, files: seq<File>, typed: Decoder, raw: RawDecoder) {
    && |audits| == |files|
    && forall i | 0 <= i < |files| :: Scanned(audits[i], files[i].lines, files[i].live, typed, raw)
  }

  lemma {:induction false} UnknownsOfFile(a: Audit, f: File, typed: Decoder, raw: RawDecoder, t: string)
    requires DecodersSound(typed, raw) && Scanned(a, f.lines, f.live, typed, raw)
    ensures |OfType(ItemsOf(a), t)| == UnknownLines(f.lines, |f.lines|, typed, raw, t)
  {
    AlignmentExact(f.lines, f.live, typed, raw);
    UnknownByLine(a.id, f.lines, |f.lines|, f.live, typed, raw, t);
    assert ItemsOf(a) == ItemList(a.id, Matched(f.lines, |f.lines|, f.live, typed, raw));
  }

  function UnknownTotal(files: seq<File>, n: nat, typed: Decoder, raw: RawDecoder, t: string): nat
    requires n <= |files|
  {
    if n == 0 then 0
    else
      var f := files[n - 1];
      UnknownTotal(files, n - 1, typed, raw, t) + UnknownLines(f.lines, |f.lines|, typed, raw, t)
  }

  lemma {:induction false} UnknownsSum(audits: seq<Audit>, files: seq<File>, n: nat, typed: Decoder, raw: RawDecoder,
                                       t: string)
    requires n <= |files| == |audits|
    requires forall i | 0 <= i < n ::
               var f := files[i];
               |OfType(ItemsOf(audits[i]), t)| == UnknownLines(f.lines, |f.lines|, typed, raw, t)
    ensures |OfType(AllItems(audits, n), t)| == UnknownTotal(files, n, typed, raw, t)
  {
    if n > 0 {
      hide OfType, UnknownLines, ItemsOf;
      UnknownsSum(audits, files, n - 1, typed, raw, t);
      OfTypeConcat(AllItems(audits, n - 1), ItemsOf(audits[n - 1]), t);
    }
  }

  /** Over all scanned files, a type's group holds as many events as there are unrecognised lines whose
    * own text has that type: no event is filed under its neighbour's type. */
  lemma {:induction false} UnknownsExact(audits: seq<Audit>, files: seq<File>, typed: Decoder, raw: RawDecoder,
                                         t: string)
    requires DecodersSound(typed, raw) && AllScanned(audits, files, typed, raw)
    ensures |OfType(AllItems(audits, |audits|), t)| == UnknownTotal(files, |files|, typed, raw, t)
  {
    forall i | 0 <= i < |files| { UnknownsOfFile(audits[i], files[i], typed, raw, t); }
    UnknownsSum(audits, files, |files|, typed, raw, t);
  }

  lemma {:induction false} UnknownCounted(lines: seq<LineRead>, n: nat, i: nat, typed: Decoder, raw: RawDecoder,
                                          t: string)
    requires i < n <= |lines| && IsUnknownLine(lines[i], typed, raw, t)
    ensures UnknownLines(lines, n, typed, raw, t) > 0
  {
    if i < n - 1 { UnknownCounted(lines, n - 1, i, typed, raw, t); }
  }

  lemma {:induction false} UnknownInTotal(files: seq<File>, n: nat, k: nat, i: nat, typed: Decoder, raw: RawDecoder,
                                          t: string)
    requires k < n <= |files| && i < |files[k].lines| && IsUnknownLine(files[k].lines[i], typed, raw, t)
    ensures UnknownTotal(files, n, typed, raw, t) > 0
  {
    hide IsUnknownLine;
    if k < n - 1 {
      UnknownInTotal(files, n - 1, k, i, typed, raw, t);
    } else {
      UnknownCounted(files[k].lines, |files[k].lines|, i, typed, raw, t);
    }
  }

  /** Every unrecognised line of every scanned file is in the group of its own type, and that group counts
    * all the lines of that type and nothing else. */
  lemma {:induction false} UnknownFiled(audits: seq<Audit>, files: seq<File>, typed: Decoder, raw: RawDecoder,
                                        unknown: map<string, Group>, k: nat, i: nat, t: string)
    requires DecodersSound(typed, raw) && AllScanned(audits, files, typed, raw)
    requires TypesFiled(unknown, AllItems(audits, |audits|))
    requires k < |files| && i < |files[k].lines| && IsUnknownLine(files[k].lines[i], typed, raw, t)
    ensures t in unknown && unknown[t].count == UnknownTotal(files, |files|, typed, raw, t)
  {
    hide DecodersSound, AllScanned, OfType, IsUnknownLine, UnknownTotal, AllItems;
    UnknownsExact(audits, files, typed, raw, t);
    UnknownInTotal(files, |files|, k, i, typed, raw, t);
  }

  /** Two unrecognised lines with different type fields are in different groups. */
  lemma {:induction false} TypesApart(audits: seq<Audit>, files: seq<File>, typed: Decoder, raw: RawDecoder,
                                      unknown: map<string, Group>, k: nat, i: nat, l: nat, j: nat, t: string, u: string)
    requires DecodersSound(typed, raw) && AllScanned(audits, files, typed, raw)
    requires TypesFiled(unknown, AllItems(audits, |audits|))
    requires k < |files| && i < |files[k].lines| && l < |files| && j < |files[l].lines|
    requires IsUnknownLine(files[k].lines[i], typed, raw, t) && IsUnknownLine(files[l].lines[j], typed, raw, u)
    requires raw(Trim(files[k].lines[i].text)).value.typeField == Some(t)
    requires raw(Trim(files[l].lines[j].text)).value.typeField == Some(u) && t != u
    ensures t in unknown && u in unknown
    ensures !IsUnknownLine(files[k].lines[i], typed, raw, u) && !IsUnknownLine(files[l].lines[j], typed, raw, t)
  {
    hide DecodersSound, AllScanned, TypesFiled;
    UnknownFiled(audits, files, typed, raw, unknown, k, i, t);
    UnknownFiled(audits, files, typed, raw, unknown, l, j, u);
  }

  lemma {:induction false} ItemsSum(audits: seq<Audit>, n: nat)
    requires n <= |audits| && forall i | 0 <= i < n :: |ItemsOf(audits[i])| == |audits[i].session.events|
    ensures |AllItems(audits, n)| == EventTotal(audits, n)
  {
    hide ItemsOf;
    if n > 0 { ItemsSum(audits, n - 1); }
  }

  lemma {:induction false} ItemsTotal(audits: seq<Audit>, files: seq<File>, typed: Decoder, raw: RawDecoder)
    requires DecodersSound(typed, raw) && AllScanned(audits, files, typed, raw)
    ensures |AllItems(audits, |audits|)| == EventTotal(audits, |audits|)
  {
    forall i | 0 <= i < |files|
      ensures |ItemsOf(audits[i])| == |audits[i].session.events|
    {
      assert Scanned(audits[i], files[i].lines, files[i].live, typed, raw);
      ScannedItems(audits[i], files[i].lines, files[i].live, typed, raw);
    }
    ItemsSum(audits, |audits|);
  }

  function SumOver(kinds: map<string, nat>, ks: seq<string>): nat
    requires forall k | k in ks :: k in kinds
  {
    if ks == [] then 0 else kinds[ks[0]] + SumOver(kinds, ks[1..])
  }

  function SumKinds(items: seq<Item>, ks: seq<string>): nat {
    if ks == [] then 0 else |OfKind(items, ks[0])| + SumKinds(items, ks[1..])
  }

  ghost predicate Distinct(ks: seq<string>) {
    forall i, j | 0 <= i < j < |ks| :: ks[i] != ks[j]
  }

  lemma {:induction false} SumKindsLast(items: seq<Item>, it: Item, ks: seq<string>)
    requires Distinct(ks)
    ensures SumKinds(items + [it], ks) == SumKinds(items, ks) + if it.event.Kind() in ks then 1 else 0
  {
    if ks != [] {
      KindLast(items, it, ks[0]);
      SumKindsLast(items, it, ks[1..]);
    }
  }

  lemma {:induction false} SumKindsAll(items: seq<Item>, ks: seq<string>)
    requires Distinct(ks) && forall it | it in items :: it.event.Kind() in ks
    ensures SumKinds(items, ks) == |items|
  {
    if items == [] {
      SumKindsNone(ks);
    } else {
      var front, last := items[..|items| - 1], items[|items| - 1];
      assert items == front + [last] && last in items;
      SumKindsAll(front, ks);
      SumKindsLast(front, last, ks);
    }
  }

  lemma {:induction false} SumKindsNone(ks: seq<string>)
    ensures SumKinds([], ks) == 0
  {
    if ks != [] { SumKindsNone(ks[1..]); }
  }

  lemma {:induction false} SumOverIsSumKinds(kinds: map<string, nat>, items: seq<Item>, ks: seq<string>)
    requires KindsFiled(kinds, items) && forall k | k in ks :: k in kinds
    ensures SumOver(kinds, ks) == SumKinds(items, ks)
  {
    if ks != [] { SumOverIsSumKinds(kinds, items, ks[1..]); }
  }

  lemma {:induction false} KindOccurs(items: seq<Item>, it: Item)
    requires it in items
    ensures OfKind(items, it.event.Kind()) != []
  {
    var front, last := items[..|items| - 1], items[|items| - 1];
    assert items == front + [last];
    if it != last { KindOccurs(front, it); }
  }

  /** The kind counts of scanned files, listed in any order, sum to the number of events. */
  lemma {:induction false} KindCountsSum(audits: seq<Audit>, files: seq<File>, typed: Decoder, raw: RawDecoder,
                      kinds: map<string, nat>, ks: seq<string>)
    requires DecodersSound(typed, raw) && AllScanned(audits, files, typed, raw)
    requires KindsFiled(kinds, AllItems(audits, |audits|))
    requires Distinct(ks) && forall k :: k in ks <==> k in kinds
    ensures SumOver(kinds, ks) == EventTotal(audits, |audits|)
  {
    var items := AllItems(audits, |audits|);
    forall it | it in items
      ensures it.event.Kind() in ks
    {
      KindOccurs(items, it);
    }
    SumKindsAll(items, ks);
    SumOverIsSumKinds(kinds, items, ks);
    ItemsTotal(audits, files, typed, raw);
  }
}
