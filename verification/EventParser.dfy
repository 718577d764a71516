/** The typed pass: `events.jsonl` lines to a session. The typed decoder is a parameter. */
module EventParser {
  import opened Wrappers
  import opened Chars
  import opened JsonText
  import opened TailDetector

  /** What reading one line gives. */
  datatype LineRead = IoFailure(error: string) | Line(text: string)

  datatype StartData =
    StartData(sessionId: string, producer: string, copilotVersion: string, startTime: int, cwd: string,
              repository: Option<string>, branch: Option<string>)

  /** An event: a session start, an event of an unrecognised type, or any other kind. */
  datatype Event =
    | SessionStart(at: int, data: StartData)
    | Unknown
    | Other(name: string, at: int)
  {
    function Kind(): string {
      match this
      case SessionStart(_, _) => "SessionStart"
      case Unknown => "Unknown"
      case Other(name, _) => name
    }

    /** An unrecognised event counts as happening at the epoch. */
    function Timestamp(): int {
      match this
      case SessionStart(at, _) => at
      case Unknown => 0
      case Other(_, at) => at
    }
  }

  datatype Warning = Json(lineNo: nat, error: string) | Io(lineNo: nat, error: string) | OutOfOrder

  datatype Meta =
    Meta(id: string, startedAt: int, isLive: bool, producer: Option<string>, agentVersion: Option<string>,
         cwd: Option<string>, repository: Option<string>, branch: Option<string>)

  datatype Session = Session(meta: Meta, events: seq<Event>, warnings: seq<Warning>)

  datatype AdapterError = MissingSessionStart

  type Decoder = string -> Result<Event, string>

  // ----- the fate of a line -----

  datatype Fate = Blank | Good(event: Event) | Warned(warning: Warning) | Skipped

  function FateOf(lines: seq<LineRead>, i: nat, live: bool, typed: Decoder): Fate
    requires i < |lines|
  {
    match lines[i]
    case IoFailure(error) => Warned(Io(i, error))
    case Line(text) =>
      if Trim(text) == "" then Blank
      else
        match typed(text)
        case Ok(event) => Good(event)
        case Err(error) =>
          if i == |lines| - 1 && live && Incomplete(text) then Skipped else Warned(Json(i, error))
  }

  /** The events and the warnings of the first `n` lines. */
  function Events(lines: seq<LineRead>, n: nat, live: bool, typed: Decoder): seq<Event>
    requires n <= |lines|
  {
    if n == 0 then []
    else
      var fate := FateOf(lines, n - 1, live, typed);
      Events(lines, n - 1, live, typed) + if fate.Good? then [fate.event] else []
  }

  function LineWarnings(lines: seq<LineRead>, n: nat, live: bool, typed: Decoder): seq<Warning>
    requires n <= |lines|
  {
    if n == 0 then []
    else
      var fate := FateOf(lines, n - 1, live, typed);
      LineWarnings(lines, n - 1, live, typed) + if fate.Warned? then [fate.warning] else []
  }

  /** The number of lines with a given kind of fate. */
  function Tally(lines: seq<LineRead>, n: nat, live: bool, typed: Decoder, p: Fate -> bool): nat
    requires n <= |lines|
  {
    if n == 0 then 0
    else Tally(lines, n - 1, live, typed, p) + if p(FateOf(lines, n - 1, live, typed)) then 1 else 0
  }

  /** Nothing is lost and nothing is counted twice: every line is blank, an event, a warning or the
    * skipped last line of a live session. */
  lemma {:induction false} Accounting(lines: seq<LineRead>, n: nat, live: bool, typed: Decoder)
    requires n <= |lines|
    ensures |Events(lines, n, live, typed)| + |LineWarnings(lines, n, live, typed)|
            + Tally(lines, n, live, typed, (f: Fate) => f.Blank?)
            + Tally(lines, n, live, typed, (f: Fate) => f.Skipped?) == n
    ensures Tally(lines, n, live, typed, (f: Fate) => f.Skipped?) <= if live && n == |lines| then 1 else 0
  {
    if n > 0 { Accounting(lines, n - 1, live, typed); }
  }

  predicate NamesLine(w: Warning) {
    w.Json? || w.Io?
  }

  function LineOf(w: Warning): nat {
    if NamesLine(w) then w.lineNo else 0
  }

  ghost predicate InLineOrder(ws: seq<Warning>) {
    forall j, k | 0 <= j < k < |ws| :: LineOf(ws[j]) < LineOf(ws[k])
  }

  /** Warnings name their own lines. */
  lemma {:induction false} WarningsNamed(lines: seq<LineRead>, n: nat, live: bool, typed: Decoder)
    requires n <= |lines|
    ensures forall w | w in LineWarnings(lines, n, live, typed) ::
              NamesLine(w) && LineOf(w) < n && FateOf(lines, LineOf(w), live, typed) == Warned(w)
  {
    if n > 0 { WarningsNamed(lines, n - 1, live, typed); }
  }

  /** Their line numbers strictly increase. */
  lemma {:induction false} WarningsOrdered(lines: seq<LineRead>, n: nat, live: bool, typed: Decoder)
    requires n <= |lines|
    ensures InLineOrder(LineWarnings(lines, n, live, typed))
  {
    if n > 0 {
      hide FateOf, InLineOrder;
      WarningsOrdered(lines, n - 1, live, typed);
      WarningsNamed(lines, n - 1, live, typed);
      var fate := FateOf(lines, n - 1, live, typed);
      if fate.Warned? {
        FateLine(lines, n - 1, live, typed);
        OrderPush(LineWarnings(lines, n - 1, live, typed), fate.warning);
      }
    }
  }

  lemma {:induction false} FateLine(lines: seq<LineRead>, i: nat, live: bool, typed: Decoder)
    requires i < |lines| && FateOf(lines, i, live, typed).Warned?
    ensures LineOf(FateOf(lines, i, live, typed).warning) == i
  {
  }

  lemma {:induction false} OrderPush(ws: seq<Warning>, w: Warning)
    requires InLineOrder(ws) && forall v | v in ws :: LineOf(v) < LineOf(w)
    ensures InLineOrder(ws + [w])
  {
    assert forall k | 0 <= k < |ws| :: ws[k] in ws;
  }

  /** Every line with a complaint has its warning. */
  lemma {:induction false} WarningsComplete(lines: seq<LineRead>, n: nat, i: nat, live: bool, typed: Decoder)
    requires i < n <= |lines| && FateOf(lines, i, live, typed).Warned?
    ensures FateOf(lines, i, live, typed).warning in LineWarnings(lines, n, live, typed)
  {
    if i < n - 1 { WarningsComplete(lines, n - 1, i, live, typed); }
  }

  // ----- order and metadata -----

  predicate Inverted(events: seq<Event>) {
    exists i, j :: 0 <= i < j < |events| && events[j].Timestamp() < events[i].Timestamp()
  }

  method IsMonotonic(events: seq<Event>) returns (yes: bool)
    ensures yes <==> !Inverted(events)
  {
    var prev: Option<int> := None;
    for k := 0 to |events|
      invariant prev.None? <==> k == 0
      invariant prev.Some? ==> prev.value == events[k - 1].Timestamp()
      invariant forall i, j | 0 <= i <= j < k :: events[i].Timestamp() <= events[j].Timestamp()
    {
      var ts := events[k].Timestamp();
      if prev.Some? && ts < prev.value {
        return false;
      }
      prev := Some(ts);
    }
    return true;
  }

  /** The data of the last session start. */
  function LastStart(events: seq<Event>): Option<StartData> {
    if events == [] then None
    else
      var last := events[|events| - 1];
      if last.SessionStart? then Some(last.data) else LastStart(events[..|events| - 1])
  }

  lemma {:induction false} LastStartIsLast(events: seq<Event>)
    ensures LastStart(events).None? <==> forall e | e in events :: !e.SessionStart?
    ensures LastStart(events).Some? ==>
              exists k :: 0 <= k < |events| && events[k].SessionStart? && events[k].data == LastStart(events).value
                          && forall j | k < j < |events| :: !events[j].SessionStart?
  {
    if events != [] {
      var front, last := events[..|events| - 1], events[|events| - 1];
      LastStartIsLast(front);
      assert events == front + [last];
      if last.SessionStart? {
        assert events[|events| - 1].SessionStart?;
      } else if LastStart(front).Some? {
        var k :| 0 <= k < |front| && front[k].SessionStart? && front[k].data == LastStart(front).value
                 && forall j | k < j < |front| :: !front[j].SessionStart?;
        assert events[k] == front[k];
      }
    }
  }

  function MetaOf(d: StartData, live: bool): Meta {
    Meta(d.sessionId, d.startTime, live, Some(d.producer), Some(d.copilotVersion), Some(d.cwd),
         d.repository, d.branch)
  }

  /** Collects the metadata of a session while its events go by. */
  class MetaBuilder {
    var sessionId: Option<string>
    var producer: Option<string>
    var agentVersion: Option<string>
    var startedAt: Option<int>
    var cwd: Option<string>
    var repository: Option<string>
    var branch: Option<string>

    /** The fields hold the data of `last`. */
    ghost predicate Holds(last: Option<StartData>)
      reads this
    {
      match last
      case None =>
        sessionId == None && producer == None && agentVersion == None && startedAt == None && cwd == None
        && repository == None && branch == None
      case Some(d) =>
        sessionId == Some(d.sessionId) && producer == Some(d.producer)
        && agentVersion == Some(d.copilotVersion) && startedAt == Some(d.startTime) && cwd == Some(d.cwd)
        && repository == d.repository && branch == d.branch
    }

    constructor ()
      ensures Holds(None)
    {
      sessionId, producer, agentVersion, startedAt := None, None, None, None;
      cwd, repository, branch := None, None, None;
    }

    method Absorb(event: Event, ghost last: Option<StartData>)
      requires Holds(last)
      modifies this
      ensures Holds(if event.SessionStart? then Some(event.data) else last)
    {
      if event.SessionStart? {
        var d := event.data;
        sessionId := Some(d.sessionId);
        producer := Some(d.producer);
        agentVersion := Some(d.copilotVersion);
        startedAt := Some(d.startTime);
        cwd := Some(d.cwd);
        repository := d.repository;
        branch := d.branch;
      }
    }

    /** The directory name stands in for a missing id, but no session with a start lacks one. */
    method Build(live: bool, dirName: string, ghost last: Option<StartData>) returns (meta: Option<Meta>)
      requires Holds(last)
      ensures meta == if last.None? then None else Some(MetaOf(last.value, live))
    {
      if startedAt.None? {
        return None;
      }
      var id := if sessionId.Some? then sessionId.value else dirName;
      return Some(Meta(id, startedAt.value, live, producer, agentVersion, cwd, repository, branch));
    }
  }

  // ----- the result of a parse, told from the lines -----

  /** A line with something on it. */
  predicate HasText(l: LineRead) {
    l.Line? && Trim(l.text) != ""
  }

  /** The events that the lines decode to. */
  function Decoded(lines: seq<LineRead>, n: nat, typed: Decoder): seq<Event>
    requires n <= |lines|
  {
    if n == 0 then []
    else
      var l := lines[n - 1];
      Decoded(lines, n - 1, typed)
      + if HasText(l) && typed(l.text).Ok? then [typed(l.text).value] else []
  }

  /** Whether the line at `i` is left out as the half-written end of a live session. */
  predicate LeftOut(lines: seq<LineRead>, i: nat, live: bool)
    requires i < |lines| && lines[i].Line?
  {
    i == |lines| - 1 && live && Incomplete(lines[i].text)
  }

  /** The warnings that the lines deserve: every line that cannot be read or decoded has its own, unless it
    * is left out, and there are no others. */
  ghost predicate WarnsOf(ws: seq<Warning>, lines: seq<LineRead>, live: bool, typed: Decoder) {
    && (forall i | 0 <= i < |lines| && lines[i].IoFailure? :: Io(i, lines[i].error) in ws)
    && (forall i | 0 <= i < |lines| && HasText(lines[i]) && typed(lines[i].text).Err? ::
          Json(i, typed(lines[i].text).error) in ws <==> !LeftOut(lines, i, live))
    && (forall w | w in ws && w.Io? :: w.lineNo < |lines| && lines[w.lineNo] == IoFailure(w.error))
    && (forall w | w in ws && w.Json? ::
          w.lineNo < |lines| && HasText(lines[w.lineNo]) && typed(lines[w.lineNo].text) == Err(w.error))
    && (forall j, k | 0 <= j < k < |ws| && NamesLine(ws[j]) && NamesLine(ws[k]) :: LineOf(ws[j]) < LineOf(ws[k]))
  }

  /** The time of an event, an unrecognised one counting as the epoch. */
  predicate IsAt(e: Event, at: int) {
    match e
    case SessionStart(t, _) => t == at
    case Unknown => at == 0
    case Other(_, t) => t == at
  }

  ghost predicate OutOfTime(events: seq<Event>) {
    exists i, j, at, later :: 0 <= i < j < |events| && IsAt(events[i], later) && IsAt(events[j], at) && at < later
  }

  /** The metadata is that of the last session start. */
  ghost predicate MetaFrom(meta: Meta, events: seq<Event>, live: bool) {
    exists k :: 0 <= k < |events| && events[k].SessionStart? && IsMetaOf(meta, events[k].data, live)
                && forall j | k < j < |events| :: !events[j].SessionStart?
  }

  predicate IsMetaOf(meta: Meta, d: StartData, live: bool) {
    && meta.id == d.sessionId && meta.startedAt == d.startTime && meta.isLive == live
    && meta.producer == Some(d.producer) && meta.agentVersion == Some(d.copilotVersion) && meta.cwd == Some(d.cwd)
    && meta.repository == d.repository && meta.branch == d.branch
  }

  /** A session is what its lines say. */
  ghost predicate Reports(s: Session, lines: seq<LineRead>, live: bool, typed: Decoder) {
    && s.events == Decoded(lines, |lines|, typed)
    && WarnsOf(s.warnings, lines, live, typed)
    && (OutOfOrder in s.warnings <==> OutOfTime(s.events))
    && MetaFrom(s.meta, s.events, live)
  }

  lemma {:induction false} EventsDecoded(lines: seq<LineRead>, n: nat, live: bool, typed: Decoder)
    requires n <= |lines|
    ensures Events(lines, n, live, typed) == Decoded(lines, n, typed)
  {
    if n > 0 { EventsDecoded(lines, n - 1, live, typed); }
  }

  lemma {:induction false} FateWarns(lines: seq<LineRead>, i: nat, live: bool, typed: Decoder)
    requires i < |lines|
    ensures lines[i].IoFailure? ==> FateOf(lines, i, live, typed) == Warned(Io(i, lines[i].error))
    ensures HasText(lines[i]) && typed(lines[i].text).Err? ==>
              FateOf(lines, i, live, typed) == if LeftOut(lines, i, live) then Skipped
                                               else Warned(Json(i, typed(lines[i].text).error))
    ensures lines[i].Line? && !(HasText(lines[i]) && typed(lines[i].text).Err?) ==>
              !FateOf(lines, i, live, typed).Warned?
  {
  }

  lemma {:induction false} LineWarningsHonest(lines: seq<LineRead>, live: bool, typed: Decoder)
    ensures WarnsOf(LineWarnings(lines, |lines|, live, typed), lines, live, typed)
  {
    hide FateOf, HasText, LeftOut, LineWarnings;
    var ws := LineWarnings(lines, |lines|, live, typed);
    WarningsNamed(lines, |lines|, live, typed);
    WarningsOrdered(lines, |lines|, live, typed);
    forall i | 0 <= i < |lines|
      ensures FateOf(lines, i, live, typed).Warned? ==> FateOf(lines, i, live, typed).warning in ws
    {
      if FateOf(lines, i, live, typed).Warned? { WarningsComplete(lines, |lines|, i, live, typed); }
    }
    forall i | 0 <= i < |lines| { FateWarns(lines, i, live, typed); }
  }

  /** Adding the complaint about the order adds nothing about lines. */
  lemma {:induction false} OrderWarns(ws: seq<Warning>, lines: seq<LineRead>, live: bool, typed: Decoder)
    requires WarnsOf(ws, lines, live, typed)
    ensures WarnsOf(ws + [OutOfOrder], lines, live, typed)
  {
    hide HasText, LeftOut;
    var all := ws + [OutOfOrder];
    assert forall w :: w in all <==> w in ws || w == OutOfOrder;
  }

  lemma {:induction false} InvertedMeans(events: seq<Event>)
    ensures Inverted(events) <==> OutOfTime(events)
  {
    if Inverted(events) {
      var i, j :| 0 <= i < j < |events| && events[j].Timestamp() < events[i].Timestamp();
      assert IsAt(events[i], events[i].Timestamp()) && IsAt(events[j], events[j].Timestamp());
    }
  }

  lemma {:induction false} NoOrderWarning(lines: seq<LineRead>, live: bool, typed: Decoder)
    ensures OutOfOrder !in LineWarnings(lines, |lines|, live, typed)
  {
    WarningsNamed(lines, |lines|, live, typed);
  }

  lemma {:induction false} SpecReports(lines: seq<LineRead>, live: bool, typed: Decoder)
    requires ParseSpec(lines, live, typed).Ok?
    ensures Reports(ParseSpec(lines, live, typed).value, lines, live, typed)
  {
    hide WarnsOf, Inverted, OutOfTime, LastStart, Events, LineWarnings, Decoded;
    var s := ParseSpec(lines, live, typed).value;
    var ws := LineWarnings(lines, |lines|, live, typed);
    EventsDecoded(lines, |lines|, live, typed);
    LineWarningsHonest(lines, live, typed);
    NoOrderWarning(lines, live, typed);
    InvertedMeans(s.events);
    OrderWarns(ws, lines, live, typed);
    assert ws + [] == ws;
    LastStartIsLast(s.events);
  }

  /** A parse succeeds exactly if some line decodes to a session start. */
  lemma {:induction false} SpecSucceeds(lines: seq<LineRead>, live: bool, typed: Decoder)
    ensures ParseSpec(lines, live, typed).Ok? <==> exists e :: e in Decoded(lines, |lines|, typed) && e.SessionStart?
  {
    hide Events, LineWarnings, Decoded, LastStart;
    EventsDecoded(lines, |lines|, live, typed);
    LastStartIsLast(Events(lines, |lines|, live, typed));
  }

  lemma {:induction false} ObjectHasText(v: Value, k: nat)
    requires IsObject(v) && 0 < k <= |Text(v)|
    ensures Trim(Text(v)[..k]) != ""
  {
    var s := Text(v)[..k];
    assert s[0] == '{';
    assert TrimStart(s) == s;
    TrimEndKeeps(s);
  }

  lemma {:induction false} TrimEndKeeps(s: string)
    requires s != "" && !IsSpace(s[0])
    ensures TrimEnd(s) != ""
  {
    if IsSpace(s[|s| - 1]) { TrimEndKeeps(s[..|s| - 1]); }
  }

  /** When the last line is an object cut off in the middle, nested less than 2^31 deep, a live session has
    * no warning about it, and any other has exactly one. */
  lemma {:induction false} CutLastLine(s: Session, lines: seq<LineRead>, live: bool, typed: Decoder, v: Value, k: nat)
    requires Reports(s, lines, live, typed) && lines != []
    requires ValueOk(v) && IsObject(v) && Nesting(v) < I32_LIMIT && 0 < k < |Text(v)|
    requires lines[|lines| - 1] == Line(Text(v)[..k]) && typed(Text(v)[..k]).Err?
    ensures var i := |lines| - 1;
            var mine := Json(i, typed(Text(v)[..k]).error);
            && (live ==> forall w | w in s.warnings && NamesLine(w) :: LineOf(w) != i)
            && (!live ==> mine in s.warnings
                          && forall w | w in s.warnings && NamesLine(w) && LineOf(w) == i :: w == mine)
            && (forall j, j' | 0 <= j < j' < |s.warnings| && s.warnings[j] == mine :: s.warnings[j'] != mine)
  {
    hide Text, Nesting, ValueOk, IsObject, Incomplete, OutOfTime, MetaFrom, Decoded;
    ObjectHasText(v, k);
    CutObject(v, k);
    assert HasText(lines[|lines| - 1]);
    assert LeftOut(lines, |lines| - 1, live) <==> live;
  }

  /** What the typed pass returns. */
  function ParseSpec(lines: seq<LineRead>, live: bool, typed: Decoder): Result<Session, AdapterError> {
    var events := Events(lines, |lines|, live, typed);
    var start := LastStart(events);
    if start.None? then Err(MissingSessionStart)
    else
      Ok(Session(MetaOf(start.value, live), events,
                 LineWarnings(lines, |lines|, live, typed) + if Inverted(events) then [OutOfOrder] else []))
  }

  /** The loop over the lines. */
  method CollectLines(lines: seq<LineRead>, live: bool, typed: Decoder, builder: MetaBuilder)
    returns (events: seq<Event>, warnings: seq<Warning>)
    requires builder.Holds(None)
    modifies builder
    ensures events == Events(lines, |lines|, live, typed) && warnings == LineWarnings(lines, |lines|, live, typed)
    ensures builder.Holds(LastStart(events))
  {
    events, warnings := [], [];
    var lastIdx := if |lines| == 0 then 0 else |lines| - 1;
    for lineNo := 0 to |lines|
      invariant events == Events(lines, lineNo, live, typed)
      invariant warnings == LineWarnings(lines, lineNo, live, typed)
      invariant builder.Holds(LastStart(events))
    {
      match lines[lineNo]
      case IoFailure(error) =>
        warnings := warnings + [Io(lineNo, error)];
      case Line(text) =>
        if Trim(text) != "" {
          match typed(text)
          case Ok(event) =>
            builder.Absorb(event, LastStart(events));
            LastStartPush(events, event);
            events := events + [event];
          case Err(error) =>
            var cut := LooksIncomplete(text);
            if !(lineNo == lastIdx && live && cut) {
              warnings := warnings + [Json(lineNo, error)];
            }
        }
    }
  }

  lemma {:induction false} LastStartPush(events: seq<Event>, event: Event)
    ensures LastStart(events + [event]) == if event.SessionStart? then Some(event.data) else LastStart(events)
  {
    assert (events + [event])[..|events|] == events;
  }

  method ParseEvents(lines: seq<LineRead>, live: bool, dirName: string, typed: Decoder)
    returns (r: Result<Session, AdapterError>)
    ensures r == ParseSpec(lines, live, typed)
    ensures r.Ok? <==> exists e :: e in Decoded(lines, |lines|, typed) && e.SessionStart?
    ensures r.Ok? ==> Reports(r.value, lines, live, typed)
  {
    hide Reports, Decoded;
    SpecSucceeds(lines, live, typed);
    if ParseSpec(lines, live, typed).Ok? { SpecReports(lines, live, typed); }
    var builder := new MetaBuilder();
    var events, warnings := CollectLines(lines, live, typed, builder);
    var monotonic := IsMonotonic(events);
    if !monotonic {
      warnings := warnings + [OutOfOrder];
    }
    var meta := builder.Build(live, dirName, LastStart(events));
    if meta.None? {
      return Err(MissingSessionStart);
    }
    assert LineWarnings(lines, |lines|, live, typed) + [] == LineWarnings(lines, |lines|, live, typed);
    return Ok(Session(meta.value, events, warnings));
  }
}
