/** The live watch: reloads, the refresh queue, and keys in both modes. */
module Watch {
  import opened Wrappers

  // ----- data and view state -----

  datatype Turn = Turn(id: string, toolCalls: nat)

  /** One session, or an aggregate over sessions with its number of buckets. */
  datatype Data = Single(turns: seq<Turn>, modelCount: nat) | Cross(buckets: nat)

  datatype AggSort = Calls | TotalDuration | Sessions | Percentile50

  datatype View = Flamegraph | Roi | Aggregate | Models | McpWaste
  {
    function Next(): View {
      match this
      case Flamegraph => Roi
      case Roi => Aggregate
      case Aggregate => Models
      case Models => McpWaste
      case McpWaste => Flamegraph
    }

    function Prev(): View {
      match this
      case Flamegraph => McpWaste
      case Roi => Flamegraph
      case Aggregate => Roi
      case Models => Aggregate
      case McpWaste => Models
    }
  }

  /** The open detail view of one turn. */
  datatype Detail = Detail(turnId: string, selected: nat, expanded: set<nat>, pendingGg: bool)

  datatype ViewState =
    ViewState(aggSort: AggSort, aggSelected: nat, helpOverlay: bool, pendingGg: bool, detail: Option<Detail>,
              modelsSelected: nat, view: View)

  const INITIAL_VIEW := ViewState(TotalDuration, 0, false, false, None, 0, Aggregate)

  datatype State = State(data: Data, vs: ViewState, lastError: Option<string>, refreshCount: nat)

  const U32_MAX := 0xFFFF_FFFF

  function Initial(data: Data): State {
    State(data, INITIAL_VIEW, None, 0)
  }

  // ----- input -----

  datatype Modifier = Shift | Control | OtherModifier

  datatype KeyCode = Char(c: char) | Up | Down | Enter | Esc | Tab | BackTab | OtherKey

  datatype Event = Key(code: KeyCode, mods: set<Modifier>) | NotKey

  predicate IsCapitalG(ev: Event) {
    ev.Key? && (ev.code == Char('G') || (ev.code == Char('g') && Shift in ev.mods))
  }

  predicate IsLowercaseG(ev: Event) {
    ev.Key? && ev.code == Char('g') && Shift !in ev.mods
  }

  predicate IsHelp(ev: Event) {
    ev.Key? && ev.code == Char('?')
  }

  predicate IsCtrlC(ev: Event) {
    ev.Key? && ev.code == Char('c') && Control in ev.mods
  }

  function SatDec(n: nat): nat {
    if n == 0 then 0 else n - 1
  }

  // ----- the dispatcher of single mode, on the fields that survive a key -----

  /** The fields that are copied into the dispatcher's state and back; all its other fields start afresh
    * at every key. */
  datatype App = App(help: bool, detail: Option<Detail>, modelsSelected: nat, view: View)

  predicate HasTurn(turns: seq<Turn>, id: string) {
    exists k :: 0 <= k < |turns| && turns[k].id == id
  }

  function CallsOf(turns: seq<Turn>, id: string): nat {
    if turns == [] then 0 else if turns[0].id == id then turns[0].toolCalls else CallsOf(turns[1..], id)
  }

  /** What a key does to an open detail view; the flag says whether the key is used up. */
  function DispatchDetail(d: Detail, calls: nat, ev: Event): (Option<Detail>, bool)
    requires ev.Key?
  {
    var quiet := d.(pendingGg := false);
    if IsCapitalG(ev) then (Some(quiet.(selected := SatDec(calls))), true)
    else if IsLowercaseG(ev) then
      (Some(if d.pendingGg then quiet.(selected := 0) else d.(pendingGg := true)), true)
    else
      match ev.code
      case Esc => (None, true)
      case Enter =>
        (Some(quiet.(expanded :=
                       if d.selected in d.expanded then d.expanded - {d.selected} else d.expanded + {d.selected})),
         true)
      case Up => (Some(quiet.(selected := SatDec(d.selected))), true)
      case Down => (Some(MoveDown(quiet, calls)), true)
      case Char(c) =>
        if c == 'k' then (Some(quiet.(selected := SatDec(d.selected))), true)
        else if c == 'j' then (Some(MoveDown(quiet, calls)), true)
        else if '1' <= c <= '5' || c == 'h' || c == 'l' then (None, false)
        else if c == '?' then (Some(quiet), false)
        else (Some(quiet), true)
      case _ => (Some(quiet), true)
  }

  function MoveDown(d: Detail, calls: nat): Detail {
    if d.selected + 1 < calls then d.(selected := d.selected + 1) else d
  }

  /** The dispatcher behind the detail view. Its row selections are always fresh here, so Enter can only
    * mean the first turn, and a lone `g` is forgotten at once. */
  function DispatchTop(a: App, turns: seq<Turn>, modelCount: nat, ev: Event): App
    requires ev.Key?
  {
    if IsCapitalG(ev) then
      if a.view.Models? then a.(modelsSelected := SatDec(modelCount)) else a
    else if IsLowercaseG(ev) then a
    else if ev.code.Char? && '1' <= ev.code.c <= '5' then
      a.(view := match ev.code.c
                 case '1' => Flamegraph
                 case '2' => Roi
                 case '3' => Aggregate
                 case '4' => Models
                 case _ => McpWaste)
    else if a.view.Models? && ev.code == Esc then a.(view := Flamegraph)
    else if a.view.Models? && (ev.code == Up || ev.code == Char('k')) then
      a.(modelsSelected := SatDec(a.modelsSelected))
    else if a.view.Models? && (ev.code == Down || ev.code == Char('j')) then
      if a.modelsSelected + 1 < modelCount then a.(modelsSelected := a.modelsSelected + 1) else a
    else if a.view.Flamegraph? && a.detail.None? && ev.code == Enter then
      if turns == [] then a else a.(detail := Some(Detail(turns[0].id, 0, {}, false)))
    else if ev.code == Tab || ev.code == Char('l') then a.(view := a.view.Next())
    else if ev.code == BackTab || ev.code == Char('h') then a.(view := a.view.Prev())
    else if ev.code == Char('?') then a.(help := true)
    else a
  }

  /** None: quit. */
  function Dispatch(a: App, turns: seq<Turn>, modelCount: nat, ev: Event): Option<App> {
    if a.help then Some(if ev.Key? then a.(help := false) else a)
    else if ev.NotKey? then Some(a)
    else if IsCtrlC(ev) || ev.code == Char('q') then None
    else if a.detail.Some? then
      var (detail, used) := DispatchDetail(a.detail.value, CallsOf(turns, a.detail.value.turnId), ev);
      var b := a.(detail := detail);
      Some(if used then b else DispatchTop(b, turns, modelCount, ev))
    else Some(DispatchTop(a, turns, modelCount, ev))
  }

  // ----- the specification of the runner's steps -----

  type Reloaded = Result<Data, string>

  function Reload(s: State, r: Reloaded): State {
    match r
    case Err(e) => s.(lastError := Some(e))
    case Ok(data) =>
      var count := if s.refreshCount < U32_MAX then s.refreshCount + 1 else U32_MAX;
      var t := State(data, s.vs, None, count);
      match data
      case Cross(_) => t.(vs := s.vs.(detail := None))
      case Single(turns, _) =>
        if s.vs.detail.Some? && !HasTurn(turns, s.vs.detail.value.turnId)
        then t.(vs := s.vs.(detail := None),
                lastError := Some("turn " + s.vs.detail.value.turnId + " disappeared after reload"))
        else t
  }

  function BucketCount(data: Data): nat {
    if data.Cross? then data.buckets else 0
  }

  function CrossDown(vs: ViewState, buckets: nat): ViewState {
    if vs.aggSelected < SatDec(buckets) then vs.(aggSelected := vs.aggSelected + 1) else vs
  }

  /** A key in cross mode, other than `?`; the flag says whether it is used up. */
  function CrossKey(vs: ViewState, buckets: nat, ev: Event): (ViewState, bool)
    requires ev.Key?
  {
    var quiet := vs.(pendingGg := false);
    if IsCapitalG(ev) then (quiet.(aggSelected := SatDec(buckets)), true)
    else if IsLowercaseG(ev) then
      (if vs.pendingGg then quiet.(aggSelected := 0) else vs.(pendingGg := true), true)
    else
      match ev.code
      case Up => (quiet.(aggSelected := SatDec(vs.aggSelected)), true)
      case Down => (CrossDown(quiet, buckets), true)
      case Char(c) =>
        if c == 'c' then (quiet.(aggSort := Calls), true)
        else if c == 't' then (quiet.(aggSort := TotalDuration), true)
        else if c == 's' then (quiet.(aggSort := Sessions), true)
        else if c == 'p' then (quiet.(aggSort := Percentile50), true)
        else if c == 'k' then (quiet.(aggSelected := SatDec(vs.aggSelected)), true)
        else if c == 'j' then (CrossDown(quiet, buckets), true)
        else (quiet, false)
      case _ => (quiet, false)
  }

  function WatchKey(s: State, ev: Event): (State, bool) {
    if ev.NotKey? then (s, false)
    else if IsHelp(ev) then
      if s.data.Cross? then (s, false)
      else (s.(vs := s.vs.(helpOverlay := !s.vs.helpOverlay, pendingGg := false)), true)
    else if s.data.Single? then (s, false)
    else
      var (vs, used) := CrossKey(s.vs, BucketCount(s.data), ev);
      (s.(vs := vs), used)
  }

  function ToApp(vs: ViewState): App {
    App(vs.helpOverlay, vs.detail, vs.modelsSelected, vs.view)
  }

  function FromApp(vs: ViewState, a: App): ViewState {
    vs.(helpOverlay := a.help, detail := a.detail, modelsSelected := a.modelsSelected, view := a.view)
  }

  /** A whole event; the flag says whether the run ends. */
  function HandleEvent(s: State, ev: Event): (State, bool) {
    var (t, used) := WatchKey(s, ev);
    if used then (t, false)
    else if t.data.Single? then
      match Dispatch(ToApp(t.vs), t.data.turns, t.data.modelCount, ev)
      case None => (t, true)
      case Some(a) => (t.(vs := FromApp(t.vs, a)), false)
    else (t, IsCtrlC(ev) || ev == Key(Char('q'), {}))
  }

  // ----- runs -----

  datatype Step = Reloading(result: Reloaded) | Input(ev: Event)

  function Take(s: State, step: Step): (State, bool) {
    match step
    case Reloading(r) => (Reload(s, r), false)
    case Input(ev) => HandleEvent(s, ev)
  }

  /** The state after a trace, and whether the run has ended; nothing happens after its end. */
  function Run(s: State, trace: seq<Step>): (State, bool) {
    if trace == [] then (s, false)
    else
      var (t, ended) := Run(s, trace[..|trace| - 1]);
      if ended then (t, true) else Take(t, trace[|trace| - 1])
  }

  lemma {:induction false} RunOne(s: State, trace: seq<Step>, step: Step)
    ensures Run(s, trace + [step]) == var (t, ended) := Run(s, trace); if ended then (t, true) else Take(t, step)
  {
    assert (trace + [step])[..|trace + [step]| - 1] == trace;
  }

  /** An open detail view shows a turn of the single session at hand. */
  ghost predicate DetailSafe(s: State) {
    s.vs.detail.Some? ==> s.data.Single? && HasTurn(s.data.turns, s.vs.detail.value.turnId)
  }

  lemma DispatchKeepsDetail(a: App, turns: seq<Turn>, modelCount: nat, ev: Event)
    requires a.detail.Some? ==> HasTurn(turns, a.detail.value.turnId)
    ensures var b := Dispatch(a, turns, modelCount, ev);
            b.Some? && b.value.detail.Some? ==> HasTurn(turns, b.value.detail.value.turnId)
    ensures var b := Dispatch(a, turns, modelCount, ev);
            b.Some? && b.value.detail.Some? && a.detail.None? ==>
              turns != [] && b.value.detail.value == Detail(turns[0].id, 0, {}, false)
  {
    if turns != [] { assert HasTurn(turns, turns[0].id); }
  }

  /** In every reachable state, whatever reloads and keys led to it, an open detail view is safe. */
  lemma {:induction false} RunSafe(data: Data, trace: seq<Step>)
    ensures DetailSafe(Run(Initial(data), trace).0)
  {
    if trace != [] {
      RunSafe(data, trace[..|trace| - 1]);
      TakeSafe(Run(Initial(data), trace[..|trace| - 1]).0, trace[|trace| - 1]);
    }
  }

  lemma TakeSafe(s: State, step: Step)
    requires DetailSafe(s)
    ensures DetailSafe(Take(s, step).0)
  {
    if step.Input? && s.data.Single? {
      DispatchKeepsDetail(ToApp(WatchKey(s, step.ev).0.vs), s.data.turns, s.data.modelCount, step.ev);
    }
  }

  /** A detail view can only ever be opened on the first turn: the row selection of the turn list does not
    * survive from key to key in watch mode. */
  lemma OpensFirstTurn(s: State, step: Step)
    requires s.vs.detail.None? && Take(s, step).0.vs.detail.Some?
    ensures s.data.Single? && s.data.turns != [] && step.Input? && step.ev.Key? && step.ev.code == Enter
    ensures Take(s, step).0.vs.detail == Some(Detail(s.data.turns[0].id, 0, {}, false))
  {
  }

  // ----- the reload counter -----

  function Successes(trace: seq<Step>): nat {
    if trace == [] then 0
    else
      var last := trace[|trace| - 1];
      Successes(trace[..|trace| - 1]) + if last.Reloading? && last.result.Ok? then 1 else 0
  }

  lemma {:induction false} RefreshCountExact(data: Data, trace: seq<Step>)
    requires !Run(Initial(data), trace).1
    ensures Run(Initial(data), trace).0.refreshCount
         == if Successes(trace) < U32_MAX then Successes(trace) else U32_MAX
  {
    if trace != [] { RefreshCountExact(data, trace[..|trace| - 1]); }
  }

  // ----- selections -----

  function Max(a: nat, b: nat): nat {
    if a < b then b else a
  }

  function ModelCount(data: Data): nat {
    if data.Single? then data.modelCount else 0
  }

  /** The largest bucket count and model count seen so far. */
  function LargestSeen(data: Data, trace: seq<Step>): (nat, nat) {
    if trace == [] then (BucketCount(data), ModelCount(data))
    else
      var (b, m) := LargestSeen(data, trace[..|trace| - 1]);
      match trace[|trace| - 1]
      case Reloading(Ok(d)) => (Max(b, BucketCount(d)), Max(m, ModelCount(d)))
      case _ => (b, m)
  }

  lemma DispatchSelection(a: App, turns: seq<Turn>, modelCount: nat, ev: Event)
    ensures var b := Dispatch(a, turns, modelCount, ev);
            b.Some? ==> b.value.modelsSelected <= Max(a.modelsSelected, SatDec(modelCount))
  {
  }

  /** One step moves a selection at most to the last row that the data at hand has. */
  lemma TakeSelection(s: State, step: Step)
    ensures var t := Take(s, step).0;
            && t.vs.aggSelected <= Max(s.vs.aggSelected, SatDec(BucketCount(s.data)))
            && t.vs.modelsSelected <= Max(s.vs.modelsSelected, SatDec(ModelCount(s.data)))
            && (step.Input? ==> t.data == s.data)
  {
    hide Dispatch, HasTurn;
    if step.Input? && s.data.Single? {
      DispatchSelection(ToApp(WatchKey(s, step.ev).0.vs), s.data.turns, s.data.modelCount, step.ev);
    }
  }

  /** Reloads do not clamp the selections, but no selection ever passes the last row of the largest table
    * seen. */
  lemma {:induction false} SelectionBound(data: Data, trace: seq<Step>)
    ensures var t, seen := Run(Initial(data), trace).0, LargestSeen(data, trace);
            && t.vs.aggSelected <= SatDec(seen.0) && t.vs.modelsSelected <= SatDec(seen.1)
            && BucketCount(t.data) <= seen.0 && ModelCount(t.data) <= seen.1
  {
    if trace != [] {
      SelectionBound(data, trace[..|trace| - 1]);
      TakeSelection(Run(Initial(data), trace[..|trace| - 1]).0, trace[|trace| - 1]);
    }
  }

  /** While the data stays the same a selection in range stays in range, and one left out of range by a
    * reload never moves further out. */
  lemma {:induction false} SelectionWithFixedData(s: State, trace: seq<Step>)
    requires forall k | 0 <= k < |trace| :: trace[k].Input?
    ensures var t := Run(s, trace).0;
            t.data == s.data && t.vs.aggSelected <= Max(s.vs.aggSelected, SatDec(BucketCount(s.data)))
  {
    if trace != [] {
      SelectionWithFixedData(s, trace[..|trace| - 1]);
      TakeSelection(Run(s, trace[..|trace| - 1]).0, trace[|trace| - 1]);
    }
  }

  // ----- the two-key sequence gg -----

  /** The length of the trailing run of lowercase g in a trace, not counting reloads, events that are no
    * keys, and the help key, which cross mode ignores before it clears anything. */
  function TrailingG(trace: seq<Step>): nat {
    if trace == [] then 0
    else
      var front, last := trace[..|trace| - 1], trace[|trace| - 1];
      if IgnoredByGg(last) then TrailingG(front)
      else if IsLowercaseG(last.ev) then TrailingG(front) + 1
      else 0
  }

  /** All data is aggregate data. */
  ghost predicate CrossTrace(trace: seq<Step>) {
    forall k | 0 <= k < |trace| && trace[k].Reloading? && trace[k].result.Ok? :: trace[k].result.value.Cross?
  }

  /** Steps that neither start, continue nor break a run of g. */
  predicate IgnoredByGg(step: Step) {
    step.Reloading? || step.ev.NotKey? || IsHelp(step.ev)
  }

  lemma TakePending(s: State, step: Step)
    requires s.data.Cross? && CrossTrace([step])
    ensures var t := Take(s, step).0;
            && t.data.Cross?
            && t.vs.pendingGg == if IgnoredByGg(step) then s.vs.pendingGg
                                 else IsLowercaseG(step.ev) && !s.vs.pendingGg
  {
    assert [step][0] == step;
  }

  /** In cross mode a `g` is pending exactly after an odd run of them. */
  lemma {:induction false} PendingIsParity(data: Data, trace: seq<Step>)
    requires data.Cross? && CrossTrace(trace) && !Run(Initial(data), trace).1
    ensures Run(Initial(data), trace).0.data.Cross?
    ensures Run(Initial(data), trace).0.vs.pendingGg <==> TrailingG(trace) % 2 == 1
  {
    if trace != [] {
      var front, last := trace[..|trace| - 1], trace[|trace| - 1];
      assert forall k | 0 <= k < |front| :: front[k] == trace[k];
      PendingIsParity(data, front);
      TakePending(Run(Initial(data), front).0, last);
    }
  }

  // ----- what the keys do -----

  /** The keys of cross mode: four sort keys, arrows or j and k by one row, G to the last row. */
  lemma {:induction false} CrossKeysDo(s: State, shown: nat, ev: Event)
    requires s.data == Cross(shown) && ev.Key?
    ensures var t := HandleEvent(s, ev).0.vs;
            && (ev.code == Char('c') ==> t.aggSort == Calls)
            && (ev.code == Char('t') ==> t.aggSort == TotalDuration)
            && (ev.code == Char('s') ==> t.aggSort == Sessions)
            && (ev.code == Char('p') ==> t.aggSort == Percentile50)
            && (ev.code == Char('j') || ev.code == Down ==>
                  t.aggSelected == if s.vs.aggSelected + 1 < shown then s.vs.aggSelected + 1 else s.vs.aggSelected)
            && (ev.code == Char('k') || ev.code == Up ==>
                  t.aggSelected == if s.vs.aggSelected > 0 then s.vs.aggSelected - 1 else 0)
            && (ev.code == Char('G') || (ev.code == Char('g') && Shift in ev.mods) ==>
                  t.aggSelected == if shown > 0 then shown - 1 else 0)
  {
  }

  /** Only a sort key changes the sort key, and only a motion the selection; no key changes anything else but
    * the pending `g`. */
  lemma {:induction false} CrossKeysKeep(s: State, ev: Event)
    requires s.data.Cross? && ev.Key?
    ensures var t := HandleEvent(s, ev).0;
            && t.data == s.data && t.lastError == s.lastError && t.refreshCount == s.refreshCount
            && t.vs.helpOverlay == s.vs.helpOverlay && t.vs.detail == s.vs.detail
            && t.vs.modelsSelected == s.vs.modelsSelected && t.vs.view == s.vs.view
            && (ev.code !in {Char('c'), Char('t'), Char('s'), Char('p')} ==> t.vs.aggSort == s.vs.aggSort)
            && (ev.code !in {Char('j'), Char('k'), Char('g'), Char('G'), Up, Down} ==>
                  t.vs.aggSelected == s.vs.aggSelected)
  {
  }

  /** Two lowercase g in a row, other events that are no keys in between or not, select the first row. */
  lemma {:induction false} TwoGsGoToTop(s: State)
    requires s.data.Cross? && !s.vs.pendingGg
    ensures var g := Key(Char('g'), {});
            && HandleEvent(s, g).0.vs.aggSelected == s.vs.aggSelected
            && HandleEvent(HandleEvent(s, g).0, g).0.vs.aggSelected == 0
  {
  }

  /** The view keys of single mode, with no overlay and no detail view open: a number for each view, one key
    * pair forward and one back round the ring of views, and the help key. */
  lemma {:induction false} ViewKeysDo(s: State, ev: Event)
    requires s.data.Single? && !s.vs.helpOverlay && s.vs.detail.None? && ev.Key?
    ensures var t := HandleEvent(s, ev).0.vs;
            && (ev.code == Char('1') ==> t.view == Flamegraph)
            && (ev.code == Char('2') ==> t.view == Roi)
            && (ev.code == Char('3') ==> t.view == Aggregate)
            && (ev.code == Char('4') ==> t.view == Models)
            && (ev.code == Char('5') ==> t.view == McpWaste)
            && (ev.code == Tab || ev.code == Char('l') ==> IsNextView(s.vs.view, t.view))
            && (ev.code == BackTab || ev.code == Char('h') ==> IsNextView(t.view, s.vs.view))
            && (ev.code == Char('?') ==> t.helpOverlay)
  {
    hide HasTurn;
  }

  lemma {:induction false} CallsOfFirst(turns: seq<Turn>, id: string, k: nat)
    requires k < |turns| && turns[k].id == id && forall j | 0 <= j < k :: turns[j].id != id
    ensures CallsOf(turns, id) == turns[k].toolCalls
  {
    if k > 0 { CallsOfFirst(turns[1..], id, k - 1); }
  }

  /** The keys of an open detail view, on the rows of its turn's calls. */
  lemma {:induction false} DetailKeysDo(s: State, k: nat, ev: Event)
    requires s.data.Single? && !s.vs.helpOverlay && s.vs.detail.Some? && ev.Key?
    requires k < |s.data.turns| && s.data.turns[k].id == s.vs.detail.value.turnId
    requires forall j | 0 <= j < k :: s.data.turns[j].id != s.vs.detail.value.turnId
    ensures var d, calls := s.vs.detail.value, s.data.turns[k].toolCalls;
            var e := HandleEvent(s, ev).0.vs.detail;
            && (ev.code == Esc ==> e == None)
            && (ev.code in {Char('1'), Char('2'), Char('3'), Char('4'), Char('5'), Char('h'), Char('l')} ==> e == None)
            && (ev.code == Enter ==>
                  e.Some? && e.value.selected == d.selected
                  && forall n :: n in e.value.expanded <==>
                       (if n == d.selected then n !in d.expanded else n in d.expanded))
            && (ev.code == Char('j') || ev.code == Down ==>
                  e.Some? && e.value.selected == if d.selected + 1 < calls then d.selected + 1 else d.selected)
            && (ev.code == Char('k') || ev.code == Up ==>
                  e.Some? && e.value.selected == if d.selected > 0 then d.selected - 1 else 0)
            && (ev.code == Char('G') ==> e.Some? && e.value.selected == if calls > 0 then calls - 1 else 0)
            && (ev == Key(Char('g'), {}) ==>
                  e.Some? && e.value.selected == (if d.pendingGg then 0 else d.selected)
                  && e.value.pendingGg == !d.pendingGg)
  {
    hide HasTurn, CallsOf;
    CallsOfFirst(s.data.turns, s.vs.detail.value.turnId, k);
  }

  predicate IsNextView(a: View, b: View) {
    (a, b) in {(Flamegraph, Roi), (Roi, Aggregate), (Aggregate, Models), (Models, McpWaste), (McpWaste, Flamegraph)}
  }

  // ----- ending a run -----

  /** When an event ends the run. In single mode `q` and Ctrl-C do, unless the help overlay is open. In
    * cross mode only a bare `q` does: Ctrl-C is taken for the sort key `c` before the test for it is
    * reached. */
  lemma EndsExactly(s: State, ev: Event)
    ensures HandleEvent(s, ev).1 <==>
              if s.data.Single? then !s.vs.helpOverlay && (IsCtrlC(ev) || (ev.Key? && ev.code == Char('q')))
              else ev == Key(Char('q'), {})
  {
  }

  /** Ctrl-C in cross mode: the run goes on, sorted by calls. */
  lemma CtrlCSortsInCrossMode(s: State, ev: Event)
    requires s.data.Cross? && IsCtrlC(ev)
    ensures HandleEvent(s, ev) == (s.(vs := s.vs.(aggSort := Calls, pendingGg := false)), false)
  {
  }

  // ----- the main loop -----

  /** What the main loop makes of a script of turns, each with the number of refreshes that arrive and
    * perhaps an event: the state, the number of reloads asked for, and whether the run has ended. However
    * many refreshes arrive in a turn, they cause one reload, and its event goes unread. */
  function Turns(s: State, calls: nat, script: seq<(nat, Option<Event>)>, reload: Option<nat -> Reloaded>)
    : (State, nat, bool)
  {
    if script == [] then (s, calls, false)
    else
      var (t, n, ended) := Turns(s, calls, script[..|script| - 1], reload);
      var (refreshes, ev) := script[|script| - 1];
      if ended then (t, n, true)
      else if reload.Some? && refreshes > 0 then (Reload(t, reload.value(n)), n + 1, false)
      else if ev.None? then (t, n, false)
      else (HandleEvent(t, ev.value).0, n, HandleEvent(t, ev.value).1)
  }

  lemma {:induction false} TurnsEnded(s: State, calls: nat, script: seq<(nat, Option<Event>)>, k: nat,
                                      reload: Option<nat -> Reloaded>)
    requires k <= |script| && Turns(s, calls, script[..k], reload).2
    ensures Turns(s, calls, script, reload) == Turns(s, calls, script[..k], reload)
  {
    if k == |script| {
      assert script[..k] == script;
    } else {
      assert script[..|script| - 1][..k] == script[..k];
      TurnsEnded(s, calls, script[..|script| - 1], k, reload);
    }
  }

  /** Reloads happen once per turn with refreshes, never more often than there are turns. */
  lemma {:induction false} TurnsReload(s: State, calls: nat, script: seq<(nat, Option<Event>)>,
                                       reload: Option<nat -> Reloaded>)
    ensures calls <= Turns(s, calls, script, reload).1 <= calls + |script|
    ensures !Turns(s, calls, script, reload).2 && reload.Some? ==>
              Turns(s, calls, script, reload).1 == calls + Refreshing(script)
  {
    if script != [] { TurnsReload(s, calls, script[..|script| - 1], reload); }
  }

  /** The number of turns in which a refresh arrives. */
  function Refreshing(script: seq<(nat, Option<Event>)>): nat {
    if script == [] then 0
    else Refreshing(script[..|script| - 1]) + if script[|script| - 1].0 > 0 then 1 else 0
  }

  // ----- the runner -----

  /** The runner. The reload closure is the script of what its successive calls return; a runner without
    * a watcher has neither queue nor closure. The trace records what happened. */
  class WatchRunner {
    var data: Data
    var viewState: ViewState
    var lastError: Option<string>
    var refreshCount: nat
    var queued: nat
    var calls: nat
    const reload: Option<nat -> Reloaded>
    ghost const first: Data
    ghost var trace: seq<Step>

    ghost function Snapshot(): State
      reads this
    {
      State(data, viewState, lastError, refreshCount)
    }

    /** The state is what the recorded trace leads to. */
    ghost predicate Valid()
      reads this
    {
      Run(Initial(first), trace) == (Snapshot(), false) && (reload.None? ==> queued == 0)
    }

    constructor (data: Data, reload: Option<nat -> Reloaded>)
      ensures Valid() && Snapshot() == Initial(data) && first == data && this.reload == reload
      ensures viewState == ViewState(TotalDuration, 0, false, false, None, 0, Aggregate)
      ensures queued == 0 && calls == 0
    {
      this.data, viewState, lastError, refreshCount := data, INITIAL_VIEW, None, 0;
      this.reload, queued, calls := reload, 0, 0;
      first, trace := data, [];
    }

    method DoReload()
      modifies this
      ensures queued == old(queued) && trace == old(trace)
      ensures if reload.None? then Snapshot() == old(Snapshot()) && calls == old(calls)
              else Snapshot() == Reload(old(Snapshot()), reload.value(old(calls))) && calls == old(calls) + 1
      ensures reload.Some? && reload.value(old(calls)).Err? ==>
                data == old(data) && viewState == old(viewState) && refreshCount == old(refreshCount)
                && lastError == Some(reload.value(old(calls)).error)
      ensures reload.Some? && reload.value(old(calls)).Ok? ==>
                && data == reload.value(old(calls)).value
                && refreshCount == (if old(refreshCount) < 0xFFFF_FFFF then old(refreshCount) + 1 else 0xFFFF_FFFF)
                && var detail := old(viewState).detail;
                   var gone := data.Single? && detail.Some?
                               && forall t | t in data.turns :: t.id != detail.value.turnId;
                   && lastError == (if gone then Some("turn " + detail.value.turnId + " disappeared after reload")
                                    else None)
                   && viewState == old(viewState).(detail := if gone || data.Cross? then None else detail)
    {
      if reload.Some? {
        var result := reload.value(calls);
        calls := calls + 1;
        match result
        case Ok(newData) =>
          data := newData;
          refreshCount := if refreshCount < U32_MAX then refreshCount + 1 else U32_MAX;
          lastError := None;
          match newData {
            case Single(turns, _) =>
              if viewState.detail.Some? && !HasTurn(turns, viewState.detail.value.turnId) {
                var id := viewState.detail.value.turnId;
                viewState := viewState.(detail := None);
                lastError := Some("turn " + id + " disappeared after reload");
              }
            case Cross(_) =>
              viewState := viewState.(detail := None);
          }
        case Err(e) =>
          lastError := Some(e);
      }
    }

    method HandleWatchKey(ev: Event) returns (used: bool)
      modifies this
      ensures (Snapshot(), used) == WatchKey(old(Snapshot()), ev)
      ensures queued == old(queued) && calls == old(calls) && trace == old(trace)
    {
      if ev.NotKey? {
        return false;
      }
      if ev.code == Char('?') {
        if data.Cross? {
          return false;
        }
        viewState := viewState.(helpOverlay := !viewState.helpOverlay, pendingGg := false);
        return true;
      }
      if !data.Cross? {
        return false;
      }
      if IsCapitalG(ev) {
        viewState := viewState.(aggSelected := SatDec(BucketCount(data)), pendingGg := false);
        return true;
      }
      if IsLowercaseG(ev) {
        if viewState.pendingGg {
          viewState := viewState.(aggSelected := 0, pendingGg := false);
        } else {
          viewState := viewState.(pendingGg := true);
        }
        return true;
      }
      viewState := viewState.(pendingGg := false);
      used := true;
      if ev.code == Char('c') {
        viewState := viewState.(aggSort := Calls);
      } else if ev.code == Char('t') {
        viewState := viewState.(aggSort := TotalDuration);
      } else if ev.code == Char('s') {
        viewState := viewState.(aggSort := Sessions);
      } else if ev.code == Char('p') {
        viewState := viewState.(aggSort := Percentile50);
      } else if ev.code == Up || ev.code == Char('k') {
        viewState := viewState.(aggSelected := SatDec(viewState.aggSelected));
      } else if ev.code == Down || ev.code == Char('j') {
        if viewState.aggSelected < SatDec(BucketCount(data)) {
          viewState := viewState.(aggSelected := viewState.aggSelected + 1);
        }
      } else {
        used := false;
      }
    }

    /** An event that reaches the loop: the keys of the watch first, then the dispatcher of single mode,
      * or the quit keys of cross mode. */
    method HandleInput(ev: Event) returns (quit: bool)
      modifies this
      ensures (Snapshot(), quit) == HandleEvent(old(Snapshot()), ev)
      ensures queued == old(queued) && calls == old(calls) && trace == old(trace)
    {
      var used := HandleWatchKey(ev);
      if used {
        return false;
      }
      if data.Single? {
        var a := Dispatch(ToApp(viewState), data.turns, data.modelCount, ev);
        if a.None? {
          return true;
        }
        viewState := FromApp(viewState, a.value);
        return false;
      }
      return IsCtrlC(ev) || ev == Key(Char('q'), {});
    }

    /** Empties the queue and tells whether there was anything in it. */
    method Drain() returns (gotRefresh: bool)
      modifies this`queued
      ensures queued == 0 && (gotRefresh <==> old(queued) > 0)
    {
      gotRefresh := false;
      while queued > 0
        invariant gotRefresh <==> queued < old(queued)
        invariant queued <= old(queued)
        decreases queued
      {
        queued := queued - 1;
        gotRefresh := true;
      }
    }

    /** One turn of the main loop, perhaps with an event waiting: all queued refreshes together cause one
      * reload, and the event is left for a later turn. */
    method Iterate(ev: Option<Event>) returns (quit: bool)
      requires Valid()
      modifies this
      ensures !quit ==> Valid()
      ensures queued == 0
      ensures old(queued) > 0 ==>
                && !quit && calls == old(calls) + 1
                && Snapshot() == Reload(old(Snapshot()), reload.value(old(calls)))
                && trace == old(trace) + [Reloading(reload.value(old(calls)))]
      ensures old(queued) == 0 ==>
                && calls == old(calls)
                && (if ev.None? then !quit && Snapshot() == old(Snapshot())
                    else (Snapshot(), quit) == HandleEvent(old(Snapshot()), ev.value))
    {
      hide Run, Reload, HandleEvent;
      quit := false;
      var gotRefresh := Drain();
      if gotRefresh {
        ghost var step := Reloading(reload.value(calls));
        RunOne(Initial(first), trace, step);
        DoReload();
        trace := trace + [step];
        return;
      }
      if ev.None? {
        return;
      }
      RunOne(Initial(first), trace, Input(ev.value));
      quit := HandleInput(ev.value);
      if !quit {
        trace := trace + [Input(ev.value)];
      }
    }

    /** A refresh arrives from the watcher. */
    method Enqueue(n: nat)
      requires Valid() && reload.Some?
      modifies this`queued
      ensures Valid() && queued == old(queued) + n
    {
      queued := queued + n;
    }

    /** The main loop over a script of turns. */
    method RunLoop(script: seq<(nat, Option<Event>)>) returns (quit: bool)
      requires Valid() && queued == 0
      modifies this
      ensures (Snapshot(), calls, quit) == Turns(old(Snapshot()), old(calls), script, reload)
      ensures !quit ==> Valid() && DetailSafe(Snapshot())
      ensures !quit ==> viewState.aggSelected <= SatDec(LargestSeen(first, trace).0)
      ensures !quit ==> refreshCount == if Successes(trace) < U32_MAX then Successes(trace) else U32_MAX
    {
      quit := false;
      for k := 0 to |script|
        invariant Valid() && !quit && queued == 0
        invariant (Snapshot(), calls, quit) == Turns(old(Snapshot()), old(calls), script[..k], reload)
      {
        assert script[..k + 1][..k] == script[..k];
        if reload.Some? {
          Enqueue(script[k].0);
        }
        quit := Iterate(script[k].1);
        if quit {
          TurnsEnded(old(Snapshot()), old(calls), script, k + 1, reload);
          return;
        }
      }
      assert script[..|script|] == script;
      RunSafe(first, trace);
      SelectionBound(first, trace);
      RefreshCountExact(first, trace);
    }
  }
}
