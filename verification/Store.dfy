/** The session store: three tables kept in step with one abstract map from session ids to the last
  * report written for them. */
module Store {
  import opened Wrappers
  import opened Order

  const I64_MAX := 0x7FFF_FFFF_FFFF_FFFF
  const I64_MIN := -0x8000_0000_0000_0000

  function ClampI64(n: int): int {
    if n > I64_MAX then I64_MAX else if n < I64_MIN then I64_MIN else n
  }

  // ----- reports -----

  datatype ToolRank = ToolRank(name: string, source: string, callCount: nat, durationMs: int)

  datatype TurnSummary = TurnSummary(outputTokens: Option<nat>, model: Option<string>)

  /** A usage total per model name. */
  datatype ModelUsage = ModelUsage(name: string, total: nat)

  datatype Report =
    Report(id: string, agent: string, startedAtMs: int, models: Option<seq<ModelUsage>>, totals: seq<Option<int>>,
           toolRank: seq<ToolRank>, turns: seq<TurnSummary>)

  /** The episodes blob; the first one is the column's default. */
  datatype Episodes = DefaultEpisodes | Episodes(blob: string)

  // ----- rows -----

  /** A row of `sessions`. The blob of the report is kept as the report itself. */
  datatype SessionRow =
    SessionRow(agent: string, dominantModel: Option<string>, startedAt: Option<int>, durationMs: Option<int>,
               rawPath: string, rawMtime: int, totals: seq<Option<int>>, schemaVersion: int, ingestedAt: int,
               report: Report, episodes: Episodes)

  /** A row of `tools_loaded`; its key is the session id and the tool name. */
  datatype ToolRow =
    ToolRow(source: string, callCount: int, totalDurationMs: int, tokens: Option<int>, tokenSource: Option<string>)

  /** A row of `turn_buckets`; its key is the session id and the turn index. */
  datatype TurnRow =
    TurnRow(inputTokens: Option<int>, outputTokens: Option<int>, cacheRead: Option<int>,
            cacheCreation: Option<int>, model: Option<string>)

  datatype Tables =
    Tables(sessions: map<string, SessionRow>, tools: map<(string, string), ToolRow>,
           turns: map<(string, int), TurnRow>)

  const EMPTY := Tables(map[], map[], map[])

  /** What `INSERT OR REPLACE` does to a row that is already there: rewrite the named columns in place,
    * or delete the row, children included, and insert a new one with defaults. */
  datatype Replace = InPlace | DeleteInsert

  // ----- the columns of a row -----

  /** The most used model, the smaller name on a tie. */
  function Dominant(ms: seq<ModelUsage>): (m: Option<ModelUsage>)
    ensures m.None? <==> ms == []
  {
    if ms == [] then None
    else
      var last, best := ms[|ms| - 1], Dominant(ms[..|ms| - 1]);
      if best.None? || Beats(last, best.value) then Some(last) else best
  }

  /** `max_by` keeps the later of two equals. */
  predicate Beats(a: ModelUsage, b: ModelUsage) {
    a.total > b.total || (a.total == b.total && !StringLess(b.name, a.name))
  }

  /** The dominant model has the largest total, and the smallest name among those that have it. */
  lemma {:induction false} DominantBest(ms: seq<ModelUsage>)
    requires ms != []
    ensures var best := Dominant(ms).value;
            best in ms && forall m | m in ms ::
              m.total < best.total || (m.total == best.total && !StringLess(m.name, best.name))
  {
    var front, last := ms[..|ms| - 1], ms[|ms| - 1];
    assert ms == front + [last];
    StringIrreflexive(last.name);
    if front != [] {
      DominantBest(front);
      var before := Dominant(front).value;
      if Beats(last, before) {
        forall m | m in front && m.total == before.total == last.total
          ensures !StringLess(m.name, last.name)
        {
          NotLessTransitive(m.name, before.name, last.name);
        }
      } else if StringLess(before.name, last.name) {
        StringAsymmetric(before.name, last.name);
      }
    }
  }

  function ToolRowOf(t: ToolRank): ToolRow {
    ToolRow(t.source, ClampI64(t.callCount), t.durationMs, None, None)
  }

  function TurnRowOf(t: TurnSummary): TurnRow {
    TurnRow(None, t.outputTokens, None, None, t.model)
  }

  // ----- the abstract store -----

  /** What the store remembers of a session. */
  datatype Entry = Entry(report: Report, rawPath: string, rawMtime: int, ingestedAtMs: int, episodes: Episodes)

  type Model = map<string, Entry>

  /** The columns that an upsert writes. */
  function NewRow(r: Report, rawPath: string, rawMtime: int, ingestedAtMs: int): SessionRow {
    var dominant := if r.models.None? then None else Dominant(r.models.value);
    SessionRow(r.agent, if dominant.None? then None else Some(dominant.value.name), Some(r.startedAtMs), None,
               rawPath, rawMtime, r.totals, 1, ingestedAtMs, r, DefaultEpisodes)
  }

  function SessionRowOf(e: Entry): SessionRow {
    NewRow(e.report, e.rawPath, e.rawMtime, e.ingestedAtMs).(episodes := e.episodes)
  }

  function ToolNamed(ranks: seq<ToolRank>, name: string): (t: Option<ToolRank>)
    ensures t.Some? ==> t.value in ranks && t.value.name == name
    ensures t.None? ==> forall r | r in ranks :: r.name != name
  {
    if ranks == [] then None
    else
      var last := ranks[|ranks| - 1];
      if last.name == name then Some(last) else ToolNamed(ranks[..|ranks| - 1], name)
  }

  predicate DistinctTools(ranks: seq<ToolRank>) {
    forall j, k | 0 <= j < k < |ranks| :: ranks[j].name != ranks[k].name
  }

  /** A report that the child tables can hold: no tool twice, and no turn index beyond 64 bits. */
  predicate Storable(r: Report) {
    DistinctTools(r.toolRank) && |r.turns| <= I64_MAX + 1
  }

  ghost predicate SessionsMatch(sessions: map<string, SessionRow>, m: Model) {
    && sessions.Keys == m.Keys
    && forall id | id in m :: m[id].report.id == id && Storable(m[id].report) && sessions[id] == SessionRowOf(m[id])
  }

  ghost predicate ToolsMatch(tools: map<(string, string), ToolRow>, m: Model) {
    forall key ::
      && (key in tools <==> key.0 in m && ToolNamed(m[key.0].report.toolRank, key.1).Some?)
      && (key in tools ==> tools[key] == ToolRowOf(ToolNamed(m[key.0].report.toolRank, key.1).value))
  }

  ghost predicate TurnsMatch(turns: map<(string, int), TurnRow>, m: Model) {
    forall key ::
      && (key in turns <==> key.0 in m && 0 <= key.1 < |m[key.0].report.turns|)
      && (key in turns ==> turns[key] == TurnRowOf(m[key.0].report.turns[key.1]))
  }

  /** The tables hold exactly what the abstract store says, and nothing else. */
  ghost predicate Refines(t: Tables, m: Model) {
    SessionsMatch(t.sessions, m) && ToolsMatch(t.tools, m) && TurnsMatch(t.turns, m)
  }

  // ----- the abstract operations -----

  function EntryOf(m: Model, report: Report, rawPath: string, rawMtime: int, ingestedAtSecs: int,
                   replace: Replace): Entry {
    Entry(report, rawPath, rawMtime, ClampI64(ingestedAtSecs * 1000),
          if replace.InPlace? && report.id in m then m[report.id].episodes else DefaultEpisodes)
  }

  function WithEpisodes(m: Model, id: string, episodes: Episodes): Model {
    if id in m then m[id := m[id].(episodes := episodes)] else m
  }

  function Without(m: Model, ids: set<string>): Model {
    m - ids
  }

  /** The sessions that started before the cutoff. */
  function Before(m: Model, cutoff: int): set<string> {
    set id | id in m && m[id].report.startedAtMs < cutoff
  }

  // ----- statements on the tables -----

  function DropChildren<K(==), R>(rows: map<(string, K), R>, ids: set<string>): map<(string, K), R> {
    map key | key in rows && key.0 !in ids :: rows[key]
  }

  /** `DELETE FROM sessions`, cascading to both child tables. */
  function DeleteSessions(t: Tables, ids: set<string>): Tables {
    Tables(t.sessions - ids, DropChildren(t.tools, ids), DropChildren(t.turns, ids))
  }

  /** `INSERT OR REPLACE INTO sessions`, which does not name the episodes column. */
  function InsertOrReplace(t: Tables, id: string, row: SessionRow, replace: Replace): Tables {
    match replace
    case InPlace =>
      var episodes := if id in t.sessions then t.sessions[id].episodes else DefaultEpisodes;
      t.(sessions := t.sessions[id := row.(episodes := episodes)])
    case DeleteInsert =>
      var rest := DeleteSessions(t, {id});
      rest.(sessions := rest.sessions[id := row.(episodes := DefaultEpisodes)])
  }

  lemma {:induction false} DeleteTools(tools: map<(string, string), ToolRow>, m: Model, ids: set<string>)
    requires ToolsMatch(tools, m)
    ensures ToolsMatch(DropChildren(tools, ids), Without(m, ids))
  {
  }

  lemma {:induction false} DeleteTurns(turns: map<(string, int), TurnRow>, m: Model, ids: set<string>)
    requires TurnsMatch(turns, m)
    ensures TurnsMatch(DropChildren(turns, ids), Without(m, ids))
  {
  }

  lemma {:induction false} DeleteRefines(t: Tables, m: Model, ids: set<string>)
    requires Refines(t, m)
    ensures Refines(DeleteSessions(t, ids), Without(m, ids))
  {
    hide ToolsMatch, TurnsMatch, DropChildren, SessionRowOf, Storable;
    DeleteTools(t.tools, m, ids);
    DeleteTurns(t.turns, m, ids);
  }

  datatype SqliteError = StatementFailed | PrimaryKeyConflict

  /** The rows `INSERT`ed into `tools_loaded` so far, over the rows `base` of other sessions. */
  ghost predicate ToolsInserted(tools: map<(string, string), ToolRow>, base: map<(string, string), ToolRow>,
                                id: string, ranks: seq<ToolRank>) {
    forall key: (string, string) ::
      if key.0 == id then
        && (key in tools <==> ToolNamed(ranks, key.1).Some?)
        && (key in tools ==> tools[key] == ToolRowOf(ToolNamed(ranks, key.1).value))
      else
        (key in tools <==> key in base) && (key in base ==> tools[key] == base[key])
  }

  ghost predicate TurnsInserted(turns: map<(string, int), TurnRow>, base: map<(string, int), TurnRow>,
                                id: string, summary: seq<TurnSummary>) {
    forall key: (string, int) ::
      if key.0 == id then
        && (key in turns <==> 0 <= key.1 < |summary|)
        && (key in turns ==> turns[key] == TurnRowOf(summary[key.1]))
      else
        (key in turns <==> key in base) && (key in base ==> turns[key] == base[key])
  }

  lemma {:induction false} ToolsInsertedNone(base: map<(string, string), ToolRow>, id: string)
    requires forall key | key in base :: key.0 != id
    ensures ToolsInserted(base, base, id, [])
  {
  }

  lemma {:induction false} ToolsInsertedHas(tools: map<(string, string), ToolRow>, base: map<(string, string), ToolRow>,
                                            id: string, ranks: seq<ToolRank>, name: string)
    requires ToolsInserted(tools, base, id, ranks)
    ensures (id, name) in tools <==> exists r :: r in ranks && r.name == name
  {
    hide ToolNamed;
    assert (id, name) in tools <==> ToolNamed(ranks, (id, name).1).Some?;
    if ToolNamed(ranks, name).Some? { assert ToolNamed(ranks, name).value in ranks; }
  }

  lemma {:induction false} ToolsInsertedNext(tools: map<(string, string), ToolRow>,
                                             base: map<(string, string), ToolRow>, id: string,
                                             ranks: seq<ToolRank>, row: ToolRank)
    requires ToolsInserted(tools, base, id, ranks)
    ensures ToolsInserted(tools[(id, row.name) := ToolRowOf(row)], base, id, ranks + [row])
  {
    assert (ranks + [row])[..|ranks|] == ranks;
  }

  method InsertTools(base: map<(string, string), ToolRow>, id: string, ranks: seq<ToolRank>, step: nat,
                     fails: nat -> bool)
    returns (r: Result<map<(string, string), ToolRow>, SqliteError>)
    requires forall key | key in base :: key.0 != id
    ensures r.Ok? <==> DistinctTools(ranks) && forall k | step <= k < step + |ranks| :: !fails(k)
    ensures r.Ok? ==> ToolsInserted(r.value, base, id, ranks)
  {
    hide ToolsInserted, ToolNamed;
    var tools := base;
    ToolsInsertedNone(base, id);
    assert ranks[..0] == [];
    for k := 0 to |ranks|
      invariant ToolsInserted(tools, base, id, ranks[..k]) && DistinctTools(ranks[..k])
      invariant forall q | step <= q < step + k :: !fails(q)
    {
      var row := ranks[k];
      ToolsInsertedHas(tools, base, id, ranks[..k], row.name);
      if fails(step + k) {
        return Err(StatementFailed);
      }
      if (id, row.name) in tools {
        return Err(PrimaryKeyConflict);
      }
      ToolsInsertedNext(tools, base, id, ranks[..k], row);
      assert ranks[..k + 1] == ranks[..k] + [row];
      tools := tools[(id, row.name) := ToolRow(row.source, ClampI64(row.callCount), row.durationMs, None, None)];
    }
    assert ranks[..|ranks|] == ranks;
    return Ok(tools);
  }

  method InsertTurns(base: map<(string, int), TurnRow>, id: string, summary: seq<TurnSummary>, step: nat,
                     fails: nat -> bool)
    returns (r: Result<map<(string, int), TurnRow>, SqliteError>)
    requires forall key | key in base :: key.0 != id
    ensures r.Ok? <==> |summary| <= I64_MAX + 1 && forall k | step <= k < step + |summary| :: !fails(k)
    ensures r.Ok? ==> TurnsInserted(r.value, base, id, summary)
  {
    var turns := base;
    for idx := 0 to |summary|
      invariant TurnsInserted(turns, base, id, summary[..idx]) && idx <= I64_MAX + 1
      invariant forall q | step <= q < step + idx :: !fails(q)
    {
      var turn := summary[idx];
      if fails(step + idx) {
        return Err(StatementFailed);
      }
      var key := (id, ClampI64(idx));
      if key in turns {
        return Err(PrimaryKeyConflict);
      }
      turns := turns[key := TurnRow(None, turn.outputTokens, None, None, turn.model)];
    }
    assert summary[..|summary|] == summary;
    return Ok(turns);
  }

  /** The statements of an upsert: serialising, beginning, one for the parent row, two deletions, one per
    * child row, and committing. */
  function Statements(r: Report): nat {
    6 + |r.toolRank| + |r.turns|
  }

  /** `u` is `t` after the statements of an upsert of `row`'s report. */
  ghost predicate Written(t: Tables, u: Tables, row: SessionRow, replace: Replace) {
    var r := row.report;
    var t1 := InsertOrReplace(t, r.id, row, replace);
    && u.sessions == t1.sessions
    && ToolsInserted(u.tools, DropChildren(t1.tools, {r.id}), r.id, r.toolRank)
    && TurnsInserted(u.turns, DropChildren(t1.turns, {r.id}), r.id, r.turns)
  }

  /** The statements of an upsert inside its transaction, on a copy of the tables: the parent row, then
    * each child table cleared and filled again. */
  method UpsertStatements(t0: Tables, report: Report, rawPath: string, rawMtime: int, ingestedAtMs: int,
                          replace: Replace, fails: nat -> bool)
    returns (r: Result<Tables, SqliteError>)
    ensures r.Ok? <==> Storable(report) && forall k | 2 <= k < Statements(report) - 1 :: !fails(k)
    ensures r.Ok? ==> Written(t0, r.value, NewRow(report, rawPath, rawMtime, ingestedAtMs), replace)
  {
    var id := report.id;
    if fails(2) {
      return Err(StatementFailed);
    }
    var t := InsertOrReplace(t0, id, NewRow(report, rawPath, rawMtime, ingestedAtMs), replace);
    if fails(3) {
      return Err(StatementFailed);
    }
    var newTools := InsertTools(DropChildren(t.tools, {id}), id, report.toolRank, 4, fails);
    if newTools.Err? {
      return Err(newTools.error);
    }
    var step := 4 + |report.toolRank|;
    if fails(step) {
      return Err(StatementFailed);
    }
    var newTurns := InsertTurns(DropChildren(t.turns, {id}), id, report.turns, step + 1, fails);
    if newTurns.Err? {
      return Err(newTurns.error);
    }
    return Ok(Tables(t.sessions, newTools.value, newTurns.value));
  }

  /** A length of time, as the standard library keeps it: whole seconds and nanoseconds. */
  datatype Duration = Duration(secs: nat, nanos: nat)

  function AsMillis(d: Duration): nat {
    d.secs * 1000 + d.nanos / 1_000_000
  }

  /** `saturating_sub` on 64 bits. */
  function SaturatingSub(a: int, b: int): int {
    ClampI64(a - b)
  }

  /** The cutoff of `prune_before`, which takes the minimum before converting. */
  function PruneCutoff(retention: Duration, now: int): int {
    SaturatingSub(now, if AsMillis(retention) < I64_MAX then AsMillis(retention) else I64_MAX)
  }

  /** The cutoff of `query_sessions_since`, which falls back when converting fails. */
  function QueryCutoff(since: Duration, now: int): int {
    SaturatingSub(now, if AsMillis(since) <= I64_MAX then AsMillis(since) else I64_MAX)
  }

  /** The rows that the two statements of `prune_before` select. */
  function Expired(sessions: map<string, SessionRow>, cutoff: int): set<string> {
    set id | id in sessions && sessions[id].startedAt.Some? && sessions[id].startedAt.value < cutoff
  }

  /** The rows that `query_sessions_since` selects. */
  function Recent(sessions: map<string, SessionRow>, cutoff: int): set<string> {
    set id | id in sessions && sessions[id].startedAt.Some? && sessions[id].startedAt.value >= cutoff
  }

  // ----- the cutoff in milliseconds -----

  /** The span of a duration in whole milliseconds. */
  predicate IsMillis(d: Duration, ms: nat) {
    ms == 1000 * d.secs + d.nanos / 1_000_000
  }

  predicate IsI64(n: int) {
    -0x8000_0000_0000_0000 <= n <= 0x7FFF_FFFF_FFFF_FFFF
  }

  /** `cutoff` is `now` less the span `ms`. A span too long for 64 bits counts as the longest one there is,
    * and a cutoff too early for 64 bits is the earliest one there is. */
  predicate IsCutoff(cutoff: int, now: int, ms: nat) {
    var longest, earliest := 0x7FFF_FFFF_FFFF_FFFF, -0x8000_0000_0000_0000;
    if ms <= longest then
      if now - ms >= earliest then cutoff == now - ms else cutoff == earliest
    else
      if now >= -1 then cutoff == now - longest else cutoff == earliest
  }

  lemma {:induction false} CutoffMeans(d: Duration, now: int, ms: nat)
    requires IsI64(now) && IsMillis(d, ms)
    ensures IsCutoff(PruneCutoff(d, now), now, ms) && IsCutoff(QueryCutoff(d, now), now, ms)
  {
  }

  /** What a query over a window returns: the sessions that started no earlier than the window's span before
    * `now`; all of them if that is before the earliest time there is. */
  lemma {:induction false} RecentMeans(sessions: map<string, SessionRow>, d: Duration, now: int, ms: nat, id: string)
    requires IsI64(now) && IsMillis(d, ms) && id in sessions
    requires sessions[id].startedAt.Some? && IsI64(sessions[id].startedAt.value)
    ensures ms <= 0x7FFF_FFFF_FFFF_FFFF && now - ms >= -0x8000_0000_0000_0000 ==>
              (id in Recent(sessions, QueryCutoff(d, now)) <==> sessions[id].startedAt.value >= now - ms)
    ensures ms <= 0x7FFF_FFFF_FFFF_FFFF && now - ms < -0x8000_0000_0000_0000 ==>
              id in Recent(sessions, QueryCutoff(d, now))
    ensures ms > 0x7FFF_FFFF_FFFF_FFFF && now >= -1 ==>
              (id in Recent(sessions, QueryCutoff(d, now)) <==>
                 sessions[id].startedAt.value >= now - 0x7FFF_FFFF_FFFF_FFFF)
    ensures ms > 0x7FFF_FFFF_FFFF_FFFF && now < -1 ==> id in Recent(sessions, QueryCutoff(d, now))
  {
    CutoffMeans(d, now, ms);
  }

  predicate UpsertSucceeds(r: Report, fails: nat -> bool) {
    Storable(r) && forall k | 0 <= k < Statements(r) :: !fails(k)
  }

  /** Which of two numbers `MIN` or `MAX` prefers. */
  predicate AtLeastAsGood(latest: bool, a: int, b: int) {
    if latest then a >= b else a <= b
  }

  /** `best` is one of the listed starts that are not null, and none is better. */
  ghost predicate IsExtreme(best: Option<int>, starts: map<string, Option<int>>, latest: bool) {
    && (best.Some? ==> exists id :: id in starts && starts[id] == best)
    && forall id | id in starts && starts[id].Some? ::
         best.Some? && AtLeastAsGood(latest, best.value, starts[id].value)
  }

  /** `MIN` or `MAX` over a column; the rows come in any order. */
  method Extreme(starts: map<string, Option<int>>, latest: bool) returns (best: Option<int>)
    ensures IsExtreme(best, starts, latest)
  {
    best := None;
    var left := starts.Keys;
    while left != {}
      invariant left <= starts.Keys
      invariant best.Some? ==> exists id :: id in starts && starts[id] == best
      invariant forall id | id in starts && id !in left && starts[id].Some? ::
                  best.Some? && AtLeastAsGood(latest, best.value, starts[id].value)
      decreases |left|
    {
      var id :| id in left;
      if starts[id].Some? && (best.None? || AtLeastAsGood(latest, starts[id].value, best.value)) {
        best := starts[id];
      }
      left := left - {id};
    }
  }

  /** The starts that the store remembers. */
  function Starts(m: Model): map<string, Option<int>> {
    map id | id in m :: Some(m[id].report.startedAtMs)
  }

  /** `after` is `before` without the sessions that started earlier than the retention before `now`, told in
    * seconds and nanoseconds; nothing is dropped if that is before the earliest time there is. */
  ghost predicate DropsOld(before: Model, after: Model, retention: Duration, now: int) {
    var ms := 1000 * retention.secs + retention.nanos / 1_000_000;
    && (forall id | id in after :: id in before && after[id] == before[id])
    && (ms <= 0x7FFF_FFFF_FFFF_FFFF && now - ms >= -0x8000_0000_0000_0000 ==>
          forall id | id in before :: id !in after <==> before[id].report.startedAtMs < now - ms)
    && (ms > 0x7FFF_FFFF_FFFF_FFFF && now >= -1 ==>
          forall id | id in before :: id !in after <==> before[id].report.startedAtMs < now - 0x7FFF_FFFF_FFFF_FFFF)
    && ((ms <= 0x7FFF_FFFF_FFFF_FFFF && now - ms < -0x8000_0000_0000_0000)
        || (ms > 0x7FFF_FFFF_FFFF_FFFF && now < -1) ==>
          forall id | id in before :: id !in after <==> before[id].report.startedAtMs < -0x8000_0000_0000_0000)
  }

  lemma {:induction false} PruneDrops(m: Model, retention: Duration, now: int)
    ensures IsI64(now) ==> DropsOld(m, Without(m, Before(m, PruneCutoff(retention, now))), retention, now)
  {
    if IsI64(now) { CutoffMeans(retention, now, 1000 * retention.secs + retention.nanos / 1_000_000); }
  }

  /** Counting is the first statement of a prune, deleting the second. */
  predicate PruneFails(dryRun: bool, fails: nat -> bool) {
    fails(0) || (!dryRun && fails(1))
  }

  /** The database. The model is what the tables stand for; `Valid` ties the two together. */
  class Db {
    var sessions: map<string, SessionRow>
    var tools: map<(string, string), ToolRow>
    var turns: map<(string, int), TurnRow>
    ghost var model: Model

    ghost function Snapshot(): Tables
      reads this
    {
      Tables(sessions, tools, turns)
    }

    ghost predicate Valid()
      reads this
    {
      Refines(Snapshot(), model)
    }

    constructor ()
      ensures Valid() && model == map[] && Snapshot() == EMPTY
    {
      sessions, tools, turns := map[], map[], map[];
      model := map[];
    }

    /** Writes one session to all three tables in a transaction; `fails` says which statements fail.
      * Either the whole report is stored, whatever was stored for its id before, or nothing changes. */
    method UpsertReport(report: Report, rawPath: string, rawMtime: int, ingestedAtSecs: int,
                        replace: Replace, fails: nat -> bool)
      returns (r: Result<nat, SqliteError>)
      requires Valid()
      modifies this
      ensures Valid()
      ensures r.Err? ==> Snapshot() == old(Snapshot()) && model == old(model)
      ensures r.Ok? ==> r.value == 1
                        && model == old(model)[report.id :=
                             EntryOf(old(model), report, rawPath, rawMtime, ingestedAtSecs, replace)]
      ensures r.Ok? <==> UpsertSucceeds(report, fails)
      ensures r.Ok? ==> && model[report.id].report == report && model[report.id].rawPath == rawPath
                        && model[report.id].rawMtime == rawMtime
                        && (IsI64(1000 * ingestedAtSecs) ==> model[report.id].ingestedAtMs == 1000 * ingestedAtSecs)
    {
      hide Refines, Written, NewRow, Storable;
      if fails(0) || fails(1) {
        return Err(StatementFailed);
      }
      var written := UpsertStatements(Tables(sessions, tools, turns), report, rawPath, rawMtime,
                                      ClampI64(ingestedAtSecs * 1000), replace, fails);
      if written.Err? {
        return Err(written.error);
      }
      if fails(Statements(report) - 1) {
        return Err(StatementFailed);
      }
      ghost var entry := EntryOf(model, report, rawPath, rawMtime, ingestedAtSecs, replace);
      UpsertRefines(Snapshot(), model, written.value, entry, replace);
      sessions, tools, turns := written.value.sessions, written.value.tools, written.value.turns;
      model := model[report.id := entry];
      return Ok(1);
    }

    /** Updates one column of a session that is there; returns the number of rows it found. */
    method UpsertEpisodes(id: string, episodes: Episodes, fails: bool) returns (r: Result<nat, SqliteError>)
      requires Valid()
      modifies this
      ensures Valid()
      ensures r.Err? <==> fails
      ensures r.Err? ==> Snapshot() == old(Snapshot()) && model == old(model)
      ensures r.Ok? ==> model == WithEpisodes(old(model), id, episodes)
                        && r.value == (if id in old(model) then 1 else 0)
    {
      if fails {
        return Err(StatementFailed);
      }
      if id !in sessions {
        return Ok(0);
      }
      EpisodesSessions(sessions, model, id, episodes);
      EpisodesChildren(Snapshot(), model, id, episodes);
      ghost var after := WithEpisodes(model, id, episodes);
      sessions := sessions[id := sessions[id].(episodes := episodes)];
      model := after;
      return Ok(1);
    }

    /** Deletes the sessions that started before the cutoff, and their children; a dry run only counts. A
      * failure of either statement changes nothing. */
    method PruneBefore(retention: Duration, now: int, dryRun: bool, fails: nat -> bool)
      returns (r: Result<nat, SqliteError>)
      requires Valid()
      modifies this
      ensures Valid()
      ensures r.Err? <==> PruneFails(dryRun, fails)
      ensures r.Ok? ==> r.value == |Before(old(model), PruneCutoff(retention, now))|
      ensures r.Err? || dryRun ==> Snapshot() == old(Snapshot()) && model == old(model)
      ensures r.Ok? && !dryRun ==>
                && model == Without(old(model), Before(old(model), PruneCutoff(retention, now)))
                && Snapshot() == DeleteSessions(old(Snapshot()), Before(old(model), PruneCutoff(retention, now)))
      ensures r.Ok? && !dryRun && IsI64(now) ==> DropsOld(old(model), model, retention, now)
    {
      PruneDrops(model, retention, now);
      var cutoff := PruneCutoff(retention, now);
      var doomed := Expired(sessions, cutoff);
      assert doomed == Before(model, cutoff);
      if fails(0) {
        return Err(StatementFailed);
      }
      if dryRun {
        return Ok(|doomed|);
      }
      if fails(1) {
        return Err(StatementFailed);
      }
      DeleteRefines(Snapshot(), model, doomed);
      var t := DeleteSessions(Tables(sessions, tools, turns), doomed);
      sessions, tools, turns := t.sessions, t.tools, t.turns;
      model := Without(model, doomed);
      return Ok(|doomed|);
    }

    /** Reads back the report blob; None is `QueryReturnedNoRows`. */
    method LoadSession(id: string) returns (r: Option<Report>)
      requires Valid()
      ensures r == if id in model then Some(model[id].report) else None
    {
      return if id in sessions then Some(sessions[id].report) else None;
    }

    /** The row counts of the three tables, and the earliest and the latest start. */
    method Stats()
      returns (sessionCount: nat, toolCount: nat, turnCount: nat, oldest: Option<int>, newest: Option<int>)
      requires Valid()
      ensures forall ids | Enumerates(ids, model) ::
                sessionCount == |ids| && toolCount == Totals(model, ids).0 && turnCount == Totals(model, ids).1
      ensures IsExtreme(oldest, Starts(model), false) && IsExtreme(newest, Starts(model), true)
    {
      forall ids | Enumerates(ids, model) { StatsExact(Snapshot(), model, ids); }
      var starts := map id | id in sessions :: sessions[id].startedAt;
      assert starts == Starts(model);
      oldest := Extreme(starts, false);
      newest := Extreme(starts, true);
      sessionCount, toolCount, turnCount := |sessions|, |tools|, |turns|;
    }

    method LoadEpisodes(id: string) returns (r: Option<Episodes>)
      requires Valid()
      ensures r == if id in model then Some(model[id].episodes) else None
    {
      return if id in sessions then Some(sessions[id].episodes) else None;
    }
  }

  lemma UpsertSessions(t0: Tables, m: Model, row: SessionRow, e: Entry, replace: Replace)
    requires SessionsMatch(t0.sessions, m) && Storable(e.report)
    requires e.episodes == if replace.InPlace? && e.report.id in m then m[e.report.id].episodes else DefaultEpisodes
    requires row.(episodes := e.episodes) == SessionRowOf(e)
    ensures SessionsMatch(InsertOrReplace(t0, e.report.id, row, replace).sessions, m[e.report.id := e])
  {
  }

  lemma {:induction false} ClearedTools(t: Tables, id: string, row: SessionRow, replace: Replace)
    ensures var base := DropChildren(InsertOrReplace(t, id, row, replace).tools, {id});
            && (forall key :: key in base <==> key in t.tools && key.0 != id)
            && forall key | key in base :: base[key] == t.tools[key]
  {
  }

  lemma {:induction false} ClearedTurns(t: Tables, id: string, row: SessionRow, replace: Replace)
    ensures var base := DropChildren(InsertOrReplace(t, id, row, replace).turns, {id});
            && (forall key :: key in base <==> key in t.turns && key.0 != id)
            && forall key | key in base :: base[key] == t.turns[key]
  {
  }

  /** Clearing a session's rows and inserting the new ones gives the same table whether or not the
    * replaced parent took its children with it. */
  lemma UpsertTools(t0: Tables, m: Model, row: SessionRow, tools: map<(string, string), ToolRow>, e: Entry,
                    replace: Replace)
    requires ToolsMatch(t0.tools, m)
    requires ToolsInserted(tools, DropChildren(InsertOrReplace(t0, e.report.id, row, replace).tools, {e.report.id}),
                           e.report.id, e.report.toolRank)
    ensures ToolsMatch(tools, m[e.report.id := e])
  {
    ClearedTools(t0, e.report.id, row, replace);
    hide InsertOrReplace, DropChildren, ToolRowOf, ToolNamed;
  }

  lemma UpsertTurns(t0: Tables, m: Model, row: SessionRow, turns: map<(string, int), TurnRow>, e: Entry,
                    replace: Replace)
    requires TurnsMatch(t0.turns, m)
    requires TurnsInserted(turns, DropChildren(InsertOrReplace(t0, e.report.id, row, replace).turns, {e.report.id}),
                           e.report.id, e.report.turns)
    ensures TurnsMatch(turns, m[e.report.id := e])
  {
    ClearedTurns(t0, e.report.id, row, replace);
    hide InsertOrReplace, DropChildren, TurnRowOf;
  }

  lemma UpsertRefines(t: Tables, m: Model, u: Tables, e: Entry, replace: Replace)
    requires Refines(t, m) && Storable(e.report)
    requires e.episodes == if replace.InPlace? && e.report.id in m then m[e.report.id].episodes else DefaultEpisodes
    requires Written(t, u, NewRow(e.report, e.rawPath, e.rawMtime, e.ingestedAtMs), replace)
    ensures Refines(u, m[e.report.id := e])
  {
    var row := NewRow(e.report, e.rawPath, e.rawMtime, e.ingestedAtMs);
    UpsertSessions(t, m, row, e, replace);
    UpsertTools(t, m, row, u.tools, e, replace);
    UpsertTurns(t, m, row, u.turns, e, replace);
  }

  lemma EpisodesSessions(sessions: map<string, SessionRow>, m: Model, id: string, episodes: Episodes)
    requires SessionsMatch(sessions, m) && id in m
    ensures SessionsMatch(sessions[id := sessions[id].(episodes := episodes)], WithEpisodes(m, id, episodes))
  {
  }

  lemma EpisodesChildren(t: Tables, m: Model, id: string, episodes: Episodes)
    requires ToolsMatch(t.tools, m) && TurnsMatch(t.turns, m)
    ensures ToolsMatch(t.tools, WithEpisodes(m, id, episodes)) && TurnsMatch(t.turns, WithEpisodes(m, id, episodes))
  {
    SameReportsSameTools(t.tools, m, WithEpisodes(m, id, episodes));
    SameReportsSameTurns(t.turns, m, WithEpisodes(m, id, episodes));
  }

  lemma SameReportsSameTools(tools: map<(string, string), ToolRow>, m: Model, n: Model)
    requires m.Keys == n.Keys && forall id | id in m :: m[id].report == n[id].report
    requires ToolsMatch(tools, m)
    ensures ToolsMatch(tools, n)
  {
  }

  lemma SameReportsSameTurns(turns: map<(string, int), TurnRow>, m: Model, n: Model)
    requires m.Keys == n.Keys && forall id | id in m :: m[id].report == n[id].report
    requires TurnsMatch(turns, m)
    ensures TurnsMatch(turns, n)
  {
  }

  // ----- runs -----

  datatype Op =
    | Upsert(report: Report, rawPath: string, rawMtime: int, secs: int, fails: nat -> bool)
    | PutEpisodes(id: string, episodes: Episodes, failed: bool)
    | Prune(retention: Duration, now: int, dryRun: bool, fails: nat -> bool)

  ghost function StepModel(m: Model, op: Op, replace: Replace): Model {
    match op
    case Upsert(report, rawPath, rawMtime, secs, fails) =>
      if UpsertSucceeds(report, fails)
      then m[report.id := EntryOf(m, report, rawPath, rawMtime, secs, replace)]
      else m
    case PutEpisodes(id, episodes, failed) => if failed then m else WithEpisodes(m, id, episodes)
    case Prune(retention, now, dryRun, fails) =>
      if dryRun || PruneFails(dryRun, fails) then m else Without(m, Before(m, PruneCutoff(retention, now)))
  }

  ghost function RunModel(m: Model, ops: seq<Op>, replace: Replace): Model {
    if ops == [] then m else StepModel(RunModel(m, ops[..|ops| - 1], replace), ops[|ops| - 1], replace)
  }

  /** Any run of operations on a fresh database ends with the tables standing for the abstract run. */
  method Replay(ops: seq<Op>, replace: Replace) returns (db: Db)
    ensures fresh(db) && db.Valid() && db.model == RunModel(map[], ops, replace)
  {
    db := new Db();
    for k := 0 to |ops|
      invariant fresh(db) && db.Valid() && db.model == RunModel(map[], ops[..k], replace)
    {
      assert ops[..k + 1][..k] == ops[..k];
      match ops[k]
      case Upsert(report, rawPath, rawMtime, secs, fails) =>
        var _ := db.UpsertReport(report, rawPath, rawMtime, secs, replace, fails);
      case PutEpisodes(id, episodes, failed) =>
        var _ := db.UpsertEpisodes(id, episodes, failed);
      case Prune(retention, now, dryRun, fails) =>
        var _ := db.PruneBefore(retention, now, dryRun, fails);
    }
    assert ops[..|ops|] == ops;
  }

  /** No child row without its session, and each session's child rows are those of its report: one per
    * tool, and the turns 0 to n-1. */
  lemma ChildrenExact(t: Tables, m: Model, id: string)
    requires Refines(t, m) && id in m
    ensures forall key | key in t.tools :: key.0 in t.sessions
    ensures forall key | key in t.turns :: key.0 in t.sessions
    ensures forall k :: (id, k) in t.turns <==> 0 <= k < |m[id].report.turns|
    ensures forall name | (id, name) in t.tools :: exists r :: r in m[id].report.toolRank && r.name == name
    ensures forall r | r in m[id].report.toolRank ::
              (id, r.name) in t.tools && t.tools[(id, r.name)] == ToolRowOf(r)
  {
    forall name | (id, name) in t.tools
      ensures exists r :: r in m[id].report.toolRank && r.name == name
    {
      var r := ToolNamed(m[id].report.toolRank, (id, name).1).value;
      assert r in m[id].report.toolRank;
    }
    forall r | r in m[id].report.toolRank
      ensures (id, r.name) in t.tools && t.tools[(id, r.name)] == ToolRowOf(r)
    {
      ToolUnique(m[id].report.toolRank, r);
    }
  }

  /** `n`, or the largest 64-bit number. */
  predicate IsCapped(stored: int, n: nat) {
    stored == (if n <= 0x7FFF_FFFF_FFFF_FFFF then n else 0x7FFF_FFFF_FFFF_FFFF)
  }

  /** A row of `sessions` in its columns. */
  predicate IsRowOf(row: SessionRow, e: Entry) {
    && row.agent == e.report.agent && row.startedAt == Some(e.report.startedAtMs) && row.durationMs == None
    && row.rawPath == e.rawPath && row.rawMtime == e.rawMtime && row.totals == e.report.totals
    && row.schemaVersion == 1 && row.ingestedAt == e.ingestedAtMs
    && row.report == e.report && row.episodes == e.episodes
    && match e.report.models
       case None => row.dominantModel == None
       case Some(ms) =>
         if ms == [] then row.dominantModel == None
         else
           row.dominantModel.Some?
           && exists m | m in ms :: m.name == row.dominantModel.value && IsDominant(m, ms)
  }

  /** The largest total, and of those the smallest name. */
  predicate IsDominant(m: ModelUsage, ms: seq<ModelUsage>) {
    forall o | o in ms :: o.total < m.total || (o.total == m.total && !StringLess(o.name, m.name))
  }

  /** Every column of every row of a session is what its report says. */
  lemma {:induction false} RowsExact(t: Tables, m: Model, id: string)
    requires Refines(t, m) && id in m
    ensures IsRowOf(t.sessions[id], m[id])
    ensures forall r | r in m[id].report.toolRank ::
              && (id, r.name) in t.tools
              && var row := t.tools[(id, r.name)];
                 row.source == r.source && IsCapped(row.callCount, r.callCount) && row.totalDurationMs == r.durationMs
                 && row.tokens == None && row.tokenSource == None
    ensures forall k | 0 <= k < |m[id].report.turns| ::
              && (id, k) in t.turns
              && var row, turn := t.turns[(id, k)], m[id].report.turns[k];
                 row.outputTokens == turn.outputTokens && row.model == turn.model
                 && row.inputTokens == None && row.cacheRead == None && row.cacheCreation == None
  {
    ChildrenExact(t, m, id);
    var models := m[id].report.models;
    if models.Some? && models.value != [] { DominantBest(models.value); }
    forall k | 0 <= k < |m[id].report.turns|
      ensures (id, k) in t.turns && t.turns[(id, k)] == TurnRowOf(m[id].report.turns[k])
    {
      assert (id, k) in t.turns <==> 0 <= (id, k).1 < |m[id].report.turns|;
    }
  }

  lemma {:induction false} ToolUnique(ranks: seq<ToolRank>, r: ToolRank)
    requires DistinctTools(ranks) && r in ranks
    ensures ToolNamed(ranks, r.name) == Some(r)
  {
    var t := ToolNamed(ranks, r.name).value;
    var j :| 0 <= j < |ranks| && ranks[j] == r;
    var k :| 0 <= k < |ranks| && ranks[k] == t;
  }

  // ----- the two readings of REPLACE -----

  /** Equal up to the episodes. */
  ghost predicate SameReports(m: Model, n: Model) {
    m.Keys == n.Keys && forall id | id in m :: m[id].(episodes := n[id].episodes) == n[id]
  }

  lemma {:induction false} ReadingsAgree(ops: seq<Op>)
    ensures SameReports(RunModel(map[], ops, InPlace), RunModel(map[], ops, DeleteInsert))
  {
    if ops != [] {
      ReadingsAgree(ops[..|ops| - 1]);
      var m, n := RunModel(map[], ops[..|ops| - 1], InPlace), RunModel(map[], ops[..|ops| - 1], DeleteInsert);
      assert forall c :: Before(m, c) == Before(n, c);
    }
  }

  lemma SameTools(t: map<(string, string), ToolRow>, u: map<(string, string), ToolRow>, m: Model, n: Model)
    requires ToolsMatch(t, m) && ToolsMatch(u, n) && SameReports(m, n)
    ensures t == u
  {
    assert t.Keys == u.Keys;
  }

  lemma SameTurns(t: map<(string, int), TurnRow>, u: map<(string, int), TurnRow>, m: Model, n: Model)
    requires TurnsMatch(t, m) && TurnsMatch(u, n) && SameReports(m, n)
    ensures t == u
  {
    assert t.Keys == u.Keys;
  }

  /** The abstract store determines every table. */
  lemma RefinementDetermines(t: Tables, u: Tables, m: Model)
    requires Refines(t, m) && Refines(u, m)
    ensures t == u
  {
    assert t.sessions == u.sessions;
    SameTools(t.tools, u.tools, m, m);
    SameTurns(t.turns, u.turns, m, m);
  }

  /** After any run both readings leave the same child tables. */
  lemma {:induction false} ChildTablesAgree(ops: seq<Op>, t: Tables, u: Tables)
    requires Refines(t, RunModel(map[], ops, InPlace)) && Refines(u, RunModel(map[], ops, DeleteInsert))
    ensures t.tools == u.tools && t.turns == u.turns
  {
    var m, n := RunModel(map[], ops, InPlace), RunModel(map[], ops, DeleteInsert);
    ReadingsAgree(ops);
    SameTools(t.tools, u.tools, m, n);
    SameTurns(t.turns, u.turns, m, n);
  }

  /** A successful write of the report of `id`. */
  predicate WritesReport(op: Op, id: string) {
    op.Upsert? && op.report.id == id && UpsertSucceeds(op.report, op.fails)
  }

  /** A successful write of the episodes of `id`. */
  predicate WritesEpisodes(op: Op, id: string) {
    op.PutEpisodes? && op.id == id && !op.failed
  }

  /** Whether the last successful write to `id` is a report. */
  predicate Rewritten(ops: seq<Op>, id: string) {
    if ops == [] then false
    else
      var last := ops[|ops| - 1];
      WritesReport(last, id) || (!WritesEpisodes(last, id) && Rewritten(ops[..|ops| - 1], id))
  }

  /** The last episodes put for `id` since its row was made; none were put if there is no row. */
  ghost function LastPut(ops: seq<Op>, id: string): Episodes {
    if ops == [] || id !in RunModel(map[], ops, InPlace) then DefaultEpisodes
    else
      var last := ops[|ops| - 1];
      if WritesEpisodes(last, id) then last.episodes else LastPut(ops[..|ops| - 1], id)
  }

  /** What each reading keeps of a session's episodes, after any run: in place, what was put last; with
    * delete and insert, that too unless the report was written again behind it. */
  lemma {:induction false} EpisodesKept(ops: seq<Op>, id: string)
    requires id in RunModel(map[], ops, InPlace)
    ensures id in RunModel(map[], ops, DeleteInsert)
    ensures RunModel(map[], ops, InPlace)[id].episodes == LastPut(ops, id)
    ensures RunModel(map[], ops, DeleteInsert)[id].episodes
         == if Rewritten(ops, id) then DefaultEpisodes else LastPut(ops, id)
  {
    ReadingsAgree(ops);
    if ops != [] {
      var front := ops[..|ops| - 1];
      ReadingsAgree(front);
      if id in RunModel(map[], front, InPlace) {
        EpisodesKept(front, id);
      } else {
        assert front == [] || LastPut(front, id) == DefaultEpisodes;
      }
    }
  }

  /** The readings cannot be told apart for `id`. */
  ghost predicate Agree(ops: seq<Op>, id: string) {
    Rewritten(ops, id) ==> LastPut(ops, id) == DefaultEpisodes
  }

  lemma {:induction false} ModelsAgree(ops: seq<Op>)
    ensures var m, n := RunModel(map[], ops, InPlace), RunModel(map[], ops, DeleteInsert);
            m == n <==> forall id | id in m :: Agree(ops, id)
  {
    hide RunModel, Rewritten, LastPut;
    var m, n := RunModel(map[], ops, InPlace), RunModel(map[], ops, DeleteInsert);
    ReadingsAgree(ops);
    forall id | id in m
      ensures Agree(ops, id) <==> m[id] == n[id]
    {
      EpisodesKept(ops, id);
    }
  }

  lemma {:induction false} TablesTellModels(t: Tables, u: Tables, m: Model, n: Model)
    requires Refines(t, m) && Refines(u, n) && SameReports(m, n)
    ensures t.sessions.Keys == m.Keys && (t == u <==> m == n)
  {
    hide ToolsMatch, TurnsMatch, Storable;
    if m == n {
      RefinementDetermines(t, u, m);
    }
    if t == u {
      assert forall id | id in m :: t.sessions[id].episodes == m[id].episodes == n[id].episodes;
    }
  }

  /** Exactly when both readings leave the same database: unless some stored session has had its report
    * written again behind episodes that are not the default. */
  lemma {:induction false} ReadingsAgreeExactly(ops: seq<Op>, t: Tables, u: Tables)
    requires Refines(t, RunModel(map[], ops, InPlace)) && Refines(u, RunModel(map[], ops, DeleteInsert))
    ensures t == u <==> forall id | id in t.sessions :: Agree(ops, id)
  {
    hide RunModel, Agree, Refines, SameReports;
    ReadingsAgree(ops);
    ModelsAgree(ops);
    TablesTellModels(t, u, RunModel(map[], ops, InPlace), RunModel(map[], ops, DeleteInsert));
  }

  /** An upsert that hits a row with episodes other than the default. */
  ghost predicate Overwrites(m: Model, op: Op) {
    op.Upsert? && WritesReport(op, op.report.id) && op.report.id in m
    && m[op.report.id].episodes != DefaultEpisodes
  }

  lemma {:induction false} StepAgrees(m: Model, op: Op)
    ensures StepModel(m, op, InPlace) == StepModel(m, op, DeleteInsert) <==> !Overwrites(m, op)
  {
    if Overwrites(m, op) {
      var id := op.report.id;
      assert StepModel(m, op, InPlace)[id].episodes != StepModel(m, op, DeleteInsert)[id].episodes;
    }
  }

  /** The readings agree after the first `k` operations. */
  ghost predicate AgreeAt(ops: seq<Op>, k: nat)
    requires k <= |ops|
  {
    RunModel(map[], ops[..k], InPlace) == RunModel(map[], ops[..k], DeleteInsert)
  }

  /** The operation behind them is no overwriting upsert. */
  ghost predicate SafeAt(ops: seq<Op>, k: nat)
    requires k < |ops|
  {
    !Overwrites(RunModel(map[], ops[..k], InPlace), ops[k])
  }

  lemma {:induction false} AgreeNext(ops: seq<Op>, k: nat)
    requires k < |ops| && AgreeAt(ops, k)
    ensures AgreeAt(ops, k + 1) <==> SafeAt(ops, k)
  {
    hide StepModel, Overwrites;
    assert ops[..k + 1][..k] == ops[..k];
    StepAgrees(RunModel(map[], ops[..k], InPlace), ops[k]);
  }

  lemma {:induction false} SafeAgrees(ops: seq<Op>, n: nat)
    requires n <= |ops| && forall k | 0 <= k < n :: SafeAt(ops, k)
    ensures AgreeAt(ops, n)
  {
    if n == 0 {
      assert ops[..0] == [];
    } else {
      hide AgreeAt, SafeAt;
      SafeAgrees(ops, n - 1);
      AgreeNext(ops, n - 1);
    }
  }

  /** The readings agree all along a run exactly if no upsert in it hits a row with episodes: something a
    * caller can tell before each write. */
  lemma {:induction false} AgreeThroughout(ops: seq<Op>)
    ensures (forall k | 0 <= k <= |ops| :: AgreeAt(ops, k)) <==> (forall k | 0 <= k < |ops| :: SafeAt(ops, k))
  {
    hide AgreeAt, SafeAt;
    if forall k | 0 <= k <= |ops| :: AgreeAt(ops, k) {
      forall k | 0 <= k < |ops|
        ensures SafeAt(ops, k)
      {
        assert AgreeAt(ops, k) && AgreeAt(ops, k + 1);
        AgreeNext(ops, k);
      }
    }
    if forall k | 0 <= k < |ops| :: SafeAt(ops, k) {
      forall k | 0 <= k <= |ops| { SafeAgrees(ops, k); }
    }
  }

  /** What the commands write. `analyze` and `db ingest` put the episodes behind a report that was written,
    * and go on if that fails; `watch` and the OTLP receiver write the report alone. */
  datatype Ingestion =
    | Paired(report: Report, rawPath: string, rawMtime: int, secs: int, fails: nat -> bool,
             episodes: Episodes, putFailed: bool)
    | ReportOnly(report: Report, rawPath: string, rawMtime: int, secs: int, fails: nat -> bool)
    | Expire(retention: Duration, now: int, dryRun: bool, fails: nat -> bool)

  function OpsOfOne(ingestion: Ingestion): seq<Op> {
    match ingestion
    case Paired(report, rawPath, rawMtime, secs, fails, episodes, putFailed) =>
      [Upsert(report, rawPath, rawMtime, secs, fails)]
      + if UpsertSucceeds(report, fails) then [PutEpisodes(report.id, episodes, putFailed)] else []
    case ReportOnly(report, rawPath, rawMtime, secs, fails) => [Upsert(report, rawPath, rawMtime, secs, fails)]
    case Expire(retention, now, dryRun, fails) => [Prune(retention, now, dryRun, fails)]
  }

  function OpsOf(ins: seq<Ingestion>): seq<Op> {
    if ins == [] then [] else OpsOf(ins[..|ins| - 1]) + OpsOfOne(ins[|ins| - 1])
  }

  lemma {:induction false} RewrittenPush(ops: seq<Op>, op: Op, id: string)
    ensures Rewritten(ops + [op], id)
         == (WritesReport(op, id) || (!WritesEpisodes(op, id) && Rewritten(ops, id)))
  {
    assert (ops + [op])[..|ops + [op]| - 1] == ops;
  }

  lemma {:induction false} PairedKeeps(ops: seq<Op>, ingestion: Ingestion, id: string)
    requires ingestion.Expire? || (ingestion.Paired? && !ingestion.putFailed)
    requires !Rewritten(ops, id)
    ensures !Rewritten(ops + OpsOfOne(ingestion), id)
  {
    var more := OpsOfOne(ingestion);
    RewrittenPush(ops, more[0], id);
    if |more| == 2 {
      RewrittenPush(ops + [more[0]], more[1], id);
      assert ops + more == (ops + [more[0]]) + [more[1]];
    } else {
      assert more == [more[0]];
    }
  }

  lemma {:induction false} PairedNeverRewritten(ins: seq<Ingestion>, id: string)
    requires forall ingestion | ingestion in ins ::
               ingestion.Expire? || (ingestion.Paired? && !ingestion.putFailed)
    ensures !Rewritten(OpsOf(ins), id)
  {
    if ins != [] {
      assert ins[|ins| - 1] in ins;
      PairedNeverRewritten(ins[..|ins| - 1], id);
      PairedKeeps(OpsOf(ins[..|ins| - 1]), ins[|ins| - 1], id);
    }
  }

  /** While every report that is written is followed by its episodes, and that succeeds, the two readings
    * cannot be told apart. */
  lemma {:induction false} PairedRunsAgree(ins: seq<Ingestion>, t: Tables, u: Tables)
    requires forall ingestion | ingestion in ins ::
               ingestion.Expire? || (ingestion.Paired? && !ingestion.putFailed)
    requires Refines(t, RunModel(map[], OpsOf(ins), InPlace))
    requires Refines(u, RunModel(map[], OpsOf(ins), DeleteInsert))
    ensures t == u
  {
    forall id
      ensures Agree(OpsOf(ins), id)
    {
      PairedNeverRewritten(ins, id);
    }
    ReadingsAgreeExactly(OpsOf(ins), t, u);
  }

  lemma {:induction false} RunLast(m: Model, ops: seq<Op>, op: Op, replace: Replace)
    ensures RunModel(m, ops + [op], replace) == StepModel(RunModel(m, ops, replace), op, replace)
  {
    assert (ops + [op])[..|ops + [op]| - 1] == ops;
  }

  lemma {:induction false} RewriteTellsApart(u: Op, p: Op, w: Op, id: string)
    requires WritesReport(u, id) && WritesEpisodes(p, id) && WritesReport(w, id)
    ensures var m, n := RunModel(map[], [u] + [p] + [w], InPlace), RunModel(map[], [u] + [p] + [w], DeleteInsert);
            id in m && id in n && m[id].episodes == p.episodes && n[id].episodes == DefaultEpisodes
  {
    forall replace: Replace
      ensures RunModel(map[], [u] + [p] + [w], replace)
           == StepModel(StepModel(StepModel(map[], u, replace), p, replace), w, replace)
    {
      hide StepModel;
      RunLast(map[], [u] + [p], w, replace);
      RunLast(map[], [u], p, replace);
      RunLast(map[], [], u, replace);
      assert [] + [u] == [u];
    }
  }

  lemma {:induction false} OpsOfTwo(a: Ingestion, b: Ingestion)
    ensures OpsOf([a, b]) == OpsOfOne(a) + OpsOfOne(b)
  {
    hide OpsOfOne;
    assert [a, b][..1] == [a] && [a][..0] == [];
    assert OpsOf([a]) == [] + OpsOfOne(a) == OpsOfOne(a);
  }

  /** The run that fails: `analyze` stores a session with its episodes, then `watch` writes its report. In
    * place the episodes are still there, otherwise they are gone. */
  lemma {:induction false} WatchForgetsEpisodes(analyze: Ingestion, watch: Ingestion)
    requires analyze.Paired? && !analyze.putFailed && UpsertSucceeds(analyze.report, analyze.fails)
    requires watch.ReportOnly? && watch.report.id == analyze.report.id && UpsertSucceeds(watch.report, watch.fails)
    ensures var ops, id := OpsOf([analyze, watch]), watch.report.id;
            var m, n := RunModel(map[], ops, InPlace), RunModel(map[], ops, DeleteInsert);
            id in m && id in n && m[id].episodes == analyze.episodes && n[id].episodes == DefaultEpisodes
  {
    hide RunModel, OpsOf, UpsertSucceeds;
    var first, second := OpsOfOne(analyze), OpsOfOne(watch);
    OpsOfTwo(analyze, watch);
    assert first == [first[0]] + [first[1]] && second == [second[0]];
    RewriteTellsApart(first[0], first[1], second[0], watch.report.id);
  }

  // ----- pruning and querying -----

  /** Both modules compute the same cutoff for every duration and every clock reading. */
  lemma CutoffsAgree(d: Duration, now: int)
    ensures PruneCutoff(d, now) == QueryCutoff(d, now)
  {
  }

  /** Pruning keeps exactly the sessions that a query over the same window returns. */
  lemma PruneKeepsQueried(t: Tables, m: Model, d: Duration, now: int)
    requires Refines(t, m)
    ensures Without(m, Before(m, PruneCutoff(d, now))).Keys == Recent(t.sessions, QueryCutoff(d, now))
    ensures Recent(t.sessions, QueryCutoff(d, now)) !! Before(m, PruneCutoff(d, now))
    ensures Recent(t.sessions, QueryCutoff(d, now)) + Before(m, PruneCutoff(d, now)) == t.sessions.Keys
  {
    CutoffsAgree(d, now);
  }

  /** Pruning again deletes nothing, and neither does pruning with a longer retention. */
  lemma PruneTwice(m: Model, d: Duration, e: Duration, now: int)
    requires AsMillis(d) <= AsMillis(e)
    ensures Before(Without(m, Before(m, PruneCutoff(d, now))), PruneCutoff(e, now)) == {}
  {
    assert PruneCutoff(e, now) <= PruneCutoff(d, now);
  }

  /** A longer window shows no fewer sessions, and a later clock no more. */
  lemma WindowsNest(sessions: map<string, SessionRow>, d: Duration, e: Duration, now: int, later: int)
    requires AsMillis(d) <= AsMillis(e) && now <= later
    ensures Recent(sessions, QueryCutoff(d, later)) <= Recent(sessions, QueryCutoff(e, now))
  {
    assert QueryCutoff(e, now) <= QueryCutoff(d, later);
  }

  // ----- counting rows -----

  /** The rows of a child table that belong to one session. */
  function RowsOf<K(==), R>(rows: map<(string, K), R>, id: string): set<K> {
    set key | key in rows && key.0 == id :: key.1
  }

  lemma CountDropped<K, R>(rows: map<(string, K), R>, id: string)
    ensures |rows| == |DropChildren(rows, {id})| + |RowsOf(rows, id)|
  {
    var mine := set key | key in rows && key.0 == id;
    assert rows.Keys == DropChildren(rows, {id}).Keys + mine;
    CountSeconds(mine, id, RowsOf(rows, id));
  }

  lemma {:induction false} CountSeconds<K>(keys: set<(string, K)>, id: string, ks: set<K>)
    requires forall key | key in keys :: key.0 == id && key.1 in ks
    requires forall k | k in ks :: (id, k) in keys
    ensures |keys| == |ks|
    decreases |ks|
  {
    if ks == {} {
      assert keys == {};
    } else {
      var k :| k in ks;
      CountSeconds(keys - {(id, k)}, id, ks - {k});
    }
  }

  lemma {:induction false} CountNames(ranks: seq<ToolRank>, names: set<string>)
    requires DistinctTools(ranks)
    requires forall name :: name in names <==> ToolNamed(ranks, name).Some?
    ensures |names| == |ranks|
  {
    if ranks == [] {
      assert names == {};
    } else {
      var front, last := ranks[..|ranks| - 1], ranks[|ranks| - 1];
      assert ToolNamed(ranks, last.name).Some?;
      CountNames(front, names - {last.name});
    }
  }

  lemma {:induction false} CountIndices(n: nat, ks: set<int>)
    requires forall k :: k in ks <==> 0 <= k < n
    ensures |ks| == n
  {
    if n == 0 {
      assert forall k :: k !in ks;
      assert ks == {};
    } else {
      CountIndices(n - 1, ks - {n - 1});
    }
  }

  lemma CountChildren(t: Tables, m: Model, id: string)
    requires Refines(t, m) && id in m
    ensures |RowsOf(t.tools, id)| == |m[id].report.toolRank| && |RowsOf(t.turns, id)| == |m[id].report.turns|
  {
    var names, ks := RowsOf(t.tools, id), RowsOf(t.turns, id);
    forall name
      ensures name in names <==> ToolNamed(m[id].report.toolRank, name).Some?
    {
      assert (id, name) in t.tools <==> ToolNamed(m[id].report.toolRank, (id, name).1).Some?;
    }
    forall k
      ensures k in ks <==> 0 <= k < |m[id].report.turns|
    {
      assert (id, k) in t.turns <==> 0 <= (id, k).1 < |m[id].report.turns|;
    }
    CountNames(m[id].report.toolRank, names);
    CountIndices(|m[id].report.turns|, ks);
  }

  /** The tools and the turns of the listed sessions' reports. */
  function Totals(m: Model, ids: seq<string>): (nat, nat) {
    if ids == [] then (0, 0)
    else
      var (tools, turns) := Totals(m, ids[1..]);
      if ids[0] in m then (|m[ids[0]].report.toolRank| + tools, |m[ids[0]].report.turns| + turns) else (tools, turns)
  }

  lemma {:induction false} TotalsWithout(m: Model, ids: seq<string>, id: string)
    requires id !in ids
    ensures Totals(Without(m, {id}), ids) == Totals(m, ids)
  {
    if ids != [] { TotalsWithout(m, ids[1..], id); }
  }

  ghost predicate Enumerates(ids: seq<string>, m: Model) {
    (forall id :: id in ids <==> id in m) && forall j, k | 0 <= j < k < |ids| :: ids[j] != ids[k]
  }

  lemma EnumeratesRest(ids: seq<string>, m: Model)
    requires Enumerates(ids, m) && ids != []
    ensures ids[0] in m && ids[0] !in ids[1..] && Enumerates(ids[1..], Without(m, {ids[0]}))
  {
    assert ids == [ids[0]] + ids[1..];
  }

  lemma CountStep(t: Tables, m: Model, id: string)
    requires Refines(t, m) && id in m
    ensures var u := DeleteSessions(t, {id});
            && |t.sessions| == |u.sessions| + 1
            && |t.tools| == |u.tools| + |m[id].report.toolRank|
            && |t.turns| == |u.turns| + |m[id].report.turns|
  {
    CountDropped(t.tools, id);
    CountDropped(t.turns, id);
    CountChildren(t, m, id);
    CountRemoved(t.sessions, id);
  }

  lemma CountRemoved<R>(rows: map<string, R>, id: string)
    requires id in rows
    ensures |rows| == |rows - {id}| + 1
  {
    assert rows.Keys == (rows - {id}).Keys + {id};
  }

  lemma CountNone(t: Tables, m: Model)
    requires Refines(t, m) && m == map[]
    ensures t == EMPTY
  {
    assert t.sessions == map[];
    assert t.tools.Keys == {} && t.turns.Keys == {};
  }

  /** Conservation: the row counts that `stats` reports are those of the stored reports, summed up in any
    * order. */
  lemma {:induction false} StatsExact(t: Tables, m: Model, ids: seq<string>)
    requires Refines(t, m) && Enumerates(ids, m)
    ensures |t.sessions| == |ids| && |t.tools| == Totals(m, ids).0 && |t.turns| == Totals(m, ids).1
    decreases |ids|
  {
    if ids == [] {
      assert m.Keys == {};
      CountNone(t, m);
    } else {
      var id, rest := ids[0], ids[1..];
      EnumeratesRest(ids, m);
      DeleteRefines(t, m, {id});
      StatsExact(DeleteSessions(t, {id}), Without(m, {id}), rest);
      TotalsWithout(m, rest, id);
      CountStep(t, m, id);
    }
  }
}
