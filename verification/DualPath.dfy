/** The composer that lists sessions from the adapter and the store together. */
module DualPath {
  import opened Wrappers
  import opened Order

  datatype SessionRef =
    SessionRef(id: string, agent: string, startedAtMs: Option<int>, rawPath: Option<string>,
               rawMtimeMs: Option<int>, source: string)

  datatype Warning = Warning(sessionId: string, fields: seq<string>, adapterWon: bool)

  // ----- the listing order -----

  /** Later start first; a session without a start time comes last. */
  predicate Newer(x: Option<int>, y: Option<int>) {
    x.Some? && (y.None? || x.value > y.value)
  }

  predicate Precedes(a: SessionRef, b: SessionRef) {
    Newer(a.startedAtMs, b.startedAtMs) || (a.startedAtMs == b.startedAtMs && StringLess(a.id, b.id))
  }

  ghost predicate StrictlySorted(refs: seq<SessionRef>) {
    forall i, j | 0 <= i < j < |refs| :: Precedes(refs[i], refs[j])
  }

  ghost predicate DistinctIds(refs: seq<SessionRef>) {
    forall i, j | 0 <= i < j < |refs| :: refs[i].id != refs[j].id
  }

  lemma PrecedesTotal(a: SessionRef, b: SessionRef)
    requires a.id != b.id
    ensures Precedes(a, b) || Precedes(b, a)
  {
    StringTotal(a.id, b.id);
  }

  lemma PrecedesTransitive(a: SessionRef, b: SessionRef, c: SessionRef)
    requires Precedes(a, b) && Precedes(b, c)
    ensures Precedes(a, c)
  {
    if a.startedAtMs == b.startedAtMs == c.startedAtMs { StringTransitive(a.id, b.id, c.id); }
  }

  lemma PrecedesAsymmetric(a: SessionRef, b: SessionRef)
    requires Precedes(a, b)
    ensures !Precedes(b, a) && a != b
  {
    StringIrreflexive(a.id);
    if StringLess(a.id, b.id) && StringLess(b.id, a.id) { StringTransitive(a.id, b.id, a.id); }
  }

  /** The order of a listing: later starts first, sessions without a start last, and ids ascending among
    * equal starts. */
  ghost predicate NewestFirst(out: seq<SessionRef>) {
    forall i, j | 0 <= i < j < |out| ::
      && (out[i].startedAtMs.None? ==> out[j].startedAtMs.None?)
      && (out[j].startedAtMs.Some? ==> out[i].startedAtMs.value >= out[j].startedAtMs.value)
      && (out[i].startedAtMs == out[j].startedAtMs ==> Ascends(out[i].id, out[j].id))
  }

  lemma {:induction false} SortedIsNewestFirst(out: seq<SessionRef>)
    requires StrictlySorted(out)
    ensures NewestFirst(out)
  {
    hide Ascends, StringLess;
    forall i, j | 0 <= i < j < |out|
      ensures Precedes(out[i], out[j])
      ensures StringLess(out[i].id, out[j].id) <==> Ascends(out[i].id, out[j].id)
    {
      StringLessMeans(out[i].id, out[j].id);
    }
  }

  // ----- what the merge returns -----

  type RefMap = map<string, SessionRef>

  /** The last of the references with a given id. */
  function LastWith(refs: seq<SessionRef>, id: string): Option<SessionRef> {
    if refs == [] then None
    else
      var last := refs[|refs| - 1];
      if last.id == id then Some(last) else LastWith(refs[..|refs| - 1], id)
  }

  /** The adapter wins where it knows the id. */
  function Winner(adapter: seq<SessionRef>, storage: seq<SessionRef>, id: string): Option<SessionRef> {
    var a := LastWith(adapter, id);
    if a.Some? then a else LastWith(storage, id)
  }

  /** One entry for every id that either side knows, the winner's, in strictly sorted order. */
  ghost predicate IsMerge(out: seq<SessionRef>, adapter: seq<SessionRef>, storage: seq<SessionRef>) {
    && StrictlySorted(out)
    && forall r :: r in out <==> Winner(adapter, storage, r.id) == Some(r)
  }

  /** The merge is a function of its two lists: whatever order the hash map is walked in, the same list
    * comes out. */
  lemma {:induction false} MergeUnique(a: seq<SessionRef>, b: seq<SessionRef>)
    requires StrictlySorted(a) && StrictlySorted(b) && forall r :: r in a <==> r in b
    ensures a == b
  {
    SameEmptiness(a, b);
    if a != [] {
      assert a[0] in a && a[0] in b;
      assert b[0] in b && b[0] in a;
      var i :| 0 <= i < |b| && b[i] == a[0];
      var j :| 0 <= j < |a| && a[j] == b[0];
      if i > 0 {
        PrecedesAsymmetric(b[0], b[i]);
      }
      assert a[0] == b[0];
      forall r: SessionRef
        ensures r in a[1..] <==> r in b[1..]
      {
        MemberOfRest(a, r);
        MemberOfRest(b, r);
      }
      MergeUnique(a[1..], b[1..]);
      assert a == [a[0]] + a[1..] && b == [b[0]] + b[1..];
    }
  }

  lemma SameEmptiness(a: seq<SessionRef>, b: seq<SessionRef>)
    requires forall r :: r in a <==> r in b
    ensures a == [] <==> b == []
  {
    if a != [] { assert a[0] in a; }
    if b != [] { assert b[0] in b; }
  }

  lemma MemberOfRest(a: seq<SessionRef>, r: SessionRef)
    requires StrictlySorted(a) && a != []
    ensures r in a[1..] <==> r in a && r != a[0]
  {
    if r in a[1..] {
      var k :| 0 <= k < |a[1..]| && a[1..][k] == r;
      PrecedesAsymmetric(a[0], a[k + 1]);
    }
    if r in a && r != a[0] {
      var k :| 0 <= k < |a| && a[k] == r;
      assert a[1..][k - 1] == r;
    }
  }

  /** `r` is the last entry of its id in `refs`. */
  ghost predicate IsLastIn(refs: seq<SessionRef>, r: SessionRef) {
    exists k :: 0 <= k < |refs| && refs[k] == r && forall j | k < j < |refs| :: refs[j].id != r.id
  }

  /** The entries of a merge: those of the adapter, its last one where it has an id twice, and the last one
    * of the store for each id that the adapter does not have. */
  ghost predicate HoldsBoth(out: seq<SessionRef>, adapter: seq<SessionRef>, storage: seq<SessionRef>) {
    && (forall i, j | 0 <= i < j < |out| :: out[i].id != out[j].id)
    && forall r :: r in out <==>
         IsLastIn(adapter, r) || (IsLastIn(storage, r) && forall a | a in adapter :: a.id != r.id)
  }

  lemma {:induction false} IsLastPush(front: seq<SessionRef>, last: SessionRef, r: SessionRef)
    ensures IsLastIn(front + [last], r) <==> last == r || (last.id != r.id && IsLastIn(front, r))
  {
    var refs := front + [last];
    if last == r { assert refs[|front|] == r; }
    if last.id != r.id && IsLastIn(front, r) {
      var k :| 0 <= k < |front| && front[k] == r && forall j | k < j < |front| :: front[j].id != r.id;
      assert refs[k] == r;
    }
    if IsLastIn(refs, r) {
      var k :| 0 <= k < |refs| && refs[k] == r && forall j | k < j < |refs| :: refs[j].id != r.id;
      assert k < |front| ==> front[k] == r && refs[|front|].id != r.id;
      assert forall j | k < j < |front| :: front[j] == refs[j];
    }
  }

  lemma {:induction false} LastWithIsLast(refs: seq<SessionRef>, r: SessionRef)
    ensures LastWith(refs, r.id) == Some(r) <==> IsLastIn(refs, r)
  {
    if refs != [] {
      var front, last := refs[..|refs| - 1], refs[|refs| - 1];
      assert refs == front + [last];
      IsLastPush(front, last, r);
      LastWithIsLast(front, r);
    }
  }

  lemma {:induction false} MergeHoldsBoth(out: seq<SessionRef>, adapter: seq<SessionRef>, storage: seq<SessionRef>)
    requires IsMerge(out, adapter, storage)
    ensures HoldsBoth(out, adapter, storage) && NewestFirst(out)
  {
    SortedIsNewestFirst(out);
    MergedIds(out, adapter, storage);
    hide IsLastIn, NewestFirst, LastWith, StrictlySorted;
    forall r: SessionRef
      ensures Winner(adapter, storage, r.id) == Some(r) <==>
                IsLastIn(adapter, r) || (IsLastIn(storage, r) && forall a | a in adapter :: a.id != r.id)
    {
      LastWithIsLast(adapter, r);
      LastWithIsLast(storage, r);
      LastWithMember(adapter, r.id);
    }
  }

  // ----- differences -----

  /** Both sides assert a value and disagree. */
  predicate BothSomeAndDiffer<T(==)>(a: Option<T>, b: Option<T>) {
    a.Some? && b.Some? && a.value != b.value
  }

  function DiffFields(a: SessionRef, b: SessionRef): seq<string> {
    (if BothSomeAndDiffer(a.rawMtimeMs, b.rawMtimeMs) then ["raw_mtime_ms"] else [])
    + (if BothSomeAndDiffer(a.startedAtMs, b.startedAtMs) then ["started_at_ms"] else [])
    + (if BothSomeAndDiffer(a.rawPath, b.rawPath) then ["raw_path"] else [])
  }

  function WarningFor(a: SessionRef, existing: Option<SessionRef>): seq<Warning> {
    if existing.None? || DiffFields(a, existing.value) == [] then []
    else [Warning(a.id, DiffFields(a, existing.value), true)]
  }

  /** What the merge warns about: each adapter reference against what the map holds when its turn comes,
    * which is an earlier adapter reference if the adapter lists an id twice. */
  function MergeWarnings(adapter: seq<SessionRef>, storage: seq<SessionRef>): seq<Warning> {
    if adapter == [] then []
    else
      var front, last := adapter[..|adapter| - 1], adapter[|adapter| - 1];
      MergeWarnings(front, storage) + WarningFor(last, Winner(front, storage, last.id))
  }

  /** What an honest comparison of the two sides reports, in adapter order. */
  function Disagreements(adapter: seq<SessionRef>, storage: seq<SessionRef>): seq<Warning> {
    if adapter == [] then []
    else
      var last := adapter[|adapter| - 1];
      Disagreements(adapter[..|adapter| - 1], storage) + WarningFor(last, LastWith(storage, last.id))
  }

  lemma {:induction false} LastWithMember(refs: seq<SessionRef>, id: string)
    ensures LastWith(refs, id).Some? ==> LastWith(refs, id).value in refs && LastWith(refs, id).value.id == id
    ensures LastWith(refs, id).None? <==> forall r | r in refs :: r.id != id
  {
    if refs != [] {
      LastWithMember(refs[..|refs| - 1], id);
      assert refs == refs[..|refs| - 1] + [refs[|refs| - 1]];
    }
  }

  lemma {:induction false} LastWithOwn(refs: seq<SessionRef>, r: SessionRef)
    requires DistinctIds(refs) && r in refs
    ensures LastWith(refs, r.id) == Some(r)
  {
    var front, last := refs[..|refs| - 1], refs[|refs| - 1];
    assert refs == front + [last];
    if r != last { LastWithOwn(front, r); }
  }

  /** With distinct adapter ids the warnings are exactly the sessions on which the two sides disagree. */
  lemma {:induction false} WarningsHonest(adapter: seq<SessionRef>, storage: seq<SessionRef>)
    requires DistinctIds(adapter)
    ensures MergeWarnings(adapter, storage) == Disagreements(adapter, storage)
  {
    if adapter != [] {
      var front, last := adapter[..|adapter| - 1], adapter[|adapter| - 1];
      WarningsHonest(front, storage);
      LastWithMember(front, last.id);
      assert Winner(front, storage, last.id) == LastWith(storage, last.id);
    }
  }

  // ----- cache transparency -----

  /** The listing without a cache: the adapter's references, sorted. */
  ghost predicate IsSortOf(out: seq<SessionRef>, refs: seq<SessionRef>) {
    StrictlySorted(out) && forall r :: r in out <==> r in refs
  }

  ghost predicate NoStoreOnly(adapter: seq<SessionRef>, storage: seq<SessionRef>) {
    forall s | s in storage :: exists a :: a in adapter && a.id == s.id
  }

  /** The cached listing equals the cache-less one exactly when the store knows no session that the
    * adapter does not; nothing else that the store holds can show. */
  lemma CacheTransparent(merged: seq<SessionRef>, plain: seq<SessionRef>, adapter: seq<SessionRef>,
                         storage: seq<SessionRef>)
    requires DistinctIds(adapter) && IsMerge(merged, adapter, storage) && IsSortOf(plain, adapter)
    ensures merged == plain <==> NoStoreOnly(adapter, storage)
  {
    forall r: SessionRef
      ensures r in adapter ==> Winner(adapter, storage, r.id) == Some(r)
    {
      if r in adapter { LastWithOwn(adapter, r); }
    }
    forall r: SessionRef
      ensures LastWith(adapter, r.id).Some? && Winner(adapter, storage, r.id) == Some(r) ==> r in adapter
    {
      LastWithMember(adapter, r.id);
    }
    if NoStoreOnly(adapter, storage) {
      forall r: SessionRef
        ensures r in merged <==> r in plain
      {
        LastWithMember(adapter, r.id);
        LastWithMember(storage, r.id);
      }
      MergeUnique(merged, plain);
    } else {
      var s :| s in storage && forall a | a in adapter :: a.id != s.id;
      LastWithMember(adapter, s.id);
      LastWithMember(storage, s.id);
      var w := LastWith(storage, s.id).value;
      assert w in merged && w !in plain;
    }
  }

  /** Merging the adapter's list over a merged list changes nothing and warns about nothing. */
  lemma {:induction false} MergeIdempotent(merged: seq<SessionRef>, again: seq<SessionRef>, adapter: seq<SessionRef>,
                                           storage: seq<SessionRef>)
    requires DistinctIds(adapter) && IsMerge(merged, adapter, storage) && IsMerge(again, adapter, merged)
    ensures again == merged && MergeWarnings(adapter, merged) == []
  {
    MergedIds(merged, adapter, storage);
    forall r: SessionRef
      ensures r in again <==> r in merged
    {
      LastWithMember(adapter, r.id);
      LastWithMember(merged, r.id);
      if LastWith(merged, r.id).Some? { LastWithOwn(merged, LastWith(merged, r.id).value); }
      if r in merged { LastWithOwn(merged, r); }
    }
    MergeUnique(again, merged);
    WarningsHonest(adapter, merged);
    NoDisagreement(adapter, merged, adapter, storage);
  }

  /** The order in which the store returns its rows, which it leaves open for equal start times, does not
    * matter. */
  lemma StorageOrderFree(out: seq<SessionRef>, adapter: seq<SessionRef>, storage: seq<SessionRef>,
                         shuffled: seq<SessionRef>)
    requires DistinctIds(storage) && DistinctIds(shuffled) && forall r :: r in storage <==> r in shuffled
    ensures IsMerge(out, adapter, storage) <==> IsMerge(out, adapter, shuffled)
  {
    forall id
      ensures Winner(adapter, storage, id) == Winner(adapter, shuffled, id)
    {
      LastWithMember(storage, id);
      LastWithMember(shuffled, id);
      if LastWith(storage, id).Some? { LastWithOwn(shuffled, LastWith(storage, id).value); }
      if LastWith(shuffled, id).Some? { LastWithOwn(storage, LastWith(shuffled, id).value); }
    }
  }

  lemma MergedIds(merged: seq<SessionRef>, adapter: seq<SessionRef>, storage: seq<SessionRef>)
    requires IsMerge(merged, adapter, storage)
    ensures DistinctIds(merged)
  {
    forall i, j | 0 <= i < j < |merged|
      ensures merged[i].id != merged[j].id
    {
      assert merged[i] in merged && merged[j] in merged;
      PrecedesAsymmetric(merged[i], merged[j]);
    }
  }

  /** The fields that are reported are those which both sides assert and in which they differ, the time of the
    * file first and its path last. */
  predicate NamesDifferences(fields: seq<string>, a: SessionRef, b: SessionRef) {
    && ("raw_mtime_ms" in fields <==> a.rawMtimeMs.Some? && b.rawMtimeMs.Some? && a.rawMtimeMs != b.rawMtimeMs)
    && ("started_at_ms" in fields <==> a.startedAtMs.Some? && b.startedAtMs.Some? && a.startedAtMs != b.startedAtMs)
    && ("raw_path" in fields <==> a.rawPath.Some? && b.rawPath.Some? && a.rawPath != b.rawPath)
    && (forall f | f in fields :: f == "raw_mtime_ms" || f == "started_at_ms" || f == "raw_path")
    && (forall i, j | 0 <= i < j < |fields| ::
          fields[i] != fields[j] && (fields[i] == "raw_mtime_ms" || fields[j] == "raw_path"))
  }

  lemma {:induction false} DiffFieldsNames(a: SessionRef, b: SessionRef)
    ensures NamesDifferences(DiffFields(a, b), a, b)
  {
    var m := if BothSomeAndDiffer(a.rawMtimeMs, b.rawMtimeMs) then ["raw_mtime_ms"] else [];
    var s := if BothSomeAndDiffer(a.startedAtMs, b.startedAtMs) then ["started_at_ms"] else [];
    var p := if BothSomeAndDiffer(a.rawPath, b.rawPath) then ["raw_path"] else [];
    assert DiffFields(a, b) == m + s + p;
    assert forall f :: f in m + s + p <==> f in m || f in s || f in p;
    assert |"raw_mtime_ms"| == 12 && |"started_at_ms"| == 13 && |"raw_path"| == 8;
  }

  lemma {:induction false} DisagreementListed(adapter: seq<SessionRef>, storage: seq<SessionRef>, a: SessionRef)
    requires a in adapter && LastWith(storage, a.id).Some? && DiffFields(a, LastWith(storage, a.id).value) != []
    ensures Warning(a.id, DiffFields(a, LastWith(storage, a.id).value), true) in Disagreements(adapter, storage)
  {
    var front, last := adapter[..|adapter| - 1], adapter[|adapter| - 1];
    assert adapter == front + [last];
    if a in front { DisagreementListed(front, storage, a); }
  }

  /** Each warning names an adapter entry and the fields in which the store's entry differs; each adapter
    * entry that differs in a field has its warning. */
  lemma {:induction false} WarningsSay(adapter: seq<SessionRef>, storage: seq<SessionRef>)
    requires DistinctIds(adapter)
    ensures forall w | w in MergeWarnings(adapter, storage) :: w.adapterWon && w.fields != [] &&
              exists a, b :: a in adapter && IsLastIn(storage, b) && a.id == b.id == w.sessionId
                             && NamesDifferences(w.fields, a, b)
    ensures forall a, b | a in adapter && IsLastIn(storage, b) && a.id == b.id && !NamesDifferences([], a, b) ::
              exists w :: w in MergeWarnings(adapter, storage) && w.sessionId == a.id
                          && NamesDifferences(w.fields, a, b)
  {
    hide NamesDifferences, IsLastIn, DiffFields;
    WarningsHonest(adapter, storage);
    forall w | w in MergeWarnings(adapter, storage)
      ensures w.adapterWon && w.fields != []
      ensures exists a, b :: a in adapter && IsLastIn(storage, b) && a.id == b.id == w.sessionId
                             && NamesDifferences(w.fields, a, b)
    {
      var a := WarningSource(adapter, storage, w);
      LastWithMember(storage, a.id);
      var b := LastWith(storage, a.id).value;
      LastWithIsLast(storage, b);
      DiffFieldsNames(a, b);
      assert IsLastIn(storage, b) && NamesDifferences(w.fields, a, b);
    }
    forall a, b | a in adapter && IsLastIn(storage, b) && a.id == b.id && !NamesDifferences([], a, b)
      ensures exists w :: w in MergeWarnings(adapter, storage) && w.sessionId == a.id
                          && NamesDifferences(w.fields, a, b)
    {
      LastWithIsLast(storage, b);
      DiffFieldsNames(a, b);
      DisagreementListed(adapter, storage, a);
      assert NamesDifferences(Warning(a.id, DiffFields(a, b), true).fields, a, b);
    }
  }

  lemma {:induction false} NoDisagreement(part: seq<SessionRef>, merged: seq<SessionRef>, adapter: seq<SessionRef>,
                                          storage: seq<SessionRef>)
    requires DistinctIds(adapter) && IsMerge(merged, adapter, storage) && forall r | r in part :: r in adapter
    ensures Disagreements(part, merged) == []
  {
    if part != [] {
      var front, last := part[..|part| - 1], part[|part| - 1];
      assert part == front + [last] && last in part;
      NoDisagreement(front, merged, adapter, storage);
      LastWithOwn(adapter, last);
      MergedIds(merged, adapter, storage);
      LastWithOwn(merged, last);
    }
  }

  // ----- the merge -----

  /** The values of a map, in some order. */
  method IntoValues(m: RefMap) returns (out: seq<SessionRef>)
    requires forall id | id in m :: m[id].id == id
    ensures DistinctIds(out) && forall r :: r in out <==> r.id in m && m[r.id] == r
  {
    out := [];
    var left := m.Keys;
    while left != {}
      invariant left <= m.Keys && DistinctIds(out)
      invariant forall r :: r in out <==> r.id in m && r.id !in left && m[r.id] == r
      decreases |left|
    {
      var id :| id in left;
      assert forall r | r in out :: r.id != id;
      out, left := out + [m[id]], left - {id};
    }
  }

  lemma {:induction false} Behind(refs: seq<SessionRef>, r: SessionRef, k: nat, j: nat)
    requires StrictlySorted(refs) && (forall q | q in refs :: q.id != r.id)
    requires k <= j < |refs| && !Precedes(refs[k], r)
    ensures Precedes(r, refs[j])
  {
    hide Precedes;
    assert refs[k] in refs;
    PrecedesTotal(r, refs[k]);
    if k < j { PrecedesTransitive(r, refs[k], refs[j]); }
  }

  lemma {:induction false} InsertedAt(refs: seq<SessionRef>, r: SessionRef, k: nat)
    requires StrictlySorted(refs) && (forall q | q in refs :: q.id != r.id)
    requires k <= |refs| && (k < |refs| ==> !Precedes(refs[k], r)) && forall i | 0 <= i < k :: Precedes(refs[i], r)
    ensures StrictlySorted(refs[..k] + [r] + refs[k..])
    ensures forall q :: q in refs[..k] + [r] + refs[k..] <==> q == r || q in refs
  {
    hide Precedes;
    forall j | k <= j < |refs| { Behind(refs, r, k, j); }
    assert refs == refs[..k] + refs[k..];
  }

  /** Inserts into a sorted list. */
  method InsertSorted(refs: seq<SessionRef>, r: SessionRef) returns (out: seq<SessionRef>)
    requires StrictlySorted(refs) && forall q | q in refs :: q.id != r.id
    ensures StrictlySorted(out) && forall q :: q in out <==> q == r || q in refs
  {
    var k := 0;
    while k < |refs| && Precedes(refs[k], r)
      invariant k <= |refs| && forall i | 0 <= i < k :: Precedes(refs[i], r)
    {
      k := k + 1;
    }
    InsertedAt(refs, r, k);
    out := refs[..k] + [r] + refs[k..];
  }

  /** The library's sort, for references with distinct ids: the sorted list is unique, so any sort is as
    * good as any other. */
  method SortRefs(refs: seq<SessionRef>) returns (out: seq<SessionRef>)
    requires DistinctIds(refs)
    ensures IsSortOf(out, refs) && NewestFirst(out)
  {
    out := [];
    for k := 0 to |refs|
      invariant IsSortOf(out, refs[..k])
    {
      forall q | q in out
        ensures q.id != refs[k].id
      {
        assert q in refs[..k];
      }
      assert refs[..k + 1] == refs[..k] + [refs[k]];
      out := InsertSorted(out, refs[k]);
    }
    assert refs[..|refs|] == refs;
    SortedIsNewestFirst(out);
  }

  /** The hash map after some of the storage's and some of the adapter's references. */
  ghost predicate Holds(byId: RefMap, adapter: seq<SessionRef>, storage: seq<SessionRef>) {
    forall id :: Winner(adapter, storage, id) == if id in byId then Some(byId[id]) else None
  }

  lemma WinnerAlone(storage: seq<SessionRef>)
    ensures forall id :: Winner([], storage, id) == LastWith(storage, id)
  {
  }

  lemma HoldsStorage(byId: RefMap, storage: seq<SessionRef>, k: nat)
    requires k < |storage| && Holds(byId, [], storage[..k])
    ensures Holds(byId[storage[k].id := storage[k]], [], storage[..k + 1])
  {
    assert storage[..k + 1][..k] == storage[..k];
    WinnerAlone(storage[..k]);
    WinnerAlone(storage[..k + 1]);
  }

  lemma {:induction false} HoldsAdapter(byId: RefMap, adapter: seq<SessionRef>, storage: seq<SessionRef>, k: nat)
    requires k < |adapter| && Holds(byId, adapter[..k], storage)
    ensures Holds(byId[adapter[k].id := adapter[k]], adapter[..k + 1], storage)
    ensures MergeWarnings(adapter[..k + 1], storage)
         == MergeWarnings(adapter[..k], storage)
            + WarningFor(adapter[k], if adapter[k].id in byId then Some(byId[adapter[k].id]) else None)
  {
    assert adapter[..k + 1][..k] == adapter[..k];
  }

  lemma HoldsIds(byId: RefMap, adapter: seq<SessionRef>, storage: seq<SessionRef>)
    requires Holds(byId, adapter, storage)
    ensures forall id | id in byId :: byId[id].id == id
  {
    forall id | id in byId
      ensures byId[id].id == id
    {
      assert Winner(adapter, storage, id) == Some(byId[id]);
      LastWithMember(adapter, id);
      LastWithMember(storage, id);
    }
  }

  lemma {:induction false} HoldsNothing(storage: seq<SessionRef>)
    ensures Holds(map[], [], storage[..0]) && MergeWarnings([], storage) == []
  {
  }

  lemma {:induction false} SortedValuesMerge(byId: RefMap, values: seq<SessionRef>, out: seq<SessionRef>,
                                             adapter: seq<SessionRef>, storage: seq<SessionRef>)
    requires Holds(byId, adapter, storage) && IsSortOf(out, values)
    requires forall r :: r in values <==> r.id in byId && byId[r.id] == r
    ensures IsMerge(out, adapter, storage)
  {
    hide Winner;
    assert forall r: SessionRef :: Winner(adapter, storage, r.id) == Some(r) <==> r.id in byId && byId[r.id] == r;
  }

  datatype SourceError = NotFound | Failed(message: string)

  /** One of the two inner sources: what it answers to a listing and to a load. */
  datatype Source =
    Source(discover: nat -> Result<seq<SessionRef>, SourceError>, load: string -> Result<string, SourceError>)

  // ----- listing and loading -----

  /** What loading gives: the storage's answer, unless it does not know the id. */
  function Loaded(adapter: Source, storage: Option<Source>, id: string): Result<string, SourceError> {
    if storage.Some? && storage.value.load(id) != Err(NotFound) then storage.value.load(id) else adapter.load(id)
  }

  /** A source can load what it lists. */
  ghost predicate CanLoad(source: Source, refs: seq<SessionRef>) {
    forall r | r in refs :: source.load(r.id).Ok?
  }

  lemma {:induction false} WarningSource(part: seq<SessionRef>, storage: seq<SessionRef>, w: Warning)
    returns (x: SessionRef)
    requires w in Disagreements(part, storage)
    ensures x in part && WarningFor(x, LastWith(storage, x.id)) == [w]
  {
    var front, last := part[..|part| - 1], part[|part| - 1];
    assert part == front + [last];
    if w in Disagreements(front, storage) {
      x := WarningSource(front, storage, w);
    } else {
      x := last;
    }
  }

  /** A session with a warning is listed with the adapter's fields, while loading it returns the storage's
    * report: the listing and the report shown for it are of different versions. */
  lemma {:induction false} ListsOneLoadsTheOther(adapter: Source, storage: Source, a: seq<SessionRef>,
                                                 s: seq<SessionRef>, out: seq<SessionRef>, w: Warning)
    returns (x: SessionRef, y: SessionRef)
    requires DistinctIds(a) && IsMerge(out, a, s) && w in MergeWarnings(a, s) && CanLoad(storage, s)
    ensures x in out && x in a && y in s && x.id == y.id == w.sessionId
    ensures w.fields == DiffFields(x, y) != [] && NamesDifferences(w.fields, x, y)
    ensures Loaded(adapter, Some(storage), w.sessionId).Ok?
         && Loaded(adapter, Some(storage), w.sessionId) == storage.load(w.sessionId)
  {
    WarningsHonest(a, s);
    x := WarningSource(a, s, w);
    LastWithOwn(a, x);
    LastWithMember(s, x.id);
    y := LastWith(s, x.id).value;
    DiffFieldsNames(x, y);
  }

  /** Whatever is listed can be loaded, unless the storage fails on it. What the storage lists is loaded from
    * the storage, also where the adapter's entry is the one shown; the adapter is only asked for what the
    * storage does not know. */
  lemma {:induction false} ListedLoads(adapter: Source, storage: Source, a: seq<SessionRef>, s: seq<SessionRef>,
                                       out: seq<SessionRef>, r: SessionRef)
    requires IsMerge(out, a, s) && CanLoad(adapter, a) && CanLoad(storage, s) && r in out
    requires forall x | x in a && storage.load(x.id).Err? :: storage.load(x.id) == Err(NotFound)
    ensures Loaded(adapter, Some(storage), r.id).Ok?
    ensures (exists y :: y in s && y.id == r.id) ==> Loaded(adapter, Some(storage), r.id) == storage.load(r.id)
    ensures storage.load(r.id).Err? ==> r in a && Loaded(adapter, Some(storage), r.id) == adapter.load(r.id)
  {
    assert Winner(a, s, r.id) == Some(r);
    LastWithMember(a, r.id);
    LastWithMember(s, r.id);
  }

  class DualPathDataSource {
    const adapter: Source
    const storage: Option<Source>
    var warnings: seq<Warning>

    constructor (adapter: Source, storage: Option<Source>)
      ensures this.adapter == adapter && this.storage == storage && warnings == []
    {
      this.adapter, this.storage := adapter, storage;
      warnings := [];
    }

    method MergeRefs(adapterRefs: seq<SessionRef>, storageRefs: seq<SessionRef>) returns (out: seq<SessionRef>)
      modifies this
      ensures IsMerge(out, adapterRefs, storageRefs)
      ensures HoldsBoth(out, adapterRefs, storageRefs) && NewestFirst(out)
      ensures warnings == old(warnings) + MergeWarnings(adapterRefs, storageRefs)
    {
      hide Holds, MergeWarnings, IsMerge, IsSortOf, DiffFields, HoldsBoth, NewestFirst;
      var byId: RefMap := map[];
      HoldsNothing(storageRefs);
      for k := 0 to |storageRefs|
        invariant warnings == old(warnings) && Holds(byId, [], storageRefs[..k])
      {
        HoldsStorage(byId, storageRefs, k);
        byId := byId[storageRefs[k].id := storageRefs[k]];
      }
      assert storageRefs[..|storageRefs|] == storageRefs;
      assert adapterRefs[..0] == [];
      for k := 0 to |adapterRefs|
        invariant warnings == old(warnings) + MergeWarnings(adapterRefs[..k], storageRefs)
        invariant Holds(byId, adapterRefs[..k], storageRefs)
      {
        HoldsAdapter(byId, adapterRefs, storageRefs, k);
        var adapterRef := adapterRefs[k];
        if adapterRef.id in byId {
          var diffs := DiffFields(adapterRef, byId[adapterRef.id]);
          if diffs != [] {
            warnings := warnings + [Warning(adapterRef.id, diffs, true)];
          }
        }
        byId := byId[adapterRef.id := adapterRef];
      }
      assert adapterRefs[..|adapterRefs|] == adapterRefs;
      HoldsIds(byId, adapterRefs, storageRefs);
      var values := IntoValues(byId);
      out := SortRefs(values);
      SortedValuesMerge(byId, values, out, adapterRefs, storageRefs);
      MergeHoldsBoth(out, adapterRefs, storageRefs);
    }

    method DrainWarnings() returns (drained: seq<Warning>)
      modifies this
      ensures drained == old(warnings) && warnings == []
    {
      drained := warnings;
      warnings := [];
    }

    /** Lists both sides; the adapter's errors, then the storage's, are passed on. */
    method Discover(since: nat) returns (r: Result<seq<SessionRef>, SourceError>)
      modifies this
      ensures var a := adapter.discover(since);
              if a.Err? then r == a && warnings == old(warnings)
              else if storage.None? then r == a && warnings == old(warnings)
              else
                var s := storage.value.discover(since);
                if s.Err? then r == s && warnings == old(warnings)
                else r.Ok? && IsMerge(r.value, a.value, s.value)
                     && HoldsBoth(r.value, a.value, s.value) && NewestFirst(r.value)
                     && warnings == old(warnings) + MergeWarnings(a.value, s.value)
    {
      var a := adapter.discover(since);
      if a.Err? || storage.None? {
        return a;
      }
      var s := storage.value.discover(since);
      if s.Err? {
        return s;
      }
      var out := MergeRefs(a.value, s.value);
      return Ok(out);
    }

    /** Loads from the storage first; only an unknown id falls through to the adapter. */
    method LoadSession(id: string) returns (r: Result<string, SourceError>)
      ensures r == Loaded(adapter, storage, id)
      ensures r == Err(NotFound) <==>
                adapter.load(id) == Err(NotFound) && (storage.Some? ==> storage.value.load(id) == Err(NotFound))
    {
      if storage.Some? {
        match storage.value.load(id)
        case Ok(report) => return Ok(report);
        case Err(NotFound) =>
        case Err(e) => return Err(e);
      }
      return adapter.load(id);
    }
  }
}
