/** The database: an event table with a primary key, the two tables of the materialized view
    with their key and current-slot index, and the archive. */
module Store {
  import opened Text
  import opened Claims
  import opened Projector
  import opened CurrentView
  import opened GatedLog
  import opened FoldLaws
  import opened Compaction
  import opened Ordering
  import opened Briefing
  import opened EventTable
  import opened Handoff
  import opened Convergence
  import opened Appended

  datatype Row = Row(event: Event, score: real, memoryType: Option<string>)

  datatype Segment = Segment(fromMs: nat, toMs: nat, count: nat, blob: seq<Row>)

  predicate HasId(rows: seq<Row>, id: string) {
    exists r | r in rows :: r.event.id == id
  }

  predicate DistinctRows(rows: seq<Row>) {
    forall i, j | 0 <= i < j < |rows| :: rows[i].event.id != rows[j].event.id
  }

  function Without(rows: seq<Row>, id: string): seq<Row> {
    if rows == [] then []
    else (if rows[0].event.id == id then [] else [rows[0]]) + Without(rows[1..], id)
  }

  function WithoutAll(rows: seq<Row>, ids: seq<string>): seq<Row>
    decreases |ids|
  {
    if ids == [] then rows else WithoutAll(Without(rows, ids[0]), ids[1..])
  }

  function EventsOf(rows: seq<Row>): seq<Event> {
    if rows == [] then [] else EventsOf(rows[..|rows| - 1]) + [rows[|rows| - 1].event]
  }

  function IdsOf(rows: seq<Row>): seq<string> {
    if rows == [] then [] else [rows[0].event.id] + IdsOf(rows[1..])
  }

  /** The event table as a query sees it: by time, then id. */
  function Table(rows: seq<Row>): seq<Event> {
    SortLog(EventsOf(rows))
  }

  // ---------- queries ----------

  predicate IsFoldSource(e: Event) {
    e.body.Shell? || e.body.Authored?
  }

  function FoldSources(log: seq<Event>): seq<Event> {
    if log == [] then []
    else FoldSources(log[..|log| - 1]) + if IsFoldSource(log[|log| - 1]) then [log[|log| - 1]] else []
  }

  /** The WHERE clause of the prune query. */
  predicate Eligible(view: View, r: Row, cutoff: nat, threshold: real) {
    r.event.at < cutoff && r.score < threshold && r.memoryType in {None, Some("episodic")} && Prunable(view, r.event)
  }

  /** What the prune query may return: eligible rows, oldest first, as many as there are or
      the limit. Rows of equal age may come back in any order. */
  predicate PruneAnswer(view: View, rows: seq<Row>, cutoff: nat, threshold: real, limit: nat, batch: seq<Row>) {
    && DistinctRows(batch) && |batch| <= limit
    && (forall r | r in batch :: r in rows && Eligible(view, r, cutoff, threshold))
    && ByAge(batch)
    && (forall r | r in rows && Eligible(view, r, cutoff, threshold) && r !in batch ::
          |batch| == limit && forall b | b in batch :: b.event.at <= r.event.at)
  }

  // ---------- the view tables ----------

  /** No primary key and no current slot is taken twice. */
  predicate Storable(view: View) {
    TasksOnce(view.tasks) && WellFormed(view.claims)
  }

  /** What a load reads back. */
  function Loaded(view: View): View {
    View(SortBy(TaskKey, view.tasks), SortBy(AgeKey, view.claims))
  }

  // ---------- the archive ----------

  function Earliest(rows: seq<Row>): nat
    requires rows != []
  {
    if |rows| == 1 || rows[|rows| - 1].event.at < Earliest(rows[..|rows| - 1]) then rows[|rows| - 1].event.at
    else Earliest(rows[..|rows| - 1])
  }

  function Latest(rows: seq<Row>): nat
    requires rows != []
  {
    if |rows| == 1 || rows[|rows| - 1].event.at > Latest(rows[..|rows| - 1]) then rows[|rows| - 1].event.at
    else Latest(rows[..|rows| - 1])
  }

  function SegmentOf(batch: seq<Row>): Segment
    requires batch != []
  {
    Segment(Earliest(batch), Latest(batch), |batch|, batch)
  }

  function Clamp(t: nat): nat {
    if t > I64_MAX then I64_MAX else t
  }

  predicate Overlaps(s: Segment, fromMs: nat, toMs: nat) {
    s.toMs >= Clamp(fromMs) && s.fromMs <= Clamp(toMs)
  }

  predicate FitsColumns(rows: seq<Row>) {
    forall r | r in rows :: r.event.at <= I64_MAX
  }

  /** A segment describes its own rows. */
  predicate SegmentOk(s: Segment) {
    s.blob != [] && s == SegmentOf(s.blob) && FitsColumns(s.blob)
  }

  function EventCount(archive: seq<Segment>): nat {
    if archive == [] then 0 else EventCount(archive[..|archive| - 1]) + archive[|archive| - 1].count
  }

  predicate Archived(archive: seq<Segment>, r: Row) {
    exists s | s in archive :: r in s.blob
  }

  // ---------- the connection ----------

  class Database {
    var rows: seq<Row>
    var tasks: seq<Task>
    var claims: seq<Claim>
    var archive: seq<Segment>

    ghost predicate Valid()
      reads this
    {
      && DistinctRows(rows) && FitsColumns(rows) && Storable(View(tasks, claims))
      && forall s | s in archive :: SegmentOk(s)
    }

    constructor ()
      ensures Valid() && rows == [] && tasks == [] && claims == [] && archive == []
    {
      rows, tasks, claims, archive := [], [], [], [];
    }

    function Stored(): View
      reads this
    {
      View(tasks, claims)
    }

    method InsertEvent(row: Row) returns (ok: bool)
      requires Valid()
      modifies this`rows
      ensures Valid()
      ensures ok <==> row.event.at <= I64_MAX && !HasId(old(rows), row.event.id)
      ensures rows == if ok then old(rows) + [row] else old(rows)
    {
      ok := row.event.at <= I64_MAX && !HasId(rows, row.event.id);
      if ok {
        rows := rows + [row];
      }
    }

    /** Rows eligible for the archive. */
    method GetPrunable(cutoff: nat, threshold: real, limit: nat) returns (batch: seq<Row>)
      requires Valid()
      ensures PruneAnswer(Stored(), rows, cutoff, threshold, limit, batch)
    {
      var view := Stored();
      var eligible := Filter((r: Row) => Eligible(view, r, cutoff, threshold), rows);
      FilteredRows((r: Row) => Eligible(view, r, cutoff, threshold), rows);
      var sorted := SortBy(RowKey, eligible);
      SortedRows(eligible);
      batch := if limit < |sorted| then sorted[..limit] else sorted;
      OldestTaken(sorted, batch, limit);
    }

    /** One DELETE per id; returns how many rows went. */
    method DeleteEvents(ids: seq<string>) returns (deleted: nat)
      requires Valid()
      modifies this`rows
      ensures Valid() && rows == WithoutAll(old(rows), ids) && deleted + |rows| == |old(rows)|
      ensures forall r | r in rows :: r in old(rows)
    {
      deleted := 0;
      for i := 0 to |ids|
        invariant Valid() && deleted + |rows| == |old(rows)|
        invariant WithoutAll(rows, ids[i..]) == WithoutAll(old(rows), ids)
        invariant forall r | r in rows :: r in old(rows)
      {
        WithoutFacts(rows, ids[i]);
        var kept := Without(rows, ids[i]);
        deleted := deleted + (|rows| - |kept|);
        rows := kept;
      }
    }

    /** Shell and claim rows in fold order. */
    method GetFoldEvents() returns (events: seq<Event>)
      requires Valid()
      ensures events == SortLog(FoldSources(EventsOf(rows)))
    {
      events := [];
      for i := 0 to |rows|
        invariant events == FoldSources(EventsOf(rows[..i]))
      {
        assert rows[..i + 1][..i] == rows[..i];
        var e := rows[i].event;
        FoldSourcesPush(EventsOf(rows[..i]), e);
        if IsFoldSource(e) {
          events := events + [e];
        }
      }
      assert rows[..|rows|] == rows;
      events := SortLog(events);
    }

    /** Replace both view tables in one transaction; a constraint violation rolls back. */
    method ReplaceProjection(view: View) returns (ok: bool)
      requires Valid()
      modifies this`tasks, this`claims
      ensures Valid()
      ensures ok <==> Storable(view)
      ensures Stored() == if ok then view else old(Stored())
    {
      var newTasks: seq<Task>, newClaims: seq<Claim> := [], [];
      for i := 0 to |view.tasks|
        invariant newTasks == view.tasks[..i] && TasksOnce(newTasks)
      {
        if TaskIndex(newTasks, view.tasks[i].id) < |newTasks| { return false; }
        newTasks := newTasks + [view.tasks[i]];
      }
      for i := 0 to |view.claims|
        invariant newClaims == view.claims[..i] && WellFormed(newClaims)
      {
        var c := view.claims[i];
        if ClaimIndex(newClaims, c.id) < |newClaims| { return false; }
        if c.status == Current && UniqueSlot(c.kind)
           && SlotIndex(newClaims, c.taskId, c.kind, c.subject) < |newClaims| { return false; }
        newClaims := newClaims + [c];
      }
      tasks, claims := newTasks, newClaims;
      return true;
    }

    method LoadProjection() returns (view: View)
      requires Valid()
      ensures view == Loaded(Stored())
    {
      view := View(SortBy(TaskKey, tasks), SortBy(AgeKey, claims));
    }

    method ArchiveEvents(batch: seq<Row>) returns (stored: bool)
      requires Valid() && FitsColumns(batch)
      modifies this`archive
      ensures Valid()
      ensures stored <==> batch != []
      ensures archive == if stored then old(archive) + [SegmentOf(batch)] else old(archive)
    {
      if batch == [] { return false; }
      var fromMs, toMs := batch[0].event.at, batch[0].event.at;
      assert batch[..1] == [batch[0]];
      for i := 1 to |batch|
        invariant fromMs == Earliest(batch[..i]) && toMs == Latest(batch[..i])
      {
        assert batch[..i + 1][..i] == batch[..i];
        if batch[i].event.at < fromMs { fromMs := batch[i].event.at; }
        if batch[i].event.at > toMs { toMs := batch[i].event.at; }
      }
      assert batch[..|batch|] == batch;
      archive := archive + [Segment(fromMs, toMs, |batch|, batch)];
      return true;
    }

    /** One pass, stopped by a crash after `writes` single writes: first the whole batch is
        archived, then its rows are deleted one by one. */
    method ArchivePass(cutoff: nat, threshold: real, limit: nat, writes: nat)
      returns (moved: nat, batch: seq<Row>)
      requires Valid()
      modifies this`rows, this`archive
      ensures Valid() && PruneAnswer(Stored(), old(rows), cutoff, threshold, limit, batch)
      ensures rows == PassRows(old(rows), batch, writes) && archive == PassArchive(old(archive), batch, writes)
      ensures moved + |rows| == |old(rows)|
    {
      batch := GetPrunable(cutoff, threshold, limit);
      if batch == [] { return 0, batch; }
      if writes == 0 { return 0, batch; }
      var stored := ArchiveEvents(batch);
      moved := DeleteEvents(Reached(batch, writes));
    }

    /** The segments that overlap the range, newest first. */
    method SegmentsInRange(fromMs: nat, toMs: nat) returns (found: seq<Segment>)
      requires Valid()
      ensures NewestFirst(found)
      ensures forall s :: multiset(found)[s] == if Overlaps(s, fromMs, toMs) then multiset(archive)[s] else 0
    {
      found := [];
      for i := 0 to |archive|
        invariant NewestFirst(found)
        invariant forall s :: multiset(found)[s] == if Overlaps(s, fromMs, toMs) then multiset(archive[..i])[s] else 0
      {
        assert archive[..i + 1] == archive[..i] + [archive[i]];
        if Overlaps(archive[i], fromMs, toMs) {
          InsertNewestFacts(archive[i], found);
          found := InsertNewest(archive[i], found);
        }
      }
      assert archive[..|archive|] == archive;
    }

    method ArchivedEventCount() returns (count: nat)
      ensures count == EventCount(archive)
    {
      count := 0;
      for i := 0 to |archive|
        invariant count == EventCount(archive[..i])
      {
        assert archive[..i + 1][..i] == archive[..i];
        count := count + archive[i].count;
      }
      assert archive[..|archive|] == archive;
    }
  }

  predicate NewestFirst(found: seq<Segment>) {
    forall i, j | 0 <= i < j < |found| :: found[i].fromMs >= found[j].fromMs
  }

  function InsertNewest(s: Segment, found: seq<Segment>): seq<Segment> {
    if found == [] || s.fromMs >= found[0].fromMs then [s] + found
    else [found[0]] + InsertNewest(s, found[1..])
  }

  lemma {:induction false} InsertNewestCounts(s: Segment, found: seq<Segment>)
    ensures multiset(InsertNewest(s, found)) == multiset(found) + multiset{s}
  {
    if found != [] {
      assert found == [found[0]] + found[1..];
      InsertNewestCounts(s, found[1..]);
    }
  }

  lemma {:induction false} InsertNewestFacts(s: Segment, found: seq<Segment>)
    requires NewestFirst(found)
    ensures NewestFirst(InsertNewest(s, found)) && multiset(InsertNewest(s, found)) == multiset(found) + multiset{s}
  {
    InsertNewestCounts(s, found);
    if found != [] && s.fromMs < found[0].fromMs {
      var rest, after := found[1..], InsertNewest(s, found[1..]);
      InsertNewestFacts(s, rest);
      forall i | 0 <= i < |after|
        ensures after[i].fromMs <= found[0].fromMs
      {
        assert multiset(after)[after[i]] > 0;
        if after[i] != s {
          assert multiset(rest)[after[i]] > 0;
          var j :| 0 <= j < |rest| && rest[j] == after[i];
          assert found[j + 1] == after[i];
        }
      }
    }
  }

  function RowKey(r: Row): Key {
    Key(0, r.event.at, r.event.id, "")
  }

  lemma {:induction false} RowOnce(rows: seq<Row>, r: Row)
    requires DistinctRows(rows)
    ensures multiset(rows)[r] <= 1
  {
    if rows != [] {
      assert rows == [rows[0]] + rows[1..];
      RowOnce(rows[1..], r);
      assert rows[0] !in rows[1..];
    }
  }

  lemma {:induction false} FilteredRows(keep: Row -> bool, rows: seq<Row>)
    requires DistinctRows(rows)
    ensures DistinctRows(Filter(keep, rows))
    ensures forall r :: r in Filter(keep, rows) <==> r in rows && keep(r)
  {
    if rows != [] {
      assert rows == [rows[0]] + rows[1..];
      FilteredRows(keep, rows[1..]);
      forall r | r in Filter(keep, rows[1..])
        ensures r.event.id != rows[0].event.id
      {
        var i :| 0 <= i < |rows[1..]| && rows[1..][i] == r;
        assert rows[i + 1] == r;
      }
    }
  }

  lemma TwiceCounts(rows: seq<Row>, i: nat, j: nat)
    requires i < j < |rows| && rows[i] == rows[j]
    ensures multiset(rows)[rows[i]] >= 2
  {
    assert rows == rows[..i] + [rows[i]] + rows[i + 1..j] + [rows[j]] + rows[j + 1..];
  }

  lemma PermutedRows(rows: seq<Row>, s: seq<Row>)
    requires DistinctRows(rows) && multiset(s) == multiset(rows)
    ensures DistinctRows(s) && forall r :: r in s <==> r in rows
  {
    SameMembers(s, rows);
    forall i, j | 0 <= i < j < |s|
      ensures s[i].event.id != s[j].event.id
    {
      assert s[i] in rows && s[j] in rows;
      RowOnce(rows, s[i]);
      if s[i] == s[j] {
        TwiceCounts(s, i, j);
      }
    }
  }

  lemma SortedRows(rows: seq<Row>)
    requires DistinctRows(rows)
    ensures var s := SortBy(RowKey, rows);
      DistinctRows(s) && (forall r :: r in s <==> r in rows) && ByAge(s)
  {
    var s := SortBy(RowKey, rows);
    SortPermutes(RowKey, rows);
    SortSorts(RowKey, rows);
    PermutedRows(rows, s);
    forall i, j | 0 <= i < j < |s|
      ensures s[i].event.at <= s[j].event.at
    {
      assert !KeyLess(RowKey(s[j]), RowKey(s[i]));
    }
  }

  predicate ByAge(s: seq<Row>) {
    forall i, j | 0 <= i < j < |s| :: s[i].event.at <= s[j].event.at
  }

  lemma OldestTaken(s: seq<Row>, batch: seq<Row>, limit: nat)
    requires DistinctRows(s) && ByAge(s) && batch == if limit < |s| then s[..limit] else s
    ensures DistinctRows(batch) && ByAge(batch) && |batch| <= limit && forall r | r in batch :: r in s
    ensures forall r | r in s && r !in batch :: |batch| == limit && forall b | b in batch :: b.event.at <= r.event.at
  {
    forall r, b | r in s && r !in batch && b in batch
      ensures b.event.at <= r.event.at
    {
      var i :| 0 <= i < |s| && s[i] == r;
      var j :| 0 <= j < |batch| && batch[j] == b;
      assert i >= |batch|;
    }
  }

  /** Ids whose DELETE ran before the crash. */
  function Reached(batch: seq<Row>, writes: nat): seq<string>
    requires writes > 0
  {
    var ids := IdsOf(batch);
    if writes - 1 < |ids| then ids[..writes - 1] else ids
  }

  function PassRows(rows: seq<Row>, batch: seq<Row>, writes: nat): seq<Row> {
    if batch == [] || writes == 0 then rows else WithoutAll(rows, Reached(batch, writes))
  }

  function PassArchive(archive: seq<Segment>, batch: seq<Row>, writes: nat): seq<Segment> {
    if batch == [] || writes == 0 then archive else archive + [SegmentOf(batch)]
  }

  lemma {:induction false} WithoutFacts(rows: seq<Row>, id: string)
    requires DistinctRows(rows)
    ensures DistinctRows(Without(rows, id)) && |Without(rows, id)| <= |rows|
    ensures forall r :: r in Without(rows, id) <==> r in rows && r.event.id != id
  {
    if rows != [] {
      WithoutFacts(rows[1..], id);
      assert rows == [rows[0]] + rows[1..];
      assert forall r | r in rows[1..] :: r.event.id != rows[0].event.id;
    }
  }

  lemma FoldSourcesPush(log: seq<Event>, e: Event)
    ensures FoldSources(log + [e]) == FoldSources(log) + if IsFoldSource(e) then [e] else []
  {
    assert (log + [e])[..|log|] == log;
  }
}
