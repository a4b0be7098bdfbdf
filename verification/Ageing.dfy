/** Runs of the archive worker with crashes: nothing is lost, every archived row is found by
    its time, the counts balance, and the view does not notice. */
module Ageing {
  import opened Claims
  import opened Projector
  import opened GatedLog
  import opened Compaction
  import opened Briefing
  import opened EventTable
  import opened Store
  import opened Persistence

  datatype Shelf = Shelf(rows: seq<Row>, archive: seq<Segment>)

  /** An insert, or one pass over what the prune query returned, cut off after some writes. */
  datatype Step =
    | Arrive(row: Row)
    | Pass(view: View, cutoff: nat, threshold: real, limit: nat, batch: seq<Row>, writes: nat)

  predicate NextShelf(s: Shelf, a: Step, t: Shelf) {
    match a
    case Arrive(row) =>
      row.event.at <= I64_MAX && !HasId(s.rows, row.event.id) && t == s.(rows := s.rows + [row])
    case Pass(view, cutoff, threshold, limit, batch, writes) =>
      && PruneAnswer(view, s.rows, cutoff, threshold, limit, batch)
      && t == Shelf(PassRows(s.rows, batch, writes), PassArchive(s.archive, batch, writes))
  }

  ghost predicate IsRunOf(states: seq<Shelf>, steps: seq<Step>) {
    && |states| == |steps| + 1 && states[0] == Shelf([], [])
    && forall k | 0 <= k < |steps| :: NextShelf(states[k], steps[k], states[k + 1])
  }

  predicate ShelfOk(s: Shelf) {
    DistinctRows(s.rows) && FitsColumns(s.rows) && forall x | x in s.archive :: SegmentOk(x)
  }

  // ---------- nothing is lost ----------

  lemma {:induction false} IdsFacts(rows: seq<Row>)
    ensures |IdsOf(rows)| == |rows| && forall i | 0 <= i < |rows| :: IdsOf(rows)[i] == rows[i].event.id
  {
    if rows != [] {
      IdsFacts(rows[1..]);
    }
  }

  lemma ReachedFacts(batch: seq<Row>, writes: nat)
    requires writes > 0
    ensures forall id | id in Reached(batch, writes) :: HasId(batch, id)
  {
    IdsFacts(batch);
    forall id | id in Reached(batch, writes)
      ensures HasId(batch, id)
    {
      var i :| 0 <= i < |batch| && IdsOf(batch)[i] == id;
      assert batch[i] in batch;
    }
  }

  lemma SegmentIsOk(batch: seq<Row>)
    requires batch != [] && FitsColumns(batch)
    ensures SegmentOk(SegmentOf(batch))
  {
  }

  lemma PassKeepsOk(s: Shelf, a: Step, t: Shelf)
    requires ShelfOk(s) && a.Pass? && NextShelf(s, a, t)
    ensures ShelfOk(t)
    ensures forall r | r in s.rows :: r in t.rows || Archived(t.archive, r)
  {
    if a.batch != [] && a.writes > 0 {
      WithoutAllMembers(s.rows, Reached(a.batch, a.writes));
      ReachedFacts(a.batch, a.writes);
      SegmentIsOk(a.batch);
      assert SegmentOf(a.batch) in t.archive;
      forall r | r in s.rows && r !in t.rows
        ensures Archived(t.archive, r)
      {
        var b :| b in a.batch && b.event.id == r.event.id;
        assert b == r;
      }
    }
  }

  lemma StepKeeps(s: Shelf, a: Step, t: Shelf)
    requires ShelfOk(s) && NextShelf(s, a, t)
    ensures ShelfOk(t)
    ensures forall r | r in s.rows || Archived(s.archive, r) :: r in t.rows || Archived(t.archive, r)
  {
    if a.Pass? {
      PassKeepsOk(s, a, t);
    }
    forall r | Archived(s.archive, r)
      ensures Archived(t.archive, r)
    {
      var x :| x in s.archive && r in x.blob;
      assert x in t.archive;
    }
  }

  lemma {:induction false} RunIsOk(states: seq<Shelf>, steps: seq<Step>, k: nat)
    requires IsRunOf(states, steps) && k < |states|
    ensures ShelfOk(states[k])
  {
    if k > 0 {
      RunIsOk(states, steps, k - 1);
      StepKeeps(states[k - 1], steps[k - 1], states[k]);
    }
  }

  /** However many passes ran and wherever they were cut off, every row that ever arrived is
      in the live table or in a stored segment. */
  lemma {:induction false} NothingIsLost(states: seq<Shelf>, steps: seq<Step>, i: nat, k: nat)
    requires IsRunOf(states, steps) && i < k < |states| && steps[i].Arrive?
    ensures steps[i].row in states[k].rows || Archived(states[k].archive, steps[i].row)
    decreases k
  {
    hide NextShelf, ShelfOk, Archived;
    assert NextShelf(states[k - 1], steps[k - 1], states[k]);
    if i < k - 1 {
      NothingIsLost(states, steps, i, k - 1);
      RunIsOk(states, steps, k - 1);
      KeepsRow(states[k - 1], steps[k - 1], states[k], steps[i].row);
    } else {
      Arrives(states[i], steps[i], states[i + 1]);
    }
  }

  lemma KeepsRow(s: Shelf, a: Step, t: Shelf, r: Row)
    requires ShelfOk(s) && NextShelf(s, a, t) && (r in s.rows || Archived(s.archive, r))
    ensures r in t.rows || Archived(t.archive, r)
  {
    StepKeeps(s, a, t);
  }

  lemma Arrives(s: Shelf, a: Step, t: Shelf)
    requires NextShelf(s, a, t) && a.Arrive?
    ensures a.row in t.rows
  {
  }

  // ---------- every archived row is found by its time ----------

  lemma {:induction false} Bounds(rows: seq<Row>)
    requires rows != []
    ensures forall r | r in rows :: Earliest(rows) <= r.event.at <= Latest(rows)
  {
    var init, last := rows[..|rows| - 1], rows[|rows| - 1];
    assert rows == init + [last];
    if |rows| > 1 {
      Bounds(init);
    }
  }

  /** A range query returns a segment holding each archived row whose time lies in the range,
      whatever 64-bit bounds it was asked with. */
  lemma RangeFindsArchived(states: seq<Shelf>, steps: seq<Step>, k: nat, r: Row, fromMs: nat, toMs: nat)
    requires IsRunOf(states, steps) && k < |states| && Archived(states[k].archive, r)
    requires fromMs <= r.event.at <= toMs
    ensures exists s | s in states[k].archive :: r in s.blob && Overlaps(s, fromMs, toMs)
  {
    RunIsOk(states, steps, k);
    var s :| s in states[k].archive && r in s.blob;
    assert SegmentOk(s);
    Bounds(s.blob);
  }

  // ---------- the counts balance ----------

  function Arrivals(steps: seq<Step>): nat {
    if steps == [] then 0 else Arrivals(steps[..|steps| - 1]) + if steps[|steps| - 1].Arrive? then 1 else 0
  }

  /** Rows a pass archived but did not get to delete. */
  function LeftBehind(a: Step): nat {
    if a.Arrive? || a.writes == 0 || a.writes > |a.batch| then 0 else |a.batch| - (a.writes - 1)
  }

  function AllLeftBehind(steps: seq<Step>): nat {
    if steps == [] then 0 else AllLeftBehind(steps[..|steps| - 1]) + LeftBehind(steps[|steps| - 1])
  }

  lemma {:induction false} WithoutOne(rows: seq<Row>, r: Row)
    requires DistinctRows(rows) && r in rows
    ensures |Without(rows, r.event.id)| == |rows| - 1
  {
    assert rows == [rows[0]] + rows[1..];
    if rows[0] == r {
      WithoutNone(rows[1..], r.event.id);
    } else {
      WithoutOne(rows[1..], r);
      var i :| 0 <= i < |rows[1..]| && rows[1..][i] == r;
      assert rows[i + 1] == r;
    }
  }

  lemma {:induction false} WithoutNone(rows: seq<Row>, id: string)
    requires forall r | r in rows :: r.event.id != id
    ensures Without(rows, id) == rows
  {
    if rows != [] {
      assert rows == [rows[0]] + rows[1..];
      WithoutNone(rows[1..], id);
    }
  }

  lemma {:induction false} DeletesCount(rows: seq<Row>, gone: seq<Row>)
    requires DistinctRows(rows) && DistinctRows(gone) && forall r | r in gone :: r in rows
    ensures |WithoutAll(rows, IdsOf(gone))| == |rows| - |gone|
    decreases |gone|
  {
    if gone != [] {
      WithoutOne(rows, gone[0]);
      WithoutFacts(rows, gone[0].event.id);
      assert IdsOf(gone)[1..] == IdsOf(gone[1..]);
      DeletesCount(Without(rows, gone[0].event.id), gone[1..]);
    }
  }

  lemma ReachedIds(batch: seq<Row>, writes: nat)
    requires writes > 0
    ensures var n := if writes - 1 < |batch| then writes - 1 else |batch|;
      Reached(batch, writes) == IdsOf(batch[..n])
  {
    var n := if writes - 1 < |batch| then writes - 1 else |batch|;
    IdsFacts(batch);
    IdsFacts(batch[..n]);
    assert IdsOf(batch)[..n] == IdsOf(batch[..n]);
  }

  lemma PassDeletes(rows: seq<Row>, batch: seq<Row>, writes: nat)
    requires DistinctRows(rows) && DistinctRows(batch) && (forall r | r in batch :: r in rows) && writes > 0
    ensures var n := if writes - 1 < |batch| then writes - 1 else |batch|;
      |PassRows(rows, batch, writes)| == |rows| - n
  {
    var n := if writes - 1 < |batch| then writes - 1 else |batch|;
    if batch != [] {
      ReachedIds(batch, writes);
      assert forall r | r in batch[..n] :: r in batch;
      DeletesCount(rows, batch[..n]);
    }
  }

  lemma PassCounts(s: Shelf, a: Step, t: Shelf)
    requires ShelfOk(s) && a.Pass? && NextShelf(s, a, t)
    ensures EventCount(t.archive) + |t.rows| == EventCount(s.archive) + |s.rows| + LeftBehind(a)
  {
    if a.batch != [] && a.writes > 0 {
      hide PassRows, ByAge, Eligible;
      PassDeletes(s.rows, a.batch, a.writes);
      CountPush(s.archive, SegmentOf(a.batch));
    }
  }

  lemma CountPush(archive: seq<Segment>, x: Segment)
    ensures EventCount(archive + [x]) == EventCount(archive) + x.count
  {
    assert (archive + [x])[..|archive|] == archive;
  }

  /** Live rows plus archived events is arrivals plus the rows that crashes left in both:
      without a crash each pass moves exactly its batch. */
  lemma {:induction false} CountsBalance(states: seq<Shelf>, steps: seq<Step>, k: nat)
    requires IsRunOf(states, steps) && k < |states|
    ensures EventCount(states[k].archive) + |states[k].rows| == Arrivals(steps[..k]) + AllLeftBehind(steps[..k])
  {
    if k > 0 {
      CountsBalance(states, steps, k - 1);
      RunIsOk(states, steps, k - 1);
      assert NextShelf(states[k - 1], steps[k - 1], states[k]);
      assert steps[..k][..k - 1] == steps[..k - 1];
      if steps[k - 1].Pass? {
        PassCounts(states[k - 1], steps[k - 1], states[k]);
      }
    }
  }

  // ---------- the view does not notice ----------

  /** A pass over the answer of the prune query, cut off anywhere, leaves the current claims,
      the active tasks and the focal task of the refold alone. */
  lemma PassIsInvisible(rows: seq<Row>, cutoff: nat, threshold: real, limit: nat, batch: seq<Row>, writes: nat)
    requires DistinctRows(rows) && Gated(Table(rows))
    requires PruneAnswer(Fold(Table(rows)), rows, cutoff, threshold, limit, batch)
    ensures var after := Table(PassRows(rows, batch, writes));
      && Gated(after) && SameView(Fold(Table(rows)), Fold(after))
      && FocalTask(WorkOf(Fold(Table(rows)))) == FocalTask(WorkOf(Fold(after)))
  {
    var ids := if batch == [] || writes == 0 then [] else Reached(batch, writes);
    DeleteIsDeleteRows(rows, ids);
    TableFacts(rows);
    forall e | e in Table(rows) && e.id in ids
      ensures Prunable(Fold(Table(rows)), e)
    {
      ReachedFacts(batch, writes);
      var r :| r in rows && r.event == e;
      var b :| b in batch && b.event.id == e.id;
      assert b == r;
    }
    CompactionIsInvisible(Table(rows), ids);
  }

  // ---------- what a segment says of itself ----------

  /** A segment spans its rows exactly: some row stands at either end and none outside. */
  lemma {:induction false} SegmentSpans(batch: seq<Row>)
    requires batch != []
    ensures var s := SegmentOf(batch);
      && s.count == |batch| && s.blob == batch
      && (forall r | r in batch :: s.fromMs <= r.event.at <= s.toMs)
      && (exists r :: r in batch && r.event.at == s.fromMs) && exists r :: r in batch && r.event.at == s.toMs
  {
    var last := batch[|batch| - 1];
    if |batch| > 1 {
      var init := batch[..|batch| - 1];
      assert batch == init + [last];
      SegmentSpans(init);
    } else {
      assert batch == [last];
    }
  }

  /** A range query returns a segment exactly if a moment of the range lies in its span; past
      the largest time a column holds, the query stops at that time. */
  lemma OverlapIsCommonMoment(s: Segment, fromMs: nat, toMs: nat)
    requires s.fromMs <= s.toMs <= 0x7FFF_FFFF_FFFF_FFFF && fromMs <= toMs
    ensures Overlaps(s, fromMs, toMs) <==>
      if fromMs > 0x7FFF_FFFF_FFFF_FFFF then s.toMs == 0x7FFF_FFFF_FFFF_FFFF
      else exists t: nat :: Within(t, fromMs, toMs) && Within(t, s.fromMs, s.toMs)
  {
    if fromMs <= 0x7FFF_FFFF_FFFF_FFFF && Overlaps(s, fromMs, toMs) {
      var t := if fromMs >= s.fromMs then fromMs else s.fromMs;
      assert Within(t, fromMs, toMs) && Within(t, s.fromMs, s.toMs);
    }
  }

  predicate Within(t: nat, fromMs: nat, toMs: nat) {
    fromMs <= t <= toMs
  }

  // ---------- which rows go ----------

  /** What the prune query returns: old rows of low score, untyped or episodic, that are no
      claim, opened no active task and are cited by no current claim. A row of that kind is
      left out only if the batch is full of rows no younger. */
  lemma BatchIsAged(view: View, rows: seq<Row>, cutoff: nat, threshold: real, limit: nat, batch: seq<Row>)
    requires PruneAnswer(view, rows, cutoff, threshold, limit, batch)
    ensures |batch| <= limit && forall r | r in batch :: r in rows && r.event.at < cutoff && r.score < threshold
    ensures forall r | r in batch :: (r.memoryType.None? || r.memoryType.value == "episodic") && !r.event.body.Authored?
    ensures forall r, t | r in batch && t in view.tasks && t.openedBy == r.event.id :: t.status == Done
    ensures forall r, c | r in batch && c in view.claims && r.event.id in c.evidenceIds :: c.status == Superseded
    ensures forall r | r in rows && r.event.at < cutoff && r.score < threshold && !r.event.body.Authored?
        && (r.memoryType.None? || r.memoryType.value == "episodic")
        && (forall t | t in view.tasks && t.openedBy == r.event.id :: t.status == Done)
        && (forall c | c in view.claims && r.event.id in c.evidenceIds :: c.status == Superseded) ::
          r in batch || (|batch| == limit && forall b | b in batch :: b.event.at <= r.event.at)
  {
    forall r | r in rows && r.event.at < cutoff && r.score < threshold && !r.event.body.Authored?
      && (r.memoryType.None? || r.memoryType.value == "episodic")
      && (forall t | t in view.tasks && t.openedBy == r.event.id :: t.status == Done)
      && (forall c | c in view.claims && r.event.id in c.evidenceIds :: c.status == Superseded)
      ensures r in batch || (|batch| == limit && forall b | b in batch :: b.event.at <= r.event.at)
    {
      assert Prunable(view, r.event);
      assert Eligible(view, r, cutoff, threshold);
    }
  }

  /** A pass that gets as far as `writes` writes, the first of them the segment, takes the
      first rows of its batch out of the table, oldest first, and no other. */
  lemma PassTakesOldest(view: View, rows: seq<Row>, cutoff: nat, threshold: real, limit: nat, batch: seq<Row>, writes: nat)
    requires DistinctRows(rows) && PruneAnswer(view, rows, cutoff, threshold, limit, batch)
    ensures var n := if writes == 0 then 0 else if writes - 1 < |batch| then writes - 1 else |batch|;
      forall r :: r in PassRows(rows, batch, writes) <==> r in rows && r !in batch[..n]
    ensures forall i, j | 0 <= i < j < |batch| :: batch[i].event.at <= batch[j].event.at
  {
    hide Eligible;
    if batch != [] && writes > 0 {
      var n := if writes - 1 < |batch| then writes - 1 else |batch|;
      ReachedIds(batch, writes);
      WithoutAllMembers(rows, IdsOf(batch[..n]));
      IdsFacts(batch[..n]);
      forall r | r in rows
        ensures r in batch[..n] <==> r.event.id in IdsOf(batch[..n])
      {
        IdsOfBatch(rows, batch, n, r);
      }
    }
  }

  lemma IdsOfBatch(rows: seq<Row>, batch: seq<Row>, n: nat, r: Row)
    requires DistinctRows(rows) && r in rows && n <= |batch| && forall b | b in batch :: b in rows
    ensures r in batch[..n] <==> r.event.id in IdsOf(batch[..n])
  {
    var some := batch[..n];
    IdsFacts(some);
    if r in some {
      var i :| 0 <= i < |some| && some[i] == r;
      assert IdsOf(some)[i] == r.event.id;
    }
    if r.event.id in IdsOf(some) {
      var i :| 0 <= i < |some| && IdsOf(some)[i] == r.event.id;
      assert some[i] == batch[i] && batch[i] in rows;
    }
  }

  /** Over any run, a row that leaves the table in a step was aged when it left. */
  lemma GoneWasAged(states: seq<Shelf>, steps: seq<Step>, k: nat, r: Row)
    requires IsRunOf(states, steps) && k < |steps| && r in states[k].rows && r !in states[k + 1].rows
    ensures steps[k].Pass? && r.event.at < steps[k].cutoff && r.score < steps[k].threshold && !r.event.body.Authored?
    ensures r.memoryType.None? || r.memoryType.value == "episodic"
    ensures forall t | t in steps[k].view.tasks && t.openedBy == r.event.id :: t.status == Done
    ensures forall c | c in steps[k].view.claims && r.event.id in c.evidenceIds :: c.status == Superseded
  {
    hide PruneAnswer, PassRows, PassArchive;
    assert NextShelf(states[k], steps[k], states[k + 1]);
    RunIsOk(states, steps, k);
    if steps[k].Pass? {
      var a := steps[k];
      PassTakesOldest(a.view, states[k].rows, a.cutoff, a.threshold, a.limit, a.batch, a.writes);
      BatchIsAged(a.view, states[k].rows, a.cutoff, a.threshold, a.limit, a.batch);
    }
  }
}
