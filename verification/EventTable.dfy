/** The event table in query order: insertion, deletion, and the batches the pruner deletes. */
module EventTable {
  import opened Text
  import opened Claims
  import opened Projector
  import opened CurrentView
  import opened GatedLog
  import opened FoldLaws
  import opened Compaction
  import opened Briefing

  /** SQLite integers are signed; a larger timestamp does not bind. */
  const I64_MAX: nat := 0x7FFF_FFFF_FFFF_FFFF

  // ---------- the event table in query order ----------

  /** `ORDER BY timestamp_ms, id`. */
  predicate Before(a: Event, b: Event) {
    a.at < b.at || (a.at == b.at && Less(a.id, b.id))
  }

  predicate InOrder(log: seq<Event>) {
    forall i, j | 0 <= i < j < |log| :: Before(log[i], log[j])
  }

  /** Insertion in query order. */
  function InsertRow(log: seq<Event>, y: Event): seq<Event> {
    if log == [] || Before(y, log[0]) then [y] + log else [log[0]] + InsertRow(log[1..], y)
  }

  function RowIndex(log: seq<Event>, id: string): (k: nat)
    ensures k <= |log|
    ensures k < |log| ==> log[k].id == id
    ensures forall j | 0 <= j < k :: log[j].id != id
  {
    if log == [] || log[0].id == id then 0 else 1 + RowIndex(log[1..], id)
  }

  function DeleteRow(log: seq<Event>, id: string): seq<Event> {
    if log == [] then []
    else if log[0].id == id then log[1..]
    else [log[0]] + DeleteRow(log[1..], id)
  }

  function InsertRows(log: seq<Event>, es: seq<Event>): seq<Event>
    decreases |es|
  {
    if es == [] then log else InsertRows(InsertRow(log, es[0]), es[1..])
  }

  /** `delete_events`: one row at a time. */
  function DeleteRows(log: seq<Event>, ids: seq<string>): seq<Event>
    decreases |ids|
  {
    if ids == [] then log else DeleteRows(DeleteRow(log, ids[0]), ids[1..])
  }

  predicate HasRow(log: seq<Event>, id: string) {
    exists e | e in log :: e.id == id
  }

  lemma BeforeTotal(a: Event, b: Event)
    requires a.id != b.id
    ensures Before(a, b) || Before(b, a)
  {
    LessTotal(a.id, b.id);
  }

  lemma BeforeTransitive(a: Event, b: Event, c: Event)
    requires Before(a, b) && Before(b, c)
    ensures Before(a, c)
  {
    if a.at == b.at == c.at {
      LessTransitive(a.id, b.id, c.id);
    }
  }

  predicate Covers(ys: seq<Event>, xs: seq<Event>) {
    forall x | x in xs :: x in ys
  }

  lemma {:induction false} InsertMembers(log: seq<Event>, y: Event)
    ensures forall e :: e in InsertRow(log, y) <==> e == y || e in log
  {
    if log != [] && !Before(y, log[0]) {
      InsertMembers(log[1..], y);
      assert log == [log[0]] + log[1..];
    }
  }

  lemma {:induction false} InsertKeeps(log: seq<Event>, y: Event)
    requires InOrder(log) && DistinctEvents(log) && !HasRow(log, y.id)
    ensures InOrder(InsertRow(log, y)) && DistinctEvents(InsertRow(log, y))
  {
    if log != [] {
      assert log[0] in log;
      if Before(y, log[0]) {
        forall j | 0 <= j < |log|
          ensures Before(y, log[j]) && y.id != log[j].id
        {
          assert log[j] in log;
          if j > 0 {
            BeforeTransitive(y, log[0], log[j]);
          }
        }
      } else {
        assert log == [log[0]] + log[1..];
        InsertKeeps(log[1..], y);
        InsertMembers(log[1..], y);
        BeforeTotal(y, log[0]);
        var tail := InsertRow(log[1..], y);
        forall j | 0 <= j < |tail|
          ensures Before(log[0], tail[j]) && log[0].id != tail[j].id
        {
          assert tail[j] in tail;
          if tail[j] != y {
            var i :| 0 <= i < |log[1..]| && log[1..][i] == tail[j];
            assert log[i + 1] == tail[j];
          }
        }
      }
    }
  }

  lemma {:induction false} DeleteSplits(log: seq<Event>, id: string)
    ensures var k := RowIndex(log, id);
      DeleteRow(log, id) == if k < |log| then log[..k] + log[k + 1..] else log
  {
    if log != [] && log[0].id != id {
      DeleteSplits(log[1..], id);
      var k := RowIndex(log, id);
      if k < |log| {
        ConsParts(log, k);
      }
    }
  }

  lemma ConsParts(log: seq<Event>, k: nat)
    requires 0 < k < |log|
    ensures log[..k] + log[k + 1..] == [log[0]] + (log[1..][..k - 1] + log[1..][k..])
  {
    assert log[..k] == [log[0]] + log[1..][..k - 1] && log[k + 1..] == log[1..][k..];
  }

  /** Rows of `log` and of `after`, which has one more row at `i`. */
  predicate OneMoreAt(log: seq<Event>, after: seq<Event>, i: nat) {
    && i <= |log| && |after| == |log| + 1
    && forall j | 0 <= j < |log| :: log[j] == after[if j < i then j else j + 1]
  }

  lemma DeleteKeeps(log: seq<Event>, id: string)
    requires InOrder(log) && DistinctEvents(log)
    ensures InOrder(DeleteRow(log, id)) && DistinctEvents(DeleteRow(log, id))
    ensures Covers(log, DeleteRow(log, id))
  {
    DeleteSplits(log, id);
    var k, rest := RowIndex(log, id), DeleteRow(log, id);
    if k < |log| {
      DeletedRows(log, k, rest);
      OneLessKeeps(rest, log, k);
    }
  }

  lemma DeletedRows(log: seq<Event>, k: nat, rest: seq<Event>)
    requires k < |log| && rest == log[..k] + log[k + 1..]
    ensures OneMoreAt(rest, log, k)
  {
  }

  lemma OneLessKeeps(log: seq<Event>, after: seq<Event>, k: nat)
    requires OneMoreAt(log, after, k) && InOrder(after) && DistinctEvents(after)
    ensures InOrder(log) && DistinctEvents(log) && Covers(after, log)
  {
    forall i, j | 0 <= i < j < |log|
      ensures Before(log[i], log[j]) && log[i].id != log[j].id
    {
      assert log[i] == after[if i < k then i else i + 1] && log[j] == after[if j < k then j else j + 1];
    }
  }

  /** Inserting one row and deleting another commute. */
  lemma {:induction false} InsertDeleteCommute(log: seq<Event>, y: Event, id: string)
    requires InOrder(log) && id != y.id
    ensures DeleteRow(InsertRow(log, y), id) == InsertRow(DeleteRow(log, id), y)
  {
    if log != [] {
      if Before(y, log[0]) {
        assert ([y] + log)[1..] == log;
        if log[0].id == id && |log| > 1 {
          BeforeTransitive(y, log[0], log[1]);
        }
      } else {
        InsertDeleteCommute(log[1..], y, id);
      }
    }
  }

  /** Where an insertion lands. */
  lemma {:induction false} InsertAt(log: seq<Event>, y: Event) returns (i: nat)
    ensures i <= |log| && InsertRow(log, y) == log[..i] + [y] + log[i..]
  {
    if log == [] || Before(y, log[0]) {
      i := 0;
      assert log[..0] + [y] + log[0..] == [y] + log;
    } else {
      var j := InsertAt(log[1..], y);
      i := j + 1;
      assert log[..i] == [log[0]] + log[1..][..j] && log[i..] == log[1..][j..];
    }
  }

  lemma RowIndexIs(log: seq<Event>, id: string, k: nat)
    requires k < |log| && log[k].id == id && forall j | 0 <= j < k :: log[j].id != id
    ensures RowIndex(log, id) == k
  {
  }

  /** Around a row that stays, an insertion adds to one side and takes from neither. */
  lemma SidesGrow(log: seq<Event>, y: Event, id: string)
    requires RowIndex(log, id) < |log| && id != y.id
    ensures var after, k := InsertRow(log, y), RowIndex(log, id);
      var k' := RowIndex(after, id);
      && k' < |after| && after[k'] == log[k]
      && Covers(after[..k'], log[..k]) && Covers(after[k' + 1..], log[k + 1..])
  {
    var i := InsertAt(log, y);
    var after, k := InsertRow(log, y), RowIndex(log, id);
    InsertedIndex(log, y, id, i);
    InsertedRows(log, y, i);
    SidesCover(log, after, i, k, RowIndex(after, id));
  }

  lemma InsertedRows(log: seq<Event>, y: Event, i: nat)
    requires i <= |log| && InsertRow(log, y) == log[..i] + [y] + log[i..]
    ensures OneMoreAt(log, InsertRow(log, y), i)
  {
    OneMore(log, y, i, InsertRow(log, y));
  }

  lemma OneMore(log: seq<Event>, y: Event, i: nat, after: seq<Event>)
    requires i <= |log| && after == log[..i] + [y] + log[i..]
    ensures OneMoreAt(log, after, i)
  {
    forall j | 0 <= j < |log|
      ensures log[j] == after[if j < i then j else j + 1]
    {
      if j < i {
        assert after[j] == log[..i][j];
      } else {
        assert after[j + 1] == log[i..][j - i];
      }
    }
  }

  lemma SidesCover(log: seq<Event>, after: seq<Event>, i: nat, k: nat, k': nat)
    requires OneMoreAt(log, after, i) && k < |log| && k' == if k < i then k else k + 1
    ensures after[k'] == log[k] && Covers(after[..k'], log[..k]) && Covers(after[k' + 1..], log[k + 1..])
  {
    var a, b, a', b' := log[..k], log[k + 1..], after[..k'], after[k' + 1..];
    forall x | x in a
      ensures x in a'
    {
      var j :| 0 <= j < k && log[j] == x;
      assert a'[if j < i then j else j + 1] == x;
    }
    forall x | x in b
      ensures x in b'
    {
      var j :| k < j < |log| && log[j] == x;
      assert b'[(if j < i then j else j + 1) - (k' + 1)] == x;
    }
  }

  lemma InsertedIndex(log: seq<Event>, y: Event, id: string, i: nat)
    requires i <= |log| && InsertRow(log, y) == log[..i] + [y] + log[i..]
    requires RowIndex(log, id) < |log| && id != y.id
    ensures var k := RowIndex(log, id);
      RowIndex(InsertRow(log, y), id) == if k < i then k else k + 1
  {
    var after, k := InsertRow(log, y), RowIndex(log, id);
    var k' := if k < i then k else k + 1;
    forall j | 0 <= j < k'
      ensures after[j].id != id
    {
      if j < i {
        assert after[j] == log[j];
      } else if j > i {
        assert after[j] == log[j - 1];
      }
    }
    RowIndexIs(after, id, k');
  }

  lemma EmptyTogether(a: seq<Event>, b: seq<Event>)
    requires forall e :: e in a <==> e in b
    ensures a == [] <==> b == []
  {
    if a != [] {
      assert a[0] in b;
    }
    if b != [] {
      assert b[0] in a;
    }
  }

  /** Rows in table order are determined by their members. */
  lemma {:induction false} OrderedIsUnique(a: seq<Event>, b: seq<Event>)
    requires InOrder(a) && InOrder(b) && forall e :: e in a <==> e in b
    ensures a == b
  {
    if a == [] || b == [] {
      EmptyTogether(a, b);
    } else {
      assert a[0] in b && b[0] in a;
      var i :| 0 <= i < |b| && b[i] == a[0];
      var j :| 0 <= j < |a| && a[j] == b[0];
      NotBothBefore(a[0], b[0]);
      assert a[0] == b[0];
      forall e
        ensures e in a[1..] <==> e in b[1..]
      {
        HeadIsFirst(a, e);
        HeadIsFirst(b, e);
      }
      OrderedIsUnique(a[1..], b[1..]);
    }
  }

  lemma NotBothBefore(x: Event, y: Event)
    ensures !(Before(x, y) && Before(y, x))
  {
    LessTotal(x.id, y.id);
  }

  lemma HeadIsFirst(a: seq<Event>, e: Event)
    requires InOrder(a) && a != []
    ensures e in a[1..] <==> e in a && e != a[0]
  {
    assert a == [a[0]] + a[1..];
    if e in a[1..] {
      var i :| 0 <= i < |a[1..]| && a[1..][i] == e;
      assert Before(a[0], a[i + 1]);
      NotBothBefore(e, e);
    }
  }

  lemma {:induction false} DeleteRowsMembers(log: seq<Event>, ids: seq<string>)
    requires InOrder(log) && DistinctEvents(log)
    ensures InOrder(DeleteRows(log, ids))
    ensures forall e :: e in DeleteRows(log, ids) <==> e in log && e.id !in ids
    decreases |ids|
  {
    if ids != [] {
      DeleteKeeps(log, ids[0]);
      DeleteMembers(log, ids[0]);
      DeleteRowsMembers(DeleteRow(log, ids[0]), ids[1..]);
      assert ids == [ids[0]] + ids[1..];
    }
  }

  lemma DeleteMembers(log: seq<Event>, id: string)
    requires DistinctEvents(log)
    ensures forall e :: e in DeleteRow(log, id) <==> e in log && e.id != id
  {
    DeleteSplits(log, id);
    var k := RowIndex(log, id);
    forall e | e in log && e.id != id
      ensures e in DeleteRow(log, id)
    {
      var i :| 0 <= i < |log| && log[i] == e;
      if k < |log| {
        assert i < k || i > k;
        assert DeleteRow(log, id)[if i < k then i else i - 1] == e;
      }
    }
  }

  lemma NewToLog(log: seq<Event>, es: seq<Event>)
    requires es != [] && DistinctEvents(log + es)
    ensures !HasRow(log, es[0].id) && DistinctEvents(log) && DistinctEvents(es)
  {
    var all := log + es;
    assert all[..|log|] == log && all[|log|..] == es && all[|log|] == es[0];
    forall x | x in log
      ensures x.id != es[0].id
    {
      var i :| 0 <= i < |log| && log[i] == x;
      assert all[i] == x;
    }
  }

  lemma DistinctAgain(log: seq<Event>, es: seq<Event>)
    requires es != [] && DistinctEvents(log + es) && DistinctEvents(InsertRow(log, es[0]))
    ensures DistinctEvents(InsertRow(log, es[0]) + es[1..])
  {
    InsertMembers(log, es[0]);
    var more, all := InsertRow(log, es[0]), log + es;
    forall i, j | 0 <= i < |more| && 0 <= j < |es[1..]|
      ensures more[i].id != es[1..][j].id
    {
      assert more[i] in more && es[1..][j] == all[|log| + 1 + j];
      if more[i] == es[0] {
        assert all[|log|] == es[0];
      } else {
        var k :| 0 <= k < |log| && log[k] == more[i];
        assert all[k] == more[i];
      }
    }
    assert forall i, j | 0 <= i < j < |es[1..]| :: es[1..][i].id == all[|log| + 1 + i].id != all[|log| + 1 + j].id == es[1..][j].id;
  }

  lemma {:induction false} InsertRowsKeep(log: seq<Event>, es: seq<Event>)
    requires InOrder(log) && DistinctEvents(log + es)
    ensures InOrder(InsertRows(log, es)) && DistinctEvents(InsertRows(log, es))
    ensures forall e :: e in InsertRows(log, es) <==> e in log || e in es
    decreases |es|
  {
    if es == [] {
      assert log + es == log;
    } else {
      NewToLog(log, es);
      InsertKeeps(log, es[0]);
      InsertMembers(log, es[0]);
      DistinctAgain(log, es);
      InsertRowsKeep(InsertRow(log, es[0]), es[1..]);
      assert es == [es[0]] + es[1..];
    }
  }

  lemma {:induction false} InsertRowsConcat(log: seq<Event>, es: seq<Event>, more: seq<Event>)
    ensures InsertRows(InsertRows(log, es), more) == InsertRows(log, es + more)
    decreases |es|
  {
    if es == [] {
      assert es + more == more;
    } else {
      assert (es + more)[1..] == es[1..] + more;
      InsertRowsConcat(InsertRow(log, es[0]), es[1..], more);
    }
  }

  // ---------- chains of droppable rows ----------

  /** Deleting `ids` one after another only ever deletes a droppable row. */
  predicate DropChain(log: seq<Event>, ids: seq<string>)
    decreases |ids|
  {
    ids == []
    || (var k := RowIndex(log, ids[0]);
        && (k < |log| ==> Droppable(log[..k], log[k], log[k + 1..]))
        && DropChain(DeleteRow(log, ids[0]), ids[1..]))
  }

  lemma SplitAt(log: seq<Event>, id: string)
    requires RowIndex(log, id) < |log|
    ensures var k := RowIndex(log, id);
      log == log[..k] + [log[k]] + log[k + 1..] && DeleteRow(log, id) == log[..k] + log[k + 1..]
  {
    DeleteSplits(log, id);
  }

  lemma {:induction false} ChainIsInvisible(log: seq<Event>, ids: seq<string>)
    requires Gated(log) && DropChain(log, ids)
    ensures Gated(DeleteRows(log, ids)) && SameView(Fold(log), Fold(DeleteRows(log, ids)))
    decreases |ids|
  {
    if ids != [] {
      var k := RowIndex(log, ids[0]);
      DeleteSplits(log, ids[0]);
      if k < |log| {
        SplitAt(log, ids[0]);
        DropOne(log[..k], log[k], log[k + 1..]);
      }
      ChainIsInvisible(DeleteRow(log, ids[0]), ids[1..]);
    }
  }

  lemma DroppableGrows(a: seq<Event>, e: Event, b: seq<Event>, a': seq<Event>, b': seq<Event>)
    requires Droppable(a, e, b) && Covers(a', a) && Covers(b', b)
    ensures Droppable(a', e, b')
  {
  }

  lemma AbsentStaysAbsent(log: seq<Event>, y: Event, id: string)
    requires id != y.id
    ensures RowIndex(log, id) == |log| ==> RowIndex(InsertRow(log, y), id) == |InsertRow(log, y)|
  {
    InsertMembers(log, y);
    var after := InsertRow(log, y);
    var k := RowIndex(after, id);
    assert k < |after| ==> after[k] in after;
  }

  lemma StaysDroppable(log: seq<Event>, y: Event, id: string)
    requires id != y.id
    requires var k := RowIndex(log, id); k < |log| && Droppable(log[..k], log[k], log[k + 1..])
    ensures var after := InsertRow(log, y);
      var k' := RowIndex(after, id); k' < |after| && Droppable(after[..k'], after[k'], after[k' + 1..])
  {
    SidesGrow(log, y, id);
    var after, k := InsertRow(log, y), RowIndex(log, id);
    var k' := RowIndex(after, id);
    DroppableGrows(log[..k], log[k], log[k + 1..], after[..k'], after[k' + 1..]);
  }

  /** A row that arrives late, anywhere in the order, leaves a chain a chain. */
  lemma {:induction false} ChainInsert(log: seq<Event>, ids: seq<string>, y: Event)
    requires InOrder(log) && DistinctEvents(log) && DropChain(log, ids) && y.id !in ids
    ensures DropChain(InsertRow(log, y), ids)
    ensures DeleteRows(InsertRow(log, y), ids) == InsertRow(DeleteRows(log, ids), y)
    decreases |ids|
  {
    if ids != [] {
      var k := RowIndex(log, ids[0]);
      InsertDeleteCommute(log, y, ids[0]);
      DeleteKeeps(log, ids[0]);
      AbsentStaysAbsent(log, y, ids[0]);
      ChainInsert(DeleteRow(log, ids[0]), ids[1..], y);
      if k < |log| {
        StaysDroppable(log, y, ids[0]);
      }
    }
  }

  /** So do any number of late rows. */
  lemma {:induction false} ChainInserts(log: seq<Event>, ids: seq<string>, es: seq<Event>)
    requires InOrder(log) && DistinctEvents(log + es) && DropChain(log, ids)
    requires forall e | e in es :: e.id !in ids
    ensures DropChain(InsertRows(log, es), ids)
    ensures DeleteRows(InsertRows(log, es), ids) == InsertRows(DeleteRows(log, ids), es)
    decreases |es|
  {
    if es != [] {
      NewToLog(log, es);
      InsertKeeps(log, es[0]);
      DistinctAgain(log, es);
      assert es[0] in es;
      ChainInsert(log, ids, es[0]);
      ChainInserts(InsertRow(log, es[0]), ids, es[1..]);
    }
  }

  lemma {:induction false} ChainAppend(log: seq<Event>, ids: seq<string>, more: seq<string>)
    requires DropChain(log, ids) && DropChain(DeleteRows(log, ids), more)
    ensures DropChain(log, ids + more)
    ensures DeleteRows(log, ids + more) == DeleteRows(DeleteRows(log, ids), more)
    decreases |ids|
  {
    if ids == [] {
      assert ids + more == more;
    } else {
      assert (ids + more)[1..] == ids[1..] + more;
      ChainAppend(DeleteRow(log, ids[0]), ids[1..], more);
    }
  }

  /** The prune query may offer `ids`, judged by a view that shows the same work. */
  predicate Offered(view: View, log: seq<Event>, ids: seq<string>) {
    forall e | e in log && e.id in ids :: Prunable(view, e)
  }

  /** A batch the prune query offers is a chain, although only its first row is judged by the
      log it is deleted from. */
  lemma {:induction false} BatchIsChain(view: View, log: seq<Event>, ids: seq<string>)
    requires Gated(log) && SameView(view, Fold(log)) && TasksOnce(view.tasks) && Offered(view, log, ids)
    ensures DropChain(log, ids)
    decreases |ids|
  {
    if ids != [] {
      hide Gated, SameView, Fold, Droppable, Prunable, TasksOnce;
      OneOfBatch(view, log, ids);
      BatchIsChain(view, DeleteRow(log, ids[0]), ids[1..]);
    }
  }

  /** The first row of a batch is droppable, and the rest is a batch of the shorter log. */
  lemma OneOfBatch(view: View, log: seq<Event>, ids: seq<string>)
    requires Gated(log) && SameView(view, Fold(log)) && TasksOnce(view.tasks) && Offered(view, log, ids) && ids != []
    ensures var k, rest := RowIndex(log, ids[0]), DeleteRow(log, ids[0]);
      && (k < |log| ==> Droppable(log[..k], log[k], log[k + 1..]))
      && Gated(rest) && SameView(view, Fold(rest)) && Offered(view, rest, ids[1..])
  {
    hide Gated, Fold, Droppable, Prunable, TasksOnce, DeleteRow;
    var k := RowIndex(log, ids[0]);
    DeleteSplits(log, ids[0]);
    RestOffered(view, log, ids);
    if k < |log| {
      SplitAt(log, ids[0]);
      assert log[k] in log && log[k].id in ids;
      FirstDroppable(view, log, log[k], k);
    }
  }

  lemma FirstDroppable(view: View, log: seq<Event>, e: Event, k: nat)
    requires Gated(log) && SameView(view, Fold(log)) && TasksOnce(view.tasks) && k < |log| && e == log[k] && Prunable(view, e)
    requires log == log[..k] + [e] + log[k + 1..]
    ensures Droppable(log[..k], e, log[k + 1..])
    ensures Gated(log[..k] + log[k + 1..]) && SameView(view, Fold(log[..k] + log[k + 1..]))
  {
    hide Gated, Fold, Droppable, Prunable, TasksOnce, Live;
    FoldTasks(log, "");
    PrunableReadsView(view, Fold(log), e);
    PrunableIsDroppable(log[..k], e, log[k + 1..]);
    DropOne(log[..k], e, log[k + 1..]);
  }

  lemma RestOffered(view: View, log: seq<Event>, ids: seq<string>)
    requires ids != [] && Offered(view, log, ids)
    ensures Offered(view, DeleteRow(log, ids[0]), ids[1..])
  {
    hide Prunable;
    DeleteSplits(log, ids[0]);
    forall e | e in DeleteRow(log, ids[0]) && e.id in ids[1..]
      ensures Prunable(view, e)
    {
      assert e in log && e.id in ids;
    }
  }

  /** Log compaction is invisible: whatever rows the prune query offers are deleted, the
      refold shows the same current claims and the same active tasks, and the same focal task. */
  lemma CompactionIsInvisible(log: seq<Event>, ids: seq<string>)
    requires Gated(log) && Offered(Fold(log), log, ids)
    ensures var after := DeleteRows(log, ids);
      && Gated(after) && SameView(Fold(log), Fold(after))
      && FocalTask(WorkOf(Fold(log))) == FocalTask(WorkOf(Fold(after)))
  {
    FoldTasks(log, "");
    BatchIsChain(Fold(log), log, ids);
    ChainIsInvisible(log, ids);
    FoldTasks(DeleteRows(log, ids), "");
    SameViewSameWork(Fold(log), Fold(DeleteRows(log, ids)));
    FoldIsDefinite(log);
    FocalIsOrderFree(WorkOf(Fold(log)), WorkOf(Fold(DeleteRows(log, ids))));
  }
}
