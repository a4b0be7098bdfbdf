/** What the database does to the log and the view: its table operations are those of the
    ordered log, rebuilding fails only on repeated ids, and the view reads back unchanged. */
module Persistence {
  import opened Text
  import opened Claims
  import opened Projector
  import opened CurrentView
  import opened GatedLog
  import opened FoldLaws
  import opened Compaction
  import opened Ordering
  import opened Briefing
  import opened EventTable
  import opened Handoff
  import opened Convergence
  import opened Appended
  import opened Store

  // ---------- the table is the ordered log ----------

  lemma {:induction false} EventMembers(rows: seq<Row>)
    ensures |EventsOf(rows)| == |rows| && forall i | 0 <= i < |rows| :: EventsOf(rows)[i] == rows[i].event
  {
    if rows != [] {
      EventMembers(rows[..|rows| - 1]);
    }
  }

  lemma TableFacts(rows: seq<Row>)
    requires DistinctRows(rows)
    ensures InOrder(Table(rows)) && DistinctEvents(Table(rows))
    ensures forall e :: e in Table(rows) <==> exists r :: r in rows && r.event == e
  {
    hide EventsOf, SortLog, InOrder;
    EventsAreDistinct(rows);
    SortKeepsRows(EventsOf(rows));
    SortOrders(EventsOf(rows));
    forall e
      ensures e in EventsOf(rows) <==> exists r :: r in rows && r.event == e
    {
      EventOfRow(rows, e);
    }
  }

  lemma EventsAreDistinct(rows: seq<Row>)
    requires DistinctRows(rows)
    ensures DistinctEvents(EventsOf(rows))
  {
    EventMembers(rows);
  }

  lemma EventOfRow(rows: seq<Row>, e: Event)
    ensures e in EventsOf(rows) <==> exists r :: r in rows && r.event == e
  {
    EventMembers(rows);
    if e in EventsOf(rows) {
      var i :| 0 <= i < |rows| && EventsOf(rows)[i] == e;
      assert rows[i] in rows;
    }
    if r :| r in rows && r.event == e {
      var i :| 0 <= i < |rows| && rows[i] == r;
      assert EventsOf(rows)[i] == e;
    }
  }

  /** An accepted insert is an insertion into the ordered log. */
  lemma InsertIsInsertRow(rows: seq<Row>, row: Row)
    ensures Table(rows + [row]) == InsertRow(Table(rows), row.event)
  {
    assert (rows + [row])[..|rows|] == rows;
    assert (EventsOf(rows) + [row.event])[..|EventsOf(rows)|] == EventsOf(rows);
  }

  lemma {:induction false} WithoutAllMembers(rows: seq<Row>, ids: seq<string>)
    requires DistinctRows(rows)
    ensures DistinctRows(WithoutAll(rows, ids))
    ensures forall r :: r in WithoutAll(rows, ids) <==> r in rows && r.event.id !in ids
    decreases |ids|
  {
    if ids != [] {
      WithoutFacts(rows, ids[0]);
      WithoutAllMembers(Without(rows, ids[0]), ids[1..]);
      assert ids == [ids[0]] + ids[1..];
    }
  }

  /** Deleting by id deletes from the ordered log. */
  lemma DeleteIsDeleteRows(rows: seq<Row>, ids: seq<string>)
    requires DistinctRows(rows)
    ensures Table(WithoutAll(rows, ids)) == DeleteRows(Table(rows), ids)
  {
    WithoutAllMembers(rows, ids);
    TableFacts(rows);
    TableFacts(WithoutAll(rows, ids));
    DeleteRowsMembers(Table(rows), ids);
    OrderedIsUnique(Table(WithoutAll(rows, ids)), DeleteRows(Table(rows), ids));
  }

  // ---------- the fold reads shell and claim rows only ----------

  lemma {:induction false} SourcesFacts(log: seq<Event>)
    ensures forall e :: e in FoldSources(log) <==> e in log && IsFoldSource(e)
    ensures InOrder(log) ==> InOrder(FoldSources(log))
    ensures DistinctEvents(log) ==> DistinctEvents(FoldSources(log))
  {
    hide IsFoldSource;
    if log != [] {
      var init, last := log[..|log| - 1], log[|log| - 1];
      assert log == init + [last];
      SourcesFacts(init);
      forall e | e in FoldSources(init)
        ensures (InOrder(log) ==> Before(e, last)) && (DistinctEvents(log) ==> e.id != last.id)
      {
        var i :| 0 <= i < |init| && init[i] == e;
        assert log[i] == e;
      }
    }
  }

  lemma {:induction false} FoldOfSources(log: seq<Event>)
    ensures Fold(FoldSources(log)) == Fold(log)
  {
    if log != [] {
      var init, last := log[..|log| - 1], log[|log| - 1];
      FoldOfSources(init);
      FoldPush(FoldSources(init), last);
      assert FoldSources(init) + [] == FoldSources(init);
    }
  }

  /** Folding what the fold query returns is folding the whole table. */
  lemma FoldQueryIsEnough(rows: seq<Row>)
    requires DistinctRows(rows)
    ensures Fold(SortLog(FoldSources(EventsOf(rows)))) == Fold(Table(rows))
  {
    hide Fold, SortLog, FoldSources, EventsOf, InOrder, IsFoldSource;
    var log := EventsOf(rows);
    EventsAreDistinct(rows);
    SourcesFacts(log);
    SortKeepsRows(log);
    SortOrders(log);
    SourcesFacts(Table(rows));
    FoldOfSources(Table(rows));
    SortKeepsRows(FoldSources(log));
    SortOrders(FoldSources(log));
    OrderedIsUnique(SortLog(FoldSources(log)), FoldSources(Table(rows)));
  }

  // ---------- rebuilding the view ----------

  /** With claim ids asserted once, a rebuild violates neither a key nor the slot index. */
  lemma RebuildSucceeds(log: seq<Event>)
    requires AssertedOnce(log)
    ensures Storable(Fold(log))
  {
    FoldIsWellFormed(log);
    FoldTasks(log, "");
  }

  predicate AddsClaim(e: Event, id: string) {
    !IsRun(e) && IsAuthored(e) && Asserts(e.body.claim.value) && e.body.claim.value.claimId == id
  }

  lemma AddsLast(log: seq<Event>, e: Event, id: string)
    requires AddsClaim(e, id)
    ensures var cs := Fold(log + [e]).claims;
      |cs| == |Fold(log).claims| + 1 && cs[|cs| - 1].id == id
  {
    FoldPush(log, e);
  }

  lemma KeepsPlace(log: seq<Event>, n: nat, id: string)
    requires n < |log| && AddsClaim(log[n], id)
    ensures var i := |Fold(log[..n]).claims|; i < |Fold(log).claims| && Fold(log).claims[i].id == id
  {
    assert log[..n + 1] == log[..n] + [log[n]];
    AddsLast(log[..n], log[n], id);
    ClaimsOnlyAge(log, n + 1);
    var i := |Fold(log[..n]).claims|;
    assert Aged(Fold(log[..n + 1]).claims[i], Fold(log).claims[i]);
  }

  /** Two rows that assert the same claim id block every later rebuild. */
  lemma RepeatedIdBlocksRebuild(log: seq<Event>, i: nat, j: nat, id: string)
    requires i < j < |log| && AddsClaim(log[i], id) && AddsClaim(log[j], id)
    ensures !Storable(Fold(log))
  {
    hide Fold, AddsClaim;
    KeepsPlace(log, i, id);
    KeepsPlace(log, j, id);
    assert log[..j][i] == log[i] && log[..j][..i] == log[..i];
    KeepsPlace(log[..j], i, id);
    TwiceInView(Fold(log), |Fold(log[..i]).claims|, |Fold(log[..j]).claims|);
  }

  lemma TwiceInView(view: View, m: nat, n: nat)
    requires m < n < |view.claims| && view.claims[m].id == view.claims[n].id
    ensures !Storable(view)
  {
  }

  /** The suffixes of the drafts of one note tell 26 sentences apart and no more: the next
      one repeats the last, and with it the claim id. */
  lemma SuffixesTellApart(i: nat, j: nat)
    requires i < 26
    ensures j < 26 ==> (SuffixFor(i) == SuffixFor(j) <==> i == j)
    ensures SuffixFor(25) == SuffixFor(26)
  {
    SuffixIs(25);
    SuffixIs(26);
    SuffixIs(i);
    hide SuffixFor;
    if j < 26 {
      SuffixIs(j);
      if SuffixFor(i) == SuffixFor(j) && i > 0 && j > 0 {
        assert SuffixFor(i)[0] == SuffixFor(j)[0];
      }
    }
  }

  lemma SuffixIs(i: nat)
    requires i <= 26
    ensures SuffixFor(i) == if i == 0 then "" else [('b' as int + if i <= 25 then i - 1 else 24) as char]
  {
  }

  // ---------- the view reads back ----------

  lemma LoadedIsReordered(view: View)
    ensures Reordered(view, Loaded(view))
  {
    SortPermutes(TaskKey, view.tasks);
    SortPermutes(AgeKey, view.claims);
  }

  /** It lists tasks by creation time and claims by update time, then by id. */
  lemma LoadIsSorted(view: View)
    ensures var t := Loaded(view).tasks;
      forall i, j | 0 <= i < j < |t| :: t[i].createdAt < t[j].createdAt || (t[i].createdAt == t[j].createdAt && !Less(t[j].id, t[i].id))
    ensures var c := Loaded(view).claims;
      forall i, j | 0 <= i < j < |c| :: c[i].updatedAt < c[j].updatedAt || (c[i].updatedAt == c[j].updatedAt && !Less(c[j].id, c[i].id))
  {
    SortSorts(TaskKey, view.tasks);
    SortSorts(AgeKey, view.claims);
    var t, c := Loaded(view).tasks, Loaded(view).claims;
    forall i, j | 0 <= i < j < |t|
      ensures t[i].createdAt < t[j].createdAt || (t[i].createdAt == t[j].createdAt && !Less(t[j].id, t[i].id))
    {
      assert !KeyLess(TaskKey(t[j]), TaskKey(t[i]));
      LessTotal(t[i].id, t[j].id);
    }
    forall i, j | 0 <= i < j < |c|
      ensures c[i].updatedAt < c[j].updatedAt || (c[i].updatedAt == c[j].updatedAt && !Less(c[j].id, c[i].id))
    {
      assert !KeyLess(AgeKey(c[j]), AgeKey(c[i]));
      LessTotal(c[i].id, c[j].id);
    }
  }

  /** What the view tables demand: task ids and claim ids once each, and one current intent,
      next action and reality per task and subject. */
  lemma StorableIs(view: View)
    ensures Storable(view) <==>
      && (forall i, j | 0 <= i < j < |view.tasks| :: view.tasks[i].id != view.tasks[j].id)
      && (forall i, j | 0 <= i < j < |view.claims| :: view.claims[i].id != view.claims[j].id)
      && forall i, j | 0 <= i < j < |view.claims| :: var c, d := view.claims[i], view.claims[j];
           c.status == Current && d.status == Current && c.taskId == d.taskId && c.subject == d.subject && c.kind == d.kind ==>
             c.kind != Intent && c.kind != NextAction && c.kind != Reality
  {
    var cs := view.claims;
    if OneHolder(cs) {
      forall i, j | 0 <= i < j < |cs| && cs[i].status == Current && cs[j].status == Current
        ensures !SameSlot(cs[i], cs[j])
      {
      }
    }
  }

  /** The table is listed by time, then by id, with every row as often as it is stored. */
  lemma TableIsSorted(rows: seq<Row>)
    requires DistinctRows(rows)
    ensures var t := Table(rows);
      && (forall i, j | 0 <= i < j < |t| :: t[i].at < t[j].at || (t[i].at == t[j].at && Less(t[i].id, t[j].id)))
      && forall e :: e in t <==> exists r :: r in rows && r.event == e
  {
    TableFacts(rows);
  }

  /** The view survives the database: whatever order its rows come back in, a stored fold
      gives the same focal task, constraints, passed checks, open work and other tasks. */
  lemma ViewSurvivesDatabase(log: seq<Event>, view: View, focal: string)
    requires Gated(log) && Reordered(Fold(log), view)
    ensures var w, v := WorkOf(Fold(log)), WorkOf(view);
      && FocalTask(v) == FocalTask(w) && StandingConstraints(v) == StandingConstraints(w)
      && PassedChecks(view) == PassedChecks(Fold(log)) && OtherTasks(v, focal) == OtherTasks(w, focal)
      && OpenTasks(v, Some(focal)) == OpenTasks(w, Some(focal)) && OpenTasks(v, None) == OpenTasks(w, None)
      && forall t | t in OpenTasks(w, Some(focal)) || t in OpenTasks(w, None) :: Alike(FocalView(w, t), FocalView(v, t))
  {
    var w, v := WorkOf(Fold(log)), WorkOf(view);
    FoldIsDefinite(log);
    ReorderedSameWork(Fold(log), view);
    FocalIsOrderFree(w, v);
    ConstraintsAreOrderFree(w, v);
    PassedChecksAreOrderFree(Fold(log), view);
    OtherTasksAreOrderFree(w, v, focal);
    OpenWorkIsOrderFree(w, v, Some(focal));
    OpenWorkIsOrderFree(w, v, None);
  }
}
