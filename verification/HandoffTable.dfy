/** A handoff against the database: read the log, extract, append what is new, rebuild. */
module HandoffTable {
  import opened Claims
  import opened Projector
  import opened GatedLog
  import opened FoldLaws
  import opened EventTable
  import opened Handoff
  import opened HandoffRun
  import opened PushedRows
  import opened Convergence
  import opened Extraction
  import opened Appended
  import opened Store
  import opened Persistence
  import opened Writers
  import opened Protocol
  import opened HandoffStep
  import opened ProtocolSteps

  /** Shell, note and claim rows in log order. */
  function HandoffLog(rows: seq<Row>): seq<Event> {
    SortLog(HandoffSources(EventsOf(rows)))
  }

  /** The rows a handoff appends: those of the extracted log that it did not read. */
  function NewRows(ph: Phrases, rows: seq<Row>): seq<Event> {
    Added(ph, HandoffLog(rows))
  }

  predicate Insertable(rows: seq<Row>, e: Event) {
    e.at <= I64_MAX && !HasId(rows, e.id)
  }

  /** Insert one row after another; the first that is refused ends it. */
  function InsertedUntilRefused(rows: seq<Row>, es: seq<Event>): seq<Row>
    decreases |es|
  {
    if es == [] || !Insertable(rows, es[0]) then rows else InsertedUntilRefused(rows + [RowOf(es[0])], es[1..])
  }

  predicate AllInsertable(rows: seq<Row>, es: seq<Event>)
    decreases |es|
  {
    es == [] || (Insertable(rows, es[0]) && AllInsertable(rows + [RowOf(es[0])], es[1..]))
  }

  method CollectSources(rows: seq<Row>) returns (log: seq<Event>)
    ensures log == HandoffLog(rows)
  {
    log := [];
    for i := 0 to |rows|
      invariant log == HandoffSources(EventsOf(rows[..i]))
    {
      assert rows[..i + 1][..i] == rows[..i];
      assert (EventsOf(rows[..i]) + [rows[i].event])[..|EventsOf(rows[..i])|] == EventsOf(rows[..i]);
      if IsHandoffSource(rows[i].event) {
        log := log + [rows[i].event];
      }
    }
    assert rows[..|rows|] == rows;
    log := SortLog(log);
  }

  method AppendNew(db: Database, log: seq<Event>, known: set<string>) returns (added: bool, ok: bool)
    requires db.Valid()
    modifies db`rows
    ensures db.Valid() && db.rows == InsertedUntilRefused(old(db.rows), WithoutRows(log, known))
    ensures ok <==> AllInsertable(old(db.rows), WithoutRows(log, known))
    ensures ok ==> (added <==> WithoutRows(log, known) != [])
  {
    var fresher := SelectNew(log, known);
    added := false;
    for i := 0 to |fresher|
      invariant db.Valid() && InsertedUntilRefused(db.rows, fresher[i..]) == InsertedUntilRefused(old(db.rows), fresher)
      invariant AllInsertable(db.rows, fresher[i..]) == AllInsertable(old(db.rows), fresher)
      invariant added == (i > 0)
    {
      var inserted := db.InsertEvent(RowOf(fresher[i]));
      if !inserted { return added, false; }
      added := true;
    }
    return added, true;
  }

  method SelectNew(log: seq<Event>, known: set<string>) returns (es: seq<Event>)
    ensures es == WithoutRows(log, known)
  {
    es := [];
    for i := 0 to |log|
      invariant es == WithoutRows(log[..i], known)
    {
      assert log[..i + 1][..i] == log[..i];
      if log[i].id in known { continue; }
      es := es + [log[i]];
    }
    assert log[..|log|] == log;
  }

  /** Admit new claims from the log and rebuild the view. Without a note nothing happens; a
      refused insert leaves the rows before it in the table and the view unbuilt. */
  method RunHandoff(db: Database, ph: Phrases) returns (ok: bool)
    requires db.Valid()
    modifies db`rows, db`tasks, db`claims
    ensures db.Valid() && db.rows == InsertedUntilRefused(old(db.rows), NewRows(ph, old(db.rows)))
    ensures var es := NewRows(ph, old(db.rows));
      ok <==> AllInsertable(old(db.rows), es) && (es != [] ==> Storable(Fold(Table(db.rows))))
    ensures db.Stored() == if ok && NewRows(ph, old(db.rows)) != [] then Fold(Table(db.rows)) else old(db.Stored())
  {
    var log := CollectSources(db.rows);
    if !HasNote(log) { return true; }
    var x := RunExtraction(ph, log);
    var added;
    added, ok := AppendNew(db, x.log, EventIds(log));
    if ok && added {
      ok := Rebuild(db);
    }
  }

  // ---------- the view after a handoff ----------

  function RowsOf(es: seq<Event>): seq<Row> {
    if es == [] then [] else [RowOf(es[0])] + RowsOf(es[1..])
  }

  lemma HasIdGrows(rows: seq<Row>, row: Row, id: string)
    ensures HasId(rows, id) ==> HasId(rows + [row], id)
  {
    forall r | r in rows
      ensures r in rows + [row]
    {
    }
  }

  lemma {:induction false} InsertedAll(rows: seq<Row>, es: seq<Event>)
    requires AllInsertable(rows, es) && DistinctRows(rows)
    ensures InsertedUntilRefused(rows, es) == rows + RowsOf(es) && DistinctRows(rows + RowsOf(es))
    decreases |es|
  {
    if es == [] {
      assert rows + RowsOf(es) == rows;
    } else {
      hide DistinctRows;
      var more := rows + [RowOf(es[0])];
      PushedDistinct(rows, es[0]);
      InsertedAll(more, es[1..]);
      assert more + RowsOf(es[1..]) == rows + RowsOf(es);
    }
  }

  lemma PushedDistinct(rows: seq<Row>, e: Event)
    requires DistinctRows(rows) && Insertable(rows, e)
    ensures DistinctRows(rows + [RowOf(e)])
  {
    assert forall i | 0 <= i < |rows| :: rows[i] in rows;
  }

  lemma {:induction false} AllWereNew(rows: seq<Row>, es: seq<Event>)
    requires AllInsertable(rows, es)
    ensures forall e | e in es :: Insertable(rows, e)
    decreases |es|
  {
    if es != [] {
      AllWereNew(rows + [RowOf(es[0])], es[1..]);
      assert es == [es[0]] + es[1..];
      forall e | e in es[1..]
        ensures Insertable(rows, e)
      {
        HasIdGrows(rows, RowOf(es[0]), e.id);
      }
    }
  }

  lemma {:induction false} RowsOfMembers(es: seq<Event>, r: Row)
    ensures r in RowsOf(es) <==> exists e | e in es :: r == RowOf(e)
  {
    if es != [] {
      assert es == [es[0]] + es[1..];
      RowsOfMembers(es[1..], r);
    }
  }

  lemma HandoffLogFacts(rows: seq<Row>)
    requires DistinctRows(rows)
    ensures InOrder(HandoffLog(rows)) && DistinctEvents(HandoffLog(rows)) && SortLog(HandoffLog(rows)) == HandoffLog(rows)
    ensures forall e :: e in HandoffLog(rows) <==> IsHandoffSource(e) && exists r :: r in rows && r.event == e
  {
    EventMembers(rows);
    SourcesMembers(EventsOf(rows));
    TableFacts(rows);
    SortKeepsRows(EventsOf(rows));
    SortKeepsRows(HandoffSources(EventsOf(rows)));
    SortOrders(HandoffSources(EventsOf(rows)));
    SortedStays(HandoffLog(rows));
  }

  /** What extraction pushed onto the log it read. */
  function Pushed(ph: Phrases, rows: seq<Row>): seq<Event> {
    var log, after := HandoffLog(rows), Extract(ph, HandoffLog(rows)).log;
    if |log| <= |after| then after[|log|..] else []
  }

  lemma PushedIsNew(ph: Phrases, rows: seq<Row>)
    requires DistinctRows(rows) && AllInsertable(rows, Pushed(ph, rows))
    ensures var log, after := HandoffLog(rows), Extract(ph, HandoffLog(rows)).log;
      Grown(log, after) && after == log + Pushed(ph, rows) && NewRows(ph, rows) == Pushed(ph, rows)
  {
    hide Extract, AllInsertable, Insertable, HandoffLog, WithoutRows, EventIds, Grown, Pushed, HasNote;
    var pushed := Pushed(ph, rows);
    HandoffLogFacts(rows);
    ExtractGrows(ph, HandoffLog(rows));
    GrowsByPushed(ph, rows);
    AllWereNew(rows, pushed);
    NewIsPushed(rows, pushed);
    if !HasNote(HandoffLog(rows)) {
      NoneWithoutNote(ph, HandoffLog(rows));
      assert HandoffLog(rows) + pushed == HandoffLog(rows);
      assert pushed == [];
    }
  }

  lemma GrowsByPushed(ph: Phrases, rows: seq<Row>)
    requires Grown(HandoffLog(rows), Extract(ph, HandoffLog(rows)).log)
    ensures Extract(ph, HandoffLog(rows)).log == HandoffLog(rows) + Pushed(ph, rows)
  {
    hide Extract, HandoffLog;
  }

  /** Without a note nothing is pushed. */
  lemma NoneWithoutNote(ph: Phrases, log: seq<Event>)
    requires SortLog(log) == log && !HasNote(log)
    ensures Extract(ph, log).log == log
  {
    var after := Extract(ph, log).log;
    assert Uncited(log) == {};
    assert UsesNotes(log, after) && Grown(log, after);
    hide Extract;
    if |after| > |log| {
      UsesNone(log, after);
    }
    assert after == after[..|log|];
  }

  lemma UsesNone(log: seq<Event>, after: seq<Event>)
    requires UsesNotes(log, after) && |log| < |after|
    ensures Uncited(log) != {}
  {
    assert EvidenceOf(after[|log|]) * Uncited(log) != {};
  }

  lemma ExtractGrows(ph: Phrases, log: seq<Event>)
    requires SortLog(log) == log
    ensures Grown(log, Extract(ph, log).log)
  {
  }

  lemma KnownHasId(rows: seq<Row>, id: string)
    requires DistinctRows(rows) && id in EventIds(HandoffLog(rows))
    ensures HasId(rows, id)
  {
    HandoffLogFacts(rows);
    var x :| x in HandoffLog(rows) && x.id == id;
    var r :| r in rows && r.event == x;
  }

  lemma NewIsPushed(rows: seq<Row>, pushed: seq<Event>)
    requires DistinctRows(rows) && forall e | e in pushed :: Insertable(rows, e)
    ensures WithoutRows(HandoffLog(rows) + pushed, EventIds(HandoffLog(rows))) == pushed
  {
    var known := EventIds(HandoffLog(rows));
    forall id | id in known
      ensures HasId(rows, id)
    {
      KnownHasId(rows, id);
    }
    WithoutConcat(HandoffLog(rows), pushed, known);
  }

  lemma SameSources(a: seq<Event>, b: seq<Event>)
    requires InOrder(a) && InOrder(b) && forall e | IsFoldSource(e) :: e in a <==> e in b
    ensures Fold(a) == Fold(b)
  {
    SourcesFacts(a);
    SourcesFacts(b);
    OrderedIsUnique(FoldSources(a), FoldSources(b));
    FoldOfSources(a);
    FoldOfSources(b);
  }

  /** When the pushed rows can be inserted, the table ends up with all of them, and its fold is
      the projection the extraction ended with. */
  lemma HandoffReachesTable(ph: Phrases, rows: seq<Row>)
    requires DistinctRows(rows) && FitsColumns(rows) && AllInsertable(rows, Pushed(ph, rows))
    ensures InsertedUntilRefused(rows, NewRows(ph, rows)) == rows + RowsOf(Pushed(ph, rows))
    ensures Fold(Table(rows + RowsOf(Pushed(ph, rows)))) == Fold(Extract(ph, HandoffLog(rows)).log)
  {
    var log, pushed, after := HandoffLog(rows), Pushed(ph, rows), Extract(ph, HandoffLog(rows)).log;
    PushedIsNew(ph, rows);
    InsertedAll(rows, pushed);
    AllWereNew(rows, pushed);
    HandoffLogFacts(rows);
    BelowMax(after, rows, pushed);
    ResultInOrder(ph, log);
    TableFacts(rows + RowsOf(pushed));
    forall e | IsFoldSource(e)
      ensures e in after <==> e in Table(rows + RowsOf(pushed))
    {
      TableMembers(rows, pushed, e);
    }
    SameSources(Table(rows + RowsOf(pushed)), after);
  }

  lemma ResultInOrder(ph: Phrases, log: seq<Event>)
    requires InOrder(log) && SortLog(log) == log && MaxAt(Extract(ph, log).log) < U64_MAX
    ensures InOrder(Extract(ph, log).log)
  {
    var after := Extract(ph, log).log;
    ExtractIsTimed(ph, log);
    TimedInOrder(log, after, |after|);
    assert after[..|after|] == after;
  }

  lemma TableMembers(rows: seq<Row>, pushed: seq<Event>, e: Event)
    requires DistinctRows(rows + RowsOf(pushed)) && DistinctRows(rows) && IsFoldSource(e)
    ensures e in Table(rows + RowsOf(pushed)) <==> e in HandoffLog(rows) || e in pushed
  {
    TableFacts(rows + RowsOf(pushed));
    HandoffLogFacts(rows);
    if e in pushed {
      RowsOfMembers(pushed, RowOf(e));
      assert RowOf(e) in rows + RowsOf(pushed);
    }
    if e in HandoffLog(rows) {
      var r :| r in rows && r.event == e;
      assert r in rows + RowsOf(pushed);
    }
    if e in Table(rows + RowsOf(pushed)) {
      var r :| r in rows + RowsOf(pushed) && r.event == e;
      RowsOfMembers(pushed, r);
    }
  }

  lemma {:induction false} MaxIsRow(log: seq<Event>)
    ensures MaxAt(log) == 0 || exists e | e in log :: e.at == MaxAt(log)
  {
    if log != [] {
      MaxIsRow(log[..|log| - 1]);
      assert log == log[..|log| - 1] + [log[|log| - 1]];
    }
  }

  lemma BelowMax(after: seq<Event>, rows: seq<Row>, pushed: seq<Event>)
    requires DistinctRows(rows) && FitsColumns(rows) && after == HandoffLog(rows) + pushed
    requires forall e | e in pushed :: Insertable(rows, e)
    ensures MaxAt(after) < U64_MAX
  {
    HandoffLogFacts(rows);
    MaxIsRow(after);
  }

  // ---------- the handoff of the protocol ----------

  lemma {:induction false} InsertedIsTaken(rows: seq<Row>, es: seq<Event>)
    requires DistinctRows(rows) && forall e | e in es :: e.at <= I64_MAX
    ensures Table(InsertedUntilRefused(rows, es)) == InsertRows(Table(rows), Taken(Table(rows), es))
    ensures AllInsertable(rows, es) <==> Taken(Table(rows), es) == es
    decreases |es|
  {
    if es != [] {
      IdsAgree(rows, es[0].id);
      assert es[0] in es;
      if Insertable(rows, es[0]) {
        InsertIsInsertRow(rows, RowOf(es[0]));
        InsertedIsTaken(rows + [RowOf(es[0])], es[1..]);
        assert es == [es[0]] + es[1..];
      }
    }
  }

  lemma SameRead(rows: seq<Row>)
    requires DistinctRows(rows)
    ensures HandoffLog(rows) == HandoffSources(Table(rows))
  {
    HandoffLogFacts(rows);
    TableFacts(rows);
    SourcesMembers(Table(rows));
    OrderedIsUnique(HandoffLog(rows), HandoffSources(Table(rows)));
  }

  /** Against the database a handoff is the protocol's: the same rows get in, it fails exactly
      when the protocol's is cut off, and a rebuild after it violates no constraint. */
  lemma HandoffIsProtocolStep(ph: Phrases, rows: seq<Row>, s: State)
    requires Inv(s) && InTime(s, ph) && DistinctRows(rows) && Table(rows) == s.table
    ensures var es, t := HandoffRows(s, ph), AfterHandoff(s, HandoffRows(s, ph));
      && NewRows(ph, rows) == es && Table(InsertedUntilRefused(rows, es)) == t.table
      && (AllInsertable(rows, es) <==> Taken(s.table, es) == es) && Storable(Fold(t.table))
  {
    hide Inv, InTime, Pushes, Extract, Fold, Storable, Table, AllInsertable, InsertedUntilRefused;
    SameRead(rows);
    HandoffKeeps(s, ph);
    var pushed := HandoffPushes(s, ph);
    HandoffInTime(s, ph, pushed);
    InsertedIsTaken(rows, pushed);
    InvStores(AfterHandoff(s, pushed));
    assert Taken(s.table, []) == [] && InsertRows(s.table, []) == s.table;
  }

  lemma InvStores(t: State)
    requires Inv(t)
    ensures Storable(Fold(t.table))
  {
    hide Fold, Storable;
    PrunedFacts(t);
    GatedFold(t.table);
    RebuildSucceeds(t.table);
  }

  lemma HandoffInTime(s: State, ph: Phrases, pushed: seq<Event>)
    requires Pushes(s, ph, pushed) && InTime(s, ph)
    ensures forall e | e in pushed :: e.at <= I64_MAX
  {
    MaxBounds(Read(s) + pushed);
  }
}
