/** The daemon's writers against the database: read the stored view, prepare a row, append it
    and rebuild the view from the whole log. */
module Writers {
  import opened Claims
  import opened Projector
  import opened GatedLog
  import opened Briefing
  import opened Daemon
  import opened EventTable
  import opened Handoff
  import opened RowIds
  import opened Protocol
  import opened Store
  import opened Persistence

  /** Claim rows score 1.0 and carry no memory type. */
  function RowOf(e: Event): Row {
    Row(e, 1.0, None)
  }

  /** Fold what the log holds and replace the view; on a constraint violation the stored view
      stays as it was. */
  method Rebuild(db: Database) returns (ok: bool)
    requires db.Valid()
    modifies db`tasks, db`claims
    ensures db.Valid() && (ok <==> Storable(Fold(Table(db.rows))))
    ensures db.Stored() == if ok then Fold(Table(db.rows)) else old(db.Stored())
  {
    var events := db.GetFoldEvents();
    var projection := FoldLog(events);
    FoldQueryIsEnough(db.rows);
    ok := db.ReplaceProjection(projection.Now());
  }

  method AppendAndRebuild(db: Database, e: Event) returns (inserted: bool, rebuilt: bool)
    requires db.Valid()
    modifies db`rows, db`tasks, db`claims
    ensures db.Valid()
    ensures inserted <==> e.at <= I64_MAX && !HasId(old(db.rows), e.id)
    ensures !inserted ==> db.rows == old(db.rows) && db.Stored() == old(db.Stored()) && !rebuilt
    ensures inserted ==> db.rows == old(db.rows) + [Row(e, 1.0, None)]
    ensures inserted ==> Table(db.rows) == InsertRow(Table(old(db.rows)), e)
    ensures inserted ==> (rebuilt <==> Storable(Fold(Table(db.rows))))
    ensures inserted ==> db.Stored() == if rebuilt then Fold(Table(db.rows)) else old(db.Stored())
  {
    InsertIsInsertRow(db.rows, RowOf(e));
    inserted := db.InsertEvent(RowOf(e));
    if !inserted { return false, false; }
    rebuilt := Rebuild(db);
  }

  /** Read, prepare, append: one writer that nothing interleaves with. */
  method Record(db: Database, q: Request, eventId: string, at: nat) returns (answer: Answer, written: bool)
    requires db.Valid()
    modifies db`rows, db`tasks, db`claims
    ensures db.Valid() && answer == Prepare(Loaded(old(db.Stored())), q, eventId)
    ensures written <==> answer.Write? && at <= I64_MAX && !HasId(old(db.rows), eventId)
    ensures Table(db.rows) == if written then InsertRow(Table(old(db.rows)), PendingRow(answer.row, eventId, at))
                              else Table(old(db.rows))
    ensures !written ==> db.Stored() == old(db.Stored())
    ensures written && Storable(Fold(Table(db.rows))) ==> db.Stored() == Fold(Table(db.rows))
  {
    var seen := db.LoadProjection();
    answer := Prepare(seen, q, eventId);
    if !answer.Write? { return answer, false; }
    var rebuilt: bool;
    written, rebuilt := AppendAndRebuild(db, PendingRow(answer.row, eventId, at));
  }

  lemma IdsAgree(rows: seq<Row>, id: string)
    requires DistinctRows(rows)
    ensures HasId(rows, id) <==> HasRow(Table(rows), id)
  {
    TableFacts(rows);
    if HasId(rows, id) {
      var r :| r in rows && r.event.id == id;
      assert r.event in Table(rows);
    }
  }

  /** Appending on the database is the protocol's append: while the log stays gated the
      insert goes through, the rebuild violates no constraint, and table and view are those of
      the protocol state. */
  lemma AppendIsProtocolStep(rows: seq<Row>, s: State, e: Event)
    requires DistinctRows(rows) && Table(rows) == s.table && Gated(InsertRow(s.table, e)) && !HasRow(s.table, e.id)
    ensures !HasId(rows, e.id) && Storable(Fold(Table(rows + [RowOf(e)])))
    ensures var t := Rebuilt(s, [e]);
      t.table == Table(rows + [RowOf(e)]) && t.stored == Fold(Table(rows + [RowOf(e)]))
  {
    IdsAgree(rows, e.id);
    InsertIsInsertRow(rows, RowOf(e));
    GatedFold(InsertRow(s.table, e));
    RebuildSucceeds(InsertRow(s.table, e));
    assert InsertRows(s.table, [e]) == InsertRows(InsertRow(s.table, e), []);
  }

  /** The primary key on row ids is enough: claim ids are asserted once, and no rebuild can
      violate a key or the slot index. */
  lemma KeyedTableIsStorable(rows: seq<Row>)
    requires DistinctRows(rows) && forall r | r in rows :: RowShaped(r.event)
    ensures AssertedOnce(Table(rows)) && Storable(Fold(Table(rows)))
  {
    TableFacts(rows);
    AssertedOnceByIds(Table(rows));
    RebuildSucceeds(Table(rows));
  }
}
