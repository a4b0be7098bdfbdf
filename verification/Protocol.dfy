/** Every run of the daemon: writers with stale reads, ingestion, whole handoffs that may be
    cut off, pruning and restarts, as steps over one state. */
module Protocol {
  import opened Text
  import opened Claims
  import opened Projector
  import opened CurrentView
  import opened GatedLog
  import opened FoldLaws
  import opened Trust
  import opened Compaction
  import opened Briefing
  import opened Daemon
  import opened EventTable
  import opened Handoff
  import opened Convergence
  import opened RowIds

  /** `shown` holds the rows the last rebuild could see and rows the fold ignores, `behind` the
      claim rows that a cut-off handoff appended since; neither is ever pruned. `table` is what
      the pruner left of both, `stored` the view of the last rebuild. `pending` holds rows that
      passed the gate and wait for the writer lock; `dropped` lists deleted ids in order. */
  datatype State = State(
    shown: seq<Event>, behind: seq<Event>, table: seq<Event>, stored: View, pending: seq<Event>,
    dropped: seq<string>)

  datatype Action =
    | Ingest(e: Event)
    | PrepareWrite(q: Request, seen: View, eventId: string, at: nat)
    | Commit(i: nat)
    | RunHandoff(ph: Phrases)
    | Prune(ids: seq<string>)
    | Restart(ph: Phrases, writes: nat)

  const INITIAL := State([], [], [], View([], []), [], [])

  /** Every row ever appended. */
  function History(s: State): seq<Event> {
    InsertRows(s.shown, s.behind)
  }

  function Written(s: State): seq<Event> {
    s.shown + s.behind
  }

  function All(s: State): seq<Event> {
    Written(s) + s.pending
  }

  /** Append rows and rebuild the view from the whole table. */
  function Rebuilt(s: State, es: seq<Event>): State {
    State(InsertRows(History(s), es), [], InsertRows(s.table, es), Fold(InsertRows(s.table, es)), s.pending, s.dropped)
  }

  /** Append rows and leave the view as it was. */
  function Unshown(s: State, es: seq<Event>): State {
    s.(behind := s.behind + es, table := InsertRows(s.table, es))
  }

  function PendingRow(ce: ClaimEvent, eventId: string, at: nat): Event {
    Event(eventId, at, Authored(Some(ce)))
  }

  /** Insert one row after another until the primary key refuses one. */
  function Taken(table: seq<Event>, es: seq<Event>): seq<Event>
    decreases |es|
  {
    if es == [] || HasRow(table, es[0].id) then [] else [es[0]] + Taken(InsertRow(table, es[0]), es[1..])
  }

  function HandoffRows(s: State, ph: Phrases): seq<Event> {
    Added(ph, HandoffSources(s.table))
  }

  /** The view is rebuilt only after the last insert; a refused insert ends the handoff. */
  function AfterHandoff(s: State, es: seq<Event>): State {
    if es == [] then s else if Taken(s.table, es) == es then Rebuilt(s, es) else Unshown(s, Taken(s.table, es))
  }

  /** The clock of the pushed rows stays within a signed column. */
  predicate InTime(s: State, ph: Phrases) {
    MaxAt(Extract(ph, HandoffSources(s.table)).log) <= I64_MAX
  }

  predicate Next(s: State, a: Action, t: State) {
    match a
    case Ingest(e) =>
      && !e.body.Authored? && UlidShaped(e.id) && !HasRow(All(s), e.id)
      && t == if e.body.Shell? && e.body.exitCode.Some? then Rebuilt(s, [e])
              else s.(shown := InsertRow(s.shown, e), table := InsertRow(s.table, e))
    case PrepareWrite(q, seen, eventId, at) =>
      && Reordered(s.stored, seen) && UlidShaped(eventId) && !HasRow(All(s), eventId)
      && Prepare(seen, q, eventId).Write?
      && t == s.(pending := s.pending + [PendingRow(Prepare(seen, q, eventId).row, eventId, at)])
    case Commit(i) =>
      && i < |s.pending|
      && t == Rebuilt(s, [s.pending[i]]).(pending := s.pending[..i] + s.pending[i + 1..])
    case RunHandoff(ph) =>
      InTime(s, ph) && t == AfterHandoff(s, HandoffRows(s, ph))
    case Prune(ids) =>
      && Offered(s.stored, s.table, ids) && (forall id | id in ids :: HasRow(s.table, id))
      && t == s.(table := DeleteRows(s.table, ids), dropped := s.dropped + ids)
    case Restart(ph, writes) =>
      // The process dies, perhaps inside a handoff after `writes` inserts, and starts again.
      && InTime(s, ph) && writes <= |Taken(s.table, HandoffRows(s, ph))|
      && t == Rebuilt(s, Taken(s.table, HandoffRows(s, ph))[..writes]).(pending := [])
  }

  /** A run of the daemon: `states[k]` is where the first `k` actions lead. */
  ghost predicate IsRunOf(states: seq<State>, actions: seq<Action>) {
    && |states| == |actions| + 1 && states[0] == INITIAL
    && forall k | 0 <= k < |actions| :: Next(states[k], actions[k], states[k + 1])
  }

  // ---------- the invariant ----------

  predicate Sourced(log: seq<Event>, view: View) {
    forall c | c in view.claims :: HasSource(log, c)
  }

  /** Rows that may stand in the log together: gated, named by their ids, with known targets. */
  predicate Coherent(written: seq<Event>, rows: seq<Event>) {
    Gated(rows) && AllShaped(rows) && TargetsMade(written, rows)
  }

  predicate TablesOk(s: State) {
    && InOrder(s.shown) && DropChain(s.shown, s.dropped)
    && (forall id | id in s.dropped :: HasRow(s.shown, id))
    && (forall e | e in Written(s) && e.body.Authored? :: e.id !in s.dropped)
    && s.table == DeleteRows(History(s), s.dropped)
  }

  /** Some claim is current that no row of `shown` made. */
  predicate Ahead(s: State) {
    exists c :: c in Live(Fold(s.table).claims) && !MadeIn(s.shown, c.id)
  }

  ghost predicate ViewOk(s: State) {
    && SameView(s.stored, Fold(DeleteRows(s.shown, s.dropped)))
    && TasksOnce(s.stored.tasks) && Sourced(s.shown, s.stored)
    && (forall e | e in s.behind :: e.body.Authored?)
    && (s.behind != [] ==> Ahead(s))
  }

  ghost predicate Inv(s: State) {
    Coherent(Written(s), All(s)) && (forall e | e in s.pending :: MintedRow(e)) && TablesOk(s) && ViewOk(s)
  }

  // ---------- consequences of the invariant ----------

  lemma SameRows(xs: seq<Event>, ys: seq<Event>)
    requires Gated(xs) && DistinctEvents(ys) && Covers(xs, ys)
    ensures Gated(ys)
  {
    GatedSublog(xs, ys);
  }

  lemma DistinctSplit(xs: seq<Event>, ys: seq<Event>)
    requires DistinctEvents(xs + ys)
    ensures DistinctEvents(xs) && DistinctEvents(ys)
    ensures forall x, y | x in xs && y in ys :: x.id != y.id
  {
    var all := xs + ys;
    assert all[..|xs|] == xs && all[|xs|..] == ys;
    forall x, y | x in xs && y in ys
      ensures x.id != y.id
    {
      var i :| 0 <= i < |xs| && xs[i] == x;
      var j :| 0 <= j < |ys| && ys[j] == y;
      assert all[i] == x && all[|xs| + j] == y;
    }
  }

  lemma DistinctParts(xs: seq<Event>, ys: seq<Event>)
    requires DistinctEvents(xs) && DistinctEvents(ys)
    requires forall x, y | x in xs && y in ys :: x.id != y.id
    ensures DistinctEvents(xs + ys)
  {
  }

  lemma HistoryFacts(s: State)
    requires Gated(All(s)) && TablesOk(s)
    ensures InOrder(History(s)) && Gated(History(s)) && DropChain(History(s), s.dropped)
    ensures forall e :: e in History(s) <==> e in Written(s)
    ensures Gated(s.shown) && DistinctEvents(Written(s))
  {
    DistinctSplit(Written(s), s.pending);
    DistinctSplit(s.shown, s.behind);
    InsertRowsKeep(s.shown, s.behind);
    SameRows(All(s), History(s));
    SameRows(All(s), s.shown);
    BehindStays(s);
    ChainInserts(s.shown, s.dropped, s.behind);
  }

  /** Rows that are deleted are rows of `shown`. */
  lemma BehindStays(s: State)
    requires DistinctEvents(Written(s)) && TablesOk(s)
    ensures forall e | e in s.behind :: e.id !in s.dropped
  {
    DistinctSplit(s.shown, s.behind);
  }

  lemma PrunedFacts(s: State)
    requires Gated(All(s)) && TablesOk(s)
    ensures Gated(s.table) && InOrder(s.table) && SameView(Fold(History(s)), Fold(s.table))
    ensures forall e :: e in s.table <==> e in Written(s) && e.id !in s.dropped
    ensures s.table == InsertRows(DeleteRows(s.shown, s.dropped), s.behind)
  {
    HistoryFacts(s);
    ChainIsInvisible(History(s), s.dropped);
    DeleteRowsMembers(History(s), s.dropped);
    BehindStays(s);
    ChainInserts(s.shown, s.dropped, s.behind);
  }

  /** The fold of what the last rebuild saw, pruned or not. */
  lemma ShownFacts(s: State)
    requires Gated(All(s)) && TablesOk(s)
    ensures var rest := DeleteRows(s.shown, s.dropped);
      && Gated(s.shown) && Gated(rest) && Covers(s.shown, rest) && SameView(Fold(s.shown), Fold(rest))
      && Covers(s.table, rest)
  {
    HistoryFacts(s);
    ChainIsInvisible(s.shown, s.dropped);
    DeleteRowsMembers(s.shown, s.dropped);
    PrunedFacts(s);
  }

  lemma SourceGrows(log: seq<Event>, more: seq<Event>, c: Claim)
    requires HasSource(log, c) && Covers(more, log)
    ensures HasSource(more, c)
  {
    var k :| k in log && MadeBy(k, c);
    assert k in more;
  }

  lemma FoldIsSourced(log: seq<Event>, more: seq<Event>)
    requires Covers(more, log)
    ensures Sourced(more, Fold(log))
  {
    EveryClaimHasSource(log);
    forall c | c in Fold(log).claims
      ensures HasSource(more, c)
    {
      SourceGrows(log, more, c);
    }
  }

  lemma SourcedGrows(log: seq<Event>, more: seq<Event>, view: View)
    requires Sourced(log, view) && Covers(more, log)
    ensures Sourced(more, view)
  {
    forall c | c in view.claims
      ensures HasSource(more, c)
    {
      SourceGrows(log, more, c);
    }
  }

  lemma MadeGrows(log: seq<Event>, more: seq<Event>, rows: seq<Event>)
    requires TargetsMade(log, rows) && Covers(more, log)
    ensures TargetsMade(more, rows)
  {
    forall e, t | e in rows && t in Targets(e) && t != ""
      ensures MadeIn(more, t)
    {
      assert MadeIn(log, t);
      var k :| k in log && t in NewIds(k);
      assert k in more;
    }
  }

  // ---------- a row that may join ----------

  /** The pairwise conditions between the rows written so far and a new one. */
  predicate Joins(known: seq<Event>, e: Event) {
    RowOk(e) && forall k | k in known :: Compatible(e, k) && Compatible(k, e)
  }

  lemma CoherentJoin(written: seq<Event>, known: seq<Event>, e: Event)
    requires Coherent(written, known) && !HasRow(known, e.id) && Joins(known, e) && Compatible(e, e)
    requires RowShaped(e) && TargetsMade(written, [e])
    ensures Coherent(written, known + [e])
  {
    forall i, j | 0 <= i < j < |known + [e]|
      ensures (known + [e])[i].id != (known + [e])[j].id
    {
      assert (known + [e])[i] in known;
    }
    assert forall x | x in known + [e] :: x in known || x in [e];
  }

  lemma ObservationJoins(written: seq<Event>, known: seq<Event>, e: Event)
    requires Coherent(written, known) && Covers(known, written) && !HasRow(known, e.id)
    requires !e.body.Authored? && UlidShaped(e.id)
    ensures Coherent(written, known + [e])
  {
    forall k | k in known
      ensures Compatible(e, k) && Compatible(k, e)
    {
      NewRowIsFresh(written, known, e, k);
      assert Targets(e) == {};
    }
    CoherentJoin(written, known, e);
  }

  lemma NamedTargets(e: Event, t: string)
    requires IsAuthored(e) && t in Targets(e) && t != ""
    ensures GateTarget(e.body.claim.value) == Some(t)
  {
  }

  /** The target of a gated row is a claim of the view, not an observed reality, and the
      agent's own when an agent wrote the row. */
  lemma GatedTarget(view: View, e: Event, t: string)
    requires IsAuthored(e) && GatePassed(view, e) && t in Targets(e) && t != ""
    ensures FindClaim(view.claims, t).Some?
    ensures var c := FindClaim(view.claims, t).value;
      && c in view.claims && c.id == t
      && !(c.origin == Projector && c.confidence == Observed)
      && (WrittenBy(e, Agent) ==> c.origin == Agent)
  {
    NamedTargets(e, t);
  }

  lemma TargetHasMaker(written: seq<Event>, view: View, e: Event, t: string) returns (y: Event, c: Claim)
    requires IsAuthored(e) && GatePassed(view, e) && t in Targets(e) && t != "" && Sourced(written, view)
    ensures y in written && MadeBy(y, c) && c.id == t && t in NewIds(y)
    ensures !(c.origin == Projector && c.confidence == Observed) && (WrittenBy(e, Agent) ==> c.origin == Agent)
  {
    GatedTarget(view, e, t);
    c := FindClaim(view.claims, t).value;
    assert HasSource(written, c);
    y :| y in written && MadeBy(y, c);
    MadeByMakes(y, c);
  }

  lemma AuthoredJoins(written: seq<Event>, known: seq<Event>, view: View, e: Event)
    requires Coherent(written, known) && Covers(known, written) && !HasRow(known, e.id)
    requires RowShaped(e) && GatePassed(view, e) && Sourced(written, view)
    ensures Coherent(written, known + [e])
  {
    forall k | k in known
      ensures Compatible(e, k) && Compatible(k, e)
    {
      NewRowIsFresh(written, known, e, k);
      forall t | t in Targets(e) && t in NewIds(k)
        ensures IsRun(k) ==> t != ReadRun(k).realityId
        ensures !(WrittenBy(e, Agent) && WrittenBy(k, User))
      {
        MakerIsRow(k, t);
        var y, c := TargetHasMaker(written, view, e, t);
        TargetIsNotReality(known, y, k, c, t);
      }
    }
    forall x, t | x in [e] && t in Targets(x) && t != ""
      ensures MadeIn(written, t)
    {
      var y, c := TargetHasMaker(written, view, e, t);
    }
    CoherentJoin(written, known, e);
  }

  lemma TargetIsNotReality(known: seq<Event>, y: Event, k: Event, c: Claim, t: string)
    requires Gated(known) && y in known && k in known && MadeBy(y, c) && c.id == t && t in NewIds(k)
    requires !(c.origin == Projector && c.confidence == Observed)
    ensures IsRun(k) ==> t != ReadRun(k).realityId
    ensures WrittenBy(k, User) ==> c.origin == User
  {
    assert Compatible(y, k);
    assert t in NewIds(y);
    if IsRun(y) {
      RealityIsNotFrontier(y);
    }
  }

  // ---------- appending with a rebuild ----------

  lemma AppendedIsOrdered(s: State, es: seq<Event>)
    requires Gated(All(s)) && TablesOk(s) && DistinctEvents(Written(s) + es)
    ensures InOrder(InsertRows(History(s), es)) && DistinctEvents(InsertRows(History(s), es))
    ensures DistinctEvents(History(s) + es)
    ensures forall e :: e in InsertRows(History(s), es) <==> e in Written(s) + es
  {
    HistoryFacts(s);
    DistinctSplit(Written(s), es);
    DistinctParts(History(s), es);
    InsertRowsKeep(History(s), es);
  }

  lemma NotDropped(s: State, es: seq<Event>)
    requires TablesOk(s) && DistinctEvents(Written(s) + es)
    ensures forall e | e in es :: e.id !in s.dropped
  {
    DistinctSplit(Written(s), es);
    forall id | id in s.dropped
      ensures forall e | e in es :: e.id != id
    {
      var x :| x in s.shown && x.id == id;
      assert x in Written(s);
    }
  }

  lemma RebuiltTables(s: State, es: seq<Event>)
    requires Gated(All(s)) && TablesOk(s) && DistinctEvents(Written(s) + es)
    ensures TablesOk(Rebuilt(s, es)) && ViewOk(Rebuilt(s, es))
    ensures forall e :: e in Rebuilt(s, es).shown <==> e in Written(s) + es
  {
    var t := Rebuilt(s, es);
    HistoryFacts(s);
    AppendedIsOrdered(s, es);
    NotDropped(s, es);
    ChainInserts(History(s), s.dropped, es);
    assert History(t) == t.shown && Written(t) == t.shown;
    forall id | id in t.dropped
      ensures HasRow(t.shown, id)
    {
      var x :| x in s.shown && x.id == id;
      assert x in t.shown;
    }
    DeleteRowsMembers(t.shown, t.dropped);
    FoldTasks(t.table, "");
    FoldIsSourced(t.table, t.shown);
  }

  lemma RebuildKeeps(s: State, es: seq<Event>, rest: seq<Event>)
    requires Inv(s) && Coherent(Written(s) + es, Written(s) + es + rest) && forall e | e in rest :: MintedRow(e)
    ensures Inv(Rebuilt(s, es).(pending := rest))
  {
    var t := Rebuilt(s, es).(pending := rest);
    DistinctSplit(Written(s) + es, rest);
    RebuiltTables(s, es);
    AppendedIsOrdered(s, es);
    DistinctParts(t.shown, rest);
    assert Covers(Written(s) + es + rest, All(t));
    SameRows(Written(s) + es + rest, All(t));
    assert Covers(Written(t), Written(s) + es);
    MadeGrows(Written(s) + es, Written(t), Written(s) + es + rest);
    assert TargetsMade(Written(t), All(t));
  }

  /** A new row that joins everything known is appended with a rebuild. */
  lemma NewRowKeeps(s: State, e: Event)
    requires Inv(s) && Coherent(Written(s), All(s) + [e])
    ensures Inv(Rebuilt(s, [e]))
  {
    DistinctSplit(All(s), [e]);
    DistinctSplit(Written(s), s.pending);
    CoherentMoves(s, [e], s.pending);
    RebuildKeeps(s, [e], s.pending);
    assert Rebuilt(s, [e]).(pending := s.pending) == Rebuilt(s, [e]);
  }

  /** The order of the parts does not matter. */
  lemma CoherentMoves(s: State, es: seq<Event>, rest: seq<Event>)
    requires Coherent(Written(s), All(s) + es) && DistinctEvents(rest) && Covers(s.pending, rest)
    ensures Coherent(Written(s) + es, Written(s) + es + rest)
  {
    var xs, ys := All(s) + es, Written(s) + es + rest;
    DistinctSplit(All(s), es);
    DistinctSplit(Written(s), s.pending);
    DistinctParts(Written(s), es);
    assert forall x | x in Written(s) :: x in All(s);
    assert forall x | x in s.pending :: x in All(s);
    DistinctParts(Written(s) + es, rest);
    assert Covers(xs, ys);
    SameRows(xs, ys);
    MadeGrows(Written(s), Written(s) + es, xs);
  }
}
