/** Each step of the protocol keeps the invariant. */
module ProtocolSteps {
  import opened Text
  import opened Claims
  import opened Projector
  import opened CurrentView
  import opened GatedLog
  import opened FoldLaws
  import opened Trust
  import opened Compaction
  import opened Briefing
  import opened Daemon
  import opened EventTable
  import opened Handoff
  import opened PushedRows
  import opened RowIds
  import opened Store
  import opened Protocol
  import opened HandoffStep

  // ---------- observations ----------

  /** A row the projector ignores leaves the fold alone, wherever it lands. */
  lemma IgnoredInsert(log: seq<Event>, e: Event)
    requires !IsRun(e) && !IsAuthored(e)
    ensures Fold(InsertRow(log, e)) == Fold(log)
  {
    hide Fold;
    var i := InsertAt(log, e);
    IrrelevantRow(log[..i], e, log[i..]);
    assert log[..i] + log[i..] == log;
  }

  function Noticed(s: State, e: Event): State {
    s.(shown := InsertRow(s.shown, e), table := InsertRow(s.table, e))
  }

  /** A row that arrives after a cut-off handoff, and the rows of that handoff: the order in
      which they were inserted does not show. */
  lemma InsertsSwap(s: State, e: Event)
    requires Gated(All(s)) && TablesOk(s) && !HasRow(All(s), e.id)
    ensures InOrder(InsertRow(s.shown, e)) && DistinctEvents(InsertRow(s.shown, e) + s.behind)
    ensures InsertRows(InsertRow(s.shown, e), s.behind) == InsertRow(History(s), e)
  {
    HistoryFacts(s);
    DistinctSplit(s.shown, s.behind);
    assert forall x | x in Written(s) :: x in All(s);
    assert forall x | x in s.shown :: x in Written(s);
    assert forall x | x in s.behind :: x in Written(s);
    InsertKeeps(s.shown, e);
    InsertMembers(s.shown, e);
    DistinctParts(InsertRow(s.shown, e), s.behind);
    InsertRowsKeep(InsertRow(s.shown, e), s.behind);
    InsertKeeps(History(s), e);
    InsertMembers(History(s), e);
    OrderedIsUnique(InsertRows(InsertRow(s.shown, e), s.behind), InsertRow(History(s), e));
  }

  lemma NoticedTables(s: State, e: Event)
    requires Gated(All(s)) && TablesOk(s) && !e.body.Authored? && !HasRow(All(s), e.id)
    ensures TablesOk(Noticed(s, e))
    ensures DeleteRows(Noticed(s, e).shown, s.dropped) == InsertRow(DeleteRows(s.shown, s.dropped), e)
  {
    var t := Noticed(s, e);
    HistoryFacts(s);
    InsertsSwap(s, e);
    forall id | id in s.dropped
      ensures id != e.id && HasRow(t.shown, id)
    {
      var x :| x in s.shown && x.id == id;
      assert x in All(s);
      InsertMembers(s.shown, e);
      assert x in t.shown;
    }
    ChainInsert(s.shown, s.dropped, e);
    ChainInsert(History(s), s.dropped, e);
    InsertMembers(s.shown, e);
  }

  lemma NoticedView(s: State, e: Event)
    requires Inv(s) && !e.body.Authored? && !IsRun(e) && !HasRow(All(s), e.id)
    ensures ViewOk(Noticed(s, e))
  {
    var t := Noticed(s, e);
    NoticedTables(s, e);
    IgnoredInsert(DeleteRows(s.shown, s.dropped), e);
    IgnoredInsert(s.table, e);
    InsertMembers(s.shown, e);
    SourcedGrows(s.shown, t.shown, s.stored);
    if s.behind != [] {
      var c :| c in Live(Fold(s.table).claims) && !MadeIn(s.shown, c.id);
      assert NewIds(e) == {};
      assert !MadeIn(t.shown, c.id);
    }
  }

  lemma NoticedRows(s: State, e: Event)
    requires Coherent(Written(s), All(s) + [e]) && TablesOk(s) && !HasRow(All(s), e.id)
    ensures Coherent(Written(Noticed(s, e)), All(Noticed(s, e)))
  {
    var t, xs := Noticed(s, e), All(s) + [e];
    DistinctSplit(All(s), [e]);
    assert Gated(All(s)) by {
      SameRows(xs, All(s));
    }
    InsertsSwap(s, e);
    InsertMembers(s.shown, e);
    DistinctSplit(Written(s), s.pending);
    assert forall x | x in s.pending :: x in All(s);
    assert forall x | x in Written(t) :: x == e || x in Written(s);
    assert forall x | x in Written(s) :: x in All(s);
    DistinctParts(Written(t), s.pending);
    assert Covers(xs, All(t)) && Covers(Written(t), Written(s));
    SameRows(xs, All(t));
    MadeGrows(Written(s), Written(t), xs);
  }

  lemma IngestKeeps(s: State, e: Event)
    requires Inv(s) && !e.body.Authored? && UlidShaped(e.id) && !HasRow(All(s), e.id)
    ensures Inv(Rebuilt(s, [e]))
    ensures !(e.body.Shell? && e.body.exitCode.Some?) ==> Inv(Noticed(s, e))
  {
    ObservationJoins(Written(s), All(s), e);
    NewRowKeeps(s, e);
    if !(e.body.Shell? && e.body.exitCode.Some?) {
      NoticedTables(s, e);
      NoticedView(s, e);
      NoticedRows(s, e);
    }
  }

  // ---------- the writers ----------

  lemma PreparedPasses(seen: View, q: Request, eventId: string, at: nat)
    requires Prepare(seen, q, eventId).Write? && UlidShaped(eventId)
    ensures var e := PendingRow(Prepare(seen, q, eventId).row, eventId, at); GatePassed(seen, e) && MintedRow(e)
  {
    hide Prepare;
    PreparedRow(seen, q, eventId);
    PassedIsGated(seen, Prepare(seen, q, eventId).row, eventId, at);
  }

  lemma PassedIsGated(seen: View, ce: ClaimEvent, eventId: string, at: nat)
    requires PassedGate(seen, ce, eventId) && UlidShaped(eventId)
    ensures var e := PendingRow(ce, eventId, at); GatePassed(seen, e) && MintedRow(e)
  {
    hide Validate, ValidateAgainst;
    assert NoNewline("c_" + eventId);
  }

  lemma PrepareKeeps(s: State, q: Request, seen: View, eventId: string, at: nat)
    requires Inv(s) && Reordered(s.stored, seen) && UlidShaped(eventId) && Prepare(seen, q, eventId).Write?
    requires !HasRow(All(s), eventId)
    ensures Inv(s.(pending := s.pending + [PendingRow(Prepare(seen, q, eventId).row, eventId, at)]))
  {
    var e := PendingRow(Prepare(seen, q, eventId).row, eventId, at);
    PreparedPasses(seen, q, eventId, at);
    SameMembers(s.stored.claims, seen.claims);
    SourcedGrows(s.shown, Written(s), s.stored);
    AuthoredJoins(Written(s), All(s), seen, e);
    assert Written(s) + (s.pending + [e]) == All(s) + [e];
  }

  lemma CommitKeeps(s: State, i: nat)
    requires Inv(s) && i < |s.pending|
    ensures Inv(Rebuilt(s, [s.pending[i]]).(pending := s.pending[..i] + s.pending[i + 1..]))
  {
    hide Inv, Coherent, MintedRow;
    var e, rest := s.pending[i], s.pending[..i] + s.pending[i + 1..];
    CommitCoheres(s, e, rest, i);
    RebuildKeeps(s, [e], rest);
  }

  lemma CommitCoheres(s: State, e: Event, rest: seq<Event>, i: nat)
    requires Inv(s) && i < |s.pending| && e == s.pending[i] && rest == s.pending[..i] + s.pending[i + 1..]
    ensures Coherent(Written(s) + [e], Written(s) + [e] + rest) && forall y | y in rest :: MintedRow(y)
  {
    hide Gated, TargetsMade, TablesOk, ViewOk, RowShaped;
    var xs, ys := All(s), Written(s) + [e] + rest;
    assert e in s.pending && forall y | y in rest :: y in s.pending;
    GatedIsDistinct(xs);
    CommitDistinct(Written(s), s.pending, i);
    assert Covers(xs, ys) && Covers(Written(s) + [e], Written(s));
    SameRows(xs, ys);
    MadeGrows(Written(s), Written(s) + [e], xs);
    assert TargetsMade(Written(s) + [e], ys) by {
      FewerTargets(Written(s) + [e], xs, ys);
    }
  }

  lemma FewerTargets(written: seq<Event>, xs: seq<Event>, ys: seq<Event>)
    requires TargetsMade(written, xs) && Covers(xs, ys)
    ensures TargetsMade(written, ys)
  {
  }

  lemma GatedIsDistinct(log: seq<Event>)
    requires Gated(log)
    ensures DistinctEvents(log)
  {
  }

  /** One row taken out of the second part and put between the two. */
  lemma CommitDistinct(xs: seq<Event>, ys: seq<Event>, i: nat)
    requires i < |ys| && DistinctEvents(xs + ys)
    ensures DistinctEvents(xs + [ys[i]] + (ys[..i] + ys[i + 1..]))
  {
    var e, rest := ys[i], ys[..i] + ys[i + 1..];
    DistinctSplit(xs, ys);
    assert e in ys && forall y | y in rest :: y in ys && y.id != e.id;
    DistinctParts([e], rest);
    DistinctParts(xs, [e] + rest);
    assert xs + ([e] + rest) == xs + [e] + rest;
  }

  // ---------- handoffs and restarts ----------

  /** Appending the first rows of a handoff with a rebuild. */
  lemma PushedKeeps(s: State, ph: Phrases, pushed: seq<Event>, n: nat, rest: seq<Event>)
    requires Inv(s) && Pushes(s, ph, pushed) && n <= |pushed| && DistinctEvents(pushed[..n])
    requires DistinctEvents(rest) && Covers(s.pending, rest)
    ensures Inv(Rebuilt(s, pushed[..n]).(pending := rest))
  {
    hide Inv, Pushes, Coherent;
    PushedJoin(s, ph, pushed, n);
    PartsOf(s, pushed[..n], rest);
    RebuildKeeps(s, pushed[..n], rest);
  }

  lemma PartsOf(s: State, es: seq<Event>, rest: seq<Event>)
    requires Inv(s) && Coherent(Written(s) + es, All(s) + es) && DistinctEvents(rest) && Covers(s.pending, rest)
    ensures Coherent(Written(s) + es, Written(s) + es + rest) && forall e | e in rest :: MintedRow(e)
  {
    var xs, ys := All(s) + es, Written(s) + es + rest;
    PartsDiffer(s, es);
    assert forall x | x in rest :: x in s.pending;
    DistinctParts(Written(s) + es, rest);
    assert forall x | x in Written(s) :: x in All(s);
    assert forall x | x in s.pending :: x in All(s);
    assert Covers(xs, ys);
    SameRows(xs, ys);
  }

  lemma PartsDiffer(s: State, es: seq<Event>)
    requires DistinctEvents(All(s) + es)
    ensures DistinctEvents(Written(s) + es)
    ensures forall x, y | x in Written(s) + es && y in s.pending :: x.id != y.id
  {
    DistinctSplit(All(s), es);
    DistinctSplit(Written(s), s.pending);
    assert forall x | x in Written(s) :: x in All(s);
    assert forall x | x in s.pending :: x in All(s);
    DistinctParts(Written(s), es);
  }

  lemma UnshownTables(s: State, es: seq<Event>)
    requires Gated(All(s)) && TablesOk(s) && DistinctEvents(Written(s) + es)
    ensures TablesOk(Unshown(s, es))
  {
    hide Gated;
    var t := Unshown(s, es);
    InsertRowsConcat(s.shown, s.behind, es);
    assert History(t) == InsertRows(History(s), es);
    AppendedIsOrdered(s, es);
    NotDropped(s, es);
    HistoryFacts(s);
    ChainInserts(History(s), s.dropped, es);
    assert Written(t) == Written(s) + es;
  }

  lemma UnshownKeeps(s: State, es: seq<Event>)
    requires Inv(s) && Coherent(Written(s) + es, All(s) + es) && forall e | e in es :: e.body.Authored?
    requires Ahead(Unshown(s, es))
    ensures Inv(Unshown(s, es))
  {
    hide Ahead, InOrder;
    var t := Unshown(s, es);
    PartsDiffer(s, es);
    UnshownTables(s, es);
    PendingApart(s);
    assert Written(t) == Written(s) + es;
    PartsOf(s, es, s.pending);
    assert All(t) == Written(s) + es + s.pending;
  }

  lemma PendingApart(s: State)
    requires DistinctEvents(All(s))
    ensures DistinctEvents(s.pending)
  {
    DistinctSplit(Written(s), s.pending);
  }

  lemma RepeatIsClaim(s: State, ph: Phrases, pushed: seq<Event>, i: nat, j: nat)
    requires Inv(s) && Pushes(s, ph, pushed) && i < j < |pushed| && pushed[i].id == pushed[j].id
    ensures AssertsFor(FirstCited(pushed[j - 1]), pushed[j - 1])
  {
    hide Inv;
    PushedIsHandoffRow(s, ph, pushed, i);
    PushedIsHandoffRow(s, ph, pushed, j);
    RepeatsPushed(Read(s), pushed, i, j);
  }

  /** Where a handoff stops early, the last row that got in asserts a claim. */
  lemma CutOffAtClaim(s: State, ph: Phrases, pushed: seq<Event>)
    requires Inv(s) && Pushes(s, ph, pushed) && |Taken(s.table, pushed)| < |pushed|
    ensures var j := |Taken(s.table, pushed)|;
      j > 0 && AssertsFor(FirstCited(pushed[j - 1]), pushed[j - 1])
  {
    hide Inv, Pushes;
    var j := |Taken(s.table, pushed)|;
    TakenFacts(s.table, pushed);
    PushedNotInTable(s, ph, pushed, j);
    var i :| 0 <= i < j && pushed[i].id == pushed[j].id;
    RepeatIsClaim(s, ph, pushed, i, j);
  }

  lemma PushedNotInTable(s: State, ph: Phrases, pushed: seq<Event>, k: nat)
    requires Inv(s) && Pushes(s, ph, pushed) && k < |pushed|
    ensures !HasRow(s.table, pushed[k].id)
  {
    PushedIsUnused(s, ph, pushed, k);
    PrunedFacts(s);
    forall x | x in s.table
      ensures x in All(s)
    {
      assert x in Written(s);
    }
  }

  /** After a cut-off handoff the table holds a current claim that the stored view lacks. */
  lemma CutOffIsAhead(s: State, ph: Phrases, pushed: seq<Event>)
    requires Inv(s) && Pushes(s, ph, pushed) && InTime(s, ph) && |Taken(s.table, pushed)| < |pushed|
    ensures Ahead(Unshown(s, Taken(s.table, pushed)))
  {
    hide Inv, Pushes, InTime, Ahead;
    CutOffAtClaim(s, ph, pushed);
    TakenFacts(s.table, pushed);
    LastTakenIsAhead(s, ph, pushed, |Taken(s.table, pushed)| - 1);
  }

  lemma LastTakenIsAhead(s: State, ph: Phrases, pushed: seq<Event>, k: nat)
    requires Inv(s) && Pushes(s, ph, pushed) && InTime(s, ph) && k < |pushed| && DistinctEvents(pushed[..k + 1])
    requires AssertsFor(FirstCited(pushed[k]), pushed[k])
    ensures Ahead(Unshown(s, pushed[..k + 1]))
  {
    hide Inv, Pushes, Coherent;
    var e, before, t := pushed[k], InsertRows(s.table, pushed[..k]), Unshown(s, pushed[..k + 1]);
    PushedBody(s, ph, pushed, k);
    TableBefore(s, ph, pushed, k);
    TakenOneByOne(s, pushed, k);
    LatestClaimStands(before, e);
    var c :| c in Live(Fold(t.table).claims) && c.id == e.body.claim.value.claimId;
    NotYetMade(s, ph, pushed, k);
  }

  lemma NotYetMade(s: State, ph: Phrases, pushed: seq<Event>, k: nat)
    requires Inv(s) && Pushes(s, ph, pushed) && k < |pushed| && IsAuthored(pushed[k]) && Asserts(pushed[k].body.claim.value)
    ensures !MadeIn(s.shown, pushed[k].body.claim.value.claimId)
  {
    PushedIsHandoffRow(s, ph, pushed, k);
    PushedIsUnused(s, ph, pushed, k);
    forall x | x in s.shown
      ensures pushed[k].body.claim.value.claimId !in NewIds(x)
    {
      assert x in All(s) && RowShaped(x);
      ClaimsApart(pushed[k], x);
    }
  }

  lemma TableBefore(s: State, ph: Phrases, pushed: seq<Event>, k: nat)
    requires Inv(s) && Pushes(s, ph, pushed) && InTime(s, ph) && k < |pushed| && DistinctEvents(pushed[..k + 1])
    ensures var before := InsertRows(s.table, pushed[..k]);
      && InOrder(before) && DistinctEvents(before) && !HasRow(before, pushed[k].id) && Gated(InsertRow(before, pushed[k]))
      && forall x | x in before && IsFoldSource(x) :: x.at < pushed[k].at
  {
    hide Inv, Pushes, Coherent, InTime, Extract, IsFoldSource, IsHandoffSource, InOrder, Gated, Read, All;
    var before := InsertRows(s.table, pushed[..k]);
    assert pushed[..k + 1][..k] == pushed[..k];
    TableWith(s, ph, pushed, k);
    NewAmong(s, ph, pushed, k);
    TableWith(s, ph, pushed, k + 1);
    TakenOneByOne(s, pushed, k);
    forall x | x in before && IsFoldSource(x)
      ensures x.at < pushed[k].at
    {
      FoldReadsLess(s, x);
      PushedIsLater(s, ph, pushed, k, x);
    }
  }

  /** What the fold reads of the table, a handoff reads too. */
  lemma FoldReadsLess(s: State, x: Event)
    requires Inv(s) && IsFoldSource(x)
    ensures x in s.table ==> x in Read(s)
  {
    ReadFacts(s);
  }

  lemma TableWith(s: State, ph: Phrases, pushed: seq<Event>, n: nat)
    requires Inv(s) && Pushes(s, ph, pushed) && n <= |pushed| && DistinctEvents(pushed[..n])
    ensures var after := InsertRows(s.table, pushed[..n]);
      && InOrder(after) && DistinctEvents(after) && Gated(after)
      && forall x :: x in after <==> x in s.table || x in pushed[..n]
    ensures Covers(All(s), s.table)
  {
    PushedJoin(s, ph, pushed, n);
    PrunedFacts(s);
    assert forall x | x in s.table :: x in Written(s) && x in All(s);
    DistinctSplit(All(s), pushed[..n]);
    DistinctParts(s.table, pushed[..n]);
    InsertRowsKeep(s.table, pushed[..n]);
    SameRows(All(s) + pushed[..n], InsertRows(s.table, pushed[..n]));
  }

  lemma CompleteKeeps(s: State, ph: Phrases, pushed: seq<Event>)
    requires Inv(s) && Pushes(s, ph, pushed) && Taken(s.table, pushed) == pushed
    ensures Inv(Rebuilt(s, pushed))
  {
    hide Inv, Pushes, Extract;
    TakenFacts(s.table, pushed);
    AllIsCoherent(s);
    PendingApart(s);
    assert pushed[..|pushed|] == pushed;
    PushedKeeps(s, ph, pushed, |pushed|, s.pending);
    assert Rebuilt(s, pushed).(pending := s.pending) == Rebuilt(s, pushed);
  }

  lemma CutOffKeeps(s: State, ph: Phrases, pushed: seq<Event>)
    requires Inv(s) && Pushes(s, ph, pushed) && InTime(s, ph) && |Taken(s.table, pushed)| < |pushed|
    ensures Inv(Unshown(s, Taken(s.table, pushed)))
  {
    hide Inv, Pushes, InTime, Extract, Coherent, Ahead;
    var n := |Taken(s.table, pushed)|;
    TakenFacts(s.table, pushed);
    CutOffIsAhead(s, ph, pushed);
    PushedJoin(s, ph, pushed, n);
    TakenIsAuthored(s, ph, pushed, n);
    UnshownKeeps(s, pushed[..n]);
  }

  lemma HandoffKeeps(s: State, ph: Phrases)
    requires Inv(s) && InTime(s, ph)
    ensures Inv(AfterHandoff(s, HandoffRows(s, ph)))
  {
    hide Inv, Pushes, InTime, HandoffRows, Extract;
    var pushed := HandoffPushes(s, ph);
    TakenFacts(s.table, pushed);
    if Taken(s.table, pushed) == pushed {
      CompleteKeeps(s, ph, pushed);
    } else {
      CutOffKeeps(s, ph, pushed);
    }
  }

  lemma TakenIsAuthored(s: State, ph: Phrases, pushed: seq<Event>, n: nat)
    requires Inv(s) && Pushes(s, ph, pushed) && n <= |pushed|
    ensures forall e | e in pushed[..n] :: e.body.Authored?
  {
    hide Inv, Pushes, Extract;
    forall e | e in pushed[..n]
      ensures e.body.Authored?
    {
      var k :| 0 <= k < n && pushed[..n][k] == e;
      PushedIsHandoffRow(s, ph, pushed, k);
    }
  }

  lemma RestartKeeps(s: State, ph: Phrases, writes: nat)
    requires Inv(s) && InTime(s, ph) && writes <= |Taken(s.table, HandoffRows(s, ph))|
    ensures Inv(Rebuilt(s, Taken(s.table, HandoffRows(s, ph))[..writes]).(pending := []))
  {
    hide Inv, Pushes, InTime, HandoffRows, Extract;
    var pushed := HandoffPushes(s, ph);
    TakenFacts(s.table, pushed);
    var taken := Taken(s.table, pushed);
    assert taken[..writes] == pushed[..writes];
    assert forall i, j | 0 <= i < j < writes :: taken[..writes][i].id == taken[i].id != taken[j].id;
    PushedKeeps(s, ph, pushed, writes, []);
  }

  // ---------- pruning ----------

  /** The pruner judges by the stored view, which may be behind; what it deletes is droppable
      in the log that view shows, and stays droppable with the rows it does not show. */
  lemma PruneKeeps(s: State, ids: seq<string>)
    requires Inv(s) && Offered(s.stored, s.table, ids) && forall id | id in ids :: HasRow(s.table, id)
    ensures Inv(s.(table := DeleteRows(s.table, ids), dropped := s.dropped + ids))
  {
    PruneTables(s, ids);
    PruneChain(s, ids);
    PruneView(s, ids);
  }

  lemma PruneView(s: State, ids: seq<string>)
    requires Inv(s) && DropChain(DeleteRows(s.shown, s.dropped), ids) && DropChain(History(s), s.dropped + ids)
    ensures SameView(s.stored, Fold(DeleteRows(DeleteRows(s.shown, s.dropped), ids)))
    ensures Live(Fold(DeleteRows(s.table, ids)).claims) == Live(Fold(s.table).claims)
  {
    ShownFacts(s);
    HistoryFacts(s);
    ChainIsInvisible(DeleteRows(s.shown, s.dropped), ids);
    ChainIsInvisible(History(s), s.dropped + ids);
    ChainIsInvisible(History(s), s.dropped);
    DeleteRowsTwice(History(s), s.dropped, ids);
  }

  lemma OfferedRows(s: State, ids: seq<string>)
    requires Inv(s) && Offered(s.stored, s.table, ids) && forall id | id in ids :: HasRow(s.table, id)
    ensures forall id | id in ids :: HasRow(s.shown, id)
    ensures forall e | e in Written(s) && e.body.Authored? :: e.id !in ids
  {
    PrunedFacts(s);
    HistoryFacts(s);
    forall id | id in ids
      ensures HasRow(s.shown, id)
      ensures forall e | e in Written(s) && e.body.Authored? :: e.id != id
    {
      var x :| x in s.table && x.id == id;
      assert Prunable(s.stored, x);
      assert x in s.shown;
    }
  }

  lemma PruneChain(s: State, ids: seq<string>)
    requires Inv(s) && Offered(s.stored, s.table, ids)
    ensures var rest := DeleteRows(s.shown, s.dropped);
      && DropChain(rest, ids) && DropChain(s.shown, s.dropped + ids)
      && DeleteRows(s.shown, s.dropped + ids) == DeleteRows(rest, ids)
  {
    ShownFacts(s);
    BatchIsChain(s.stored, DeleteRows(s.shown, s.dropped), ids);
    ChainAppend(s.shown, s.dropped, ids);
  }

  lemma PruneTables(s: State, ids: seq<string>)
    requires Inv(s) && Offered(s.stored, s.table, ids) && forall id | id in ids :: HasRow(s.table, id)
    ensures var t := s.(table := DeleteRows(s.table, ids), dropped := s.dropped + ids);
      && TablesOk(t) && DropChain(History(s), t.dropped)
  {
    var dropped := s.dropped + ids;
    PruneChain(s, ids);
    OfferedRows(s, ids);
    HistoryFacts(s);
    assert forall e | e in s.behind :: e in Written(s) && e.id !in dropped;
    ChainInserts(s.shown, dropped, s.behind);
    DeleteRowsTwice(History(s), s.dropped, ids);
  }

  lemma {:induction false} DeleteRowsTwice(log: seq<Event>, ids: seq<string>, more: seq<string>)
    ensures DeleteRows(log, ids + more) == DeleteRows(DeleteRows(log, ids), more)
    decreases |ids|
  {
    if ids == [] {
      assert ids + more == more;
    } else {
      assert (ids + more)[1..] == ids[1..] + more;
      DeleteRowsTwice(DeleteRow(log, ids[0]), ids[1..], more);
    }
  }

  // ---------- every step ----------

  /** Each single step keeps the invariant. */
  lemma NextKeeps(s: State, a: Action, t: State)
    requires Inv(s) && Next(s, a, t)
    ensures Inv(t)
  {
    match a
    case Ingest(e) => IngestKeeps(s, e);
    case PrepareWrite(q, seen, eventId, at) => PrepareKeeps(s, q, seen, eventId, at);
    case Commit(i) => CommitKeeps(s, i);
    case RunHandoff(ph) => HandoffKeeps(s, ph);
    case Prune(ids) => PruneKeeps(s, ids);
    case Restart(ph, writes) => RestartKeeps(s, ph, writes);
  }
}
