/** One handoff as a step of the protocol: what it pushes may join the log, and why a handoff
    that is cut off leaves the stored view behind. */
module HandoffStep {
  import opened Text
  import opened Claims
  import opened Projector
  import opened CurrentView
  import opened GatedLog
  import opened Trust
  import opened Compaction
  import opened EventTable
  import opened Daemon
  import opened Handoff
  import opened Convergence
  import opened Admission
  import opened Extraction
  import opened Appended
  import opened PushedRows
  import opened RowIds
  import opened Store
  import opened Persistence
  import opened Protocol

  /** What a handoff in state `s` reads, and the log its extraction ends with. */
  function Read(s: State): seq<Event> {
    HandoffSources(s.table)
  }

  function Extracted(s: State, ph: Phrases): seq<Event> {
    Extract(ph, Read(s)).log
  }

  /** `pushed` extends what was read, block by block, to what the extraction ended with. */
  predicate Pushes(s: State, ph: Phrases, pushed: seq<Event>) {
    Extracted(s, ph) == Read(s) + pushed && InBlocks(Read(s), Read(s) + pushed, |Read(s)|)
  }

  lemma ReadFacts(s: State)
    requires Inv(s)
    ensures InOrder(Read(s)) && DistinctEvents(Read(s)) && SortLog(Read(s)) == Read(s)
    ensures forall e :: e in Read(s) <==> e in s.table && IsHandoffSource(e)
    ensures Covers(Written(s), Read(s)) && Covers(All(s), Read(s))
  {
    PrunedFacts(s);
    SourcesMembers(s.table);
    SortedStays(Read(s));
  }

  lemma WhatIsPushed(s: State, ph: Phrases) returns (pushed: seq<Event>)
    requires Inv(s)
    ensures Pushes(s, ph, pushed)
  {
    ReadFacts(s);
    ExtractInBlocks(ph, Read(s), |Read(s)|);
    assert Grown(Read(s), Extracted(s, ph));
    pushed := Extracted(s, ph)[|Read(s)|..];
  }

  /** A pushed row is named after a note that the daemon or a client named like a ULID. */
  lemma PushedIsHandoffRow(s: State, ph: Phrases, pushed: seq<Event>, k: nat)
    requires Inv(s) && Pushes(s, ph, pushed) && k < |pushed|
    ensures HandoffRow(pushed[k]) && FirstCited(pushed[k]) !in CitedNotes(Read(s))
  {
    hide Inv, Extract, RowFor, CitedNotes;
    PushedIsForNote(Read(s), pushed, k);
    NoteIsShaped(s, FirstCited(pushed[k]));
    PushedHasShape(pushed[k]);
  }

  lemma PushedIsForNote(log: seq<Event>, pushed: seq<Event>, k: nat)
    requires InBlocks(log, log + pushed, |log|) && k < |pushed|
    ensures RowFor(FirstCited(pushed[k]), pushed[k]) && UncitedNote(log, FirstCited(pushed[k]), |log|)
  {
    assert (log + pushed)[|log| + k] == pushed[k];
  }

  lemma NoteIsShaped(s: State, id: string)
    requires Inv(s) && UncitedNote(Read(s), id, |Read(s)|)
    ensures UlidShaped(id)
  {
    var log := Read(s);
    var x :| 0 <= x < |log| && log[x].body.Note? && log[x].id == id;
    ReadFacts(s);
    assert log[x] in All(s) && RowShaped(log[x]);
  }

  lemma PushedHasShape(e: Event)
    requires RowFor(FirstCited(e), e) && UlidShaped(FirstCited(e))
    ensures HandoffRow(e)
  {
  }

  lemma HandoffIdLength(e: Event)
    requires HandoffRow(e)
    ensures if e.body.claim.value.op == Assert then 29 <= |e.id| <= 30 else |e.id| == 37
  {
  }

  /** Handoff rows with one id were pushed for one note. */
  lemma SameIdSameCited(a: Event, b: Event)
    requires HandoffRow(a) && HandoffRow(b) && a.id == b.id
    ensures FirstCited(a) == FirstCited(b)
  {
    SameIdSameNote(a, b);
  }

  /** A pushed row's id is not in use: its note would be cited already. */
  lemma PushedIsUnused(s: State, ph: Phrases, pushed: seq<Event>, k: nat)
    requires Inv(s) && Pushes(s, ph, pushed) && k < |pushed|
    ensures !HasRow(All(s), pushed[k].id)
  {
    var e := pushed[k];
    PushedIsHandoffRow(s, ph, pushed, k);
    HandoffIdLength(e);
    forall x | x in All(s)
      ensures x.id != e.id
    {
      assert RowShaped(x);
      if x.id == e.id {
        assert HandoffRow(x);
        InUse(s, x);
        SameIdSameCited(x, e);
        CitedMembers(Read(s), FirstCited(x));
        assert false;
      }
    }
  }

  /** A handoff row of the log is read by every later handoff. */
  lemma InUse(s: State, x: Event)
    requires Inv(s) && x in All(s) && HandoffRow(x)
    ensures x in Read(s) && FirstCited(x) in EvidenceOf(x)
  {
    HandoffIdLength(x);
    assert x !in s.pending;
    PrunedFacts(s);
    ReadFacts(s);
  }

  lemma PushedNeedsNote(s: State, ph: Phrases, pushed: seq<Event>, k: nat)
    requires Inv(s) && Pushes(s, ph, pushed) && k < |pushed|
    ensures HasNote(Read(s))
  {
    var log := Read(s);
    assert (log + pushed)[|log| + k] == pushed[k];
    assert UncitedNote(log, FirstCited(pushed[k]), |log|);
  }

  lemma PushedIsUncited(s: State, ph: Phrases, pushed: seq<Event>, k: nat)
    requires Inv(s) && Pushes(s, ph, pushed) && k < |pushed|
    ensures FirstCited(pushed[k]) in Uncited(Read(s))
  {
    var log := Read(s);
    assert (log + pushed)[|log| + k] == pushed[k];
    assert UncitedNote(log, FirstCited(pushed[k]), |log|);
  }

  lemma PushedIsAdded(s: State, ph: Phrases, pushed: seq<Event>)
    requires Inv(s) && Pushes(s, ph, pushed)
    ensures HandoffRows(s, ph) == pushed
  {
    hide Inv, InBlocks, UncitedNote, HasNote;
    var log := Read(s);
    forall k | 0 <= k < |pushed|
      ensures pushed[k].id !in EventIds(log) && HasNote(log)
    {
      PushedIsUnused(s, ph, pushed, k);
      PushedNeedsNote(s, ph, pushed, k);
      ReadFacts(s);
    }
    WithoutConcat(log, pushed, EventIds(log));
    assert pushed == [] || HasNote(log) by {
      if pushed != [] {
        assert pushed[0].id !in EventIds(log);
      }
    }
  }

  /** What a handoff sets out to append is what its extraction pushed. */
  lemma HandoffPushes(s: State, ph: Phrases) returns (pushed: seq<Event>)
    requires Inv(s)
    ensures Pushes(s, ph, pushed) && HandoffRows(s, ph) == pushed
  {
    pushed := WhatIsPushed(s, ph);
    PushedIsAdded(s, ph, pushed);
  }

  lemma PassesAt(ph: Phrases, log: seq<Event>, i: nat)
    requires SortLog(log) == log && |log| <= i < |Extract(ph, log).log| && HandoffRow(Extract(ph, log).log[i])
    ensures GatePassed(Fold(Extract(ph, log).log[..i]), Extract(ph, log).log[i])
  {
    hide GatePassed, HandoffRow, OffCommands;
    AppendedRowsPassTheGate(ph, log, i);
    FindingIsItsSubject(ph, log, i);
    PlainClaimId(Extract(ph, log).log[i]);
  }

  lemma PushedPasses(s: State, ph: Phrases, pushed: seq<Event>, k: nat)
    requires Inv(s) && Pushes(s, ph, pushed) && k < |pushed|
    ensures GatePassed(Fold(Read(s) + pushed[..k]), pushed[k])
  {
    hide Inv, HandoffRow, GatePassed, InBlocks, Pushes, Extract, Fold;
    ReadFacts(s);
    PushedIsHandoffRow(s, ph, pushed, k);
    PushedPlace(s, ph, pushed, k);
    PassesAt(ph, Read(s), |Read(s)| + k);
  }

  lemma PushedPlace(s: State, ph: Phrases, pushed: seq<Event>, k: nat)
    requires Pushes(s, ph, pushed) && k < |pushed|
    ensures |Read(s)| + k < |Extract(ph, Read(s)).log| && Extract(ph, Read(s)).log[|Read(s)| + k] == pushed[k]
    ensures Extract(ph, Read(s)).log[..|Read(s)| + k] == Read(s) + pushed[..k]
  {
    hide Extract, InBlocks;
  }

  lemma DraftBody(d: Draft)
    requires Trim(d.text) != ""
    ensures DraftEvent(d).taskId != "" && HasClaimBody(DraftEvent(d))
  {
    TrimKeeps(d.text);
    assert TaskIdFor(d.taskSubject) == "t_" + JoinNul([d.taskSubject]);
  }

  lemma AdmittedText(ph: Phrases, d: Draft, view: View, seen: seq<SeenKey>, log: seq<Event>)
    requires Admit(ph, d, view, seen, log).Admitted?
    ensures Trim(d.text) != ""
  {
    assert EvidenceCheck(ph, d, log).None?;
  }

  lemma AdmittedBody(ph: Phrases, log: seq<Event>, row: Event)
    requires Admits(ph, log, row)
    ensures IsAuthored(row) && HasClaimBody(row.body.claim.value)
  {
    hide Admit, DraftEvent, WellDrafted;
    var d :| row == AssertRow(log, d) && WellDrafted(d) && Admit(ph, d, Fold(log), SeedSeen(ph, log), log).Admitted?;
    AdmittedText(ph, d, Fold(log), SeedSeen(ph, log), log);
    DraftBody(d);
  }

  /** A pushed claim names a task and says something. */
  lemma PushedBody(s: State, ph: Phrases, pushed: seq<Event>, k: nat)
    requires Inv(s) && Pushes(s, ph, pushed) && k < |pushed| && AssertsFor(FirstCited(pushed[k]), pushed[k])
    ensures IsAuthored(pushed[k]) && HasClaimBody(pushed[k].body.claim.value)
  {
    hide Inv, InBlocks, Admits;
    var i := |Read(s)| + k;
    ReadFacts(s);
    ExtractionIsJustified(ph, Read(s), |Read(s)|);
    assert Extracted(s, ph)[i] == pushed[k];
    assert JustifiedAt(ph, Extracted(s, ph), i);
    AdmittedBody(ph, Extracted(s, ph)[..i], pushed[k]);
  }

  lemma PlainClaimId(e: Event)
    requires HandoffRow(e)
    ensures e.body.claim.value.kind == Some(Reality) ==> NoNewline(e.body.claim.value.claimId)
  {
    var note, id := e.body.claim.value.evidenceIds[0], e.body.claim.value.claimId;
    if e.body.claim.value.op == Assert {
      assert id == note + id[|note|..];
    }
  }

  // ---------- the rows that get in ----------

  /** The rows that get in come first, and none of their ids is in the table or repeats. */
  lemma {:induction false} TakenFacts(table: seq<Event>, es: seq<Event>)
    ensures |Taken(table, es)| <= |es| && Taken(table, es) == es[..|Taken(table, es)|]
    ensures DistinctEvents(Taken(table, es))
    ensures forall e | e in Taken(table, es) :: !HasRow(table, e.id)
    ensures var j := |Taken(table, es)|;
      j < |es| ==> HasRow(table, es[j].id) || exists i | 0 <= i < j :: es[i].id == es[j].id
    decreases |es|
  {
    if es != [] && !HasRow(table, es[0].id) {
      var rest := Taken(InsertRow(table, es[0]), es[1..]);
      InsertMembers(table, es[0]);
      TakenFacts(InsertRow(table, es[0]), es[1..]);
      forall e | e in rest
        ensures !HasRow(table, e.id) && e.id != es[0].id
      {
        assert es[0] in InsertRow(table, es[0]);
        assert forall x | x in table :: x in InsertRow(table, es[0]);
      }
      var j := |rest|;
      if j < |es[1..]| {
        TakenStops(table, es, j);
      }
    }
  }

  lemma TakenStops(table: seq<Event>, es: seq<Event>, j: nat)
    requires es != [] && j < |es[1..]|
    requires HasRow(InsertRow(table, es[0]), es[1..][j].id) || exists i | 0 <= i < j :: es[1..][i].id == es[1..][j].id
    ensures HasRow(table, es[j + 1].id) || exists i | 0 <= i < j + 1 :: es[i].id == es[j + 1].id
  {
    if HasRow(InsertRow(table, es[0]), es[1..][j].id) {
      InsertMembers(table, es[0]);
      var x :| x in InsertRow(table, es[0]) && x.id == es[1..][j].id;
    } else {
      var i :| 0 <= i < j && es[1..][i].id == es[1..][j].id;
      assert es[i + 1].id == es[j + 1].id;
    }
  }

  lemma AllIsCoherent(s: State)
    requires Inv(s)
    ensures Coherent(Written(s), All(s))
  {
  }

  /** The first rows a handoff pushes may join whatever is written, as far as their ids differ. */
  lemma {:induction false} PushedJoin(s: State, ph: Phrases, pushed: seq<Event>, n: nat)
    requires Inv(s) && Pushes(s, ph, pushed) && n <= |pushed| && DistinctEvents(pushed[..n])
    ensures Coherent(Written(s) + pushed[..n], All(s) + pushed[..n])
    decreases n
  {
    hide Inv, Pushes, Coherent;
    if n == 0 {
      AllIsCoherent(s);
      assert All(s) + pushed[..0] == All(s) && Written(s) + pushed[..0] == Written(s);
    } else {
      assert pushed[..n - 1] == pushed[..n][..n - 1];
      PushedJoin(s, ph, pushed, n - 1);
      OneMoreJoins(s, ph, pushed, n - 1);
    }
  }

  lemma CoherentGrows(written: seq<Event>, more: seq<Event>, rows: seq<Event>)
    requires Coherent(written, rows) && Covers(more, written)
    ensures Coherent(more, rows)
  {
    MadeGrows(written, more, rows);
  }

  lemma OneMoreJoins(s: State, ph: Phrases, pushed: seq<Event>, n: nat)
    requires Inv(s) && Pushes(s, ph, pushed) && n < |pushed| && DistinctEvents(pushed[..n + 1])
    requires Coherent(Written(s) + pushed[..n], All(s) + pushed[..n])
    ensures Coherent(Written(s) + pushed[..n + 1], All(s) + pushed[..n + 1])
  {
    hide Inv, Pushes, Coherent, GatePassed, HandoffRow, MintedRow, Extract, Fold;
    var e, written, known := pushed[n], Written(s) + pushed[..n], All(s) + pushed[..n];
    PushedPasses(s, ph, pushed, n);
    ReadFacts(s);
    FoldIsSourced(Read(s) + pushed[..n], written);
    NewAmong(s, ph, pushed, n);
    AuthoredJoins(written, known, Fold(Read(s) + pushed[..n]), e);
    assert pushed[..n + 1] == pushed[..n] + [e];
    assert known + [e] == All(s) + pushed[..n + 1];
    CoherentGrows(written, Written(s) + pushed[..n + 1], known + [e]);
  }

  lemma NewAmong(s: State, ph: Phrases, pushed: seq<Event>, n: nat)
    requires Inv(s) && Pushes(s, ph, pushed) && n < |pushed| && DistinctEvents(pushed[..n + 1])
    ensures !HasRow(All(s) + pushed[..n], pushed[n].id) && RowShaped(pushed[n])
  {
    hide Inv, Pushes;
    PushedIsHandoffRow(s, ph, pushed, n);
    PushedIsUnused(s, ph, pushed, n);
    forall x | x in All(s) + pushed[..n]
      ensures x.id != pushed[n].id
    {
      if x in pushed[..n] {
        var i :| 0 <= i < n && pushed[..n][i] == x;
        assert pushed[..n + 1][i] == x && pushed[..n + 1][n] == pushed[n];
      }
    }
  }

  // ---------- a handoff that is cut off ----------

  lemma LastSource(log: seq<Event>, e: Event)
    requires InOrder(log) && DistinctEvents(log) && !HasRow(log, e.id) && IsFoldSource(e)
    requires forall x | x in log && IsFoldSource(x) :: x.at < e.at
    ensures FoldSources(InsertRow(log, e)) == FoldSources(log) + [e]
    ensures Fold(InsertRow(log, e)) == Fold(FoldSources(log) + [e])
  {
    SourcesFacts(log);
    InsertKeeps(log, e);
    InsertMembers(log, e);
    SourcesFacts(InsertRow(log, e));
    forall i | 0 <= i < |FoldSources(log)|
      ensures Before(FoldSources(log)[i], e)
    {
      assert FoldSources(log)[i] in FoldSources(log);
    }
    OrderedIsUnique(FoldSources(InsertRow(log, e)), FoldSources(log) + [e]);
    FoldOfSources(InsertRow(log, e));
  }

  /** A claim asserted later than anything else the fold reads is current. */
  lemma LatestClaimStands(log: seq<Event>, e: Event)
    requires InOrder(log) && DistinctEvents(log) && !HasRow(log, e.id) && Gated(InsertRow(log, e))
    requires IsAuthored(e) && e.body.claim.value.op == Assert && HasClaimBody(e.body.claim.value)
    requires forall x | x in log && IsFoldSource(x) :: x.at < e.at
    ensures exists c :: c in Live(Fold(InsertRow(log, e)).claims) && c.id == e.body.claim.value.claimId
  {
    hide Fold, Live, Gated, InsertRow, FoldSources;
    LastSource(log, e);
    SourcesGated(InsertRow(log, e));
    LastClaimIsCurrent(FoldSources(log), e);
  }

  lemma SourcesGated(log: seq<Event>)
    requires Gated(log)
    ensures Gated(FoldSources(log))
  {
    SourcesFacts(log);
    SameRows(log, FoldSources(log));
  }

  lemma LastClaimIsCurrent(before: seq<Event>, e: Event)
    requires Gated(before + [e])
    requires IsAuthored(e) && e.body.claim.value.op == Assert && HasClaimBody(e.body.claim.value)
    ensures exists c :: c in Live(Fold(before + [e]).claims) && c.id == e.body.claim.value.claimId
  {
    hide Fold, Gated;
    GatedFold(before + [e]);
    FoldPush(before, e);
    var c := Bare(AuthoredClaim(e.body.claim.value, e, None));
    var current := StepLive(CurrentClaims(before), e);
    assert current[|current| - 1] == c;
  }

  lemma TimedIsLater(log: seq<Event>, after: seq<Event>, i: nat, x: Event)
    requires Timed(log, after) && |log| <= i < |after| && MaxAt(after) <= I64_MAX && x in after[..i]
    ensures x.at < after[i].at
  {
    MaxBounds(after);
    MaxBounds(after[..i]);
    assert after[i] in after;
  }

  lemma PushedIsLater(s: State, ph: Phrases, pushed: seq<Event>, k: nat, x: Event)
    requires Inv(s) && Pushes(s, ph, pushed) && k < |pushed| && InTime(s, ph)
    requires x in Read(s) + pushed[..k]
    ensures x.at < pushed[k].at
  {
    hide Inv, InBlocks, Timed, Extract, InOrder;
    ReadFacts(s);
    ExtractIsTimed(ph, Read(s));
    var after := Read(s) + pushed;
    assert after[|Read(s)| + k] == pushed[k] && after[..|Read(s)| + k] == Read(s) + pushed[..k];
    TimedIsLater(Read(s), after, |Read(s)| + k, x);
  }

  /** The rows that got in before `k`, and the row at `k`. */
  lemma TakenOneByOne(s: State, pushed: seq<Event>, k: nat)
    requires k < |pushed|
    ensures InsertRows(s.table, pushed[..k + 1]) == InsertRow(InsertRows(s.table, pushed[..k]), pushed[k])
  {
    InsertRowsConcat(s.table, pushed[..k], [pushed[k]]);
    assert pushed[..k + 1] == pushed[..k] + [pushed[k]];
    assert InsertRows(InsertRow(InsertRows(s.table, pushed[..k]), pushed[k]), []) == InsertRow(InsertRows(s.table, pushed[..k]), pushed[k]);
  }
}
