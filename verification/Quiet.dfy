/** A second extraction pass over the result of the first appends nothing, unless a note
    retracts or updates. */
module Quiet {
  import opened Text
  import opened Claims
  import opened Projector
  import opened GatedLog
  import opened Trust
  import opened EventTable
  import opened Handoff
  import opened Admission
  import opened Convergence
  import opened Extraction
  import opened Appended

  /** The note neither retracts nor updates. */
  predicate OnlyQuotes(ph: Phrases, note: Event)
    requires note.body.Note?
  {
    !IsRetract(ph, note) && note.body.role != "update"
  }

  predicate QuotingLog(ph: Phrases, log: seq<Event>) {
    forall e | e in log && e.body.Note? :: OnlyQuotes(ph, e)
  }

  // ---------- what a note reads is in the log the pass started from ----------

  lemma {:induction false} LatestCodeGrows(a: seq<Event>, b: seq<Event>, session: string, command: string)
    requires Grown(a, b)
    ensures LatestCode(b, session, command) == LatestCode(a, session, command)
    decreases |b|
  {
    if |b| == |a| {
      assert a == b;
    } else {
      assert Grown(a, b[..|b| - 1]);
      LatestCodeGrows(a, b[..|b| - 1], session, command);
    }
  }

  lemma {:induction false} FirstFailingAgrees(a: seq<Event>, b: seq<Event>, rows: seq<Event>, session: string)
    requires Grown(a, b)
    ensures FirstFailing(b, rows, session) == FirstFailing(a, rows, session)
  {
    if rows != [] {
      FirstFailingAgrees(a, b, rows[1..], session);
      if rows[0].body.Shell? {
        LatestCodeGrows(a, b, session, Collapse(rows[0].body.command));
      }
    }
  }

  lemma {:induction false} FirstFailingPrefix(log: seq<Event>, rows: seq<Event>, more: seq<Event>, session: string)
    requires forall e | e in more :: e.body.Authored?
    ensures FirstFailing(log, rows + more, session) == FirstFailing(log, rows, session)
  {
    if rows != [] {
      assert (rows + more)[1..] == rows[1..] + more;
      FirstFailingPrefix(log, rows[1..], more, session);
    } else {
      assert rows + more == more;
      if more != [] {
        assert more[0] in more && forall e | e in more[1..] :: e in more;
        FirstFailingPrefix(log, [], more[1..], session);
        assert [] + more[1..] == more[1..];
      }
    }
  }

  lemma NoteTaskGrows(a: seq<Event>, b: seq<Event>, note: Event)
    requires Grown(a, b) && note.body.Note?
    ensures NoteTask(b, note) == NoteTask(a, note)
  {
    FirstFailingAgrees(a, b, b, note.body.session);
    assert b == a + b[|a|..];
    FirstFailingPrefix(a, a, b[|a|..], note.body.session);
  }

  lemma SupportGrows(a: seq<Event>, b: seq<Event>, note: Event, index: nat)
    requires Grown(a, b) && note.body.Note? && index < |a|
    ensures SupportOf(b, note, index) == SupportOf(a, note, index)
  {
    FindRowGrows(a, b, note.body.supportId);
    if index > 0 {
      assert b[..|a|][index - 1] == a[index - 1];
    }
  }

  /** Drafts cite rows of the log only. */
  predicate CitesLog(log: seq<Event>, ds: seq<Draft>) {
    forall d | d in ds :: AllFound(log, d.evidenceIds)
  }

  lemma RowFound(log: seq<Event>, e: Event)
    requires e in log
    ensures FindRow(log, e.id).Some?
  {
    var i :| 0 <= i < |log| && log[i] == e;
  }

  lemma SupportFound(log: seq<Event>, note: Event, index: nat)
    requires note.body.Note? && index < |log|
    ensures var s := SupportOf(log, note, index); s.Some? ==> FindRow(log, s.value.id).Some?
  {
    var s := SupportOf(log, note, index);
    if s.Some? {
      FoundRow(log, note.body.supportId);
      assert s.value in log;
      RowFound(log, s.value);
    }
  }

  lemma DraftCitesLog(log: seq<Event>, note: Event, s: Speech, support: Option<Event>, task: string)
    requires note.body.Note? && FindRow(log, note.id).Some?
    requires support.Some? ==> FindRow(log, support.value.id).Some?
    ensures AllFound(log, DraftOf(note, s, support, task).evidenceIds)
  {
  }

  lemma NoteDraftsCiteLog(ph: Phrases, log: seq<Event>, note: Event, index: nat, task: Event)
    requires note.body.Note? && index < |log| && log[index] == note
    ensures CitesLog(log, NoteDrafts(ph, log, note, index, task))
  {
    var support := SupportOf(log, note, index);
    var ss := ph.drafted(note, Trim(note.body.text), support);
    DraftsCite(note, ss, support, TaskFor(task));
    SupportFound(log, note, index);
    RowFound(log, note);
    forall d | d in DraftsOf(note, ss, support, TaskFor(task))
      ensures AllFound(log, d.evidenceIds)
    {
      var i :| 0 <= i < |ss| && d == DraftOf(note, ss[i], support, TaskFor(task));
      DraftCitesLog(log, note, ss[i], support, TaskFor(task));
    }
  }

  // ---------- a note that pushed nothing pushes nothing later ----------

  /** The pass leaves log and seen keys alone. */
  predicate Still(p: Pass, q: Pass) {
    q.log == p.log && q.seen == p.seen
  }

  /** The local checks of a draft, or admission, turn it away. */
  predicate TurnedAway(ph: Phrases, p: Pass, d: Draft) {
    !Contains(d.sourceText, d.text) || d.text == "" || |d.text| > MAX_TEXT
    || (d.act.AsReality? && Overlap(ph, d.text, if d.supportText.Some? then d.supportText.value else "") < MIN_OVERLAP)
    || Admit(ph, d, Fold(p.log), p.seen, p.log).Rejected?
  }

  lemma QuoteStillIff(ph: Phrases, p: Pass, note: Event, d: Draft)
    ensures TurnedAway(ph, p, d) ==> Still(p, QuoteDraft(ph, p, note, d))
    ensures !TurnedAway(ph, p, d) ==> |QuoteDraft(ph, p, note, d).log| > |p.log|
  {
  }

  predicate AllTurnedAway(ph: Phrases, p: Pass, ds: seq<Draft>) {
    forall i | 0 <= i < |ds| :: TurnedAway(ph, p, ds[i])
  }

  lemma {:induction false} TurnedAwayIsStill(ph: Phrases, p: Pass, note: Event, ds: seq<Draft>)
    requires AllTurnedAway(ph, p, ds)
    ensures Still(p, QuoteDrafts(ph, p, note, ds))
    decreases |ds|
  {
    if ds != [] {
      var q := QuoteDraft(ph, p, note, ds[0]);
      QuoteStillIff(ph, p, note, ds[0]);
      SameTurns(ph, p, q, ds[1..]);
      TurnedAwayIsStill(ph, q, note, ds[1..]);
    }
  }

  lemma {:induction false} StillIsTurnedAway(ph: Phrases, p: Pass, note: Event, ds: seq<Draft>)
    requires DraftedFrom(ds, note.id) && QuoteDrafts(ph, p, note, ds).log == p.log
    ensures AllTurnedAway(ph, p, ds)
    decreases |ds|
  {
    if ds != [] {
      var q := QuoteDraft(ph, p, note, ds[0]);
      QuoteStillIff(ph, p, note, ds[0]);
      QuoteDraftsGrow(ph, q, note, ds[1..]);
      StillIsTurnedAway(ph, q, note, ds[1..]);
      SameTurns(ph, p, q, ds[1..]);
    }
  }

  lemma SameTurns(ph: Phrases, p: Pass, q: Pass, ds: seq<Draft>)
    requires Still(p, q)
    ensures AllTurnedAway(ph, p, ds) <==> AllTurnedAway(ph, q, ds)
  {
  }

  /** `q` continues `p`: claim rows were pushed and keys were added. */
  predicate Later(p: Pass, q: Pass) {
    Grown(p.log, q.log) && forall k | k in p.seen :: k in q.seen
  }

  lemma TurnedAwayLater(ph: Phrases, p: Pass, q: Pass, d: Draft)
    requires Later(p, q) && AllFound(p.log, d.evidenceIds) && TurnedAway(ph, p, d)
    requires NoUserNextAction(p.log) && NoUserNextAction(q.log)
    ensures TurnedAway(ph, q, d)
  {
    AdmitGrows(ph, d, p.log, q.log, p.seen);
    SeenGrows(ph, d, Fold(q.log), q.log, p.seen, q.seen);
  }

  lemma QuoteNoteStaysStill(ph: Phrases, p: Pass, q: Pass, note: Event, index: nat)
    requires Later(p, q) && NoUserNextAction(p.log) && NoUserNextAction(q.log)
    requires index < |p.log| && p.log[index] == note && note.body.Note?
    requires QuoteNote(ph, p, note, index).log == p.log
    ensures Still(q, QuoteNote(ph, q, note, index))
  {
    NoteTaskGrows(p.log, q.log, note);
    SupportGrows(p.log, q.log, note, index);
    var task := NoteTask(p.log, note);
    if task.Some? {
      var ds := NoteDrafts(ph, p.log, note, index, task.value);
      assert NoteDrafts(ph, q.log, note, index, task.value) == ds;
      if ds != [] {
        DraftsStayStill(ph, p, q, note, index, task.value, ds);
      }
    }
  }

  lemma DraftsStayStill(ph: Phrases, p: Pass, q: Pass, note: Event, index: nat, task: Event, ds: seq<Draft>)
    requires Later(p, q) && NoUserNextAction(p.log) && NoUserNextAction(q.log)
    requires index < |p.log| && p.log[index] == note && note.body.Note?
    requires ds == NoteDrafts(ph, p.log, note, index, task) && QuoteDrafts(ph, p, note, ds).log == p.log
    ensures Still(q, QuoteDrafts(ph, q, note, ds))
  {
    NoteDraftsCiteLog(ph, p.log, note, index, task);
    var support := SupportOf(p.log, note, index);
    DraftsCite(note, ph.drafted(note, Trim(note.body.text), support), support, TaskFor(task));
    StillIsTurnedAway(ph, p, note, ds);
    forall i | 0 <= i < |ds|
      ensures TurnedAway(ph, q, ds[i])
    {
      TurnedAwayLater(ph, p, q, ds[i]);
    }
    TurnedAwayIsStill(ph, q, note, ds);
  }

  // ---------- the second pass ----------

  lemma {:induction false} SeenIncludes(ph: Phrases, a: seq<Event>, b: seq<Event>)
    requires Grown(a, b)
    ensures forall k | k in SeedSeen(ph, a) :: k in SeedSeen(ph, b)
    decreases |b|
  {
    if |b| > |a| {
      assert Grown(a, b[..|b| - 1]);
      SeenIncludes(ph, a, b[..|b| - 1]);
    } else {
      assert a == b;
    }
  }

  lemma JustifiedKeepsNoUser(ph: Phrases, a: seq<Event>, b: seq<Event>)
    requires Justified(ph, a, b) && NoUserNextAction(a)
    ensures NoUserNextAction(b)
  {
    forall e | e in b && WrittenBy(e, User) && Asserts(e.body.claim.value)
      ensures e.body.claim.value.kind != Some(NextAction)
    {
      var i :| 0 <= i < |b| && b[i] == e;
      if i < |a| {
        assert b[..|a|][i] == a[i];
      } else {
        assert JustifiedAt(ph, b, i);
      }
    }
  }

  lemma OneRowGrows(ph: Phrases, log: seq<Event>, n: nat)
    requires 0 < n <= |log|
    ensures GrownBy(log[n - 1].id, ExtractUpTo(ph, log, n - 1).log, ExtractUpTo(ph, log, n).log)
  {
    var before := ExtractUpTo(ph, log, n - 1);
    NoteStepGrows(ph, before, CitedNotes(log), n - 1);
    assert before.log[n - 1] == before.log[..|log|][n - 1];
  }

  lemma {:induction false} ChainGrows(logs: seq<seq<Event>>, k: nat, n: nat)
    requires k <= n < |logs| && forall i | 0 <= i < |logs| - 1 :: Grown(logs[i], logs[i + 1])
    ensures Grown(logs[k], logs[n])
    decreases n
  {
    if k < n {
      ChainGrows(logs, k, n - 1);
      assert Grown(logs[n - 1], logs[n - 1 + 1]);
      GrownTransitive("", logs[k], logs[n - 1], logs[n]);
    }
  }

  lemma PassesGrow(ph: Phrases, log: seq<Event>, k: nat, n: nat)
    requires k <= n <= |log|
    ensures Grown(ExtractUpTo(ph, log, k).log, ExtractUpTo(ph, log, n).log)
  {
    var logs := seq(|log| + 1, i requires 0 <= i <= |log| => ExtractUpTo(ph, log, i).log);
    forall i | 0 <= i < |logs| - 1
      ensures Grown(logs[i], logs[i + 1])
    {
      OneRowGrows(ph, log, i + 1);
    }
    ChainGrows(logs, k, n);
  }

  lemma PushedIsCited(id: string, a: seq<Event>, b: seq<Event>)
    requires GrownBy(id, a, b) && a != b
    ensures id in CitedNotes(b)
  {
    CitedGrows(a, b);
    assert |b| > |a| by {
      assert b == a + b[|a|..];
    }
    assert id in EvidenceOf(b[|a|]);
  }

  /** A note the first pass left uncited pushed no row when its turn came. */
  lemma UncitedPushedNothing(ph: Phrases, log: seq<Event>, index: nat)
    requires index < |log|
    requires var after := ExtractUpTo(ph, log, |log|).log; log[index].id !in CitedNotes(after)
    ensures ExtractUpTo(ph, log, index + 1).log == ExtractUpTo(ph, log, index).log
  {
    hide NextPass;
    var p, q, after := ExtractUpTo(ph, log, index), ExtractUpTo(ph, log, index + 1), ExtractUpTo(ph, log, |log|).log;
    OneRowGrows(ph, log, index + 1);
    PassesGrow(ph, log, index + 1, |log|);
    CitedGrows(q.log, after);
    if q.log != p.log {
      PushedIsCited(log[index].id, p.log, q.log);
    }
  }

  lemma QuietStep(ph: Phrases, log: seq<Event>, index: nat, q: Pass)
    requires index < |log| && QuotingLog(ph, log) && NoUserNextAction(log)
    requires var after := ExtractUpTo(ph, log, |log|);
      q.log == after.log && q.seen == SeedSeen(ph, after.log)
    ensures Still(q, NoteStep(ph, q, CitedNotes(q.log), index))
  {
    var p, note := ExtractUpTo(ph, log, index), log[index];
    assert q.log[index] == q.log[..|log|][index] == note;
    if note.body.Note? && note.id !in CitedNotes(q.log) && Trim(note.body.text) != "" {
      assert note in log;
      assert OnlyQuotes(ph, note);
      assert p.log[index] == p.log[..|log|][index] == note;
      QuietFacts(ph, log, index, q);
      QuoteNoteStaysStill(ph, p, q, note, index);
    }
  }

  lemma QuietFacts(ph: Phrases, log: seq<Event>, index: nat, q: Pass)
    requires index < |log| && QuotingLog(ph, log) && NoUserNextAction(log)
    requires var after := ExtractUpTo(ph, log, |log|);
      q.log == after.log && q.seen == SeedSeen(ph, after.log)
    requires log[index].body.Note? && log[index].id !in CitedNotes(q.log) && Trim(log[index].body.text) != ""
    ensures var p := ExtractUpTo(ph, log, index);
      && Later(p, q) && NoUserNextAction(p.log) && NoUserNextAction(q.log)
      && QuoteNote(ph, p, log[index], index).log == p.log
  {
    var p := ExtractUpTo(ph, log, index);
    ExtractionIsJustified(ph, log, index);
    ExtractionIsJustified(ph, log, |log|);
    JustifiedKeepsNoUser(ph, log, p.log);
    JustifiedKeepsNoUser(ph, log, q.log);
    PassesGrow(ph, log, index, |log|);
    SeenIncludes(ph, p.log, q.log);
    UncitedPushedNothing(ph, log, index);
    CitedGrows(log, q.log);
    assert p.log[index] == p.log[..|log|][index] == log[index] && log[index] in log;
  }

  lemma SecondStep(ph: Phrases, log: seq<Event>, after: seq<Event>, index: nat, p: Pass, q: Pass)
    requires QuotingLog(ph, log) && NoUserNextAction(log) && after == ExtractUpTo(ph, log, |log|).log
    requires index < |after| && p.log == after && p.seen == SeedSeen(ph, after)
    requires Grown(after, p.log) && UsesNotes(after, p.log) && q == NextPass(ph, after, p, index)
    ensures Still(p, q)
  {
    if index < |log| {
      hide NoteStep, ExtractUpTo, NextPass, SeedSeen;
      QuietStep(ph, log, index, p);
      NextIsStep(ph, after, p, index);
    } else {
      hide SeedSeen;
      assert !after[index].body.Note?;
    }
  }

  lemma NextIsStep(ph: Phrases, log: seq<Event>, p: Pass, index: nat)
    requires index < |log| && Grown(log, p.log) && UsesNotes(log, p.log)
    ensures NextPass(ph, log, p, index) == NoteStep(ph, p, CitedNotes(log), index)
  {
  }

  lemma {:induction false} SecondIsStill(ph: Phrases, log: seq<Event>, after: seq<Event>, n: nat)
    requires QuotingLog(ph, log) && NoUserNextAction(log)
    requires after == ExtractUpTo(ph, log, |log|).log && n <= |after|
    ensures Still(Pass(after, SeedSeen(ph, after), Report([], [], [])), ExtractUpTo(ph, after, n))
  {
    hide NextPass;
    if n > 0 {
      SecondIsStill(ph, log, after, n - 1);
      SecondStep(ph, log, after, n - 1, ExtractUpTo(ph, after, n - 1), ExtractUpTo(ph, after, n));
    }
  }

  /** With no retract or update notes, a second handoff over the result appends nothing. */
  lemma SecondRunIsQuiet(ph: Phrases, log: seq<Event>)
    requires DistinctEvents(log) && NoUserNextAction(log) && QuotingLog(ph, log)
    requires MaxAt(Extract(ph, log).log) < U64_MAX
    ensures Extract(ph, Extract(ph, log).log).log == Extract(ph, log).log
  {
    var s, after := SortLog(log), Extract(ph, log).log;
    SortKeepsRows(log);
    ResultIsSorted(ph, log);
    SecondIsStill(ph, s, after, |after|);
  }
}
