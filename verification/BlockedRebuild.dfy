/** When a rebuild is blocked: exactly when two rows assert one claim id, and how a client that
    names a note like a daemon's claim gets there. */
module BlockedRebuild {
  import opened Text
  import opened Claims
  import opened Projector
  import opened CurrentView
  import opened GatedLog
  import opened FoldLaws
  import opened Trust
  import opened Compaction
  import opened Daemon
  import opened EventTable
  import opened Handoff
  import opened Admission
  import opened Appended
  import opened PushedRows
  import opened RowIds
  import opened Drafting
  import opened Store
  import opened Persistence

  // ---------- the exact condition ----------

  /** Two rows of the log assert the claim id. */
  predicate AssertedTwice(log: seq<Event>, id: string) {
    exists i, j | 0 <= i < j < |log| :: AddsClaim(log[i], id) && AddsClaim(log[j], id)
  }

  /** Runs are named like ULIDs, and no authored claim carries a run's digest for its id. */
  predicate DigestsApart(log: seq<Event>) {
    && (forall e | e in log && IsRun(e) :: |e.id| == 26)
    && forall e, k | e in log && k in log && IsRun(e) && !IsRun(k) :: NewIds(e) !! NewIds(k)
  }

  lemma RunsApart(a: Event, b: Event)
    requires IsRun(a) && IsRun(b) && |a.id| == |b.id| == 26 && a.id != b.id
    ensures NewIds(a) !! NewIds(b)
  {
    hide HashedId;
    RunIdEnds(a, ReadRun(a).subject);
    RunIdEnds(a, FRONTIER_SUBJECT);
    RunIdEnds(b, ReadRun(b).subject);
    RunIdEnds(b, FRONTIER_SUBJECT);
  }

  lemma OnceUnlessTwice(log: seq<Event>, i: nat, j: nat)
    requires DistinctEvents(log) && DigestsApart(log) && i < j < |log| && forall id :: !AssertedTwice(log, id)
    ensures NewIds(log[i]) !! NewIds(log[j])
  {
    if IsRun(log[i]) && IsRun(log[j]) {
      RunsApart(log[i], log[j]);
    } else if !IsRun(log[i]) && !IsRun(log[j]) {
      forall id | id in NewIds(log[i]) && id in NewIds(log[j])
        ensures false
      {
        assert AssertedTwice(log, id);
      }
    }
  }

  /** A rebuild goes through exactly when no two rows assert one claim id. */
  lemma StorableIffAssertedOnce(log: seq<Event>)
    requires DistinctEvents(log) && DigestsApart(log)
    ensures Storable(Fold(log)) <==> forall id :: !AssertedTwice(log, id)
  {
    hide Storable, Fold;
    if id :| AssertedTwice(log, id) {
      var i, j :| 0 <= i < j < |log| && AddsClaim(log[i], id) && AddsClaim(log[j], id);
      RepeatedIdBlocksRebuild(log, i, j, id);
    } else {
      forall i, j | 0 <= i < j < |log|
        ensures NewIds(log[i]) !! NewIds(log[j])
      {
        OnceUnlessTwice(log, i, j);
      }
      RebuildSucceeds(log);
    }
  }

  // ---------- one claim id, two rows ----------

  lemma FirstSentenceAdds(log: seq<Event>, j: nat, note: Event, s: Speech, support: Option<Event>, task: string)
    requires j < |log| && note.body.Note? && s.index == 0 && Trim(s.sentence) != ""
    requires log[j].body == Authored(Some(DraftEvent(DraftOf(note, s, support, task))))
    ensures AddsClaim(log[j], note.id)
  {
    assert DraftOf(note, s, support, task).claimId == note.id + "" == note.id;
    TrimKeeps(s.sentence);
    TrimKeeps(Trim(s.sentence));
    assert TaskIdFor(task) == "t_" + JoinNul([task]);
  }

  /** A note that a client named like the claim of a daemon's row: its first sentence asserts
      that claim id again under a row id of its own, which the primary key accepts, and no
      later rebuild succeeds. */
  lemma ChosenNoteIdBlocksRebuild(log: seq<Event>, i: nat, j: nat, note: Event, s: Speech, support: Option<Event>, task: string)
    requires i < |log| && j < |log| && AddsClaim(log[i], ClaimIdOf(log[i].id))
    requires note.body.Note? && note.id == ClaimIdOf(log[i].id) && s.index == 0 && Trim(s.sentence) != ""
    requires log[j].id == "c2_" + note.id && log[j].body == Authored(Some(DraftEvent(DraftOf(note, s, support, task))))
    ensures log[i].id != log[j].id && !Storable(Fold(log))
  {
    hide Fold, Storable, AddsClaim, DraftOf;
    FirstSentenceAdds(log, j, note, s, support, task);
    assert |log[j].id| == |log[i].id| + 5;
    if i < j {
      RepeatedIdBlocksRebuild(log, i, j, note.id);
    } else {
      RepeatedIdBlocksRebuild(log, j, i, note.id);
    }
  }

  // ---------- how it comes about ----------

  /** A failing command, a claim the daemon wrote, and a note that a client named after that
      claim. The one sentence drafted of the note is a constraint; the claim is none. */
  predicate NamedAfterClaim(ph: Phrases, log: seq<Event>, e: Event, d: Event, note: Event, s: Speech) {
    && log == [e, d, note] && e.at < d.at < note.at <= 1_000_000_000_000_000
    && IsRun(e) && e.body.exitCode.value != 0 && Trim(e.body.cwd) != "" && UlidShaped(e.id)
    && UlidShaped(d.id) && d.id != e.id && AddsClaim(d, ClaimIdOf(d.id)) && d.body.claim.value.kind != Some(Constraint)
    && note.id == ClaimIdOf(d.id) && note.id !in EvidenceOf(d)
    && note.body.Note? && note.body.session == e.body.session && note.body.role == "" && note.body.supportId == ""
    && Trim(note.body.text) != "" && !ph.asksRetract(Trim(note.body.text))
    && ph.drafted(note, Trim(note.body.text), None) == [s] && s.act == AsConstraint && s.index == 0
    && 1 <= |Trim(s.sentence)| <= MAX_CLAIM_TEXT && Contains(note.body.text, Trim(s.sentence))
  }

  lemma NamedIds(ph: Phrases, log: seq<Event>, e: Event, d: Event, note: Event, s: Speech)
    requires NamedAfterClaim(ph, log, e, d, note, s)
    ensures |e.id| == |d.id| == 26 && |note.id| == 28 && e.id != d.id
    ensures DistinctEvents(log) && InOrder(log) && SortLog(log) == log && FindRow(log, note.id) == Some(note)
  {
    assert InOrder(log);
    SortedStays(log);
    RowIndexIs(log, note.id, 2);
  }

  /** The three rows, read from the end. */
  lemma NamedPrefixes(log: seq<Event>, e: Event, d: Event, note: Event)
    requires log == [e, d, note]
    ensures log[..2] == [e, d] && [e, d][..1] == [e] && [e][..0] == []
  {
  }

  lemma NamedReading(ph: Phrases, log: seq<Event>, e: Event, d: Event, note: Event, s: Speech)
    requires NamedAfterClaim(ph, log, e, d, note, s)
    ensures NoteTask(log, note) == Some(e) && SupportOf(log, note, 2) == None
    ensures note.id !in CitedNotes(log) && forall k | k in SeedSeen(ph, log) :: k.0 != Constraint
  {
    NamedPrefixes(log, e, d, note);
    var session, command := e.body.session, Collapse(e.body.command);
    assert LatestCode([e], session, command) == e.body.exitCode;
    assert LatestCode([e, d], session, command) == e.body.exitCode;
    assert EvidenceOf(e) == {} && EvidenceOf(note) == {} && CitedNotes([]) == {};
    assert CitedNotes([e]) == {};
    assert CitedNotes([e, d]) == CitedNotes([e]) + EvidenceOf(d);
    assert SeedSeen(ph, [e]) == [];
  }

  lemma NamedFails(ph: Phrases, log: seq<Event>, e: Event, d: Event, note: Event, s: Speech)
    requires NamedAfterClaim(ph, log, e, d, note, s)
    ensures TaskFor(e) in FailingSubjects(log) && Trim(TaskFor(e)) == TaskFor(e) && TaskFor(e) != ""
  {
    NamedPrefixes(log, e, d, note);
    GateSubjectShape(e);
    SubjectTrims(e.body.cwd, e.body.command);
    assert LatestExit([e]) == map[][TaskFor(e) := e.body.exitCode.value];
    assert LatestExit([e, d]) == LatestExit([e]);
  }

  function NamedDraft(note: Event, s: Speech, e: Event): Draft
    requires note.body.Note?
  {
    DraftOf(note, s, None, TaskFor(e))
  }

  lemma NamedDraftFields(note: Event, s: Speech, e: Event)
    requires note.body.Note? && s.index == 0 && s.act == AsConstraint
    ensures NamedDraft(note, s, e) == Draft(note.id, AsConstraint, Trim(s.sentence), [note.id], note.body.text, None, TaskFor(e))
    ensures Trim(Trim(s.sentence)) == Trim(s.sentence)
  {
    TrimKeeps(s.sentence);
    assert note.id + "" == note.id && [note.id] + [] == [note.id];
  }

  lemma ConstraintPasses(ph: Phrases, d: Draft, view: View, seen: seq<SeenKey>, log: seq<Event>)
    requires d.act.AsConstraint? && 1 <= |Trim(d.text)| <= MAX_CLAIM_TEXT && EvidenceCheck(ph, d, log).None?
    requires forall k | k in seen :: k.0 != Constraint
    ensures Admit(ph, d, view, seen, log).Admitted?
  {
    hide EvidenceCheck, GateCheck;
    ConstraintGate(d, view);
  }

  lemma ConstraintGate(d: Draft, view: View)
    requires d.act.AsConstraint? && 1 <= |Trim(d.text)| <= MAX_CLAIM_TEXT
    ensures GateCheck(d, view).None?
  {
    TrimKeeps(d.text);
  }

  lemma NamedIsAdmitted(ph: Phrases, log: seq<Event>, e: Event, d: Event, note: Event, s: Speech, seen: seq<SeenKey>)
    requires NamedAfterClaim(ph, log, e, d, note, s) && seen == SeedSeen(ph, log)
    ensures Admit(ph, NamedDraft(note, s, e), Fold(log), seen, log).Admitted?
  {
    hide Fold, FailingSubjects, FindRow, NamedDraft, TaskFor, Admit, SeedSeen;
    NamedIds(ph, log, e, d, note, s);
    NamedReading(ph, log, e, d, note, s);
    NamedFails(ph, log, e, d, note, s);
    NamedDraftFields(note, s, e);
    ConstraintPasses(ph, NamedDraft(note, s, e), Fold(log), seen, log);
  }

  lemma OneDraft(ph: Phrases, p: Pass, note: Event, d: Draft)
    requires Contains(d.sourceText, d.text) && 1 <= |d.text| <= MAX_TEXT && !d.act.AsReality?
    requires Admit(ph, d, Fold(p.log), p.seen, p.log).Admitted?
    ensures QuoteDrafts(ph, p, note, [d]).log == PushRow(p.log, DraftEvent(d), "c2_" + d.claimId)
  {
    hide EvidenceCheck, SupportCheck, GateCheck, Fold;
    AdmittedFound(ph, d, Fold(p.log), p.seen, p.log);
    assert QuoteDrafts(ph, p, note, [d]) == QuoteDrafts(ph, QuoteDraft(ph, p, note, d), note, []);
  }

  lemma ThreeSteps(ph: Phrases, log: seq<Event>, e: Event, d: Event, note: Event)
    requires log == [e, d, note] && SortLog(log) == log && !e.body.Note? && !d.body.Note?
    ensures var start := Pass(log, SeedSeen(ph, log), Report([], [], []));
      Extract(ph, log) == NoteStep(ph, start, CitedNotes(log), 2)
  {
    hide SeedSeen, CitedNotes;
    var start := ExtractUpTo(ph, log, 0);
    assert ExtractUpTo(ph, log, 1) == NoteStep(ph, start, CitedNotes(log), 0) == start;
    assert ExtractUpTo(ph, log, 2) == NoteStep(ph, start, CitedNotes(log), 1) == start;
  }

  /** The handoff over that log pushes one row, asserting the daemon's claim id again. */
  lemma NamedIsPushed(ph: Phrases, log: seq<Event>, e: Event, d: Event, note: Event, s: Speech)
    requires NamedAfterClaim(ph, log, e, d, note, s)
    ensures Extract(ph, log).log == PushRow(log, DraftEvent(NamedDraft(note, s, e)), "c2_" + note.id)
  {
    hide Extract, SeedSeen, NoteStep, QuoteDrafts, Admit, CitedNotes, TaskFor, Fold, NamedDraft;
    NamedIds(ph, log, e, d, note, s);
    NamedReading(ph, log, e, d, note, s);
    NamedDraftFields(note, s, e);
    var start := Pass(log, SeedSeen(ph, log), Report([], [], []));
    NamedIsAdmitted(ph, log, e, d, note, s, start.seen);
    ThreeSteps(ph, log, e, d, note);
    NamedIsRead(ph, log, e, d, note, s);
    PlainStep(ph, start, CitedNotes(log), note, 2, e, [NamedDraft(note, s, e)]);
    OneDraft(ph, start, note, NamedDraft(note, s, e));
  }

  lemma NamedIsRead(ph: Phrases, log: seq<Event>, e: Event, d: Event, note: Event, s: Speech)
    requires NamedAfterClaim(ph, log, e, d, note, s) && SupportOf(log, note, 2) == None
    ensures NoteDrafts(ph, log, note, 2, e) == [NamedDraft(note, s, e)]
  {
    assert [s][1..] == [];
    assert DraftsOf(note, [s], None, TaskFor(e)) == [NamedDraft(note, s, e)] + DraftsOf(note, [s][1..], None, TaskFor(e));
  }

  /** The rows before the handoff can be stored. The row it pushes has an id of its own, so the
      primary key takes it, and from then on no rebuild goes through. */
  lemma NamedNoteBlocksRebuild(ph: Phrases, log: seq<Event>, e: Event, d: Event, note: Event, s: Speech)
    requires NamedAfterClaim(ph, log, e, d, note, s)
    ensures var after := Extract(ph, log).log;
      && |after| == 4 && after[..3] == log && after[3].id == "c2_" + note.id && after[3].at <= I64_MAX
      && !HasRow(log, after[3].id) && Storable(Fold(log)) && !Storable(Fold(after))
  {
    hide Extract, Storable, Fold, NamedDraft, TaskFor;
    NamedIds(ph, log, e, d, note, s);
    NamedIsPushed(ph, log, e, d, note, s);
    var after := Extract(ph, log).log;
    NamedClock(log, e, d, note);
    NamedStores(ph, log, e, d, note, s);
    assert after[..3] == log && after[3].id == "c2_" + note.id && after[3].at == note.at + 1000;
    assert |after[3].id| == 31 && forall x | x in log :: |x.id| <= 28;
    assert after[1] == d && NamedDraft(note, s, e) == DraftOf(note, s, None, TaskFor(e)) by {
      NamedDraftIs(note, s, e);
    }
    ChosenNoteIdBlocksRebuild(after, 1, 3, note, s, None, TaskFor(e));
  }

  lemma NamedDraftIs(note: Event, s: Speech, e: Event)
    requires note.body.Note?
    ensures NamedDraft(note, s, e) == DraftOf(note, s, None, TaskFor(e))
  {
  }

  lemma NamedClock(log: seq<Event>, e: Event, d: Event, note: Event)
    requires log == [e, d, note] && e.at < d.at < note.at
    ensures MaxAt(log) == note.at
  {
    NamedPrefixes(log, e, d, note);
    assert MaxAt([e]) == e.at && MaxAt([e, d]) == d.at;
  }

  lemma NamedStores(ph: Phrases, log: seq<Event>, e: Event, d: Event, note: Event, s: Speech)
    requires NamedAfterClaim(ph, log, e, d, note, s)
    ensures Storable(Fold(log))
  {
    hide Storable, Fold;
    NamedIds(ph, log, e, d, note, s);
    assert NewIds(d) == {ClaimIdOf(d.id)} && NewIds(note) == {};
    NamedOnce(log, e, d, note);
    RebuildSucceeds(log);
  }

  lemma NamedOnce(log: seq<Event>, e: Event, d: Event, note: Event)
    requires log == [e, d, note] && IsRun(e) && |e.id| == 26 && NewIds(note) == {}
    requires forall id | id in NewIds(d) :: |id| == 28
    ensures AssertedOnce(log)
  {
    RunIdsAreLong(e);
    assert NewIds(e) !! NewIds(d);
    PairsApart(log);
  }

  lemma PairsApart(log: seq<Event>)
    requires |log| == 3 && NewIds(log[0]) !! NewIds(log[1]) && NewIds(log[2]) == {}
    ensures AssertedOnce(log)
  {
    hide NewIds;
  }

  /** There is such a log. */
  lemma NamedLogExists(ph: Phrases, e: Event, d: Event, note: Event, s: Speech)
    requires e == Event("01HZZZZZZZZZZZZZZZZZZZZZZ1", 1, Shell("make", "/w", Some(2), "s", ""))
    requires d == Event("01HZZZZZZZZZZZZZZZZZZZZZZ2", 2, Authored(Some(ClaimEvent(
      Assert, "c_01HZZZZZZZZZZZZZZZZZZZZZZ2", "t", Some(Decision), Some("c_01HZZZZZZZZZZZZZZZZZZZZZZ2"), Some("go on"),
      Some(Stated), User, None, [], [], None))))
    requires note == Event("c_01HZZZZZZZZZZZZZZZZZZZZZZ2", 3, Note("keep the signature", "s", "", "user", "", ""))
    requires s == Speech("keep the signature", AsConstraint, 0, false)
    requires !ph.asksRetract("keep the signature") && ph.drafted(note, "keep the signature", None) == [s]
    ensures NamedAfterClaim(ph, [e, d, note], e, d, note, s)
  {
    hide Trim, NoNewline;
    LiteralFacts();
    assert At("keep the signature", "keep the signature", 0);
    assert d.id == "01HZZZZZZZZZZZZZZZZZZZZZZ2" && ClaimIdOf(d.id) == note.id;
  }

  /** Three rows that can be stored; the handoff pushes a fourth, and no rebuild goes through. */
  lemma BlockedByName() returns (ph: Phrases, log: seq<Event>)
    ensures var after := Extract(ph, log).log;
      && |log| == 3 && |after| == 4 && after[..3] == log && after[3].id == "c2_" + log[2].id
      && !HasRow(log, after[3].id) && Storable(Fold(log)) && !Storable(Fold(after))
  {
    hide Extract, Storable, Fold, HasRow, NamedAfterClaim;
    var e := Event("01HZZZZZZZZZZZZZZZZZZZZZZ1", 1, Shell("make", "/w", Some(2), "s", ""));
    var d := Event("01HZZZZZZZZZZZZZZZZZZZZZZ2", 2, Authored(Some(ClaimEvent(
      Assert, "c_01HZZZZZZZZZZZZZZZZZZZZZZ2", "t", Some(Decision), Some("c_01HZZZZZZZZZZZZZZZZZZZZZZ2"), Some("go on"),
      Some(Stated), User, None, [], [], None))));
    var note := Event("c_01HZZZZZZZZZZZZZZZZZZZZZZ2", 3, Note("keep the signature", "s", "", "user", "", ""));
    var s := Speech("keep the signature", AsConstraint, 0, false);
    ph, log := OneSpeech(s), [e, d, note];
    NamedLogExists(ph, e, d, note, s);
    NamedNoteBlocksRebuild(ph, log, e, d, note, s);
  }

  lemma LiteralFacts()
    ensures Trim("make") == "make" && Trim("/w") == "/w" && Trim("go on") == "go on"
    ensures Trim("keep the signature") == "keep the signature"
    ensures NoNewline("01HZZZZZZZZZZZZZZZZZZZZZZ1") && NoNewline("01HZZZZZZZZZZZZZZZZZZZZZZ2")
    ensures "01HZZZZZZZZZZZZZZZZZZZZZZ1" != "01HZZZZZZZZZZZZZZZZZZZZZZ2"
    ensures "c_" + "01HZZZZZZZZZZZZZZZZZZZZZZ2" == "c_01HZZZZZZZZZZZZZZZZZZZZZZ2"
  {
    hide Trim;
    LiteralTexts();
    assert "01HZZZZZZZZZZZZZZZZZZZZZZ1"[25] != "01HZZZZZZZZZZZZZZZZZZZZZZ2"[25];
  }

  lemma LiteralTexts()
    ensures Trim("make") == "make" && Trim("/w") == "/w" && Trim("go on") == "go on"
    ensures Trim("keep the signature") == "keep the signature"
  {
    hide Trim;
    TrimSolid("make");
    TrimSolid("/w");
    TrimSolid("go on");
    TrimSolid("keep the signature");
  }
}
