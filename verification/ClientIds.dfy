/** Row ids that clients choose freely: where a note id that is not like a ULID reaches what the
    write gate is meant to protect. */
module ClientIds {
  import opened Text
  import opened Claims
  import opened Projector
  import opened CurrentView
  import opened GatedLog
  import opened FoldLaws
  import opened Trust
  import opened Compaction
  import opened Daemon
  import opened EventTable
  import opened Handoff
  import opened Extraction
  import opened Appended
  import opened Store
  import opened Persistence

  // ---------- findings on a command's subject ----------

  lemma ObservedReality(log: seq<Event>, c: Claim)
    requires Gated(log) && c in Fold(log).claims && c.origin == Projector && c.confidence == Observed
    ensures c.kind == Reality && c.taskId == TaskIdFor(c.subject)
  {
    EveryClaimHasSource(log);
    var i :| 0 <= i < |Fold(log).claims| && Fold(log).claims[i] == c;
    assert HasSource(log, c);
    var k :| k in log && MadeBy(k, c);
    SourceOfObserved(k, c);
  }

  lemma FindingForm(cs: seq<Claim>, d: Draft, e: Event)
    requires d.act.AsReality? && Trim(d.text) != ""
    ensures HasClaimBody(DraftEvent(d))
    ensures var ce := DraftEvent(d);
      StepAuthored(cs, ce, e)
      == SupersedeSlot(cs, TaskIdFor(d.taskSubject), Reality, d.claimId, e.at) + [AuthoredClaim(ce, e, SlotVictim(cs, ce))]
  {
    hide SupersedeSlot;
    TrimKeeps(d.text);
  }

  lemma FindingStep(cs: seq<Claim>, d: Draft, e: Event, i: nat)
    requires WellFormed(cs) && i < |cs| && d.act.AsReality? && Trim(d.text) != ""
    ensures i < |StepAuthored(cs, DraftEvent(d), e)|
    ensures StepAuthored(cs, DraftEvent(d), e)[i]
      == if Occupies(cs[i], TaskIdFor(d.taskSubject), Reality, d.claimId) then Retire(cs[i], e.at) else cs[i]
  {
    hide SupersedeSlot, StepAuthored, WellFormed;
    FindingForm(cs, d, e);
    RetireSlot(cs, TaskIdFor(d.taskSubject), Reality, d.claimId, e.at);
  }

  /** A finding changes a current observed reality exactly when its claim id is the command's
      subject and its task the command's. */
  lemma FindingRetiresRealityIff(log: seq<Event>, d: Draft, i: nat)
    requires Gated(log) && i < |Fold(log).claims| && d.act.AsReality? && Trim(d.text) != ""
    requires var c := Fold(log).claims[i]; c.status == Current && c.origin == Projector && c.confidence == Observed
    ensures var c, after := Fold(log).claims[i], Fold(log + [AssertRow(log, d)]).claims;
      && i < |after|
      && (after[i] != c <==> d.claimId == c.subject && d.taskSubject == c.subject)
      && (after[i] != c ==> after[i].status == Superseded)
  {
    hide Fold, StepAuthored, Gated;
    var c, row := Fold(log).claims[i], AssertRow(log, d);
    GatedFold(log);
    ObservedReality(log, c);
    assert TaskIdFor(d.taskSubject) == "t_" + JoinNul([d.taskSubject]);
    FoldPush(log, row);
    FindingStep(Fold(log).claims, d, row, i);
    TaskIdInjective(d.taskSubject, c.subject);
  }

  /** A log of one failing command and one note that a client named after that command. */
  predicate NamedAfterCommand(log: seq<Event>, note: Event, e: Event) {
    && log == [e, note] && IsRun(e) && e.body.exitCode.value != 0 && Trim(e.body.cwd) != ""
    && note.body.Note? && note.id == TaskFor(e) && note.id != e.id
  }

  lemma NamedIsGated(log: seq<Event>, note: Event, e: Event)
    requires NamedAfterCommand(log, note, e)
    ensures Gated(log) && FindRow(log, note.id) == Some(note) && FindRow(log, e.id) == Some(e)
  {
    RowIndexIs(log, note.id, 1);
    RowIndexIs(log, e.id, 0);
  }

  lemma CommandIsFailing(log: seq<Event>, note: Event, e: Event)
    requires NamedAfterCommand(log, note, e)
    ensures TaskFor(e) in FailingSubjects(log) && Trim(TaskFor(e)) == TaskFor(e) && TaskFor(e) == RunSubject(e) && TaskFor(e) != ""
    ensures Fold(log) == Fold([e])
  {
    SubjectTrims(e.body.cwd, e.body.command);
    GateSubjectShape(e);
    assert log[..1] == [e] && [e][..0] == [];
    assert LatestExit([e]) == map[][TaskFor(e) := e.body.exitCode.value];
    FoldPush([e], note);
    assert log == [e] + [note];
  }

  /** A sentence of the note that is grounded in the command's output. */
  predicate GroundedFinding(ph: Phrases, note: Event, s: Speech, e: Event)
    requires note.body.Note? && e.body.Shell?
  {
    && s.act == AsReality && s.index == 0 && s.cites
    && 1 <= |Trim(s.sentence)| <= MAX_CLAIM_TEXT && Contains(note.body.text, Trim(s.sentence))
    && Overlap(ph, Trim(s.sentence), e.body.output) >= MIN_OVERLAP
  }

  function FindingOf(note: Event, s: Speech, e: Event): Draft
    requires note.body.Note?
  {
    DraftOf(note, s, Some(e), TaskFor(e))
  }

  lemma FindingFields(note: Event, s: Speech, e: Event)
    requires note.body.Note? && e.body.Shell? && note.id != e.id && s.act == AsReality && s.index == 0 && s.cites
    ensures FindingOf(note, s, e) == Draft(note.id, AsReality, Trim(s.sentence), [note.id, e.id], note.body.text,
                                           Some(e.body.output), TaskFor(e))
    ensures Trim(Trim(s.sentence)) == Trim(s.sentence)
  {
    TrimKeeps(s.sentence);
    assert note.id + "" == note.id;
  }

  lemma FindingIsAdmitted(ph: Phrases, log: seq<Event>, note: Event, s: Speech, e: Event)
    requires NamedAfterCommand(log, note, e) && GroundedFinding(ph, note, s, e)
    ensures Admit(ph, FindingOf(note, s, e), Fold(log), [], log).Admitted?
  {
    hide Fold, FailingSubjects, FindRow, FindingOf, TaskFor, LongestQuoted;
    NamedIsGated(log, note, e);
    CommandIsFailing(log, note, e);
    FindingFields(note, s, e);
    var d := FindingOf(note, s, e);
    assert FirstShell(log, d.evidenceIds) == Some(e) by {
      assert d.evidenceIds[1..] == [e.id];
    }
    FindingPassesGate(d, Fold(log));
  }

  lemma FindingPassesGate(d: Draft, view: View)
    requires d.act.AsReality? && 1 <= |Trim(d.text)| <= MAX_CLAIM_TEXT
    ensures GateCheck(d, view).None?
  {
    TrimKeeps(d.text);
  }

  /** Named after a failing command, any note with a grounded sentence is admitted and retires
      that command's observed reality. */
  lemma NamedNoteRetiresReality(ph: Phrases, log: seq<Event>, note: Event, s: Speech, e: Event)
    requires NamedAfterCommand(log, note, e) && GroundedFinding(ph, note, s, e)
    ensures Gated(log) && Admit(ph, FindingOf(note, s, e), Fold(log), [], log).Admitted?
    ensures var before, after := Fold(log).claims, Fold(log + [AssertRow(log, FindingOf(note, s, e))]).claims;
      && before != [] && before[0] == RealityClaim(ReadRun(e), None) && after != [] && after[0].status == Superseded
  {
    hide Fold, Admit, FindingOf, Gated, AssertRow, TaskFor;
    NamedIsGated(log, note, e);
    CommandIsFailing(log, note, e);
    FindingFields(note, s, e);
    FindingIsAdmitted(ph, log, note, s, e);
    LoneFailure(e);
    FindingRetiresRealityIff(log, FindingOf(note, s, e), 0);
  }
}
