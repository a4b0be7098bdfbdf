/** An update note of an agent that retires a constraint of the user. */
module AgentUpdate {
  import opened Text
  import opened Claims
  import opened Projector
  import opened CurrentView
  import opened GatedLog
  import opened FoldLaws
  import opened Trust
  import opened Compaction
  import opened EventTable
  import opened Handoff
  import opened Admission
  import opened Appended
  import opened RowIds

  /** A constraint of the user, a failing command, and an update note of an agent in the
      command's session that names the constraint and is drafted as one hypothesis. */
  predicate UpdatesRule(ph: Phrases, log: seq<Event>, u: Event, e: Event, note: Event, s: Speech) {
    && log == [u, e, note] && |u.id| == |e.id| == |note.id| == 26 && u.id != e.id && u.id != note.id && e.id != note.id
    && WrittenBy(u, User) && RowOk(u) && u.body.claim.value.op == Assert && HasClaimBody(u.body.claim.value)
    && u.body.claim.value.kind == Some(Constraint) && u.body.claim.value.supersedes.None?
    && u.body.claim.value.claimId == "c_" + u.id
    && IsRun(e) && e.body.exitCode.value != 0 && Trim(e.body.cwd) != ""
    && note.body.Note? && note.body.session == e.body.session && note.body.role == "update"
    && note.body.speaker == "agent" && note.body.supportId == ""
    && Collapse(note.body.replacesText) != "" && Collapse(note.body.replacesText) == Collapse(Trim(u.body.claim.value.text.value))
    && ph.natural(note.(body := note.body.(role := "conclusion")), Trim(note.body.text), None) == [s]
    && s.act == AsUnknown && s.index == 0 && 1 <= |Trim(s.sentence)| <= MAX_CLAIM_TEXT
    && Contains(note.body.text, Trim(s.sentence))
  }

  function RuleClaim(u: Event): Claim
    requires IsAuthored(u) && HasClaimBody(u.body.claim.value)
  {
    AuthoredClaim(u.body.claim.value, u, None)
  }

  lemma RuleFirst(log: seq<Event>, u: Event, e: Event, note: Event)
    requires log == [u, e, note] && IsAuthored(u) && !IsRun(u) && IsRun(e) && e.body.exitCode.value != 0 && note.body.Note?
    requires u.body.claim.value.op == Assert && HasClaimBody(u.body.claim.value)
    requires u.body.claim.value.kind == Some(Constraint) && u.body.claim.value.supersedes.None?
    ensures Fold(log).claims == [RuleClaim(u), RealityClaim(ReadRun(e), None), FrontierClaim(ReadRun(e), None)]
  {
    hide ReadRun;
    var c, r := RuleClaim(u), ReadRun(e);
    assert log[..2] == [u, e] && [u, e][..1] == [u] && [u][..0] == [];
    assert Fold([u]).claims == [c];
    assert SlotIndex([c], r.taskId, Reality, r.subject) == 1;
    assert RecordReality([c], r) == [c, RealityClaim(r, None)];
    assert SlotIndex([c, RealityClaim(r, None)], r.taskId, NextAction, FRONTIER_SUBJECT) == 2;
    assert StepRun([c], r) == [c, RealityClaim(r, None), FrontierClaim(r, None)];
  }

  lemma RuleIsTarget(cs: seq<Claim>, wanted: string)
    requires cs != [] && cs[0].status == Current && Collapse(cs[0].text) == wanted
    ensures CurrentWithText(cs, wanted) == Some(cs[0])
  {
  }

  lemma CommandIsTask(log: seq<Event>, u: Event, e: Event, note: Event)
    requires log == [u, e, note] && !u.body.Shell? && IsRun(e) && e.body.exitCode.value != 0
    requires note.body.Note? && note.body.session == e.body.session
    ensures NoteTask(log, note) == Some(e)
  {
    assert log[..2] == [u, e] && log[1..] == [e, note];
    assert LatestCode([u, e], e.body.session, Collapse(e.body.command)) == e.body.exitCode;
    assert StillFailing(log, e, e.body.session);
    assert FirstFailing(log, [e, note], e.body.session) == Some(e);
  }

  lemma NoteFound(log: seq<Event>, u: Event, e: Event, note: Event)
    requires log == [u, e, note] && u.id != note.id && e.id != note.id
    ensures FindRow(log, note.id) == Some(note)
  {
    RowIndexIs(log, note.id, 2);
  }

  lemma SeenKinds(ph: Phrases, log: seq<Event>, u: Event, e: Event, note: Event)
    requires log == [u, e, note] && !e.body.Authored? && !note.body.Authored?
    requires IsAuthored(u) && u.body.claim.value.kind == Some(Constraint)
    ensures forall k | k in SeedSeen(ph, log) :: k.0 == Constraint
  {
    assert log[..2] == [u, e] && [u, e][..1] == [u] && [u][..0] == [];
    assert SeedSeen(ph, []) == [];
    assert SeedSeen(ph, [u, e]) == SeedSeen(ph, [u]);
  }

  lemma CommandFails(log: seq<Event>, u: Event, e: Event, note: Event)
    requires log == [u, e, note] && !u.body.Shell? && !note.body.Shell?
    requires IsRun(e) && e.body.exitCode.value != 0 && Trim(e.body.cwd) != ""
    ensures TaskFor(e) in FailingSubjects(log) && Trim(TaskFor(e)) == TaskFor(e) && TaskFor(e) != ""
  {
    assert log[..2] == [u, e] && [u, e][..1] == [u] && [u][..0] == [];
    GateSubjectShape(e);
    SubjectTrims(e.body.cwd, e.body.command);
    assert LatestExit([u]) == map[];
    assert LatestExit([u, e]) == map[][TaskFor(e) := e.body.exitCode.value];
  }

  function Guess(note: Event, s: Speech, e: Event): Draft
    requires note.body.Note?
  {
    DraftOf(note, s, None, TaskFor(e))
  }

  lemma GuessFields(note: Event, s: Speech, e: Event)
    requires note.body.Note? && s.index == 0 && s.act == AsUnknown
    ensures Guess(note, s, e) == Draft(note.id, AsUnknown, Trim(s.sentence), [note.id], note.body.text, None, TaskFor(e))
    ensures Trim(Trim(s.sentence)) == Trim(s.sentence)
  {
    TrimKeeps(s.sentence);
    assert note.id + "" == note.id && [note.id] + [] == [note.id];
  }

  lemma HypothesisGate(d: Draft, view: View)
    requires d.act.AsUnknown? && 1 <= |Trim(d.text)| <= MAX_CLAIM_TEXT
    ensures GateCheck(d, view).None?
  {
    TrimKeeps(d.text);
  }

  lemma HypothesisPasses(ph: Phrases, d: Draft, view: View, seen: seq<SeenKey>, log: seq<Event>)
    requires d.act.AsUnknown? && 1 <= |Trim(d.text)| <= MAX_CLAIM_TEXT && EvidenceCheck(ph, d, log).None?
    requires forall k | k in seen :: k.0 == Constraint
    ensures Admit(ph, d, view, seen, log).Admitted?
  {
    hide EvidenceCheck, GateCheck;
    HypothesisGate(d, view);
  }

  lemma LoneTrial(ph: Phrases, log: seq<Event>, seen: seq<SeenKey>, d: Draft)
    requires Admit(ph, d, Fold(log), seen, log).Admitted?
    ensures Trial(ph, log, seen, [d]).None?
  {
    hide Admit, Fold;
    assert Trial(ph, log, seen + [KeyOf(ph, KindOf(d.act), d.text)], []).None?;
  }

  lemma GuessPasses(ph: Phrases, log: seq<Event>, u: Event, e: Event, note: Event, s: Speech, seen: seq<SeenKey>)
    requires UpdatesRule(ph, log, u, e, note, s) && seen == SeedSeen(ph, log)
    ensures Trial(ph, log, seen, [Guess(note, s, e)]).None?
  {
    hide Fold, FailingSubjects, FindRow, Guess, TaskFor, Admit, SeedSeen, Trial;
    NoteFound(log, u, e, note);
    SeenKinds(ph, log, u, e, note);
    CommandFails(log, u, e, note);
    GuessFields(note, s, e);
    HypothesisPasses(ph, Guess(note, s, e), Fold(log), seen, log);
    LoneTrial(ph, log, seen, Guess(note, s, e));
  }

  lemma IdsApart(log: seq<Event>, u: Event, e: Event, note: Event)
    requires log == [u, e, note] && IsAuthored(u) && |u.body.claim.value.claimId| == 28
    requires IsRun(e) && |e.id| == 26 && note.body.Note?
    ensures AssertedOnce(log)
  {
    hide ReadRun;
    RunIdsAreLong(e);
    assert NewIds(u) <= {u.body.claim.value.claimId} && NewIds(note) == {};
  }

  lemma RuleIds(ph: Phrases, log: seq<Event>, u: Event, e: Event, note: Event, s: Speech)
    requires UpdatesRule(ph, log, u, e, note, s)
    ensures AssertedOnce(log) && (forall k | k in log :: RowOk(k))
    ensures forall c | c in Fold(log).claims :: |c.id| >= 28
  {
    hide Fold, RowOk, ReadRun, RuleClaim, AssertedOnce;
    assert |u.body.claim.value.claimId| == 28;
    RuleFirst(log, u, e, note);
    RunIdsAreLong(e);
    IdsApart(log, u, e, note);
    ClaimOfRule(u);
    RowsOk(e, note);
  }

  lemma ClaimOfRule(u: Event)
    requires IsAuthored(u) && HasClaimBody(u.body.claim.value)
    ensures RuleClaim(u).id == u.body.claim.value.claimId
  {
  }

  lemma RowsOk(e: Event, note: Event)
    requires IsRun(e) && note.body.Note?
    ensures RowOk(e) && RowOk(note)
  {
  }

  lemma DraftsAreGuess(ph: Phrases, log: seq<Event>, u: Event, e: Event, note: Event, s: Speech)
    requires UpdatesRule(ph, log, u, e, note, s)
    ensures UpdateDrafts(ph, log, note, Trim(note.body.text), e) == [Guess(note, s, e)]
  {
    assert DraftsOf(note, [s], None, TaskFor(e)) == [Guess(note, s, e)] + DraftsOf(note, [s][1..], None, TaskFor(e));
    assert [s][1..] == [];
  }

  lemma TargetIsRule(ph: Phrases, log: seq<Event>, u: Event, e: Event, note: Event, s: Speech)
    requires UpdatesRule(ph, log, u, e, note, s)
    ensures UpdateTarget(log, note) == Found(RuleClaim(u), e) && RuleClaim(u).origin == User
  {
    hide Fold, NoteTask;
    RuleFirst(log, u, e, note);
    RuleIsTarget(Fold(log).claims, Collapse(note.body.replacesText));
    CommandIsTask(log, u, e, note);
    UserIsStated(u);
  }

  lemma UserIsStated(u: Event)
    requires WrittenBy(u, User) && RowOk(u) && u.body.claim.value.op == Assert && HasClaimBody(u.body.claim.value)
    ensures !Untouchable(RuleClaim(u))
  {
  }

  /** The update goes through and retires the user's constraint. */
  lemma AgentUpdatesUserClaim(ph: Phrases, p: Pass, u: Event, e: Event, note: Event, s: Speech)
    requires UpdatesRule(ph, p.log, u, e, note, s) && p.seen == SeedSeen(ph, p.log)
    ensures MayUpdate(ph, p, note, Trim(note.body.text))
    ensures UserClaimRetired(Fold(p.log).claims, Fold(UpdateNote(ph, p, note, Trim(note.body.text)).log).claims)
  {
    hide Fold, UpdateTarget, UpdateDrafts, UpdateNote, Guess, Trial, UserClaimRetired, RuleClaim;
    TargetIsRule(ph, p.log, u, e, note, s);
    DraftsAreGuess(ph, p.log, u, e, note, s);
    GuessPasses(ph, p.log, u, e, note, s, p.seen);
    RuleIds(ph, p.log, u, e, note, s);
    GuessFields(note, s, e);
    UpdatesUserClaimIff(ph, p, note, Trim(note.body.text));
  }

  const RULE_ID := "01HZZZZZZZZZZZZZZZZZZZZZZ1"
  const RUN_ID := "01HZZZZZZZZZZZZZZZZZZZZZZ2"
  const UPDATE_ID := "01HZZZZZZZZZZZZZZZZZZZZZZ3"

  lemma LiteralFacts()
    ensures Trim("make") == "make" && Trim("/w") == "/w" && Trim("keep it") == "keep it" && Trim("maybe not") == "maybe not"
    ensures RULE_ID != RUN_ID && RULE_ID != UPDATE_ID && RUN_ID != UPDATE_ID && Collapse("keep it") != ""
  {
    hide Trim, Collapse;
    TrimSolid("make");
    TrimSolid("/w");
    TrimSolid("keep it");
    TrimSolid("maybe not");
    assert RULE_ID[25] != RUN_ID[25] && RULE_ID[25] != UPDATE_ID[25] && RUN_ID[25] != UPDATE_ID[25];
    SomeWords("keep it");
  }

  lemma SomeWords(s: string)
    requires Trim(s) != ""
    ensures Collapse(s) != ""
  {
    WordsOfTrim(s);
    WordsAreWords(s);
    JoinShape(Words(s));
  }

  /** There is such a log. */
  lemma UpdateLogExists(ph: Phrases, u: Event, e: Event, note: Event, s: Speech)
    requires u == Event(RULE_ID, 1, Authored(Some(ClaimEvent(
      Assert, "c_" + RULE_ID, "t", Some(Constraint), Some("c_" + RULE_ID), Some("keep it"), Some(Stated), User, None, [], [], None))))
    requires e == Event(RUN_ID, 2, Shell("make", "/w", Some(2), "s", ""))
    requires note == Event(UPDATE_ID, 3, Note("maybe not", "s", "update", "agent", "", "keep it"))
    requires s == Speech("maybe not", AsUnknown, 0, false)
    requires ph.natural(note.(body := note.body.(role := "conclusion")), "maybe not", None) == [s]
    ensures UpdatesRule(ph, [u, e, note], u, e, note, s)
  {
    hide Trim, Collapse, RULE_ID, RUN_ID, UPDATE_ID;
    LiteralFacts();
    IdLengths();
    assert At("maybe not", "maybe not", 0);
  }

  /** On three rows an agent's update note retires the user's constraint. */
  lemma RetiredByUpdate() returns (ph: Phrases, p: Pass)
    ensures |p.log| == 3 && p.log[2].body.Note? && p.log[2].body.speaker == "agent" && p.log[2].body.role == "update"
    ensures UserClaimRetired(Fold(p.log).claims, Fold(UpdateNote(ph, p, p.log[2], Trim(p.log[2].body.text)).log).claims)
  {
    hide Fold, UpdateNote, UserClaimRetired, UpdatesRule, Trim, SeedSeen, MayUpdate, RULE_ID, RUN_ID, UPDATE_ID;
    var u := Event(RULE_ID, 1, Authored(Some(ClaimEvent(
      Assert, "c_" + RULE_ID, "t", Some(Constraint), Some("c_" + RULE_ID), Some("keep it"), Some(Stated), User, None, [], [], None))));
    var e := Event(RUN_ID, 2, Shell("make", "/w", Some(2), "s", ""));
    var note := Event(UPDATE_ID, 3, Note("maybe not", "s", "update", "agent", "", "keep it"));
    var s := Speech("maybe not", AsUnknown, 0, false);
    ph := OneSpeech(s);
    p := Pass([u, e, note], SeedSeen(ph, [u, e, note]), Report([], [], []));
    UpdateLogExists(ph, u, e, note, s);
    AgentUpdatesUserClaim(ph, p, u, e, note, s);
  }

  lemma IdLengths()
    ensures |RULE_ID| == |RUN_ID| == |UPDATE_ID| == 26
  {
  }
}
