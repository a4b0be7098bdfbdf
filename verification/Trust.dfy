/** Who may retire whose claims, and the gate's own reading of "still failing". */
module Trust {
  import opened Text
  import opened Claims
  import opened Projector
  import opened CurrentView
  import opened GatedLog
  import opened FoldLaws

  // ---------- provenance of claims ----------

  predicate MadeBy(k: Event, c: Claim) {
    if IsRun(k) then
      var r := ReadRun(k);
      c.origin == Projector && c.taskId == r.taskId
      && if c.confidence == Observed
         then c.id == r.realityId && c.kind == Reality && c.subject == r.subject
         else c.id == r.frontierId && c.kind == NextAction
    else
      IsAuthored(k) && Asserts(k.body.claim.value)
      && var ce := k.body.claim.value;
      c.id == ce.claimId && c.origin == ce.origin && c.taskId == ce.taskId && c.kind == ce.kind.value
      && c.subject == SubjectOf(ce)
  }

  predicate HasSource(log: seq<Event>, c: Claim) {
    exists k :: k in log && MadeBy(k, c)
  }

  lemma NewRunClaims(cs: seq<Claim>, r: Run, i: nat)
    requires |cs| <= i < |StepRun(cs, r)|
    ensures var c := StepRun(cs, r)[i];
      c.origin == Projector && c.taskId == r.taskId
      && if c.confidence == Observed
         then c.id == r.realityId && c.kind == Reality && c.subject == r.subject
         else c.id == r.frontierId && c.kind == NextAction
  {
    if i == |cs| {
      hide StepRun;
      RunLinks(cs, r);
    } else {
      SecondRunClaim(cs, r, i);
    }
  }

  lemma SecondRunClaim(cs: seq<Claim>, r: Run, i: nat)
    requires |cs| < i < |StepRun(cs, r)|
    ensures StepRun(cs, r)[i] == FrontierClaim(r, StepRun(cs, r)[i].supersedes)
  {
    hide RecordReality;
    RecordLinks(cs, r);
  }

  lemma NewAuthoredClaim(cs: seq<Claim>, ce: ClaimEvent, e: Event, i: nat)
    requires |cs| <= i < |StepAuthored(cs, ce, e)|
    ensures Asserts(ce)
    ensures StepAuthored(cs, ce, e)[i] == AuthoredClaim(ce, e, StepAuthored(cs, ce, e)[i].supersedes)
  {
  }

  /** Every claim of the fold was made by a row of the log. */
  lemma {:induction false} EveryClaimHasSource(log: seq<Event>)
    ensures forall i | 0 <= i < |Fold(log).claims| :: HasSource(log, Fold(log).claims[i])
  {
    if log != [] {
      var init, e := log[..|log| - 1], log[|log| - 1];
      EveryClaimHasSource(init);
      var cs, after := Fold(init).claims, Fold(log).claims;
      ClaimsOnlyAge(log, |init|);
      assert e in log;
      forall i | 0 <= i < |after|
        ensures HasSource(log, after[i])
      {
        if i < |cs| {
          assert Aged(cs[i], after[i]);
          var k :| k in init && MadeBy(k, cs[i]);
          assert k in log && MadeBy(k, after[i]);
        } else if IsRun(e) {
          NewRunClaims(cs, ReadRun(e), i);
          assert MadeBy(e, after[i]);
        } else {
          NewAuthoredClaim(cs, e.body.claim.value, e, i);
          assert MadeBy(e, after[i]);
        }
      }
    }
  }

  // ---------- trust ----------

  lemma AuthoredLeaves(cs: seq<Claim>, e: Event, i: nat)
    requires WellFormed(cs) && IsAuthored(e) && i < |cs|
    requires cs[i].id !in Targets(e)
    requires var ce := e.body.claim.value;
      !(Asserts(ce) && UniqueSlot(ce.kind.value) && Occupies(cs[i], ce.taskId, ce.kind.value, SubjectOf(ce)))
    ensures StepClaims(cs, e)[i] == cs[i]
  {
    var ce := e.body.claim.value;
    if ce.op == Supersede {
      RetireById(cs, SupersedeTarget(ce), e.at);
    }
    var retired := if ce.op == Supersede then SupersedeClaim(cs, SupersedeTarget(ce), e.at) else cs;
    if Asserts(ce) {
      ClearStep(retired, ce, e.at);
      if UniqueSlot(ce.kind.value) {
        RetireSlot(retired, ce.taskId, ce.kind.value, SubjectOf(ce), e.at);
      }
      var cleared := ClearSlot(retired, ce, e.at);
      if ce.supersedes.Some? {
        RetireById(cleared, ce.supersedes.value, e.at);
      }
    }
  }

  /** On a gated log no authored row changes an observed reality, and no row of an agent
      changes a claim of the user. */
  lemma TrustHolds(log: seq<Event>, i: nat)
    requires Gated(log) && log != []
    requires var e := log[|log| - 1]; IsAuthored(e)
    requires i < |Fold(log[..|log| - 1]).claims|
    requires var c := Fold(log[..|log| - 1]).claims[i];
      || (c.origin == Projector && c.confidence == Observed)
      || (c.origin == User && WrittenBy(log[|log| - 1], Agent))
    ensures i < |Fold(log).claims| && Fold(log).claims[i] == Fold(log[..|log| - 1]).claims[i]
  {
    hide Gated, MadeBy, Compatible, RowOk, StepClaims;
    var init, e := log[..|log| - 1], log[|log| - 1];
    GatedPrefix(log);
    GatedFold(init);
    MakerOf(init, i);
    var k :| k in init && MadeBy(k, Fold(init).claims[i]);
    GatedPair(log, e, k);
    OutOfReach(e, k, Fold(init).claims[i]);
    AuthoredLeaves(Fold(init).claims, e, i);
    LastStep(log);
    StepGrows(log);
  }

  lemma MakerOf(log: seq<Event>, i: nat)
    requires i < |Fold(log).claims|
    ensures exists k :: k in log && MadeBy(k, Fold(log).claims[i])
  {
    EveryClaimHasSource(log);
    assert HasSource(log, Fold(log).claims[i]);
  }

  lemma LastStep(log: seq<Event>)
    requires log != []
    ensures Fold(log).claims == StepClaims(Fold(log[..|log| - 1]).claims, log[|log| - 1])
  {
  }

  lemma StepGrows(log: seq<Event>)
    requires log != []
    ensures |Fold(log[..|log| - 1]).claims| <= |Fold(log).claims|
  {
    ClaimsOnlyAge(log, |log| - 1);
  }

  lemma OutOfReach(e: Event, k: Event, c: Claim)
    requires IsAuthored(e) && RowOk(e) && RowOk(k) && Compatible(e, k) && MadeBy(k, c)
    requires (c.origin == Projector && c.confidence == Observed) || (c.origin == User && WrittenBy(e, Agent))
    ensures c.id !in Targets(e)
    ensures var ce := e.body.claim.value;
      !(Asserts(ce) && UniqueSlot(ce.kind.value) && Occupies(c, ce.taskId, ce.kind.value, SubjectOf(ce)))
  {
    var ce := e.body.claim.value;
    if c.origin == Projector {
      SourceOfObserved(k, c);
    } else {
      assert !IsRun(k);
      AuthoredClaimOk(k.body.claim.value, k);
      assert c.id in NewIds(k);
    }
    if Asserts(ce) {
      AuthoredClaimOk(ce, e);
    }
  }

  lemma SourceOfObserved(k: Event, c: Claim)
    requires MadeBy(k, c) && RowOk(k) && c.origin == Projector
    ensures IsRun(k)
    ensures c.confidence == Observed ==> c.id == ReadRun(k).realityId && c.kind == Reality && !NoNewline(c.subject)
  {
    if IsRun(k) {
      RunSubjectHasNewline(k);
    }
  }

  // ---------- still failing ----------

  /** The fold's answer: a command fails exactly when its newest run did. */
  lemma FailingIsLastExit(log: seq<Event>, subject: string)
    requires Gated(log)
    ensures HasFailingReality(Fold(log).claims, TaskIdFor(subject))
            <==> LastRun(log, subject).Some? && LastRun(log, subject).value.code != 0
  {
    var cs := Fold(log).claims;
    if LastRun(log, subject).Some? {
      LastRunStands(log, subject);
    }
    if HasFailingReality(cs, TaskIdFor(subject)) {
      var c :| c in cs && Fails(c, TaskIdFor(subject));
      FailureIsLastRun(log, c);
      TaskIdInjective(c.subject, subject);
    }
  }

  lemma LastRunStands(log: seq<Event>, subject: string)
    requires Gated(log) && LastRun(log, subject).Some?
    ensures var r := LastRun(log, subject).value;
      exists c :: c in Fold(log).claims && c.status == Current && Bare(c) == RealityClaim(r, None)
                  && c.taskId == TaskIdFor(subject)
  {
    GatedFold(log);
    var cs := Fold(log).claims;
    LiveMembers(cs);
    LastRunIsRow(log, subject);
    LastRunIsCurrent(log, subject);
    var r := RealityClaim(LastRun(log, subject).value, None);
    var i :| 0 <= i < |cs| && cs[i].status == Current && r == Bare(cs[i]);
    assert cs[i] in cs;
  }

  /** Only a command's newest run can carry an exit code into a current claim. */
  lemma FailureIsLastRun(log: seq<Event>, c: Claim)
    requires Gated(log) && c in Fold(log).claims
    requires c.status == Current && c.kind == Reality && c.outcome.Some?
    ensures c.taskId == TaskIdFor(c.subject) && c.origin == Projector && c.confidence == Observed
    ensures LastRun(log, c.subject).Some? && Bare(c) == RealityClaim(LastRun(log, c.subject).value, None)
  {
    GatedFold(log);
    CurrentOk(log);
    var cs := Fold(log).claims;
    LiveMembers(cs);
    var i :| 0 <= i < |cs| && cs[i] == c;
    assert Bare(cs[i]) in CurrentClaims(log);
    assert ClaimOk(Bare(c));
    CurrentIsLastRun(log, Bare(c));
  }

  /** A shell row the gate looks at: a command and an exit code, blank or not. */
  predicate GateSees(e: Event) {
    e.body.Shell? && e.body.command != "" && e.body.exitCode.Some?
  }

  function GateSubject(e: Event): string
    requires GateSees(e)
  {
    ShellSubject(e.body.cwd, e.body.command)
  }

  function LatestExit(log: seq<Event>): map<string, int> {
    if log == [] then map[]
    else
      var e, before := log[|log| - 1], LatestExit(log[..|log| - 1]);
      if GateSees(e) then before[GateSubject(e) := e.body.exitCode.value] else before
  }

  function FailingSubjects(log: seq<Event>): set<string> {
    set s | s in LatestExit(log) && LatestExit(log)[s] != 0
  }

  method CollectFailing(log: seq<Event>) returns (failing: set<string>)
    ensures failing == FailingSubjects(log)
  {
    var latest: map<string, int> := map[];
    for i := 0 to |log|
      invariant latest == LatestExit(log[..i])
    {
      assert log[..i + 1][..i] == log[..i];
      var e := log[i];
      if !e.body.Shell? { continue; }
      if e.body.command == "" { continue; }
      if e.body.exitCode.None? { continue; }
      latest := latest[GateSubject(e) := e.body.exitCode.value];
    }
    assert log[..|log|] == log;
    failing := set s | s in latest && latest[s] != 0;
  }

  predicate BlankRow(e: Event) {
    GateSees(e) && Trim(e.body.command) == ""
  }

  /** Exit of the newest row of a blank command under `subject`. */
  function LastBlankExit(log: seq<Event>, subject: string): Option<int> {
    if log == [] then None
    else
      var e := log[|log| - 1];
      if BlankRow(e) && GateSubject(e) == subject then e.body.exitCode
      else LastBlankExit(log[..|log| - 1], subject)
  }

  predicate EndsLine(s: string) {
    s != "" && s[|s| - 1] == '\n'
  }

  lemma GateSubjectShape(e: Event)
    requires GateSees(e)
    ensures BlankRow(e) <==> EndsLine(GateSubject(e))
    ensures IsRun(e) <==> !BlankRow(e)
    ensures IsRun(e) ==> RunSubject(e) == GateSubject(e)
    ensures IsRun(e) ==> !EndsLine(RunSubject(e))
  {
    var command := e.body.command;
    CollapseStable(command);
    CollapseStable(Trim(command));
    WordsAreWords(command);
    JoinShape(Words(command));
    if Trim(command) != "" {
      var s, c := GateSubject(e), Collapse(command);
      assert s[|s| - 1] == c[|c| - 1];
    }
  }

  lemma {:induction false} LatestExitSplits(log: seq<Event>, s: string)
    ensures EndsLine(s) ==> LastRun(log, s).None?
    ensures !EndsLine(s) ==> LastBlankExit(log, s).None?
    ensures s in LatestExit(log) <==> LastRun(log, s).Some? || LastBlankExit(log, s).Some?
    ensures LastRun(log, s).Some? ==> LatestExit(log)[s] == LastRun(log, s).value.code
    ensures LastBlankExit(log, s).Some? ==> LatestExit(log)[s] == LastBlankExit(log, s).value
  {
    if log != [] {
      var e := log[|log| - 1];
      LatestExitSplits(log[..|log| - 1], s);
      if GateSees(e) {
        GateSubjectShape(e);
      } else {
        WordsOfTrim("");
        assert !IsRun(e);
      }
    }
  }

  /** The gate's last-write map and the projector's supersession fold agree about a subject
      exactly when that subject is not a blank command whose newest row failed. */
  lemma GateAgreesWithProjector(log: seq<Event>, subject: string)
    requires Gated(log)
    ensures (subject in FailingSubjects(log) <==> HasFailingReality(Fold(log).claims, TaskIdFor(subject)))
            <==> (LastBlankExit(log, subject).Some? ==> LastBlankExit(log, subject).value == 0)
  {
    FailingIsLastExit(log, subject);
    LatestExitSplits(log, subject);
  }

  const BLANK := Event("e", 1, Shell(" ", "/w", Some(1), "s", ""))

  /** A failing row whose command is one blank: the gate calls it failing, the fold does not
      know it. */
  lemma BlankFailureDisagrees()
    ensures Gated([BLANK])
    ensures GateSubject(BLANK) in FailingSubjects([BLANK])
    ensures !HasFailingReality(Fold([BLANK]).claims, TaskIdFor(GateSubject(BLANK)))
  {
    assert Trim(" ") == "" && !IsRun(BLANK);
    assert [BLANK][..0] == [];
    assert LatestExit([BLANK]) == map[][GateSubject(BLANK) := 1];
  }
}
