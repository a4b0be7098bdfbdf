/** What the fold of a log says, read off the rows alone: every claim says what one row wrote,
    every row that writes makes its claims, a claim is current exactly as long as no later row
    retires it, and a task is what the rows on it say. */
module Meaning {
  import opened Text
  import opened Claims
  import opened Projector
  import opened CurrentView
  import opened GatedLog
  import opened FoldLaws
  import opened Trust
  import opened Compaction

  // ---------- what a row writes ----------

  predicate IsCommand(k: Event) {
    k.body.Shell? && Trim(k.body.command) != "" && k.body.exitCode.Some?
  }

  /** The subject of a command: its trimmed directory and its words, on two lines. */
  function CommandSubject(k: Event): string {
    if k.body.Shell? then Trim(k.body.cwd) + "\n" + Collapse(k.body.command) else ""
  }

  predicate IsStatement(k: Event) {
    && k.body.Authored? && k.body.claim.Some?
    && var ce := k.body.claim.value;
    && ce.taskId != "" && (ce.op == Assert || ce.op == Supersede)
    && ce.kind.Some? && ce.text.Some? && Trim(ce.text.value) != ""
  }

  /** The claim says what an author wrote. Subject and confidence may be left to their
      defaults. */
  predicate Writes(k: Event, c: Claim) {
    && IsStatement(k)
    && var ce := k.body.claim.value;
    && c.id == ce.claimId && c.taskId == ce.taskId && c.kind == ce.kind.value && c.origin == ce.origin
    && c.subject == (if ce.subject.Some? then ce.subject.value
                     else if c.kind == Intent then "objective" else if c.kind == NextAction then "frontier" else ce.claimId)
    && c.confidence == (if ce.confidence.Some? then ce.confidence.value
                        else if c.origin == User then Stated else if c.origin == Agent then Inferred else Observed)
    && c.text == Trim(ce.text.value) && c.outcome == ce.outcome
    && c.artifactRefs == ce.artifactRefs && c.evidenceIds == ce.evidenceIds && c.assertedBy == k.id
  }

  /** The claim says how a command ended. */
  predicate Observes(k: Event, c: Claim) {
    && IsCommand(k) && c.kind == Reality && c.origin == Projector && c.confidence == Observed
    && c.subject == CommandSubject(k) && c.taskId == TaskIdFor(CommandSubject(k))
    && c.outcome == k.body.exitCode && c.text == Collapse(k.body.command) + " exited " + Decimal(k.body.exitCode.value)
    && c.artifactRefs == [] && c.evidenceIds == [k.id] && c.assertedBy == k.id
  }

  /** The claim says to look at a command that failed. */
  predicate Suggests(k: Event, c: Claim) {
    && IsCommand(k) && k.body.exitCode.value != 0 && c.kind == NextAction && c.origin == Projector && c.confidence == Inferred
    && c.subject == "frontier" && c.taskId == TaskIdFor(CommandSubject(k))
    && c.outcome.None? && c.text == "Re-run and inspect: " + Collapse(k.body.command)
    && c.artifactRefs == [] && c.evidenceIds == [k.id] && c.assertedBy == k.id
  }

  predicate Says(k: Event, c: Claim) {
    Writes(k, c) || Observes(k, c) || Suggests(k, c)
  }

  // ---------- what a row retires ----------

  predicate OneAtATime(kind: Kind) {
    kind == Intent || kind == NextAction || kind == Reality
  }

  /** A retraction of the claim by its id. */
  predicate Retracts(k: Event, id: string) {
    && k.body.Authored? && k.body.claim.Some?
    && var ce := k.body.claim.value;
    ce.taskId != "" && ce.op == Supersede
    && (if ce.supersedes.Some? && ce.supersedes.value != "" then ce.supersedes.value else ce.claimId) == id
  }

  /** The statement is of the claim's kind and subject on the same task, where the kind allows
      one current claim at a time. */
  predicate TakesPlace(ce: ClaimEvent, c: Claim)
    requires ce.kind.Some?
  {
    && OneAtATime(c.kind) && ce.kind.value == c.kind && ce.taskId == c.taskId
    && c.subject == if ce.subject.Some? then ce.subject.value
                    else if c.kind == Intent then "objective" else if c.kind == NextAction then "frontier" else ce.claimId
  }

  /** A row retires a claim it retracts; one its statement names; one whose place its statement
      takes, where there is place for one only; the result of an earlier run of the same
      command; and the projector's own next action on the task of a run. */
  predicate Retires(k: Event, c: Claim) {
    || Retracts(k, c.id)
    || (IsStatement(k)
        && var ce := k.body.claim.value;
        || ce.supersedes == Some(c.id)
        || TakesPlace(ce, c))
    || (IsCommand(k) && c.taskId == TaskIdFor(CommandSubject(k))
        && if c.kind == Reality then c.subject == CommandSubject(k)
           else c.kind == NextAction && c.subject == "frontier" && c.origin == Projector)
  }

  // ---------- the projector's own words ----------

  lemma CommandIsRun(k: Event)
    ensures IsCommand(k) == IsRun(k)
    ensures IsRun(k) ==> ReadRun(k).subject == CommandSubject(k) && ReadRun(k).command == Collapse(k.body.command)
  {
    if k.body.Shell? {
      CollapseStable(k.body.command);
      CollapseStable(Collapse(k.body.command));
    }
  }

  lemma StatementAsserts(k: Event)
    ensures IsStatement(k) <==> IsAuthored(k) && Asserts(k.body.claim.value)
  {
  }

  lemma RetractsIsTarget(k: Event, id: string)
    ensures Retracts(k, id) <==> IsAuthored(k) && k.body.claim.value.op == Supersede && SupersedeTarget(k.body.claim.value) == id
  {
  }

  // ---------- one step ----------

  lemma RunEffect(cs: seq<Claim>, r: Run, i: nat)
    requires WellFormed(cs) && Fresh(r.realityId, cs) && i < |cs| && cs[i].status == Current
    ensures var retired := cs[i].taskId == r.taskId
        && if cs[i].kind == Reality then cs[i].subject == r.subject
           else cs[i].kind == NextAction && cs[i].subject == "frontier" && cs[i].origin == Projector;
      i < |StepRun(cs, r)| && StepRun(cs, r)[i] == if retired then Retire(cs[i], r.at) else cs[i]
  {
    hide EnsureFrontier, DropFrontier, WellFormed;
    RecordStep(cs, r);
    RecordEffect(cs, r, i);
    SettleEffect(RecordReality(cs, r), r, i);
    hide RecordReality;
  }

  lemma RecordEffect(cs: seq<Claim>, r: Run, i: nat)
    requires WellFormed(cs) && i < |cs|
    ensures i < |RecordReality(cs, r)|
    ensures RecordReality(cs, r)[i] == if Occupies(cs[i], r.taskId, Reality, r.subject) then Retire(cs[i], r.at) else cs[i]
  {
    RetireSlot(cs, r.taskId, Reality, r.subject, r.at);
  }

  lemma SettleEffect(cs: seq<Claim>, r: Run, i: nat)
    requires WellFormed(cs) && i < |cs|
    ensures var after := if r.code != 0 then EnsureFrontier(cs, r) else DropFrontier(cs, r);
      |cs| <= |after| && after[i] ==
        if Occupies(cs[i], r.taskId, NextAction, "frontier") && cs[i].origin == Projector then Retire(cs[i], r.at) else cs[i]
  {
    RetireSlot(cs, r.taskId, NextAction, FRONTIER_SUBJECT, r.at);
    var f := SlotIndex(cs, r.taskId, NextAction, FRONTIER_SUBJECT);
    assert f < |cs| && f != i ==> !Occupies(cs[i], r.taskId, NextAction, FRONTIER_SUBJECT);
  }

  lemma AuthoredEffect(cs: seq<Claim>, ce: ClaimEvent, e: Event, i: nat)
    requires WellFormed(cs) && i < |cs| && cs[i].status == Current
    ensures var c := cs[i];
      var retired := (ce.op == Supersede && SupersedeTarget(ce) == c.id)
                     || (ce.op != CloseTask && HasClaimBody(ce) && (ce.supersedes == Some(c.id) || TakesPlace(ce, c)));
      |cs| <= |StepAuthored(cs, ce, e)| && StepAuthored(cs, ce, e)[i] == if retired then Retire(c, e.at) else c
  {
    hide SupersedeClaim, StepAssert, TakesPlace, HasClaimBody;
    if ce.op != CloseTask {
      if ce.op == Supersede {
        RetireById(cs, SupersedeTarget(ce), e.at);
      }
      var first := if ce.op == Supersede then SupersedeClaim(cs, SupersedeTarget(ce), e.at) else cs;
      assert first[i] == if ce.op == Supersede && SupersedeTarget(ce) == cs[i].id then Retire(cs[i], e.at) else cs[i];
      if HasClaimBody(ce) {
        AssertEffect(first, ce, e, i);
      }
    }
  }

  lemma AssertEffect(cs: seq<Claim>, ce: ClaimEvent, e: Event, i: nat)
    requires WellFormed(cs) && i < |cs| && HasClaimBody(ce)
    ensures |StepAssert(cs, ce, e)| == |cs| + 1
    ensures cs[i].status == Superseded && cs[i].updatedAt == e.at ==> StepAssert(cs, ce, e)[i] == cs[i]
    ensures cs[i].status == Current ==>
      StepAssert(cs, ce, e)[i] ==
        if ce.supersedes == Some(cs[i].id) || TakesPlace(ce, cs[i]) then Retire(cs[i], e.at) else cs[i]
  {
    hide WellFormed, ClearSlot, SupersedeNamed;
    ClearStep(cs, ce, e.at);
    ClearEffect(cs, ce, e.at, i);
    NamedEffect(ClearSlot(cs, ce, e.at), ce.supersedes, e.at, i);
  }

  lemma ClearEffect(cs: seq<Claim>, ce: ClaimEvent, at: nat, i: nat)
    requires WellFormed(cs) && i < |cs| && ce.kind.Some?
    ensures i < |ClearSlot(cs, ce, at)|
    ensures ClearSlot(cs, ce, at)[i] == if cs[i].status == Current && TakesPlace(ce, cs[i]) then Retire(cs[i], at) else cs[i]
  {
    if UniqueSlot(ce.kind.value) {
      RetireSlot(cs, ce.taskId, ce.kind.value, SubjectOf(ce), at);
    }
  }

  lemma NamedEffect(cs: seq<Claim>, named: Option<string>, at: nat, i: nat)
    requires WellFormed(cs) && i < |cs|
    ensures |SupersedeNamed(cs, named, at)| == |cs|
    ensures SupersedeNamed(cs, named, at)[i] == if named == Some(cs[i].id) then Retire(cs[i], at) else cs[i]
  {
    if named.Some? {
      RetireById(cs, named.value, at);
    }
  }

  /** A claim that was retired before is at most dated anew, by a row that names it. */
  lemma OldEffect(cs: seq<Claim>, e: Event, i: nat)
    requires WellFormed(cs) && i < |cs| && cs[i].status == Superseded
    ensures i < |StepClaims(cs, e)|
    ensures StepClaims(cs, e)[i] == cs[i]
      || (Retires(e, cs[i]) && StepClaims(cs, e)[i] == cs[i].(updatedAt := e.at))
  {
    hide StepRun, StepAuthored, ReadRun, Retires, IsStatement, SubjectOf;
    if IsRun(e) {
      OldAndRun(cs, ReadRun(e), i);
    } else if IsAuthored(e) {
      OldAndStatement(cs, e.body.claim.value, e, i);
    }
  }

  lemma OldAndRun(cs: seq<Claim>, r: Run, i: nat)
    requires WellFormed(cs) && i < |cs| && cs[i].status == Superseded
    ensures i < |StepRun(cs, r)| && StepRun(cs, r)[i] == cs[i]
  {
    hide EnsureFrontier, DropFrontier;
    RecordEffect(cs, r, i);
    OldAndFrontier(RecordReality(cs, r), r, i);
  }

  /** The claims before the last one have ids of their own. */
  lemma OldAndFrontier(cs: seq<Claim>, r: Run, i: nat)
    requires i < |cs| && cs[i].status == Superseded
    requires forall j | 0 <= j < |cs| && cs[j].status == Current && cs[j].kind == NextAction :: cs[j].id != cs[i].id
    ensures var after := if r.code != 0 then EnsureFrontier(cs, r) else DropFrontier(cs, r); i < |after| && after[i] == cs[i]
  {
  }

  lemma OldAndStatement(cs: seq<Claim>, ce: ClaimEvent, e: Event, i: nat)
    requires WellFormed(cs) && IsAuthored(e) && e.body.claim.value == ce && i < |cs| && cs[i].status == Superseded
    ensures i < |StepAuthored(cs, ce, e)|
    ensures StepAuthored(cs, ce, e)[i] == cs[i]
      || (Retires(e, cs[i]) && StepAuthored(cs, ce, e)[i] == cs[i].(updatedAt := e.at))
  {
    hide SupersedeClaim, ClearSlot, SupersedeNamed;
    RetractsIsTarget(e, cs[i].id);
    StatementAsserts(e);
    if ce.op != CloseTask {
      if ce.op == Supersede {
        RetireById(cs, SupersedeTarget(ce), e.at);
      }
      var first := if ce.op == Supersede then SupersedeClaim(cs, SupersedeTarget(ce), e.at) else cs;
      if HasClaimBody(ce) {
        ClearStep(first, ce, e.at);
        ClearEffect(first, ce, e.at, i);
        NamedEffect(ClearSlot(first, ce, e.at), ce.supersedes, e.at, i);
      }
    }
  }

  /** One row's effect on a current claim. */
  lemma StepEffect(cs: seq<Claim>, e: Event, i: nat)
    requires WellFormed(cs) && FreshFor(e, cs) && i < |cs| && cs[i].status == Current
    ensures i < |StepClaims(cs, e)| && StepClaims(cs, e)[i] == if Retires(e, cs[i]) then Retire(cs[i], e.at) else cs[i]
  {
    hide StepRun, StepAuthored, ReadRun, SubjectOf, HasClaimBody, SupersedeTarget;
    CommandIsRun(e);
    StatementAsserts(e);
    RetractsIsTarget(e, cs[i].id);
    if IsRun(e) {
      assert ReadRun(e).realityId in NewIds(e);
      RunEffect(cs, ReadRun(e), i);
    } else if IsAuthored(e) {
      AuthoredEffect(cs, e.body.claim.value, e, i);
    }
  }

  // ---------- what a step adds ----------

  /** The holder of the place that a new claim takes. */
  predicate HeldBy(before: seq<Claim>, k: Event, c: Claim, h: Claim) {
    && h in before && h.status == Current && h.taskId == c.taskId && h.kind == c.kind && h.subject == c.subject
    && !Retracts(k, h.id)
  }

  /** A claim is linked to the one whose place it took; without one, to the one its author
      named. */
  ghost predicate Linked(before: seq<Claim>, k: Event, c: Claim) {
    if OneAtATime(c.kind) && exists h :: HeldBy(before, k, c, h)
    then exists h :: HeldBy(before, k, c, h) && c.supersedes == Some(h.id)
    else c.supersedes == if IsStatement(k) then k.body.claim.value.supersedes else None
  }

  /** An author's next action is current on the task. */
  predicate AuthorsTurn(before: seq<Claim>, taskId: string) {
    exists c :: c in before && c.status == Current && c.taskId == taskId && c.kind == NextAction
      && c.subject == "frontier" && c.origin != Projector
  }

  lemma HolderIs(cs: seq<Claim>, taskId: string, kind: Kind, subject: string)
    ensures var holder := CurrentSlot(cs, taskId, kind, subject);
      if holder.Some? then holder.value in cs && Occupies(holder.value, taskId, kind, subject)
      else forall h | h in cs :: !Occupies(h, taskId, kind, subject)
  {
  }

  lemma AuthorsTurnIs(cs: seq<Claim>, taskId: string)
    requires WellFormed(cs)
    ensures AuthorsTurn(cs, taskId) <==>
      (var f := CurrentSlot(cs, taskId, NextAction, FRONTIER_SUBJECT); f.Some? && f.value.origin != Projector)
  {
    HolderIs(cs, taskId, NextAction, FRONTIER_SUBJECT);
    var holder := CurrentSlot(cs, taskId, NextAction, FRONTIER_SUBJECT);
    forall c | c in cs && Occupies(c, taskId, NextAction, FRONTIER_SUBJECT)
      ensures holder == Some(c)
    {
      OneOccupant(cs, c, holder.value);
    }
  }

  lemma OneOccupant(cs: seq<Claim>, a: Claim, b: Claim)
    requires WellFormed(cs) && a in cs && b in cs && a.status == b.status == Current && SameSlot(a, b)
    ensures a == b
  {
    var i :| 0 <= i < |cs| && cs[i] == a;
    var j :| 0 <= j < |cs| && cs[j] == b;
    assert SameSlot(b, a);
  }

  ghost predicate NewClaim(before: seq<Claim>, k: Event, c: Claim) {
    Says(k, c) && Linked(before, k, c) && c.status == Current && c.updatedAt == k.at
  }

  lemma StatementAdds(cs: seq<Claim>, ce: ClaimEvent, e: Event)
    requires WellFormed(cs) && IsAuthored(e) && e.body.claim.value == ce && Asserts(ce)
    ensures var after := StepAuthored(cs, ce, e);
      |after| == |cs| + 1 && Writes(e, after[|cs|]) && NewClaim(cs, e, after[|cs|])
  {
    var retired := if ce.op == Supersede then SupersedeClaim(cs, SupersedeTarget(ce), e.at) else cs;
    if ce.op == Supersede {
      RetireById(cs, SupersedeTarget(ce), e.at);
    }
    StatementAsserts(e);
    AuthoredNames(cs, ce, e, |StepAuthored(cs, ce, e)| - 1);
    var c := AuthoredClaim(ce, e, SlotVictim(retired, ce));
    assert StepAuthored(cs, ce, e)[|cs|] == c;
    assert Writes(e, c);
    StatementLinks(cs, retired, ce, e, c);
  }

  lemma StatementLinks(cs: seq<Claim>, retired: seq<Claim>, ce: ClaimEvent, e: Event, c: Claim)
    requires WellFormed(cs) && IsAuthored(e) && e.body.claim.value == ce && Asserts(ce) && |retired| == |cs|
    requires forall i | 0 <= i < |cs| :: retired[i] == if Retracts(e, cs[i].id) then Retire(cs[i], e.at) else cs[i]
    requires c == AuthoredClaim(ce, e, SlotVictim(retired, ce))
    ensures Linked(cs, e, c)
  {
    StatementAsserts(e);
    var kind, subject := ce.kind.value, SubjectOf(ce);
    HolderIs(retired, ce.taskId, kind, subject);
    var holder := CurrentSlot(retired, ce.taskId, kind, subject);
    if holder.Some? {
      var i :| 0 <= i < |retired| && retired[i] == holder.value;
      assert cs[i] == holder.value && HeldBy(cs, e, c, cs[i]);
    }
    forall h | HeldBy(cs, e, c, h)
      ensures holder.Some?
    {
      var i :| 0 <= i < |cs| && cs[i] == h;
      assert retired[i] == h;
    }
  }

  lemma RunAdds(cs: seq<Claim>, e: Event)
    requires WellFormed(cs) && IsRun(e) && FreshFor(e, cs)
    ensures var after := StepRun(cs, ReadRun(e));
      && |cs| < |after| && Observes(e, after[|cs|]) && NewClaim(cs, e, after[|cs|])
      && |after| == |cs| + (if e.body.exitCode.value != 0 && !AuthorsTurn(cs, ReadRun(e).taskId) then 2 else 1)
      && (|after| == |cs| + 2 ==> Suggests(e, after[|cs| + 1]) && NewClaim(cs, e, after[|cs| + 1]))
  {
    hide AuthorsTurn, EnsureFrontier, DropFrontier, Linked;
    var r := ReadRun(e);
    CommandIsRun(e);
    assert r.realityId in NewIds(e);
    RecordStep(cs, r);
    RecordLinks(cs, r);
    var recorded := RecordReality(cs, r);
    assert Observes(e, recorded[|cs|]);
    RealityLinks(cs, e);
    FrontierAdds(recorded, r);
    SameFrontier(cs, r);
    if |StepRun(cs, r)| == |cs| + 2 {
      FrontierLinks(cs, e);
    }
  }

  lemma FrontierAdds(cs: seq<Claim>, r: Run)
    requires WellFormed(cs)
    ensures var after := if r.code != 0 then EnsureFrontier(cs, r) else DropFrontier(cs, r);
      && |after| == |cs| + (if r.code != 0 && !AuthorsTurn(cs, r.taskId) then 1 else 0)
      && (forall i | 0 <= i < |cs| && cs[i].kind == Reality :: after[i] == cs[i])
      && (|after| > |cs| ==> after[|cs|] == FrontierClaim(r, SlotHolder(cs, r.taskId, NextAction, FRONTIER_SUBJECT)))
  {
    AuthorsTurnIs(cs, r.taskId);
    RetireSlot(cs, r.taskId, NextAction, FRONTIER_SUBJECT, r.at);
  }

  /** A new reality changes no next action. */
  lemma SameFrontier(cs: seq<Claim>, r: Run)
    requires WellFormed(cs)
    ensures var recorded := RecordReality(cs, r);
      && AuthorsTurn(recorded, r.taskId) == AuthorsTurn(cs, r.taskId)
      && forall h: Claim | h.kind == NextAction && h.status == Current :: h in recorded <==> h in cs
  {
    hide RecordReality, WellFormed;
    RecordLinks(cs, r);
    var recorded := RecordReality(cs, r);
    forall h: Claim | h.kind == NextAction && h.status == Current
      ensures h in recorded <==> h in cs
    {
      if h in cs {
        var i :| 0 <= i < |cs| && cs[i] == h;
        RecordEffect(cs, r, i);
      }
      if h in recorded {
        var i :| 0 <= i < |recorded| && recorded[i] == h;
        RecordEffect(cs, r, i);
      }
    }
  }

  lemma RealityLinks(cs: seq<Claim>, e: Event)
    requires WellFormed(cs) && IsRun(e)
    ensures var r := ReadRun(e); Linked(cs, e, RealityClaim(r, SlotHolder(cs, r.taskId, Reality, r.subject)))
  {
    var r := ReadRun(e);
    var c := RealityClaim(r, SlotHolder(cs, r.taskId, Reality, r.subject));
    HolderIs(cs, r.taskId, Reality, r.subject);
    var holder := CurrentSlot(cs, r.taskId, Reality, r.subject);
    if holder.Some? {
      assert HeldBy(cs, e, c, holder.value);
    }
  }

  lemma FrontierLinks(cs: seq<Claim>, e: Event)
    requires WellFormed(cs) && IsRun(e)
    ensures var r := ReadRun(e);
      Linked(cs, e, FrontierClaim(r, SlotHolder(RecordReality(cs, r), r.taskId, NextAction, FRONTIER_SUBJECT)))
  {
    hide RecordReality;
    var r := ReadRun(e);
    SameFrontier(cs, r);
    var recorded := RecordReality(cs, r);
    var c := FrontierClaim(r, SlotHolder(recorded, r.taskId, NextAction, FRONTIER_SUBJECT));
    HolderIs(recorded, r.taskId, NextAction, FRONTIER_SUBJECT);
    var holder := CurrentSlot(recorded, r.taskId, NextAction, FRONTIER_SUBJECT);
    if holder.Some? {
      assert HeldBy(cs, e, c, holder.value);
    }
    forall h | HeldBy(cs, e, c, h)
      ensures holder.Some?
    {
      assert h in recorded;
    }
  }

  /** What one row adds: one claim for a statement, the result of a command and, if it failed
      and no author's next action stands, one that says so; nothing else adds any. */
  lemma StepAdds(cs: seq<Claim>, e: Event)
    requires WellFormed(cs) && FreshFor(e, cs)
    ensures var after := StepClaims(cs, e);
      && |cs| <= |after| && (forall i | |cs| <= i < |after| :: NewClaim(cs, e, after[i]))
      && (IsStatement(e) ==> |after| == |cs| + 1 && Writes(e, after[|cs|]))
      && (IsCommand(e) ==> |after| > |cs| && Observes(e, after[|cs|]))
      && (IsCommand(e) && e.body.exitCode.value != 0 && !AuthorsTurn(cs, TaskIdFor(CommandSubject(e))) ==>
            |after| == |cs| + 2 && Suggests(e, after[|cs| + 1]))
      && (IsCommand(e) && (e.body.exitCode.value == 0 || AuthorsTurn(cs, TaskIdFor(CommandSubject(e)))) ==> |after| == |cs| + 1)
      && (!IsStatement(e) && !IsCommand(e) ==> |after| == |cs|)
  {
    hide NewClaim, StepRun, Writes, Observes, Suggests, AuthorsTurn, CommandSubject;
    CommandIsRun(e);
    StatementAsserts(e);
    if IsRun(e) {
      RunAdds(cs, e);
    } else if IsAuthored(e) {
      if Asserts(e.body.claim.value) {
        StatementAdds(cs, e.body.claim.value, e);
      } else if e.body.claim.value.op == Supersede {
        RetireById(cs, SupersedeTarget(e.body.claim.value), e.at);
      }
    }
  }

  // ---------- the whole log ----------

  lemma Before(log: seq<Event>, n: nat)
    requires AssertedOnce(log) && n < |log|
    ensures WellFormed(Fold(log[..n]).claims) && FreshFor(log[n], Fold(log[..n]).claims)
    ensures Fold(log[..n + 1]).claims == StepClaims(Fold(log[..n]).claims, log[n])
  {
    hide Fold;
    var some := log[..n + 1];
    assert some[..n] == log[..n] && some[n] == log[n];
    FoldIsWellFormed(log[..n]);
    NextIsFresh(some, Fold(log[..n]).claims);
    LastStep(some);
  }

  /** From some row on, a current claim stays as it is until a row retires it. */
  lemma {:induction false} CurrentUntilRetired(log: seq<Event>, n: nat, i: nat, m: nat)
    requires AssertedOnce(log) && n <= m <= |log| && i < |Fold(log[..n]).claims| && Fold(log[..n]).claims[i].status == Current
    ensures i < |Fold(log[..m]).claims|
    ensures var c := Fold(log[..n]).claims[i];
      && Aged(c, Fold(log[..m]).claims[i])
      && (Fold(log[..m]).claims[i].status == Current <==> forall j | n <= j < m :: !Retires(log[j], c))
      && (Fold(log[..m]).claims[i].status == Current ==> Fold(log[..m]).claims[i] == c)
    decreases m
  {
    hide Fold, Retires, AssertedOnce, Extends;
    if n < m {
      CurrentUntilRetired(log, n, i, m - 1);
      OneMoreRow(log, m - 1, i);
    }
  }

  lemma OneMoreRow(log: seq<Event>, m: nat, i: nat)
    requires AssertedOnce(log) && m < |log| && i < |Fold(log[..m]).claims|
    ensures var c := Fold(log[..m]).claims[i];
      && i < |Fold(log[..m + 1]).claims| && Aged(c, Fold(log[..m + 1]).claims[i])
      && (c.status == Current ==> Fold(log[..m + 1]).claims[i] == if Retires(log[m], c) then Retire(c, log[m].at) else c)
  {
    hide Fold, Retires, AssertedOnce, FreshFor, WellFormed, StepClaims;
    assert log[..m + 1][..m] == log[..m];
    ClaimsOnlyAge(log[..m + 1], m);
    Before(log, m);
    if Fold(log[..m]).claims[i].status == Current {
      StepEffect(Fold(log[..m]).claims, log[m], i);
    }
  }

  /** A retired claim bears the time of a row that retires it. */
  lemma {:induction false} DatedByRetiring(log: seq<Event>, n: nat, i: nat, m: nat)
    requires AssertedOnce(log) && n <= m <= |log| && i < |Fold(log[..n]).claims| && Fold(log[..n]).claims[i].status == Current
    ensures i < |Fold(log[..m]).claims|
    ensures var c := Fold(log[..m]).claims[i];
      c.status == Superseded ==> exists j | n <= j < m :: Retires(log[j], c) && c.updatedAt == log[j].at
    decreases m
  {
    hide Fold, Retires, AssertedOnce, Extends;
    if n < m {
      DatedByRetiring(log, n, i, m - 1);
      DatedStep(log, m - 1, i);
      var d, c := Fold(log[..m - 1]).claims[i], Fold(log[..m]).claims[i];
      if c.status == Superseded && !(Retires(log[m - 1], c) && c.updatedAt == log[m - 1].at) {
        var j :| n <= j < m - 1 && Retires(log[j], d) && d.updatedAt == log[j].at;
        AgedRetires(log[j], d, c);
      }
    }
  }

  lemma DatedStep(log: seq<Event>, m: nat, i: nat)
    requires AssertedOnce(log) && m < |log| && i < |Fold(log[..m]).claims|
    ensures i < |Fold(log[..m + 1]).claims|
    ensures var d, c := Fold(log[..m]).claims[i], Fold(log[..m + 1]).claims[i];
      Aged(d, c) && (c == d || (c.status == Superseded && Retires(log[m], c) && c.updatedAt == log[m].at))
  {
    hide Fold, Retires, AssertedOnce, FreshFor, WellFormed, StepClaims;
    OneMoreRow(log, m, i);
    Before(log, m);
    var d, c := Fold(log[..m]).claims[i], Fold(log[..m + 1]).claims[i];
    AgedRetires(log[m], d, c);
    if d.status == Superseded {
      OldEffect(Fold(log[..m]).claims, log[m], i);
    }
  }

  /** The row that made a claim. */
  lemma {:induction false} MadeAt(log: seq<Event>, i: nat, m: nat) returns (n: nat)
    requires m <= |log| && i < |Fold(log[..m]).claims|
    ensures n < m && |Fold(log[..n]).claims| <= i < |Fold(log[..n + 1]).claims|
    decreases m
  {
    NothingFolds(log);
    hide Fold;
    n := m - 1;
    if i < |Fold(log[..m - 1]).claims| {
      n := MadeAt(log, i, m - 1);
    }
  }

  lemma NothingFolds(log: seq<Event>)
    ensures Fold(log[..0]).claims == []
  {
  }

  /** Every claim of the fold says what one row wrote, is linked to the claim it took the place
      of or named, and is current exactly if no later row retires it. A current claim bears the
      time of its row, a retired one the time of a row that retires it. */
  lemma ClaimsSayTheirRows(log: seq<Event>, i: nat) returns (n: nat)
    requires AssertedOnce(log) && i < |Fold(log).claims|
    ensures n < |log| && Says(log[n], Fold(log).claims[i]) && Linked(Fold(log[..n]).claims, log[n], Fold(log).claims[i])
    ensures var c := Fold(log).claims[i];
      && (c.status == Current <==> forall m | n < m < |log| :: !Retires(log[m], c))
      && (c.status == Current ==> c.updatedAt == log[n].at)
      && (c.status == Superseded ==> exists m | n < m < |log| :: Retires(log[m], c) && c.updatedAt == log[m].at)
  {
    hide Fold, Retires, Says, Linked, AssertedOnce, NewClaim;
    assert log[..|log|] == log;
    n := MadeAt(log, i, |log|);
    Before(log, n);
    StepAdds(Fold(log[..n]).claims, log[n]);
    var born, c := Fold(log[..n + 1]).claims[i], Fold(log).claims[i];
    NewIsSaid(Fold(log[..n]).claims, log[n], born);
    SinceThen(log, n + 1, i);
    AgedSays(Fold(log[..n]).claims, log[n], born, c);
  }

  lemma NewIsSaid(before: seq<Claim>, k: Event, c: Claim)
    requires NewClaim(before, k, c)
    ensures Says(k, c) && Linked(before, k, c) && c.status == Current && c.updatedAt == k.at
  {
  }

  /** What became of a claim that was current after `n` rows. */
  lemma SinceThen(log: seq<Event>, n: nat, i: nat)
    requires AssertedOnce(log) && n <= |log| && i < |Fold(log[..n]).claims| && Fold(log[..n]).claims[i].status == Current
    ensures i < |Fold(log).claims| && Aged(Fold(log[..n]).claims[i], Fold(log).claims[i])
    ensures var born, c := Fold(log[..n]).claims[i], Fold(log).claims[i];
      && (c.status == Current <==> forall m | n <= m < |log| :: !Retires(log[m], c))
      && (c.status == Current ==> c.updatedAt == born.updatedAt)
      && (c.status == Superseded ==> exists m | n <= m < |log| :: Retires(log[m], c) && c.updatedAt == log[m].at)
  {
    hide Fold, Retires, AssertedOnce;
    assert log[..|log|] == log;
    CurrentUntilRetired(log, n, i, |log|);
    DatedByRetiring(log, n, i, |log|);
    var born, c := Fold(log[..n]).claims[i], Fold(log).claims[i];
    forall m | n <= m < |log|
      ensures Retires(log[m], c) == Retires(log[m], born)
    {
      AgedRetires(log[m], born, c);
    }
  }

  lemma AgedSays(before: seq<Claim>, k: Event, a: Claim, b: Claim)
    requires Aged(a, b)
    ensures Says(k, a) == Says(k, b) && Linked(before, k, a) == Linked(before, k, b)
    ensures Writes(k, a) == Writes(k, b) && Observes(k, a) == Observes(k, b) && Suggests(k, a) == Suggests(k, b)
  {
    assert forall h :: HeldBy(before, k, a, h) == HeldBy(before, k, b, h);
  }

  lemma AgedRetires(k: Event, a: Claim, b: Claim)
    requires Aged(a, b)
    ensures Retires(k, a) == Retires(k, b)
  {
  }

  /** Every row that writes makes its claims: a statement one, a command one for its result,
      and a failed command one more, unless an author's next action stood on the task. */
  lemma RowsMakeTheirClaims(log: seq<Event>, n: nat)
    requires AssertedOnce(log) && n < |log|
    ensures IsStatement(log[n]) ==> exists c :: c in Fold(log).claims && Writes(log[n], c)
    ensures IsCommand(log[n]) ==> exists c :: c in Fold(log).claims && Observes(log[n], c)
    ensures var turn := AuthorsTurn(Fold(log[..n]).claims, TaskIdFor(CommandSubject(log[n])));
      IsCommand(log[n]) && log[n].body.exitCode.value != 0 && !turn ==> exists c :: c in Fold(log).claims && Suggests(log[n], c)
  {
    hide Fold, Writes, Observes, Suggests, IsStatement, IsCommand, AuthorsTurn, CommandSubject;
    var before, after := Fold(log[..n]).claims, Fold(log[..n + 1]).claims;
    Before(log, n);
    StepAdds(before, log[n]);
    ClaimsOnlyAge(log, n + 1);
    forall i | |before| <= i < |after|
      ensures Fold(log).claims[i] in Fold(log).claims
      ensures Writes(log[n], after[i]) == Writes(log[n], Fold(log).claims[i])
      ensures Observes(log[n], after[i]) == Observes(log[n], Fold(log).claims[i])
      ensures Suggests(log[n], after[i]) == Suggests(log[n], Fold(log).claims[i])
    {
      AgedSays(before, log[n], after[i], Fold(log).claims[i]);
    }
  }

  // ---------- tasks ----------

  /** The row is on the task: a command whose subject names it, or a claim row that says so. */
  predicate On(k: Event, taskId: string) {
    || (IsCommand(k) && TaskIdFor(CommandSubject(k)) == taskId)
    || (k.body.Authored? && k.body.claim.Some? && k.body.claim.value.taskId == taskId && taskId != "")
  }

  predicate ClosesIt(k: Event, taskId: string) {
    On(k, taskId) && k.body.Authored? && k.body.claim.value.op == CloseTask
  }

  lemma OnIsTaskOf(k: Event, taskId: string)
    ensures On(k, taskId) <==> TaskOf(k) == Some(taskId)
    ensures ClosesIt(k, taskId) <==> TaskOf(k) == Some(taskId) && Closes(k)
  {
    CommandIsRun(k);
  }

  /** The task as its rows tell it: opened by the first, updated by the last, done once one of
      them closed it. */
  predicate TaskOfRows(log: seq<Event>, t: Task, first: nat, last: nat) {
    && first <= last < |log| && On(log[first], t.id) && On(log[last], t.id)
    && (forall i | 0 <= i < |log| && On(log[i], t.id) :: first <= i <= last)
    && t.openedBy == log[first].id && t.createdAt == log[first].at && t.updatedAt == log[last].at
    && (t.status == Done <==> exists k :: k in log && ClosesIt(k, t.id))
    && (if t.status == Done then LastCloser(log, t) else t.closedBy == None)
  }

  predicate LastCloser(log: seq<Event>, t: Task) {
    exists i | 0 <= i < |log| ::
      ClosesIt(log[i], t.id) && t.closedBy == Some(log[i].id) && forall j | i < j < |log| :: !ClosesIt(log[j], t.id)
  }

  lemma {:induction false} RecordOfRows(log: seq<Event>, id: string) returns (first: nat, last: nat)
    ensures var t := TaskRecord(log, id);
      if t.None? then forall k | k in log :: !On(k, id)
      else t.value.id == id && TaskOfRows(log, t.value, first, last)
  {
    first, last := 0, 0;
    if log != [] {
      hide TaskOfRows, On, ClosesIt;
      var init, e := log[..|log| - 1], log[|log| - 1];
      assert log == init + [e];
      OnIsTaskOf(e, id);
      first, last := RecordOfRows(init, id);
      var before, after := TaskRecord(init, id), TaskRecord(log, id);
      if !On(e, id) {
        if before.Some? {
          OtherRow(log, before.value, first, last);
        }
      } else if before.None? {
        first, last := |init|, |init|;
        FirstRow(log, after.value);
      } else {
        NextRow(log, before.value, after.value, first, last);
        last := |init|;
      }
    }
  }

  lemma FirstRow(log: seq<Event>, t: Task)
    requires log != [] && On(log[|log| - 1], t.id) && forall k | k in log[..|log| - 1] :: !On(k, t.id)
    requires var e := log[|log| - 1];
      t == if ClosesIt(e, t.id) then Task(t.id, Done, e.id, Some(e.id), e.at, e.at) else Task(t.id, Active, e.id, None, e.at, e.at)
    ensures TaskOfRows(log, t, |log| - 1, |log| - 1)
  {
    hide On;
    var init, e := log[..|log| - 1], log[|log| - 1];
    forall i | 0 <= i < |init|
      ensures !On(log[i], t.id)
    {
      assert init[i] in init;
    }
    assert e in log;
  }

  lemma NextRow(log: seq<Event>, before: Task, t: Task, first: nat, last: nat)
    requires log != [] && TaskOfRows(log[..|log| - 1], before, first, last) && On(log[|log| - 1], before.id)
    requires var e := log[|log| - 1];
      t == if ClosesIt(e, before.id) then before.(updatedAt := e.at, status := Done, closedBy := Some(e.id))
           else before.(updatedAt := e.at)
    ensures TaskOfRows(log, t, first, |log| - 1)
  {
    hide On, ClosesIt;
    var init, e := log[..|log| - 1], log[|log| - 1];
    assert log == init + [e];
    if t.status == Done && !ClosesIt(e, t.id) {
      CloserStays(log, before);
      assert LastCloser(log, t);
    } else if ClosesIt(e, t.id) {
      assert log[|init|] == e;
      assert LastCloser(log, t);
    }
  }

  lemma CloserStays(log: seq<Event>, t: Task)
    requires log != [] && LastCloser(log[..|log| - 1], t) && !ClosesIt(log[|log| - 1], t.id)
    ensures LastCloser(log, t)
  {
    var init := log[..|log| - 1];
    var i :| 0 <= i < |init| && ClosesIt(init[i], t.id) && t.closedBy == Some(init[i].id)
             && forall j | i < j < |init| :: !ClosesIt(init[j], t.id);
    assert log[i] == init[i];
    forall j | i < j < |log|
      ensures !ClosesIt(log[j], t.id)
    {
      if j < |init| {
        assert log[j] == init[j];
      }
    }
  }

  lemma OtherRow(log: seq<Event>, t: Task, first: nat, last: nat)
    requires log != [] && TaskOfRows(log[..|log| - 1], t, first, last) && !On(log[|log| - 1], t.id)
    ensures TaskOfRows(log, t, first, last)
  {
    var init, e := log[..|log| - 1], log[|log| - 1];
    assert log == init + [e];
    assert !ClosesIt(e, t.id);
    hide On, ClosesIt;
    if t.status == Done {
      CloserStays(log, t);
    }
  }

  /** A task is there exactly if some row is on it. The first such row opened it, the last
      updated it, and it is done exactly if one closed it; the last that did is its closing
      row. Task ids are unique. */
  lemma TasksAreTheirRows(log: seq<Event>, id: string)
    ensures TasksOnce(Fold(log).tasks)
    ensures (exists t :: t in Fold(log).tasks && t.id == id) <==> exists k :: k in log && On(k, id)
    ensures forall t | t in Fold(log).tasks && t.id == id :: exists first, last :: TaskOfRows(log, t, first, last)
  {
    hide On, TaskOfRows, TaskRecord;
    FoldTasks(log, id);
    var first, last := RecordOfRows(log, id);
    var tasks := Fold(log).tasks;
    hide Fold;
    forall t | t in tasks && t.id == id
      ensures FindTask(tasks, id) == Some(t)
    {
      var i :| 0 <= i < |tasks| && tasks[i] == t;
      FindUnique(tasks, i);
    }
    if TaskRecord(log, id).Some? {
      assert TaskRecord(log, id).value in tasks;
      RowsOfTask(log, TaskRecord(log, id).value, first, last);
    }
  }

  lemma RowsOfTask(log: seq<Event>, t: Task, first: nat, last: nat)
    requires TaskOfRows(log, t, first, last)
    ensures first < |log| && log[first] in log && On(log[first], t.id)
  {
  }

  // ---------- what is cited is kept ----------

  /** No row that the source of a current claim cites, and no row that is itself the source of
      a current claim of the projector, is offered by the prune query. */
  lemma CitedIsKept(log: seq<Event>, i: nat, k: Event, e: Event)
    requires i < |Fold(log).claims| && Fold(log).claims[i].status == Current && k in log && Says(k, Fold(log).claims[i])
    requires if IsStatement(k) then e.id in k.body.claim.value.evidenceIds else e.id == k.id
    ensures !Prunable(Fold(log), e)
  {
    hide Fold;
    var c := Fold(log).claims[i];
    assert c in Fold(log).claims && e.id in c.evidenceIds;
  }
}
