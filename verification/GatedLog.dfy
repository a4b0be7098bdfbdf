/** Logs whose claim rows passed the write gate, and what their fold keeps at every row. */
module GatedLog {
  import opened Text
  import opened Claims
  import opened Projector
  import opened CurrentView

  // ---------- the hypotheses ----------

  /** Ids of claims an event retires by name. */
  function Targets(e: Event): set<string> {
    if IsAuthored(e) && e.body.claim.value.op != CloseTask then
      var ce := e.body.claim.value;
      (if ce.op == Supersede then {SupersedeTarget(ce)} else {})
      + (if HasClaimBody(ce) && ce.supersedes.Some? then {ce.supersedes.value} else {})
    else {}
  }

  predicate WrittenBy(e: Event, origin: Origin) {
    IsAuthored(e) && e.body.claim.value.origin == origin
  }

  /** An authored row the writers can produce: the static gate accepts it, it carries no
      outcome, and its findings do not sit in the slot of a command. */
  predicate RowOk(e: Event) {
    IsAuthored(e) ==>
      var ce := e.body.claim.value;
      && Validate(ce.origin, ce).Accept?
      && ce.outcome.None?
      && (ce.kind == Some(Reality) ==> NoNewline(SubjectOf(ce)))
  }

  /** Accepted by both gates against `view`, in the form the writers produce. */
  predicate GatePassed(view: View, e: Event) {
    && RowOk(e)
    && (IsAuthored(e) ==> ValidateAgainst(e.body.claim.value.origin, e.body.claim.value, view).Accept?)
    && e.body.Authored?
  }

  predicate Compatible(a: Event, b: Event) {
    && (a != b ==> NewIds(a) !! NewIds(b))
    && (IsRun(b) ==> ReadRun(b).realityId !in Targets(a))
    && (WrittenBy(a, Agent) && WrittenBy(b, User) ==> Targets(a) !! NewIds(b))
  }

  predicate DistinctEvents(log: seq<Event>) {
    forall i, j | 0 <= i < j < |log| :: log[i].id != log[j].id
  }

  predicate Gated(log: seq<Event>) {
    && DistinctEvents(log)
    && (forall a | a in log :: RowOk(a))
    && (forall a, b | a in log && b in log :: Compatible(a, b))
  }

  /** Gating only forbids pairs of rows, so it survives deletion. */
  lemma GatedSublog(log: seq<Event>, sub: seq<Event>)
    requires Gated(log) && DistinctEvents(sub) && forall e | e in sub :: e in log
    ensures Gated(sub)
  {
  }

  lemma GatedPrefix(log: seq<Event>)
    requires Gated(log) && log != []
    ensures Gated(log[..|log| - 1])
  {
    GatedSublog(log, log[..|log| - 1]);
  }

  // ---------- slot uniqueness and the current view ----------

  /** All ids of claims that rows of the log may add. */
  predicate Named(log: seq<Event>, id: string) {
    exists e :: e in log && id in NewIds(e)
  }

  lemma StepNames(cs: seq<Claim>, e: Event, i: nat)
    requires WellFormed(cs) && i < |StepClaims(cs, e)|
    ensures |cs| <= |StepClaims(cs, e)|
    ensures if i < |cs| then StepClaims(cs, e)[i].id == cs[i].id else StepClaims(cs, e)[i].id in NewIds(e)
  {
    if IsRun(e) {
      RunNames(cs, ReadRun(e), i);
    } else if IsAuthored(e) {
      AuthoredNames(cs, e.body.claim.value, e, i);
    }
  }

  lemma AuthoredNames(cs: seq<Claim>, ce: ClaimEvent, e: Event, i: nat)
    requires WellFormed(cs) && i < |StepAuthored(cs, ce, e)|
    ensures |StepAuthored(cs, ce, e)| == |cs| + if Asserts(ce) then 1 else 0
    ensures StepAuthored(cs, ce, e)[i].id == if i < |cs| then cs[i].id else ce.claimId
  {
    if ce.op == Supersede {
      RetireById(cs, SupersedeTarget(ce), e.at);
    }
    var retired := if ce.op == Supersede then SupersedeClaim(cs, SupersedeTarget(ce), e.at) else cs;
    if Asserts(ce) {
      ClearStep(retired, ce, e.at);
      NamedStep(ClearSlot(retired, ce, e.at), ce.supersedes, e.at);
    }
  }

  lemma RunNames(cs: seq<Claim>, r: Run, i: nat)
    requires i < |StepRun(cs, r)|
    ensures |cs| < |StepRun(cs, r)|
    ensures i < |cs| ==> StepRun(cs, r)[i].id == cs[i].id
    ensures i == |cs| ==> StepRun(cs, r)[i].id == r.realityId
    ensures i > |cs| ==> StepRun(cs, r)[i].id == r.frontierId
  {
    hide RecordReality;
    RecordNames(cs, r, i);
  }

  lemma RecordNames(cs: seq<Claim>, r: Run, i: nat)
    ensures var after := RecordReality(cs, r);
      && |after| == |cs| + 1 && after[|cs|].id == r.realityId && (i < |cs| ==> after[i].id == cs[i].id)
  {
  }

  predicate AssertedOnce(log: seq<Event>) {
    forall i, j | 0 <= i < j < |log| :: NewIds(log[i]) !! NewIds(log[j])
  }

  lemma NextIsFresh(log: seq<Event>, cs: seq<Claim>)
    requires AssertedOnce(log) && log != []
    requires forall i | 0 <= i < |cs| :: Named(log[..|log| - 1], cs[i].id)
    ensures FreshFor(log[|log| - 1], cs)
  {
    var init, e := log[..|log| - 1], log[|log| - 1];
    forall i | 0 <= i < |cs|
      ensures cs[i].id !in NewIds(e)
    {
      var k :| k in init && cs[i].id in NewIds(k);
      var j :| 0 <= j < |init| && init[j] == k;
      assert log[j] == k;
    }
  }

  /** With ids asserted once, every slot has at most one current claim, claim ids are
      unique, and the current claims are those of the history-free fold. */
  lemma {:induction false} FoldIsWellFormed(log: seq<Event>)
    requires AssertedOnce(log)
    ensures WellFormed(Fold(log).claims)
    ensures Live(Fold(log).claims) == CurrentClaims(log)
    ensures forall i | 0 <= i < |Fold(log).claims| :: Named(log, Fold(log).claims[i].id)
  {
    if log != [] {
      var init, e := log[..|log| - 1], log[|log| - 1];
      FoldIsWellFormed(init);
      var cs := Fold(init).claims;
      NextIsFresh(log, cs);
      StepAgrees(cs, e);
      forall i | 0 <= i < |Fold(log).claims|
        ensures Named(log, Fold(log).claims[i].id)
      {
        StepNames(cs, e, i);
        if i < |cs| {
          var k :| k in init && cs[i].id in NewIds(k);
          assert k in log;
        } else {
          assert e in log;
        }
      }
    }
  }

  lemma GatedFold(log: seq<Event>)
    requires Gated(log)
    ensures AssertedOnce(log)
    ensures WellFormed(Fold(log).claims)
    ensures Live(Fold(log).claims) == CurrentClaims(log)
    ensures forall i | 0 <= i < |Fold(log).claims| :: Named(log, Fold(log).claims[i].id)
  {
    forall i, j | 0 <= i < j < |log|
      ensures NewIds(log[i]) !! NewIds(log[j])
    {
      assert Compatible(log[i], log[j]);
    }
    FoldIsWellFormed(log);
  }

  // ---------- what every current claim looks like ----------

  predicate ClaimOk(c: Claim) {
    if c.origin == Projector then
      || (c.kind == Reality && c.taskId == TaskIdFor(c.subject) && !NoNewline(c.subject)
          && c.confidence == Observed && c.outcome.Some?)
      || (c.kind == NextAction && c.subject == FRONTIER_SUBJECT && c.confidence == Inferred
          && c.outcome.None?)
    else
      c.outcome.None? && (c.kind == Reality ==> NoNewline(c.subject))
  }

  predicate LiveOk(live: seq<Claim>) {
    forall c | c in live :: ClaimOk(c)
  }

  lemma AuthoredClaimOk(ce: ClaimEvent, e: Event)
    requires IsAuthored(e) && e.body.claim.value == ce && RowOk(e) && Asserts(ce)
    ensures ClaimOk(Bare(AuthoredClaim(ce, e, None)))
    ensures ce.origin == User ==> ce.kind.value in {Intent, Constraint, Decision, RuledOut}
    ensures ce.origin == Agent ==> ce.kind.value !in {Intent, Constraint}
  {
  }

  lemma StepLiveOk(live: seq<Claim>, e: Event)
    requires LiveOk(live) && RowOk(e)
    ensures LiveOk(StepLive(live, e))
  {
    if IsRun(e) {
      var r := ReadRun(e);
      ShellSubjectHasNewline(e.body.cwd, Collapse(Trim(e.body.command)));
      KeepMembers(DropSlot(r.taskId, Reality, r.subject), live);
      var l := Keep(DropSlot(r.taskId, Reality, r.subject), live) + [RealityClaim(r, None)];
      KeepMembers(DropSlot(r.taskId, NextAction, FRONTIER_SUBJECT), l);
    } else if IsAuthored(e) && e.body.claim.value.op != CloseTask {
      var ce := e.body.claim.value;
      KeepMembers(DropId(SupersedeTarget(ce)), live);
      var l := if ce.op == Supersede then Keep(DropId(SupersedeTarget(ce)), live) else live;
      if HasClaimBody(ce) {
        AuthoredClaimOk(ce, e);
        var slot := DropSlot(ce.taskId, ce.kind.value, SubjectOf(ce));
        KeepMembers(slot, l);
        var k := if UniqueSlot(ce.kind.value) then Keep(slot, l) else l;
        if ce.supersedes.Some? {
          KeepMembers(DropId(ce.supersedes.value), k);
        }
      }
    }
  }

  lemma {:induction false} CurrentOk(log: seq<Event>)
    requires Gated(log)
    ensures LiveOk(CurrentClaims(log))
  {
    if log != [] {
      GatedPrefix(log);
      CurrentOk(log[..|log| - 1]);
      StepLiveOk(CurrentClaims(log[..|log| - 1]), log[|log| - 1]);
    }
  }
}
