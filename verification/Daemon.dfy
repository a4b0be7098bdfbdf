/** The daemon's writers as a protocol: they read a stored view, prepare a row, and append it
    later under the writer lock, while observations arrive and the pruner deletes rows. */
module Daemon {
  import opened Text
  import opened Claims
  import opened Projector
  import opened CurrentView
  import opened GatedLog
  import opened FoldLaws
  import opened Trust
  import opened Compaction
  import opened Ordering
  import opened Briefing

  // ---------- requests ----------

  datatype UserKind = NewConstraint | NewDecision | NewRuledOut | Retract | CloseFocal

  datatype Request =
    | SetIntent(text: string)
    | UserClaim(kind: UserKind, text: string)
    | AgentClaim(agentKind: Kind, text: string, confidence: Option<Confidence>, instead: Option<string>)

  datatype Answer = Write(row: ClaimEvent) | NoActiveTask | Refused(why: Refusal)

  function Blank(op: Op, claimId: string, taskId: string, origin: Origin): ClaimEvent {
    ClaimEvent(op, claimId, taskId, None, None, None, None, origin, None, [], [], None)
  }

  function ClaimIdOf(eventId: string): string {
    "c_" + eventId
  }

  function Checked(origin: Origin, ce: ClaimEvent, seen: View): Answer {
    match Validate(origin, ce)
    case Refuse(why) => Refused(why)
    case Accept =>
      match ValidateAgainst(origin, ce, seen)
      case Refuse(why) => Refused(why)
      case Accept => Write(ce)
  }

  /** A user's intent: on the focal task, or on a task of its own. */
  function PrepareIntent(seen: View, text: string, eventId: string): Answer {
    if CheckText(text).None? then Refused(BadText)
    else
      var focal := FocalTask(WorkOf(seen));
      var taskId := if focal.Some? then focal.value.id else HashedId("t_", [eventId]);
      var ce := Blank(Assert, ClaimIdOf(eventId), taskId, User).(
        kind := Some(Intent), subject := Some(INTENT_SUBJECT), text := CheckText(text), confidence := Some(Stated));
      match Validate(User, ce)
      case Refuse(why) => Refused(why)
      case Accept => Write(ce)
  }

  function PrepareUserClaim(seen: View, kind: UserKind, text: string, eventId: string): Answer {
    var focal := FocalTask(WorkOf(seen));
    if kind == CloseFocal then
      if focal.None? then NoActiveTask
      else
        var ce := Blank(CloseTask, ClaimIdOf(eventId), focal.value.id, User);
        match Validate(User, ce)
        case Refuse(why) => Refused(why)
        case Accept => Write(ce)
    else if kind == Retract then
      if CheckText(text).None? then Refused(BadText)
      else
        var id := CheckText(text).value;
        var named := FindClaim(seen.claims, id);
        Checked(User, Blank(Supersede, id, if named.Some? then named.value.taskId else "", User).(
          supersedes := Some(id)), seen)
    else if focal.None? then NoActiveTask
    else if CheckText(text).None? then Refused(BadText)
    else
      var claimKind := match kind case NewConstraint => Constraint case NewDecision => Decision case _ => RuledOut;
      var ce := Blank(Assert, ClaimIdOf(eventId), focal.value.id, User).(
        kind := Some(claimKind), subject := Some(ClaimIdOf(eventId)), text := CheckText(text),
        confidence := Some(Stated));
      match Validate(User, ce)
      case Refuse(why) => Refused(why)
      case Accept => Write(ce)
  }

  function PrepareAgentClaim(
    seen: View, kind: Kind, text: string, confidence: Option<Confidence>, instead: Option<string>,
    eventId: string): Answer
  {
    var focal := FocalTask(WorkOf(seen));
    if focal.None? then NoActiveTask
    else if CheckText(text).None? then Refused(BadText)
    else
      var frontier := CurrentSlot(seen.claims, focal.value.id, NextAction, FRONTIER_SUBJECT);
      Checked(Agent, Blank(Assert, ClaimIdOf(eventId), focal.value.id, Agent).(
        kind := Some(kind),
        subject := Some(if kind == NextAction then FRONTIER_SUBJECT else ClaimIdOf(eventId)),
        text := CheckText(text),
        confidence := Some(if kind == Unknown then Hypothesis
                           else if confidence.Some? then confidence.value else Inferred),
        supersedes := if kind == NextAction && frontier.Some? && frontier.value.origin != User
                      then Some(frontier.value.id) else instead), seen)
  }

  function Prepare(seen: View, q: Request, eventId: string): Answer {
    match q
    case SetIntent(text) => PrepareIntent(seen, text, eventId)
    case UserClaim(kind, text) => PrepareUserClaim(seen, kind, text, eventId)
    case AgentClaim(kind, text, confidence, instead) =>
      PrepareAgentClaim(seen, kind, text, confidence, instead, eventId)
  }

  /** Both gates accepted the row, it carries no outcome, it names its own claim after the new
      event, and its findings stay out of command slots. */
  predicate PassedGate(seen: View, ce: ClaimEvent, eventId: string) {
    && Validate(ce.origin, ce).Accept? && ValidateAgainst(ce.origin, ce, seen).Accept?
    && ce.outcome.None? && (ce.kind == Some(Reality) ==> SubjectOf(ce) == ClaimIdOf(eventId))
    && (Asserts(ce) ==> ce.claimId == ClaimIdOf(eventId))
  }

  lemma UntargetedUserRow(seen: View, ce: ClaimEvent, eventId: string)
    requires Validate(User, ce).Accept? && ce.supersedes.None? && ce.op != Supersede && ce.outcome.None?
    requires ce.kind != Some(Reality) && ce.claimId == ClaimIdOf(eventId)
    ensures PassedGate(seen, ce, eventId)
  {
  }

  lemma PreparedAgentRow(seen: View, kind: Kind, text: string, confidence: Option<Confidence>,
                         instead: Option<string>, eventId: string)
    requires PrepareAgentClaim(seen, kind, text, confidence, instead, eventId).Write?
    ensures PassedGate(seen, PrepareAgentClaim(seen, kind, text, confidence, instead, eventId).row, eventId)
  {
  }

  lemma PreparedUserRow(seen: View, kind: UserKind, text: string, eventId: string)
    requires PrepareUserClaim(seen, kind, text, eventId).Write?
    ensures PassedGate(seen, PrepareUserClaim(seen, kind, text, eventId).row, eventId)
  {
    if kind != Retract {
      UntargetedUserRow(seen, PrepareUserClaim(seen, kind, text, eventId).row, eventId);
    }
  }

  lemma PreparedRow(seen: View, q: Request, eventId: string)
    requires Prepare(seen, q, eventId).Write?
    ensures PassedGate(seen, Prepare(seen, q, eventId).row, eventId)
  {
    match q
    case SetIntent(text) => UntargetedUserRow(seen, PrepareIntent(seen, text, eventId).row, eventId);
    case UserClaim(kind, text) => PreparedUserRow(seen, kind, text, eventId);
    case AgentClaim(kind, text, confidence, instead) =>
      PreparedAgentRow(seen, kind, text, confidence, instead, eventId);
  }

  /** A claim an agent may name as the one it replaces, if it names any. */
  predicate MayReplace(seen: View, named: Option<string>, taskId: string) {
    NonEmpty(named).Some? ==>
      var c := FindClaim(seen.claims, named.value);
      c.Some? && c.value.origin == Agent && c.value.taskId == taskId
  }

  /** An agent can write a next action on the focal task exactly when an agent holds the slot,
      or nobody does and the claim it replaces is an agent's of that task. The projector's own
      next action is refused as not the agent's. */
  lemma AgentNextActionIffSlotFree(seen: View, text: string, confidence: Option<Confidence>, instead: Option<string>,
                                   eventId: string)
    requires forall c | c in seen.claims :: c.id != ""
    requires DistinctIds(seen.claims)
    requires FocalTask(WorkOf(seen)).Some? && CheckText(text).Some?
    ensures Prepare(seen, AgentClaim(NextAction, text, confidence, instead), eventId).Write? <==>
      (var taskId := FocalTask(WorkOf(seen)).value.id;
       var holder := CurrentSlot(seen.claims, taskId, NextAction, FRONTIER_SUBJECT);
       && (confidence.None? || confidence.value in {Inferred, Hypothesis})
       && if holder.Some? then holder.value.origin == Agent else MayReplace(seen, instead, taskId))
  {
    hide FocalTask, WorkOf, Trim, CurrentSlot, ValidateAgainst, MayReplace, FindClaim;
    var ce := NextActionRow(seen, text, confidence, instead, eventId);
    TrimKeeps(text);
    NextActionIsPrepared(seen, text, confidence, instead, eventId);
    NextActionVerdict(seen, ce, instead);
  }

  /** The row of an agent's next action on the focal task. */
  function NextActionRow(seen: View, text: string, confidence: Option<Confidence>, instead: Option<string>, eventId: string): ClaimEvent
    requires FocalTask(WorkOf(seen)).Some?
  {
    var focal := FocalTask(WorkOf(seen)).value;
    var frontier := CurrentSlot(seen.claims, focal.id, NextAction, FRONTIER_SUBJECT);
    Blank(Assert, ClaimIdOf(eventId), focal.id, Agent).(
      kind := Some(NextAction), subject := Some(FRONTIER_SUBJECT), text := CheckText(text),
      confidence := Some(if confidence.Some? then confidence.value else Inferred),
      supersedes := if frontier.Some? && frontier.value.origin != User then Some(frontier.value.id) else instead)
  }

  lemma NextActionIsPrepared(seen: View, text: string, confidence: Option<Confidence>, instead: Option<string>, eventId: string)
    requires FocalTask(WorkOf(seen)).Some? && CheckText(text).Some?
    ensures Prepare(seen, AgentClaim(NextAction, text, confidence, instead), eventId)
         == Checked(Agent, NextActionRow(seen, text, confidence, instead, eventId), seen)
  {
    hide FocalTask, WorkOf, CurrentSlot, Checked, CheckText;
  }

  /** What the gate that looks at the view makes of it. */
  lemma NextActionVerdict(seen: View, ce: ClaimEvent, instead: Option<string>)
    requires (forall c | c in seen.claims :: c.id != "") && DistinctIds(seen.claims)
    requires ce.op == Assert && ce.kind == Some(NextAction)
    requires var holder := CurrentSlot(seen.claims, ce.taskId, NextAction, FRONTIER_SUBJECT);
      ce.supersedes == if holder.Some? && holder.value.origin != User then Some(holder.value.id) else instead
    ensures var holder := CurrentSlot(seen.claims, ce.taskId, NextAction, FRONTIER_SUBJECT);
      ValidateAgainst(Agent, ce, seen).Accept?
      <==> if holder.Some? then holder.value.origin == Agent else MayReplace(seen, instead, ce.taskId)
  {
    var i := SlotIndex(seen.claims, ce.taskId, NextAction, FRONTIER_SUBJECT);
    if i < |seen.claims| {
      assert seen.claims[i] in seen.claims;
      assert ClaimIndex(seen.claims, seen.claims[i].id) == i;
    }
  }

  const FAILED := Event("e", 1, Shell("make", "/w", Some(2), "s", ""))

  lemma LoneFailure(e: Event)
    requires IsRun(e) && e.body.exitCode.value != 0
    ensures var r := ReadRun(e);
      Fold([e]) == View([Task(r.taskId, Active, e.id, None, e.at, e.at)], [RealityClaim(r, None), FrontierClaim(r, None)])
  {
    var r := ReadRun(e);
    assert [e][..0] == [];
    assert StepTasks([], e) == [Task(r.taskId, Active, e.id, None, e.at, e.at)];
    assert SlotIndex([], r.taskId, Reality, r.subject) == 0;
    assert RecordReality([], r) == [RealityClaim(r, None)];
    assert SlotIndex([RealityClaim(r, None)], r.taskId, NextAction, FRONTIER_SUBJECT) == 1;
    assert StepRun([], r) == [RealityClaim(r, None), FrontierClaim(r, None)];
  }

  lemma SelectLone<T>(keep: T -> bool, key: T -> Key, x: T)
    requires keep(x)
    ensures Filter(keep, [x]) == [x] && SortBy(key, [x]) == [x]
  {
    assert [x][1..] == [];
  }

  lemma LoneTaskIsFocal(task: Task, a: Claim, b: Claim)
    requires task.status == Active && Fails(a, task.id) && b.status == Current
    ensures FocalTask(WorkOf(View([task], [a, b]))) == Some(task)
  {
    var w := WorkOf(View([task], [a, b]));
    SelectLone(IsActive, TaskKey, task);
    LiveMembers([a, b]);
    assert [a, b][0] == a && Bare(a) in w.claims && Fails(Bare(a), task.id);
    SelectLone((t: Task) => HasFailingReality(w.claims, t.id), TaskKey, task);
    assert FailingTasks(w) == [task];
  }

  lemma RefusedByProjector(seen: View, text: string, eventId: string, i: nat)
    requires FocalTask(WorkOf(seen)).Some? && CheckText(text).Some? && DistinctIds(seen.claims) && i < |seen.claims|
    requires SlotIndex(seen.claims, FocalTask(WorkOf(seen)).value.id, NextAction, FRONTIER_SUBJECT) == i
    requires seen.claims[i].origin == Projector && seen.claims[i].id != ""
    ensures Prepare(seen, AgentClaim(NextAction, text, None, None), eventId) == Refused(NotOwnClaim)
  {
    TrimKeeps(text);
    assert ClaimIndex(seen.claims, seen.claims[i].id) == i;
  }

  /** After one failing command the projector holds the slot, and the agent is refused. */
  lemma AgentNextActionRefused(eventId: string)
    ensures Prepare(Fold([FAILED]), AgentClaim(NextAction, "fix it", None, None), eventId) == Refused(NotOwnClaim)
  {
    hide Fold, Prepare, FocalTask, FAILED;
    TrimSolid("fix it");
    FailedIsRun();
    LoneFailure(FAILED);
    var r := ReadRun(FAILED);
    var task, a, b := Task(r.taskId, Active, FAILED.id, None, FAILED.at, FAILED.at), RealityClaim(r, None), FrontierClaim(r, None);
    LoneTaskIsFocal(task, a, b);
    RealityIsNotFrontier(FAILED);
    RunIdIsSome(FAILED);
    assert SlotIndex([a, b], r.taskId, NextAction, FRONTIER_SUBJECT) == 1;
    RefusedByProjector(View([task], [a, b]), "fix it", eventId, 1);
  }

  lemma FailedIsRun()
    ensures IsRun(FAILED) && FAILED.body.exitCode.value != 0
  {
    TrimSolid("make");
  }

  lemma RunIdIsSome(e: Event)
    requires IsRun(e)
    ensures ReadRun(e).frontierId != ""
  {
    assert |HashedId("c_", [ReadRun(e).taskId, FRONTIER_SUBJECT, e.id])| >= 2;
  }
}
