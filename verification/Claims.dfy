/** Typed working-state claims: the entities, the mutable projection of the log, and
    the gate that decides whether a user or an agent may write one. */
module Claims {
  import opened Text

  datatype Option<+T> = None | Some(value: T)

  const MAX_CLAIM_TEXT: nat := 500
  const INTENT_SUBJECT: string := "objective"
  const FRONTIER_SUBJECT: string := "frontier"

  datatype Op = Assert | Supersede | CloseTask
  datatype Kind = Reality | Intent | Decision | Constraint | RuledOut | Unknown | NextAction
  datatype Status = Current | Superseded
  datatype Confidence = Observed | Stated | Inferred | Hypothesis
  datatype Origin = Projector | User | Agent
  datatype TaskStatus = Active | Done

  /** Kinds that allow at most one current claim per task and subject. */
  predicate UniqueSlot(kind: Kind) {
    kind.Intent? || kind.NextAction? || kind.Reality?
  }

  datatype ClaimEvent = ClaimEvent(
    op: Op, claimId: string, taskId: string, kind: Option<Kind>, subject: Option<string>,
    text: Option<string>, confidence: Option<Confidence>, origin: Origin, outcome: Option<int>,
    artifactRefs: seq<string>, evidenceIds: seq<string>, supersedes: Option<string>)

  datatype Task = Task(
    id: string, status: TaskStatus, openedBy: string, closedBy: Option<string>,
    createdAt: nat, updatedAt: nat)

  datatype Claim = Claim(
    id: string, taskId: string, kind: Kind, subject: string, status: Status,
    confidence: Confidence, origin: Origin, text: string, outcome: Option<int>,
    artifactRefs: seq<string>, evidenceIds: seq<string>, supersedes: Option<string>,
    assertedBy: string, updatedAt: nat)

  /** A frozen projection: what `Projection` holds at one moment. */
  datatype View = View(tasks: seq<Task>, claims: seq<Claim>)

  // ---------- lookups: always the first match ----------

  function TaskIndex(tasks: seq<Task>, id: string): (i: nat)
    ensures i <= |tasks|
    ensures i < |tasks| ==> tasks[i].id == id
    ensures forall j | 0 <= j < i :: tasks[j].id != id
  {
    if tasks == [] || tasks[0].id == id then 0 else 1 + TaskIndex(tasks[1..], id)
  }

  function FindTask(tasks: seq<Task>, id: string): Option<Task> {
    var i := TaskIndex(tasks, id);
    if i < |tasks| then Some(tasks[i]) else None
  }

  function ClaimIndex(claims: seq<Claim>, id: string): (i: nat)
    ensures i <= |claims|
    ensures i < |claims| ==> claims[i].id == id
    ensures forall j | 0 <= j < i :: claims[j].id != id
  {
    if claims == [] || claims[0].id == id then 0 else 1 + ClaimIndex(claims[1..], id)
  }

  function FindClaim(claims: seq<Claim>, id: string): Option<Claim> {
    var i := ClaimIndex(claims, id);
    if i < |claims| then Some(claims[i]) else None
  }

  predicate Occupies(c: Claim, taskId: string, kind: Kind, subject: string) {
    c.status == Current && c.taskId == taskId && c.kind == kind && c.subject == subject
  }

  function SlotIndex(claims: seq<Claim>, taskId: string, kind: Kind, subject: string): (i: nat)
    ensures i <= |claims|
    ensures i < |claims| ==> Occupies(claims[i], taskId, kind, subject)
    ensures forall j | 0 <= j < i :: !Occupies(claims[j], taskId, kind, subject)
  {
    if claims == [] || Occupies(claims[0], taskId, kind, subject) then 0
    else 1 + SlotIndex(claims[1..], taskId, kind, subject)
  }

  function CurrentSlot(claims: seq<Claim>, taskId: string, kind: Kind, subject: string): Option<Claim> {
    var i := SlotIndex(claims, taskId, kind, subject);
    if i < |claims| then Some(claims[i]) else None
  }

  predicate Fails(c: Claim, taskId: string) {
    c.status == Current && c.taskId == taskId && c.kind == Reality
    && c.outcome.Some? && c.outcome.value != 0
  }

  predicate HasFailingReality(claims: seq<Claim>, taskId: string) {
    exists c | c in claims :: Fails(c, taskId)
  }

  // ---------- the projection's moves, on values ----------

  function OpenTask(tasks: seq<Task>, id: string, eventId: string, at: nat): seq<Task> {
    var i := TaskIndex(tasks, id);
    if i < |tasks| then tasks[i := tasks[i].(updatedAt := at)]
    else tasks + [Task(id, Active, eventId, None, at, at)]
  }

  function CloseTaskIn(tasks: seq<Task>, id: string, eventId: string, at: nat): seq<Task> {
    var i := TaskIndex(tasks, id);
    if i < |tasks| then
      tasks[i := tasks[i].(status := Done, closedBy := Some(eventId), updatedAt := at)]
    else tasks
  }

  function BumpTask(tasks: seq<Task>, id: string, at: nat): seq<Task> {
    var i := TaskIndex(tasks, id);
    if i < |tasks| then tasks[i := tasks[i].(updatedAt := at)] else tasks
  }

  function Retire(c: Claim, at: nat): Claim {
    c.(status := Superseded, updatedAt := at)
  }

  function SupersedeClaim(claims: seq<Claim>, id: string, at: nat): seq<Claim> {
    var i := ClaimIndex(claims, id);
    if i < |claims| then claims[i := Retire(claims[i], at)] else claims
  }

  /** The occupant of a slot retires; the id is what `SlotHolder` named. */
  function SupersedeSlot(claims: seq<Claim>, taskId: string, kind: Kind, subject: string, at: nat): seq<Claim> {
    match CurrentSlot(claims, taskId, kind, subject)
    case None => claims
    case Some(c) => SupersedeClaim(claims, c.id, at)
  }

  function SlotHolder(claims: seq<Claim>, taskId: string, kind: Kind, subject: string): Option<string> {
    match CurrentSlot(claims, taskId, kind, subject)
    case None => None
    case Some(c) => Some(c.id)
  }

  /** The working state that one fold of the log updates in place. */
  class Projection {
    var tasks: seq<Task>
    var claims: seq<Claim>

    function Now(): View
      reads this
    {
      View(tasks, claims)
    }

    constructor ()
      ensures Now() == View([], [])
    {
      tasks, claims := [], [];
    }

    method Open(id: string, eventId: string, at: nat)
      modifies this`tasks
      ensures tasks == OpenTask(old(tasks), id, eventId, at)
    {
      var i := TaskIndex(tasks, id);
      if i < |tasks| {
        tasks := tasks[i := tasks[i].(updatedAt := at)];
        return;
      }
      tasks := tasks + [Task(id, Active, eventId, None, at, at)];
    }

    method Close(id: string, eventId: string, at: nat)
      modifies this`tasks
      ensures tasks == CloseTaskIn(old(tasks), id, eventId, at)
    {
      var i := TaskIndex(tasks, id);
      if i < |tasks| {
        tasks := tasks[i := tasks[i].(status := Done, closedBy := Some(eventId), updatedAt := at)];
      }
    }

    method SupersedeById(id: string, at: nat) returns (found: bool)
      modifies this`claims
      ensures claims == SupersedeClaim(old(claims), id, at)
      ensures found <==> exists c | c in old(claims) :: c.id == id
    {
      var i := ClaimIndex(claims, id);
      if i < |claims| {
        claims := claims[i := Retire(claims[i], at)];
        return true;
      }
      return false;
    }

    method SupersedeHolder(taskId: string, kind: Kind, subject: string, at: nat)
      returns (holder: Option<string>)
      modifies this`claims
      ensures claims == SupersedeSlot(old(claims), taskId, kind, subject, at)
      ensures holder == SlotHolder(old(claims), taskId, kind, subject)
    {
      match CurrentSlot(claims, taskId, kind, subject)
      case None => return None;
      case Some(c) =>
        var _ := SupersedeById(c.id, at);
        return Some(c.id);
    }

    method Push(claim: Claim)
      modifies this
      ensures tasks == BumpTask(old(tasks), claim.taskId, claim.updatedAt)
      ensures claims == old(claims) + [claim]
    {
      var i := TaskIndex(tasks, claim.taskId);
      if i < |tasks| {
        tasks := tasks[i := tasks[i].(updatedAt := claim.updatedAt)];
      }
      claims := claims + [claim];
    }
  }

  // ---------- the write gate ----------

  datatype Refusal =
    | WrongOrigin | ProjectorAuthored | OnlyUserCloses | NoRetractTarget | NoKind | NoConfidence
    | BadText | UserNotStated | UserKind | AgentConfidence | AgentKind | UnknownNotHypothesis
    | UnknownClaim | ObservedReality | NotOwnClaim | OtherTask | UserFrontier

  datatype Verdict = Accept | Refuse(why: Refusal)

  function NonEmpty(id: Option<string>): Option<string> {
    if id.Some? && id.value != "" then id else None
  }

  /** Role and kind rules that do not look at the projection. */
  function Validate(origin: Origin, e: ClaimEvent): Verdict {
    if e.origin != origin then Refuse(WrongOrigin)
    else if origin == Projector then Refuse(ProjectorAuthored)
    else if e.op == CloseTask then
      if origin == User then Accept else Refuse(OnlyUserCloses)
    else if e.op == Supersede && NonEmpty(e.supersedes).None? && e.claimId == "" then
      Refuse(NoRetractTarget)
    else if e.op == Supersede && e.text.None? then Accept
    else if e.kind.None? then Refuse(NoKind)
    else if e.confidence.None? then Refuse(NoConfidence)
    else if e.text.None? || !(1 <= |Trim(e.text.value)| <= MAX_CLAIM_TEXT) then Refuse(BadText)
    else if origin == User then
      if e.confidence.value != Stated then Refuse(UserNotStated)
      else if e.kind.value in {Intent, Constraint, Decision, RuledOut} then Accept
      else Refuse(UserKind)
    else
      if e.confidence.value !in {Inferred, Hypothesis} then Refuse(AgentConfidence)
      else if e.kind.value in {Intent, Constraint} then Refuse(AgentKind)
      else if e.kind.value == Unknown && e.confidence.value != Hypothesis then
        Refuse(UnknownNotHypothesis)
      else Accept
  }

  /** The claim a write names as its target, as the gate reads it. */
  function GateTarget(e: ClaimEvent): Option<string> {
    if NonEmpty(e.supersedes).Some? then e.supersedes
    else if e.op == Supersede && e.claimId != "" then Some(e.claimId)
    else None
  }

  function TargetVerdict(origin: Origin, e: ClaimEvent, existing: Option<Claim>): Verdict {
    match existing
    case None => Refuse(UnknownClaim)
    case Some(c) =>
      if origin == User && c.origin == Projector && c.confidence == Observed then
        Refuse(ObservedReality)
      else if origin == Agent && c.origin != Agent then Refuse(NotOwnClaim)
      else if origin == Agent && c.taskId != e.taskId then Refuse(OtherTask)
      else Accept
  }

  /** Rules that need what is currently in force. */
  function ValidateAgainst(origin: Origin, e: ClaimEvent, view: View): Verdict {
    var target := GateTarget(e);
    var first := if target.None? then Accept
                 else TargetVerdict(origin, e, FindClaim(view.claims, target.value));
    if first != Accept then first
    else if origin == Agent && e.kind == Some(NextAction) then
      var frontier := CurrentSlot(view.claims, e.taskId, NextAction, FRONTIER_SUBJECT);
      if frontier.Some? && frontier.value.origin == User then Refuse(UserFrontier) else Accept
    else Accept
  }

  /** Trim, then accept 1 to 500 characters. */
  function CheckText(text: string): Option<string> {
    if 1 <= |Trim(text)| <= MAX_CLAIM_TEXT then Some(Trim(text)) else None
  }
}
