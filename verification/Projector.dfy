/** The event log and its fold into tasks and claims. */
module Projector {
  import opened Text
  import opened Claims

  /** One log row; the body says which source wrote it. Fields absent from a payload are "". */
  datatype Event = Event(id: string, at: nat, body: Body)

  datatype Body =
    | Shell(command: string, cwd: string, exitCode: Option<int>, session: string, output: string)
    | Note(text: string, session: string, role: string, speaker: string, supportId: string,
           replacesText: string)
    | Authored(claim: Option<ClaimEvent>)  // None: the payload does not decode
    | Other

  // ---------- identifiers ----------

  function JoinNul(parts: seq<string>): string {
    if |parts| == 0 then ""
    else if |parts| == 1 then parts[0]
    else parts[0] + "\0" + JoinNul(parts[1..])
  }

  /** The digest is taken to be injective, so it is modelled by the bytes it digests. */
  function HashedId(prefix: string, parts: seq<string>): string {
    prefix + JoinNul(parts)
  }

  function TaskIdFor(subject: string): string {
    HashedId("t_", [subject])
  }

  function ShellSubject(cwd: string, command: string): string {
    Trim(cwd) + "\n" + Collapse(command)
  }

  function Digits(n: nat): string {
    if n < 10 then [('0' as int + n) as char] else Digits(n / 10) + Digits(n % 10)
  }

  function Decimal(n: int): string {
    if n < 0 then "-" + Digits(-n) else Digits(n)
  }

  // ---------- what an event means to the fold ----------

  /** A shell row with a command and an exit code. Every other shell row is ignored. */
  predicate IsRun(e: Event) {
    e.body.Shell? && Trim(e.body.command) != "" && e.body.exitCode.Some?
  }

  /** What the fold reads off a run: the names it derives and the exit code. */
  datatype Run = Run(
    taskId: string, subject: string, command: string, code: int,
    realityId: string, frontierId: string, eventId: string, at: nat)

  function RunSubject(e: Event): string {
    if e.body.Shell? then ShellSubject(e.body.cwd, Collapse(Trim(e.body.command))) else ""
  }

  function ReadRun(e: Event): (r: Run)
    requires IsRun(e)
    ensures r.eventId == e.id && r.at == e.at && r.code == e.body.exitCode.value
    ensures r.subject == RunSubject(e) && r.taskId == TaskIdFor(r.subject)
  {
    var subject := RunSubject(e);
    var taskId := TaskIdFor(subject);
    Run(taskId, subject, Collapse(Trim(e.body.command)), e.body.exitCode.value,
        HashedId("c_", [taskId, subject, e.id]), HashedId("c_", [taskId, FRONTIER_SUBJECT, e.id]),
        e.id, e.at)
  }

  /** A claim row that decodes and names a task. */
  predicate IsAuthored(e: Event) {
    e.body.Authored? && e.body.claim.Some? && e.body.claim.value.taskId != ""
  }

  predicate HasClaimBody(ce: ClaimEvent) {
    ce.kind.Some? && ce.text.Some? && Trim(ce.text.value) != ""
  }

  /** The event adds a claim of its own. */
  predicate Asserts(ce: ClaimEvent) {
    ce.op != CloseTask && HasClaimBody(ce)
  }

  /** The claim id a bare supersede retires. */
  function SupersedeTarget(ce: ClaimEvent): string {
    if NonEmpty(ce.supersedes).Some? then ce.supersedes.value else ce.claimId
  }

  function SubjectOf(ce: ClaimEvent): string
    requires ce.kind.Some?
  {
    if ce.subject.Some? then ce.subject.value
    else match ce.kind.value
      case Intent => INTENT_SUBJECT
      case NextAction => FRONTIER_SUBJECT
      case _ => ce.claimId
  }

  function DefaultConfidence(origin: Origin): Confidence {
    match origin
    case User => Stated
    case Agent => Inferred
    case Projector => Observed
  }

  // ---------- claims the fold pushes ----------

  function RealityClaim(r: Run, previous: Option<string>): Claim {
    Claim(r.realityId, r.taskId, Reality, r.subject, Current, Observed, Projector,
          r.command + " exited " + Decimal(r.code), Some(r.code), [], [r.eventId],
          previous, r.eventId, r.at)
  }

  function FrontierClaim(r: Run, previous: Option<string>): Claim {
    Claim(r.frontierId, r.taskId, NextAction, FRONTIER_SUBJECT, Current, Inferred, Projector,
          "Re-run and inspect: " + r.command, None, [], [r.eventId], previous, r.eventId, r.at)
  }

  function AuthoredClaim(ce: ClaimEvent, e: Event, superseded: Option<string>): Claim
    requires HasClaimBody(ce)
  {
    Claim(ce.claimId, ce.taskId, ce.kind.value, SubjectOf(ce), Current,
          if ce.confidence.Some? then ce.confidence.value else DefaultConfidence(ce.origin),
          ce.origin, Trim(ce.text.value), ce.outcome, ce.artifactRefs, ce.evidenceIds,
          if superseded.Some? then superseded else ce.supersedes, e.id, e.at)
  }

  // ---------- one fold step, on values ----------

  /** The task an event touches. */
  function TaskOf(e: Event): Option<string> {
    if IsRun(e) then Some(ReadRun(e).taskId)
    else if IsAuthored(e) then Some(e.body.claim.value.taskId)
    else None
  }

  predicate Closes(e: Event) {
    IsAuthored(e) && e.body.claim.value.op == CloseTask
  }

  function StepTasks(tasks: seq<Task>, e: Event): seq<Task> {
    match TaskOf(e)
    case None => tasks
    case Some(id) =>
      var touched := OpenTask(tasks, id, e.id, e.at);
      if Closes(e) then CloseTaskIn(touched, id, e.id, e.at) else touched
  }

  function EnsureFrontier(claims: seq<Claim>, r: Run): seq<Claim> {
    var frontier := CurrentSlot(claims, r.taskId, NextAction, FRONTIER_SUBJECT);
    if frontier.Some? && frontier.value.origin != Projector then claims
    else
      SupersedeSlot(claims, r.taskId, NextAction, FRONTIER_SUBJECT, r.at)
      + [FrontierClaim(r, SlotHolder(claims, r.taskId, NextAction, FRONTIER_SUBJECT))]
  }

  function DropFrontier(claims: seq<Claim>, r: Run): seq<Claim> {
    var frontier := CurrentSlot(claims, r.taskId, NextAction, FRONTIER_SUBJECT);
    if frontier.Some? && frontier.value.origin == Projector then
      SupersedeClaim(claims, frontier.value.id, r.at)
    else claims
  }

  function RecordReality(claims: seq<Claim>, r: Run): seq<Claim> {
    SupersedeSlot(claims, r.taskId, Reality, r.subject, r.at)
    + [RealityClaim(r, SlotHolder(claims, r.taskId, Reality, r.subject))]
  }

  function StepRun(claims: seq<Claim>, r: Run): seq<Claim> {
    var recorded := RecordReality(claims, r);
    if r.code != 0 then EnsureFrontier(recorded, r) else DropFrontier(recorded, r)
  }

  function ClearSlot(claims: seq<Claim>, ce: ClaimEvent, at: nat): seq<Claim>
    requires ce.kind.Some?
  {
    if UniqueSlot(ce.kind.value) then SupersedeSlot(claims, ce.taskId, ce.kind.value, SubjectOf(ce), at)
    else claims
  }

  function SlotVictim(claims: seq<Claim>, ce: ClaimEvent): Option<string>
    requires ce.kind.Some?
  {
    if UniqueSlot(ce.kind.value) then SlotHolder(claims, ce.taskId, ce.kind.value, SubjectOf(ce))
    else None
  }

  function SupersedeNamed(claims: seq<Claim>, named: Option<string>, at: nat): seq<Claim> {
    if named.Some? then SupersedeClaim(claims, named.value, at) else claims
  }

  function StepAssert(claims: seq<Claim>, ce: ClaimEvent, e: Event): seq<Claim>
    requires HasClaimBody(ce)
  {
    SupersedeNamed(ClearSlot(claims, ce, e.at), ce.supersedes, e.at)
    + [AuthoredClaim(ce, e, SlotVictim(claims, ce))]
  }

  function StepAuthored(claims: seq<Claim>, ce: ClaimEvent, e: Event): seq<Claim> {
    if ce.op == CloseTask then claims
    else
      var retired := if ce.op == Supersede then SupersedeClaim(claims, SupersedeTarget(ce), e.at)
                     else claims;
      if HasClaimBody(ce) then StepAssert(retired, ce, e) else retired
  }

  function StepClaims(claims: seq<Claim>, e: Event): seq<Claim> {
    if IsRun(e) then StepRun(claims, ReadRun(e))
    else if IsAuthored(e) then StepAuthored(claims, e.body.claim.value, e)
    else claims
  }

  function Step(view: View, e: Event): View {
    View(StepTasks(view.tasks, e), StepClaims(view.claims, e))
  }

  /** The fold of a log that is already in `(at, id)` order. */
  function Fold(log: seq<Event>): View {
    if log == [] then View([], []) else Step(Fold(log[..|log| - 1]), log[|log| - 1])
  }

  // ---------- the fold as the source runs it: in place ----------

  lemma BumpAfterOpen(tasks: seq<Task>, id: string, eventId: string, at: nat)
    ensures BumpTask(OpenTask(tasks, id, eventId, at), id, at) == OpenTask(tasks, id, eventId, at)
  {
    var touched := OpenTask(tasks, id, eventId, at);
    var i, j := TaskIndex(tasks, id), TaskIndex(touched, id);
    assert touched[i].id == id && touched[i].updatedAt == at;
    assert j == i;
  }

  method FoldShell(p: Projection, e: Event)
    modifies p
    ensures p.Now() == if e.body.Shell? then Step(old(p.Now()), e) else old(p.Now())
  {
    if IsRun(e) {
      FoldRun(p, ReadRun(e));
    }
  }

  method FoldRun(p: Projection, r: Run)
    modifies p
    ensures p.tasks == OpenTask(old(p.tasks), r.taskId, r.eventId, r.at)
    ensures p.claims == StepRun(old(p.claims), r)
  {
    BumpAfterOpen(p.tasks, r.taskId, r.eventId, r.at);
    p.Open(r.taskId, r.eventId, r.at);
    var previous := p.SupersedeHolder(r.taskId, Reality, r.subject, r.at);
    p.Push(RealityClaim(r, previous));
    if r.code != 0 {
      EnsureProjectorFrontier(p, r);
    } else {
      SupersedeProjectorFrontier(p, r);
    }
  }

  method EnsureProjectorFrontier(p: Projection, r: Run)
    modifies p
    ensures p.claims == EnsureFrontier(old(p.claims), r)
    ensures BumpTask(old(p.tasks), r.taskId, r.at) == old(p.tasks) ==> p.tasks == old(p.tasks)
  {
    var frontier := CurrentSlot(p.claims, r.taskId, NextAction, FRONTIER_SUBJECT);
    if frontier.Some? && frontier.value.origin != Projector { return; }
    var previous := p.SupersedeHolder(r.taskId, NextAction, FRONTIER_SUBJECT, r.at);
    p.Push(FrontierClaim(r, previous));
  }

  method SupersedeProjectorFrontier(p: Projection, r: Run)
    modifies p`claims
    ensures p.claims == DropFrontier(old(p.claims), r)
  {
    var frontier := CurrentSlot(p.claims, r.taskId, NextAction, FRONTIER_SUBJECT);
    if frontier.None? || frontier.value.origin != Projector { return; }
    var _ := p.SupersedeById(frontier.value.id, r.at);
  }

  method FoldClaim(p: Projection, e: Event)
    modifies p
    ensures p.Now() == if e.body.Authored? then Step(old(p.Now()), e) else old(p.Now())
  {
    if !IsAuthored(e) { return; }
    var ce := e.body.claim.value;
    BumpAfterOpen(p.tasks, ce.taskId, e.id, e.at);
    p.Open(ce.taskId, e.id, e.at);
    match ce.op
    case CloseTask => p.Close(ce.taskId, e.id, e.at);
    case Supersede =>
      var _ := p.SupersedeById(SupersedeTarget(ce), e.at);
      if ce.text.Some? && ce.kind.Some? {
        AssertClaim(p, ce, e);
      }
    case Assert => AssertClaim(p, ce, e);
  }

  method AssertClaim(p: Projection, ce: ClaimEvent, e: Event)
    modifies p
    ensures p.claims == if HasClaimBody(ce) then StepAssert(old(p.claims), ce, e) else old(p.claims)
    ensures BumpTask(old(p.tasks), ce.taskId, e.at) == old(p.tasks) ==> p.tasks == old(p.tasks)
  {
    if !HasClaimBody(ce) { return; }
    var superseded := None;
    if UniqueSlot(ce.kind.value) {
      superseded := p.SupersedeHolder(ce.taskId, ce.kind.value, SubjectOf(ce), e.at);
    }
    if ce.supersedes.Some? {
      var _ := p.SupersedeById(ce.supersedes.value, e.at);
    }
    p.Push(AuthoredClaim(ce, e, superseded));
  }

  method FoldLog(log: seq<Event>) returns (p: Projection)
    ensures fresh(p) && p.Now() == Fold(log)
  {
    p := new Projection();
    for i := 0 to |log|
      invariant fresh(p) && p.Now() == Fold(log[..i])
    {
      assert log[..i + 1][..i] == log[..i];
      match log[i].body
      case Shell(_, _, _, _, _) => FoldShell(p, log[i]);
      case Authored(_) => FoldClaim(p, log[i]);
      case Note(_, _, _, _, _, _) =>
      case Other =>
    }
    assert log[..|log|] == log;
  }
}
