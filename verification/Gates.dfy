/** What the two write gates let through, and what each request of a user or an agent becomes,
    in terms of the row and the view alone. */
module Gates {
  import opened Text
  import opened Claims
  import opened Projector
  import opened CurrentView
  import opened GatedLog
  import opened Compaction
  import opened Briefing
  import opened Daemon

  // ---------- the gate that reads the row ----------

  /** One to 500 characters, surrounding whitespace aside. */
  predicate GoodText(text: Option<string>) {
    text.Some? && 1 <= |Trim(text.value)| <= 500
  }

  /** A retraction must say what it retracts. */
  predicate SaysTarget(e: ClaimEvent) {
    e.op == Supersede ==> (e.supersedes.Some? && e.supersedes.value != "") || e.claimId != ""
  }

  /** The user may close a task, retract, and state intents, constraints, decisions and what is
      ruled out; nothing else. */
  lemma UserRowAccepted(e: ClaimEvent)
    ensures Validate(User, e).Accept? <==>
      && e.origin == User
      && (e.op == CloseTask
          || (SaysTarget(e)
              && ((e.op == Supersede && e.text.None?)
                  || (GoodText(e.text) && e.confidence == Some(Stated) && e.kind.Some?
                      && (e.kind.value == Intent || e.kind.value == Constraint || e.kind.value == Decision
                          || e.kind.value == RuledOut)))))
  {
  }

  /** An agent may retract, and write findings, decisions, what is ruled out, next actions and,
      as hypotheses only, unknowns; it never states or observes and closes nothing. */
  lemma AgentRowAccepted(e: ClaimEvent)
    ensures Validate(Agent, e).Accept? <==>
      && e.origin == Agent && e.op != CloseTask && SaysTarget(e)
      && ((e.op == Supersede && e.text.None?)
          || (GoodText(e.text) && e.kind.Some? && e.confidence.Some?
              && (e.confidence.value == Hypothesis
                  || (e.confidence.value == Inferred && e.kind.value != Unknown))
              && (e.kind.value == Reality || e.kind.value == Decision || e.kind.value == RuledOut
                  || e.kind.value == Unknown || e.kind.value == NextAction)))
  {
  }

  lemma NobodyElseWrites(origin: Origin, e: ClaimEvent)
    ensures Validate(origin, e).Accept? ==> origin == e.origin && (origin == User || origin == Agent)
  {
  }

  // ---------- the gate that reads the view ----------

  /** The claim that a row names, if it names one. */
  predicate NamesClaim(e: ClaimEvent, id: string) {
    || (e.supersedes == Some(id) && id != "")
    || ((e.supersedes.None? || e.supersedes.value == "") && e.op == Supersede && e.claimId == id && id != "")
  }

  /** What is named must exist. The user may name anything but an observation of the projector;
      an agent only an agent's claim of the same task, and its next action yields to a user's. */
  lemma ViewAccepts(origin: Origin, e: ClaimEvent, view: View)
    requires WellFormed(view.claims)
    ensures ValidateAgainst(origin, e, view).Accept? <==>
      && (forall id | NamesClaim(e, id) ::
            (exists c :: c in view.claims && c.id == id
               && (origin == User ==> c.origin != Projector || c.confidence != Observed)
               && (origin == Agent ==> c.origin == Agent && c.taskId == e.taskId)))
      && (origin == Agent && e.kind == Some(NextAction) ==>
            forall c | c in view.claims && c.status == Current && c.taskId == e.taskId && c.kind == NextAction
              && c.subject == "frontier" :: c.origin != User)
  {
    forall id | NamesClaim(e, id)
      ensures GateTarget(e) == Some(id)
      ensures forall c | c in view.claims && c.id == id :: FindClaim(view.claims, id) == Some(c)
    {
      OnlyWithId(view.claims, id);
    }
    if GateTarget(e).Some? {
      assert NamesClaim(e, GateTarget(e).value);
    }
    var i := SlotIndex(view.claims, e.taskId, NextAction, FRONTIER_SUBJECT);
    if i < |view.claims| {
      assert view.claims[i] in view.claims;
    }
  }

  lemma OnlyWithId(claims: seq<Claim>, id: string)
    requires DistinctIds(claims)
    ensures forall c | c in claims && c.id == id :: FindClaim(claims, id) == Some(c)
  {
    forall c | c in claims && c.id == id
      ensures FindClaim(claims, id) == Some(c)
    {
      var i :| 0 <= i < |claims| && claims[i] == c;
      var j := ClaimIndex(claims, id);
      assert j <= i;
    }
  }

  // ---------- what a request becomes ----------

  /** An intent of the user: on the focal task, or on a new task named after the row. */
  lemma IntentRequest(seen: View, text: string, eventId: string)
    ensures var a, focal := Prepare(seen, SetIntent(text), eventId), FocalTask(WorkOf(seen));
      && (a.Write? <==> 1 <= |Trim(text)| <= 500)
      && (a.Write? ==>
            a.row == ClaimEvent(
              Assert, "c_" + eventId, if focal.Some? then focal.value.id else TaskIdFor(eventId), Some(Intent),
              Some("objective"), Some(Trim(text)), Some(Stated), User, None, [], [], None))
  {
    hide FocalTask, WorkOf, Trim;
    TrimKeeps(text);
  }

  /** A constraint, a decision or something ruled out needs a focal task and a good text, and is
      stated under an id and subject of its own. */
  lemma UserStatement(seen: View, kind: UserKind, text: string, eventId: string)
    requires kind == NewConstraint || kind == NewDecision || kind == NewRuledOut
    ensures var a, focal := Prepare(seen, UserClaim(kind, text), eventId), FocalTask(WorkOf(seen));
      && (a == NoActiveTask <==> focal.None?)
      && (a.Write? <==> focal.Some? && 1 <= |Trim(text)| <= 500)
      && (a.Write? ==>
            var said := if kind == NewConstraint then Constraint else if kind == NewDecision then Decision else RuledOut;
            a.row == ClaimEvent(Assert, "c_" + eventId, focal.value.id, Some(said), Some("c_" + eventId), Some(Trim(text)),
                                Some(Stated), User, None, [], [], None))
  {
    hide FocalTask, WorkOf, Trim;
    TrimKeeps(text);
  }

  /** Closing needs a focal task and nothing else. */
  lemma CloseRequest(seen: View, text: string, eventId: string)
    ensures var a, focal := Prepare(seen, UserClaim(CloseFocal, text), eventId), FocalTask(WorkOf(seen));
      && (if focal.None? then a == NoActiveTask
          else a == Write(ClaimEvent(CloseTask, "c_" + eventId, focal.value.id, None, None, None, None, User, None, [], [], None)))
  {
    hide FocalTask, WorkOf;
  }

  /** The user may retract any claim by its id, superseded ones included, unless it is an
      observation of the projector; no task has to be active. */
  lemma RetractRequest(seen: View, text: string, eventId: string)
    requires WellFormed(seen.claims)
    ensures var a := Prepare(seen, UserClaim(Retract, text), eventId);
      && (a.Write? <==>
            && 1 <= |Trim(text)| <= 500
            && (exists c :: c in seen.claims && c.id == Trim(text) && (c.origin != Projector || c.confidence != Observed)))
      && (a.Write? ==>
            (exists c :: c in seen.claims && c.id == Trim(text)
               && a.row == ClaimEvent(Supersede, c.id, c.taskId, None, None, None, None, User, None, [], [], Some(c.id))))
  {
    hide FocalTask, WorkOf, Trim, FindClaim;
    TrimKeeps(text);
    OnlyWithId(seen.claims, Trim(text));
    FoundInList(seen.claims, Trim(text));
  }

  lemma FoundInList(claims: seq<Claim>, id: string)
    ensures FindClaim(claims, id).Some? <==> exists c :: c in claims && c.id == id
    ensures FindClaim(claims, id).Some? ==> FindClaim(claims, id).value in claims && FindClaim(claims, id).value.id == id
  {
    if c :| c in claims && c.id == id {
      var i :| 0 <= i < |claims| && claims[i] == c;
    }
  }

  /** What an agent's claim replaces: its next action takes over the slot's holder unless that
      is the user's; otherwise it is what the agent names. */
  function Replaces(seen: View, taskId: string, kind: Kind, instead: Option<string>): Option<string> {
    var holder := CurrentSlot(seen.claims, taskId, NextAction, "frontier");
    if kind == NextAction && holder.Some? && holder.value.origin != User then Some(holder.value.id) else instead
  }

  /** A claim of an agent needs a focal task, a good text, a kind and a confidence agents have,
      and a target, if any, that is an agent's on that task; its next action yields to a user's. */
  lemma AgentRequest(seen: View, kind: Kind, text: string, confidence: Option<Confidence>, instead: Option<string>,
                     eventId: string)
    requires WellFormed(seen.claims)
    ensures var a, focal := Prepare(seen, AgentClaim(kind, text, confidence, instead), eventId), FocalTask(WorkOf(seen));
      && (a == NoActiveTask <==> focal.None?)
      && (a.Write? <==>
            && focal.Some? && 1 <= |Trim(text)| <= 500 && kind != Intent && kind != Constraint
            && (kind == Unknown || confidence.None? || confidence.value == Inferred || confidence.value == Hypothesis)
            && (var named := Replaces(seen, focal.value.id, kind, instead);
                named.Some? && named.value != "" ==>
                  exists c :: c in seen.claims && c.id == named.value && c.origin == Agent && c.taskId == focal.value.id)
            && (kind == NextAction ==>
                  forall c | c in seen.claims && c.status == Current && c.taskId == focal.value.id && c.kind == NextAction
                    && c.subject == "frontier" :: c.origin != User))
      && (a.Write? ==>
            a.row == ClaimEvent(
              Assert, "c_" + eventId, focal.value.id, Some(kind), Some(if kind == NextAction then "frontier" else "c_" + eventId),
              Some(Trim(text)), Some(if kind == Unknown then Hypothesis else if confidence.Some? then confidence.value else Inferred),
              Agent, None, [], [], Replaces(seen, focal.value.id, kind, instead)))
  {
    hide FocalTask, WorkOf, Trim, FindClaim, CurrentSlot, ValidateAgainst, Validate;
    TrimKeeps(text);
    var focal := FocalTask(WorkOf(seen));
    if focal.Some? && CheckText(text).Some? {
      var ce := AgentRow(seen, focal.value.id, kind, text, confidence, instead, eventId);
      AgentRowAccepted(ce);
      ViewAccepts(Agent, ce, seen);
      assert forall id :: NamesClaim(ce, id) <==> ce.supersedes == Some(id) && id != "";
    }
  }

  function AgentRow(seen: View, taskId: string, kind: Kind, text: string, confidence: Option<Confidence>,
                    instead: Option<string>, eventId: string): ClaimEvent
  {
    ClaimEvent(
      Assert, "c_" + eventId, taskId, Some(kind), Some(if kind == NextAction then "frontier" else "c_" + eventId),
      Some(Trim(text)), Some(if kind == Unknown then Hypothesis else if confidence.Some? then confidence.value else Inferred),
      Agent, None, [], [], Replaces(seen, taskId, kind, instead))
  }

  // ---------- what the written row does ----------

  /** The row of a request, appended: an assertion is the newest current claim, with what was
      asked for. */
  lemma WrittenClaimShows(log: seq<Event>, seen: View, q: Request, e: Event)
    requires Prepare(seen, q, e.id).Write? && e.body == Authored(Some(Prepare(seen, q, e.id).row))
    requires Prepare(seen, q, e.id).row.op == Assert && Prepare(seen, q, e.id).row.taskId != ""
    ensures var ce, cs := Prepare(seen, q, e.id).row, Fold(log + [e]).claims;
      && cs != []
      && var c := cs[|cs| - 1];
      && c.id == "c_" + e.id && c.status == Current && c.assertedBy == e.id && c.updatedAt == e.at
      && c.taskId == ce.taskId && Some(c.kind) == ce.kind && Some(c.subject) == ce.subject && Some(c.text) == ce.text
      && Some(c.confidence) == ce.confidence && c.origin == ce.origin && c.outcome.None?
  {
    hide Prepare, Fold;
    PreparedRow(seen, q, e.id);
    PreparedAsserts(seen, q, e.id);
    FoldPush(log, e);
  }

  lemma PreparedAsserts(seen: View, q: Request, eventId: string)
    requires Prepare(seen, q, eventId).Write? && Prepare(seen, q, eventId).row.op == Assert
    ensures var ce := Prepare(seen, q, eventId).row;
      Asserts(ce) && ce.subject.Some? && ce.confidence.Some? && Trim(ce.text.value) == ce.text.value
  {
    hide FocalTask, WorkOf, Trim, FindClaim, CurrentSlot, ValidateAgainst;
    match q
    case SetIntent(text) => TrimKeeps(text);
    case UserClaim(_, text) => TrimKeeps(text);
    case AgentClaim(_, text, _, _) => TrimKeeps(text);
  }
}
