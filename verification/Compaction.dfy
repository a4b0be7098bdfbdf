/** Log compaction: what the prune query may delete, and why a refold does not notice. */
module Compaction {
  import opened Text
  import opened Claims
  import opened Projector
  import opened CurrentView
  import opened GatedLog
  import opened FoldLaws

  // ---------- tasks, one at a time ----------

  /** The record of one task, from the rows that touch it. */
  function TaskRecord(log: seq<Event>, id: string): Option<Task> {
    if log == [] then None else NextRecord(TaskRecord(log[..|log| - 1], id), log[|log| - 1], id)
  }

  function NextRecord(before: Option<Task>, e: Event, id: string): Option<Task> {
    if TaskOf(e) != Some(id) then before
    else
      var touched := if before.Some? then before.value.(updatedAt := e.at)
                     else Task(id, Active, e.id, None, e.at, e.at);
      Some(if Closes(e) then touched.(status := Done, closedBy := Some(e.id)) else touched)
  }

  predicate TasksOnce(tasks: seq<Task>) {
    forall i, j | 0 <= i < j < |tasks| :: tasks[i].id != tasks[j].id
  }

  lemma StepTaskFinds(tasks: seq<Task>, e: Event, id: string)
    requires TasksOnce(tasks)
    ensures TasksOnce(StepTasks(tasks, e))
    ensures FindTask(StepTasks(tasks, e), id) == NextRecord(FindTask(tasks, id), e, id)
  {
    if TaskOf(e).Some? {
      var t := TaskOf(e).value;
      OpenFinds(tasks, t, e.id, e.at, id);
      CloseFinds(OpenTask(tasks, t, e.id, e.at), t, e.id, e.at, id);
    }
  }

  lemma FindUnique(tasks: seq<Task>, i: nat)
    requires TasksOnce(tasks) && i < |tasks|
    ensures TaskIndex(tasks, tasks[i].id) == i
  {
  }

  lemma OpenFinds(tasks: seq<Task>, t: string, eventId: string, at: nat, id: string)
    requires TasksOnce(tasks)
    ensures TasksOnce(OpenTask(tasks, t, eventId, at))
    ensures FindTask(OpenTask(tasks, t, eventId, at), id) ==
      if id != t then FindTask(tasks, id)
      else if FindTask(tasks, id).Some? then Some(FindTask(tasks, id).value.(updatedAt := at))
      else Some(Task(id, Active, eventId, None, at, at))
  {
    var after := OpenTask(tasks, t, eventId, at);
    var i, j := TaskIndex(tasks, id), TaskIndex(after, id);
    if i < |tasks| {
      assert after[i].id == id;
      FindUnique(after, i);
    } else if id == t {
      FindUnique(after, |tasks|);
    }
  }

  lemma CloseFinds(tasks: seq<Task>, t: string, eventId: string, at: nat, id: string)
    requires TasksOnce(tasks)
    ensures TasksOnce(CloseTaskIn(tasks, t, eventId, at))
    ensures FindTask(CloseTaskIn(tasks, t, eventId, at), id) ==
      if id == t && FindTask(tasks, id).Some?
      then Some(FindTask(tasks, id).value.(status := Done, closedBy := Some(eventId), updatedAt := at))
      else FindTask(tasks, id)
  {
    var after := CloseTaskIn(tasks, t, eventId, at);
    var i, j := TaskIndex(tasks, id), TaskIndex(after, id);
    if i < |tasks| {
      assert after[i].id == id;
      FindUnique(after, i);
    }
  }

  /** Task ids are unique in every fold, and a task is what its rows say. */
  lemma {:induction false} FoldTasks(log: seq<Event>, id: string)
    ensures TasksOnce(Fold(log).tasks)
    ensures FindTask(Fold(log).tasks, id) == TaskRecord(log, id)
  {
    if log != [] {
      FoldTasks(log[..|log| - 1], id);
      StepTaskFinds(Fold(log[..|log| - 1]).tasks, log[|log| - 1], id);
    }
  }

  /** Done is final: no later row reopens a task. */
  lemma {:induction false} DoneStaysDone(log: seq<Event>, n: nat, id: string)
    requires n <= |log|
    requires TaskRecord(log[..n], id).Some? && TaskRecord(log[..n], id).value.status == Done
    ensures TaskRecord(log, id).Some? && TaskRecord(log, id).value.status == Done
    decreases |log|
  {
    if n < |log| {
      assert log[..|log| - 1][..n] == log[..n];
      DoneStaysDone(log[..|log| - 1], n, id);
    } else {
      assert log[..n] == log;
    }
  }

  // ---------- the prune query ----------

  function ActiveTask(tasks: seq<Task>, id: string): Option<Task> {
    match FindTask(tasks, id)
    case Some(t) => if t.status == Active then Some(t) else None
    case None => None
  }

  /** The part of the prune query that reads the stored view. */
  predicate Prunable(view: View, e: Event) {
    && !e.body.Authored?
    && (forall t | t in view.tasks && t.status == Active :: t.openedBy != e.id)
    && (forall c | c in view.claims && c.status == Current :: e.id !in c.evidenceIds)
  }

  /** Two views show the same work: the same current claims in the same order, links aside,
      and the same active tasks. */
  ghost predicate SameView(p: View, q: View) {
    Live(p.claims) == Live(q.claims) && forall id :: ActiveTask(p.tasks, id) == ActiveTask(q.tasks, id)
  }

  lemma PrunableReadsView(p: View, q: View, e: Event)
    requires SameView(p, q) && TasksOnce(p.tasks) && TasksOnce(q.tasks) && Prunable(p, e)
    ensures Prunable(q, e)
  {
    forall t | t in q.tasks && t.status == Active
      ensures t.openedBy != e.id
    {
      var i :| 0 <= i < |q.tasks| && q.tasks[i] == t;
      FindUnique(q.tasks, i);
      assert ActiveTask(p.tasks, t.id) == Some(t);
    }
    LiveMembers(p.claims);
    LiveMembers(q.claims);
    forall c | c in q.claims && c.status == Current
      ensures e.id !in c.evidenceIds
    {
      var i :| 0 <= i < |q.claims| && q.claims[i] == c;
      assert Bare(q.claims[i]) in Live(p.claims);
      var j :| 0 <= j < |p.claims| && p.claims[j].status == Current && Bare(c) == Bare(p.claims[j]);
      assert p.claims[j] in p.claims;
    }
  }

  // ---------- deleting one row ----------

  predicate HasRun(log: seq<Event>, subject: string) {
    exists e | e in log :: IsRun(e) && RunSubject(e) == subject
  }

  predicate Touched(log: seq<Event>, id: string) {
    exists e | e in log :: TaskOf(e) == Some(id)
  }

  predicate Closed(log: seq<Event>, id: string) {
    exists e | e in log :: TaskOf(e) == Some(id) && Closes(e)
  }

  /** A row between `a` and `b` whose deletion no refold can notice: it is not a claim, and
      if it is a run then its command ran again later, and its task was opened before it or
      closed after it. */
  predicate Droppable(a: seq<Event>, e: Event, b: seq<Event>) {
    !e.body.Authored?
    && (IsRun(e) ==>
          HasRun(b, RunSubject(e)) && (Touched(a, ReadRun(e).taskId) || Closed(b, ReadRun(e).taskId)))
  }

  lemma {:induction false} KeepTwo(d: Drop, e: Drop, both: Drop, cs: seq<Claim>)
    requires forall c | c in cs :: Hits(both, c) <==> Hits(d, c) || Hits(e, c)
    ensures Keep(d, Keep(e, cs)) == Keep(both, cs)
  {
    if cs != [] {
      var init, last := cs[..|cs| - 1], cs[|cs| - 1];
      KeepTwo(d, e, both, init);
      KeepPush(d, Keep(e, init), last);
      assert Keep(e, init) + [] == Keep(e, init);
    }
  }

  lemma SplitLast(a: seq<Event>, e: Event, b: seq<Event>) returns (b0: seq<Event>, g: Event)
    requires b != []
    ensures b == b0 + [g] && |b0| < |b|
    ensures a + [e] + b == (a + [e] + b0) + [g] && a + b == (a + b0) + [g]
  {
    b0, g := b[..|b| - 1], b[|b| - 1];
  }

  lemma FoldPush(log: seq<Event>, g: Event)
    ensures Fold(log + [g]) == Step(Fold(log), g)
    ensures CurrentClaims(log + [g]) == StepLive(CurrentClaims(log), g)
  {
    assert (log + [g])[..|log|] == log;
  }

  lemma RecordPush(log: seq<Event>, g: Event, id: string)
    ensures TaskRecord(log + [g], id) == NextRecord(TaskRecord(log, id), g, id)
  {
    assert (log + [g])[..|log|] == log;
  }

  predicate LiveHolders(live: seq<Claim>) {
    forall a, b | a in live && b in live && SameSlot(a, b) :: a == b
  }

  /** What a run leaves: everything but the projector's claims on its task, then its own. */
  lemma RunLiveForm(live: seq<Claim>, r: Run)
    requires LiveOk(live) && LiveHolders(live) && r.taskId == TaskIdFor(r.subject) && !NoNewline(r.subject)
    ensures RunLive(live, r)
         == Keep(DropProjector(r.taskId), live) + [RealityClaim(r, None)]
            + if r.code != 0 && !AuthoredFrontier(live, r.taskId) then [FrontierClaim(r, None)] else []
  {
    ProjectorSlots(live, r);
    FrontierSurvives(live, r);
    if AuthoredFrontier(live, r.taskId) {
      RunUnderFrontier(live, r);
    } else {
      RunOverFrontier(live, r);
    }
  }

  lemma RunUnderFrontier(live: seq<Claim>, r: Run)
    requires AuthoredFrontier(live, r.taskId) && LiveHolders(live)
    requires AuthoredFrontier(Keep(DropSlot(r.taskId, Reality, r.subject), live) + [RealityClaim(r, None)], r.taskId)
    requires forall c | c in live :: Hits(DropProjector(r.taskId), c) <==>
      Hits(DropSlot(r.taskId, Reality, r.subject), c)
      || (Hits(DropSlot(r.taskId, NextAction, FRONTIER_SUBJECT), c) && c.origin == Projector)
    ensures RunLive(live, r) == Keep(DropProjector(r.taskId), live) + [RealityClaim(r, None)] + []
  {
    var f :| f in live && Hits(DropSlot(r.taskId, NextAction, FRONTIER_SUBJECT), f) && f.origin != Projector;
    KeepSame(DropProjector(r.taskId), DropSlot(r.taskId, Reality, r.subject), live);
  }

  lemma RunOverFrontier(live: seq<Claim>, r: Run)
    requires !AuthoredFrontier(live, r.taskId)
    requires !AuthoredFrontier(Keep(DropSlot(r.taskId, Reality, r.subject), live) + [RealityClaim(r, None)], r.taskId)
    requires forall c | c in live :: Hits(DropProjector(r.taskId), c) <==>
      Hits(DropSlot(r.taskId, Reality, r.subject), c)
      || (Hits(DropSlot(r.taskId, NextAction, FRONTIER_SUBJECT), c) && c.origin == Projector)
    ensures RunLive(live, r) == Keep(DropProjector(r.taskId), live) + [RealityClaim(r, None)]
                             + if r.code != 0 then [FrontierClaim(r, None)] else []
  {
    var reality, frontier := DropSlot(r.taskId, Reality, r.subject), DropSlot(r.taskId, NextAction, FRONTIER_SUBJECT);
    KeepTwo(frontier, reality, DropProjector(r.taskId), live);
    KeepPush(frontier, Keep(reality, live), RealityClaim(r, None));
  }

  /** The projector's claims on a task are its reality and the frontier it may hold. */
  lemma ProjectorSlots(live: seq<Claim>, r: Run)
    requires LiveOk(live) && r.taskId == TaskIdFor(r.subject) && !NoNewline(r.subject)
    ensures forall c | c in live :: Hits(DropProjector(r.taskId), c) <==>
      Hits(DropSlot(r.taskId, Reality, r.subject), c)
      || (Hits(DropSlot(r.taskId, NextAction, FRONTIER_SUBJECT), c) && c.origin == Projector)
  {
    forall c | c in live
      ensures Hits(DropProjector(r.taskId), c) <==>
        Hits(DropSlot(r.taskId, Reality, r.subject), c)
        || (Hits(DropSlot(r.taskId, NextAction, FRONTIER_SUBJECT), c) && c.origin == Projector)
    {
      assert ClaimOk(c);
      if Hits(DropProjector(r.taskId), c) && c.kind == Reality {
        TaskIdInjective(c.subject, r.subject);
      }
    }
  }

  lemma FrontierSurvives(live: seq<Claim>, r: Run)
    ensures AuthoredFrontier(Keep(DropSlot(r.taskId, Reality, r.subject), live) + [RealityClaim(r, None)], r.taskId)
         == AuthoredFrontier(live, r.taskId)
  {
    KeepMembers(DropSlot(r.taskId, Reality, r.subject), live);
    if AuthoredFrontier(live, r.taskId) {
      var f :| f in live && Hits(DropSlot(r.taskId, NextAction, FRONTIER_SUBJECT), f) && f.origin != Projector;
      assert f in Keep(DropSlot(r.taskId, Reality, r.subject), live);
    }
  }

  lemma AuthoredFrontierKept(live: seq<Claim>, drop: string, taskId: string)
    ensures AuthoredFrontier(Keep(DropProjector(drop), live), taskId) == AuthoredFrontier(live, taskId)
  {
    KeepMembers(DropProjector(drop), live);
    if AuthoredFrontier(live, taskId) {
      var f :| f in live && Hits(DropSlot(taskId, NextAction, FRONTIER_SUBJECT), f) && f.origin != Projector;
      assert f in Keep(DropProjector(drop), live);
    }
  }

  /** Forgetting the projector's claims on one task commutes with every row that is not a
      run of that task. */
  lemma ForgetCommutes(live: seq<Claim>, g: Event, t: string)
    requires RowOk(g) && (IsRun(g) ==> ReadRun(g).taskId != t)
    ensures Keep(DropProjector(t), StepLive(live, g)) == StepLive(Keep(DropProjector(t), live), g)
  {
    if IsRun(g) {
      ForgetCommutesRun(live, ReadRun(g), t);
    } else if IsAuthored(g) && g.body.claim.value.op != CloseTask {
      ForgetCommutesAuthored(live, g.body.claim.value, g, t);
    }
  }

  lemma ForgetCommutesRun(live: seq<Claim>, r: Run, t: string)
    requires r.taskId != t
    ensures Keep(DropProjector(t), RunLive(live, r)) == RunLive(Keep(DropProjector(t), live), r)
  {
    var mine, reality := DropProjector(t), DropSlot(r.taskId, Reality, r.subject);
    var l := Keep(reality, live) + [RealityClaim(r, None)];
    assert Keep(mine, l) == Keep(reality, Keep(mine, live)) + [RealityClaim(r, None)] by {
      KeepCommutes(mine, reality, live);
      KeepPush(mine, Keep(reality, live), RealityClaim(r, None));
    }
    AuthoredFrontierKept(l, t, r.taskId);
    if !AuthoredFrontier(l, r.taskId) {
      var frontier := DropSlot(r.taskId, NextAction, FRONTIER_SUBJECT);
      KeepCommutes(mine, frontier, l);
      if r.code != 0 {
        KeepPush(mine, Keep(frontier, l), FrontierClaim(r, None));
      } else {
        assert Keep(frontier, l) + [] == Keep(frontier, l);
        assert Keep(frontier, Keep(mine, l)) + [] == Keep(frontier, Keep(mine, l));
      }
    }
  }

  lemma ForgetCommutesAuthored(live: seq<Claim>, ce: ClaimEvent, g: Event, t: string)
    requires IsAuthored(g) && g.body.claim.value == ce && RowOk(g) && ce.op != CloseTask
    ensures Keep(DropProjector(t), AuthoredLive(live, ce, g)) == AuthoredLive(Keep(DropProjector(t), live), ce, g)
  {
    var mine := DropProjector(t);
    if ce.op == Supersede {
      KeepCommutes(mine, DropId(SupersedeTarget(ce)), live);
    }
    var l := if ce.op == Supersede then Keep(DropId(SupersedeTarget(ce)), live) else live;
    if HasClaimBody(ce) {
      AuthoredClaimOk(ce, g);
      var slot := DropSlot(ce.taskId, ce.kind.value, SubjectOf(ce));
      KeepCommutes(mine, slot, l);
      var k := if UniqueSlot(ce.kind.value) then Keep(slot, l) else l;
      if ce.supersedes.Some? {
        KeepCommutes(mine, DropId(ce.supersedes.value), k);
      }
      KeepPush(mine, if ce.supersedes.Some? then Keep(DropId(ce.supersedes.value), k) else k,
               Bare(AuthoredClaim(ce, g, None)));
    }
  }

  lemma Holders(log: seq<Event>)
    requires Gated(log)
    ensures LiveOk(CurrentClaims(log)) && LiveHolders(CurrentClaims(log))
  {
    CurrentOk(log);
    forall a, b | a in CurrentClaims(log) && b in CurrentClaims(log) && SameSlot(a, b)
      ensures a == b
    {
      LiveOneHolder(log, a, b);
    }
  }

  lemma RunFacts(e: Event)
    requires IsRun(e)
    ensures ReadRun(e).taskId == TaskIdFor(ReadRun(e).subject) && !NoNewline(ReadRun(e).subject)
    ensures ReadRun(e).subject == RunSubject(e)
  {
    RunSubjectHasNewline(e);
  }

  /** Two current views that differ only in the projector's claims on one task stay so, and
      meet again when that task's command runs. */
  lemma RejoinStep(v: seq<Claim>, w: seq<Claim>, g: Event, r: Run)
    requires RowOk(g) && LiveOk(v) && LiveHolders(v) && LiveOk(w) && LiveHolders(w)
    requires r.taskId == TaskIdFor(r.subject) && Keep(DropProjector(r.taskId), v) == Keep(DropProjector(r.taskId), w)
    ensures Keep(DropProjector(r.taskId), StepLive(v, g)) == Keep(DropProjector(r.taskId), StepLive(w, g))
    ensures IsRun(g) && RunSubject(g) == r.subject ==> StepLive(v, g) == StepLive(w, g)
  {
    if IsRun(g) {
      RunFacts(g);
      TaskIdInjective(RunSubject(g), r.subject);
    }
    if IsRun(g) && RunSubject(g) == r.subject {
      RunLiveForm(v, ReadRun(g));
      RunLiveForm(w, ReadRun(g));
      AuthoredFrontierKept(v, r.taskId, r.taskId);
      AuthoredFrontierKept(w, r.taskId, r.taskId);
    } else {
      ForgetCommutes(v, g, r.taskId);
      ForgetCommutes(w, g, r.taskId);
    }
  }

  /** Current claims with and without a run: they differ only in the projector's claims on
      its task, and only until the command runs again. */
  lemma {:induction false} ClaimsRejoin(a: seq<Event>, e: Event, b: seq<Event>)
    requires Gated(a + [e] + b) && Gated(a + b) && IsRun(e)
    ensures var with, without := CurrentClaims(a + [e] + b), CurrentClaims(a + b);
      && Keep(DropProjector(ReadRun(e).taskId), with) == Keep(DropProjector(ReadRun(e).taskId), without)
      && (HasRun(b, RunSubject(e)) ==> with == without)
    decreases |b|
  {
    RunFacts(e);
    if b == [] {
      assert a + [e] + b == a + [e] && a + b == a;
      FoldPush(a, e);
      Holders(a);
      RunLiveForm(CurrentClaims(a), ReadRun(e));
      ForgetTwice(CurrentClaims(a), ReadRun(e));
    } else {
      var b0, g := SplitLast(a, e, b);
      var x, y := a + [e] + b0, a + b0;
      assert (x + [g])[..|x|] == x && (y + [g])[..|y|] == y;
      GatedPrefix(x + [g]);
      GatedPrefix(y + [g]);
      ClaimsRejoin(a, e, b0);
      FoldPush(x, g);
      FoldPush(y, g);
      Holders(x);
      Holders(y);
      assert g in y + [g];
      RejoinStep(CurrentClaims(x), CurrentClaims(y), g, ReadRun(e));
    }
  }

  lemma ForgetTwice(live: seq<Claim>, r: Run)
    requires RunLive(live, r)
          == Keep(DropProjector(r.taskId), live) + [RealityClaim(r, None)]
             + if r.code != 0 && !AuthoredFrontier(live, r.taskId) then [FrontierClaim(r, None)] else []
    ensures Keep(DropProjector(r.taskId), RunLive(live, r)) == Keep(DropProjector(r.taskId), live)
  {
    var mine := DropProjector(r.taskId);
    var kept := Keep(mine, live);
    KeepMembers(mine, live);
    KeepAll(mine, kept);
    KeepDropsLast(mine, kept, RealityClaim(r, None));
    var l := kept + [RealityClaim(r, None)];
    if r.code != 0 && !AuthoredFrontier(live, r.taskId) {
      KeepDropsLast(mine, l, FrontierClaim(r, None));
    } else {
      assert l + [] == l;
    }
  }

  lemma KeepDropsLast(d: Drop, cs: seq<Claim>, c: Claim)
    requires Hits(d, c)
    ensures Keep(d, cs + [c]) == Keep(d, cs)
  {
    KeepPush(d, cs, c);
    assert Keep(d, cs) + [] == Keep(d, cs);
  }

  lemma {:induction false} IrrelevantRow(a: seq<Event>, e: Event, b: seq<Event>)
    requires !IsRun(e) && !IsAuthored(e)
    ensures Fold(a + [e] + b) == Fold(a + b)
    decreases |b|
  {
    if b == [] {
      assert a + [e] + b == a + [e] && a + b == a;
      FoldPush(a, e);
    } else {
      var b0, g := SplitLast(a, e, b);
      IrrelevantRow(a, e, b0);
      FoldPush(a + [e] + b0, g);
      FoldPush(a + b0, g);
    }
  }

  lemma {:induction false} TouchedHasRecord(log: seq<Event>, id: string)
    ensures Touched(log, id) <==> TaskRecord(log, id).Some?
  {
    if log != [] {
      var init, e := log[..|log| - 1], log[|log| - 1];
      TouchedHasRecord(init, id);
      assert e in log;
      assert Touched(init, id) ==> Touched(log, id);
    }
  }

  predicate SameButTime(p: Option<Task>, q: Option<Task>) {
    p.Some? && q.Some? && p.value.(updatedAt := 0) == q.value.(updatedAt := 0)
  }

  predicate IsDone(t: Option<Task>) {
    t.Some? && t.value.status == Done
  }

  /** One task with and without a run `e` that touches it. */
  lemma {:induction false} TaskRejoins(a: seq<Event>, e: Event, b: seq<Event>, id: string)
    requires !Closes(e)
    decreases |b|
    ensures var with, without := TaskRecord(a + [e] + b, id), TaskRecord(a + b, id);
      if TaskOf(e) != Some(id) then with == without
      else if Touched(a, id) then
        SameButTime(with, without) && (Touched(b, id) ==> with == without)
      else
        with.Some? && with.value.openedBy == e.id && (Closed(b, id) ==> IsDone(with) && IsDone(without))
  {
    hide TaskRecord;
    TouchedHasRecord(a, id);
    if b == [] {
      assert a + [e] + b == a + [e] && a + b == a;
      RecordPush(a, e, id);
    } else {
      var b0, g := SplitLast(a, e, b);
      TaskRejoins(a, e, b0, id);
      RecordPush(a + [e] + b0, g, id);
      RecordPush(a + b0, g, id);
    }
  }

  /** Deleting one droppable row changes neither the current claims nor the active tasks. */
  lemma DropOne(a: seq<Event>, e: Event, b: seq<Event>)
    requires Gated(a + [e] + b) && Droppable(a, e, b)
    ensures Gated(a + b)
    ensures SameView(Fold(a + [e] + b), Fold(a + b))
  {
    hide Fold, Gated, DistinctEvents;
    var log := a + [e] + b;
    GatedWithout(a, e, b);
    if !IsRun(e) {
      IrrelevantRow(a, e, b);
    } else {
      ClaimsRejoin(a, e, b);
      GatedFold(log);
      GatedFold(a + b);
      forall id
        ensures ActiveTask(Fold(log).tasks, id) == ActiveTask(Fold(a + b).tasks, id)
      {
        ActiveRejoins(a, e, b, id);
      }
    }
  }

  lemma GatedWithout(a: seq<Event>, e: Event, b: seq<Event>)
    requires Gated(a + [e] + b)
    ensures Gated(a + b)
  {
    var log := a + [e] + b;
    forall i, j | 0 <= i < j < |a + b|
      ensures (a + b)[i].id != (a + b)[j].id
    {
      var i', j' := if i < |a| then i else i + 1, if j < |a| then j else j + 1;
      assert log[i'] == (a + b)[i] && log[j'] == (a + b)[j];
    }
    GatedSublog(log, a + b);
  }

  /** With and without a droppable run, the same tasks are active, with the same record. */
  lemma ActiveRejoins(a: seq<Event>, e: Event, b: seq<Event>, id: string)
    requires Droppable(a, e, b) && IsRun(e)
    ensures ActiveTask(Fold(a + [e] + b).tasks, id) == ActiveTask(Fold(a + b).tasks, id)
  {
    hide Fold, ReadRun;
    FoldTasks(a + [e] + b, id);
    FoldTasks(a + b, id);
    TaskRejoins(a, e, b, id);
    RunAgainTouches(e, b);
  }

  lemma RunAgainTouches(e: Event, b: seq<Event>)
    requires IsRun(e) && HasRun(b, RunSubject(e))
    ensures Touched(b, ReadRun(e).taskId) && TaskOf(e) == Some(ReadRun(e).taskId)
  {
    var k :| k in b && IsRun(k) && RunSubject(k) == RunSubject(e);
    RunFacts(k);
    RunFacts(e);
    assert TaskOf(k) == Some(ReadRun(e).taskId);
  }

  // ---------- the prune query only offers droppable rows ----------

  lemma PrunableIsDroppable(a: seq<Event>, e: Event, b: seq<Event>)
    requires Gated(a + [e] + b) && Prunable(Fold(a + [e] + b), e)
    ensures Droppable(a, e, b)
  {
    if IsRun(e) {
      var log := a + [e] + b;
      if !HasRun(b, RunSubject(e)) {
        LastRunSplits(a, e, b);
        ProtectedReality(log, e);
      }
      var t := ReadRun(e).taskId;
      FoldTasks(log, t);
      TaskRejoins(a, e, b, t);
      if !Touched(a, t) && !Closed(b, t) {
        StillActive(a, e, b);
      }
    }
  }

  lemma ProtectedReality(log: seq<Event>, e: Event)
    requires Gated(log) && IsRun(e) && LastRun(log, RunSubject(e)) == Some(ReadRun(e))
    ensures !Prunable(Fold(log), e)
  {
    GatedFold(log);
    var cs := Fold(log).claims;
    LiveMembers(cs);
    LastRunIsCurrent(log, RunSubject(e));
    var i :| 0 <= i < |cs| && cs[i].status == Current && RealityClaim(ReadRun(e), None) == Bare(cs[i]);
    assert cs[i] in cs && e.id in Bare(cs[i]).evidenceIds;
  }

  lemma {:induction false} LastRunSplits(a: seq<Event>, e: Event, b: seq<Event>)
    requires IsRun(e) && !HasRun(b, RunSubject(e))
    ensures LastRun(a + [e] + b, RunSubject(e)) == Some(ReadRun(e))
    decreases |b|
  {
    if b == [] {
      assert a + [e] + b == a + [e] && (a + [e])[..|a|] == a;
    } else {
      var b0, g := SplitLast(a, e, b);
      LastRunSplits(a, e, b0);
      assert ((a + [e] + b0) + [g])[..|a + [e] + b0|] == a + [e] + b0;
      assert g in b;
    }
  }

  lemma {:induction false} StillActive(a: seq<Event>, e: Event, b: seq<Event>)
    requires IsRun(e) && !Touched(a, ReadRun(e).taskId) && !Closed(b, ReadRun(e).taskId)
    ensures TaskRecord(a + [e] + b, ReadRun(e).taskId).Some?
    ensures TaskRecord(a + [e] + b, ReadRun(e).taskId).value.status == Active
    decreases |b|
  {
    var t := ReadRun(e).taskId;
    TouchedHasRecord(a, t);
    if b == [] {
      assert a + [e] + b == a + [e];
      RecordPush(a, e, t);
    } else {
      var b0, g := SplitLast(a, e, b);
      StillActive(a, e, b0);
      RecordPush(a + [e] + b0, g, t);
      assert g in b;
    }
  }
}
