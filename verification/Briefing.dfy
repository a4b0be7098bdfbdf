/** The briefing's selections, and why they do not depend on the order rows come back in. */
module Briefing {
  import opened Text
  import opened Claims
  import opened Projector
  import opened CurrentView
  import opened GatedLog
  import opened FoldLaws
  import opened Trust
  import opened Compaction
  import opened Ordering

  /** What a selection may look at: active tasks and current claims, links aside. */
  datatype Work = Work(tasks: seq<Task>, claims: seq<Claim>)

  predicate IsActive(t: Task) {
    t.status == Active
  }

  function WorkOf(view: View): Work {
    Work(Filter(IsActive, view.tasks), Live(view.claims))
  }

  // ---------- the focal task ----------

  function TaskKey(t: Task): Key {
    Key(0, t.createdAt, t.id, "")
  }

  function AgeKey(c: Claim): Key {
    Key(0, c.updatedAt, c.id, "")
  }

  predicate UserIntent(w: Work, c: Claim) {
    c.kind == Intent && c.origin == User && FindTask(w.tasks, c.taskId).Some?
  }

  function FailingTasks(w: Work): seq<Task> {
    SortBy(TaskKey, Filter((t: Task) => HasFailingReality(w.claims, t.id), w.tasks))
  }

  function UserIntents(w: Work): seq<Claim> {
    SortBy(AgeKey, Filter((c: Claim) => UserIntent(w, c), w.claims))
  }

  /** Oldest failing task; otherwise the task of the newest user intent; otherwise none. */
  function FocalTask(w: Work): Option<Task> {
    if FailingTasks(w) != [] then Some(FailingTasks(w)[0])
    else
      var intents := UserIntents(w);
      if intents == [] then None else FindTask(w.tasks, intents[|intents| - 1].taskId)
  }

  // ---------- the other selections ----------

  datatype Rendered = Rendered(
    id: string, text: string, confidence: Confidence, origin: Origin, evidenceIds: seq<string>)

  datatype TaskView = TaskView(
    id: string, intent: Option<Rendered>, reality: seq<Rendered>, decisions: seq<Rendered>,
    ruledOut: seq<Rendered>, unknowns: seq<Rendered>, nextAction: Option<Rendered>, artifacts: seq<string>)

  datatype TaskLine = TaskLine(id: string, summary: string)

  datatype PassedCheck = PassedCheck(taskId: string, text: string, evidenceIds: seq<string>)

  function Render(c: Claim): Rendered {
    Rendered(c.id, c.text, c.confidence, c.origin, c.evidenceIds)
  }

  function Rank(confidence: Confidence): nat {
    match confidence
    case Observed => 0
    case Stated => 1
    case Inferred => 2
    case Hypothesis => 3
  }

  function PickKey(c: Claim): Key {
    Key(Rank(c.confidence), c.updatedAt, c.id, "")
  }

  function StandingConstraints(w: Work): seq<Rendered> {
    Map(Render, SortBy(AgeKey, Filter((c: Claim) => c.kind == Constraint, w.claims)))
  }

  predicate Picked(c: Claim, taskId: string, kind: Kind) {
    c.taskId == taskId && c.kind == kind && !(kind == Reality && c.outcome == Some(0))
  }

  function Pick(w: Work, taskId: string, kind: Kind): seq<Rendered> {
    Map(Render, SortBy(PickKey, Filter((c: Claim) => Picked(c, taskId, kind), w.claims)))
  }

  function Head(rs: seq<Rendered>): Option<Rendered> {
    if rs == [] then None else Some(rs[0])
  }

  function AddNew(known: seq<string>, more: seq<string>): seq<string>
    decreases |more|
  {
    if more == [] then known
    else AddNew(if more[0] in known then known else known + [more[0]], more[1..])
  }

  /** Artifacts of a task's current claims, each once, in claim order. */
  function Artifacts(claims: seq<Claim>, taskId: string): seq<string> {
    if claims == [] then []
    else
      var before, c := Artifacts(claims[..|claims| - 1], taskId), claims[|claims| - 1];
      if c.taskId == taskId then AddNew(before, c.artifactRefs) else before
  }

  function FocalView(w: Work, task: Task): TaskView {
    TaskView(task.id, Head(Pick(w, task.id, Intent)), Pick(w, task.id, Reality), Pick(w, task.id, Decision),
             Pick(w, task.id, RuledOut), Pick(w, task.id, Unknown), Head(Pick(w, task.id, NextAction)),
             Artifacts(w.claims, task.id))
  }

  predicate Continues(c: Claim) {
    match c.kind
    case Decision => true
    case RuledOut => true
    case Unknown => true
    case Intent => true
    case NextAction => c.origin != Projector
    case Reality => c.origin != Projector
    case Constraint => false
  }

  predicate HasContinuation(claims: seq<Claim>, taskId: string) {
    exists c | c in claims :: c.taskId == taskId && Continues(c)
  }

  function OpenTasks(w: Work, focal: Option<string>): seq<Task> {
    SortBy(TaskKey, Filter((t: Task) => focal != Some(t.id) && HasContinuation(w.claims, t.id), w.tasks))
  }

  function OpenWork(w: Work, focal: Option<string>): seq<TaskView> {
    Map((t: Task) => FocalView(w, t), OpenTasks(w, focal))
  }

  function Summary(w: Work, task: Task): string {
    var intent := First((c: Claim) => Occupies(c, task.id, Intent, INTENT_SUBJECT), w.claims);
    if intent.Some? then intent.value.text
    else
      var failing := First((c: Claim) => Fails(c, task.id), w.claims);
      if failing.Some? then failing.value.text
      else
        var first := First((c: Claim) => c.taskId == task.id, w.claims);
        if first.Some? then first.value.text else task.id
  }

  function LineKey(l: TaskLine): Key {
    Key(0, 0, l.id, "")
  }

  function OtherTasks(w: Work, focal: string): seq<TaskLine> {
    SortBy(LineKey, Map((t: Task) => TaskLine(t.id, Summary(w, t)),
                        Filter((t: Task) => t.id != focal && HasFailingReality(w.claims, t.id), w.tasks)))
  }

  /** Reads superseded claims too, so it needs the whole view. */
  predicate PreviouslyFailed(claims: seq<Claim>, current: Claim) {
    exists c | c in claims ::
      c.id != current.id && c.taskId == current.taskId && c.kind == Reality && c.subject == current.subject
      && c.status == Superseded && c.outcome.Some? && c.outcome.value != 0
  }

  function PassText(text: string): string {
    var mark := " exited 0";
    (if |mark| <= |text| && text[|text| - |mark|..] == mark then text[..|text| - |mark|] else text)
    + " now passes"
  }

  predicate Passes(view: View, c: Claim) {
    c.kind == Reality && c.outcome == Some(0) && PreviouslyFailed(view.claims, c)
    && FindTask(Filter(IsActive, view.tasks), c.taskId).Some?
  }

  function CheckOf(c: Claim): PassedCheck {
    PassedCheck(c.taskId, PassText(c.text), c.evidenceIds)
  }

  function CheckKey(p: PassedCheck): Key {
    Key(0, 0, p.taskId, p.text)
  }

  function PassedChecks(view: View): seq<PassedCheck> {
    SortBy(CheckKey, Map(CheckOf, Filter((c: Claim) => Passes(view, c), Live(view.claims))))
  }

  // ---------- order independence ----------

  predicate SameWork(v: Work, w: Work) {
    multiset(v.tasks) == multiset(w.tasks) && multiset(v.claims) == multiset(w.claims)
  }

  /** Two realities of one task, both with an exit code. */
  predicate BothFinished(a: Claim, b: Claim) {
    a.taskId == b.taskId && a.kind == b.kind == Reality && a.outcome.Some? && b.outcome.Some?
  }

  /** What makes every search and every tie-break of the briefing definite. */
  predicate Definite(w: Work) {
    && TasksOnce(w.tasks)
    && (forall a, b | a in w.claims && b in w.claims && a.id == b.id :: a == b)
    && (forall a, b | a in w.claims && b in w.claims && SameSlot(a, b) :: a == b)
    && (forall a, b | a in w.claims && b in w.claims && BothFinished(a, b) :: a == b)
    && (forall c | c in w.claims :: c.status == Current)
  }

  lemma SameMembers<T>(xs: seq<T>, ys: seq<T>)
    requires multiset(xs) == multiset(ys)
    ensures forall x :: x in xs <==> x in ys
  {
    forall x: T
      ensures x in xs <==> x in ys
    {
      assert x in xs <==> x in multiset(xs);
    }
  }

  lemma TasksOncePermutes(xs: seq<Task>, ys: seq<Task>)
    requires multiset(xs) == multiset(ys) && TasksOnce(xs)
    ensures forall a, b | a in xs && b in xs && a.id == b.id :: a == b
    ensures forall id :: FindTask(xs, id) == FindTask(ys, id)
  {
    SameMembers(xs, ys);
    forall id
      ensures FindTask(xs, id) == FindTask(ys, id)
    {
      var i, j := TaskIndex(xs, id), TaskIndex(ys, id);
      if i < |xs| {
        assert xs[i] in ys;
      }
      if j < |ys| {
        assert ys[j] in xs;
      }
    }
  }

  lemma FocalIsOrderFree(v: Work, w: Work)
    requires SameWork(v, w) && Definite(v)
    ensures FocalTask(v) == FocalTask(w)
  {
    SameMembers(v.claims, w.claims);
    TasksOncePermutes(v.tasks, w.tasks);
    var f, g := (t: Task) => HasFailingReality(v.claims, t.id), (t: Task) => HasFailingReality(w.claims, t.id);
    FilterAgrees(f, g, w.tasks);
    SortedSelection(TaskKey, f, v.tasks, w.tasks);
    var h, k := (c: Claim) => UserIntent(v, c), (c: Claim) => UserIntent(w, c);
    FilterAgrees(h, k, w.claims);
    SortedSelection(AgeKey, h, v.claims, w.claims);
  }

  /** Filter then sort: the shape of every selection. */
  lemma SortedSelection<T(!new)>(key: T -> Key, keep: T -> bool, xs: seq<T>, ys: seq<T>)
    requires multiset(xs) == multiset(ys) && KeysDistinguish(key, xs)
    ensures SortBy(key, Filter(keep, xs)) == SortBy(key, Filter(keep, ys))
  {
    FilterPermutes(keep, xs, ys);
    forall x: T
      ensures x in Filter(keep, xs) ==> x in xs
    {
      FilterMembers(keep, xs, x);
    }
    SortIsOrderFree(key, Filter(keep, xs), Filter(keep, ys));
  }

  lemma ConstraintsAreOrderFree(v: Work, w: Work)
    requires SameWork(v, w) && Definite(v)
    ensures StandingConstraints(v) == StandingConstraints(w)
  {
    SortedSelection(AgeKey, (c: Claim) => c.kind == Constraint, v.claims, w.claims);
  }

  lemma PicksAreOrderFree(v: Work, w: Work, taskId: string, kind: Kind)
    requires SameWork(v, w) && Definite(v)
    ensures Pick(v, taskId, kind) == Pick(w, taskId, kind)
  {
    SortedSelection(PickKey, (c: Claim) => Picked(c, taskId, kind), v.claims, w.claims);
  }

  lemma {:induction false} AddNewMembers(known: seq<string>, more: seq<string>, x: string)
    ensures x in AddNew(known, more) <==> x in known || x in more
    decreases |more|
  {
    if more != [] {
      assert more == [more[0]] + more[1..];
      AddNewMembers(if more[0] in known then known else known + [more[0]], more[1..], x);
    }
  }

  lemma {:induction false} ArtifactMembers(claims: seq<Claim>, taskId: string, x: string)
    ensures x in Artifacts(claims, taskId) <==>
      exists c :: c in claims && c.taskId == taskId && x in c.artifactRefs
  {
    if claims != [] {
      var init, last := claims[..|claims| - 1], claims[|claims| - 1];
      ArtifactMembers(init, taskId, x);
      AddNewMembers(Artifacts(init, taskId), last.artifactRefs, x);
      assert claims == init + [last];
    }
  }

  /** Equal views, except that artifacts may be listed in another order. */
  ghost predicate Alike(a: TaskView, b: TaskView) {
    a.(artifacts := []) == b.(artifacts := []) && forall x :: x in a.artifacts <==> x in b.artifacts
  }

  lemma ViewsAreOrderFree(v: Work, w: Work, task: Task)
    requires SameWork(v, w) && Definite(v)
    ensures Alike(FocalView(v, task), FocalView(w, task))
  {
    PicksAreOrderFree(v, w, task.id, Intent);
    PicksAreOrderFree(v, w, task.id, Reality);
    PicksAreOrderFree(v, w, task.id, Decision);
    PicksAreOrderFree(v, w, task.id, RuledOut);
    PicksAreOrderFree(v, w, task.id, Unknown);
    PicksAreOrderFree(v, w, task.id, NextAction);
    SameMembers(v.claims, w.claims);
    forall x: string
      ensures x in Artifacts(v.claims, task.id) <==> x in Artifacts(w.claims, task.id)
    {
      ArtifactMembers(v.claims, task.id, x);
      ArtifactMembers(w.claims, task.id, x);
    }
  }

  lemma OpenWorkIsOrderFree(v: Work, w: Work, focal: Option<string>)
    requires SameWork(v, w) && Definite(v)
    ensures OpenTasks(v, focal) == OpenTasks(w, focal)
    ensures forall t | t in OpenTasks(v, focal) :: Alike(FocalView(v, t), FocalView(w, t))
  {
    SameMembers(v.claims, w.claims);
    TasksOncePermutes(v.tasks, w.tasks);
    var f := (t: Task) => focal != Some(t.id) && HasContinuation(v.claims, t.id);
    var g := (t: Task) => focal != Some(t.id) && HasContinuation(w.claims, t.id);
    FilterAgrees(f, g, w.tasks);
    SortedSelection(TaskKey, f, v.tasks, w.tasks);
    forall t | t in OpenTasks(v, focal)
      ensures Alike(FocalView(v, t), FocalView(w, t))
    {
      ViewsAreOrderFree(v, w, t);
    }
  }

  /** The fallback to a task's first current claim is never reached for a failing task. */
  lemma SummaryIsOrderFree(v: Work, w: Work, task: Task)
    requires SameWork(v, w) && Definite(v) && HasFailingReality(v.claims, task.id)
    ensures Summary(v, task) == Summary(w, task)
  {
    FirstIsOrderFree((c: Claim) => Occupies(c, task.id, Intent, INTENT_SUBJECT), v.claims, w.claims);
    FirstIsOrderFree((c: Claim) => Fails(c, task.id), v.claims, w.claims);
    var c :| c in v.claims && Fails(c, task.id);
    FirstFacts((c: Claim) => Fails(c, task.id), v.claims);
  }

  lemma OtherTasksAreOrderFree(v: Work, w: Work, focal: string)
    requires SameWork(v, w) && Definite(v)
    ensures OtherTasks(v, focal) == OtherTasks(w, focal)
  {
    SameMembers(v.claims, w.claims);
    TasksOncePermutes(v.tasks, w.tasks);
    var f := (t: Task) => t.id != focal && HasFailingReality(v.claims, t.id);
    var g := (t: Task) => t.id != focal && HasFailingReality(w.claims, t.id);
    var lineV, lineW := (t: Task) => TaskLine(t.id, Summary(v, t)), (t: Task) => TaskLine(t.id, Summary(w, t));
    FilterAgrees(f, g, w.tasks);
    FilterPermutes(f, v.tasks, w.tasks);
    var ts, us := Filter(f, v.tasks), Filter(f, w.tasks);
    forall t | t in us
      ensures lineV(t) == lineW(t)
    {
      FilterMembers(f, w.tasks, t);
      SummaryIsOrderFree(v, w, t);
    }
    MapAgrees(lineV, lineW, us);
    MapPermutes(lineV, ts, us);
    forall x, y | x in Map(lineV, ts) && y in Map(lineV, ts) && LineKey(x) == LineKey(y)
      ensures x == y
    {
      MapMembers(lineV, ts, x);
      MapMembers(lineV, ts, y);
      var a :| a in ts && lineV(a) == x;
      var b :| b in ts && lineV(b) == y;
      FilterMembers(f, v.tasks, a);
      FilterMembers(f, v.tasks, b);
    }
    SortIsOrderFree(LineKey, Map(lineV, ts), Map(lineV, us));
  }

  // ---------- a view that went through the database ----------

  /** The same rows, in any order. */
  predicate Reordered(p: View, q: View) {
    multiset(p.tasks) == multiset(q.tasks) && multiset(p.claims) == multiset(q.claims)
  }

  predicate IsCurrent(c: Claim) {
    c.status == Current
  }

  lemma {:induction false} LiveIsFilter(cs: seq<Claim>)
    ensures Live(cs) == Map(Bare, Filter(IsCurrent, cs))
  {
    if cs != [] {
      var init, last := cs[..|cs| - 1], cs[|cs| - 1];
      LiveIsFilter(init);
      assert cs == init + [last];
      FilterConcat(IsCurrent, init, [last]);
      assert Filter(IsCurrent, [last]) == if IsCurrent(last) then [last] else [];
      MapConcat(Bare, Filter(IsCurrent, init), Filter(IsCurrent, [last]));
    }
  }

  lemma ReorderedSameWork(p: View, q: View)
    requires Reordered(p, q)
    ensures SameWork(WorkOf(p), WorkOf(q))
  {
    FilterPermutes(IsActive, p.tasks, q.tasks);
    FilterPermutes(IsCurrent, p.claims, q.claims);
    LiveIsFilter(p.claims);
    LiveIsFilter(q.claims);
    MapPermutes(Bare, Filter(IsCurrent, p.claims), Filter(IsCurrent, q.claims));
  }

  lemma FindInCons(x: Task, rest: seq<Task>, id: string)
    ensures FindTask([x] + rest, id) == if x.id == id then Some(x) else FindTask(rest, id)
  {
    assert ([x] + rest)[1..] == rest;
  }

  lemma ActiveCons(t: Task, tasks: seq<Task>, id: string)
    requires TasksOnce([t] + tasks) && FindTask(Filter(IsActive, tasks), id) == ActiveTask(tasks, id)
    ensures FindTask(Filter(IsActive, [t] + tasks), id) == ActiveTask([t] + tasks, id)
  {
    var rest := Filter(IsActive, tasks);
    assert ([t] + tasks)[1..] == tasks && [] + rest == rest;
    FindInCons(t, tasks, id);
    FindInCons(t, rest, id);
    NotAgain(t, tasks);
  }

  lemma NotAgain(t: Task, tasks: seq<Task>)
    requires TasksOnce([t] + tasks)
    ensures FindTask(tasks, t.id) == None
  {
    forall i | 0 <= i < |tasks|
      ensures tasks[i].id != t.id
    {
      assert ([t] + tasks)[0] == t && ([t] + tasks)[i + 1] == tasks[i];
    }
  }

  lemma {:induction false} ActiveFound(tasks: seq<Task>, id: string)
    requires TasksOnce(tasks)
    ensures FindTask(Filter(IsActive, tasks), id) == ActiveTask(tasks, id)
  {
    if tasks != [] {
      ActiveFound(tasks[1..], id);
      ActiveCons(tasks[0], tasks[1..], id);
      assert tasks == [tasks[0]] + tasks[1..];
    }
  }

  lemma {:induction false} ActiveOnce(tasks: seq<Task>)
    requires TasksOnce(tasks)
    ensures TasksOnce(Filter(IsActive, tasks))
    ensures forall id :: FindTask(Filter(IsActive, tasks), id) == ActiveTask(tasks, id)
  {
    forall id
      ensures FindTask(Filter(IsActive, tasks), id) == ActiveTask(tasks, id)
    {
      ActiveFound(tasks, id);
    }
    if tasks != [] {
      assert tasks == [tasks[0]] + tasks[1..];
      ActiveOnce(tasks[1..]);
      forall x: Task | x in Filter(IsActive, tasks[1..])
        ensures x.id != tasks[0].id
      {
        FilterMembers(IsActive, tasks[1..], x);
      }
    }
  }

  lemma {:induction false} CountOnce(tasks: seq<Task>, t: Task)
    requires TasksOnce(tasks)
    ensures multiset(tasks)[t] == if FindTask(tasks, t.id) == Some(t) then 1 else 0
  {
    if tasks != [] {
      assert tasks == [tasks[0]] + tasks[1..];
      CountOnce(tasks[1..], t);
      if tasks[0].id == t.id {
        assert t !in tasks[1..];
      }
    }
  }

  /** Compaction's notion of an unchanged view is the briefing's. */
  lemma SameViewSameWork(p: View, q: View)
    requires SameView(p, q) && TasksOnce(p.tasks) && TasksOnce(q.tasks)
    ensures SameWork(WorkOf(p), WorkOf(q))
  {
    var a, b := Filter(IsActive, p.tasks), Filter(IsActive, q.tasks);
    ActiveOnce(p.tasks);
    ActiveOnce(q.tasks);
    forall t: Task
      ensures multiset(a)[t] == multiset(b)[t]
    {
      CountOnce(a, t);
      CountOnce(b, t);
    }
    assert multiset(a) == multiset(b);
  }

  lemma FoldIsDefinite(log: seq<Event>)
    requires Gated(log)
    ensures Definite(WorkOf(Fold(log)))
  {
    hide Fold, Gated;
    GatedFold(log);
    FoldTasks(log, "");
    Holders(log);
    forall a, b | a in Live(Fold(log).claims) && b in Live(Fold(log).claims) && BothFinished(a, b)
      ensures a == b
    {
      OneOutcome(log, a, b);
    }
    IsDefinite(Fold(log));
  }

  lemma IsDefinite(view: View)
    requires TasksOnce(view.tasks) && DistinctIds(view.claims) && LiveHolders(Live(view.claims))
    requires forall a, b | a in Live(view.claims) && b in Live(view.claims) && BothFinished(a, b) :: a == b
    ensures Definite(WorkOf(view))
  {
    hide DistinctIds, SameSlot, BothFinished, TasksOnce;
    ActiveOnce(view.tasks);
    LiveIsCurrent(view.claims);
    forall a, b | a in Live(view.claims) && b in Live(view.claims) && a.id == b.id
      ensures a == b
    {
      LiveIdsDiffer(view.claims, a, b);
    }
  }

  lemma LiveIsCurrent(cs: seq<Claim>)
    ensures forall c | c in Live(cs) :: c.status == Current
  {
    LiveMembers(cs);
  }

  lemma LiveIdsDiffer(cs: seq<Claim>, a: Claim, b: Claim)
    requires DistinctIds(cs) && a in Live(cs) && b in Live(cs) && a.id == b.id
    ensures a == b
  {
    LiveMembers(cs);
    var i :| 0 <= i < |cs| && cs[i].status == Current && a == Bare(cs[i]);
    var j :| 0 <= j < |cs| && cs[j].status == Current && b == Bare(cs[j]);
  }

  /** A task has at most one current reality with an exit code. */
  lemma OneOutcome(log: seq<Event>, a: Claim, b: Claim)
    requires Gated(log) && a in Live(Fold(log).claims) && b in Live(Fold(log).claims) && BothFinished(a, b)
    ensures a == b
  {
    hide Fold, Gated;
    GatedFold(log);
    CurrentOk(log);
    assert ClaimOk(a) && ClaimOk(b);
    CurrentIsLastRun(log, a);
    CurrentIsLastRun(log, b);
    TaskIdInjective(a.subject, b.subject);
  }

  lemma SameCheck(live: seq<Claim>, keep: Claim -> bool, x: PassedCheck, y: PassedCheck)
    requires forall a, b | a in live && b in live && BothFinished(a, b) :: a == b
    requires forall c | keep(c) :: c.kind == Reality && c.outcome.Some?
    requires x in Map(CheckOf, Filter(keep, live)) && y in Map(CheckOf, Filter(keep, live)) && CheckKey(x) == CheckKey(y)
    ensures x == y
  {
    var xs := Filter(keep, live);
    MapMembers(CheckOf, xs, x);
    MapMembers(CheckOf, xs, y);
    var a :| a in xs && CheckOf(a) == x;
    var b :| b in xs && CheckOf(b) == y;
    FilterMembers(keep, live, a);
    FilterMembers(keep, live, b);
    assert BothFinished(a, b);
  }

  lemma PassedChecksAreOrderFree(p: View, q: View)
    requires Reordered(p, q) && Definite(WorkOf(p))
    ensures PassedChecks(p) == PassedChecks(q)
  {
    hide DistinctIds;
    ReorderedSameWork(p, q);
    SameMembers(p.claims, q.claims);
    TasksOncePermutes(WorkOf(p).tasks, WorkOf(q).tasks);
    var f, g := (c: Claim) => Passes(p, c), (c: Claim) => Passes(q, c);
    var live := Live(p.claims);
    FilterAgrees(f, g, Live(q.claims));
    FilterPermutes(f, live, Live(q.claims));
    var xs, ys := Filter(f, live), Filter(f, Live(q.claims));
    MapPermutes(CheckOf, xs, ys);
    forall x, y | x in Map(CheckOf, xs) && y in Map(CheckOf, xs) && CheckKey(x) == CheckKey(y)
      ensures x == y
    {
      SameCheck(live, f, x, y);
    }
    SortIsOrderFree(CheckKey, Map(CheckOf, xs), Map(CheckOf, ys));
  }
}
