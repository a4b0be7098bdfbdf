/** Which task is in focus, read off the stored tasks and claims. */
module Focus {
  import opened Text
  import opened Claims
  import opened CurrentView
  import opened Ordering
  import opened Briefing

  /** A current claim says that a command of the task failed. */
  predicate FailsNow(view: View, taskId: string) {
    exists c :: c in view.claims && c.status == Current && c.taskId == taskId && c.kind == Reality
      && c.outcome.Some? && c.outcome.value != 0
  }

  predicate FailingTask(view: View, t: Task) {
    t in view.tasks && t.status == Active && FailsNow(view, t.id)
  }

  /** The user has a current intent on the active task. */
  predicate IntentOn(view: View, c: Claim, t: Task) {
    && c in view.claims && c.status == Current && c.kind == Intent && c.origin == User
    && t in view.tasks && t.status == Active && t.id == c.taskId
  }

  predicate OpenedBefore(t: Task, u: Task) {
    t.createdAt < u.createdAt || (t.createdAt == u.createdAt && Less(t.id, u.id))
  }

  predicate OlderThan(c: Claim, d: Claim) {
    c.updatedAt < d.updatedAt || (c.updatedAt == d.updatedAt && Less(c.id, d.id))
  }

  lemma LiveIs(cs: seq<Claim>, b: Claim)
    ensures b in Live(cs) <==> exists c :: c in cs && c.status == Current && b == Bare(c)
  {
    LiveMembers(cs);
    if c :| c in cs && c.status == Current && b == Bare(c) {
      var i :| 0 <= i < |cs| && cs[i] == c;
    }
  }

  lemma FailsInWork(view: View, taskId: string)
    ensures HasFailingReality(WorkOf(view).claims, taskId) <==> FailsNow(view, taskId)
  {
    var live := Live(view.claims);
    if b :| b in live && Fails(b, taskId) {
      LiveIs(view.claims, b);
    }
    if c :| c in view.claims && Fails(c, taskId) {
      LiveIs(view.claims, Bare(c));
      assert Fails(Bare(c), taskId);
    }
  }

  lemma SelectedIs<T(!new)>(key: T -> Key, keep: T -> bool, xs: seq<T>)
    ensures var s := SortBy(key, Filter(keep, xs));
      && (forall x :: x in s <==> x in xs && keep(x)) && Sorted(key, s)
  {
    var f := Filter(keep, xs);
    SortPermutes(key, f);
    SortSorts(key, f);
    forall x: T
      ensures x in SortBy(key, f) <==> x in xs && keep(x)
    {
      assert x in SortBy(key, f) <==> x in multiset(SortBy(key, f));
      FilterMembers(keep, xs, x);
    }
  }

  lemma ByTimeThenId(rank: nat, a: nat, s: string, b: nat, t: string)
    ensures KeyLess(Key(rank, a, s, ""), Key(rank, b, t, "")) <==> a < b || (a == b && Less(s, t))
  {
    LessTotal(s, s);
  }

  lemma FailingAre(view: View)
    ensures var s := FailingTasks(WorkOf(view));
      && (forall t :: t in s <==> FailingTask(view, t))
      && forall i, j | 0 <= i < j < |s| :: !OpenedBefore(s[j], s[i])
  {
    var w := WorkOf(view);
    SelectedIs(TaskKey, (t: Task) => HasFailingReality(w.claims, t.id), w.tasks);
    forall t: Task
      ensures t in FailingTasks(w) <==> FailingTask(view, t)
    {
      FilterMembers(IsActive, view.tasks, t);
      FailsInWork(view, t.id);
    }
    var s := FailingTasks(w);
    forall i, j | 0 <= i < j < |s|
      ensures !OpenedBefore(s[j], s[i])
    {
      assert !KeyLess(TaskKey(s[j]), TaskKey(s[i]));
      ByTimeThenId(0, s[j].createdAt, s[j].id, s[i].createdAt, s[i].id);
    }
  }

  lemma FoundTask(tasks: seq<Task>, id: string)
    ensures FindTask(tasks, id).Some? <==> exists t :: t in tasks && t.id == id
    ensures FindTask(tasks, id).Some? ==> FindTask(tasks, id).value in tasks && FindTask(tasks, id).value.id == id
  {
    if t :| t in tasks && t.id == id {
      var i :| 0 <= i < |tasks| && tasks[i] == t;
    }
  }

  /** An active task is found exactly if the view has one of that id. */
  lemma ActiveTaskFound(view: View, id: string)
    ensures var found := FindTask(WorkOf(view).tasks, id);
      && (found.Some? <==> exists t :: t in view.tasks && t.status == Active && t.id == id)
      && (found.Some? ==> found.value in view.tasks && found.value.status == Active && found.value.id == id)
  {
    FoundTask(WorkOf(view).tasks, id);
    forall t: Task
      ensures t in WorkOf(view).tasks <==> t in view.tasks && t.status == Active
    {
      FilterMembers(IsActive, view.tasks, t);
    }
  }

  lemma IntentsAre(view: View)
    ensures var s := UserIntents(WorkOf(view));
      && (forall b | b in s :: exists c, t :: IntentOn(view, c, t) && b == Bare(c))
      && (forall c, t | IntentOn(view, c, t) :: Bare(c) in s)
      && forall i, j | 0 <= i < j < |s| :: !OlderThan(s[j], s[i])
  {
    hide WorkOf, UserIntents, UserIntent;
    var w := WorkOf(view);
    IntentsSelected(w);
    var s := UserIntents(w);
    forall b | b in s
      ensures exists c, t :: IntentOn(view, c, t) && b == Bare(c)
    {
      IntentInWork(view, b);
    }
    forall c, t | IntentOn(view, c, t)
      ensures Bare(c) in s
    {
      IntentIsListed(view, c, t);
    }
    forall i, j | 0 <= i < j < |s|
      ensures !OlderThan(s[j], s[i])
    {
      assert !KeyLess(AgeKey(s[j]), AgeKey(s[i]));
      ByTimeThenId(0, s[j].updatedAt, s[j].id, s[i].updatedAt, s[i].id);
    }
  }

  lemma IntentsSelected(w: Work)
    ensures (forall b :: b in UserIntents(w) <==> b in w.claims && UserIntent(w, b)) && Sorted(AgeKey, UserIntents(w))
  {
    SelectedIs(AgeKey, (c: Claim) => UserIntent(w, c), w.claims);
  }

  lemma IntentInWork(view: View, b: Claim)
    requires b in WorkOf(view).claims && UserIntent(WorkOf(view), b)
    ensures exists c, t :: IntentOn(view, c, t) && b == Bare(c)
  {
    LiveIs(view.claims, b);
    ActiveTaskFound(view, b.taskId);
    var c :| c in view.claims && c.status == Current && b == Bare(c);
    assert IntentOn(view, c, FindTask(WorkOf(view).tasks, b.taskId).value);
  }

  lemma IntentIsListed(view: View, c: Claim, t: Task)
    requires IntentOn(view, c, t)
    ensures Bare(c) in WorkOf(view).claims && UserIntent(WorkOf(view), Bare(c))
  {
    LiveIs(view.claims, Bare(c));
    ActiveTaskFound(view, c.taskId);
  }

  /** In focus is the failing task opened first; if none fails, the active task of the user's
      newest intent; if there is none either, nothing. */
  lemma FocusIs(view: View)
    ensures var focal := FocalTask(WorkOf(view));
      if exists t :: FailingTask(view, t) then
        focal.Some? && FailingTask(view, focal.value) && forall t | FailingTask(view, t) :: !OpenedBefore(t, focal.value)
      else if exists c, t :: IntentOn(view, c, t) then
        focal.Some? && exists c :: IntentOn(view, c, focal.value) && forall d, u | IntentOn(view, d, u) :: !OlderThan(c, d)
      else focal.None?
  {
    hide WorkOf, FailingTask, IntentOn, FailingTasks, UserIntents, OpenedBefore, OlderThan;
    var w := WorkOf(view);
    FailingAre(view);
    IntentsAre(view);
    if FailingTasks(w) != [] {
      var s := FailingTasks(w);
      NotBeforeItself(s[0]);
      assert s[0] in s;
      forall t | FailingTask(view, t)
        ensures !OpenedBefore(t, s[0])
      {
        var i :| 0 <= i < |s| && s[i] == t;
      }
    } else if UserIntents(w) != [] {
      NewestIntent(view);
    }
  }

  lemma NotBeforeItself(t: Task)
    ensures !OpenedBefore(t, t)
  {
    LessTotal(t.id, t.id);
  }

  lemma NewestIntent(view: View)
    requires UserIntents(WorkOf(view)) != []
    ensures var s := UserIntents(WorkOf(view)); var focal := FindTask(WorkOf(view).tasks, s[|s| - 1].taskId);
      focal.Some? && exists c :: IntentOn(view, c, focal.value) && forall d, u | IntentOn(view, d, u) :: !OlderThan(c, d)
  {
    hide WorkOf, UserIntents;
    IntentsAre(view);
    var s := UserIntents(WorkOf(view));
    var last := s[|s| - 1];
    assert last in s;
    var c, t :| IntentOn(view, c, t) && last == Bare(c);
    ActiveTaskFound(view, last.taskId);
    var focal := FindTask(WorkOf(view).tasks, last.taskId);
    assert IntentOn(view, c, focal.value);
    forall d, u | IntentOn(view, d, u)
      ensures !OlderThan(c, d)
    {
      assert Bare(d) in s;
      var i :| 0 <= i < |s| && s[i] == Bare(d);
      LessTotal(c.id, c.id);
      if i < |s| - 1 {
        assert !OlderThan(s[|s| - 1], s[i]);
      }
    }
  }
}
