/** What the briefing shows, read off the stored tasks and claims: what every list holds, as
    often as it is stored, and in which order. */
module Shown {
  import opened Text
  import opened Claims
  import opened CurrentView
  import opened Ordering
  import opened Briefing
  import opened Focus
  import Rendering

  // ---------- selecting among current claims ----------

  lemma {:induction false} FilterMap<S, T>(keep: T -> bool, f: S -> T, own: S -> bool, xs: seq<S>)
    requires forall x :: keep(f(x)) == own(x)
    ensures Filter(keep, Map(f, xs)) == Map(f, Filter(own, xs))
  {
    if xs != [] {
      FilterMap(keep, f, own, xs[1..]);
      MapConcat(f, if own(xs[0]) then [xs[0]] else [], Filter(own, xs[1..]));
      assert Map(f, [xs[0]]) == [f(xs[0])];
    }
  }

  lemma {:induction false} FilterTwice<T>(k: T -> bool, l: T -> bool, both: T -> bool, xs: seq<T>)
    requires forall x :: both(x) == (k(x) && l(x))
    ensures Filter(k, Filter(l, xs)) == Filter(both, xs)
  {
    if xs != [] {
      FilterTwice(k, l, both, xs[1..]);
      FilterConcat(k, if l(xs[0]) then [xs[0]] else [], Filter(l, xs[1..]));
    }
  }

  lemma {:induction false} InsertMap<S, T>(key: T -> Key, f: S -> T, own: S -> Key, x: S, xs: seq<S>)
    requires forall y :: key(f(y)) == own(y)
    ensures Insert(key, f(x), Map(f, xs)) == Map(f, Insert(own, x, xs))
  {
    if xs != [] && KeyLess(own(xs[0]), own(x)) {
      InsertMap(key, f, own, x, xs[1..]);
    }
  }

  lemma {:induction false} SortMap<S, T>(key: T -> Key, f: S -> T, own: S -> Key, xs: seq<S>)
    requires forall y :: key(f(y)) == own(y)
    ensures SortBy(key, Map(f, xs)) == Map(f, SortBy(own, xs))
  {
    if xs != [] {
      SortMap(key, f, own, xs[1..]);
      InsertMap(key, f, own, xs[0], SortBy(own, xs[1..]));
    }
  }

  lemma {:induction false} MapMap<S, T, U>(f: S -> T, g: T -> U, h: S -> U, xs: seq<S>)
    requires forall x :: g(f(x)) == h(x)
    ensures Map(g, Map(f, xs)) == Map(h, xs)
  {
    if xs != [] {
      MapMap(f, g, h, xs[1..]);
    }
  }

  lemma {:induction false} MapIs<S, T>(f: S -> T, xs: seq<S>)
    ensures |Map(f, xs)| == |xs| && forall i | 0 <= i < |xs| :: Map(f, xs)[i] == f(xs[i])
  {
    if xs != [] {
      MapIs(f, xs[1..]);
    }
  }

  /** Selected current claims, sorted: the same list with the links kept. */
  lemma LiveSelection(key: Claim -> Key, keep: Claim -> bool, cs: seq<Claim>) returns (order: seq<Claim>)
    requires forall c :: keep(Bare(c)) == keep(c) && key(Bare(c)) == key(c)
    ensures SortBy(key, Filter(keep, Live(cs))) == Map(Bare, order)
    ensures forall c :: multiset(order)[c] == if c.status == Current && keep(c) then multiset(cs)[c] else 0
    ensures Sorted(key, order)
  {
    hide SortBy, Filter, Map, Live, Sorted;
    var now := Filter(IsCurrent, cs);
    LiveIsFilter(cs);
    var both := (c: Claim) => c.status == Current && keep(c);
    FilterMap(keep, Bare, keep, now);
    FilterTwice(keep, IsCurrent, both, cs);
    order := SortBy(key, Filter(both, cs));
    SortMap(key, Bare, key, Filter(both, cs));
    SortPermutes(key, Filter(both, cs));
    SortSorts(key, Filter(both, cs));
    forall c: Claim
      ensures multiset(order)[c] == if c.status == Current && keep(c) then multiset(cs)[c] else 0
    {
      FilterCounts(both, cs, c);
    }
  }

  // ---------- lists of claims ----------

  function Line(c: Claim): Rendered {
    Rendered(c.id, c.text, c.confidence, c.origin, c.evidenceIds)
  }

  /** The lines are those of all current claims `of` says, in an order in which none comes
      after one it should precede. */
  ghost predicate Lists(cs: seq<Claim>, of: Claim -> bool, precedes: (Claim, Claim) -> bool, lines: seq<Rendered>) {
    exists order: seq<Claim> ::
      && |order| == |lines| && (forall i | 0 <= i < |lines| :: lines[i] == Line(order[i]))
      && (forall c :: multiset(order)[c] == if c.status == Current && of(c) then multiset(cs)[c] else 0)
      && forall i, j | 0 <= i < j < |order| :: !precedes(order[j], order[i])
  }

  function Place(confidence: Confidence): nat {
    if confidence == Observed then 0 else if confidence == Stated then 1 else if confidence == Inferred then 2 else 3
  }

  /** Observed before stated before inferred before hypothesis; then the older claim. */
  predicate FirmerThan(c: Claim, d: Claim) {
    Place(c.confidence) < Place(d.confidence) || (c.confidence == d.confidence && OlderThan(c, d))
  }

  lemma ListedBy(key: Claim -> Key, keep: Claim -> bool, precedes: (Claim, Claim) -> bool, cs: seq<Claim>)
    requires forall c :: keep(Bare(c)) == keep(c) && key(Bare(c)) == key(c)
    requires forall c, d :: precedes(c, d) == KeyLess(key(c), key(d))
    ensures Lists(cs, keep, precedes, Map(Render, SortBy(key, Filter(keep, Live(cs)))))
  {
    hide SortBy, Filter, Live, Map;
    var order := LiveSelection(key, keep, cs);
    MapMap(Bare, Render, Line, order);
    MapIs(Line, order);
    forall i, j | 0 <= i < j < |order|
      ensures !precedes(order[j], order[i])
    {
      assert !KeyLess(key(order[j]), key(order[i]));
    }
  }

  lemma KeysAgree(c: Claim, d: Claim)
    ensures OlderThan(c, d) == KeyLess(AgeKey(c), AgeKey(d)) && FirmerThan(c, d) == KeyLess(PickKey(c), PickKey(d))
  {
    LessTotal(c.id, d.id);
    LessTotal(c.id, c.id);
  }

  predicate OnTask(c: Claim, taskId: string, kind: Kind) {
    c.taskId == taskId && c.kind == kind && (kind == Reality ==> c.outcome != Some(0))
  }

  lemma ConstraintsListed(view: View)
    ensures Lists(view.claims, (c: Claim) => c.kind == Constraint, OlderThan, StandingConstraints(WorkOf(view)))
  {
    forall c, d {
      KeysAgree(c, d);
    }
    ListedBy(AgeKey, (c: Claim) => c.kind == Constraint, OlderThan, view.claims);
  }

  /** The claims of a kind on a task; a command that passed is no news. */
  ghost predicate ListsKind(view: View, taskId: string, kind: Kind, lines: seq<Rendered>) {
    Lists(view.claims, (c: Claim) => OnTask(c, taskId, kind), FirmerThan, lines)
  }

  lemma PicksListed(view: View, taskId: string, kind: Kind)
    ensures ListsKind(view, taskId, kind, Pick(WorkOf(view), taskId, kind))
  {
    forall c, d {
      KeysAgree(c, d);
    }
    var keep, of := (c: Claim) => Picked(c, taskId, kind), (c: Claim) => OnTask(c, taskId, kind);
    FilterAgrees(keep, of, Live(view.claims));
    ListedBy(PickKey, of, FirmerThan, view.claims);
  }

  // ---------- artifacts ----------

  /** The references of the task's claims, one claim after another. */
  function Mentioned(claims: seq<Claim>, taskId: string): seq<string> {
    if claims == [] then []
    else
      Mentioned(claims[..|claims| - 1], taskId)
      + var c := claims[|claims| - 1]; if c.status == Current && c.taskId == taskId then c.artifactRefs else []
  }

  /** Everything mentioned, each thing once, in the order of its first mention. */
  ghost predicate FirstMentions(ms: seq<string>, once: seq<string>) {
    && (forall x :: x in once <==> x in ms)
    && forall i, j | 0 <= i < j < |once| :: MentionedBefore(ms, once[i], once[j])
  }

  predicate MentionedBefore(ms: seq<string>, x: string, y: string) {
    exists k | 0 <= k < |ms| :: ms[k] == x && y !in ms[..k + 1]
  }

  lemma StillBefore(ms: seq<string>, z: string, x: string, y: string)
    ensures MentionedBefore(ms, x, y) ==> MentionedBefore(ms + [z], x, y)
    ensures x in ms && y !in ms ==> MentionedBefore(ms + [z], x, y)
  {
    if x in ms && y !in ms {
      var k :| 0 <= k < |ms| && ms[k] == x;
      assert y !in ms[..k + 1];
    }
    if k :| 0 <= k < |ms| && ms[k] == x && y !in ms[..k + 1] {
      assert (ms + [z])[k] == x && (ms + [z])[..k + 1] == ms[..k + 1];
    }
  }

  lemma MentionOne(ms: seq<string>, once: seq<string>, x: string)
    requires FirstMentions(ms, once)
    ensures FirstMentions(ms + [x], if x in once then once else once + [x])
  {
    hide MentionedBefore;
    var more, after := ms + [x], if x in once then once else once + [x];
    forall y: string
      ensures y in after <==> y in more
    {
      assert y in once <==> y in ms;
    }
    forall i, j | 0 <= i < j < |after|
      ensures MentionedBefore(more, after[i], after[j])
    {
      assert once[i] in once;
      StillBefore(ms, x, after[i], after[j]);
    }
  }

  lemma {:induction false} MentionAll(ms: seq<string>, once: seq<string>, more: seq<string>)
    requires FirstMentions(ms, once)
    ensures FirstMentions(ms + more, AddNew(once, more))
    decreases |more|
  {
    hide FirstMentions;
    if more == [] {
      assert ms + more == ms;
    } else {
      MentionOne(ms, once, more[0]);
      MentionAll(ms + [more[0]], if more[0] in once then once else once + [more[0]], more[1..]);
      assert ms + [more[0]] + more[1..] == ms + more;
    }
  }

  lemma {:induction false} ArtifactsListed(claims: seq<Claim>, taskId: string)
    ensures FirstMentions(Mentioned(claims, taskId), Artifacts(Live(claims), taskId))
  {
    if claims != [] {
      var init, c := claims[..|claims| - 1], claims[|claims| - 1];
      ArtifactsListed(init, taskId);
      assert claims == init + [c];
      LivePush(init, c);
      ArtifactsPush(Live(init), Bare(c), taskId);
      MentionedPush(init, c, taskId);
      hide FirstMentions, Live, Artifacts, Mentioned, AddNew;
      if c.status == Current && c.taskId == taskId {
        MentionAll(Mentioned(init, taskId), Artifacts(Live(init), taskId), c.artifactRefs);
      } else {
        assert Live(init) + [] == Live(init);
      }
    }
  }

  lemma MentionedPush(claims: seq<Claim>, c: Claim, taskId: string)
    ensures Mentioned(claims + [c], taskId)
         == if c.status == Current && c.taskId == taskId then Mentioned(claims, taskId) + c.artifactRefs else Mentioned(claims, taskId)
  {
    assert (claims + [c])[..|claims|] == claims;
  }

  lemma ArtifactsPush(live: seq<Claim>, c: Claim, taskId: string)
    ensures Artifacts(live + [c], taskId)
         == if c.taskId == taskId then AddNew(Artifacts(live, taskId), c.artifactRefs) else Artifacts(live, taskId)
  {
    assert (live + [c])[..|live|] == live;
  }

  // ---------- one task ----------

  /** The firmest claim of a kind, if the task has one. */
  ghost predicate ShowsFirst(view: View, taskId: string, kind: Kind, line: Option<Rendered>) {
    exists lines :: ListsKind(view, taskId, kind, lines) && line == if lines == [] then None else Some(lines[0])
  }

  ghost predicate ShowsTask(view: View, taskId: string, v: TaskView) {
    && v.id == taskId && ShowsFirst(view, taskId, Intent, v.intent) && ShowsFirst(view, taskId, NextAction, v.nextAction)
    && ListsKind(view, taskId, Reality, v.reality) && ListsKind(view, taskId, Decision, v.decisions)
    && ListsKind(view, taskId, RuledOut, v.ruledOut) && ListsKind(view, taskId, Unknown, v.unknowns)
    && FirstMentions(Mentioned(view.claims, taskId), v.artifacts)
  }

  lemma TaskShown(view: View, task: Task)
    ensures ShowsTask(view, task.id, FocalView(WorkOf(view), task))
  {
    hide ListsKind, Pick, FirstMentions;
    PicksListed(view, task.id, Intent);
    PicksListed(view, task.id, NextAction);
    PicksListed(view, task.id, Reality);
    PicksListed(view, task.id, Decision);
    PicksListed(view, task.id, RuledOut);
    PicksListed(view, task.id, Unknown);
    ArtifactsListed(view.claims, task.id);
  }

  // ---------- the other open tasks ----------

  /** Somebody has said something about the task that goes beyond what its commands did. */
  predicate GoesOn(view: View, taskId: string) {
    exists c :: c in view.claims && c.status == Current && c.taskId == taskId
      && (c.kind == Decision || c.kind == RuledOut || c.kind == Unknown || c.kind == Intent
          || ((c.kind == NextAction || c.kind == Reality) && c.origin != Projector))
  }

  /** All active tasks that go on, the one in focus aside, in the order they were opened. */
  ghost predicate ListsOpenWork(view: View, focal: Option<string>, work: seq<TaskView>) {
    exists order: seq<Task> ::
      && |order| == |work| && (forall i | 0 <= i < |work| :: ShowsTask(view, order[i].id, work[i]))
      && (forall t ::
            multiset(order)[t] == if t.status == Active && Some(t.id) != focal && GoesOn(view, t.id) then multiset(view.tasks)[t] else 0)
      && forall i, j | 0 <= i < j < |order| :: !OpenedBefore(order[j], order[i])
  }

  lemma GoesOnInWork(view: View, taskId: string)
    ensures HasContinuation(WorkOf(view).claims, taskId) <==> GoesOn(view, taskId)
  {
    if b :| b in Live(view.claims) && b.taskId == taskId && Continues(b) {
      LiveIs(view.claims, b);
    }
    if c :| c in view.claims && c.status == Current && c.taskId == taskId && Continues(c) {
      LiveIs(view.claims, Bare(c));
      assert Continues(Bare(c));
    }
  }

  lemma TasksSelected(key: Task -> Key, keep: Task -> bool, tasks: seq<Task>) returns (order: seq<Task>)
    ensures order == SortBy(key, Filter(keep, Filter(IsActive, tasks))) && Sorted(key, order)
    ensures forall t :: multiset(order)[t] == if t.status == Active && keep(t) then multiset(tasks)[t] else 0
  {
    var some := Filter(keep, Filter(IsActive, tasks));
    order := SortBy(key, some);
    SortPermutes(key, some);
    SortSorts(key, some);
    forall t: Task
      ensures multiset(order)[t] == if t.status == Active && keep(t) then multiset(tasks)[t] else 0
    {
      FilterCounts(keep, Filter(IsActive, tasks), t);
      FilterCounts(IsActive, tasks, t);
    }
  }

  lemma OpenOrder(view: View, focal: Option<string>) returns (order: seq<Task>)
    ensures order == OpenTasks(WorkOf(view), focal)
    ensures forall t ::
      multiset(order)[t] == if t.status == Active && Some(t.id) != focal && GoesOn(view, t.id) then multiset(view.tasks)[t] else 0
    ensures forall i, j | 0 <= i < j < |order| :: !OpenedBefore(order[j], order[i])
  {
    hide SortBy, Filter, GoesOn, HasContinuation;
    var w := WorkOf(view);
    order := TasksSelected(TaskKey, (t: Task) => focal != Some(t.id) && HasContinuation(w.claims, t.id), view.tasks);
    forall t: Task
      ensures HasContinuation(w.claims, t.id) == GoesOn(view, t.id)
    {
      GoesOnInWork(view, t.id);
    }
    forall i, j | 0 <= i < j < |order|
      ensures !OpenedBefore(order[j], order[i])
    {
      assert !KeyLess(TaskKey(order[j]), TaskKey(order[i]));
      ByTimeThenId(0, order[j].createdAt, order[j].id, order[i].createdAt, order[i].id);
    }
  }

  lemma OpenWorkListed(view: View, focal: Option<string>)
    ensures ListsOpenWork(view, focal, OpenWork(WorkOf(view), focal))
  {
    hide ShowsTask, FocalView, GoesOn, OpenTasks, WorkOf;
    var w := WorkOf(view);
    var order := OpenOrder(view, focal);
    MapIs((t: Task) => FocalView(w, t), order);
    forall t: Task
      ensures ShowsTask(view, t.id, FocalView(w, t))
    {
      TaskShown(view, t);
    }
  }

  // ---------- the other failing tasks ----------

  predicate Intends(c: Claim, taskId: string) {
    c.status == Current && c.taskId == taskId && c.kind == Intent && c.subject == "objective"
  }

  predicate Broken(c: Claim, taskId: string) {
    c.status == Current && c.taskId == taskId && c.kind == Reality && c.outcome.Some? && c.outcome.value != 0
  }

  /** The text of the first stored claim that `of` says. */
  predicate FirstSays(cs: seq<Claim>, of: Claim -> bool, text: string) {
    exists i | 0 <= i < |cs| :: of(cs[i]) && cs[i].text == text && forall j | 0 <= j < i :: !of(cs[j])
  }

  /** A failing task goes by its intent, or else by what failed. */
  predicate SaysFor(view: View, taskId: string, text: string) {
    if exists c :: c in view.claims && Intends(c, taskId) then FirstSays(view.claims, (c: Claim) => Intends(c, taskId), text)
    else FirstSays(view.claims, (c: Claim) => Broken(c, taskId), text)
  }

  ghost predicate ListsOthers(view: View, focal: string, lines: seq<TaskLine>) {
    exists order: seq<Task> ::
      && |order| == |lines|
      && (forall i | 0 <= i < |lines| :: lines[i].id == order[i].id && SaysFor(view, order[i].id, lines[i].summary))
      && (forall t ::
            multiset(order)[t] == if t.status == Active && t.id != focal && FailsNow(view, t.id) then multiset(view.tasks)[t] else 0)
      && forall i, j | 0 <= i < j < |order| :: !Less(order[j].id, order[i].id)
  }

  lemma {:induction false} FirstInLive(keep: Claim -> bool, cs: seq<Claim>)
    requires forall c :: keep(Bare(c)) == keep(c) && (keep(c) ==> c.status == Current)
    ensures var first := First(keep, Live(cs));
      if first.None? then forall c | c in cs :: !keep(c) else FirstSays(cs, keep, first.value.text)
  {
    if cs != [] {
      var init, c := cs[..|cs| - 1], cs[|cs| - 1];
      FirstInLive(keep, init);
      FirstPush(keep, Live(init), Bare(c));
      assert cs == init + [c];
      assert Live(init) + [] == Live(init);
      var first := First(keep, Live(init));
      if first.Some? {
        var i :| 0 <= i < |init| && keep(init[i]) && init[i].text == first.value.text && forall j | 0 <= j < i :: !keep(init[j]);
        assert cs[i] == init[i] && forall j | 0 <= j < i :: cs[j] == init[j];
      } else if keep(c) {
        assert forall j | 0 <= j < |init| :: cs[j] == init[j] && init[j] in init;
        assert cs[|init|] == c;
      }
    }
  }

  lemma {:induction false} FirstPush<T>(keep: T -> bool, xs: seq<T>, x: T)
    ensures First(keep, xs + [x]) == if First(keep, xs).Some? then First(keep, xs) else if keep(x) then Some(x) else None
  {
    if xs == [] {
      assert xs + [x] == [x];
    } else {
      assert (xs + [x])[1..] == xs[1..] + [x];
      FirstPush(keep, xs[1..], x);
    }
  }

  lemma SummarySays(view: View, t: Task)
    requires FailsNow(view, t.id)
    ensures SaysFor(view, t.id, Summary(WorkOf(view), t))
  {
    var intends, broken := (c: Claim) => Intends(c, t.id), (c: Claim) => Broken(c, t.id);
    FirstInLive(intends, view.claims);
    FirstInLive(broken, view.claims);
    SameFirst((c: Claim) => Occupies(c, t.id, Intent, INTENT_SUBJECT), intends, Live(view.claims));
    SameFirst((c: Claim) => Fails(c, t.id), broken, Live(view.claims));
  }

  lemma {:induction false} SameFirst(k: Claim -> bool, l: Claim -> bool, cs: seq<Claim>)
    requires forall c :: k(c) == l(c)
    ensures First(k, cs) == First(l, cs)
  {
    if cs != [] {
      SameFirst(k, l, cs[1..]);
    }
  }

  lemma OtherOrder(view: View, focal: string) returns (order: seq<Task>)
    ensures OtherTasks(WorkOf(view), focal) == Map((t: Task) => TaskLine(t.id, Summary(WorkOf(view), t)), order)
    ensures forall t ::
      multiset(order)[t] == if t.status == Active && t.id != focal && FailsNow(view, t.id) then multiset(view.tasks)[t] else 0
    ensures forall i, j | 0 <= i < j < |order| :: !Less(order[j].id, order[i].id)
  {
    hide SortBy, Filter, Map, Summary, HasFailingReality, FailsNow;
    var w := WorkOf(view);
    var keep := (t: Task) => t.id != focal && HasFailingReality(w.claims, t.id);
    var own := (t: Task) => Key(0, 0, t.id, "");
    order := TasksSelected(own, keep, view.tasks);
    SortMap(LineKey, (t: Task) => TaskLine(t.id, Summary(w, t)), own, Filter(keep, w.tasks));
    forall t: Task
      ensures HasFailingReality(w.claims, t.id) == FailsNow(view, t.id)
    {
      FailsInWork(view, t.id);
    }
    forall i, j | 0 <= i < j < |order|
      ensures !Less(order[j].id, order[i].id)
    {
      assert !KeyLess(own(order[j]), own(order[i]));
      ByTimeThenId(0, 0, order[j].id, 0, order[i].id);
    }
  }

  lemma OthersListed(view: View, focal: string)
    ensures ListsOthers(view, focal, OtherTasks(WorkOf(view), focal))
  {
    hide Summary, SaysFor, FailsNow, WorkOf, OtherTasks;
    var w := WorkOf(view);
    var order := OtherOrder(view, focal);
    MapIs((t: Task) => TaskLine(t.id, Summary(w, t)), order);
    forall i | 0 <= i < |order|
      ensures SaysFor(view, order[i].id, Summary(w, order[i]))
    {
      assert multiset(order)[order[i]] > 0;
      SummarySays(view, order[i]);
    }
  }

  // ---------- the checks that pass now ----------

  /** The claim says that a command of an active task passed that is known to have failed. */
  predicate NowPasses(view: View, c: Claim) {
    && c.status == Current && c.kind == Reality && c.outcome == Some(0)
    && (exists t :: t in view.tasks && t.status == Active && t.id == c.taskId)
    && exists d :: d in view.claims && d.status == Superseded && d.id != c.id && d.taskId == c.taskId && d.kind == Reality
         && d.subject == c.subject && d.outcome.Some? && d.outcome.value != 0
  }

  /** What is said of it: `p exited 0` becomes `p now passes`. */
  ghost predicate SaysPasses(text: string, said: string) {
    if exists p :: text == p + " exited 0" then exists p :: text == p + " exited 0" && said == p + " now passes"
    else said == text + " now passes"
  }

  ghost predicate ListsChecks(view: View, checks: seq<PassedCheck>) {
    exists order: seq<Claim> ::
      && |order| == |checks|
      && (forall i | 0 <= i < |checks| ::
            checks[i].taskId == order[i].taskId && checks[i].evidenceIds == order[i].evidenceIds
            && SaysPasses(order[i].text, checks[i].text))
      && (forall c :: multiset(order)[c] == if NowPasses(view, c) then multiset(view.claims)[c] else 0)
      && forall i, j | 0 <= i < j < |checks| ::
           !Less(checks[j].taskId, checks[i].taskId)
           && (checks[i].taskId == checks[j].taskId ==> !Less(checks[j].text, checks[i].text))
  }

  lemma PassTextSays(text: string)
    ensures SaysPasses(text, PassText(text))
  {
    var mark := " exited 0";
    if p :| text == p + mark {
      assert text[|text| - |mark|..] == mark && text[..|text| - |mark|] == p;
    } else if |mark| <= |text| && text[|text| - |mark|..] == mark {
      assert text == text[..|text| - |mark|] + mark;
    }
  }

  lemma PassesIs(view: View, c: Claim)
    requires c.status == Current
    ensures Passes(view, c) <==> NowPasses(view, c)
    ensures Passes(view, Bare(c)) == Passes(view, c)
  {
    ActiveTaskFound(view, c.taskId);
  }

  lemma CheckKeyIs(p: PassedCheck, q: PassedCheck)
    requires !KeyLess(CheckKey(q), CheckKey(p))
    ensures !Less(q.taskId, p.taskId) && (p.taskId == q.taskId ==> !Less(q.text, p.text))
  {
    LessTotal(p.taskId, q.taskId);
  }

  /** The order of the checks, as claims. */
  lemma CheckOrder(view: View) returns (order: seq<Claim>)
    ensures PassedChecks(view) == Map(CheckOf, Map(Bare, order))
    ensures forall c :: multiset(order)[c] == if NowPasses(view, c) then multiset(view.claims)[c] else 0
    ensures Sorted((c: Claim) => CheckKey(CheckOf(c)), order)
  {
    hide SortBy, Filter, Map, Live, Passes, NowPasses, Sorted;
    var own, keep := (c: Claim) => CheckKey(CheckOf(c)), (c: Claim) => c.status == Current && Passes(view, c);
    var raw := (c: Claim) => Passes(view, c);
    FilterAgrees(raw, keep, Live(view.claims)) by {
      LiveAreCurrent(view.claims);
    }
    SortMap(CheckKey, CheckOf, own, Filter(raw, Live(view.claims)));
    forall c: Claim
      ensures keep(Bare(c)) == keep(c) && (keep(c) <==> c.status == Current && NowPasses(view, c))
    {
      if c.status == Current {
        PassesIs(view, c);
      }
    }
    order := LiveSelection(own, keep, view.claims);
    forall c: Claim
      ensures c.status == Current && keep(c) <==> NowPasses(view, c)
    {
      NowIsCurrent(view, c);
    }
  }

  lemma NowIsCurrent(view: View, c: Claim)
    ensures NowPasses(view, c) ==> c.status == Current
  {
  }

  lemma LiveAreCurrent(cs: seq<Claim>)
    ensures forall b | b in Live(cs) :: b.status == Current
  {
    forall b | b in Live(cs)
      ensures b.status == Current
    {
      LiveIs(cs, b);
    }
  }

  lemma ChecksListed(view: View)
    ensures ListsChecks(view, PassedChecks(view))
  {
    hide NowPasses, SaysPasses, PassedChecks, PassText, CheckKey, Map, Sorted, Less, KeyLess;
    var order := CheckOrder(view);
    MapMap(Bare, CheckOf, CheckOf, order);
    MapIs(CheckOf, order);
    CheckFields(order, PassedChecks(view));
    assert ListsChecks(view, PassedChecks(view));
  }

  lemma CheckFields(order: seq<Claim>, checks: seq<PassedCheck>)
    requires |order| == |checks| && forall i | 0 <= i < |checks| :: checks[i] == CheckOf(order[i])
    requires Sorted((c: Claim) => CheckKey(CheckOf(c)), order)
    ensures forall i | 0 <= i < |checks| ::
      checks[i].taskId == order[i].taskId && checks[i].evidenceIds == order[i].evidenceIds
      && SaysPasses(order[i].text, checks[i].text)
    ensures forall i, j | 0 <= i < j < |checks| ::
      !Less(checks[j].taskId, checks[i].taskId)
      && (checks[i].taskId == checks[j].taskId ==> !Less(checks[j].text, checks[i].text))
  {
    hide SaysPasses, PassText, CheckKey;
    forall i | 0 <= i < |checks|
      ensures SaysPasses(order[i].text, checks[i].text)
    {
      PassTextSays(order[i].text);
    }
    forall i, j | 0 <= i < j < |checks|
      ensures !KeyLess(CheckKey(checks[j]), CheckKey(checks[i]))
      ensures !Less(checks[j].taskId, checks[i].taskId)
        && (checks[i].taskId == checks[j].taskId ==> !Less(checks[j].text, checks[i].text))
    {
      var own := (c: Claim) => CheckKey(CheckOf(c));
      assert !KeyLess(own(order[j]), own(order[i]));
      CheckKeyIs(checks[i], checks[j]);
    }
  }

  // ---------- the packet ----------

  /** A briefing shows the standing constraints, the checks that pass now, the task in focus,
      every other active task somebody has spoken about, and what else fails. */
  lemma PacketShows(view: View, sessionId: Option<string>)
    ensures var p, focal := Rendering.Assemble(view, sessionId), FocalTask(WorkOf(view));
      var focalId := if focal.Some? then Some(focal.value.id) else None;
      && p.sessionId == sessionId && !p.truncated
      && Lists(view.claims, (c: Claim) => c.kind == Constraint, OlderThan, p.constraints)
      && ListsChecks(view, p.passedChecks) && ListsOpenWork(view, focalId, p.openWork)
      && (if focal.None? then p.focal.None? && p.others == []
          else p.focal.Some? && ShowsTask(view, focal.value.id, p.focal.value) && ListsOthers(view, focal.value.id, p.others))
  {
    hide Lists, ListsChecks, ListsOpenWork, ShowsTask, ListsOthers, FocalTask, WorkOf, StandingConstraints, PassedChecks,
         OpenWork, FocalView, OtherTasks;
    ConstraintsListed(view);
    ChecksListed(view);
    var focal := FocalTask(WorkOf(view));
    OpenWorkListed(view, if focal.Some? then Some(focal.value.id) else None);
    if focal.Some? {
      TaskShown(view, focal.value);
      OthersListed(view, focal.value.id);
    }
  }

  /** A briefing is empty exactly if no constraint stands, nothing is in focus, no failed check
      passes now, and nobody has said anything about an active task. */
  lemma EmptyIff(view: View, sessionId: Option<string>)
    ensures var p := Rendering.Assemble(view, sessionId);
      p.constraints == [] && p.focal.None? && p.passedChecks == [] && p.openWork == []
      <==> && (forall c | c in view.claims && c.status == Current :: c.kind != Constraint)
           && FocalTask(WorkOf(view)).None? && (forall c | c in view.claims :: !NowPasses(view, c))
           && (forall t | t in view.tasks && t.status == Active :: !GoesOn(view, t.id))
  {
    hide Lists, ListsChecks, ListsOpenWork, ShowsTask, ListsOthers, FocalTask, WorkOf, NowPasses, GoesOn;
    PacketShows(view, sessionId);
    var p, focal := Rendering.Assemble(view, sessionId), FocalTask(WorkOf(view));
    NoLines(view.claims, (c: Claim) => c.kind == Constraint, OlderThan, p.constraints);
    NoChecks(view, p.passedChecks);
    if focal.None? {
      NoWork(view, p.openWork);
    }
  }

  lemma NoLines(cs: seq<Claim>, of: Claim -> bool, precedes: (Claim, Claim) -> bool, lines: seq<Rendered>)
    requires Lists(cs, of, precedes, lines)
    ensures lines == [] <==> forall c | c in cs && c.status == Current :: !of(c)
  {
    var order: seq<Claim> :| |order| == |lines|
      && (forall c :: multiset(order)[c] == if c.status == Current && of(c) then multiset(cs)[c] else 0);
    NoneCounted(order, (c: Claim) => c.status == Current && of(c), cs);
  }

  lemma NoChecks(view: View, checks: seq<PassedCheck>)
    requires ListsChecks(view, checks)
    ensures checks == [] <==> forall c | c in view.claims :: !NowPasses(view, c)
  {
    hide NowPasses;
    var order: seq<Claim> :| |order| == |checks|
      && (forall c :: multiset(order)[c] == if NowPasses(view, c) then multiset(view.claims)[c] else 0);
    NoneCounted(order, (c: Claim) => NowPasses(view, c), view.claims);
  }

  lemma NoWork(view: View, work: seq<TaskView>)
    requires ListsOpenWork(view, None, work)
    ensures work == [] <==> forall t | t in view.tasks && t.status == Active :: !GoesOn(view, t.id)
  {
    hide GoesOn;
    var order: seq<Task> :| |order| == |work|
      && (forall t ::
            multiset(order)[t] == if t.status == Active && Some(t.id) != None && GoesOn(view, t.id) then multiset(view.tasks)[t] else 0);
    NoneCounted(order, (t: Task) => t.status == Active && GoesOn(view, t.id), view.tasks);
  }

  lemma NoneCounted<T>(order: seq<T>, keep: T -> bool, xs: seq<T>)
    requires forall x :: multiset(order)[x] == if keep(x) then multiset(xs)[x] else 0
    ensures order == [] <==> forall x | x in xs :: !keep(x)
  {
    if order != [] {
      assert multiset(order)[order[0]] > 0;
      assert order[0] in multiset(xs);
    } else {
      forall x | x in xs
        ensures !keep(x)
      {
        assert multiset(xs)[x] > 0;
      }
    }
  }
}
