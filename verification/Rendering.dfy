/** The briefing as a whole: what is assembled from a stored view before it is cut to size. */
module Rendering {
  import opened Claims
  import opened Projector
  import opened GatedLog
  import opened Ordering
  import opened Briefing
  import opened Persistence
  import opened Trimming

  /** The packet of a view, before trimming. */
  function Assemble(view: View, sessionId: Option<string>): Packet {
    var w := WorkOf(view);
    var focal := FocalTask(w);
    var focalId := if focal.Some? then Some(focal.value.id) else None;
    Packet(sessionId, StandingConstraints(w), PassedChecks(view), OpenWork(w, focalId),
           if focal.Some? then Some(FocalView(w, focal.value)) else None,
           if focal.Some? then OtherTasks(w, focal.value.id) else [], false, 0)
  }

  /** An empty briefing costs its notice; every other one is trimmed. */
  method Render(view: View, sessionId: Option<string>, budget: nat, cost: Packet -> nat, noticeCost: nat)
    returns (s: Snapshot)
    ensures var p := Assemble(view, sessionId);
      if p.constraints == [] && p.focal.None? && p.passedChecks == [] && p.openWork == []
      then s.Value() == p.(estimated := noticeCost)
      else exists cuts: nat :: TrimmedAt(p, s.Value(), cost, budget, cuts)
  {
    s := new Snapshot(Assemble(view, sessionId));
    if s.constraints == [] && s.focal.None? && s.passedChecks == [] && s.openWork == [] {
      s.others := [];
      s.estimated := noticeCost;
      return;
    }
    ghost var cuts := s.TrimToBudget(cost, budget);
  }

  /** Two lists of task views that differ at most in the order of artifacts. */
  ghost predicate AlikeViews(vs: seq<TaskView>, ws: seq<TaskView>) {
    |vs| == |ws| && forall i | 0 <= i < |vs| :: Alike(vs[i], ws[i])
  }

  ghost predicate AlikePackets(p: Packet, q: Packet) {
    && q == p.(openWork := q.openWork, focal := q.focal) && AlikeViews(p.openWork, q.openWork)
    && (p.focal.None? <==> q.focal.None?) && (p.focal.Some? ==> Alike(p.focal.value, q.focal.value))
  }

  lemma {:induction false} MapAt<S, T>(f: S -> T, xs: seq<S>)
    ensures |Map(f, xs)| == |xs| && forall i | 0 <= i < |xs| :: Map(f, xs)[i] == f(xs[i])
  {
    if xs != [] {
      MapAt(f, xs[1..]);
    }
  }

  lemma OpenWorkAlike(v: Work, w: Work, focal: Option<string>)
    requires OpenTasks(v, focal) == OpenTasks(w, focal)
    requires forall t | t in OpenTasks(v, focal) :: Alike(FocalView(v, t), FocalView(w, t))
    ensures AlikeViews(OpenWork(v, focal), OpenWork(w, focal))
  {
    var ts := OpenTasks(v, focal);
    MapAt((t: Task) => FocalView(v, t), ts);
    MapAt((t: Task) => FocalView(w, t), ts);
    forall i | 0 <= i < |ts|
      ensures Alike(OpenWork(v, focal)[i], OpenWork(w, focal)[i])
    {
      assert ts[i] in ts;
    }
  }

  /** The briefing of a folded log does not depend on the order its rows come back in, except
      for the order in which a task's artifacts are listed. */
  lemma RenderingIsOrderFree(log: seq<Event>, view: View, sessionId: Option<string>)
    requires Gated(log) && Reordered(Fold(log), view)
    ensures AlikePackets(Assemble(Fold(log), sessionId), Assemble(view, sessionId))
  {
    var w, v := WorkOf(Fold(log)), WorkOf(view);
    var focal := FocalTask(w);
    var focalId := if focal.Some? then Some(focal.value.id) else None;
    ViewSurvivesDatabase(log, view, if focal.Some? then focal.value.id else "");
    OpenWorkAlike(w, v, focalId);
    if focal.Some? {
      FoldIsDefinite(log);
      ReorderedSameWork(Fold(log), view);
      ViewsAreOrderFree(w, v, focal.value);
    }
  }
}
