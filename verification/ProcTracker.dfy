/** The process tracker: a short-lived process is never mentioned, a lasting one is announced
    once and reported finished once. */
module ProcTracker {
  import opened Claims

  const MIN_LIFETIME_MS: nat := 2000

  datatype Seen = Seen(pid: nat, name: string, command: string)

  datatype Tracked = Tracked(name: string, command: string, firstSeen: nat, announced: bool)

  datatype ProcEvent =
    | Started(name: string, command: string)
    | Finished(name: string, command: string, ranFor: nat)

  /** An event with the pid it is about, which the event itself does not carry. */
  datatype Tagged = Tagged(pid: nat, event: ProcEvent)

  /** `saturating_sub`. */
  function Elapsed(now: nat, since: nat): nat {
    if now >= since then now - since else 0
  }

  function Untag(ts: seq<Tagged>): seq<ProcEvent> {
    if ts == [] then [] else Untag(ts[..|ts| - 1]) + [ts[|ts| - 1].event]
  }

  function EventsOf(ts: seq<Tagged>, p: nat): seq<ProcEvent> {
    if ts == [] then []
    else EventsOf(ts[..|ts| - 1], p) + if ts[|ts| - 1].pid == p then [ts[|ts| - 1].event] else []
  }

  lemma EventsPush(ts: seq<Tagged>, t: Tagged, p: nat)
    ensures EventsOf(ts + [t], p) == EventsOf(ts, p) + if t.pid == p then [t.event] else []
  {
    assert (ts + [t])[..|ts|] == ts;
  }

  function EntryOf(tracked: map<nat, Tracked>, p: nat): Option<Tracked> {
    if p in tracked then Some(tracked[p]) else None
  }

  function Pids(seen: seq<Seen>): set<nat> {
    set s | s in seen :: s.pid
  }

  /** The process is remembered, and announced once it has lasted. */
  function Enter(entry: Option<Tracked>, s: Seen, seeding: bool, now: nat): Tracked {
    if entry.Some? then entry.value else Tracked(s.name, s.command, now, seeding)
  }

  predicate Due(t: Tracked, now: nat) {
    !t.announced && Elapsed(now, t.firstSeen) >= MIN_LIFETIME_MS
  }

  function Visit(entry: Option<Tracked>, s: Seen, seeding: bool, now: nat): Tracked {
    var t := Enter(entry, s, seeding, now);
    if Due(t, now) then t.(announced := true) else t
  }

  function VisitEvents(entry: Option<Tracked>, s: Seen, seeding: bool, now: nat): seq<ProcEvent> {
    var t := Enter(entry, s, seeding, now);
    if Due(t, now) then [Started(t.name, t.command)] else []
  }

  /** What one poll does to one pid: the entry after the rows `seen`. */
  function AfterSeen(entry: Option<Tracked>, seen: seq<Seen>, p: nat, seeding: bool, now: nat): Option<Tracked> {
    if seen == [] then entry
    else
      var before, s := AfterSeen(entry, seen[..|seen| - 1], p, seeding, now), seen[|seen| - 1];
      if s.pid == p then Some(Visit(before, s, seeding, now)) else before
  }

  function SeenEvents(entry: Option<Tracked>, seen: seq<Seen>, p: nat, seeding: bool, now: nat): seq<ProcEvent> {
    if seen == [] then []
    else
      var before, s := AfterSeen(entry, seen[..|seen| - 1], p, seeding, now), seen[|seen| - 1];
      SeenEvents(entry, seen[..|seen| - 1], p, seeding, now)
      + if s.pid == p then VisitEvents(before, s, seeding, now) else []
  }

  function NextEntry(entry: Option<Tracked>, seen: seq<Seen>, p: nat, seeding: bool, now: nat): Option<Tracked> {
    if p in Pids(seen) then AfterSeen(entry, seen, p, seeding, now) else None
  }

  function GoneEvents(entry: Option<Tracked>, now: nat): seq<ProcEvent> {
    if entry.Some? && entry.value.announced
    then [Finished(entry.value.name, entry.value.command, Elapsed(now, entry.value.firstSeen))] else []
  }

  function TickEvents(entry: Option<Tracked>, seen: seq<Seen>, p: nat, seeding: bool, now: nat): seq<ProcEvent> {
    if p in Pids(seen) then SeenEvents(entry, seen, p, seeding, now) else GoneEvents(entry, now)
  }

  /** What dropping every pid outside `kept` reports about one pid. */
  function Dropped(tracked: map<nat, Tracked>, kept: set<nat>, p: nat, now: nat): seq<ProcEvent> {
    if p in kept then [] else GoneEvents(EntryOf(tracked, p), now)
  }

  /** After the rows `seen`, each pid has the entry and the reports its own rows give it. */
  ghost predicate Visited(before: map<nat, Tracked>, after: map<nat, Tracked>, tags: seq<Tagged>, seen: seq<Seen>,
                          seeding: bool, now: nat)
  {
    && after.Keys == before.Keys + Pids(seen)
    && (forall p :: EntryOf(after, p) == AfterSeen(EntryOf(before, p), seen, p, seeding, now))
    && forall p :: EventsOf(tags, p) == SeenEvents(EntryOf(before, p), seen, p, seeding, now)
  }

  function VisitTags(entry: Option<Tracked>, s: Seen, seeding: bool, now: nat): seq<Tagged> {
    var t := Enter(entry, s, seeding, now);
    if Due(t, now) then [Tagged(s.pid, Started(t.name, t.command))] else []
  }

  lemma SeenPush(entry: Option<Tracked>, seen: seq<Seen>, s: Seen, p: nat, seeding: bool, now: nat)
    ensures var before := AfterSeen(entry, seen, p, seeding, now);
      && AfterSeen(entry, seen + [s], p, seeding, now)
         == (if s.pid == p then Some(Visit(before, s, seeding, now)) else before)
      && SeenEvents(entry, seen + [s], p, seeding, now)
         == SeenEvents(entry, seen, p, seeding, now) + if s.pid == p then VisitEvents(before, s, seeding, now) else []
  {
    assert (seen + [s])[..|seen|] == seen;
  }

  lemma VisitTagEvents(tags: seq<Tagged>, entry: Option<Tracked>, s: Seen, seeding: bool, now: nat, p: nat)
    ensures EventsOf(tags + VisitTags(entry, s, seeding, now), p)
         == EventsOf(tags, p) + if s.pid == p then VisitEvents(entry, s, seeding, now) else []
  {
    var more := VisitTags(entry, s, seeding, now);
    if more == [] {
      assert tags + more == tags;
      assert EventsOf(tags, p) + [] == EventsOf(tags, p);
    } else {
      EventsPush(tags, more[0], p);
    }
  }

  lemma VisitOneAt(before: map<nat, Tracked>, after: map<nat, Tracked>, tags: seq<Tagged>, seen: seq<Seen>, s: Seen,
                   seeding: bool, now: nat, p: nat)
    requires EntryOf(after, p) == AfterSeen(EntryOf(before, p), seen, p, seeding, now)
    requires EventsOf(tags, p) == SeenEvents(EntryOf(before, p), seen, p, seeding, now)
    ensures var entry := EntryOf(after, s.pid);
      && EntryOf(after[s.pid := Visit(entry, s, seeding, now)], p)
         == AfterSeen(EntryOf(before, p), seen + [s], p, seeding, now)
      && EventsOf(tags + VisitTags(entry, s, seeding, now), p)
         == SeenEvents(EntryOf(before, p), seen + [s], p, seeding, now)
  {
    SeenPush(EntryOf(before, p), seen, s, p, seeding, now);
    VisitTagEvents(tags, EntryOf(after, s.pid), s, seeding, now, p);
  }

  lemma VisitOne(before: map<nat, Tracked>, after: map<nat, Tracked>, tags: seq<Tagged>, seen: seq<Seen>, s: Seen,
                 seeding: bool, now: nat)
    requires Visited(before, after, tags, seen, seeding, now)
    ensures var entry := EntryOf(after, s.pid);
      Visited(before, after[s.pid := Visit(entry, s, seeding, now)], tags + VisitTags(entry, s, seeding, now),
              seen + [s], seeding, now)
  {
    PidsPush(seen, s);
    forall p {
      VisitOneAt(before, after, tags, seen, s, seeding, now, p);
    }
  }

  /** The pids outside `kept` are gone and their reports are added. */
  ghost predicate Swept(before: map<nat, Tracked>, after: map<nat, Tracked>, kept: set<nat>, reported: seq<Tagged>,
                        tags: seq<Tagged>, now: nat)
  {
    && (forall p :: EntryOf(after, p) == if p in kept then EntryOf(before, p) else None)
    && forall p :: EventsOf(tags, p) == EventsOf(reported, p) + Dropped(before, kept, p, now)
  }

  function GoneTags(entry: Tracked, pid: nat, now: nat): seq<Tagged> {
    if entry.announced then [Tagged(pid, Finished(entry.name, entry.command, Elapsed(now, entry.firstSeen)))] else []
  }

  lemma SweepOne(before: map<nat, Tracked>, after: map<nat, Tracked>, kept: set<nat>, reported: seq<Tagged>,
                 tags: seq<Tagged>, now: nat, pid: nat)
    requires Swept(before, after, kept, reported, tags, now) && pid in kept && pid in after
    ensures Swept(before, after - {pid}, kept - {pid}, reported, tags + GoneTags(after[pid], pid, now), now)
  {
    var more := GoneTags(after[pid], pid, now);
    assert EntryOf(after, pid) == EntryOf(before, pid);
    forall p
      ensures EventsOf(tags + more, p) == EventsOf(reported, p) + Dropped(before, kept - {pid}, p, now)
    {
      if more != [] {
        EventsPush(tags, more[0], p);
      } else {
        assert tags + more == tags;
      }
      if p == pid {
        assert EventsOf(reported, p) + [] == EventsOf(reported, p);
      }
    }
  }

  lemma StillThere(before: map<nat, Tracked>, after: map<nat, Tracked>, kept: set<nat>, reported: seq<Tagged>,
                   tags: seq<Tagged>, now: nat, pid: nat)
    requires Swept(before, after, kept, reported, tags, now)
    ensures pid in after <==> pid in before && pid in kept
  {
    assert EntryOf(after, pid) == if pid in kept then EntryOf(before, pid) else None;
  }

  lemma SweptKeys(before: map<nat, Tracked>, after: map<nat, Tracked>, kept: set<nat>, reported: seq<Tagged>,
                  tags: seq<Tagged>, now: nat)
    requires Swept(before, after, kept, reported, tags, now)
    ensures after.Keys == before.Keys * kept
  {
    forall p
      ensures p in after <==> p in before && p in kept
    {
      StillThere(before, after, kept, reported, tags, now, p);
    }
  }

  lemma UntagPush(ts: seq<Tagged>, t: Tagged)
    ensures Untag(ts + [t]) == Untag(ts) + [t.event]
  {
    assert (ts + [t])[..|ts|] == ts;
  }

  class ProcessTracker {
    var tracked: map<nat, Tracked>
    var seeded: bool

    constructor ()
      ensures tracked == map[] && !seeded
    {
      tracked, seeded := map[], false;
    }

    /** Fold one poll into the tracker and report what changed. */
    method Tick(seen: seq<Seen>, now: nat) returns (events: seq<ProcEvent>, ghost tags: seq<Tagged>)
      modifies this
      ensures seeded && tracked.Keys == Pids(seen) && events == Untag(tags)
      ensures forall p :: EntryOf(tracked, p) == NextEntry(EntryOf(old(tracked), p), seen, p, !old(seeded), now)
      ensures forall p :: EventsOf(tags, p) == TickEvents(EntryOf(old(tracked), p), seen, p, !old(seeded), now)
    {
      events, tags := [], [];
      var live: set<nat> := {};
      var seeding := !seeded;
      seeded := true;
      for i := 0 to |seen|
        invariant seeded && live == Pids(seen[..i]) && events == Untag(tags)
        invariant Visited(old(tracked), tracked, tags, seen[..i], seeding, now)
      {
        var process := seen[i];
        PidsPush(seen[..i], process);
        VisitOne(old(tracked), tracked, tags, seen[..i], process, seeding, now);
        assert seen[..i + 1] == seen[..i] + [process];
        live := live + {process.pid};
        ghost var more := VisitTags(EntryOf(tracked, process.pid), process, seeding, now);
        var entry := Enter(EntryOf(tracked, process.pid), process, seeding, now);
        if Due(entry, now) {
          UntagPush(tags, more[0]);
          events := events + [Started(entry.name, entry.command)];
          entry := entry.(announced := true);
        } else {
          assert tags + more == tags;
        }
        tracked, tags := tracked[process.pid := entry], tags + more;
      }
      assert seen[..|seen|] == seen;
      ghost var visited, visitTags := tracked, tags;
      events, tags := Retain(live, now, events, tags);
      Settled(old(tracked), visited, tracked, visitTags, tags, seen, seeding, now);
    }

    /** Drop one entry; a process that was never announced goes silently. */
    method Forget(pid: nat, now: nat, reported: seq<ProcEvent>, ghost reportedTags: seq<Tagged>)
      returns (events: seq<ProcEvent>, ghost tags: seq<Tagged>)
      requires pid in tracked && reported == Untag(reportedTags)
      modifies this`tracked
      ensures tracked == old(tracked) - {pid}
      ensures tags == reportedTags + GoneTags(old(tracked)[pid], pid, now) && events == Untag(tags)
    {
      var entry := tracked[pid];
      events := reported;
      if entry.announced {
        events := events + [Finished(entry.name, entry.command, Elapsed(now, entry.firstSeen))];
      }
      UntagGone(reportedTags, entry, pid, now);
      tracked, tags := tracked - {pid}, reportedTags + GoneTags(entry, pid, now);
    }

    /** Drop what is gone, in whatever order the map lists it; report what was announced. */
    method Retain(live: set<nat>, now: nat, reported: seq<ProcEvent>, ghost reportedTags: seq<Tagged>)
      returns (events: seq<ProcEvent>, ghost tags: seq<Tagged>)
      requires reported == Untag(reportedTags)
      modifies this`tracked
      ensures events == Untag(tags) && tracked.Keys == old(tracked).Keys * live
      ensures Swept(old(tracked), tracked, live, reportedTags, tags, now)
    {
      events, tags := reported, reportedTags;
      StartSweep(tracked, tags, now);
      while !(tracked.Keys <= live)
        invariant events == Untag(tags)
        invariant Swept(old(tracked), tracked, tracked.Keys, reportedTags, tags, now)
        invariant forall p | p in old(tracked) && p in live :: p in tracked
        decreases |tracked|
      {
        var pid :| pid in tracked && pid !in live;
        SweepOne(old(tracked), tracked, tracked.Keys, reportedTags, tags, now, pid);
        assert (tracked - {pid}).Keys == tracked.Keys - {pid};
        events, tags := Forget(pid, now, events, tags);
      }
      FinishSweep(old(tracked), tracked, live, reportedTags, tags, now);
    }
  }

  lemma UntagGone(tags: seq<Tagged>, entry: Tracked, pid: nat, now: nat)
    ensures Untag(tags + GoneTags(entry, pid, now)) == Untag(tags)
      + if entry.announced then [Finished(entry.name, entry.command, Elapsed(now, entry.firstSeen))] else []
  {
    var more := GoneTags(entry, pid, now);
    if more == [] {
      assert tags + more == tags && Untag(tags) + [] == Untag(tags);
    } else {
      UntagPush(tags, more[0]);
    }
  }

  lemma StartSweep(tracked: map<nat, Tracked>, tags: seq<Tagged>, now: nat)
    ensures Swept(tracked, tracked, tracked.Keys, tags, tags, now)
  {
    forall p
      ensures EventsOf(tags, p) == EventsOf(tags, p) + Dropped(tracked, tracked.Keys, p, now)
    {
      assert EventsOf(tags, p) + [] == EventsOf(tags, p);
    }
  }

  lemma FinishSweep(before: map<nat, Tracked>, after: map<nat, Tracked>, live: set<nat>, reported: seq<Tagged>,
                    tags: seq<Tagged>, now: nat)
    requires Swept(before, after, after.Keys, reported, tags, now) && after.Keys <= live
    requires forall p | p in before && p in live :: p in after
    ensures Swept(before, after, live, reported, tags, now) && after.Keys == before.Keys * live
  {
    forall p
      ensures EntryOf(after, p) == if p in live then EntryOf(before, p) else None
      ensures EventsOf(tags, p) == EventsOf(reported, p) + Dropped(before, live, p, now)
    {
      assert EntryOf(after, p) == if p in after.Keys then EntryOf(before, p) else None;
    }
    SweptKeys(before, after, live, reported, tags, now);
  }

  lemma Settled(before: map<nat, Tracked>, visited: map<nat, Tracked>, after: map<nat, Tracked>, visitTags: seq<Tagged>,
                tags: seq<Tagged>, seen: seq<Seen>, seeding: bool, now: nat)
    requires Visited(before, visited, visitTags, seen, seeding, now)
    requires Swept(visited, after, Pids(seen), visitTags, tags, now)
    ensures forall p :: EntryOf(after, p) == NextEntry(EntryOf(before, p), seen, p, seeding, now)
    ensures forall p :: EventsOf(tags, p) == TickEvents(EntryOf(before, p), seen, p, seeding, now)
  {
    forall p
      ensures EntryOf(after, p) == NextEntry(EntryOf(before, p), seen, p, seeding, now)
      ensures EventsOf(tags, p) == TickEvents(EntryOf(before, p), seen, p, seeding, now)
    {
      if p in Pids(seen) {
        assert EventsOf(visitTags, p) + [] == EventsOf(visitTags, p);
      } else {
        Unseen(EntryOf(before, p), seen, p, seeding, now);
      }
    }
  }

  lemma PidsPush(seen: seq<Seen>, s: Seen)
    ensures Pids(seen + [s]) == Pids(seen) + {s.pid}
  {
    forall p
      ensures p in Pids(seen + [s]) <==> p in Pids(seen) || p == s.pid
    {
      if p in Pids(seen) {
        var x :| x in seen && x.pid == p;
        assert x in seen + [s];
      }
      assert s in seen + [s];
    }
  }

  lemma {:induction false} Unseen(entry: Option<Tracked>, seen: seq<Seen>, p: nat, seeding: bool, now: nat)
    requires p !in Pids(seen)
    ensures AfterSeen(entry, seen, p, seeding, now) == entry && SeenEvents(entry, seen, p, seeding, now) == []
  {
    if seen != [] {
      var init, last := seen[..|seen| - 1], seen[|seen| - 1];
      assert seen == init + [last];
      PidsPush(init, last);
      Unseen(entry, init, p, seeding, now);
    }
  }

  /** The first row of a poll with a pid. */
  function FirstOf(seen: seq<Seen>, p: nat): Seen
    requires p in Pids(seen)
  {
    assert seen == seen[..|seen| - 1] + [seen[|seen| - 1]];
    PidsPush(seen[..|seen| - 1], seen[|seen| - 1]);
    if p in Pids(seen[..|seen| - 1]) then FirstOf(seen[..|seen| - 1], p) else seen[|seen| - 1]
  }

  lemma {:induction false} FirstOfIs(seen: seq<Seen>, p: nat) returns (i: nat)
    requires p in Pids(seen)
    ensures i < |seen| && FirstOf(seen, p) == seen[i] && seen[i].pid == p && forall j | 0 <= j < i :: seen[j].pid != p
  {
    var init, last := seen[..|seen| - 1], seen[|seen| - 1];
    assert seen == init + [last];
    PidsPush(init, last);
    if p in Pids(init) {
      i := FirstOfIs(init, p);
    } else {
      i := |init|;
      forall j | 0 <= j < |init|
        ensures seen[j].pid != p
      {
        assert init[j] in init;
      }
    }
  }

  /** A pid listed twice in one poll counts once, under its first row. */
  lemma {:induction false} SeenOnce(entry: Option<Tracked>, seen: seq<Seen>, p: nat, seeding: bool, now: nat)
    requires p in Pids(seen)
    ensures AfterSeen(entry, seen, p, seeding, now) == Some(Visit(entry, FirstOf(seen, p), seeding, now))
    ensures SeenEvents(entry, seen, p, seeding, now) == VisitEvents(entry, FirstOf(seen, p), seeding, now)
  {
    var init, last := seen[..|seen| - 1], seen[|seen| - 1];
    assert seen == init + [last];
    PidsPush(init, last);
    if p in Pids(init) {
      SeenOnce(entry, init, p, seeding, now);
    } else {
      Unseen(entry, init, p, seeding, now);
    }
  }

  // ---------- whole runs ----------

  datatype Poll = Poll(seen: seq<Seen>, now: nat)

  /** The entry of a pid after the first `n` polls. */
  function EntryAfter(polls: seq<Poll>, n: nat, p: nat): Option<Tracked>
    requires n <= |polls|
  {
    if n == 0 then None
    else NextEntry(EntryAfter(polls, n - 1, p), polls[n - 1].seen, p, n == 1, polls[n - 1].now)
  }

  /** What poll `n` reports about a pid. */
  function Reported(polls: seq<Poll>, n: nat, p: nat): seq<ProcEvent>
    requires n < |polls|
  {
    TickEvents(EntryAfter(polls, n, p), polls[n].seen, p, n == 0, polls[n].now)
  }

  /** The tracker run over polls; `tags[n]` says which pid each event of poll `n` is about. */
  method Watch(polls: seq<Poll>) returns (t: ProcessTracker, events: seq<seq<ProcEvent>>, ghost tags: seq<seq<Tagged>>)
    ensures |events| == |tags| == |polls|
    ensures forall n | 0 <= n < |polls| :: events[n] == Untag(tags[n])
    ensures forall n, p | 0 <= n < |polls| :: EventsOf(tags[n], p) == Reported(polls, n, p)
    ensures forall p :: EntryOf(t.tracked, p) == EntryAfter(polls, |polls|, p)
    ensures t.tracked.Keys == if polls == [] then {} else Pids(polls[|polls| - 1].seen)
  {
    t := new ProcessTracker();
    events, tags := [], [];
    for i := 0 to |polls|
      invariant fresh(t) && t.seeded == (i > 0) && |events| == |tags| == i
      invariant forall n | 0 <= n < i :: events[n] == Untag(tags[n])
      invariant forall n, p | 0 <= n < i :: EventsOf(tags[n], p) == Reported(polls, n, p)
      invariant forall p :: EntryOf(t.tracked, p) == EntryAfter(polls, i, p)
      invariant t.tracked.Keys == if i == 0 then {} else Pids(polls[i - 1].seen)
    {
      var now;
      ghost var nowTags;
      now, nowTags := t.Tick(polls[i].seen, polls[i].now);
      events, tags := events + [now], tags + [nowTags];
    }
  }

  predicate InTime(polls: seq<Poll>) {
    forall i, j | 0 <= i < j < |polls| :: polls[i].now <= polls[j].now
  }

  predicate Present(polls: seq<Poll>, n: nat, p: nat) {
    n < |polls| && p in Pids(polls[n].seen)
  }

  /** The poll at which the pid's unbroken presence at poll `n` began. */
  function Since(polls: seq<Poll>, n: nat, p: nat): (i: nat)
    requires Present(polls, n, p)
    ensures i <= n && Present(polls, i, p)
  {
    if n > 0 && Present(polls, n - 1, p) then Since(polls, n - 1, p) else n
  }

  /** From there on the pid is in every poll, and it was not in the poll before. */
  lemma {:induction false} SinceIs(polls: seq<Poll>, n: nat, p: nat)
    requires Present(polls, n, p)
    ensures var i := Since(polls, n, p);
      (forall m: nat | i <= m <= n :: Present(polls, m, p)) && (i > 0 ==> !Present(polls, i - 1, p))
  {
    if n > 0 && Present(polls, n - 1, p) {
      SinceIs(polls, n - 1, p);
    }
  }

  /** By poll `n` the process has lasted since poll `i`. */
  predicate Lasted(polls: seq<Poll>, i: nat, n: nat)
    requires i <= n < |polls|
  {
    polls[n].now - polls[i].now >= 2000
  }

  /** The entry of a present pid: named after the first poll of its presence, dated then, and
      announced if it was there from the start or has lasted. */
  lemma {:induction false} EntryIsPresence(polls: seq<Poll>, n: nat, p: nat)
    requires InTime(polls) && n < |polls|
    ensures !Present(polls, n, p) ==> EntryAfter(polls, n + 1, p) == None
    ensures Present(polls, n, p) ==>
      var i := Since(polls, n, p);
      var s := FirstOf(polls[i].seen, p);
      EntryAfter(polls, n + 1, p) == Some(Tracked(s.name, s.command, polls[i].now, i == 0 || Lasted(polls, i, n)))
  {
    if n > 0 {
      EntryIsPresence(polls, n - 1, p);
    }
    if Present(polls, n, p) {
      SeenOnce(EntryAfter(polls, n, p), polls[n].seen, p, n == 0, polls[n].now);
    }
  }

  /** What a run of polls in time reports about a pid, exactly. A present process is announced
      at the first poll by which it has lasted two seconds, unless it was there from the start.
      When it is gone it is reported finished, with its whole duration, if it was announced or
      there from the start. Nothing else is reported. */
  lemma ReportsArePresences(polls: seq<Poll>, n: nat, p: nat)
    requires InTime(polls) && n < |polls|
    ensures Present(polls, n, p) ==>
      var i := Since(polls, n, p);
      var s := FirstOf(polls[i].seen, p);
      Reported(polls, n, p)
      == if i > 0 && Lasted(polls, i, n) && !(i < n && Lasted(polls, i, n - 1)) then [Started(s.name, s.command)] else []
    ensures !Present(polls, n, p) && n > 0 && Present(polls, n - 1, p) ==>
      var i := Since(polls, n - 1, p);
      var s := FirstOf(polls[i].seen, p);
      Reported(polls, n, p)
      == if i == 0 || Lasted(polls, i, n - 1) then [Finished(s.name, s.command, polls[n].now - polls[i].now)] else []
    ensures !Present(polls, n, p) && (n == 0 || !Present(polls, n - 1, p)) ==> Reported(polls, n, p) == []
  {
    if n > 0 {
      EntryIsPresence(polls, n - 1, p);
    }
    if Present(polls, n, p) {
      SeenOnce(EntryAfter(polls, n, p), polls[n].seen, p, n == 0, polls[n].now);
    }
  }

  lemma {:induction false} SamePresence(polls: seq<Poll>, m: nat, n: nat, p: nat)
    requires m <= n && Present(polls, n, p) && Since(polls, n, p) <= m
    ensures Present(polls, m, p) && Since(polls, m, p) == Since(polls, n, p)
    decreases n
  {
    if m < n {
      SamePresence(polls, m, n - 1, p);
    }
  }

  /** One unbroken presence is announced at most once, and a process is only reported finished
      if that presence was announced before or was there from the start. */
  lemma AnnouncedOnce(polls: seq<Poll>, m: nat, n: nat, p: nat)
    requires InTime(polls) && m < n && Present(polls, n, p) && Since(polls, n, p) <= m
    ensures Reported(polls, m, p) == [] || Reported(polls, n, p) == []
  {
    SamePresence(polls, m, n, p);
    ReportsArePresences(polls, m, p);
    ReportsArePresences(polls, n, p);
  }

  lemma {:induction false} FirstLasting(polls: seq<Poll>, i: nat, n: nat) returns (k: nat)
    requires i <= n < |polls| && Lasted(polls, i, n)
    ensures i < k <= n && Lasted(polls, i, k) && !Lasted(polls, i, k - 1)
    decreases n
  {
    if n > i && Lasted(polls, i, n - 1) {
      k := FirstLasting(polls, i, n - 1);
    } else {
      k := n;
    }
  }

  lemma FinishedWasAnnounced(polls: seq<Poll>, n: nat, p: nat)
    requires InTime(polls) && 0 < n < |polls| && !Present(polls, n, p) && Present(polls, n - 1, p)
    requires Reported(polls, n, p) != [] && Since(polls, n - 1, p) > 0
    ensures exists k | Since(polls, n - 1, p) < k < n :: Reported(polls, k, p) != []
  {
    ReportsArePresences(polls, n, p);
    var i := Since(polls, n - 1, p);
    var k := FirstLasting(polls, i, n - 1);
    SamePresence(polls, k, n - 1, p);
    ReportsArePresences(polls, k, p);
  }
}
