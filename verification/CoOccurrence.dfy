/** What the knowledge graph counts: the sliding window as the daemon keeps it, and a direct
    count of pairs over the whole log. */
module CoOccurrence {
  import opened Claims
  import opened Ordering

  const WINDOW_MS: nat := 5 * 60 * 1000
  const WINDOW_SIZE: nat := 8

  datatype EntityKind = File | Command | Repo | Error | IntentEntity

  datatype Entity = Entity(kind: EntityKind, name: string)

  /** One event: the entities drawn from it, and its time. */
  datatype Observation = Observation(entities: seq<Entity>, at: nat)

  datatype Recent = Recent(entity: Entity, at: nat)

  // ---------- the sliding window ----------

  /** `saturating_sub` against the window. */
  predicate Near(at: nat, seen: nat) {
    at <= seen || at - seen <= WINDOW_MS
  }

  function Retained(recent: seq<Recent>, at: nat): seq<Recent> {
    Filter((r: Recent) => Near(at, r.at), recent)
  }

  /** The last eight. */
  function Window(recent: seq<Recent>): seq<Recent> {
    if |recent| <= WINDOW_SIZE then recent else recent[|recent| - WINDOW_SIZE..]
  }

  predicate IsPair(e: Entity, f: Entity, x: Entity, y: Entity) {
    (e == x && f == y) || (e == y && f == x)
  }

  /** How often one entity reinforces the edge between `x` and `y`. */
  function Links(window: seq<Recent>, e: Entity, x: Entity, y: Entity): nat {
    if window == [] then 0
    else
      Links(window[..|window| - 1], e, x, y)
      + var f := window[|window| - 1].entity; if f != e && IsPair(e, f, x, y) then 1 else 0
  }

  function AllLinks(window: seq<Recent>, es: seq<Entity>, x: Entity, y: Entity): nat {
    if es == [] then 0
    else AllLinks(window, es[..|es| - 1], x, y) + Links(window, es[|es| - 1], x, y)
  }

  function Tagged(es: seq<Entity>, at: nat): seq<Recent> {
    if es == [] then [] else Tagged(es[..|es| - 1], at) + [Recent(es[|es| - 1], at)]
  }

  function NextRecent(recent: seq<Recent>, o: Observation): seq<Recent> {
    if o.entities == [] then recent else Retained(recent, o.at) + Tagged(o.entities, o.at)
  }

  function Gain(recent: seq<Recent>, o: Observation, x: Entity, y: Entity): nat {
    AllLinks(Window(Retained(recent, o.at)), o.entities, x, y)
  }

  function RecentAfter(log: seq<Observation>): seq<Recent> {
    if log == [] then [] else NextRecent(RecentAfter(log[..|log| - 1]), log[|log| - 1])
  }

  /** The weight of an edge after the log was observed event by event. */
  function WeightAfter(log: seq<Observation>, x: Entity, y: Entity): nat {
    if log == [] then 0
    else
      WeightAfter(log[..|log| - 1], x, y) + Gain(RecentAfter(log[..|log| - 1]), log[|log| - 1], x, y)
  }

  // ---------- the direct count ----------

  /** One mention of an entity; `start` counts the mentions of all earlier events. */
  datatype Mention = Mention(entity: Entity, at: nat, start: nat)

  function MentionsOf(es: seq<Entity>, at: nat, start: nat): seq<Mention> {
    if es == [] then [] else MentionsOf(es[..|es| - 1], at, start) + [Mention(es[|es| - 1], at, start)]
  }

  function Mentions(log: seq<Observation>): seq<Mention> {
    if log == [] then []
    else
      var before := Mentions(log[..|log| - 1]);
      before + MentionsOf(log[|log| - 1].entities, log[|log| - 1].at, |before|)
  }

  /** Mention `j` counts towards mention `k`: it is one of the eight before `k`'s event, within
      five minutes, and names another entity. */
  predicate Counts(ms: seq<Mention>, j: int, k: int, x: Entity, y: Entity)
    requires 0 <= j < |ms| && 0 <= k < |ms|
  {
    && ms[k].start - 8 <= j < ms[k].start && ms[k].at - ms[j].at <= 300_000
    && ms[j].entity != ms[k].entity && IsPair(ms[k].entity, ms[j].entity, x, y)
  }

  ghost function PairsUpTo(ms: seq<Mention>, n: nat, x: Entity, y: Entity): set<(int, int)>
    requires n <= |ms|
  {
    set j: int, k: int | 0 <= j < |ms| && 0 <= k < n && Counts(ms, j, k, x, y) :: (j, k)
  }

  ghost function Pairs(log: seq<Observation>, x: Entity, y: Entity): set<(int, int)> {
    PairsUpTo(Mentions(log), |Mentions(log)|, x, y)
  }

  predicate InTime(log: seq<Observation>) {
    forall i, j | 0 <= i < j < |log| :: log[i].at <= log[j].at
  }

  // ---------- the window is a suffix of the mentions ----------

  /** The mentions as the window would list them. */
  predicate Mirrors(recent: seq<Recent>, ms: seq<Mention>, d: nat) {
    d <= |ms| && |recent| == |ms| - d
    && forall i | 0 <= i < |recent| :: recent[i] == Recent(ms[d + i].entity, ms[d + i].at)
  }

  predicate Aligned(ms: seq<Mention>) {
    forall i, j | 0 <= i < j < |ms| :: ms[i].at <= ms[j].at
  }

  /** The mentions before `d` are too old for anything at `at` or later. */
  predicate OldBefore(ms: seq<Mention>, d: nat, at: nat) {
    d <= |ms| && forall i | 0 <= i < d :: !Near(at, ms[i].at)
  }

  predicate NearFrom(ms: seq<Mention>, d: nat, at: nat) {
    d <= |ms| && forall i | d <= i < |ms| :: Near(at, ms[i].at)
  }

  lemma {:induction false} RetainedAll(recent: seq<Recent>, at: nat)
    requires forall r | r in recent :: Near(at, r.at)
    ensures Retained(recent, at) == recent
  {
    if recent != [] {
      assert recent == [recent[0]] + recent[1..];
      RetainedAll(recent[1..], at);
    }
  }

  lemma {:induction false} RetainedIsSuffix(recent: seq<Recent>, ms: seq<Mention>, d: nat, at: nat) returns (d': nat)
    requires Mirrors(recent, ms, d) && Aligned(ms) && OldBefore(ms, d, at)
    ensures Mirrors(Retained(recent, at), ms, d') && OldBefore(ms, d', at) && NearFrom(ms, d', at)
    decreases |recent|
  {
    if recent == [] {
      d' := d;
    } else if Near(at, recent[0].at) {
      forall r | r in recent
        ensures Near(at, r.at)
      {
        var i :| 0 <= i < |recent| && recent[i] == r;
        assert ms[d].at <= ms[d + i].at;
      }
      RetainedAll(recent, at);
      d' := d;
      forall i | d <= i < |ms|
        ensures Near(at, ms[i].at)
      {
        assert recent[i - d] in recent;
      }
    } else {
      assert Mirrors(recent[1..], ms, d + 1);
      d' := RetainedIsSuffix(recent[1..], ms, d + 1, at);
    }
  }

  lemma {:induction false} TaggedMirrors(es: seq<Entity>, at: nat, start: nat)
    ensures |Tagged(es, at)| == |es| == |MentionsOf(es, at, start)|
    ensures forall i | 0 <= i < |es| ::
      Tagged(es, at)[i] == Recent(es[i], at) && MentionsOf(es, at, start)[i] == Mention(es[i], at, start)
  {
    if es != [] {
      TaggedMirrors(es[..|es| - 1], at, start);
    }
  }

  /** The time of the newest event. */
  function Clock(log: seq<Observation>): nat {
    if log == [] then 0 else log[|log| - 1].at
  }

  lemma {:induction false} MentionsInTime(log: seq<Observation>)
    requires InTime(log)
    ensures Aligned(Mentions(log)) && forall m | m in Mentions(log) :: m.at <= Clock(log)
  {
    if log != [] {
      var init, o := log[..|log| - 1], log[|log| - 1];
      MentionsInTime(init);
      TaggedMirrors(o.entities, o.at, |Mentions(init)|);
      assert InTime(init) && Clock(init) <= o.at;
      AlignedPush(Mentions(init), MentionsOf(o.entities, o.at, |Mentions(init)|), o.at);
    }
  }

  lemma AlignedPush(ms: seq<Mention>, more: seq<Mention>, at: nat)
    requires Aligned(ms) && (forall m | m in ms :: m.at <= at) && forall i | 0 <= i < |more| :: more[i].at == at
    ensures Aligned(ms + more) && forall m | m in ms + more :: m.at <= at
  {
    forall i, j | 0 <= i < j < |ms + more|
      ensures (ms + more)[i].at <= (ms + more)[j].at
    {
      if i < |ms| <= j {
        assert ms[i] in ms;
      }
    }
  }

  lemma LaterIsOlder(ms: seq<Mention>, d: nat, at: nat, later: nat)
    requires OldBefore(ms, d, at) && at <= later
    ensures OldBefore(ms, d, later)
  {
  }

  lemma {:induction false} RecentIsSuffix(log: seq<Observation>) returns (d: nat)
    requires InTime(log)
    ensures Mirrors(RecentAfter(log), Mentions(log), d) && OldBefore(Mentions(log), d, Clock(log))
  {
    if log == [] {
      d := 0;
    } else {
      var init, o := log[..|log| - 1], log[|log| - 1];
      var d0 := RecentIsSuffix(init);
      MentionsInTime(init);
      LaterIsOlder(Mentions(init), d0, Clock(init), o.at);
      TaggedMirrors(o.entities, o.at, |Mentions(init)|);
      if o.entities == [] {
        d := d0;
      } else {
        d := RetainedIsSuffix(RecentAfter(init), Mentions(init), d0, o.at);
      }
    }
  }

  // ---------- counting ----------

  /** Mentions from `from` on that count towards mention `k`. */
  function CountFrom(ms: seq<Mention>, from: nat, n: nat, k: nat, x: Entity, y: Entity): nat
    requires from <= n <= |ms| && k < |ms|
    decreases n
  {
    if n == from then 0 else CountFrom(ms, from, n - 1, k, x, y) + if Counts(ms, n - 1, k, x, y) then 1 else 0
  }

  ghost function Column(ms: seq<Mention>, n: nat, k: nat, x: Entity, y: Entity): set<(int, int)>
    requires n <= |ms| && k < |ms|
  {
    set j: int | 0 <= j < n && Counts(ms, j, k, x, y) :: (j, k as int)
  }

  lemma {:induction false} ColumnCounts(ms: seq<Mention>, n: nat, k: nat, x: Entity, y: Entity)
    requires n <= |ms| && k < |ms|
    ensures |Column(ms, n, k, x, y)| == CountFrom(ms, 0, n, k, x, y)
    decreases n
  {
    if n == 0 {
      assert Column(ms, 0, k, x, y) == {};
    } else {
      hide Counts;
      ColumnCounts(ms, n - 1, k, x, y);
      ColumnPush(ms, n, k, x, y);
    }
  }

  lemma ColumnPush(ms: seq<Mention>, n: nat, k: nat, x: Entity, y: Entity)
    requires 0 < n <= |ms| && k < |ms|
    ensures |Column(ms, n, k, x, y)| == |Column(ms, n - 1, k, x, y)| + if Counts(ms, n - 1, k, x, y) then 1 else 0
  {
    hide Counts;
    var more := if Counts(ms, n - 1, k, x, y) then {(n as int - 1, k as int)} else {};
    assert Column(ms, n, k, x, y) == Column(ms, n - 1, k, x, y) + more;
  }

  lemma PairsGrow(ms: seq<Mention>, k: nat, x: Entity, y: Entity)
    requires k < |ms|
    ensures |PairsUpTo(ms, k + 1, x, y)| == |PairsUpTo(ms, k, x, y)| + CountFrom(ms, 0, |ms|, k, x, y)
  {
    ColumnCounts(ms, |ms|, k, x, y);
    assert PairsUpTo(ms, k + 1, x, y) == PairsUpTo(ms, k, x, y) + Column(ms, |ms|, k, x, y);
    assert PairsUpTo(ms, k, x, y) !! Column(ms, |ms|, k, x, y);
  }

  function Total(ms: seq<Mention>, n: nat, x: Entity, y: Entity): nat
    requires n <= |ms|
  {
    if n == 0 then 0 else Total(ms, n - 1, x, y) + CountFrom(ms, 0, |ms|, n - 1, x, y)
  }

  lemma TotalStep(ms: seq<Mention>, k: nat, x: Entity, y: Entity)
    requires k < |ms|
    ensures Total(ms, k + 1, x, y) == Total(ms, k, x, y) + CountFrom(ms, 0, |ms|, k, x, y)
  {
  }

  lemma {:induction false} PairsAreTotal(ms: seq<Mention>, n: nat, x: Entity, y: Entity)
    requires n <= |ms|
    ensures |PairsUpTo(ms, n, x, y)| == Total(ms, n, x, y)
  {
    if n == 0 {
      assert PairsUpTo(ms, 0, x, y) == {};
    } else {
      PairsAreTotal(ms, n - 1, x, y);
      PairsGrow(ms, n - 1, x, y);
    }
  }

  /** Only mentions between `from` and `to` count towards `k`. */
  lemma {:induction false} CountNarrows(ms: seq<Mention>, from: nat, to: nat, n: nat, k: nat, x: Entity, y: Entity)
    requires from <= to <= n <= |ms| && k < |ms|
    requires forall j | 0 <= j < n && !(from <= j < to) :: !Counts(ms, j, k, x, y)
    ensures CountFrom(ms, 0, n, k, x, y) == CountFrom(ms, from, to, k, x, y)
    decreases n
  {
    if n > to {
      CountNarrows(ms, from, to, n - 1, k, x, y);
    } else if n > from {
      CountNarrows(ms, from, to - 1, n - 1, k, x, y);
    } else {
      CountsNone(ms, n, k, x, y);
    }
  }

  lemma {:induction false} CountsNone(ms: seq<Mention>, n: nat, k: nat, x: Entity, y: Entity)
    requires n <= |ms| && k < |ms| && forall j | 0 <= j < n :: !Counts(ms, j, k, x, y)
    ensures CountFrom(ms, 0, n, k, x, y) == 0
    decreases n
  {
    if n > 0 {
      CountsNone(ms, n - 1, k, x, y);
    }
  }

  /** The window of an event, as a stretch of the mentions. */
  /** Mention `j` is near mention `k` and among the last ones before its event. */
  predicate InReach(ms: seq<Mention>, j: int, k: nat)
    requires k < |ms|
  {
    0 <= j < |ms| && ms[k].start - WINDOW_SIZE <= j < ms[k].start && Near(ms[k].at, ms[j].at)
  }

  lemma {:induction false} LinksAreCounts(window: seq<Recent>, ms: seq<Mention>, from: nat, k: nat, x: Entity, y: Entity)
    requires k < |ms| && from + |window| <= |ms|
    requires forall i | 0 <= i < |window| :: window[i] == Recent(ms[from + i].entity, ms[from + i].at)
    requires forall j | from <= j < from + |window| :: InReach(ms, j, k)
    ensures Links(window, ms[k].entity, x, y) == CountFrom(ms, from, from + |window|, k, x, y)
    decreases |window|
  {
    if window != [] {
      var n, init := |window| - 1, window[..|window| - 1];
      assert forall i | 0 <= i < |init| :: init[i] == window[i] == Recent(ms[from + i].entity, ms[from + i].at);
      LinksAreCounts(init, ms, from, k, x, y);
      assert InReach(ms, from + n, k) && window[n] == Recent(ms[from + n].entity, ms[from + n].at);
    }
  }

  /** One new mention: what its entity links to in the window is what counts towards it. */
  lemma MentionLinks(ms: seq<Mention>, past: seq<Mention>, recent: seq<Recent>, d: nat, k: nat, x: Entity, y: Entity)
    requires |past| <= k < |ms| && ms[..|past|] == past && ms[k].start == |past|
    requires Mirrors(recent, past, d) && OldBefore(past, d, ms[k].at) && NearFrom(past, d, ms[k].at)
    ensures Links(Window(recent), ms[k].entity, x, y) == CountFrom(ms, 0, |ms|, k, x, y)
  {
    var window := Window(recent);
    var from, n := |past| - |window|, |past|;
    assert forall i | 0 <= i < n :: ms[i] == ms[..n][i] == past[i];
    LinksAreCounts(window, ms, from, k, x, y);
    forall j | 0 <= j < |ms| && !(from <= j < n)
      ensures !Counts(ms, j, k, x, y)
    {
      if j < d {
        assert !Near(ms[k].at, past[j].at);
      }
    }
    CountNarrows(ms, from, n, |ms|, k, x, y);
  }

  /** The mentions of one event after those of the past, and the window it sees. */
  predicate Extends(ms: seq<Mention>, past: seq<Mention>, recent: seq<Recent>, d: nat, o: Observation) {
    && ms == past + MentionsOf(o.entities, o.at, |past|) && |ms| == |past| + |o.entities|
    && Mirrors(recent, past, d) && OldBefore(past, d, o.at) && NearFrom(past, d, o.at)
  }

  lemma EntityLinks(ms: seq<Mention>, past: seq<Mention>, recent: seq<Recent>, d: nat,
                    o: Observation, m: nat, x: Entity, y: Entity)
    requires Extends(ms, past, recent, d, o) && m < |o.entities|
    ensures Total(ms, |past| + m + 1, x, y) == Total(ms, |past| + m, x, y) + Links(Window(recent), o.entities[m], x, y)
  {
    hide Links, Window, Counts, Mirrors, OldBefore, NearFrom, Total;
    var k := |past| + m;
    MentionAt(ms, past, o, m);
    TotalStep(ms, k, x, y);
    MentionLinks(ms, past, recent, d, k, x, y);
  }

  lemma MentionAt(ms: seq<Mention>, past: seq<Mention>, o: Observation, m: nat)
    requires ms == past + MentionsOf(o.entities, o.at, |past|) && m < |o.entities|
    ensures |past| + m < |ms| && ms[|past| + m] == Mention(o.entities[m], o.at, |past|) && ms[..|past|] == past
  {
    TaggedMirrors(o.entities, o.at, |past|);
  }

  lemma AllLinksPush(window: seq<Recent>, es: seq<Entity>, m: nat, x: Entity, y: Entity)
    requires m < |es|
    ensures AllLinks(window, es[..m + 1], x, y) == AllLinks(window, es[..m], x, y) + Links(window, es[m], x, y)
  {
    assert es[..m + 1][..m] == es[..m];
  }

  /** The first `m` entities of an event gain as many links as they add pairs. */
  predicate Gained(ms: seq<Mention>, start: nat, window: seq<Recent>, es: seq<Entity>, m: nat, x: Entity, y: Entity)
    requires start + m <= |ms| && m <= |es|
  {
    Total(ms, start + m, x, y) == Total(ms, start, x, y) + AllLinks(window, es[..m], x, y)
  }

  lemma GainsOneMore(ms: seq<Mention>, start: nat, window: seq<Recent>, es: seq<Entity>, m: nat, x: Entity, y: Entity)
    requires start + m < |ms| && m < |es| && Gained(ms, start, window, es, m, x, y)
    requires Total(ms, start + m + 1, x, y) == Total(ms, start + m, x, y) + Links(window, es[m], x, y)
    ensures Gained(ms, start, window, es, m + 1, x, y)
  {
    AllLinksPush(window, es, m, x, y);
  }

  lemma NoneGained(ms: seq<Mention>, past: seq<Mention>, recent: seq<Recent>, d: nat, o: Observation, x: Entity, y: Entity)
    requires Extends(ms, past, recent, d, o)
    ensures Gained(ms, |past|, Window(recent), o.entities, 0, x, y)
  {
    assert o.entities[..0] == [];
  }

  lemma LongEnough(ms: seq<Mention>, past: seq<Mention>, recent: seq<Recent>, d: nat, o: Observation)
    requires Extends(ms, past, recent, d, o)
    ensures |ms| == |past| + |o.entities|
  {
  }

  lemma {:induction false} EventLinks(ms: seq<Mention>, past: seq<Mention>, recent: seq<Recent>, d: nat,
                                      o: Observation, m: nat, x: Entity, y: Entity)
    requires Extends(ms, past, recent, d, o) && m <= |o.entities|
    ensures Gained(ms, |past|, Window(recent), o.entities, m, x, y)
    decreases m
  {
    hide Extends, Window;
    LongEnough(ms, past, recent, d, o);
    if m == 0 {
      NoneGained(ms, past, recent, d, o, x, y);
    } else {
      EventLinks(ms, past, recent, d, o, m - 1, x, y);
      EntityLinks(ms, past, recent, d, o, m - 1, x, y);
      GainsOneMore(ms, |past|, Window(recent), o.entities, m - 1, x, y);
    }
  }

  lemma {:induction false} StartsAreBelow(log: seq<Observation>)
    ensures forall k | 0 <= k < |Mentions(log)| :: Mentions(log)[k].start <= k
  {
    if log != [] {
      var init, o := log[..|log| - 1], log[|log| - 1];
      StartsAreBelow(init);
      TaggedMirrors(o.entities, o.at, |Mentions(init)|);
    }
  }

  lemma OldPairsStay(ms: seq<Mention>, past: seq<Mention>, x: Entity, y: Entity)
    requires |past| <= |ms| && ms[..|past|] == past && forall k | 0 <= k < |past| :: past[k].start <= k
    ensures PairsUpTo(ms, |past|, x, y) == PairsUpTo(past, |past|, x, y)
  {
    assert forall i | 0 <= i < |past| :: ms[i] == ms[..|past|][i] == past[i];
    forall j: int, k: int | 0 <= j < |ms| && 0 <= k < |past| && Counts(ms, j, k, x, y)
      ensures j < |past|
    {
    }
  }

  lemma OldTotalStays(ms: seq<Mention>, past: seq<Mention>, x: Entity, y: Entity)
    requires |past| <= |ms| && ms[..|past|] == past && forall k | 0 <= k < |past| :: past[k].start <= k
    ensures Total(ms, |past|, x, y) == Total(past, |past|, x, y)
  {
    PairsAreTotal(ms, |past|, x, y);
    PairsAreTotal(past, |past|, x, y);
    OldPairsStay(ms, past, x, y);
  }

  lemma EventTotal(init: seq<Observation>, o: Observation, x: Entity, y: Entity)
    requires InTime(init) && Clock(init) <= o.at
    ensures var past := Mentions(init);
      var ms := past + MentionsOf(o.entities, o.at, |past|);
      Total(ms, |ms|, x, y) == Total(past, |past|, x, y) + Gain(RecentAfter(init), o, x, y)
  {
    var past := Mentions(init);
    var ms := past + MentionsOf(o.entities, o.at, |past|);
    var d := EventExtends(init, o);
    EventLinks(ms, past, Retained(RecentAfter(init), o.at), d, o, |o.entities|, x, y);
    assert o.entities[..|o.entities|] == o.entities;
    StartsAreBelow(init);
    assert ms[..|past|] == past;
    OldTotalStays(ms, past, x, y);
  }

  lemma EventExtends(init: seq<Observation>, o: Observation) returns (d: nat)
    requires InTime(init) && Clock(init) <= o.at
    ensures var past := Mentions(init);
      Extends(past + MentionsOf(o.entities, o.at, |past|), past, Retained(RecentAfter(init), o.at), d, o)
  {
    var past := Mentions(init);
    var before := RecentIsSuffix(init);
    MentionsInTime(init);
    LaterIsOlder(past, before, Clock(init), o.at);
    d := RetainedIsSuffix(RecentAfter(init), past, before, o.at);
    TaggedMirrors(o.entities, o.at, |past|);
  }

  lemma {:induction false} WeightIsTotal(log: seq<Observation>, x: Entity, y: Entity)
    requires InTime(log)
    ensures WeightAfter(log, x, y) == Total(Mentions(log), |Mentions(log)|, x, y)
  {
    if log != [] {
      WeightIsTotal(log[..|log| - 1], x, y);
      EventTotal(log[..|log| - 1], log[|log| - 1], x, y);
    }
  }

  /** Incremental equals batch: observed in time order, the weight of an edge is the number of
      pairs of mentions, of two different events, that lie within five minutes and within the
      last eight mentions, and name its two entities. */
  lemma IncrementalIsBatch(log: seq<Observation>, x: Entity, y: Entity)
    requires InTime(log)
    ensures WeightAfter(log, x, y) == |Pairs(log, x, y)|
  {
    WeightIsTotal(log, x, y);
    PairsAreTotal(Mentions(log), |Mentions(log)|, x, y);
  }

  /** Weights are symmetric and no entity is linked to itself. */
  lemma {:induction false} WeightsAreSymmetric(log: seq<Observation>, x: Entity, y: Entity)
    ensures WeightAfter(log, x, y) == WeightAfter(log, y, x)
    ensures WeightAfter(log, x, x) == 0
  {
    if log != [] {
      var init, o := log[..|log| - 1], log[|log| - 1];
      WeightsAreSymmetric(init, x, y);
      AllLinksSymmetric(Window(Retained(RecentAfter(init), o.at)), o.entities, x, y);
    }
  }

  lemma {:induction false} AllLinksSymmetric(window: seq<Recent>, es: seq<Entity>, x: Entity, y: Entity)
    ensures AllLinks(window, es, x, y) == AllLinks(window, es, y, x) && AllLinks(window, es, x, x) == 0
  {
    if es != [] {
      AllLinksSymmetric(window, es[..|es| - 1], x, y);
      LinksSymmetric(window, es[|es| - 1], x, y);
    }
  }

  lemma {:induction false} LinksSymmetric(window: seq<Recent>, e: Entity, x: Entity, y: Entity)
    ensures Links(window, e, x, y) == Links(window, e, y, x) && Links(window, e, x, x) == 0
  {
    if window != [] {
      LinksSymmetric(window[..|window| - 1], e, x, y);
    }
  }
}
