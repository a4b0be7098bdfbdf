/** What is current, without the history: the fold over current claims only, the hypotheses
    on a log under which it agrees with the projector, and slot uniqueness. */
module CurrentView {
  import opened Text
  import opened Claims
  import opened Projector

  // ---------- filters over claims ----------

  datatype Drop =
    | DropId(id: string)
    | DropSlot(taskId: string, kind: Kind, subject: string)
    | DropProjector(taskId: string)

  predicate Hits(d: Drop, c: Claim) {
    match d
    case DropId(id) => c.id == id
    case DropSlot(taskId, kind, subject) => c.taskId == taskId && c.kind == kind && c.subject == subject
    case DropProjector(taskId) => c.taskId == taskId && c.origin == Projector
  }

  function Keep(d: Drop, cs: seq<Claim>): seq<Claim> {
    if cs == [] then []
    else Keep(d, cs[..|cs| - 1]) + if Hits(d, cs[|cs| - 1]) then [] else [cs[|cs| - 1]]
  }

  lemma KeepPush(d: Drop, cs: seq<Claim>, c: Claim)
    ensures Keep(d, cs + [c]) == Keep(d, cs) + if Hits(d, c) then [] else [c]
  {
    assert (cs + [c])[..|cs|] == cs;
  }

  lemma {:induction false} KeepMembers(d: Drop, cs: seq<Claim>)
    ensures forall c :: c in Keep(d, cs) <==> c in cs && !Hits(d, c)
  {
    if cs != [] {
      KeepMembers(d, cs[..|cs| - 1]);
      assert cs == cs[..|cs| - 1] + [cs[|cs| - 1]];
    }
  }

  lemma {:induction false} KeepCommutes(d: Drop, e: Drop, cs: seq<Claim>)
    ensures Keep(d, Keep(e, cs)) == Keep(e, Keep(d, cs))
  {
    if cs != [] {
      var init, last := cs[..|cs| - 1], cs[|cs| - 1];
      KeepCommutes(d, e, init);
      KeepPush(d, Keep(e, init), last);
      KeepPush(e, Keep(d, init), last);
      assert Keep(e, init) + [] == Keep(e, init);
      assert Keep(d, init) + [] == Keep(d, init);
    }
  }

  /** Filters that hit the same members give the same list. */
  lemma {:induction false} KeepSame(d: Drop, e: Drop, cs: seq<Claim>)
    requires forall c | c in cs :: Hits(d, c) <==> Hits(e, c)
    ensures Keep(d, cs) == Keep(e, cs)
  {
    if cs != [] {
      KeepSame(d, e, cs[..|cs| - 1]);
    }
  }

  lemma {:induction false} KeepAll(d: Drop, cs: seq<Claim>)
    requires forall c | c in cs :: !Hits(d, c)
    ensures Keep(d, cs) == cs
  {
    if cs != [] {
      KeepAll(d, cs[..|cs| - 1]);
      assert cs == cs[..|cs| - 1] + [cs[|cs| - 1]];
    }
  }

  // ---------- the current claims of a projection ----------

  /** A claim without the link to what it replaced. */
  function Bare(c: Claim): Claim {
    c.(supersedes := None)
  }

  /** The current claims, oldest assertion first, links dropped. */
  function Live(cs: seq<Claim>): seq<Claim> {
    if cs == [] then []
    else
      Live(cs[..|cs| - 1])
      + if cs[|cs| - 1].status == Current then [Bare(cs[|cs| - 1])] else []
  }

  lemma LivePush(cs: seq<Claim>, c: Claim)
    ensures Live(cs + [c]) == Live(cs) + if c.status == Current then [Bare(c)] else []
  {
    assert (cs + [c])[..|cs|] == cs;
  }

  lemma {:induction false} LiveMembers(cs: seq<Claim>)
    ensures forall i | 0 <= i < |cs| && cs[i].status == Current :: Bare(cs[i]) in Live(cs)
    ensures forall b | b in Live(cs) :: exists i :: 0 <= i < |cs| && cs[i].status == Current && b == Bare(cs[i])
  {
    if cs != [] {
      var init := cs[..|cs| - 1];
      LiveMembers(init);
      forall b | b in Live(cs)
        ensures exists i :: 0 <= i < |cs| && cs[i].status == Current && b == Bare(cs[i])
      {
        if b in Live(init) {
          var i :| 0 <= i < |init| && init[i].status == Current && b == Bare(init[i]);
          assert cs[i] == init[i];
        } else {
          assert b == Bare(cs[|cs| - 1]);
        }
      }
      forall i | 0 <= i < |cs| && cs[i].status == Current
        ensures Bare(cs[i]) in Live(cs)
      {
        if i < |init| {
          assert init[i] == cs[i];
        }
      }
    }
  }

  // ---------- well-formed claim lists ----------

  predicate DistinctIds(cs: seq<Claim>) {
    forall i, j | 0 <= i < j < |cs| :: cs[i].id != cs[j].id
  }

  predicate SameSlot(a: Claim, b: Claim) {
    UniqueSlot(a.kind) && a.taskId == b.taskId && a.kind == b.kind && a.subject == b.subject
  }

  /** What the partial unique index of the claims table demands. */
  predicate OneHolder(cs: seq<Claim>) {
    forall i, j | 0 <= i < j < |cs| && cs[i].status == Current && cs[j].status == Current ::
      !SameSlot(cs[i], cs[j])
  }

  predicate WellFormed(cs: seq<Claim>) {
    DistinctIds(cs) && OneHolder(cs)
  }

  predicate Fresh(id: string, cs: seq<Claim>) {
    forall i | 0 <= i < |cs| :: cs[i].id != id
  }

  predicate Clear(cs: seq<Claim>, taskId: string, kind: Kind, subject: string) {
    forall i | 0 <= i < |cs| :: !Occupies(cs[i], taskId, kind, subject)
  }

  lemma RetireById(cs: seq<Claim>, id: string, at: nat)
    requires WellFormed(cs)
    ensures WellFormed(SupersedeClaim(cs, id, at))
    ensures |SupersedeClaim(cs, id, at)| == |cs|
    ensures forall i | 0 <= i < |cs| ::
      SupersedeClaim(cs, id, at)[i] == if cs[i].id == id then Retire(cs[i], at) else cs[i]
    ensures Live(SupersedeClaim(cs, id, at)) == Keep(DropId(id), Live(cs))
  {
    LiveAfterRetire(cs, id, at);
  }

  lemma {:induction false} LiveAfterRetire(cs: seq<Claim>, id: string, at: nat)
    requires DistinctIds(cs)
    ensures Live(SupersedeClaim(cs, id, at)) == Keep(DropId(id), Live(cs))
  {
    if cs != [] {
      var n := |cs| - 1;
      var init, last := cs[..n], cs[n];
      LiveAfterRetire(init, id, at);
      RetireInit(cs, id, at);
      assert cs == init + [last];
      var kept := Live(SupersedeClaim(init, id, at));
      assert kept + [] == kept && Live(init) + [] == Live(init);
      var last' := if last.id == id then Retire(last, at) else last;
      LivePush(SupersedeClaim(init, id, at), last');
      if last.status == Current {
        KeepPush(DropId(id), Live(init), Bare(last));
      }
    }
  }

  lemma RetireInit(cs: seq<Claim>, id: string, at: nat)
    requires DistinctIds(cs) && cs != []
    ensures var n := |cs| - 1;
      SupersedeClaim(cs, id, at)
      == SupersedeClaim(cs[..n], id, at) + [if cs[n].id == id then Retire(cs[n], at) else cs[n]]
  {
    var n := |cs| - 1;
    var init := cs[..n];
    assert forall i | 0 <= i < n :: init[i] == cs[i];
    var i, j := ClaimIndex(cs, id), ClaimIndex(init, id);
    if i < n {
      assert j == i;
    } else {
      assert j == n;
    }
  }

  lemma RetireSlot(cs: seq<Claim>, taskId: string, kind: Kind, subject: string, at: nat)
    requires WellFormed(cs) && UniqueSlot(kind)
    ensures WellFormed(SupersedeSlot(cs, taskId, kind, subject, at))
    ensures Clear(SupersedeSlot(cs, taskId, kind, subject, at), taskId, kind, subject)
    ensures |SupersedeSlot(cs, taskId, kind, subject, at)| == |cs|
    ensures forall i | 0 <= i < |cs| ::
      SupersedeSlot(cs, taskId, kind, subject, at)[i]
      == if Occupies(cs[i], taskId, kind, subject) then Retire(cs[i], at) else cs[i]
    ensures Live(SupersedeSlot(cs, taskId, kind, subject, at))
         == Keep(DropSlot(taskId, kind, subject), Live(cs))
  {
    LiveMembers(cs);
    match CurrentSlot(cs, taskId, kind, subject)
    case None => KeepAll(DropSlot(taskId, kind, subject), Live(cs));
    case Some(c) =>
      RetireById(cs, c.id, at);
      KeepSame(DropId(c.id), DropSlot(taskId, kind, subject), Live(cs));
  }

  lemma PushClaim(cs: seq<Claim>, c: Claim)
    requires WellFormed(cs) && Fresh(c.id, cs)
    requires UniqueSlot(c.kind) ==> Clear(cs, c.taskId, c.kind, c.subject)
    ensures WellFormed(cs + [c])
    ensures Live(cs + [c]) == Live(cs) + if c.status == Current then [Bare(c)] else []
  {
    LivePush(cs, c);
  }

  // ---------- the fold over current claims only ----------

  predicate AuthoredFrontier(live: seq<Claim>, taskId: string) {
    exists c | c in live ::
      Hits(DropSlot(taskId, NextAction, FRONTIER_SUBJECT), c) && c.origin != Projector
  }

  function RunLive(live: seq<Claim>, r: Run): seq<Claim> {
    var l := Keep(DropSlot(r.taskId, Reality, r.subject), live) + [RealityClaim(r, None)];
    if AuthoredFrontier(l, r.taskId) then l
    else
      Keep(DropSlot(r.taskId, NextAction, FRONTIER_SUBJECT), l)
      + if r.code != 0 then [FrontierClaim(r, None)] else []
  }

  function AssertLive(live: seq<Claim>, ce: ClaimEvent, e: Event): seq<Claim>
    requires HasClaimBody(ce)
  {
    var l := if UniqueSlot(ce.kind.value)
             then Keep(DropSlot(ce.taskId, ce.kind.value, SubjectOf(ce)), live) else live;
    (if ce.supersedes.Some? then Keep(DropId(ce.supersedes.value), l) else l)
    + [Bare(AuthoredClaim(ce, e, None))]
  }

  function AuthoredLive(live: seq<Claim>, ce: ClaimEvent, e: Event): seq<Claim> {
    if ce.op == CloseTask then live
    else
      var l := if ce.op == Supersede then Keep(DropId(SupersedeTarget(ce)), live) else live;
      if HasClaimBody(ce) then AssertLive(l, ce, e) else l
  }

  function StepLive(live: seq<Claim>, e: Event): seq<Claim> {
    if IsRun(e) then RunLive(live, ReadRun(e))
    else if IsAuthored(e) then AuthoredLive(live, e.body.claim.value, e)
    else live
  }

  /** The current claims of a log, computed without any superseded claim. */
  function CurrentClaims(log: seq<Event>): seq<Claim> {
    if log == [] then [] else StepLive(CurrentClaims(log[..|log| - 1]), log[|log| - 1])
  }

  // ---------- one step keeps both folds together ----------

  /** Ids of the claims an event may add. */
  function NewIds(e: Event): set<string> {
    if IsRun(e) then {ReadRun(e).realityId, ReadRun(e).frontierId}
    else if IsAuthored(e) && Asserts(e.body.claim.value) then {e.body.claim.value.claimId}
    else {}
  }

  predicate FreshFor(e: Event, cs: seq<Claim>) {
    forall i | 0 <= i < |cs| :: cs[i].id !in NewIds(e)
  }

  lemma AuthoredFrontierIsHolder(cs: seq<Claim>, taskId: string)
    requires WellFormed(cs)
    ensures AuthoredFrontier(Live(cs), taskId) <==>
      (var f := CurrentSlot(cs, taskId, NextAction, FRONTIER_SUBJECT); f.Some? && f.value.origin != Projector)
  {
    LiveMembers(cs);
    var f := SlotIndex(cs, taskId, NextAction, FRONTIER_SUBJECT);
    if f < |cs| {
      assert Bare(cs[f]) in Live(cs);
    }
  }

  lemma CancelPrefix(head: string, a: string, b: string)
    requires head + a == head + b
    ensures a == b
  {
    assert (head + a)[|head|..] == a && (head + b)[|head|..] == b;
  }

  lemma CancelSuffix(a: string, b: string, tail: string)
    requires a + tail == b + tail
    ensures a == b
  {
    assert |a| == |b|;
    assert (a + tail)[..|a|] == a && (b + tail)[..|a|] == b;
  }

  lemma HashOfThree(prefix: string, a: string, b: string, c: string)
    ensures HashedId(prefix, [a, b, c]) == (prefix + (a + "\0")) + (b + ("\0" + c))
  {
    assert [a, b, c][1..] == [b, c] && [b, c][1..] == [c];
    assert JoinNul([b, c]) == b + "\0" + c;
    assert JoinNul([a, b, c]) == a + "\0" + (b + "\0" + c);
    assert prefix + (a + "\0" + (b + "\0" + c)) == (prefix + (a + "\0")) + (b + ("\0" + c));
  }

  lemma HashesDiffer(t: string, s: string, other: string, e: string)
    requires s != other
    ensures HashedId("c_", [t, s, e]) != HashedId("c_", [t, other, e])
  {
    HashOfThree("c_", t, s, e);
    HashOfThree("c_", t, other, e);
    if HashedId("c_", [t, s, e]) == HashedId("c_", [t, other, e]) {
      CancelPrefix("c_" + (t + "\0"), s + ("\0" + e), other + ("\0" + e));
      CancelSuffix(s, other, "\0" + e);
    }
  }

  lemma ShellSubjectHasNewline(cwd: string, command: string)
    ensures !NoNewline(ShellSubject(cwd, command))
  {
    assert ShellSubject(cwd, command)[|Trim(cwd)|] == '\n';
  }

  lemma RealityIsNotFrontier(e: Event)
    requires IsRun(e)
    ensures ReadRun(e).realityId != ReadRun(e).frontierId
  {
    ShellSubjectHasNewline(e.body.cwd, Collapse(Trim(e.body.command)));
    assert NoNewline(FRONTIER_SUBJECT);
    HashesDiffer(ReadRun(e).taskId, RunSubject(e), FRONTIER_SUBJECT, e.id);
  }

  lemma RecordStep(cs: seq<Claim>, r: Run)
    requires WellFormed(cs) && Fresh(r.realityId, cs)
    ensures WellFormed(RecordReality(cs, r))
    ensures Live(RecordReality(cs, r))
         == Keep(DropSlot(r.taskId, Reality, r.subject), Live(cs)) + [RealityClaim(r, None)]
  {
    RetireSlot(cs, r.taskId, Reality, r.subject, r.at);
    PushClaim(SupersedeSlot(cs, r.taskId, Reality, r.subject, r.at),
              RealityClaim(r, SlotHolder(cs, r.taskId, Reality, r.subject)));
  }

  lemma FrontierStep(cs: seq<Claim>, r: Run)
    requires WellFormed(cs) && Fresh(r.frontierId, cs)
    ensures WellFormed(EnsureFrontier(cs, r))
    ensures Live(EnsureFrontier(cs, r))
         == if AuthoredFrontier(Live(cs), r.taskId) then Live(cs)
            else Keep(DropSlot(r.taskId, NextAction, FRONTIER_SUBJECT), Live(cs)) + [FrontierClaim(r, None)]
  {
    AuthoredFrontierIsHolder(cs, r.taskId);
    RetireSlot(cs, r.taskId, NextAction, FRONTIER_SUBJECT, r.at);
    PushClaim(SupersedeSlot(cs, r.taskId, NextAction, FRONTIER_SUBJECT, r.at),
              FrontierClaim(r, SlotHolder(cs, r.taskId, NextAction, FRONTIER_SUBJECT)));
  }

  lemma DropFrontierStep(cs: seq<Claim>, r: Run)
    requires WellFormed(cs)
    ensures WellFormed(DropFrontier(cs, r))
    ensures Live(DropFrontier(cs, r))
         == if AuthoredFrontier(Live(cs), r.taskId) then Live(cs)
            else Keep(DropSlot(r.taskId, NextAction, FRONTIER_SUBJECT), Live(cs))
  {
    AuthoredFrontierIsHolder(cs, r.taskId);
    RetireSlot(cs, r.taskId, NextAction, FRONTIER_SUBJECT, r.at);
  }

  lemma RunStep(cs: seq<Claim>, r: Run)
    requires WellFormed(cs) && r.realityId != r.frontierId
    requires Fresh(r.realityId, cs) && Fresh(r.frontierId, cs)
    ensures WellFormed(StepRun(cs, r)) && Live(StepRun(cs, r)) == RunLive(Live(cs), r)
  {
    RecordStep(cs, r);
    if r.code != 0 {
      RecordKeepsFresh(cs, r, r.frontierId);
      FrontierStep(RecordReality(cs, r), r);
    } else {
      DropFrontierStep(RecordReality(cs, r), r);
      var kept := Keep(DropSlot(r.taskId, NextAction, FRONTIER_SUBJECT), Live(RecordReality(cs, r)));
      assert kept + [] == kept;
    }
  }

  lemma RecordKeepsFresh(cs: seq<Claim>, r: Run, id: string)
    requires WellFormed(cs) && Fresh(id, cs) && id != r.realityId
    ensures Fresh(id, RecordReality(cs, r))
  {
    RetireSlot(cs, r.taskId, Reality, r.subject, r.at);
  }

  lemma ClearStep(cs: seq<Claim>, ce: ClaimEvent, at: nat)
    requires ce.kind.Some? && WellFormed(cs)
    ensures var after := ClearSlot(cs, ce, at);
      && WellFormed(after) && |after| == |cs|
      && (forall i | 0 <= i < |cs| :: after[i].id == cs[i].id)
      && (UniqueSlot(ce.kind.value) ==> Clear(after, ce.taskId, ce.kind.value, SubjectOf(ce)))
      && Live(after) == if UniqueSlot(ce.kind.value)
                        then Keep(DropSlot(ce.taskId, ce.kind.value, SubjectOf(ce)), Live(cs)) else Live(cs)
  {
    if UniqueSlot(ce.kind.value) {
      RetireSlot(cs, ce.taskId, ce.kind.value, SubjectOf(ce), at);
    }
  }

  lemma NamedStep(cs: seq<Claim>, named: Option<string>, at: nat)
    requires WellFormed(cs)
    ensures var after := SupersedeNamed(cs, named, at);
      && WellFormed(after) && |after| == |cs|
      && (forall i | 0 <= i < |cs| :: after[i].id == cs[i].id)
      && (forall i | 0 <= i < |cs| && after[i].status == Current :: after[i] == cs[i])
      && Live(after) == if named.Some? then Keep(DropId(named.value), Live(cs)) else Live(cs)
  {
    if named.Some? {
      RetireById(cs, named.value, at);
    }
  }

  lemma AssertStep(cs: seq<Claim>, ce: ClaimEvent, e: Event)
    requires HasClaimBody(ce) && WellFormed(cs) && Fresh(ce.claimId, cs)
    ensures WellFormed(StepAssert(cs, ce, e))
    ensures Live(StepAssert(cs, ce, e)) == AssertLive(Live(cs), ce, e)
  {
    ClearStep(cs, ce, e.at);
    var cleared := ClearSlot(cs, ce, e.at);
    NamedStep(cleared, ce.supersedes, e.at);
    PushClaim(SupersedeNamed(cleared, ce.supersedes, e.at), AuthoredClaim(ce, e, SlotVictim(cs, ce)));
  }

  /** The projector step and the current-only step stay together on fresh ids. */
  lemma StepAgrees(cs: seq<Claim>, e: Event)
    requires WellFormed(cs) && FreshFor(e, cs)
    ensures WellFormed(StepClaims(cs, e)) && Live(StepClaims(cs, e)) == StepLive(Live(cs), e)
  {
    if IsRun(e) {
      RealityIsNotFrontier(e);
      RunStep(cs, ReadRun(e));
    } else if IsAuthored(e) && e.body.claim.value.op != CloseTask {
      var ce := e.body.claim.value;
      if ce.op == Supersede {
        RetireById(cs, SupersedeTarget(ce), e.at);
      }
      var retired := if ce.op == Supersede then SupersedeClaim(cs, SupersedeTarget(ce), e.at) else cs;
      if HasClaimBody(ce) {
        AssertStep(retired, ce, e);
      }
    }
  }
}
