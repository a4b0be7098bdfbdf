/** What the fold of a gated log says about each command: its current reality, its frontier,
    its run history, the trust order between authors, and the gate's view of "still failing". */
module FoldLaws {
  import opened Text
  import opened Claims
  import opened Projector
  import opened CurrentView
  import opened GatedLog

  // ---------- runs of one command ----------

  /** The newest run of a command. */
  function LastRun(log: seq<Event>, subject: string): Option<Run> {
    if log == [] then None
    else
      var e := log[|log| - 1];
      if IsRun(e) && RunSubject(e) == subject then Some(ReadRun(e)) else LastRun(log[..|log| - 1], subject)
  }

  /** Ids of a command's runs, newest first. */
  function RunHistory(log: seq<Event>, subject: string): seq<string> {
    if log == [] then []
    else
      var e, before := log[|log| - 1], RunHistory(log[..|log| - 1], subject);
      if IsRun(e) && RunSubject(e) == subject then [e.id] + before else before
  }

  lemma {:induction false} LastRunIsRow(log: seq<Event>, subject: string)
    ensures LastRun(log, subject).Some? ==>
      exists e :: e in log && IsRun(e) && ReadRun(e) == LastRun(log, subject).value && RunSubject(e) == subject
    ensures LastRun(log, subject).None? ==> RunHistory(log, subject) == []
    ensures LastRun(log, subject).Some? ==> LastRun(log, subject).value.subject == subject
  {
    if log != [] {
      var e, init := log[|log| - 1], log[..|log| - 1];
      LastRunIsRow(init, subject);
      if IsRun(e) && RunSubject(e) == subject {
        assert e in log;
      } else if LastRun(init, subject).Some? {
        var k :| k in init && IsRun(k) && ReadRun(k) == LastRun(init, subject).value && RunSubject(k) == subject;
        assert k in log;
      }
    }
  }

  lemma TaskIdInjective(a: string, b: string)
    ensures TaskIdFor(a) == TaskIdFor(b) ==> a == b
  {
    assert JoinNul([a]) == a && JoinNul([b]) == b;
    if TaskIdFor(a) == TaskIdFor(b) {
      CancelPrefix("t_", a, b);
    }
  }

  lemma RunSubjectHasNewline(e: Event)
    requires IsRun(e)
    ensures !NoNewline(RunSubject(e))
  {
    ShellSubjectHasNewline(e.body.cwd, Collapse(Trim(e.body.command)));
  }

  // ---------- membership in the history-free fold ----------

  lemma RunLiveMembers(live: seq<Claim>, r: Run, c: Claim)
    ensures c in RunLive(live, r) <==>
      || c == RealityClaim(r, None)
      || (r.code != 0 && !AuthoredFrontier(live, r.taskId) && c == FrontierClaim(r, None))
      || (c in live && !Hits(DropSlot(r.taskId, Reality, r.subject), c)
          && (AuthoredFrontier(live, r.taskId) || !Hits(DropSlot(r.taskId, NextAction, FRONTIER_SUBJECT), c)))
  {
    var slot := DropSlot(r.taskId, Reality, r.subject);
    var l := Keep(slot, live) + [RealityClaim(r, None)];
    KeepMembers(slot, live);
    assert AuthoredFrontier(l, r.taskId) == AuthoredFrontier(live, r.taskId) by {
      if AuthoredFrontier(live, r.taskId) {
        var f :| f in live && Hits(DropSlot(r.taskId, NextAction, FRONTIER_SUBJECT), f) && f.origin != Projector;
        assert f in l;
      }
    }
    KeepMembers(DropSlot(r.taskId, NextAction, FRONTIER_SUBJECT), l);
  }

  /** An authored row keeps a claim unless it names it or takes its slot. */
  predicate Spares(ce: ClaimEvent, e: Event, c: Claim)
    requires IsAuthored(e) && e.body.claim.value == ce
  {
    c.id !in Targets(e)
    && !(Asserts(ce) && UniqueSlot(ce.kind.value) && Hits(DropSlot(ce.taskId, ce.kind.value, SubjectOf(ce)), c))
  }

  lemma AuthoredLiveMembers(live: seq<Claim>, ce: ClaimEvent, e: Event, c: Claim)
    requires IsAuthored(e) && e.body.claim.value == ce && ce.op != CloseTask
    ensures c in AuthoredLive(live, ce, e) <==>
      || (Asserts(ce) && c == Bare(AuthoredClaim(ce, e, None)))
      || (c in live && Spares(ce, e, c))
  {
    KeepMembers(DropId(SupersedeTarget(ce)), live);
    var l := if ce.op == Supersede then Keep(DropId(SupersedeTarget(ce)), live) else live;
    if HasClaimBody(ce) {
      var slot := DropSlot(ce.taskId, ce.kind.value, SubjectOf(ce));
      KeepMembers(slot, l);
      var k := if UniqueSlot(ce.kind.value) then Keep(slot, l) else l;
      if ce.supersedes.Some? {
        KeepMembers(DropId(ce.supersedes.value), k);
      }
    }
  }

  lemma LiveOneHolder(log: seq<Event>, a: Claim, b: Claim)
    requires Gated(log) && a in CurrentClaims(log) && b in CurrentClaims(log) && SameSlot(a, b)
    ensures a == b
  {
    hide Fold, Gated, CurrentClaims;
    GatedFold(log);
    OneInSlot(Fold(log).claims, a, b);
  }

  lemma OneInSlot(cs: seq<Claim>, a: Claim, b: Claim)
    requires OneHolder(cs) && a in Live(cs) && b in Live(cs) && SameSlot(a, b)
    ensures a == b
  {
    LiveMembers(cs);
    var i :| 0 <= i < |cs| && cs[i].status == Current && a == Bare(cs[i]);
    var j :| 0 <= j < |cs| && cs[j].status == Current && b == Bare(cs[j]);
    assert SameSlot(cs[i], cs[j]) && SameSlot(cs[j], cs[i]);
  }

  // ---------- the current reality of a command is its newest run ----------

  lemma {:induction false} LastRunIsCurrent(log: seq<Event>, subject: string)
    requires Gated(log) && LastRun(log, subject).Some?
    ensures RealityClaim(LastRun(log, subject).value, None) in CurrentClaims(log)
  {
    hide RunLive, AuthoredLive, StepLive, Gated, RealityClaim, ReadRun, RunSubject;
    var init, e := log[..|log| - 1], log[|log| - 1];
    LastRunOf(log, subject);
    LiveOf(log);
    if IsRun(e) && RunSubject(e) == subject {
      RunIsLive(CurrentClaims(init), e);
    } else {
      GatedPrefix(log);
      LastRunIsCurrent(init, subject);
      RealityOutlives(log, subject);
    }
  }

  lemma LastRunOf(log: seq<Event>, subject: string)
    requires log != []
    ensures var e := log[|log| - 1];
      LastRun(log, subject) == if IsRun(e) && RunSubject(e) == subject then Some(ReadRun(e)) else LastRun(log[..|log| - 1], subject)
  {
  }

  lemma LiveOf(log: seq<Event>)
    requires log != []
    ensures CurrentClaims(log) == StepLive(CurrentClaims(log[..|log| - 1]), log[|log| - 1])
  {
  }

  lemma RunIsLive(live: seq<Claim>, e: Event)
    requires IsRun(e)
    ensures RealityClaim(ReadRun(e), None) in StepLive(live, e)
  {
    RunLiveMembers(live, ReadRun(e), RealityClaim(ReadRun(e), None));
  }

  /** A row that is no run of the command leaves its reality alone. */
  lemma RealityOutlives(log: seq<Event>, subject: string)
    requires Gated(log) && log != [] && LastRun(log[..|log| - 1], subject).Some?
    requires !(IsRun(log[|log| - 1]) && RunSubject(log[|log| - 1]) == subject)
    requires RealityClaim(LastRun(log[..|log| - 1], subject).value, None) in CurrentClaims(log[..|log| - 1])
    ensures RealityClaim(LastRun(log[..|log| - 1], subject).value, None) in StepLive(CurrentClaims(log[..|log| - 1]), log[|log| - 1])
  {
    hide Gated, StepLive, CurrentClaims, LastRun, RealityClaim, ReadRun;
    var init, e := log[..|log| - 1], log[|log| - 1];
    var live, r := CurrentClaims(init), LastRun(init, subject).value;
    LastRunIsRow(init, subject);
    var k :| k in init && IsRun(k) && ReadRun(k) == r && RunSubject(k) == subject;
    if IsRun(e) {
      OtherRunSpares(live, e, k);
    } else {
      GatedPair(log, e, k);
      AuthoredSpares(live, e, k);
    }
  }

  lemma OtherRunSpares(live: seq<Claim>, e: Event, k: Event)
    requires IsRun(e) && IsRun(k) && RunSubject(e) != RunSubject(k) && RealityClaim(ReadRun(k), None) in live
    ensures RealityClaim(ReadRun(k), None) in StepLive(live, e)
  {
    hide RunLive;
    RunLiveMembers(live, ReadRun(e), RealityClaim(ReadRun(k), None));
  }

  lemma AuthoredSpares(live: seq<Claim>, e: Event, k: Event)
    requires !IsRun(e) && IsRun(k) && RowOk(e) && Compatible(e, k) && RealityClaim(ReadRun(k), None) in live
    ensures RealityClaim(ReadRun(k), None) in StepLive(live, e)
  {
    if IsAuthored(e) && e.body.claim.value.op != CloseTask {
      hide AuthoredLive, RealityClaim, ReadRun, RowOk, Compatible;
      SparesReality(e, k);
      AuthoredLiveMembers(live, e.body.claim.value, e, RealityClaim(ReadRun(k), None));
    }
  }

  lemma GatedPair(log: seq<Event>, e: Event, k: Event)
    requires Gated(log) && e in log && k in log
    ensures RowOk(e) && RowOk(k) && Compatible(e, k)
  {
  }

  lemma SparesReality(e: Event, k: Event)
    requires IsAuthored(e) && RowOk(e) && IsRun(k) && Compatible(e, k) && e.body.claim.value.op != CloseTask
    ensures Spares(e.body.claim.value, e, RealityClaim(ReadRun(k), None))
  {
    RunSubjectHasNewline(k);
  }

  lemma {:induction false} CurrentIsLastRun(log: seq<Event>, c: Claim)
    requires Gated(log) && c in CurrentClaims(log) && c.origin == Projector && c.kind == Reality
    ensures LastRun(log, c.subject).Some? && c == RealityClaim(LastRun(log, c.subject).value, None)
  {
    var init, e := log[..|log| - 1], log[|log| - 1];
    var live := CurrentClaims(init);
    GatedPrefix(log);
    CurrentOk(init);
    if IsRun(e) {
      RunLiveMembers(live, ReadRun(e), c);
      if c in live {
        CurrentIsLastRun(init, c);
      }
    } else {
      if IsAuthored(e) && e.body.claim.value.op != CloseTask {
        AuthoredLiveMembers(live, e.body.claim.value, e, c);
        assert RowOk(e);
      }
      CurrentIsLastRun(init, c);
    }
  }

  // ---------- the projector's next action ----------

  /** `c` is the next action the newest run of `subject` left behind. */
  predicate FrontierOf(log: seq<Event>, subject: string, c: Claim) {
    var r := LastRun(log, subject);
    r.Some? && r.value.code != 0 && r.value.taskId == TaskIdFor(subject) && c == FrontierClaim(r.value, None)
  }

  /** A current projector next action was left by the newest run of its command, which failed. */
  lemma {:induction false} FrontierIsLastFailure(log: seq<Event>, c: Claim)
    requires Gated(log) && c in CurrentClaims(log) && c.origin == Projector && c.kind == NextAction
    ensures exists subject :: FrontierOf(log, subject, c)
  {
    var init, e := log[..|log| - 1], log[|log| - 1];
    var live := CurrentClaims(init);
    GatedPrefix(log);
    CurrentOk(init);
    if IsRun(e) {
      var r := ReadRun(e);
      RunLiveMembers(live, r, c);
      if c != FrontierClaim(r, None) || r.code == 0 {
        FrontierIsLastFailure(init, c);
        var subject :| FrontierOf(init, subject, c);
        if subject == r.subject {
          var f :| f in live && Hits(DropSlot(r.taskId, NextAction, FRONTIER_SUBJECT), f) && f.origin != Projector;
          LiveOneHolder(init, c, f);
        } else {
          assert FrontierOf(log, subject, c);
        }
      } else {
        assert FrontierOf(log, r.subject, c);
      }
    } else {
      if IsAuthored(e) && e.body.claim.value.op != CloseTask {
        AuthoredLiveMembers(live, e.body.claim.value, e, c);
        assert RowOk(e);
      }
      FrontierIsLastFailure(init, c);
      var subject :| FrontierOf(init, subject, c);
      assert FrontierOf(log, subject, c);
    }
  }

  /** With no authored rows, every failing command has its next action, and only those do. */
  lemma {:induction false} ShellOnlyFrontier(log: seq<Event>, subject: string)
    requires Gated(log) && (forall e | e in log :: !IsAuthored(e)) && LastRun(log, subject).Some?
    ensures FrontierClaim(LastRun(log, subject).value, None) in CurrentClaims(log)
            <==> LastRun(log, subject).value.code != 0
    ensures forall c | c in CurrentClaims(log) :: c.origin == Projector
  {
    var r := LastRun(log, subject).value;
    ShellOnlyOrigins(log);
    LastRunIsRow(log, subject);
    if FrontierClaim(r, None) in CurrentClaims(log) {
      FrontierIsLastFailure(log, FrontierClaim(r, None));
      var s :| FrontierOf(log, s, FrontierClaim(r, None));
      TaskIdInjective(s, subject);
    } else if r.code != 0 {
      ShellOnlyFrontierKept(log, subject);
    }
  }

  lemma {:induction false} ShellOnlyOrigins(log: seq<Event>)
    requires forall e | e in log :: !IsAuthored(e)
    ensures forall c | c in CurrentClaims(log) :: c.origin == Projector
  {
    if log != [] {
      var init, e := log[..|log| - 1], log[|log| - 1];
      ShellOnlyOrigins(init);
      assert e in log;
      if IsRun(e) {
        forall c | c in CurrentClaims(log)
          ensures c.origin == Projector
        {
          RunLiveMembers(CurrentClaims(init), ReadRun(e), c);
        }
      }
    }
  }

  lemma {:induction false} ShellOnlyFrontierKept(log: seq<Event>, subject: string)
    requires forall e | e in log :: !IsAuthored(e)
    requires LastRun(log, subject).Some? && LastRun(log, subject).value.code != 0
    ensures FrontierClaim(LastRun(log, subject).value, None) in CurrentClaims(log)
  {
    var init, e := log[..|log| - 1], log[|log| - 1];
    var c := FrontierClaim(LastRun(log, subject).value, None);
    LastRunIsRow(log, subject);
    assert e in log;
    ShellOnlyOrigins(init);
    if IsRun(e) {
      RunLiveMembers(CurrentClaims(init), ReadRun(e), c);
      TaskIdInjective(RunSubject(e), subject);
    }
    if !IsRun(e) || RunSubject(e) != subject {
      ShellOnlyFrontierKept(init, subject);
    }
  }

  // ---------- the supersession chain is the run history ----------

  /** Rows reached by following `supersedes`. A link is looked up among the claims pushed
      before its owner, which is where the first match of an id lies. */
  function ChainFrom(cs: seq<Claim>, id: string): seq<string>
    decreases |cs|
  {
    var i := ClaimIndex(cs, id);
    if i == |cs| then []
    else
      [cs[i].assertedBy]
      + if cs[i].supersedes.Some? then ChainFrom(cs[..i], cs[i].supersedes.value) else []
  }

  /** `b` is `a` at a later row: only its status and update time may differ, and a
      superseded claim stays superseded. */
  predicate Aged(a: Claim, b: Claim) {
    b == a.(status := b.status, updatedAt := b.updatedAt) && (a.status == Superseded ==> b.status == Superseded)
  }

  predicate Extends(cs: seq<Claim>, after: seq<Claim>) {
    |cs| <= |after| && forall i | 0 <= i < |cs| :: Aged(cs[i], after[i])
  }

  lemma {:induction false} ChainStable(cs: seq<Claim>, after: seq<Claim>, id: string)
    requires Extends(cs, after) && (ClaimIndex(cs, id) < |cs| || |after| == |cs|)
    ensures ChainFrom(after, id) == ChainFrom(cs, id)
    decreases |cs|
  {
    var i, j := ClaimIndex(cs, id), ClaimIndex(after, id);
    if i < |cs| {
      assert Aged(cs[i], after[i]);
      assert forall k | 0 <= k < i :: Aged(cs[k], after[k]);
      assert j == i;
      if cs[i].supersedes.Some? {
        ChainStable(cs[..i], after[..i], cs[i].supersedes.value);
      }
    } else {
      assert forall k | 0 <= k < |cs| :: Aged(cs[k], after[k]);
      assert j == |after|;
    }
  }

  lemma RecordLinks(cs: seq<Claim>, r: Run)
    ensures var recorded := RecordReality(cs, r);
      && |recorded| == |cs| + 1 && Extends(cs, recorded)
      && recorded[|cs|] == RealityClaim(r, SlotHolder(cs, r.taskId, Reality, r.subject))
  {
  }

  lemma SettleLinks(cs: seq<Claim>, r: Run)
    ensures |RecordReality(cs, r)| <= |StepRun(cs, r)| && Extends(RecordReality(cs, r), StepRun(cs, r))
  {
    hide RecordReality;
  }

  lemma RunLinks(cs: seq<Claim>, r: Run)
    ensures var after := StepRun(cs, r);
      && |cs| < |after| && Extends(cs, after)
      && Aged(RealityClaim(r, SlotHolder(cs, r.taskId, Reality, r.subject)), after[|cs|])
  {
    hide StepRun, RecordReality;
    var recorded := RecordReality(cs, r);
    RecordLinks(cs, r);
    SettleLinks(cs, r);
    assert Aged(recorded[|cs|], StepRun(cs, r)[|cs|]);
    forall i | 0 <= i < |cs|
      ensures Aged(cs[i], StepRun(cs, r)[i])
    {
      assert Aged(cs[i], recorded[i]) && Aged(recorded[i], StepRun(cs, r)[i]);
    }
  }

  lemma AuthoredLinks(cs: seq<Claim>, ce: ClaimEvent, e: Event)
    ensures Extends(cs, StepAuthored(cs, ce, e))
  {
    hide SupersedeClaim, ClearSlot, SupersedeNamed, Aged, AuthoredClaim;
    var retired := if ce.op == Supersede then SupersedeClaim(cs, SupersedeTarget(ce), e.at) else cs;
    ExtendsItself(cs);
    SupersedeExtends(cs, SupersedeTarget(ce), e.at);
    assert Extends(cs, retired);
    if ce.op != CloseTask && HasClaimBody(ce) {
      var cleared := ClearSlot(retired, ce, e.at);
      ClearExtends(retired, ce, e.at);
      var named := SupersedeNamed(cleared, ce.supersedes, e.at);
      NamedExtends(cleared, ce.supersedes, e.at);
      ExtendsTransitive(cs, retired, cleared);
      ExtendsTransitive(cs, cleared, named);
    }
  }

  lemma ExtendsItself(cs: seq<Claim>)
    ensures Extends(cs, cs)
  {
  }

  lemma ExtendsTransitive(a: seq<Claim>, b: seq<Claim>, c: seq<Claim>)
    requires Extends(a, b) && Extends(b, c)
    ensures Extends(a, c)
  {
    forall i | 0 <= i < |a|
      ensures Aged(a[i], c[i])
    {
      assert Aged(a[i], b[i]) && Aged(b[i], c[i]);
    }
  }

  lemma SupersedeExtends(cs: seq<Claim>, id: string, at: nat)
    ensures Extends(cs, SupersedeClaim(cs, id, at))
  {
  }

  lemma ClearExtends(cs: seq<Claim>, ce: ClaimEvent, at: nat)
    requires ce.kind.Some?
    ensures Extends(cs, ClearSlot(cs, ce, at))
  {
  }

  lemma NamedExtends(cs: seq<Claim>, named: Option<string>, at: nat)
    ensures Extends(cs, SupersedeNamed(cs, named, at))
  {
  }

  /** No row rewrites a claim or brings a superseded one back. */
  lemma {:induction false} ClaimsOnlyAge(log: seq<Event>, n: nat)
    requires n <= |log|
    ensures Extends(Fold(log[..n]).claims, Fold(log).claims)
    decreases |log|
  {
    if n < |log| {
      var init, e := log[..|log| - 1], log[|log| - 1];
      assert init[..n] == log[..n];
      ClaimsOnlyAge(init, n);
      var past, cs, after := Fold(log[..n]).claims, Fold(init).claims, Fold(log).claims;
      if IsRun(e) {
        RunLinks(cs, ReadRun(e));
      } else if IsAuthored(e) {
        AuthoredLinks(cs, e.body.claim.value, e);
      }
      forall i | 0 <= i < |past|
        ensures Aged(past[i], after[i])
      {
        assert Aged(past[i], cs[i]) && Aged(cs[i], after[i]);
      }
    } else {
      assert log[..n] == log;
    }
  }

  /** The reality slot of a command is held by its newest run, or by nobody. */
  lemma RealityHolder(log: seq<Event>, subject: string)
    requires Gated(log) && !NoNewline(subject)
    ensures SlotHolder(Fold(log).claims, TaskIdFor(subject), Reality, subject)
         == if LastRun(log, subject).Some? then Some(LastRun(log, subject).value.realityId) else None
  {
    GatedFold(log);
    CurrentOk(log);
    var cs := Fold(log).claims;
    LiveMembers(cs);
    LastRunIsRow(log, subject);
    var i := SlotIndex(cs, TaskIdFor(subject), Reality, subject);
    if i < |cs| {
      assert Bare(cs[i]) in CurrentClaims(log);
      CurrentIsLastRun(log, Bare(cs[i]));
    } else if LastRun(log, subject).Some? {
      LastRunIsCurrent(log, subject);
    }
  }

  /** Following `supersedes` from a command's current reality lists exactly its runs,
      newest first. */
  lemma {:induction false} ChainIsRunHistory(log: seq<Event>, subject: string)
    requires Gated(log) && LastRun(log, subject).Some?
    ensures ChainFrom(Fold(log).claims, LastRun(log, subject).value.realityId) == RunHistory(log, subject)
    ensures ClaimIndex(Fold(log).claims, LastRun(log, subject).value.realityId) < |Fold(log).claims|
  {
    var init, e := log[..|log| - 1], log[|log| - 1];
    GatedPrefix(log);
    if LastRun(init, subject).Some? {
      ChainIsRunHistory(init, subject);
    }
    if IsRun(e) && RunSubject(e) == subject {
      ChainGrows(log, subject);
    } else {
      ChainCarries(log, subject);
    }
  }

  lemma StepOfRun(log: seq<Event>)
    requires log != [] && IsRun(log[|log| - 1])
    ensures Fold(log).claims == StepRun(Fold(log[..|log| - 1]).claims, ReadRun(log[|log| - 1]))
  {
  }

  lemma ChainHead(cs: seq<Claim>, n: nat, id: string)
    requires n < |cs| && ClaimIndex(cs, id) == n
    ensures ChainFrom(cs, id)
         == [cs[n].assertedBy] + if cs[n].supersedes.Some? then ChainFrom(cs[..n], cs[n].supersedes.value) else []
  {
  }

  lemma ChainGrows(log: seq<Event>, subject: string)
    requires Gated(log) && log != []
    requires var e := log[|log| - 1]; IsRun(e) && RunSubject(e) == subject
    requires var init := log[..|log| - 1]; LastRun(init, subject).Some? ==>
      && ClaimIndex(Fold(init).claims, LastRun(init, subject).value.realityId) < |Fold(init).claims|
      && ChainFrom(Fold(init).claims, LastRun(init, subject).value.realityId) == RunHistory(init, subject)
    ensures ChainFrom(Fold(log).claims, LastRun(log, subject).value.realityId) == RunHistory(log, subject)
    ensures ClaimIndex(Fold(log).claims, LastRun(log, subject).value.realityId) < |Fold(log).claims|
  {
    var init, e := log[..|log| - 1], log[|log| - 1];
    var cs, r := Fold(init).claims, ReadRun(e);
    var after := StepRun(cs, r);
    hide StepRun, Gated, ChainFrom, Fold, SlotHolder;
    StepOfRun(log);
    GatedPrefix(log);
    RunLinks(cs, r);
    FreshIndex(log, after);
    RunSubjectHasNewline(e);
    RealityHolder(init, subject);
    LastRunIsRow(init, subject);
    ChainHead(after, |cs|, r.realityId);
    if LastRun(init, subject).Some? {
      ChainStable(cs, after[..|cs|], LastRun(init, subject).value.realityId);
    }
  }

  lemma ChainCarries(log: seq<Event>, subject: string)
    requires log != []
    requires var init, e := log[..|log| - 1], log[|log| - 1];
      && !(IsRun(e) && RunSubject(e) == subject) && LastRun(init, subject).Some?
      && ClaimIndex(Fold(init).claims, LastRun(init, subject).value.realityId) < |Fold(init).claims|
      && ChainFrom(Fold(init).claims, LastRun(init, subject).value.realityId) == RunHistory(init, subject)
    ensures ChainFrom(Fold(log).claims, LastRun(log, subject).value.realityId) == RunHistory(log, subject)
    ensures ClaimIndex(Fold(log).claims, LastRun(log, subject).value.realityId) < |Fold(log).claims|
  {
    var init, e := log[..|log| - 1], log[|log| - 1];
    var cs, after := Fold(init).claims, Fold(log).claims;
    assert Extends(cs, after) by {
      if IsRun(e) {
        RunLinks(cs, ReadRun(e));
      } else if IsAuthored(e) {
        AuthoredLinks(cs, e.body.claim.value, e);
      }
    }
    var id := LastRun(init, subject).value.realityId;
    ChainStable(cs, after, id);
    assert Aged(cs[ClaimIndex(cs, id)], after[ClaimIndex(cs, id)]);
  }

  lemma FreshIndex(log: seq<Event>, after: seq<Claim>)
    requires Gated(log) && log != [] && IsRun(log[|log| - 1])
    requires after == StepRun(Fold(log[..|log| - 1]).claims, ReadRun(log[|log| - 1]))
    ensures ClaimIndex(after, ReadRun(log[|log| - 1]).realityId) == |Fold(log[..|log| - 1]).claims|
  {
    var init, e := log[..|log| - 1], log[|log| - 1];
    var cs := Fold(init).claims;
    GatedPrefix(log);
    GatedFold(init);
    GatedFold(log);
    NextIsFresh(log, cs);
    RunLinks(cs, ReadRun(e));
    assert forall k | 0 <= k < |cs| :: Aged(cs[k], after[k]);
  }
}
