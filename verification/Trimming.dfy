/** Cutting a briefing to its token budget: a greedy loop over fixed, protected fields. */
module Trimming {
  import opened Claims
  import opened Ordering
  import opened Briefing

  datatype Packet = Packet(
    sessionId: Option<string>, constraints: seq<Rendered>, passedChecks: seq<PassedCheck>,
    openWork: seq<TaskView>, focal: Option<TaskView>, others: seq<TaskLine>, truncated: bool, estimated: nat)

  // ---------- one cut, on values ----------

  function Front<T>(xs: seq<T>): seq<T>
    requires xs != []
  {
    xs[..|xs| - 1]
  }

  function CutTask(t: TaskView): Option<TaskView> {
    if t.artifacts != [] then Some(t.(artifacts := Front(t.artifacts)))
    else if t.unknowns != [] then Some(t.(unknowns := Front(t.unknowns)))
    else if |t.decisions| > 1 then Some(t.(decisions := Front(t.decisions)))
    else None
  }

  /** Cut the last open task that has anything left to cut. */
  function CutWork(ws: seq<TaskView>): Option<seq<TaskView>> {
    if ws == [] then None
    else match CutTask(ws[|ws| - 1])
      case Some(t) => Some(Front(ws) + [t])
      case None =>
        match CutWork(Front(ws))
        case Some(rest) => Some(rest + [ws[|ws| - 1]])
        case None => None
  }

  function CutOnce(p: Packet): Option<Packet> {
    var q := p.(truncated := true);
    if p.focal.Some? && CutTask(p.focal.value).Some? then Some(q.(focal := CutTask(p.focal.value)))
    else if CutWork(p.openWork).Some? then Some(q.(openWork := CutWork(p.openWork).value))
    else if p.others != [] then Some(q.(others := Front(p.others)))
    else None
  }

  /** The packet after `n` cuts, if there were that many. */
  function Cut(p: Packet, n: nat): Option<Packet> {
    if n == 0 then Some(p)
    else if Cut(p, n - 1).None? then None
    else CutOnce(Cut(p, n - 1).value)
  }

  /** The packet goes out with this cost noted. */
  function Noted(p: Packet, cost: Packet -> nat): Packet {
    p.(estimated := cost(p))
  }

  predicate AllOver(p: Packet, cost: Packet -> nat, budget: nat, n: nat) {
    forall k | 0 <= k < n :: Cut(p, k).Some? && cost(Cut(p, k).value) > budget
  }

  /** `q` is what the loop makes of `p`: the first state in the fixed order that fits, or the
      last one when none does. */
  predicate TrimmedAt(p: Packet, q: Packet, cost: Packet -> nat, budget: nat, n: nat) {
    && Cut(p, n).Some?
    && AllOver(p, cost, budget, n)
    && var s := Cut(p, n).value;
    if cost(s) <= budget then q == Noted(s, cost)
    else Cut(p, n + 1).None? && q == Noted(s.(truncated := true), cost)
  }

  // ---------- the loop ----------

  function TaskSize(t: TaskView): nat {
    |t.artifacts| + |t.unknowns| + |t.decisions|
  }

  function WorkSize(ws: seq<TaskView>): nat {
    if ws == [] then 0 else WorkSize(Front(ws)) + TaskSize(ws[|ws| - 1])
  }

  function Size(p: Packet): nat {
    (if p.focal.Some? then TaskSize(p.focal.value) else 0) + WorkSize(p.openWork) + |p.others|
  }

  lemma {:induction false} CutWorkShrinks(ws: seq<TaskView>)
    requires CutWork(ws).Some?
    ensures |CutWork(ws).value| == |ws| && WorkSize(CutWork(ws).value) + 1 == WorkSize(ws)
  {
    var init, last := Front(ws), ws[|ws| - 1];
    if CutTask(last).Some? {
      assert Front(init + [CutTask(last).value]) == init;
    } else {
      CutWorkShrinks(init);
      assert Front(CutWork(init).value + [last]) == CutWork(init).value;
    }
  }

  lemma {:induction false} CutsNothing(ws: seq<TaskView>)
    requires forall j | 0 <= j < |ws| :: CutTask(ws[j]).None?
    ensures CutWork(ws).None?
  {
    if ws != [] {
      CutsNothing(Front(ws));
    }
  }

  lemma {:induction false} CutsLast(ws: seq<TaskView>, i: nat)
    requires i < |ws| && CutTask(ws[i]).Some? && forall j | i < j < |ws| :: CutTask(ws[j]).None?
    ensures CutWork(ws) == Some(ws[i := CutTask(ws[i]).value])
  {
    if i < |ws| - 1 {
      CutsLast(Front(ws), i);
      assert Front(ws)[i := CutTask(ws[i]).value] + [ws[|ws| - 1]] == ws[i := CutTask(ws[i]).value];
    } else {
      assert Front(ws) + [CutTask(ws[i]).value] == ws[i := CutTask(ws[i]).value];
    }
  }

  lemma CutShrinks(p: Packet)
    requires CutOnce(p).Some?
    ensures Size(CutOnce(p).value) + 1 == Size(p)
  {
    if CutWork(p.openWork).Some? {
      CutWorkShrinks(p.openWork);
    }
  }

  /** The snapshot under construction. */
  class Snapshot {
    var sessionId: Option<string>
    var constraints: seq<Rendered>
    var passedChecks: seq<PassedCheck>
    var openWork: seq<TaskView>
    var focal: Option<TaskView>
    var others: seq<TaskLine>
    var truncated: bool
    var estimated: nat

    function Value(): Packet
      reads this
    {
      Packet(sessionId, constraints, passedChecks, openWork, focal, others, truncated, estimated)
    }

    constructor (p: Packet)
      ensures Value() == p
    {
      sessionId, constraints, passedChecks := p.sessionId, p.constraints, p.passedChecks;
      openWork, focal, others := p.openWork, p.focal, p.others;
      truncated, estimated := p.truncated, p.estimated;
    }

    method TrimFocal() returns (cut: bool)
      modifies this`focal
      ensures cut <==> old(focal).Some? && CutTask(old(focal).value).Some?
      ensures focal == if cut then CutTask(old(focal).value) else old(focal)
    {
      if focal.None? { return false; }
      var t := TrimTask(focal.value);
      cut := t.Some?;
      if cut { focal := t; }
    }

    method TrimOpenWork() returns (cut: bool)
      modifies this`openWork
      ensures cut <==> CutWork(old(openWork)).Some?
      ensures openWork == if cut then CutWork(old(openWork)).value else old(openWork)
    {
      for i := |openWork| downto 0
        invariant i <= |openWork| && openWork == old(openWork)
        invariant forall j | i <= j < |openWork| :: CutTask(openWork[j]).None?
      {
        var t := TrimTask(openWork[i]);
        if t.Some? {
          CutsLast(openWork, i);
          openWork := openWork[i := t.value];
          return true;
        }
      }
      CutsNothing(openWork);
      return false;
    }

    /** The first thing there is to cut: focal task, open work, other tasks. */
    method TrimNext() returns (cut: bool)
      modifies this
      ensures cut <==> CutOnce(old(Value())).Some?
      ensures Value() == if cut then CutOnce(old(Value())).value else old(Value()).(truncated := true)
    {
      truncated := true;
      cut := TrimFocal();
      if cut { return; }
      cut := TrimOpenWork();
      if cut { return; }
      if others != [] {
        others := others[..|others| - 1];
        return true;
      }
      return false;
    }

    /** Cut until the packet fits or nothing is left to cut. */
    method TrimToBudget(cost: Packet -> nat, budget: nat) returns (ghost cuts: nat)
      modifies this
      ensures TrimmedAt(old(Value()), Value(), cost, budget, cuts)
    {
      cuts := 0;
      ghost var start := Value();
      while true
        invariant Cut(start, cuts) == Some(Value()) && AllOver(start, cost, budget, cuts)
        decreases Size(Value())
      {
        ghost var before := Value();
        var now := cost(Value());
        if now <= budget {
          estimated := now;
          return;
        }
        var cut := TrimNext();
        if !cut {
          Stuck(start, before, cost, budget, cuts);
          estimated := cost(Value());
          return;
        }
        OneMore(start, before, cost, budget, cuts);
        cuts := cuts + 1;
      }
    }
  }

  lemma OneMore(start: Packet, before: Packet, cost: Packet -> nat, budget: nat, n: nat)
    requires Cut(start, n) == Some(before) && AllOver(start, cost, budget, n)
    requires cost(before) > budget && CutOnce(before).Some?
    ensures Cut(start, n + 1) == CutOnce(before) && AllOver(start, cost, budget, n + 1)
    ensures Size(CutOnce(before).value) < Size(before)
  {
    CutShrinks(before);
  }

  lemma Stuck(start: Packet, before: Packet, cost: Packet -> nat, budget: nat, n: nat)
    requires Cut(start, n) == Some(before) && AllOver(start, cost, budget, n)
    requires cost(before) > budget && CutOnce(before).None?
    ensures TrimmedAt(start, Noted(before.(truncated := true), cost), cost, budget, n)
  {
  }

  method TrimTask(task: TaskView) returns (cut: Option<TaskView>)
    ensures cut == CutTask(task)
  {
    if task.artifacts != [] {
      return Some(task.(artifacts := task.artifacts[..|task.artifacts| - 1]));
    }
    if task.unknowns != [] {
      return Some(task.(unknowns := task.unknowns[..|task.unknowns| - 1]));
    }
    if |task.decisions| > 1 {
      return Some(task.(decisions := task.decisions[..|task.decisions| - 1]));
    }
    return None;
  }

  // ---------- what cutting keeps ----------

  /** Three lists may lose their tails, unknowns only after the artifacts are gone and
      decisions only after the unknowns; the first decision and everything else stays. */
  predicate TaskKept(a: TaskView, b: TaskView) {
    && b == a.(artifacts := b.artifacts, unknowns := b.unknowns, decisions := b.decisions)
    && b.artifacts <= a.artifacts && b.unknowns <= a.unknowns && b.decisions <= a.decisions
    && (a.decisions != [] ==> b.decisions != [])
    && (b.unknowns != a.unknowns ==> b.artifacts == [])
    && (b.decisions != a.decisions ==> b.artifacts == [] && b.unknowns == [])
  }

  predicate Bare(t: TaskView) {
    t.artifacts == [] && t.unknowns == [] && |t.decisions| <= 1
  }

  predicate AllBare(ws: seq<TaskView>) {
    forall i | 0 <= i < |ws| :: Bare(ws[i])
  }

  /** Open tasks keep their order; one is only cut when all later ones are bare. */
  predicate WorkKept(a: seq<TaskView>, b: seq<TaskView>) {
    && |a| == |b| && (forall i | 0 <= i < |a| :: TaskKept(a[i], b[i]))
    && forall i, j | 0 <= i < j < |a| && b[i] != a[i] :: Bare(b[j])
  }

  predicate FocalKept(a: Option<TaskView>, b: Option<TaskView>) {
    (a.None? <==> b.None?) && (a.Some? ==> TaskKept(a.value, b.value))
  }

  predicate FocalBare(p: Packet) {
    p.focal.Some? ==> Bare(p.focal.value)
  }

  /** Constraints, passed checks and the protected fields of every task stay; the focal task is
      cut first, then open work, then the other tasks from the end. */
  predicate Kept(p: Packet, q: Packet) {
    && q.sessionId == p.sessionId && q.constraints == p.constraints && q.passedChecks == p.passedChecks
    && FocalKept(p.focal, q.focal) && WorkKept(p.openWork, q.openWork) && q.others <= p.others
    && (q.openWork != p.openWork ==> FocalBare(q))
    && (q.others != p.others ==> FocalBare(q) && AllBare(q.openWork))
  }

  lemma CutTaskKeeps(a: TaskView, b: TaskView)
    requires TaskKept(a, b)
    ensures CutTask(b).None? <==> Bare(b)
    ensures CutTask(b).Some? ==> TaskKept(a, CutTask(b).value) && CutTask(b).value != a
  {
  }

  /** The cut happened at task `i`, with only bare tasks after it. */
  predicate CutAt(ws: seq<TaskView>, after: seq<TaskView>, i: nat) {
    && i < |ws| && CutTask(ws[i]).Some? && after == ws[i := CutTask(ws[i]).value]
    && forall j | i < j < |ws| :: Bare(ws[j])
  }

  lemma {:induction false} CutWorkNone(ws: seq<TaskView>)
    ensures CutWork(ws).None? <==> AllBare(ws)
  {
    if ws != [] {
      CutWorkNone(Front(ws));
      assert ws == Front(ws) + [ws[|ws| - 1]];
      assert CutTask(ws[|ws| - 1]).None? <==> Bare(ws[|ws| - 1]);
    }
  }

  lemma {:induction false} CutWorkAt(ws: seq<TaskView>) returns (i: nat)
    requires CutWork(ws).Some?
    ensures CutAt(ws, CutWork(ws).value, i)
  {
    var init, last := Front(ws), ws[|ws| - 1];
    if CutTask(last).Some? {
      i := |ws| - 1;
      assert init + [CutTask(last).value] == ws[i := CutTask(last).value];
    } else {
      i := CutWorkAt(init);
      assert init[i := CutTask(ws[i]).value] + [last] == ws[i := CutTask(ws[i]).value];
      forall j | i < j < |ws|
        ensures Bare(ws[j])
      {
        if j < |init| {
          assert Bare(init[j]);
        }
      }
    }
  }

  lemma CutWorkKeeps(a: seq<TaskView>, b: seq<TaskView>)
    requires WorkKept(a, b) && CutWork(b).Some?
    ensures WorkKept(a, CutWork(b).value)
  {
    var i := CutWorkAt(b);
    CutTaskKeeps(a[i], b[i]);
  }

  lemma CutOnceKeeps(p: Packet, q: Packet)
    requires Kept(p, q)
    ensures CutOnce(q).None? <==> FocalBare(q) && AllBare(q.openWork) && q.others == []
    ensures CutOnce(q).Some? ==> Kept(p, CutOnce(q).value)
  {
    CutWorkNone(q.openWork);
    if q.focal.Some? {
      CutTaskKeeps(p.focal.value, q.focal.value);
    }
    if CutWork(q.openWork).Some? {
      CutWorkKeeps(p.openWork, q.openWork);
    }
  }

  lemma {:induction false} CutKeeps(p: Packet, n: nat)
    requires Cut(p, n).Some?
    ensures Kept(p, Cut(p, n).value)
    ensures n > 0 ==> Cut(p, n).value.truncated
    ensures Cut(p, n).value.estimated == p.estimated
    ensures Size(Cut(p, n).value) + n == Size(p)
  {
    if n > 0 {
      CutKeeps(p, n - 1);
      CutOnceKeeps(p, Cut(p, n - 1).value);
      CutShrinks(Cut(p, n - 1).value);
    }
  }

  /** What a trimmed packet may have lost, when it is marked truncated, and that a packet over
      budget has nothing left to cut. */
  lemma TrimmingIsSafe(p: Packet, q: Packet, cost: Packet -> nat, budget: nat, n: nat)
    requires TrimmedAt(p, q, cost, budget, n) && !p.truncated
    ensures Kept(p, q)
    ensures q.truncated <==> cost(p) > budget
    ensures q.estimated > budget ==> FocalBare(q) && AllBare(q.openWork) && q.others == []
    ensures q.estimated == cost(q.(estimated := p.estimated))
  {
    CutKeeps(p, n);
    CutOnceKeeps(p, Cut(p, n).value);
    assert Cut(p, 0).value == p;
  }

  /** The outcome is unique: no other number of cuts meets the same description. */
  lemma TrimmingIsDetermined(p: Packet, q: Packet, q': Packet, cost: Packet -> nat, budget: nat, n: nat, n': nat)
    requires TrimmedAt(p, q, cost, budget, n) && TrimmedAt(p, q', cost, budget, n')
    ensures n == n' && q == q'
  {
    if n < n' {
      CutsStop(p, n, n');
    } else if n' < n {
      CutsStop(p, n', n);
    }
  }

  lemma {:induction false} CutsStop(p: Packet, n: nat, m: nat)
    requires n < m && Cut(p, m).Some?
    ensures Cut(p, n + 1).Some?
    decreases m
  {
    if n + 1 < m {
      CutsStop(p, n, m - 1);
    }
  }
}
