/** What admission reads, why pushing claim rows does not change its mind, and the
    all-or-nothing update. */
module Admission {
  import opened Text
  import opened Claims
  import opened Projector
  import opened CurrentView
  import opened GatedLog
  import opened FoldLaws
  import opened Trust
  import opened Compaction
  import opened EventTable
  import opened Handoff

  // ---------- rows pushed on do not change what is read ----------

  lemma FindRowGrows(a: seq<Event>, b: seq<Event>, id: string)
    requires Grown(a, b)
    ensures FindRow(a, id).Some? ==> FindRow(b, id) == FindRow(a, id)
    ensures ShellOnly(FindRow(b, id)) == ShellOnly(FindRow(a, id))
  {
    var i, j := RowIndex(a, id), RowIndex(b, id);
    assert forall k | 0 <= k < |a| :: b[k] == b[..|a|][k] == a[k];
    if i < |a| {
      assert j == i;
    } else if j < |b| {
      assert b[j].body.Authored?;
    }
  }

  lemma {:induction false} LatestExitGrows(a: seq<Event>, b: seq<Event>)
    requires Grown(a, b)
    ensures LatestExit(b) == LatestExit(a)
    decreases |b|
  {
    if |b| == |a| {
      assert a == b;
    } else {
      assert Grown(a, b[..|b| - 1]);
      LatestExitGrows(a, b[..|b| - 1]);
    }
  }

  predicate AllFound(log: seq<Event>, ids: seq<string>) {
    forall i | 0 <= i < |ids| :: FindRow(log, ids[i]).Some?
  }

  lemma {:induction false} FirstShellGrows(a: seq<Event>, b: seq<Event>, ids: seq<string>)
    requires Grown(a, b) && AllFound(a, ids)
    ensures FirstShell(b, ids) == FirstShell(a, ids)
  {
    if ids != [] {
      FindRowGrows(a, b, ids[0]);
      assert forall i | 0 <= i < |ids[1..]| :: ids[1..][i] == ids[i + 1];
      FirstShellGrows(a, b, ids[1..]);
    }
  }

  lemma ChecksGrow(ph: Phrases, d: Draft, a: seq<Event>, b: seq<Event>)
    requires Grown(a, b) && AllFound(a, d.evidenceIds)
    ensures EvidenceCheck(ph, d, b) == EvidenceCheck(ph, d, a)
    ensures SupportCheck(ph, d, b) == SupportCheck(ph, d, a)
  {
    forall i | 0 <= i < |d.evidenceIds|
      ensures FindRow(b, d.evidenceIds[i]) == FindRow(a, d.evidenceIds[i])
    {
      FindRowGrows(a, b, d.evidenceIds[i]);
    }
    LatestExitGrows(a, b);
    FirstShellGrows(a, b, d.evidenceIds);
  }

  // ---------- the gate and the view ----------

  /** No user row asserts a next action; `Validate` refuses such rows. */
  predicate NoUserNextAction(log: seq<Event>) {
    forall e | e in log && WrittenBy(e, User) && Asserts(e.body.claim.value) ::
      e.body.claim.value.kind != Some(NextAction)
  }

  lemma ValidatedRows(log: seq<Event>)
    requires forall e | e in log :: RowOk(e)
    ensures NoUserNextAction(log)
  {
  }

  lemma NoUserFrontier(log: seq<Event>, c: Claim)
    requires NoUserNextAction(log) && c in Fold(log).claims && c.kind == NextAction
    ensures c.origin != User
  {
    EveryClaimHasSource(log);
    var i :| 0 <= i < |Fold(log).claims| && Fold(log).claims[i] == c;
    var k :| k in log && MadeBy(k, c);
  }

  /** A draft names no target, so only a user's frontier could turn the gate against it. */
  lemma GateIgnoresView(d: Draft, log: seq<Event>)
    requires NoUserNextAction(log)
    ensures GateCheck(d, Fold(log)) == match Validate(OriginOf(d.act), DraftEvent(d))
                                       case Refuse(why) => Some(Gate(why))
                                       case Accept => None
  {
    var claims, task := Fold(log).claims, TaskIdFor(d.taskSubject);
    var i := SlotIndex(claims, task, NextAction, FRONTIER_SUBJECT);
    if i < |claims| {
      NoUserFrontier(log, claims[i]);
    }
  }

  /** Admission gives the same answer after claim rows were pushed. */
  lemma AdmitGrows(ph: Phrases, d: Draft, a: seq<Event>, b: seq<Event>, seen: seq<SeenKey>)
    requires Grown(a, b) && AllFound(a, d.evidenceIds) && NoUserNextAction(a) && NoUserNextAction(b)
    ensures Admit(ph, d, Fold(b), seen, b) == Admit(ph, d, Fold(a), seen, a)
  {
    ChecksGrow(ph, d, a, b);
    GateIgnoresView(d, a);
    GateIgnoresView(d, b);
  }

  /** More keys seen can only turn an admission into a refusal. */
  lemma SeenGrows(ph: Phrases, d: Draft, view: View, log: seq<Event>, seen: seq<SeenKey>, more: seq<SeenKey>)
    requires forall k | k in seen :: k in more
    ensures Admit(ph, d, view, seen, log).Rejected? ==> Admit(ph, d, view, more, log).Rejected?
  {
  }

  lemma AdmittedFound(ph: Phrases, d: Draft, view: View, seen: seq<SeenKey>, log: seq<Event>)
    requires Admit(ph, d, view, seen, log).Admitted?
    ensures AllFound(log, d.evidenceIds) && Admit(ph, d, view, seen, log).row == DraftEvent(d)
  {
  }

  // ---------- the update note ----------

  lemma PushKeepsNoUser(log: seq<Event>, ce: ClaimEvent, id: string)
    requires NoUserNextAction(log) && (ce.origin == User && Asserts(ce) ==> ce.kind != Some(NextAction))
    ensures NoUserNextAction(PushRow(log, ce, id))
  {
  }

  /** The rows that admitting `ds` one after another adds. */
  predicate PushedAll(before: seq<Event>, after: seq<Event>, ds: seq<Draft>) {
    && |after| == |before| + |ds| && Grown(before, after)
    && forall i | 0 <= i < |ds| :: after[|before| + i].body == Authored(Some(DraftEvent(ds[i])))
  }

  lemma PushedOneMore(a: seq<Event>, b: seq<Event>, c: seq<Event>, ds: seq<Draft>)
    requires ds != [] && PushedAll(a, b, ds[..1]) && PushedAll(b, c, ds[1..])
    ensures PushedAll(a, c, ds)
  {
    GrownTransitive("", a, b, c);
    forall i | 0 <= i < |ds|
      ensures c[|a| + i].body == Authored(Some(DraftEvent(ds[i])))
    {
      if i == 0 {
        assert c[|a|] == c[..|b|][|a|] == b[|a|];
        assert b[|a| + 0].body == Authored(Some(DraftEvent(ds[..1][0])));
      } else {
        assert c[|b| + (i - 1)].body == Authored(Some(DraftEvent(ds[1..][i - 1])));
      }
    }
  }

  lemma FirstIsAccepted(ph: Phrases, log: seq<Event>, p: Pass, ds: seq<Draft>)
    requires Grown(log, p.log) && NoUserNextAction(log) && NoUserNextAction(p.log)
    requires ds != [] && Trial(ph, log, p.seen, ds).None?
    ensures var q := AcceptOrRecord(ph, p, ds[0]);
      && PushedAll(p.log, q.log, ds[..1]) && Grown(log, q.log) && NoUserNextAction(q.log)
      && Trial(ph, log, q.seen, ds[1..]).None?
  {
    hide Fold, EvidenceCheck, SupportCheck, GateCheck;
    AdmittedFound(ph, ds[0], Fold(log), p.seen, log);
    AdmitGrows(ph, ds[0], log, p.log, p.seen);
    PushKeepsNoUser(p.log, DraftEvent(ds[0]), "c2_" + ds[0].claimId);
    GrownTransitive("", log, p.log, AcceptOrRecord(ph, p, ds[0]).log);
  }

  /** Drafts that all passed the trial are all admitted, on a log that has grown since. */
  lemma {:induction false} TrialHolds(ph: Phrases, log: seq<Event>, p: Pass, ds: seq<Draft>)
    requires Grown(log, p.log) && NoUserNextAction(log) && NoUserNextAction(p.log)
    requires Trial(ph, log, p.seen, ds).None?
    ensures PushedAll(p.log, AcceptAll(ph, p, ds).log, ds)
    decreases |ds|
  {
    if ds != [] {
      hide AcceptOrRecord, Trial, NoUserNextAction;
      FirstIsAccepted(ph, log, p, ds);
      var q := AcceptOrRecord(ph, p, ds[0]);
      TrialHolds(ph, log, q, ds[1..]);
      PushedOneMore(p.log, q.log, AcceptAll(ph, q, ds[1..]).log, ds);
    }
  }

  /** What admission asks of a draft, apart from duplicates. */
  predicate PassesAlone(ph: Phrases, d: Draft, log: seq<Event>) {
    EvidenceCheck(ph, d, log).None? && SupportCheck(ph, d, log).None? && GateCheck(d, Fold(log)).None?
  }

  function DraftKey(ph: Phrases, d: Draft): SeenKey {
    KeyOf(ph, KindOf(d.act), d.text)
  }

  lemma AdmittedAlone(ph: Phrases, d: Draft, seen: seq<SeenKey>, log: seq<Event>)
    requires PassesAlone(ph, d, log) && DraftKey(ph, d) !in seen
    ensures Admit(ph, d, Fold(log), seen, log).Admitted?
  {
    CollapseStable(d.text);
  }

  /** Drafts that pass one by one and say different things pass the trial together. */
  lemma {:induction false} TrialByParts(ph: Phrases, log: seq<Event>, seen: seq<SeenKey>, ds: seq<Draft>)
    requires forall i | 0 <= i < |ds| :: PassesAlone(ph, ds[i], log) && DraftKey(ph, ds[i]) !in seen
    requires forall i, j | 0 <= i < j < |ds| :: DraftKey(ph, ds[i]) != DraftKey(ph, ds[j])
    ensures Trial(ph, log, seen, ds).None?
    decreases |ds|
  {
    if ds != [] {
      hide Admit, PassesAlone;
      AdmittedAlone(ph, ds[0], seen, log);
      TrialByParts(ph, log, seen + [DraftKey(ph, ds[0])], ds[1..]);
    }
  }

  /** Superseded is final. */
  lemma StaysSuperseded(log: seq<Event>, n: nat, i: nat)
    requires n <= |log| && i < |Fold(log[..n]).claims| && Fold(log[..n]).claims[i].status == Superseded
    ensures i < |Fold(log).claims| && Fold(log).claims[i].status == Superseded
  {
    ClaimsOnlyAge(log, n);
    assert Aged(Fold(log[..n]).claims[i], Fold(log).claims[i]);
  }

  lemma TaskOfClaim(log: seq<Event>, i: nat)
    requires i < |Fold(log).claims|
    ensures Fold(log).claims[i].taskId != ""
  {
    EveryClaimHasSource(log);
    var c := Fold(log).claims[i];
    assert HasSource(log, c);
    var k :| k in log && MadeBy(k, c);
    if IsRun(k) {
      assert ReadRun(k).taskId == TaskIdFor(ReadRun(k).subject);
    }
  }

  lemma {:induction false} QuotedIsClaim(claims: seq<Claim>, wanted: string)
    ensures CurrentWithText(claims, wanted).Some? ==>
      exists i :: 0 <= i < |claims| && claims[i] == CurrentWithText(claims, wanted).value && claims[i].status == Current
  {
    if claims != [] {
      QuotedIsClaim(claims[1..], wanted);
      if !(claims[0].status == Current && Collapse(claims[0].text) == wanted) && CurrentWithText(claims, wanted).Some? {
        var i :| 0 <= i < |claims[1..]| && claims[1..][i] == CurrentWithText(claims[1..], wanted).value && claims[1..][i].status == Current;
        assert claims[i + 1] == claims[1..][i];
      }
    }
  }

  /** What an update that went through did: the target is retired for good, and every draft
      became a row. */
  predicate Replaced(before: seq<Event>, after: seq<Event>, target: Claim, ds: seq<Draft>) {
    && |after| == |before| + 1 + |ds| && Grown(before, after)
    && (forall i | 0 <= i < |ds| :: after[|before| + 1 + i].body == Authored(Some(DraftEvent(ds[i]))))
    && exists i | 0 <= i < |Fold(before).claims| ::
      Fold(before).claims[i] == target && i < |Fold(after).claims| && Fold(after).claims[i].status == Superseded
  }

  lemma ReplaceIsComplete(ph: Phrases, p: Pass, note: Event, target: Claim, ds: seq<Draft>, i: nat)
    requires NoUserNextAction(p.log) && AssertedOnce(p.log)
    requires i < |Fold(p.log).claims| && Fold(p.log).claims[i] == target && target.id != "" && !Untouchable(target)
    requires Trial(ph, p.log, p.seen, ds).None? && BothGates(RetractEvent(note, target), Fold(p.log)).Accept?
    ensures Replaced(p.log, ReplaceClaim(ph, p, note, target, ds).log, target, ds)
  {
    hide Fold, AcceptAll, PushedAll, BothGates;
    var r := RetractFor(p, note, target);
    PushKeepsNoUser(p.log, RetractEvent(note, target), "c2_retract_" + note.id);
    assert Grown(p.log, r.log);
    TrialHolds(ph, p.log, r, ds);
    ReplacedWhen(p.log, r.log, AcceptAll(ph, r, ds).log, note, target, ds, i);
  }

  lemma ReplacedRows(log: seq<Event>, retracted: seq<Event>, after: seq<Event>, ds: seq<Draft>)
    requires Grown(log, retracted) && |retracted| == |log| + 1 && PushedAll(retracted, after, ds)
    ensures |after| == |log| + 1 + |ds| && Grown(log, after) && after[..|retracted|] == retracted
    ensures forall i | 0 <= i < |ds| :: after[|log| + 1 + i].body == Authored(Some(DraftEvent(ds[i])))
  {
    GrownTransitive("", log, retracted, after);
  }

  lemma ReplacedWhen(log: seq<Event>, retracted: seq<Event>, after: seq<Event>, note: Event, target: Claim,
                     ds: seq<Draft>, i: nat)
    requires AssertedOnce(log) && i < |Fold(log).claims| && Fold(log).claims[i] == target && target.id != ""
    requires !Untouchable(target) && PushedAll(retracted, after, ds)
    requires retracted == PushRow(log, RetractEvent(note, target), "c2_retract_" + note.id)
    ensures Replaced(log, after, target, ds)
  {
    hide Fold, RetractEvent, PushedAll;
    ReplacedRows(log, retracted, after, ds);
    RetractRetires(log, note, i);
    StaysSuperseded(after, |retracted|, i);
  }

  // ---------- the retract note ----------

  predicate Quoted(c: Claim, text: string) {
    c.status == Current && Contains(text, c.text)
  }

  lemma {:induction false} LongestIsLongest(claims: seq<Claim>, text: string)
    ensures var best := LongestQuoted(claims, text);
      if best.None? then forall c | c in claims :: !Quoted(c, text)
      else best.value in claims && Quoted(best.value, text)
           && forall c | c in claims && Quoted(c, text) :: ByteLength(c.text) <= ByteLength(best.value.text)
  {
    if claims != [] {
      var init, last := claims[..|claims| - 1], claims[|claims| - 1];
      LongestIsLongest(init, text);
      assert claims == init + [last];
    }
  }

  /** Claim `i` is a longest claim the text quotes, an author's own, and the only one that the
      step to `after` changes. */
  predicate RetiresLongest(before: seq<Claim>, after: seq<Claim>, text: string, i: nat, at: nat) {
    && i < |before| && Quoted(before[i], text) && !Untouchable(before[i])
    && (forall c | c in before && Quoted(c, text) :: ByteLength(c.text) <= ByteLength(before[i].text))
    && after == before[i := Retire(before[i], at)]
  }

  lemma BareSupersedeOnly(log: seq<Event>, row: Event, i: nat)
    requires DistinctIds(Fold(log).claims) && i < |Fold(log).claims|
    requires IsAuthored(row) && row.body.claim.value.op == Supersede && !HasClaimBody(row.body.claim.value)
    requires SupersedeTarget(row.body.claim.value) == Fold(log).claims[i].id
    ensures Fold(log + [row]).claims == Fold(log).claims[i := Retire(Fold(log).claims[i], row.at)]
  {
    FoldPush(log, row);
    var cs := Fold(log).claims;
    assert ClaimIndex(cs, cs[i].id) == i;
  }

  /** Both gates let a note retire any claim that is not the projector's and not observed: the
      row speaks as the claim's own author. */
  lemma GatesLetGo(log: seq<Event>, note: Event, i: nat)
    requires DistinctIds(Fold(log).claims) && i < |Fold(log).claims|
    requires !Untouchable(Fold(log).claims[i]) && Fold(log).claims[i].id != ""
    ensures BothGates(RetractEvent(note, Fold(log).claims[i]), Fold(log)).Accept?
  {
    hide Fold;
    var cs := Fold(log).claims;
    assert ClaimIndex(cs, cs[i].id) == i;
  }

  lemma LongestAt(claims: seq<Claim>, text: string) returns (i: nat)
    requires LongestQuoted(claims, text).Some?
    ensures i < |claims| && claims[i] == LongestQuoted(claims, text).value && Quoted(claims[i], text)
    ensures forall c | c in claims && Quoted(c, text) :: ByteLength(c.text) <= ByteLength(claims[i].text)
  {
    LongestIsLongest(claims, text);
    i :| i < |claims| && claims[i] == LongestQuoted(claims, text).value;
  }

  predicate MayRetract(claims: seq<Claim>, text: string) {
    LongestQuoted(claims, text).Some? && !Untouchable(LongestQuoted(claims, text).value)
  }

  /** A retract note goes through exactly when the longest current claim it quotes is neither
      the projector's nor observed. */
  lemma RetractsIffQuotes(p: Pass, note: Event, text: string)
    requires AssertedOnce(p.log) && forall c | c in Fold(p.log).claims :: c.id != ""
    ensures RetractNote(p, note, text).log != p.log <==> MayRetract(Fold(p.log).claims, text)
    ensures MayRetract(Fold(p.log).claims, text) ==>
      RetractNote(p, note, text).log
      == PushRow(p.log, RetractEvent(note, LongestQuoted(Fold(p.log).claims, text).value), "c2_retract_" + note.id)
  {
    hide Fold, BothGates;
    if MayRetract(Fold(p.log).claims, text) {
      FoldIsWellFormed(p.log);
      var i := LongestAt(Fold(p.log).claims, text);
      GatesLetGo(p.log, note, i);
    }
  }

  /** A retract note that goes through retires a longest current claim it quotes and nothing
      else. The row speaks as the claim's own author, whoever wrote the note. */
  lemma RetractNoteRetiresLongest(p: Pass, note: Event, text: string)
    requires AssertedOnce(p.log) && forall c | c in Fold(p.log).claims :: c.id != ""
    requires MayRetract(Fold(p.log).claims, text)
    ensures var before, after := Fold(p.log).claims, RetractNote(p, note, text).log;
      && |after| == |p.log| + 1
      && exists i: nat :: RetiresLongest(before, Fold(after).claims, text, i, after[|p.log|].at)
                   && before[i] == LongestQuoted(before, text).value && WrittenBy(after[|p.log|], before[i].origin)
  {
    hide RetractNote;
    RetractsIffQuotes(p, note, text);
    var i := LongestAt(Fold(p.log).claims, text);
    RetractRetires(p.log, note, i);
    assert RetiresLongest(Fold(p.log).claims, Fold(RetractNote(p, note, text).log).claims, text, i, NextAt(p.log));
  }

  lemma RetractRetires(log: seq<Event>, note: Event, i: nat)
    requires AssertedOnce(log) && i < |Fold(log).claims|
    requires !Untouchable(Fold(log).claims[i]) && Fold(log).claims[i].id != ""
    ensures var c := Fold(log).claims[i];
      var after := PushRow(log, RetractEvent(note, c), "c2_retract_" + note.id);
      && Fold(after).claims == Fold(log).claims[i := Retire(c, NextAt(log))]
      && WrittenBy(after[|log|], c.origin)
  {
    var row := Event("c2_retract_" + note.id, NextAt(log), Authored(Some(RetractEvent(note, Fold(log).claims[i]))));
    FoldIsWellFormed(log);
    TaskOfClaim(log, i);
    hide Fold;
    BareSupersedeOnly(log, row, i);
  }

  /** Some current claim of the user's is not current any more. */
  predicate UserClaimRetired(before: seq<Claim>, after: seq<Claim>) {
    exists i | 0 <= i < |before| && i < |after| ::
      before[i].origin == User && before[i].status == Current && after[i].status == Superseded
  }

  /** A retract note, whoever wrote it, retires a claim of the user exactly when the longest
      current claim it quotes is the user's and not observed. */
  lemma RetractsUserClaimIff(p: Pass, note: Event, text: string)
    requires AssertedOnce(p.log) && forall c | c in Fold(p.log).claims :: c.id != ""
    ensures var before := Fold(p.log).claims;
      UserClaimRetired(before, Fold(RetractNote(p, note, text).log).claims)
      <==> MayRetract(before, text) && LongestQuoted(before, text).value.origin == User
  {
    hide Fold, RetractNote;
    RetractsIffQuotes(p, note, text);
    if MayRetract(Fold(p.log).claims, text) {
      RetractNoteRetiresLongest(p, note, text);
    }
  }

  const RULE := Event("u", 1, Authored(Some(ClaimEvent(
    Assert, "c_u", "t", Some(Constraint), Some("c_u"), Some("keep it"), Some(Stated), User, None, [], [], None))))
  const RETRACTION := Event("n", 2, Note("keep it", "s", "retract", "agent", "", ""))

  lemma LoneRule(log: seq<Event>)
    requires log == [RULE, RETRACTION]
    ensures AssertedOnce(log) && Fold(log).claims == [AuthoredClaim(RULE.body.claim.value, RULE, None)]
    ensures AuthoredClaim(RULE.body.claim.value, RULE, None).text == "keep it"
  {
    TrimSolid("keep it");
    assert log[..1] == [RULE] && [RULE][..0] == [];
    assert Fold([RULE]).claims == [AuthoredClaim(RULE.body.claim.value, RULE, None)];
  }

  lemma LoneIsLongest(c: Claim, text: string)
    requires c.status == Current && c.text == text
    ensures LongestQuoted([c], text) == Some(c)
  {
    assert [c][..0] == [] && At(text, c.text, 0);
  }

  /** A retract note of an agent that quotes a constraint of the user retires it. */
  lemma AgentRetractsUserClaim(p: Pass)
    requires p.log == [RULE, RETRACTION]
    ensures UserClaimRetired(Fold(p.log).claims, Fold(RetractNote(p, RETRACTION, "keep it").log).claims)
  {
    hide Fold, RetractNote, AssertedOnce, UserClaimRetired;
    LoneRule(p.log);
    LoneIsLongest(AuthoredClaim(RULE.body.claim.value, RULE, None), "keep it");
    RetractsUserClaimIff(p, RETRACTION, "keep it");
  }

  // ---------- which update notes go through ----------

  /** What the branches of an update ask before anything is written. */
  predicate MayUpdate(ph: Phrases, p: Pass, note: Event, text: string)
    requires note.body.Note?
  {
    && UpdateTarget(p.log, note).Found?
    && var ds := UpdateDrafts(ph, p.log, note, text, UpdateTarget(p.log, note).task);
    ds != [] && Trial(ph, p.log, p.seen, ds).None?
  }

  lemma TargetAt(log: seq<Event>, note: Event) returns (i: nat)
    requires note.body.Note? && UpdateTarget(log, note).Found?
    ensures i < |Fold(log).claims| && Fold(log).claims[i] == UpdateTarget(log, note).claim
    ensures Fold(log).claims[i].status == Current && !Untouchable(Fold(log).claims[i])
  {
    hide Fold;
    QuotedIsClaim(Fold(log).claims, Collapse(note.body.replacesText));
    i :| i < |Fold(log).claims| && Fold(log).claims[i] == UpdateTarget(log, note).claim && Fold(log).claims[i].status == Current;
  }

  /** An update goes through exactly when it names a current claim that is not the projector's
      or observed, its session has a failing command, and all it drafts passes the trial. */
  lemma UpdatesIff(ph: Phrases, p: Pass, note: Event, text: string)
    requires note.body.Note? && NoUserNextAction(p.log) && AssertedOnce(p.log)
    requires forall c | c in Fold(p.log).claims :: c.id != ""
    ensures UpdateNote(ph, p, note, text).log != p.log <==> MayUpdate(ph, p, note, text)
    ensures MayUpdate(ph, p, note, text) ==>
      Replaced(p.log, UpdateNote(ph, p, note, text).log, UpdateTarget(p.log, note).claim,
               UpdateDrafts(ph, p.log, note, text, UpdateTarget(p.log, note).task))
  {
    hide Fold, UpdateTarget, UpdateDrafts, BothGates;
    if MayUpdate(ph, p, note, text) {
      var t := UpdateTarget(p.log, note);
      FoldIsWellFormed(p.log);
      var i := TargetAt(p.log, note);
      GatesLetGo(p.log, note, i);
      ReplaceIsComplete(ph, p, note, t.claim, UpdateDrafts(ph, p.log, note, text, t.task), i);
    }
  }

  /** The first `n` claims share their ids with no other claim. */
  predicate Apart(cs: seq<Claim>, n: nat) {
    n <= |cs| && forall i, j | 0 <= i < n && 0 <= j < |cs| && i != j :: cs[i].id != cs[j].id
  }

  /** Neither of the kinds whose slots a draft can clear. */
  predicate Spared(c: Claim) {
    c.kind != NextAction && c.kind != Reality
  }

  lemma SlotSpares(cs: seq<Claim>, n: nat, taskId: string, kind: Kind, subject: string, at: nat, i: nat)
    requires Apart(cs, n) && i < n && cs[i].kind != kind
    ensures var after := SupersedeSlot(cs, taskId, kind, subject, at);
      |after| == |cs| && after[i] == cs[i] && forall k | 0 <= k < |cs| :: after[k].id == cs[k].id
  {
    var j := SlotIndex(cs, taskId, kind, subject);
    if j < |cs| {
      var k := ClaimIndex(cs, cs[j].id);
      assert k <= j;
      assert k != i;
    }
  }

  lemma DraftSpares(cs: seq<Claim>, n: nat, d: Draft, e: Event, i: nat)
    requires Apart(cs, n) && i < n && Spared(cs[i]) && forall k | 0 <= k < n :: cs[k].id != d.claimId
    ensures var after := StepAuthored(cs, DraftEvent(d), e);
      Apart(after, n) && after[i] == cs[i] && forall k | 0 <= k < n :: after[k].id == cs[k].id
  {
    hide Apart, ClearSlot, Spared;
    var ce := DraftEvent(d);
    ClearSpares(cs, n, d, e.at, i);
    if HasClaimBody(ce) {
      PushedApart(cs, ClearSlot(cs, ce, e.at), n, AuthoredClaim(ce, e, SlotVictim(cs, ce)), d.claimId);
    }
    ApartFits(cs, n);
  }

  lemma ApartFits(cs: seq<Claim>, n: nat)
    requires Apart(cs, n)
    ensures n <= |cs|
  {
  }

  lemma ClearSpares(cs: seq<Claim>, n: nat, d: Draft, at: nat, i: nat)
    requires Apart(cs, n) && i < n && Spared(cs[i])
    ensures var after := ClearSlot(cs, DraftEvent(d), at);
      |after| == |cs| && after[i] == cs[i] && forall k | 0 <= k < |cs| :: after[k].id == cs[k].id
  {
    hide SupersedeSlot;
    var ce := DraftEvent(d);
    if UniqueSlot(ce.kind.value) {
      SlotSpares(cs, n, ce.taskId, ce.kind.value, SubjectOf(ce), at, i);
    }
  }

  lemma PushedApart(cs: seq<Claim>, cleared: seq<Claim>, n: nat, c: Claim, id: string)
    requires Apart(cs, n) && |cleared| == |cs| && (forall k | 0 <= k < |cs| :: cleared[k].id == cs[k].id)
    requires c.id == id && forall k | 0 <= k < n :: cs[k].id != id
    ensures Apart(cleared + [c], n)
  {
  }

  /** Claims of kinds no draft can clear stay as they are, while new ids are new. */
  lemma {:induction false} DraftsSpare(ph: Phrases, p: Pass, ds: seq<Draft>, n: nat, i: nat)
    requires Apart(Fold(p.log).claims, n) && i < n && Spared(Fold(p.log).claims[i])
    requires forall d, k | d in ds && 0 <= k < n :: Fold(p.log).claims[k].id != d.claimId
    ensures var after := Fold(AcceptAll(ph, p, ds).log).claims;
      i < |after| && after[i] == Fold(p.log).claims[i]
    decreases |ds|
  {
    if ds != [] {
      hide Fold, Admit;
      var q := AcceptOrRecord(ph, p, ds[0]);
      DraftFolds(ph, p, ds[0]);
      if q.log != p.log {
        DraftSpares(Fold(p.log).claims, n, ds[0], q.log[|p.log|], i);
      }
      DraftsSpare(ph, q, ds[1..], n, i);
    }
  }

  lemma DraftFolds(ph: Phrases, p: Pass, d: Draft)
    ensures var q := AcceptOrRecord(ph, p, d);
      q.log == p.log
      || (|q.log| == |p.log| + 1
          && Fold(q.log).claims == StepAuthored(Fold(p.log).claims, DraftEvent(d), q.log[|p.log|]))
  {
    hide Admit, StepAuthored;
    var q := AcceptOrRecord(ph, p, d);
    if q.log != p.log {
      AdmittedFound(ph, d, Fold(p.log), p.seen, p.log);
      FoldPush(p.log, q.log[|p.log|]);
      assert q.log == p.log + [q.log[|p.log|]];
      assert TaskIdFor(d.taskSubject) == "t_" + JoinNul([d.taskSubject]);
    }
  }

  lemma UserClaimIsSpared(log: seq<Event>, c: Claim)
    requires (forall e | e in log :: RowOk(e)) && c in Fold(log).claims && c.origin == User
    ensures Spared(c)
  {
    EveryClaimHasSource(log);
    var i :| 0 <= i < |Fold(log).claims| && Fold(log).claims[i] == c;
    assert HasSource(log, c);
    var k :| k in log && MadeBy(k, c);
    AuthoredClaimOk(k.body.claim.value, k);
  }

  /** What an update that goes through leaves of the user's claims: all but its target. */
  lemma UpdateSparesOthers(ph: Phrases, p: Pass, note: Event, t: nat, ds: seq<Draft>, i: nat)
    requires (forall e | e in p.log :: RowOk(e)) && AssertedOnce(p.log) && i < |Fold(p.log).claims| && t < |Fold(p.log).claims|
    requires !Untouchable(Fold(p.log).claims[t]) && Fold(p.log).claims[t].id != ""
    requires forall d, c | d in ds && c in Fold(p.log).claims :: c.id != d.claimId
    requires i != t && Fold(p.log).claims[i].origin == User
    ensures var after := Fold(AcceptAll(ph, RetractFor(p, note, Fold(p.log).claims[t]), ds).log).claims;
      i < |after| && after[i] == Fold(p.log).claims[i]
  {
    hide Fold, AcceptAll;
    var cs, r := Fold(p.log).claims, RetractFor(p, note, Fold(p.log).claims[t]);
    FoldIsWellFormed(p.log);
    RetractRetires(p.log, note, t);
    UserClaimIsSpared(p.log, cs[i]);
    forall d, k | d in ds && 0 <= k < |cs|
      ensures Fold(r.log).claims[k].id != d.claimId
    {
      assert cs[k] in cs;
    }
    DraftsSpare(ph, r, ds, |cs|, i);
  }

  lemma UpdateIsReplace(ph: Phrases, p: Pass, note: Event, text: string, i: nat)
    requires note.body.Note? && MayUpdate(ph, p, note, text) && AssertedOnce(p.log)
    requires i < |Fold(p.log).claims| && Fold(p.log).claims[i] == UpdateTarget(p.log, note).claim
    requires !Untouchable(Fold(p.log).claims[i]) && Fold(p.log).claims[i].id != ""
    ensures var ds := UpdateDrafts(ph, p.log, note, text, UpdateTarget(p.log, note).task);
      UpdateNote(ph, p, note, text) == AcceptAll(ph, RetractFor(p, note, Fold(p.log).claims[i]), ds)
  {
    hide Fold, BothGates, UpdateTarget, UpdateDrafts;
    FoldIsWellFormed(p.log);
    GatesLetGo(p.log, note, i);
  }

  /** An update note, whoever wrote it, retires a claim of the user exactly when it goes
      through and the claim it names is the user's. */
  lemma UpdatesUserClaimIff(ph: Phrases, p: Pass, note: Event, text: string)
    requires note.body.Note? && (forall e | e in p.log :: RowOk(e)) && AssertedOnce(p.log)
    requires forall c | c in Fold(p.log).claims :: c.id != ""
    requires UpdateTarget(p.log, note).Found? ==>
      forall d, c | d in UpdateDrafts(ph, p.log, note, text, UpdateTarget(p.log, note).task) && c in Fold(p.log).claims ::
        c.id != d.claimId
    ensures UserClaimRetired(Fold(p.log).claims, Fold(UpdateNote(ph, p, note, text).log).claims)
            <==> MayUpdate(ph, p, note, text) && UpdateTarget(p.log, note).claim.origin == User
  {
    hide Fold, UpdateNote, UpdateTarget, UpdateDrafts, RowOk, Trial, UserClaimRetired, AssertedOnce, MayUpdate;
    ValidatedRows(p.log);
    UpdatesIff(ph, p, note, text);
    if MayUpdate(ph, p, note, text) {
      MayUpdateFound(ph, p, note, text);
      var t := TargetAt(p.log, note);
      var ds := UpdateDrafts(ph, p.log, note, text, UpdateTarget(p.log, note).task);
      UpdateIsReplace(ph, p, note, text, t);
      FoldIsWellFormed(p.log);
      ReplacedRetires(p.log, UpdateNote(ph, p, note, text).log, t, ds);
      forall i | 0 <= i < |Fold(p.log).claims| && i != t && Fold(p.log).claims[i].origin == User
        ensures var after := Fold(UpdateNote(ph, p, note, text).log).claims; i < |after| && after[i] == Fold(p.log).claims[i]
      {
        UpdateSparesOthers(ph, p, note, t, ds, i);
      }
      OnlyTargetRetired(Fold(p.log).claims, Fold(UpdateNote(ph, p, note, text).log).claims, t);
    } else {
      NoneRetired(Fold(p.log).claims);
    }
  }

  lemma MayUpdateFound(ph: Phrases, p: Pass, note: Event, text: string)
    requires note.body.Note? && MayUpdate(ph, p, note, text)
    ensures UpdateTarget(p.log, note).Found?
  {
  }

  lemma OnlyTargetRetired(before: seq<Claim>, after: seq<Claim>, t: nat)
    requires t < |before| && t < |after| && before[t].status == Current && after[t].status == Superseded
    requires forall i | 0 <= i < |before| && i != t && before[i].origin == User :: i < |after| && after[i] == before[i]
    ensures UserClaimRetired(before, after) <==> before[t].origin == User
  {
  }

  lemma NoneRetired(cs: seq<Claim>)
    ensures !UserClaimRetired(cs, cs)
  {
  }

  lemma ReplacedRetires(before: seq<Event>, after: seq<Event>, t: nat, ds: seq<Draft>)
    requires DistinctIds(Fold(before).claims) && t < |Fold(before).claims|
    requires Replaced(before, after, Fold(before).claims[t], ds)
    ensures t < |Fold(after).claims| && Fold(after).claims[t].status == Superseded
  {
    hide Fold;
  }

  /** An update note is all or nothing: either the log is untouched, or its target is
      superseded and every draft the trial admitted is in the log. */
  lemma UpdateIsAllOrNothing(ph: Phrases, p: Pass, note: Event, text: string)
    requires note.body.Note? && NoUserNextAction(p.log) && AssertedOnce(p.log)
    requires forall c | c in Fold(p.log).claims :: c.id != ""
    ensures var after := UpdateNote(ph, p, note, text);
      || after.log == p.log
      || (UpdateTarget(p.log, note).Found?
          && var t := UpdateTarget(p.log, note);
          Replaced(p.log, after.log, t.claim, UpdateDrafts(ph, p.log, note, text, t.task)))
  {
    hide Fold, UpdateNote, UpdateTarget, UpdateDrafts, Replaced;
    UpdatesIff(ph, p, note, text);
  }
}
