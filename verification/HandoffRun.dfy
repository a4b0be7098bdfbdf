/** The handoff as it runs: one log, one projection, one list of keys and one report, all
    changed in place. Each method does what the value-level step says. */
module HandoffRun {
  import opened Text
  import opened Claims
  import opened Projector
  import opened EventTable
  import opened Handoff

  /** Keys already asserted, oldest first. */
  method CollectSeen(ph: Phrases, log: seq<Event>) returns (seen: seq<SeenKey>)
    ensures seen == SeedSeen(ph, log)
  {
    seen := [];
    for i := 0 to |log|
      invariant seen == SeedSeen(ph, log[..i])
    {
      assert log[..i + 1][..i] == log[..i];
      var e := log[i];
      if !e.body.Authored? || e.body.claim.None? { continue; }
      var ce := e.body.claim.value;
      if ce.op != Assert { continue; }
      if ce.kind.None? || ce.text.None? { continue; }
      seen := seen + [KeyOf(ph, ce.kind.value, ce.text.value)];
    }
    assert log[..|log|] == log;
  }

  method CollectCited(log: seq<Event>) returns (notes: set<string>)
    ensures notes == CitedNotes(log)
  {
    notes := {};
    for i := 0 to |log|
      invariant notes == CitedNotes(log[..i])
    {
      assert log[..i + 1][..i] == log[..i];
      var e := log[i];
      if !e.body.Authored? || e.body.claim.None? { continue; }
      notes := notes + set id | id in e.body.claim.value.evidenceIds;
    }
    assert log[..|log|] == log;
  }

  // ---------- the failing command of a session ----------

  function StateKey(e: Event): (string, string)
    requires e.body.Shell?
  {
    (e.body.session, Collapse(e.body.command))
  }

  predicate InSession(e: Event, session: string) {
    e.body.Shell? && e.body.session == session
  }

  /** What the two maps of the search hold after the rows `log`. */
  predicate Tracks(log: seq<Event>, session: string, latest: map<(string, string), Option<int>>,
                   first: map<(string, string), nat>)
  {
    && (forall k | k in latest :: k in first && latest[k] == LatestCode(log, k.0, k.1))
    && (forall k | k in first :: first[k] < |log| && InSession(log[first[k]], session) && StateKey(log[first[k]]) == k)
    && (forall i | 0 <= i < |log| && InSession(log[i], session) ::
          StateKey(log[i]) in latest && StateKey(log[i]) in first && first[StateKey(log[i])] <= i)
  }

  method NewestAt(log: seq<Event>) returns (newest: nat)
    ensures newest == MaxAt(log)
  {
    newest := 0;
    for i := 0 to |log|
      invariant newest == MaxAt(log[..i])
    {
      assert log[..i + 1][..i] == log[..i];
      if log[i].at > newest { newest := log[i].at; }
    }
    assert log[..|log|] == log;
  }

  lemma TracksPush(log: seq<Event>, e: Event, session: string, latest: map<(string, string), Option<int>>,
                   first: map<(string, string), nat>)
    requires Tracks(log, session, latest, first)
    ensures !InSession(e, session) ==> Tracks(log + [e], session, latest, first)
    ensures InSession(e, session) ==>
      Tracks(log + [e], session, latest[StateKey(e) := e.body.exitCode],
             if StateKey(e) in first then first else first[StateKey(e) := |log|])
  {
    hide Tracks;
    if InSession(e, session) {
      TracksShell(log, e, session, latest, first);
    } else {
      TracksOther(log, e, session, latest, first);
    }
  }

  lemma TracksOther(log: seq<Event>, e: Event, session: string, latest: map<(string, string), Option<int>>,
                    first: map<(string, string), nat>)
    requires Tracks(log, session, latest, first) && !InSession(e, session)
    ensures Tracks(log + [e], session, latest, first)
  {
    var log' := log + [e];
    assert forall i | 0 <= i < |log| :: log'[i] == log[i];
    forall k | k in latest
      ensures k.0 == session
    {
      assert InSession(log[first[k]], session);
    }
    hide LatestCode;
    LatestCodePush(log, e);
  }

  lemma TracksShell(log: seq<Event>, e: Event, session: string, latest: map<(string, string), Option<int>>,
                    first: map<(string, string), nat>)
    requires Tracks(log, session, latest, first) && InSession(e, session)
    ensures Tracks(log + [e], session, latest[StateKey(e) := e.body.exitCode],
                   if StateKey(e) in first then first else first[StateKey(e) := |log|])
  {
    var log' := log + [e];
    assert forall i | 0 <= i < |log| :: log'[i] == log[i];
    hide LatestCode;
    LatestCodePush(log, e);
  }

  lemma LatestCodePush(log: seq<Event>, e: Event)
    ensures forall session, command ::
      LatestCode(log + [e], session, command) ==
         if e.body.Shell? && e.body.session == session && Collapse(e.body.command) == command then e.body.exitCode
         else LatestCode(log, session, command)
  {
    assert (log + [e])[..|log|] == log;
  }

  lemma {:induction false} FirstFailingAt(log: seq<Event>, rows: seq<Event>, session: string, i: nat)
    requires i <= |rows| && forall j | 0 <= j < i :: !StillFailing(log, rows[j], session)
    ensures FirstFailing(log, rows, session)
         == if i < |rows| && StillFailing(log, rows[i], session) then Some(rows[i])
            else FirstFailing(log, rows, session)
    ensures i == |rows| ==> FirstFailing(log, rows, session) == None
  {
    if i > 0 {
      assert forall j | 0 <= j < i - 1 :: rows[1..][j] == rows[j + 1];
      FirstFailingAt(log, rows[1..], session, i - 1);
    }
  }

  /** The oldest command of the session that is still failing, found with two maps. */
  method FailingCommand(log: seq<Event>, session: string) returns (row: Option<Event>)
    ensures row == FirstFailing(log, log, session)
  {
    hide Tracks, FirstFailing;
    var latest, first := CollectCodes(log, session);
    for i := 0 to |log|
      invariant forall j | 0 <= j < i :: !StillFailing(log, log[j], session)
    {
      FirstFailingAt(log, log, session, i);
      TracksAt(log, session, latest, first, i);
      if !log[i].body.Shell? { continue; }
      var key := StateKey(log[i]);
      if key.0 != session { continue; }
      var failing := latest[key].Some? && latest[key].value != 0;
      if failing && first[key] == i { return Some(log[i]); }
    }
    FirstFailingAt(log, log, session, |log|);
    return None;
  }

  /** The newest exit of each command of the session, and where it ran first. */
  method CollectCodes(log: seq<Event>, session: string)
    returns (latest: map<(string, string), Option<int>>, first: map<(string, string), nat>)
    ensures Tracks(log, session, latest, first)
  {
    latest, first := map[], map[];
    for i := 0 to |log|
      invariant Tracks(log[..i], session, latest, first)
    {
      TracksPush(log[..i], log[i], session, latest, first);
      assert log[..i] + [log[i]] == log[..i + 1];
      if !log[i].body.Shell? { continue; }
      var key := StateKey(log[i]);
      if key.0 != session { continue; }
      latest := latest[key := log[i].body.exitCode];
      if key !in first {
        first := first[key := i];
      }
    }
    assert log[..|log|] == log;
  }

  /** What the maps say about a row of the session: a row that fails but is not the first of
      its command has a failing row before it. */
  lemma TracksAt(log: seq<Event>, session: string, latest: map<(string, string), Option<int>>,
                 first: map<(string, string), nat>, i: nat)
    requires Tracks(log, session, latest, first) && i < |log|
    ensures InSession(log[i], session) ==>
      var key := StateKey(log[i]);
      && key in latest && key in first && first[key] <= i
      && (StillFailing(log, log[i], session) <==> latest[key].Some? && latest[key].value != 0)
      && (StillFailing(log, log[i], session) ==> StillFailing(log, log[first[key]], session))
  {
    if InSession(log[i], session) {
      var key := StateKey(log[i]);
      assert StateKey(log[first[key]]) == key;
    }
  }

  /** The newest code of every (session, command) key of the log. */
  predicate LatestOf(log: seq<Event>, latest: map<(string, string), Option<int>>) {
    && (forall k | k in latest :: latest[k] == LatestCode(log, k.0, k.1) && KeyUsed(log, k))
    && forall e | e in log && e.body.Shell? :: StateKey(e) in latest
  }

  predicate KeyUsed(log: seq<Event>, k: (string, string)) {
    exists e | e in log :: e.body.Shell? && StateKey(e) == k
  }

  lemma LatestPush(log: seq<Event>, e: Event, latest: map<(string, string), Option<int>>)
    requires LatestOf(log, latest)
    ensures LatestOf(log + [e], if e.body.Shell? then latest[StateKey(e) := e.body.exitCode] else latest)
  {
    assert (log + [e])[..|log|] == log;
    var next := if e.body.Shell? then latest[StateKey(e) := e.body.exitCode] else latest;
    forall k | k in next
      ensures next[k] == LatestCode(log + [e], k.0, k.1) && KeyUsed(log + [e], k)
    {
      if k in latest {
        var x :| x in log && x.body.Shell? && StateKey(x) == k;
        assert x in log + [e];
      }
      assert e in log + [e];
    }
  }

  predicate HasFailing(log: seq<Event>, session: string) {
    exists e | e in log :: StillFailing(log, e, session)
  }

  /** Sessions with a command whose newest row failed. */
  method OpenSessions(log: seq<Event>) returns (sessions: set<string>)
    ensures forall s :: s in sessions <==> HasFailing(log, s)
  {
    var latest: map<(string, string), Option<int>> := map[];
    for i := 0 to |log|
      invariant LatestOf(log[..i], latest)
    {
      LatestPush(log[..i], log[i], latest);
      assert log[..i] + [log[i]] == log[..i + 1];
      if !log[i].body.Shell? { continue; }
      latest := latest[StateKey(log[i]) := log[i].body.exitCode];
    }
    assert log[..|log|] == log;
    sessions := set k | k in latest && latest[k].Some? && latest[k].value != 0 :: k.0;
    forall s
      ensures s in sessions <==> HasFailing(log, s)
    {
      OpenIffFailing(log, latest, s);
    }
  }

  lemma OpenIffFailing(log: seq<Event>, latest: map<(string, string), Option<int>>, s: string)
    requires LatestOf(log, latest)
    ensures (exists k | k in latest :: latest[k].Some? && latest[k].value != 0 && k.0 == s) <==> HasFailing(log, s)
  {
    if HasFailing(log, s) {
      var e :| e in log && StillFailing(log, e, s);
      assert StateKey(e) in latest;
    }
    if exists k | k in latest :: latest[k].Some? && latest[k].value != 0 && k.0 == s {
      var k :| k in latest && latest[k].Some? && latest[k].value != 0 && k.0 == s;
      var e :| e in log && e.body.Shell? && StateKey(e) == k;
      assert StillFailing(log, e, s);
    }
  }

  /** The early exit for a session without a failing command loses nothing. */
  method TaskOfNote(log: seq<Event>, note: Event) returns (row: Option<Event>)
    requires note.body.Note?
    ensures row == NoteTask(log, note)
  {
    var sessions := OpenSessions(log);
    if note.body.session !in sessions {
      assert forall j | 0 <= j < |log| :: log[j] in log && !StillFailing(log, log[j], note.body.session);
      FirstFailingAt(log, log, note.body.session, |log|);
      return None;
    }
    row := FailingCommand(log, note.body.session);
  }

  // ---------- one pass, in place ----------

  class Extractor {
    const ph: Phrases
    var log: seq<Event>
    var projection: Projection
    var seen: seq<SeenKey>
    var report: Report

    /** The projection is the fold of the log. */
    ghost predicate Valid()
      reads this, projection
    {
      projection.Now() == Fold(log)
    }

    ghost function Value(): Pass
      reads this
    {
      Pass(log, seen, report)
    }

    constructor (ph: Phrases, events: seq<Event>)
      ensures Valid() && this.ph == ph
      ensures Value() == Pass(SortLog(events), SeedSeen(ph, SortLog(events)), Report([], [], []))
    {
      var sorted := SortLog(events);
      var keys := CollectSeen(ph, sorted);
      var folded := FoldLog(sorted);
      this.ph := ph;
      log, seen, projection := sorted, keys, folded;
      report := Report([], [], []);
    }

    method SkipUnit(unit: string, reason: Reason)
      modifies this`report
      ensures Value() == Skip(old(Value()), unit, reason)
    {
      report := report.(skipped := report.skipped + [(unit, reason)]);
    }

    /** Stamp the row past the newest one, push it, and refold. */
    method PushAndFold(ce: ClaimEvent, id: string)
      modifies this`log, this`projection
      ensures Valid() && log == PushRow(old(log), ce, id)
    {
      var newest := NewestAt(log);
      var at := if newest + 1000 <= U64_MAX then newest + 1000 else U64_MAX;
      hide Fold, MaxAt;
      log := log + [Event(id, at, Authored(Some(ce)))];
      projection := FoldLog(log);
    }

    method Accept(d: Draft)
      requires Valid()
      modifies this
      ensures Valid() && Value() == AcceptOrRecord(ph, old(Value()), d)
    {
      match Admit(ph, d, projection.Now(), seen, log)
      case Admitted(ce) =>
        seen := seen + [KeyOf(ph, KindOf(d.act), d.text)];
        PushAndFold(ce, "c2_" + d.claimId);
        report := report.(accepted := report.accepted + [d.claimId]);
      case Rejected(reason) =>
        if reason == Duplicate {
          SkipUnit(d.claimId, reason);
        } else {
          report := report.(rejected := report.rejected + [(d.claimId, reason)]);
        }
    }

    method Retract(note: Event, text: string)
      requires Valid()
      modifies this
      ensures Valid() && Value() == RetractNote(old(Value()), note, text)
    {
      var target := LongestQuoted(projection.claims, text);
      if target.None? {
        SkipUnit(note.id, NoQuotedClaim);
        return;
      }
      if Untouchable(target.value) {
        SkipUnit(note.id, ObservedTarget);
        return;
      }
      var ce := RetractEvent(note, target.value);
      var verdict := BothGates(ce, projection.Now());
      if verdict.Refuse? {
        SkipUnit(note.id, Gate(verdict.why));
        return;
      }
      PushAndFold(ce, "c2_retract_" + note.id);
      report := report.(accepted := report.accepted + ["retract_" + note.id]);
    }

    /** Try every draft against the log as it stands. */
    method TryDrafts(drafts: seq<Draft>) returns (refusal: Option<Reason>)
      requires Valid()
      ensures refusal == Trial(ph, log, seen, drafts)
    {
      var scratch := seen;
      for i := 0 to |drafts|
        invariant Trial(ph, log, seen, drafts) == Trial(ph, log, scratch, drafts[i..])
      {
        match Admit(ph, drafts[i], projection.Now(), scratch, log)
        case Rejected(reason) => return Some(reason);
        case Admitted(_) => scratch := scratch + [KeyOf(ph, KindOf(drafts[i].act), drafts[i].text)];
      }
      return None;
    }

    method Update(note: Event, text: string)
      requires Valid() && note.body.Note?
      modifies this
      ensures Valid() && Value() == UpdateNote(ph, old(Value()), note, text)
    {
      var wanted := Collapse(note.body.replacesText);
      var target := if wanted == "" then None else CurrentWithText(projection.claims, wanted);
      if target.None? {
        SkipUnit(note.id, NoQuotedClaim);
        return;
      }
      if Untouchable(target.value) {
        SkipUnit(note.id, ObservedTarget);
        return;
      }
      var task := TaskOfNote(log, note);
      if task.None? {
        SkipUnit(note.id, NoFailingCommand);
        return;
      }
      var drafts := UpdateDrafts(ph, log, note, text, task.value);
      if drafts == [] {
        SkipUnit(note.id, NothingDrafted);
        return;
      }
      var refusal := TryDrafts(drafts);
      if refusal.Some? {
        SkipUnit(note.id, refusal.value);
        return;
      }
      Replace(note, target.value, drafts);
    }

    method Replace(note: Event, target: Claim, drafts: seq<Draft>)
      requires Valid()
      modifies this
      ensures Valid() && Value() == ReplaceClaim(ph, old(Value()), note, target, drafts)
    {
      var ce := RetractEvent(note, target);
      var verdict := BothGates(ce, projection.Now());
      if verdict.Refuse? {
        SkipUnit(note.id, Gate(verdict.why));
        return;
      }
      PushAndFold(ce, "c2_retract_" + note.id);
      ghost var start := Value();
      for i := 0 to |drafts|
        invariant Valid() && AcceptAll(ph, start, drafts) == AcceptAll(ph, Value(), drafts[i..])
      {
        Accept(drafts[i]);
      }
    }

    method Quote(note: Event, drafts: seq<Draft>)
      requires Valid()
      modifies this
      ensures Valid() && Value() == QuoteDrafts(ph, old(Value()), note, drafts)
    {
      ghost var start := Value();
      for i := 0 to |drafts|
        invariant Valid() && QuoteDrafts(ph, start, note, drafts) == QuoteDrafts(ph, Value(), note, drafts[i..])
      {
        QuoteOne(note, drafts[i]);
      }
    }

    method QuoteOne(note: Event, d: Draft)
      requires Valid()
      modifies this
      ensures Valid() && Value() == QuoteDraft(ph, old(Value()), note, d)
    {
      if !Contains(d.sourceText, d.text) || d.text == "" {
        SkipUnit(note.id, NotSpan);
        return;
      }
      if !(1 <= |d.text| <= MAX_TEXT) {
        SkipUnit(note.id, BadLength);
        return;
      }
      var support := if d.supportText.Some? then d.supportText.value else "";
      if d.act.AsReality? && Overlap(ph, d.text, support) < MIN_OVERLAP {
        SkipUnit(note.id, NotGrounded);
        return;
      }
      Accept(d);
    }

    method Visit(applied: set<string>, index: nat)
      requires Valid() && index < |log|
      modifies this
      ensures Valid() && Value() == NoteStep(ph, old(Value()), applied, index)
    {
      var note := log[index];
      if !note.body.Note? { return; }
      if note.id in applied { return; }
      var text := Trim(note.body.text);
      if text == "" {
        SkipUnit(note.id, EmptyNote);
        return;
      }
      if IsRetract(ph, note) {
        Retract(note, text);
        return;
      }
      if note.body.role == "update" {
        Update(note, text);
        return;
      }
      var task := TaskOfNote(log, note);
      if task.None? {
        SkipUnit(note.id, NoFailingCommand);
        return;
      }
      var drafts := NoteDrafts(ph, log, note, index, task.value);
      if drafts == [] {
        SkipUnit(note.id, NothingDrafted);
        return;
      }
      Quote(note, drafts);
    }
  }

  /** One extraction pass over a log. */
  method RunExtraction(ph: Phrases, events: seq<Event>) returns (x: Extractor)
    ensures x.Valid() && x.Value() == Extract(ph, events)
  {
    x := new Extractor(ph, events);
    ghost var sorted := x.log;
    var count := |x.log|;
    var applied := CollectCited(x.log);
    for index := 0 to count
      invariant x.Valid() && x.ph == ph
      invariant x.Value() == ExtractUpTo(ph, sorted, index)
    {
      x.Visit(applied, index);
    }
  }
}
