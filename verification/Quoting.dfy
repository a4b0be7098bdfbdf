/** What it takes for a draft to be admitted, which command a note is about, and which claim a
    note replaces, in terms of the rows and the claims alone. */
module Quoting {
  import opened Text
  import opened Claims
  import opened Projector
  import opened CurrentView
  import opened GatedLog
  import opened FoldLaws
  import opened Trust
  import opened EventTable
  import opened Handoff
  import opened Admission
  import opened Gates

  // ---------- which commands fail ----------

  predicate RanIn(e: Event, session: string, command: string) {
    e.body.Shell? && e.body.session == session && Collapse(e.body.command) == command
  }

  /** The newest row of the command in the session has this exit code, or none. */
  predicate LastCode(log: seq<Event>, session: string, command: string, code: Option<int>) {
    exists i | 0 <= i < |log| ::
      RanIn(log[i], session, command) && log[i].body.exitCode == code && forall j | i < j < |log| :: !RanIn(log[j], session, command)
  }

  lemma {:induction false} LatestCodeIs(log: seq<Event>, session: string, command: string)
    ensures LatestCode(log, session, command).Some? ==> LastCode(log, session, command, LatestCode(log, session, command))
    ensures forall code | LastCode(log, session, command, code) :: LatestCode(log, session, command) == code
  {
    if log != [] {
      var init, e := log[..|log| - 1], log[|log| - 1];
      assert log == init + [e];
      LatestCodeIs(init, session, command);
      if RanIn(e, session, command) {
        assert log[|init|] == e;
      } else {
        forall code
          ensures LastCode(log, session, command, code) <==> LastCode(init, session, command, code)
        {
          OtherRowKeepsCode(init, e, session, command, code);
        }
      }
    }
  }

  lemma OtherRowKeepsCode(log: seq<Event>, e: Event, session: string, command: string, code: Option<int>)
    requires !RanIn(e, session, command)
    ensures LastCode(log + [e], session, command, code) <==> LastCode(log, session, command, code)
  {
    if LastCode(log, session, command, code) {
      var i :| 0 <= i < |log| && RanIn(log[i], session, command) && log[i].body.exitCode == code
        && forall j | i < j < |log| :: !RanIn(log[j], session, command);
      assert (log + [e])[i] == log[i];
    }
    if LastCode(log + [e], session, command, code) {
      var i :| 0 <= i < |log + [e]| && RanIn((log + [e])[i], session, command) && (log + [e])[i].body.exitCode == code
        && forall j | i < j < |log + [e]| :: !RanIn((log + [e])[j], session, command);
      assert log[i] == (log + [e])[i];
      assert forall j | i < j < |log| :: log[j] == (log + [e])[j];
    }
  }

  /** Row `k` is a command of the session whose newest row failed. */
  predicate FailsIn(log: seq<Event>, session: string, k: nat) {
    && k < |log| && log[k].body.Shell? && log[k].body.session == session
    && exists i | 0 <= i < |log| ::
         && RanIn(log[i], session, Collapse(log[k].body.command)) && log[i].body.exitCode.Some? && log[i].body.exitCode.value != 0
         && forall j | i < j < |log| :: !RanIn(log[j], session, Collapse(log[k].body.command))
  }

  lemma StillFailingIs(log: seq<Event>, session: string, k: nat)
    requires k < |log|
    ensures StillFailing(log, log[k], session) <==> FailsIn(log, session, k)
  {
    if log[k].body.Shell? {
      var command := Collapse(log[k].body.command);
      LatestCodeIs(log, session, command);
      if FailsIn(log, session, k) {
        var i :| 0 <= i < |log| && RanIn(log[i], session, command) && log[i].body.exitCode.Some? && log[i].body.exitCode.value != 0
          && forall j | i < j < |log| :: !RanIn(log[j], session, command);
        assert LastCode(log, session, command, log[i].body.exitCode);
      }
    }
  }

  lemma {:induction false} FirstFailingIs(log: seq<Event>, session: string, n: nat) returns (k: nat)
    requires n <= |log|
    ensures FirstFailing(log, log[n..], session).None? ==> forall j: nat | n <= j < |log| :: !FailsIn(log, session, j)
    ensures FirstFailing(log, log[n..], session).Some? ==>
      && n <= k && FailsIn(log, session, k) && FirstFailing(log, log[n..], session).value == log[k]
      && forall j: nat | n <= j < k :: !FailsIn(log, session, j)
    decreases |log| - n
  {
    hide FailsIn, StillFailing;
    k := n;
    if n < |log| {
      assert log[n..][0] == log[n] && log[n..][1..] == log[n + 1..];
      StillFailingIs(log, session, n);
      if !StillFailing(log, log[n], session) {
        k := FirstFailingIs(log, session, n + 1);
      }
    }
  }

  predicate OldestFailing(log: seq<Event>, session: string, k: nat) {
    FailsIn(log, session, k) && forall j: nat | j < k :: !FailsIn(log, session, j)
  }

  /** A note is about the session's oldest command that still fails; without one it is about
      nothing. */
  lemma NoteTaskIs(log: seq<Event>, note: Event)
    requires note.body.Note?
    ensures NoteTask(log, note).None? <==> forall k: nat :: !FailsIn(log, note.body.session, k)
    ensures NoteTask(log, note).Some? ==>
      (exists k: nat | k < |log| :: OldestFailing(log, note.body.session, k) && NoteTask(log, note).value == log[k])
  {
    hide FailsIn;
    assert log[0..] == log;
    var k := FirstFailingIs(log, note.body.session, 0);
    forall k: nat | FailsIn(log, note.body.session, k)
      ensures k < |log|
    {
      FailsInLog(log, note.body.session, k);
    }
  }

  lemma FailsInLog(log: seq<Event>, session: string, k: nat)
    requires FailsIn(log, session, k)
    ensures k < |log|
  {
  }

  /** A shell row with a code and a command text, under the subject that the gate gives it. */
  predicate EndsAs(e: Event, subject: string) {
    e.body.Shell? && e.body.command != "" && e.body.exitCode.Some? && Trim(e.body.cwd) + "\n" + Collapse(e.body.command) == subject
  }

  /** The newest row under the subject failed. */
  predicate SubjectFails(log: seq<Event>, subject: string) {
    exists i | 0 <= i < |log| ::
      EndsAs(log[i], subject) && log[i].body.exitCode.value != 0 && forall j | i < j < |log| :: !EndsAs(log[j], subject)
  }

  predicate LastEnd(log: seq<Event>, subject: string, i: nat) {
    i < |log| && EndsAs(log[i], subject) && forall j | i < j < |log| :: !EndsAs(log[j], subject)
  }

  lemma {:induction false} LatestExitIs(log: seq<Event>, subject: string) returns (i: nat)
    ensures subject in LatestExit(log) ==> LastEnd(log, subject, i) && log[i].body.exitCode.value == LatestExit(log)[subject]
    ensures subject !in LatestExit(log) ==> forall j | 0 <= j < |log| :: !EndsAs(log[j], subject)
  {
    i := 0;
    if log != [] {
      var init, e := log[..|log| - 1], log[|log| - 1];
      assert log == init + [e];
      i := LatestExitIs(init, subject);
      if EndsAs(e, subject) {
        i := |init|;
      }
    }
  }

  lemma FailingIs(log: seq<Event>, subject: string)
    ensures subject in FailingSubjects(log) <==> SubjectFails(log, subject)
  {
    var i := LatestExitIs(log, subject);
    if SubjectFails(log, subject) {
      var k :| 0 <= k < |log| && EndsAs(log[k], subject) && log[k].body.exitCode.value != 0
        && forall j | k < j < |log| :: !EndsAs(log[j], subject);
      assert k == i;
    }
  }

  // ---------- admission ----------

  predicate FirstWith(log: seq<Event>, id: string, i: nat) {
    i < |log| && log[i].id == id && forall j | 0 <= j < i :: log[j].id != id
  }

  lemma FindRowIs(log: seq<Event>, id: string)
    ensures FindRow(log, id).None? <==> forall e | e in log :: e.id != id
    ensures forall i: nat | FirstWith(log, id, i) :: FindRow(log, id) == Some(log[i])
    ensures FindRow(log, id).Some? ==> exists i: nat :: FirstWith(log, id, i)
  {
    var k := RowIndex(log, id);
    if e :| e in log && e.id == id {
      var i :| 0 <= i < |log| && log[i] == e;
    }
    if k < |log| {
      assert FirstWith(log, id, k);
    }
    forall i: nat | FirstWith(log, id, i)
      ensures i == k
    {
    }
  }

  predicate ShellAt(log: seq<Event>, id: string, i: nat) {
    FirstWith(log, id, i) && log[i].body.Shell?
  }

  /** Row `i` is the first shell row that is cited. */
  ghost predicate FirstCitedShell(log: seq<Event>, ids: seq<string>, i: nat) {
    exists n | 0 <= n < |ids| :: ShellAt(log, ids[n], i) && forall m, j: nat | 0 <= m < n :: !ShellAt(log, ids[m], j)
  }

  lemma {:induction false} FirstShellIs(log: seq<Event>, ids: seq<string>)
    ensures FirstShell(log, ids).None? ==> forall m, j: nat | 0 <= m < |ids| :: !ShellAt(log, ids[m], j)
    ensures FirstShell(log, ids).Some? ==> exists i: nat :: FirstCitedShell(log, ids, i) && FirstShell(log, ids).value == log[i]
    ensures forall i: nat | FirstCitedShell(log, ids, i) :: FirstShell(log, ids) == Some(log[i])
  {
    if ids != [] {
      FindRowIs(log, ids[0]);
      FirstShellIs(log, ids[1..]);
      var row := FindRow(log, ids[0]);
      if row.Some? && row.value.body.Shell? {
        var i: nat :| FirstWith(log, ids[0], i);
        assert ShellAt(log, ids[0], i) && FirstCitedShell(log, ids, i);
      } else {
        forall j: nat
          ensures !ShellAt(log, ids[0], j)
        {
        }
        forall i: nat
          ensures FirstCitedShell(log, ids, i) <==> FirstCitedShell(log, ids[1..], i)
        {
          LaterShell(log, ids, i);
        }
      }
    }
  }

  lemma LaterShell(log: seq<Event>, ids: seq<string>, i: nat)
    requires ids != [] && forall j: nat :: !ShellAt(log, ids[0], j)
    ensures FirstCitedShell(log, ids, i) <==> FirstCitedShell(log, ids[1..], i)
  {
    var rest := ids[1..];
    if FirstCitedShell(log, ids, i) {
      var n :| 0 <= n < |ids| && ShellAt(log, ids[n], i) && forall m, j: nat | 0 <= m < n :: !ShellAt(log, ids[m], j);
      assert rest[n - 1] == ids[n] && forall m | 0 <= m < n - 1 :: rest[m] == ids[m + 1];
    }
    if FirstCitedShell(log, rest, i) {
      var n :| 0 <= n < |rest| && ShellAt(log, rest[n], i) && forall m, j: nat | 0 <= m < n :: !ShellAt(log, rest[m], j);
      assert ids[n + 1] == rest[n] && forall m | 0 < m < n + 1 :: ids[m] == rest[m - 1];
    }
  }

  /** The first cited shell row is what the draft was read with, and the text shares two
      content tokens with its output. */
  ghost predicate Supported(ph: Phrases, d: Draft, log: seq<Event>) {
    exists i: nat ::
      && FirstCitedShell(log, d.evidenceIds, i) && i < |log| && log[i].body.Shell?
      && (d.supportText.Some? ==> d.supportText.value == log[i].body.output)
      && |ph.tokens(Trim(d.text)) * ph.tokens(log[i].body.output)| >= 2
  }

  /** The draft quotes the note it cites first. */
  ghost predicate QuotesFirst(d: Draft, log: seq<Event>) {
    exists i: nat ::
      && d.evidenceIds != [] && FirstWith(log, d.evidenceIds[0], i) && i < |log| && log[i].body.Note?
      && log[i].body.text == d.sourceText && Contains(log[i].body.text, Trim(d.text))
  }

  predicate CitesRows(d: Draft, log: seq<Event>) {
    forall id | id in d.evidenceIds :: exists e | e in log :: e.id == id
  }

  lemma EvidenceIs(ph: Phrases, d: Draft, log: seq<Event>)
    ensures EvidenceCheck(ph, d, log).None? <==>
      && CitesRows(d, log) && QuotesFirst(d, log) && Trim(d.text) != ""
      && Trim(d.taskSubject) != "" && SubjectFails(log, Trim(d.taskSubject))
  {
    hide FirstWith, SubjectFails, FailingSubjects, FindRow, CitesRows, Contains;
    FailingIs(log, Trim(d.taskSubject));
    CitesIs(d, log);
    if d.evidenceIds != [] {
      FindRowIs(log, d.evidenceIds[0]);
      FirstWithIn(log, d.evidenceIds[0]);
      var row := FindRow(log, d.evidenceIds[0]);
      if row.Some? {
        var i: nat :| FirstWith(log, d.evidenceIds[0], i);
        assert row.value == log[i];
      }
    }
  }

  lemma CitesIs(d: Draft, log: seq<Event>)
    ensures CitesRows(d, log) <==> forall i | 0 <= i < |d.evidenceIds| :: FindRow(log, d.evidenceIds[i]).Some?
  {
    hide FindRow;
    forall id
      ensures FindRow(log, id).None? <==> forall e | e in log :: e.id != id
    {
      FindRowIs(log, id);
    }
    if i :| 0 <= i < |d.evidenceIds| && FindRow(log, d.evidenceIds[i]).None? {
      assert d.evidenceIds[i] in d.evidenceIds;
    }
    forall id | id in d.evidenceIds && forall e | e in log :: e.id != id
      ensures exists i | 0 <= i < |d.evidenceIds| :: FindRow(log, d.evidenceIds[i]).None?
    {
      var i :| 0 <= i < |d.evidenceIds| && d.evidenceIds[i] == id;
    }
  }

  lemma FirstWithIn(log: seq<Event>, id: string)
    ensures forall i: nat | FirstWith(log, id, i) :: i < |log|
  {
  }

  lemma SupportIs(ph: Phrases, d: Draft, log: seq<Event>)
    ensures SupportCheck(ph, d, log).None? <==> (d.act.AsReality? ==> Supported(ph, d, log))
  {
    hide FirstShell, FirstCitedShell;
    FirstShellIs(log, d.evidenceIds);
    var support := FirstShell(log, d.evidenceIds);
    if support.Some? {
      var i: nat :| FirstCitedShell(log, d.evidenceIds, i) && (i < |log| ==> log[i] == support.value);
      CitedIn(log, d.evidenceIds, i);
      OnlyShell(ph, d, log, i);
    } else {
      forall i: nat
        ensures !FirstCitedShell(log, d.evidenceIds, i)
      {
        NoShellCited(log, d.evidenceIds, i);
      }
    }
  }

  lemma OnlyShell(ph: Phrases, d: Draft, log: seq<Event>, i: nat)
    requires FirstCitedShell(log, d.evidenceIds, i) && i < |log| && log[i].body.Shell?
    ensures Supported(ph, d, log) <==>
      && (d.supportText.Some? ==> d.supportText.value == log[i].body.output)
      && |ph.tokens(Trim(d.text)) * ph.tokens(log[i].body.output)| >= 2
  {
    hide FirstCitedShell;
    FirstShellIs(log, d.evidenceIds);
  }

  lemma NoShellCited(log: seq<Event>, ids: seq<string>, i: nat)
    requires forall m, j: nat | 0 <= m < |ids| :: !ShellAt(log, ids[m], j)
    ensures !FirstCitedShell(log, ids, i)
  {
  }

  lemma CitedIn(log: seq<Event>, ids: seq<string>, i: nat)
    requires FirstCitedShell(log, ids, i)
    ensures i < |log| && log[i].body.Shell?
  {
  }

  /** Who says what a draft says, and how firmly. */
  function Voice(act: Act): (Kind, Origin, Confidence) {
    match act
    case AsConstraint => (Constraint, User, Stated)
    case AsDecision => (Decision, Agent, Inferred)
    case AsRuledOut => (RuledOut, Agent, Inferred)
    case AsNextAction => (NextAction, Agent, Inferred)
    case AsUnknown => (Unknown, Agent, Hypothesis)
    case AsReality => (Reality, Agent, Inferred)
  }

  /** A next action yields to the user's on that task. */
  predicate NoUserTurn(view: View, taskId: string) {
    forall c | c in view.claims && c.status == Current && c.taskId == taskId && c.kind == NextAction && c.subject == "frontier" ::
      c.origin != User
  }

  lemma GateIs(d: Draft, view: View)
    requires WellFormed(view.claims)
    ensures GateCheck(d, view).None? <==>
      1 <= |Trim(d.text)| <= 500 && (d.act.AsNextAction? ==> NoUserTurn(view, TaskIdFor(d.taskSubject)))
  {
    hide ValidateAgainst, Validate, Trim;
    TrimKeeps(d.text);
    var ce := DraftEvent(d);
    UserRowAccepted(ce);
    AgentRowAccepted(ce);
    ViewAccepts(ce.origin, ce, view);
  }

  /** A draft is admitted exactly if all it cites is in the log, the first of that a note that
      it quotes, its text is of good length, its task's newest run failed, nothing of its kind
      said the same before, a finding is supported, and a next action yields to the user's.
      The row then says what the draft says, in the draft's voice. */
  lemma AdmittedIff(ph: Phrases, d: Draft, view: View, seen: seq<SeenKey>, log: seq<Event>)
    requires WellFormed(view.claims)
    ensures Admit(ph, d, view, seen, log).Admitted? <==>
      && CitesRows(d, log) && QuotesFirst(d, log) && 1 <= |Trim(d.text)| <= 500
      && Trim(d.taskSubject) != "" && SubjectFails(log, Trim(d.taskSubject))
      && (Voice(d.act).0, ph.lower(Collapse(Trim(d.text)))) !in seen
      && (d.act.AsReality? ==> Supported(ph, d, log))
      && (d.act.AsNextAction? ==> NoUserTurn(view, TaskIdFor(d.taskSubject)))
    ensures var a := Admit(ph, d, view, seen, log);
      a.Admitted? ==>
        a.row == ClaimEvent(
          Assert, d.claimId, TaskIdFor(d.taskSubject), Some(Voice(d.act).0),
          Some(if d.act.AsNextAction? then "frontier" else d.claimId), Some(Trim(d.text)), Some(Voice(d.act).2), Voice(d.act).1,
          None, [], d.evidenceIds, None)
  {
    hide EvidenceCheck, SupportCheck, GateCheck, Supported, QuotesFirst, CitesRows, SubjectFails, NoUserTurn, Trim;
    EvidenceIs(ph, d, log);
    SupportIs(ph, d, log);
    GateIs(d, view);
  }

  /** An update's drafts pass its trial exactly if each would be admitted by itself, none says
      what was said before, and no two say the same. */
  lemma {:induction false} TrialIff(ph: Phrases, log: seq<Event>, seen: seq<SeenKey>, ds: seq<Draft>)
    ensures Trial(ph, log, seen, ds).None? <==> AllPass(ph, log, seen, ds)
    decreases |ds|
  {
    if ds != [] {
      hide AllPass, Admit, DraftKey, Fold, Trial;
      AdmittedUnseen(ph, ds[0], seen, log);
      TrialStep(ph, log, seen, ds);
      TrialIff(ph, log, seen + [DraftKey(ph, ds[0])], ds[1..]);
      PassFirst(ph, log, seen, ds);
    }
  }

  /** Each draft by itself is admitted, none says what was said before, no two say the same. */
  predicate AllPass(ph: Phrases, log: seq<Event>, seen: seq<SeenKey>, ds: seq<Draft>) {
    && (forall i | 0 <= i < |ds| :: Admit(ph, ds[i], Fold(log), [], log).Admitted? && DraftKey(ph, ds[i]) !in seen)
    && forall i, j | 0 <= i < j < |ds| :: DraftKey(ph, ds[i]) != DraftKey(ph, ds[j])
  }

  lemma PassFirst(ph: Phrases, log: seq<Event>, seen: seq<SeenKey>, ds: seq<Draft>)
    requires ds != []
    ensures AllPass(ph, log, seen, ds)
      <==> Admit(ph, ds[0], Fold(log), [], log).Admitted? && DraftKey(ph, ds[0]) !in seen
           && AllPass(ph, log, seen + [DraftKey(ph, ds[0])], ds[1..])
  {
    hide Admit, DraftKey, Fold;
    var more := seen + [DraftKey(ph, ds[0])];
    if AllPass(ph, log, more, ds[1..]) {
      forall i | 0 < i < |ds|
        ensures Admit(ph, ds[i], Fold(log), [], log).Admitted? && DraftKey(ph, ds[i]) !in more
      {
        assert ds[i] == ds[1..][i - 1];
      }
      forall i, j | 0 < i < j < |ds|
        ensures DraftKey(ph, ds[i]) != DraftKey(ph, ds[j])
      {
        assert ds[i] == ds[1..][i - 1] && ds[j] == ds[1..][j - 1];
      }
      assert DraftKey(ph, ds[0]) in more && forall k | k in seen :: k in more;
    }
  }

  lemma TrialStep(ph: Phrases, log: seq<Event>, seen: seq<SeenKey>, ds: seq<Draft>)
    requires ds != []
    ensures Trial(ph, log, seen, ds).None? <==>
      Admit(ph, ds[0], Fold(log), seen, log).Admitted? && Trial(ph, log, seen + [DraftKey(ph, ds[0])], ds[1..]).None?
  {
    hide Admit;
  }

  lemma AdmittedUnseen(ph: Phrases, d: Draft, seen: seq<SeenKey>, log: seq<Event>)
    ensures Admit(ph, d, Fold(log), seen, log).Admitted?
      <==> Admit(ph, d, Fold(log), [], log).Admitted? && DraftKey(ph, d) !in seen
  {
    hide EvidenceCheck, SupportCheck, GateCheck, Fold;
    CollapseStable(d.text);
  }

  // ---------- which claim a note is about ----------

  /** Of the longest current claims that the text quotes, the newest. */
  predicate NewestLongest(claims: seq<Claim>, text: string, i: nat) {
    && i < |claims| && claims[i].status == Current && Contains(text, claims[i].text)
    && forall j | 0 <= j < |claims| && claims[j].status == Current && Contains(text, claims[j].text) ::
         if j <= i then ByteLength(claims[j].text) <= ByteLength(claims[i].text)
         else ByteLength(claims[j].text) < ByteLength(claims[i].text)
  }

  lemma {:induction false} LongestQuotedIs(claims: seq<Claim>, text: string) returns (i: nat)
    ensures LongestQuoted(claims, text).None? ==> forall c | c in claims && c.status == Current :: !Contains(text, c.text)
    ensures LongestQuoted(claims, text).Some? ==> NewestLongest(claims, text, i) && LongestQuoted(claims, text).value == claims[i]
  {
    i := 0;
    if claims != [] {
      hide Contains, ByteLength;
      var init, last := claims[..|claims| - 1], claims[|claims| - 1];
      assert claims == init + [last];
      LongestIsLongest(init, text);
      i := LongestQuotedIs(init, text);
      var best := LongestQuoted(init, text);
      if last.status == Current && Contains(text, last.text)
         && (best.None? || ByteLength(last.text) >= ByteLength(best.value.text)) {
        i := |init|;
        forall j | 0 <= j < |init| && claims[j].status == Current && Contains(text, claims[j].text)
          ensures ByteLength(claims[j].text) <= ByteLength(last.text)
        {
          assert init[j] == claims[j] && init[j] in init;
        }
      }
    }
  }

  /** The oldest current claim that says what the note wants replaced, whitespace aside. */
  predicate Wanted(claims: seq<Claim>, note: Event, i: nat) {
    && note.body.Note? && i < |claims| && claims[i].status == Current
    && Collapse(note.body.replacesText) != "" && Collapse(claims[i].text) == Collapse(note.body.replacesText)
    && forall j | 0 <= j < i && claims[j].status == Current :: Collapse(claims[j].text) != Collapse(note.body.replacesText)
  }

  lemma {:induction false} WithTextIs(claims: seq<Claim>, wanted: string) returns (i: nat)
    ensures CurrentWithText(claims, wanted).None? ==> forall c | c in claims && c.status == Current :: Collapse(c.text) != wanted
    ensures CurrentWithText(claims, wanted).Some? ==>
      && i < |claims| && CurrentWithText(claims, wanted).value == claims[i] && claims[i].status == Current
      && Collapse(claims[i].text) == wanted && forall j | 0 <= j < i && claims[j].status == Current :: Collapse(claims[j].text) != wanted
  {
    i := 0;
    if claims != [] {
      hide Collapse;
      assert claims == [claims[0]] + claims[1..];
      if !(claims[0].status == Current && Collapse(claims[0].text) == wanted) {
        i := WithTextIs(claims[1..], wanted);
        if CurrentWithText(claims, wanted).Some? {
          forall j | 0 <= j < i + 1 && claims[j].status == Current
            ensures Collapse(claims[j].text) != wanted
          {
            if j > 0 {
              assert claims[1..][j - 1] == claims[j];
            }
          }
          i := i + 1;
        }
      }
    }
  }

  /** The row with which a note retires a claim, in the voice of the claim's author. */
  function RetractionOf(note: Event, c: Claim): ClaimEvent {
    ClaimEvent(Supersede, "retract_" + note.id, c.taskId, None, None, None, None, if c.origin == User then User else Agent,
               None, [], [note.id], Some(c.id))
  }

  lemma RetractionIs(note: Event, c: Claim)
    ensures RetractEvent(note, c) == RetractionOf(note, c) && RetractEvent(note, c).kind.None?
  {
  }

  /** The row that an update names as its support, if that is a shell row. */
  ghost predicate SupportNamed(log: seq<Event>, id: string, support: Option<Event>) {
    if exists i: nat :: id != "" && ShellAt(log, id, i) then exists i: nat :: ShellAt(log, id, i) && support == Some(log[i])
    else support.None?
  }

  /** What the sentences of an update become, for the command it is about. */
  ghost predicate DraftedAs(ph: Phrases, log: seq<Event>, note: Event, text: string, k: nat, ds: seq<Draft>) {
    && note.body.Note? && k < |log| && log[k].body.Shell?
    && exists support :: SupportNamed(log, note.body.supportId, support)
         && ds == DraftsOf(note, ph.natural(note.(body := note.body.(role := "conclusion")), text, support), support,
                           Trim(log[k].body.cwd) + "\n" + Collapse(log[k].body.command))
  }

  /** An update's target, its command and its drafts. */
  ghost predicate Updates(ph: Phrases, p: Pass, note: Event, text: string, i: nat, k: nat, ds: seq<Draft>)
    requires note.body.Note?
  {
    && Wanted(Fold(p.log).claims, note, i) && Fold(p.log).claims[i].origin != Projector
    && Fold(p.log).claims[i].confidence != Observed
    && OldestFailing(p.log, note.body.session, k) && DraftedAs(ph, p.log, note, text, k, ds) && ds != []
    && AllPass(ph, p.log, p.seen, ds)
  }

  lemma TargetIs(log: seq<Event>, note: Event) returns (i: nat, k: nat)
    requires note.body.Note?
    ensures var t, cs := UpdateTarget(log, note), Fold(log).claims;
      if t.Found? then
        && Wanted(cs, note, i) && i < |cs| && t.claim == cs[i] && cs[i].origin != Projector && cs[i].confidence != Observed
        && OldestFailing(log, note.body.session, k) && k < |log| && t.task == log[k] && log[k].body.Shell?
      else
        forall j: nat, m: nat | Wanted(cs, note, j) && OldestFailing(log, note.body.session, m) ::
          cs[j].origin == Projector || cs[j].confidence == Observed
  {
    hide Fold, FailsIn, Collapse;
    var cs, wanted := Fold(log).claims, Collapse(note.body.replacesText);
    i := WithTextIs(cs, wanted);
    NoteTaskIs(log, note);
    k := 0;
    if NoteTask(log, note).Some? {
      k :| k < |log| && OldestFailing(log, note.body.session, k) && NoteTask(log, note).value == log[k];
      FailsShell(log, note.body.session, k);
    }
    forall j: nat | Wanted(cs, note, j)
      ensures j == i && CurrentWithText(cs, wanted).Some?
    {
      assert cs[j] in cs;
    }
  }

  lemma FailsShell(log: seq<Event>, session: string, k: nat)
    requires FailsIn(log, session, k)
    ensures k < |log| && log[k].body.Shell?
  {
  }

  lemma DraftsAreDrafted(ph: Phrases, log: seq<Event>, note: Event, text: string, k: nat)
    requires note.body.Note? && k < |log| && log[k].body.Shell?
    ensures DraftedAs(ph, log, note, text, k, UpdateDrafts(ph, log, note, text, log[k]))
    ensures forall ds | DraftedAs(ph, log, note, text, k, ds) :: ds == UpdateDrafts(ph, log, note, text, log[k])
  {
    hide DraftsOf, FindRow;
    FindRowIs(log, note.body.supportId);
    var support := if note.body.supportId == "" then None else ShellOnly(FindRow(log, note.body.supportId));
    if i: nat :| note.body.supportId != "" && ShellAt(log, note.body.supportId, i) {
      assert support == Some(log[i]);
    } else if note.body.supportId != "" && FindRow(log, note.body.supportId).Some? {
      var i: nat :| FirstWith(log, note.body.supportId, i);
      assert !ShellAt(log, note.body.supportId, i);
    }
    assert SupportNamed(log, note.body.supportId, support);
  }

  lemma OnlyOneWanted(claims: seq<Claim>, note: Event, i: nat, j: nat)
    requires Wanted(claims, note, i) && Wanted(claims, note, j)
    ensures i == j
  {
    hide Collapse;
  }

  /** The update the branches find is the one described. */
  lemma UpdateFound(ph: Phrases, p: Pass, note: Event, text: string) returns (i: nat, k: nat, ds: seq<Draft>)
    requires note.body.Note?
    ensures MayUpdate(ph, p, note, text) ==>
      && Updates(ph, p, note, text, i, k, ds) && i < |Fold(p.log).claims| && UpdateTarget(p.log, note).claim == Fold(p.log).claims[i]
      && UpdateDrafts(ph, p.log, note, text, UpdateTarget(p.log, note).task) == ds
    ensures forall j: nat, m: nat, es | Updates(ph, p, note, text, j, m, es) :: MayUpdate(ph, p, note, text) && j == i && es == ds
  {
    hide Fold, UpdateTarget, UpdateDrafts, Trial, AllPass, Wanted, OldestFailing, DraftedAs;
    i, k := TargetIs(p.log, note);
    ds := [];
    var t := UpdateTarget(p.log, note);
    if t.Found? {
      ds := UpdateDrafts(ph, p.log, note, text, p.log[k]);
      DraftsAreDrafted(ph, p.log, note, text, k);
      TrialIff(ph, p.log, p.seen, ds);
    }
    forall j: nat, m: nat, es | Updates(ph, p, note, text, j, m, es)
      ensures MayUpdate(ph, p, note, text) && j == i && es == ds
    {
      assert Wanted(Fold(p.log).claims, note, j) && OldestFailing(p.log, note.body.session, m);
      assert t.Found?;
      OnlyOneWanted(Fold(p.log).claims, note, i, j);
      OnlyOneOldest(p.log, note.body.session, k, m);
    }
  }

  lemma OnlyOneOldest(log: seq<Event>, session: string, k: nat, m: nat)
    requires OldestFailing(log, session, k) && OldestFailing(log, session, m)
    ensures k == m
  {
    hide FailsIn;
  }

  lemma UpdateRows(ph: Phrases, p: Pass, note: Event, text: string, i: nat, ds: seq<Draft>)
    requires note.body.Note? && NoUserNextAction(p.log) && AssertedOnce(p.log) && MayUpdate(ph, p, note, text)
    requires forall c | c in Fold(p.log).claims :: c.id != ""
    requires i < |Fold(p.log).claims| && UpdateTarget(p.log, note).claim == Fold(p.log).claims[i]
    requires UpdateDrafts(ph, p.log, note, text, UpdateTarget(p.log, note).task) == ds
    ensures var after := UpdateNote(ph, p, note, text).log;
      && |after| == |p.log| + 1 + |ds| && after[..|p.log|] == p.log
      && after[|p.log|].body == Authored(Some(RetractionOf(note, Fold(p.log).claims[i])))
      && (forall j | 0 <= j < |ds| :: after[|p.log| + 1 + j].body == Authored(Some(DraftEvent(ds[j]))))
      && i < |Fold(after).claims| && Fold(after).claims[i].status == Superseded
  {
    hide Fold, UpdateTarget, UpdateDrafts, AcceptAll, UpdateNote, AssertedOnce, NoUserNextAction, RetractionOf, RetractFor, Trial;
    var t := TargetAt(p.log, note);
    assert Fold(p.log).claims[i] == Fold(p.log).claims[t];
    UpdateIsReplace(ph, p, note, text, i);
    ReplacingRows(ph, p, note, i, ds);
  }

  /** What is pushed once the target and the drafts are known to be good. */
  lemma ReplacingRows(ph: Phrases, p: Pass, note: Event, i: nat, ds: seq<Draft>)
    requires NoUserNextAction(p.log) && AssertedOnce(p.log) && i < |Fold(p.log).claims|
    requires !Untouchable(Fold(p.log).claims[i]) && Fold(p.log).claims[i].id != "" && Trial(ph, p.log, p.seen, ds).None?
    ensures var after := AcceptAll(ph, RetractFor(p, note, Fold(p.log).claims[i]), ds).log;
      && |after| == |p.log| + 1 + |ds| && after[..|p.log|] == p.log
      && after[|p.log|].body == Authored(Some(RetractionOf(note, Fold(p.log).claims[i])))
      && (forall j | 0 <= j < |ds| :: after[|p.log| + 1 + j].body == Authored(Some(DraftEvent(ds[j]))))
      && i < |Fold(after).claims| && Fold(after).claims[i].status == Superseded
  {
    hide Fold, AcceptAll, PushedAll, AssertedOnce, NoUserNextAction, RetractEvent, RetractionOf, Trial;
    var c := Fold(p.log).claims[i];
    var r := RetractFor(p, note, c);
    RetractionIs(note, c);
    PushKeepsNoUser(p.log, RetractEvent(note, c), "c2_retract_" + note.id);
    TrialHolds(ph, p.log, r, ds);
    RowsAfter(p.log, r.log, AcceptAll(ph, r, ds).log, ds);
    RetractRetires(p.log, note, i);
    StaysSuperseded(AcceptAll(ph, r, ds).log, |r.log|, i);
  }

  lemma RowsAfter(log: seq<Event>, retracted: seq<Event>, after: seq<Event>, ds: seq<Draft>)
    requires PushedAll(retracted, after, ds) && |retracted| == |log| + 1 && retracted[..|log|] == log
    ensures |after| == |log| + 1 + |ds| && after[..|log|] == log && after[|log|] == retracted[|log|] && after[..|retracted|] == retracted
    ensures forall j | 0 <= j < |ds| :: after[|log| + 1 + j].body == Authored(Some(DraftEvent(ds[j])))
  {
    assert after[..|log|] == retracted[..|log|];
  }

  /** An update note goes through exactly if an author's current claim says what it wants
      replaced, its session has a command that still fails, and what it says instead passes the
      trial. Then the oldest such claim, and the drafts, are what it replaces and adds: the row
      that retires the claim comes first, in the voice of the claim's author, and one row for
      each draft follows. Otherwise the log stays as it is. */
  lemma UpdateReplacesWanted(ph: Phrases, p: Pass, note: Event, text: string)
    requires note.body.Note? && NoUserNextAction(p.log) && AssertedOnce(p.log)
    requires forall c | c in Fold(p.log).claims :: c.id != ""
    ensures UpdateNote(ph, p, note, text).log != p.log <==>
      exists i: nat, k: nat, ds :: Updates(ph, p, note, text, i, k, ds)
    ensures forall i: nat, k: nat, ds | Updates(ph, p, note, text, i, k, ds) ::
      var after := UpdateNote(ph, p, note, text).log;
      && |after| == |p.log| + 1 + |ds| && after[..|p.log|] == p.log
      && after[|p.log|].body == Authored(Some(RetractionOf(note, Fold(p.log).claims[i])))
      && (forall j | 0 <= j < |ds| :: after[|p.log| + 1 + j].body == Authored(Some(DraftEvent(ds[j]))))
      && i < |Fold(after).claims| && Fold(after).claims[i].status == Superseded
  {
    hide Fold, UpdateNote, Updates, MayUpdate, AssertedOnce;
    var i, k, ds := UpdateFound(ph, p, note, text);
    UpdatesIff(ph, p, note, text);
    if MayUpdate(ph, p, note, text) {
      UpdateRows(ph, p, note, text, i, ds);
    }
  }
}
