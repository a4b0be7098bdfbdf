/** What the rows of an extraction pass say: sound quotes, gated rows, in table order. */
module Appended {
  import opened Text
  import opened Claims
  import opened Projector
  import opened CurrentView
  import opened GatedLog
  import opened Trust
  import opened EventTable
  import opened Handoff
  import opened Admission
  import opened Extraction
  import opened Convergence

  // ---------- sound quotes ----------

  /** The text is a contiguous span of the note the row cites first. */
  ghost predicate QuotesNote(log: seq<Event>, ce: ClaimEvent) {
    ce.evidenceIds != [] && ce.text.Some? && ce.text.value != ""
    && exists k | k in log :: k.id == ce.evidenceIds[0] && k.body.Note? && Contains(k.body.text, ce.text.value)
  }

  /** The task is a command's, and the trimmed subject of the command is failing. */
  ghost predicate OnFailingCommand(log: seq<Event>, ce: ClaimEvent) {
    exists cwd, command :: ce.taskId == TaskIdFor(ShellSubject(cwd, command))
      && Trim(ShellSubject(cwd, command)) in FailingSubjects(log)
  }

  /** A finding shares two content tokens with a cited command's output. */
  ghost predicate Grounded(ph: Phrases, log: seq<Event>, ce: ClaimEvent) {
    ce.text.Some?
    && (ce.kind == Some(Reality) ==>
          exists k | k in log :: k.id in ce.evidenceIds && k.body.Shell?
            && Overlap(ph, ce.text.value, k.body.output) >= MIN_OVERLAP)
  }

  ghost predicate SoundAssert(ph: Phrases, log: seq<Event>, seen: seq<SeenKey>, ce: ClaimEvent) {
    && QuotesNote(log, ce) && OnFailingCommand(log, ce) && Grounded(ph, log, ce)
    && ce.kind.Some? && KeyOf(ph, ce.kind.value, ce.text.value) !in seen
    && ce.confidence.Some? && ce.confidence.value != Observed && ce.origin != Projector
  }

  lemma TrimNoNewline(s: string)
    requires NoNewline(s)
    ensures NoNewline(Trim(s))
  {
    TrimStartFacts(s);
    TrimEndFacts(TrimStart(s));
  }

  lemma TrimEnds(s: string)
    ensures Trim(s) != "" ==> !IsSpace(Trim(s)[0]) && !IsSpace(Trim(s)[|Trim(s)| - 1])
  {
    TrimStartFacts(s);
    TrimEndFacts(TrimStart(s));
  }

  lemma TrimDropsFirst(c: char, s: string)
    requires IsSpace(c)
    ensures Trim([c] + s) == Trim(s)
  {
    assert ([c] + s)[1..] == s;
  }

  lemma SubjectTrims(cwd: string, command: string)
    ensures Trim(cwd) == "" ==> NoNewline(Trim(ShellSubject(cwd, command)))
    ensures Trim(cwd) != "" && Trim(command) != "" ==> Trim(ShellSubject(cwd, command)) == ShellSubject(cwd, command)
  {
    var d, c := Trim(cwd), Collapse(command);
    WordsAreWords(command);
    JoinShape(Words(command));
    CollapseStable(command);
    if d == "" {
      assert ShellSubject(cwd, command) == ['\n'] + c;
      TrimDropsFirst('\n', c);
      TrimNoNewline(c);
    } else if Trim(command) != "" {
      TrimEnds(cwd);
      var s := ShellSubject(cwd, command);
      assert s[0] == d[0] && s[|s| - 1] == c[|c| - 1];
      TrimSolid(s);
    }
  }

  lemma {:induction false} FailingHasNewline(log: seq<Event>, s: string)
    ensures s in LatestExit(log) ==> !NoNewline(s)
  {
    if log != [] {
      FailingHasNewline(log[..|log| - 1], s);
      var e := log[|log| - 1];
      if GateSees(e) {
        ShellSubjectHasNewline(e.body.cwd, e.body.command);
      }
    }
  }

  /** The gate trims a draft's subject before looking it up. A command whose directory is
      blank loses its leading newline that way, so nothing is ever quoted for it; any other
      command is found exactly when it is still failing. */
  lemma QuotableIffDirectory(log: seq<Event>, cwd: string, command: string)
    requires Trim(command) != ""
    ensures Trim(ShellSubject(cwd, command)) in FailingSubjects(log)
            <==> ShellSubject(cwd, command) in FailingSubjects(log) && Trim(cwd) != ""
  {
    SubjectTrims(cwd, command);
    FailingHasNewline(log, Trim(ShellSubject(cwd, command)));
  }

  const NOWHERE := Event("e", 1, Shell("make", "", Some(2), "s", ""))

  /** A failing command without a directory: it is failing, and no draft for it is admitted. */
  lemma BlankDirectoryUnquoted(ph: Phrases, d: Draft, view: View, seen: seq<SeenKey>)
    requires d.taskSubject == TaskFor(NOWHERE)
    ensures TaskFor(NOWHERE) in FailingSubjects([NOWHERE])
    ensures Admit(ph, d, view, seen, [NOWHERE]).Rejected?
  {
    TrimSolid("make");
    assert [NOWHERE][..0] == [];
    assert LatestExit([NOWHERE]) == map[][TaskFor(NOWHERE) := 2];
    QuotableIffDirectory([NOWHERE], "", "make");
    assert Trim("") == "";
  }

  lemma FoundRow(log: seq<Event>, id: string)
    ensures FindRow(log, id).Some? ==> FindRow(log, id).value in log && FindRow(log, id).value.id == id
  {
  }

  lemma {:induction false} FirstShellIsCited(log: seq<Event>, ids: seq<string>)
    ensures var e := FirstShell(log, ids); e.Some? ==> e.value in log && e.value.id in ids && e.value.body.Shell?
  {
    if ids != [] {
      FoundRow(log, ids[0]);
      FirstShellIsCited(log, ids[1..]);
      assert ids == [ids[0]] + ids[1..];
    }
  }

  /** Off blank commands, that is the command itself, and its directory is not blank. */
  lemma OnCommandItself(log: seq<Event>, cwd: string, command: string)
    requires Trim(ShellSubject(cwd, command)) in FailingSubjects(log)
    ensures Trim(cwd) != "" && (Trim(command) != "" ==> ShellSubject(cwd, command) in FailingSubjects(log))
  {
    SubjectTrims(cwd, command);
    FailingHasNewline(log, Trim(ShellSubject(cwd, command)));
  }

  lemma AdmittedFails(log: seq<Event>, d: Draft, ph: Phrases)
    requires WellDrafted(d) && EvidenceCheck(ph, d, log).None?
    ensures OnFailingCommand(log, DraftEvent(d))
  {
    var cwd, command :| d.taskSubject == ShellSubject(cwd, command);
    assert DraftEvent(d).taskId == TaskIdFor(ShellSubject(cwd, command));
  }

  lemma AdmittedIsSound(ph: Phrases, d: Draft, view: View, seen: seq<SeenKey>, log: seq<Event>)
    requires WellDrafted(d) && Admit(ph, d, view, seen, log).Admitted?
    ensures SoundAssert(ph, log, seen, DraftEvent(d))
  {
    AdmittedFails(log, d, ph);
    AdmittedQuotes(ph, d, log);
    AdmittedIsGrounded(ph, d, log);
  }

  lemma AdmittedQuotes(ph: Phrases, d: Draft, log: seq<Event>)
    requires EvidenceCheck(ph, d, log).None?
    ensures QuotesNote(log, DraftEvent(d))
  {
    assert FindRow(log, d.evidenceIds[0]).Some?;
    FoundRow(log, d.evidenceIds[0]);
  }

  lemma AdmittedIsGrounded(ph: Phrases, d: Draft, log: seq<Event>)
    requires SupportCheck(ph, d, log).None?
    ensures Grounded(ph, log, DraftEvent(d))
  {
    FirstShellIsCited(log, d.evidenceIds);
  }

  /** Notes, outputs and exits that were read after earlier pushes are those of the log. */
  lemma SoundBefore(ph: Phrases, a: seq<Event>, b: seq<Event>, seen: seq<SeenKey>, ce: ClaimEvent)
    requires Grown(a, b) && SoundAssert(ph, b, seen, ce)
    ensures SoundAssert(ph, a, seen, ce)
  {
    LatestExitGrows(a, b);
    forall k | k in b && !k.body.Authored?
      ensures k in a
    {
      var i :| 0 <= i < |b| && b[i] == k;
      assert i < |a|;
      assert b[..|a|][i] == a[i];
    }
  }

  /** Every claim a pass asserts quotes a note of the log it started from, sits on a command
      failing there, is grounded in a cited output if it is a finding, is never observed, and
      repeats no earlier kind and normalised text. */
  lemma AppendedAssertsAreSound(ph: Phrases, log: seq<Event>, i: nat)
    requires var after := Extract(ph, log).log;
      |SortLog(log)| <= i < |after| && after[i].body.Authored? && after[i].body.claim.Some?
      && after[i].body.claim.value.op == Assert
    ensures var after := Extract(ph, log).log;
      SoundAssert(ph, SortLog(log), SeedSeen(ph, after[..i]), after[i].body.claim.value)
  {
    var s, after := SortLog(log), Extract(ph, log).log;
    ExtractionIsJustified(ph, s, |s|);
    assert JustifiedAt(ph, after, i);
    assert Grown(s, after[..i]) by {
      assert after[..i][..|s|] == after[..|s|];
    }
    AssertIsSound(ph, s, after[..i], after[i]);
  }

  lemma AssertIsSound(ph: Phrases, s: seq<Event>, log: seq<Event>, row: Event)
    requires Grown(s, log) && (Admits(ph, log, row) || Retracts(log, row))
    requires row.body.Authored? && row.body.claim.Some? && row.body.claim.value.op == Assert
    ensures SoundAssert(ph, s, SeedSeen(ph, log), row.body.claim.value)
  {
    var d :| row == AssertRow(log, d) && WellDrafted(d) && Admit(ph, d, Fold(log), SeedSeen(ph, log), log).Admitted?;
    AdmittedIsSound(ph, d, Fold(log), SeedSeen(ph, log), log);
    SoundBefore(ph, s, log, SeedSeen(ph, log), row.body.claim.value);
  }

  // ---------- the write gate ----------

  /** A finding's slot is named after its claim; with a newline it could be a command's. */
  predicate OffCommands(e: Event) {
    IsAuthored(e) && e.body.claim.value.kind == Some(Reality) ==> NoNewline(SubjectOf(e.body.claim.value))
  }

  lemma AdmittedPassesGate(ph: Phrases, log: seq<Event>, d: Draft, seen: seq<SeenKey>)
    requires Admit(ph, d, Fold(log), seen, log).Admitted?
    ensures GatePassed(Fold(log), AssertRow(log, d)) <==> OffCommands(AssertRow(log, d))
  {
  }

  lemma JustifiedPassesGate(ph: Phrases, log: seq<Event>, row: Event)
    requires Admits(ph, log, row) || Retracts(log, row)
    ensures GatePassed(Fold(log), row) <==> OffCommands(row)
  {
    if Admits(ph, log, row) {
      var d :| row == AssertRow(log, d) && WellDrafted(d) && Admit(ph, d, Fold(log), SeedSeen(ph, log), log).Admitted?;
      AdmittedPassesGate(ph, log, d, SeedSeen(ph, log));
    }
  }

  /** Every row a pass pushes satisfies what the daemon's protocol asks of a claim row, against
      the view as it stood when the row was pushed, exactly when it is not a finding whose id
      holds a newline. */
  lemma AppendedRowsPassTheGate(ph: Phrases, log: seq<Event>, i: nat)
    requires |SortLog(log)| <= i < |Extract(ph, log).log|
    ensures GatePassed(Fold(Extract(ph, log).log[..i]), Extract(ph, log).log[i])
            <==> OffCommands(Extract(ph, log).log[i])
  {
    var s, after := SortLog(log), Extract(ph, log).log;
    ExtractionIsJustified(ph, s, |s|);
    assert JustifiedAt(ph, after, i);
    JustifiedPassesGate(ph, after[..i], after[i]);
  }

  /** The subject of a pushed finding is its claim id. */
  lemma FindingIsItsSubject(ph: Phrases, log: seq<Event>, i: nat)
    requires |SortLog(log)| <= i < |Extract(ph, log).log|
    ensures var e := Extract(ph, log).log[i];
      OffCommands(e) <==> (IsAuthored(e) && e.body.claim.value.kind == Some(Reality) ==> NoNewline(e.body.claim.value.claimId))
  {
    hide OffCommands, Admits, Retracts, Extract;
    hide Justified;
    PushedIsJustified(ph, log, i);
    JustifiedSubject(ph, Extract(ph, log).log[..i], Extract(ph, log).log[i]);
  }

  lemma PushedIsJustified(ph: Phrases, log: seq<Event>, i: nat)
    requires |SortLog(log)| <= i < |Extract(ph, log).log|
    ensures JustifiedAt(ph, Extract(ph, log).log, i)
  {
    hide JustifiedAt;
    ExtractionIsJustified(ph, SortLog(log), |SortLog(log)|);
  }

  lemma JustifiedSubject(ph: Phrases, log: seq<Event>, e: Event)
    requires Admits(ph, log, e) || Retracts(log, e)
    ensures OffCommands(e) <==> (IsAuthored(e) && e.body.claim.value.kind == Some(Reality) ==> NoNewline(e.body.claim.value.claimId))
  {
    hide Admit, Fold, BothGates;
  }

  // ---------- table order ----------

  lemma {:induction false} MaxBounds(log: seq<Event>)
    ensures forall e | e in log :: e.at <= MaxAt(log)
  {
    if log != [] {
      MaxBounds(log[..|log| - 1]);
      assert log == log[..|log| - 1] + [log[|log| - 1]];
    }
  }

  lemma {:induction false} InsertLast(log: seq<Event>, row: Event)
    requires forall e | e in log :: e.at < row.at
    ensures InsertRow(log, row) == log + [row]
  {
    if log != [] {
      assert log[0] in log && log == [log[0]] + log[1..];
      InsertLast(log[1..], row);
    }
  }

  lemma PushKeepsOrder(log: seq<Event>, row: Event)
    requires InOrder(log) && row.at == NextAt(log) && row.at < U64_MAX
    ensures InOrder(log + [row]) && InsertRow(log, row) == log + [row]
  {
    MaxBounds(log);
    InsertLast(log, row);
    forall i | 0 <= i < |log|
      ensures Before(log[i], row)
    {
      assert log[i] in log;
    }
  }

  /** Each row of `b` past `a` was pushed at the time the clock gives. */
  predicate Timed(a: seq<Event>, b: seq<Event>) {
    |a| <= |b| && b[..|a|] == a && forall i | |a| <= i < |b| :: b[i].at == NextAt(b[..i])
  }

  lemma JustifiedIsTimed(ph: Phrases, a: seq<Event>, b: seq<Event>)
    requires Justified(ph, a, b)
    ensures Timed(a, b)
  {
    forall i | |a| <= i < |b|
      ensures b[i].at == NextAt(b[..i])
    {
      assert JustifiedAt(ph, b, i);
    }
  }

  lemma {:induction false} TimedInOrder(a: seq<Event>, b: seq<Event>, n: nat)
    requires Timed(a, b) && InOrder(a) && MaxAt(b) < U64_MAX && |a| <= n <= |b|
    ensures InOrder(b[..n])
    decreases n
  {
    if n > |a| {
      TimedInOrder(a, b, n - 1);
      TimedPush(a, b, n - 1);
    }
  }

  lemma TimedPush(a: seq<Event>, b: seq<Event>, n: nat)
    requires Timed(a, b) && MaxAt(b) < U64_MAX && |a| <= n < |b| && InOrder(b[..n])
    ensures InOrder(b[..n + 1]) && InsertRow(b[..n], b[n]) == b[..n + 1]
  {
    hide InOrder, InsertRow, MaxAt;
    MaxBounds(b);
    assert b[n] in b && b[n].at == NextAt(b[..n]);
    PushKeepsOrder(b[..n], b[n]);
    assert b[..n + 1] == b[..n] + [b[n]];
  }

  lemma {:induction false} SortOrders(log: seq<Event>)
    requires DistinctEvents(log)
    ensures InOrder(SortLog(log)) && DistinctEvents(SortLog(log))
  {
    if log != [] {
      var init, last := log[..|log| - 1], log[|log| - 1];
      SortOrders(init);
      SortKeepsRows(init);
      InsertKeeps(SortLog(init), last);
    }
  }

  lemma {:induction false} SortedStays(log: seq<Event>)
    requires InOrder(log)
    ensures SortLog(log) == log
  {
    if log != [] {
      var init, last := log[..|log| - 1], log[|log| - 1];
      assert log == init + [last];
      SortedStays(init);
      InsertBehind(init, last);
    }
  }

  lemma {:induction false} InsertBehind(log: seq<Event>, row: Event)
    requires forall e | e in log :: Before(e, row)
    ensures InsertRow(log, row) == log + [row]
  {
    if log != [] {
      assert log[0] in log && log == [log[0]] + log[1..];
      LessTotal(log[0].id, row.id);
      InsertBehind(log[1..], row);
    }
  }

  lemma ExtractIsTimed(ph: Phrases, log: seq<Event>)
    ensures Timed(SortLog(log), Extract(ph, log).log)
  {
    ExtractionIsJustified(ph, SortLog(log), |SortLog(log)|);
    JustifiedIsTimed(ph, SortLog(log), Extract(ph, log).log);
  }

  /** Unless the clock saturates, the pushed rows land at the end of the table one by one, so
      each refold is one fold step further and sorting the result again changes nothing. */
  lemma AppendsLandLast(ph: Phrases, log: seq<Event>, i: nat)
    requires DistinctEvents(log) && MaxAt(Extract(ph, log).log) < U64_MAX
    requires |SortLog(log)| <= i < |Extract(ph, log).log|
    ensures var after := Extract(ph, log).log;
      InsertRow(after[..i], after[i]) == after[..i + 1]
      && Fold(InsertRow(after[..i], after[i])) == Step(Fold(after[..i]), after[i])
  {
    SortOrders(log);
    ExtractIsTimed(ph, log);
    LandsLast(SortLog(log), Extract(ph, log).log, i);
  }

  lemma LandsLast(a: seq<Event>, b: seq<Event>, i: nat)
    requires Timed(a, b) && InOrder(a) && MaxAt(b) < U64_MAX && |a| <= i < |b|
    ensures InsertRow(b[..i], b[i]) == b[..i + 1]
    ensures Fold(InsertRow(b[..i], b[i])) == Step(Fold(b[..i]), b[i])
  {
    TimedInOrder(a, b, i);
    TimedPush(a, b, i);
    assert b[..i + 1][..i] == b[..i];
  }

  lemma ResultIsSorted(ph: Phrases, log: seq<Event>)
    requires DistinctEvents(log) && MaxAt(Extract(ph, log).log) < U64_MAX
    ensures SortLog(Extract(ph, log).log) == Extract(ph, log).log
  {
    SortOrders(log);
    ExtractIsTimed(ph, log);
    var after := Extract(ph, log).log;
    TimedInOrder(SortLog(log), after, |after|);
    assert after[..|after|] == after;
    SortedStays(after);
  }
}
