/** A run of the daemon in which a handoff is cut off: a user's note of 27 sentences, each a
    constraint, on a failing command. The 27th claim id repeats the 26th, the primary key
    refuses the row, and the stored view stays behind whatever the next handoffs do. */
module CutOff {
  import opened Text
  import opened Claims
  import opened Projector
  import opened CurrentView
  import opened GatedLog
  import opened Trust
  import opened Compaction
  import opened Daemon
  import opened EventTable
  import opened Handoff
  import opened Convergence
  import opened Admission
  import opened Extraction
  import opened Appended
  import opened PushedRows
  import opened RowIds
  import opened Protocol
  import opened HandoffStep
  import opened ProtocolSteps
  import opened Runs
  import opened RuleNote
  import Excerpts
  import opened Drafting

  // ---------- the input ----------

  const RUN := Event("01HZZZZZZZZZZZZZZZZZZZZZZ1", 1, Shell("make", "/w", Some(2), "s", ""))
  const NOTE_ID := "01HZZZZZZZZZZZZZZZZZZZZZZ2"

  /** A note of the user in the command's session, 27 sentences that say to keep a signature. */
  predicate IsRuleNote(note: Event) {
    && note.id == NOTE_ID && note.at == 2 && note.body.Note? && IsRuleText(note.body.text)
    && note.body == Note(note.body.text, "s", "", "user", "", "")
  }

  /** Rules `i` to 26, each a constraint at its position. */
  function Sayings(i: nat): seq<Speech>
    decreases 27 - i
  {
    if i >= 27 then [] else [Speech(Rule(i), AsConstraint, i, false)] + Sayings(i + 1)
  }

  /** The matchers read the note as the code does: no retraction, each rule a constraint at its
      position, and the rules are lower-case already. */
  predicate ReadsRules(ph: Phrases, note: Event)
    requires note.body.Note?
  {
    && !ph.asksRetract(note.body.text) && ph.drafted(note, note.body.text, Some(RUN)) == Sayings(0)
    && forall i | 0 <= i < 27 :: ph.lower(Rule(i)) == Rule(i)
  }

  function Wording(): Phrases {
    Phrases((s: string) => s, (s: string) => {}, (s: string) => false,
            (e: Event, s: string, r: Option<Event>) => Sayings(0),
            (e: Event, s: string, r: Option<Event>) => [])
  }

  /** There is such a note, and such matchers. */
  lemma InputExists(note: Event)
    requires note == Event(NOTE_ID, 2, Note(Rules(0), "s", "", "user", "", ""))
    ensures IsRuleNote(note) && ReadsRules(Wording(), note)
  {
    hide Rules;
    RulesAreText(0);
  }

  /** The input as the handoff finds it. */
  predicate Given(ph: Phrases, log: seq<Event>, note: Event) {
    log == [RUN, note] && IsRuleNote(note) && ReadsRules(ph, note)
  }

  // ---------- every draft is admitted ----------

  lemma {:induction false} SayingsAre(i: nat)
    requires i <= 27
    ensures |Sayings(i)| == 27 - i
    ensures forall k | 0 <= k < 27 - i :: Sayings(i)[k] == Speech(Rule(i + k), AsConstraint, i + k, false)
    decreases 27 - i
  {
    hide Rule;
    if i < 27 {
      SayingsAre(i + 1);
    }
  }

  function Said(note: Event, task: string, i: nat): Draft
    requires note.body.Note?
  {
    DraftOf(note, Speech(Rule(i), AsConstraint, i, false), Some(RUN), task)
  }

  function Drafts(note: Event, task: string, i: nat): seq<Draft>
    requires note.body.Note?
  {
    DraftsOf(note, Sayings(i), Some(RUN), task)
  }

  lemma RunFails(log: seq<Event>, note: Event)
    requires log == [RUN, note] && IsRuleNote(note)
    ensures TaskFor(RUN) in FailingSubjects(log) && Trim(TaskFor(RUN)) == TaskFor(RUN) && TaskFor(RUN) != ""
    ensures NoteTask(log, note) == Some(RUN)
  {
    assert log[..1] == [RUN] && [RUN][..0] == [];
    TrimSolid("/w");
    TrimSolid("make");
    SubjectTrims("/w", "make");
    assert LatestExit([RUN]) == map[][GateSubject(RUN) := 2];
    assert LatestCode([RUN], "s", Collapse("make")) == Some(2);
  }

  lemma SaidFields(note: Event, task: string, i: nat)
    requires IsRuleNote(note) && i < 27
    ensures Said(note, task, i) == Draft(note.id + SuffixFor(i), AsConstraint, Rule(i), [note.id], note.body.text, None, task)
  {
    hide Rule, SuffixFor, IsRuleText;
    RuleText(note.body.text, i);
  }

  lemma NoteIsFound(log: seq<Event>, note: Event)
    requires log == [RUN, note] && IsRuleNote(note)
    ensures FindRow(log, note.id) == Some(note)
  {
    assert RUN.id[25] != NOTE_ID[25];
    RowIndexIs(log, note.id, 1);
  }

  lemma SaidIsEvident(ph: Phrases, log: seq<Event>, note: Event, task: string, i: nat)
    requires log == [RUN, note] && IsRuleNote(note) && i < 27
    requires task in FailingSubjects(log) && Trim(task) == task && task != ""
    ensures EvidenceCheck(ph, Said(note, task, i), log).None?
  {
    hide FailingSubjects, FindRow, Said, Rule, IsRuleText;
    SaidFields(note, task, i);
    RuleText(note.body.text, i);
    NoteIsFound(log, note);
  }

  lemma ConstraintPassesGate(d: Draft, view: View)
    requires d.act.AsConstraint? && 1 <= |Trim(d.text)| <= MAX_CLAIM_TEXT
    ensures GateCheck(d, view).None?
  {
    TrimKeeps(d.text);
  }

  lemma DraftsStep(note: Event, task: string, i: nat)
    requires note.body.Note? && i < 27
    ensures var ds := Drafts(note, task, i);
      ds != [] && ds[0] == Said(note, task, i) && ds[1..] == Drafts(note, task, i + 1)
  {
    hide Rule;
    assert Drafts(note, task, i) == [Said(note, task, i)] + Drafts(note, task, i + 1);
  }

  lemma SaidKey(ph: Phrases, note: Event, task: string, i: nat)
    requires i < 27 && IsRuleNote(note) && ReadsRules(ph, note)
    ensures DraftKey(ph, Said(note, task, i)) == (Constraint, Rule(i))
  {
    hide Rule, Said, IsRuleText;
    SaidFields(note, task, i);
    RuleText(note.body.text, i);
  }

  lemma SaidPasses(ph: Phrases, log: seq<Event>, note: Event, task: string, i: nat)
    requires log == [RUN, note] && IsRuleNote(note) && i < 27
    requires task in FailingSubjects(log) && Trim(task) == task && task != ""
    ensures PassesAlone(ph, Said(note, task, i), log)
  {
    hide EvidenceCheck, GateCheck, Fold, Rule, Said, IsRuleText;
    SaidFields(note, task, i);
    RuleText(note.body.text, i);
    SaidIsEvident(ph, log, note, task, i);
    ConstraintPassesGate(Said(note, task, i), Fold(log));
  }

  lemma DraftsAreSaid(note: Event, task: string)
    requires note.body.Note?
    ensures var ds := Drafts(note, task, 0);
      |ds| == 27 && forall k | 0 <= k < 27 :: ds[k] == Said(note, task, k)
  {
    hide Rule;
    SayingsAre(0);
    DraftsAre(note, Sayings(0), Some(RUN), task);
  }

  lemma RulesDiffer(i: nat, j: nat)
    requires i < j < 27
    ensures Rule(i) != Rule(j)
  {
    RuleShape(i);
    RuleShape(j);
    hide Rule;
    assert Rule(i)[19] != Rule(j)[19];
  }

  /** Every sentence passes, and no two say the same. */
  lemma TrialPasses(ph: Phrases, log: seq<Event>, note: Event, task: string, ds: seq<Draft>)
    requires Given(ph, log, note) && ds == Drafts(note, task, 0)
    requires task in FailingSubjects(log) && Trim(task) == task && task != ""
    ensures Trial(ph, log, [], ds).None?
  {
    hide PassesAlone, Trial, Drafts, Said, DraftKey, ReadsRules, Rule, FailingSubjects, IsRuleText;
    DraftsAreSaid(note, task);
    forall i | 0 <= i < 27
      ensures PassesAlone(ph, ds[i], log) && DraftKey(ph, ds[i]) == (Constraint, Rule(i))
    {
      SaidPasses(ph, log, note, task, i);
      SaidKey(ph, note, task, i);
    }
    forall i, j | 0 <= i < j < 27
      ensures DraftKey(ph, ds[i]) != DraftKey(ph, ds[j])
    {
      RulesDiffer(i, j);
    }
    TrialByParts(ph, log, [], ds);
  }

  /** The checks that the pass makes on the spot hold for every draft. */
  lemma {:induction false} QuotedIsAccepted(ph: Phrases, p: Pass, note: Event, task: string, i: nat)
    requires IsRuleNote(note) && i <= 27
    ensures QuoteDrafts(ph, p, note, Drafts(note, task, i)) == AcceptAll(ph, p, Drafts(note, task, i))
    decreases 27 - i
  {
    if i < 27 {
      hide AcceptOrRecord, Drafts, Said, Rule, QuoteDraft, IsRuleText;
      DraftsStep(note, task, i);
      SaidIsSpotted(ph, p, note, task, i);
      QuotedIsAccepted(ph, AcceptOrRecord(ph, p, Said(note, task, i)), note, task, i + 1);
    } else {
      assert Drafts(note, task, 27) == [];
    }
  }

  lemma SaidIsSpotted(ph: Phrases, p: Pass, note: Event, task: string, i: nat)
    requires IsRuleNote(note) && i < 27
    ensures QuoteDraft(ph, p, note, Said(note, task, i)) == AcceptOrRecord(ph, p, Said(note, task, i))
  {
    hide AcceptOrRecord, Said, Rule, IsRuleText;
    SaidFields(note, task, i);
    RuleText(note.body.text, i);
  }

  // ---------- the handoff ----------

  lemma NothingCited(ph: Phrases, log: seq<Event>, note: Event)
    requires log == [RUN, note] && note.body.Note?
    ensures CitedNotes(log) == {} && SeedSeen(ph, log) == []
  {
    assert log[..1] == [RUN] && [RUN][..0] == [];
    assert EvidenceOf(RUN) == {} && EvidenceOf(note) == {};
    assert CitedNotes([RUN]) == {} && SeedSeen(ph, [RUN]) == [];
  }

  lemma LogIsOrdered(log: seq<Event>, note: Event)
    requires log == [RUN, note] && note.id == NOTE_ID && note.at == 2
    ensures SortLog(log) == log && DistinctEvents(log) && InOrder(log) && MaxAt(log) == 2
  {
    assert log[..1] == [RUN] && [RUN][..0] == [];
    assert RUN.id[25] != NOTE_ID[25];
    assert InOrder(log);
    SortedStays(log);
    assert MaxAt([RUN]) == 1;
  }

  lemma LogFacts(log: seq<Event>, note: Event)
    requires log == [RUN, note] && note.id == NOTE_ID && note.body.Note?
    ensures NoUserNextAction(log) && HandoffSources(log) == log && NoteIds(log) == {NOTE_ID}
  {
    assert log[..1] == [RUN] && [RUN][..0] == [];
    assert HandoffSources([RUN]) == [RUN];
    assert note in log && !RUN.body.Note?;
  }

  lemma TextIsRead(ph: Phrases, log: seq<Event>, note: Event)
    requires Given(ph, log, note)
    ensures NoteDrafts(ph, log, note, 1, RUN) == Drafts(note, TaskFor(RUN), 0)
  {
    hide IsRuleText, TaskFor, Sayings;
    TextIsTrimmed(note.body.text);
    assert SupportOf(log, note, 1) == Some(RUN);
  }

  lemma NoteIsQuoted(ph: Phrases, log: seq<Event>, note: Event, p: Pass)
    requires Given(ph, log, note) && p.log == log
    ensures NoteStep(ph, p, {}, 1) == QuoteDrafts(ph, p, note, Drafts(note, TaskFor(RUN), 0))
  {
    hide NoteStep, QuoteDrafts, NoteTask, IsRuleText, TaskFor, Drafts;
    TextIsTrimmed(note.body.text);
    RunFails(log, note);
    DraftsStep(note, TaskFor(RUN), 0);
    TextIsRead(ph, log, note);
    PlainStep(ph, p, {}, note, 1, RUN, Drafts(note, TaskFor(RUN), 0));
  }

  lemma TwoSteps(ph: Phrases, log: seq<Event>, note: Event)
    requires log == [RUN, note] && SortLog(log) == log && CitedNotes(log) == {} && SeedSeen(ph, log) == []
    ensures var start := Pass(log, [], Report([], [], []));
      Extract(ph, log) == NoteStep(ph, start, {}, 1)
  {
    var start := ExtractUpTo(ph, log, 0);
    assert ExtractUpTo(ph, log, 1) == NoteStep(ph, start, {}, 0) == start;
  }

  /** The pass pushes a claim for every sentence. */
  lemma AllArePushed(ph: Phrases, log: seq<Event>, note: Event)
    requires Given(ph, log, note)
    ensures PushedAll(log, Extract(ph, log).log, Drafts(note, TaskFor(RUN), 0))
  {
    hide Extract, NoteStep, Drafts, TaskFor, IsRuleText, Trial, PushedAll, FailingSubjects;
    NothingCited(ph, log, note);
    LogFacts(log, note);
    LogIsOrdered(log, note);
    RunFails(log, note);
    var start, task := Pass(log, [], Report([], [], [])), TaskFor(RUN);
    TwoSteps(ph, log, note);
    NoteIsQuoted(ph, log, note, start);
    QuotedIsAccepted(ph, start, note, task, 0);
    TrialPasses(ph, log, note, task, Drafts(note, task, 0));
    TrialHolds(ph, log, start, Drafts(note, task, 0));
  }

  lemma DraftIds(note: Event, task: string, k: nat)
    requires IsRuleNote(note) && k < 27
    ensures |Drafts(note, task, 0)| == 27 && Drafts(note, task, 0)[k].claimId == note.id + SuffixFor(k)
  {
    hide Rule, SuffixFor, IsRuleText;
    DraftsAreSaid(note, task);
    SaidFields(note, task, k);
  }

  // ---------- the run ----------

  function Before(note: Event): State {
    Noticed(Rebuilt(INITIAL, [RUN]), note)
  }

  function After(ph: Phrases, note: Event): State {
    AfterHandoff(Before(note), HandoffRows(Before(note), ph))
  }

  lemma FirstArrives(e: Event)
    requires e.body.Shell? && e.body.exitCode.Some? && UlidShaped(e.id)
    ensures var s := Rebuilt(INITIAL, [e]);
      && s.shown == [e] && s.behind == [] && s.table == [e] && All(s) == [e] && History(s) == [e]
      && Next(INITIAL, Ingest(e), s) && Inv(s)
  {
    hide Inv, Fold;
    var s := Rebuilt(INITIAL, [e]);
    assert InsertRow([], e) == [e];
    assert InsertRows([], [e]) == InsertRows([e], []);
    StartInv();
    IngestKeeps(INITIAL, e);
  }

  lemma NextArrives(s: State, e: Event)
    requires Inv(s) && e.body.Note? && UlidShaped(e.id) && !HasRow(All(s), e.id)
    ensures Next(s, Ingest(e), Noticed(s, e)) && Inv(Noticed(s, e))
  {
    IngestKeeps(s, e);
  }

  lemma BothArrive(note: Event)
    requires IsRuleNote(note)
    ensures Next(INITIAL, Ingest(RUN), Rebuilt(INITIAL, [RUN]))
    ensures Next(Rebuilt(INITIAL, [RUN]), Ingest(note), Before(note))
    ensures Before(note).table == [RUN, note] && Before(note).behind == [] && Inv(Before(note))
  {
    hide Inv, Fold, Rebuilt, IsRuleText, Next;
    assert NoNewline(RUN.id) && NoNewline(NOTE_ID);
    FirstArrives(RUN);
    var s := Rebuilt(INITIAL, [RUN]);
    assert RUN.id[25] != NOTE_ID[25];
    NextArrives(s, note);
    assert InsertRow([RUN], note) == [RUN, note];
  }

  /** The clock moves by a second per pushed row. */
  lemma {:induction false} ClockMoves(a: seq<Event>, b: seq<Event>, n: nat)
    requires Timed(a, b) && |a| <= n <= |b|
    ensures MaxAt(b[..n]) <= MaxAt(a) + 1000 * (n - |a|)
    decreases n
  {
    if n == |a| {
      assert b[..n] == a;
    } else {
      ClockMoves(a, b, n - 1);
      assert b[..n][..n - 1] == b[..n - 1];
    }
  }

  lemma PushedCount(a: seq<Event>, b: seq<Event>, ds: seq<Draft>)
    requires PushedAll(a, b, ds)
    ensures |b| == |a| + |ds|
  {
  }

  lemma FirstIsInTime(s: State, ph: Phrases, note: Event)
    requires Given(ph, s.table, note)
    ensures InTime(s, ph)
  {
    hide Extract, Timed, PushedAll, Drafts, InOrder, MaxAt, TaskFor, IsRuleText, ReadsRules, RUN;
    LogFacts(s.table, note);
    LogIsOrdered(s.table, note);
    AllArePushed(ph, s.table, note);
    ExtractIsTimed(ph, s.table);
    DraftsAreSaid(note, TaskFor(RUN));
    var after := Extract(ph, s.table).log;
    PushedCount(s.table, after, Drafts(note, TaskFor(RUN), 0));
    ClockMoves(s.table, after, |after|);
    assert after[..|after|] == after;
  }

  lemma PushedAre(s: State, ph: Phrases, note: Event, pushed: seq<Event>)
    requires Given(ph, s.table, note) && Pushes(s, ph, pushed)
    ensures Read(s) == s.table && PushedAll(Read(s), Read(s) + pushed, Drafts(note, TaskFor(RUN), 0)) && |pushed| == 27
  {
    hide Extract, PushedAll, IsRuleText, ReadsRules, Drafts, TaskFor;
    LogFacts(s.table, note);
    AllArePushed(ph, s.table, note);
    DraftsAreSaid(note, TaskFor(RUN));
    PushedCount(Read(s), Read(s) + pushed, Drafts(note, TaskFor(RUN), 0));
  }

  function SaidRowId(k: nat): string {
    "c2_" + (NOTE_ID + SuffixFor(k))
  }

  lemma RowIdAt(s: State, ph: Phrases, note: Event, task: string, pushed: seq<Event>, k: nat)
    requires Inv(s) && Pushes(s, ph, pushed) && IsRuleNote(note) && |pushed| == 27 && k < 27
    requires PushedAll(Read(s), Read(s) + pushed, Drafts(note, task, 0))
    ensures pushed[k].id == SaidRowId(k)
  {
    hide Inv, Extract, Pushes, Drafts, IsRuleText, SuffixFor;
    DraftIds(note, task, k);
    assert (Read(s) + pushed)[|Read(s)| + k] == pushed[k];
    PushedIsHandoffRow(s, ph, pushed, k);
  }

  lemma SuffixRepeats()
    ensures SaidRowId(25) == SaidRowId(26)
  {
    assert SuffixFor(25) == SuffixFor(26);
  }

  /** The rows of the 26th and the 27th sentence have one id. */
  lemma LastIdRepeats(s: State, ph: Phrases, note: Event, pushed: seq<Event>)
    requires Inv(s) && Given(ph, s.table, note) && Pushes(s, ph, pushed)
    ensures IdRepeats(pushed)
  {
    hide Inv, Extract, Pushes, PushedAll, ReadsRules, SaidRowId, RUN, IsRuleText, TaskFor, Drafts;
    PushedAre(s, ph, note, pushed);
    RowIdAt(s, ph, note, TaskFor(RUN), pushed, 25);
    RowIdAt(s, ph, note, TaskFor(RUN), pushed, 26);
    SuffixRepeats();
    assert pushed[25].id == pushed[26].id;
  }

  // ---------- no handoff mends it ----------

  lemma {:induction false} MaxAtMost(log: seq<Event>, bound: nat)
    requires forall e | e in log :: e.at <= bound
    ensures MaxAt(log) <= bound
  {
    if log != [] {
      MaxAtMost(log[..|log| - 1], bound);
      assert log[|log| - 1] in log;
    }
  }

  /** A pushed row that got in is read by every later handoff. */
  lemma TakenIsRead(s: State, ph: Phrases, pushed: seq<Event>, es: seq<Event>)
    requires Inv(s) && Pushes(s, ph, pushed) && Inv(Unshown(s, es)) && pushed != [] && pushed[0] in es
    ensures pushed[0] in Read(Unshown(s, es)) && FirstCited(pushed[0]) in CitedNotes(Read(Unshown(s, es)))
  {
    hide Inv, Pushes, Extract;
    var t := Unshown(s, es);
    PushedIsHandoffRow(s, ph, pushed, 0);
    assert pushed[0] in All(t);
    InUse(t, pushed[0]);
    CitedMembers(Read(t), FirstCited(pushed[0]));
  }

  lemma BehindIsAuthored(t: State)
    requires Inv(t)
    ensures forall e | e in t.behind :: e.body.Authored?
  {
  }

  lemma NotesOfTable(s: State, es: seq<Event>)
    requires Inv(s) && Inv(Unshown(s, es))
    ensures NoteIds(Read(Unshown(s, es))) <= NoteIds(Read(s))
    ensures forall x | x in Read(Unshown(s, es)) :: x in Read(s) || x in es
  {
    hide Inv, Read, InOrder;
    var t := Unshown(s, es);
    ReadFacts(s);
    ReadFacts(t);
    TableGrows(s, es);
    BehindIsAuthored(t);
    assert forall x | x in es :: x in t.behind;
  }

  lemma TableGrows(s: State, es: seq<Event>)
    requires Inv(s) && Inv(Unshown(s, es))
    ensures forall x | x in Unshown(s, es).table :: x in s.table || x in es
  {
    hide Inv;
    InTable(s);
    InTable(Unshown(s, es));
    assert Written(Unshown(s, es)) == Written(s) + es;
  }

  lemma InTable(s: State)
    requires Inv(s)
    ensures forall e :: e in s.table <==> e in Written(s) && e.id !in s.dropped
  {
    PrunedFacts(s);
  }

  /** With a single note, a handoff that is cut off leaves no note uncited. */
  lemma NoteIsUsed(s: State, ph: Phrases, pushed: seq<Event>, note: string)
    requires Inv(s) && InTime(s, ph) && Pushes(s, ph, pushed) && NoteIds(Read(s)) == {note} && IdRepeats(pushed)
    ensures var t := Unshown(s, Taken(s.table, pushed));
      Inv(t) && t.behind != [] && Uncited(Read(t)) == {} && Taken(s.table, pushed) != pushed
  {
    hide Inv, Pushes, InTime, Extract;
    var es := Taken(s.table, pushed);
    TakenFacts(s.table, pushed);
    assert es != pushed;
    CutOffKeeps(s, ph, pushed);
    CutOffAtClaim(s, ph, pushed);
    assert pushed[0] == es[0] && pushed[0] in es;
    PushedIsUncited(s, ph, pushed, 0);
    TakenIsRead(s, ph, pushed, es);
    NotesOfTable(s, es);
  }

  lemma LaterInTime(s: State, ph: Phrases, pushed: seq<Event>)
    requires Inv(s) && InTime(s, ph) && Pushes(s, ph, pushed) && Inv(Unshown(s, Taken(s.table, pushed)))
    requires Uncited(Read(Unshown(s, Taken(s.table, pushed)))) == {}
    ensures InTime(Unshown(s, Taken(s.table, pushed)), ph)
  {
    hide Inv, InBlocks, Extract;
    var es := Taken(s.table, pushed);
    var t := Unshown(s, es);
    MaxBounds(Read(s) + pushed);
    TakenFacts(s.table, pushed);
    NotesOfTable(s, es);
    var more := WhatIsPushed(t, ph);
    if more != [] {
      PushedIsUncited(t, ph, more, 0);
    }
    assert Read(t) + [] == Read(t);
    MaxAtMost(Read(t), I64_MAX);
  }

  // ---------- the run, from the start ----------

  lemma LeftBehind(s: State, ph: Phrases, note: Event)
    requires Inv(s) && InTime(s, ph) && Given(ph, s.table, note)
    ensures var t := AfterHandoff(s, HandoffRows(s, ph));
      && Inv(t) && InTime(t, ph) && AfterHandoff(t, HandoffRows(t, ph)) == t
      && !SameView(t.stored, Fold(History(t)))
  {
    hide Inv, InTime, Pushes, Extract, HandoffRows, ReadsRules, IsRuleText;
    var pushed := HandoffPushes(s, ph);
    LastIdRepeats(s, ph, note, pushed);
    LogFacts(s.table, note);
    NoteIsUsed(s, ph, pushed, NOTE_ID);
    LaterInTime(s, ph, pushed);
    var t := AfterHandoff(s, pushed);
    CitedNotesStay(t, ph);
    ViewIffNotBehind(t);
  }

  lemma HandoffsAreSteps(s: State, ph: Phrases)
    requires InTime(s, ph)
    ensures Next(s, RunHandoff(ph), AfterHandoff(s, HandoffRows(s, ph)))
  {
  }

  lemma NoteIsText(note: Event)
    requires IsRuleNote(note)
    ensures Excerpts.AreSentences(note.body.text, RuleList(27)) && |RuleList(27)| == 27
  {
    var n := 27;
    TextHasRules(note.body.text, RuleList(n), Places(n), n);
  }

  /** A command fails, a note of 27 sentences follows, and two handoffs run: the first is cut
      off, the second changes nothing, and the stored view does not show what is written. */
  lemma TwentySevenSentences(ph: Phrases, note: Event) returns (states: seq<State>)
    requires IsRuleNote(note) && ReadsRules(ph, note)
    ensures Excerpts.AreSentences(note.body.text, RuleList(27)) && |RuleList(27)| == 27
    ensures |states| == 5 && states[4] == states[3]
    ensures IsRunOf(states, [Ingest(RUN), Ingest(note), RunHandoff(ph), RunHandoff(ph)])
    ensures var s := states[4]; !SameView(s.stored, Fold(History(s)))
  {
    hide Inv, InTime, Next, Extract, HandoffRows, AfterHandoff, ReadsRules, RUN, Rebuilt, Before, History, SameView,
         IsRuleText, RuleList;
    var s, t := Before(note), After(ph, note);
    states := [INITIAL, Rebuilt(INITIAL, [RUN]), s, t, t];
    NoteIsText(note);
    BothArrive(note);
    FirstIsInTime(s, ph, note);
    LeftBehind(s, ph, note);
    HandoffsAreSteps(s, ph);
    HandoffsAreSteps(t, ph);
  }
}
