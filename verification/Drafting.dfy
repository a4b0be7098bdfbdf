/** Which drafts of which notes a pass admits, and where their rows stand: two pushed rows share
    an id exactly when one note has two admitted drafts with one suffix. */
module Drafting {
  import opened Text
  import opened Claims
  import opened Projector
  import opened CurrentView
  import opened GatedLog
  import opened EventTable
  import opened Handoff
  import opened Quiet
  import opened PushedRows

  // ---------- one note's drafts, one after another ----------

  /** With `checked` the local checks of a quoted note come first; an update has tried its
      drafts before. */
  function DraftStep(ph: Phrases, checked: bool, p: Pass, note: Event, d: Draft): Pass {
    if checked then QuoteDraft(ph, p, note, d) else AcceptOrRecord(ph, p, d)
  }

  function DraftSteps(ph: Phrases, checked: bool, p: Pass, note: Event, ds: seq<Draft>): Pass {
    if ds == [] then p
    else DraftStep(ph, checked, DraftSteps(ph, checked, p, note, ds[..|ds| - 1]), note, ds[|ds| - 1])
  }

  lemma {:induction false} QuoteDraftsSnoc(ph: Phrases, p: Pass, note: Event, ds: seq<Draft>)
    requires ds != []
    ensures QuoteDrafts(ph, p, note, ds) == QuoteDraft(ph, QuoteDrafts(ph, p, note, ds[..|ds| - 1]), note, ds[|ds| - 1])
    decreases |ds|
  {
    hide QuoteDraft;
    if |ds| > 1 {
      assert ds[1..][..|ds| - 2] == ds[..|ds| - 1][1..];
      QuoteDraftsSnoc(ph, QuoteDraft(ph, p, note, ds[0]), note, ds[1..]);
    }
  }

  lemma {:induction false} AcceptAllSnoc(ph: Phrases, p: Pass, ds: seq<Draft>)
    requires ds != []
    ensures AcceptAll(ph, p, ds) == AcceptOrRecord(ph, AcceptAll(ph, p, ds[..|ds| - 1]), ds[|ds| - 1])
    decreases |ds|
  {
    hide AcceptOrRecord;
    if |ds| > 1 {
      assert ds[1..][..|ds| - 2] == ds[..|ds| - 1][1..];
      AcceptAllSnoc(ph, AcceptOrRecord(ph, p, ds[0]), ds[1..]);
    }
  }

  lemma {:induction false} StepsAre(ph: Phrases, checked: bool, p: Pass, note: Event, ds: seq<Draft>)
    ensures DraftSteps(ph, checked, p, note, ds) == if checked then QuoteDrafts(ph, p, note, ds) else AcceptAll(ph, p, ds)
  {
    if ds != [] {
      hide QuoteDraft, AcceptOrRecord;
      StepsAre(ph, checked, p, note, ds[..|ds| - 1]);
      if checked {
        QuoteDraftsSnoc(ph, p, note, ds);
      } else {
        AcceptAllSnoc(ph, p, ds);
      }
    }
  }

  /** The pass when the turn of draft `i` comes. */
  function AtTurn(ph: Phrases, checked: bool, p: Pass, note: Event, ds: seq<Draft>, i: nat): Pass
    requires i <= |ds|
  {
    DraftSteps(ph, checked, p, note, ds[..i])
  }

  /** Draft `i` passes the local checks, if any, and is admitted when its turn comes. */
  predicate GoesIn(ph: Phrases, checked: bool, p: Pass, note: Event, ds: seq<Draft>, i: nat)
    requires i < |ds|
  {
    var q := AtTurn(ph, checked, p, note, ds, i);
    && (checked ==> SpotChecks(ph, ds[i]))
    && Admit(ph, ds[i], Fold(q.log), q.seen, q.log).Admitted?
  }

  /** What a pass asks of a quoted draft on the spot. */
  predicate SpotChecks(ph: Phrases, d: Draft) {
    && Contains(d.sourceText, d.text) && 1 <= |d.text| <= MAX_TEXT
    && (d.act.AsReality? ==> Overlap(ph, d.text, if d.supportText.Some? then d.supportText.value else "") >= MIN_OVERLAP)
  }

  /** The log after `ds` is the log after `before` drafts with one row more, or the same. */
  lemma StepAdds(ph: Phrases, checked: bool, p: Pass, note: Event, ds: seq<Draft>, i: nat)
    requires i < |ds|
    ensures var before, after := AtTurn(ph, checked, p, note, ds, i).log, AtTurn(ph, checked, p, note, ds, i + 1).log;
      if GoesIn(ph, checked, p, note, ds, i) then
        |after| == |before| + 1 && Begins(before, after) && after[|before|].id == "c2_" + ds[i].claimId
      else after == before
  {
    hide Admit, Fold;
    assert ds[..i + 1][..i] == ds[..i] && ds[..i + 1][i] == ds[i];
  }

  predicate Begins(a: seq<Event>, b: seq<Event>) {
    |a| <= |b| && b[..|a|] == a
  }

  lemma BeginsAt(a: seq<Event>, b: seq<Event>, k: nat)
    requires Begins(a, b) && k < |a|
    ensures b[k] == a[k]
  {
    assert b[..|a|][k] == b[k];
  }

  lemma BeginsTransitive(a: seq<Event>, b: seq<Event>, c: seq<Event>)
    requires Begins(a, b) && Begins(b, c)
    ensures Begins(a, c)
  {
    assert c[..|b|][..|a|] == c[..|a|];
  }

  lemma {:induction false} TurnsGrow(ph: Phrases, checked: bool, p: Pass, note: Event, ds: seq<Draft>, i: nat, j: nat)
    requires i <= j <= |ds|
    ensures Begins(AtTurn(ph, checked, p, note, ds, i).log, AtTurn(ph, checked, p, note, ds, j).log)
    decreases j
  {
    hide AtTurn, GoesIn;
    if i < j {
      TurnsGrow(ph, checked, p, note, ds, i, j - 1);
      StepAdds(ph, checked, p, note, ds, j - 1);
      BeginsTransitive(AtTurn(ph, checked, p, note, ds, i).log, AtTurn(ph, checked, p, note, ds, j - 1).log,
                       AtTurn(ph, checked, p, note, ds, j).log);
    }
  }

  /** The row of an admitted draft, in the log after all drafts. */
  lemma RowOfDraft(ph: Phrases, checked: bool, p: Pass, note: Event, ds: seq<Draft>, i: nat) returns (a: nat)
    requires i < |ds| && GoesIn(ph, checked, p, note, ds, i)
    ensures var after := AtTurn(ph, checked, p, note, ds, |ds|).log;
      |p.log| <= a < |after| && after[a].id == "c2_" + ds[i].claimId
    ensures a == |AtTurn(ph, checked, p, note, ds, i).log| < |AtTurn(ph, checked, p, note, ds, i + 1).log|
  {
    TurnsGrow(ph, checked, p, note, ds, 0, i);
    assert AtTurn(ph, checked, p, note, ds, 0) == p;
    hide AtTurn, GoesIn;
    StepAdds(ph, checked, p, note, ds, i);
    TurnsGrow(ph, checked, p, note, ds, i + 1, |ds|);
    a := |AtTurn(ph, checked, p, note, ds, i).log|;
    BeginsAt(AtTurn(ph, checked, p, note, ds, i + 1).log, AtTurn(ph, checked, p, note, ds, |ds|).log, a);
  }

  /** The draft behind a row that the drafts added. */
  lemma {:induction false} DraftOfRow(ph: Phrases, checked: bool, p: Pass, note: Event, ds: seq<Draft>, a: nat, n: nat) returns (i: nat)
    requires n <= |ds| && |p.log| <= a < |AtTurn(ph, checked, p, note, ds, n).log|
    ensures i < n && GoesIn(ph, checked, p, note, ds, i) && a == |AtTurn(ph, checked, p, note, ds, i).log|
    ensures AtTurn(ph, checked, p, note, ds, n).log[a].id == "c2_" + ds[i].claimId
    decreases n
  {
    hide AtTurn, GoesIn, DraftSteps;
    BeforeAnyTurn(ph, checked, p, note, ds);
    StepAdds(ph, checked, p, note, ds, n - 1);
    i := n - 1;
    if a < |AtTurn(ph, checked, p, note, ds, n - 1).log| {
      i := DraftOfRow(ph, checked, p, note, ds, a, n - 1);
      BeginsAt(AtTurn(ph, checked, p, note, ds, n - 1).log, AtTurn(ph, checked, p, note, ds, n).log, a);
    }
  }

  lemma BeforeAnyTurn(ph: Phrases, checked: bool, p: Pass, note: Event, ds: seq<Draft>)
    ensures AtTurn(ph, checked, p, note, ds, 0) == p
  {
  }

  lemma {:induction false} DraftsAre(note: Event, ss: seq<Speech>, support: Option<Event>, task: string)
    requires note.body.Note?
    ensures var ds := DraftsOf(note, ss, support, task);
      |ds| == |ss| && forall k | 0 <= k < |ss| :: ds[k] == DraftOf(note, ss[k], support, task)
  {
    if ss != [] {
      DraftsAre(note, ss[1..], support, task);
    }
  }

  // ---------- what a pass makes of one note ----------

  /** A note that is drafted, from the pass `base` on. An update reaches that point only after
      its trial and its retraction. */
  datatype Reading =
    | Silent
    | Spoken(note: Event, checked: bool, base: Pass, speeches: seq<Speech>, support: Option<Event>, task: string)

  function ReadUpdate(ph: Phrases, p: Pass, note: Event, text: string): Reading
    requires note.body.Note?
  {
    match UpdateTarget(p.log, note)
    case Nothing(_) => Silent
    case Found(target, task) =>
      var support := if note.body.supportId == "" then None else ShellOnly(FindRow(p.log, note.body.supportId));
      var ss := ph.natural(note.(body := note.body.(role := "conclusion")), text, support);
      var ds := DraftsOf(note, ss, support, TaskFor(task));
      if ds == [] || Trial(ph, p.log, p.seen, ds).Some? || BothGates(RetractEvent(note, target), Fold(p.log)).Refuse? then Silent
      else Spoken(note, false, RetractFor(p, note, target), ss, support, TaskFor(task))
  }

  function ReadQuote(ph: Phrases, p: Pass, note: Event, text: string, index: nat): Reading
    requires note.body.Note? && index < |p.log|
  {
    var task, support := NoteTask(p.log, note), SupportOf(p.log, note, index);
    if task.None? then Silent
    else Spoken(note, true, p, ph.drafted(note, text, support), support, TaskFor(task.value))
  }

  function ReadingOf(ph: Phrases, p: Pass, applied: set<string>, index: nat): Reading
    requires index < |p.log|
  {
    var note := p.log[index];
    if !note.body.Note? || note.id in applied || Trim(note.body.text) == "" || IsRetract(ph, note) then Silent
    else if note.body.role == "update" then ReadUpdate(ph, p, note, Trim(note.body.text))
    else ReadQuote(ph, p, note, Trim(note.body.text), index)
  }

  function DraftsIn(r: Reading): seq<Draft>
    requires r.Spoken? && r.note.body.Note?
  {
    DraftsOf(r.note, r.speeches, r.support, r.task)
  }

  /** The log after a note: that of its drafts, or at most one retraction more. */
  predicate Follows(ph: Phrases, r: Reading, a: seq<Event>, b: seq<Event>) {
    if r.Spoken? && r.note.body.Note? then
      && b == DraftSteps(ph, r.checked, r.base, r.note, DraftsIn(r)).log
      && |a| <= |r.base.log| <= |a| + 1 && (|r.base.log| == |a| + 1 ==> !IsAssert(r.base.log[|a|]))
    else
      |a| <= |b| <= |a| + 1 && (|b| == |a| + 1 ==> !IsAssert(b[|a|]))
  }

  predicate IsAssert(e: Event) {
    e.body.Authored? && e.body.claim.Some? && e.body.claim.value.op == Assert
  }

  lemma UpdateFollows(ph: Phrases, p: Pass, note: Event, text: string)
    requires note.body.Note?
    ensures Follows(ph, ReadUpdate(ph, p, note, text), p.log, UpdateNote(ph, p, note, text).log)
  {
    hide Trial, BothGates, Fold, AcceptOrRecord;
    var r := ReadUpdate(ph, p, note, text);
    if r.Spoken? {
      StepsAre(ph, false, r.base, note, DraftsIn(r));
    }
  }

  lemma QuoteFollows(ph: Phrases, p: Pass, note: Event, index: nat)
    requires note.body.Note? && index < |p.log|
    ensures Follows(ph, ReadQuote(ph, p, note, Trim(note.body.text), index), p.log, QuoteNote(ph, p, note, index).log)
  {
    hide QuoteDraft;
    var r := ReadQuote(ph, p, note, Trim(note.body.text), index);
    if r.Spoken? {
      StepsAre(ph, true, p, note, DraftsIn(r));
    }
  }

  lemma RetractFollows(ph: Phrases, p: Pass, note: Event, text: string)
    ensures Follows(ph, Silent, p.log, RetractNote(p, note, text).log)
  {
    hide BothGates, Fold, LongestQuoted;
  }

  lemma StepFollows(ph: Phrases, p: Pass, applied: set<string>, index: nat)
    requires index < |p.log|
    ensures Follows(ph, ReadingOf(ph, p, applied, index), p.log, NoteStep(ph, p, applied, index).log)
  {
    hide UpdateNote, QuoteNote, RetractNote, IsRetract, ReadUpdate, ReadQuote;
    var note := p.log[index];
    if note.body.Note? {
      UpdateFollows(ph, p, note, Trim(note.body.text));
      QuoteFollows(ph, p, note, index);
      RetractFollows(ph, p, note, Trim(note.body.text));
    }
  }

  /** A note of no special role in a session with a failing command is quoted. */
  lemma PlainStep(ph: Phrases, p: Pass, applied: set<string>, note: Event, index: nat, task: Event, ds: seq<Draft>)
    requires note.id !in applied && index < |p.log| && p.log[index] == note && note.body.Note? && note.body.role == ""
    requires !ph.asksRetract(Trim(note.body.text)) && Trim(note.body.text) != "" && NoteTask(p.log, note) == Some(task)
    requires NoteDrafts(ph, p.log, note, index, task) == ds && ds != []
    ensures NoteStep(ph, p, applied, index) == QuoteDrafts(ph, p, note, ds)
  {
  }

  // ---------- the drafts of a whole pass ----------

  /** What the pass makes of the row at `x` of the sorted log. */
  function ReadingAt(ph: Phrases, log: seq<Event>, x: nat): Reading
    requires x < |log|
  {
    ReadingOf(ph, ExtractUpTo(ph, log, x), CitedNotes(log), x)
  }

  /** Draft `i` of the note at `x` is admitted when its turn comes. */
  predicate AdmittedDraft(ph: Phrases, log: seq<Event>, x: nat, i: nat) {
    && x < |log| && ReadingAt(ph, log, x).Spoken?
    && var r := ReadingAt(ph, log, x);
    r.note.body.Note? && i < |r.speeches| && i < |DraftsIn(r)| && GoesIn(ph, r.checked, r.base, r.note, DraftsIn(r), i)
  }

  function SuffixAt(ph: Phrases, log: seq<Event>, x: nat, i: nat): string
    requires AdmittedDraft(ph, log, x, i)
  {
    SuffixFor(ReadingAt(ph, log, x).speeches[i].index)
  }

  /** Two admitted drafts of one note whose sentences get one suffix. */
  predicate SuffixClash(ph: Phrases, log: seq<Event>, x: nat, i: nat, j: nat) {
    && i < j && AdmittedDraft(ph, log, x, i) && AdmittedDraft(ph, log, x, j)
    && SuffixAt(ph, log, x, i) == SuffixAt(ph, log, x, j)
  }

  lemma PassSteps(ph: Phrases, log: seq<Event>, x: nat)
    requires x < |log|
    ensures Follows(ph, ReadingAt(ph, log, x), ExtractUpTo(ph, log, x).log, ExtractUpTo(ph, log, x + 1).log)
    ensures ReadingAt(ph, log, x).Spoken? ==> ReadingAt(ph, log, x).note == log[x] && log[x].body.Note?
    ensures ReadingAt(ph, log, x).Spoken? ==> log[x].id !in CitedNotes(log)
  {
    hide NoteStep, Follows, ReadUpdate, ReadQuote;
    var p := ExtractUpTo(ph, log, x);
    assert p.log[x] == p.log[..|log|][x] == log[x];
    StepFollows(ph, p, CitedNotes(log), x);
    if ReadingAt(ph, log, x).Spoken? {
      ReadNote(ph, p, CitedNotes(log), x);
    }
  }

  lemma ReadNote(ph: Phrases, p: Pass, applied: set<string>, index: nat)
    requires index < |p.log| && ReadingOf(ph, p, applied, index).Spoken?
    ensures ReadingOf(ph, p, applied, index).note == p.log[index] && p.log[index].body.Note? && p.log[index].id !in applied
  {
    hide Trial, BothGates, Fold;
  }

  lemma PassesBegin(ph: Phrases, log: seq<Event>, k: nat, n: nat)
    requires k <= n <= |log|
    ensures Begins(ExtractUpTo(ph, log, k).log, ExtractUpTo(ph, log, n).log)
  {
    PassesGrow(ph, log, k, n);
  }

  lemma NothingYet(ph: Phrases, log: seq<Event>)
    ensures ExtractUpTo(ph, log, 0).log == log
  {
  }

  /** The note whose turn pushed a row. */
  lemma {:induction false} TurnOfRow(ph: Phrases, log: seq<Event>, a: nat, n: nat) returns (x: nat)
    requires n <= |log| && |log| <= a < |ExtractUpTo(ph, log, n).log|
    ensures x < n && |ExtractUpTo(ph, log, x).log| <= a < |ExtractUpTo(ph, log, x + 1).log|
    decreases n
  {
    NothingYet(ph, log);
    hide ExtractUpTo;
    x := n - 1;
    if a < |ExtractUpTo(ph, log, n - 1).log| {
      x := TurnOfRow(ph, log, a, n - 1);
    }
  }

  /** Where draft `i` of the note at `x` found the log. */
  function PlaceOf(ph: Phrases, log: seq<Event>, x: nat, i: nat): nat
    requires AdmittedDraft(ph, log, x, i)
  {
    var r := ReadingAt(ph, log, x);
    |AtTurn(ph, r.checked, r.base, r.note, DraftsIn(r), i).log|
  }

  lemma DraftId(r: Reading, i: nat)
    requires r.Spoken? && r.note.body.Note? && i < |r.speeches|
    ensures i < |DraftsIn(r)| && DraftsIn(r)[i].claimId == r.note.id + SuffixFor(r.speeches[i].index)
  {
    DraftsAre(r.note, r.speeches, r.support, r.task);
  }

  lemma WholeTurn(ph: Phrases, r: Reading)
    requires r.Spoken? && r.note.body.Note?
    ensures AtTurn(ph, r.checked, r.base, r.note, DraftsIn(r), |DraftsIn(r)|)
         == DraftSteps(ph, r.checked, r.base, r.note, DraftsIn(r))
  {
    assert DraftsIn(r)[..|DraftsIn(r)|] == DraftsIn(r);
  }

  lemma RowInTurn(ph: Phrases, r: Reading, before: seq<Event>, after: seq<Event>, i: nat)
    requires r.Spoken? && r.note.body.Note? && Follows(ph, r, before, after) && i < |r.speeches| && i < |DraftsIn(r)|
    requires GoesIn(ph, r.checked, r.base, r.note, DraftsIn(r), i)
    ensures var a := |AtTurn(ph, r.checked, r.base, r.note, DraftsIn(r), i).log|;
      |before| <= a < |after| && after[a].id == "c2_" + (r.note.id + SuffixFor(r.speeches[i].index))
  {
    hide GoesIn, AtTurn, DraftSteps;
    DraftId(r, i);
    WholeTurn(ph, r);
    var a := RowOfDraft(ph, r.checked, r.base, r.note, DraftsIn(r), i);
  }

  /** An admitted draft left a row named after its note and its suffix. */
  lemma RowOfAdmitted(ph: Phrases, log: seq<Event>, x: nat, i: nat)
    requires AdmittedDraft(ph, log, x, i)
    ensures var after, a := ExtractUpTo(ph, log, |log|).log, PlaceOf(ph, log, x, i);
      |log| <= a < |after| && after[a].id == "c2_" + (log[x].id + SuffixAt(ph, log, x, i))
  {
    hide ReadingOf, GoesIn, AtTurn, Follows, ExtractUpTo;
    PassSteps(ph, log, x);
    RowInTurn(ph, ReadingAt(ph, log, x), ExtractUpTo(ph, log, x).log, ExtractUpTo(ph, log, x + 1).log, i);
    PassesBegin(ph, log, x + 1, |log|);
    BeginsAt(ExtractUpTo(ph, log, x + 1).log, ExtractUpTo(ph, log, |log|).log, PlaceOf(ph, log, x, i));
  }

  lemma AssertIsDrafted(ph: Phrases, r: Reading, before: seq<Event>, after: seq<Event>, a: nat)
    requires Follows(ph, r, before, after) && |before| <= a < |after| && IsAssert(after[a])
    ensures r.Spoken? && r.note.body.Note? && |r.base.log| <= a
  {
    if r.Spoken? && r.note.body.Note? && a < |r.base.log| {
      hide GoesIn;
      WholeTurn(ph, r);
      TurnsGrow(ph, r.checked, r.base, r.note, DraftsIn(r), 0, |DraftsIn(r)|);
      FirstTurn(ph, r);
      hide AtTurn, DraftSteps;
      BeginsAt(r.base.log, after, a);
    }
  }

  lemma FirstTurn(ph: Phrases, r: Reading)
    requires r.Spoken? && r.note.body.Note?
    ensures AtTurn(ph, r.checked, r.base, r.note, DraftsIn(r), 0) == r.base
  {
  }

  lemma DraftInTurn(ph: Phrases, r: Reading, before: seq<Event>, after: seq<Event>, a: nat) returns (i: nat)
    requires Follows(ph, r, before, after) && |before| <= a < |after| && IsAssert(after[a])
    ensures r.Spoken? && r.note.body.Note? && i < |r.speeches| && i < |DraftsIn(r)|
    ensures GoesIn(ph, r.checked, r.base, r.note, DraftsIn(r), i)
    ensures a == |AtTurn(ph, r.checked, r.base, r.note, DraftsIn(r), i).log|
  {
    hide GoesIn, AtTurn, DraftSteps;
    AssertIsDrafted(ph, r, before, after, a);
    WholeTurn(ph, r);
    i := DraftOfRow(ph, r.checked, r.base, r.note, DraftsIn(r), a, |DraftsIn(r)|);
    DraftsAre(r.note, r.speeches, r.support, r.task);
  }

  /** A row that asserts a claim was left by an admitted draft. */
  lemma AdmittedOfRow(ph: Phrases, log: seq<Event>, a: nat) returns (x: nat, i: nat)
    requires |log| <= a < |ExtractUpTo(ph, log, |log|).log| && IsAssert(ExtractUpTo(ph, log, |log|).log[a])
    ensures AdmittedDraft(ph, log, x, i) && PlaceOf(ph, log, x, i) == a
  {
    hide ReadingOf, GoesIn, AtTurn, Follows, ExtractUpTo;
    x := TurnOfRow(ph, log, a, |log|);
    PassSteps(ph, log, x);
    PassesBegin(ph, log, x + 1, |log|);
    BeginsAt(ExtractUpTo(ph, log, x + 1).log, ExtractUpTo(ph, log, |log|).log, a);
    i := DraftInTurn(ph, ReadingAt(ph, log, x), ExtractUpTo(ph, log, x).log, ExtractUpTo(ph, log, x + 1).log, a);
  }

  predicate RepeatAt(es: seq<Event>, a: nat, b: nat) {
    a < b < |es| && es[a].id == es[b].id
  }

  predicate NotesNamed(log: seq<Event>) {
    forall e | e in log && e.body.Note? :: |e.id| == 26
  }

  lemma ClashRepeats(ph: Phrases, log: seq<Event>, x: nat, i: nat, j: nat)
    requires SuffixClash(ph, log, x, i, j)
    ensures |log| <= PlaceOf(ph, log, x, i) && RepeatAt(ExtractUpTo(ph, log, |log|).log, PlaceOf(ph, log, x, i), PlaceOf(ph, log, x, j))
  {
    hide ReadingOf, GoesIn, AtTurn, DraftSteps, ExtractUpTo;
    RowOfAdmitted(ph, log, x, i);
    RowOfAdmitted(ph, log, x, j);
    PlacesIncrease(ph, log, x, i, j);
  }

  lemma PlacesIncrease(ph: Phrases, log: seq<Event>, x: nat, i: nat, j: nat)
    requires AdmittedDraft(ph, log, x, i) && AdmittedDraft(ph, log, x, j) && i < j
    ensures PlaceOf(ph, log, x, i) < PlaceOf(ph, log, x, j)
  {
    hide ReadingOf, ExtractUpTo;
    var r := ReadingAt(ph, log, x);
    var ds := DraftsIn(r);
    StepAdds(ph, r.checked, r.base, r.note, ds, i);
    hide GoesIn, AtTurn, DraftSteps;
    TurnsGrow(ph, r.checked, r.base, r.note, ds, i + 1, j);
  }

  lemma AdmittedIsNote(ph: Phrases, log: seq<Event>, x: nat, i: nat)
    requires AdmittedDraft(ph, log, x, i) && NotesNamed(log)
    ensures x < |log| && |log[x].id| == 26
  {
    hide GoesIn, ReadingOf, Follows, ExtractUpTo;
    PassSteps(ph, log, x);
  }

  lemma NameSplits(n: string, s: string, m: string, t: string)
    requires "c2_" + (n + s) == "c2_" + (m + t) && |n| == |m|
    ensures n == m && s == t
  {
    CancelPrefix("c2_", n + s, m + t);
    assert (n + s)[..|n|] == n && (m + t)[..|m|] == m && (n + s)[|n|..] == s && (m + t)[|m|..] == t;
  }

  /** Two pushed rows with one id were left by two admitted drafts of one note with one suffix. */
  lemma RepeatsClash(ph: Phrases, log: seq<Event>, a: nat, b: nat) returns (x: nat, i: nat, j: nat)
    requires DistinctEvents(log) && NotesNamed(log)
    requires |log| <= a && RepeatAt(ExtractUpTo(ph, log, |log|).log, a, b)
    ensures SuffixClash(ph, log, x, i, j)
  {
    hide AdmittedDraft, PlaceOf, SuffixAt, ReadingAt, ExtractUpTo, NotesNamed, IsAssert;
    var after := ExtractUpTo(ph, log, |log|).log;
    RepeatIsClaim(ph, log, a, b);
    x, i := AdmittedOfRow(ph, log, a);
    var y: nat;
    y, j := AdmittedOfRow(ph, log, b);
    RowOfAdmitted(ph, log, x, i);
    RowOfAdmitted(ph, log, y, j);
    AdmittedIsNote(ph, log, x, i);
    AdmittedIsNote(ph, log, y, j);
    NameSplits(log[x].id, SuffixAt(ph, log, x, i), log[y].id, SuffixAt(ph, log, y, j));
    assert x == y;
    if j <= i {
      PlacesIncrease(ph, log, x, j, i);
    }
  }

  lemma RepeatIsClaim(ph: Phrases, log: seq<Event>, a: nat, b: nat)
    requires DistinctEvents(log) && NotesNamed(log)
    requires |log| <= a && RepeatAt(ExtractUpTo(ph, log, |log|).log, a, b)
    ensures var after := ExtractUpTo(ph, log, |log|).log;
      IsAssert(after[a]) && IsAssert(after[b]) && FirstCited(after[a]) == FirstCited(after[b])
  {
    hide ExtractUpTo;
    var after := ExtractUpTo(ph, log, |log|).log;
    ExtractInBlocks(ph, log, |log|);
    assert UncitedNote(log, FirstCited(after[a]), |log|) && UncitedNote(log, FirstCited(after[b]), |log|);
    RepeatsInBlock(log, after, |log|, a, b);
    SameIdSameNote(after[a], after[b]);
  }
}
