/** What a whole extraction pass adds: every row is justified by the log before it, the rows
    stay in order, and a second pass adds nothing. */
module Extraction {
  import opened Text
  import opened Claims
  import opened Projector
  import opened CurrentView
  import opened GatedLog
  import opened Trust
  import opened Compaction
  import opened EventTable
  import opened Handoff
  import opened Admission

  // ---------- why a row was pushed ----------

  ghost predicate IsSubject(s: string) {
    exists cwd, command :: s == ShellSubject(cwd, command)
  }

  /** A draft is on the task of a command and named after the note it cites first. */
  ghost predicate WellDrafted(d: Draft) {
    d.evidenceIds != [] && IsSubject(d.taskSubject) && AfterNote(d.evidenceIds[0], d.claimId)
  }

  function AssertRow(log: seq<Event>, d: Draft): Event {
    Event("c2_" + d.claimId, NextAt(log), Authored(Some(DraftEvent(d))))
  }

  function RetractRow(log: seq<Event>, noteId: string, note: Event, target: Claim): Event {
    Event("c2_retract_" + noteId, NextAt(log), Authored(Some(RetractEvent(note, target))))
  }

  /** The row asserts a draft that was admitted against the log before it. */
  ghost predicate Admits(ph: Phrases, log: seq<Event>, row: Event) {
    exists d: Draft :: row == AssertRow(log, d) && WellDrafted(d)
                && Admit(ph, d, Fold(log), SeedSeen(ph, log), log).Admitted?
  }

  /** The row retracts a claim of the log before it that both gates let go. */
  ghost predicate Retracts(log: seq<Event>, row: Event) {
    exists note: Event, target: Claim :: row == RetractRow(log, note.id, note, target)
      && target in Fold(log).claims && !Untouchable(target)
      && BothGates(RetractEvent(note, target), Fold(log)).Accept?
  }

  ghost predicate JustifiedAt(ph: Phrases, b: seq<Event>, i: nat) {
    i < |b| && (Admits(ph, b[..i], b[i]) || Retracts(b[..i], b[i]))
  }

  /** Every row of `b` past `a` is justified by the rows before it. */
  ghost predicate Justified(ph: Phrases, a: seq<Event>, b: seq<Event>) {
    Grown(a, b) && forall i: nat | |a| <= i < |b| :: JustifiedAt(ph, b, i)
  }

  lemma JustifiedTransitive(ph: Phrases, a: seq<Event>, b: seq<Event>, c: seq<Event>)
    requires Justified(ph, a, b) && Justified(ph, b, c)
    ensures Justified(ph, a, c)
  {
    GrownTransitive("", a, b, c);
    forall i: nat | |a| <= i < |c|
      ensures JustifiedAt(ph, c, i)
    {
      if i < |b| {
        assert JustifiedAt(ph, b, i);
        assert c[..i] == c[..|b|][..i] == b[..i] && c[i] == c[..|b|][i] == b[i];
      }
    }
  }

  /** The step from `p` to `q` only pushes justified rows and keeps the seen keys exact. */
  ghost predicate Sound(ph: Phrases, p: Pass, q: Pass) {
    p.seen == SeedSeen(ph, p.log) ==> Justified(ph, p.log, q.log) && q.seen == SeedSeen(ph, q.log)
  }

  lemma SoundTransitive(ph: Phrases, p: Pass, q: Pass, r: Pass)
    requires Sound(ph, p, q) && Sound(ph, q, r)
    ensures Sound(ph, p, r)
  {
    if p.seen == SeedSeen(ph, p.log) {
      JustifiedTransitive(ph, p.log, q.log, r.log);
    }
  }

  lemma Unmoved(ph: Phrases, p: Pass, q: Pass)
    requires q.log == p.log && q.seen == p.seen
    ensures Sound(ph, p, q)
  {
  }

  lemma SeedPush(ph: Phrases, log: seq<Event>, row: Event)
    ensures SeedSeen(ph, log + [row]) == SeedSeen(ph, log)
      + if row.body.Authored? && row.body.claim.Some? && row.body.claim.value.op == Assert
           && row.body.claim.value.kind.Some? && row.body.claim.value.text.Some?
        then [KeyOf(ph, row.body.claim.value.kind.value, row.body.claim.value.text.value)] else []
  {
    assert (log + [row])[..|log|] == log;
  }

  lemma OneRow(ph: Phrases, log: seq<Event>, row: Event)
    requires row.body.Authored? && row.body.claim.Some? && (Admits(ph, log, row) || Retracts(log, row))
    ensures Justified(ph, log, log + [row])
  {
    assert (log + [row])[..|log|] == log && (log + [row])[|log|] == row;
    assert JustifiedAt(ph, log + [row], |log|);
  }

  lemma AcceptIsSound(ph: Phrases, p: Pass, d: Draft)
    requires WellDrafted(d)
    ensures Sound(ph, p, AcceptOrRecord(ph, p, d))
  {
    hide WellDrafted, Fold, EvidenceCheck, SupportCheck, GateCheck;
    var q := AcceptOrRecord(ph, p, d);
    if q.log == p.log && q.seen == p.seen {
      Unmoved(ph, p, q);
    } else if p.seen == SeedSeen(ph, p.log) {
      var row := AssertRow(p.log, d);
      AdmittedFound(ph, d, Fold(p.log), p.seen, p.log);
      assert q.log == p.log + [row];
      assert Admits(ph, p.log, row);
      OneRow(ph, p.log, row);
      SeedPush(ph, p.log, row);
      CollapseStable(d.text);
    }
  }

  ghost predicate AllWellDrafted(ds: seq<Draft>) {
    forall d | d in ds :: WellDrafted(d)
  }

  lemma DraftsAreWell(note: Event, ss: seq<Speech>, support: Option<Event>, task: string)
    requires note.body.Note? && IsSubject(task)
    ensures AllWellDrafted(DraftsOf(note, ss, support, task))
  {
    DraftsCite(note, ss, support, task);
    forall d | d in DraftsOf(note, ss, support, task)
      ensures WellDrafted(d)
    {
      var i :| 0 <= i < |ss| && d == DraftOf(note, ss[i], support, task);
      var suffix := SuffixFor(ss[i].index);
      assert NoNewline(suffix);
      assert d.claimId[|note.id|..] == suffix && d.claimId[..|note.id|] == note.id;
    }
  }

  lemma {:induction false} FailingIsShell(log: seq<Event>, rows: seq<Event>, session: string)
    ensures var e := FirstFailing(log, rows, session); e.Some? ==> e.value.body.Shell? && IsSubject(TaskFor(e.value))
  {
    if rows != [] {
      FailingIsShell(log, rows[1..], session);
      if StillFailing(log, rows[0], session) {
        assert TaskFor(rows[0]) == ShellSubject(rows[0].body.cwd, rows[0].body.command);
      }
    }
  }

  lemma {:induction false} AcceptAllIsSound(ph: Phrases, p: Pass, ds: seq<Draft>)
    requires AllWellDrafted(ds)
    ensures Sound(ph, p, AcceptAll(ph, p, ds))
    decreases |ds|
  {
    if ds == [] {
      Unmoved(ph, p, p);
    } else {
      var q := AcceptOrRecord(ph, p, ds[0]);
      AcceptIsSound(ph, p, ds[0]);
      AcceptAllIsSound(ph, q, ds[1..]);
      SoundTransitive(ph, p, q, AcceptAll(ph, q, ds[1..]));
    }
  }

  lemma QuoteDraftIsSound(ph: Phrases, p: Pass, note: Event, d: Draft)
    requires WellDrafted(d)
    ensures Sound(ph, p, QuoteDraft(ph, p, note, d))
  {
    hide Sound, WellDrafted, AcceptOrRecord, Overlap;
    AcceptIsSound(ph, p, d);
    var q := QuoteDraft(ph, p, note, d);
    if q.log == p.log && q.seen == p.seen {
      Unmoved(ph, p, q);
    }
  }

  lemma {:induction false} QuoteDraftsAreSound(ph: Phrases, p: Pass, note: Event, ds: seq<Draft>)
    requires AllWellDrafted(ds)
    ensures Sound(ph, p, QuoteDrafts(ph, p, note, ds))
    decreases |ds|
  {
    if ds == [] {
      Unmoved(ph, p, p);
    } else {
      hide Sound, WellDrafted, QuoteDraft;
      var q := QuoteDraft(ph, p, note, ds[0]);
      QuoteDraftIsSound(ph, p, note, ds[0]);
      QuoteDraftsAreSound(ph, q, note, ds[1..]);
      SoundTransitive(ph, p, q, QuoteDrafts(ph, q, note, ds[1..]));
    }
  }

  lemma {:induction false} LongestIsClaim(claims: seq<Claim>, text: string)
    ensures LongestQuoted(claims, text).Some? ==> LongestQuoted(claims, text).value in claims
  {
    if claims != [] {
      LongestIsClaim(claims[..|claims| - 1], text);
    }
  }

  lemma RetractIsSound(ph: Phrases, p: Pass, note: Event, target: Claim)
    requires target in Fold(p.log).claims && !Untouchable(target)
    requires BothGates(RetractEvent(note, target), Fold(p.log)).Accept?
    ensures Sound(ph, p, RetractFor(p, note, target))
  {
    var row := RetractRow(p.log, note.id, note, target);
    assert Retracts(p.log, row);
    OneRow(ph, p.log, row);
    SeedPush(ph, p.log, row);
  }

  lemma RetractNoteIsSound(ph: Phrases, p: Pass, note: Event, text: string)
    ensures Sound(ph, p, RetractNote(p, note, text))
  {
    LongestIsClaim(Fold(p.log).claims, text);
    var q := RetractNote(p, note, text);
    if q.log == p.log && q.seen == p.seen {
      Unmoved(ph, p, q);
    } else {
      RetractIsSound(ph, p, note, LongestQuoted(Fold(p.log).claims, text).value);
    }
  }

  lemma ReplaceIsSound(ph: Phrases, p: Pass, note: Event, target: Claim, ds: seq<Draft>)
    requires target in Fold(p.log).claims && !Untouchable(target) && AllWellDrafted(ds)
    ensures Sound(ph, p, ReplaceClaim(ph, p, note, target, ds))
  {
    if BothGates(RetractEvent(note, target), Fold(p.log)).Accept? {
      var r := RetractFor(p, note, target);
      RetractIsSound(ph, p, note, target);
      AcceptAllIsSound(ph, r, ds);
      SoundTransitive(ph, p, r, AcceptAll(ph, r, ds));
    } else {
      Unmoved(ph, p, ReplaceClaim(ph, p, note, target, ds));
    }
  }

  lemma UpdateIsSound(ph: Phrases, p: Pass, note: Event, text: string)
    requires note.body.Note?
    ensures Sound(ph, p, UpdateNote(ph, p, note, text))
  {
    hide Sound, Fold, UpdateDrafts, Trial, ReplaceClaim;
    match UpdateTarget(p.log, note)
    case Nothing(_) => Unmoved(ph, p, UpdateNote(ph, p, note, text));
    case Found(target, task) =>
      var ds, q := UpdateDrafts(ph, p.log, note, text, task), UpdateNote(ph, p, note, text);
      if q.log == p.log && q.seen == p.seen {
        Unmoved(ph, p, q);
      } else {
        QuotedIsClaim(Fold(p.log).claims, Collapse(note.body.replacesText));
        UpdateDraftsAreWell(ph, p.log, note, text, task);
        ReplaceIsSound(ph, p, note, target, ds);
      }
  }

  lemma UpdateDraftsAreWell(ph: Phrases, log: seq<Event>, note: Event, text: string, task: Event)
    requires note.body.Note? && NoteTask(log, note) == Some(task)
    ensures AllWellDrafted(UpdateDrafts(ph, log, note, text, task))
  {
    FailingIsShell(log, log, note.body.session);
    var support := if note.body.supportId == "" then None else ShellOnly(FindRow(log, note.body.supportId));
    DraftsAreWell(note, ph.natural(note.(body := note.body.(role := "conclusion")), text, support), support, TaskFor(task));
  }

  lemma QuoteNoteIsSound(ph: Phrases, p: Pass, note: Event, index: nat)
    requires note.body.Note? && index < |p.log|
    ensures Sound(ph, p, QuoteNote(ph, p, note, index))
  {
    var task := NoteTask(p.log, note);
    if task.None? {
      Unmoved(ph, p, QuoteNote(ph, p, note, index));
    } else {
      var support := SupportOf(p.log, note, index);
      FailingIsShell(p.log, p.log, note.body.session);
      DraftsAreWell(note, ph.drafted(note, Trim(note.body.text), support), support, TaskFor(task.value));
      QuoteDraftsAreSound(ph, p, note, NoteDrafts(ph, p.log, note, index, task.value));
    }
  }

  lemma NoteStepIsSound(ph: Phrases, p: Pass, applied: set<string>, index: nat)
    requires index < |p.log|
    ensures Sound(ph, p, NoteStep(ph, p, applied, index))
  {
    var note := p.log[index];
    if !note.body.Note? || note.id in applied || Trim(note.body.text) == "" {
      Unmoved(ph, p, NoteStep(ph, p, applied, index));
    } else if IsRetract(ph, note) {
      RetractNoteIsSound(ph, p, note, Trim(note.body.text));
    } else if note.body.role == "update" {
      UpdateIsSound(ph, p, note, Trim(note.body.text));
    } else {
      QuoteNoteIsSound(ph, p, note, index);
    }
  }

  ghost predicate Exact(ph: Phrases, log: seq<Event>, p: Pass) {
    Justified(ph, log, p.log) && p.seen == SeedSeen(ph, p.log)
  }

  lemma NextIsExact(ph: Phrases, log: seq<Event>, p: Pass, index: nat, q: Pass)
    requires index < |log| && Grown(log, p.log) && UsesNotes(log, p.log) && Exact(ph, log, p)
    requires q == NextPass(ph, log, p, index)
    ensures Exact(ph, log, q)
  {
    NoteStepIsSound(ph, p, CitedNotes(log), index);
    JustifiedTransitive(ph, log, p.log, q.log);
  }

  lemma StartIsExact(ph: Phrases, log: seq<Event>)
    ensures Exact(ph, log, Pass(log, SeedSeen(ph, log), Report([], [], [])))
  {
  }

  /** Every row a pass pushes was admitted, or let go by both gates, against the log exactly
      as it stood before that row; the seen keys are those of the log. */
  lemma {:induction false} ExtractionIsJustified(ph: Phrases, log: seq<Event>, n: nat)
    requires n <= |log|
    ensures Exact(ph, log, ExtractUpTo(ph, log, n))
  {
    hide NextPass;
    if n == 0 {
      StartIsExact(ph, log);
    } else {
      ExtractionIsJustified(ph, log, n - 1);
      NextIsExact(ph, log, ExtractUpTo(ph, log, n - 1), n - 1, ExtractUpTo(ph, log, n));
    }
  }
}
