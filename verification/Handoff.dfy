/** Quoting notes into claims: the admission gate and one extraction pass over the log. */
module Handoff {
  import opened Text
  import opened Claims
  import opened Projector
  import opened CurrentView
  import opened GatedLog
  import opened FoldLaws
  import opened Trust
  import opened EventTable

  const MIN_OVERLAP: nat := 2
  const MAX_TEXT: nat := 500
  const U64_MAX: nat := 0xFFFF_FFFF_FFFF_FFFF

  // ---------- what reading English yields ----------

  /** The speech acts a sentence can be drafted as; each fixes kind, author and confidence. */
  datatype Act = AsConstraint | AsDecision | AsRuledOut | AsNextAction | AsUnknown | AsReality

  /** A sentence of a note, its position, and whether the draft cites the supporting row. */
  datatype Speech = Speech(sentence: string, act: Act, index: nat, cites: bool)

  /** The phrase matchers, kept as deterministic functions of the texts they read. */
  datatype Phrases = Phrases(
    lower: string -> string,
    tokens: string -> set<string>,
    asksRetract: string -> bool,
    drafted: (Event, string, Option<Event>) -> seq<Speech>,
    natural: (Event, string, Option<Event>) -> seq<Speech>)

  /** The phrase matchers when they find that one speech in every note. */
  function OneSpeech(s: Speech): Phrases {
    Phrases((x: string) => x, (x: string) => {}, (x: string) => false,
            (n: Event, x: string, r: Option<Event>) => [s], (n: Event, x: string, r: Option<Event>) => [s])
  }

  function KindOf(act: Act): Kind {
    match act
    case AsConstraint => Constraint
    case AsDecision => Decision
    case AsRuledOut => RuledOut
    case AsNextAction => NextAction
    case AsUnknown => Unknown
    case AsReality => Reality
  }

  function OriginOf(act: Act): Origin {
    if act.AsConstraint? then User else Agent
  }

  function ConfidenceOf(act: Act): Confidence {
    match act
    case AsConstraint => Stated
    case AsUnknown => Hypothesis
    case _ => Inferred
  }

  datatype Draft = Draft(
    claimId: string, act: Act, text: string, evidenceIds: seq<string>, sourceText: string,
    supportText: Option<string>, taskSubject: string)

  /** `index as u8 - 1`, capped at 24: ids repeat past 26 sentences. */
  function SuffixFor(index: nat): string {
    if index == 0 then ""
    else
      var n := (index % 256 + 255) % 256;
      [('b' as int + if n < 24 then n else 24) as char]
  }

  function DraftOf(note: Event, s: Speech, support: Option<Event>, task: string): Draft
    requires note.body.Note?
  {
    var cited := s.cites && support.Some? && support.value.body.Shell?;
    Draft(note.id + SuffixFor(s.index), s.act, Trim(s.sentence),
          [note.id] + (if cited && support.value.id != note.id then [support.value.id] else []),
          note.body.text, if cited then Some(support.value.body.output) else None, task)
  }

  function DraftsOf(note: Event, ss: seq<Speech>, support: Option<Event>, task: string): seq<Draft>
    requires note.body.Note?
  {
    if ss == [] then [] else [DraftOf(note, ss[0], support, task)] + DraftsOf(note, ss[1..], support, task)
  }

  // ---------- reading the log ----------

  datatype Reason =
    | NoEvidence | MissingEvidence | FirstNotNote | NotVerbatim | NoTaskSubject | NotFailing | Duplicate
    | NoShellEvidence | SupportMismatch | Unsupported | Gate(why: Refusal)
    | EmptyNote | NoFailingCommand | NothingDrafted | NotSpan | BadLength | NotGrounded
    | NoQuotedClaim | ObservedTarget

  function FindRow(log: seq<Event>, id: string): Option<Event> {
    var k := RowIndex(log, id);
    if k < |log| then Some(log[k]) else None
  }

  function FirstShell(log: seq<Event>, ids: seq<string>): Option<Event> {
    if ids == [] then None
    else
      var row := FindRow(log, ids[0]);
      if row.Some? && row.value.body.Shell? then row else FirstShell(log, ids[1..])
  }

  function Overlap(ph: Phrases, claim: string, support: string): nat {
    |ph.tokens(claim) * ph.tokens(support)|
  }

  type SeenKey = (Kind, string)

  function KeyOf(ph: Phrases, kind: Kind, text: string): SeenKey {
    (kind, ph.lower(Collapse(text)))
  }

  /** Keys of claims already asserted in the log. */
  function SeedSeen(ph: Phrases, log: seq<Event>): seq<SeenKey> {
    if log == [] then []
    else
      var before, e := SeedSeen(ph, log[..|log| - 1]), log[|log| - 1];
      if e.body.Authored? && e.body.claim.Some? && e.body.claim.value.op == Assert
         && e.body.claim.value.kind.Some? && e.body.claim.value.text.Some?
      then before + [KeyOf(ph, e.body.claim.value.kind.value, e.body.claim.value.text.value)]
      else before
  }

  function EvidenceOf(e: Event): set<string> {
    if e.body.Authored? && e.body.claim.Some? then set id | id in e.body.claim.value.evidenceIds else {}
  }

  /** Ids cited by any claim row. */
  function CitedNotes(log: seq<Event>): set<string> {
    if log == [] then {} else CitedNotes(log[..|log| - 1]) + EvidenceOf(log[|log| - 1])
  }

  /** Newest exit of a (session, command) key; a row without a code forgets the key's code. */
  function LatestCode(log: seq<Event>, session: string, command: string): Option<int> {
    if log == [] then None
    else
      var e := log[|log| - 1];
      if e.body.Shell? && e.body.session == session && Collapse(e.body.command) == command then e.body.exitCode
      else LatestCode(log[..|log| - 1], session, command)
  }

  predicate StillFailing(log: seq<Event>, e: Event, session: string) {
    e.body.Shell? && e.body.session == session
    && var code := LatestCode(log, session, Collapse(e.body.command));
    code.Some? && code.value != 0
  }

  function FirstFailing(log: seq<Event>, rows: seq<Event>, session: string): Option<Event> {
    if rows == [] then None
    else if StillFailing(log, rows[0], session) then Some(rows[0])
    else FirstFailing(log, rows[1..], session)
  }

  /** The oldest command of the note's session that is still failing. */
  function NoteTask(log: seq<Event>, note: Event): Option<Event>
    requires note.body.Note?
  {
    FirstFailing(log, log, note.body.session)
  }

  function TaskFor(e: Event): string {
    if e.body.Shell? then ShellSubject(e.body.cwd, e.body.command) else ""
  }

  /** Only a shell row ever serves as support. */
  function ShellOnly(row: Option<Event>): Option<Event> {
    if row.Some? && row.value.body.Shell? then row else None
  }

  function SupportOf(log: seq<Event>, note: Event, index: nat): Option<Event>
    requires note.body.Note? && index < |log|
  {
    if note.body.supportId != "" then ShellOnly(FindRow(log, note.body.supportId))
    else if index == 0 then None
    else ShellOnly(Some(log[index - 1]))
  }

  function LongestQuoted(claims: seq<Claim>, text: string): Option<Claim> {
    if claims == [] then None
    else
      var best, c := LongestQuoted(claims[..|claims| - 1], text), claims[|claims| - 1];
      if c.status == Current && Contains(text, c.text) && (best.None? || ByteLength(c.text) >= ByteLength(best.value.text)) then Some(c)
      else best
  }

  function CurrentWithText(claims: seq<Claim>, wanted: string): Option<Claim> {
    if claims == [] then None
    else if claims[0].status == Current && Collapse(claims[0].text) == wanted then Some(claims[0])
    else CurrentWithText(claims[1..], wanted)
  }

  // ---------- admission ----------

  datatype Admission = Admitted(row: ClaimEvent) | Rejected(reason: Reason)

  function DraftEvent(d: Draft): ClaimEvent {
    ClaimEvent(Assert, d.claimId, TaskIdFor(d.taskSubject), Some(KindOf(d.act)),
               Some(if d.act.AsNextAction? then FRONTIER_SUBJECT else d.claimId),
               Some(Trim(d.text)), Some(ConfidenceOf(d.act)), OriginOf(d.act), None, [], d.evidenceIds, None)
  }

  /** What the log alone says about a draft. */
  function EvidenceCheck(ph: Phrases, d: Draft, log: seq<Event>): Option<Reason> {
    if d.evidenceIds == [] then Some(NoEvidence)
    else if exists i | 0 <= i < |d.evidenceIds| :: FindRow(log, d.evidenceIds[i]).None? then Some(MissingEvidence)
    else
      var note := FindRow(log, d.evidenceIds[0]).value;
      if !note.body.Note? then Some(FirstNotNote)
      else if Trim(d.text) == "" || !Contains(note.body.text, Trim(d.text)) || d.sourceText != note.body.text then
        Some(NotVerbatim)
      else if Trim(d.taskSubject) == "" then Some(NoTaskSubject)
      else if Trim(d.taskSubject) !in FailingSubjects(log) then Some(NotFailing)
      else None
  }

  function SupportCheck(ph: Phrases, d: Draft, log: seq<Event>): Option<Reason> {
    if !d.act.AsReality? then None
    else
      var support := FirstShell(log, d.evidenceIds);
      if support.None? || !support.value.body.Shell? then Some(NoShellEvidence)
      else if d.supportText.Some? && d.supportText.value != support.value.body.output then Some(SupportMismatch)
      else if Overlap(ph, Trim(d.text), support.value.body.output) < MIN_OVERLAP then Some(Unsupported)
      else None
  }

  function GateCheck(d: Draft, view: View): Option<Reason> {
    var ce := DraftEvent(d);
    match Validate(ce.origin, ce)
    case Refuse(why) => Some(Gate(why))
    case Accept =>
      match ValidateAgainst(ce.origin, ce, view)
      case Refuse(why) => Some(Gate(why))
      case Accept => None
  }

  function Admit(ph: Phrases, d: Draft, view: View, seen: seq<SeenKey>, log: seq<Event>): Admission {
    var evidence := EvidenceCheck(ph, d, log);
    if evidence.Some? then Rejected(evidence.value)
    else if KeyOf(ph, KindOf(d.act), Trim(d.text)) in seen then Rejected(Duplicate)
    else
      var support := SupportCheck(ph, d, log);
      if support.Some? then Rejected(support.value)
      else
        var gate := GateCheck(d, view);
        if gate.Some? then Rejected(gate.value) else Admitted(DraftEvent(d))
  }

  // ---------- one pass, on values ----------

  datatype Report = Report(accepted: seq<string>, rejected: seq<(string, Reason)>, skipped: seq<(string, Reason)>)

  datatype Pass = Pass(log: seq<Event>, seen: seq<SeenKey>, report: Report)

  function Skip(p: Pass, unit: string, reason: Reason): Pass {
    p.(report := p.report.(skipped := p.report.skipped + [(unit, reason)]))
  }

  function MaxAt(log: seq<Event>): nat {
    if log == [] then 0
    else
      var m := MaxAt(log[..|log| - 1]);
      if log[|log| - 1].at > m then log[|log| - 1].at else m
  }

  /** `saturating_add(1000)` past the newest row. */
  function NextAt(log: seq<Event>): nat {
    if MaxAt(log) + 1000 <= U64_MAX then MaxAt(log) + 1000 else U64_MAX
  }

  function PushRow(log: seq<Event>, ce: ClaimEvent, id: string): seq<Event> {
    log + [Event(id, NextAt(log), Authored(Some(ce)))]
  }

  function AcceptOrRecord(ph: Phrases, p: Pass, d: Draft): Pass {
    match Admit(ph, d, Fold(p.log), p.seen, p.log)
    case Admitted(ce) =>
      Pass(PushRow(p.log, ce, "c2_" + d.claimId), p.seen + [KeyOf(ph, KindOf(d.act), d.text)],
           p.report.(accepted := p.report.accepted + [d.claimId]))
    case Rejected(reason) =>
      if reason == Duplicate then Skip(p, d.claimId, reason)
      else p.(report := p.report.(rejected := p.report.rejected + [(d.claimId, reason)]))
  }

  function AcceptAll(ph: Phrases, p: Pass, ds: seq<Draft>): Pass
    decreases |ds|
  {
    if ds == [] then p else AcceptAll(ph, AcceptOrRecord(ph, p, ds[0]), ds[1..])
  }

  function RetractEvent(note: Event, target: Claim): ClaimEvent {
    ClaimEvent(Supersede, "retract_" + note.id, target.taskId, None, None, None, None,
               if target.origin == User then User else Agent, None, [], [note.id], Some(target.id))
  }

  predicate Untouchable(target: Claim) {
    target.origin == Projector || target.confidence == Observed
  }

  function BothGates(ce: ClaimEvent, view: View): Verdict {
    if Validate(ce.origin, ce).Refuse? then Validate(ce.origin, ce) else ValidateAgainst(ce.origin, ce, view)
  }

  function RetractNote(p: Pass, note: Event, text: string): Pass {
    match LongestQuoted(Fold(p.log).claims, text)
    case None => Skip(p, note.id, NoQuotedClaim)
    case Some(target) =>
      if Untouchable(target) then Skip(p, note.id, ObservedTarget)
      else
        var ce := RetractEvent(note, target);
        match BothGates(ce, Fold(p.log))
        case Refuse(why) => Skip(p, note.id, Gate(why))
        case Accept =>
          p.(log := PushRow(p.log, ce, "c2_retract_" + note.id),
             report := p.report.(accepted := p.report.accepted + ["retract_" + note.id]))
  }

  /** The trial admission: every draft against the log as it stands, duplicates included. */
  function Trial(ph: Phrases, log: seq<Event>, seen: seq<SeenKey>, ds: seq<Draft>): Option<Reason>
    decreases |ds|
  {
    if ds == [] then None
    else match Admit(ph, ds[0], Fold(log), seen, log)
      case Rejected(reason) => Some(reason)
      case Admitted(_) => Trial(ph, log, seen + [KeyOf(ph, KindOf(ds[0].act), ds[0].text)], ds[1..])
  }

  /** The claim an update replaces, or why it does nothing. */
  datatype Target = Found(claim: Claim, task: Event) | Nothing(reason: Reason)

  function UpdateTarget(log: seq<Event>, note: Event): Target
    requires note.body.Note?
  {
    var wanted := Collapse(note.body.replacesText);
    var target := if wanted == "" then None else CurrentWithText(Fold(log).claims, wanted);
    if target.None? then Nothing(NoQuotedClaim)
    else if Untouchable(target.value) then Nothing(ObservedTarget)
    else
      var task := NoteTask(log, note);
      if task.None? then Nothing(NoFailingCommand) else Found(target.value, task.value)
  }

  function UpdateDrafts(ph: Phrases, log: seq<Event>, note: Event, text: string, task: Event): seq<Draft>
    requires note.body.Note?
  {
    var support := if note.body.supportId == "" then None else ShellOnly(FindRow(log, note.body.supportId));
    DraftsOf(note, ph.natural(note.(body := note.body.(role := "conclusion")), text, support), support, TaskFor(task))
  }

  function RetractFor(p: Pass, note: Event, target: Claim): Pass {
    p.(log := PushRow(p.log, RetractEvent(note, target), "c2_retract_" + note.id))
  }

  /** Retract the target, then admit the drafts the trial accepted. */
  function ReplaceClaim(ph: Phrases, p: Pass, note: Event, target: Claim, drafts: seq<Draft>): Pass {
    match BothGates(RetractEvent(note, target), Fold(p.log))
    case Refuse(why) => Skip(p, note.id, Gate(why))
    case Accept => AcceptAll(ph, RetractFor(p, note, target), drafts)
  }

  function UpdateNote(ph: Phrases, p: Pass, note: Event, text: string): Pass
    requires note.body.Note?
  {
    match UpdateTarget(p.log, note)
    case Nothing(reason) => Skip(p, note.id, reason)
    case Found(target, task) =>
      var drafts := UpdateDrafts(ph, p.log, note, text, task);
      var trial := Trial(ph, p.log, p.seen, drafts);
      if drafts == [] then Skip(p, note.id, NothingDrafted)
      else if trial.Some? then Skip(p, note.id, trial.value)
      else ReplaceClaim(ph, p, note, target, drafts)
  }

  function QuoteDraft(ph: Phrases, p: Pass, note: Event, d: Draft): Pass {
    if !Contains(d.sourceText, d.text) || d.text == "" then Skip(p, note.id, NotSpan)
    else if |d.text| > MAX_TEXT then Skip(p, note.id, BadLength)
    else if d.act.AsReality?
            && Overlap(ph, d.text, if d.supportText.Some? then d.supportText.value else "") < MIN_OVERLAP then
      Skip(p, note.id, NotGrounded)
    else AcceptOrRecord(ph, p, d)
  }

  function QuoteDrafts(ph: Phrases, p: Pass, note: Event, ds: seq<Draft>): Pass
    decreases |ds|
  {
    if ds == [] then p else QuoteDrafts(ph, QuoteDraft(ph, p, note, ds[0]), note, ds[1..])
  }

  function NoteDrafts(ph: Phrases, log: seq<Event>, note: Event, index: nat, task: Event): seq<Draft>
    requires note.body.Note? && index < |log|
  {
    var support := SupportOf(log, note, index);
    DraftsOf(note, ph.drafted(note, Trim(note.body.text), support), support, TaskFor(task))
  }

  function QuoteNote(ph: Phrases, p: Pass, note: Event, index: nat): Pass
    requires note.body.Note? && index < |p.log|
  {
    var task := NoteTask(p.log, note);
    if task.None? then Skip(p, note.id, NoFailingCommand)
    else
      var drafts := NoteDrafts(ph, p.log, note, index, task.value);
      if drafts == [] then Skip(p, note.id, NothingDrafted) else QuoteDrafts(ph, p, note, drafts)
  }

  predicate IsRetract(ph: Phrases, note: Event)
    requires note.body.Note?
  {
    note.body.role == "retract" || ph.asksRetract(Trim(note.body.text))
  }

  /** The rows of the pass before row `index` was reached hold it unchanged. */
  function NoteStep(ph: Phrases, p: Pass, applied: set<string>, index: nat): Pass
    requires index < |p.log|
  {
    var note := p.log[index];
    if !note.body.Note? || note.id in applied then p
    else
      var text := Trim(note.body.text);
      if text == "" then Skip(p, note.id, EmptyNote)
      else if IsRetract(ph, note) then RetractNote(p, note, text)
      else if note.body.role == "update" then UpdateNote(ph, p, note, text)
      else QuoteNote(ph, p, note, index)
  }

  /** `b` is `a` with claim rows pushed on. */
  predicate Grown(a: seq<Event>, b: seq<Event>) {
    |a| <= |b| && b[..|a|] == a && forall i | |a| <= i < |b| :: b[i].body.Authored? && b[i].body.claim.Some?
  }

  /** The id of a claim drafted from a note: the note's, or that and one letter. */
  predicate AfterNote(note: string, claimId: string) {
    |note| <= |claimId| <= |note| + 1 && claimId[..|note|] == note && NoNewline(claimId[|note|..])
  }

  /** A row pushed for `note`: it cites the note first and is named after what it says. */
  predicate RowFor(note: string, e: Event) {
    && e.body.Authored? && e.body.claim.Some?
    && var ce := e.body.claim.value;
    && ce.evidenceIds != [] && ce.evidenceIds[0] == note
    && if ce.op == Assert then e.id == "c2_" + ce.claimId && AfterNote(note, ce.claimId)
       else ce.op == Supersede && ce.kind.None? && e.id == "c2_retract_" + note
  }

  predicate AssertsFor(note: string, e: Event) {
    RowFor(note, e) && e.body.claim.value.op == Assert
  }

  /** `b` is `a` with claim rows pushed on for `note`; only the first may retract. */
  predicate GrownBy(note: string, a: seq<Event>, b: seq<Event>) {
    && Grown(a, b)
    && forall i | |a| <= i < |b| :: RowFor(note, b[i]) && (i > |a| ==> AssertsFor(note, b[i]))
  }

  /** `b` is `a` with claims for `note` pushed on. */
  predicate ClaimsFor(note: string, a: seq<Event>, b: seq<Event>) {
    Grown(a, b) && forall i | |a| <= i < |b| :: AssertsFor(note, b[i])
  }

  predicate DraftedFrom(ds: seq<Draft>, note: string) {
    forall d | d in ds :: d.evidenceIds != [] && d.evidenceIds[0] == note && AfterNote(note, d.claimId)
  }

  lemma GrownTransitive(note: string, a: seq<Event>, b: seq<Event>, c: seq<Event>)
    requires Grown(a, b) && Grown(b, c)
    ensures Grown(a, c)
    ensures GrownBy(note, a, b) && ClaimsFor(note, b, c) ==> GrownBy(note, a, c)
    ensures ClaimsFor(note, a, b) && ClaimsFor(note, b, c) ==> ClaimsFor(note, a, c)
  {
    assert c[..|a|] == b[..|a|];
    assert forall i | |a| <= i < |b| :: c[i] == b[i];
  }

  lemma {:induction false} DraftsCite(note: Event, ss: seq<Speech>, support: Option<Event>, task: string)
    requires note.body.Note?
    ensures DraftedFrom(DraftsOf(note, ss, support, task), note.id)
    ensures forall d | d in DraftsOf(note, ss, support, task) ::
      (exists i :: 0 <= i < |ss| && d == DraftOf(note, ss[i], support, task))
  {
    if ss != [] {
      DraftsCite(note, ss[1..], support, task);
      forall d | d in DraftsOf(note, ss, support, task)
        ensures exists i :: 0 <= i < |ss| && d == DraftOf(note, ss[i], support, task)
      {
        if d in DraftsOf(note, ss[1..], support, task) {
          var i :| 0 <= i < |ss[1..]| && d == DraftOf(note, ss[1..][i], support, task);
          assert d == DraftOf(note, ss[i + 1], support, task);
        } else {
          assert d == DraftOf(note, ss[0], support, task);
        }
      }
    }
  }

  lemma AcceptGrows(ph: Phrases, p: Pass, d: Draft, note: string)
    requires DraftedFrom([d], note)
    ensures ClaimsFor(note, p.log, AcceptOrRecord(ph, p, d).log)
  {
    hide EvidenceCheck, SupportCheck, GateCheck, Fold;
  }

  lemma {:induction false} AcceptAllGrows(ph: Phrases, p: Pass, ds: seq<Draft>, note: string)
    requires DraftedFrom(ds, note)
    ensures ClaimsFor(note, p.log, AcceptAll(ph, p, ds).log)
    decreases |ds|
  {
    if ds != [] {
      var q := AcceptOrRecord(ph, p, ds[0]);
      AcceptGrows(ph, p, ds[0], note);
      AcceptAllGrows(ph, q, ds[1..], note);
      GrownTransitive(note, p.log, q.log, AcceptAll(ph, q, ds[1..]).log);
    }
  }

  lemma {:induction false} QuoteDraftsGrow(ph: Phrases, p: Pass, note: Event, ds: seq<Draft>)
    requires DraftedFrom(ds, note.id)
    ensures ClaimsFor(note.id, p.log, QuoteDrafts(ph, p, note, ds).log)
    decreases |ds|
  {
    if ds != [] {
      var q := QuoteDraft(ph, p, note, ds[0]);
      AcceptGrows(ph, p, ds[0], note.id);
      QuoteDraftsGrow(ph, q, note, ds[1..]);
      GrownTransitive(note.id, p.log, q.log, QuoteDrafts(ph, q, note, ds[1..]).log);
    }
  }

  lemma UpdateDraftsCite(ph: Phrases, log: seq<Event>, note: Event, text: string, task: Event)
    requires note.body.Note?
    ensures DraftedFrom(UpdateDrafts(ph, log, note, text, task), note.id)
  {
    var support := if note.body.supportId == "" then None else ShellOnly(FindRow(log, note.body.supportId));
    DraftsCite(note, ph.natural(note.(body := note.body.(role := "conclusion")), text, support), support, TaskFor(task));
  }

  lemma ReplaceGrows(ph: Phrases, p: Pass, note: Event, target: Claim, drafts: seq<Draft>)
    requires DraftedFrom(drafts, note.id)
    ensures GrownBy(note.id, p.log, ReplaceClaim(ph, p, note, target, drafts).log)
  {
    var retracted := RetractFor(p, note, target);
    AcceptAllGrows(ph, retracted, drafts, note.id);
    GrownTransitive(note.id, p.log, retracted.log, AcceptAll(ph, retracted, drafts).log);
  }

  lemma UpdateGrows(ph: Phrases, p: Pass, note: Event, text: string)
    requires note.body.Note?
    ensures GrownBy(note.id, p.log, UpdateNote(ph, p, note, text).log)
  {
    match UpdateTarget(p.log, note)
    case Nothing(_) =>
    case Found(target, task) =>
      UpdateDraftsCite(ph, p.log, note, text, task);
      ReplaceGrows(ph, p, note, target, UpdateDrafts(ph, p.log, note, text, task));
  }

  lemma QuoteNoteGrows(ph: Phrases, p: Pass, note: Event, index: nat)
    requires note.body.Note? && index < |p.log|
    ensures GrownBy(note.id, p.log, QuoteNote(ph, p, note, index).log)
  {
    var task := NoteTask(p.log, note);
    if task.Some? {
      var support := SupportOf(p.log, note, index);
      DraftsCite(note, ph.drafted(note, Trim(note.body.text), support), support, TaskFor(task.value));
      QuoteDraftsGrow(ph, p, note, NoteDrafts(ph, p.log, note, index, task.value));
    }
  }

  lemma NothingGrows(note: string, log: seq<Event>)
    ensures GrownBy(note, log, log)
  {
  }

  lemma RetractGrows(p: Pass, note: Event, text: string)
    ensures GrownBy(note.id, p.log, RetractNote(p, note, text).log)
  {
    hide Fold, BothGates, LongestQuoted;
  }

  /** Every row a pass pushes for a note cites that note first, and at most the first retracts. */
  lemma NoteStepGrows(ph: Phrases, p: Pass, applied: set<string>, index: nat)
    requires index < |p.log|
    ensures GrownBy(p.log[index].id, p.log, NoteStep(ph, p, applied, index).log)
    ensures NoteStep(ph, p, applied, index).log != p.log ==> p.log[index].body.Note? && p.log[index].id !in applied
  {
    hide GrownBy, RetractNote, UpdateNote, QuoteNote, IsRetract;
    var note := p.log[index];
    NothingGrows(note.id, p.log);
    if note.body.Note? && note.id !in applied {
      var text := Trim(note.body.text);
      if text != "" {
        if IsRetract(ph, note) {
          RetractGrows(p, note, text);
        } else if note.body.role == "update" {
          UpdateGrows(ph, p, note, text);
        } else {
          QuoteNoteGrows(ph, p, note, index);
        }
      }
    }
  }

  function NoteIds(log: seq<Event>): set<string> {
    set e | e in log && e.body.Note? :: e.id
  }

  /** Notes no claim row cites. */
  function Uncited(log: seq<Event>): set<string> {
    NoteIds(log) - CitedNotes(log)
  }

  /** Every row of `after` past `log` cites a note of `log` that no claim of `log` cites. */
  predicate UsesNotes(log: seq<Event>, after: seq<Event>) {
    forall i | |log| <= i < |after| :: EvidenceOf(after[i]) * Uncited(log) != {}
  }

  lemma UsesOneMore(log: seq<Event>, p: seq<Event>, q: seq<Event>, note: Event)
    requires UsesNotes(log, p) && |log| <= |p| && GrownBy(note.id, p, q)
    requires q != p ==> note.id in Uncited(log)
    ensures UsesNotes(log, q)
  {
    forall i | |log| <= i < |q|
      ensures EvidenceOf(q[i]) * Uncited(log) != {}
    {
      if i < |p| {
        assert q[i] == q[..|p|][i] == p[i];
      } else {
        assert q != p;
        assert note.id in EvidenceOf(q[i]) * Uncited(log);
      }
    }
  }

  lemma NoteStepUsesNotes(ph: Phrases, log: seq<Event>, p: Pass, index: nat)
    requires index < |log| && Grown(log, p.log) && UsesNotes(log, p.log)
    ensures Grown(log, NoteStep(ph, p, CitedNotes(log), index).log)
    ensures UsesNotes(log, NoteStep(ph, p, CitedNotes(log), index).log)
  {
    var after := NoteStep(ph, p, CitedNotes(log), index).log;
    NoteStepGrows(ph, p, CitedNotes(log), index);
    GrownTransitive("", log, p.log, after);
    assert p.log[index] == p.log[..|log|][index] == log[index];
    UsesOneMore(log, p.log, after, log[index]);
  }

  function SortLog(log: seq<Event>): seq<Event> {
    if log == [] then [] else InsertRow(SortLog(log[..|log| - 1]), log[|log| - 1])
  }

  function NextPass(ph: Phrases, log: seq<Event>, before: Pass, index: nat): (p: Pass)
    requires index < |log| && Grown(log, before.log) && UsesNotes(log, before.log)
    ensures Grown(log, p.log) && UsesNotes(log, p.log)
  {
    NoteStepUsesNotes(ph, log, before, index);
    NoteStep(ph, before, CitedNotes(log), index)
  }

  /** The pass after the first `n` rows of the sorted log `log`. It only pushes claim rows,
      and each cites a note that no claim cited before the pass. */
  function ExtractUpTo(ph: Phrases, log: seq<Event>, n: nat): (p: Pass)
    requires n <= |log|
    ensures Grown(log, p.log) && UsesNotes(log, p.log)
  {
    if n == 0 then Pass(log, SeedSeen(ph, log), Report([], [], []))
    else NextPass(ph, log, ExtractUpTo(ph, log, n - 1), n - 1)
  }

  /** `apply_extraction`. */
  function Extract(ph: Phrases, log: seq<Event>): Pass {
    ExtractUpTo(ph, SortLog(log), |SortLog(log)|)
  }

  // ---------- what a handoff reads and adds ----------

  predicate IsHandoffSource(e: Event) {
    e.body.Shell? || e.body.Note? || e.body.Authored?
  }

  function HandoffSources(log: seq<Event>): seq<Event> {
    if log == [] then []
    else HandoffSources(log[..|log| - 1]) + if IsHandoffSource(log[|log| - 1]) then [log[|log| - 1]] else []
  }

  function WithoutRows(log: seq<Event>, known: set<string>): seq<Event> {
    if log == [] then []
    else WithoutRows(log[..|log| - 1], known) + if log[|log| - 1].id in known then [] else [log[|log| - 1]]
  }

  function EventIds(log: seq<Event>): set<string> {
    set e | e in log :: e.id
  }

  predicate HasNote(log: seq<Event>) {
    exists e | e in log :: e.body.Note?
  }

  /** What a handoff that read `log` sets out to append: the rows of the extracted log whose
      ids it did not read. */
  function Added(ph: Phrases, log: seq<Event>): seq<Event> {
    if HasNote(log) then WithoutRows(Extract(ph, log).log, EventIds(log)) else []
  }
}
