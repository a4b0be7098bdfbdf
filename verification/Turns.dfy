/** What the turn of one note does, draft by draft: what is pushed, and what the report says. */
module Turns {
  import opened Text
  import opened Claims
  import opened Projector
  import opened CurrentView
  import opened GatedLog
  import opened FoldLaws
  import opened EventTable
  import opened Handoff
  import opened Admission
  import opened Gates
  import opened Quoting

  // ---------- when a pushed row is dated ----------

  /** A second past the newest row, or the largest time there is. */
  predicate DatedAfter(log: seq<Event>, at: nat) {
    if log == [] then at == 1000
    else
      (exists e | e in log :: (forall d | d in log :: d.at <= e.at)
         && at == if e.at + 1000 < 0x1_0000_0000_0000_0000 then e.at + 1000 else 0xFFFF_FFFF_FFFF_FFFF)
  }

  lemma {:induction false} NewestIs(log: seq<Event>)
    ensures forall e | e in log :: e.at <= MaxAt(log)
    ensures if log == [] then MaxAt(log) == 0 else exists e :: e in log && e.at == MaxAt(log)
  {
    if log != [] {
      var init, last := log[..|log| - 1], log[|log| - 1];
      assert log == init + [last];
      NewestIs(init);
      if last.at < MaxAt(init) {
        var e :| e in init && e.at == MaxAt(init);
        assert e in log;
      } else {
        assert last in log && last.at == MaxAt(log);
      }
    }
  }

  lemma NextIsAfter(log: seq<Event>)
    ensures DatedAfter(log, NextAt(log))
  {
    NewestIs(log);
  }

  // ---------- one draft ----------

  /** What is asked of a quoted sentence before the gate: a span of the note, one to 500
      characters, and for a finding two content tokens shared with what it was read with. */
  predicate Quotable(ph: Phrases, d: Draft) {
    && Contains(d.sourceText, d.text) && 1 <= |d.text| <= 500
    && (d.act.AsReality? ==>
          |ph.tokens(d.text) * ph.tokens(if d.supportText.Some? then d.supportText.value else "")| >= 2)
  }

  predicate OneMore<T(==)>(xs: seq<T>, ys: seq<T>) {
    |ys| == |xs| + 1 && ys[..|xs|] == xs
  }

  /** A draft is pushed exactly if it is quotable and admitted. Then the log has its row at the
      end, what it says is remembered, and the report accepts it; otherwise log and memory
      stay, and the report has one entry more, skipped or rejected. A duplicate is skipped. */
  lemma DraftTurn(ph: Phrases, p: Pass, note: Event, d: Draft)
    ensures var q := QuoteDraft(ph, p, note, d);
      var a := Admit(ph, d, Fold(p.log), p.seen, p.log);
      if Quotable(ph, d) && a.Admitted? then
        && OneMore(p.log, q.log) && q.log[|p.log|].id == "c2_" + d.claimId && DatedAfter(p.log, q.log[|p.log|].at)
        && q.log[|p.log|].body == Authored(Some(a.row))
        && q.seen == p.seen + [(Voice(d.act).0, ph.lower(Collapse(d.text)))]
        && q.report == p.report.(accepted := p.report.accepted + [d.claimId])
      else
        && q.log == p.log && q.seen == p.seen
        && (q.report == p.report.(rejected := q.report.rejected) || q.report == p.report.(skipped := q.report.skipped))
        && (if Quotable(ph, d) && a.reason != Duplicate
            then q.report.rejected == p.report.rejected + [(d.claimId, a.reason)]
            else OneMore(p.report.skipped, q.report.skipped))
  {
    hide EvidenceCheck, SupportCheck, GateCheck, Fold, Contains, NextAt, DatedAfter;
    NextIsAfter(p.log);
    if Admit(ph, d, Fold(p.log), p.seen, p.log).Admitted? {
      AdmittedFound(ph, d, Fold(p.log), p.seen, p.log);
    }
  }

  /** What a sentence becomes: a draft in its own words, named after the note and its place in
      it, that cites the note and, if it leans on one, the shell row it was read with. */
  lemma SentenceIsDrafted(note: Event, s: Speech, support: Option<Event>, task: string)
    requires note.body.Note?
    ensures var d := DraftOf(note, s, support, task);
      var leans := s.cites && support.Some? && support.value.body.Shell?;
      && d.act == s.act && d.text == Trim(s.sentence) && d.sourceText == note.body.text && d.taskSubject == task
      && d.evidenceIds == (if leans && support.value.id != note.id then [note.id, support.value.id] else [note.id])
      && d.supportText == (if leans then Some(support.value.body.output) else None)
      && (s.index == 0 ==> d.claimId == note.id)
      && (1 <= s.index < 26 ==> d.claimId == note.id + [('a' as int + s.index) as char])
      && (26 <= s.index <= 256 ==> d.claimId[..|note.id|] == note.id && |d.claimId| == |note.id| + 1 && 'b' <= d.claimId[|note.id|] <= 'z')
  {
    assert note.id + "" == note.id;
    assert [note.id] + [] == [note.id];
  }

  // ---------- one note ----------

  /** The row a quoted note is read with: the one it names, or else the row just before it, if
      that is a shell row. */
  ghost predicate ReadWith(log: seq<Event>, note: Event, index: nat, support: Option<Event>)
    requires note.body.Note?
  {
    if note.body.supportId != "" then SupportNamed(log, note.body.supportId, support)
    else support == if 0 < index <= |log| && log[index - 1].body.Shell? then Some(log[index - 1]) else None
  }

  lemma SupportIsRead(log: seq<Event>, note: Event, index: nat)
    requires note.body.Note? && index < |log|
    ensures ReadWith(log, note, index, SupportOf(log, note, index))
  {
    FindRowIs(log, note.body.supportId);
    var id := note.body.supportId;
    if id != "" {
      if i: nat :| ShellAt(log, id, i) {
        assert SupportOf(log, note, index) == Some(log[i]);
      } else if FindRow(log, id).Some? {
        var i: nat :| FirstWith(log, id, i);
        assert !ShellAt(log, id, i);
      }
    }
  }

  predicate WantsRetraction(ph: Phrases, note: Event)
    requires note.body.Note?
  {
    note.body.role == "retract" || ph.asksRetract(Trim(note.body.text))
  }

  /** A note that retracts nothing and updates nothing is read for the session's oldest command
      that still fails, and its drafts get their turns in order; without such a command, or
      without drafts, nothing is pushed. */
  lemma QuotedTurn(ph: Phrases, p: Pass, applied: set<string>, index: nat)
    requires index < |p.log| && p.log[index].body.Note? && p.log[index].id !in applied
    requires Trim(p.log[index].body.text) != "" && !WantsRetraction(ph, p.log[index]) && p.log[index].body.role != "update"
    ensures var note, q := p.log[index], NoteStep(ph, p, applied, index);
      if forall k: nat :: !FailsIn(p.log, note.body.session, k) then q.log == p.log
      else exists k: nat, support ::
        && OldestFailing(p.log, note.body.session, k) && ReadWith(p.log, note, index, support) && k < |p.log| && p.log[k].body.Shell?
        && q.log == QuoteDrafts(ph, p, note,
                                DraftsOf(note, ph.drafted(note, Trim(note.body.text), support), support,
                                         Trim(p.log[k].body.cwd) + "\n" + Collapse(p.log[k].body.command))).log
  {
    hide FailsIn, QuoteDraft, ReadWith, SupportOf;
    var note := p.log[index];
    NoteTaskIs(p.log, note);
    SupportIsRead(p.log, note, index);
    if NoteTask(p.log, note).Some? {
      var k: nat :| k < |p.log| && OldestFailing(p.log, note.body.session, k) && NoteTask(p.log, note).value == p.log[k];
      FailsShell(p.log, note.body.session, k);
      var support := SupportOf(p.log, note, index);
      assert NoteDrafts(ph, p.log, note, index, p.log[k]) ==
        DraftsOf(note, ph.drafted(note, Trim(note.body.text), support), support,
                 Trim(p.log[k].body.cwd) + "\n" + Collapse(p.log[k].body.command));
    }
  }

  /** A note already cited, a blank note and a row that is no note push nothing. */
  lemma NoTurn(ph: Phrases, p: Pass, applied: set<string>, index: nat)
    requires index < |p.log|
    requires p.log[index].body.Note? && p.log[index].id !in applied ==> Trim(p.log[index].body.text) == ""
    ensures var q := NoteStep(ph, p, applied, index);
      q.log == p.log && q.seen == p.seen && q.report.accepted == p.report.accepted && q.report.rejected == p.report.rejected
  {
  }

  predicate MayGo(cs: seq<Claim>, i: nat) {
    i < |cs| && cs[i].origin != Projector && cs[i].confidence != Observed
  }

  /** One row more, which retires claim `i` and nothing else, and one accepted entry. */
  predicate RetractedBy(p: Pass, q: Pass, note: Event, i: nat)
    requires i < |Fold(p.log).claims|
  {
    var cs := Fold(p.log).claims;
    && OneMore(p.log, q.log) && q.log[|p.log|].id == "c2_retract_" + note.id
    && q.log[|p.log|].body == Authored(Some(RetractionOf(note, cs[i])))
    && Fold(q.log).claims == cs[i := cs[i].(status := Superseded, updatedAt := q.log[|p.log|].at)]
    && q.report == p.report.(accepted := p.report.accepted + ["retract_" + note.id])
  }

  /** A note that retracts takes the newest of the longest current claims it quotes, if that is
      an author's and not observed. One row is pushed, which retires that claim and nothing
      else; otherwise nothing happens but an entry in the report. */
  lemma RetractTurn(ph: Phrases, p: Pass, applied: set<string>, index: nat)
    requires index < |p.log| && p.log[index].body.Note? && p.log[index].id !in applied
    requires Trim(p.log[index].body.text) != "" && WantsRetraction(ph, p.log[index])
    requires AssertedOnce(p.log) && forall c | c in Fold(p.log).claims :: c.id != ""
    ensures var note, q, cs := p.log[index], NoteStep(ph, p, applied, index), Fold(p.log).claims;
      && (q.log != p.log <==> exists i: nat :: NewestLongest(cs, Trim(note.body.text), i) && MayGo(cs, i))
      && forall i: nat | NewestLongest(cs, Trim(note.body.text), i) && MayGo(cs, i) :: i < |cs| && RetractedBy(p, q, note, i)
  {
    hide Fold, NewestLongest, MayGo, AssertedOnce, RetractNote;
    ReadAsRetraction(ph, p, applied, index);
    RetractNoteIs(p, p.log[index], Trim(p.log[index].body.text));
  }

  lemma ReadAsRetraction(ph: Phrases, p: Pass, applied: set<string>, index: nat)
    requires index < |p.log| && p.log[index].body.Note? && p.log[index].id !in applied
    requires Trim(p.log[index].body.text) != "" && WantsRetraction(ph, p.log[index])
    ensures NoteStep(ph, p, applied, index) == RetractNote(p, p.log[index], Trim(p.log[index].body.text))
  {
    hide RetractNote;
  }

  lemma RetractNoteIs(p: Pass, note: Event, text: string)
    requires AssertedOnce(p.log) && forall c | c in Fold(p.log).claims :: c.id != ""
    ensures var q, cs := RetractNote(p, note, text), Fold(p.log).claims;
      && (q.log != p.log <==> exists i: nat :: NewestLongest(cs, text, i) && MayGo(cs, i))
      && forall i: nat | NewestLongest(cs, text, i) && MayGo(cs, i) :: i < |cs| && RetractedBy(p, q, note, i)
  {
    hide Fold, NewestLongest, AssertedOnce, LongestQuoted, RetractedBy, RetractNote;
    var cs := Fold(p.log).claims;
    var i := LongestQuotedIs(cs, text);
    LongestIn(cs, text, i);
    forall j: nat | NewestLongest(cs, text, j)
      ensures LongestQuoted(cs, text).Some? && j == i && j < |cs|
    {
      OnlyLongest(cs, text, i, j);
    }
    if LongestQuoted(cs, text).Some? {
      RetractNoteDoes(p, note, text, i);
    } else {
      NothingQuoted(p, note, text);
    }
  }

  lemma NothingQuoted(p: Pass, note: Event, text: string)
    requires LongestQuoted(Fold(p.log).claims, text).None?
    ensures RetractNote(p, note, text).log == p.log
  {
    hide Fold, LongestQuoted;
  }

  lemma RetractNoteDoes(p: Pass, note: Event, text: string, i: nat)
    requires AssertedOnce(p.log) && forall c | c in Fold(p.log).claims :: c.id != ""
    requires i < |Fold(p.log).claims| && LongestQuoted(Fold(p.log).claims, text) == Some(Fold(p.log).claims[i])
    ensures var q := RetractNote(p, note, text);
      if MayGo(Fold(p.log).claims, i) then q.log != p.log && RetractedBy(p, q, note, i) else q.log == p.log
  {
    hide Fold, AssertedOnce, BothGates, LongestQuoted;
    FoldIsWellFormed(p.log);
    RetractionIs(note, Fold(p.log).claims[i]);
    if MayGo(Fold(p.log).claims, i) {
      GatesLetGo(p.log, note, i);
      RetractRetires(p.log, note, i);
    }
  }

  lemma LongestIn(cs: seq<Claim>, text: string, i: nat)
    ensures NewestLongest(cs, text, i) ==> i < |cs|
  {
  }

  lemma OnlyLongest(cs: seq<Claim>, text: string, i: nat, j: nat)
    requires NewestLongest(cs, text, j)
    requires LongestQuoted(cs, text).None? ==> forall c | c in cs && c.status == Current :: !Contains(text, c.text)
    requires LongestQuoted(cs, text).Some? ==> NewestLongest(cs, text, i)
    ensures LongestQuoted(cs, text).Some? && j == i && j < |cs|
  {
    hide Contains, LongestQuoted, ByteLength;
    assert cs[j] in cs;
  }

  /** A note that updates pushes what the update pushes. */
  lemma UpdateTurn(ph: Phrases, p: Pass, applied: set<string>, index: nat)
    requires index < |p.log| && p.log[index].body.Note? && p.log[index].id !in applied
    requires Trim(p.log[index].body.text) != "" && !WantsRetraction(ph, p.log[index]) && p.log[index].body.role == "update"
    requires NoUserNextAction(p.log) && AssertedOnce(p.log) && forall c | c in Fold(p.log).claims :: c.id != ""
    ensures var note, q := p.log[index], NoteStep(ph, p, applied, index);
      && (q.log != p.log <==> exists i: nat, k: nat, ds :: Updates(ph, p, note, Trim(note.body.text), i, k, ds))
      && forall i: nat, k: nat, ds | Updates(ph, p, note, Trim(note.body.text), i, k, ds) :: |q.log| == |p.log| + 1 + |ds|
  {
    hide Updates, UpdateNote;
    UpdateReplacesWanted(ph, p, p.log[index], Trim(p.log[index].body.text));
  }
}
