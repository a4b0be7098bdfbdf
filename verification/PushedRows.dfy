/** The rows one extraction pass pushes, note by note: each note gets one block, and only the
    first row of a block retracts. */
module PushedRows {
  import opened Claims
  import opened Projector
  import opened GatedLog
  import opened EventTable
  import opened Handoff

  function FirstCited(e: Event): string {
    if e.body.Authored? && e.body.claim.Some? && e.body.claim.value.evidenceIds != []
    then e.body.claim.value.evidenceIds[0] else ""
  }

  /** A note among the first `n` rows that no claim of the log cites. */
  predicate UncitedNote(log: seq<Event>, id: string, n: nat) {
    n <= |log| && id !in CitedNotes(log) && exists x | 0 <= x < n :: log[x].body.Note? && log[x].id == id
  }

  predicate ForNotes(log: seq<Event>, after: seq<Event>, n: nat) {
    forall i | |log| <= i < |after| :: RowFor(FirstCited(after[i]), after[i]) && UncitedNote(log, FirstCited(after[i]), n)
  }

  /** A retraction has no earlier row of its note. */
  predicate RetractsFirst(log: seq<Event>, after: seq<Event>) {
    forall i, k | |log| <= i < k < |after| && FirstCited(after[i]) == FirstCited(after[k]) ::
      AssertsFor(FirstCited(after[k]), after[k])
  }

  /** Between two rows of a note there are only rows of that note. */
  predicate Unbroken(log: seq<Event>, after: seq<Event>) {
    forall i, k, j | |log| <= i < k < j < |after| && FirstCited(after[i]) == FirstCited(after[j]) ::
      FirstCited(after[k]) == FirstCited(after[j])
  }

  predicate InBlocks(log: seq<Event>, after: seq<Event>, n: nat) {
    Grown(log, after) && ForNotes(log, after, n) && RetractsFirst(log, after) && Unbroken(log, after)
  }

  lemma RowForCites(note: string, e: Event)
    requires RowFor(note, e)
    ensures FirstCited(e) == note && note in EvidenceOf(e)
  {
  }

  /** `q` is `p` with rows pushed on for a note that no pushed row of `p` was for. */
  predicate NextBlock(log: seq<Event>, p: seq<Event>, q: seq<Event>, note: string) {
    && |log| <= |p| <= |q|
    && (forall i | |log| <= i < |p| :: q[i] == p[i] && FirstCited(p[i]) != note)
    && (forall i | |p| <= i < |q| :: FirstCited(q[i]) == note && (i > |p| ==> AssertsFor(note, q[i])))
  }

  lemma IsNextBlock(log: seq<Event>, p: seq<Event>, q: seq<Event>, n: nat)
    requires n < |log| && DistinctEvents(log) && Grown(log, p) && ForNotes(log, p, n) && GrownBy(log[n].id, p, q)
    ensures NextBlock(log, p, q, log[n].id)
  {
    forall i | |log| <= i < |p|
      ensures q[i] == p[i] && FirstCited(p[i]) != log[n].id
    {
      assert q[..|p|][i] == p[i];
      assert UncitedNote(log, FirstCited(p[i]), n);
    }
  }

  lemma NextForNotes(log: seq<Event>, p: seq<Event>, q: seq<Event>, n: nat)
    requires n < |log| && ForNotes(log, p, n) && NextBlock(log, p, q, log[n].id) && GrownBy(log[n].id, p, q)
    requires q != p ==> log[n].body.Note? && log[n].id !in CitedNotes(log)
    ensures ForNotes(log, q, n + 1)
  {
    forall i | |log| <= i < |q|
      ensures RowFor(FirstCited(q[i]), q[i]) && UncitedNote(log, FirstCited(q[i]), n + 1)
    {
      if i < |p| {
        assert UncitedNote(log, FirstCited(p[i]), n);
      } else {
        assert q != p;
        assert log[n].id == FirstCited(q[i]);
      }
    }
  }

  lemma NextOrder(log: seq<Event>, p: seq<Event>, q: seq<Event>, note: string)
    requires NextBlock(log, p, q, note) && RetractsFirst(log, p) && Unbroken(log, p)
    ensures RetractsFirst(log, q) && Unbroken(log, q)
  {
  }

  lemma BlockGrows(log: seq<Event>, p: seq<Event>, q: seq<Event>, n: nat)
    requires n < |log| && DistinctEvents(log) && InBlocks(log, p, n) && GrownBy(log[n].id, p, q)
    requires q != p ==> log[n].body.Note? && log[n].id !in CitedNotes(log)
    ensures InBlocks(log, q, n + 1)
  {
    hide RetractsFirst, Unbroken, ForNotes, NextBlock;
    GrownTransitive("", log, p, q);
    IsNextBlock(log, p, q, n);
    NextForNotes(log, p, q, n);
    NextOrder(log, p, q, log[n].id);
  }

  lemma StepInBlocks(ph: Phrases, log: seq<Event>, p: Pass, n: nat)
    requires n < |log| && DistinctEvents(log) && InBlocks(log, p.log, n)
    ensures n < |p.log| && InBlocks(log, NoteStep(ph, p, CitedNotes(log), n).log, n + 1)
  {
    hide NoteStep;
    assert p.log[n] == p.log[..|log|][n] == log[n];
    NoteStepGrows(ph, p, CitedNotes(log), n);
    BlockGrows(log, p.log, NoteStep(ph, p, CitedNotes(log), n).log, n);
  }

  /** A pass over a log of distinct rows pushes blocks for notes nothing cited. */
  lemma {:induction false} ExtractInBlocks(ph: Phrases, log: seq<Event>, n: nat)
    requires n <= |log| && DistinctEvents(log)
    ensures InBlocks(log, ExtractUpTo(ph, log, n).log, n)
  {
    hide InBlocks, NoteStep, SeedSeen, CitedNotes;
    if n == 0 {
      NothingInBlocks(log);
    } else {
      ExtractInBlocks(ph, log, n - 1);
      hide ExtractUpTo;
      NextInBlocks(ph, log, n - 1);
    }
  }

  lemma NothingInBlocks(log: seq<Event>)
    ensures InBlocks(log, log, 0)
  {
  }

  lemma NextInBlocks(ph: Phrases, log: seq<Event>, n: nat)
    requires n < |log| && DistinctEvents(log) && InBlocks(log, ExtractUpTo(ph, log, n).log, n)
    ensures InBlocks(log, ExtractUpTo(ph, log, n + 1).log, n + 1)
  {
    hide InBlocks, NoteStep;
    StepInBlocks(ph, log, ExtractUpTo(ph, log, n), n);
  }

  /** Two rows with one id assert one claim of one note, and every row between them is a
      claim of that note as well. */
  lemma RepeatsInBlock(log: seq<Event>, after: seq<Event>, n: nat, i: nat, j: nat)
    requires InBlocks(log, after, n) && |log| <= i < j < |after| && after[i].id == after[j].id
    requires |FirstCited(after[i])| == |FirstCited(after[j])| == 26
    ensures AssertsFor(FirstCited(after[j]), after[j - 1])
    ensures AssertsFor(FirstCited(after[j]), after[i]) && AssertsFor(FirstCited(after[j]), after[j])
    ensures after[i].body.claim.value.claimId == after[j].body.claim.value.claimId
  {
    SameIdSameNote(after[i], after[j]);
    assert FirstCited(after[j - 1]) == FirstCited(after[j]);
  }

  lemma RepeatsPushed(log: seq<Event>, pushed: seq<Event>, i: nat, j: nat)
    requires InBlocks(log, log + pushed, |log|) && i < j < |pushed| && pushed[i].id == pushed[j].id
    requires |FirstCited(pushed[i])| == |FirstCited(pushed[j])| == 26
    ensures AssertsFor(FirstCited(pushed[j - 1]), pushed[j - 1])
  {
    hide InBlocks;
    var after, n := log + pushed, |log|;
    assert after[n + i] == pushed[i] && after[n + j] == pushed[j] && after[n + j - 1] == pushed[j - 1];
    RepeatsInBlock(log, after, n, n + i, n + j);
    RowForCites(FirstCited(pushed[j]), pushed[j - 1]);
  }

  lemma SameIdSameNote(a: Event, b: Event)
    requires RowFor(FirstCited(a), a) && RowFor(FirstCited(b), b) && a.id == b.id
    requires |FirstCited(a)| == |FirstCited(b)| == 26
    ensures FirstCited(a) == FirstCited(b) && (AssertsFor(FirstCited(a), a) <==> AssertsFor(FirstCited(b), b))
    ensures AssertsFor(FirstCited(a), a) ==> a.body.claim.value.claimId == b.body.claim.value.claimId
  {
    var x, y := FirstCited(a), FirstCited(b);
    if AssertsFor(x, a) && AssertsFor(y, b) {
      assert a.id[3..] == a.body.claim.value.claimId && b.id[3..] == b.body.claim.value.claimId;
    } else if !AssertsFor(x, a) && !AssertsFor(y, b) {
      assert a.id[11..] == x && b.id[11..] == y;
    }
  }

  // ---------- what a handoff reads ----------

  lemma {:induction false} WithoutConcat(a: seq<Event>, b: seq<Event>, known: set<string>)
    requires (forall e | e in a :: e.id in known) && forall e | e in b :: e.id !in known
    ensures WithoutRows(a + b, known) == b
    decreases |b|
  {
    hide WithoutRows;
    if b != [] {
      var init, last := b[..|b| - 1], b[|b| - 1];
      assert last in b && forall e | e in init :: e in b;
      WithoutConcat(a, init, known);
      WithoutPush(a + init, last, known);
      assert a + b == (a + init) + [last];
      assert b == init + [last];
    } else {
      WithoutAllKnown(a, known);
      assert a + b == a;
    }
  }

  lemma WithoutPush(log: seq<Event>, e: Event, known: set<string>)
    ensures WithoutRows(log + [e], known) == WithoutRows(log, known) + if e.id in known then [] else [e]
  {
    assert (log + [e])[..|log|] == log;
  }

  lemma {:induction false} WithoutAllKnown(log: seq<Event>, known: set<string>)
    requires forall e | e in log :: e.id in known
    ensures WithoutRows(log, known) == []
  {
    if log != [] {
      assert log[|log| - 1] in log && forall e | e in log[..|log| - 1] :: e in log;
      WithoutAllKnown(log[..|log| - 1], known);
    }
  }

  lemma {:induction false} SourcesMembers(log: seq<Event>)
    ensures forall e :: e in HandoffSources(log) <==> e in log && IsHandoffSource(e)
    ensures DistinctEvents(log) ==> DistinctEvents(HandoffSources(log))
    ensures InOrder(log) ==> InOrder(HandoffSources(log))
  {
    hide IsHandoffSource;
    if log != [] {
      var init, last := log[..|log| - 1], log[|log| - 1];
      assert log == init + [last];
      SourcesMembers(init);
      forall e | e in HandoffSources(init)
        ensures (DistinctEvents(log) ==> e.id != last.id) && (InOrder(log) ==> Before(e, last))
      {
        var i :| 0 <= i < |init| && init[i] == e;
        assert log[i] == e;
      }
    }
  }
}
