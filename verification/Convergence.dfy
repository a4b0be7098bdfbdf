/** Repeated extraction settles: each run that changes the log uses up an uncited note. */
module Convergence {
  import opened Text
  import opened Claims
  import opened Projector
  import opened EventTable
  import opened Handoff

  lemma {:induction false} CitedGrows(a: seq<Event>, b: seq<Event>)
    requires Grown(a, b)
    ensures CitedNotes(a) <= CitedNotes(b)
    ensures forall i | |a| <= i < |b| :: EvidenceOf(b[i]) <= CitedNotes(b)
    decreases |b|
  {
    if |b| > |a| {
      assert Grown(a, b[..|b| - 1]);
      CitedGrows(a, b[..|b| - 1]);
      forall i | |a| <= i < |b|
        ensures EvidenceOf(b[i]) <= CitedNotes(b)
      {
        if i < |b| - 1 {
          assert b[..|b| - 1][i] == b[i];
        }
      }
    } else {
      assert a == b;
    }
  }

  lemma SameNotes(a: seq<Event>, b: seq<Event>)
    requires Grown(a, b)
    ensures NoteIds(a) == NoteIds(b)
  {
    forall e
      ensures e in b && e.body.Note? <==> e in a && e.body.Note?
    {
      if e in a {
        var i :| 0 <= i < |a| && a[i] == e;
        assert b[i] == e;
      }
      if e in b && e.body.Note? {
        var i :| 0 <= i < |b| && b[i] == e;
        assert i < |a|;
        assert a[i] == e;
      }
    }
  }

  /** What one run does to the uncited notes: a run that pushes a row uses one up. */
  predicate Settles(before: seq<Event>, after: seq<Event>) {
    Uncited(after) <= Uncited(before) && (after != before ==> |Uncited(after)| < |Uncited(before)|)
  }

  lemma UsingNotesSettles(s: seq<Event>, after: seq<Event>)
    requires Grown(s, after) && UsesNotes(s, after)
    ensures Settles(s, after)
  {
    CitedGrows(s, after);
    SameNotes(s, after);
    if after != s {
      assert after == s + after[|s|..];
      assert |after| > |s|;
      var used := EvidenceOf(after[|s|]) * Uncited(s);
      assert used != {} && used <= CitedNotes(after);
      var id :| id in used;
      Smaller(Uncited(after), Uncited(s) - {id});
    }
  }

  lemma ChangeUsesANote(ph: Phrases, log: seq<Event>)
    ensures Settles(SortLog(log), Extract(ph, log).log)
  {
    var s := SortLog(log);
    UsingNotesSettles(s, ExtractUpTo(ph, s, |s|).log);
  }

  lemma Smaller<T>(a: set<T>, b: set<T>)
    requires a <= b
    ensures |a| <= |b|
  {
    assert b == a + (b - a);
  }

  lemma {:induction false} SortKeepsRows(log: seq<Event>)
    ensures multiset(SortLog(log)) == multiset(log)
    ensures forall e :: e in SortLog(log) <==> e in log
  {
    if log != [] {
      var init, last := log[..|log| - 1], log[|log| - 1];
      SortKeepsRows(init);
      assert log == init + [last];
      InsertCounts(SortLog(init), last);
      InsertMembers(SortLog(init), last);
    }
  }

  lemma {:induction false} InsertCounts(log: seq<Event>, y: Event)
    ensures multiset(InsertRow(log, y)) == multiset(log) + multiset{y}
  {
    if log != [] {
      assert log == [log[0]] + log[1..];
      InsertCounts(log[1..], y);
    }
  }

  lemma {:induction false} CitedMembers(log: seq<Event>, id: string)
    ensures id in CitedNotes(log) <==> exists e :: e in log && id in EvidenceOf(e)
  {
    if log != [] {
      var init, last := log[..|log| - 1], log[|log| - 1];
      CitedMembers(init, id);
      assert log == init + [last];
    }
  }

  lemma UncitedOfSorted(log: seq<Event>)
    ensures Uncited(SortLog(log)) == Uncited(log)
  {
    SortKeepsRows(log);
    forall id
      ensures id in CitedNotes(SortLog(log)) <==> id in CitedNotes(log)
    {
      CitedMembers(log, id);
      CitedMembers(SortLog(log), id);
    }
    assert NoteIds(SortLog(log)) == NoteIds(log);
  }

  /** Successive logs of repeated handoff runs. */
  predicate RunsOf(ph: Phrases, logs: seq<seq<Event>>) {
    logs != [] && forall k | 0 <= k < |logs| - 1 :: logs[k + 1] == Extract(ph, logs[k]).log
  }

  /** How many of the first `k` runs pushed a row. */
  function Changes(logs: seq<seq<Event>>, k: nat): nat
    requires k < |logs|
  {
    if k == 0 then 0
    else Changes(logs, k - 1) + if logs[k] != SortLog(logs[k - 1]) then 1 else 0
  }

  lemma {:induction false} SettledRunsAreFew(logs: seq<seq<Event>>, k: nat)
    requires k < |logs| && forall i | 0 <= i < k :: Settles(SortLog(logs[i]), logs[i + 1])
    ensures Changes(logs, k) + |Uncited(logs[k])| <= |Uncited(logs[0])|
  {
    if k > 0 {
      SettledRunsAreFew(logs, k - 1);
      assert Settles(SortLog(logs[k - 1]), logs[k - 1 + 1]);
      UncitedOfSorted(logs[k - 1]);
      Smaller(Uncited(logs[k]), Uncited(logs[k - 1]));
    }
  }

  /** However often handoff runs, at most as many runs as there are uncited notes push a row. */
  lemma HandoffConverges(ph: Phrases, logs: seq<seq<Event>>, k: nat)
    requires RunsOf(ph, logs) && k < |logs|
    ensures Changes(logs, k) + |Uncited(logs[k])| <= |Uncited(logs[0])| <= |NoteIds(logs[0])|
  {
    forall i | 0 <= i < k
      ensures Settles(SortLog(logs[i]), logs[i + 1])
    {
      ChangeUsesANote(ph, logs[i]);
    }
    SettledRunsAreFew(logs, k);
    Smaller(Uncited(logs[0]), NoteIds(logs[0]));
  }
}
