/** What becomes of a row whose long payload is rewritten once it was classified: runs and notes
    fold as before, a claim row no longer decodes and its claim is lost. */
module Enrichment {
  import opened Text
  import opened Claims
  import opened Projector
  import opened CurrentView
  import opened GatedLog
  import opened FoldLaws
  import opened Trust
  import opened Compaction

  /** The identity keys of a payload, and its summary as text. A claim has none of the keys
      that say what it is. */
  function Compacted(e: Event, summary: Option<string>): Event {
    e.(body := match e.body
      case Shell(command, cwd, exitCode, session, _) => Shell(command, cwd, exitCode, session, "")
      case Note(text, session, _, _, _, _) => Note(if summary.Some? then summary.value else text, session, "", "", "", "")
      case Authored(_) => Authored(None)
      case Other => Other)
  }

  function WithCompacted(log: seq<Event>, i: nat, summary: Option<string>): seq<Event>
    requires i < |log|
  {
    log[i := Compacted(log[i], summary)]
  }

  lemma SameStep(view: View, e: Event, summary: Option<string>)
    requires !IsAuthored(e)
    ensures Step(view, Compacted(e, summary)) == Step(view, e)
  {
    if IsRun(e) {
      assert ReadRun(Compacted(e, summary)) == ReadRun(e);
    }
  }

  /** Rewriting a row that is no claim changes nothing in the fold. */
  lemma {:induction false} OtherRowsFoldAlike(log: seq<Event>, i: nat, summary: Option<string>)
    requires i < |log| && !IsAuthored(log[i])
    ensures Fold(WithCompacted(log, i, summary)) == Fold(log)
    decreases |log|
  {
    hide Step, Compacted;
    var n, after := |log| - 1, WithCompacted(log, i, summary);
    if i == n {
      assert after[..n] == log[..n];
      SameStep(Fold(log[..n]), log[n], summary);
    } else {
      assert after[..n] == WithCompacted(log[..n], i, summary);
      OtherRowsFoldAlike(log[..n], i, summary);
    }
  }

  /** Rewriting a claim row is deleting it, as far as the fold goes. */
  lemma ClaimRowIsDeleted(log: seq<Event>, i: nat, summary: Option<string>)
    requires i < |log| && IsAuthored(log[i])
    ensures Fold(WithCompacted(log, i, summary)) == Fold(log[..i] + log[i + 1..])
    ensures forall view :: !Prunable(view, WithCompacted(log, i, summary)[i])
  {
    hide Fold;
    IrrelevantRow(log[..i], Compacted(log[i], summary), log[i + 1..]);
    assert WithCompacted(log, i, summary) == log[..i] + [Compacted(log[i], summary)] + log[i + 1..];
  }

  /** The row that made a claim is rewritten: the claim stays in the fold exactly when that row
      is a run. */
  lemma ClaimStaysIffRun(log: seq<Event>, i: nat, c: Claim, summary: Option<string>)
    requires AssertedOnce(log) && i < |log| && c in Fold(log).claims && MadeBy(log[i], c)
    ensures (exists d :: d in Fold(WithCompacted(log, i, summary)).claims && d.id == c.id) <==> IsRun(log[i])
  {
    hide Fold;
    if IsRun(log[i]) {
      OtherRowsFoldAlike(log, i, summary);
    } else {
      var after := WithCompacted(log, i, summary);
      CompactedOnce(log, i, summary);
      FoldIsWellFormed(after);
      forall d | d in Fold(after).claims
        ensures d.id != c.id
      {
        NotNamed(log, i, c.id, summary);
      }
    }
  }

  lemma CompactedOnce(log: seq<Event>, i: nat, summary: Option<string>)
    requires AssertedOnce(log) && i < |log| && !IsRun(log[i])
    ensures AssertedOnce(WithCompacted(log, i, summary))
  {
    assert NewIds(Compacted(log[i], summary)) == {};
  }

  lemma NotNamed(log: seq<Event>, i: nat, id: string, summary: Option<string>)
    requires AssertedOnce(log) && i < |log| && !IsRun(log[i]) && id in NewIds(log[i])
    ensures !Named(WithCompacted(log, i, summary), id)
  {
    var after := WithCompacted(log, i, summary);
    assert NewIds(Compacted(log[i], summary)) == {};
    forall e | e in after
      ensures id !in NewIds(e)
    {
      var j :| 0 <= j < |after| && after[j] == e;
    }
  }
}
