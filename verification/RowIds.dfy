/** Row ids and the claim ids made from them: with rows named as ULIDs are, a claim id tells
    which row made it, so that distinct rows never assert the same claim. */
module RowIds {
  import opened Text
  import opened Claims
  import opened Projector
  import opened CurrentView
  import opened GatedLog
  import opened FoldLaws
  import opened Trust
  import opened EventTable
  import opened Daemon
  import opened Handoff

  /** 26 characters and no newline, as in the ids the daemon mints. */
  predicate UlidShaped(id: string) {
    |id| == 26 && NoNewline(id)
  }

  /** A row of one of the daemon's writers. */
  predicate MintedRow(e: Event) {
    && e.body.Authored? && e.body.claim.Some? && UlidShaped(e.id)
    && (Asserts(e.body.claim.value) ==> e.body.claim.value.claimId == ClaimIdOf(e.id))
  }

  predicate HandoffRow(e: Event) {
    && e.body.Authored? && e.body.claim.Some? && e.body.claim.value.evidenceIds != []
    && UlidShaped(e.body.claim.value.evidenceIds[0]) && RowFor(e.body.claim.value.evidenceIds[0], e)
  }

  /** What every row of the daemon looks like when clients name their rows like ULIDs. */
  predicate RowShaped(e: Event) {
    if e.body.Authored? then MintedRow(e) || HandoffRow(e) else UlidShaped(e.id)
  }

  predicate AllShaped(log: seq<Event>) {
    forall e | e in log :: RowShaped(e)
  }

  /** The row that makes a claim, read off the claim's id. */
  function MakerOf(claimId: string): string {
    if |claimId| >= 30 then claimId[|claimId| - 26..]
    else if |claimId| == 28 then claimId[2..]
    else "c2_" + claimId
  }

  lemma RunIdEnds(e: Event, other: string)
    requires IsRun(e)
    ensures var id := HashedId("c_", [ReadRun(e).taskId, other, e.id]);
      |id| >= |e.id| + 4 && id[|id| - |e.id|..] == e.id
  {
    HashOfThree("c_", ReadRun(e).taskId, other, e.id);
    var head, tail := "c_" + (ReadRun(e).taskId + "\0"), "\0" + e.id;
    var id := head + (other + tail);
    assert |id| == |head| + |other| + 1 + |e.id|;
    assert id[|id| - |e.id|..] == e.id;
  }

  lemma RunIdsAreLong(e: Event)
    requires IsRun(e) && |e.id| == 26
    ensures |ReadRun(e).realityId| >= 30 && |ReadRun(e).frontierId| >= 30
    ensures NewIds(e) == {ReadRun(e).realityId, ReadRun(e).frontierId}
  {
    RunIdEnds(e, ReadRun(e).subject);
    RunIdEnds(e, FRONTIER_SUBJECT);
  }

  /** A claim id names the row that made it. */
  lemma MakerIsRow(e: Event, id: string)
    requires RowShaped(e) && id in NewIds(e)
    ensures id != "" && MakerOf(id) == e.id
  {
    if IsRun(e) {
      RunIdEnds(e, ReadRun(e).subject);
      RunIdEnds(e, FRONTIER_SUBJECT);
    } else if MintedRow(e) {
      assert id == "c_" + e.id;
    } else {
      assert e.id == "c2_" + id;
    }
  }

  /** Rows with different ids never make claims with the same id. */
  lemma ClaimsApart(a: Event, b: Event)
    requires RowShaped(a) && RowShaped(b) && a.id != b.id
    ensures NewIds(a) !! NewIds(b)
  {
    forall id | id in NewIds(a) && id in NewIds(b)
      ensures false
    {
      MakerIsRow(a, id);
      MakerIsRow(b, id);
    }
  }

  /** A table with a primary key on its rows asserts every claim id once. */
  lemma AssertedOnceByIds(log: seq<Event>)
    requires DistinctEvents(log) && AllShaped(log)
    ensures AssertedOnce(log)
  {
    forall i, j | 0 <= i < j < |log|
      ensures NewIds(log[i]) !! NewIds(log[j])
    {
      ClaimsApart(log[i], log[j]);
    }
  }

  // ---------- targets ----------

  /** The id `t` is that of a claim some row of the log makes. */
  predicate MadeIn(log: seq<Event>, t: string) {
    exists k :: k in log && t in NewIds(k)
  }

  /** Whatever the rows name as a target was made by a written row, or is blank. */
  predicate TargetsMade(written: seq<Event>, rows: seq<Event>) {
    forall e, t | e in rows && t in Targets(e) && t != "" :: MadeIn(written, t)
  }

  lemma MadeByMakes(k: Event, c: Claim)
    requires MadeBy(k, c)
    ensures c.id in NewIds(k)
  {
  }

  /** A new row makes no claim that another row made or named. */
  lemma NewRowIsFresh(written: seq<Event>, known: seq<Event>, e: Event, k: Event)
    requires AllShaped(known) && RowShaped(e) && Covers(known, written) && TargetsMade(written, known)
    requires !HasRow(known, e.id) && k in known
    ensures NewIds(e) !! NewIds(k) + Targets(k) && "" !in NewIds(e)
  {
    ClaimsApart(e, k);
    forall id | id in NewIds(e)
      ensures id != "" && id !in Targets(k)
    {
      MakerIsRow(e, id);
      if id in Targets(k) {
        assert MadeIn(written, id);
        var y :| y in written && id in NewIds(y);
        assert y in known;
        ClaimsApart(e, y);
        assert false;
      }
    }
  }
}
