/** What every run of the daemon promises: what the stored view shows, who may change what, and
    exactly when a handoff leaves the view behind. */
module Runs {
  import opened Text
  import opened Claims
  import opened Projector
  import opened CurrentView
  import opened GatedLog
  import opened FoldLaws
  import opened Trust
  import opened Compaction
  import opened Briefing
  import opened EventTable
  import opened Handoff
  import opened RowIds
  import opened Store
  import opened Persistence
  import opened Protocol
  import opened HandoffStep
  import opened ProtocolSteps
  import opened Excerpts
  import opened Quiet
  import opened PushedRows
  import opened Drafting

  lemma EmptyParts()
    ensures History(INITIAL) == [] && Written(INITIAL) == [] && All(INITIAL) == []
    ensures INITIAL.table == [] && INITIAL.shown == [] && INITIAL.behind == [] && INITIAL.dropped == []
  {
  }

  lemma StartView()
    ensures ViewOk(INITIAL)
  {
    EmptyParts();
    assert DeleteRows([], []) == [] && Fold([]) == View([], []);
    assert INITIAL.stored == Fold([]);
  }

  lemma StartInv()
    ensures Inv(INITIAL)
  {
    hide ViewOk;
    EmptyParts();
    assert Coherent([], []);
    StartTables();
    hide Coherent, TablesOk;
    StartView();
  }

  lemma StartTables()
    ensures TablesOk(INITIAL)
  {
    hide Fold;
    EmptyParts();
    assert DropChain([], []) && DeleteRows([], []) == [];
  }

  lemma StepOfRun(states: seq<State>, actions: seq<Action>, k: nat)
    requires IsRunOf(states, actions) && k < |actions|
    ensures |states| == |actions| + 1 && Next(states[k], actions[k], states[k + 1])
  {
    hide Next;
  }

  /** Every reachable state keeps the invariant. */
  lemma {:induction false} RunInv(states: seq<State>, actions: seq<Action>, k: nat)
    requires IsRunOf(states, actions) && k < |states|
    ensures Inv(states[k])
  {
    hide Next, Inv;
    if k == 0 {
      StartInv();
    } else {
      RunInv(states, actions, k - 1);
      StepOfRun(states, actions, k - 1);
      NextKeeps(states[k - 1], actions[k - 1], states[k]);
    }
  }

  // ---------- what the stored view shows ----------

  /** The stored view shows the work of everything appended exactly when no cut-off handoff
      appended rows since the last rebuild. */
  lemma ViewIffNotBehind(s: State)
    requires Inv(s)
    ensures SameView(s.stored, Fold(s.shown))
    ensures SameView(s.stored, Fold(History(s))) <==> s.behind == []
  {
    ShownFacts(s);
    PrunedFacts(s);
    if s.behind != [] && SameView(s.stored, Fold(History(s))) {
      var c :| c in Live(Fold(s.table).claims) && !MadeIn(s.shown, c.id);
      CurrentIsMade(s.shown, c);
    }
  }

  lemma CurrentIsMade(log: seq<Event>, c: Claim)
    requires Gated(log) && c in Live(Fold(log).claims)
    ensures MadeIn(log, c.id)
  {
    GatedFold(log);
    LiveMembers(Fold(log).claims);
    var i :| 0 <= i < |Fold(log).claims| && c == Bare(Fold(log).claims[i]);
    assert Named(log, Fold(log).claims[i].id);
  }

  /** In every state of every run: stale reads, late rows, restarts and any number of prune
      passes change neither the current claims, nor the active tasks and their openers, nor the
      focal task, of what the last rebuild saw; and that is everything ever appended exactly
      when no handoff was cut off since. */
  lemma ViewShowsHistory(states: seq<State>, actions: seq<Action>, k: nat)
    requires IsRunOf(states, actions) && k < |states|
    ensures var s := states[k];
      && SameView(s.stored, Fold(s.shown)) && SameView(Fold(s.table), Fold(History(s)))
      && FocalTask(WorkOf(s.stored)) == FocalTask(WorkOf(Fold(s.shown)))
      && (SameView(s.stored, Fold(History(s))) <==> s.behind == [])
  {
    RunInv(states, actions, k);
    var s := states[k];
    ViewIffNotBehind(s);
    PrunedFacts(s);
    ShownFacts(s);
    FoldTasks(s.shown, "");
    SameViewSameWork(Fold(s.shown), s.stored);
    FoldIsDefinite(s.shown);
    FocalIsOrderFree(WorkOf(Fold(s.shown)), WorkOf(s.stored));
  }

  // ---------- trust ----------

  /** In every state of every run, however reads and appends interleaved: at no row of the
      table does an authored row change an observed reality, or a row of an agent a claim of
      the user. */
  lemma TrustInEveryInterleaving(states: seq<State>, actions: seq<Action>, k: nat, n: nat, i: nat)
    requires IsRunOf(states, actions) && k < |states|
    requires var table := states[k].table;
      && n < |table| && IsAuthored(table[n]) && i < |Fold(table[..n]).claims|
      && var c := Fold(table[..n]).claims[i];
      || (c.origin == Projector && c.confidence == Observed)
      || (c.origin == User && WrittenBy(table[n], Agent))
    ensures var table := states[k].table;
      && i < |Fold(table[..n + 1]).claims|
      && Fold(table[..n + 1]).claims[i] == Fold(table[..n]).claims[i]
  {
    RunInv(states, actions, k);
    PrunedFacts(states[k]);
    TrustAt(states[k].table, n, i);
  }

  lemma TrustAt(table: seq<Event>, n: nat, i: nat)
    requires Gated(table) && n < |table| && IsAuthored(table[n]) && i < |Fold(table[..n]).claims|
    requires var c := Fold(table[..n]).claims[i];
      || (c.origin == Projector && c.confidence == Observed)
      || (c.origin == User && WrittenBy(table[n], Agent))
    ensures i < |Fold(table[..n + 1]).claims|
    ensures Fold(table[..n + 1]).claims[i] == Fold(table[..n]).claims[i]
  {
    var upTo := table[..n + 1];
    GatedSublog(table, upTo);
    assert upTo[..n] == table[..n];
    TrustHolds(upTo, i);
  }

  // ---------- handoffs that are cut off ----------

  predicate IdRepeats(es: seq<Event>) {
    exists i, j | 0 <= i < j < |es| :: es[i].id == es[j].id
  }

  /** Rows got in and the view was not rebuilt. */
  predicate IsCutOff(s: State, ph: Phrases) {
    s.behind < AfterHandoff(s, HandoffRows(s, ph)).behind
  }

  /** A handoff is cut off exactly when two of the rows it pushes have the same id. One that
      pushes rows and is not cut off brings the view up to date; one that pushes none leaves
      everything as it was. */
  lemma CutOffIffIdRepeats(s: State, ph: Phrases)
    requires Inv(s) && InTime(s, ph)
    ensures IsCutOff(s, ph) <==> IdRepeats(HandoffRows(s, ph))
    ensures var t := AfterHandoff(s, HandoffRows(s, ph));
      && (IsCutOff(s, ph) ==> t.stored == s.stored)
      && (!IsCutOff(s, ph) && HandoffRows(s, ph) != [] ==> t.behind == [])
      && (HandoffRows(s, ph) == [] ==> t == s)
  {
    hide Inv, Pushes, InTime;
    var pushed := HandoffPushes(s, ph);
    TakenFacts(s.table, pushed);
    var j := |Taken(s.table, pushed)|;
    if j < |pushed| {
      PushedNotInTable(s, ph, pushed, j);
      assert IdRepeats(pushed);
      CutOffAtClaim(s, ph, pushed);
    } else {
      assert pushed == Taken(s.table, pushed);
      assert !IdRepeats(pushed);
    }
  }

  lemma NotesAreNamed(s: State)
    requires Inv(s)
    ensures NotesNamed(Read(s))
  {
    ReadFacts(s);
    forall e | e in Read(s) && e.body.Note?
      ensures |e.id| == 26
    {
      assert e in All(s) && RowShaped(e);
    }
  }

  lemma PushedFrom(s: State, ph: Phrases, pushed: seq<Event>)
    requires Inv(s) && Pushes(s, ph, pushed)
    ensures ExtractUpTo(ph, Read(s), |Read(s)|).log == Read(s) + pushed
  {
    hide Inv;
    ReadFacts(s);
  }

  lemma RepeatsAreAt(log: seq<Event>, pushed: seq<Event>)
    ensures IdRepeats(pushed) <==> exists a: nat, b: nat :: |log| <= a && RepeatAt(log + pushed, a, b)
  {
    if IdRepeats(pushed) {
      var i, j :| 0 <= i < j < |pushed| && pushed[i].id == pushed[j].id;
      assert RepeatAt(log + pushed, |log| + i, |log| + j);
    }
    if a: nat, b: nat :| |log| <= a && RepeatAt(log + pushed, a, b) {
      assert pushed[a - |log|] == (log + pushed)[a] && pushed[b - |log|] == (log + pushed)[b];
    }
  }

  /** A handoff is cut off exactly when some uncited note has two drafts that are both admitted
      at their turns and whose sentences get one suffix. */
  lemma CutOffIffSuffixRepeats(s: State, ph: Phrases)
    requires Inv(s) && InTime(s, ph)
    ensures IsCutOff(s, ph) <==> exists x, i, j :: SuffixClash(ph, Read(s), x, i, j)
  {
    hide Inv, Pushes, InTime, ExtractUpTo, SuffixClash, RepeatAt, IdRepeats, IsCutOff;
    var log := Read(s);
    var pushed := HandoffPushes(s, ph);
    CutOffIffIdRepeats(s, ph);
    PushedFrom(s, ph, pushed);
    RepeatsAreAt(log, pushed);
    ReadFacts(s);
    NotesAreNamed(s);
    if a: nat, b: nat :| |log| <= a && RepeatAt(log + pushed, a, b) {
      var x, i, j := RepeatsClash(ph, log, a, b);
    }
    if x, i, j :| SuffixClash(ph, log, x, i, j) {
      ClashIsRepeat(ph, log, x, i, j);
    }
  }

  lemma ClashIsRepeat(ph: Phrases, log: seq<Event>, x: nat, i: nat, j: nat)
    requires SuffixClash(ph, log, x, i, j)
    ensures exists a: nat, b: nat :: |log| <= a && RepeatAt(ExtractUpTo(ph, log, |log|).log, a, b)
  {
    ClashRepeats(ph, log, x, i, j);
  }

  // ---------- notes that cannot be cut off ----------

  /** Positions that the suffixes tell apart. */
  predicate FewSpeeches(ss: seq<Speech>) {
    && (forall s | s in ss :: s.index < 26)
    && forall i, j | 0 <= i < j < |ss| :: ss[i].index != ss[j].index
  }

  ghost predicate DraftsFew(ph: Phrases, note: Event)
    requires note.body.Note?
  {
    forall support ::
      && FewSpeeches(ph.drafted(note, Trim(note.body.text), support))
      && FewSpeeches(ph.natural(note.(body := note.body.(role := "conclusion")), Trim(note.body.text), support))
  }

  lemma FewDoNotClash(ph: Phrases, log: seq<Event>, x: nat, i: nat, j: nat)
    requires forall e | e in log && e.body.Note? && e.id !in CitedNotes(log) :: DraftsFew(ph, e)
    ensures !SuffixClash(ph, log, x, i, j)
  {
    if SuffixClash(ph, log, x, i, j) {
      hide ReadingOf, GoesIn, AtTurn, Follows;
      PassSteps(ph, log, x);
      var r := ReadingAt(ph, log, x);
      assert DraftsFew(ph, log[x]);
      SpokenSpeeches(ph, ExtractUpTo(ph, log, x), CitedNotes(log), x);
      assert r.speeches[i] in r.speeches && r.speeches[j] in r.speeches;
      SuffixesTellApart(r.speeches[i].index, r.speeches[j].index);
    }
  }

  lemma SpokenSpeeches(ph: Phrases, p: Pass, applied: set<string>, index: nat)
    requires index < |p.log| && p.log[index].body.Note? && DraftsFew(ph, p.log[index])
    requires ReadingOf(ph, p, applied, index).Spoken?
    ensures FewSpeeches(ReadingOf(ph, p, applied, index).speeches)
  {
    hide Trial, BothGates, Fold, IsRetract, FewSpeeches;
  }

  /** If every uncited note drafts sentences at different positions among the first 26, the
      handoff is not cut off. */
  lemma FewSpeechesGetIn(s: State, ph: Phrases)
    requires Inv(s) && InTime(s, ph)
    requires forall e | e in Read(s) && e.body.Note? && e.id !in CitedNotes(Read(s)) :: DraftsFew(ph, e)
    ensures !IsCutOff(s, ph)
  {
    hide Inv, InTime, SuffixClash, DraftsFew, IsCutOff;
    CutOffIffSuffixRepeats(s, ph);
    forall x, i, j
      ensures !SuffixClash(ph, Read(s), x, i, j)
    {
      FewDoNotClash(ph, Read(s), x, i, j);
    }
  }

  /** Drafts of sentences, in their order and under their positions. A draft of the whole text
      counts as one of its first sentence. */
  predicate OnSentences(ss: seq<Speech>, out: seq<string>) {
    && (forall s | s in ss :: s.index < |out|)
    && forall i, j | 0 <= i < j < |ss| :: ss[i].index < ss[j].index
  }

  ghost predicate PerSentence(ph: Phrases, note: Event)
    requires note.body.Note?
  {
    forall support, out | AreSentences(Trim(note.body.text), out) ::
      && OnSentences(ph.drafted(note, Trim(note.body.text), support), out)
      && OnSentences(ph.natural(note.(body := note.body.(role := "conclusion")), Trim(note.body.text), support), out)
  }

  ghost predicate ShortNote(note: Event)
    requires note.body.Note?
  {
    exists out :: AreSentences(Trim(note.body.text), out) && |out| <= 26
  }

  /** Notes of at most 26 sentences never cut a handoff off. */
  lemma ShortNotesGetIn(s: State, ph: Phrases)
    requires Inv(s) && InTime(s, ph)
    requires forall e | e in Read(s) && e.body.Note? && e.id !in CitedNotes(Read(s)) :: PerSentence(ph, e) && ShortNote(e)
    ensures !IsCutOff(s, ph)
  {
    hide Inv, InTime, IsCutOff, PerSentence, ShortNote, DraftsFew;
    forall e | e in Read(s) && e.body.Note? && e.id !in CitedNotes(Read(s))
      ensures DraftsFew(ph, e)
    {
      ShortDraftsFew(ph, e);
    }
    FewSpeechesGetIn(s, ph);
  }

  lemma ShortDraftsFew(ph: Phrases, note: Event)
    requires note.body.Note? && PerSentence(ph, note) && ShortNote(note)
    ensures DraftsFew(ph, note)
  {
    hide AreSentences;
    var out :| AreSentences(Trim(note.body.text), out) && |out| <= 26;
    forall support
      ensures FewSpeeches(ph.drafted(note, Trim(note.body.text), support))
      ensures FewSpeeches(ph.natural(note.(body := note.body.(role := "conclusion")), Trim(note.body.text), support))
    {
      assert OnSentences(ph.drafted(note, Trim(note.body.text), support), out);
      assert OnSentences(ph.natural(note.(body := note.body.(role := "conclusion")), Trim(note.body.text), support), out);
    }
  }

  /** Once every note is cited, no handoff changes anything: a view left behind stays so until
      a command, a claim or a restart rebuilds it. */
  lemma CitedNotesStay(s: State, ph: Phrases)
    requires Inv(s) && Uncited(Read(s)) == {}
    ensures HandoffRows(s, ph) == [] && AfterHandoff(s, HandoffRows(s, ph)) == s
  {
    hide Inv, Pushes;
    var pushed := HandoffPushes(s, ph);
    if pushed != [] {
      PushedIsUncited(s, ph, pushed, 0);
    }
  }
}
