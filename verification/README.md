# contextd: a verified model

This project models the decision-making core of contextd, a daemon that keeps an append-only log of
shell, note and claim rows, folds it into tasks and claims, gates what users and agents may write,
quotes notes into claims, ages rows out of the log, and renders a briefing. It proves what that core
promises about whole runs. `dafny verify dfyconfig.toml` checks every file.

## How it is laid out

| files | what they model |
|---|---|
| `Text`, `Claims`, `Projector` | text primitives, the mutable projection with the write gate, the fold in place and as a function |
| `CurrentView`, `GatedLog`, `FoldLaws`, `Trust` | what the fold of a gated log says: slots, current realities, frontiers, supersession chains, who may change what |
| `Meaning` | the same fold read off the rows alone: which claims and tasks there are, what they say, which are current |
| `Compaction`, `EventTable`, `Daemon`, `Gates` | deletion of old rows, table order, the writers, and exactly what the write gates and requests let through |
| `RowIds`, `Protocol`, `HandoffStep`, `ProtocolSteps`, `Runs` | all of it as steps of one state machine: what every run keeps, and when a handoff leaves the view behind |
| `Drafting`, `RuleNote`, `CutOff` | which drafts of which notes make a handoff stop early, and a note of 27 sentences that does |
| `ClientIds`, `BlockedRebuild` | what ids that clients choose can reach |
| `AgentUpdate` | an agent's update note that retires a user's claim |
| `Enrichment` | what rewriting a stored row does to the fold |
| `Handoff`, `Convergence`, `Admission`, `Extraction`, `Appended`, `PushedRows`, `Quiet`, `Quoting`, `Turns`, `HandoffRun`, `HandoffTable` | quoting notes into claims: on values, in place, and against the database |
| `Ordering`, `Briefing`, `Focus`, `Shown`, `Trimming`, `Rendering`, `Budget`, `Excerpts` | the briefing, what it shows, its size limits, sentences and truncation |
| `Store`, `Persistence`, `Ageing`, `Writers` | the tables, what they do to the log and the view, the archive with crashes |
| `CoOccurrence`, `Graph`, `GraphStore`, `ProcTracker`, `Profile`, `Diffs`, `DiffText` | the knowledge graph, the process tracker, the shell profile block, hunks |

Code that changes state step by step (the projection, the extraction pass, the database, the snapshot
being trimmed, the graph, the tracker, the profile file) is a class whose methods are proved equal to
functions on values; the lemmas are about those functions. What a function returns is also described without
it, in terms of rows, claims, tasks and characters (`Meaning`, `Gates`, `Focus`, `Shown`, `Quoting`, `Turns`, and
lemmas named `...Is` elsewhere).

## Hypotheses

- The id digest is injective: `HashedId` keeps the bytes it would digest (crates/memory/src/project.rs:80-91).
- A *gated log* (`GatedLog.Gated`) has distinct row ids; each claim row passed the static gate, carries no
  outcome, and puts findings on subjects without a newline (bin/contextd/src/main.rs:372-376,
  crates/broker/src/extract.rs:557-568); claim ids are asserted once; no row names a command's reality as a
  target, and no agent row names a user claim. The protocol derives all of this for every reachable state.
- Row ids look like the ULIDs the daemon mints, 26 characters without a newline (`RowIds.UlidShaped`), and are
  not used again after their row was pruned. The daemon mints such ids (bin/contextd/src/main.rs:171-173) but
  takes any id a client sends (crates/sources/src/shell.rs:200-207). From row ids alone the protocol derives that
  claim ids are new, that claim ids are asserted once, and that findings stay off command subjects; `ClientIds`
  shows what other ids do.
- Nothing rewrites stored rows. The daemon's enrichment does: while no embedding model is up it rewrites the payload
  of a classified row over 512 characters to a few identity keys, and it deletes rows it takes for noise
  (crates/background/src/enrichment.rs:195-230, 296-345). Claim rows are among them, and a claim row rewritten so
  no longer decodes. `Enrichment.ClaimStaysIffRun` says what that does: nothing to a command's claims, and the
  loss of the claim for a claim row.
- The times that a handoff gives its rows fit a signed 64-bit column (`Protocol.InTime`).
- `push_event` does not saturate where a statement says so (crates/broker/src/extract.rs:1137-1150).
- A snippet's body does not contain the end marker (`Profile.Clean`).

## What the proofs found

Each has an exact condition and an input.

- An agent's next action is refused while the projector holds the slot (`Daemon.AgentNextActionIffSlotFree`), as
  it does after one failing command (`Daemon.AgentNextActionRefused`). docs/connecting-agents.md:29 and
  crates/mcp/src/server.rs:138 offer that write; the model follows the code.
- The gate trims a draft's subject, so nothing is ever quoted for a failing command whose directory is blank
  (`Appended.QuotableIffDirectory`, `Appended.BlankDirectoryUnquoted`).
- A blank command with a failing newest row is failing for the gate and unknown to the projector
  (`Trust.GateAgreesWithProjector`, `Trust.BlankFailureDisagrees`).
- A retract or update note speaks as the author of the claim it retires. It retires a user claim, whoever wrote
  the note, exactly when the claim it picks is the user's and it goes through (`Admission.RetractsUserClaimIff`,
  `Admission.UpdatesUserClaimIff`, `Admission.AgentRetractsUserClaim`, `AgentUpdate.RetiredByUpdate`).
  The trust theorem is about rows of agents.
- The 27th sentence of a note gets the suffix of the 26th (`Persistence.SuffixesTellApart`). If both are drafted and
  admitted, two rows share an id, the primary key refuses the second, the handoff ends without rebuilding, and the
  stored view stays behind the rows that got in: later handoffs find the note cited and change nothing
  (`Runs.CitedNotesStay`), until a command, a claim or a restart rebuilds. That happens exactly when two admitted
  drafts of one uncited note have one suffix (`Runs.CutOffIffSuffixRepeats`), never for notes of at most 26 sentences
  (`Runs.ShortNotesGetIn`), and for a note of 27 rules (`CutOff.TwentySevenSentences`, `CutOff.InputExists`).
- A rebuild goes through exactly when no two rows assert one claim id (`BlockedRebuild.StorableIffAssertedOnce`). A
  note that a client named like the claim of a daemon's row makes the handoff push a second such row, and no later
  rebuild succeeds (`BlockedRebuild.NamedNoteBlocksRebuild`, `BlockedRebuild.BlockedByName`).
- A finding retires a command's observed reality exactly when its claim id is the command's subject and its task
  the command's (`ClientIds.FindingRetiresRealityIff`); a client that names a note so can do it
  (`ClientIds.NamedNoteRetiresReality`).
- A begin marker without an end marker makes a second install rewrite everything from that marker on
  (`Profile.SecondInstallIsNoopIffNotDangling`, `Profile.BeginAloneIsRewritten`).

## Model

| member | source | states |
|---|---|---|
| `Runs.ViewShowsHistory` | bin/contextd/src/main.rs:166-199 | in every state of every run of the daemon (late rows, writers with stale reads, whole handoffs that may be cut off, restarts, any number of prune passes) the stored view has the current claims, active tasks with openers and focal task of the never-pruned rows the last rebuild saw; and it has those of everything ever appended exactly when no cut-off handoff appended rows since. Enrichment, which rewrites or removes stored rows, is no step of these runs (`Enrichment.ClaimStaysIffRun`) |
| `Runs.TrustInEveryInterleaving` | bin/contextd/src/main.rs:268-403 | in every state of every run whose clients name rows like ULIDs, however a writer's read and its later append interleave with others, at no row of the table does an authored row change an observed reality, nor a row of an agent a claim of the user |
| `Runs.RunInv` | bin/contextd/src/main.rs:191-199 | every reachable state keeps the full invariant: gated rows named by their ids, targets that some row made, table order, a chain of droppable deletions, a view equal to the fold of what was rebuilt, and a source row for every stored claim |
| `ProtocolSteps.NextKeeps` | bin/contextd/src/main.rs:33-72 | each single step (ingest, prepare, commit, a whole handoff with its rows and its rebuild or its refused insert, prune, restart inside or outside a handoff) keeps that invariant |
| `Runs.CutOffIffSuffixRepeats` | crates/broker/src/extract.rs:214-353 | whatever is drafted, a handoff leaves appended rows unshown exactly when some uncited note has two drafts that are both admitted at their turns and whose sentences get one suffix |
| `Runs.FewSpeechesGetIn` | crates/broker/src/extract.rs:963-969 | so none is cut off while each uncited note drafts sentences at different positions among its first 26 |
| `Runs.ShortNotesGetIn` | crates/broker/src/extract.rs:588-770 | with at most one draft per sentence, notes of at most 26 sentences never cut a handoff off |
| `Runs.CutOffIffIdRepeats` | crates/broker/src/extract.rs:299-319 | seen from the table: it is cut off exactly when two pushed rows have one id; one that pushes rows and is not cut off brings the view up to date; one that pushes none changes nothing |
| `CutOff.TwentySevenSentences` | crates/broker/src/extract.rs:205-319 | a run from the empty daemon: a failing command, a user's note whose text is exactly 27 sentences, each drafted as one constraint at its position, and two handoffs; the second changes nothing and the stored view does not show what is written |
| `CutOff.InputExists` | crates/broker/src/extract.rs:927-961 | there is such a note and such a drafting |
| `RuleNote.TextHasRules` | crates/broker/src/extract.rs:927-961 | the note's text has just those 27 sentences |
| `EventTable.CompactionIsInvisible` | crates/store/src/db.rs:300-346 | deleting any rows the prune query offers and refolding gives the same current claims (links aside), the same active tasks with the same opener, and the same focal task |
| `Ageing.BatchIsAged` | crates/store/src/db.rs:300-336 | the prune query returns only rows before the cutoff, of low score, untyped or episodic, that are no claim, opened no active task and are cited by no current claim; such a row is left out only if the batch is full of rows no younger |
| `Ageing.PassTakesOldest` | crates/background/src/pruner.rs:56-74 | a pass takes the first rows of its batch out of the table, oldest first, as many as it got to, and no other row |
| `Ageing.GoneWasAged` | crates/background/src/pruner.rs:56-74 | in every run, a row that leaves the table in a step was such a row when it left |
| `Meaning.ClaimsSayTheirRows` | crates/memory/src/project.rs:101-280 | every claim of the fold says what one row wrote: an author's statement with its task, kind, subject, confidence, trimmed text, outcome, artifacts and evidence, a command's result, or what to do about a failure; it is linked to the claim whose place it took, or else to the one its author named; and it is current exactly if no later row retracts it, names it, takes its place, or runs its command again |
| `Meaning.RowsMakeTheirClaims` | crates/memory/src/project.rs:101-280 | every statement makes its claim, every command the claim of its result, and every failed command one more, unless an author's next action stood on the task |
| `Meaning.TasksAreTheirRows` | crates/core/src/claim.rs:264-287 | a task is there exactly if a row is on it; the first such row opened it, the last updated it, it is done exactly if one closed it, and the last that did is its closing row |
| `Meaning.CitedIsKept` | crates/store/src/db.rs:312-318 | nothing that the source row of a current claim cites is offered by the prune query, nor is the run behind a current claim of the projector |
| `DiffText.DecimalReads` | crates/memory/src/project.rs:120-143 | the exit code in the text of a result reads back, its sign included |
| `Focus.FocusIs` | crates/memory/src/project.rs:39-74 | in focus is the failing active task that was opened first, by time and then id; if none fails, the active task of the user's newest current intent; if there is none either, nothing |
| `Shown.PacketShows` | crates/broker/src/snapshot.rs:147-344 | what a briefing shows, list by list: which claims, tasks and checks, each as often as it is stored, in which order, and with what text |
| `Shown.EmptyIff` | crates/broker/src/snapshot.rs:147-179 | a briefing is empty exactly if no constraint stands, nothing is in focus, no failed check passes now, and nobody has said anything about an active task |
| `Trust.GateAgreesWithProjector` | crates/broker/src/extract.rs:1054-1074 | the gate's last-write map and the projector's supersession fold agree about a subject exactly when it is not a blank command whose newest row failed |
| `Trust.BlankFailureDisagrees` | crates/broker/src/extract.rs:1054-1074 | one failing row of a blank command: failing for the gate, unknown to the fold |
| `FoldLaws.ChainIsRunHistory` | crates/memory/src/project.rs:120-143 | following `supersedes` from a command's current reality lists exactly the shell rows of that subject, newest first |
| `Convergence.HandoffConverges` | crates/broker/src/extract.rs:205-296 | over any sequence of handoff runs, the runs that push a row number at most the uncited notes of the first log |
| `Quiet.SecondRunIsQuiet` | crates/broker/src/extract.rs:205-296 | with no retract or update notes, a second handoff over the result of the first appends nothing |
| `Admission.UpdateIsAllOrNothing` | crates/broker/src/extract.rs:409-492 | an update note leaves the log untouched, or retires its target for good and adds every draft, although the view has changed since the drafts were tried |
| `Quoting.UpdateReplacesWanted` | crates/broker/src/extract.rs:409-492 | an update note goes through exactly if an author's current, unobserved claim has the collapsed text it wants replaced, its session has a command that still fails, and its drafts pass the trial; the oldest such claim is retired by a row in its author's voice, and one row for each draft follows; otherwise the log stays as it is |
| `Turns.RetractTurn` | crates/broker/src/extract.rs:355-407 | a note that retracts retires the newest of the longest current claims it quotes, if that is an author's and not observed, and nothing else; otherwise it pushes nothing |
| `Turns.DraftTurn` | crates/broker/src/extract.rs:258-353 | a quoted draft is pushed exactly if it is a span of the note of 1 to 500 characters, grounded if it is a finding, and admitted; log, memory and report then change by that one row, and otherwise by one report entry |
| `Quoting.AdmittedIff` | crates/broker/src/extract.rs:494-586 | a draft is admitted exactly if all it cites is in the log, the first of that a note it quotes, its text has 1 to 500 characters, its task's newest run failed, nothing of its kind said the same before, a finding shares two content tokens with the first shell row it cites, and a next action yields to the user's; and what its row then says |
| `Appended.AppendedAssertsAreSound` | crates/broker/src/extract.rs:494-586 | every claim an extraction asserts quotes a contiguous span of a note it read, sits on the task of a command whose trimmed subject is failing, is grounded in a cited output if it is a finding, is never observed, and repeats no earlier kind and normalised text |
| `Persistence.ViewSurvivesDatabase` | crates/broker/src/snapshot.rs:147-344 | a stored fold read back in any row order gives the same focal task, constraints, passed checks, open work and other tasks; only artifact order may differ |
| `CoOccurrence.IncrementalIsBatch` | crates/memory/src/graph.rs:142-176 | for non-decreasing times an edge's weight is the number of pairs of mentions of two events, within five minutes and the last eight mentions, that name its two entities |
| `GraphStore.SaveThenLoad` | crates/memory/src/graph_store.rs:44-121 | saving never fails on a repeated key, and loading the rows in any order gives every entity its node and no other, every pair of entities its weight, and no entity a link to itself |
| `ProcTracker.ReportsArePresences` | crates/sources/src/proc_poller.rs:88-133 | what a run of polls reports about a pid, exactly: one start at the first poll after two seconds of unbroken presence unless seeded, one finish with the whole duration if it was announced or seeded, nothing else |
| `Trimming.Snapshot.TrimToBudget` | crates/broker/src/snapshot.rs:365-386 | the loop ends in the first state of its fixed order that fits the budget, or in the last one when nothing is left to cut |
| `Trimming.TrimmingIsSafe` | crates/broker/src/snapshot.rs:365-414 | trimmed lists are prefixes, protected fields and a task's first decision stay, later lists are cut only when earlier ones are bare, and a packet still over budget has nothing left to cut |
| `Ageing.NothingIsLost` | crates/background/src/pruner.rs:56-74 | in every run of archive passes, each cut off after any single write, every row that ever arrived is live or in a stored segment |
| `Profile.SecondInstallIsNoopIffNotDangling` | crates/sources/src/install.rs:144-175 | a second install is a no-op exactly when the profile held no begin marker without an end marker after it |
| `Profile.BeginAloneIsRewritten` | crates/sources/src/install.rs:144-175 | on a profile that is the begin marker alone the second install cuts the text short |
| `Profile.UninstallUndoes` | crates/sources/src/install.rs:178-204 | uninstall after install yields the profile with its trailing whitespace replaced by one newline |
| `Profile.RestSurvives` | crates/sources/src/install.rs:178-191 | uninstalling keeps what stands below the block, from its first character that is no newline on, and trims what stands above it to one newline |
| `Diffs.EditIsLocal` | eval/component0/harness/diffs.py:31-56 | if no changed span touches a region, applying the hunk where its old lines stand leaves the region contiguous and unchanged at its shifted place, also past insertions that have no span of their own |
| `DiffText.PatchReadsBack` | eval/component0/harness/diffs.py:76-108 | any patch, with any number of hunks of context, added and removed lines in any order and counts of one written or left out, reads back as its hunks |
| `Budget.FitToTokens` | crates/broker/src/budget.rs:88-112 | the result fits its allowance in UTF-8 bytes; it is the text, nothing, or a prefix of whole characters and the ellipsis cut from the longest prefix that leaves room |
| `Budget.CutKeepsHalf` | crates/broker/src/budget.rs:103-111 | the cut is at the last whitespace exactly if that keeps at least half of the bytes that fit |
| `Budget.TokensAre` | crates/broker/src/budget.rs:20-29 | a token stands for three bytes, rounded up |
| `Compaction.OpenFinds` | crates/core/src/claim.rs:264-279 | opening a task adds it as active, or moves only the update time of the one with that id, and every other task is found as before |
| `Claims.Projection.Open` | crates/core/src/claim.rs:264-279 | that step, in place |
| `Compaction.CloseFinds` | crates/core/src/claim.rs:281-287 | closing marks the task done and names the closing row, and every other task is found as before |
| `Claims.Projection.Close` | crates/core/src/claim.rs:281-287 | that step, in place |
| `CurrentView.RetireById` | crates/core/src/claim.rs:289-298 | retiring by id changes one claim, keeps ids and slots unique, and takes exactly that claim out of the current ones |
| `Claims.Projection.SupersedeById` | crates/core/src/claim.rs:289-298 | that step, in place, with whether there is such a claim |
| `CurrentView.RetireSlot` | crates/core/src/claim.rs:300-312 | retiring a slot changes only its current holder, leaves the slot clear, and takes exactly its holder out of the current claims |
| `Claims.Projection.SupersedeHolder` | crates/core/src/claim.rs:300-312 | that step, in place, with the id of the holder |
| `CurrentView.PushClaim` | crates/core/src/claim.rs:314-319 | a pushed claim with a new id, on a clear slot, keeps ids and slots unique and is the newest current claim |
| `Claims.Projection.Push` | crates/core/src/claim.rs:314-319 | appends the claim and bumps its task, in place |
| `Projector.FoldLog` | crates/memory/src/project.rs:25-35 | the fold as it runs, in place over one projection, is the fold of the log as a function |
| `Projector.FoldShell` | crates/memory/src/project.rs:101-155 | a shell row with a command and a code takes one fold step; every other leaves the projection alone |
| `Projector.FoldRun` | crates/memory/src/project.rs:120-154 | a run opens its task, replaces the command's reality and settles the frontier |
| `Projector.EnsureProjectorFrontier` | crates/memory/src/project.rs:157-189 | a failing run takes over the frontier unless an author holds it |
| `Projector.SupersedeProjectorFrontier` | crates/memory/src/project.rs:191-201 | a passing run drops the frontier only if the projector holds it |
| `Projector.FoldClaim` | crates/memory/src/project.rs:203-229 | a claim row takes one fold step; one that does not decode or names no task is ignored |
| `Projector.AssertClaim` | crates/memory/src/project.rs:231-280 | an assertion clears its slot, retires what it names, and pushes a claim linked to what it replaced |
| `Text.CollapseStable` | crates/memory/src/project.rs:93-99 | collapsing whitespace forgets trimming and is idempotent |
| `CurrentView.StepAgrees` | crates/memory/src/project.rs:101-280 | on fresh ids one fold step keeps claim ids distinct and slots unique, and its current claims are those of a step that never sees a superseded claim |
| `CurrentView.RealityIsNotFrontier` | crates/memory/src/project.rs:80-95 | with an injective digest a run's two claim ids differ |
| `GatedLog.FoldIsWellFormed` | crates/memory/src/project.rs:25-35 | if claim ids are asserted once, the fold has distinct claim ids and at most one current claim per task, kind and subject for intent, next action and reality |
| `GatedLog.CurrentOk` | crates/memory/src/project.rs:120-280 | every current claim of a gated log has the shape of its author: projector realities sit on command subjects and carry a code, authored claims carry none |
| `FoldLaws.LastRunIsCurrent` | crates/memory/src/project.rs:120-140 | the newest run of a command is its current reality, whatever authored rows follow |
| `FoldLaws.CurrentIsLastRun` | crates/memory/src/project.rs:120-140 | a current projector reality is the newest run of its command |
| `FoldLaws.RealityHolder` | crates/core/src/claim.rs:242-249 | the reality slot of a command is held by its newest run, or by nobody |
| `FoldLaws.FrontierIsLastFailure` | crates/memory/src/project.rs:145-201 | a current projector next action was left by the newest run of its command, and that run failed |
| `FoldLaws.ShellOnlyFrontier` | crates/memory/src/project.rs:145-201 | on a shell-only log a command has its next action exactly when its newest run failed |
| `FoldLaws.ClaimsOnlyAge` | crates/core/src/claim.rs:289-319 | later rows change nothing of a claim but its status and update time, and never bring a superseded one back |
| `Trust.EveryClaimHasSource` | crates/memory/src/project.rs:101-280 | every claim of the fold was made by a row of the log, with that row's origin, task, kind and subject |
| `Trust.TrustHolds` | crates/core/src/claim.rs:442-488 | on a gated log no authored row changes an observed reality and no agent row changes a user claim |
| `Trust.FailingIsLastExit` | crates/core/src/claim.rs:257-262 | a subject's task has a failing current reality exactly when its newest run failed |
| `Trust.FailureIsLastRun` | crates/core/src/claim.rs:257-262 | only a command's newest run can carry a code into a current reality |
| `Trust.CollectFailing` | crates/broker/src/extract.rs:1054-1074 | the loop over shell rows computes the last-write map's non-zero subjects |
| `Gates.UserRowAccepted` | crates/core/src/claim.rs:323-411 | which rows of the user the static gate accepts, exactly |
| `Gates.AgentRowAccepted` | crates/core/src/claim.rs:323-438 | which rows of an agent the static gate accepts, exactly |
| `Gates.NobodyElseWrites` | crates/core/src/claim.rs:323-336 | a row is accepted only in its own author's name, and only a user's or an agent's |
| `Gates.ViewAccepts` | crates/core/src/claim.rs:442-488 | the gate that reads the view accepts a row exactly if what it names exists and is not an observation of the projector, for the user, or an agent's claim of the same task, for an agent, whose next action also yields to the user's |
| `Compaction.FoldTasks` | crates/core/src/claim.rs:264-287 | task ids are unique in every fold, and each task is what its own rows say |
| `Compaction.DoneStaysDone` | crates/core/src/claim.rs:281-287 | no later row reopens a closed task |
| `Compaction.ClaimsRejoin` | crates/memory/src/project.rs:101-201 | with and without a run, the current claims differ only in the projector's claims on its task, and only until the command runs again |
| `Compaction.TaskRejoins` | crates/core/src/claim.rs:264-287 | with and without a run, a task record is the same once it is touched again or closed on both sides |
| `Compaction.PrunableIsDroppable` | crates/store/src/db.rs:306-323 | a row the prune query offers is no claim; if it is a run its command ran again later and its task was opened before it or closed after it |
| `Compaction.PrunableReadsView` | crates/store/src/db.rs:306-323 | the query gives the same answer for any two views that show the same work |
| `Compaction.DropOne` | crates/store/src/db.rs:339-346 | deleting one such row changes neither current claims nor active tasks |
| `EventTable.InsertDeleteCommute` | crates/store/src/db.rs:174-200 | inserting one row in table order and deleting another commute |
| `EventTable.ChainInsert` | crates/store/src/db.rs:339-346 | a row that arrives late, anywhere in the order, leaves earlier deletions invisible |
| `EventTable.BatchIsChain` | crates/store/src/db.rs:300-346 | a batch chosen by one query stays safe to delete one row at a time, although each later row is judged by a shorter log |
| `Briefing.FocalIsOrderFree` | crates/memory/src/project.rs:39-74 | the focal task does not depend on row order |
| `Briefing.ConstraintsAreOrderFree` | crates/broker/src/snapshot.rs:222-234 | nor do the standing constraints |
| `Briefing.ViewsAreOrderFree` | crates/broker/src/snapshot.rs:236-281 | nor does a task view, except for the order of its artifacts |
| `Briefing.OpenWorkIsOrderFree` | crates/broker/src/snapshot.rs:283-312 | nor does the open work |
| `Briefing.OtherTasksAreOrderFree` | crates/broker/src/snapshot.rs:314-344 | nor do the other failing tasks and their summaries |
| `Briefing.PassedChecksAreOrderFree` | crates/broker/src/snapshot.rs:181-220 | nor do the passed checks, which also read superseded claims |
| `Briefing.FoldIsDefinite` | crates/memory/src/project.rs:25-74 | the fold of a gated log has unique ids, one holder per slot and one coded reality per task, so every search and tie-break is definite |
| `Rendering.Render` | crates/broker/src/snapshot.rs:147-179 | an empty briefing costs its notice and loses nothing; any other is trimmed to the budget |
| `Rendering.RenderingIsOrderFree` | crates/broker/src/snapshot.rs:147-179 | the whole packet before trimming is the same for any row order, artifact order aside |
| `Daemon.PreparedRow` | bin/contextd/src/main.rs:239-403 | every row a writer prepares passed both gates against the view it read, carries no outcome, and names its own claim after the new row |
| `Gates.IntentRequest` | bin/contextd/src/main.rs:239-266 | an intent is written exactly if its text has 1 to 500 characters, on the focal task or a new one, and as which row |
| `Gates.UserStatement` | bin/contextd/src/main.rs:324-351 | a constraint, decision or exclusion is written exactly if there is a focal task and the text is good, and as which row |
| `Gates.CloseRequest` | bin/contextd/src/main.rs:276-298 | closing needs a focal task and nothing else, and is written as which row |
| `Gates.RetractRequest` | bin/contextd/src/main.rs:300-322 | the user can retract any claim by id, superseded ones included, except the projector's observations |
| `Gates.AgentRequest` | bin/contextd/src/main.rs:354-403 | an agent's claim of any kind is written exactly if there is a focal task, text, kind and confidence are an agent's, what it replaces is an agent's claim of the task, and its next action yields to the user's; and as which row |
| `Gates.WrittenClaimShows` | crates/memory/src/project.rs:231-280 | the row of such a request, folded last, is the newest current claim, with the task, kind, subject, text, confidence and author asked for |
| `Daemon.AgentNextActionIffSlotFree` | bin/contextd/src/main.rs:354-403 | an agent can write a next action on the focal task exactly when its confidence is an agent's and an agent holds the slot, or nobody does and the claim it replaces, if any, is an agent's of that task |
| `Daemon.AgentNextActionRefused` | bin/contextd/src/main.rs:354-403 | after one failing command the agent's next action is refused as not its own claim |
| `Writers.Rebuild` | crates/memory/src/project.rs:17-22 | replaces the view by the fold of the whole log, or leaves it when a constraint would break |
| `Writers.AppendAndRebuild` | bin/contextd/src/main.rs:191-199 | an accepted append inserts the row in table order and rebuilds; a refused one changes nothing |
| `Writers.Record` | bin/contextd/src/main.rs:239-403 | one writer alone: the answer is that of the stored view, and a written row is in the table and in the view |
| `Writers.AppendIsProtocolStep` | bin/contextd/src/main.rs:191-199 | on a gated log the database append is the protocol's append and the rebuild violates no constraint |
| `Writers.KeyedTableIsStorable` | crates/store/src/db.rs:17-24 | with rows named like ULIDs the primary key on row ids is enough: claim ids are asserted once and no rebuild violates a constraint |
| `RowIds.MakerIsRow` | crates/memory/src/project.rs:80-95 | a claim id names the row that made it |
| `RowIds.ClaimsApart` | crates/memory/src/project.rs:80-95 | rows with different ids never make claims with one id |
| `RowIds.NewRowIsFresh` | bin/contextd/src/main.rs:171-173 | a row with a new id makes no claim that any row made or named before |
| `Runs.CitedNotesStay` | crates/broker/src/extract.rs:205-223 | once every note is cited no handoff changes anything, so a view left behind stays behind until something else rebuilds |
| `Handoff.NoteStepGrows` | crates/broker/src/extract.rs:214-294 | a note only ever pushes claim rows, each citing that note, and only if no claim cited it before |
| `PushedRows.ExtractInBlocks` | crates/broker/src/extract.rs:205-296 | the rows of a pass come note by note, each block for one note nothing cited, with at most its first row a retraction |
| `PushedRows.RepeatsInBlock` | crates/broker/src/extract.rs:334-335 | two pushed rows with one id assert one claim of one note, and so does every row between them a claim of that note |
| `HandoffStep.PushedIsUnused` | crates/broker/src/extract.rs:299-319 | no id a handoff pushes is in use: its note would be cited already |
| `Handoff.ExtractUpTo` | crates/broker/src/extract.rs:205-296 | after any number of notes the log is the old one plus rows that each cite a note uncited before the run |
| `Convergence.ChangeUsesANote` | crates/broker/src/extract.rs:205-296 | a run that pushes a row makes at least one uncited note cited, and uncites none |
| `Convergence.SortKeepsRows` | crates/broker/src/extract.rs:1152-1158 | sorting the log keeps its rows |
| `Admission.AdmitGrows` | crates/broker/src/extract.rs:494-586 | admission gives the same answer after claim rows were pushed |
| `Admission.GateIgnoresView` | crates/core/src/claim.rs:442-488 | a draft names no target, so without user next actions the projection cannot turn the gate against it |
| `Admission.TrialHolds` | crates/broker/src/extract.rs:445-491 | drafts that all pass the trial are all admitted afterwards, one after another |
| `Admission.RetractsIffQuotes` | crates/broker/src/extract.rs:355-407 | a retract note goes through exactly when the longest current claim it quotes is neither the projector's nor observed |
| `Admission.RetractNoteRetiresLongest` | crates/broker/src/extract.rs:355-407 | it then retires that claim, a longest one it quotes, and nothing else, speaking as that claim's author whoever wrote the note |
| `Admission.RetractsUserClaimIff` | crates/broker/src/extract.rs:355-407 | a retract note, whoever wrote it, retires a user claim exactly when the longest current claim it quotes is the user's and not observed |
| `Admission.AgentRetractsUserClaim` | crates/broker/src/extract.rs:355-407 | an agent's retract note that quotes a user constraint retires it, on a log of those two rows |
| `Admission.UpdatesIff` | crates/broker/src/extract.rs:409-492 | an update goes through exactly when it names a current claim that is not the projector's or observed, its session has a failing command, and all its drafts pass the trial |
| `Admission.UpdatesUserClaimIff` | crates/broker/src/extract.rs:409-492 | an update note, whoever wrote it, retires a user claim exactly when it goes through and the claim it names is the user's |
| `AgentUpdate.AgentUpdatesUserClaim` | crates/broker/src/extract.rs:409-492 | an agent's update note that names a user's constraint, in a session with a failing command, goes through and retires it |
| `AgentUpdate.RetiredByUpdate` | crates/broker/src/extract.rs:409-492 | three literal rows and a drafting for which this happens |
| `AgentUpdate.UpdateLogExists` | crates/broker/src/extract.rs:409-492 | those rows are such an input for every drafting that makes one hypothesis of the note |
| `Admission.TrialByParts` | crates/broker/src/extract.rs:447-459 | drafts that each pass by themselves and say different things pass the trial together |
| `Quoting.TrialIff` | crates/broker/src/extract.rs:445-459 | drafts pass the trial exactly if each is admitted by itself, none says what was said before and no two say the same |
| `Quoting.NoteTaskIs` | crates/broker/src/extract.rs:843-849 | a note is about the oldest row of its session whose command failed when it ran last; without one it is about nothing |
| `Quoting.FailingIs` | crates/broker/src/extract.rs:1054-1074 | a subject is failing for the gate exactly if its newest row with a code and a command text failed |
| `Turns.QuotedTurn` | crates/broker/src/extract.rs:214-293 | any other note is read with the row it names, or else the row before it, if that is a shell row, for the session's oldest command that still fails, and its drafts get their turns in order; without such a command nothing is pushed |
| `Turns.UpdateTurn` | crates/broker/src/extract.rs:214-293 | a note in the update role does what the update does |
| `Turns.NoTurn` | crates/broker/src/extract.rs:214-226 | a cited note, a blank note and a row that is no note push nothing |
| `Turns.SentenceIsDrafted` | crates/broker/src/extract.rs:810-841 | a draft quotes its sentence, is named after the note and the sentence's place, and cites the note and the shell row it leans on |
| `Extraction.ExtractionIsJustified` | crates/broker/src/extract.rs:205-586 | every pushed row was admitted, or let go by both gates, against the log exactly as it stood before that row, and the seen keys are those of the log |
| `Appended.OnCommandItself` | crates/broker/src/extract.rs:529-534 | that command has a directory, and unless it is blank it is itself failing |
| `Appended.QuotableIffDirectory` | crates/broker/src/extract.rs:529-534 | a failing command can be quoted for exactly when its directory is not blank |
| `Appended.BlankDirectoryUnquoted` | crates/broker/src/extract.rs:529-534 | a failing command without a directory: it is failing, and no draft for it is admitted |
| `Appended.AppendedRowsPassTheGate` | crates/broker/src/extract.rs:584-586 | a pushed row is one the daemon's protocol accepts, against the view at that point, exactly when it is not a finding whose id holds a newline |
| `Appended.AppendsLandLast` | crates/broker/src/extract.rs:1137-1150 | unless the clock saturates, each pushed row lands at the end of the table, so each refold is one fold step |
| `Appended.ResultIsSorted` | crates/broker/src/extract.rs:1137-1158 | sorting the result again changes nothing |
| `HandoffRun.CollectSeen` | crates/broker/src/extract.rs:1103-1121 | the loop computes the keys of the asserted claims |
| `HandoffRun.CollectCited` | crates/broker/src/extract.rs:1123-1135 | the loop computes the cited ids |
| `HandoffRun.FailingCommand` | crates/broker/src/extract.rs:994-1023 | the two-map search returns the oldest row of the session whose command still fails |
| `HandoffRun.OpenSessions` | crates/broker/src/extract.rs:981-992 | exactly the sessions with a command whose newest row failed |
| `HandoffRun.TaskOfNote` | crates/broker/src/extract.rs:843-849 | the early exit for closed sessions loses nothing: the oldest failing command of the note's session |
| `HandoffRun.Extractor.PushAndFold` | crates/broker/src/extract.rs:1137-1150 | pushes the row past the newest time and refolds |
| `HandoffRun.Extractor.Accept` | crates/broker/src/extract.rs:321-353 | admits or records one draft, changing log, projection, keys and report as the value-level step says |
| `HandoffRun.Extractor.Retract` | crates/broker/src/extract.rs:355-407 | one retract note, in place |
| `HandoffRun.Extractor.TryDrafts` | crates/broker/src/extract.rs:447-459 | the trial admission of an update |
| `HandoffRun.Extractor.Update` | crates/broker/src/extract.rs:409-492 | one update note, in place |
| `Extraction.QuoteDraftIsSound` | crates/broker/src/extract.rs:258-292 | the local checks and the admission of one draft push at most one row, justified by the log before it, and keep the seen keys exact |
| `HandoffRun.Extractor.QuoteOne` | crates/broker/src/extract.rs:258-292 | that step, in place |
| `HandoffRun.Extractor.Visit` | crates/broker/src/extract.rs:214-293 | one row of the log, with every early exit |
| `HandoffRun.RunExtraction` | crates/broker/src/extract.rs:205-296 | the whole pass in place is the value-level pass, and its projection is the fold of its log |
| `HandoffTable.RunHandoff` | crates/broker/src/extract.rs:299-319 | reads the log, extracts, inserts what is new until one insert is refused; it succeeds exactly when every row gets in and, if there were any, the fold meets the constraints; only then is the view rebuilt |
| `HandoffTable.HandoffIsProtocolStep` | crates/broker/src/extract.rs:299-319 | against the database a handoff is the protocol's: the same rows get in, and it fails exactly when that one is cut off |
| `HandoffTable.HandoffReachesTable` | crates/broker/src/extract.rs:299-319 | when the pushed rows can be inserted the table holds them all and folds to the projection the extraction ended with |
| `Store.Database.InsertEvent` | crates/store/src/db.rs:174-200 | inserts exactly when the id is new and the time fits a signed column |
| `Store.Database.DeleteEvents` | crates/store/src/db.rs:339-346 | deletes the rows with the ids and counts them |
| `Store.Database.GetPrunable` | crates/store/src/db.rs:300-336 | returns eligible rows, oldest first, all of them or the limit |
| `Store.Database.GetFoldEvents` | crates/store/src/db.rs:498-510 | returns shell and claim rows in fold order |
| `Store.Database.ReplaceProjection` | crates/store/src/db.rs:531-580 | succeeds exactly when no primary key and no current slot repeats; otherwise the stored view stays |
| `Store.Database.LoadProjection` | crates/store/src/db.rs:582-633 | reads both tables back in their order |
| `Store.Database.ArchiveEvents` | crates/store/src/archive.rs:65-93 | stores a segment with the batch's time span and count; an empty batch stores nothing |
| `Store.Database.ArchivePass` | crates/background/src/pruner.rs:56-74 | archives the whole batch first and then deletes row by row, up to the write the crash allows |
| `Store.Database.SegmentsInRange` | crates/store/src/archive.rs:109-140 | returns exactly the segments whose span overlaps the clamped range, as often as stored, newest first |
| `Store.Database.ArchivedEventCount` | crates/store/src/archive.rs:143-150 | sums the segment counts |
| `Persistence.InsertIsInsertRow` | crates/store/src/db.rs:174-200 | an accepted insert is an insertion into the ordered log |
| `Persistence.DeleteIsDeleteRows` | crates/store/src/db.rs:339-346 | deleting by id deletes from the ordered log |
| `Persistence.FoldQueryIsEnough` | crates/store/src/db.rs:494-510 | folding what the fold query returns is folding the whole table |
| `Persistence.RebuildSucceeds` | crates/store/src/db.rs:92-98 | with claim ids asserted once a rebuild violates neither a key nor the slot index |
| `Persistence.RepeatedIdBlocksRebuild` | crates/store/src/db.rs:531-580 | two rows that assert one claim id block every later rebuild |
| `BlockedRebuild.StorableIffAssertedOnce` | crates/store/src/db.rs:531-580 | on distinct row ids, with runs named like ULIDs and no authored claim named by a run's digest, a rebuild goes through exactly when no two rows assert one claim id |
| `BlockedRebuild.NamedNoteBlocksRebuild` | crates/broker/src/extract.rs:205-296 | a failing command, a daemon's claim and a note a client named after that claim: the rows can be stored, the handoff pushes one row with an id of its own, the primary key takes it, and no rebuild goes through from then on |
| `BlockedRebuild.BlockedByName` | crates/broker/src/extract.rs:205-296 | three literal rows and a drafting for which this happens |
| `BlockedRebuild.NamedLogExists` | crates/sources/src/shell.rs:200-207 | those rows are such an input for every drafting that makes one constraint of the note |
| `BlockedRebuild.ChosenNoteIdBlocksRebuild` | crates/sources/src/shell.rs:200-207 | a note a client named like a daemon row's claim asserts that claim id under a row id of its own, and no later rebuild succeeds |
| `ClientIds.FindingRetiresRealityIff` | crates/broker/src/extract.rs:557-568 | a finding changes a current observed reality exactly when its claim id is the command's subject and its task the command's |
| `ClientIds.NamedNoteRetiresReality` | crates/sources/src/shell.rs:200-207 | a note a client named after a failing command, with one grounded sentence, is admitted on a gated log and retires that command's observed reality |
| `Enrichment.ClaimStaysIffRun` | crates/background/src/enrichment.rs:296-335 | if the row that made a claim is rewritten to its identity keys, the claim stays in the fold exactly when that row is a run |
| `Enrichment.ClaimRowIsDeleted` | crates/background/src/enrichment.rs:195-202 | rewriting a claim row is deleting it, as far as the fold goes |
| `Enrichment.OtherRowsFoldAlike` | crates/background/src/enrichment.rs:195-202 | rewriting any other row changes nothing in the fold |
| `Persistence.SuffixesTellApart` | crates/broker/src/extract.rs:963-969 | the suffixes tell 26 sentences of a note apart, and the next one repeats the last |
| `Persistence.LoadedIsReordered` | crates/store/src/db.rs:582-633 | a load returns the stored rows, reordered |
| `Persistence.LoadIsSorted` | crates/store/src/db.rs:582-633 | and lists tasks by creation time and claims by update time, then by id |
| `Persistence.StorableIs` | crates/store/src/db.rs:61-99 | the tables take a view exactly if task ids and claim ids are unique and no task has two current intents, next actions or realities on one subject |
| `Persistence.TableIsSorted` | crates/store/src/db.rs:498-510 | the event table is listed by time, then id, and holds the stored rows |
| `Ageing.SegmentSpans` | crates/store/src/archive.rs:65-93 | a segment's span ends at times of its rows and holds all of them |
| `Ageing.OverlapIsCommonMoment` | crates/store/src/archive.rs:109-140 | a range query returns a segment exactly if some moment lies in both, up to the largest time a column holds |
| `Ageing.RangeFindsArchived` | crates/store/src/archive.rs:109-140 | a range query returns a segment holding each archived row whose time lies in the range, for any 64-bit bounds |
| `Ageing.CountsBalance` | crates/background/src/pruner.rs:56-74 | live rows plus archived events equal arrivals plus the rows crashes left in both |
| `Ageing.PassIsInvisible` | crates/background/src/pruner.rs:56-74 | a pass cut off anywhere leaves current claims, active tasks and focal task of the refold alone |
| `Trimming.CutTaskKeeps` | crates/broker/src/snapshot.rs:397-414 | a cut keeps the protected fields and leaves prefixes, and nothing is left to cut exactly when no artifact, no unknown and no decision past the first is |
| `Trimming.TrimTask` | crates/broker/src/snapshot.rs:397-414 | that cut: an artifact, else an unknown, else a decision past the first |
| `Trimming.Snapshot.TrimOpenWork` | crates/broker/src/snapshot.rs:388-395 | cuts the last open task that has anything left to cut |
| `Trimming.TrimmingIsDetermined` | crates/broker/src/snapshot.rs:365-386 | no other number of cuts meets the description of the outcome |
| `CoOccurrence.WeightsAreSymmetric` | crates/memory/src/graph.rs:142-176 | weights are symmetric and no entity is linked to itself, in any order of times |
| `Graph.KnowledgeGraph.NodeFor` | crates/memory/src/graph.rs:258-265 | returns the entity's node, adding one only if it is new, and keeps index, nodes and weights |
| `Graph.KnowledgeGraph.Reinforce` | crates/memory/src/graph.rs:267-273 | adds one to the weight of one pair and nothing else |
| `Graph.KnowledgeGraph.RestoreEdge` | crates/memory/src/graph.rs:243-251 | sets the weight of one pair and nothing else |
| `Graph.KnowledgeGraph.Observe` | crates/memory/src/graph.rs:142-176 | adds to every pair exactly its links in the window, keeps the index a bijection and the graph free of loops and parallel edges |
| `Graph.ObserveAll` | crates/memory/src/graph.rs:142-176 | event by event into an empty graph, the weights are those counted directly over the log |
| `GraphStore.GraphTables.Save` | crates/memory/src/graph_store.rs:44-71 | replaces both tables, or neither when a key repeats |
| `GraphStore.Load` | crates/memory/src/graph_store.rs:78-121 | the nodes are exactly the entities of understood rows, each pair weighs what its newest understood row says, and without looping rows there is no loop |
| `GraphStore.KeysDiffer` | crates/memory/src/graph.rs:84-87 | keys tell entities apart whatever their names contain, and kinds read back |
| `ProcTracker.ProcessTracker.Tick` | crates/sources/src/proc_poller.rs:88-133 | one poll does to every pid what its own rows say, and the tracked pids are the poll's |
| `ProcTracker.Watch` | crates/sources/src/proc_poller.rs:156-204 | over a run of polls, events and entries are those of the per-pid description |
| `ProcTracker.SeenOnce` | crates/sources/src/proc_poller.rs:95-113 | a pid listed twice in one poll counts once, under its first row |
| `ProcTracker.EntryIsPresence` | crates/sources/src/proc_poller.rs:88-133 | a present pid's entry is named and dated by the first poll of its presence and announced exactly if seeded or lasting |
| `ProcTracker.AnnouncedOnce` | crates/sources/src/proc_poller.rs:106-112 | one unbroken presence is announced at most once |
| `ProcTracker.FinishedWasAnnounced` | crates/sources/src/proc_poller.rs:118-130 | a process reported finished was announced during that presence, unless it was there from the start |
| `Profile.ProfileFile.Install` | crates/sources/src/install.rs:144-175 | appends, keeps or rewrites the block, and says which |
| `Profile.ProfileFile.Uninstall` | crates/sources/src/install.rs:178-191 | removes the block, or leaves the file when there is none |
| `Profile.FreshInstall` | crates/sources/src/install.rs:151-163 | on a profile without the begin marker the block is found exactly where it was put |
| `Profile.Reinstall` | crates/sources/src/install.rs:165-175 | installing twice changes nothing; installing for another socket rewrites only the block |
| `Profile.OnlyBlockChanges` | crates/sources/src/install.rs:165-175 | installing another body over an installed block replaces the block and nothing else, whatever stands around it |
| `Profile.OutcomeIs` | crates/sources/src/install.rs:144-175 | an install reports a new block exactly if there was none, and otherwise no change exactly if the text stays as it is |
| `Profile.UninstallCuts` | crates/sources/src/install.rs:178-204 | on any text, uninstalling cuts from the first begin marker through the next end marker and the newlines after it |
| `Profile.UninstallNeedsBlock` | crates/sources/src/install.rs:194-204 | a text without such a pair of markers is left alone |
| `Profile.SeparatorIs` | crates/sources/src/install.rs:151-163 | a new block is put after the fewest newlines that leave a blank line before it |
| `Diffs.ChangedSpans` | eval/component0/harness/diffs.py:31-46 | the counter loop computes the spans of the hunk |
| `Diffs.SpansAreRecords` | eval/component0/harness/diffs.py:31-46 | the spans are the removed lines, and the gaps where an insertion follows no other change, at their old line numbers, and nothing else |
| `Diffs.TouchingIs` | eval/component0/harness/diffs.py:49-56 | changed lines touch a region if one of them lies in it, an insertion if the line it follows does |
| `Diffs.HunkReplaces` | eval/component0/harness/diffs.py:248-250 | applied where its old lines stand, a hunk puts its new lines in their place |
| `Diffs.LocateIsNearest` | eval/component0/harness/diffs.py:235-245 | a located block stands there, nearest the hint and first among equals; nothing is found exactly when it stands nowhere, or in several places without a hint; an empty block is where the hint says |
| `Diffs.UntouchedIsQuiet` | eval/component0/harness/diffs.py:31-56 | spans that leave a region alone speak for every line of the hunk, recorded or not |
| `Diffs.ShiftOutside` | eval/component0/harness/diffs.py:248-250 | lines before a hunk stay, lines after it move by the difference of its sides |
| `DiffText.ParseUnifiedHunks` | eval/component0/harness/diffs.py:84-108 | the parser loop with its counters is the line-by-line reader |
| `DiffText.ContentPatchReadsBack` | eval/component0/harness/diffs.py:187-192 | the patch of a whole file reads back as one hunk that rebuilds the file from nothing, or removes all of it |
| `Excerpts.Sentences` | crates/broker/src/extract.rs:927-961 | ordered, disjoint, trimmed stretches that hold every non-space character, cut exactly where a stop is followed by whitespace |
| `Excerpts.SentencesAreDetermined` | crates/broker/src/extract.rs:927-961 | a text has one list of sentences: no other list meets that description |
| `Excerpts.TruncationIsIdempotent` | crates/broker/src/extract.rs:1268-1285 | truncating twice is truncating once |
| `Excerpts.TruncationBounds` | crates/broker/src/extract.rs:1268-1285 | at most 201 lines and 8000 characters plus the mark, the mark last; a text that fits is untouched |
| `Excerpts.BodyIsPrefix` | crates/broker/src/extract.rs:1268-1285 | what a truncation keeps is a prefix of the text |
| `Budget.TokenBudget.TrySpend` | crates/broker/src/budget.rs:55-64 | spends what fits; what was spent and what remains always make up the total, and a refusal only sets the mark |
| `Budget.BoundaryIsCharEnd` | crates/broker/src/budget.rs:97-101 | the byte test for a character boundary finds exactly the ends of whole characters, section 3 of RFC 3629 |
| `Budget.FitsItsAllowance` | crates/broker/src/budget.rs:27-29 | counted in tokens, a shortened text is within its allowance |

## Left out

- Handoff.ExtractUpTo: which English sentences become which drafts (crates/broker/src/extract.rs:588-925) is an uninterpreted, deterministic function of the note and its supporting row; so are lower-casing and content tokens. That support is read only when it is a shell row is part of the model.
- Quiet.SecondRunIsQuiet: is about logs without retract and update notes, for which the source promises it; with such a note a second run may find a claim to retire that the first run added.
- Diffs.EditIsLocal: says nothing about a hunk that does touch a region; such a hunk may still leave its lines alone.
- Persistence.ViewSurvivesDatabase: excepts the order in which a task's artifacts are listed, which follows row order in the code.
- Runs.ViewShowsHistory: has no step for enrichment's rewriting and removal of rows (see Hypotheses), and leaves `passed_checks` aside, which reads superseded failures that pruning may remove (crates/broker/src/snapshot.rs:204-213).
- Runs.TrustInEveryInterleaving: is about runs whose clients name rows like ULIDs; `ClientIds.FindingRetiresRealityIff` says what other ids reach.
- ProtocolSteps.NextKeeps: an append and its rebuild are one step, as under the writer lock; a crash between the two is that step followed by a restart. Rows of clients whose ids are taken are refused and are no step.
- Graph.ObserveAll: weights are natural numbers; single-precision rounding past 2^24 is not modelled, nor is how entities are drawn from a payload (crates/memory/src/graph.rs:277-350).
- ProcTracker.Watch: events carry ghost pids so that they can be counted per process; filtering of process names is not modelled.
- Trimming.Snapshot.TrimToBudget: the packet's cost is any function of the packet; its JSON text is not modelled.
- Profile.ProfileFile.Install: the shell and fish text between the markers, paths and directory creation are not modelled; offsets count characters instead of bytes.
- Store.Database.InsertEvent: enrichment columns other than score and memory type are not modelled, and no method rewrites a payload (`replace_payload`, crates/store/src/db.rs:224-247); `Enrichment` states what that does to the fold.
- Store.Database.ArchiveEvents: compression and JSON are taken to be inverted by their reading side; digests are not modelled.
- `admit_candidates` (crates/broker/src/extract.rs:194-203): callers choose the subject there, which can break the hypothesis that findings stay off command subjects.
- Integer widths: times and counts are unbounded except where the code saturates, clamps or fails to bind.
- SQLite, sqlite-vec, sockets, MCP, Ollama, tokio tasks, inotify, systemd: I/O and foreign code.
- Relevance scores, vector search, the noise filter, summaries, CLI parsing, `WorkingSet`: one reading of a branch settles them, or floating point with no exact property.
- `parse_envelope_hunks`, `parse_git_diff` and the rest of the eval harness: text conventions with no property beyond their branches.
