# Verification of the cloud sync log

This project models the service that keeps a repository's operation log (`worker/`), and proves what it
promises of the log, of the fold checkpoint derived from it, and of backup and restore. It also models
the smaller concurrent parts of the client: the package build's directory swap, the polling commands, the
MCP server's workspace cache, and two of its views.

## How it is built

- `Types`, `Placement`, `FoldRule`: operations, entities and the fold's rule, read literally. `FoldAt(log,
  cutoff)` is the specification every read of the fold is held to. `FoldMeaning`, `Spelling`, `AttemptEnds`,
  `Provenance` and `Claims` say what it means, of folds of logs and without its own terms.
- `Overlay`, `Placer`, `FoldRun`, `Checkpoint`, `FoldStore`, `Listing`, `Pages`: a fold step as the service
  runs it, loading only what its operations name and placing revisions through runs of held numbers and
  body keys, overlaid with an index of what it has folded; the checkpoint it writes; reads at any cutoff
  and their pages, each query of its own state.
- `OpLog`, `Staging`, `Transactions`: the `ops` table, and each transaction as a function of the tables.
- `Service`, `Invariant`: a state machine whose steps are single transactions, or a request reading what a
  later one acts on. Marks read, fold steps in flight, restores about to begin, commits and deletes that
  have asked are part of the state, so they interleave with everything however stale they are. `Enabled` is
  what the code does, `Orderly` when that keeps every table true, and `Service.StepKeepsIff` says it is
  exactly then. What a request computes from reads that were cleared under it, or that something has
  spoiled, is left open: it may be anything.
- `Traces`: what every trace of enabled steps keeps, orderly or not, and table by table exactly which steps
  keep it true.
- `Runs`, `Cutover`, `RoundTrip`, `Revisions`: what follows over whole traces for the log, the checkpoint,
  pulls, snapshots, joins and commits; and exactly when a restore gives back its backup. `Races`,
  `Counterexamples`: traces and logs on which they do not.
- `Repository`: the rows as a class, and each transaction statement by statement, proved to be the
  state machine's.
- `Publish`, `Polling`, `Workspaces`, `QueueLanes`, `Timeline`: the client's parts.

The order of entity keys is a parameter: any strict total order. A body's digest is one too, and may
collide.

## Where the code does not do what is written of it

In each case the model follows the code, a lemma of `Races` or `Counterexamples` gives a run or a log that
shows it, and the exact condition is proved for all of them.

- Commit asks whether an operation landed since the restore began, and flips in a second transaction
  (`worker/src/backups.ts:1319-1348`). A push between the two is acknowledged and then in neither the live
  epoch nor the undo (`Races.PushLostAtFlip`). Whatever happens between the question and a flip that goes
  through, the undo is there after exactly when it was there and was not deleted since, and is whole exactly
  when no push landed a row in between (`Cutover.CommitKeepsIff`); nothing is lost exactly then
  (`Cutover.CommitLosesIff`).
- Begin reads the repository, the restores in flight, its backup and the next epoch, captures its undo, and
  writes in one more transaction that asks none of it again (`worker/src/backups.ts:539`, `647-660`, `752-766`,
  `779-815`). Two can begin (`Races.TwoBegins`); one can begin from an epoch the repository has left
  (`Races.StaleBegin`), or without its backup or its undo (`Races.BeginWithout`). The tables stay true exactly
  when none of that has happened (`Invariant.BeginKeepsIff`).
- Deleting a backup asks whether a restore in flight uses it, and deletes in a second statement
  (`worker/src/backups.ts:473-492`). A restore that begins between the two loses its source or its undo
  (`Races.DeleteAfterBegin`), and one whose undo is gone commits without one (`Races.UndoGone`). The tables stay
  true exactly when no restore in flight uses it then (`Invariant.DeleteKeepsIff`).
- Clearing the checkpoint is called safe (`worker/README.md:469-478`). It is for every request that has read
  no mark yet. One that has goes on: its write can leave a mark without the versions below it
  (`Races.ClearInFlight`), it can compute a version that is not the fold's (`Races.ClearedLoads`), and a page
  can come out empty and say nothing follows (`Races.ClearedPage`). Begin's batch is such a clear too, of the
  epoch it fills, and a stale one takes away the live epoch's (`Races.StaleBeginInFlight`). A write leaves the
  checkpoint true exactly when what it adds is true of what is there (`Checkpoint.WriteKeepsIff`), which for a
  step whose reads held is when the versions it does not bring are (`Checkpoint.LandsIffHeld`). A read is right
  exactly when the versions of the fold it is after are there (`FoldStore.ReadHoldsIff`, `Pages.PagesTrueIff`).
  Where nothing takes away what a request has read both always are (`Runs.CheckpointUntouched`,
  `Runs.QueriesAgree`).
- An orphan end is said never to overwrite a real end, its fields kept as one unit
  (`src/core/cloud/attempt-ends.ts:17`, `117-128`). One of the seven, `endedAtSource`, is lost all the same when
  what arrives names it half in each spelling (`AttemptEnds.OddKeyTakesSource`): the rule drops a field's two
  spellings and the fold respells a third. Everything else stays, and that field too exactly when nothing does
  (`AttemptEnds.RealEndStands`, `AttemptEnds.PauseLeavesEnd`).
- A restored epoch is said to fold to exactly the state that was backed up (`worker/src/fold.ts:600-612`,
  `716-731`). It does exactly when every entity returns (`RoundTrip.RestoreFoldsBack`): an entity created
  and later replaced loses its create's time and actor, one created by no actor loses its time, a state
  holding a field in two spellings loses one, and a staged revision is settled again, so an edited one can
  displace another. It does for every log `Revisions.TidyLogRestores` describes.
- Live numbers of a document stay distinct exactly while no operation writes a revision nobody created,
  under another spelling of a number that is held (`Revisions.DistinctIff`, `Counterexamples.AliasDoublesNumber`).

## Model

| member | source | states |
|---|---|---|
| Placement.FirstFree | src/core/cloud/revision-placement.ts:38-44 | the number answered is free, at or above the claim, and every number between is taken |
| Placement.SettleTakesLeastFree | src/core/cloud/revision-placement.ts:98-119 | a revision that is placed takes the least number from its claim upward that no live revision of its document holds |
| Placement.DroppedIff | src/core/cloud/revision-placement.ts:90-119 | a revision's create is dropped exactly when a live revision of its document has the same body, and the same author where both name one, at the number it claims or above; a moved one also at the number it was written as or above |
| Placement.PutBackIsPlaced | src/core/cloud/revision-placement.ts:90-94 | a document put back to an earlier text gets a new revision that says that text |
| Placement.PlacedSays | src/core/cloud/revision-placement.ts:51-80 | a placed revision says all its create did, under its number, with its own summary at the number it was written as, and elsewhere the move from that number, whatever it was moved through |
| Placement.SummaryAtTwice | src/core/cloud/revision-placement.ts:51-80 | placing a moved revision again says the same thing about it |
| Placer.RevisionPlacer.Place | worker/src/fold-revisions.ts:244-343 | from runs of held numbers, body keys and confirmed bodies, overlaid with what the step has folded, the answer is the literal rule over every revision of the whole fold, or names what must be read |
| Placer.RevisionPlacer.Walk | worker/src/fold-revisions.ts:298-332 | the number found is the first the whole fold does not hold, reading only slots, runs and memory |
| Placer.RevisionPlacer.Same | worker/src/fold-revisions.ts:261-296 | a revision is answered as held exactly when some live revision of the whole fold at or above its floor is the same; a candidate matched by digest is confirmed on its body |
| Placer.HeldWhere | worker/src/fold-revisions.ts:298-332 | where a number is held: by memory, by a stored key memory lacks, or by the base |
| Overlay.ObserveTrue | worker/src/fold-revisions.ts:229-242 | after a revision changed and was observed, the index by number and body is that of what the step now holds: no entry of what the revision was is left |
| Overlay.Build | worker/src/fold-revisions.ts:345-355 | the index built when a document is first asked for lists exactly its revisions in memory, live ones under their number and body |
| Overlay.HeldInMemory | worker/src/fold-revisions.ts:304-307 | the index lists a revision at a number exactly when a live one in memory has it |
| Placer.RevisionPlacer.Mine | worker/src/fold-revisions.ts:258-267 | of the revisions listed under its body, the lowest numbered that is the one arriving, and none exactly when memory holds none |
| Revisions.DistinctIff | worker/README.md:308-318 | an operation keeps the live numbers of every document distinct exactly when it is not a write of an uncreated revision at a number another spelling of it holds |
| Revisions.DistinctThroughout | worker/README.md:308-318 | so they are distinct after every log that has no such write |
| Counterexamples.AliasDoublesNumber | worker/src/fold.ts:483-506 | a log of two operations after which two live revisions of one document share a number |
| FoldRule.FoldLogAppend | worker/src/fold.ts:440-442 | folding a run onto the fold an earlier run left is folding them all at once |
| FoldRule.FoldAtFrom | worker/README.md:277-286 | the fold at a cutoff is the fold at any earlier one and the operations between |
| FoldRule.FoldAtAppend | worker/src/fold-store.ts:708-716 | the fold at a cutoff does not change when operations land above it |
| FoldRule.Settled | worker/README.md:277-286 | an entity in the fold at a cutoff is as the fold up to its own last change had it |
| FoldMeaning.TombstoneWins | worker/src/fold.ts:206-247 | a deleted entity, a revision included, stays deleted with what it said through any log no create of which settles on it; only a vocabulary's order can still lose entries |
| FoldMeaning.BeginsAgain | worker/src/fold.ts:231-247 | a create over a tombstone leaves nothing of the deleted entity but its version |
| FoldMeaning.LatestWriteHolds | worker/src/fold.ts:549-596 | a field of any entity, a revision included, keeps its latest write until an operation that settles on the entity speaks of the field in either spelling, or deletes it |
| FoldMeaning.WriteIsThere | worker/src/fold.ts:549-596 | what a write carries is in the state, its other spelling is not, and a write other than a create is recorded with its seq |
| FoldMeaning.DeleteIsDated | worker/src/fold.ts:509-511 | a delete dates the tombstone with the server's time for it, until the entity is created or deleted again |
| AttemptEnds.RealEndStands | src/core/cloud/attempt-ends.ts:97-128 | an attempt that holds a real end keeps it through any log of orphan ends, pauses and resumes, each of the seven fields in either spelling and who wrote it; `endedAtSource` exactly when nothing told the attempt a third spelling of that name |
| AttemptEnds.RealEndIsTaken | src/core/cloud/attempt-ends.ts:16-23 | a real end is taken whatever the attempt held: each field it tells is what it tells, in one spelling; the attempt then holds an orphan end exactly when the operation left out what the one before goes on saying |
| AttemptEnds.RealEndPrevails | src/core/cloud/attempt-ends.ts:16-23 | a real end told whole is what the attempt says after any orphan ends, pauses and resumes, before it or after |
| AttemptEnds.PauseLeavesEnd | src/core/cloud/attempt-ends.ts:19-22 | a pause or a resume reopens no attempt that has ended and changes none of its end's fields |
| AttemptEnds.StepTakesEnd | worker/src/fold.ts:549-596 | an operation whose end does not give way is taken whole, field by field |
| AttemptEnds.OddKeyTakesSource | src/core/cloud/attempt-ends.ts:124-127 | an operation that gives way and names `ended_atSource` takes `endedAtSource` from the attempt all the same |
| Spelling.SpellingsMeet | worker/src/fold.ts:709-714 | a name of words run together with capitals and the column of the same words with underscores are each other's spelling, and a single word is its own |
| Provenance.LogTold | worker/src/fold.ts:483-596 | of an entity that is no revision the fold remembers what the log says: how many operations named it, the last one's seq and whether it replaced, when it was deleted, who created it last and when unless a restore did, and for a field the last write while it was there, with the version that write was made on |
| Provenance.TouchRemembers | worker/src/fold.ts:505-547 | the same of any entity over one operation that settles on it |
| Provenance.OneWordTaken | worker/src/fold.ts:549-577 | a field of one word is what the operation says of it, or what it was; over a tombstone, what the create says |
| Provenance.TwoWordsTaken | worker/src/fold.ts:513-577 | a field of two words is what the operation says of it, in one spelling, or what it was; a status or kind created again is no built-in unless it says so |
| Provenance.NarrationLeft | src/core/cloud/narration.ts:13-20 | what an operation narrates is never in the state |
| Provenance.ReopenedIff | worker/src/fold.ts:592-665 | a write of an issue is remembered as reopening it exactly when it moves it from done or cancelled to another status |
| FoldMeaning.CreatedAgainHasNoPlace | worker/src/fold.ts:692-707 | a status or kind created again after it was deleted is in no order written before |
| FoldMeaning.OrderIsLeft | worker/src/fold.ts:692-707 | no other operation on another entity changes an order |
| FoldMeaning.ListedDropsOne | worker/src/fold.ts:702-707 | forgetting a place drops that entry and no other |
| FoldMeaning.ListedInOrder | worker/src/fold.ts:702-707 | and leaves the rest in order |
| FoldRun.ApplyFrame | worker/src/fold.ts:432-442 | folding a settled operation reads and changes only the entities it names |
| FoldRun.ReviveFrame | worker/src/fold-store.ts:304-540 | a create over a stored tombstone folds right from the tombstone's version alone |
| FoldRun.FoldRows | worker/src/fold-store.ts:304-540 | a step that loads only what its operations name computes the fold of the run it takes, with every changed entity, every created one, and the mark's counts; a request's first step takes at least one operation, and one that fits its limits takes them all |
| FoldRun.PlaceReading | worker/src/fold-store.ts:457-500 | the first operation of a request's first step is placed within four reads, and any other while what is left of the reads and the walk covers how far it moves, so long as its text is not keyed as another its document holds |
| FoldRun.NoCreateFits | worker/src/fold-store.ts:440-520 | operations that create no revision fit a step if there are no more than it takes |
| Placer.RevisionPlacer.NeedIsUnread | worker/src/fold-revisions.ts:244-343 | what a placement asks to read it has not read, so it asks for each of its four things at most once |
| Placer.RevisionPlacer.NeedIsUnknown | worker/src/fold-revisions.ts:244-343 | and whatever else the step has folded, short of writing a live revision of the document, it asks for nothing twice |
| FoldStore.AdvanceFold | worker/src/fold-store.ts:717-795 | step after step, whatever else the service does between their reads and writes short of a clear, what is written is true and nothing held is lost, and a request with a step to spend moves the fold on towards its target, so long as no text of the log is keyed as another its document holds |
| FoldRun.FoldOne | worker/src/fold-store.ts:440-520 | one operation of a step, placed with what it may read, folds as the literal rule does over the whole fold, or ends the step |
| FoldRun.CountKinds | worker/src/fold-store.ts:520-540 | the counts of each kind after a step are those of the fold it ends at |
| Checkpoint.ViewIsFold | worker/README.md:277-286 | at a mark, each entity's newest version at or below it is the full fold, for every entity and no other |
| Checkpoint.RunIsFlight | worker/src/fold-store.ts:717-790 | what a step writes is true of the log alone |
| Checkpoint.CheckpointAppend | worker/README.md:277-286 | operations landing above the head change nothing the checkpoint says |
| Checkpoint.ViewIffCovers | worker/README.md:277-286 | what the checkpoint says of every entity at a seq is the full fold exactly when the version each entity's last change wrote is there |
| Checkpoint.WriteKeeps | worker/README.md:283-286 | steps may commit in any order, however stale: a write keeps the checkpoint true while the mark it was folded onto is there |
| Checkpoint.WriteKeepsIff | worker/src/fold-store.ts:775-790 | whatever a step computed and whatever the checkpoint holds, its write leaves it true exactly when the versions it adds are true and its mark, if new, counts the fold and finds every entity's version |
| Checkpoint.LandsIffHeld | worker/README.md:469-478 | for a step that saw all it read, that is exactly when the version of every entity it did not change is still there, cleared in between or not |
| Races.ClearInFlight | worker/README.md:469-478 | a run in which the checkpoint is cleared before a step's write, which then leaves a mark an entity has no version at |
| Races.StaleBeginInFlight | worker/src/backups.ts:779-785 | a run in which a stale begin takes away the live epoch's checkpoint before a step's write, which then does the same |
| Races.ClearedLoads | worker/src/fold-store.ts:717-790 | a step that read its mark before a clear and what it folds onto after computes a version that is not the fold's |
| Races.ClearedPage | worker/src/fold-store.ts:1162-1195 | a page whose mark was read before a clear and whose list after is empty and says nothing follows, of a fold that holds an entity |
| FoldStore.ReadsAgree | worker/src/fold-store.ts:717-790 | queries spread over any time in which nothing was cleared answer as if they had been made at once |
| FoldStore.ReadHoldsIff | worker/src/fold-store.ts:717-790 | a later query answers with the fold an earlier one was after exactly when every version of that fold is there |
| FoldStore.MarkAtOrBelow | worker/src/fold-store.ts:173-190 | the mark answered is the newest at or below the seq |
| FoldStore.ReadRows | worker/src/fold-store.ts:738-766 | a step reads the operations from its mark to where it ends, none skipped, and ends at the target only when nothing below it is left |
| FoldStore.ComputeStep | worker/src/fold-store.ts:717-790 | from any mark read, what a step will write is the run of the operations after it over what later queries loaded; with nothing cleared between it is true and moves the fold on, and a request's first step writes something so long as no text of the log is keyed as another its document holds |
| FoldStore.FoldTail | worker/src/fold-store.ts:974-1035 | the newest mark at or below any cutoff and the operations after it, read by queries one after another, make the fold of the log prefix; a tail that fits is folded whole, and of one that does not at least one operation is |
| Pages.CandidatesSuffice | worker/src/fold-store.ts:1162-1255 | the first entities of a mark and those the tail made are enough to serve a page of the whole fold |
| Pages.FoldedPage | worker/src/fold-store.ts:1162-1255 | read by five queries one after another with nothing cleared between, a page at any cutoff is the next entities of the fold of the log prefix in key order, as many as fit and no fewer, with what they are there, and says truly whether more follow; it is answered whenever the operations since the newest mark fit one step, and otherwise the request writes a mark nearer the cutoff |
| Pages.AskForPage | src/core/cloud/client.ts:556-640 | a client that asks again is served: whatever else the service does between any two statements short of a clear, one of its requests answers the page of the fold at its cutoff |
| Pages.PagesTrueIff | worker/src/fold-store.ts:1175-1195 | every page cut from a list is a page of the fold exactly when the list has every entity of it as it is |
| Pages.RestorePage | worker/src/fold-store.ts:1067-1135 | read by four queries one after another with nothing cleared between, a restore's page is the next entities in stage order, as many as fit and no fewer, with what they are |
| Pages.RestorePageContinues | worker/src/backups.ts:929-977 | the page after the last entity staged is the next of the restore order: none skipped, none staged again |
| Listing.WalkIsPrefix | worker/src/snapshot.ts:176-190 | pages read one after another from the last key served are a prefix of the list, however they are cut |
| Listing.SortedUnique | worker/src/fold-store.ts:150-166 | a set has one listing in an order |
| OpLog.LandedSlots | worker/src/push.ts:258-300 | what a batch lands takes increasing slots of its reserved window, in its epoch |
| OpLog.LandedIds | worker/src/push.ts:258-300 | a batch lands exactly the ids the epoch lacked |
| OpLog.LandedKeepsOnce | worker/src/push.ts:258-300 | no id is ever stored twice in an epoch, duplicates inside the batch included |
| OpLog.LandedIsDraft | worker/src/push.ts:258-300 | each row landed is one of the batch's operations, field by field, in its own slot, with the server's time |
| OpLog.LandedWhich | worker/src/push.ts:258-300 | an operation's slot is taken exactly when neither the epoch nor an earlier operation of the batch has its id |
| Runs.PushedDelete | worker/src/fold.ts:509-511 | a delete that is pushed and lands leaves a tombstone dated with the time of the push |
| OpLog.NothingLands | worker/README.md:152-182 | a batch the epoch holds already lands nothing |
| OpLog.PageIsBetween | worker/src/pull.ts:73-128 | a page is every operation from the cursor to the cursor it hands out |
| OpLog.PullIsExact | worker/README.md:174-182 | over any number of pages and any growth between them, what was pulled is the log between the first cursor and the last |
| Transactions.CountEntities | worker/src/fold-store.ts:145-150 | a mark's total is the number of entities of any fold it counts |
| Staging.TurnLands | worker/src/backups.ts:1071-1206 | a stage turn writes exactly what is left of its chunk, in order, however stale the progress it read |
| Invariant.PushKeeps | worker/src/push.ts:229-372 | a push, taken or refused, keeps every table true |
| Invariant.WriteFoldKeeps | worker/src/fold-store.ts:775-790 | a fold step's write keeps every table true |
| Invariant.WriteFoldKeepsIff | worker/src/fold-store.ts:775-790 | whatever a step computed, its batch keeps every table true exactly when what it adds is true |
| Invariant.CaptureIsTrue | worker/src/backups.ts:333-404 | a backup's row records how many entities, of which kinds and from how many operations the fold at its cutoff has, even if the mark it was read from is gone |
| Invariant.KeptAppend | worker/src/backups.ts:313-320 | the fold a backup stands for is fixed the moment its row is written |
| Invariant.DeleteKeepsIff | worker/src/backups.ts:488-492 | the delete keeps every table true exactly when no restore in flight reads the backup or would be undone by it |
| Invariant.BeginKeepsIff | worker/src/backups.ts:779-815 | begin's batch keeps every table true exactly when no other restore is in flight, the epoch has not moved, and its backup and its undo are still there |
| Invariant.StageKeeps | worker/src/backups.ts:1071-1226 | a stage turn, stale, concurrent or late, keeps every table true |
| Invariant.StageKeepsIff | worker/src/backups.ts:1071-1226 | whatever a turn's batch holds, it keeps every table true exactly when what lands carries the staged entities further in restore order |
| Invariant.TurnStages | worker/src/backups.ts:1071-1206 | a turn's rows are the next entities of the backup in restore order after those staged |
| Invariant.CountIsTrue | worker/src/backups.ts:585-613 | progress counted from where it was recorded is the number of rows staged |
| Invariant.RecordKeeps | worker/src/backups.ts:1208-1226 | recording progress in the turn's transaction keeps it exact |
| Invariant.FlipKeeps | worker/src/backups.ts:1336-1348 | the flip keeps every table true |
| Invariant.FoldVocabulary | worker/src/vocabulary.ts:1-20 | a fold holds no entity of a vocabulary its log does not |
| Service.StepKeepsIff | worker/README.md:144-172 | a step the code takes keeps the invariant if and only if it is orderly: a begin nothing disturbed, a delete of a backup no restore uses, and writes that are true |
| Service.HeldIsOrderly | worker/README.md:283-286 | what no clear came upon is orderly by itself, however stale |
| Service.RunKeepsIff | worker/README.md:144-172 | the tables stay true all through a trace of steps the code takes if and only if every one is orderly |
| Service.CalmIsRun | worker/README.md:144-172 | so they do in every trace in which no request goes on that a clear came upon, no begin is disturbed and no backup in use is deleted |
| Service.UnspoiledIsRun | worker/README.md:144-172 | a trace no begin, delete or write of which found things other than as it had read them was orderly all along, so every table is true at its end |
| Service.ReachableInv | worker/README.md:144-172 | every state an orderly run of the empty service leads to satisfies the invariant of all the tables together |
| Traces.TraceSound | worker/README.md:152-182 | every trace keeps the log sound, a restore filling the epoch after its own, an undo at the epoch and head its restore began at, and what requests under way have read; and only adds to the log |
| Traces.TracePartIff | worker/README.md:277-286 | table by table, whatever becomes of the others: the checkpoints stay true all through a trace exactly when each write of a step is true where it lands, the backups exactly when each capture records its fold, and the log's one vocabulary exactly when each turn's rows are of it |
| Traces.HeldTrace | worker/README.md:283-286 | so a table of which nothing torn is written is true all through a trace |
| Traces.BeginFolds | worker/src/backups.ts:766-785 | however stale a begin, the mark its epoch's checkpoint starts at is true |
| Runs.CheckpointRefinesFold | worker/README.md:277-286 | after every trace of the empty service each of whose steps wrote what was true where it landed, whatever begins, deletes, captures and turns did, each version row is the fold of the log up to its seq and at every mark the newest versions are the full fold; and the checkpoints are true throughout only then |
| Runs.CheckpointHeld | worker/README.md:277-286 | so it is after every trace in which no step landed whose mark was taken away under it |
| Runs.CheckpointUntouched | worker/README.md:283-286 | in particular after every trace in which nothing is cleared and no begin takes away what a request has read, whatever other begins, deletes, captures and turns do |
| Runs.QueriesAgree | worker/src/fold-store.ts:717-790 | along any such trace that does not clear an epoch's checkpoint it only grows, and a read at a mark answers throughout with the fold of the log there |
| Runs.LogInEveryTrace | worker/README.md:152-182 | in every trace seqs are unique, increasing and at or below the head, and an id is stored once in an epoch |
| Runs.TraceOnward | worker/README.md:174-182 | along every trace rows are only added above the head, and the head, the epoch and a claimed vocabulary are never taken back |
| Traces.FoldOnward | worker/src/backups.ts:313-320 | the fold at a cutoff the head has passed never changes, however the tables grow |
| Runs.RestoreAlwaysAdmitted | worker/src/backups.ts:864-921 | after every trace no turn of which landed a row of another vocabulary and every capture of which was true, the vocabulary check of a restore neither refuses nor claims |
| Runs.JudgeIs | worker/src/backups.ts:899-908 | a backup is refused exactly when it holds both kinds, or the other kind than the repository's; claims for an unclaimed one; and is admitted otherwise |
| Runs.HubOrWorkspace | worker/README.md:217-230 | a repository stores registrations and cross links and nothing else, or neither, in every trace no torn turn of which staged |
| Runs.HeldIsAdmitted | worker/src/backups.ts:864-921 | so it does after every trace in which nothing torn was staged or captured |
| Runs.PushLandsAll | worker/src/push.ts:199-223 | a push adds to its epoch exactly the ids it lacked and to no other epoch, or when the reservation does not match changes nothing |
| Runs.PushTwice | worker/README.md:174-182 | once a batch was taken, sending it again at any later state stores nothing |
| Runs.LaterEpochStores | worker/README.md:184-201 | an id an epoch lacks is stored in its own slot, whatever older epochs hold |
| Runs.PullOverTrace | worker/README.md:174-182 | a cursor-paged pull over any trace delivers each operation once and in order |
| Runs.LastPage | worker/src/pull.ts:73-128 | a page short of its limit has reached the end of the log |
| Runs.SnapshotOverTrace | worker/src/snapshot.ts:101-118 | a snapshot paged at a pinned cutoff over many requests, each page answered by queries between which its epoch's checkpoint is not cleared, is exactly the fold at the cutoff, each entity once and in key order |
| Runs.PageIsTrue | worker/src/fold-store.ts:1162-1255 | a page answered along a trace is true of the fold at its cutoff |
| Runs.SnapshotSoFar | worker/src/snapshot.ts:107-114 | wherever a snapshot stands it has served the first of the fold, none skipped and none twice |
| Runs.JoinIsReplay | worker/README.md:339-343 | folding what is pulled after a snapshot onto the entities its pages carried gives every entity as the fold of the log from its start has it |
| Cutover.StagedUnseen | worker/src/backups.ts:46-53 | in every state the service can be in no turn shows a staged row in an epoch a reader can be in |
| Cutover.ProgressIsExact | worker/src/backups.ts:585-613 | what is staged is the first of the backup's entities in restore order, as many as the count says and no more than it holds |
| Cutover.FreshTurnAdvances | worker/src/backups.ts:529-583 | a turn that read the present count stages its whole chunk, so what is left goes down by it |
| Cutover.CheckedIsWhole | worker/src/backups.ts:577-582 | a restore that may flip has staged every entity of its backup once, in restore order |
| Cutover.FlipFoldsBack | worker/src/backups.ts:21-31 | the fold of the epoch that goes live is the fold of the backup at its cutoff exactly when every entity of the backup returns |
| Cutover.RestoreFinishes | worker/src/backups.ts:1041-1348 | a restore in whose way no operation has come can always be finished: a run stages what is left, asks what a commit asks and flips, and the live epoch then holds every entity of the backup once in restore order, folding to it exactly when every one returns |
| Cutover.ClaimsKeepOrder | worker/src/backups.ts:1009-1027 | of two entities whose claims the old log ordered, the restored log holds the first claim first |
| Claims.ClaimOfLog | worker/src/fold.ts:753-758 | a live issue, project or vocabulary order is staged by the last operation that wrote its identifier, slug or order while it was there, else by its create, and first when the log has neither |
| Cutover.ContestedKeepOrder | worker/src/backups.ts:1009-1027 | of two such entities the one whose claim the old log made first is staged first, so what they contest goes where it went |
| Cutover.CommitKeepsIff | worker/src/backups.ts:1285-1348 | whatever the service does between commit's question and a flip that goes through, the undo is there after exactly when it was there at the question and was not deleted since, and if there holds the whole log of the epoch left behind, and so its fold, exactly when no push landed a row in it |
| Cutover.CommitLosesIff | worker/src/backups.ts:1319-1348 | every operation of the epoch left behind is in what the undo holds or in the epoch now live exactly when no push landed a row since the question and the undo was not deleted, or there was none to keep |
| Races.PushLostAtFlip | worker/src/backups.ts:1319-1348 | a run from the empty service after which an acknowledged operation is in neither the live epoch nor the undo |
| Races.StaleBegin | worker/src/backups.ts:779-815 | a request begins from an epoch the repository has left: the live epoch's fold is cleared, and its restore blocks every other and cannot commit |
| Races.BeginWithout | worker/src/backups.ts:779-815 | a begin whose backup or undo was deleted since it read it goes through without it |
| Races.DeleteAfterBegin | worker/src/backups.ts:473-492 | a delete that asked before a begin takes from the restore its source or its undo |
| Races.UndoGone | worker/src/backups.ts:473-492 | with its undo deleted the restore commits all the same, and there is no way back |
| Races.TwoBegins | worker/src/backups.ts:647-660 | two requests both find none in flight and both begin |
| RoundTrip.StagedTouch | worker/src/fold.ts:716-731 | a staged operation folded into an epoch new to its entity gives the entity back exactly when its fields are spelled once and its create is kept by its verb |
| RoundTrip.SettlesAsKept | worker/src/fold.ts:716-731 | a staged revision settles as itself exactly when its summary is settled and no revision staged before it stands in its way |
| RoundTrip.RestoreFoldsBack | worker/src/fold.ts:716-731 | re-folding what a restore staged yields the backup, entity for entity, exactly when every entity of it returns |
| Revisions.TidyLogRestores | worker/src/fold.ts:716-731 | a backup at any cutoff of a log whose creates name their actor, whose revisions are only created and deleted, whose replaced entities were never created and whose fields are tidily named restores exactly |
| Revisions.MergedTidy | worker/src/fold.ts:568-577 | a write leaves no field held in both its spellings |
| Spelling.CamelOfColumn | worker/src/fold.ts:709-714 | a field name without an underscore is its column's other spelling |
| Counterexamples.ReplacedLosesItsCreate | worker/src/fold.ts:147-163 | an entity created and then replaced has a create time and actor a restore cannot keep |
| Counterexamples.NobodysCreateLosesItsTime | worker/src/fold.ts:337-338 | an entity created by no actor has a create time a restore cannot keep |
| Counterexamples.EditedRevisionDropsAnother | worker/src/fold.ts:716-731 | a log of three operations whose backup holds two revisions of which one stands in the way of the other's restore |
| Repository.Repository.InsertAll | worker/src/push.ts:258-300 | the inserts of a batch, a statement each, land what the epoch lacks in their own slots and say of each whether it landed |
| Repository.Repository.Push | worker/src/push.ts:229-372 | the batch is the push of the state machine; the inserts land exactly when the reservation matched, and each operation that lands is stored field by field in its own slot with the server's time, and nothing else is; the row read first is the row before |
| Repository.Repository.Describe | worker/src/push.ts:387-451 | every operation of a batch that was taken is answered with the seq of its one row, and a duplicate with that of its first application |
| Repository.Repository.Pull | worker/src/pull.ts:73-128 | a page is the next operations, as many as the limit and the budget allow and no fewer, at least one when there is one, and says truly whether more follow |
| Repository.Repository.WriteFold | worker/src/fold-store.ts:775-790 | `INSERT OR IGNORE` of each version and of the mark is the write of the state machine |
| Repository.Repository.CaptureBackup | worker/src/backups.ts:333-404 | a capture writes its row with the mark's counts, and nothing else |
| Repository.Repository.AskDelete | worker/src/backups.ts:473-486 | the question is answered by a restore in flight that reads the backup or would be undone by it, and by none exactly when there is none |
| Repository.Repository.DeleteBackup | worker/src/backups.ts:488-492 | the delete takes the row whatever has begun since, and says whether it was there |
| Repository.Repository.BeginRestore | worker/src/backups.ts:779-815 | begin's statements are the begin of the state machine |
| Repository.Repository.StageRestore | worker/src/backups.ts:1071-1228 | a turn's statements, each with its own guard, are the stage of the state machine |
| Repository.Repository.Intruder | worker/src/backups.ts:1319-1325 | commit's question is answered by none exactly when nothing landed above the guard |
| Repository.Repository.Flip | worker/src/backups.ts:1337-1352 | commit's statements are the flip of the state machine, and it flipped exactly when the epoch had not moved |
| Publish.Directory.Remove | scripts/build-package.ts:330-334 | a tree removal killed part-way leaves part of that tree and nothing else changed |
| Publish.Directory.NewestAside | scripts/build-package.ts:360-368 | the tree answered is the newest renamed aside by a process that is gone |
| Publish.Directory.RestoreInterruptedSwap | scripts/build-package.ts:351-368 | afterwards there is a target exactly when there was one or a tree a gone build had put aside; with every older build gone it is the payload last published |
| Publish.Directory.RemoveStaleScratch | scripts/build-package.ts:319-334 | the sweep leaves no scratch of builds that are gone, and killed part-way is still safe |
| Publish.Directory.Promote | scripts/build-package.ts:292-309 | killed at any call the last payload is in place or alone aside; a failed second rename is undone, and if that fails too the payload stays aside |
| Publish.Directory.Build | scripts/build-package.ts:370-408 | wherever a build is killed or fails the target is absent or complete and the last payload is kept; one that ends leaves its own payload, or after a failure the one it found, in place unless even the undo failed |
| Publish.Directory.BuildAll | scripts/build-package.ts:370-408 | so it is over any sequence of builds, each killed anywhere |
| Polling.EventsSince | src/cli.ts:523-533 | a paged drain is one unbroken run of the log from the cursor that covers all there was when it began |
| Polling.LatestSeq | src/cli.ts:536-544 | the head answered is one the log had while it was read |
| Polling.Follow | src/cli.ts:2497-2525 | each event above the starting cursor is emitted once and in order, and a tick that met no lock has missed none committed before it |
| Polling.Turn | src/cli.ts:2023-2034 | a tick that sees the version it holds holds what a probe now would answer; after the last commit one that meets no lock ends up holding it |
| Polling.Wait | src/cli.ts:1989-2036 | over any schedule of commits and locks every tick is such a tick; `wait` ends ready only where three reads in order found the work finished, or unparked, behind no gate and unblocked, and never runs out of time once a tick that met no lock after the last commit could find that |
| Workspaces.Cache.WorkspaceFor | src/mcp.ts:151-179 | open handles are the files' own, one each; a name is answered with the file it first resolved to since the last reset |
| Workspaces.Cache.Reset | src/mcp.ts:185-196 | every handle is closed and every name will be resolved again |
| QueueLanes.GroupGated | src/mcp-queue.ts:155-184 | each gate once, in the order of the first row each holds, with its first rows and its count, and the counts between them make every gated row |
| QueueLanes.Split | src/mcp-queue.ts:135-240 | every row is counted in one lane, lanes keep effective order, and under strict no row but the expected one is takeable |
| QueueLanes.HeadIsFirst | src/mcp-queue.ts:140-147 | the expected row is the first eligible one of the plan |
| QueueLanes.NoHead | src/mcp-queue.ts:140-147 | and none is expected when the plan has no eligible row |
| QueueLanes.LaneInOrder | src/mcp-queue.ts:149-153 | a lane is the rows of its eligibility in effective order |
| QueueLanes.HeldInOrder | src/mcp-queue.ts:155-184 | what a gate holds is the gated rows behind it in effective order |
| Timeline.SortIsStable | src/mcp-progress.ts:160-163 | the sort orders by time with ends last, loses nothing, and keeps the order of ties |
| Timeline.InOrderEndsLast | src/mcp-progress.ts:160-163 | which is that an ended or interrupted entry has nothing of another kind after it at its instant |
| Timeline.Progress | src/mcp-progress.ts:92-190 | every kept transition, the derived end and each comment of the attempt that no milestone points at is an entry once, and nothing else is; an end comes after all else of its instant, ties keep their order, and the newest twenty are shown and the rest counted |

## Left out

- HTTP, authentication, members, leases, rate limits, retention, purge and logging.
- The refusal of a batch that repeats an id or mixes vocabularies before any statement (`worker/src/push.ts:139-197`): a push is modelled from its transaction on, where duplicates inside a batch are absorbed and a batch is of one vocabulary.
- Operation ids as hashes: a device's ids and the ones a restore mints are kept apart by construction, and no two collide.
- Inline backups, written by an older service, and protocol and schema versions.
- Operators' edits of `ops` and `restores`, and an epoch left over from a restore abandoned by hand. Clearing the checkpoint is modelled.
- The two statements of an operator's clear, of the versions and of the marks, are one step.
- The estimates behind budgets: a step, a page and a turn take any prefix their limits allow.
- FoldStore.ComputeStep: promises a true write while nothing is cleared between its reads, and otherwise that it is the run of the operations over what it loaded. In the state machine what a step, a capture or a turn computes from reads a clear fell among may be anything, and `Service.Orderly` is when that does no harm. All a step's loads are one query's answer; `FoldStore.ReadsAgree` is why they may be several.
- Pages.AskForPage: asks however often it takes, where the client's patience for a page ends after some answers and some time.
- Placement.PutBackIsPlaced: says it of a revision no renumbering moved. One that was moved is held already wherever a revision like it stands from the number it was written as (`Placement.DroppedIff`).
- FoldRun.PlaceReading: promises a placement only while the text arriving is not keyed as another its document holds, and beyond a step's first operation while nothing in the step has written a live revision of the document. A collision costs a read more for each candidate it adds, and enough of them would hold the fold where it is.
- FoldStore.AdvanceFold: promises progress on the same condition as `FoldRun.PlaceReading`, and so does `FoldStore.ComputeStep`.
- Service.ReachableInv: is of all the tables together, in states orderly steps lead to. After a step that is not orderly what is proved is table by table (`Traces.TracePartIff`): of the log, the checkpoints, the backups, the vocabulary and what a flip keeps, and nothing more of what a disturbed restore stages.
- JSON as bytes: key order, escapes and numbers other than integers. A summary that a renumbering rewrote is kept parsed, so a text written by hand in that form is read as one.
- Revision numbers below zero. The other ways of writing a number are kept as spellings of it.
- The device's own applier (`src/core/cloud/apply.ts`): joining and replaying are compared under the service's fold.
- Polling.Wait: runs any number of ticks, not forever, and so does `Polling.Follow`; hooks, output and exit codes are left out.
- Publish.Directory.Build: one build at a time, by a process whose id no older build's directory carries.
- The catalogue builder, the hub overview, inbox and list paging, and every view's text.
