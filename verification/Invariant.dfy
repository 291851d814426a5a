/** What every reachable state of the service satisfies, table by table, and what landing rows keeps of it. */
module Invariant {
  import opened Types
  import opened FoldRule
  import opened FoldRun
  import opened Checkpoint
  import opened FoldStore
  import opened Listing
  import opened Pages
  import opened OpLog
  import opened Staging
  import opened Transactions

  // ----- The log --------------------------------------------------------------------------

  /** One primary key, one row per id in an epoch, one vocabulary, and every seq reserved. */
  ghost predicate LogTrue(repo: Repo, ops: seq<Op>) {
    && Increasing(ops) && AllAbove(ops, 0) && AllAtMost(ops, repo.lastSeq)
    && IdsOnce(ops)
    && OneVocabulary(ops, repo.vocabulary)
    && (forall i | 0 <= i < |ops| :: ops[i].epoch <= repo.epoch + 1)
  }

  ghost predicate OneVocabulary(ops: seq<Op>, vocabulary: Option<Vocabulary>) {
    forall i | 0 <= i < |ops| :: vocabulary == Some(VocabularyOf(ops[i].key))
  }

  lemma EpochLog(repo: Repo, ops: seq<Op>, epoch: nat)
    requires LogTrue(repo, ops)
    ensures IsLog(Log(ops, epoch)) && AllAtMost(Log(ops, epoch), repo.lastSeq)
  {
    LogIncreasing(ops, epoch);
    LogBounds(ops, epoch, 0, repo.lastSeq);
  }

  // ----- The tables derived from it -------------------------------------------------------

  ghost predicate FoldsTrue(folds: map<nat, Checkpoint>, ops: seq<Op>, head: nat) {
    forall epoch | epoch in folds :: CheckpointTrue(folds[epoch], Log(ops, epoch), head)
  }

  /** Fold steps that have folded and not yet written. */
  type Flights = set<(nat, Flight)>

  ghost predicate FlightsTrue(flights: Flights, folds: map<nat, Checkpoint>, ops: seq<Op>, head: nat) {
    forall f | f in flights :: FlightTrue(f.1, Log(ops, f.0), head) && Readable(CheckpointOf(folds, f.0), f.1.from)
  }

  /** A backup's row records the fold of its epoch at its cutoff. */
  ghost predicate BackupTrue(backup: Backup, log: seq<Op>, head: nat) {
    && backup.cutoff <= head && backup.opCount == |UpTo(log, backup.cutoff)|
    && KindsTrue(backup.kinds, FoldAt(log, backup.cutoff).Keys)
    && backup.entityCount == |FoldAt(log, backup.cutoff)|
  }

  ghost predicate BackupsTrue(backups: map<string, Backup>, ops: seq<Op>, head: nat) {
    forall id | id in backups :: BackupTrue(backups[id], Log(ops, backups[id].epoch), head)
  }

  // ----- Restores -------------------------------------------------------------------------

  /** The fold a backup is a record of. */
  function Kept(ops: seq<Op>, backup: Backup): Fold {
    FoldAt(Log(ops, backup.epoch), backup.cutoff)
  }

  /** Progress, recorded or counted, is the number of rows in the new epoch. */
  ghost predicate ProgressTrue(r: Restore, ops: seq<Op>, head: nat) {
    && r.into == r.from + 1 && r.guard <= head && AllAbove(Log(ops, r.into), r.guard)
    && (r.stagedSeq.Some? ==> r.guard <= r.stagedSeq.value <= head && r.stagedCount == |UpTo(Log(ops, r.into), r.stagedSeq.value)|)
  }

  /** The new epoch holds the first entities of the backup, in restore order, and nothing else. */
  ghost predicate Staged(ops: seq<Op>, r: Restore, rid: string, backup: Backup, less: KeyOrder)
    requires StrictOrder(less)
  {
    var log, fold := Log(ops, r.into), Kept(ops, backup);
    |log| <= |fold| && StagedRun(log, r.into, rid, fold, RestoreOrder(fold, less)[..|log|])
  }

  /** A restore in flight fills the epoch after the live one from a backup, with its undo kept. */
  ghost predicate StagingTrue(r: Restore, rid: string, repo: Repo, ops: seq<Op>, backups: map<string, Backup>,
                              less: KeyOrder)
    requires StrictOrder(less)
  {
    && r.from == repo.epoch && r.source in backups && r.undo in backups
    && backups[r.undo].epoch == r.from && backups[r.undo].cutoff == r.guard
    && r.entityCount == backups[r.source].entityCount
    && Staged(ops, r, rid, backups[r.source], less)
  }

  ghost predicate RestoreTrue(r: Restore, rid: string, repo: Repo, ops: seq<Op>, backups: map<string, Backup>,
                              less: KeyOrder)
    requires StrictOrder(less)
  {
    && ProgressTrue(r, ops, repo.lastSeq)
    && (if r.committed then r.into <= repo.epoch else StagingTrue(r, rid, repo, ops, backups, less))
  }

  ghost predicate RestoresTrue(restores: map<string, Restore>, repo: Repo, ops: seq<Op>, backups: map<string, Backup>,
                               less: KeyOrder)
    requires StrictOrder(less)
  {
    forall rid | rid in restores :: RestoreTrue(restores[rid], rid, repo, ops, backups, less)
  }

  /** At most one restore is in flight. */
  ghost predicate OneStaging(restores: map<string, Restore>) {
    forall a, b | a in restores && b in restores :: IsStaging(restores, a) && IsStaging(restores, b) ==> a == b
  }

  /** The epoch after the live one is empty unless a restore is filling it. */
  ghost predicate NothingAhead(t: Tables) {
    Filling(t.restores, t.repo.epoch + 1) || Log(t.ops, t.repo.epoch + 1) == []
  }

  ghost predicate TablesTrue(t: Tables, less: KeyOrder)
    requires StrictOrder(less)
  {
    && LogTrue(t.repo, t.ops)
    && FoldsTrue(t.folds, t.ops, t.repo.lastSeq)
    && BackupsTrue(t.backups, t.ops, t.repo.lastSeq)
    && RestoresTrue(t.restores, t.repo, t.ops, t.backups, less)
    && OneStaging(t.restores) && NothingAhead(t)
  }

  lemma OthersCommitted(restores: map<string, Restore>, rid: string, other: string)
    requires OneStaging(restores) && IsStaging(restores, rid) && other in restores && other != rid
    ensures restores[other].committed
  {
    assert IsStaging(restores, other) ==> other == rid;
  }

  // ----- Rows landing above the head ------------------------------------------------------

  lemma LogTrueAppend(repo: Repo, ops: seq<Op>, more: seq<Op>, repoNow: Repo, epoch: nat)
    requires LogTrue(repo, ops) && IdsOnce(ops + more)
    requires InWindow(more, epoch, repo.lastSeq, repoNow.lastSeq) && repo.lastSeq <= repoNow.lastSeq
    requires repo.epoch == repoNow.epoch && epoch <= repo.epoch + 1
    requires OneVocabulary(ops, repoNow.vocabulary) && OneVocabulary(more, repoNow.vocabulary)
    ensures LogTrue(repoNow, ops + more)
  {
  }

  /** Rows of one epoch above the head are appended to its log and change no other. */
  lemma OthersUnchanged(ops: seq<Op>, more: seq<Op>, epoch: nat, base: nat, end: nat, other: nat)
    requires InWindow(more, epoch, base, end)
    ensures Log(ops + more, other) == if other == epoch then Log(ops, other) + more else Log(ops, other)
    ensures exists rest :: Log(ops + more, other) == Log(ops, other) + rest && AllAbove(rest, base)
  {
    LogAppend(ops, more, other);
    forall op | op in more ensures op.epoch == epoch {
      var i :| 0 <= i < |more| && more[i] == op;
    }
    LogOfOne(more, epoch, other);
    var rest := if other == epoch then more else [];
    assert Log(ops + more, other) == Log(ops, other) + rest && AllAbove(rest, base);
  }

  /** Rows of one epoch in slots reserved above the head. */
  ghost predicate LandsAbove(more: seq<Op>, epoch: nat, head: nat, headNow: nat) {
    InWindow(more, epoch, head, headNow) && head <= headNow
  }

  lemma FoldsAppend(folds: map<nat, Checkpoint>, ops: seq<Op>, more: seq<Op>, epoch: nat, head: nat, headNow: nat)
    requires FoldsTrue(folds, ops, head) && LandsAbove(more, epoch, head, headNow)
    ensures FoldsTrue(folds, ops + more, headNow)
  {
    forall e | e in folds ensures CheckpointTrue(folds[e], Log(ops + more, e), headNow) {
      OthersUnchanged(ops, more, epoch, head, headNow, e);
      var rest :| Log(ops + more, e) == Log(ops, e) + rest && AllAbove(rest, head);
      CheckpointAppend(folds[e], Log(ops, e), rest, head, headNow);
    }
  }

  lemma FlightsAppend(flights: Flights, folds: map<nat, Checkpoint>, ops: seq<Op>, more: seq<Op>, epoch: nat,
                      head: nat, headNow: nat)
    requires FlightsTrue(flights, folds, ops, head) && LandsAbove(more, epoch, head, headNow)
    ensures FlightsTrue(flights, folds, ops + more, headNow)
  {
    forall f | f in flights ensures FlightTrue(f.1, Log(ops + more, f.0), headNow) {
      OthersUnchanged(ops, more, epoch, head, headNow, f.0);
      var rest :| Log(ops + more, f.0) == Log(ops, f.0) + rest && AllAbove(rest, head);
      FlightAppend(f.1, Log(ops, f.0), rest, head, headNow);
    }
  }

  /** What a backup records is fixed the moment its row is written. */
  lemma KeptAppend(backup: Backup, ops: seq<Op>, more: seq<Op>, epoch: nat, head: nat, headNow: nat)
    requires backup.cutoff <= head && LandsAbove(more, epoch, head, headNow)
    ensures Kept(ops + more, backup) == Kept(ops, backup)
    ensures UpTo(Log(ops + more, backup.epoch), backup.cutoff) == UpTo(Log(ops, backup.epoch), backup.cutoff)
  {
    OthersUnchanged(ops, more, epoch, head, headNow, backup.epoch);
    var rest :| Log(ops + more, backup.epoch) == Log(ops, backup.epoch) + rest && AllAbove(rest, head);
    UpToAppend(Log(ops, backup.epoch), rest, backup.cutoff);
  }

  lemma BackupsAppend(backups: map<string, Backup>, ops: seq<Op>, more: seq<Op>, epoch: nat, head: nat, headNow: nat)
    requires BackupsTrue(backups, ops, head) && LandsAbove(more, epoch, head, headNow)
    ensures BackupsTrue(backups, ops + more, headNow)
  {
    forall id | id in backups ensures BackupTrue(backups[id], Log(ops + more, backups[id].epoch), headNow) {
      KeptAppend(backups[id], ops, more, epoch, head, headNow);
    }
  }

  lemma ProgressAppend(r: Restore, ops: seq<Op>, more: seq<Op>, epoch: nat, head: nat, headNow: nat)
    requires ProgressTrue(r, ops, head) && LandsAbove(more, epoch, head, headNow)
    ensures ProgressTrue(r, ops + more, headNow)
  {
    hide UpTo, Log, InWindow;
    OthersUnchanged(ops, more, epoch, head, headNow, r.into);
    var rest :| Log(ops + more, r.into) == Log(ops, r.into) + rest && AllAbove(rest, head);
    if r.stagedSeq.Some? {
      UpToAppend(Log(ops, r.into), rest, r.stagedSeq.value);
    }
  }

  /** Rows landing outside the epoch a restore fills change nothing it staged. */
  lemma StagedElsewhere(ops: seq<Op>, r: Restore, rid: string, backup: Backup, less: KeyOrder,
                        more: seq<Op>, epoch: nat, head: nat, headNow: nat)
    requires StrictOrder(less) && Staged(ops, r, rid, backup, less)
    requires backup.cutoff <= head && LandsAbove(more, epoch, head, headNow) && epoch != r.into
    ensures Staged(ops + more, r, rid, backup, less)
  {
    OthersUnchanged(ops, more, epoch, head, headNow, r.into);
    KeptAppend(backup, ops, more, epoch, head, headNow);
  }

  lemma RestoreElsewhere(r: Restore, rid: string, repo: Repo, ops: seq<Op>, backups: map<string, Backup>,
                         less: KeyOrder,
                         more: seq<Op>, epoch: nat, repoNow: Repo)
    requires StrictOrder(less) && RestoreTrue(r, rid, repo, ops, backups, less)
    requires BackupsTrue(backups, ops, repo.lastSeq)
    requires LandsAbove(more, epoch, repo.lastSeq, repoNow.lastSeq) && repo.epoch == repoNow.epoch
    requires r.committed || epoch != r.into
    ensures RestoreTrue(r, rid, repoNow, ops + more, backups, less)
  {
    ProgressAppend(r, ops, more, epoch, repo.lastSeq, repoNow.lastSeq);
    if !r.committed {
      StagedElsewhere(ops, r, rid, backups[r.source], less, more, epoch, repo.lastSeq, repoNow.lastSeq);
    }
  }

  // ----- What each transaction keeps ------------------------------------------------------

  lemma PushKeeps(t: Tables, less: KeyOrder, epoch: nat, vocabulary: Vocabulary, batch: seq<Draft>, now: int)
    requires StrictOrder(less) && TablesTrue(t, less)
    requires forall i | 0 <= i < |batch| :: VocabularyOf(batch[i].key) == vocabulary
    ensures TablesTrue(Push(t, epoch, vocabulary, batch, now), less)
  {
    hide LogTrue, FoldsTrue, BackupsTrue, RestoresTrue, OneStaging, NothingAhead, Landed, LandsAbove, IdsOf;
    if Admits(t.repo, epoch, vocabulary) {
      var after := Push(t, epoch, vocabulary, batch, now);
      var more := Landed(IdsOf(t.ops, epoch), epoch, t.repo.lastSeq, batch, now);
      PushLands(t, epoch, vocabulary, batch, now);
      FoldsAppend(t.folds, t.ops, more, epoch, t.repo.lastSeq, after.repo.lastSeq);
      BackupsAppend(t.backups, t.ops, more, epoch, t.repo.lastSeq, after.repo.lastSeq);
      RestoresElsewhere(t.restores, t.repo, t.ops, t.backups, less, more, after.repo);
      NothingLandsAhead(t, more, after);
    }
  }

  lemma NothingLandsAhead(t: Tables, more: seq<Op>, after: Tables)
    requires NothingAhead(t) && LandsAbove(more, t.repo.epoch, t.repo.lastSeq, after.repo.lastSeq)
    requires after.restores == t.restores && after.repo.epoch == t.repo.epoch && after.ops == t.ops + more
    ensures NothingAhead(after)
  {
    hide Log;
    OthersUnchanged(t.ops, more, t.repo.epoch, t.repo.lastSeq, after.repo.lastSeq, t.repo.epoch + 1);
  }

  /** Rows landing in the live epoch touch no restore: what is being filled is the next. */
  lemma RestoresElsewhere(restores: map<string, Restore>, repo: Repo, ops: seq<Op>, backups: map<string, Backup>,
                          less: KeyOrder,
                          more: seq<Op>, repoNow: Repo)
    requires StrictOrder(less) && RestoresTrue(restores, repo, ops, backups, less)
    requires BackupsTrue(backups, ops, repo.lastSeq)
    requires LandsAbove(more, repo.epoch, repo.lastSeq, repoNow.lastSeq) && repo.epoch == repoNow.epoch
    ensures RestoresTrue(restores, repoNow, ops + more, backups, less)
  {
    hide BackupTrue, FoldAt, Staged;
    forall rid | rid in restores ensures RestoreTrue(restores[rid], rid, repoNow, ops + more, backups, less) {
      RestoreElsewhere(restores[rid], rid, repo, ops, backups, less, more, repo.epoch, repoNow);
    }
  }

  lemma PushLands(t: Tables, epoch: nat, vocabulary: Vocabulary, batch: seq<Draft>, now: int)
    requires LogTrue(t.repo, t.ops) && Admits(t.repo, epoch, vocabulary)
    requires forall i | 0 <= i < |batch| :: VocabularyOf(batch[i].key) == vocabulary
    ensures var after := Push(t, epoch, vocabulary, batch, now);
            && LogTrue(after.repo, after.ops)
            && LandsAbove(Landed(IdsOf(t.ops, epoch), epoch, t.repo.lastSeq, batch, now), epoch, t.repo.lastSeq, after.repo.lastSeq)
  {
    var more := Landed(IdsOf(t.ops, epoch), epoch, t.repo.lastSeq, batch, now);
    LandedSlots(IdsOf(t.ops, epoch), epoch, t.repo.lastSeq, batch, now);
    LandedKeepsOnce(t.ops, epoch, t.repo.lastSeq, batch, now);
    LandedVocabulary(IdsOf(t.ops, epoch), epoch, t.repo.lastSeq, batch, now, Some(vocabulary));
    LogTrueAppend(t.repo, t.ops, more, Push(t, epoch, vocabulary, batch, now).repo, epoch);
  }

  lemma WriteFoldKeeps(t: Tables, less: KeyOrder, epoch: nat, flight: Flight)
    requires StrictOrder(less) && TablesTrue(t, less)
    requires FlightTrue(flight, Log(t.ops, epoch), t.repo.lastSeq)
    requires Readable(CheckpointOf(t.folds, epoch), flight.from)
    ensures TablesTrue(WriteFold(t, epoch, flight), less)
  {
    hide CheckpointTrue, BackupTrue, FlightTrue, FoldAt, Staged;
    EpochLog(t.repo, t.ops, epoch);
    FoldsWrite(t.folds, t.ops, t.repo.lastSeq, epoch, flight);
  }

  /** Whatever a step computed, its batch keeps the tables true exactly when what it adds is true. */
  lemma WriteFoldKeepsIff(t: Tables, less: KeyOrder, epoch: nat, flight: Flight)
    requires StrictOrder(less) && TablesTrue(t, less)
    ensures TablesTrue(WriteFold(t, epoch, flight), less)
            <==> LandsTrue(CheckpointOf(t.folds, epoch), flight, Log(t.ops, epoch), t.repo.lastSeq)
  {
    hide CheckpointTrue, BackupTrue, FlightTrue, FoldAt, Staged, LandsTrue;
    var cp := CheckpointOf(t.folds, epoch);
    EpochFold(t.folds, t.ops, t.repo.lastSeq, epoch);
    WriteKeepsIff(cp, flight, Log(t.ops, epoch), t.repo.lastSeq);
    if LandsTrue(cp, flight, Log(t.ops, epoch), t.repo.lastSeq) {
      FoldsUpdate(t.folds, t.ops, t.repo.lastSeq, epoch, WriteStep(cp, flight));
    }
    assert epoch in WriteFold(t, epoch, flight).folds;
  }

  lemma EpochFold(folds: map<nat, Checkpoint>, ops: seq<Op>, head: nat, epoch: nat)
    requires FoldsTrue(folds, ops, head)
    ensures CheckpointTrue(CheckpointOf(folds, epoch), Log(ops, epoch), head)
  {
    if epoch !in folds {
      ClearKeeps(Log(ops, epoch), head);
    }
  }

  lemma FoldsWrite(folds: map<nat, Checkpoint>, ops: seq<Op>, head: nat, epoch: nat, flight: Flight)
    requires FoldsTrue(folds, ops, head) && IsLog(Log(ops, epoch))
    requires FlightTrue(flight, Log(ops, epoch), head) && Readable(CheckpointOf(folds, epoch), flight.from)
    ensures FoldsTrue(folds[epoch := WriteStep(CheckpointOf(folds, epoch), flight)], ops, head)
  {
    EpochFold(folds, ops, head, epoch);
    WriteKeeps(CheckpointOf(folds, epoch), flight, Log(ops, epoch), head);
    FoldsUpdate(folds, ops, head, epoch, WriteStep(CheckpointOf(folds, epoch), flight));
  }

  lemma FoldsUpdate(folds: map<nat, Checkpoint>, ops: seq<Op>, head: nat, epoch: nat, cp: Checkpoint)
    requires FoldsTrue(folds, ops, head) && CheckpointTrue(cp, Log(ops, epoch), head)
    ensures FoldsTrue(folds[epoch := cp], ops, head)
  {
  }

  /** A mark some query read of an epoch: what it counts stays true, though it be cleared. */
  ghost predicate MarkOf(ops: seq<Op>, head: nat, epoch: nat, mark: Mark) {
    var log := Log(ops, epoch);
    mark.seqno <= head && MarkTrue(mark, FoldAt(log, mark.seqno), |UpTo(log, mark.seqno)|)
  }

  lemma MarkRead(folds: map<nat, Checkpoint>, repo: Repo, ops: seq<Op>, epoch: nat, mark: Mark)
    requires LogTrue(repo, ops) && FoldsTrue(folds, ops, repo.lastSeq) && IsMark(CheckpointOf(folds, epoch), mark)
    ensures MarkOf(ops, repo.lastSeq, epoch, mark)
  {
    EpochLog(repo, ops, epoch);
    EpochFold(folds, ops, repo.lastSeq, epoch);
    MarkIsTrue(CheckpointOf(folds, epoch), Log(ops, epoch), repo.lastSeq, mark);
  }

  /** A capture of a mark is a true record of the fold there. */
  lemma CaptureIsTrue(ops: seq<Op>, head: nat, backup: Backup, mark: Mark)
    requires MarkOf(ops, head, backup.epoch, mark) && Captures(backup, mark)
    ensures BackupTrue(backup, Log(ops, backup.epoch), head)
  {
    CountOfKeys(FoldAt(Log(ops, backup.epoch), mark.seqno));
  }

  lemma CountOfKeys(fold: Fold)
    ensures |fold.Keys| == |fold|
  {
  }

  /** A backup row keeps the tables true exactly when it records the fold of its epoch at its cutoff. */
  lemma CaptureKeepsIff(t: Tables, less: KeyOrder, id: string, backup: Backup)
    requires StrictOrder(less) && TablesTrue(t, less) && id !in t.backups
    ensures TablesTrue(InsertBackup(t, id, backup), less) <==> BackupTrue(backup, Log(t.ops, backup.epoch), t.repo.lastSeq)
  {
    hide LogTrue, FoldsTrue, BackupsTrue, RestoresTrue, OneStaging, NothingAhead, BackupTrue, Log;
    var after := InsertBackup(t, id, backup);
    if BackupTrue(backup, Log(t.ops, backup.epoch), t.repo.lastSeq) {
      BackupsInsert(t.backups, t.ops, t.repo.lastSeq, id, backup);
      RestoresWith(t.restores, t.repo, t.ops, t.backups, id, backup, less);
      AheadFrame(t, after);
    }
    if TablesTrue(after, less) {
      BackupIn(after.backups, t.ops, t.repo.lastSeq, id);
    }
  }

  lemma AheadFrame(t: Tables, after: Tables)
    requires NothingAhead(t) && after.ops == t.ops && after.restores == t.restores && after.repo == t.repo
    ensures NothingAhead(after)
  {
  }

  lemma BackupIn(backups: map<string, Backup>, ops: seq<Op>, head: nat, id: string)
    requires BackupsTrue(backups, ops, head) && id in backups
    ensures BackupTrue(backups[id], Log(ops, backups[id].epoch), head)
  {
  }

  lemma BackupsInsert(backups: map<string, Backup>, ops: seq<Op>, head: nat, id: string, backup: Backup)
    requires BackupsTrue(backups, ops, head) && BackupTrue(backup, Log(ops, backup.epoch), head)
    ensures BackupsTrue(backups[id := backup], ops, head)
  {
  }

  /** A restore reads no backup but its own two. */
  lemma RestoreFrame(r: Restore, rid: string, repo: Repo, ops: seq<Op>,
                     backups: map<string, Backup>, after: map<string, Backup>, less: KeyOrder)
    requires StrictOrder(less) && RestoreTrue(r, rid, repo, ops, backups, less)
    requires forall id | id in backups && Uses(r, id) :: id in after && after[id] == backups[id]
    ensures RestoreTrue(r, rid, repo, ops, after, less)
  {
    if !r.committed {
      assert Uses(r, r.source) && Uses(r, r.undo);
    }
  }

  lemma RestoresWith(restores: map<string, Restore>, repo: Repo, ops: seq<Op>, backups: map<string, Backup>,
                     id: string, backup: Backup, less: KeyOrder)
    requires StrictOrder(less) && RestoresTrue(restores, repo, ops, backups, less) && id !in backups
    ensures RestoresTrue(restores, repo, ops, backups[id := backup], less)
  {
    forall rid | rid in restores ensures RestoreTrue(restores[rid], rid, repo, ops, backups[id := backup], less) {
      RestoreFrame(restores[rid], rid, repo, ops, backups, backups[id := backup], less);
    }
  }

  lemma RestoresWithout(restores: map<string, Restore>, repo: Repo, ops: seq<Op>, backups: map<string, Backup>,
                        id: string, less: KeyOrder)
    requires StrictOrder(less) && RestoresTrue(restores, repo, ops, backups, less)
    requires forall rid | rid in restores :: !Uses(restores[rid], id)
    ensures RestoresTrue(restores, repo, ops, backups - {id}, less)
  {
    forall rid | rid in restores ensures RestoreTrue(restores[rid], rid, repo, ops, backups - {id}, less) {
      RestoreFrame(restores[rid], rid, repo, ops, backups, backups - {id}, less);
    }
  }

  /** Deleting a backup keeps the tables true exactly when no restore in flight reads it or would be undone by it. */
  lemma DeleteKeepsIff(t: Tables, less: KeyOrder, id: string)
    requires StrictOrder(less) && TablesTrue(t, less)
    ensures TablesTrue(DeleteBackup(t, id), less) <==> !InUse(t.restores, id)
  {
    hide CheckpointTrue, BackupTrue, FlightTrue, FoldAt, Staged;
    if InUse(t.restores, id) {
      var rid :| rid in t.restores && Uses(t.restores[rid], id);
      assert !RestoreTrue(t.restores[rid], rid, t.repo, t.ops, t.backups - {id}, less);
    } else {
      RestoresWithout(t.restores, t.repo, t.ops, t.backups, id, less);
      BackupsWithout(t.backups, t.ops, t.repo.lastSeq, id);
    }
  }

  lemma BackupsWithout(backups: map<string, Backup>, ops: seq<Op>, head: nat, id: string)
    requires BackupsTrue(backups, ops, head)
    ensures BackupsTrue(backups - {id}, ops, head)
  {
  }

  // ----- Beginning, staging and committing a restore --------------------------------------

  /**
   * Nothing happened, since the request read the repository, that its reads ruled out: no other
   * restore has begun, the epoch has not moved, and its backup is still there.
   */
  predicate Undisturbed(t: Tables, ticket: Ticket) {
    && (forall rid | rid in t.restores :: t.restores[rid].committed)
    && t.repo.epoch == ticket.epoch
    && ticket.source in t.backups && t.backups[ticket.source].entityCount == ticket.entityCount
  }

  /** The undo was captured at the epoch and head the request read, and is still there. */
  predicate IsUndo(t: Tables, ticket: Ticket, undo: string) {
    undo in t.backups && t.backups[undo].epoch == ticket.epoch && t.backups[undo].cutoff == ticket.guard
  }

  lemma BeginKeeps(t: Tables, less: KeyOrder, rid: string, ticket: Ticket, undo: string)
    requires StrictOrder(less) && TablesTrue(t, less) && rid !in t.restores
    requires Undisturbed(t, ticket) && IsUndo(t, ticket, undo)
    ensures TablesTrue(BeginRestore(t, rid, ticket, undo), less)
  {
    hide CheckpointTrue, BackupTrue, FlightTrue, FoldAt, Staged;
    NothingToFill(t, ticket.epoch + 1);
    UndoBelow(t.backups, t.ops, t.repo.lastSeq, undo);
    BegunFolds(t, rid, ticket, undo);
    Begun(t.repo, t.ops, t.backups, BeginRestore(t, rid, ticket, undo).restores[rid], rid, less);
    RestoresPlus(t.restores, t.repo, t.ops, t.backups, rid, BeginRestore(t, rid, ticket, undo).restores[rid], less);
    BegunAlone(t, rid, ticket, undo);
  }

  /**
   * Begin's batch asks nothing again. It keeps the tables true exactly when nothing has happened since
   * the request read them that its reads ruled out, and its undo is still there.
   */
  lemma BeginKeepsIff(t: Tables, less: KeyOrder, rid: string, ticket: Ticket, undo: string)
    requires StrictOrder(less) && TablesTrue(t, less) && rid !in t.restores
    ensures TablesTrue(BeginRestore(t, rid, ticket, undo), less) <==> Undisturbed(t, ticket) && IsUndo(t, ticket, undo)
  {
    hide CheckpointTrue, BackupTrue, FlightTrue, FoldAt, Staged;
    var after := BeginRestore(t, rid, ticket, undo);
    if TablesTrue(after, less) {
      assert RestoreTrue(after.restores[rid], rid, after.repo, after.ops, after.backups, less);
      forall other | other in t.restores ensures t.restores[other].committed {
        OthersCommitted(after.restores, rid, other);
      }
    }
    if Undisturbed(t, ticket) && IsUndo(t, ticket, undo) {
      BeginKeeps(t, less, rid, ticket, undo);
    }
  }

  lemma UndoBelow(backups: map<string, Backup>, ops: seq<Op>, head: nat, undo: string)
    requires BackupsTrue(backups, ops, head) && undo in backups
    ensures backups[undo].cutoff <= head
  {
    assert BackupTrue(backups[undo], Log(ops, backups[undo].epoch), head);
  }

  lemma BegunFolds(t: Tables, rid: string, ticket: Ticket, undo: string)
    requires FoldsTrue(t.folds, t.ops, t.repo.lastSeq) && Log(t.ops, ticket.epoch + 1) == []
    requires ticket.guard <= t.repo.lastSeq
    ensures FoldsTrue(BeginRestore(t, rid, ticket, undo).folds, t.ops, t.repo.lastSeq)
  {
    var cp := BeginRestore(t, rid, ticket, undo).folds[ticket.epoch + 1];
    FloorIsTrue(cp, Log(t.ops, ticket.epoch + 1), ticket.guard, t.repo.lastSeq);
    FoldsUpdate(t.folds, t.ops, t.repo.lastSeq, ticket.epoch + 1, cp);
  }

  lemma BegunAlone(t: Tables, rid: string, ticket: Ticket, undo: string)
    requires Undisturbed(t, ticket) && rid !in t.restores
    ensures var after := BeginRestore(t, rid, ticket, undo); OneStaging(after.restores) && NothingAhead(after)
  {
    assert IsStaging(BeginRestore(t, rid, ticket, undo).restores, rid);
  }

  lemma NothingToFill(t: Tables, into: nat)
    requires NothingAhead(t) && into == t.repo.epoch + 1 && forall rid | rid in t.restores :: t.restores[rid].committed
    ensures Log(t.ops, into) == []
  {
  }

  lemma RestoresPlus(restores: map<string, Restore>, repo: Repo, ops: seq<Op>, backups: map<string, Backup>,
                     rid: string, r: Restore, less: KeyOrder)
    requires StrictOrder(less) && RestoresTrue(restores, repo, ops, backups, less)
    requires RestoreTrue(r, rid, repo, ops, backups, less)
    ensures RestoresTrue(restores[rid := r], repo, ops, backups, less)
  {
  }

  lemma Begun(repo: Repo, ops: seq<Op>, backups: map<string, Backup>, r: Restore, rid: string, less: KeyOrder)
    requires StrictOrder(less) && Log(ops, r.into) == [] && r.guard <= repo.lastSeq
    requires r.source in backups && r.undo in backups && backups[r.undo].epoch == r.from
    requires backups[r.undo].cutoff == r.guard
    requires r == Restore(r.source, r.undo, repo.epoch, repo.epoch + 1, r.guard, backups[r.source].entityCount, false, 0, None)
    ensures RestoreTrue(r, rid, repo, ops, backups, less)
  {
    NothingStaged(ops, r, rid, backups[r.source], less);
  }

  lemma FloorIsTrue(cp: Checkpoint, log: seq<Op>, guard: nat, head: nat)
    requires log == [] && guard <= head && cp == Checkpoint(map[], map[guard := Mark(guard, 0, map[])])
    ensures CheckpointTrue(cp, log, head)
  {
  }

  lemma NothingStaged(ops: seq<Op>, r: Restore, rid: string, backup: Backup, less: KeyOrder)
    requires StrictOrder(less) && Log(ops, r.into) == []
    ensures Staged(ops, r, rid, backup, less)
  {
  }

  /** A stage turn's chunk: some of the backup's entities, from a point the turn's progress had reached. */
  ghost predicate IsTurn(ops: seq<Op>, r: Restore, rid: string, backup: Backup, less: KeyOrder, batch: seq<Draft>)
    requires StrictOrder(less)
  {
    var fold := Kept(ops, backup);
    exists from: nat, end: nat, at ::
      from <= |Log(ops, r.into)| && IsChunk(batch, r.into, rid, fold, RestoreOrder(fold, less), from, end, at)
  }

  /** A fold holds no entity of a kind its log does not name. */
  lemma {:induction false} FoldVocabulary(log: seq<Op>, vocabulary: Option<Vocabulary>)
    requires OneVocabulary(log, vocabulary)
    ensures forall key | key in FoldLog(map[], log) :: vocabulary == Some(VocabularyOf(key))
  {
    if log != [] {
      FoldVocabulary(log[..|log| - 1], vocabulary);
    }
  }

  lemma FoldOfVocabulary(ops: seq<Op>, vocabulary: Option<Vocabulary>, backup: Backup)
    requires OneVocabulary(ops, vocabulary)
    ensures forall key | key in Kept(ops, backup) :: vocabulary == Some(VocabularyOf(key))
  {
    var log := Log(ops, backup.epoch);
    var prefix := UpTo(log, backup.cutoff);
    forall i | 0 <= i < |prefix| ensures vocabulary == Some(VocabularyOf(prefix[i].key)) {
      assert prefix[i] == log[i];
      LogHas(ops, backup.epoch, log[i]);
    }
    FoldVocabulary(prefix, vocabulary);
  }

  lemma IdsOfLog(ops: seq<Op>, epoch: nat)
    ensures IdsOf(ops, epoch) == IdsOf(Log(ops, epoch), epoch)
  {
    forall op: Op ensures op in Log(ops, epoch) <==> op in ops && op.epoch == epoch {
      LogHas(ops, epoch, op);
    }
  }

  /** The ids in the epoch a restore fills are those of the entities it has staged. */
  lemma StagedPresent(ops: seq<Op>, r: Restore, rid: string, backup: Backup, less: KeyOrder)
    requires StrictOrder(less) && Staged(ops, r, rid, backup, less)
    ensures StagedSoFar(IdsOf(ops, r.into), r.into, rid, RestoreOrder(Kept(ops, backup), less), |Log(ops, r.into)|)
  {
    var log, fold := Log(ops, r.into), Kept(ops, backup);
    var list := RestoreOrder(fold, less);
    IdsOfLog(ops, r.into);
    StagedIds(log, r.into, rid, fold, list[..|log|]);
    OrderDistinct(fold, less);
    forall i | 0 <= i < |list| ensures Minted(r.into, rid, list[i]) in IdsOf(log, r.into) <==> i < |log| {
      if i < |log| {
        assert list[i] in list[..|log|];
      }
    }
  }

  /** Rows that carry the staged entities further along the same order. */
  ghost predicate StagesNext(ops: seq<Op>, r: Restore, rid: string, backup: Backup, less: KeyOrder, rows: seq<Op>)
    requires StrictOrder(less)
  {
    var n, fold := |Log(ops, r.into)|, Kept(ops, backup);
    var list := RestoreOrder(fold, less);
    n + |rows| <= |list| && StagedRun(rows, r.into, rid, fold, list[n..n + |rows|])
  }

  /** A turn's rows do. */
  lemma TurnStages(ops: seq<Op>, r: Restore, rid: string, backup: Backup, less: KeyOrder, batch: seq<Draft>, base: nat,
                   now: int)
    requires StrictOrder(less) && Staged(ops, r, rid, backup, less) && IsTurn(ops, r, rid, backup, less, batch)
    ensures StagesNext(ops, r, rid, backup, less, Landed(IdsOf(ops, r.into), r.into, base, batch, now))
  {
    hide FoldAt, Landed, StagedSoFar, StagedRun, IsChunk, Log, Left, RestoreOrder, Distinct;
    var n, fold := |Log(ops, r.into)|, Kept(ops, backup);
    var list := RestoreOrder(fold, less);
    var from: nat, end: nat, at :| from <= n && IsChunk(batch, r.into, rid, fold, list, from, end, at);
    StagedPresent(ops, r, rid, backup, less);
    ChunkLandsNext(IdsOf(ops, r.into), r.into, rid, fold, less, from, end, n, base, batch, at, now);
  }

  lemma ChunkLandsNext(present: set<OpId>, epoch: nat, rid: string, fold: Fold, less: KeyOrder, from: nat, end: nat,
                       n: nat, base: nat, batch: seq<Draft>, at: string, now: int)
    requires StrictOrder(less) && from <= n <= |fold|
    requires IsChunk(batch, epoch, rid, fold, RestoreOrder(fold, less), from, end, at)
    requires StagedSoFar(present, epoch, rid, RestoreOrder(fold, less), n)
    ensures var rows, list := Landed(present, epoch, base, batch, now), RestoreOrder(fold, less);
            n + |rows| <= |list| && StagedRun(rows, epoch, rid, fold, list[n..n + |rows|])
  {
    hide Landed, StagedSoFar, StagedRun, RestoreOrder, Distinct;
    var list := RestoreOrder(fold, less);
    OrderDistinct(fold, less);
    TurnLands(present, epoch, rid, fold, list, from, end, n, base, batch, at, now);
    LeftIsNext(Landed(present, epoch, base, batch, now), epoch, rid, fold, list, from, end, n);
  }

  lemma LeftIsNext(rows: seq<Op>, epoch: nat, rid: string, fold: Fold, list: seq<Key>, from: nat, end: nat, n: nat)
    requires from <= n <= |list| && from <= end <= |list| && StagedRun(rows, epoch, rid, fold, Left(list, from, end, n))
    ensures n + |rows| <= |list| && StagedRun(rows, epoch, rid, fold, list[n..n + |rows|])
  {
    assert Left(list, from, end, n) == list[n..n + |rows|];
  }

  /** Rows landing in the epoch a restore fills leave what it staged true exactly when they carry it further. */
  lemma StagedOnwardIff(ops: seq<Op>, r: Restore, rid: string, backup: Backup, less: KeyOrder, more: seq<Op>,
                        base: nat, end: nat)
    requires StrictOrder(less) && Staged(ops, r, rid, backup, less) && backup.cutoff <= base
    requires LandsAbove(more, r.into, base, end)
    ensures Staged(ops + more, r, rid, backup, less) <==> StagesNext(ops, r, rid, backup, less, more)
  {
    hide FoldAt, InWindow, StagedRun, Log;
    var log, fold := Log(ops, r.into), Kept(ops, backup);
    KeptAppend(backup, ops, more, r.into, base, end);
    OthersUnchanged(ops, more, r.into, base, end, r.into);
    RunOnwardIff(log, more, r.into, rid, fold, RestoreOrder(fold, less));
  }

  lemma RunOnwardIff(log: seq<Op>, more: seq<Op>, epoch: nat, rid: string, fold: Fold, list: seq<Key>)
    requires |log| <= |list| && StagedRun(log, epoch, rid, fold, list[..|log|])
    ensures (|log + more| <= |list| && StagedRun(log + more, epoch, rid, fold, list[..|log + more|]))
            <==> (|log| + |more| <= |list| && StagedRun(more, epoch, rid, fold, list[|log|..|log| + |more|]))
  {
    hide IsStaged;
    if |log| + |more| <= |list| {
      var keys := list[|log|..|log| + |more|];
      assert list[..|log|] + keys == list[..|log + more|];
      if StagedRun(more, epoch, rid, fold, keys) {
        StagedJoin(log, more, epoch, rid, fold, list[..|log|], keys);
      }
      if StagedRun(log + more, epoch, rid, fold, list[..|log + more|]) {
        StagedRest(log, more, epoch, rid, fold, list[..|log|], keys);
      }
    }
  }

  lemma StagedRest(log: seq<Op>, more: seq<Op>, epoch: nat, rid: string, fold: Fold, first: seq<Key>, keys: seq<Key>)
    requires |log| == |first| && |more| == |keys| && StagedRun(log + more, epoch, rid, fold, first + keys)
    ensures StagedRun(more, epoch, rid, fold, keys)
  {
    hide IsStaged;
    forall i | 0 <= i < |more| ensures keys[i] in fold && IsStaged(more[i], epoch, rid, keys[i], fold[keys[i]].entity) {
      assert (log + more)[|log| + i] == more[i] && (first + keys)[|log| + i] == keys[i];
    }
  }

  /** Such rows land as rows of the new epoch, of the repository's one vocabulary. */
  lemma TurnLandsTrue(repo: Repo, ops: seq<Op>, r: Restore, rid: string, backup: Backup, less: KeyOrder,
                      batch: seq<Draft>, now: int)
    requires StrictOrder(less) && LogTrue(repo, ops) && r.into <= repo.epoch + 1
    requires StagesNext(ops, r, rid, backup, less, Landed(IdsOf(ops, r.into), r.into, repo.lastSeq, batch, now))
    ensures var more := Landed(IdsOf(ops, r.into), r.into, repo.lastSeq, batch, now);
            var repoNow := repo.(lastSeq := repo.lastSeq + |batch|);
            LogTrue(repoNow, ops + more) && LandsAbove(more, r.into, repo.lastSeq, repoNow.lastSeq)
  {
    var more := Landed(IdsOf(ops, r.into), r.into, repo.lastSeq, batch, now);
    LandedSlots(IdsOf(ops, r.into), r.into, repo.lastSeq, batch, now);
    LandedKeepsOnce(ops, r.into, repo.lastSeq, batch, now);
    NextVocabulary(repo, ops, r, rid, backup, less, more);
    LogTrueAppend(repo, ops, more, repo.(lastSeq := repo.lastSeq + |batch|), r.into);
  }

  lemma NextVocabulary(repo: Repo, ops: seq<Op>, r: Restore, rid: string, backup: Backup, less: KeyOrder, rows: seq<Op>)
    requires StrictOrder(less) && LogTrue(repo, ops) && StagesNext(ops, r, rid, backup, less, rows)
    ensures OneVocabulary(rows, repo.vocabulary)
  {
    FoldOfVocabulary(ops, repo.vocabulary, backup);
    var n, fold := |Log(ops, r.into)|, Kept(ops, backup);
    var keys := RestoreOrder(fold, less)[n..n + |rows|];
    forall i | 0 <= i < |rows| ensures rows[i].key in fold {
      assert IsStaged(rows[i], r.into, rid, keys[i], fold[keys[i]].entity);
    }
  }

  lemma LandedVocabulary(present: set<OpId>, epoch: nat, base: nat, batch: seq<Draft>, now: int,
                         vocabulary: Option<Vocabulary>)
    requires forall j | 0 <= j < |batch| :: vocabulary == Some(VocabularyOf(batch[j].key))
    ensures OneVocabulary(Landed(present, epoch, base, batch, now), vocabulary)
  {
    var more := Landed(present, epoch, base, batch, now);
    forall i | 0 <= i < |more| ensures vocabulary == Some(VocabularyOf(more[i].key)) {
      assert more[i] in more;
      LandedIsDraft(present, epoch, base, batch, now, more[i]);
    }
  }

  /** Counted or recorded, a restore's progress is the number of rows it has staged. */
  lemma CountIsTrue(ops: seq<Op>, r: Restore, head: nat)
    requires IsLog(Log(ops, r.into)) && ProgressTrue(r, ops, head)
    ensures StagedCount(ops, r) == |Log(ops, r.into)|
  {
    var log := Log(ops, r.into);
    AfterIsAbove(log, r.guard);
    if r.stagedSeq.Some? {
      AfterIsAbove(log, r.stagedSeq.value);
    } else {
      NoneBelow(log, r.guard);
    }
  }

  lemma NoneBelow(log: seq<Op>, guard: nat)
    requires AllAbove(log, guard)
    ensures UpTo(log, guard) == []
  {
    UpToAppend([], log, guard);
    assert [] + log == log;
  }

  lemma RecordKeeps(ops: seq<Op>, r: Restore, last: nat)
    requires IsLog(Log(ops, r.into)) && ProgressTrue(r, ops, last)
    ensures ProgressTrue(RecordProgress(r, ops, last), ops, last)
  {
    var log, recorded := Log(ops, r.into), r.stagedSeq.GetOr(r.guard);
    UpToTwice(log, recorded, last);
    NoneBelow(log, r.guard);
  }

  lemma RecordedStaging(r: Restore, rid: string, repo: Repo, ops: seq<Op>, backups: map<string, Backup>, less: KeyOrder)
    requires StrictOrder(less) && RestoreTrue(r, rid, repo, ops, backups, less) && IsLog(Log(ops, r.into))
    ensures RestoreTrue(RecordProgress(r, ops, repo.lastSeq), rid, repo, ops, backups, less)
  {
    RecordKeeps(ops, r, repo.lastSeq);
  }

  /** The turn's own restore, after the turn. */
  lemma TurnKeepsOwn(r: Restore, rid: string, repo: Repo, ops: seq<Op>, backups: map<string, Backup>, less: KeyOrder,
                     batch: seq<Draft>, now: int)
    requires StrictOrder(less) && LogTrue(repo, ops) && BackupsTrue(backups, ops, repo.lastSeq)
    requires !r.committed && RestoreTrue(r, rid, repo, ops, backups, less)
    requires StagesNext(ops, r, rid, backups[r.source], less, Landed(IdsOf(ops, r.into), r.into, repo.lastSeq, batch, now))
    ensures var repoNow := repo.(lastSeq := repo.lastSeq + |batch|);
            var opsNow := ops + Landed(IdsOf(ops, r.into), r.into, repo.lastSeq, batch, now);
            RestoreTrue(RecordProgress(r, opsNow, repoNow.lastSeq), rid, repoNow, opsNow, backups, less)
  {
    var repoNow := repo.(lastSeq := repo.lastSeq + |batch|);
    var more := Landed(IdsOf(ops, r.into), r.into, repo.lastSeq, batch, now);
    assert BackupTrue(backups[r.source], Log(ops, backups[r.source].epoch), repo.lastSeq);
    TurnLandsTrue(repo, ops, r, rid, backups[r.source], less, batch, now);
    StagedOnwardIff(ops, r, rid, backups[r.source], less, more, repo.lastSeq, repoNow.lastSeq);
    ProgressAppend(r, ops, more, r.into, repo.lastSeq, repoNow.lastSeq);
    EpochLog(repoNow, ops + more, r.into);
    RecordedStaging(r, rid, repoNow, ops + more, backups, less);
  }

  /** What a stage request whose reads held may write: a turn of its restore, or anything once it is committed. */
  ghost predicate MayStage(t: Tables, less: KeyOrder, rid: string, batch: seq<Draft>)
    requires StrictOrder(less)
  {
    && rid in t.restores
    && (IsStaging(t.restores, rid) ==>
          && t.restores[rid].source in t.backups
          && IsTurn(t.ops, t.restores[rid], rid, t.backups[t.restores[rid].source], less, batch))
  }

  /** What it lands are the next entities in restore order, or its restore is committed. */
  ghost predicate TurnNext(t: Tables, less: KeyOrder, rid: string, batch: seq<Draft>, now: int)
    requires StrictOrder(less)
  {
    IsStaging(t.restores, rid) ==>
      var r := t.restores[rid];
      && r.source in t.backups
      && StagesNext(t.ops, r, rid, t.backups[r.source], less, Landed(IdsOf(t.ops, r.into), r.into, t.repo.lastSeq, batch, now))
  }

  lemma MayStageNext(t: Tables, less: KeyOrder, rid: string, batch: seq<Draft>, now: int)
    requires StrictOrder(less) && RestoresTrue(t.restores, t.repo, t.ops, t.backups, less)
    requires MayStage(t, less, rid, batch)
    ensures TurnNext(t, less, rid, batch, now)
  {
    hide FoldAt, Staged, IsTurn, StagesNext;
    if IsStaging(t.restores, rid) {
      var r := t.restores[rid];
      assert RestoreTrue(r, rid, t.repo, t.ops, t.backups, less);
      TurnStages(t.ops, r, rid, t.backups[r.source], less, batch, t.repo.lastSeq, now);
    }
  }

  lemma StageKeeps(t: Tables, less: KeyOrder, rid: string, batch: seq<Draft>, now: int)
    requires StrictOrder(less) && TablesTrue(t, less) && MayStage(t, less, rid, batch)
    ensures TablesTrue(StageRestore(t, rid, batch, now), less)
  {
    hide CheckpointTrue, BackupTrue, FlightTrue, FoldAt, Staged, TurnNext, TablesTrue, IsTurn;
    StageKnows(t, less);
    MayStageNext(t, less, rid, batch, now);
    StageKeepsIff(t, less, rid, batch, now);
  }

  lemma StageKnows(t: Tables, less: KeyOrder)
    requires StrictOrder(less) && TablesTrue(t, less)
    ensures RestoresTrue(t.restores, t.repo, t.ops, t.backups, less)
  {
  }

  /** Whatever a turn's batch holds, it keeps the tables true exactly when what lands carries the staged entities further. */
  lemma StageKeepsIff(t: Tables, less: KeyOrder, rid: string, batch: seq<Draft>, now: int)
    requires StrictOrder(less) && TablesTrue(t, less) && rid in t.restores
    ensures TablesTrue(StageRestore(t, rid, batch, now), less) <==> TurnNext(t, less, rid, batch, now)
  {
    if t.restores[rid].committed {
      LateTurn(t, less, rid, batch, now);
    } else {
      if TurnNext(t, less, rid, batch, now) {
        LiveTurn(t, less, rid, batch, now);
      }
      if TablesTrue(StageRestore(t, rid, batch, now), less) {
        TurnNeeds(t, less, rid, batch, now, StageRestore(t, rid, batch, now));
      }
    }
  }

  lemma TurnNeeds(t: Tables, less: KeyOrder, rid: string, batch: seq<Draft>, now: int, after: Tables)
    requires StrictOrder(less) && TablesTrue(t, less) && IsStaging(t.restores, rid)
    requires after == StageRestore(t, rid, batch, now) && TablesTrue(after, less)
    ensures TurnNext(t, less, rid, batch, now)
  {
    hide CheckpointTrue, BackupTrue, FlightTrue, FoldAt, Staged, StagesNext, Landed, LogTrue, StageRestore,
      ProgressTrue;
    var r := t.restores[rid];
    FillsNext(t.restores, t.repo, t.ops, t.backups, less, rid);
    TurnWrites(t, rid, batch, now, after);
    RecordSame(r, after.ops, after.repo.lastSeq);
    assert RestoreTrue(r, rid, t.repo, t.ops, t.backups, less);
    assert RestoreTrue(after.restores[rid], rid, after.repo, after.ops, after.backups, less);
    StagedSame(after.ops, after.restores[rid], r, rid, t.backups[r.source], less);
    LandedSlots(IdsOf(t.ops, r.into), r.into, t.repo.lastSeq, batch, now);
    UndoBelow(t.backups, t.ops, t.repo.lastSeq, r.source);
    StagedOnwardIff(t.ops, r, rid, t.backups[r.source], less, Landed(IdsOf(t.ops, r.into), r.into, t.repo.lastSeq, batch, now),
                    t.repo.lastSeq, after.repo.lastSeq);
  }

  lemma RecordSame(r: Restore, ops: seq<Op>, last: nat)
    ensures var now := RecordProgress(r, ops, last);
            now == r.(stagedCount := now.stagedCount, stagedSeq := now.stagedSeq)
  {
  }

  lemma StagedSame(ops: seq<Op>, a: Restore, b: Restore, rid: string, backup: Backup, less: KeyOrder)
    requires StrictOrder(less) && a.into == b.into && Staged(ops, a, rid, backup, less)
    ensures Staged(ops, b, rid, backup, less)
  {
  }

  /** A turn that comes after the commit writes no row. */
  lemma LateTurn(t: Tables, less: KeyOrder, rid: string, batch: seq<Draft>, now: int)
    requires StrictOrder(less) && TablesTrue(t, less) && rid in t.restores && t.restores[rid].committed
    ensures var after := StageRestore(t, rid, batch, now);
            TablesTrue(after, less) && after == t.(restores := after.restores)
  {
    hide CheckpointTrue, BackupTrue, FlightTrue, FoldAt, Staged;
    var r := t.restores[rid];
    EpochLog(t.repo, t.ops, r.into);
    RecordedStaging(r, rid, t.repo, t.ops, t.backups, less);
    RestoresPlus(t.restores, t.repo, t.ops, t.backups, rid, RecordProgress(r, t.ops, t.repo.lastSeq), less);
    SameStaging(t.restores, rid, RecordProgress(r, t.ops, t.repo.lastSeq), t.repo.epoch + 1);
  }

  lemma SameStaging(restores: map<string, Restore>, rid: string, r: Restore, epoch: nat)
    requires rid in restores && r.committed == restores[rid].committed && r.into == restores[rid].into
    ensures OneStaging(restores) ==> OneStaging(restores[rid := r])
    ensures Filling(restores, epoch) <==> Filling(restores[rid := r], epoch)
  {
    var after := restores[rid := r];
    if Filling(restores, epoch) {
      var other :| other in restores && IsStaging(restores, other) && restores[other].into == epoch;
      assert other in after && IsStaging(after, other);
    }
    if Filling(after, epoch) {
      var other :| other in after && IsStaging(after, other) && after[other].into == epoch;
      assert other in restores && IsStaging(restores, other);
    }
  }

  lemma LiveTurn(t: Tables, less: KeyOrder, rid: string, batch: seq<Draft>, now: int)
    requires StrictOrder(less) && TablesTrue(t, less) && TurnNext(t, less, rid, batch, now)
    requires IsStaging(t.restores, rid)
    ensures TablesTrue(StageRestore(t, rid, batch, now), less)
  {
    hide CheckpointTrue, BackupTrue, FlightTrue, FoldAt, Staged;
    var after := StageRestore(t, rid, batch, now);
    TurnRows(t, less, rid, batch, now, after);
    TurnRestores(t, less, rid, batch, now, after);
    Assemble(after, less);
  }

  lemma TurnRows(t: Tables, less: KeyOrder, rid: string, batch: seq<Draft>, now: int, after: Tables)
    requires StrictOrder(less) && TablesTrue(t, less) && TurnNext(t, less, rid, batch, now)
    requires IsStaging(t.restores, rid)
    requires after == StageRestore(t, rid, batch, now)
    ensures LogTrue(after.repo, after.ops) && FoldsTrue(after.folds, after.ops, after.repo.lastSeq)
    ensures BackupsTrue(after.backups, after.ops, after.repo.lastSeq)
  {
    hide CheckpointTrue, BackupTrue, FlightTrue, FoldAt, Staged;
    FillsNext(t.restores, t.repo, t.ops, t.backups, less, rid);
    TurnWrites(t, rid, batch, now, after);
    LiveTurnRows(t.folds, t.repo, t.ops, t.backups, less, t.restores[rid], rid, batch, now, after.repo, after.ops);
  }

  lemma TurnRestores(t: Tables, less: KeyOrder, rid: string, batch: seq<Draft>, now: int, after: Tables)
    requires StrictOrder(less) && TablesTrue(t, less) && TurnNext(t, less, rid, batch, now)
    requires IsStaging(t.restores, rid)
    requires after == StageRestore(t, rid, batch, now)
    ensures RestoresTrue(after.restores, after.repo, after.ops, after.backups, less)
    ensures OneStaging(after.restores) && Filling(after.restores, after.repo.epoch + 1)
  {
    hide CheckpointTrue, BackupTrue, FlightTrue, FoldAt, Staged;
    FillsNext(t.restores, t.repo, t.ops, t.backups, less, rid);
    TurnWrites(t, rid, batch, now, after);
    LiveTurnRestores(t.restores, t.repo, t.ops, t.backups, less, t.restores[rid], rid, batch, now, after.repo,
                     after.ops, after.restores);
  }

  lemma TurnWrites(t: Tables, rid: string, batch: seq<Draft>, now: int, after: Tables)
    requires rid in t.restores && t.restores[rid].from == t.repo.epoch && after == StageRestore(t, rid, batch, now)
    ensures after.repo == t.repo.(lastSeq := t.repo.lastSeq + |batch|)
    ensures after.ops == t.ops + Landed(IdsOf(t.ops, t.restores[rid].into), t.restores[rid].into, t.repo.lastSeq, batch, now)
    ensures after.restores == t.restores[rid := RecordProgress(t.restores[rid], after.ops, after.repo.lastSeq)]
    ensures after.folds == t.folds && after.backups == t.backups
  {
  }

  lemma Assemble(t: Tables, less: KeyOrder)
    requires StrictOrder(less) && LogTrue(t.repo, t.ops) && FoldsTrue(t.folds, t.ops, t.repo.lastSeq)
    requires BackupsTrue(t.backups, t.ops, t.repo.lastSeq)
    requires RestoresTrue(t.restores, t.repo, t.ops, t.backups, less) && OneStaging(t.restores)
    requires Filling(t.restores, t.repo.epoch + 1)
    ensures TablesTrue(t, less)
  {
    hide CheckpointTrue, BackupTrue, FlightTrue, FoldAt, Staged;
  }

  lemma FillsNext(restores: map<string, Restore>, repo: Repo, ops: seq<Op>, backups: map<string, Backup>,
                  less: KeyOrder, rid: string)
    requires StrictOrder(less) && RestoresTrue(restores, repo, ops, backups, less) && IsStaging(restores, rid)
    ensures restores[rid].from == repo.epoch && restores[rid].into == repo.epoch + 1 && restores[rid].source in backups
  {
    assert RestoreTrue(restores[rid], rid, repo, ops, backups, less);
  }

  lemma LiveTurnRows(folds: map<nat, Checkpoint>, repo: Repo, ops: seq<Op>, backups: map<string, Backup>,
                     less: KeyOrder,
                     r: Restore, rid: string, batch: seq<Draft>, now: int, repoNow: Repo, opsNow: seq<Op>)
    requires StrictOrder(less) && LogTrue(repo, ops) && FoldsTrue(folds, ops, repo.lastSeq)
    requires BackupsTrue(backups, ops, repo.lastSeq)
    requires r.source in backups && r.into <= repo.epoch + 1
    requires StagesNext(ops, r, rid, backups[r.source], less, Landed(IdsOf(ops, r.into), r.into, repo.lastSeq, batch, now))
    requires opsNow == ops + Landed(IdsOf(ops, r.into), r.into, repo.lastSeq, batch, now)
    requires repoNow == repo.(lastSeq := repo.lastSeq + |batch|)
    ensures LogTrue(repoNow, opsNow) && FoldsTrue(folds, opsNow, repoNow.lastSeq)
    ensures BackupsTrue(backups, opsNow, repoNow.lastSeq)
  {
    var more := Landed(IdsOf(ops, r.into), r.into, repo.lastSeq, batch, now);
    TurnLandsTrue(repo, ops, r, rid, backups[r.source], less, batch, now);
    FoldsAppend(folds, ops, more, r.into, repo.lastSeq, repoNow.lastSeq);
    BackupsAppend(backups, ops, more, r.into, repo.lastSeq, repoNow.lastSeq);
  }

  lemma LiveTurnRestores(restores: map<string, Restore>, repo: Repo, ops: seq<Op>, backups: map<string, Backup>,
                         less: KeyOrder,
                         r: Restore, rid: string, batch: seq<Draft>, now: int, repoNow: Repo, opsNow: seq<Op>, after: map<string, Restore>)
    requires StrictOrder(less) && LogTrue(repo, ops) && BackupsTrue(backups, ops, repo.lastSeq)
    requires RestoresTrue(restores, repo, ops, backups, less) && OneStaging(restores) && IsStaging(restores, rid)
    requires r == restores[rid]
    requires r.source in backups
    requires StagesNext(ops, r, rid, backups[r.source], less, Landed(IdsOf(ops, r.into), r.into, repo.lastSeq, batch, now))
    requires opsNow == ops + Landed(IdsOf(ops, r.into), r.into, repo.lastSeq, batch, now)
    requires repoNow == repo.(lastSeq := repo.lastSeq + |batch|)
    requires after == restores[rid := RecordProgress(r, opsNow, repoNow.lastSeq)]
    ensures RestoresTrue(after, repoNow, opsNow, backups, less) && OneStaging(after)
    ensures Filling(after, repoNow.epoch + 1)
  {
    hide BackupTrue, FoldAt, Staged;
    var own := RecordProgress(r, opsNow, repoNow.lastSeq);
    assert RestoreTrue(own, rid, repoNow, opsNow, backups, less) by {
      assert RestoreTrue(r, rid, repo, ops, backups, less);
      TurnKeepsOwn(r, rid, repo, ops, backups, less, batch, now);
    }
    LandedSlots(IdsOf(ops, r.into), r.into, repo.lastSeq, batch, now);
    TurnKeepsRest(restores, repo, ops, backups, less, rid, Landed(IdsOf(ops, r.into), r.into, repo.lastSeq, batch,
                  now), own, repoNow);
    FillsNext(restores, repo, ops, backups, less, rid);
    StillFilling(restores, rid, own, repo.epoch + 1);
  }

  lemma StillFilling(restores: map<string, Restore>, rid: string, r: Restore, epoch: nat)
    requires OneStaging(restores) && IsStaging(restores, rid) && !r.committed && r.into == restores[rid].into == epoch
    ensures OneStaging(restores[rid := r]) && Filling(restores[rid := r], epoch)
  {
    SameStaging(restores, rid, r, epoch);
    assert Filling(restores, epoch);
  }

  lemma TurnKeepsRest(restores: map<string, Restore>, repo: Repo, ops: seq<Op>, backups: map<string, Backup>,
                      less: KeyOrder,
                      rid: string, more: seq<Op>, own: Restore, repoNow: Repo)
    requires StrictOrder(less) && RestoresTrue(restores, repo, ops, backups, less)
    requires BackupsTrue(backups, ops, repo.lastSeq)
    requires OneStaging(restores) && IsStaging(restores, rid)
    requires LandsAbove(more, restores[rid].into, repo.lastSeq, repoNow.lastSeq) && repoNow.epoch == repo.epoch
    requires RestoreTrue(own, rid, repoNow, ops + more, backups, less)
    ensures RestoresTrue(restores[rid := own], repoNow, ops + more, backups, less)
  {
    hide RestoreTrue, BackupsTrue, LandsAbove, Log;
    forall other | other in restores && other != rid ensures RestoreTrue(restores[other], other, repoNow, ops + more, backups, less) {
      OthersCommitted(restores, rid, other);
      RestoreElsewhere(restores[other], other, repo, ops, backups, less, more, restores[rid].into, repoNow);
    }
  }

  lemma FlipKeeps(t: Tables, less: KeyOrder, rid: string)
    requires StrictOrder(less) && TablesTrue(t, less) && rid in t.restores
    ensures TablesTrue(Flip(t, rid), less)
  {
    hide CheckpointTrue, BackupTrue, FlightTrue, FoldAt, Staged;
    assert RestoreTrue(t.restores[rid], rid, t.repo, t.ops, t.backups, less);
    if t.restores[rid].committed {
      assert Flip(t, rid).restores == t.restores;
    } else {
      FlipKeepsRestores(t.restores, t.repo, t.ops, t.backups, less, rid);
      FlipKeepsAhead(t, rid);
    }
  }

  /** The flip commits the one restore in flight, and every other was committed below the live epoch. */
  lemma FlipKeepsRestores(restores: map<string, Restore>, repo: Repo, ops: seq<Op>, backups: map<string, Backup>,
                          less: KeyOrder, rid: string)
    requires StrictOrder(less) && RestoresTrue(restores, repo, ops, backups, less)
    requires OneStaging(restores) && IsStaging(restores, rid)
    ensures RestoresTrue(restores[rid := restores[rid].(committed := true)], repo.(epoch := restores[rid].into), ops, backups, less)
    ensures OneStaging(restores[rid := restores[rid].(committed := true)])
  {
    hide CheckpointTrue, BackupTrue, FlightTrue, FoldAt, Staged;
    var r := restores[rid];
    var after := restores[rid := r.(committed := true)];
    assert RestoreTrue(r, rid, repo, ops, backups, less);
    forall other | other in after ensures RestoreTrue(after[other], other, repo.(epoch := r.into), ops, backups, less) {
      assert RestoreTrue(restores[other], other, repo, ops, backups, less);
      if other != rid {
        OthersCommitted(restores, rid, other);
      }
    }
  }

  lemma FlipKeepsAhead(t: Tables, rid: string)
    requires LogTrue(t.repo, t.ops) && IsStaging(t.restores, rid)
    requires t.restores[rid].from == t.repo.epoch && t.restores[rid].into == t.repo.epoch + 1
    ensures LogTrue(Flip(t, rid).repo, t.ops) && NothingAhead(Flip(t, rid))
  {
    var beyond := t.repo.epoch + 2;
    if Log(t.ops, beyond) != [] {
      LogHas(t.ops, beyond, Log(t.ops, beyond)[0]);
    }
  }
}
