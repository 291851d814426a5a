/** A restore from its begin to its flip: what readers see, what goes live, and what a commit can lose. */
module Cutover {
  import opened Types
  import opened FoldRule
  import opened Checkpoint
  import opened Listing
  import opened Pages
  import opened OpLog
  import opened Staging
  import opened Transactions
  import opened Invariant
  import opened Service
  import opened Traces
  import opened RoundTrip
  import Claims

  // ----- Staging --------------------------------------------------------------------------

  /** No epoch a reader can be in, the live one or an older one, ever shows a staged row. */
  lemma StagedUnseen(s: Service, rid: string, batch: seq<Draft>, now: int, torn: bool, less: KeyOrder, epoch: nat)
    requires StrictOrder(less) && Traced(s, less) && Enabled(s, StageStep(rid, batch, now, torn), less)
    requires epoch <= s.tables.repo.epoch
    ensures Log(Next(s, StageStep(rid, batch, now, torn)).tables.ops, epoch) == Log(s.tables.ops, epoch)
  {
    hide Traced, OpsSound, UndosSound, GuardsSound, BeginsTrue, HeldSound, Log, RestoresSound;
    TracedSound(s, less);
    StageRows(s, rid, batch, now, torn, epoch);
  }

  /** What a restore has staged is the first of the backup's entities in restore order, and its count is exact. */
  lemma ProgressIsExact(s: Service, rid: string, less: KeyOrder)
    requires StrictOrder(less) && Reachable(s, less) && IsStaging(s.tables.restores, rid)
    ensures var t, r := s.tables, s.tables.restores[rid];
            var staged := StagedCount(t.ops, r);
            && r.source in t.backups && staged <= r.entityCount == |Kept(t.ops, t.backups[r.source])|
            && StagedRun(Log(t.ops, r.into), r.into, rid, Kept(t.ops, t.backups[r.source]),
                         RestoreOrder(Kept(t.ops, t.backups[r.source]), less)[..staged])
  {
    hide CheckpointTrue, FlightTrue, FoldAt, StagedRun, Reachable;
    ReachableInv(s, less);
    var t, r := s.tables, s.tables.restores[rid];
    assert RestoreTrue(r, rid, t.repo, t.ops, t.backups, less);
    assert BackupTrue(t.backups[r.source], Log(t.ops, t.backups[r.source].epoch), t.repo.lastSeq);
    EpochLog(t.repo, t.ops, r.into);
    CountIsTrue(t.ops, r, t.repo.lastSeq);
  }

  /** A chunk that starts where staging stands lands whole. */
  lemma ChunkLands(ops: seq<Op>, r: Restore, rid: string, backup: Backup, less: KeyOrder, batch: seq<Draft>,
                   at: string, base: nat, now: int)
    requires StrictOrder(less) && Staged(ops, r, rid, backup, less)
    requires var n := |Log(ops, r.into)|;
             IsChunk(batch, r.into, rid, Kept(ops, backup), RestoreOrder(Kept(ops, backup), less), n, n + |batch|, at)
    ensures |Landed(IdsOf(ops, r.into), r.into, base, batch, now)| == |batch|
  {
    hide Landed, StagedSoFar, StagedRun, IsChunk, Distinct, RestoreOrder, Log, FoldAt;
    var n, fold := |Log(ops, r.into)|, Kept(ops, backup);
    var list := RestoreOrder(fold, less);
    StagedPresent(ops, r, rid, backup, less);
    OrderDistinct(fold, less);
    ChunkWithin(batch, r.into, rid, fold, list, n, n + |batch|, at);
    TurnLands(IdsOf(ops, r.into), r.into, rid, fold, list, n, n + |batch|, n, base, batch, at, now);
    RunLength(Landed(IdsOf(ops, r.into), r.into, base, batch, now), r.into, rid, fold, Left(list, n, n + |batch|, n));
  }

  lemma ChunkWithin(batch: seq<Draft>, epoch: nat, rid: string, fold: Fold, list: seq<Key>, from: nat, end: nat,
                    at: string)
    requires IsChunk(batch, epoch, rid, fold, list, from, end, at)
    ensures from <= end <= |list|
  {
  }

  lemma RunLength(rows: seq<Op>, epoch: nat, rid: string, fold: Fold, keys: seq<Key>)
    requires StagedRun(rows, epoch, rid, fold, keys)
    ensures |rows| == |keys|
  {
  }

  /** A turn that read the present count stages its whole chunk: what is left to stage goes down by it. */
  lemma FreshTurnAdvances(s: Service, rid: string, batch: seq<Draft>, at: string, now: int, less: KeyOrder)
    requires StrictOrder(less) && Reachable(s, less) && IsStaging(s.tables.restores, rid)
    requires s.tables.restores[rid].source in s.tables.backups
    requires var t, r := s.tables, s.tables.restores[rid];
             var fold, staged := Kept(t.ops, t.backups[r.source]), StagedCount(t.ops, r);
             IsChunk(batch, r.into, rid, fold, RestoreOrder(fold, less), staged, staged + |batch|, at)
    ensures var after := StageRestore(s.tables, rid, batch, now);
            StagedCount(after.ops, after.restores[rid]) == StagedCount(s.tables.ops, s.tables.restores[rid]) + |batch|
  {
    hide CheckpointTrue, FlightTrue, FoldAt, IsChunk, StagedRun, Landed, BackupTrue, LogTrue, Staged, RestoresTrue,
      StagedCount, Reachable;
    ReachableInv(s, less);
    var t, r := s.tables, s.tables.restores[rid];
    CountNow(t, less, rid);
    ChunkLands(t.ops, r, rid, t.backups[r.source], less, batch, at, t.repo.lastSeq, now);
    assert IsTurn(t.ops, r, rid, t.backups[r.source], less, batch);
    StageKeeps(t, less, rid, batch, now);
    CountAfterTurn(t, less, rid, batch, now, StageRestore(t, rid, batch, now));
  }

  lemma CountNow(t: Tables, less: KeyOrder, rid: string)
    requires StrictOrder(less) && TablesTrue(t, less) && IsStaging(t.restores, rid)
    ensures StagedCount(t.ops, t.restores[rid]) == |Log(t.ops, t.restores[rid].into)|
    ensures t.restores[rid].from == t.repo.epoch
    ensures t.restores[rid].source in t.backups
    ensures Staged(t.ops, t.restores[rid], rid, t.backups[t.restores[rid].source], less)
  {
    hide CheckpointTrue, FlightTrue, FoldAt, StagedRun, Landed, BackupTrue, LogTrue, Staged, StagedCount;
    assert RestoreTrue(t.restores[rid], rid, t.repo, t.ops, t.backups, less);
    EpochLog(t.repo, t.ops, t.restores[rid].into);
    CountIsTrue(t.ops, t.restores[rid], t.repo.lastSeq);
  }

  lemma CountAfterTurn(t: Tables, less: KeyOrder, rid: string, batch: seq<Draft>, now: int, after: Tables)
    requires StrictOrder(less) && rid in t.restores && t.restores[rid].from == t.repo.epoch
    requires after == StageRestore(t, rid, batch, now) && TablesTrue(after, less)
    ensures StagedCount(after.ops, after.restores[rid])
         == |Log(t.ops, t.restores[rid].into)| + |Landed(IdsOf(t.ops, t.restores[rid].into), t.restores[rid].into, t.repo.lastSeq, batch, now)|
  {
    hide CheckpointTrue, FlightTrue, FoldAt, StagedRun, Landed, BackupTrue, LogTrue, Staged;
    var r := t.restores[rid];
    assert RestoreTrue(after.restores[rid], rid, after.repo, after.ops, after.backups, less);
    EpochLog(after.repo, after.ops, r.into);
    CountIsTrue(after.ops, after.restores[rid], after.repo.lastSeq);
    LandedSlots(IdsOf(t.ops, r.into), r.into, t.repo.lastSeq, batch, now);
    OthersUnchanged(t.ops, Landed(IdsOf(t.ops, r.into), r.into, t.repo.lastSeq, batch, now), r.into,
                    t.repo.lastSeq, t.repo.lastSeq + |batch|, r.into);
  }

  // ----- The flip -------------------------------------------------------------------------

  lemma WholeRun(ops: seq<Op>, r: Restore, rid: string, backup: Backup, less: KeyOrder)
    requires StrictOrder(less) && Staged(ops, r, rid, backup, less) && |Log(ops, r.into)| == |Kept(ops, backup)|
    ensures StagedRun(Log(ops, r.into), r.into, rid, Kept(ops, backup), RestoreOrder(Kept(ops, backup), less))
  {
    hide StagedRun, FoldAt;
    var list := RestoreOrder(Kept(ops, backup), less);
    assert list[..|list|] == list;
  }

  /** A commit that has checked its restore found every entity of the backup staged once, in restore order. */
  lemma CheckedIsWhole(s: Service, rid: string, less: KeyOrder)
    requires StrictOrder(less) && Reachable(s, less) && rid in s.checks && IsStaging(s.tables.restores, rid)
    ensures var t, r := s.tables, s.tables.restores[rid];
            && r.from == t.repo.epoch && r.into == t.repo.epoch + 1 && r.source in t.backups
            && StagedRun(Log(t.ops, r.into), r.into, rid, Kept(t.ops, t.backups[r.source]),
                         RestoreOrder(Kept(t.ops, t.backups[r.source]), less))
  {
    hide CheckpointTrue, FlightTrue, FoldAt, StagedRun, LogTrue, Staged, Reachable;
    ReachableInv(s, less);
    var t, r := s.tables, s.tables.restores[rid];
    FillsNext(t.restores, t.repo, t.ops, t.backups, less, rid);
    assert RestoreTrue(r, rid, t.repo, t.ops, t.backups, less);
    assert BackupTrue(t.backups[r.source], Log(t.ops, t.backups[r.source].epoch), t.repo.lastSeq);
    WholeRun(t.ops, r, rid, t.backups[r.source], less);
  }

  /** The flip makes the staged epoch the live one, and changes no row of any. */
  lemma FlipMoves(s: Service, rid: string)
    requires rid in s.tables.restores && s.tables.restores[rid].from == s.tables.repo.epoch
    ensures var t, after := s.tables, Next(s, FlipStep(rid)).tables;
            after.repo == t.repo.(epoch := t.restores[rid].into) && after.ops == t.ops
  {
    hide Push, WriteFold, StageRestore, BeginRestore;
  }

  /**
   * The fold of the epoch a flip makes live, from whose checkpoint every snapshot is served, is the fold
   * of the backup at its recorded cutoff: exactly when every entity of it returns.
   */
  lemma FlipFoldsBack(s: Service, rid: string, less: KeyOrder)
    requires StrictOrder(less) && Reachable(s, less) && rid in s.checks && IsStaging(s.tables.restores, rid)
    requires s.tables.restores[rid].source in s.tables.backups
    ensures var after := Next(s, FlipStep(rid)).tables;
            var backup := s.tables.backups[s.tables.restores[rid].source];
            FoldsBack(FoldAt(Log(s.tables.ops, backup.epoch), backup.cutoff),
                      FoldAt(Log(after.ops, after.repo.epoch), after.repo.lastSeq))
            <==> Restorable(FoldAt(Log(s.tables.ops, backup.epoch), backup.cutoff), less)
  {
    hide CheckpointTrue, FlightTrue, FoldLog, StagedRun, RestoreTrue, FoldsBack, Restorable, LogTrue, BackupTrue,
      Reachable;
    ReachableInv(s, less);
    var t, r := s.tables, s.tables.restores[rid];
    CheckedIsWhole(s, rid, less);
    FlipMoves(s, rid);
    EpochLog(t.repo, t.ops, r.into);
    WholeLogFold(t.ops, r, rid, t.backups[r.source], less, t.repo.lastSeq);
  }

  lemma WholeLogFold(ops: seq<Op>, r: Restore, rid: string, backup: Backup, less: KeyOrder, head: nat)
    requires StrictOrder(less) && AllAtMost(Log(ops, r.into), head)
    requires StagedRun(Log(ops, r.into), r.into, rid, Kept(ops, backup), RestoreOrder(Kept(ops, backup), less))
    ensures FoldsBack(Kept(ops, backup), FoldAt(Log(ops, r.into), head)) <==> Restorable(Kept(ops, backup), less)
  {
    hide FoldLog, StagedRun, FoldsBack, Restorable;
    UpToWhole(Log(ops, r.into), head);
    RestoreFoldsBack(Kept(ops, backup), less, Log(ops, r.into), r.into, rid);
  }

  /**
   * The restored log keeps the old log's order of claims: of two entities the one whose claim came first
   * is staged first, so a contested identifier, slug or order goes where it went.
   */
  lemma ClaimsKeepOrder(rows: seq<Op>, epoch: nat, rid: string, fold: Fold, less: KeyOrder, first: Key, second: Key)
    requires StrictOrder(less) && StagedRun(rows, epoch, rid, fold, RestoreOrder(fold, less)) && Increasing(rows)
    requires first in fold && second in fold && StageOrder(fold, first) < StageOrder(fold, second)
    ensures exists a, b | a in rows && b in rows :: a.key == first && b.key == second && a.seqno < b.seqno
  {
    var list, order := RestoreOrder(fold, less), StageLess(fold, less);
    StageLessOrders(fold, less);
    SortedLists(fold.Keys, order);
    assert first in list && second in list;
    var i :| 0 <= i < |list| && list[i] == first;
    var j :| 0 <= j < |list| && list[j] == second;
    PlaceOrder(list, order, i, j);
    assert IsStaged(rows[i], epoch, rid, first, fold[first].entity) && IsStaged(rows[j], epoch, rid, second, fold[second].entity);
    assert rows[i] in rows && rows[j] in rows;
  }

  lemma StagedOnce(rows: seq<Op>, epoch: nat, rid: string, fold: Fold, less: KeyOrder, a: Op, b: Op)
    requires StrictOrder(less) && StagedRun(rows, epoch, rid, fold, RestoreOrder(fold, less))
    requires a in rows && b in rows && a.key == b.key
    ensures a == b
  {
    OrderDistinct(fold, less);
    var list := RestoreOrder(fold, less);
    var i :| 0 <= i < |rows| && rows[i] == a;
    var j :| 0 <= j < |rows| && rows[j] == b;
    assert IsStaged(rows[i], epoch, rid, list[i], fold[list[i]].entity) && IsStaged(rows[j], epoch, rid, list[j], fold[list[j]].entity);
    assert list[i] == a.key && list[j] == b.key;
  }

  /**
   * What two entities contest goes where it went. Of two live issues, projects or vocabulary orders of a
   * backup, the one whose claim the old log made first - by the last operation that wrote its identifier,
   * slug or order, or by its create - comes first in the restored log.
   */
  lemma ContestedKeepOrder(rows: seq<Op>, epoch: nat, rid: string, log: seq<Op>, less: KeyOrder,
                           first: Key, mine: string, i: nat, second: Key, theirs: string, j: nat)
    requires StrictOrder(less) && Increasing(log) && Increasing(rows)
    requires StagedRun(rows, epoch, rid, FoldLog(map[], log), RestoreOrder(FoldLog(map[], log), less))
    requires LiveAt(FoldLog(map[], log), first) && LiveAt(FoldLog(map[], log), second)
    requires Claims.Contests(first, mine) && Claims.Contests(second, theirs)
    requires i < j < |log| && Claims.Claim(log, first, mine, i) && Claims.Claim(log, second, theirs, j)
    ensures exists a, b | a in rows && b in rows :: a.key == first && b.key == second
    ensures forall a, b | a in rows && b in rows && a.key == first && b.key == second :: a.seqno < b.seqno
  {
    hide FoldLog, StagedRun, RestoreOrder, StageOrder, Claims.Claim, Claims.Contests;
    var fold := FoldLog(map[], log);
    Claims.ClaimOfLog(log, first, mine);
    Claims.ClaimOfLog(log, second, theirs);
    ClaimsKeepOrder(rows, epoch, rid, fold, less, first, second);
    forall a, b | a in rows && b in rows && a.key == first && b.key == second ensures a.seqno < b.seqno {
      var x, y :| x in rows && y in rows && x.key == first && y.key == second && x.seqno < y.seqno;
      StagedOnce(rows, epoch, rid, fold, less, a, x);
      StagedOnce(rows, epoch, rid, fold, less, b, y);
    }
  }

  // ----- A restore can be finished --------------------------------------------------------

  lemma ReachOn(first: Service, s: Service, step: Step, less: KeyOrder) returns (next: Service)
    requires StrictOrder(less) && ReachedFrom(first, s, less) && Enabled(s, step, less) && Orderly(s, step, less)
    ensures next == Next(s, step) && ReachedFrom(first, next, less)
  {
    hide Orderly, Enabled, Next;
    next := Next(s, step);
    var steps :| Run(first, steps, less) && Final(first, steps) == s;
    assert [step][1..] == [];
    RunJoin(first, steps, [step], less);
  }

  lemma ReachedReaches(first: Service, s: Service, less: KeyOrder)
    requires StrictOrder(less) && Reachable(first, less) && ReachedFrom(first, s, less)
    ensures Reachable(s, less)
  {
    hide Run, Final;
    var before :| Run(START, before, less) && Final(START, before) == first;
    var steps :| Run(first, steps, less) && Final(first, steps) == s;
    RunJoin(START, before, steps, less);
  }

  /** The rest of a backup's entities, as one turn would stage them. */
  function RestOf(fold: Fold, list: seq<Key>, epoch: nat, rid: string, staged: nat, at: string): seq<Draft>
    requires staged <= |list| && forall key | key in list :: key in fold
  {
    seq(|list| - staged, i requires 0 <= i < |list| - staged => Material(epoch, rid, list[staged + i], fold[list[staged + i]].entity, at))
  }

  lemma RestIsChunk(fold: Fold, list: seq<Key>, epoch: nat, rid: string, staged: nat, at: string)
    requires staged <= |list| && forall key | key in list :: key in fold
    ensures IsChunk(RestOf(fold, list, epoch, rid, staged, at), epoch, rid, fold, list, staged, |list|, at)
  {
  }

  /** A restore with everything staged and nobody in its way: what the rest of a commit needs. */
  ghost predicate ReadyToFlip(s: Service, rid: string) {
    var t := s.tables;
    && IsStaging(t.restores, rid) && t.repo.epoch == t.restores[rid].from && NoIntruder(t.ops, t.restores[rid])
    && StagedCount(t.ops, t.restores[rid]) == t.restores[rid].entityCount
  }

  /** One more turn, of all that is left. */
  lemma LastTurn(s: Service, rid: string, at: string, now: int, less: KeyOrder) returns (next: Service)
    requires StrictOrder(less) && Reachable(s, less) && IsStaging(s.tables.restores, rid)
    requires NoIntruder(s.tables.ops, s.tables.restores[rid])
    ensures ReachedFrom(s, next, less) && ReadyToFlip(next, rid)
    ensures var t, after := s.tables, next.tables;
            && after.backups == t.backups && SameRestore(t.restores[rid], after.restores[rid])
            && t.restores[rid].source in t.backups
            && Kept(after.ops, t.backups[t.restores[rid].source]) == Kept(t.ops, t.backups[t.restores[rid].source])
  {
    hide CheckpointTrue, FlightTrue, FoldAt, IsChunk, StagedRun, Landed, BackupTrue, LogTrue, Staged, RestoresTrue, Run, Final,
      StagedCount, Reachable, TablesTrue, UnderWay, MayStage, Enabled, Orderly, NoIntruder, RestOf, Log, RestoreOrder, ReachedFrom;
    ReachableInv(s, less);
    var t, r := s.tables, s.tables.restores[rid];
    CountNow(t, less, rid);
    var fold, list := Kept(t.ops, t.backups[r.source]), RestoreOrder(Kept(t.ops, t.backups[r.source]), less);
    SoFar(t, less, rid, fold);
    OrderDistinct(fold, less);
    var batch := RestOf(fold, list, r.into, rid, |Log(t.ops, r.into)|, at);
    RestIsChunk(fold, list, r.into, rid, |Log(t.ops, r.into)|, at);
    TurnEnabled(s, rid, batch, at, now, less);
    HeldIsOrderly(s, StageStep(rid, batch, now, false), less);
    StartReached(s, less);
    next := ReachOn(s, s, StageStep(rid, batch, now, false), less);
    FreshTurnAdvances(s, rid, batch, at, now, less);
    StillReady(s, rid, batch, now, next, less);
  }

  lemma StartReached(s: Service, less: KeyOrder)
    requires StrictOrder(less)
    ensures ReachedFrom(s, s, less)
  {
    assert Run(s, [], less) && Final(s, []) == s;
  }

  /** What is staged is part of the backup, whose entities were counted. */
  lemma SoFar(t: Tables, less: KeyOrder, rid: string, fold: Fold)
    requires StrictOrder(less) && TablesTrue(t, less) && IsStaging(t.restores, rid) && t.restores[rid].source in t.backups
    requires fold == Kept(t.ops, t.backups[t.restores[rid].source])
    ensures |Log(t.ops, t.restores[rid].into)| <= |fold| == t.restores[rid].entityCount
    ensures t.restores[rid].into != t.restores[rid].from && t.backups[t.restores[rid].source].cutoff <= t.repo.lastSeq
  {
    hide CheckpointTrue, FlightTrue, FoldAt, StagedRun, Landed, LogTrue, StagedCount;
    var r := t.restores[rid];
    assert RestoreTrue(r, rid, t.repo, t.ops, t.backups, less);
    assert BackupTrue(t.backups[r.source], Log(t.ops, t.backups[r.source].epoch), t.repo.lastSeq);
    FillsNext(t.restores, t.repo, t.ops, t.backups, less, rid);
  }

  lemma TurnEnabled(s: Service, rid: string, batch: seq<Draft>, at: string, now: int, less: KeyOrder)
    requires StrictOrder(less) && IsStaging(s.tables.restores, rid) && s.tables.restores[rid].source in s.tables.backups
    requires var t, r := s.tables, s.tables.restores[rid];
             var fold, n := Kept(t.ops, t.backups[r.source]), |Log(t.ops, r.into)|;
             IsChunk(batch, r.into, rid, fold, RestoreOrder(fold, less), n, n + |batch|, at)
    ensures Enabled(s, StageStep(rid, batch, now, false), less)
  {
    hide IsChunk, FoldAt, Log, RestoreOrder;
    assert IsTurn(s.tables.ops, s.tables.restores[rid], rid, s.tables.backups[s.tables.restores[rid].source], less, batch);
  }

  /** The turn leaves the restore as it was but for its progress, and no row in the old epoch. */
  lemma StillReady(s: Service, rid: string, batch: seq<Draft>, now: int, next: Service, less: KeyOrder)
    requires StrictOrder(less) && IsStaging(s.tables.restores, rid) && s.tables.restores[rid].from == s.tables.repo.epoch
    requires s.tables.restores[rid].into != s.tables.restores[rid].from && s.tables.restores[rid].source in s.tables.backups
    requires s.tables.backups[s.tables.restores[rid].source].cutoff <= s.tables.repo.lastSeq
    requires NoIntruder(s.tables.ops, s.tables.restores[rid]) && next == Next(s, StageStep(rid, batch, now, false))
    ensures var t, after, r := s.tables, next.tables, s.tables.restores[rid];
            && after == StageRestore(t, rid, batch, now)
            && IsStaging(after.restores, rid) && after.repo.epoch == t.repo.epoch && NoIntruder(after.ops, after.restores[rid])
            && after.backups == t.backups && SameRestore(r, after.restores[rid])
            && Kept(after.ops, t.backups[r.source]) == Kept(t.ops, t.backups[r.source])
  {
    hide FoldAt, Landed, Log;
    var t, r := s.tables, s.tables.restores[rid];
    TurnWrites(t, rid, batch, now, next.tables);
    LandedSlots(IdsOf(t.ops, r.into), r.into, t.repo.lastSeq, batch, now);
    var rows := Landed(IdsOf(t.ops, r.into), r.into, t.repo.lastSeq, batch, now);
    OthersUnchanged(t.ops, rows, r.into, t.repo.lastSeq, t.repo.lastSeq + |batch|, r.from);
    KeptAppend(t.backups[r.source], t.ops, rows, r.into, t.repo.lastSeq, t.repo.lastSeq + |batch|);
  }

  /** A restore in whose way nothing has come can be finished, and its epoch is then the live one, with the backup whole in it. */
  lemma RestoreFinishes(s: Service, rid: string, at: string, now: int, less: KeyOrder) returns (after: Service)
    requires StrictOrder(less) && Reachable(s, less) && IsStaging(s.tables.restores, rid)
    requires AllAtMost(Log(s.tables.ops, s.tables.restores[rid].from), s.tables.restores[rid].guard)
    ensures ReachedFrom(s, after, less)
    ensures var t, done, r := s.tables, after.tables, s.tables.restores[rid];
            && done.repo.epoch == r.into && rid in done.restores && done.restores[rid].committed
            && r.source in t.backups
            && var kept := Kept(t.ops, t.backups[r.source]);
               && StagedRun(Log(done.ops, r.into), r.into, rid, kept, RestoreOrder(kept, less))
               && (FoldsBack(kept, FoldAt(Log(done.ops, done.repo.epoch), done.repo.lastSeq)) <==> Restorable(kept, less))
  {
    hide CheckpointTrue, FlightTrue, FoldAt, StagedRun, Run, Final, Reachable, TablesTrue, Log, RestoreOrder, ReachedFrom, FoldsBack,
      Restorable, StagedCount;
    var staged := LastTurn(s, rid, at, now, less);
    var checked := Checks(s, staged, rid, less);
    ReachedReaches(s, checked, less);
    CheckedIsWhole(checked, rid, less);
    FlipFoldsBack(checked, rid, less);
    FlipMoves(checked, rid);
    after := ReachOn(s, checked, FlipStep(rid), less);
  }

  /** The questions a commit asks, one after another. */
  lemma Checks(first: Service, s: Service, rid: string, less: KeyOrder) returns (checked: Service)
    requires StrictOrder(less) && ReachedFrom(first, s, less) && ReadyToFlip(s, rid)
    ensures ReachedFrom(first, checked, less) && checked.tables == s.tables && rid in checked.checks
  {
    hide StagedCount, NoIntruder, ReachedFrom;
    var begun := ReachOn(first, s, OpenStep(rid), less);
    var found := ReachOn(first, begun, FindStep(rid), less);
    var counted := ReachOn(first, found, CountStep(rid), less);
    checked := ReachOn(first, counted, CheckStep(rid), less);
  }

  // ----- What a commit can lose -----------------------------------------------------------

  /** A push that lands a row: one taken, of a batch with an id the epoch lacks. */
  predicate LandsIn(s: Service, step: Step, epoch: nat) {
    && step.PushStep? && step.epoch == epoch && Admits(s.tables.repo, epoch, step.vocabulary)
    && !(DraftIds(step.batch) <= IdsOf(s.tables.ops, epoch))
  }

  /** No push lands a row in an epoch along these steps. */
  predicate Quiet(s: Service, steps: seq<Step>, epoch: nat)
    decreases |steps|
  {
    steps == [] || (!LandsIn(s, steps[0], epoch) && Quiet(Next(s, steps[0]), steps[1..], epoch))
  }

  /** Only a push that lands a row changes the log of an epoch that has gone live. */
  lemma LogStep(s: Service, step: Step, epoch: nat, less: KeyOrder)
    requires StrictOrder(less) && RestoresSound(s.tables) && Enabled(s, step, less) && epoch <= s.tables.repo.epoch
    ensures Log(Next(s, step).tables.ops, epoch) == Log(s.tables.ops, epoch) <==> !LandsIn(s, step, epoch)
  {
    hide MayStage, Captured, FlightTrue, StagedCount, NoIntruder, Asks, InEpoch, BeginHeld, InUse, Landed, Log, IdsOf,
      RestoresSound,
      StageRestore, Flip, DraftIds;
    var t := s.tables;
    match step
    case PushStep(at, vocabulary, batch, now) =>
      if Admits(t.repo, at, vocabulary) {
        PushRows(t, at, batch, now, epoch);
      }
    case StageStep(rid, batch, now, torn) => StageRows(s, rid, batch, now, torn, epoch);
    case FlipStep(rid) => FlipElsewhere(t, rid);
    case _ =>
  }

  lemma PushRows(t: Tables, epoch: nat, batch: seq<Draft>, now: int, other: nat)
    ensures var rows := Landed(IdsOf(t.ops, epoch), epoch, t.repo.lastSeq, batch, now);
            Log(t.ops + rows, other) == Log(t.ops, other) <==> other != epoch || DraftIds(batch) <= IdsOf(t.ops, epoch)
  {
    hide Log, Landed;
    var rows := Landed(IdsOf(t.ops, epoch), epoch, t.repo.lastSeq, batch, now);
    LandedSlots(IdsOf(t.ops, epoch), epoch, t.repo.lastSeq, batch, now);
    LandedIds(IdsOf(t.ops, epoch), epoch, t.repo.lastSeq, batch, now);
    OthersUnchanged(t.ops, rows, epoch, t.repo.lastSeq, t.repo.lastSeq + |batch|, other);
    assert IdsOf([], epoch) == {};
    if rows != [] {
      assert rows[0] in rows && rows[0].opId in IdsOf(rows, epoch);
      assert rows[0].opId in DraftIds(batch) && rows[0].opId !in IdsOf(t.ops, epoch);
      assert |Log(t.ops, epoch) + rows| > |Log(t.ops, epoch)|;
    } else {
      assert DraftIds(batch) - IdsOf(t.ops, epoch) == {};
      forall id | id in DraftIds(batch) ensures id in IdsOf(t.ops, epoch) {
        assert id !in DraftIds(batch) - IdsOf(t.ops, epoch);
      }
      assert t.ops + rows == t.ops;
    }
  }

  lemma StageRows(s: Service, rid: string, batch: seq<Draft>, now: int, torn: bool, epoch: nat)
    requires RestoresSound(s.tables) && rid in s.tables.restores && epoch <= s.tables.repo.epoch
    ensures Log(Next(s, StageStep(rid, batch, now, torn)).tables.ops, epoch) == Log(s.tables.ops, epoch)
  {
    hide Landed, Log, RecordProgress, LandsAbove;
    var t, r := s.tables, s.tables.restores[rid];
    if t.repo.epoch == r.from {
      LandedSlots(IdsOf(t.ops, r.into), r.into, t.repo.lastSeq, batch, now);
      OthersUnchanged(t.ops, Landed(IdsOf(t.ops, r.into), r.into, t.repo.lastSeq, batch, now), r.into,
                      t.repo.lastSeq, t.repo.lastSeq + |batch|, epoch);
    }
  }

  /** An epoch's log is where it was at the end of a trace exactly when the trace was quiet in it. */
  lemma {:induction false} QuietIff(s: Service, steps: seq<Step>, epoch: nat, less: KeyOrder)
    requires StrictOrder(less) && Sound(s) && Trace(s, steps, less) && epoch <= s.tables.repo.epoch
    ensures Log(Final(s, steps).tables.ops, epoch) == Log(s.tables.ops, epoch) <==> Quiet(s, steps, epoch)
    decreases |steps|
  {
    hide Sound, Enabled, Next, LandsIn, Log, RestoresSound, OpsSound, IdsOnce;
    if steps != [] {
      var next := Next(s, steps[0]);
      SoundParts(s);
      LogStep(s, steps[0], epoch, less);
      StepSound(s, steps[0], less);
      TraceSound(next, steps[1..], less);
      QuietIff(next, steps[1..], epoch, less);
      LogOnward(s.tables, next.tables, epoch);
      LogOnward(next.tables, Final(next, steps[1..]).tables, epoch);
    }
  }

  /** A restore's row keeps what it is of along every trace. */
  lemma {:induction false} RestoreStays(s: Service, steps: seq<Step>, rid: string, less: KeyOrder)
    requires StrictOrder(less) && Trace(s, steps, less) && rid in s.tables.restores
    ensures rid in Final(s, steps).tables.restores
    ensures SameRestore(s.tables.restores[rid], Final(s, steps).tables.restores[rid])
    decreases |steps|
  {
    hide Enabled, Next;
    if steps != [] {
      StepRestores(s, steps[0], less);
      RestoreStays(Next(s, steps[0]), steps[1..], rid, less);
    }
  }

  /** A backup once written is there, unchanged, until it is deleted, and does not come back. */
  lemma {:induction false} BackupThereIff(s: Service, steps: seq<Step>, id: string, less: KeyOrder)
    requires StrictOrder(less) && Trace(s, steps, less) && id in s.used
    ensures var before, after := s.tables.backups, Final(s, steps).tables.backups;
            && (id in after <==> id in before && DeleteStep(id) !in steps)
            && (id in after ==> after[id] == before[id])
    decreases |steps|
  {
    hide Enabled, Next;
    if steps != [] {
      var next := Next(s, steps[0]);
      BackupStep(s, steps[0], id, less);
      BackupThereIff(next, steps[1..], id, less);
      assert DeleteStep(id) in steps <==> steps[0] == DeleteStep(id) || DeleteStep(id) in steps[1..];
    }
  }

  lemma BackupStep(s: Service, step: Step, id: string, less: KeyOrder)
    requires StrictOrder(less) && Enabled(s, step, less) && id in s.used
    ensures var before, after := s.tables.backups, Next(s, step).tables.backups;
            && id in Next(s, step).used
            && (id in after <==> id in before && step != DeleteStep(id))
            && (id in after ==> after[id] == before[id])
  {
    hide MayStage, Captured, FlightTrue, StagedCount, NoIntruder, Asks, InEpoch, BeginHeld, InUse, Push, StageRestore,
      Flip;
    StepBackups(s, step);
    DeleteTakes(s, id);
  }

  lemma DeleteTakes(s: Service, id: string)
    ensures id !in Next(s, DeleteStep(id)).tables.backups
  {
  }

  /** The undo holds all of the epoch the restore left. */
  ghost predicate UndoWhole(ops: seq<Op>, r: Restore, undo: Backup) {
    undo.epoch == r.from && UpTo(Log(ops, r.from), undo.cutoff) == Log(ops, r.from)
  }

  /**
   * Commit asks whether an operation landed since the restore began, and flips in a later transaction.
   * Whatever the service does between the two, if the flip goes through its undo is there after exactly
   * when it was there at the question and was not deleted since; and if it is there, it holds the whole log
   * of the epoch the flip leaves behind, and so the fold of everything that epoch ever held, exactly when
   * no push landed a row in it since.
   */
  lemma CommitKeepsIff(s: Service, steps: seq<Step>, rid: string, less: KeyOrder)
    requires StrictOrder(less) && Traced(s, less) && Enabled(s, CheckStep(rid), less)
    requires Trace(Next(s, CheckStep(rid)), steps, less)
    requires Final(Next(s, CheckStep(rid)), steps).tables.repo.epoch == s.tables.restores[rid].from
    ensures var checked := Next(s, CheckStep(rid));
            var r, after := s.tables.restores[rid], Next(Final(checked, steps), FlipStep(rid)).tables;
            && after.repo.epoch == r.into
            && (r.undo in after.backups <==> r.undo in s.tables.backups && DeleteStep(r.undo) !in steps)
            && (r.undo in after.backups ==>
                  && (UndoWhole(after.ops, r, after.backups[r.undo]) <==> Quiet(checked, steps, r.from))
                  && (Quiet(checked, steps, r.from) ==>
                        Kept(after.ops, after.backups[r.undo]) == FoldLog(map[], Log(after.ops, r.from))))
  {
    hide Trace, Final, Traced, Sound, Quiet, Log, UpTo, NoIntruder, RestoresSound, UndosSound, OpsSound, IdsOnce,
      Onward;
    var checked := Next(s, CheckStep(rid));
    var f, r := Final(checked, steps), s.tables.restores[rid];
    CommitTrace(s, steps, rid, less);
    UndoHolds(s.tables, f.tables, r);
    FlipGoes(f, rid, r);
  }

  /** What holds at a flip of what the commit asked. */
  lemma CommitTrace(s: Service, steps: seq<Step>, rid: string, less: KeyOrder)
    requires StrictOrder(less) && Traced(s, less) && Enabled(s, CheckStep(rid), less)
    requires Trace(Next(s, CheckStep(rid)), steps, less)
    requires Final(Next(s, CheckStep(rid)), steps).tables.repo.epoch == s.tables.restores[rid].from
    ensures var checked := Next(s, CheckStep(rid));
            var f, r := Final(checked, steps), s.tables.restores[rid];
            && rid in f.tables.restores && SameRestore(r, f.tables.restores[rid])
            && Onward(s.tables, f.tables) && r.guard <= s.tables.repo.lastSeq && r.into == r.from + 1
            && IsLog(Log(f.tables.ops, r.from))
            && (r.undo in f.tables.backups <==> r.undo in s.tables.backups && DeleteStep(r.undo) !in steps)
            && (r.undo in f.tables.backups ==> UndoFor(r, f.tables.backups[r.undo]))
            && (Log(f.tables.ops, r.from) == Log(s.tables.ops, r.from) <==> Quiet(checked, steps, r.from))
  {
    hide Trace, Final, Traced, Quiet, Log, NoIntruder, OpsSound, IdsOnce, Onward, GuardsSound, BeginsTrue, HeldSound,
      Sound, Enabled;
    CheckedSame(s, rid, less);
    var checked := Next(s, CheckStep(rid));
    var f, r := Final(checked, steps), s.tables.restores[rid];
    TracedSound(s, less);
    StepSound(s, CheckStep(rid), less);
    TraceSound(checked, steps, less);
    RestoreStays(checked, steps, rid, less);
    RestoreIs(s, rid);
    BackupThereIff(checked, steps, r.undo, less);
    QuietIff(checked, steps, r.from, less);
    SoundLog(f, r.from);
  }

  lemma CheckedSame(s: Service, rid: string, less: KeyOrder)
    requires StrictOrder(less) && Enabled(s, CheckStep(rid), less)
    ensures rid in s.tables.restores && NoIntruder(s.tables.ops, s.tables.restores[rid])
    ensures Next(s, CheckStep(rid)).tables == s.tables && Next(s, CheckStep(rid)).used == s.used
  {
  }

  lemma RestoreIs(s: Service, rid: string)
    requires Sound(s) && rid in s.tables.restores
    ensures var t, r := s.tables, s.tables.restores[rid];
            && r.into == r.from + 1 && r.from <= t.repo.epoch && r.guard <= t.repo.lastSeq && r.undo in s.used
            && (r.undo in t.backups ==> UndoFor(r, t.backups[r.undo]))
  {
    hide OpsSound, GuardsSound, BeginsTrue, HeldSound;
  }

  lemma FlipGoes(f: Service, rid: string, r: Restore)
    requires rid in f.tables.restores && SameRestore(r, f.tables.restores[rid]) && f.tables.repo.epoch == r.from
    ensures var after := Next(f, FlipStep(rid)).tables;
            after.repo.epoch == r.into && after.ops == f.tables.ops && after.backups == f.tables.backups
  {
  }

  lemma UndoHolds(asked: Tables, flipped: Tables, r: Restore)
    requires Onward(asked, flipped) && r.guard <= asked.repo.lastSeq && NoIntruder(asked.ops, r)
    ensures UpTo(Log(flipped.ops, r.from), r.guard) == Log(flipped.ops, r.from)
            <==> Log(flipped.ops, r.from) == Log(asked.ops, r.from)
  {
    var log, now := Log(asked.ops, r.from), Log(flipped.ops, r.from);
    LogOnward(asked, flipped, r.from);
    var more :| now == log + more && AllAbove(more, asked.repo.lastSeq);
    UpToSplit(log, more, r.guard);
    if log == now {
      assert more == [];
    }
  }

  /** What is kept of an operation of the epoch left behind: it is in what the undo holds, or in the epoch now live. */
  ghost predicate IsKept(t: Tables, r: Restore, op: Op) {
    || (r.undo in t.backups && op in UpTo(Log(t.ops, r.from), t.backups[r.undo].cutoff))
    || op in Log(t.ops, t.repo.epoch)
  }

  /**
   * So a flip that goes through keeps every operation of the epoch it leaves exactly when its undo was not
   * deleted and no push landed a row there since the question, or there was never an operation there to keep.
   */
  lemma CommitLosesIff(s: Service, steps: seq<Step>, rid: string, less: KeyOrder)
    requires StrictOrder(less) && Traced(s, less) && Enabled(s, CheckStep(rid), less)
    requires Trace(Next(s, CheckStep(rid)), steps, less)
    requires Final(Next(s, CheckStep(rid)), steps).tables.repo.epoch == s.tables.restores[rid].from
    ensures var checked := Next(s, CheckStep(rid));
            var r, after := s.tables.restores[rid], Next(Final(checked, steps), FlipStep(rid)).tables;
            (forall op | op in Log(after.ops, r.from) :: IsKept(after, r, op))
            <==> Quiet(checked, steps, r.from)
                 && ((r.undo in s.tables.backups && DeleteStep(r.undo) !in steps) || Log(s.tables.ops, r.from) == [])
  {
    hide Trace, Final, Traced, Sound, Quiet, UpTo, RestoresSound, UndosSound, OpsSound, IdsOnce, Onward, Log;
    var checked := Next(s, CheckStep(rid));
    var f, r := Final(checked, steps), s.tables.restores[rid];
    CommitTrace(s, steps, rid, less);
    CheckedSame(s, rid, less);
    UndoHolds(s.tables, f.tables, r);
    FlipGoes(f, rid, r);
    KeptIff(f.tables, s.tables, Next(f, FlipStep(rid)).tables, r);
  }

  lemma KeptIff(f: Tables, asked: Tables, after: Tables, r: Restore)
    requires IsLog(Log(f.ops, r.from)) && after.ops == f.ops && after.backups == f.backups && after.repo.epoch != r.from
    requires r.undo in f.backups ==> f.backups[r.undo].cutoff == r.guard
    requires UpTo(Log(f.ops, r.from), r.guard) == Log(f.ops, r.from) <==> Log(f.ops, r.from) == Log(asked.ops, r.from)
    requires Onward(asked, f) && NoIntruder(asked.ops, r)
    ensures (forall op | op in Log(after.ops, r.from) :: IsKept(after, r, op))
            <==> Log(f.ops, r.from) == Log(asked.ops, r.from) && (r.undo in f.backups || Log(asked.ops, r.from) == [])
  {
    hide Log, UpTo;
    var log := Log(f.ops, r.from);
    LogOnward(asked, f, r.from);
    forall op | op in log ensures op !in Log(after.ops, after.repo.epoch) {
      LogHas(f.ops, r.from, op);
      LogHas(f.ops, after.repo.epoch, op);
    }
    if log != Log(asked.ops, r.from) {
      LastIsLost(log, r.guard);
    }
    if log != [] {
      assert log[0] in log;
    }
  }

  lemma LastIsLost(log: seq<Op>, guard: nat)
    requires IsLog(log) && UpTo(log, guard) != log
    ensures exists op | op in log :: op !in UpTo(log, guard)
  {
    AfterIsAbove(log, guard);
    var op := After(log, guard)[0];
    assert log[|UpTo(log, guard)|] == op;
    assert op in log;
    assert op !in UpTo(log, guard) by {
      assert guard < op.seqno && AllAtMost(UpTo(log, guard), guard);
    }
  }
}
