/** The service's tables, and what each of its transactions does to them (worker/migrations, worker/src). */
module Transactions {
  import opened Types
  import opened FoldRule
  import opened FoldRun
  import opened Checkpoint
  import opened OpLog

  datatype Repo = Repo(epoch: nat, lastSeq: nat, vocabulary: Option<Vocabulary>)

  datatype Backup = Backup(epoch: nat, cutoff: nat, entityCount: nat, opCount: nat, kinds: map<string, nat>)

  datatype Restore = Restore(
    source: string,
    undo: string,
    from: nat,
    into: nat,
    guard: nat,
    entityCount: nat,
    committed: bool,
    stagedCount: nat,
    stagedSeq: Option<nat>)

  datatype Tables = Tables(
    repo: Repo,
    ops: seq<Op>,
    folds: map<nat, Checkpoint>,
    backups: map<string, Backup>,
    restores: map<string, Restore>)

  function CheckpointOf(folds: map<nat, Checkpoint>, epoch: nat): Checkpoint {
    if epoch in folds then folds[epoch] else EMPTY
  }

  // ----- Push -----------------------------------------------------------------------------

  /** The reservation's predicate: still on the session's epoch, and holding this vocabulary or none. */
  predicate Admits(repo: Repo, epoch: nat, vocabulary: Vocabulary) {
    repo.epoch == epoch && (repo.vocabulary.None? || repo.vocabulary == Some(vocabulary))
  }

  /** A push: reserve a slot for each operation, claim the vocabulary, and insert what is new. */
  function Push(t: Tables, epoch: nat, vocabulary: Vocabulary, batch: seq<Draft>, now: int): Tables {
    if Admits(t.repo, epoch, vocabulary) then
      t.(repo := t.repo.(lastSeq := t.repo.lastSeq + |batch|, vocabulary := Some(vocabulary)),
         ops := t.ops + Landed(IdsOf(t.ops, epoch), epoch, t.repo.lastSeq, batch, now))
    else t
  }

  // ----- The fold checkpoint --------------------------------------------------------------

  /** A fold step's one batch. */
  function WriteFold(t: Tables, epoch: nat, flight: Flight): Tables {
    t.(folds := t.folds[epoch := WriteStep(CheckpointOf(t.folds, epoch), flight)])
  }

  // ----- Backups --------------------------------------------------------------------------

  /** The keys of kinds a count has gone over. */
  function Over(keys: set<Key>, todo: set<string>): set<Key> {
    set key | key in keys && key.Kind() !in todo
  }

  lemma OverOne(kinds: map<string, nat>, keys: set<Key>, todo: set<string>, kind: string)
    requires KindsTrue(kinds, keys) && kind in todo && kind in kinds
    ensures |Over(keys, todo - {kind})| == |Over(keys, todo)| + kinds[kind]
  {
    assert Over(keys, todo) !! OfKind(keys, kind);
    assert Over(keys, todo - {kind}) == Over(keys, todo) + OfKind(keys, kind);
  }

  /** How many entities a mark counts (`entityCount`): as many as any fold it is a true count of has. */
  method CountEntities(mark: Mark) returns (count: nat)
    ensures forall keys | KindsTrue(mark.kinds, keys) :: count == |keys|
  {
    count := 0;
    var todo := mark.kinds.Keys;
    forall keys | KindsTrue(mark.kinds, keys) ensures Over(keys, todo) == {} {
    }
    while todo != {}
      invariant todo <= mark.kinds.Keys
      invariant forall keys | KindsTrue(mark.kinds, keys) :: count == |Over(keys, todo)|
      decreases todo
    {
      var kind :| kind in todo;
      forall keys | KindsTrue(mark.kinds, keys) ensures |Over(keys, todo - {kind})| == |Over(keys, todo)| + mark.kinds[kind] {
        OverOne(mark.kinds, keys, todo, kind);
      }
      count := count + mark.kinds[kind];
      todo := todo - {kind};
    }
    forall keys | KindsTrue(mark.kinds, keys) ensures Over(keys, {}) == keys {
    }
  }

  /** The row a capture writes for a mark. */
  ghost predicate Captures(backup: Backup, mark: Mark) {
    && backup.cutoff == mark.seqno && backup.opCount == mark.opCount && backup.kinds == mark.kinds
    && forall keys | KindsTrue(mark.kinds, keys) :: backup.entityCount == |keys|
  }

  function InsertBackup(t: Tables, id: string, backup: Backup): Tables {
    t.(backups := t.backups[id := backup])
  }

  predicate Uses(restore: Restore, id: string) {
    !restore.committed && (restore.source == id || restore.undo == id)
  }

  /** What a delete asks: whether a restore in flight reads the backup or would be undone by it. */
  predicate InUse(restores: map<string, Restore>, id: string) {
    exists rid | rid in restores :: Uses(restores[rid], id)
  }

  /** A delete's one statement, which asks nothing again. */
  function DeleteBackup(t: Tables, id: string): Tables {
    t.(backups := t.backups - {id})
  }

  // ----- Restore --------------------------------------------------------------------------

  predicate IsStaging(restores: map<string, Restore>, rid: string) {
    rid in restores && !restores[rid].committed
  }

  /** Some restore is filling an epoch that is not live yet. */
  ghost predicate Filling(restores: map<string, Restore>, epoch: nat) {
    exists rid | rid in restores :: IsStaging(restores, rid) && restores[rid].into == epoch
  }

  /** What a request that is about to begin a restore has read of the repository and of its backup. */
  datatype Ticket = Ticket(epoch: nat, guard: nat, source: string, entityCount: nat)

  /** Begin's one batch: the new epoch's checkpoint starts at a mark holding nothing, and the audit row. */
  function BeginRestore(t: Tables, rid: string, ticket: Ticket, undo: string): Tables {
    var into := ticket.epoch + 1;
    t.(folds := t.folds[into := Checkpoint(map[], map[ticket.guard := Mark(ticket.guard, 0, map[])])],
       restores := t.restores[rid := Restore(ticket.source, undo, ticket.epoch, into, ticket.guard,
                                             ticket.entityCount, false, 0, None)])
  }

  /** `stagedCount`: what was recorded, and the rows above where it was recorded. */
  function StagedCount(ops: seq<Op>, r: Restore): nat {
    (if r.stagedSeq.None? then 0 else r.stagedCount) + |After(Log(ops, r.into), r.stagedSeq.GetOr(r.guard))|
  }

  /** The last statement of a stage turn: record what is staged up to the last seq reserved. */
  function RecordProgress(r: Restore, ops: seq<Op>, last: nat): Restore {
    if r.stagedSeq.None? || r.stagedSeq.value < last then
      r.(stagedCount := (if r.stagedSeq.None? then 0 else r.stagedCount)
                        + |Between(Log(ops, r.into), r.stagedSeq.GetOr(r.guard), last)|,
         stagedSeq := Some(last))
    else r
  }

  /** A stage turn's one batch: nothing is written once the repository has left the epoch it began in. */
  function StageRestore(t: Tables, rid: string, batch: seq<Draft>, now: int): Tables
    requires rid in t.restores
  {
    var r := t.restores[rid];
    var live := t.repo.epoch == r.from;
    var last := if live then t.repo.lastSeq + |batch| else t.repo.lastSeq;
    var ops := if live then t.ops + Landed(IdsOf(t.ops, r.into), r.into, t.repo.lastSeq, batch, now) else t.ops;
    t.(repo := t.repo.(lastSeq := last), ops := ops, restores := t.restores[rid := RecordProgress(r, ops, last)])
  }

  /** Commit's one batch: move the repository if it is still where the restore began, and mark the restore. */
  function Flip(t: Tables, rid: string): Tables
    requires rid in t.restores
  {
    var r := t.restores[rid];
    t.(repo := if t.repo.epoch == r.from then t.repo.(epoch := r.into) else t.repo,
       restores := t.restores[rid := r.(committed := true)])
  }
}
