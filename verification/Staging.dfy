/** What a restore stages: a backup's entities as operations of a new epoch (worker/src/backups.ts). */
module Staging {
  import opened Types
  import opened Listing
  import opened Pages
  import opened OpLog

  /** The verb a folded entity becomes: the inverse of the fold. */
  function MaterialVerb(entity: Entity): Verb {
    if entity.deletedAt.Some? then Delete else if entity.superseded then Replace else Create
  }

  function MaterialPayload(entity: Entity): Fields {
    if entity.deletedAt.Some? then map[] else entity.state
  }

  /** The operation a restore writes for an entity, in a turn run at `at`. */
  function Material(epoch: nat, restore: string, key: Key, entity: Entity, at: string): Draft {
    Draft(Minted(epoch, restore, key), key, MaterialVerb(entity), MaterialPayload(entity),
          Some(entity.createdBy.GetOr("restore:" + restore)), entity.createdAt.GetOr(at))
  }

  ghost predicate IsStaged(op: Op, epoch: nat, restore: string, key: Key, entity: Entity) {
    op == Row(Material(epoch, restore, key, entity, op.createdAt), op.seqno, epoch, op.serverTs)
  }

  /** Rows that stage these entities, one each and in this order. */
  ghost predicate StagedRun(rows: seq<Op>, epoch: nat, restore: string, fold: Fold, keys: seq<Key>) {
    && |rows| == |keys|
    && forall i | 0 <= i < |rows| :: keys[i] in fold && IsStaged(rows[i], epoch, restore, keys[i], fold[keys[i]].entity)
  }

  ghost predicate Distinct(keys: seq<Key>) {
    forall i, j | 0 <= i < j < |keys| :: keys[i] != keys[j]
  }

  lemma OrderDistinct(fold: Fold, less: KeyOrder)
    requires StrictOrder(less)
    ensures Distinct(RestoreOrder(fold, less))
    ensures forall key :: key in RestoreOrder(fold, less) <==> key in fold
  {
    var order := StageLess(fold, less);
    StageLessOrders(fold, less);
    SortedLists(fold.Keys, order);
    var list := RestoreOrder(fold, less);
    forall i, j | 0 <= i < j < |list| ensures list[i] != list[j] {
      Asymmetric(order, list[i], list[j]);
    }
  }

  lemma StagedIds(rows: seq<Op>, epoch: nat, restore: string, fold: Fold, keys: seq<Key>)
    requires StagedRun(rows, epoch, restore, fold, keys)
    ensures IdsOf(rows, epoch) == set key | key in keys :: Minted(epoch, restore, key)
  {
    forall key | key in keys ensures Minted(epoch, restore, key) in IdsOf(rows, epoch) {
      var i :| 0 <= i < |keys| && keys[i] == key;
      assert rows[i] in rows;
    }
  }

  lemma StagedJoin(first: seq<Op>, rest: seq<Op>, epoch: nat, restore: string, fold: Fold, a: seq<Key>, b: seq<Key>)
    requires StagedRun(first, epoch, restore, fold, a) && StagedRun(rest, epoch, restore, fold, b)
    ensures StagedRun(first + rest, epoch, restore, fold, a + b)
  {
  }

  /** What a turn leaves to stage of `list[from..end]` when the first `done` are staged already. */
  function Left(list: seq<Key>, from: nat, end: nat, done: nat): seq<Key>
    requires from <= done <= |list| && from <= end <= |list|
  {
    if end <= done then [] else list[done..end]
  }

  /** The first `done` of a list, and no more of it, have their ids in the epoch's log. */
  ghost predicate StagedSoFar(present: set<OpId>, epoch: nat, restore: string, list: seq<Key>, done: nat) {
    forall i | 0 <= i < |list| :: Minted(epoch, restore, list[i]) in present <==> i < done
  }

  /** A turn's batch: the entities of `list[from..end]`, each as the operation it becomes. */
  ghost predicate IsChunk(batch: seq<Draft>, epoch: nat, restore: string, fold: Fold, list: seq<Key>, from: nat,
                          end: nat, at: string) {
    && from <= end <= |list| && |batch| == end - from
    && forall i | from <= i < end :: list[i] in fold && batch[i - from] == Material(epoch, restore, list[i], fold[list[i]].entity, at)
  }

  /**
   * A turn stages exactly what is left of its chunk, however stale the progress it read: the entities
   * staged since keep their one row, and the rest follow them in order.
   */
  lemma {:induction false} TurnLands(present: set<OpId>, epoch: nat, restore: string, fold: Fold, list: seq<Key>,
                                     from: nat, end: nat, done: nat, base: nat, batch: seq<Draft>, at: string, now: int)
    requires Distinct(list) && from <= done <= |list| && IsChunk(batch, epoch, restore, fold, list, from, end, at)
    requires StagedSoFar(present, epoch, restore, list, done)
    ensures StagedRun(Landed(present, epoch, base, batch, now), epoch, restore, fold, Left(list, from, end, done))
    decreases end
  {
    var rows := Landed(present, epoch, base, batch, now);
    if from < end {
      var n := |batch| - 1;
      TurnLands(present, epoch, restore, fold, list, from, end - 1, done, base, batch[..n], at, now);
      assert batch[n] == Material(epoch, restore, list[end - 1], fold[list[end - 1]].entity, at);
      OneMoreStaged(present, epoch, restore, fold, list, from, end, done, Landed(present, epoch, base, batch[..n], now),
                    Row(batch[n], base + |batch|, epoch, now), rows);
    } else {
      assert rows == [] && Left(list, from, end, done) == [];
    }
  }

  /** One more entity of a turn's chunk: skipped when it is staged already, next in order when not. */
  lemma OneMoreStaged(present: set<OpId>, epoch: nat, restore: string, fold: Fold, list: seq<Key>,
                      from: nat, end: nat, done: nat, rows: seq<Op>, row: Op, after: seq<Op>)
    requires Distinct(list) && from <= done <= |list| && from < end <= |list|
    requires StagedSoFar(present, epoch, restore, list, done)
    requires StagedRun(rows, epoch, restore, fold, Left(list, from, end - 1, done))
    requires list[end - 1] in fold && IsStaged(row, epoch, restore, list[end - 1], fold[list[end - 1]].entity)
    requires after == if row.opId in present + IdsOf(rows, epoch) then rows else rows + [row]
    ensures StagedRun(after, epoch, restore, fold, Left(list, from, end, done))
  {
    hide StagedRun, IdsOf, Distinct;
    var last := end - 1;
    assert row.opId == Minted(epoch, restore, list[last]);
    StagedIds(rows, epoch, restore, fold, Left(list, from, last, done));
    if done <= last {
      NotLeftYet(list, from, last, done);
      assert Left(list, from, end, done) == Left(list, from, last, done) + [list[last]];
      OneStaged(row, epoch, restore, fold, list[last]);
      StagedJoin(rows, [row], epoch, restore, fold, Left(list, from, last, done), [list[last]]);
    } else {
      assert Left(list, from, end, done) == Left(list, from, last, done) == [];
    }
  }

  lemma NotLeftYet(list: seq<Key>, from: nat, last: nat, done: nat)
    requires Distinct(list) && from <= done <= last < |list|
    ensures list[last] !in Left(list, from, last, done)
  {
  }

  lemma OneStaged(row: Op, epoch: nat, restore: string, fold: Fold, key: Key)
    requires key in fold && IsStaged(row, epoch, restore, key, fold[key].entity)
    ensures StagedRun([row], epoch, restore, fold, [key])
  {
  }
}
