/**
 * A repository's rows in D1, and the service's transactions on them statement by statement
 * (worker/src/push.ts, worker/src/backups.ts, worker/src/fold-store.ts). Each is proved to be the
 * transition the state machine in Service.dfy takes.
 */
module Repository {
  import opened Types
  import opened FoldRule
  import opened FoldRun
  import opened Checkpoint
  import opened Listing
  import opened OpLog
  import opened Transactions

  datatype Outcome = Applied | Duplicate

  datatype PushResult = PushResult(opId: OpId, outcome: Outcome, seqno: nat)

  datatype PullPage = PullPage(rows: seq<Op>, next: nat, hasMore: bool)

  predicate Stored(ops: seq<Op>, epoch: nat, id: OpId) {
    exists op | op in ops :: op.epoch == epoch && op.opId == id
  }

  /** One more statement of a batch: its `NOT EXISTS` sees the rows the statements before it landed. */
  lemma LandOne(before: seq<Op>, epoch: nat, base: nat, batch: seq<Draft>, now: int, j: nat)
    requires j < |batch|
    ensures var rows := Landed(IdsOf(before, epoch), epoch, base, batch[..j], now);
            Landed(IdsOf(before, epoch), epoch, base, batch[..j + 1], now)
            == if Stored(before + rows, epoch, batch[j].opId) then rows else rows + [Row(batch[j], base + j + 1, epoch, now)]
  {
    var rows := Landed(IdsOf(before, epoch), epoch, base, batch[..j], now);
    assert batch[..j + 1][..j] == batch[..j];
    assert Stored(before + rows, epoch, batch[j].opId) <==> batch[j].opId in IdsOf(before, epoch) + IdsOf(rows, epoch);
  }

  lemma NothingLanded(before: seq<Op>, epoch: nat, base: nat, batch: seq<Draft>, now: int)
    ensures before + Landed(IdsOf(before, epoch), epoch, base, batch[..0], now) == before
  {
    assert batch[..0] == [];
  }

  /** Statement `i` of a batch finds its id in the epoch neither before the batch nor among the rows before it. */
  ghost predicate TakesSlot(before: seq<Op>, epoch: nat, base: nat, batch: seq<Draft>, now: int, i: nat)
    requires i < |batch|
  {
    !Stored(before + Landed(IdsOf(before, epoch), epoch, base, batch[..i], now), epoch, batch[i].opId)
  }

  lemma SlotIsNew(before: seq<Op>, epoch: nat, base: nat, batch: seq<Draft>, now: int, i: nat)
    requires i < |batch|
    ensures TakesSlot(before, epoch, base, batch, now, i) <==> IsNew(IdsOf(before, epoch), batch, i)
  {
    hide Landed;
    var present := IdsOf(before, epoch);
    LandedIds(present, epoch, base, batch[..i], now);
    var rows := Landed(present, epoch, base, batch[..i], now);
    assert Stored(before + rows, epoch, batch[i].opId) <==> batch[i].opId in present + IdsOf(rows, epoch);
    assert batch[i].opId in DraftIds(batch[..i]) <==> exists k | 0 <= k < i :: batch[k].opId == batch[i].opId;
  }

  /** The rows of a batch store the drafts that took a slot, each in its own, and nothing else. */
  lemma RowsStore(before: seq<Op>, epoch: nat, base: nat, batch: seq<Draft>, now: int, applied: seq<bool>)
    requires |applied| == |batch|
    requires forall i | 0 <= i < |batch| :: applied[i] <==> TakesSlot(before, epoch, base, batch, now, i)
    ensures var rows := Landed(IdsOf(before, epoch), epoch, base, batch, now);
            && (forall op | op in rows :: exists i | 0 <= i < |batch| :: applied[i] && Stores(op, batch[i], base + i + 1, epoch, now))
            && (forall i | 0 <= i < |batch| && applied[i] :: exists op | op in rows :: Stores(op, batch[i], base + i + 1, epoch, now))
  {
    hide Landed, TakesSlot, IsNew;
    var present := IdsOf(before, epoch);
    var rows := Landed(present, epoch, base, batch, now);
    forall i | 0 <= i < |batch|
      ensures applied[i] ==> exists op | op in rows :: Stores(op, batch[i], base + i + 1, epoch, now)
      ensures !applied[i] ==> forall op | op in rows :: op.seqno != base + i + 1
    {
      SlotIsNew(before, epoch, base, batch, now, i);
      LandedWhich(present, epoch, base, batch, now, i);
    }
    forall op | op in rows ensures exists i | 0 <= i < |batch| :: applied[i] && Stores(op, batch[i], base + i + 1, epoch, now) {
      LandedIsDraft(present, epoch, base, batch, now, op);
      var i :| 0 <= i < |batch| && Stores(op, batch[i], base + i + 1, epoch, now);
      assert applied[i];
    }
  }

  /** What a run of operations weighs. */
  function Weighed(rows: seq<Op>, weigh: Op -> nat): nat {
    if rows == [] then 0 else Weighed(rows[..|rows| - 1], weigh) + weigh(rows[|rows| - 1])
  }

  lemma {:induction false} WeighedPrefix(rows: seq<Op>, n: nat, weigh: Op -> nat)
    requires n <= |rows|
    ensures Weighed(rows[..n], weigh) <= Weighed(rows, weigh)
    decreases |rows|
  {
    if n < |rows| {
      WeighedPrefix(rows[..|rows| - 1], n, weigh);
      assert rows[..|rows| - 1][..n] == rows[..n];
    } else {
      assert rows[..n] == rows;
    }
  }

  /** How many of the rows read come with their payload: as many as the budget allows, the first always. */
  method CutRows(read: seq<Op>, weigh: Op -> nat, budget: nat) returns (cut: nat)
    ensures cut <= |read| && (read != [] ==> cut > 0) && (cut > 1 ==> Weighed(read[..cut], weigh) <= budget)
    ensures cut < |read| ==> budget < Weighed(read[..cut + 1], weigh)
  {
    cut := 0;
    var spent := 0;
    while cut < |read|
      invariant cut <= |read| && spent == Weighed(read[..cut], weigh)
      invariant cut > 1 ==> spent <= budget
    {
      assert read[..cut + 1][..cut] == read[..cut];
      spent := spent + weigh(read[cut]);
      if cut > 0 && spent > budget {
        break;
      }
      cut := cut + 1;
    }
  }

  lemma PageOfCut(rest: seq<Op>, limit: nat, weigh: Op -> nat, budget: nat, cut: nat)
    requires limit > 0 && cut <= |Take(rest, limit + 1)|
    requires cut > 1 ==> Weighed(Take(rest, limit + 1)[..cut], weigh) <= budget
    requires cut < |Take(rest, limit + 1)| ==> budget < Weighed(Take(rest, limit + 1)[..cut + 1], weigh)
    ensures var rows := Take(Take(rest, limit + 1)[..cut], limit);
            && rows <= rest && (|rows| > 1 ==> Weighed(rows, weigh) <= budget)
            && (|rows| < |rest| && |rows| < limit ==> budget < Weighed(rest[..|rows| + 1], weigh))
  {
    hide Weighed;
    var read := Take(rest, limit + 1);
    var rows := Take(read[..cut], limit);
    WeighedPrefix(read[..cut], |rows|, weigh);
    assert rows == read[..cut][..|rows|] == rest[..|rows|];
    if |rows| < |rest| && |rows| < limit {
      assert read[..cut + 1] == rest[..|rows| + 1];
    }
  }

  class Repository {
    var repo: Repo
    var ops: seq<Op>
    var folds: map<nat, Checkpoint>
    var backups: map<string, Backup>
    var restores: map<string, Restore>

    function Model(): Tables
      reads this
    {
      Tables(repo, ops, folds, backups, restores)
    }

    constructor ()
      ensures Model() == Tables(Repo(0, 0, None), [], map[], map[], map[])
    {
      repo, ops, folds, backups, restores := Repo(0, 0, None), [], map[], map[], map[];
    }

    /** The inserts of a batch, one statement each, into the window that ends at `last_seq`. */
    method InsertAll(epoch: nat, batch: seq<Draft>, now: int) returns (applied: seq<bool>)
      requires |batch| <= repo.lastSeq
      modifies `ops
      ensures ops == old(ops) + Landed(IdsOf(old(ops), epoch), epoch, repo.lastSeq - |batch|, batch, now)
      ensures |applied| == |batch|
      ensures forall i | 0 <= i < |batch| :: applied[i] <==> TakesSlot(old(ops), epoch, repo.lastSeq - |batch|, batch, now, i)
    {
      hide Landed, Stored;
      applied := [];
      ghost var base, was := repo.lastSeq - |batch|, ops;
      NothingLanded(was, epoch, base, batch, now);
      for j := 0 to |batch|
        invariant ops == was + Landed(IdsOf(was, epoch), epoch, base, batch[..j], now)
        invariant |applied| == j
        invariant forall i | 0 <= i < j :: applied[i] <==> TakesSlot(was, epoch, base, batch, now, i)
      {
        LandOne(was, epoch, base, batch, now, j);
        if Stored(ops, epoch, batch[j].opId) {
          applied := applied + [false];
        } else {
          var row := Row(batch[j], repo.lastSeq - |batch| + j + 1, epoch, now);
          ops := ops + [row];
          applied := applied + [true];
        }
      }
      assert batch[..|batch|] == batch;
    }

    /**
     * `applyBatch`. The reservation decides, and every insert asks the same of the row the reservation
     * left: so the inserts land exactly when it matched.
     */
    method Push(epoch: nat, vocabulary: Vocabulary, batch: seq<Draft>, now: int)
      returns (prior: Repo, applied: seq<bool>)
      modifies `repo, `ops
      ensures Model() == Transactions.Push(old(Model()), epoch, vocabulary, batch, now)
      ensures prior == old(repo) && |applied| == |batch|
      ensures forall i | 0 <= i < |batch| :: applied[i] <==>
        Admits(prior, epoch, vocabulary) && TakesSlot(old(ops), epoch, prior.lastSeq, batch, now, i)
      ensures old(ops) <= ops
      ensures forall op | op in ops[|old(ops)|..] ::
        exists i | 0 <= i < |batch| :: applied[i] && Stores(op, batch[i], prior.lastSeq + i + 1, epoch, now)
      ensures forall i | 0 <= i < |batch| && applied[i] ::
        exists op | op in ops[|old(ops)|..] :: Stores(op, batch[i], prior.lastSeq + i + 1, epoch, now)
    {
      hide Landed, TakesSlot;
      prior := repo;
      if repo.epoch == epoch && (repo.vocabulary.None? || repo.vocabulary == Some(vocabulary)) {
        repo := repo.(lastSeq := repo.lastSeq + |batch|, vocabulary := Some(vocabulary));
      }
      if repo.epoch == epoch && repo.vocabulary == Some(vocabulary) {
        applied := InsertAll(epoch, batch, now);
        RowsStore(old(ops), epoch, prior.lastSeq, batch, now, applied);
        assert ops[|old(ops)|..] == Landed(IdsOf(old(ops), epoch), epoch, prior.lastSeq, batch, now);
      } else {
        applied := seq(|batch|, _ => false);
      }
    }

    /**
     * `describe`: what a device is told of each operation. It runs after the batch, whatever was pushed
     * since; every operation of a batch that was taken is found, and a duplicate is answered with the
     * seq of its first application.
     */
    method Describe(epoch: nat, batch: seq<Draft>, applied: seq<bool>) returns (results: seq<PushResult>)
      requires IdsOnce(ops) && |applied| == |batch| && DraftIds(batch) <= IdsOf(ops, epoch)
      ensures |results| == |batch|
      ensures forall i | 0 <= i < |batch| ::
        && results[i].opId == batch[i].opId && (results[i].outcome.Applied? <==> applied[i])
        && (exists op | op in ops :: op.epoch == epoch && op.opId == batch[i].opId && op.seqno == results[i].seqno)
        && (forall op | op in ops && op.epoch == epoch && op.opId == batch[i].opId :: op.seqno == results[i].seqno)
    {
      results := [];
      for i := 0 to |batch|
        invariant |results| == i
        invariant forall k | 0 <= k < i ::
          && results[k].opId == batch[k].opId && (results[k].outcome.Applied? <==> applied[k])
          && (exists op | op in ops :: op.epoch == epoch && op.opId == batch[k].opId && op.seqno == results[k].seqno)
          && (forall op | op in ops && op.epoch == epoch && op.opId == batch[k].opId :: op.seqno == results[k].seqno)
      {
        assert batch[i].opId in IdsOf(ops, epoch);
        var found: Op :| found in ops && found.epoch == epoch && found.opId == batch[i].opId;
        results := results + [PushResult(batch[i].opId, if applied[i] then Applied else Duplicate, found.seqno)];
      }
    }

    /**
     * `pull`: at most `limit` operations above a cursor, and no more than the budget of their weight,
     * but always the first; and as many as that allows.
     */
    method Pull(epoch: nat, cursor: nat, limit: nat, weigh: Op -> nat, budget: nat) returns (page: PullPage)
      requires limit > 0
      ensures var rest := After(Log(ops, epoch), cursor);
              && page.rows <= rest && |page.rows| <= limit && (rest != [] ==> page.rows != [])
              && (page.hasMore <==> |page.rows| < |rest|) && page.next == NextCursor(cursor, page.rows)
              && (|page.rows| > 1 ==> Weighed(page.rows, weigh) <= budget)
              && (|page.rows| < |rest| && |page.rows| < limit ==> budget < Weighed(rest[..|page.rows| + 1], weigh))
    {
      hide Log, After, Weighed;
      var rest := After(Log(ops, epoch), cursor);
      var read := Take(rest, limit + 1);
      var cut := CutRows(read, weigh, budget);
      var rows := Take(read[..cut], limit);
      PageOfCut(rest, limit, weigh, budget, cut);
      page := PullPage(rows, NextCursor(cursor, rows), |read| > limit || cut < |read|);
    }

    /** A fold step's batch: `INSERT OR IGNORE` of each version and of the mark. */
    method WriteFold(epoch: nat, flight: Flight)
      modifies `folds
      ensures Model() == Transactions.WriteFold(old(Model()), epoch, flight)
    {
      var cp := CheckpointOf(folds, epoch);
      var versions, todo := cp.versions, flight.rows.Keys;
      while todo != {}
        invariant todo <= flight.rows.Keys
        invariant versions == (map row | row in flight.rows.Keys - todo :: flight.rows[row]) + cp.versions
      {
        var row: (Key, nat) :| row in todo;
        if row !in versions {
          versions := versions[row := flight.rows[row]];
        }
        todo := todo - {row};
      }
      assert (map row | row in flight.rows.Keys - {} :: flight.rows[row]) == flight.rows;
      var marks := if flight.mark.seqno in cp.marks then cp.marks else cp.marks[flight.mark.seqno := flight.mark];
      assert marks == map[flight.mark.seqno := flight.mark] + cp.marks;
      folds := folds[epoch := Checkpoint(versions, marks)];
    }

    /** `captureBackup`, once the checkpoint has a mark at the cutoff: one row, and nothing else. */
    method CaptureBackup(id: string, epoch: nat, mark: Mark) returns (backup: Backup)
      modifies `backups
      ensures Model() == InsertBackup(old(Model()), id, backup)
      ensures backup.epoch == epoch && Captures(backup, mark)
    {
      var count := CountEntities(mark);
      backup := Backup(epoch, mark.seqno, count, mark.opCount, mark.kinds);
      backups := backups[id := backup];
    }

    /** What `deleteBackup` asks first: a restore that has not finished and reads the backup, or would be undone by it. */
    method AskDelete(id: string) returns (inFlight: Option<string>)
      ensures inFlight.Some? <==> InUse(restores, id)
      ensures inFlight.Some? ==> inFlight.value in restores && Uses(restores[inFlight.value], id)
    {
      if rid :| rid in restores && Uses(restores[rid], id) {
        return Some(rid);
      }
      return None;
    }

    /** And the statement it then makes, which asks nothing. */
    method DeleteBackup(id: string) returns (deleted: bool)
      modifies `backups
      ensures Model() == Transactions.DeleteBackup(old(Model()), id)
      ensures deleted <==> id in old(backups)
    {
      deleted := id in backups;
      backups := backups - {id};
    }

    /** Begin's batch: clear what the new epoch's checkpoint held, give it its floor, and write the audit row. */
    method BeginRestore(rid: string, ticket: Ticket, undo: string)
      modifies `folds, `restores
      ensures Model() == Transactions.BeginRestore(old(Model()), rid, ticket, undo)
    {
      var into := ticket.epoch + 1;
      folds := folds - {into};
      folds := folds[into := Checkpoint(map[], map[ticket.guard := Mark(ticket.guard, 0, map[])])];
      restores := restores[rid := Restore(ticket.source, undo, ticket.epoch, into, ticket.guard,
                                          ticket.entityCount, false, 0, None)];
      assert folds == old(folds)[into := folds[into]];
    }

    /** A stage turn's batch: reserve, insert, and record what is staged, in one transaction. */
    method StageRestore(rid: string, batch: seq<Draft>, now: int)
      requires rid in restores
      modifies `repo, `ops, `restores
      ensures Model() == Transactions.StageRestore(old(Model()), rid, batch, now)
    {
      hide Landed, Log, After, UpTo, IdsOf;
      var r := restores[rid];
      if repo.epoch == r.from {
        repo := repo.(lastSeq := repo.lastSeq + |batch|);
      }
      if repo.epoch == r.from {
        var _ := InsertAll(r.into, batch, now);
      }
      if r.stagedSeq.None? || r.stagedSeq.value < repo.lastSeq {
        var counted := if r.stagedSeq.None? then 0 else r.stagedCount;
        var since := Between(Log(ops, r.into), r.stagedSeq.GetOr(r.guard), repo.lastSeq);
        restores := restores[rid := r.(stagedCount := counted + |since|, stagedSeq := Some(repo.lastSeq))];
      } else {
        restores := restores[rid := r];
      }
    }

    /** What commit asks before it flips: the first operation to land in the old epoch since the restore began. */
    method Intruder(rid: string) returns (found: Option<nat>)
      requires rid in restores && IsLog(Log(ops, restores[rid].from))
      ensures found.None? <==> AllAtMost(Log(ops, restores[rid].from), restores[rid].guard)
      ensures found.Some? ==> restores[rid].guard < found.value && exists op | op in Log(ops, restores[rid].from) :: op.seqno == found.value
    {
      var log := Log(ops, restores[rid].from);
      var above := After(log, restores[rid].guard);
      AfterIsAbove(log, restores[rid].guard);
      if above == [] {
        return None;
      }
      assert above[0] in log && log[|UpTo(log, restores[rid].guard)|] == above[0];
      return Some(above[0].seqno);
    }

    /** Commit's batch: the epoch moves only from where the restore began, and the row is marked either way. */
    method Flip(rid: string) returns (flipped: bool)
      requires rid in restores
      modifies `repo, `restores
      ensures Model() == Transactions.Flip(old(Model()), rid)
      ensures flipped <==> old(repo.epoch) == old(restores)[rid].from
    {
      var r := restores[rid];
      flipped := repo.epoch == r.from;
      if flipped {
        repo := repo.(epoch := r.into);
      }
      if !r.committed {
        restores := restores[rid := r.(committed := true)];
      }
      assert restores == old(restores)[rid := r.(committed := true)];
    }
  }
}
