/** The `ops` table: one sequence of operations over every epoch, and how rows land in it. */
module OpLog {
  import opened Types
  import opened FoldRule
  import opened Listing

  datatype Vocabulary = Hub | Workspace

  const REGISTRY := {"registration", "crossLink"}

  /** The vocabulary an entity belongs to. */
  function VocabularyOf(key: Key): Vocabulary {
    if key.Kind() in REGISTRY then Hub else Workspace
  }

  /** An operation before it has a place in the log. */
  datatype Draft = Draft(opId: OpId, key: Key, verb: Verb, payload: Fields, actor: Option<string>, createdAt: string)

  function Row(draft: Draft, seqno: nat, epoch: nat, now: int): Op {
    Op(seqno, epoch, draft.opId, draft.key, draft.verb, draft.payload, draft.actor, draft.createdAt, now)
  }

  /** One epoch's operations, in order: `WHERE epoch = ? ORDER BY seq`. */
  function Log(ops: seq<Op>, epoch: nat): seq<Op> {
    if ops == [] then []
    else Log(ops[..|ops| - 1], epoch) + if ops[|ops| - 1].epoch == epoch then [ops[|ops| - 1]] else []
  }

  function IdsOf(ops: seq<Op>, epoch: nat): set<OpId> {
    set op | op in ops && op.epoch == epoch :: op.opId
  }

  lemma {:induction false} LogAppend(ops: seq<Op>, more: seq<Op>, epoch: nat)
    ensures Log(ops + more, epoch) == Log(ops, epoch) + Log(more, epoch)
  {
    if more == [] {
      assert ops + more == ops;
    } else {
      var n := |more| - 1;
      assert (ops + more)[..|ops + more| - 1] == ops + more[..n];
      LogAppend(ops, more[..n], epoch);
    }
  }

  /** Rows all of one epoch are all of that epoch's log and none of another's. */
  lemma {:induction false} LogOfOne(rows: seq<Op>, at: nat, epoch: nat)
    requires forall op | op in rows :: op.epoch == at
    ensures Log(rows, epoch) == if epoch == at then rows else []
  {
    if rows != [] {
      var n := |rows| - 1;
      assert rows == rows[..n] + [rows[n]];
      assert rows[n] in rows;
      LogOfOne(rows[..n], at, epoch);
    }
  }

  lemma {:induction false} LogHas(ops: seq<Op>, epoch: nat, op: Op)
    ensures op in Log(ops, epoch) <==> op in ops && op.epoch == epoch
  {
    if ops != [] {
      var n := |ops| - 1;
      assert ops == ops[..n] + [ops[n]];
      LogHas(ops[..n], epoch, op);
    }
  }

  lemma {:induction false} LogIncreasing(ops: seq<Op>, epoch: nat)
    requires Increasing(ops)
    ensures Increasing(Log(ops, epoch))
  {
    if ops != [] {
      var n := |ops| - 1;
      LogIncreasing(ops[..n], epoch);
      forall i | 0 <= i < |Log(ops[..n], epoch)| ensures Log(ops[..n], epoch)[i].seqno < ops[n].seqno {
        LogHas(ops[..n], epoch, Log(ops[..n], epoch)[i]);
      }
    }
  }

  lemma LogBounds(ops: seq<Op>, epoch: nat, low: nat, high: nat)
    requires AllAbove(ops, low) && AllAtMost(ops, high)
    ensures AllAbove(Log(ops, epoch), low) && AllAtMost(Log(ops, epoch), high)
  {
    forall i | 0 <= i < |Log(ops, epoch)| ensures low < Log(ops, epoch)[i].seqno <= high {
      LogHas(ops, epoch, Log(ops, epoch)[i]);
    }
  }

  // ----- Landing a batch ------------------------------------------------------------------

  /**
   * The inserts of one batch into a reserved window: operation `j` takes slot `base + j`, unless its id
   * is in the epoch's log already, when its slot goes unused.
   */
  function Landed(present: set<OpId>, epoch: nat, base: nat, batch: seq<Draft>, now: int): seq<Op> {
    if batch == [] then []
    else
      var n := |batch| - 1;
      var rows := Landed(present, epoch, base, batch[..n], now);
      if batch[n].opId in present + IdsOf(rows, epoch) then rows
      else rows + [Row(batch[n], base + |batch|, epoch, now)]
  }

  function DraftIds(batch: seq<Draft>): set<OpId> {
    set draft | draft in batch :: draft.opId
  }

  /** Rows of one epoch in increasing slots of a reserved window. */
  ghost predicate InWindow(rows: seq<Op>, epoch: nat, base: nat, end: nat) {
    && Increasing(rows) && AllAbove(rows, base) && AllAtMost(rows, end)
    && forall i | 0 <= i < |rows| :: rows[i].epoch == epoch
  }

  lemma WindowAppend(rows: seq<Op>, row: Op, epoch: nat, base: nat, end: nat)
    requires InWindow(rows, epoch, base, end) && row.epoch == epoch && base <= end < row.seqno
    ensures InWindow(rows + [row], epoch, base, row.seqno) && InWindow(rows, epoch, base, row.seqno)
  {
  }

  /** What lands takes increasing slots of the window, in this epoch. */
  lemma {:induction false} LandedSlots(present: set<OpId>, epoch: nat, base: nat, batch: seq<Draft>, now: int)
    ensures InWindow(Landed(present, epoch, base, batch, now), epoch, base, base + |batch|)
  {
    if batch != [] {
      var n := |batch| - 1;
      LandedSlots(present, epoch, base, batch[..n], now);
      WindowAppend(Landed(present, epoch, base, batch[..n], now), Row(batch[n], base + |batch|, epoch, now), epoch,
                   base, base + n);
    }
  }

  lemma IdsAppend(rows: seq<Op>, row: Op, epoch: nat)
    requires row.epoch == epoch
    ensures IdsOf(rows + [row], epoch) == IdsOf(rows, epoch) + {row.opId}
  {
  }

  /** After the batch every one of its ids is in the log. */
  lemma {:induction false} LandedIds(present: set<OpId>, epoch: nat, base: nat, batch: seq<Draft>, now: int)
    ensures IdsOf(Landed(present, epoch, base, batch, now), epoch) == DraftIds(batch) - present
  {
    if batch != [] {
      var n := |batch| - 1;
      LandedIds(present, epoch, base, batch[..n], now);
      assert batch == batch[..n] + [batch[n]];
      assert DraftIds(batch) == DraftIds(batch[..n]) + {batch[n].opId};
      IdsAppend(Landed(present, epoch, base, batch[..n], now), Row(batch[n], base + |batch|, epoch, now), epoch);
    }
  }

  /** No id is stored twice in an epoch. */
  ghost predicate IdsOnce(ops: seq<Op>) {
    forall i, j | 0 <= i < j < |ops| :: ops[i].epoch != ops[j].epoch || ops[i].opId != ops[j].opId
  }

  lemma {:induction false} LandedOnce(present: set<OpId>, epoch: nat, base: nat, batch: seq<Draft>, now: int)
    ensures IdsOnce(Landed(present, epoch, base, batch, now))
  {
    if batch != [] {
      var n := |batch| - 1;
      LandedOnce(present, epoch, base, batch[..n], now);
      LandedSlots(present, epoch, base, batch[..n], now);
      var rows := Landed(present, epoch, base, batch[..n], now);
      forall op | op in rows ensures op.opId in IdsOf(rows, epoch) {
        assert op.epoch == epoch;
      }
    }
  }

  /** A batch lands on a log without an id stored twice, and leaves none. */
  lemma LandedKeepsOnce(ops: seq<Op>, epoch: nat, base: nat, batch: seq<Draft>, now: int)
    requires IdsOnce(ops)
    ensures IdsOnce(ops + Landed(IdsOf(ops, epoch), epoch, base, batch, now))
  {
    var rows := Landed(IdsOf(ops, epoch), epoch, base, batch, now);
    LandedOnce(IdsOf(ops, epoch), epoch, base, batch, now);
    LandedIds(IdsOf(ops, epoch), epoch, base, batch, now);
    LandedSlots(IdsOf(ops, epoch), epoch, base, batch, now);
    forall a, b | a in ops && b in rows ensures a.epoch != b.epoch || a.opId != b.opId {
      assert b.opId in IdsOf(rows, epoch);
    }
  }

  /** A row that stores a draft: its every field, the slot it took, and the server's time. */
  predicate Stores(op: Op, draft: Draft, slot: nat, epoch: nat, now: int) {
    && op.seqno == slot && op.epoch == epoch && op.opId == draft.opId
    && op.key == draft.key && op.verb == draft.verb && op.payload == draft.payload
    && op.actor == draft.actor && op.createdAt == draft.createdAt && op.serverTs == now
  }

  /** Each row that landed stores one of the batch's drafts in its own slot. */
  lemma {:induction false} LandedIsDraft(present: set<OpId>, epoch: nat, base: nat, batch: seq<Draft>, now: int, op: Op)
    requires op in Landed(present, epoch, base, batch, now)
    ensures exists j | 0 <= j < |batch| :: Stores(op, batch[j], base + j + 1, epoch, now)
  {
    var n := |batch| - 1;
    var rows := Landed(present, epoch, base, batch[..n], now);
    if op in rows {
      LandedIsDraft(present, epoch, base, batch[..n], now, op);
      var j :| 0 <= j < n && Stores(op, batch[..n][j], base + j + 1, epoch, now);
      assert Stores(op, batch[j], base + j + 1, epoch, now);
    } else {
      assert Stores(op, batch[n], base + n + 1, epoch, now);
    }
  }

  /** A draft whose id neither the epoch nor an earlier draft of the batch has. */
  predicate IsNew(present: set<OpId>, batch: seq<Draft>, j: nat)
    requires j < |batch|
  {
    batch[j].opId !in present && forall i | 0 <= i < j :: batch[i].opId != batch[j].opId
  }

  /** A draft's slot is taken exactly when its id is new, and then by a row that stores it. */
  ghost predicate DraftStored(present: set<OpId>, epoch: nat, base: nat, batch: seq<Draft>, now: int, rows: seq<Op>, j: nat)
    requires j < |batch|
  {
    if IsNew(present, batch, j) then exists op | op in rows :: Stores(op, batch[j], base + j + 1, epoch, now)
    else forall op | op in rows :: op.seqno != base + j + 1
  }

  lemma {:induction false} LandedWhich(present: set<OpId>, epoch: nat, base: nat, batch: seq<Draft>, now: int, j: nat)
    requires j < |batch|
    ensures DraftStored(present, epoch, base, batch, now, Landed(present, epoch, base, batch, now), j)
  {
    var n := |batch| - 1;
    var rows := Landed(present, epoch, base, batch[..n], now);
    if j < n {
      hide Stores;
      LandedWhich(present, epoch, base, batch[..n], now, j);
      SlotStays(present, epoch, base, batch, now, rows, j, Row(batch[n], base + n + 1, epoch, now));
    } else {
      LastSlot(present, epoch, base, batch, now);
    }
  }

  /** A slot is as it was once a row is landed after it. */
  lemma SlotStays(present: set<OpId>, epoch: nat, base: nat, batch: seq<Draft>, now: int, rows: seq<Op>, j: nat, row: Op)
    requires j < |batch| - 1 && DraftStored(present, epoch, base, batch[..|batch| - 1], now, rows, j)
    requires row.seqno != base + j + 1
    ensures DraftStored(present, epoch, base, batch, now, rows, j)
    ensures DraftStored(present, epoch, base, batch, now, rows + [row], j)
  {
    hide Stores;
    assert IsNew(present, batch[..|batch| - 1], j) <==> IsNew(present, batch, j);
    if IsNew(present, batch, j) {
      var op :| op in rows && Stores(op, batch[j], base + j + 1, epoch, now);
      assert op in rows + [row];
    }
  }

  lemma LastSlot(present: set<OpId>, epoch: nat, base: nat, batch: seq<Draft>, now: int)
    requires batch != []
    ensures DraftStored(present, epoch, base, batch, now, Landed(present, epoch, base, batch, now), |batch| - 1)
  {
    var n := |batch| - 1;
    var rows, all := Landed(present, epoch, base, batch[..n], now), Landed(present, epoch, base, batch, now);
    LandedIds(present, epoch, base, batch[..n], now);
    LandedSlots(present, epoch, base, batch[..n], now);
    assert batch[n].opId in DraftIds(batch[..n]) <==> exists i | 0 <= i < n :: batch[i].opId == batch[n].opId;
    if IsNew(present, batch, n) {
      assert all[|rows|] in all && Stores(all[|rows|], batch[n], base + n + 1, epoch, now);
    }
  }

  /** A batch whose every id is in the log already lands nothing. */
  lemma {:induction false} NothingLands(present: set<OpId>, epoch: nat, base: nat, batch: seq<Draft>, now: int)
    requires DraftIds(batch) <= present
    ensures Landed(present, epoch, base, batch, now) == []
  {
    if batch != [] {
      var n := |batch| - 1;
      assert batch[n].opId in DraftIds(batch);
      assert DraftIds(batch[..n]) <= DraftIds(batch);
      NothingLands(present, epoch, base, batch[..n], now);
    }
  }

  // ----- Growth ---------------------------------------------------------------------------

  /** A log grows only above the seqs reserved so far. */
  ghost predicate Grows(before: seq<Op>, head: nat, after: seq<Op>) {
    exists more :: after == before + more && AllAbove(more, head)
  }

  // ----- Pulling --------------------------------------------------------------------------

  /** What a pull serves from: the epoch's operations above the cursor. */
  function Page(log: seq<Op>, cursor: nat, most: nat): seq<Op> {
    Take(After(log, cursor), most)
  }

  function NextCursor(cursor: nat, page: seq<Op>): nat {
    if page == [] then cursor else page[|page| - 1].seqno
  }

  /** The log as it stood when a page was read, with its head, and how many operations the page took. */
  datatype Pull = Pull(log: seq<Op>, head: nat, most: nat)

  /** Pulls one after another: between two of them the log may have grown. */
  ghost predicate IsPullWalk(pulls: seq<Pull>) {
    && (forall pull | pull in pulls :: Increasing(pull.log) && AllAtMost(pull.log, pull.head))
    && (forall i | 0 < i < |pulls| ::
          pulls[i - 1].head <= pulls[i].head && Grows(pulls[i - 1].log, pulls[i - 1].head, pulls[i].log))
  }

  /** What a device holds after pulling from `cursor`, and the cursor it is left with. */
  function Pulled(pulls: seq<Pull>, cursor: nat): seq<Op> {
    if pulls == [] then []
    else
      var page := Page(pulls[0].log, cursor, pulls[0].most);
      page + Pulled(pulls[1..], NextCursor(cursor, page))
  }

  function CursorAfter(pulls: seq<Pull>, cursor: nat): nat {
    if pulls == [] then cursor
    else CursorAfter(pulls[1..], NextCursor(cursor, Page(pulls[0].log, cursor, pulls[0].most)))
  }

  /** The operations of a log in `(low, high]`. */
  function Between(log: seq<Op>, low: nat, high: nat): seq<Op> {
    After(UpTo(log, high), low)
  }

  lemma PageIsBetween(log: seq<Op>, head: nat, cursor: nat, most: nat)
    requires Increasing(log) && AllAtMost(log, head) && cursor <= head
    ensures var page := Page(log, cursor, most);
            var next := NextCursor(cursor, page);
            cursor <= next <= head && page == Between(log, cursor, next)
  {
    hide UpTo;
    var page := Page(log, cursor, most);
    AfterIsAbove(log, cursor);
    if page == [] {
      UpToTwice(log, cursor, cursor);
    } else {
      var n := |UpTo(log, cursor)| + |page|;
      assert page[|page| - 1] == log[n - 1];
      CutBefore(log, n);
      assert log[..n] == UpTo(log, cursor) + page;
      UpToSplit(UpTo(log, cursor), page, cursor);
    }
  }

  /** A log up to the seq of its n-th operation is its first n. */
  lemma CutBefore(log: seq<Op>, n: nat)
    requires Increasing(log) && 0 < n <= |log|
    ensures UpTo(log, log[n - 1].seqno) == log[..n]
  {
    hide UpTo;
    assert log == log[..n] + log[n..];
    UpToSplit(log[..n], log[n..], log[n - 1].seqno);
  }

  lemma BetweenJoin(log: seq<Op>, low: nat, mid: nat, high: nat)
    requires Increasing(log) && low <= mid <= high
    ensures Between(log, low, high) == Between(log, low, mid) + Between(log, mid, high)
  {
    UpToTwice(log, low, high);
    UpToTwice(log, mid, high);
    UpToTwice(log, low, mid);
    AfterIsAbove(log, high);
    AfterIsAbove(UpTo(log, high), low);
    AfterIsAbove(UpTo(log, high), mid);
    AfterIsAbove(log, mid);
    AfterIsAbove(UpTo(log, mid), low);
  }

  lemma BetweenGrows(before: seq<Op>, head: nat, after: seq<Op>, low: nat, high: nat)
    requires Grows(before, head, after) && high <= head
    ensures Between(after, low, high) == Between(before, low, high)
  {
    var more :| after == before + more && AllAbove(more, head);
    UpToAppend(before, more, high);
  }

  /**
   * A cursor-paged pull delivers each operation once and in order: what the pages held, one after
   * another, is exactly the final log's operations above the first cursor, up to the last.
   */
  lemma {:induction false} PullIsExact(pulls: seq<Pull>, cursor: nat)
    requires IsPullWalk(pulls) && pulls != [] && cursor <= pulls[0].head
    ensures var last := pulls[|pulls| - 1];
            cursor <= CursorAfter(pulls, cursor) <= last.head
            && Pulled(pulls, cursor) == Between(last.log, cursor, CursorAfter(pulls, cursor))
    decreases |pulls|
  {
    hide UpTo, After, Page, NextCursor, Increasing;
    var first, last := pulls[0], pulls[|pulls| - 1];
    var page := Page(first.log, cursor, first.most);
    var next := NextCursor(cursor, page);
    PageIsBetween(first.log, first.head, cursor, first.most);
    if |pulls| == 1 {
      assert Pulled(pulls[1..], next) == [];
    } else {
      var rest := pulls[1..];
      assert rest[|rest| - 1] == last;
      WalkTail(pulls);
      PullIsExact(rest, next);
      GrowsOver(pulls);
      BetweenGrows(first.log, first.head, last.log, cursor, next);
      BetweenJoin(last.log, cursor, next, CursorAfter(rest, next));
    }
  }

  lemma WalkTail(pulls: seq<Pull>)
    requires IsPullWalk(pulls) && |pulls| > 1
    ensures IsPullWalk(pulls[1..]) && pulls[0].head <= pulls[1].head
  {
    var rest := pulls[1..];
    forall i | 0 < i < |rest|
      ensures rest[i - 1].head <= rest[i].head && Grows(rest[i - 1].log, rest[i - 1].head, rest[i].log)
    {
      assert rest[i - 1] == pulls[i] && rest[i] == pulls[i + 1];
    }
  }

  lemma {:induction false} GrowsOver(pulls: seq<Pull>)
    requires IsPullWalk(pulls) && pulls != []
    ensures Grows(pulls[0].log, pulls[0].head, pulls[|pulls| - 1].log)
    decreases |pulls|
  {
    if |pulls| == 1 {
      assert pulls[0].log == pulls[0].log + [];
    } else {
      var rest := pulls[1..];
      WalkTail(pulls);
      GrowsOver(rest);
      GrowsTwice(pulls[0].log, pulls[0].head, pulls[1].log, pulls[1].head, pulls[|pulls| - 1].log);
    }
  }

  lemma GrowsTwice(a: seq<Op>, headA: nat, b: seq<Op>, headB: nat, c: seq<Op>)
    requires Grows(a, headA, b) && Grows(b, headB, c) && headA <= headB
    ensures Grows(a, headA, c)
  {
    var first :| b == a + first && AllAbove(first, headA);
    var second :| c == b + second && AllAbove(second, headB);
    assert c == a + (first + second);
  }
}
