/**
 * The fold checkpoint: `fold_versions` and `fold_marks` of one epoch (worker/src/fold-store.ts).
 * Versions are only ever added, so what a row says is a function of the log alone.
 */
module Checkpoint {
  import opened Types
  import opened FoldRule
  import opened FoldRun

  datatype Checkpoint = Checkpoint(versions: map<(Key, nat), Entity>, marks: map<nat, Mark>)

  const EMPTY := Checkpoint(map[], map[])

  // ----- What the checkpoint promises -----------------------------------------------------

  /** An epoch's log: increasing, and above 0. */
  ghost predicate IsLog(log: seq<Op>) {
    Increasing(log) && AllAbove(log, 0)
  }

  /** A version row is the entity as the fold of the log up to the row's own seq holds it. */
  ghost predicate VersionsTrue(versions: map<(Key, nat), Entity>, log: seq<Op>, head: nat) {
    forall row | row in versions ::
      && row.1 <= head && row.0 in FoldAt(log, row.1)
      && FoldAt(log, row.1)[row.0] == Cell(versions[row], row.1)
  }

  /** At a mark every entity of the fold has the version its last change wrote. */
  ghost predicate Covers(versions: map<(Key, nat), Entity>, fold: Fold) {
    forall key | key in fold :: (key, fold[key].at) in versions
  }

  ghost predicate MarksTrue(cp: Checkpoint, log: seq<Op>, head: nat) {
    forall seqno | seqno in cp.marks ::
      && seqno == cp.marks[seqno].seqno <= head
      && MarkTrue(cp.marks[seqno], FoldAt(log, seqno), |UpTo(log, seqno)|)
      && Covers(cp.versions, FoldAt(log, seqno))
  }

  /** The checkpoint refines the plain fold of the log, whose seqs are all reserved up to `head`. */
  ghost predicate CheckpointTrue(cp: Checkpoint, log: seq<Op>, head: nat) {
    VersionsTrue(cp.versions, log, head) && MarksTrue(cp, log, head)
  }

  lemma FoldAtZero(log: seq<Op>)
    requires IsLog(log)
    ensures FoldAt(log, 0) == map[] && UpTo(log, 0) == []
  {
    AfterIsAbove(log, 0);
  }

  /** Operations landing above the head change nothing the checkpoint says. */
  lemma CheckpointAppend(cp: Checkpoint, log: seq<Op>, more: seq<Op>, head: nat, headNow: nat)
    requires CheckpointTrue(cp, log, head) && AllAbove(more, head) && head <= headNow
    ensures CheckpointTrue(cp, log + more, headNow)
  {
    forall row | row in cp.versions ensures FoldAt(log + more, row.1) == FoldAt(log, row.1) {
      FoldAtAppend(log, more, row.1);
    }
    forall seqno | seqno in cp.marks
      ensures FoldAt(log + more, seqno) == FoldAt(log, seqno) && UpTo(log + more, seqno) == UpTo(log, seqno)
    {
      assert seqno <= head;
      FoldAtAppend(log, more, seqno);
      UpToAppend(log, more, seqno);
    }
  }

  // ----- Reading at a mark ----------------------------------------------------------------

  function VersionsOf(cp: Checkpoint, key: Key, at: nat): set<nat> {
    set row | row in cp.versions && row.0 == key && row.1 <= at :: row.1
  }

  function Max(numbers: set<nat>): (most: nat)
    requires numbers != {}
    ensures most in numbers && forall n | n in numbers :: n <= most
  {
    MaxExists(numbers);
    var most :| most in numbers && forall n | n in numbers :: n <= most;
    most
  }

  lemma MaxExists(numbers: set<nat>)
    requires numbers != {}
    ensures exists most | most in numbers :: forall n | n in numbers :: n <= most
  {
    var one :| one in numbers;
    var rest := numbers - {one};
    if rest == {} {
      assert numbers == {one};
    } else {
      MaxExists(rest);
      var most :| most in rest && forall n | n in rest :: n <= most;
      var highest := if one < most then most else one;
      assert highest in numbers && forall n | n in numbers :: n == one || n in rest;
    }
  }

  function KeysAt(cp: Checkpoint, at: nat): set<Key> {
    set row | row in cp.versions && row.1 <= at :: row.0
  }

  lemma KeyHasVersion(cp: Checkpoint, key: Key, at: nat)
    ensures key in KeysAt(cp, at) <==> VersionsOf(cp, key, at) != {}
  {
    if key in KeysAt(cp, at) {
      var row :| row in cp.versions && row.1 <= at && row.0 == key;
      assert row.1 in VersionsOf(cp, key, at);
    }
    if VersionsOf(cp, key, at) != {} {
      var seqno :| seqno in VersionsOf(cp, key, at);
    }
  }

  /** The newest version of an entity at or below a seq. */
  function Newest(cp: Checkpoint, key: Key, at: nat): Cell
    requires key in KeysAt(cp, at)
  {
    KeyHasVersion(cp, key, at);
    var seqno := Max(VersionsOf(cp, key, at));
    Cell(cp.versions[(key, seqno)], seqno)
  }

  /** Every entity as its newest version at or below a seq. */
  function View(cp: Checkpoint, at: nat): Fold {
    map key | key in KeysAt(cp, at) :: Newest(cp, key, at)
  }

  /** A seq every entity can be read at: a mark, or 0. */
  ghost predicate Readable(cp: Checkpoint, at: nat) {
    at == 0 || at in cp.marks
  }

  /**
   * What a checkpoint says of every entity at a seq is the full fold of the log there exactly when the
   * version each entity's last change wrote is still there.
   */
  lemma ViewIffCovers(cp: Checkpoint, log: seq<Op>, head: nat, at: nat)
    requires IsLog(log) && VersionsTrue(cp.versions, log, head)
    ensures View(cp, at) == FoldAt(log, at) <==> Covers(cp.versions, FoldAt(log, at))
  {
    hide FoldAt, VersionsTrue;
    var fold := FoldAt(log, at);
    if Covers(cp.versions, fold) {
      forall key
        ensures key in KeysAt(cp, at) <==> key in fold
        ensures key in fold ==> Newest(cp, key, at) == fold[key]
      {
        ViewOfKey(cp, log, head, at, key);
      }
    }
    if View(cp, at) == fold {
      forall key | key in fold ensures (key, fold[key].at) in cp.versions {
        assert key in KeysAt(cp, at) && fold[key] == Newest(cp, key, at);
        KeyHasVersion(cp, key, at);
      }
    }
  }

  /** So at a mark it is the full fold. */
  lemma ViewIsFold(cp: Checkpoint, log: seq<Op>, head: nat, at: nat)
    requires IsLog(log) && CheckpointTrue(cp, log, head) && Readable(cp, at)
    ensures View(cp, at) == FoldAt(log, at)
  {
    MarkCovers(cp, log, head, at);
    ViewIffCovers(cp, log, head, at);
  }

  lemma MarkCovers(cp: Checkpoint, log: seq<Op>, head: nat, at: nat)
    requires IsLog(log) && CheckpointTrue(cp, log, head) && Readable(cp, at)
    ensures Covers(cp.versions, FoldAt(log, at))
  {
    if at == 0 {
      FoldAtZero(log);
    }
  }

  lemma ViewOfKey(cp: Checkpoint, log: seq<Op>, head: nat, at: nat, key: Key)
    requires IsLog(log) && VersionsTrue(cp.versions, log, head) && Covers(cp.versions, FoldAt(log, at))
    ensures key in KeysAt(cp, at) <==> key in FoldAt(log, at)
    ensures key in FoldAt(log, at) ==> Newest(cp, key, at) == FoldAt(log, at)[key]
  {
    hide FoldAt, VersionsTrue;
    var fold := FoldAt(log, at);
    forall seqno | seqno in VersionsOf(cp, key, at)
      ensures key in fold && seqno <= fold[key].at
    {
      VersionBelow(cp, log, head, at, key, seqno);
    }
    KeyHasVersion(cp, key, at);
    if key in fold {
      NewestIsLast(cp, log, head, at, key);
    }
  }

  lemma VersionBelow(cp: Checkpoint, log: seq<Op>, head: nat, at: nat, key: Key, seqno: nat)
    requires IsLog(log) && VersionsTrue(cp.versions, log, head) && (key, seqno) in cp.versions && seqno <= at
    ensures key in FoldAt(log, at) && seqno <= FoldAt(log, at)[key].at
  {
    hide FoldAt;
    FoldAtExtends(log, seqno, at);
    var row := (key, seqno);
    assert FoldAt(log, row.1)[row.0] == Cell(cp.versions[row], row.1);
    assert Extends(FoldAt(log, seqno), FoldAt(log, at), seqno);
  }

  lemma NewestIsLast(cp: Checkpoint, log: seq<Op>, head: nat, at: nat, key: Key)
    requires IsLog(log) && VersionsTrue(cp.versions, log, head) && Covers(cp.versions, FoldAt(log, at))
    requires key in FoldAt(log, at)
    requires forall seqno | seqno in VersionsOf(cp, key, at) :: seqno <= FoldAt(log, at)[key].at
    ensures key in KeysAt(cp, at) && Newest(cp, key, at) == FoldAt(log, at)[key]
  {
    hide FoldAt;
    Settled(log, at, key);
    var row := (key, FoldAt(log, at)[key].at);
    assert row in cp.versions && FoldAt(log, row.1)[row.0] == Cell(cp.versions[row], row.1);
    assert row.1 in VersionsOf(cp, key, at);
    KeyHasVersion(cp, key, at);
    assert Max(VersionsOf(cp, key, at)) == row.1;
  }

  // ----- Writing a step -------------------------------------------------------------------

  /** What a fold step is about to write: its versions, and the mark it ends at. */
  datatype Flight = Flight(from: nat, rows: map<(Key, nat), Entity>, mark: Mark)

  /** What a step computed from what it read. Nothing that lands later can make it false. */
  ghost predicate FlightTrue(flight: Flight, log: seq<Op>, head: nat) {
    && flight.from <= flight.mark.seqno <= head
    && VersionsTrue(flight.rows, log, head)
    && (forall row | row in flight.rows :: flight.from < row.1)
    && var fold := FoldAt(log, flight.mark.seqno);
    && MarkTrue(flight.mark, fold, |UpTo(log, flight.mark.seqno)|)
    && (forall key | key in fold && flight.from < fold[key].at :: (key, fold[key].at) in flight.rows)
  }

  /** The step's one batch: `INSERT OR IGNORE` of every version and the mark. */
  function WriteStep(cp: Checkpoint, flight: Flight): Checkpoint {
    Checkpoint(flight.rows + cp.versions, map[flight.mark.seqno := flight.mark] + cp.marks)
  }

  lemma FlightAppend(flight: Flight, log: seq<Op>, more: seq<Op>, head: nat, headNow: nat)
    requires FlightTrue(flight, log, head) && AllAbove(more, head) && head <= headNow
    ensures FlightTrue(flight, log + more, headNow)
  {
    forall row | row in flight.rows ensures FoldAt(log + more, row.1) == FoldAt(log, row.1) {
      FoldAtAppend(log, more, row.1);
    }
    FoldAtAppend(log, more, flight.mark.seqno);
    UpToAppend(log, more, flight.mark.seqno);
  }

  /**
   * What a write needs to leave the checkpoint true, whatever it holds and however it was computed: the
   * versions it adds are true, and the mark it adds counts the fold and finds every entity's version.
   */
  ghost predicate LandsTrue(cp: Checkpoint, flight: Flight, log: seq<Op>, head: nat) {
    && VersionsTrue(flight.rows - cp.versions.Keys, log, head)
    && (flight.mark.seqno !in cp.marks ==>
          && flight.mark.seqno <= head
          && MarkTrue(flight.mark, FoldAt(log, flight.mark.seqno), |UpTo(log, flight.mark.seqno)|)
          && Covers(flight.rows + cp.versions, FoldAt(log, flight.mark.seqno)))
  }

  lemma WriteKeepsIff(cp: Checkpoint, flight: Flight, log: seq<Op>, head: nat)
    requires CheckpointTrue(cp, log, head)
    ensures CheckpointTrue(WriteStep(cp, flight), log, head) <==> LandsTrue(cp, flight, log, head)
  {
    hide FoldAt, UpTo, MarkTrue;
    var after := WriteStep(cp, flight);
    if CheckpointTrue(after, log, head) {
      forall row | row in flight.rows - cp.versions.Keys ensures after.versions[row] == flight.rows[row] {
      }
      if flight.mark.seqno !in cp.marks {
        assert flight.mark.seqno in after.marks && after.marks[flight.mark.seqno] == flight.mark;
      }
    }
    if LandsTrue(cp, flight, log, head) {
      WriteVersions(cp, flight, log, head);
      WriteMarks(cp, flight, log, head);
    }
  }

  lemma WriteVersions(cp: Checkpoint, flight: Flight, log: seq<Op>, head: nat)
    requires VersionsTrue(cp.versions, log, head) && VersionsTrue(flight.rows - cp.versions.Keys, log, head)
    ensures VersionsTrue(WriteStep(cp, flight).versions, log, head)
  {
    hide FoldAt;
    forall row | row in WriteStep(cp, flight).versions
      ensures row in cp.versions || row in flight.rows - cp.versions.Keys
    {
    }
  }

  lemma WriteMarks(cp: Checkpoint, flight: Flight, log: seq<Op>, head: nat)
    requires CheckpointTrue(cp, log, head) && LandsTrue(cp, flight, log, head)
    ensures MarksTrue(WriteStep(cp, flight), log, head)
  {
    hide FoldAt, UpTo, MarkTrue, VersionsTrue;
    forall seqno | seqno in cp.marks ensures Covers(WriteStep(cp, flight).versions, FoldAt(log, seqno)) {
    }
  }

  /**
   * A step that saw all it read keeps the checkpoint true when it lands exactly when the version of every
   * entity it did not change is still there.
   */
  lemma LandsIffHeld(cp: Checkpoint, flight: Flight, log: seq<Op>, head: nat)
    requires CheckpointTrue(cp, log, head) && FlightTrue(flight, log, head)
    ensures LandsTrue(cp, flight, log, head) <==>
              forall key | key in FoldAt(log, flight.mark.seqno) && FoldAt(log, flight.mark.seqno)[key].at <= flight.from ::
                (key, FoldAt(log, flight.mark.seqno)[key].at) in cp.versions
  {
    hide FoldAt, UpTo, MarkTrue;
    var fold := FoldAt(log, flight.mark.seqno);
    if forall key | key in fold && fold[key].at <= flight.from :: (key, fold[key].at) in cp.versions {
      assert Covers(flight.rows + cp.versions, fold);
    }
    if LandsTrue(cp, flight, log, head) {
      assert flight.mark.seqno in cp.marks ==> Covers(cp.versions, fold);
      forall key | key in fold && fold[key].at <= flight.from ensures (key, fold[key].at) in cp.versions {
        assert (key, fold[key].at) !in flight.rows;
      }
    }
  }

  /** So it does so long as every entity has its version where the step read: steps land in any order, however stale. */
  lemma LandsWhenHeld(cp: Checkpoint, flight: Flight, log: seq<Op>, head: nat)
    requires IsLog(log) && CheckpointTrue(cp, log, head) && FlightTrue(flight, log, head)
    requires Covers(cp.versions, FoldAt(log, flight.from))
    ensures LandsTrue(cp, flight, log, head)
  {
    hide FoldAt, UpTo, MarkTrue, VersionsTrue;
    var low, high := FoldAt(log, flight.from), FoldAt(log, flight.mark.seqno);
    FoldAtExtends(log, flight.from, flight.mark.seqno);
    assert Extends(low, high, flight.from);
    LandsIffHeld(cp, flight, log, head);
  }

  /** In particular so long as the mark the step was folded onto is still there. */
  lemma WriteKeeps(cp: Checkpoint, flight: Flight, log: seq<Op>, head: nat)
    requires IsLog(log) && CheckpointTrue(cp, log, head) && FlightTrue(flight, log, head)
    requires Readable(cp, flight.from)
    ensures CheckpointTrue(WriteStep(cp, flight), log, head)
  {
    hide CheckpointTrue, FlightTrue, FoldAt, Covers;
    MarkCovers(cp, log, head, flight.from);
    LandsWhenHeld(cp, flight, log, head);
    WriteKeepsIff(cp, flight, log, head);
  }

  /** Clearing the checkpoint on its own leaves it true. */
  lemma ClearKeeps(log: seq<Op>, head: nat)
    ensures CheckpointTrue(EMPTY, log, head)
  {
  }

  // ----- Computing a step -----------------------------------------------------------------

  /** The versions a run writes: every entity it changed, at the seq that changed it last. */
  function RowsOf(fold: Fold, changed: map<Key, nat>): map<(Key, nat), Entity>
    requires changed.Keys <= fold.Keys
  {
    map row | row in (set key | key in changed :: (key, changed[key])) :: fold[row.0].entity
  }

  /** A run over the operations between a readable seq and `end` is a true flight. */
  lemma RunIsFlight(log: seq<Op>, head: nat, mark: Mark, end: nat, result: RunResult)
    requires IsLog(log) && mark.seqno <= end <= head && mark.opCount == |UpTo(log, mark.seqno)|
    requires KindsTrue(mark.kinds, FoldAt(log, mark.seqno).Keys)
    requires RunAnswer(FoldAt(log, mark.seqno), mark, After(UpTo(log, end), mark.seqno), end, result)
    ensures FlightTrue(Flight(mark.seqno, RowsOf(result.fold, result.changed), result.mark), log, head)
    ensures FoldAt(log, mark.seqno) + result.fold == FoldAt(log, result.mark.seqno)
  {
    var base := FoldAt(log, mark.seqno);
    var rows := After(UpTo(log, end), mark.seqno);
    var at := result.mark.seqno;
    RunEnds(log, mark.seqno, end, result.folded, at);
    var whole := FoldAt(log, at);
    FoldAtStamped(log, at);
    forall row | row in RowsOf(result.fold, result.changed)
      ensures row.1 <= head && mark.seqno < row.1 && row.0 in FoldAt(log, row.1)
      ensures FoldAt(log, row.1)[row.0] == Cell(RowsOf(result.fold, result.changed)[row], row.1)
    {
      assert whole[row.0] == result.fold[row.0];
      Settled(log, at, row.0);
    }
    forall key | key in whole && mark.seqno < whole[key].at
      ensures (key, whole[key].at) in RowsOf(result.fold, result.changed)
    {
      assert key in result.changed;
    }
  }

  /** Where a run of the first `folded` operations after a mark ends. */
  lemma RunEnds(log: seq<Op>, low: nat, end: nat, folded: nat, at: nat)
    requires IsLog(log) && low <= end
    requires var rows := After(UpTo(log, end), low);
             folded <= |rows| && at == (if folded == |rows| then end else if folded == 0 then low else rows[folded - 1].seqno)
    ensures low <= at <= end
    ensures FoldLog(FoldAt(log, low), After(UpTo(log, end), low)[..folded]) == FoldAt(log, at)
    ensures |UpTo(log, at)| == |UpTo(log, low)| + folded
  {
    var rows := After(UpTo(log, end), low);
    PrefixAt(log, low, end, folded, at);
    FoldLogAppend(map[], UpTo(log, low), rows[..folded]);
  }

  lemma PrefixAt(log: seq<Op>, low: nat, end: nat, folded: nat, at: nat)
    requires IsLog(log) && low <= end
    requires var rows := After(UpTo(log, end), low);
             folded <= |rows| && at == (if folded == |rows| then end else if folded == 0 then low else rows[folded - 1].seqno)
    ensures low <= at <= end
    ensures UpTo(log, at) == UpTo(log, low) + After(UpTo(log, end), low)[..folded]
  {
    hide UpTo;
    var to := UpTo(log, end);
    AfterIsAbove(log, end);
    AfterIsAbove(to, low);
    UpToTwice(log, low, end);
    var rows := After(to, low);
    var below := UpTo(log, low);
    assert to == below + rows;
    if folded == |rows| {
      assert rows[..folded] == rows;
    } else if folded == 0 {
      assert below + rows[..0] == below;
    } else {
      var rest := After(log, end);
      assert log == below + rows + rest;
      CutWithin(below, rows, rest, folded);
      assert rows[folded - 1] == to[|below| + folded - 1];
    }
  }

  lemma CutWithin(below: seq<Op>, rows: seq<Op>, rest: seq<Op>, folded: nat)
    requires 0 < folded < |rows| && Increasing(below + rows + rest)
    ensures UpTo(below + rows + rest, rows[folded - 1].seqno) == below + rows[..folded]
  {
    SplitAt(below, rows, rest, folded);
    UpToSplit(below + rows[..folded], rows[folded..] + rest, rows[folded - 1].seqno);
    assert below + rows + rest == (below + rows[..folded]) + (rows[folded..] + rest);
  }

  lemma SplitAt(below: seq<Op>, rows: seq<Op>, rest: seq<Op>, folded: nat)
    requires 0 < folded < |rows| && Increasing(below + rows + rest)
    ensures AllAtMost(below + rows[..folded], rows[folded - 1].seqno)
    ensures AllAbove(rows[folded..] + rest, rows[folded - 1].seqno)
  {
    var log := below + rows + rest;
    var last := |below| + folded - 1;
    assert log[last] == rows[folded - 1];
    forall i | 0 <= i < |below + rows[..folded]| ensures (below + rows[..folded])[i].seqno <= rows[folded - 1].seqno {
      assert (below + rows[..folded])[i] == log[i];
    }
    forall i | 0 <= i < |rows[folded..] + rest| ensures rows[folded - 1].seqno < (rows[folded..] + rest)[i].seqno {
      assert (rows[folded..] + rest)[i] == log[last + 1 + i];
    }
  }
}
