/** What a request reads and computes of the fold checkpoint (worker/src/fold-store.ts). */
module FoldStore {
  import opened Types
  import opened FoldRule
  import opened Placer
  import opened FoldRun
  import opened Checkpoint
  import opened OpLog

  // ----- Queries one after another --------------------------------------------------------

  /** One epoch's rows as a query finds them. */
  datatype Seen = Seen(cp: Checkpoint, log: seq<Op>, head: nat)

  ghost predicate SeenTrue(s: Seen) {
    IsLog(s.log) && CheckpointTrue(s.cp, s.log, s.head)
  }

  /** A later query finds the log grown above the head alone. */
  ghost predicate Later(s: Seen, after: Seen) {
    Grows(s.log, s.head, after.log) && s.head <= after.head && SeenTrue(after)
  }

  /** And, no clear having come between, a checkpoint that holds all it held. */
  ghost predicate Uncleared(s: Seen, after: Seen) {
    && Later(s, after)
    && s.cp.versions.Keys <= after.cp.versions.Keys
    && (forall seqno | seqno in s.cp.marks :: seqno in after.cp.marks && after.cp.marks[seqno] == s.cp.marks[seqno])
  }

  lemma UnclearedJoin(a: Seen, b: Seen, c: Seen)
    requires Uncleared(a, b) && Uncleared(b, c)
    ensures Uncleared(a, c)
  {
    hide SeenTrue;
    GrowsTwice(a.log, a.head, b.log, b.head, c.log);
  }

  lemma UnclearedSame(s: Seen)
    requires SeenTrue(s)
    ensures Uncleared(s, s)
  {
    hide SeenTrue;
    assert s.log == s.log + [];
  }

  /** Queries spread over any time in which nothing was cleared answer as if they had been made at once. */
  lemma ReadsAgree(s: Seen, after: Seen, at: nat)
    requires SeenTrue(s) && Uncleared(s, after) && Readable(s.cp, at)
    ensures View(after.cp, at) == View(s.cp, at) == FoldAt(s.log, at) && FoldAt(after.log, at) == FoldAt(s.log, at)
    ensures UpTo(after.log, at) == UpTo(s.log, at) && Readable(after.cp, at) && at <= s.head
    ensures forall end: nat | end <= s.head :: UpTo(after.log, end) == UpTo(s.log, end)
  {
    hide View, FoldAt, CheckpointTrue, UpTo;
    ReadableBelow(s, at);
    assert Readable(after.cp, at);
    ViewIsFold(s.cp, s.log, s.head, at);
    ViewIsFold(after.cp, after.log, after.head, at);
    PrefixesAgree(s, after);
  }

  lemma ReadableBelow(s: Seen, at: nat)
    requires SeenTrue(s) && Readable(s.cp, at)
    ensures at <= s.head
  {
  }

  lemma PrefixesAgree(s: Seen, after: Seen)
    requires Later(s, after)
    ensures forall end: nat | end <= s.head :: UpTo(after.log, end) == UpTo(s.log, end)
    ensures forall end: nat | end <= s.head :: FoldAt(after.log, end) == FoldAt(s.log, end)
  {
    var more :| after.log == s.log + more && AllAbove(more, s.head);
    forall end: nat | end <= s.head ensures UpTo(after.log, end) == UpTo(s.log, end) {
      UpToAppend(s.log, more, end);
    }
  }

  /** A version an earlier query listed reads the same later, if it is there. */
  lemma VersionsAgree(s: Seen, after: Seen, at: nat)
    requires SeenTrue(s) && Later(s, after)
    ensures var list := View(s.cp, at);
            forall key | key in list && (key, list[key].at) in after.cp.versions :: after.cp.versions[(key, list[key].at)] == list[key].entity
  {
    hide FoldAt, IsLog, MarksTrue;
    var list := View(s.cp, at);
    PrefixesAgree(s, after);
    forall key | key in list && (key, list[key].at) in after.cp.versions
      ensures after.cp.versions[(key, list[key].at)] == list[key].entity
    {
      KeyHasVersion(s.cp, key, at);
      var row := (key, list[key].at);
      assert row in s.cp.versions && FoldAt(s.log, row.1)[row.0] == Cell(s.cp.versions[row], row.1);
      assert FoldAt(after.log, row.1)[row.0] == Cell(after.cp.versions[row], row.1);
    }
  }

  /**
   * And exactly then: whatever came between, a later query's view at a seq is the fold an earlier one was
   * after if and only if every version that fold consists of is there.
   */
  lemma ReadHoldsIff(s: Seen, after: Seen, at: nat)
    requires SeenTrue(s) && Later(s, after) && at <= s.head
    ensures View(after.cp, at) == FoldAt(s.log, at) <==> Covers(after.cp.versions, FoldAt(s.log, at))
  {
    hide View, FoldAt;
    PrefixesAgree(s, after);
    ViewIffCovers(after.cp, after.log, after.head, at);
  }

  // ----- Moving the fold on ---------------------------------------------------------------

  /** A mark a request has read and may fold onto. */
  ghost predicate IsMark(cp: Checkpoint, mark: Mark) {
    mark == NOTHING_FOLDED || (mark.seqno in cp.marks && cp.marks[mark.seqno] == mark)
  }

  /** `ORDER BY seq DESC LIMIT 1`: the newest mark at or below a seq. */
  method MarkAtOrBelow(cp: Checkpoint, log: seq<Op>, head: nat, at: nat) returns (mark: Mark)
    requires CheckpointTrue(cp, log, head)
    ensures IsMark(cp, mark) && mark.seqno <= at
    ensures forall seqno | seqno in cp.marks && seqno <= at :: seqno <= mark.seqno
  {
    var below := set seqno | seqno in cp.marks && seqno <= at;
    assert forall seqno | seqno in cp.marks && seqno <= at :: seqno in below;
    mark := if below == {} then NOTHING_FOLDED else cp.marks[Max(below)];
  }

  lemma MarkIsTrue(cp: Checkpoint, log: seq<Op>, head: nat, mark: Mark)
    requires IsLog(log) && CheckpointTrue(cp, log, head) && IsMark(cp, mark)
    ensures MarkTrue(mark, FoldAt(log, mark.seqno), |UpTo(log, mark.seqno)|)
    ensures mark.seqno <= head && Readable(cp, mark.seqno)
  {
    if mark == NOTHING_FOLDED {
      FoldAtZero(log);
    }
  }

  /**
   * The operations a step reads: at most `most` above the mark and at or below the target, and where
   * a step of them all ends.
   */
  method ReadRows(log: seq<Op>, above: nat, target: nat, most: nat) returns (rows: seq<Op>, end: nat)
    requires IsLog(log) && above < target && most > 0
    ensures above < end <= target && rows == After(UpTo(log, end), above)
    ensures AllAbove(rows, above) && AllAtMost(rows, end) && Increasing(rows)
  {
    AfterIsAbove(log, target);
    AfterIsAbove(UpTo(log, target), above);
    var all := After(UpTo(log, target), above);
    if |all| < most {
      return all, target;
    }
    rows, end := all[..most], all[most - 1].seqno;
    UpToTwice(log, above, target);
    PrefixAt(log, above, target, most, if most == |all| then target else end);
    var below := UpTo(log, above);
    var to := UpTo(log, target);
    assert to == below + all;
    assert to[|below| + most - 1] == all[most - 1];
    CutAt(below, all, After(log, target), most);
    assert log == below + all + After(log, target);
    AfterIsAbove(log, end);
    AfterIsAbove(UpTo(log, end), above);
    UpToTwice(log, above, end);
  }

  lemma CutAt(below: seq<Op>, rows: seq<Op>, rest: seq<Op>, most: nat)
    requires 0 < most <= |rows| && Increasing(below + rows + rest)
    ensures UpTo(below + rows + rest, rows[most - 1].seqno) == below + rows[..most]
  {
    if most < |rows| {
      CutWithin(below, rows, rest, most);
    } else {
      var log := below + rows + rest;
      assert rows[..most] == rows;
      assert log[|below| + most - 1] == rows[most - 1];
      forall i | 0 <= i < |below + rows| ensures (below + rows)[i].seqno <= rows[most - 1].seqno {
        assert (below + rows)[i] == log[i];
      }
      forall i | 0 <= i < |rest| ensures rows[most - 1].seqno < rest[i].seqno {
        assert rest[i] == log[|below| + most + i];
      }
      UpToSplit(below + rows, rest, rows[most - 1].seqno);
    }
  }

  /** No text a log writes is keyed as another that its document holds at any point of it. */
  ghost predicate NoClash(digest: Json -> nat, log: seq<Op>) {
    forall at: nat, row | row in log :: Exact(digest, FoldAt(log, at), row)
  }

  /** A mark read by one query, and what a later one finds there. */
  lemma BaseOf(marked: Seen, loaded: Seen, mark: Mark)
    requires SeenTrue(marked) && Uncleared(marked, loaded) && IsMark(marked.cp, mark)
    ensures IsMark(loaded.cp, mark) && mark.seqno <= marked.head && Readable(marked.cp, mark.seqno)
    ensures View(loaded.cp, mark.seqno) == FoldAt(loaded.log, mark.seqno)
    ensures mark.opCount == |UpTo(loaded.log, mark.seqno)|
    ensures StampedBy(View(loaded.cp, mark.seqno), mark.seqno)
    ensures KindsTrue(mark.kinds, View(loaded.cp, mark.seqno).Keys)
  {
    hide View, FoldAt, CheckpointTrue, KindsTrue;
    MarkIsTrue(marked.cp, marked.log, marked.head, mark);
    ReadsAgree(marked, loaded, mark.seqno);
    FoldAtStamped(loaded.log, mark.seqno);
  }

  /** What a query finds of every entity at a seq is from at or below it. */
  lemma ViewStamped(cp: Checkpoint, at: nat)
    ensures StampedBy(View(cp, at), at)
  {
    forall key | key in View(cp, at) ensures View(cp, at)[key].at <= at {
      KeyHasVersion(cp, key, at);
    }
  }

  /** What a step is about to write is the run of some of a log's operations over what it loaded. */
  ghost predicate Computed(base: Fold, mark: Mark, log: seq<Op>, flight: Flight) {
    exists end: nat, run ::
      && RunAnswer(base, mark, After(UpTo(log, end), mark.seqno), end, run)
      && flight == Flight(mark.seqno, RowsOf(run.fold, run.changed), run.mark)
  }

  /**
   * One step of `advanceFold`: fold what follows a mark the request read, towards a target at or
   * below the head, and answer what its one batch will write. The mark, the operations and what they
   * fold onto are read by queries one after another, and what it answers is the run of the operations
   * over whatever it loaded. With nothing cleared between the first query and the last, that is true of
   * the log. None when nothing fits the budget: never then in a request that has done nothing else, so
   * long as no text is keyed as another of its document.
   */
  method ComputeStep(digest: Json -> nat, marked: Seen, read: Seen, loaded: Seen,
                     mark: Mark, target: nat, most: nat, limits: Limits)
    returns (flight: Option<Flight>)
    requires SeenTrue(marked) && Later(marked, read) && Later(read, loaded) && IsMark(marked.cp, mark)
    requires mark.seqno < target <= marked.head && most > 0
    ensures flight.Some? ==>
      && Computed(View(loaded.cp, mark.seqno), mark, marked.log, flight.value)
      && flight.value.from == mark.seqno < flight.value.mark.seqno <= target
    ensures flight.Some? && Uncleared(marked, loaded) ==> FlightTrue(flight.value, loaded.log, loaded.head)
    ensures Uncleared(marked, loaded) && NoClash(digest, marked.log) && !limits.mayBeEmpty ==> flight.Some?
  {
    hide View, FoldAt, CheckpointTrue, FlightTrue, KindsTrue;
    PrefixesAgree(marked, read);
    ViewStamped(loaded.cp, mark.seqno);
    var rows, end := ReadRows(read.log, mark.seqno, target, most);
    var run := FoldRows(digest, View(loaded.cp, mark.seqno), mark, rows, end, limits);
    if Uncleared(marked, loaded) {
      BaseOf(marked, loaded, mark);
      PrefixesAgree(marked, loaded);
      RunIsFlight(loaded.log, loaded.head, mark, end, run);
      if rows != [] {
        FirstRead(marked.log, mark.seqno, end, rows);
      }
    }
    if run.folded == 0 && rows != [] {
      return None;
    }
    flight := Some(Flight(mark.seqno, RowsOf(run.fold, run.changed), run.mark));
  }

  lemma FirstRead(log: seq<Op>, low: nat, end: nat, rows: seq<Op>)
    requires rows == After(UpTo(log, end), low) && rows != []
    ensures rows[0] in log
  {
    hide UpTo;
    assert rows[0] in UpTo(log, end);
  }

  /** What the rest of the service does between two statements of a request: anything but clear. */
  ghost predicate NothingCleared(world: (nat, Seen) -> Seen) {
    forall i, s | SeenTrue(s) :: Uncleared(s, world(i, s))
  }

  lemma WorldKeeps(world: (nat, Seen) -> Seen, i: nat, s: Seen)
    requires NothingCleared(world) && SeenTrue(s)
    ensures Uncleared(s, world(i, s)) && SeenTrue(world(i, s))
  {
  }

  /**
   * `advanceFold`: step after step towards a target, whatever else the service does between a step's
   * reads, before its write and between steps (`world`), so long as nothing is cleared. What it writes
   * is true and takes nothing back, and a request that has a step to spend moves the fold on, so asking
   * again finishes.
   */
  method AdvanceFold(digest: Json -> nat, start: Seen, world: (nat, Seen) -> Seen, target: nat, most: nat,
                     limits: seq<Limits>)
    returns (after: Seen, mark: Mark)
    requires SeenTrue(start) && NothingCleared(world) && target <= start.head && most > 0
    requires forall i | 0 <= i < |limits| :: limits[i].mayBeEmpty <==> i > 0
    ensures Uncleared(start, after) && IsMark(after.cp, mark)
    ensures forall seqno | seqno in start.cp.marks :: seqno <= mark.seqno
    ensures NoClash(digest, start.log) && limits != [] && (forall seqno | seqno in start.cp.marks :: seqno < target) && target > 0 ==>
      forall seqno | seqno in start.cp.marks :: seqno < mark.seqno <= target
  {
    hide FlightTrue, CheckpointTrue, NoClash, Uncleared, NothingCleared;
    AllBelowHead(start.cp, start.log, start.head);
    mark := MarkAtOrBelow(start.cp, start.log, start.head, start.head);
    UnclearedSame(start);
    after := start;
    var i := 0;
    while i < |limits| && mark.seqno < target
      invariant i <= |limits| && Uncleared(start, after) && SeenTrue(after) && IsMark(after.cp, mark)
      invariant i == 0 ==> after == start && forall seqno | seqno in start.cp.marks :: seqno <= mark.seqno
      invariant i > 0 ==> mark.seqno <= target && forall seqno | seqno in start.cp.marks :: seqno < mark.seqno
    {
      var flight;
      flight, after := TakeStep(digest, start, after, world, i, mark, target, most, limits[i]);
      if flight.None? {
        break;
      }
      mark := flight.value.mark;
      i := i + 1;
    }
  }

  /** One step: its reads, and its write, each after whatever the service has done meanwhile. */
  method TakeStep(digest: Json -> nat, ghost start: Seen, now: Seen, world: (nat, Seen) -> Seen, i: nat,
                  mark: Mark, target: nat, most: nat, limits: Limits)
    returns (flight: Option<Flight>, after: Seen)
    requires SeenTrue(now) && NothingCleared(world) && Uncleared(start, now) && IsMark(now.cp, mark)
    requires mark.seqno < target <= start.head && most > 0
    ensures Uncleared(start, after) && SeenTrue(after)
    ensures flight.None? ==> IsMark(after.cp, mark)
    ensures flight.Some? ==> mark.seqno < flight.value.mark.seqno <= target && IsMark(after.cp, flight.value.mark)
    ensures NoClash(digest, now.log) && !limits.mayBeEmpty ==> flight.Some?
  {
    hide FlightTrue, CheckpointTrue, NoClash, NothingCleared;
    WorldKeeps(world, i, now);
    var read := world(i, now);
    WorldKeeps(world, i, read);
    var loaded := world(i, read);
    flight := ComputeStep(digest, now, read, loaded, mark, target, most, limits);
    UnclearedJoin(now, read, loaded);
    WorldKeeps(world, i, loaded);
    after := world(i, loaded);
    UnclearedJoin(now, loaded, after);
    UnclearedJoin(start, now, after);
    if flight.Some? {
      var landed := LandStep(loaded, after, flight.value);
      UnclearedJoin(start, after, landed);
      after := landed;
    }
  }

  /** A step's batch, some time after it was computed. */
  method LandStep(computed: Seen, now: Seen, flight: Flight) returns (after: Seen)
    requires FlightTrue(flight, computed.log, computed.head) && Readable(computed.cp, flight.from)
    requires Uncleared(computed, now) && SeenTrue(computed)
    ensures after == now.(cp := WriteStep(now.cp, flight)) && Uncleared(now, after) && SeenTrue(after)
    ensures IsMark(after.cp, flight.mark)
  {
    hide CheckpointTrue, FoldAt;
    after := now.(cp := WriteStep(now.cp, flight));
    FlightLater(computed, now, flight);
    WriteKeeps(now.cp, flight, now.log, now.head);
    assert now.log == now.log + [];
    if flight.mark.seqno in now.cp.marks {
      OneMark(now, flight);
    }
  }

  lemma FlightLater(computed: Seen, now: Seen, flight: Flight)
    requires FlightTrue(flight, computed.log, computed.head) && Later(computed, now)
    ensures FlightTrue(flight, now.log, now.head)
  {
    hide FlightTrue, SeenTrue;
    var more :| now.log == computed.log + more && AllAbove(more, computed.head);
    FlightAppend(flight, computed.log, more, computed.head, now.head);
  }

  /** Two steps that end at one seq count one fold, so they write one mark. */
  lemma OneMark(now: Seen, flight: Flight)
    requires CheckpointTrue(now.cp, now.log, now.head) && FlightTrue(flight, now.log, now.head)
    requires flight.mark.seqno in now.cp.marks
    ensures now.cp.marks[flight.mark.seqno] == flight.mark
  {
    hide FoldAt, VersionsTrue, Covers;
    CountsUnique(now.cp.marks[flight.mark.seqno].kinds, flight.mark.kinds, FoldAt(now.log, flight.mark.seqno).Keys);
  }

  lemma CountsUnique(a: map<string, nat>, b: map<string, nat>, keys: set<Key>)
    requires KindsTrue(a, keys) && KindsTrue(b, keys)
    ensures a == b
  {
    forall kind | kind in a || kind in b ensures kind in a && kind in b {
      var key :| key in OfKind(keys, kind);
    }
  }

  lemma AllBelowHead(cp: Checkpoint, log: seq<Op>, head: nat)
    requires CheckpointTrue(cp, log, head)
    ensures forall seqno | seqno in cp.marks :: seqno <= head
  {
  }

  // ----- Reading at any cutoff ------------------------------------------------------------

  /**
   * What a read at a cutoff holds: over what the mark below it holds, the fold of the log prefix its
   * run ended at, which is the cutoff unless the tail did not fit one step.
   */
  ghost predicate TailTrue(s: Seen, cutoff: nat, base: Mark, run: RunResult, whole: bool) {
    var fold := FoldAt(s.log, run.mark.seqno);
    && base.seqno <= run.mark.seqno <= cutoff && IsMark(s.cp, base)
    && run.changed.Keys <= run.fold.Keys
    && View(s.cp, base.seqno) + run.fold == fold
    && run.created == fold.Keys - View(s.cp, base.seqno).Keys
    && (whole ==> run.mark.seqno == cutoff)
    && FlightTrue(Flight(base.seqno, RowsOf(run.fold, run.changed), run.mark), s.log, s.head)
  }

  /** The newest mark at or below a cutoff, or the start of the log. */
  ghost predicate NewestMark(cp: Checkpoint, cutoff: nat, at: nat) {
    && at <= cutoff && (at in cp.marks || at == 0)
    && forall seqno | seqno in cp.marks && seqno <= cutoff :: seqno <= at
  }

  /** What the log holds between the newest mark and a cutoff fits one run. */
  ghost predicate TailFits(digest: Json -> nat, s: Seen, cutoff: nat, at: nat, limits: Limits) {
    NewestMark(s.cp, cutoff, at) && RunFits(digest, FoldAt(s.log, at), Between(s.log, at, cutoff), limits)
  }

  /**
   * `foldAt`: the newest mark at or below a cutoff, and the operations in between folded on top. When
   * the tail does not fit one step, what was folded of it is written and the request refuses.
   */
  method FoldTail(digest: Json -> nat, marked: Seen, read: Seen, loaded: Seen, cutoff: nat, limits: Limits)
    returns (base: Mark, run: RunResult, whole: bool)
    requires SeenTrue(marked) && Later(marked, read) && Later(read, loaded) && cutoff <= marked.head
    ensures IsMark(marked.cp, base) && base.seqno <= cutoff
    ensures run.created <= run.fold.Keys && run.changed.Keys <= run.fold.Keys
    ensures Uncleared(marked, loaded) ==> TailTrue(loaded, cutoff, base, run, whole)
    ensures cutoff in marked.cp.marks ==> base.seqno == cutoff && whole
    ensures Uncleared(marked, loaded) ==> forall at: nat | TailFits(digest, marked, cutoff, at, limits) :: whole
    ensures forall seqno | seqno in marked.cp.marks && seqno <= cutoff :: seqno <= base.seqno
    ensures Uncleared(marked, loaded) && !whole && NoClash(digest, UpTo(marked.log, cutoff)) && !limits.mayBeEmpty ==>
      run.folded > 0 && base.seqno < run.mark.seqno < cutoff
  {
    hide View, FoldAt, CheckpointTrue, FlightTrue, TailTrue, RunAnswer, RunFits, TailFits, NoClash, Exact;
    base := MarkAtOrBelow(marked.cp, marked.log, marked.head, cutoff);
    if base.seqno == cutoff {
      if Uncleared(marked, loaded) {
        BaseOf(marked, loaded, base);
        TailAtMark(loaded, base);
      }
      return base, RunResult(map[], map[], {}, base, 0), true;
    }
    PrefixesAgree(marked, read);
    AfterIsAbove(read.log, cutoff);
    AfterIsAbove(UpTo(read.log, cutoff), base.seqno);
    ViewStamped(loaded.cp, base.seqno);
    var rows := After(UpTo(read.log, cutoff), base.seqno);
    run := FoldRows(digest, View(loaded.cp, base.seqno), base, rows, cutoff, limits);
    whole := run.folded == |rows|;
    RunMakes(View(loaded.cp, base.seqno), base, rows, cutoff, run);
    if Uncleared(marked, loaded) {
      TailRead(marked, loaded, cutoff, base, rows, run);
      TailMoves(digest, marked, loaded, cutoff, base, rows, run, limits);
    }
  }

  /** A tail that fits is folded whole, and one that does not is folded part of the way. */
  lemma TailMoves(digest: Json -> nat, marked: Seen, loaded: Seen, cutoff: nat, base: Mark, rows: seq<Op>,
                  run: RunResult,
                  limits: Limits)
    requires SeenTrue(marked) && Uncleared(marked, loaded) && IsMark(marked.cp, base) && base.seqno <= cutoff
    requires forall seqno | seqno in marked.cp.marks && seqno <= cutoff :: seqno <= base.seqno
    requires rows == After(UpTo(marked.log, cutoff), base.seqno)
    requires Increasing(rows) && AllAbove(rows, base.seqno) && AllAtMost(rows, cutoff)
    requires RunAnswer(View(loaded.cp, base.seqno), base, rows, cutoff, run)
    requires RunFits(digest, View(loaded.cp, base.seqno), rows, limits) ==> run.folded == |rows|
    requires rows != [] && Exact(digest, View(loaded.cp, base.seqno), rows[0]) && !limits.mayBeEmpty ==> run.folded > 0
    ensures forall at: nat | TailFits(digest, marked, cutoff, at, limits) :: run.folded == |rows|
    ensures run.folded != |rows| && NoClash(digest, UpTo(marked.log, cutoff)) && !limits.mayBeEmpty ==>
      run.folded > 0 && base.seqno < run.mark.seqno < cutoff
  {
    hide View, FoldAt, CheckpointTrue, UpTo, RunAnswer, RunFits, TailFits, NoClash, Exact, Uncleared, SeenTrue, IsMark;
    FittingTail(digest, marked, loaded, cutoff, base, rows, limits);
    if rows != [] && NoClash(digest, UpTo(marked.log, cutoff)) {
      FirstOfTail(digest, marked, loaded, cutoff, base, rows);
    }
    RunPart(View(loaded.cp, base.seqno), base, rows, cutoff, run);
  }

  /** A run that ended before its last operation has its mark between. */
  lemma RunPart(base: Fold, mark: Mark, rows: seq<Op>, end: nat, run: RunResult)
    requires RunAnswer(base, mark, rows, end, run) && Increasing(rows) && AllAbove(rows, mark.seqno)
    requires AllAtMost(rows, end)
    ensures run.folded <= |rows| && (0 < run.folded < |rows| ==> mark.seqno < run.mark.seqno < end)
  {
    hide FoldLog, KindsTrue;
    assert 0 < run.folded < |rows| ==> rows[run.folded - 1].seqno < rows[run.folded].seqno <= end;
  }

  /** The first operation above a mark is of no text that the fold there keys as another. */
  lemma FirstOfTail(digest: Json -> nat, marked: Seen, loaded: Seen, cutoff: nat, base: Mark, rows: seq<Op>)
    requires SeenTrue(marked) && Uncleared(marked, loaded) && IsMark(marked.cp, base) && base.seqno <= cutoff
    requires rows == After(UpTo(marked.log, cutoff), base.seqno) && rows != []
    requires NoClash(digest, UpTo(marked.log, cutoff))
    ensures Exact(digest, View(loaded.cp, base.seqno), rows[0])
  {
    hide View, FoldLog, UpTo, CheckpointTrue, Exact, Uncleared, IsMark;
    var prefix, low := UpTo(marked.log, cutoff), base.seqno;
    MarkRead(marked, loaded, base);
    UpToTwice(marked.log, low, cutoff);
    assert rows[0] in prefix && FoldAt(prefix, low) == FoldAt(marked.log, low);
    assert Exact(digest, FoldAt(prefix, low), rows[0]);
  }

  /** A tail that fits is the run a request folds. */
  lemma FittingTail(digest: Json -> nat, marked: Seen, loaded: Seen, cutoff: nat, base: Mark, rows: seq<Op>,
                    limits: Limits)
    requires SeenTrue(marked) && Uncleared(marked, loaded) && IsMark(marked.cp, base) && base.seqno <= cutoff
    requires forall seqno | seqno in marked.cp.marks && seqno <= cutoff :: seqno <= base.seqno
    requires rows == After(UpTo(marked.log, cutoff), base.seqno)
    ensures forall at: nat | TailFits(digest, marked, cutoff, at, limits) :: RunFits(digest, View(loaded.cp, base.seqno), rows, limits)
  {
    hide View, FoldAt, RunFits, UpTo, Uncleared, SeenTrue, IsMark, MarkTrue;
    MarkRead(marked, loaded, base);
    forall at: nat | TailFits(digest, marked, cutoff, at, limits) ensures RunFits(digest, View(loaded.cp, base.seqno), rows, limits) {
      assert at == base.seqno;
    }
  }

  lemma MarkRead(marked: Seen, loaded: Seen, base: Mark)
    requires SeenTrue(marked) && Uncleared(marked, loaded) && IsMark(marked.cp, base)
    ensures View(loaded.cp, base.seqno) == FoldAt(marked.log, base.seqno)
    ensures (base.seqno in marked.cp.marks || base.seqno == 0)
  {
    hide View, FoldAt, CheckpointTrue;
    BaseOf(marked, loaded, base);
    PrefixesAgree(marked, loaded);
    MarkKnown(marked, base);
  }

  lemma MarkKnown(s: Seen, base: Mark)
    requires SeenTrue(s) && IsMark(s.cp, base)
    ensures base.seqno in s.cp.marks || base.seqno == 0
  {
    hide View, FoldAt;
  }

  /** What was folded of a tail that did not fit, to be written as a step's is. */
  function PartOf(base: Mark, run: RunResult): Flight
    requires run.changed.Keys <= run.fold.Keys
  {
    Flight(base.seqno, RowsOf(run.fold, run.changed), run.mark)
  }

  /** A step's batch, which leaves its mark there. */
  method WritePart(ghost start: Seen, loaded: Seen, now: Seen, flight: Flight) returns (after: Seen)
    requires SeenTrue(start) && Uncleared(start, loaded) && Uncleared(loaded, now)
    requires FlightTrue(flight, loaded.log, loaded.head) && Readable(loaded.cp, flight.from)
    ensures SeenTrue(after) && Uncleared(start, after) && flight.mark.seqno in after.cp.marks
  {
    hide CheckpointTrue, FlightTrue;
    UnclearedJoin(start, loaded, now);
    after := LandStep(loaded, now, flight);
    UnclearedJoin(start, now, after);
    MarkThere(now, flight);
  }

  lemma MarkIsRead(s: Seen, base: Mark)
    requires SeenTrue(s) && IsMark(s.cp, base)
    ensures Readable(s.cp, base.seqno)
  {
    hide View, FoldAt;
    MarkIsTrue(s.cp, s.log, s.head, base);
  }

  lemma MarkThere(now: Seen, flight: Flight)
    ensures flight.mark.seqno in WriteStep(now.cp, flight).marks
  {
  }

  lemma PartIsTrue(s: Seen, cutoff: nat, base: Mark, run: RunResult)
    requires SeenTrue(s) && TailTrue(s, cutoff, base, run, false)
    ensures FlightTrue(PartOf(base, run), s.log, s.head) && Readable(s.cp, PartOf(base, run).from)
  {
    hide CheckpointTrue, FlightTrue, View, FoldAt;
    MarkIsRead(s, base);
  }

  lemma RunMakes(base: Fold, mark: Mark, rows: seq<Op>, end: nat, run: RunResult)
    requires RunAnswer(base, mark, rows, end, run)
    ensures run.created <= run.fold.Keys && run.changed.Keys <= run.fold.Keys
  {
  }

  lemma TailRead(marked: Seen, loaded: Seen, cutoff: nat, base: Mark, rows: seq<Op>, run: RunResult)
    requires SeenTrue(marked) && Uncleared(marked, loaded) && IsMark(marked.cp, base)
    requires base.seqno <= cutoff <= marked.head
    requires rows == After(UpTo(marked.log, cutoff), base.seqno)
    requires RunAnswer(View(loaded.cp, base.seqno), base, rows, cutoff, run)
    ensures TailTrue(loaded, cutoff, base, run, run.folded == |rows|)
  {
    hide View, FoldAt, CheckpointTrue, FlightTrue, TailTrue, RunAnswer;
    BaseOf(marked, loaded, base);
    PrefixesAgree(marked, loaded);
    TailOfRun(loaded, cutoff, base, run);
  }

  lemma TailAtMark(s: Seen, base: Mark)
    requires SeenTrue(s) && IsMark(s.cp, base) && View(s.cp, base.seqno) == FoldAt(s.log, base.seqno)
    ensures TailTrue(s, base.seqno, base, RunResult(map[], map[], {}, base, 0), true)
  {
    hide CheckpointTrue, FlightTrue, FoldAt, View;
    var none: Fold, stamps: map<Key, nat> := map[], map[];
    assert View(s.cp, base.seqno) + none == View(s.cp, base.seqno);
    assert RowsOf(none, stamps) == map[];
    MarkIsTrue(s.cp, s.log, s.head, base);
    NothingToWrite(s.log, s.head, base);
  }

  lemma NothingToWrite(log: seq<Op>, head: nat, base: Mark)
    requires IsLog(log) && base.seqno <= head && MarkTrue(base, FoldAt(log, base.seqno), |UpTo(log, base.seqno)|)
    ensures FlightTrue(Flight(base.seqno, map[], base), log, head)
  {
    FoldAtStamped(log, base.seqno);
  }

  lemma TailOfRun(s: Seen, cutoff: nat, base: Mark, run: RunResult)
    requires SeenTrue(s) && IsMark(s.cp, base) && base.seqno <= cutoff <= s.head
    requires View(s.cp, base.seqno) == FoldAt(s.log, base.seqno)
    requires RunAnswer(View(s.cp, base.seqno), base, After(UpTo(s.log, cutoff), base.seqno), cutoff, run)
    ensures TailTrue(s, cutoff, base, run, run.folded == |After(UpTo(s.log, cutoff), base.seqno)|)
  {
    hide CheckpointTrue, FoldAt, View, KindsTrue, FlightTrue, UpTo, FoldLog, After;
    var low, at := base.seqno, run.mark.seqno;
    MarkIsTrue(s.cp, s.log, s.head, base);
    RunIsFlight(s.log, s.head, base, cutoff, run);
    RunEnds(s.log, low, cutoff, run.folded, at);
    FoldAtStamped(s.log, low);
    FoldAtExtends(s.log, low, at);
    CreatedAbove(FoldAt(s.log, low), FoldAt(s.log, at), low);
  }

  /** What a run creates is what it stamped that was not there. */
  lemma CreatedAbove(before: Fold, after: Fold, above: nat)
    requires Extends(before, after, above)
    ensures Stamped(after, above).Keys - before.Keys == after.Keys - before.Keys
  {
  }
}
