/**
 * What every trace of the service keeps, whatever it does to its other tables: the log, and what of it
 * requests have read; and table by table, exactly which steps keep what is derived from it true.
 */
module Traces {
  import opened Types
  import opened FoldRule
  import opened FoldRun
  import opened Checkpoint
  import opened Listing
  import opened Pages
  import opened OpLog
  import opened Staging
  import opened Transactions
  import opened Invariant
  import opened Service

  // ----- Growth ---------------------------------------------------------------------------

  /**
   * What can become of the tables: rows are added above every seq reserved, and nothing is taken
   * back of the log, the head, the epoch or a vocabulary once set.
   */
  ghost predicate Onward(t: Tables, after: Tables) {
    && Grows(t.ops, t.repo.lastSeq, after.ops)
    && t.repo.lastSeq <= after.repo.lastSeq && t.repo.epoch <= after.repo.epoch
    && (t.repo.vocabulary.Some? ==> after.repo.vocabulary == t.repo.vocabulary)
  }

  lemma OnwardSame(t: Tables, after: Tables)
    requires after.ops == t.ops && after.repo == t.repo
    ensures Onward(t, after)
  {
    assert after.ops == t.ops + [];
  }

  lemma OnwardJoin(a: Tables, b: Tables, c: Tables)
    requires Onward(a, b) && Onward(b, c)
    ensures Onward(a, c)
  {
    GrowsTwice(a.ops, a.repo.lastSeq, b.ops, b.repo.lastSeq, c.ops);
  }

  /** An epoch's log only grows above the head. */
  lemma LogOnward(t: Tables, after: Tables, epoch: nat)
    requires Onward(t, after)
    ensures Grows(Log(t.ops, epoch), t.repo.lastSeq, Log(after.ops, epoch))
  {
    var more :| after.ops == t.ops + more && AllAbove(more, t.repo.lastSeq);
    LogAppend(t.ops, more, epoch);
    forall i | 0 <= i < |Log(more, epoch)| ensures t.repo.lastSeq < Log(more, epoch)[i].seqno {
      LogHas(more, epoch, Log(more, epoch)[i]);
    }
  }

  /** So the fold at a cutoff the head has passed never changes. */
  lemma FoldOnward(t: Tables, after: Tables, epoch: nat, cutoff: nat)
    requires Onward(t, after) && cutoff <= t.repo.lastSeq
    ensures FoldAt(Log(after.ops, epoch), cutoff) == FoldAt(Log(t.ops, epoch), cutoff)
    ensures UpTo(Log(after.ops, epoch), cutoff) == UpTo(Log(t.ops, epoch), cutoff)
  {
    LogOnward(t, after, epoch);
    var more :| Log(after.ops, epoch) == Log(t.ops, epoch) + more && AllAbove(more, t.repo.lastSeq);
    UpToAppend(Log(t.ops, epoch), more, cutoff);
  }

  // ----- One step -------------------------------------------------------------------------

  /** These rows of one epoch are what a step adds to the log, in slots it reserved. */
  ghost predicate RowsLand(t: Tables, after: Tables, rows: seq<Op>, epoch: nat) {
    after.ops == t.ops + rows && LandsAbove(rows, epoch, t.repo.lastSeq, after.repo.lastSeq)
  }

  ghost predicate Appends(t: Tables, after: Tables) {
    exists rows, epoch: nat :: RowsLand(t, after, rows, epoch)
  }

  lemma AppendsNothing(t: Tables, after: Tables)
    requires after.ops == t.ops && after.repo.lastSeq == t.repo.lastSeq
    ensures Appends(t, after)
  {
    assert RowsLand(t, after, [], 0);
  }

  lemma PushAppends(t: Tables, epoch: nat, vocabulary: Vocabulary, batch: seq<Draft>, now: int)
    requires IdsOnce(t.ops)
    ensures var after := Push(t, epoch, vocabulary, batch, now);
            && Appends(t, after) && IdsOnce(after.ops) && after == t.(repo := after.repo, ops := after.ops)
            && after.repo.epoch == t.repo.epoch && (t.repo.vocabulary.Some? ==> after.repo.vocabulary == t.repo.vocabulary)
  {
    hide Landed, IdsOnce, LandsAbove;
    var after := Push(t, epoch, vocabulary, batch, now);
    if Admits(t.repo, epoch, vocabulary) {
      var rows := Landed(IdsOf(t.ops, epoch), epoch, t.repo.lastSeq, batch, now);
      LandedKeepsOnce(t.ops, epoch, t.repo.lastSeq, batch, now);
      WindowOf(t, epoch, batch, now);
      assert RowsLand(t, after, rows, epoch);
    } else {
      AppendsNothing(t, after);
    }
  }

  lemma WindowOf(t: Tables, epoch: nat, batch: seq<Draft>, now: int)
    ensures LandsAbove(Landed(IdsOf(t.ops, epoch), epoch, t.repo.lastSeq, batch, now), epoch, t.repo.lastSeq,
                       t.repo.lastSeq + |batch|)
  {
    LandedSlots(IdsOf(t.ops, epoch), epoch, t.repo.lastSeq, batch, now);
  }

  lemma StageAppends(t: Tables, rid: string, batch: seq<Draft>, now: int)
    requires IdsOnce(t.ops) && rid in t.restores
    ensures var after := StageRestore(t, rid, batch, now);
            Appends(t, after) && IdsOnce(after.ops)
  {
    hide Landed, IdsOnce, LandsAbove, RecordProgress;
    var r, after := t.restores[rid], StageRestore(t, rid, batch, now);
    if t.repo.epoch == r.from {
      var rows := Landed(IdsOf(t.ops, r.into), r.into, t.repo.lastSeq, batch, now);
      LandedKeepsOnce(t.ops, r.into, t.repo.lastSeq, batch, now);
      WindowOf(t, r.into, batch, now);
      assert RowsLand(t, after, rows, r.into);
    } else {
      AppendsNothing(t, after);
    }
  }

  lemma StepAppends(s: Service, step: Step, less: KeyOrder)
    requires StrictOrder(less) && IdsOnce(s.tables.ops) && Enabled(s, step, less)
    ensures Appends(s.tables, Next(s, step).tables) && IdsOnce(Next(s, step).tables.ops)
  {
    hide IdsOnce, Appends, Push, StageRestore, MayStage, Captured, FlightTrue, StagedCount, NoIntruder, Asks, InEpoch,
      BeginHeld,
      InUse;
    var t := s.tables;
    match step
    case PushStep(epoch, vocabulary, batch, now) => PushAppends(t, epoch, vocabulary, batch, now);
    case StageStep(rid, batch, now, _) => StageAppends(t, rid, batch, now);
    case _ => AppendsNothing(t, Next(s, step).tables);
  }

  // ----- What every trace keeps -----------------------------------------------------------

  /** One primary key, every seq reserved, and one row per id in an epoch. */
  ghost predicate OpsSound(t: Tables) {
    IsLog(t.ops) && AllAtMost(t.ops, t.repo.lastSeq) && IdsOnce(t.ops)
  }

  /** A restore fills the epoch after the one it began in, which a commit has left. */
  ghost predicate RestoresSound(t: Tables) {
    forall rid | rid in t.restores ::
      && t.restores[rid].into == t.restores[rid].from + 1 && t.restores[rid].from <= t.repo.epoch
      && t.restores[rid].guard <= t.repo.lastSeq && (t.restores[rid].committed ==> t.restores[rid].from < t.repo.epoch)
  }

  /** A restore's undo, if it is still there, was captured at the epoch and head it began at. */
  ghost predicate UndosSound(t: Tables, used: set<string>) {
    forall rid | rid in t.restores ::
      && t.restores[rid].undo in used
      && (t.restores[rid].undo in t.backups ==> UndoFor(t.restores[rid], t.backups[t.restores[rid].undo]))
  }

  predicate UndoFor(r: Restore, undo: Backup) {
    undo.epoch == r.from && undo.cutoff == r.guard
  }

  function EpochOf(begin: Begin): nat {
    match begin
    case Opened(epoch, _) => epoch
    case Alone(epoch, _) => epoch
    case Sourced(ticket) => ticket.epoch
    case Ready(ticket) => ticket.epoch
    case Undone(ticket, _) => ticket.epoch
  }

  function GuardOf(begin: Begin): nat {
    match begin
    case Opened(_, guard) => guard
    case Alone(_, guard) => guard
    case Sourced(ticket) => ticket.guard
    case Ready(ticket) => ticket.guard
    case Undone(ticket, _) => ticket.guard
  }

  /** A request that found the next epoch empty will never find a row of it at or below the head it read. */
  ghost predicate GuardsSound(t: Tables, begins: set<Begin>) {
    forall begin | begin in begins :: GuardSound(t, begin)
  }

  ghost predicate GuardSound(t: Tables, begin: Begin) {
    && EpochOf(begin) <= t.repo.epoch && GuardOf(begin) <= t.repo.lastSeq
    && (begin.Ready? || begin.Undone? ==> UpTo(Log(t.ops, EpochOf(begin) + 1), GuardOf(begin)) == [])
  }

  /** Marks read, and steps folded onto them, that nothing cleared. */
  ghost predicate HeldSound(s: Service) {
    ReadsTrue(s.seen, s.tables.folds) && FlightsTrue(s.flights, s.tables.folds, s.tables.ops, s.tables.repo.lastSeq)
  }

  ghost predicate Sound(s: Service) {
    && OpsSound(s.tables) && RestoresSound(s.tables) && UndosSound(s.tables, s.used)
    && GuardsSound(s.tables, s.begins) && BeginsTrue(s.begins, s.tables.backups, s.used) && HeldSound(s)
  }

  lemma OpsKept(t: Tables, after: Tables)
    requires OpsSound(t) && Appends(t, after) && IdsOnce(after.ops)
    ensures OpsSound(after)
  {
    hide IdsOnce;
    var rows, epoch: nat :| RowsLand(t, after, rows, epoch);
  }

  lemma AppendsOnward(t: Tables, after: Tables)
    requires Appends(t, after) && t.repo.epoch <= after.repo.epoch
    requires t.repo.vocabulary.Some? ==> after.repo.vocabulary == t.repo.vocabulary
    ensures Onward(t, after)
  {
    var rows, epoch: nat :| RowsLand(t, after, rows, epoch);
  }

  lemma StepOnward(s: Service, step: Step, less: KeyOrder)
    requires StrictOrder(less) && OpsSound(s.tables) && RestoresSound(s.tables) && Enabled(s, step, less)
    ensures Onward(s.tables, Next(s, step).tables)
  {
    hide IdsOnce, Appends, Onward, Push, StageRestore, MayStage, Captured, FlightTrue, StagedCount, NoIntruder, Asks,
      InEpoch,
      BeginHeld, InUse, IsLog;
    var t := s.tables;
    StepAppends(s, step, less);
    match step {
      case PushStep(epoch, vocabulary, batch, now) => PushAppends(t, epoch, vocabulary, batch, now);
      case StageStep(rid, batch, now, _) => StageElsewhere(t, rid, batch, now);
      case _ =>
    }
    AppendsOnward(t, Next(s, step).tables);
  }

  /** A restore's row keeps what it is of; one is added with each begin. */
  lemma StepRestores(s: Service, step: Step, less: KeyOrder)
    requires StrictOrder(less) && Enabled(s, step, less)
    ensures var t, after := s.tables, Next(s, step).tables;
            && (forall rid | rid in t.restores :: rid in after.restores && SameRestore(t.restores[rid], after.restores[rid]))
            && (forall rid | rid in after.restores && rid !in t.restores :: step.BeginStep? && step.rid == rid)
  {
    hide MayStage, Captured, FlightTrue, StagedCount, NoIntruder, Asks, InEpoch, BeginHeld, InUse, Landed, Log, IdsOf,
      After, UpTo,
      IsStaging;
  }

  /** But for its progress, and for being committed once and for all. */
  predicate SameRestore(r: Restore, after: Restore) {
    && after == r.(committed := after.committed, stagedCount := after.stagedCount, stagedSeq := after.stagedSeq)
    && (r.committed ==> after.committed)
  }

  lemma StepRestoresSound(s: Service, step: Step, less: KeyOrder)
    requires StrictOrder(less) && Sound(s) && Enabled(s, step, less) && Onward(s.tables, Next(s, step).tables)
    ensures RestoresSound(Next(s, step).tables)
  {
    hide OpsSound, UndosSound, BeginsTrue, HeldSound, MayStage, Captured, FlightTrue, StagedCount, NoIntruder, Asks,
      InEpoch, BeginHeld,
      InUse, Landed, Log, IdsOf, After, UpTo, Grows, Push;
    StepRestores(s, step, less);
    var t, after := s.tables, Next(s, step).tables;
    forall rid | rid in after.restores
      ensures after.restores[rid].into == after.restores[rid].from + 1 && after.restores[rid].from <= after.repo.epoch
      ensures after.restores[rid].guard <= after.repo.lastSeq
      ensures after.restores[rid].committed ==> after.restores[rid].from < after.repo.epoch
    {
      if rid !in t.restores {
        assert Undone(step.ticket, step.undo) in s.begins;
      } else if !t.restores[rid].committed && after.restores[rid].committed {
        CommitsAtFlip(s, step, rid);
      }
    }
  }

  lemma CommitsAtFlip(s: Service, step: Step, rid: string)
    requires rid in s.tables.restores && !s.tables.restores[rid].committed && rid in Next(s, step).tables.restores
    requires Next(s, step).tables.restores[rid].committed
    requires !(step.BeginStep? && step.rid == rid)
    ensures step.FlipStep? && step.rid == rid
  {
    hide Landed, Log, IdsOf, After, UpTo, InEpoch, BeginHeld, InUse;
  }

  lemma StepUndosSound(s: Service, step: Step, less: KeyOrder)
    requires StrictOrder(less) && Sound(s) && Enabled(s, step, less)
    ensures UndosSound(Next(s, step).tables, Next(s, step).used)
  {
    hide OpsSound, RestoresSound, GuardsSound, HeldSound, MayStage, Captured, FlightTrue, StagedCount, NoIntruder,
      Asks, InEpoch,
      BeginHeld, InUse, Landed, Log, IdsOf, After, UpTo, Push, StageRestore, Flip;
    StepRestores(s, step, less);
    StepBackups(s, step);
    var t, after := s.tables, Next(s, step).tables;
    forall rid | rid in after.restores
      ensures after.restores[rid].undo in Next(s, step).used
      ensures after.restores[rid].undo in after.backups ==> UndoFor(after.restores[rid], after.backups[after.restores[rid].undo])
    {
      if rid !in t.restores {
        assert BeginTrue(Undone(step.ticket, step.undo), t.backups, s.used);
      }
    }
  }

  /** A backup's row is written once, under an id of its own, and never changed. */
  lemma StepBackups(s: Service, step: Step)
    ensures var t, after := s.tables, Next(s, step).tables;
            && s.used <= Next(s, step).used
            && (forall id | id in after.backups ::
                  (id in t.backups && after.backups[id] == t.backups[id]) || ((step.CaptureStep? || step.UndoStep?) && step.id == id))
            && (forall id | id in t.backups && id !in after.backups :: step == DeleteStep(id))
  {
    hide Landed, Log, IdsOf, After, UpTo, InEpoch, BeginHeld, InUse;
  }

  lemma StepBeginsTrue(s: Service, step: Step, less: KeyOrder)
    requires StrictOrder(less) && BeginsTrue(s.begins, s.tables.backups, s.used) && Enabled(s, step, less)
    ensures BeginsTrue(Next(s, step).begins, Next(s, step).tables.backups, Next(s, step).used)
  {
    hide MayStage, Captured, FlightTrue, StagedCount, NoIntruder, InEpoch, BeginHeld, InUse, Landed, Log, IdsOf, After,
      UpTo, Push,
      StageRestore, Flip;
    match step
    case UndoStep(ticket, _, _, _) => assert BeginTrue(Ready(ticket), s.tables.backups, s.used);
    case AskStep(was, _) =>
      if was.Some? {
        assert BeginTrue(was.value, s.tables.backups, s.used);
      }
    case PushStep(epoch, vocabulary, batch, now) => PushElsewhere(s.tables, epoch, vocabulary, batch, now);
    case StageStep(rid, batch, now, _) => StageElsewhere(s.tables, rid, batch, now);
    case FlipStep(rid) => FlipElsewhere(s.tables, rid);
    case _ =>
  }

  lemma PushElsewhere(t: Tables, epoch: nat, vocabulary: Vocabulary, batch: seq<Draft>, now: int)
    ensures var after := Push(t, epoch, vocabulary, batch, now);
            after == t.(repo := after.repo, ops := after.ops) && after.repo.epoch == t.repo.epoch
  {
    hide Landed;
  }

  lemma FlipElsewhere(t: Tables, rid: string)
    requires rid in t.restores
    ensures var after := Flip(t, rid);
            after == t.(repo := after.repo, restores := after.restores) && after.repo.vocabulary == t.repo.vocabulary
  {
  }

  lemma StepGuardsSound(s: Service, step: Step, less: KeyOrder)
    requires StrictOrder(less) && Sound(s) && Enabled(s, step, less) && Onward(s.tables, Next(s, step).tables)
    ensures GuardsSound(Next(s, step).tables, Next(s, step).begins)
  {
    hide OpsSound, RestoresSound, UndosSound, BeginsTrue, HeldSound, MayStage, Captured, FlightTrue, StagedCount,
      NoIntruder, InEpoch,
      BeginHeld, InUse, Landed, IdsOf, After, Push, StageRestore, Flip, Log, UpTo, Onward;
    var t, after := s.tables, Next(s, step).tables;
    forall begin | begin in Next(s, step).begins ensures GuardSound(after, begin) {
      if begin in s.begins {
        GuardOnward(t, after, begin);
      } else {
        NewGuard(s, step, less, begin);
      }
    }
  }

  lemma GuardOnward(t: Tables, after: Tables, begin: Begin)
    requires GuardSound(t, begin) && Onward(t, after)
    ensures GuardSound(after, begin)
  {
    hide Log, UpTo, FoldAt;
    FoldOnward(t, after, EpochOf(begin) + 1, GuardOf(begin));
  }

  /** What a request has just read of the guard it will restore above. */
  lemma NewGuard(s: Service, step: Step, less: KeyOrder, begin: Begin)
    requires StrictOrder(less) && GuardsSound(s.tables, s.begins) && Enabled(s, step, less)
    requires begin in Next(s, step).begins && begin !in s.begins
    ensures GuardSound(Next(s, step).tables, begin)
  {
    hide Captured, MayStage, FlightTrue, StagedCount, NoIntruder, InEpoch, BeginHeld, InUse, Landed, IdsOf, After,
      Push, StageRestore,
      Flip, Log;
    match step
    case AskStep(was, next) =>
      assert was.Some? ==> GuardSound(s.tables, was.value);
      assert UpTo([], GuardOf(next)) == [];
    case UndoStep(ticket, id, _, _) => assert GuardSound(s.tables, Ready(ticket));
    case _ =>
  }

  lemma StepHeldSound(s: Service, step: Step, less: KeyOrder)
    requires StrictOrder(less) && Sound(s) && Enabled(s, step, less) && Appends(s.tables, Next(s, step).tables)
    ensures HeldSound(Next(s, step))
  {
    hide OpsSound, RestoresSound, UndosSound, GuardsSound, BeginsTrue, MayStage, Captured, StagedCount, NoIntruder,
      InUse, Landed, IdsOf,
      After, Push, StageRestore, Flip, Log, FlightTrue, BeginHeld, Asks, FlightsTrue, ReadsTrue;
    var t, after := s.tables, Next(s, step);
    var rows, epoch: nat :| RowsLand(t, after.tables, rows, epoch);
    FlightsAppend(s.flights, t.folds, t.ops, rows, epoch, t.repo.lastSeq, after.tables.repo.lastSeq);
    match step {
      case FoldStep(at, flight, torn) =>
        if !torn {
          HeldRead(s.seen, t.folds, at, flight.from);
          FlightAdded(s.flights, t, at, flight);
        }
      case ReadStep(at, seqno) => ReadAdded(s.seen, t.folds, at, seqno);
      case PushStep(at, vocabulary, batch, now) => PushElsewhere(t, at, vocabulary, batch, now);
      case StageStep(rid, batch, now, _) => StageElsewhere(t, rid, batch, now);
      case FlipStep(rid) => FlipElsewhere(t, rid);
      case _ =>
    }
    if !step.FoldStep? && !step.ReadStep? {
      HeldFrame(s, step, after);
    }
  }

  lemma HeldRead(seen: Marks, folds: map<nat, Checkpoint>, epoch: nat, at: nat)
    requires ReadsTrue(seen, folds) && (epoch, at) in seen
    ensures ReadsTrue({(epoch, at)}, folds)
  {
  }

  lemma ReadAdded(seen: Marks, folds: map<nat, Checkpoint>, epoch: nat, at: nat)
    requires ReadsTrue(seen, folds) && Readable(CheckpointOf(folds, epoch), at)
    ensures ReadsTrue(seen + {(epoch, at)}, folds)
  {
  }

  /** A step that is no clear of an epoch keeps the marks of its checkpoint; one that is tears what had read them. */
  lemma HeldFrame(s: Service, step: Step, after: Service)
    requires after == Next(s, step) && !step.FoldStep? && !step.ReadStep?
    requires ReadsTrue(s.seen, s.tables.folds)
    requires FlightsTrue(s.flights, s.tables.folds, after.tables.ops, after.tables.repo.lastSeq)
    ensures HeldSound(after)
  {
    hide FlightTrue, Landed, IdsOf, After, Log, UpTo, InUse, BeginHeld;
  }

  /** Every step keeps the log, and what requests under way have read of it. */
  lemma StepSound(s: Service, step: Step, less: KeyOrder)
    requires StrictOrder(less) && Sound(s) && Enabled(s, step, less)
    ensures Sound(Next(s, step)) && Onward(s.tables, Next(s, step).tables)
  {
    hide OpsSound, RestoresSound, UndosSound, GuardsSound, BeginsTrue, HeldSound, Enabled, Next, Appends, Onward,
      IdsOnce;
    SoundParts(s);
    StepAppends(s, step, less);
    OpsKept(s.tables, Next(s, step).tables);
    StepOnward(s, step, less);
    StepRestoresSound(s, step, less);
    StepUndosSound(s, step, less);
    StepGuardsSound(s, step, less);
    StepBeginsTrue(s, step, less);
    StepHeldSound(s, step, less);
  }

  lemma SoundParts(s: Service)
    requires Sound(s)
    ensures OpsSound(s.tables) && IdsOnce(s.tables.ops) && RestoresSound(s.tables)
  {
    hide RestoresSound, UndosSound, GuardsSound, BeginsTrue, HeldSound;
  }

  /** So every trace does, and only ever adds to the log. */
  lemma {:induction false} TraceSound(s: Service, steps: seq<Step>, less: KeyOrder)
    requires StrictOrder(less) && Sound(s) && Trace(s, steps, less)
    ensures Sound(Final(s, steps)) && Onward(s.tables, Final(s, steps).tables)
    decreases |steps|
  {
    hide Sound, Enabled, Next;
    if steps == [] {
      OnwardSame(s.tables, s.tables);
    } else {
      var next := Next(s, steps[0]);
      StepSound(s, steps[0], less);
      TraceSound(next, steps[1..], less);
      OnwardJoin(s.tables, next.tables, Final(next, steps[1..]).tables);
    }
  }

  lemma StartSound()
    ensures Sound(START)
  {
  }

  /** A trace leads from one state to another. */
  ghost predicate TracedFrom(s: Service, after: Service, less: KeyOrder)
    requires StrictOrder(less)
  {
    exists steps :: Trace(s, steps, less) && Final(s, steps) == after
  }

  /** A state some trace of the empty service leads to: any the service can be in. */
  ghost predicate Traced(s: Service, less: KeyOrder)
    requires StrictOrder(less)
  {
    TracedFrom(START, s, less)
  }

  lemma {:induction false} TraceJoin(s: Service, first: seq<Step>, rest: seq<Step>, less: KeyOrder)
    requires StrictOrder(less) && Trace(s, first, less) && Trace(Final(s, first), rest, less)
    ensures Trace(s, first + rest, less) && Final(s, first + rest) == Final(Final(s, first), rest)
    decreases |first|
  {
    hide Enabled, Next;
    if first == [] {
      assert first + rest == rest;
    } else {
      TraceJoin(Next(s, first[0]), first[1..], rest, less);
      assert (first + rest)[1..] == first[1..] + rest;
    }
  }

  /** One more step from a state the service can be in. */
  lemma TracedStep(s: Service, step: Step, less: KeyOrder)
    requires StrictOrder(less) && Traced(s, less) && Enabled(s, step, less)
    ensures Traced(Next(s, step), less)
  {
    hide Enabled, Next;
    var steps :| Trace(START, steps, less) && Final(START, steps) == s;
    assert [step][1..] == [];
    TraceJoin(START, steps, [step], less);
  }

  lemma ReachableTraced(s: Service, less: KeyOrder)
    requires StrictOrder(less) && Reachable(s, less)
    ensures Traced(s, less)
  {
    hide Run, Trace, Final;
    var steps :| Run(START, steps, less) && Final(START, steps) == s;
    RunIsTrace(START, steps, less);
  }

  lemma TracedOnward(s: Service, after: Service, less: KeyOrder)
    requires StrictOrder(less) && Sound(s) && TracedFrom(s, after, less)
    ensures Sound(after) && Onward(s.tables, after.tables)
  {
    hide Sound, Trace, Final, Onward;
    var steps :| Trace(s, steps, less) && Final(s, steps) == after;
    TraceSound(s, steps, less);
  }

  lemma TracedSound(s: Service, less: KeyOrder)
    requires StrictOrder(less) && Traced(s, less)
    ensures Sound(s)
  {
    hide Sound, TracedFrom;
    StartSound();
    TracedOnward(START, s, less);
  }

  lemma SoundLog(s: Service, epoch: nat)
    requires Sound(s)
    ensures IsLog(Log(s.tables.ops, epoch)) && AllAtMost(Log(s.tables.ops, epoch), s.tables.repo.lastSeq)
  {
    hide RestoresSound, UndosSound, GuardsSound, BeginsTrue, HeldSound, IdsOnce;
    LogIncreasing(s.tables.ops, epoch);
    LogBounds(s.tables.ops, epoch, 0, s.tables.repo.lastSeq);
  }

  // ----- Table by table -------------------------------------------------------------------

  /** What is derived from the log, or rests on it, table by table. */
  datatype Part = Folds | Backups | Vocabularies

  /** The checkpoints refine the fold; the backups record it; and the log is of the repository's one vocabulary. */
  ghost predicate PartTrue(part: Part, t: Tables) {
    match part
    case Folds => FoldsTrue(t.folds, t.ops, t.repo.lastSeq)
    case Backups => BackupsTrue(t.backups, t.ops, t.repo.lastSeq)
    case Vocabularies => OneVocabulary(t.ops, t.repo.vocabulary)
  }

  /** The rows a stage turn lands. */
  function TurnRows(t: Tables, rid: string, batch: seq<Draft>, now: int): seq<Op>
    requires rid in t.restores
  {
    var r := t.restores[rid];
    if t.repo.epoch == r.from then Landed(IdsOf(t.ops, r.into), r.into, t.repo.lastSeq, batch, now) else []
  }

  /** What a step writes of a table is true. Of each, one kind of step alone could write what is not. */
  ghost predicate Keeps(part: Part, s: Service, step: Step) {
    var t := s.tables;
    match part
    case Folds =>
      step.LandStep? ==> LandsTrue(CheckpointOf(t.folds, step.epoch), step.flight, Log(t.ops, step.epoch), t.repo.lastSeq)
    case Backups =>
      step.CaptureStep? || step.UndoStep? ==> BackupTrue(step.backup, Log(t.ops, step.backup.epoch), t.repo.lastSeq)
    case Vocabularies =>
      step.StageStep? && step.rid in t.restores ==> OneVocabulary(TurnRows(t, step.rid, step.batch, step.now), t.repo.vocabulary)
  }

  /** A step keeps a table true exactly when what it writes of that table is. */
  lemma StepPartIff(part: Part, s: Service, step: Step, less: KeyOrder)
    requires StrictOrder(less) && Sound(s) && PartTrue(part, s.tables) && Enabled(s, step, less)
    ensures PartTrue(part, Next(s, step).tables) <==> Keeps(part, s, step)
  {
    hide Sound, Enabled, Next, PartTrue, Keeps;
    match part
    case Folds => StepFoldsIff(s, step, less);
    case Backups => StepBackupsIff(s, step, less);
    case Vocabularies => StepVocabularyIff(s, step, less);
  }

  lemma StepFoldsIff(s: Service, step: Step, less: KeyOrder)
    requires StrictOrder(less) && Sound(s) && PartTrue(Folds, s.tables) && Enabled(s, step, less)
    ensures PartTrue(Folds, Next(s, step).tables) <==> Keeps(Folds, s, step)
  {
    hide OpsSound, RestoresSound, UndosSound, BeginsTrue, HeldSound, MayStage, Captured, FlightTrue, StagedCount,
      NoIntruder, Asks,
      InEpoch, BeginHeld, InUse, LandsTrue, Push, StageRestore, Flip, FoldsTrue, Log, BackupTrue, GuardsSound, Appends;
    var t, after := s.tables, Next(s, step).tables;
    match step
    case LandStep(epoch, flight, _) => FoldsWriteIff(t.folds, t.ops, t.repo.lastSeq, epoch, flight);
    case BeginStep(rid, ticket, undo) => BeginFolds(s, less, rid, ticket, undo);
    case ClearStep => NoFolds(t.ops, t.repo.lastSeq);
    case PushStep(epoch, vocabulary, batch, now) =>
      PushElsewhere(t, epoch, vocabulary, batch, now);
      FoldsOnward(s, step, less);
    case StageStep(rid, batch, now, _) =>
      StageElsewhere(t, rid, batch, now);
      FoldsOnward(s, step, less);
    case FlipStep(rid) =>
      FlipElsewhere(t, rid);
      FoldsOnward(s, step, less);
    case _ =>
  }

  lemma NoFolds(ops: seq<Op>, head: nat)
    ensures FoldsTrue(map[], ops, head)
  {
  }

  /** Rows landing above the head leave every checkpoint true. */
  lemma FoldsOnward(s: Service, step: Step, less: KeyOrder)
    requires StrictOrder(less) && Sound(s) && Enabled(s, step, less)
    requires FoldsTrue(s.tables.folds, s.tables.ops, s.tables.repo.lastSeq)
    ensures FoldsTrue(s.tables.folds, Next(s, step).tables.ops, Next(s, step).tables.repo.lastSeq)
  {
    hide RestoresSound, UndosSound, GuardsSound, BeginsTrue, HeldSound, Enabled, Next, FoldsTrue, IdsOnce;
    var t, after := s.tables, Next(s, step).tables;
    StepAppends(s, step, less);
    var rows, epoch: nat :| RowsLand(t, after, rows, epoch);
    FoldsAppend(t.folds, t.ops, rows, epoch, t.repo.lastSeq, after.repo.lastSeq);
  }

  lemma FoldsWriteIff(folds: map<nat, Checkpoint>, ops: seq<Op>, head: nat, epoch: nat, flight: Flight)
    requires FoldsTrue(folds, ops, head)
    ensures FoldsTrue(folds[epoch := WriteStep(CheckpointOf(folds, epoch), flight)], ops, head)
            <==> LandsTrue(CheckpointOf(folds, epoch), flight, Log(ops, epoch), head)
  {
    hide CheckpointTrue, LandsTrue, Log, WriteStep;
    var cp := CheckpointOf(folds, epoch);
    EpochFold(folds, ops, head, epoch);
    WriteKeepsIff(cp, flight, Log(ops, epoch), head);
    if CheckpointTrue(WriteStep(cp, flight), Log(ops, epoch), head) {
      FoldsUpdate(folds, ops, head, epoch, WriteStep(cp, flight));
    }
    assert epoch in folds[epoch := WriteStep(cp, flight)];
  }

  /** However stale a begin, the mark its checkpoint starts at is true: no row of its epoch is at or below the guard. */
  lemma BeginFolds(s: Service, less: KeyOrder, rid: string, ticket: Ticket, undo: string)
    requires StrictOrder(less) && Sound(s) && FoldsTrue(s.tables.folds, s.tables.ops, s.tables.repo.lastSeq)
    requires Enabled(s, BeginStep(rid, ticket, undo), less)
    ensures FoldsTrue(BeginRestore(s.tables, rid, ticket, undo).folds, s.tables.ops, s.tables.repo.lastSeq)
  {
    hide OpsSound, RestoresSound, UndosSound, BeginsTrue, HeldSound, FoldsTrue, Log, UpTo, CheckpointTrue;
    var t, into := s.tables, ticket.epoch + 1;
    assert GuardSound(t, Undone(ticket, undo));
    var cp := BeginRestore(t, rid, ticket, undo).folds[into];
    FloorTrue(cp, Log(t.ops, into), ticket.guard, t.repo.lastSeq);
    FoldsUpdate(t.folds, t.ops, t.repo.lastSeq, into, cp);
  }

  lemma FloorTrue(cp: Checkpoint, log: seq<Op>, guard: nat, head: nat)
    requires UpTo(log, guard) == [] && guard <= head && cp == Checkpoint(map[], map[guard := Mark(guard, 0, map[])])
    ensures CheckpointTrue(cp, log, head)
  {
    hide UpTo;
  }

  lemma StepBackupsIff(s: Service, step: Step, less: KeyOrder)
    requires StrictOrder(less) && Sound(s) && PartTrue(Backups, s.tables) && Enabled(s, step, less)
    ensures PartTrue(Backups, Next(s, step).tables) <==> Keeps(Backups, s, step)
  {
    hide OpsSound, RestoresSound, UndosSound, BeginsTrue, HeldSound, MayStage, Captured, FlightTrue, StagedCount,
      NoIntruder, Asks,
      InEpoch, BeginHeld, InUse, LandsTrue, Push, StageRestore, Flip, BackupsTrue, Log, BackupTrue, GuardsSound, Appends;
    var t, after := s.tables, Next(s, step).tables;
    match step
    case CaptureStep(id, backup, _) => BackupsInsertIff(s, less, id, backup);
    case UndoStep(_, id, backup, _) => BackupsInsertIff(s, less, id, backup);
    case DeleteStep(id) => BackupsWithout(t.backups, t.ops, t.repo.lastSeq, id);
    case PushStep(epoch, vocabulary, batch, now) =>
      PushElsewhere(t, epoch, vocabulary, batch, now);
      BackupsOnward(s, step, less);
    case StageStep(rid, batch, now, _) =>
      StageElsewhere(t, rid, batch, now);
      BackupsOnward(s, step, less);
    case FlipStep(rid) =>
      FlipElsewhere(t, rid);
      BackupsOnward(s, step, less);
    case _ =>
  }

  lemma BackupsInsertIff(s: Service, less: KeyOrder, id: string, backup: Backup)
    requires StrictOrder(less) && BackupsTrue(s.tables.backups, s.tables.ops, s.tables.repo.lastSeq)
    ensures BackupsTrue(s.tables.backups[id := backup], s.tables.ops, s.tables.repo.lastSeq)
            <==> BackupTrue(backup, Log(s.tables.ops, backup.epoch), s.tables.repo.lastSeq)
  {
    hide BackupsTrue, BackupTrue, Log;
    var t := s.tables;
    if BackupTrue(backup, Log(t.ops, backup.epoch), t.repo.lastSeq) {
      BackupsInsert(t.backups, t.ops, t.repo.lastSeq, id, backup);
    }
    if BackupsTrue(t.backups[id := backup], t.ops, t.repo.lastSeq) {
      BackupIn(t.backups[id := backup], t.ops, t.repo.lastSeq, id);
    }
  }

  lemma BackupsOnward(s: Service, step: Step, less: KeyOrder)
    requires StrictOrder(less) && Sound(s) && Enabled(s, step, less)
    requires BackupsTrue(s.tables.backups, s.tables.ops, s.tables.repo.lastSeq)
    ensures BackupsTrue(s.tables.backups, Next(s, step).tables.ops, Next(s, step).tables.repo.lastSeq)
  {
    hide RestoresSound, UndosSound, GuardsSound, BeginsTrue, HeldSound, Enabled, Next, BackupsTrue, IdsOnce;
    var t, after := s.tables, Next(s, step).tables;
    StepAppends(s, step, less);
    var rows, epoch: nat :| RowsLand(t, after, rows, epoch);
    BackupsAppend(t.backups, t.ops, rows, epoch, t.repo.lastSeq, after.repo.lastSeq);
  }

  lemma StepVocabularyIff(s: Service, step: Step, less: KeyOrder)
    requires StrictOrder(less) && PartTrue(Vocabularies, s.tables) && Enabled(s, step, less)
    ensures PartTrue(Vocabularies, Next(s, step).tables) <==> Keeps(Vocabularies, s, step)
  {
    hide MayStage, Captured, FlightTrue, StagedCount, NoIntruder, Asks, InEpoch, BeginHeld, InUse, LandsTrue, Push,
      StageRestore, Flip,
      OneVocabulary, TurnRows, VocabularyOf;
    var t := s.tables;
    match step
    case PushStep(epoch, vocabulary, batch, now) => PushVocabulary(t, epoch, vocabulary, batch, now);
    case StageStep(rid, batch, now, _) => StageVocabulary(t, rid, batch, now);
    case FlipStep(rid) => FlipElsewhere(t, rid);
    case _ =>
  }

  lemma PushVocabulary(t: Tables, epoch: nat, vocabulary: Vocabulary, batch: seq<Draft>, now: int)
    requires OneVocabulary(t.ops, t.repo.vocabulary)
    requires forall i | 0 <= i < |batch| :: VocabularyOf(batch[i].key) == vocabulary
    ensures OneVocabulary(Push(t, epoch, vocabulary, batch, now).ops, Push(t, epoch, vocabulary, batch, now).repo.vocabulary)
  {
    hide Landed, VocabularyOf;
    LandedVocabulary(IdsOf(t.ops, epoch), epoch, t.repo.lastSeq, batch, now, Some(vocabulary));
  }

  lemma StageVocabulary(t: Tables, rid: string, batch: seq<Draft>, now: int)
    requires OneVocabulary(t.ops, t.repo.vocabulary) && rid in t.restores
    ensures var after := StageRestore(t, rid, batch, now);
            OneVocabulary(after.ops, after.repo.vocabulary) <==> OneVocabulary(TurnRows(t, rid, batch, now), t.repo.vocabulary)
  {
    hide Landed, VocabularyOf, RecordProgress;
    var after, rows := StageRestore(t, rid, batch, now), TurnRows(t, rid, batch, now);
    assert after.ops == t.ops + rows && after.repo.vocabulary == t.repo.vocabulary;
    if OneVocabulary(after.ops, after.repo.vocabulary) {
      forall i | 0 <= i < |rows| ensures t.repo.vocabulary == Some(VocabularyOf(rows[i].key)) {
        assert after.ops[|t.ops| + i] == rows[i];
      }
    }
  }

  // ----- Over a trace ---------------------------------------------------------------------

  /** A table is true at the start of a trace, at its end, and everywhere between. */
  ghost predicate TrueThroughout(part: Part, s: Service, steps: seq<Step>)
    decreases |steps|
  {
    PartTrue(part, s.tables) && (steps == [] || TrueThroughout(part, Next(s, steps[0]), steps[1..]))
  }

  /** What every step of a trace writes of a table is true. */
  ghost predicate EachKeeps(part: Part, s: Service, steps: seq<Step>)
    decreases |steps|
  {
    steps == [] || (Keeps(part, s, steps[0]) && EachKeeps(part, Next(s, steps[0]), steps[1..]))
  }

  /** A table stays true all through a trace, whatever becomes of the others, exactly when each step keeps it. */
  lemma {:induction false} TracePartIff(part: Part, s: Service, steps: seq<Step>, less: KeyOrder)
    requires StrictOrder(less) && Sound(s) && PartTrue(part, s.tables) && Trace(s, steps, less)
    ensures EachKeeps(part, s, steps) <==> TrueThroughout(part, s, steps)
    ensures EachKeeps(part, s, steps) ==> PartTrue(part, Final(s, steps).tables)
    decreases |steps|
  {
    hide Sound, PartTrue, Keeps, Enabled, Next;
    if steps != [] {
      var next := Next(s, steps[0]);
      StepPartIff(part, s, steps[0], less);
      StepSound(s, steps[0], less);
      if Keeps(part, s, steps[0]) {
        TracePartIff(part, next, steps[1..], less);
      } else {
        assert !TrueThroughout(part, next, steps[1..]);
      }
    }
  }

  /** The step writes of this table what a clear may have torn, or something spoiled. */
  predicate WritesTorn(part: Part, step: Step) {
    match part
    case Folds => step.LandStep? && step.torn
    case Backups => (step.CaptureStep? || step.UndoStep?) && step.torn
    case Vocabularies => step.StageStep? && step.torn
  }

  /** A step that writes of a table nothing torn keeps it. */
  lemma HeldKeeps(part: Part, s: Service, step: Step, less: KeyOrder)
    requires StrictOrder(less) && Sound(s) && PartTrue(part, s.tables) && Enabled(s, step, less)
    requires !WritesTorn(part, step)
    ensures Keeps(part, s, step)
  {
    hide OpsSound, RestoresSound, UndosSound, GuardsSound, BeginsTrue, HeldSound, PartTrue, LandsTrue, BackupTrue,
      OneVocabulary,
      MarkOf, Captures, FlightTrue, StagedCount, NoIntruder, Asks, InUse, Log, MayStage, TurnRows;
    var t := s.tables;
    match part
    case Folds =>
      if step.LandStep? {
        HeldLands(s, step.epoch, step.flight);
      }
    case Backups =>
      if step.CaptureStep? || step.UndoStep? {
        var mark :| MarkOf(t.ops, t.repo.lastSeq, step.backup.epoch, mark) && Captures(step.backup, mark);
        CaptureIsTrue(t.ops, t.repo.lastSeq, step.backup, mark);
      }
    case Vocabularies =>
      if step.StageStep? {
        HeldTurn(t, less, step.rid, step.batch, step.now);
      }
  }

  lemma HeldLands(s: Service, epoch: nat, flight: Flight)
    requires Sound(s) && PartTrue(Folds, s.tables) && (epoch, flight) in s.flights
    ensures LandsTrue(CheckpointOf(s.tables.folds, epoch), flight, Log(s.tables.ops, epoch), s.tables.repo.lastSeq)
  {
    hide OpsSound, RestoresSound, UndosSound, GuardsSound, BeginsTrue, CheckpointTrue, FlightTrue, FoldAt, LandsTrue,
      Covers, IsLog, Log;
    var t := s.tables;
    InFlight(s.flights, t.folds, t.ops, t.repo.lastSeq, epoch, flight);
    SoundLog(s, epoch);
    EpochFold(t.folds, t.ops, t.repo.lastSeq, epoch);
    MarkCovers(CheckpointOf(t.folds, epoch), Log(t.ops, epoch), t.repo.lastSeq, flight.from);
    LandsWhenHeld(CheckpointOf(t.folds, epoch), flight, Log(t.ops, epoch), t.repo.lastSeq);
  }

  /** A turn's entities come from a fold of the log, so they are of its vocabulary. */
  lemma HeldTurn(t: Tables, less: KeyOrder, rid: string, batch: seq<Draft>, now: int)
    requires StrictOrder(less) && PartTrue(Vocabularies, t) && MayStage(t, less, rid, batch) && RestoresSound(t)
    ensures OneVocabulary(TurnRows(t, rid, batch, now), t.repo.vocabulary)
  {
    hide Landed, VocabularyOf, IsTurn, Log;
    var r := t.restores[rid];
    if t.repo.epoch == r.from {
      var backup := t.backups[r.source];
      FoldOfVocabulary(t.ops, t.repo.vocabulary, backup);
      forall j | 0 <= j < |batch| ensures t.repo.vocabulary == Some(VocabularyOf(batch[j].key)) {
        ChunkKey(t.ops, r, rid, backup, less, batch, j);
      }
      LandedVocabulary(IdsOf(t.ops, r.into), r.into, t.repo.lastSeq, batch, now, t.repo.vocabulary);
    }
  }

  lemma ChunkKey(ops: seq<Op>, r: Restore, rid: string, backup: Backup, less: KeyOrder, batch: seq<Draft>, j: nat)
    requires StrictOrder(less) && IsTurn(ops, r, rid, backup, less, batch) && j < |batch|
    ensures batch[j].key in Kept(ops, backup)
  {
    hide FoldAt, Log;
    var fold := Kept(ops, backup);
    var list := RestoreOrder(fold, less);
    var from: nat, end: nat, at :| from <= |Log(ops, r.into)| && IsChunk(batch, r.into, rid, fold, list, from, end, at);
    assert batch[(from + j) - from] == Material(r.into, rid, list[from + j], fold[list[from + j]].entity, at);
  }

  /** So a table of which nothing torn is written is true all through a trace. */
  lemma {:induction false} HeldTrace(part: Part, s: Service, steps: seq<Step>, less: KeyOrder)
    requires StrictOrder(less) && Sound(s) && PartTrue(part, s.tables) && Trace(s, steps, less)
    requires forall step | step in steps :: !WritesTorn(part, step)
    ensures EachKeeps(part, s, steps)
    decreases |steps|
  {
    hide Sound, PartTrue, Keeps, Enabled, Next, WritesTorn;
    if steps != [] {
      assert steps[0] in steps && forall step | step in steps[1..] :: step in steps;
      HeldKeeps(part, s, steps[0], less);
      StepPartIff(part, s, steps[0], less);
      StepSound(s, steps[0], less);
      HeldTrace(part, Next(s, steps[0]), steps[1..], less);
    }
  }

  lemma StartParts(part: Part)
    ensures PartTrue(part, START.tables)
  {
  }
}
