/**
 * The service as a state machine. Each step is one transaction, or a request reading what it will act
 * on in a later one, so requests interleave with everything, however stale what they read. A step is
 * taken whenever the code would take it; `Orderly` is when it keeps the tables true.
 */
module Service {
  import opened Types
  import opened FoldRule
  import opened Checkpoint
  import opened Listing
  import opened Pages
  import opened OpLog
  import opened Transactions
  import opened Invariant

  /** How far a request that is beginning a restore has read: the repository, the restores, the backup, the next epoch. */
  datatype Begin =
    | Opened(epoch: nat, guard: nat)
    | Alone(epoch: nat, guard: nat)
    | Sourced(ticket: Ticket)
    | Ready(ticket: Ticket)
    | Undone(ticket: Ticket, undo: string)

  /** Requests that read a seq of an epoch to fold onto, or to page a fold at. */
  type Marks = set<(nat, nat)>

  /**
   * Requests a clear came upon: they had read a mark, or folded onto one, that is gone. `bare` says that
   * one of them has landed, so that a checkpoint read since need not be true; `spoiled`, that a begin or
   * a delete found things other than as it had read them, or a capture or a turn wrote what was torn, so
   * that a restore need not be as its turns take it to be.
   */
  datatype Torn = Torn(seen: Marks, flights: Flights, bare: bool, spoiled: bool)

  /**
   * The tables, and what requests under way have read: marks, fold steps computed, begins, commits (the
   * repository, the restore's row, the count of what it staged, the intruder) and deletes. `used` holds every backup id
   * there has been; ids are never given out twice.
   */
  datatype Service = Service(
    tables: Tables,
    seen: Marks,
    flights: Flights,
    torn: Torn,
    begins: set<Begin>,
    commits: set<string>,
    found: set<string>,
    counted: set<string>,
    checks: set<string>,
    deletes: set<string>,
    used: set<string>)

  /** `torn` says whether a clear came between the mark a request read and what it does here, or what it read was spoiled. */
  datatype Step =
    | PushStep(epoch: nat, vocabulary: Vocabulary, batch: seq<Draft>, now: int)
    | ReadStep(epoch: nat, at: nat)
    | FoldStep(epoch: nat, flight: Flight, torn: bool)
    | LandStep(epoch: nat, flight: Flight, torn: bool)
    | ClearStep
    | CaptureStep(id: string, backup: Backup, torn: bool)
    | AskDeleteStep(id: string)
    | DeleteStep(id: string)
    | AskStep(was: Option<Begin>, next: Begin)
    | UndoStep(ticket: Ticket, id: string, backup: Backup, torn: bool)
    | BeginStep(rid: string, ticket: Ticket, undo: string)
    | StageStep(rid: string, batch: seq<Draft>, now: int, torn: bool)
    | OpenStep(rid: string)
    | FindStep(rid: string)
    | CountStep(rid: string)
    | CheckStep(rid: string)
    | FlipStep(rid: string)

  const START := Service(Tables(Repo(0, 0, None), [], map[], map[], map[]), {}, {}, Torn({}, {}, false, false), {}, {}, {}, {}, {}, {}, {})

  /** Every operation at or below `guard` is all there is: no intruder landed after a restore began. */
  ghost predicate NoIntruder(ops: seq<Op>, r: Restore) {
    AllAtMost(Log(ops, r.from), r.guard)
  }

  /** An epoch a request can be in: the live one, an older one, or one being filled. */
  ghost predicate Live(t: Tables, epoch: nat) {
    epoch <= t.repo.epoch || Filling(t.restores, epoch)
  }

  /** What a request beginning a restore reads next, each time as the tables are then. */
  ghost predicate Asks(t: Tables, was: Option<Begin>, next: Begin) {
    match next
    case Opened(epoch, guard) => was.None? && epoch == t.repo.epoch && guard == t.repo.lastSeq
    case Alone(epoch, guard) => was == Some(Opened(epoch, guard)) && forall rid | rid in t.restores :: t.restores[rid].committed
    case Sourced(ticket) =>
      && was == Some(Alone(ticket.epoch, ticket.guard))
      && ticket.source in t.backups && t.backups[ticket.source].entityCount == ticket.entityCount
    case Ready(ticket) => was == Some(Sourced(ticket)) && Log(t.ops, ticket.epoch + 1) == []
    case Undone(_, _) => false
  }

  /** A backup row as a capture writes it: the counts of a true mark, or of what a torn read made of one. */
  ghost predicate Captured(s: Service, backup: Backup, torn: bool) {
    if torn then s.torn.bare || exists read | read in s.torn.seen :: read.0 == backup.epoch
    else exists mark :: MarkOf(s.tables.ops, s.tables.repo.lastSeq, backup.epoch, mark) && Captures(backup, mark)
  }

  /** What the code may do next. What a torn read leads it to compute is left open, so it may be anything. */
  ghost predicate Enabled(s: Service, step: Step, less: KeyOrder)
    requires StrictOrder(less)
  {
    var t := s.tables;
    match step
    // The session may be stale in its epoch, and in having seen the vocabulary unset.
    case PushStep(epoch, vocabulary, batch, now) =>
      forall i | 0 <= i < |batch| :: VocabularyOf(batch[i].key) == vocabulary && batch[i].opId.Sent?
    case ReadStep(epoch, at) => Live(t, epoch) && Readable(CheckpointOf(t.folds, epoch), at)
    // A request folds onto any mark: one read long ago is still a mark.
    case FoldStep(epoch, flight, torn) =>
      if torn then s.torn.bare || (epoch, flight.from) in s.torn.seen
      else (epoch, flight.from) in s.seen && FlightTrue(flight, Log(t.ops, epoch), t.repo.lastSeq)
    case LandStep(epoch, flight, torn) => (epoch, flight) in if torn then s.torn.flights else s.flights
    case ClearStep => true
    case CaptureStep(id, backup, torn) => id !in s.used && Captured(s, backup, torn)
    case AskDeleteStep(id) => !InUse(t.restores, id)
    case DeleteStep(id) => id in s.deletes
    case AskStep(was, next) => (was.Some? ==> was.value in s.begins) && Asks(t, was, next)
    case UndoStep(ticket, id, backup, torn) =>
      && Ready(ticket) in s.begins && id !in s.used && Captured(s, backup, torn)
      && backup.epoch == ticket.epoch && backup.cutoff == ticket.guard
    case BeginStep(rid, ticket, undo) => Undone(ticket, undo) in s.begins && rid !in t.restores
    case StageStep(rid, batch, now, torn) =>
      && rid in t.restores
      && (if torn then
            s.torn.spoiled || s.torn.bare
            || (t.restores[rid].source in t.backups
                && (t.backups[t.restores[rid].source].epoch, t.backups[t.restores[rid].source].cutoff) in s.torn.seen)
          else MayStage(t, less, rid, batch))
    case OpenStep(rid) => rid in t.restores && t.repo.epoch == t.restores[rid].from
    case FindStep(rid) => rid in s.commits && IsStaging(t.restores, rid)
    case CountStep(rid) =>
      rid in s.found && rid in t.restores && StagedCount(t.ops, t.restores[rid]) == t.restores[rid].entityCount
    case CheckStep(rid) => rid in s.counted && rid in t.restores && NoIntruder(t.ops, t.restores[rid])
    case FlipStep(rid) => rid in s.checks && rid in t.restores
  }

  /**
   * When a step keeps the tables true. Only three kinds can fail to: what a torn read led to, a begin
   * since whose reads something happened that they ruled out, and a delete of a backup a restore has
   * begun to use.
   */
  ghost predicate Orderly(s: Service, step: Step, less: KeyOrder)
    requires StrictOrder(less)
  {
    var t := s.tables;
    match step
    case LandStep(epoch, flight, _) => LandsTrue(CheckpointOf(t.folds, epoch), flight, Log(t.ops, epoch), t.repo.lastSeq)
    case CaptureStep(_, backup, _) => BackupTrue(backup, Log(t.ops, backup.epoch), t.repo.lastSeq)
    case UndoStep(_, _, backup, _) => BackupTrue(backup, Log(t.ops, backup.epoch), t.repo.lastSeq)
    case StageStep(rid, batch, now, _) => TurnNext(t, less, rid, batch, now)
    case BeginStep(rid, ticket, undo) => BeginHeld(t, ticket, undo)
    case DeleteStep(id) => !InUse(t.restores, id)
    case _ => true
  }

  /** What a clear came upon. */
  predicate IsTorn(step: Step) {
    match step
    case FoldStep(_, _, torn) => torn
    case LandStep(_, _, torn) => torn
    case CaptureStep(_, _, torn) => torn
    case UndoStep(_, _, _, torn) => torn
    case StageStep(_, _, _, torn) => torn
    case _ => false
  }

  /** What requests in one epoch have. */
  function InEpoch<T(==)>(things: set<(nat, T)>, epoch: nat): set<(nat, T)> {
    set thing | thing in things && thing.0 == epoch
  }

  /** Requests in one epoch lose what they had read of its checkpoint. */
  function Tear(s: Service, epoch: nat): Service {
    var seen, flights := InEpoch(s.seen, epoch), InEpoch(s.flights, epoch);
    s.(seen := s.seen - seen, flights := s.flights - flights,
       torn := s.torn.(seen := s.torn.seen + seen, flights := s.torn.flights + flights))
  }

  /** Something is written that may not be true. */
  function Spoil(s: Service, torn: bool): Service {
    if torn then s.(torn := s.torn.(spoiled := true)) else s
  }

  predicate BeginHeld(t: Tables, ticket: Ticket, undo: string) {
    && (forall other | other in t.restores :: t.restores[other].committed)
    && t.repo.epoch == ticket.epoch && ticket.source in t.backups && undo in t.backups
  }

  function Next(s: Service, step: Step): Service {
    var t := s.tables;
    match step
    case PushStep(epoch, vocabulary, batch, now) => s.(tables := Push(t, epoch, vocabulary, batch, now))
    case ReadStep(epoch, at) => s.(seen := s.seen + {(epoch, at)})
    case FoldStep(epoch, flight, torn) =>
      if torn then s.(torn := s.torn.(flights := s.torn.flights + {(epoch, flight)}))
      else s.(flights := s.flights + {(epoch, flight)})
    case LandStep(epoch, flight, torn) =>
      var landed := s.(tables := WriteFold(t, epoch, flight));
      if torn then landed.(torn := s.torn.(flights := s.torn.flights - {(epoch, flight)}, bare := true))
      else landed.(flights := s.flights - {(epoch, flight)})
    case ClearStep =>
      s.(tables := t.(folds := map[]), seen := {}, flights := {},
         torn := s.torn.(seen := s.torn.seen + s.seen, flights := s.torn.flights + s.flights))
    case CaptureStep(id, backup, torn) => Spoil(s.(tables := InsertBackup(t, id, backup), used := s.used + {id}), torn)
    case AskDeleteStep(id) => s.(deletes := s.deletes + {id})
    case DeleteStep(id) => Spoil(s.(tables := DeleteBackup(t, id), deletes := s.deletes - {id}), InUse(t.restores, id))
    case AskStep(_, next) => s.(begins := s.begins + {next})
    case UndoStep(ticket, id, backup, torn) =>
      Spoil(s.(tables := InsertBackup(t, id, backup), used := s.used + {id}, begins := s.begins + {Undone(ticket, id)}), torn)
    // Begin's batch clears what the epoch it fills had of a checkpoint.
    case BeginStep(rid, ticket, undo) =>
      var begun := s.(tables := BeginRestore(t, rid, ticket, undo), begins := s.begins - {Undone(ticket, undo)});
      Spoil(Tear(begun, ticket.epoch + 1), !BeginHeld(t, ticket, undo))
    case StageStep(rid, batch, now, torn) =>
      Spoil(s.(tables := if rid in t.restores then StageRestore(t, rid, batch, now) else t), torn)
    case OpenStep(rid) => s.(commits := s.commits + {rid})
    case FindStep(rid) => s.(found := s.found + {rid})
    case CountStep(rid) => s.(counted := s.counted + {rid})
    case CheckStep(rid) => s.(checks := s.checks + {rid})
    case FlipStep(rid) => s.(tables := if rid in t.restores then Flip(t, rid) else t, checks := s.checks - {rid})
  }

  // ----- The invariant --------------------------------------------------------------------

  /** Marks read are still there. */
  ghost predicate ReadsTrue(seen: Marks, folds: map<nat, Checkpoint>) {
    forall read | read in seen :: Readable(CheckpointOf(folds, read.0), read.1)
  }

  /** A commit that has counted its restore found the whole backup staged. */
  ghost predicate ChecksTrue(checks: set<string>, t: Tables) {
    forall rid | rid in checks :: rid in t.restores
      && (IsStaging(t.restores, rid) ==> |Log(t.ops, t.restores[rid].into)| == t.restores[rid].entityCount)
  }

  /** What a beginning restore read of its backup is so, if the backup is still there. */
  ghost predicate TicketTrue(ticket: Ticket, backups: map<string, Backup>, used: set<string>) {
    && ticket.source in used
    && (ticket.source in backups ==> backups[ticket.source].entityCount == ticket.entityCount)
  }

  ghost predicate BeginTrue(begin: Begin, backups: map<string, Backup>, used: set<string>) {
    match begin
    case Sourced(ticket) => TicketTrue(ticket, backups, used)
    case Ready(ticket) => TicketTrue(ticket, backups, used)
    case Undone(ticket, undo) =>
      && TicketTrue(ticket, backups, used)
      && undo in used
      && (undo in backups ==> backups[undo].epoch == ticket.epoch && backups[undo].cutoff == ticket.guard)
    case _ => true
  }

  ghost predicate BeginsTrue(begins: set<Begin>, backups: map<string, Backup>, used: set<string>) {
    && backups.Keys <= used
    && forall begin | begin in begins :: BeginTrue(begin, backups, used)
  }

  /** What requests under way have read is still so, but for what a clear came upon. */
  ghost predicate UnderWay(s: Service) {
    var t := s.tables;
    && ReadsTrue(s.seen, t.folds)
    && FlightsTrue(s.flights, t.folds, t.ops, t.repo.lastSeq)
    && s.checks <= s.counted <= s.found && s.found <= t.restores.Keys && ChecksTrue(s.counted, t)
    && BeginsTrue(s.begins, t.backups, s.used)
  }

  ghost predicate Inv(s: Service, less: KeyOrder)
    requires StrictOrder(less)
  {
    TablesTrue(s.tables, less) && UnderWay(s)
  }

  lemma StartIsTrue(less: KeyOrder)
    requires StrictOrder(less)
    ensures Inv(START, less)
  {
  }

  // ----- Exactly the orderly steps keep the tables true -----------------------------------

  /** A step the code takes keeps the tables true if and only if it is orderly. */
  lemma StepTrueIff(s: Service, step: Step, less: KeyOrder)
    requires StrictOrder(less) && Inv(s, less) && Enabled(s, step, less)
    ensures TablesTrue(Next(s, step).tables, less) <==> Orderly(s, step, less)
  {
    hide TablesTrue, FlightsTrue, ReadsTrue, ChecksTrue, LandsTrue, BackupTrue, TurnNext, MayStage,
      StageRestore,
      Push, Flip, WriteFold, FlightTrue, StagedCount, NoIntruder, Readable, Log, InUse, Captures, MarkOf;
    var t := s.tables;
    match step
    case PushStep(epoch, vocabulary, batch, now) => PushKeeps(t, less, epoch, vocabulary, batch, now);
    case LandStep(epoch, flight, _) => WriteFoldKeepsIff(t, less, epoch, flight);
    case ClearStep => ClearTables(t, less, Next(s, step).tables);
    case CaptureStep(id, backup, _) => CaptureKeepsIff(t, less, id, backup);
    case DeleteStep(id) => DeleteKeepsIff(t, less, id);
    case UndoStep(ticket, id, backup, _) => CaptureKeepsIff(t, less, id, backup);
    case BeginStep(rid, ticket, undo) => BeginOrderly(s, less, rid, ticket, undo);
    case StageStep(rid, batch, now, _) => StageKeepsIff(t, less, rid, batch, now);
    case FlipStep(rid) => FlipKeeps(t, less, rid);
    case _ =>
  }

  lemma BeginOrderly(s: Service, less: KeyOrder, rid: string, ticket: Ticket, undo: string)
    requires StrictOrder(less) && Inv(s, less) && Enabled(s, BeginStep(rid, ticket, undo), less)
    ensures TablesTrue(BeginRestore(s.tables, rid, ticket, undo), less) <==> Orderly(s, BeginStep(rid, ticket, undo), less)
    ensures Orderly(s, BeginStep(rid, ticket, undo), less) <==> Undisturbed(s.tables, ticket) && IsUndo(s.tables, ticket, undo)
  {
    hide TablesTrue, FlightsTrue, ReadsTrue, ChecksTrue;
    assert BeginTrue(Undone(ticket, undo), s.tables.backups, s.used);
    BeginKeepsIff(s.tables, less, rid, ticket, undo);
  }

  lemma ClearTables(t: Tables, less: KeyOrder, after: Tables)
    requires StrictOrder(less) && TablesTrue(t, less) && after == t.(folds := map[])
    ensures TablesTrue(after, less)
  {
    hide CheckpointTrue, BackupTrue, FlightTrue, FoldAt, Staged;
  }

  /** What no clear tore is orderly by itself: reads that held lead to writes that are true. */
  lemma HeldIsOrderly(s: Service, step: Step, less: KeyOrder)
    requires StrictOrder(less) && Inv(s, less) && Enabled(s, step, less)
    requires !IsTorn(step) && !step.BeginStep? && !step.DeleteStep?
    ensures Orderly(s, step, less)
  {
    hide TablesTrue, FlightsTrue, ReadsTrue, ChecksTrue, LandsTrue, BackupTrue, TurnNext, MayStage,
      StageRestore,
      Push, Flip, WriteFold, FlightTrue, StagedCount, NoIntruder, Readable, Log, InUse, Captures, MarkOf;
    var t := s.tables;
    match step
    case LandStep(epoch, flight, _) => FlightLands(s.flights, t, less, epoch, flight);
    case CaptureStep(_, backup, _) =>
      var mark :| MarkOf(t.ops, t.repo.lastSeq, backup.epoch, mark) && Captures(backup, mark);
      CaptureIsTrue(t.ops, t.repo.lastSeq, backup, mark);
    case UndoStep(_, _, backup, _) =>
      var mark :| MarkOf(t.ops, t.repo.lastSeq, backup.epoch, mark) && Captures(backup, mark);
      CaptureIsTrue(t.ops, t.repo.lastSeq, backup, mark);
    case StageStep(rid, batch, now, _) =>
      StageKnows(t, less);
      MayStageNext(t, less, rid, batch, now);
    case _ =>
  }

  lemma FlightLands(flights: Flights, t: Tables, less: KeyOrder, epoch: nat, flight: Flight)
    requires StrictOrder(less) && TablesTrue(t, less) && FlightsTrue(flights, t.folds, t.ops, t.repo.lastSeq)
    requires (epoch, flight) in flights
    ensures LandsTrue(CheckpointOf(t.folds, epoch), flight, Log(t.ops, epoch), t.repo.lastSeq)
  {
    hide CheckpointTrue, BackupTrue, FlightTrue, FoldAt, Staged, LandsTrue, Covers;
    InFlight(flights, t.folds, t.ops, t.repo.lastSeq, epoch, flight);
    EpochLog(t.repo, t.ops, epoch);
    EpochFold(t.folds, t.ops, t.repo.lastSeq, epoch);
    MarkCovers(CheckpointOf(t.folds, epoch), Log(t.ops, epoch), t.repo.lastSeq, flight.from);
    LandsWhenHeld(CheckpointOf(t.folds, epoch), flight, Log(t.ops, epoch), t.repo.lastSeq);
  }

  lemma InFlight(flights: Flights, folds: map<nat, Checkpoint>, ops: seq<Op>, head: nat, epoch: nat, flight: Flight)
    requires FlightsTrue(flights, folds, ops, head) && (epoch, flight) in flights
    ensures FlightTrue(flight, Log(ops, epoch), head) && Readable(CheckpointOf(folds, epoch), flight.from)
  {
    var f := (epoch, flight);
    assert FlightTrue(f.1, Log(ops, f.0), head);
  }

  // ----- Every orderly step keeps what requests under way have read -----------------------

  /** Checkpoints that keep the marks requests have read keep every request under way. */
  lemma UnderWayFrame(s: Service, after: Service)
    requires UnderWay(s) && after.seen <= s.seen && after.flights <= s.flights
    requires forall read | read in after.seen :: MarksKept(s.tables.folds, after.tables.folds, read.0)
    requires forall f | f in after.flights :: MarksKept(s.tables.folds, after.tables.folds, f.0)
    requires FlightsTrue(s.flights, s.tables.folds, after.tables.ops, after.tables.repo.lastSeq)
    requires after.checks <= after.counted <= after.found && after.found <= after.tables.restores.Keys
    requires ChecksTrue(after.counted, after.tables) && BeginsTrue(after.begins, after.tables.backups, after.used)
    ensures UnderWay(after)
  {
    hide FlightTrue, ChecksTrue, BeginsTrue;
  }

  predicate MarksKept(folds: map<nat, Checkpoint>, after: map<nat, Checkpoint>, epoch: nat) {
    CheckpointOf(folds, epoch).marks.Keys <= CheckpointOf(after, epoch).marks.Keys
  }

  lemma PushStepKeeps(s: Service, less: KeyOrder, epoch: nat, vocabulary: Vocabulary, batch: seq<Draft>, now: int)
    requires StrictOrder(less) && Inv(s, less) && Enabled(s, PushStep(epoch, vocabulary, batch, now), less)
    ensures UnderWay(Next(s, PushStep(epoch, vocabulary, batch, now)))
  {
    hide CheckpointTrue, BackupTrue, FlightTrue, FoldAt, Staged, LogTrue, RestoreTrue, Landed, ReadsTrue,
      BeginsTrue,
      FlightsTrue, ChecksTrue;
    var t := s.tables;
    var after := Next(s, PushStep(epoch, vocabulary, batch, now));
    if Admits(t.repo, epoch, vocabulary) {
      var more := Landed(IdsOf(t.ops, epoch), epoch, t.repo.lastSeq, batch, now);
      LandedSlots(IdsOf(t.ops, epoch), epoch, t.repo.lastSeq, batch, now);
      FlightsAppend(s.flights, t.folds, t.ops, more, epoch, t.repo.lastSeq, t.repo.lastSeq + |batch|);
      PushKeepsChecks(s.counted, t, less, more, epoch, after.tables);
      UnderWayFrame(s, after);
    }
  }

  lemma PushKeepsChecks(checks: set<string>, t: Tables, less: KeyOrder, more: seq<Op>, epoch: nat, after: Tables)
    requires StrictOrder(less) && ChecksTrue(checks, t) && RestoresTrue(t.restores, t.repo, t.ops, t.backups, less)
    requires epoch == t.repo.epoch && LandsAbove(more, epoch, t.repo.lastSeq, after.repo.lastSeq)
    requires after.restores == t.restores && after.ops == t.ops + more
    ensures ChecksTrue(checks, after)
  {
    forall rid | rid in checks && IsStaging(t.restores, rid)
      ensures Log(after.ops, t.restores[rid].into) == Log(t.ops, t.restores[rid].into)
    {
      FillsNext(t.restores, t.repo, t.ops, t.backups, less, rid);
      OthersUnchanged(t.ops, more, epoch, t.repo.lastSeq, after.repo.lastSeq, t.restores[rid].into);
    }
  }

  lemma LandStepKeeps(s: Service, less: KeyOrder, epoch: nat, flight: Flight, torn: bool)
    requires StrictOrder(less) && Inv(s, less)
    ensures UnderWay(Next(s, LandStep(epoch, flight, torn)))
  {
    hide TablesTrue, FlightsTrue, ReadsTrue, ChecksTrue, BeginsTrue;
    ChecksFrame(s.counted, s.tables, Next(s, LandStep(epoch, flight, torn)).tables);
    UnderWayFrame(s, Next(s, LandStep(epoch, flight, torn)));
  }

  lemma ChecksFrame(checks: set<string>, t: Tables, after: Tables)
    requires ChecksTrue(checks, t) && after.ops == t.ops && after.restores == t.restores
    ensures ChecksTrue(checks, after)
  {
  }

  lemma ClearStepKeeps(s: Service, less: KeyOrder)
    requires StrictOrder(less) && Inv(s, less)
    ensures UnderWay(Next(s, ClearStep))
  {
    hide TablesTrue, ChecksTrue, BeginsTrue;
    ChecksFrame(s.counted, s.tables, Next(s, ClearStep).tables);
  }

  /** A request that reads, asks or computes changes no table. */
  lemma ReadingKeeps(s: Service, step: Step, less: KeyOrder)
    requires StrictOrder(less) && Inv(s, less) && Enabled(s, step, less)
    requires step.ReadStep? || step.FoldStep? || step.AskDeleteStep? || step.AskStep? || step.OpenStep? || step.FindStep?
    ensures UnderWay(Next(s, step))
  {
    hide TablesTrue, FlightTrue, ChecksTrue, Readable, Log;
    match step
    case FoldStep(epoch, flight, torn) =>
      if !torn {
        assert ReadsTrue({(epoch, flight.from)}, s.tables.folds);
        FlightAdded(s.flights, s.tables, epoch, flight);
      }
    case AskStep(was, next) =>
      if was.Some? {
        assert BeginTrue(was.value, s.tables.backups, s.used);
      }
    case _ =>
  }

  lemma FlightAdded(flights: Flights, t: Tables, epoch: nat, flight: Flight)
    requires FlightsTrue(flights, t.folds, t.ops, t.repo.lastSeq)
    requires ReadsTrue({(epoch, flight.from)}, t.folds) && FlightTrue(flight, Log(t.ops, epoch), t.repo.lastSeq)
    ensures FlightsTrue(flights + {(epoch, flight)}, t.folds, t.ops, t.repo.lastSeq)
  {
    hide FlightTrue, Readable;
    var read := (epoch, flight.from);
    assert read in {(epoch, flight.from)} && Readable(CheckpointOf(t.folds, read.0), read.1);
  }

  /** A backup row written under an id never used, or deleted, is not one a beginning restore has read otherwise. */
  lemma BackupStepKeeps(s: Service, step: Step, less: KeyOrder)
    requires StrictOrder(less) && Inv(s, less) && Enabled(s, step, less)
    requires step.CaptureStep? || step.UndoStep? || step.DeleteStep?
    ensures UnderWay(Next(s, step))
  {
    hide TablesTrue, FlightsTrue, ReadsTrue, ChecksTrue, Captured;
    if step.UndoStep? {
      assert BeginTrue(Ready(step.ticket), s.tables.backups, s.used);
    }
    ChecksFrame(s.counted, s.tables, Next(s, step).tables);
    UnderWayFrame(s, Next(s, step));
  }

  lemma BeginStepKeeps(s: Service, less: KeyOrder, rid: string, ticket: Ticket, undo: string)
    requires StrictOrder(less) && Inv(s, less) && Enabled(s, BeginStep(rid, ticket, undo), less)
    requires Orderly(s, BeginStep(rid, ticket, undo), less)
    ensures UnderWay(Next(s, BeginStep(rid, ticket, undo)))
  {
    hide TablesTrue, FlightsTrue, ReadsTrue, ChecksTrue;
    var after := Next(s, BeginStep(rid, ticket, undo));
    ChecksFrameOf(s.counted, s.tables, after.tables, rid);
    UnderWayFrame(s, after);
  }

  /** A restore no commit has checked is no matter to one that has. */
  lemma ChecksFrameOf(checks: set<string>, t: Tables, after: Tables, rid: string)
    requires ChecksTrue(checks, t) && after.ops == t.ops && rid !in t.restores && rid in after.restores
    requires after.restores == t.restores[rid := after.restores[rid]]
    ensures ChecksTrue(checks, after)
  {
  }

  lemma StageStepKeeps(s: Service, less: KeyOrder, rid: string, batch: seq<Draft>, now: int, torn: bool)
    requires StrictOrder(less) && Inv(s, less) && rid in s.tables.restores
    requires TablesTrue(StageRestore(s.tables, rid, batch, now), less)
    ensures UnderWay(Next(s, StageStep(rid, batch, now, torn)))
  {
    hide TablesTrue, FlightsTrue, ReadsTrue, ChecksTrue, BeginsTrue, StageRestore;
    var t := s.tables;
    StageKeepsFlights(s.flights, t, rid, batch, now);
    StageElsewhere(t, rid, batch, now);
    if t.restores[rid].committed {
      PastIsPast(t, less, rid);
      LateChecks(s.counted, t, rid, batch, now);
    } else {
      StageKeepsChecks(s.counted, t, less, rid, batch, now);
    }
    UnderWayFrame(s, Next(s, StageStep(rid, batch, now, torn)));
  }

  lemma StageKeepsFlights(flights: Flights, t: Tables, rid: string, batch: seq<Draft>, now: int)
    requires rid in t.restores && FlightsTrue(flights, t.folds, t.ops, t.repo.lastSeq)
    ensures var after := StageRestore(t, rid, batch, now);
            FlightsTrue(flights, t.folds, after.ops, after.repo.lastSeq)
  {
    hide FlightTrue, Landed;
    var r, after := t.restores[rid], StageRestore(t, rid, batch, now);
    if t.repo.epoch == r.from {
      TurnWrites(t, rid, batch, now, after);
      LandedSlots(IdsOf(t.ops, r.into), r.into, t.repo.lastSeq, batch, now);
      FlightsAppend(flights, t.folds, t.ops, Landed(IdsOf(t.ops, r.into), r.into, t.repo.lastSeq, batch, now), r.into,
                    t.repo.lastSeq, after.repo.lastSeq);
    }
  }

  lemma StageElsewhere(t: Tables, rid: string, batch: seq<Draft>, now: int)
    requires rid in t.restores
    ensures var after := StageRestore(t, rid, batch, now);
            && after.folds == t.folds && after.backups == t.backups && after.repo.epoch == t.repo.epoch
            && after.repo.vocabulary == t.repo.vocabulary && after.restores.Keys == t.restores.Keys
  {
  }

  /** A restore wholly staged stays so: a later turn finds every row there. */
  lemma StageKeepsChecks(checks: set<string>, t: Tables, less: KeyOrder, rid: string, batch: seq<Draft>, now: int)
    requires StrictOrder(less) && TablesTrue(t, less) && IsStaging(t.restores, rid) && ChecksTrue(checks, t)
    requires TablesTrue(StageRestore(t, rid, batch, now), less)
    ensures ChecksTrue(checks, StageRestore(t, rid, batch, now))
  {
    StagedWithin(t, less, rid);
    StagedWithin(StageRestore(t, rid, batch, now), less, rid);
    OnlyMore(t, less, rid, batch, now);
    WhollyStaged(checks, t, rid, batch, now);
  }

  lemma PastIsPast(t: Tables, less: KeyOrder, rid: string)
    requires StrictOrder(less) && TablesTrue(t, less) && rid in t.restores && t.restores[rid].committed
    ensures t.restores[rid].from < t.repo.epoch
  {
    hide CheckpointTrue, BackupTrue, FlightTrue, FoldAt, Staged;
    assert RestoreTrue(t.restores[rid], rid, t.repo, t.ops, t.backups, less);
  }

  lemma LateChecks(checks: set<string>, t: Tables, rid: string, batch: seq<Draft>, now: int)
    requires ChecksTrue(checks, t) && rid in t.restores && t.restores[rid].committed
    requires t.repo.epoch != t.restores[rid].from
    ensures ChecksTrue(checks, StageRestore(t, rid, batch, now))
  {
  }

  lemma WhollyStaged(checks: set<string>, t: Tables, rid: string, batch: seq<Draft>, now: int)
    requires OneStaging(t.restores) && IsStaging(t.restores, rid) && ChecksTrue(checks, t)
    requires |Log(t.ops, t.restores[rid].into)| <= |Log(StageRestore(t, rid, batch, now).ops, t.restores[rid].into)| <= t.restores[rid].entityCount
    ensures ChecksTrue(checks, StageRestore(t, rid, batch, now))
  {
    var after := StageRestore(t, rid, batch, now);
    forall other | other in checks && IsStaging(after.restores, other)
      ensures |Log(after.ops, after.restores[other].into)| == after.restores[other].entityCount
    {
      if other != rid {
        OthersCommitted(t.restores, rid, other);
      }
    }
  }

  /** No more rows are staged than the backup has entities. */
  lemma StagedWithin(t: Tables, less: KeyOrder, rid: string)
    requires StrictOrder(less) && TablesTrue(t, less) && IsStaging(t.restores, rid)
    ensures |Log(t.ops, t.restores[rid].into)| <= t.restores[rid].entityCount
  {
    var r := t.restores[rid];
    assert RestoreTrue(r, rid, t.repo, t.ops, t.backups, less);
    assert BackupTrue(t.backups[r.source], Log(t.ops, t.backups[r.source].epoch), t.repo.lastSeq);
  }

  lemma OnlyMore(t: Tables, less: KeyOrder, rid: string, batch: seq<Draft>, now: int)
    requires rid in t.restores
    ensures |Log(t.ops, t.restores[rid].into)| <= |Log(StageRestore(t, rid, batch, now).ops, t.restores[rid].into)|
  {
    var r := t.restores[rid];
    LogAppend(t.ops, Landed(IdsOf(t.ops, r.into), r.into, t.repo.lastSeq, batch, now), r.into);
  }

  lemma CountStepKeeps(s: Service, less: KeyOrder, rid: string)
    requires StrictOrder(less) && Inv(s, less) && Enabled(s, CountStep(rid), less)
    ensures UnderWay(Next(s, CountStep(rid)))
  {
    hide CheckpointTrue, BackupTrue, FlightTrue, FoldAt, Staged, ReadsTrue, FlightsTrue, BeginsTrue, FoldsTrue,
      BackupsTrue;
    var t := s.tables;
    assert RestoreTrue(t.restores[rid], rid, t.repo, t.ops, t.backups, less);
    EpochLog(t.repo, t.ops, t.restores[rid].into);
    CountIsTrue(t.ops, t.restores[rid], t.repo.lastSeq);
  }

  lemma CheckStepKeeps(s: Service, rid: string)
    requires UnderWay(s) && rid in s.counted
    ensures UnderWay(Next(s, CheckStep(rid)))
  {
    hide FlightsTrue, ReadsTrue, ChecksTrue, BeginsTrue;
  }

  lemma FlipStepKeeps(s: Service, rid: string)
    requires UnderWay(s) && rid in s.tables.restores
    ensures UnderWay(Next(s, FlipStep(rid)))
  {
    hide FlightsTrue, ReadsTrue, BeginsTrue, ChecksTrue;
    FlipChecks(s.counted, s.tables, rid);
    UnderWayFrame(s, Next(s, FlipStep(rid)));
  }

  lemma FlipChecks(checks: set<string>, t: Tables, rid: string)
    requires ChecksTrue(checks, t) && rid in t.restores
    ensures ChecksTrue(checks, Flip(t, rid))
  {
  }

  /** An orderly step keeps what requests under way have read. */
  lemma UnderWayKeeps(s: Service, step: Step, less: KeyOrder)
    requires StrictOrder(less) && Inv(s, less) && Enabled(s, step, less) && Orderly(s, step, less)
    requires TablesTrue(Next(s, step).tables, less)
    ensures UnderWay(Next(s, step))
  {
    hide TablesTrue, UnderWay, Orderly, MayStage, Captured, FlightTrue, StageRestore, WriteFold, Push, Flip;
    match step
    case PushStep(epoch, vocabulary, batch, now) => PushStepKeeps(s, less, epoch, vocabulary, batch, now);
    case ReadStep(_, _) => ReadingKeeps(s, step, less);
    case FoldStep(_, _, _) => ReadingKeeps(s, step, less);
    case LandStep(epoch, flight, torn) => LandStepKeeps(s, less, epoch, flight, torn);
    case ClearStep => ClearStepKeeps(s, less);
    case CaptureStep(_, _, _) => BackupStepKeeps(s, step, less);
    case AskDeleteStep(_) => ReadingKeeps(s, step, less);
    case DeleteStep(_) => BackupStepKeeps(s, step, less);
    case AskStep(_, _) => ReadingKeeps(s, step, less);
    case UndoStep(_, _, _, _) => BackupStepKeeps(s, step, less);
    case BeginStep(rid, ticket, undo) => BeginStepKeeps(s, less, rid, ticket, undo);
    case StageStep(rid, batch, now, torn) => StageStepKeeps(s, less, rid, batch, now, torn);
    case OpenStep(_) => ReadingKeeps(s, step, less);
    case FindStep(_) => ReadingKeeps(s, step, less);
    case CountStep(rid) => CountStepKeeps(s, less, rid);
    case CheckStep(rid) => CheckStepKeeps(s, rid);
    case FlipStep(rid) => FlipStepKeeps(s, rid);
  }

  /** A step the code takes keeps the invariant if and only if it is orderly. */
  lemma StepKeepsIff(s: Service, step: Step, less: KeyOrder)
    requires StrictOrder(less) && Inv(s, less) && Enabled(s, step, less)
    ensures TablesTrue(Next(s, step).tables, less) <==> Orderly(s, step, less)
    ensures Inv(Next(s, step), less) <==> Orderly(s, step, less)
  {
    hide TablesTrue, UnderWay, Orderly, Enabled, Next;
    StepTrueIff(s, step, less);
    if Orderly(s, step, less) {
      UnderWayKeeps(s, step, less);
    }
  }

  // ----- Runs -----------------------------------------------------------------------------

  /** Steps the code takes one after another, whatever becomes of the tables. */
  ghost predicate Trace(s: Service, steps: seq<Step>, less: KeyOrder)
    requires StrictOrder(less)
    decreases |steps|
  {
    steps == [] || (Enabled(s, steps[0], less) && Trace(Next(s, steps[0]), steps[1..], less))
  }

  /** A trace every step of which is orderly. */
  ghost predicate Run(s: Service, steps: seq<Step>, less: KeyOrder)
    requires StrictOrder(less)
    decreases |steps|
  {
    steps == []
    || (Enabled(s, steps[0], less) && Orderly(s, steps[0], less) && Run(Next(s, steps[0]), steps[1..], less))
  }

  function Final(s: Service, steps: seq<Step>): Service
    decreases |steps|
  {
    if steps == [] then s else Final(Next(s, steps[0]), steps[1..])
  }

  /** The tables are true at the start of a trace, at its end, and everywhere between. */
  ghost predicate Throughout(s: Service, steps: seq<Step>, less: KeyOrder)
    requires StrictOrder(less)
    decreases |steps|
  {
    TablesTrue(s.tables, less) && (steps == [] || Throughout(Next(s, steps[0]), steps[1..], less))
  }

  /** The tables stay true all through a trace if and only if every step of it is orderly. */
  lemma {:induction false} RunKeepsIff(s: Service, steps: seq<Step>, less: KeyOrder)
    requires StrictOrder(less) && Inv(s, less) && Trace(s, steps, less)
    ensures Run(s, steps, less) <==> Throughout(s, steps, less)
    ensures Run(s, steps, less) ==> Inv(Final(s, steps), less)
    decreases |steps|
  {
    hide TablesTrue, UnderWay, Orderly, Enabled, Next;
    if steps != [] {
      StepKeepsIff(s, steps[0], less);
      if Orderly(s, steps[0], less) {
        RunKeepsIff(Next(s, steps[0]), steps[1..], less);
      } else {
        assert !Throughout(Next(s, steps[0]), steps[1..], less);
      }
    }
  }

  lemma {:induction false} RunIsTrace(s: Service, steps: seq<Step>, less: KeyOrder)
    requires StrictOrder(less) && Run(s, steps, less)
    ensures Trace(s, steps, less)
    decreases |steps|
  {
    hide Orderly, Enabled, Next;
    if steps != [] {
      RunIsTrace(Next(s, steps[0]), steps[1..], less);
    }
  }

  lemma RunKeeps(s: Service, steps: seq<Step>, less: KeyOrder)
    requires StrictOrder(less) && Inv(s, less) && Run(s, steps, less)
    ensures Inv(Final(s, steps), less)
  {
    hide Inv, Run, Trace, Final;
    RunIsTrace(s, steps, less);
    RunKeepsIff(s, steps, less);
  }

  /** Along a trace no request goes on that a clear came upon, no begin is disturbed, and no backup in use is deleted. */
  ghost predicate Calm(s: Service, steps: seq<Step>, less: KeyOrder)
    requires StrictOrder(less)
    decreases |steps|
  {
    steps == []
    || (&& !IsTorn(steps[0]) && (steps[0].BeginStep? || steps[0].DeleteStep? ==> Orderly(s, steps[0], less))
        && Calm(Next(s, steps[0]), steps[1..], less))
  }

  /** So such a trace keeps the tables true, whatever else interleaves and however stale its requests are. */
  lemma {:induction false} CalmIsRun(s: Service, steps: seq<Step>, less: KeyOrder)
    requires StrictOrder(less) && Inv(s, less) && Trace(s, steps, less) && Calm(s, steps, less)
    ensures Run(s, steps, less) && Throughout(s, steps, less)
    decreases |steps|
  {
    hide TablesTrue, UnderWay, Orderly, Enabled, Next;
    if steps != [] {
      if !steps[0].BeginStep? && !steps[0].DeleteStep? {
        HeldIsOrderly(s, steps[0], less);
      }
      StepKeepsIff(s, steps[0], less);
      CalmIsRun(Next(s, steps[0]), steps[1..], less);
    }
  }

  /** What has spoiled nothing is orderly. */
  lemma UnspoiledStep(s: Service, step: Step, less: KeyOrder)
    requires StrictOrder(less) && Inv(s, less) && Enabled(s, step, less)
    requires !Next(s, step).torn.spoiled && !Next(s, step).torn.bare
    ensures Orderly(s, step, less)
  {
    hide TablesTrue, UnderWay, Enabled, LandsTrue, BackupTrue, TurnNext, Push, StageRestore, Flip, WriteFold, Log,
      InEpoch;
    if !IsTorn(step) && !step.BeginStep? && !step.DeleteStep? {
      HeldIsOrderly(s, step, less);
    }
  }

  lemma SpoiledStays(s: Service, step: Step)
    ensures s.torn.spoiled ==> Next(s, step).torn.spoiled
    ensures s.torn.bare ==> Next(s, step).torn.bare
  {
    hide Push, StageRestore, Flip, WriteFold, InEpoch, InUse, BeginHeld;
  }

  lemma {:induction false} SpoiledEver(s: Service, steps: seq<Step>)
    ensures s.torn.spoiled ==> Final(s, steps).torn.spoiled
    ensures s.torn.bare ==> Final(s, steps).torn.bare
    decreases |steps|
  {
    hide Next;
    if steps != [] {
      SpoiledStays(s, steps[0]);
      SpoiledEver(Next(s, steps[0]), steps[1..]);
    }
  }

  /**
   * So a trace that has spoiled nothing, a begin, a delete or a write each having found things as it had
   * read them, was orderly all along, and every table is true at its end.
   */
  lemma {:induction false} UnspoiledIsRun(s: Service, steps: seq<Step>, less: KeyOrder)
    requires StrictOrder(less) && Inv(s, less) && Trace(s, steps, less)
    requires !Final(s, steps).torn.spoiled && !Final(s, steps).torn.bare
    ensures Run(s, steps, less) && Inv(Final(s, steps), less)
    decreases |steps|
  {
    hide Inv, Orderly, Enabled, Next;
    if steps != [] {
      SpoiledEver(Next(s, steps[0]), steps[1..]);
      UnspoiledStep(s, steps[0], less);
      StepKeepsIff(s, steps[0], less);
      UnspoiledIsRun(Next(s, steps[0]), steps[1..], less);
    }
  }

  /** A run leads from one state to another. */
  ghost predicate ReachedFrom(s: Service, after: Service, less: KeyOrder)
    requires StrictOrder(less)
  {
    exists steps :: Run(s, steps, less) && Final(s, steps) == after
  }

  /** A state some run of the empty service leads to. */
  ghost predicate Reachable(s: Service, less: KeyOrder)
    requires StrictOrder(less)
  {
    ReachedFrom(START, s, less)
  }

  /** Every reachable state satisfies the invariant. */
  lemma ReachableInv(s: Service, less: KeyOrder)
    requires StrictOrder(less) && Reachable(s, less)
    ensures Inv(s, less)
  {
    hide Run, Final, TablesTrue, FlightsTrue;
    var steps :| Run(START, steps, less) && Final(START, steps) == s;
    StartIsTrue(less);
    RunKeeps(START, steps, less);
  }

  lemma {:induction false} RunJoin(s: Service, first: seq<Step>, rest: seq<Step>, less: KeyOrder)
    requires StrictOrder(less) && Run(s, first, less) && Run(Final(s, first), rest, less)
    ensures Run(s, first + rest, less) && Final(s, first + rest) == Final(Final(s, first), rest)
    decreases |first|
  {
    hide Orderly, Enabled, Next;
    if first == [] {
      assert first + rest == rest;
    } else {
      RunJoin(Next(s, first[0]), first[1..], rest, less);
      assert (first + rest)[1..] == first[1..] + rest;
    }
  }

  /** One more orderly step from a reachable state. */
  lemma ReachStep(s: Service, step: Step, next: Service, less: KeyOrder)
    requires StrictOrder(less) && Reachable(s, less) && Enabled(s, step, less) && Orderly(s, step, less)
    requires next == Next(s, step)
    ensures Reachable(next, less)
  {
    hide Orderly, Enabled, Next;
    var steps :| Run(START, steps, less) && Final(START, steps) == s;
    assert [step][1..] == [];
    RunJoin(START, steps, [step], less);
  }
}
