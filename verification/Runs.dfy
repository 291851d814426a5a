/**
 * What holds over whole traces of the service: the log, the checkpoint, pulls, snapshots, joins and re-sent
 * pushes, whatever becomes of the restores and backups beside them.
 */
module Runs {
  import opened Types
  import opened Placement
  import opened FoldRule
  import opened FoldMeaning
  import opened FoldRun
  import opened Checkpoint
  import opened FoldStore
  import opened Listing
  import opened Pages
  import opened OpLog
  import opened Transactions
  import opened Invariant
  import opened Service
  import opened Traces

  // ----- The log --------------------------------------------------------------------------

  /** In every trace seqs are unique, increasing and below the head, and an id is stored once in an epoch. */
  lemma LogInEveryTrace(s: Service, less: KeyOrder)
    requires StrictOrder(less) && Traced(s, less)
    ensures var t := s.tables;
            Increasing(t.ops) && AllAbove(t.ops, 0) && AllAtMost(t.ops, t.repo.lastSeq) && IdsOnce(t.ops)
  {
    hide Traced, RestoresSound, UndosSound, GuardsSound, BeginsTrue, HeldSound, IdsOnce;
    TracedSound(s, less);
  }

  /** Along every trace rows are only added above the head, and nothing is taken back. */
  lemma TraceOnward(s: Service, steps: seq<Step>, less: KeyOrder)
    requires StrictOrder(less) && Traced(s, less) && Trace(s, steps, less)
    ensures Onward(s.tables, Final(s, steps).tables)
  {
    hide Traced, Sound, Trace, Final, Onward;
    TracedSound(s, less);
    TraceSound(s, steps, less);
  }

  // ----- The checkpoint -------------------------------------------------------------------

  /** The checkpoint of an epoch refines the plain fold of its log. */
  ghost predicate Refines(t: Tables, epoch: nat) {
    var cp, log := CheckpointOf(t.folds, epoch), Log(t.ops, epoch);
    && VersionsTrue(cp.versions, log, t.repo.lastSeq)
    && (forall at | Readable(cp, at) :: View(cp, at) == FoldAt(log, at))
  }

  /**
   * The checkpoint refines the plain fold: after every trace of the empty service whose steps each wrote
   * what was true when it landed, whatever else it did, in every epoch a version row is the entity as the
   * fold of the log up to its own seq holds it, and at every mark each entity's newest version at or below
   * it is the full fold's. And the checkpoints are true all through a trace only if each step did.
   */
  lemma CheckpointRefinesFold(steps: seq<Step>, epoch: nat, less: KeyOrder)
    requires StrictOrder(less) && Trace(START, steps, less)
    ensures EachKeeps(Folds, START, steps) <==> TrueThroughout(Folds, START, steps)
    ensures EachKeeps(Folds, START, steps) ==> Refines(Final(START, steps).tables, epoch)
  {
    hide Trace, Final, Sound, PartTrue, EachKeeps, TrueThroughout, Refines;
    StartSound();
    StartParts(Folds);
    TracePartIff(Folds, START, steps, less);
    TraceSound(START, steps, less);
    if EachKeeps(Folds, START, steps) {
      FoldsRefine(Final(START, steps), epoch);
    }
  }

  lemma FoldsRefine(s: Service, epoch: nat)
    requires Sound(s) && PartTrue(Folds, s.tables)
    ensures Refines(s.tables, epoch) && SeenTrue(SeenOf(s.tables, epoch))
  {
    hide OpsSound, RestoresSound, UndosSound, GuardsSound, BeginsTrue, HeldSound, View, FoldAt, VersionsTrue,
      MarksTrue, IsLog, Readable;
    var t := s.tables;
    SoundLog(s, epoch);
    EpochFold(t.folds, t.ops, t.repo.lastSeq, epoch);
    forall at | Readable(CheckpointOf(t.folds, epoch), at)
      ensures View(CheckpointOf(t.folds, epoch), at) == FoldAt(Log(t.ops, epoch), at)
    {
      ViewIsFold(CheckpointOf(t.folds, epoch), Log(t.ops, epoch), t.repo.lastSeq, at);
    }
  }

  /** So it does after every trace in which no torn step landed. */
  lemma CheckpointHeld(steps: seq<Step>, epoch: nat, less: KeyOrder)
    requires StrictOrder(less) && Trace(START, steps, less) && forall step | step in steps :: !(step.LandStep? && step.torn)
    ensures TrueThroughout(Folds, START, steps) && Refines(Final(START, steps).tables, epoch)
  {
    hide Trace, Final, Sound, PartTrue, EachKeeps, TrueThroughout, Refines;
    StartSound();
    StartParts(Folds);
    HeldTrace(Folds, START, steps, less);
    CheckpointRefinesFold(steps, epoch, less);
  }

  /** A step that takes nothing of a checkpoint away that a request has read. */
  predicate TakesNothing(s: Service, step: Step) {
    && !step.ClearStep?
    && (step.BeginStep? ==> InEpoch(s.seen, step.ticket.epoch + 1) == {} && InEpoch(s.flights, step.ticket.epoch + 1) == {})
  }

  predicate EachTakesNothing(s: Service, steps: seq<Step>)
    decreases |steps|
  {
    steps == [] || (TakesNothing(s, steps[0]) && EachTakesNothing(Next(s, steps[0]), steps[1..]))
  }

  /** No request has had anything taken away. */
  predicate NothingTorn(s: Service) {
    s.torn.seen == {} && s.torn.flights == {} && !s.torn.bare
  }

  lemma StaysUntorn(s: Service, step: Step, less: KeyOrder)
    requires StrictOrder(less) && NothingTorn(s) && TakesNothing(s, step) && Enabled(s, step, less)
    ensures NothingTorn(Next(s, step)) && !(step.LandStep? && step.torn)
  {
    hide MayStage, Captured, StagedCount, NoIntruder, FlightTrue, Readable, Log, Asks, InUse, InEpoch, BeginHeld, Push,
      StageRestore,
      Flip, WriteFold;
  }

  lemma {:induction false} NothingTakenLands(s: Service, steps: seq<Step>, less: KeyOrder)
    requires StrictOrder(less) && NothingTorn(s) && Trace(s, steps, less) && EachTakesNothing(s, steps)
    ensures forall step | step in steps :: !(step.LandStep? && step.torn)
    decreases |steps|
  {
    hide NothingTorn, TakesNothing, Enabled, Next;
    if steps != [] {
      StaysUntorn(s, steps[0], less);
      NothingTakenLands(Next(s, steps[0]), steps[1..], less);
      assert forall step | step in steps :: step == steps[0] || step in steps[1..];
    }
  }

  /**
   * In particular after every trace in which nothing is cleared and no begin takes away what a request has
   * read, whatever other begins, deletes, captures and turns do.
   */
  lemma CheckpointUntouched(steps: seq<Step>, epoch: nat, less: KeyOrder)
    requires StrictOrder(less) && Trace(START, steps, less) && EachTakesNothing(START, steps)
    ensures TrueThroughout(Folds, START, steps) && Refines(Final(START, steps).tables, epoch)
  {
    hide Trace, Final, EachTakesNothing, TrueThroughout, Refines;
    NothingTakenLands(START, steps, less);
    CheckpointHeld(steps, epoch, less);
  }

  // ----- Queries over a trace -------------------------------------------------------------

  /** One epoch's rows as a query at a state finds them. */
  function SeenOf(t: Tables, epoch: nat): Seen {
    Seen(CheckpointOf(t.folds, epoch), Log(t.ops, epoch), t.repo.lastSeq)
  }

  /** What takes an epoch's checkpoint away: an operator's clear, and a begin that fills the epoch. */
  predicate Clears(step: Step, epoch: nat) {
    step.ClearStep? || (step.BeginStep? && step.ticket.epoch + 1 == epoch)
  }

  ghost predicate Holds(t: Tables, after: Tables, epoch: nat) {
    var cp, now := CheckpointOf(t.folds, epoch), CheckpointOf(after.folds, epoch);
    && cp.versions.Keys <= now.versions.Keys
    && (forall seqno | seqno in cp.marks :: seqno in now.marks && now.marks[seqno] == cp.marks[seqno])
  }

  lemma StepHolds(s: Service, step: Step, epoch: nat, less: KeyOrder)
    requires StrictOrder(less) && Enabled(s, step, less) && !Clears(step, epoch)
    ensures Holds(s.tables, Next(s, step).tables, epoch)
  {
    hide MayStage, Captured, StagedCount, NoIntruder, FlightTrue, Readable, Log, Asks, InUse, InEpoch, BeginHeld, Push,
      StageRestore,
      Flip;
    match step
    case PushStep(at, vocabulary, batch, now) => PushElsewhere(s.tables, at, vocabulary, batch, now);
    case StageStep(rid, batch, now, _) => StageElsewhere(s.tables, rid, batch, now);
    case FlipStep(rid) => FlipElsewhere(s.tables, rid);
    case _ =>
  }

  /**
   * Over any trace in which its checkpoint is not cleared an epoch's checkpoint only grows, so queries a
   * request spreads over it find what the fold step, the page and the restore's page need of them.
   */
  lemma {:induction false} ReadsOverTrace(s: Service, steps: seq<Step>, epoch: nat, less: KeyOrder)
    requires StrictOrder(less) && Sound(s) && PartTrue(Folds, s.tables) && Trace(s, steps, less)
    requires EachKeeps(Folds, s, steps)
    requires forall step | step in steps :: !Clears(step, epoch)
    ensures Uncleared(SeenOf(s.tables, epoch), SeenOf(Final(s, steps).tables, epoch))
    decreases |steps|
  {
    hide Sound, PartTrue, Keeps, Enabled, Next, SeenTrue, Clears, Refines;
    FoldsRefine(s, epoch);
    if steps == [] {
      UnclearedSame(SeenOf(s.tables, epoch));
    } else {
      var next := Next(s, steps[0]);
      assert steps[0] in steps && forall step | step in steps[1..] :: step in steps;
      StepHolds(s, steps[0], epoch, less);
      StepSound(s, steps[0], less);
      StepPartIff(Folds, s, steps[0], less);
      LogOnward(s.tables, next.tables, epoch);
      FoldsRefine(next, epoch);
      ReadsOverTrace(next, steps[1..], epoch, less);
      UnclearedJoin(SeenOf(s.tables, epoch), SeenOf(next.tables, epoch), SeenOf(Final(next, steps[1..]).tables, epoch));
    }
  }

  /** A trace leads from one state to another, each of its steps writing truly of the checkpoints. */
  ghost predicate FoldedFrom(s: Service, after: Service, less: KeyOrder)
    requires StrictOrder(less)
  {
    exists steps :: Trace(s, steps, less) && EachKeeps(Folds, s, steps) && Final(s, steps) == after
  }

  /** And it takes nothing of an epoch's checkpoint away. */
  ghost predicate UnclearedFrom(s: Service, after: Service, epoch: nat, less: KeyOrder)
    requires StrictOrder(less)
  {
    exists steps ::
      Trace(s, steps, less) && EachKeeps(Folds, s, steps) && (forall step | step in steps :: !Clears(step, epoch)) && Final(s, steps) == after
  }

  lemma FoldedOnward(s: Service, after: Service, less: KeyOrder)
    requires StrictOrder(less) && Sound(s) && PartTrue(Folds, s.tables) && FoldedFrom(s, after, less)
    ensures Sound(after) && PartTrue(Folds, after.tables) && Onward(s.tables, after.tables)
  {
    hide Sound, PartTrue, Trace, Final, EachKeeps, Onward;
    var steps :| Trace(s, steps, less) && EachKeeps(Folds, s, steps) && Final(s, steps) == after;
    TraceSound(s, steps, less);
    TracePartIff(Folds, s, steps, less);
  }

  lemma UnclearedOnward(s: Service, after: Service, epoch: nat, less: KeyOrder)
    requires StrictOrder(less) && Sound(s) && PartTrue(Folds, s.tables) && UnclearedFrom(s, after, epoch, less)
    ensures Sound(after) && PartTrue(Folds, after.tables) && Onward(s.tables, after.tables)
    ensures Uncleared(SeenOf(s.tables, epoch), SeenOf(after.tables, epoch))
  {
    hide Sound, PartTrue, Trace, Final, EachKeeps, Onward, Clears, Uncleared;
    var steps :| Trace(s, steps, less) && EachKeeps(Folds, s, steps) && (forall step | step in steps :: !Clears(step, epoch))
      && Final(s, steps) == after;
    TraceSound(s, steps, less);
    TracePartIff(Folds, s, steps, less);
    ReadsOverTrace(s, steps, epoch, less);
  }

  lemma FoldedSound(s: Service, less: KeyOrder)
    requires StrictOrder(less) && FoldedFrom(START, s, less)
    ensures Sound(s) && PartTrue(Folds, s.tables)
  {
    hide Sound, PartTrue, FoldedFrom;
    StartSound();
    StartParts(Folds);
    FoldedOnward(START, s, less);
  }

  /** So wherever such a trace has got to, a read at a mark answers as it did at the start: with the fold of the log there. */
  lemma QueriesAgree(s: Service, after: Service, epoch: nat, at: nat, less: KeyOrder)
    requires StrictOrder(less) && FoldedFrom(START, s, less) && UnclearedFrom(s, after, epoch, less)
    requires Readable(CheckpointOf(s.tables.folds, epoch), at)
    ensures var before, now := SeenOf(s.tables, epoch), SeenOf(after.tables, epoch);
            && SeenTrue(before) && Uncleared(before, now)
            && View(now.cp, at) == View(before.cp, at) == FoldAt(before.log, at) == FoldAt(now.log, at)
  {
    hide Sound, PartTrue, SeenTrue, Uncleared, View, FoldAt, FoldedFrom, UnclearedFrom, Refines;
    FoldedSound(s, less);
    FoldsRefine(s, epoch);
    UnclearedOnward(s, after, epoch, less);
    ReadsAgree(SeenOf(s.tables, epoch), SeenOf(after.tables, epoch), at);
  }

  // ----- The vocabulary of a backup -------------------------------------------------------

  /** What `assertRestorableVocabulary` decides of a backup's counts and the vocabulary the repository holds. */
  datatype Verdict = Admitted | Claims(vocabulary: Vocabulary) | MixedBackup | OtherVocabulary(held: Vocabulary,
                                       offered: Vocabulary)

  function Judge(kinds: map<string, nat>, held: Option<Vocabulary>): Verdict {
    var some := set kind | kind in kinds && kinds[kind] > 0;
    var registry := some * REGISTRY;
    if some == {} then Admitted
    else if registry != {} && registry != some then MixedBackup
    else
      var offered := if registry == some then Hub else Workspace;
      if held == Some(offered) then Admitted
      else if held.Some? then OtherVocabulary(held.value, offered)
      else Claims(offered)
  }

  /** What the check makes of a backup's counts: a backup of both kinds is refused, and one of the other kind than is held. */
  lemma JudgeIs(kinds: map<string, nat>, held: Option<Vocabulary>)
    ensures var hub := exists kind | kind in kinds && kinds[kind] > 0 :: kind == "registration" || kind == "crossLink";
            var own := exists kind | kind in kinds && kinds[kind] > 0 :: kind != "registration" && kind != "crossLink";
            && (Judge(kinds, held) == MixedBackup <==> hub && own)
            && (Judge(kinds, held) == Claims(Hub) <==> hub && !own && held.None?)
            && (Judge(kinds, held) == Claims(Workspace) <==> own && !hub && held.None?)
            && (Judge(kinds, held) == OtherVocabulary(Workspace, Hub) <==> hub && !own && held == Some(Workspace))
            && (Judge(kinds, held) == OtherVocabulary(Hub, Workspace) <==> own && !hub && held == Some(Hub))
            && (Judge(kinds, held) == Admitted <==>
                  (!hub && !own) || (hub && !own && held == Some(Hub)) || (own && !hub && held == Some(Workspace)))
  {
    var some := set kind | kind in kinds && kinds[kind] > 0;
    var registry := some * {"registration", "crossLink"};
    if kind :| kind in kinds && kinds[kind] > 0 && (kind == "registration" || kind == "crossLink") {
      assert kind in registry;
    } else {
      assert registry == {};
    }
    if kind :| kind in kinds && kinds[kind] > 0 && kind != "registration" && kind != "crossLink" {
      assert kind in some && kind !in registry;
    } else {
      assert registry == some;
    }
  }

  /**
   * A repository stores registrations and cross links and nothing else, or neither, whatever becomes of
   * its restores, so long as no turn staged from reads a clear tore.
   */
  lemma HubOrWorkspace(steps: seq<Step>, less: KeyOrder)
    requires StrictOrder(less) && Trace(START, steps, less)
    requires forall step | step in steps :: !(step.StageStep? && step.torn)
    ensures var t := Final(START, steps).tables;
            forall op | op in t.ops ::
              t.repo.vocabulary == Some(if op.key.Kind() == "registration" || op.key.Kind() == "crossLink" then Hub else Workspace)
  {
    hide Trace, Final, EachKeeps, Sound;
    StartSound();
    StartParts(Vocabularies);
    HeldTrace(Vocabularies, START, steps, less);
    TracePartIff(Vocabularies, START, steps, less);
  }

  /**
   * The restore's vocabulary check never refuses and never claims, so long as the log is of one
   * vocabulary and the backups are true: whatever a backup holds came from a log of the repository's own.
   * After a trace of the empty service they are when no turn landed a row of another vocabulary, and no
   * capture recorded what was not so; and what no clear tore never does either.
   */
  lemma RestoreAlwaysAdmitted(steps: seq<Step>, id: string, less: KeyOrder)
    requires StrictOrder(less) && Trace(START, steps, less) && id in Final(START, steps).tables.backups
    requires EachKeeps(Vocabularies, START, steps) && EachKeeps(Backups, START, steps)
    ensures var t := Final(START, steps).tables; Judge(t.backups[id].kinds, t.repo.vocabulary).Admitted?
  {
    hide Trace, Final, EachKeeps, TrueThroughout, Sound, FoldAt, Judge, VocabularyOf, Log;
    StartSound();
    StartParts(Vocabularies);
    StartParts(Backups);
    TracePartIff(Vocabularies, START, steps, less);
    TracePartIff(Backups, START, steps, less);
    var t := Final(START, steps).tables;
    var backup := t.backups[id];
    BackupIn(t.backups, t.ops, t.repo.lastSeq, id);
    FoldOfVocabulary(t.ops, t.repo.vocabulary, backup);
    KindsOfOne(backup.kinds, Kept(t.ops, backup), t.repo.vocabulary);
  }

  /** Nothing torn having been staged or captured, that is so. */
  lemma HeldIsAdmitted(steps: seq<Step>, id: string, less: KeyOrder)
    requires StrictOrder(less) && Trace(START, steps, less) && id in Final(START, steps).tables.backups
    requires forall step | step in steps :: !((step.StageStep? || step.CaptureStep? || step.UndoStep?) && step.torn)
    ensures var t := Final(START, steps).tables; Judge(t.backups[id].kinds, t.repo.vocabulary).Admitted?
  {
    hide Trace, Final, EachKeeps, Sound, PartTrue, Judge;
    StartSound();
    StartParts(Vocabularies);
    StartParts(Backups);
    HeldTrace(Vocabularies, START, steps, less);
    HeldTrace(Backups, START, steps, less);
    RestoreAlwaysAdmitted(steps, id, less);
  }

  lemma KindsOfOne(kinds: map<string, nat>, fold: Fold, vocabulary: Option<Vocabulary>)
    requires KindsTrue(kinds, fold.Keys) && forall key | key in fold :: vocabulary == Some(VocabularyOf(key))
    ensures Judge(kinds, vocabulary).Admitted?
  {
    forall kind | kind in kinds ensures vocabulary == Some(if kind in REGISTRY then Hub else Workspace) {
      var key :| key in OfKind(fold.Keys, kind);
      assert key in fold;
    }
    var some := set kind | kind in kinds && kinds[kind] > 0;
    if some != {} {
      var one :| one in some;
      if one in REGISTRY {
        assert some * REGISTRY == some;
      } else {
        assert some * REGISTRY == {};
      }
    }
  }

  // ----- Visits ---------------------------------------------------------------------------

  /** States a client meets one after another: any trace leads from each to the next. */
  ghost predicate Visits(states: seq<Service>, less: KeyOrder)
    requires StrictOrder(less)
  {
    && (states != [] ==> Traced(states[0], less))
    && (forall i | 0 < i < |states| :: TracedFrom(states[i - 1], states[i], less))
  }

  lemma {:induction false} VisitSound(states: seq<Service>, i: nat, less: KeyOrder)
    requires StrictOrder(less) && Visits(states, less) && i < |states|
    ensures Sound(states[i])
    ensures i > 0 ==> Onward(states[i - 1].tables, states[i].tables)
    ensures Onward(states[0].tables, states[i].tables)
  {
    hide Sound, TracedFrom, Traced, Onward;
    if i == 0 {
      TracedSound(states[0], less);
      OnwardSame(states[0].tables, states[0].tables);
    } else {
      VisitSound(states, i - 1, less);
      assert TracedFrom(states[i - 1], states[i], less);
      TracedOnward(states[i - 1], states[i], less);
      OnwardJoin(states[0].tables, states[i - 1].tables, states[i].tables);
    }
  }

  // ----- Pushing --------------------------------------------------------------------------

  lemma IdsGrow(t: Tables, after: Tables, epoch: nat)
    requires Onward(t, after)
    ensures IdsOf(t.ops, epoch) <= IdsOf(after.ops, epoch)
  {
  }

  /** A push lands every id of its batch the epoch lacks, once, or when it is refused changes nothing at all. */
  lemma PushLandsAll(t: Tables, epoch: nat, vocabulary: Vocabulary, batch: seq<Draft>, now: int)
    requires IdsOnce(t.ops)
    ensures var after := Push(t, epoch, vocabulary, batch, now);
            && IdsOnce(after.ops)
            && IdsOf(after.ops, epoch) == IdsOf(t.ops, epoch) + (if Admits(t.repo, epoch, vocabulary) then DraftIds(batch) else {})
            && (forall other: nat | other != epoch :: IdsOf(after.ops, other) == IdsOf(t.ops, other))
            && (!Admits(t.repo, epoch, vocabulary) ==> after == t)
  {
    if Admits(t.repo, epoch, vocabulary) {
      var rows := Landed(IdsOf(t.ops, epoch), epoch, t.repo.lastSeq, batch, now);
      LandedKeepsOnce(t.ops, epoch, t.repo.lastSeq, batch, now);
      LandedIds(IdsOf(t.ops, epoch), epoch, t.repo.lastSeq, batch, now);
      LandedSlots(IdsOf(t.ops, epoch), epoch, t.repo.lastSeq, batch, now);
      forall other: nat ensures IdsOf(t.ops + rows, other) == IdsOf(t.ops, other) + IdsOf(rows, other) {
        IdsOfBoth(t.ops, rows, other);
      }
      forall other: nat | other != epoch ensures IdsOf(rows, other) == {} {
        assert forall op | op in rows :: op.epoch == epoch;
      }
    }
  }

  /** An operation on an entity, or one that could be placed as it. */
  predicate Near(named: Key, verb: Verb, key: Key) {
    named == key || (verb.Create? && named.Rev? && key.Rev? && named.doc == key.doc)
  }

  /** No later draft of a batch is on the entity, or could be placed as it. */
  predicate LastOn(batch: seq<Draft>, j: nat, key: Key) {
    forall k | j < k < |batch| :: !Near(batch[k].key, batch[k].verb, key)
  }

  lemma DeletedAmong(log: seq<Op>, op: Op, rest: seq<Op>)
    requires op.verb.Delete? && forall later | later in rest :: !Near(later.key, later.verb, op.key)
    ensures var fold := FoldLog(map[], log + ([op] + rest)); op.key in fold && fold[op.key].entity.deletedAt == Some(op.serverTs)
  {
    hide FoldRow, FoldLog, SettlesOn;
    var fold := FoldLog(map[], log);
    forall i | 0 <= i < |rest| ensures !SettlesOn(FoldLog(FoldRow(fold, op), rest[..i]), rest[i], op.key) {
      assert !Near(rest[i].key, rest[i].verb, op.key);
      SettlesNear(FoldLog(FoldRow(fold, op), rest[..i]), rest[i], op.key);
    }
    DeleteIsDated(fold, op, rest, op.key);
    FoldLogAppend(map[], log, [op] + rest);
  }

  /** A delete that is pushed and lands leaves a tombstone dated with the time of the push. */
  lemma PushedDelete(t: Tables, epoch: nat, vocabulary: Vocabulary, batch: seq<Draft>, now: int, j: nat)
    requires Admits(t.repo, epoch, vocabulary)
    requires j < |batch| && batch[j].verb.Delete? && LastOn(batch, j, batch[j].key)
    requires IsNew(IdsOf(t.ops, epoch), batch, j)
    ensures var fold := FoldLog(map[], Log(Push(t, epoch, vocabulary, batch, now).ops, epoch));
            batch[j].key in fold && fold[batch[j].key].entity.deletedAt == Some(now)
  {
    hide Landed, Log, IdsOf, IsNew, FoldLog, LastOn;
    var present, base := IdsOf(t.ops, epoch), t.repo.lastSeq;
    var rows := Landed(present, epoch, base, batch, now);
    LandedWhich(present, epoch, base, batch, now, j);
    LandedSlots(present, epoch, base, batch, now);
    LogAppend(t.ops, rows, epoch);
    LogOfOne(rows, epoch, epoch);
    var op :| op in rows && Stores(op, batch[j], base + j + 1, epoch, now);
    var m :| 0 <= m < |rows| && rows[m] == op;
    forall later | later in rows[m + 1..] ensures !Near(later.key, later.verb, op.key) {
      LaterOne(present, epoch, base, batch, now, j, m, later);
    }
    DeletedAmong(Log(t.ops, epoch) + rows[..m], op, rows[m + 1..]);
    assert Log(t.ops, epoch) + rows == Log(t.ops, epoch) + rows[..m] + ([op] + rows[m + 1..]);
  }

  lemma LaterOne(present: set<OpId>, epoch: nat, base: nat, batch: seq<Draft>, now: int, j: nat, m: nat, later: Op)
    requires j < |batch| && LastOn(batch, j, batch[j].key)
    requires var rows := Landed(present, epoch, base, batch, now);
             m < |rows| && Increasing(rows) && rows[m].seqno == base + j + 1 && later in rows[m + 1..]
    ensures !Near(later.key, later.verb, batch[j].key)
  {
    hide Landed;
    LandedIsDraft(present, epoch, base, batch, now, later);
    var k :| 0 <= k < |batch| && Stores(later, batch[k], base + k + 1, epoch, now);
    assert base + k + 1 > base + j + 1;
  }

  /** What settles on an entity names it, or is a create of a revision of its document. */
  lemma SettlesNear(fold: Fold, row: Op, key: Key)
    ensures SettlesOn(fold, row, key) ==> Near(row.key, row.verb, key)
  {
    hide Again, Taken, FirstFree;
  }

  lemma IdsOfBoth(a: seq<Op>, b: seq<Op>, epoch: nat)
    ensures IdsOf(a + b, epoch) == IdsOf(a, epoch) + IdsOf(b, epoch)
  {
  }

  /**
   * Pushing is idempotent: once a batch has been taken, sending it again, any time later in the epoch
   * and whatever came between, stores nothing.
   */
  lemma PushTwice(t: Tables, epoch: nat, vocabulary: Vocabulary, batch: seq<Draft>, now: int, later: Tables, again: int)
    requires IdsOnce(t.ops) && Admits(t.repo, epoch, vocabulary)
    requires Onward(Push(t, epoch, vocabulary, batch, now), later)
    ensures Push(later, epoch, vocabulary, batch, again).ops == later.ops
  {
    PushLandsAll(t, epoch, vocabulary, batch, now);
    IdsGrow(Push(t, epoch, vocabulary, batch, now), later, epoch);
    NothingLands(IdsOf(later.ops, epoch), epoch, later.repo.lastSeq, batch, again);
  }

  /**
   * An id is absorbed only by its own epoch: in one that lacks it, a push it is admitted to stores it,
   * whatever older epochs hold.
   */
  lemma LaterEpochStores(t: Tables, epoch: nat, vocabulary: Vocabulary, batch: seq<Draft>, now: int, i: nat)
    requires IdsOnce(t.ops) && Admits(t.repo, epoch, vocabulary) && i < |batch| && batch[i].opId !in IdsOf(t.ops, epoch)
    requires forall j | 0 <= j < i :: batch[j].opId != batch[i].opId
    ensures Row(batch[i], t.repo.lastSeq + i + 1, epoch, now) in Push(t, epoch, vocabulary, batch, now).ops
  {
    FirstLands(IdsOf(t.ops, epoch), epoch, t.repo.lastSeq, batch, now, i);
  }

  /** The first operation of a batch with an id the epoch lacks takes its own slot. */
  lemma {:induction false} FirstLands(present: set<OpId>, epoch: nat, base: nat, batch: seq<Draft>, now: int, i: nat)
    requires i < |batch| && batch[i].opId !in present && forall j | 0 <= j < i :: batch[j].opId != batch[i].opId
    ensures Row(batch[i], base + i + 1, epoch, now) in Landed(present, epoch, base, batch, now)
  {
    var n := |batch| - 1;
    if i < n {
      FirstLands(present, epoch, base, batch[..n], now, i);
    } else {
      LandedIds(present, epoch, base, batch[..n], now);
    }
  }

  // ----- Pulling --------------------------------------------------------------------------

  function PullsOf(states: seq<Service>, epoch: nat, most: seq<nat>): (pulls: seq<Pull>)
    requires |most| == |states|
    ensures |pulls| == |states|
  {
    seq(|states|, i requires 0 <= i < |states| =>
      Pull(Log(states[i].tables.ops, epoch), states[i].tables.repo.lastSeq, most[i]))
  }

  lemma PullsWalk(states: seq<Service>, epoch: nat, most: seq<nat>, less: KeyOrder)
    requires StrictOrder(less) && Visits(states, less) && |most| == |states|
    ensures IsPullWalk(PullsOf(states, epoch, most))
  {
    hide Onward, Visits, Log, Sound;
    var pulls := PullsOf(states, epoch, most);
    forall i | 0 <= i < |states| ensures Increasing(pulls[i].log) && AllAtMost(pulls[i].log, pulls[i].head) {
      VisitSound(states, i, less);
      SoundLog(states[i], epoch);
    }
    forall i | 0 < i < |states| ensures pulls[i - 1].head <= pulls[i].head && Grows(pulls[i - 1].log, pulls[i - 1].head, pulls[i].log) {
      VisitSound(states, i, less);
      OnwardHead(states[i - 1].tables, states[i].tables);
      LogOnward(states[i - 1].tables, states[i].tables, epoch);
    }
  }

  lemma OnwardHead(t: Tables, after: Tables)
    requires Onward(t, after)
    ensures t.repo.lastSeq <= after.repo.lastSeq
  {
  }

  /**
   * A cursor-paged pull of an epoch delivers each operation exactly once and in order, whatever the
   * service does between its pages.
   */
  lemma PullOverTrace(states: seq<Service>, epoch: nat, most: seq<nat>, cursor: nat, less: KeyOrder)
    requires StrictOrder(less) && Visits(states, less) && states != [] && |most| == |states|
    requires cursor <= states[0].tables.repo.lastSeq
    ensures var log := Log(states[|states| - 1].tables.ops, epoch);
            var pulls := PullsOf(states, epoch, most);
            cursor <= CursorAfter(pulls, cursor) && Pulled(pulls, cursor) == Between(log, cursor, CursorAfter(pulls, cursor))
  {
    hide Visits;
    PullsWalk(states, epoch, most, less);
    PullIsExact(PullsOf(states, epoch, most), cursor);
  }

  /** A page short of its limit has reached the end of the log. */
  lemma LastPage(log: seq<Op>, head: nat, cursor: nat, most: nat)
    requires IsLog(log) && AllAtMost(log, head) && |Page(log, cursor, most)| < most
    ensures Page(log, cursor, most) == After(log, cursor)
    ensures cursor <= head ==> After(log, NextCursor(cursor, Page(log, cursor, most))) == []
  {
    var page := Page(log, cursor, most);
    AfterIsAbove(log, cursor);
    if cursor <= head && page != [] {
      PageIsBetween(log, head, cursor, most);
      CutBefore(log, |log|);
    }
  }

  // ----- Snapshots ------------------------------------------------------------------------

  /** One page of a snapshot: the states its mark, what it folds onto, and its list were read at, and what it held. */
  datatype Visit = Visit(marks: Service, loads: Service, lists: Service, room: Room, page: FoldPage)

  function Served(visits: seq<Visit>): seq<seq<Key>> {
    seq(|visits|, i requires 0 <= i < |visits| => visits[i].page.keys)
  }

  /** A snapshot of an epoch pinned at a cutoff, a page at a time: each page is true where it was read. */
  ghost predicate IsSnapshot(epoch: nat, cutoff: nat, less: KeyOrder, after: Option<Key>, visits: seq<Visit>)
    requires StrictOrder(less)
    decreases |visits|
  {
    visits == [] ||
    (&& PageTrue(FoldAt(Log(visits[0].marks.tables.ops, epoch), cutoff), after, less, visits[0].room, visits[0].page)
     && IsSnapshot(epoch, cutoff, less, NextAfter(after, visits[0].page.keys), visits[1..]))
  }

  /** The pages are read from one fold, however the log has grown since the cutoff was pinned. */
  lemma {:induction false} SnapshotIsWalk(fold: Fold, epoch: nat, cutoff: nat, less: KeyOrder, after: Option<Key>,
                                          visits: seq<Visit>)
    requires StrictOrder(less) && IsSnapshot(epoch, cutoff, less, after, visits)
    requires forall v | v in visits :: FoldAt(Log(v.marks.tables.ops, epoch), cutoff) == fold
    ensures IsWalk(fold.Keys, less, after, Served(visits))
    decreases |visits|
  {
    hide FoldAt, Sorted;
    if visits != [] {
      assert visits[0] in visits;
      var rest := visits[1..];
      SnapshotIsWalk(fold, epoch, cutoff, less, NextAfter(after, visits[0].page.keys), rest);
      assert Served(visits)[1..] == Served(rest) && Served(visits)[0] == visits[0].page.keys;
    }
  }

  /** A page carries entities as a fold has them. */
  ghost predicate Carries(page: FoldPage, fold: Fold) {
    && |page.entities| == |page.keys|
    && forall i | 0 <= i < |page.keys| :: page.keys[i] in fold && page.entities[i] == fold[page.keys[i]].entity
  }

  /** Each page carries the entities of the fold it was read from. */
  lemma {:induction false} PageHolds(fold: Fold, epoch: nat, cutoff: nat, less: KeyOrder, after: Option<Key>,
                                     visits: seq<Visit>, v: Visit)
    requires StrictOrder(less) && IsSnapshot(epoch, cutoff, less, after, visits) && v in visits
    requires forall w | w in visits :: FoldAt(Log(w.marks.tables.ops, epoch), cutoff) == fold
    ensures Carries(v.page, fold)
    decreases |visits|
  {
    hide FoldAt, Sorted;
    assert visits[0] in visits;
    if v != visits[0] {
      PageHolds(fold, epoch, cutoff, less, NextAfter(after, visits[0].page.keys), visits[1..], v);
    }
  }

  /** When the last page says nothing follows, the pages are the whole fold in key order. */
  lemma {:induction false} LastPageEnds(fold: Fold, epoch: nat, cutoff: nat, less: KeyOrder, after: Option<Key>,
                                        visits: seq<Visit>)
    requires StrictOrder(less) && IsSnapshot(epoch, cutoff, less, after, visits) && visits != []
    requires forall v | v in visits :: FoldAt(Log(v.marks.tables.ops, epoch), cutoff) == fold
    requires !visits[|visits| - 1].page.hasMore
    ensures Flatten(Served(visits)) == Rest(fold, after, less)
    decreases |visits|
  {
    hide FoldAt, Sorted, PageTrue, Flatten, Served, Log;
    var page, rest := visits[0].page.keys, visits[1..];
    assert visits[0] in visits;
    ServedFirst(visits);
    FirstPage(fold, after, less, visits[0]);
    if rest == [] {
      ServedNone();
    } else {
      assert rest[|rest| - 1] == visits[|visits| - 1];
      assert forall v | v in rest :: v in visits;
      LastPageEnds(fold, epoch, cutoff, less, NextAfter(after, page), rest);
    }
  }

  lemma ServedFirst(visits: seq<Visit>)
    requires visits != []
    ensures Flatten(Served(visits)) == visits[0].page.keys + Flatten(Served(visits[1..]))
  {
    assert Served(visits)[1..] == Served(visits[1..]);
  }

  lemma ServedNone()
    ensures Flatten(Served([])) == []
  {
  }

  /** A page and what is left after it are what was left before it. */
  lemma FirstPage(fold: Fold, after: Option<Key>, less: KeyOrder, visit: Visit)
    requires StrictOrder(less) && PageTrue(fold, after, less, visit.room, visit.page)
    ensures Rest(fold, after, less) == visit.page.keys + Rest(fold, NextAfter(after, visit.page.keys), less)
    ensures !visit.page.hasMore ==> Rest(fold, after, less) == visit.page.keys
  {
    hide Sorted;
    NextPage(fold.Keys, less, after, visit.page.keys);
  }

  // ----- A snapshot over a trace ----------------------------------------------------------

  /** A page is what the service answered of the states it was read at. */
  ghost predicate IsRead(v: Visit, epoch: nat, cutoff: nat, less: KeyOrder, after: Option<Key>)
    requires StrictOrder(less)
  {
    PageAnswers(SeenOf(v.marks.tables, epoch), SeenOf(v.loads.tables, epoch), SeenOf(v.lists.tables, epoch), cutoff, after, less,
                v.room, v.page)
  }

  /** Each page is asked for from where the last one ended. */
  ghost predicate PagesRead(epoch: nat, cutoff: nat, less: KeyOrder, after: Option<Key>, visits: seq<Visit>)
    requires StrictOrder(less)
    decreases |visits|
  {
    visits == []
    || (IsRead(visits[0], epoch, cutoff, less, after)
        && PagesRead(epoch, cutoff, less, NextAfter(after, visits[0].page.keys), visits[1..]))
  }

  /**
   * The trace a snapshot is read along. Between the queries of a page its epoch's checkpoint is not taken
   * away; between pages anything may happen.
   */
  ghost predicate VisitsTraced(epoch: nat, visits: seq<Visit>, less: KeyOrder)
    requires StrictOrder(less)
  {
    && (visits != [] ==> FoldedFrom(START, visits[0].marks, less))
    && (forall i | 0 < i < |visits| :: FoldedFrom(visits[i - 1].lists, visits[i].marks, less))
    && (forall v | v in visits :: UnclearedFrom(v.marks, v.loads, epoch, less) && UnclearedFrom(v.loads, v.lists, epoch, less))
  }

  lemma {:induction false} VisitTraced(epoch: nat, visits: seq<Visit>, i: nat, less: KeyOrder)
    requires StrictOrder(less) && VisitsTraced(epoch, visits, less) && i < |visits|
    ensures Sound(visits[i].marks) && PartTrue(Folds, visits[i].marks.tables)
    ensures Onward(visits[0].marks.tables, visits[i].marks.tables)
    ensures Sound(visits[i].lists) && PartTrue(Folds, visits[i].lists.tables)
    ensures Onward(visits[0].marks.tables, visits[i].lists.tables)
  {
    hide Sound, PartTrue, FoldedFrom, UnclearedFrom, Onward, Uncleared;
    var v := visits[i];
    if i == 0 {
      FoldedSound(v.marks, less);
      OnwardSame(v.marks.tables, v.marks.tables);
    } else {
      VisitTraced(epoch, visits, i - 1, less);
      FoldedOnward(visits[i - 1].lists, v.marks, less);
      OnwardJoin(visits[0].marks.tables, visits[i - 1].lists.tables, v.marks.tables);
    }
    assert v in visits;
    UnclearedOnward(v.marks, v.loads, epoch, less);
    UnclearedOnward(v.loads, v.lists, epoch, less);
    OnwardJoin(v.marks.tables, v.loads.tables, v.lists.tables);
    OnwardJoin(visits[0].marks.tables, v.marks.tables, v.lists.tables);
  }

  /** A page read so is true of the fold at the cutoff. */
  lemma PageIsTrue(v: Visit, epoch: nat, cutoff: nat, less: KeyOrder, after: Option<Key>)
    requires StrictOrder(less) && Sound(v.marks) && PartTrue(Folds, v.marks.tables)
    requires UnclearedFrom(v.marks, v.loads, epoch, less) && UnclearedFrom(v.loads, v.lists, epoch, less)
    requires IsRead(v, epoch, cutoff, less, after)
    ensures PageTrue(FoldAt(Log(v.marks.tables.ops, epoch), cutoff), after, less, v.room, v.page)
  {
    hide Sound, PartTrue, UnclearedFrom, Uncleared, PageTrue, FoldAt, Log;
    UnclearedOnward(v.marks, v.loads, epoch, less);
    UnclearedOnward(v.loads, v.lists, epoch, less);
  }

  lemma {:induction false} ReadIsSnapshot(epoch: nat, cutoff: nat, less: KeyOrder, all: seq<Visit>, i: nat,
                                          after: Option<Key>)
    requires StrictOrder(less) && VisitsTraced(epoch, all, less) && i <= |all|
    requires PagesRead(epoch, cutoff, less, after, all[i..])
    ensures IsSnapshot(epoch, cutoff, less, after, all[i..])
    decreases |all| - i
  {
    hide Sound, PartTrue, FoldedFrom, UnclearedFrom, IsRead, PageTrue, FoldAt, Log, Onward;
    if i < |all| {
      assert all[i..][0] == all[i] && all[i..][1..] == all[i + 1..] && all[i] in all;
      VisitTraced(epoch, all, i, less);
      PageIsTrue(all[i], epoch, cutoff, less, after);
      ReadIsSnapshot(epoch, cutoff, less, all, i + 1, NextAfter(after, all[i].page.keys));
    }
  }

  /** The pages are of one fold: that of the cutoff where the first was read. */
  lemma SnapshotFold(epoch: nat, cutoff: nat, less: KeyOrder, visits: seq<Visit>)
    requires StrictOrder(less) && visits != [] && VisitsTraced(epoch, visits, less)
    requires PagesRead(epoch, cutoff, less, None, visits) && cutoff <= visits[0].marks.tables.repo.lastSeq
    ensures IsSnapshot(epoch, cutoff, less, None, visits)
    ensures forall v | v in visits :: FoldAt(Log(v.marks.tables.ops, epoch), cutoff) == FoldAt(Log(visits[0].marks.tables.ops, epoch), cutoff)
  {
    hide Sound, PartTrue, FoldAt, Log, Onward, VisitsTraced, PagesRead, IsSnapshot, UpTo;
    assert visits[0..] == visits;
    ReadIsSnapshot(epoch, cutoff, less, visits, 0, None);
    forall v | v in visits ensures FoldAt(Log(v.marks.tables.ops, epoch), cutoff) == FoldAt(Log(visits[0].marks.tables.ops, epoch), cutoff) {
      var i :| 0 <= i < |visits| && visits[i] == v;
      VisitTraced(epoch, visits, i, less);
      FoldOnward(visits[0].marks.tables, v.marks.tables, epoch, cutoff);
    }
  }

  /** Wherever a snapshot stands, what it has served is the first of the fold in key order: none skipped, none twice. */
  lemma SnapshotSoFar(epoch: nat, cutoff: nat, less: KeyOrder, visits: seq<Visit>)
    requires StrictOrder(less) && visits != [] && VisitsTraced(epoch, visits, less)
    requires PagesRead(epoch, cutoff, less, None, visits) && cutoff <= visits[0].marks.tables.repo.lastSeq
    ensures Flatten(Served(visits)) <= Sorted(FoldAt(Log(visits[0].marks.tables.ops, epoch), cutoff).Keys, less)
  {
    hide FoldAt, Sorted, VisitsTraced, PagesRead, IsSnapshot, Log;
    var fold := FoldAt(Log(visits[0].marks.tables.ops, epoch), cutoff);
    SnapshotFold(epoch, cutoff, less, visits);
    SnapshotIsWalk(fold, epoch, cutoff, less, None, visits);
    WalkIsPrefix(fold.Keys, less, None, Served(visits));
    assert Beyond(fold.Keys, None, less) == fold.Keys;
  }

  /**
   * A snapshot paged at a pinned cutoff over many requests holds exactly the fold at the cutoff, each
   * entity once and in key order, however its pages are cut and whatever happens between them.
   */
  lemma SnapshotOverTrace(epoch: nat, cutoff: nat, less: KeyOrder, visits: seq<Visit>)
    requires StrictOrder(less) && visits != [] && VisitsTraced(epoch, visits, less)
    requires PagesRead(epoch, cutoff, less, None, visits) && cutoff <= visits[0].marks.tables.repo.lastSeq
    requires !visits[|visits| - 1].page.hasMore
    ensures var fold := FoldAt(Log(visits[0].marks.tables.ops, epoch), cutoff);
            && Flatten(Served(visits)) == Sorted(fold.Keys, less)
            && forall v | v in visits :: Carries(v.page, fold)
  {
    hide FoldAt, PageTrue, Sorted, Served, Flatten, Log, VisitsTraced, PagesRead, IsSnapshot, Carries;
    var fold := FoldAt(Log(visits[0].marks.tables.ops, epoch), cutoff);
    SnapshotFold(epoch, cutoff, less, visits);
    forall v | v in visits ensures Carries(v.page, fold) {
      PageHolds(fold, epoch, cutoff, less, None, visits, v);
    }
    LastPageEnds(fold, epoch, cutoff, less, None, visits);
    assert Beyond(fold.Keys, None, less) == fold.Keys;
  }

  // ----- Joining --------------------------------------------------------------------------

  /** What a page leaves a device holding. */
  function Held(keys: seq<Key>, entities: seq<Entity>): Fold {
    if keys == [] || entities == [] then map[] else Held(keys[1..], entities[1..])[keys[0] := Cell(entities[0], 0)]
  }

  /** What a snapshot's pages leave it holding. */
  function Hydrated(visits: seq<Visit>): Fold {
    if visits == [] then map[] else Hydrated(visits[1..]) + Held(visits[0].page.keys, visits[0].page.entities)
  }

  /** Two folds say the same of every entity, if not of when it last changed, which no page carries. */
  ghost predicate SameEntities(a: Fold, b: Fold) {
    a.Keys == b.Keys && forall key | key in a :: a[key].entity == b[key].entity
  }

  /** What is held is a fold's entities of these keys. */
  ghost predicate HoldsSome(held: Fold, keys: seq<Key>, fold: Fold) {
    && (forall key :: key in held <==> key in keys)
    && (forall key | key in held :: key in fold && held[key].entity == fold[key].entity)
  }

  lemma {:induction false} PageHydrates(keys: seq<Key>, entities: seq<Entity>, fold: Fold)
    requires |entities| == |keys| && forall i | 0 <= i < |keys| :: keys[i] in fold && entities[i] == fold[keys[i]].entity
    ensures HoldsSome(Held(keys, entities), keys, fold)
  {
    if keys != [] {
      PageHydrates(keys[1..], entities[1..], fold);
      assert keys == [keys[0]] + keys[1..];
    }
  }

  lemma {:induction false} PagesHydrate(visits: seq<Visit>, fold: Fold)
    requires forall v | v in visits :: Carries(v.page, fold)
    ensures HoldsSome(Hydrated(visits), Flatten(Served(visits)), fold)
    decreases |visits|
  {
    hide Held, Served, Flatten;
    if visits == [] {
      ServedNone();
    } else {
      var v, rest := visits[0], visits[1..];
      assert v in visits && forall w | w in rest :: w in visits;
      PagesHydrate(rest, fold);
      ServedFirst(visits);
      PageHydrates(v.page.keys, v.page.entities, fold);
    }
  }

  /** The rule asks of a fold nothing but what it says of each entity. */
  lemma RowKeepsSame(a: Fold, b: Fold, row: Op)
    requires SameEntities(a, b)
    ensures SameEntities(FoldRow(a, row), FoldRow(b, row))
  {
    hide Touch, ForgetPlace, PlacedAt;
    SettlesSame(a, b, row);
  }

  lemma SettlesSame(a: Fold, b: Fold, row: Op)
    requires SameEntities(a, b)
    ensures Settle(a, row) == Settle(b, row)
  {
    hide SameRevision, FirstFree, PlacedAt, Floor;
    if row.key.Rev? {
      assert Taken(a, row.key.doc) == Taken(b, row.key.doc);
    }
  }

  lemma {:induction false} LogKeepsSame(a: Fold, b: Fold, log: seq<Op>)
    requires SameEntities(a, b)
    ensures SameEntities(FoldLog(a, log), FoldLog(b, log))
  {
    hide FoldRow, SameEntities;
    if log != [] {
      var n := |log| - 1;
      LogKeepsSame(a, b, log[..n]);
      RowKeepsSame(FoldLog(a, log[..n]), FoldLog(b, log[..n]), log[n]);
    }
  }

  /**
   * Joining agrees with replaying: a device that folds what it pulls from a snapshot's cutoff onto what the
   * snapshot's pages left it holding holds what one that folded the log from the start does, at every
   * cursor it reaches.
   */
  lemma JoinIsReplay(visits: seq<Visit>, states: seq<Service>, epoch: nat, most: seq<nat>, cutoff: nat, less: KeyOrder)
    requires StrictOrder(less) && visits != [] && VisitsTraced(epoch, visits, less)
    requires PagesRead(epoch, cutoff, less, None, visits) && cutoff <= visits[0].marks.tables.repo.lastSeq
    requires !visits[|visits| - 1].page.hasMore
    requires Visits(states, less) && states != [] && |most| == |states|
    requires TracedFrom(visits[|visits| - 1].lists, states[0], less)
    ensures var pulls := PullsOf(states, epoch, most);
            SameEntities(FoldLog(Hydrated(visits), Pulled(pulls, cutoff)),
                         FoldAt(Log(states[|states| - 1].tables.ops, epoch), CursorAfter(pulls, cutoff)))
  {
    hide FoldLog, FoldAt, Visits, Onward, Log, VisitsTraced, PagesRead, SameEntities, Sound, PartTrue, TracedFrom,
      Sorted, Hydrated;
    var fold := FoldAt(Log(visits[0].marks.tables.ops, epoch), cutoff);
    var pulls := PullsOf(states, epoch, most);
    SnapshotHeld(epoch, cutoff, less, visits);
    LogKeepsSame(Hydrated(visits), fold, Pulled(pulls, cutoff));
    VisitTraced(epoch, visits, |visits| - 1, less);
    TracedOnward(visits[|visits| - 1].lists, states[0], less);
    OnwardJoin(visits[0].marks.tables, visits[|visits| - 1].lists.tables, states[0].tables);
    PullReplays(states, epoch, most, cutoff, less, visits[0].marks.tables);
  }

  /** The pages of a whole snapshot leave the fold at the cutoff. */
  lemma SnapshotHeld(epoch: nat, cutoff: nat, less: KeyOrder, visits: seq<Visit>)
    requires StrictOrder(less) && visits != [] && VisitsTraced(epoch, visits, less)
    requires PagesRead(epoch, cutoff, less, None, visits) && cutoff <= visits[0].marks.tables.repo.lastSeq
    requires !visits[|visits| - 1].page.hasMore
    ensures SameEntities(Hydrated(visits), FoldAt(Log(visits[0].marks.tables.ops, epoch), cutoff))
  {
    hide FoldAt, VisitsTraced, PagesRead, Sorted, Hydrated, Log, Served, Flatten;
    var fold := FoldAt(Log(visits[0].marks.tables.ops, epoch), cutoff);
    SnapshotOverTrace(epoch, cutoff, less, visits);
    PagesHydrate(visits, fold);
    SortedLists(fold.Keys, less);
    assert forall key :: key in Flatten(Served(visits)) <==> key in fold;
  }

  /** Folding what is pulled onto the fold at the cutoff is folding the log. */
  lemma PullReplays(states: seq<Service>, epoch: nat, most: seq<nat>, cutoff: nat, less: KeyOrder, from: Tables)
    requires StrictOrder(less) && Visits(states, less) && states != [] && |most| == |states|
    requires Onward(from, states[0].tables) && cutoff <= from.repo.lastSeq
    ensures var pulls := PullsOf(states, epoch, most);
            FoldLog(FoldAt(Log(from.ops, epoch), cutoff), Pulled(pulls, cutoff))
            == FoldAt(Log(states[|states| - 1].tables.ops, epoch), CursorAfter(pulls, cutoff))
  {
    hide FoldLog, Visits, Onward, Log, Sound;
    var last := states[|states| - 1];
    OnwardHead(from, states[0].tables);
    PullOverTrace(states, epoch, most, cutoff, less);
    VisitSound(states, |states| - 1, less);
    OnwardJoin(from, states[0].tables, last.tables);
    FoldOnward(from, last.tables, epoch, cutoff);
    SoundLog(last, epoch);
    FoldAtFrom(Log(last.tables.ops, epoch), cutoff, CursorAfter(PullsOf(states, epoch, most), cutoff));
  }
}
