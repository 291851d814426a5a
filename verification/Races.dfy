/**
 * Runs of the service on which its own promises fail, beside the exact conditions proved elsewhere
 * (Service.StepKeepsIff, Cutover.CommitKeepsIff, FoldStore.ReadHoldsIff).
 */
module Races {
  import opened Types
  import opened FoldRule
  import opened FoldRun
  import opened Checkpoint
  import opened Listing
  import opened Pages
  import opened OpLog
  import opened Transactions
  import opened Invariant
  import opened Service
  import opened Traces
  import opened RoundTrip
  import opened Cutover

  /** A step the code takes from a reachable state, and that leaves the tables false. */
  ghost predicate Breaks(s: Service, step: Step, less: KeyOrder)
    requires StrictOrder(less)
  {
    Reachable(s, less) && Enabled(s, step, less) && TablesTrue(s.tables, less) && !TablesTrue(Next(s, step).tables, less)
  }

  lemma BreaksWhenDisorderly(s: Service, step: Step, less: KeyOrder)
    requires StrictOrder(less) && Reachable(s, less) && Enabled(s, step, less) && !Orderly(s, step, less)
    ensures Breaks(s, step, less)
  {
    hide Reachable, Enabled, Orderly, Next, TablesTrue, UnderWay;
    ReachableInv(s, less);
    StepKeepsIff(s, step, less);
  }

  lemma ReachStart(less: KeyOrder)
    requires StrictOrder(less)
    ensures Reachable(START, less)
  {
    assert Run(START, [], less) && Final(START, []) == START;
  }

  // ----- An empty repository, two restores of it about to begin, and two deletes ----------

  /** The ids given out: of a backup, of the undos two requests capture, and of the restores they begin. */
  datatype Ids = Ids(backup: string, undo: string, second: string, first: string, late: string)

  predicate Apart(ids: Ids) {
    ids.backup != ids.undo && ids.undo != ids.second && ids.second != ids.backup && ids.first != ids.late
  }

  const NO_ROWS := Backup(0, 0, 0, 0, map[])
  const FLOOR := Checkpoint(map[], map[0 := Mark(0, 0, map[])])

  function Asked(ids: Ids): Ticket {
    Ticket(0, 0, ids.backup, 0)
  }

  /** What a request that is about to capture its undo has read. */
  function Asking(ids: Ids): set<Begin> {
    {Opened(0, 0), Alone(0, 0), Sourced(Asked(ids)), Ready(Asked(ids))}
  }

  function Empty(backups: map<string, Backup>, begins: set<Begin>, deletes: set<string>, used: set<string>): Service {
    START.(tables := START.tables.(backups := backups), begins := begins, deletes := deletes, used := used)
  }

  lemma EmptyMark(s: Service)
    requires s.tables.ops == [] && s.tables.repo == START.tables.repo
    ensures Captured(s, NO_ROWS, false)
  {
    forall keys | KindsTrue(map[], keys) ensures |keys| == 0 {
      assert keys == {};
    }
    assert MarkOf(s.tables.ops, 0, 0, NOTHING_FOLDED) && Captures(NO_ROWS, NOTHING_FOLDED);
  }

  lemma Capture(s: Service, id: string, next: Service, less: KeyOrder)
    requires StrictOrder(less) && Reachable(s, less) && s.tables.ops == [] && s.tables.repo == START.tables.repo
    requires id !in s.used && next == Next(s, CaptureStep(id, NO_ROWS, false))
    ensures Reachable(next, less)
  {
    hide Reachable, Captured, BackupTrue, TablesTrue, UnderWay;
    EmptyMark(s);
    ReachHeld(s, CaptureStep(id, NO_ROWS, false), next, less);
  }

  lemma Undo(s: Service, ids: Ids, id: string, next: Service, less: KeyOrder)
    requires StrictOrder(less) && Reachable(s, less) && s.tables.ops == [] && s.tables.repo == START.tables.repo
    requires id !in s.used && Ready(Asked(ids)) in s.begins
    requires next == Next(s, UndoStep(Asked(ids), id, NO_ROWS, false))
    ensures Reachable(next, less)
  {
    hide Reachable, Captured, BackupTrue, TablesTrue, UnderWay;
    EmptyMark(s);
    ReachHeld(s, UndoStep(Asked(ids), id, NO_ROWS, false), next, less);
  }

  /** A step no clear tore, that is no begin and no delete, from a reachable state. */
  lemma ReachHeld(s: Service, step: Step, next: Service, less: KeyOrder)
    requires StrictOrder(less) && Reachable(s, less) && Enabled(s, step, less) && next == Next(s, step)
    requires !IsTorn(step) && !step.BeginStep? && !step.DeleteStep?
    ensures Reachable(next, less)
  {
    hide Reachable, Enabled, Orderly, Next, TablesTrue, UnderWay;
    ReachableInv(s, less);
    HeldIsOrderly(s, step, less);
    ReachStep(s, step, next, less);
  }

  /** One backup, and a request that has read all a begin reads. */
  lemma ReachReady(ids: Ids, less: KeyOrder)
    requires StrictOrder(less)
    ensures Reachable(Empty(map[ids.backup := NO_ROWS], Asking(ids), {}, {ids.backup}), less)
  {
    hide Reachable, Captured;
    ReachStart(less);
    var backups, used, ticket := map[ids.backup := NO_ROWS], {ids.backup}, Asked(ids);
    var a: set<Begin> := {Opened(0, 0)};
    var b, c := a + {Alone(0, 0)}, a + {Alone(0, 0)} + {Sourced(ticket)};
    Capture(START, ids.backup, Empty(backups, {}, {}, used), less);
    Ask(backups, used, {}, None, Opened(0, 0), less);
    assert {} + {Opened(0, 0)} == a;
    Ask(backups, used, a, Some(Opened(0, 0)), Alone(0, 0), less);
    Ask(backups, used, b, Some(Alone(0, 0)), Sourced(ticket), less);
    Ask(backups, used, c, Some(Sourced(ticket)), Ready(ticket), less);
    assert c + {Ready(ticket)} == Asking(ids);
  }

  lemma Ask(backups: map<string, Backup>, used: set<string>, begins: set<Begin>, was: Option<Begin>, next: Begin,
            less: KeyOrder)
    requires StrictOrder(less) && Reachable(Empty(backups, begins, {}, used), less)
    requires (was.Some? ==> was.value in begins) && Asks(Empty(backups, begins, {}, used).tables, was, next)
    ensures Reachable(Empty(backups, begins + {next}, {}, used), less)
  {
    hide Reachable, Asks, TablesTrue, UnderWay;
    ReachHeld(Empty(backups, begins, {}, used), AskStep(was, next), Empty(backups, begins + {next}, {}, used), less);
  }

  /** Two requests that read alike have each taken their undo, and two deletes have asked. */
  function Base(ids: Ids): Service {
    Empty(map[ids.backup := NO_ROWS, ids.undo := NO_ROWS, ids.second := NO_ROWS],
          Asking(ids) + {Undone(Asked(ids), ids.undo)} + {Undone(Asked(ids), ids.second)},
          {ids.backup, ids.undo}, {ids.backup, ids.undo, ids.second})
  }

  lemma ReachBase(ids: Ids, less: KeyOrder)
    requires StrictOrder(less) && Apart(ids)
    ensures Reachable(Base(ids), less)
  {
    hide Reachable, Asking;
    ReachReady(ids, less);
    var one := Empty(map[ids.backup := NO_ROWS], Asking(ids), {}, {ids.backup});
    var two := Empty(map[ids.backup := NO_ROWS, ids.undo := NO_ROWS], Asking(ids) + {Undone(Asked(ids), ids.undo)}, {},
                     {ids.backup, ids.undo});
    var three, four := Base(ids).(deletes := {}), Base(ids).(deletes := {ids.backup});
    AskingIsReady(ids);
    assert map[ids.backup := NO_ROWS][ids.undo := NO_ROWS] == two.tables.backups && {ids.backup} + {ids.undo} == two.used;
    Undo(one, ids, ids.undo, two, less);
    assert two.tables.backups[ids.second := NO_ROWS] == three.tables.backups && two.used + {ids.second} == three.used;
    Undo(two, ids, ids.second, three, less);
    assert three.deletes + {ids.backup} == four.deletes && four.deletes + {ids.undo} == Base(ids).deletes;
    ReachHeld(three, AskDeleteStep(ids.backup), four, less);
    ReachHeld(four, AskDeleteStep(ids.undo), Base(ids), less);
  }

  lemma AskingIsReady(ids: Ids)
    ensures Ready(Asked(ids)) in Asking(ids)
    ensures Undone(Asked(ids), ids.undo) !in Asking(ids) && Undone(Asked(ids), ids.second) !in Asking(ids)
  {
  }

  // ----- Begins that something disturbed --------------------------------------------------

  function Staging(ids: Ids): Restore {
    Restore(ids.backup, ids.undo, 0, 1, 0, 0, false, 0, None)
  }

  /** The first of the two requests has begun. */
  function Begun(ids: Ids): Service {
    Base(ids).(tables := Base(ids).tables.(folds := map[1 := FLOOR], restores := map[ids.first := Staging(ids)]),
               begins := Asking(ids) + {Undone(Asked(ids), ids.second)})
  }

  lemma NothingToTear(s: Service, epoch: nat)
    requires s.seen == {} && s.flights == {}
    ensures InEpoch(s.seen, epoch) == {} && InEpoch(s.flights, epoch) == {} && Tear(s, epoch) == s
  {
    assert s.torn.seen + {} == s.torn.seen && s.torn.flights + {} == s.torn.flights;
  }

  lemma ReachBegun(ids: Ids, less: KeyOrder)
    requires StrictOrder(less) && Apart(ids)
    ensures Reachable(Begun(ids), less)
  {
    hide Reachable, Asking;
    ReachBase(ids, less);
    AskingIsReady(ids);
    assert Base(ids).begins - {Undone(Asked(ids), ids.undo)} == Begun(ids).begins;
    NothingToTear(Base(ids), 1);
    ReachStep(Base(ids), BeginStep(ids.first, Asked(ids), ids.undo), Begun(ids), less);
  }

  /** The second begins too: two restores fill one epoch. */
  lemma TwoBegins(ids: Ids, less: KeyOrder)
    requires StrictOrder(less) && Apart(ids)
    ensures var step := BeginStep(ids.late, Asked(ids), ids.second);
            Breaks(Begun(ids), step, less) && !OneStaging(Next(Begun(ids), step).tables.restores)
  {
    hide Reachable, TablesTrue, Asking;
    ReachBegun(ids, less);
    var step := BeginStep(ids.late, Asked(ids), ids.second);
    var after := Next(Begun(ids), step).tables.restores;
    assert IsStaging(after, ids.first) && IsStaging(after, ids.late);
    assert ids.first in Begun(ids).tables.restores;
    BreaksWhenDisorderly(Begun(ids), step, less);
  }

  /** A commit of it has asked all it asks but whether an operation landed. */
  function Counted(ids: Ids): Service {
    Begun(ids).(commits := {ids.first}, found := {ids.first}, counted := {ids.first})
  }

  lemma ReachCounted(ids: Ids, less: KeyOrder)
    requires StrictOrder(less) && Apart(ids)
    ensures Reachable(Counted(ids), less)
  {
    hide Reachable, Asking, Enabled, Begun;
    ReachBegun(ids, less);
    BegunTables(ids);
    var a := Begun(ids).(commits := {ids.first});
    var b := a.(found := {ids.first});
    assert {} + {ids.first} == a.commits;
    MayAsk(ids, Begun(ids), less);
    MayAsk(ids, a, less);
    MayAsk(ids, b, less);
    ReachHeld(Begun(ids), OpenStep(ids.first), a, less);
    ReachHeld(a, FindStep(ids.first), b, less);
    ReachHeld(b, CountStep(ids.first), Counted(ids), less);
  }

  /** The first has committed as well. */
  function Moved(ids: Ids): Service {
    Counted(ids).(tables := Begun(ids).tables.(repo := Repo(1, 0, None), restores := map[ids.first := Staging(ids).(committed := true)]))
  }

  lemma ReachMoved(ids: Ids, less: KeyOrder)
    requires StrictOrder(less) && Apart(ids)
    ensures Reachable(Moved(ids), less)
  {
    hide Reachable, Asking, Enabled, Begun, Flip;
    ReachCounted(ids, less);
    var checked := Counted(ids).(checks := {ids.first});
    BegunTables(ids);
    assert {} + {ids.first} == checked.checks;
    MayCommit(ids, Counted(ids), less);
    ReachHeld(Counted(ids), CheckStep(ids.first), checked, less);
    MayFlip(ids, checked, less);
    FlipsTo(ids, checked, Moved(ids));
    ReachHeld(checked, FlipStep(ids.first), Moved(ids), less);
  }

  lemma BegunTables(ids: Ids)
    ensures Begun(ids).tables.repo == Repo(0, 0, None) && Begun(ids).tables.ops == []
    ensures Begun(ids).tables.restores == map[ids.first := Staging(ids)]
    ensures Begun(ids).tables.backups == map[ids.backup := NO_ROWS, ids.undo := NO_ROWS, ids.second := NO_ROWS]
    ensures ids.undo in Begun(ids).deletes && Begun(ids).checks == Begun(ids).counted == {}
    ensures Begun(ids).found == Begun(ids).commits == {}
  {
  }

  lemma MayCommit(ids: Ids, s: Service, less: KeyOrder)
    requires StrictOrder(less) && s.tables.restores == map[ids.first := Staging(ids)] && s.tables.repo.epoch == 0
    requires s.tables.ops == [] && ids.first in s.counted
    ensures Enabled(s, CheckStep(ids.first), less)
  {
    assert Log([], 0) == [];
  }

  lemma MayAsk(ids: Ids, s: Service, less: KeyOrder)
    requires StrictOrder(less) && s.tables.restores == map[ids.first := Staging(ids)] && s.tables.repo.epoch == 0
    requires s.tables.ops == []
    ensures Enabled(s, OpenStep(ids.first), less)
    ensures ids.first in s.commits ==> Enabled(s, FindStep(ids.first), less)
    ensures ids.first in s.found ==> Enabled(s, CountStep(ids.first), less)
  {
    assert Log([], 1) == [];
  }

  lemma MayFlip(ids: Ids, s: Service, less: KeyOrder)
    requires StrictOrder(less) && ids.first in s.tables.restores && ids.first in s.checks
    ensures Enabled(s, FlipStep(ids.first), less)
  {
  }

  lemma FlipsTo(ids: Ids, checked: Service, moved: Service)
    requires checked.tables.restores == map[ids.first := Staging(ids)] && checked.tables.repo.epoch == 0
    requires checked.checks == {ids.first}
    requires moved == checked.(tables := checked.tables.(repo := checked.tables.repo.(epoch := 1),
                                                         restores := map[ids.first := Staging(ids).(committed := true)]),
                               checks := {})
    ensures Next(checked, FlipStep(ids.first)) == moved
  {
  }

  /**
   * The second begins from an epoch the repository has left. It clears the fold of the epoch that is now
   * live, and from then on every request to begin finds a restore in flight that no commit can finish:
   * each finds the repository in another epoch.
   */
  lemma StaleBegin(ids: Ids, less: KeyOrder)
    requires StrictOrder(less) && Apart(ids)
    ensures var step := BeginStep(ids.late, Asked(ids), ids.second);
            Breaks(Moved(ids), step, less) && StandsInTheWay(Next(Moved(ids), step).tables, ids.late, less)
  {
    hide Reachable, TablesTrue, Asking, StandsInTheWay;
    ReachMoved(ids, less);
    var step := BeginStep(ids.late, Asked(ids), ids.second);
    StandsWhenStale(Next(Moved(ids), step).tables, ids.late, less);
    BreaksWhenDisorderly(Moved(ids), step, less);
  }

  /** A restore fills the live epoch: it has cleared its fold, no other can begin, and no commit of it can. */
  ghost predicate StandsInTheWay(t: Tables, rid: string, less: KeyOrder)
    requires StrictOrder(less)
  {
    && IsStaging(t.restores, rid) && t.restores[rid].into == t.repo.epoch && CheckpointOf(t.folds, t.repo.epoch) == FLOOR
    && (forall epoch, guard :: !Asks(t, Some(Opened(epoch, guard)), Alone(epoch, guard)))
    && forall s: Service | Onward(t, s.tables) && s.tables.restores == t.restores :: !Enabled(s, OpenStep(rid), less)
  }

  lemma StandsWhenStale(t: Tables, rid: string, less: KeyOrder)
    requires StrictOrder(less) && IsStaging(t.restores, rid) && t.restores[rid].into == t.repo.epoch
    requires t.restores[rid].from < t.repo.epoch && CheckpointOf(t.folds, t.repo.epoch) == FLOOR
    ensures StandsInTheWay(t, rid, less)
  {
    hide Grows;
  }

  /** A backup a begin has read, or just captured as its undo, is deleted before its batch. */
  lemma BeginWithout(ids: Ids, id: string, less: KeyOrder)
    requires StrictOrder(less) && Apart(ids) && id in {ids.backup, ids.undo}
    ensures var gone := Next(Base(ids), DeleteStep(id));
            Breaks(gone, BeginStep(ids.first, Asked(ids), ids.undo), less) && id !in gone.tables.backups
  {
    hide Reachable, TablesTrue, Asking;
    ReachBase(ids, less);
    ReachStep(Base(ids), DeleteStep(id), Next(Base(ids), DeleteStep(id)), less);
    BreaksWhenDisorderly(Next(Base(ids), DeleteStep(id)), BeginStep(ids.first, Asked(ids), ids.undo), less);
  }

  // ----- A delete that asked before a begin -----------------------------------------------

  /** Two deletes asked, and a restore then began: either takes from it what it reads, or its way back. */
  lemma DeleteAfterBegin(ids: Ids, less: KeyOrder)
    requires StrictOrder(less) && Apart(ids)
    ensures Breaks(Begun(ids), DeleteStep(ids.backup), less) && Breaks(Begun(ids), DeleteStep(ids.undo), less)
  {
    hide Reachable, TablesTrue, Breaks, Asking;
    ReachBegun(ids, less);
    var restores := Begun(ids).tables.restores;
    assert ids.first in restores && Uses(restores[ids.first], ids.undo) && Uses(restores[ids.first], ids.backup);
    BreaksWhenDisorderly(Begun(ids), DeleteStep(ids.undo), less);
    BreaksWhenDisorderly(Begun(ids), DeleteStep(ids.backup), less);
  }

  /** With its undo deleted the restore commits all the same. Nothing landed meanwhile, and there is no undo. */
  lemma UndoGone(ids: Ids, less: KeyOrder)
    requires StrictOrder(less) && Apart(ids)
    ensures var steps := [DeleteStep(ids.undo), CheckStep(ids.first), FlipStep(ids.first)];
            && Reachable(Counted(ids), less) && Trace(Counted(ids), steps, less)
            && var after := Final(Counted(ids), steps).tables;
               && after.repo.epoch == 1 && ids.first in after.restores && after.restores[ids.first].committed
               && after.ops == [] && ids.undo !in after.backups
  {
    hide Trace, Final, Reachable, Asking, Enabled, Begun, Flip;
    ReachCounted(ids, less);
    BegunTables(ids);
    var a := Next(Counted(ids), DeleteStep(ids.undo));
    var b := a.(checks := {ids.first});
    var c := b.(tables := a.tables.(repo := Repo(1, 0, None), restores := map[ids.first := Staging(ids).(committed := true)]),
                checks := {});
    MayDelete(Counted(ids), ids.undo, less);
    MayCommit(ids, a, less);
    MayFlip(ids, b, less);
    FlipsTo(ids, b, c);
    assert {} + {ids.first} == b.checks;
    TraceNone(c, less);
    TraceOne(b, FlipStep(ids.first), c, [], less);
    assert [FlipStep(ids.first)] + [] == [FlipStep(ids.first)];
    TraceOne(a, CheckStep(ids.first), b, [FlipStep(ids.first)], less);
    TraceOne(Counted(ids), DeleteStep(ids.undo), a, [CheckStep(ids.first)] + [FlipStep(ids.first)], less);
    assert [DeleteStep(ids.undo)] + ([CheckStep(ids.first)] + [FlipStep(ids.first)])
        == [DeleteStep(ids.undo), CheckStep(ids.first), FlipStep(ids.first)];
  }

  lemma MayDelete(s: Service, id: string, less: KeyOrder)
    requires StrictOrder(less) && id in s.deletes
    ensures Enabled(s, DeleteStep(id), less)
  {
  }

  lemma TraceNone(s: Service, less: KeyOrder)
    requires StrictOrder(less)
    ensures Trace(s, [], less) && Final(s, []) == s
  {
  }

  lemma TraceOne(s: Service, step: Step, next: Service, rest: seq<Step>, less: KeyOrder)
    requires StrictOrder(less) && Enabled(s, step, less) && next == Next(s, step) && Trace(next, rest, less)
    ensures Trace(s, [step] + rest, less) && Final(s, [step] + rest) == Final(next, rest)
  {
    hide Enabled, Next;
    assert ([step] + rest)[1..] == rest;
  }

  // ----- A push between commit's check and its flip ---------------------------------------

  /** A device's create of an entity that is no document revision. */
  predicate IsPush(draft: Draft) {
    draft.key.Plain? && draft.verb.Create? && draft.opId.Sent?
  }

  /** The first row of the log. */
  function First(draft: Draft, epoch: nat): Op {
    Row(draft, 1, epoch, 5)
  }

  function Pushed(ids: Ids, draft: Draft): Service {
    Counted(ids).(tables := Begun(ids).tables.(repo := Repo(0, 1, Some(VocabularyOf(draft.key))), ops := [First(draft, 0)]),
                  checks := {ids.first})
  }

  /** The commit has asked; the push lands; the flip goes through. */
  function Flipped(ids: Ids, draft: Draft): Service {
    Moved(ids).(tables := Moved(ids).tables.(repo := Repo(1, 1, Some(VocabularyOf(draft.key))), ops := [First(draft, 0)]))
  }

  lemma ReachFlipped(ids: Ids, draft: Draft, less: KeyOrder)
    requires StrictOrder(less) && Apart(ids) && IsPush(draft)
    ensures Reachable(Flipped(ids, draft), less)
  {
    hide Reachable, Asking, Begun, Landed, VocabularyOf, Enabled, Flip, Push;
    ReachCounted(ids, less);
    var checked := Counted(ids).(checks := {ids.first});
    BegunTables(ids);
    assert {} + {ids.first} == checked.checks;
    MayCommit(ids, Counted(ids), less);
    ReachHeld(Counted(ids), CheckStep(ids.first), checked, less);
    FirstLands(draft, checked.tables, 0);
    MayPush(checked, 0, draft, 5, less);
    ReachHeld(checked, PushStep(0, VocabularyOf(draft.key), [draft], 5), Pushed(ids, draft), less);
    MayFlip(ids, Pushed(ids, draft), less);
    FlipsTo(ids, Pushed(ids, draft), Flipped(ids, draft));
    ReachHeld(Pushed(ids, draft), FlipStep(ids.first), Flipped(ids, draft), less);
  }

  lemma MayPush(s: Service, epoch: nat, draft: Draft, now: int, less: KeyOrder)
    requires StrictOrder(less) && draft.opId.Sent?
    ensures Enabled(s, PushStep(epoch, VocabularyOf(draft.key), [draft], now), less)
  {
    hide VocabularyOf;
  }

  lemma FirstLands(draft: Draft, t: Tables, epoch: nat)
    requires t.repo == Repo(epoch, 0, None) && t.ops == []
    ensures Push(t, epoch, VocabularyOf(draft.key), [draft], 5)
         == t.(repo := Repo(epoch, 1, Some(VocabularyOf(draft.key))), ops := [First(draft, epoch)])
  {
    hide VocabularyOf;
    assert [draft][..0] == [];
    assert Landed(IdsOf([], epoch), epoch, 0, [], 5) == [];
    assert [] + [First(draft, epoch)] == [First(draft, epoch)];
  }

  /**
   * An acknowledged push can be lost: in a run from the empty service the push lands in the old epoch
   * after commit asked and before it flipped, and neither the restored epoch nor the undo holds it.
   */
  lemma PushLostAtFlip(ids: Ids, draft: Draft, less: KeyOrder)
    requires StrictOrder(less) && Apart(ids) && IsPush(draft)
    ensures Reachable(Flipped(ids, draft), less)
    ensures var t := Flipped(ids, draft).tables;
            && First(draft, 0) in t.ops && t.repo.epoch == 1 && draft.key in FoldLog(map[], Log(t.ops, 0))
            && ids.undo in t.backups && draft.key !in Kept(t.ops, t.backups[ids.undo]) && Log(t.ops, 1) == []
            && ids.first in t.restores && !UndoWhole(t.ops, t.restores[ids.first], t.backups[ids.undo])
  {
    hide Reachable, Asking, FoldLog, Log, FoldAt, UpTo;
    ReachFlipped(ids, draft, less);
    LostRow(First(draft, 0));
  }

  lemma LostRow(row: Op)
    requires row.key.Plain? && row.epoch == 0 && row.seqno == 1
    ensures row.key in FoldLog(map[], [row]) && Log([row], 0) == [row] && Log([row], 1) == []
    ensures UpTo([row], 0) == [] && FoldAt([row], 0) == map[]
  {
    hide Touch, FoldRow;
    OneFolds(row);
    UpToAppend([], [row], 0);
  }

  lemma OneFolds(row: Op)
    requires row.key.Plain? && row.seqno == 1
    ensures (forall epoch: nat :: Log([row], epoch) == if epoch == row.epoch then [row] else [])
    ensures UpTo([row], 1) == [row]
    ensures FoldLog(map[], [row]) == map[row.key := Cell(Touch(Fresh(1), row), 1)]
  {
    hide Touch, FoldRow;
    FoldsFresh(map[], [], row);
    assert [] + [row] == [row] && [row][..0] == [];
    forall epoch: nat ensures Log([row], epoch) == if epoch == row.epoch then [row] else [] {
      LogOfOne([row], row.epoch, epoch);
    }
  }

  /** One more operation naming an entity the fold does not hold. */
  lemma FoldsFresh(fold: Fold, log: seq<Op>, row: Op)
    requires row.key.Plain? && row.key !in FoldLog(fold, log)
    ensures FoldLog(fold, log + [row]) == FoldLog(fold, log)[row.key := Cell(Touch(Fresh(row.seqno), row), row.seqno)]
  {
    hide Touch;
    assert (log + [row])[..|log|] == log;
    AppliesFresh(FoldLog(fold, log), row);
  }

  // ----- The checkpoint cleared before a step's write -------------------------------------

  /** Two creates of one kind, of entities that are no document revisions. */
  predicate ArePushes(one: Draft, two: Draft) {
    IsPush(one) && IsPush(two) && one.key.kind == two.key.kind && one.key != two.key && one.opId != two.opId
  }

  /** The second row of the log. */
  function Second(draft: Draft, epoch: nat): Op {
    Row(draft, 2, epoch, 6)
  }

  function BothRows(one: Draft, two: Draft, epoch: nat): seq<Op> {
    [First(one, epoch), Second(two, epoch)]
  }

  function FirstMark(one: Draft): Mark
    requires IsPush(one)
  {
    Mark(1, 1, map[one.key.kind := 1])
  }

  /** The step that folds the first operation onto nothing. */
  function FirstFlight(one: Draft, epoch: nat): Flight
    requires IsPush(one)
  {
    Flight(0, map[(one.key, 1) := Touch(Fresh(1), First(one, epoch))], FirstMark(one))
  }

  /** The step that folds the second of two operations onto the mark at the first. */
  function SecondFlight(two: Draft, epoch: nat): Flight
    requires IsPush(two)
  {
    Flight(1, map[(two.key, 2) := Touch(Fresh(2), Second(two, epoch))], Mark(2, 2, map[two.key.kind := 2]))
  }

  lemma TwoFold(one: Draft, two: Draft, epoch: nat)
    requires ArePushes(one, two)
    ensures var log := BothRows(one, two, epoch);
            && Log(log, epoch) == log && IsLog(log) && UpTo(log, 2) == log && UpTo(log, 1) == [First(one, epoch)]
            && FoldAt(log, 1) == map[one.key := Cell(Touch(Fresh(1), First(one, epoch)), 1)]
            && FoldAt(log, 2) == map[one.key := Cell(Touch(Fresh(1), First(one, epoch)), 1),
                                     two.key := Cell(Touch(Fresh(2), Second(two, epoch)), 2)]
  {
    hide Touch, FoldRow, FoldLog, Log, UpTo;
    var a, b := First(one, epoch), Second(two, epoch);
    OneFolds(a);
    FoldsFresh(map[], [a], b);
    assert [a] + [b] == [a, b];
    UpToSplit([a], [b], 1);
    UpToWhole([a, b], 2);
    LogAppend([a], [b], epoch);
    LogOfOne([b], epoch, epoch);
  }

  lemma TwoKinds(one: Draft, two: Draft)
    requires ArePushes(one, two)
    ensures KindsTrue(map[one.key.kind := 2], {one.key, two.key}) && KindsTrue(map[one.key.kind := 1], {one.key})
  {
    assert OfKind({one.key}, one.key.kind) == {one.key};
    assert OfKind({one.key, two.key}, one.key.kind) == {one.key, two.key};
  }

  lemma FlightsAreTrue(one: Draft, two: Draft, epoch: nat)
    requires ArePushes(one, two)
    ensures FlightTrue(FirstFlight(one, epoch), [First(one, epoch)], 1)
    ensures FlightTrue(SecondFlight(two, epoch), BothRows(one, two, epoch), 2)
  {
    hide Touch, FoldLog, KindsTrue, UpTo;
    OneFolds(First(one, epoch));
    TwoFold(one, two, epoch);
    TwoKinds(one, two);
    assert FoldAt([First(one, epoch)], 1).Keys == {one.key} && FoldAt(BothRows(one, two, epoch), 2).Keys == {one.key, two.key};
  }

  /** Nothing has been pushed, and no request is reading. */
  predicate IsStill(s: Service) {
    s.tables.repo == Repo(s.tables.repo.epoch, 0, None) && s.tables.ops == [] && s.seen == {} && s.flights == {}
  }

  /** From there one operation is pushed and folded, and another pushed and its step computed. */
  function Folding(s: Service, one: Draft, two: Draft): Service
    requires ArePushes(one, two)
  {
    var t, epoch := s.tables, s.tables.repo.epoch;
    s.(tables := t.(repo := Repo(epoch, 2, Some(VocabularyOf(one.key))), ops := BothRows(one, two, epoch),
                    folds := t.folds[epoch := WriteStep(CheckpointOf(t.folds, epoch), FirstFlight(one, epoch))]),
       seen := {(epoch, 0), (epoch, 1)}, flights := {(epoch, SecondFlight(two, epoch))})
  }

  lemma ReachFolding(s: Service, one: Draft, two: Draft, less: KeyOrder)
    requires StrictOrder(less) && Reachable(s, less) && IsStill(s) && ArePushes(one, two)
    ensures Reachable(Folding(s, one, two), less)
  {
    hide Reachable, Landed, FoldAt, Touch, FlightTrue, VocabularyOf, FirstFlight, SecondFlight, WriteStep, Push;
    var t, epoch, first, vocabulary := s.tables, s.tables.repo.epoch, FirstFlight(one, s.tables.repo.epoch), VocabularyOf(one.key);
    var pushed := s.(tables := t.(repo := Repo(epoch, 1, Some(vocabulary)), ops := [First(one, epoch)]));
    FirstLands(one, t, epoch);
    MayPush(s, epoch, one, 5, less);
    ReachHeld(s, PushStep(epoch, vocabulary, [one], 5), pushed, less);
    var read := pushed.(seen := {(epoch, 0)});
    assert {} + {(epoch, 0)} == read.seen;
    ReachHeld(pushed, ReadStep(epoch, 0), read, less);
    var computed := read.(flights := {(epoch, first)});
    FlightsAreTrue(one, two, epoch);
    OneFolds(First(one, epoch));
    FlightEnds(one, two, epoch);
    assert {} + {(epoch, first)} == computed.flights;
    ReachHeld(read, FoldStep(epoch, first, false), computed, less);
    var folded := read.(tables := read.tables.(folds := t.folds[epoch := WriteStep(CheckpointOf(t.folds, epoch), first)]));
    assert computed.flights - {(epoch, first)} == {};
    ReachHeld(computed, LandStep(epoch, first, false), folded, less);
    ReachSecond(s, folded, one, two, less);
  }

  lemma FlightEnds(one: Draft, two: Draft, epoch: nat)
    requires ArePushes(one, two)
    ensures FirstFlight(one, epoch).from == 0 && FirstFlight(one, epoch).mark == FirstMark(one)
    ensures FirstMark(one).seqno == 1
    ensures SecondFlight(two, epoch).from == 1
  {
  }

  lemma ReachSecond(s: Service, folded: Service, one: Draft, two: Draft, less: KeyOrder)
    requires StrictOrder(less) && Reachable(folded, less) && IsStill(s) && ArePushes(one, two)
    requires var t, epoch := s.tables, s.tables.repo.epoch;
             folded == s.(tables := t.(repo := Repo(epoch, 1, Some(VocabularyOf(one.key))), ops := [First(one, epoch)],
                                       folds := t.folds[epoch := WriteStep(CheckpointOf(t.folds, epoch), FirstFlight(one, epoch))]),
                          seen := {(epoch, 0)})
    ensures Reachable(Folding(s, one, two), less)
  {
    hide Reachable, Landed, FoldAt, Touch, FlightTrue, VocabularyOf, FirstFlight, SecondFlight, Push;
    var t, epoch := folded.tables, s.tables.repo.epoch;
    var read := folded.(seen := {(epoch, 0), (epoch, 1)});
    FlightEnds(one, two, epoch);
    ReachHeld(folded, ReadStep(epoch, 1), read, less);
    var pushed := read.(tables := t.(repo := Repo(epoch, 2, Some(VocabularyOf(one.key))), ops := BothRows(one, two, epoch)));
    SecondLands(one, two, t, epoch);
    MayPush(read, epoch, two, 6, less);
    ReachHeld(read, PushStep(epoch, VocabularyOf(two.key), [two], 6), pushed, less);
    FlightsAreTrue(one, two, epoch);
    TwoFold(one, two, epoch);
    assert {} + {(epoch, SecondFlight(two, epoch))} == Folding(s, one, two).flights;
    ReachHeld(pushed, FoldStep(epoch, SecondFlight(two, epoch), false), Folding(s, one, two), less);
  }

  lemma SecondLands(one: Draft, two: Draft, t: Tables, epoch: nat)
    requires ArePushes(one, two) && t.repo == Repo(epoch, 1, Some(VocabularyOf(one.key)))
    requires t.ops == [First(one, epoch)]
    ensures Push(t, epoch, VocabularyOf(two.key), [two], 6)
         == t.(repo := Repo(epoch, 2, Some(VocabularyOf(one.key))), ops := BothRows(one, two, epoch))
  {
    assert VocabularyOf(two.key) == VocabularyOf(one.key);
    hide VocabularyOf;
    assert [two][..0] == [];
    assert Landed(IdsOf([First(one, epoch)], epoch), epoch, 1, [], 6) == [];
    assert two.opId !in IdsOf([First(one, epoch)], epoch);
    assert [First(one, epoch)] + [Second(two, epoch)] == BothRows(one, two, epoch);
  }

  /** A step lands whose checkpoint has been taken away: its mark is left without the version of an entity of the fold. */
  ghost predicate LandsBare(s: Service, step: Step, log: seq<Op>, key: Key, less: KeyOrder)
    requires StrictOrder(less) && step.LandStep?
  {
    && Traced(s, less) && Enabled(s, step, less)
    && PartTrue(Folds, s.tables) && !PartTrue(Folds, Next(s, step).tables)
    && var cp, at := CheckpointOf(Next(s, step).tables.folds, step.epoch), step.flight.mark.seqno;
       Readable(cp, at) && key in FoldAt(log, at) && key !in KeysAt(cp, at)
  }

  /** It is so in an epoch of which nothing is left but a mark that holds nothing. */
  lemma BareWhenTaken(s: Service, one: Draft, two: Draft, epoch: nat, less: KeyOrder)
    requires StrictOrder(less) && Traced(s, less) && ArePushes(one, two) && PartTrue(Folds, s.tables)
    requires s.tables.ops == BothRows(one, two, epoch) && s.tables.repo.lastSeq == 2
    requires (epoch, SecondFlight(two, epoch)) in s.torn.flights
    requires CheckpointOf(s.tables.folds, epoch).versions == map[]
    ensures LandsBare(s, LandStep(epoch, SecondFlight(two, epoch), true), BothRows(one, two, epoch), one.key, less)
  {
    hide Traced, Touch, FoldAt, CheckpointTrue, FlightTrue, LandsTrue, VocabularyOf, Log, FoldsTrue, Sound;
    var log, flight, cp := BothRows(one, two, epoch), SecondFlight(two, epoch), CheckpointOf(s.tables.folds, epoch);
    var step := LandStep(epoch, flight, true);
    TwoFold(one, two, epoch);
    FlightsAreTrue(one, two, epoch);
    EpochFold(s.tables.folds, s.tables.ops, 2, epoch);
    LandsIffHeld(cp, flight, log, 2);
    assert FoldAt(log, 2)[one.key].at == 1;
    TracedSound(s, less);
    StepPartIff(Folds, s, step, less);
  }

  /**
   * Clearing the checkpoint is not safe while a fold step is in flight: its write then leaves a mark at
   * which an entity of the fold has no version at all.
   */
  lemma ClearInFlight(one: Draft, two: Draft, less: KeyOrder)
    requires StrictOrder(less) && ArePushes(one, two)
    ensures Reachable(Folding(START, one, two), less)
    ensures LandsBare(Next(Folding(START, one, two), ClearStep), LandStep(0, SecondFlight(two, 0), true), BothRows(one, two, 0), one.key, less)
  {
    hide Reachable, Traced, LandsBare, SecondFlight, WriteStep, FirstFlight, Sound, FoldsTrue;
    ReachStart(less);
    ReachFolding(START, one, two, less);
    var s := Folding(START, one, two);
    TakenFrom(s, ClearStep, less);
    BareWhenTaken(Next(s, ClearStep), one, two, 0, less);
  }

  /** A step of a reachable state writes nothing of a checkpoint, but takes one away. */
  lemma TakenFrom(s: Service, step: Step, less: KeyOrder)
    requires StrictOrder(less) && Reachable(s, less) && Enabled(s, step, less) && (step.ClearStep? || step.BeginStep?)
    ensures Traced(Next(s, step), less) && PartTrue(Folds, Next(s, step).tables)
  {
    hide Reachable, Traced, Enabled, Sound, FoldsTrue, LogTrue, BackupsTrue, RestoresTrue, OneStaging, NothingAhead,
      UnderWay, Next;
    ReachableInv(s, less);
    ReachableTraced(s, less);
    TracedSound(s, less);
    TracedStep(s, step, less);
    StepPartIff(Folds, s, step, less);
  }

  /**
   * Nor is it safe for a begin to clear the epoch it fills: a stale one clears the fold of the live epoch
   * under the steps in flight there, and they go on.
   */
  lemma StaleBeginInFlight(ids: Ids, one: Draft, two: Draft, less: KeyOrder)
    requires StrictOrder(less) && Apart(ids) && ArePushes(one, two)
    ensures var s, begin := Folding(Moved(ids), one, two), BeginStep(ids.late, Asked(ids), ids.second);
            && Reachable(s, less) && Enabled(s, begin, less)
            && LandsBare(Next(s, begin), LandStep(1, SecondFlight(two, 1), true), BothRows(one, two, 1), one.key, less)
  {
    hide Reachable, Traced, LandsBare, SecondFlight, WriteStep, FirstFlight, Sound, FoldsTrue, Asking, VocabularyOf;
    ReachMoved(ids, less);
    ReachFolding(Moved(ids), one, two, less);
    var s, begin := Folding(Moved(ids), one, two), BeginStep(ids.late, Asked(ids), ids.second);
    TakenFrom(s, begin, less);
    assert (1, SecondFlight(two, 1)) in InEpoch(s.flights, 1);
    BareWhenTaken(Next(s, begin), one, two, 1, less);
  }

  // ----- The checkpoint cleared between two queries ---------------------------------------

  /**
   * A page whose mark was read before a clear, and its list after: it is empty and says nothing follows,
   * though the fold holds an entity. A device that takes its word stops there.
   */
  lemma ClearedPage(one: Draft, less: KeyOrder, room: Room, page: FoldPage)
    requires StrictOrder(less) && IsPush(one) && PageTrue(View(EMPTY, 1), None, less, room, page)
    ensures page.keys == [] && !page.hasMore && !PageTrue(FoldAt([First(one, 0)], 1), None, less, room, page)
    ensures !Covers(EMPTY.versions, FoldAt([First(one, 0)], 1))
  {
    hide Touch, FoldLog;
    OneFolds(First(one, 0));
    assert View(EMPTY, 1) == map[];
    NothingListed(less);
    OneListed(one.key, FoldAt([First(one, 0)], 1), less);
  }

  lemma NothingListed(less: KeyOrder)
    requires StrictOrder(less)
    ensures Rest(map[], None, less) == []
  {
    SortedLists({}, less);
    assert Beyond({}, None, less) == {};
  }

  lemma OneListed(key: Key, fold: Fold, less: KeyOrder)
    requires StrictOrder(less) && key in fold
    ensures Rest(fold, None, less) != []
  {
    SortedLists(Beyond(fold.Keys, None, less), less);
    assert key in Beyond(fold.Keys, None, less);
  }

  /** A step that read its mark before a clear, and what it folds onto after: the version it writes is not the fold's. */
  lemma ClearedLoads(one: Draft, edit: Op, run: RunResult)
    requires IsPush(one) && edit.key == one.key && edit.verb.Update? && edit.seqno == 2
    requires RunAnswer(map[], FirstMark(one), [edit], 2, run) && run.folded == 1
    ensures !FlightTrue(Flight(1, RowsOf(run.fold, run.changed), run.mark), [First(one, 0), edit], 2)
  {
    hide Touch, FoldRow, KindsTrue, UpTo;
    FoldsFresh(map[], [], edit);
    assert [] + [edit] == [edit] && [edit][..1] == [edit];
    assert FoldLog(map[], []) == map[];
    assert map[] + run.fold == run.fold;
    TouchCounts(Fresh(2), edit);
    EditCounts(First(one, 0), edit);
    var row := (one.key, 2);
    assert row in RowsOf(run.fold, run.changed);
    assert RowsOf(run.fold, run.changed)[row].version == 1;
  }

  lemma EditCounts(row: Op, edit: Op)
    requires row.key.Plain? && edit.key == row.key && edit.verb.Update? && row.seqno < edit.seqno <= 2
    ensures row.key in FoldAt([row, edit], 2) && FoldAt([row, edit], 2)[row.key].entity.version == 2
  {
    hide Touch, FoldRow;
    FoldsFresh(map[], [], row);
    assert [] + [row] == [row] && [row, edit][..1] == [row] && [row][..0] == [];
    EditFolds(FoldLog(map[], [row]), edit);
    UpToWhole([row, edit], 2);
    TouchCounts(Fresh(row.seqno), row);
    TouchCounts(Touch(Fresh(row.seqno), row), edit);
  }

  lemma TouchCounts(was: Entity, row: Op)
    ensures Touch(was, row).version == was.version + 1
  {
  }

  lemma EditFolds(fold: Fold, row: Op)
    requires row.verb.Update? && row.key in fold
    ensures FoldRow(fold, row) == fold[row.key := Cell(Touch(fold[row.key].entity, row), row.seqno)]
  {
    hide Touch;
  }
}
