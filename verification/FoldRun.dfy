/**
 * One step of the fold checkpoint (worker/src/fold-store.ts, `foldRun`): a run of operations folded
 * onto the fold at a base mark, loading only the entities the run names.
 */
module FoldRun {
  import opened Types
  import opened Placement
  import opened FoldRule
  import opened Overlay
  import opened Placer

  /** A step's end, with the fold's counts there. */
  datatype Mark = Mark(seqno: nat, opCount: nat, kinds: map<string, nat>)

  const NOTHING_FOLDED := Mark(0, 0, map[])

  /** What a run may cost: how many operations fit the work, and the placement reads and walk. */
  datatype Limits = Limits(take: nat, readMost: nat, walkMost: nat, mayBeEmpty: bool)

  const FOLD_STEP_READS := 4

  /** `fold` is the memory the run ended with: the entities it loaded or made, as it left them. */
  datatype RunResult = RunResult(fold: Fold, changed: map<Key, nat>, created: set<Key>, mark: Mark, folded: nat)

  /** How many entities of each kind a fold holds, tombstones included. */
  function OfKind(keys: set<Key>, kind: string): set<Key> {
    set key | key in keys && key.Kind() == kind
  }

  ghost predicate KindsTrue(kinds: map<string, nat>, keys: set<Key>) {
    && (forall key | key in keys :: key.Kind() in kinds)
    && (forall kind | kind in kinds :: kinds[kind] == |OfKind(keys, kind)| > 0)
  }

  /** The mark's counts are those of the fold of these operations. */
  ghost predicate MarkTrue(mark: Mark, fold: Fold, opCount: nat) {
    mark.opCount == opCount && KindsTrue(mark.kinds, fold.Keys)
  }

  function NamedKeys(row: Op): set<Key> {
    if row.verb.Create? && IsVocabulary(row.key.Kind()) then {row.key, OrderKey(row.key.Kind())} else {row.key}
  }

  /** The step holds every stored entity this operation names. */
  ghost predicate Loaded(base: Fold, fold: Fold, row: Op) {
    forall key | key in NamedKeys(row) && key in base :: key in fold
  }

  // ----- What a partial fold gets right ---------------------------------------------------

  /** Folding a settled operation needs only the entities it names: the rest is framed away. */
  lemma ApplyFrame(base: Fold, fold: Fold, row: Op)
    requires Loaded(base, fold, row)
    ensures Apply(base + fold, row) == base + Apply(fold, row)
    ensures ForgetsPlace(base + fold, row) == ForgetsPlace(fold, row)
  {
    hide Touch, ForgetPlace;
    ForgetFrame(base, fold, row);
    assert row.key in NamedKeys(row);
    var whole := base + fold;
    assert row.key in whole <==> row.key in fold;
    assert row.key in fold ==> whole[row.key] == fold[row.key];
  }

  lemma ForgetFrame(base: Fold, fold: Fold, row: Op)
    requires Loaded(base, fold, row)
    ensures ForgetsPlace(base + fold, row) == ForgetsPlace(fold, row)
    ensures ForgetsPlace(fold, row) ==> (base + fold)[OrderKey(row.key.Kind())] == fold[OrderKey(row.key.Kind())]
  {
    var order := OrderKey(row.key.Kind());
    assert row.verb.Create? && IsVocabulary(row.key.Kind()) ==> order in NamedKeys(row);
    assert row.key in NamedKeys(row);
  }

  /** The stub a step folds a create onto, for a tombstone it has read only the version of. */
  function ReviveStub(version: nat): Entity {
    Entity(version, Some(0), 0, false, map[], map[], None, None, None)
  }

  /** Nothing of a tombstone but its version survives a create over it. */
  lemma ReviveFrame(base: Fold, fold: Fold, row: Op)
    requires IsRevisionCreate(row) && row.key in base && row.key !in fold && base[row.key].entity.deletedAt.Some?
    ensures var stubbed := fold[row.key := Cell(ReviveStub(base[row.key].entity.version), 0)];
            Apply(base + fold, row) == base + Apply(stubbed, row)
  {
    var was := base[row.key].entity;
    assert Touch(was, row) == Touch(ReviveStub(was.version), row);
  }

  /** What one settled operation stamps. */
  lemma ApplyStamps(fold: Fold, row: Op)
    ensures var after := Apply(fold, row);
            && after.Keys == fold.Keys + {row.key}
            && after[row.key].at == row.seqno
            && (forall key | key in fold :: after[key] == fold[key] || after[key].at == row.seqno)
            && (forall key | key in after :: after[key].at == row.seqno && (key !in fold || after[key] != fold[key]) ==>
                  key == row.key || (ForgetsPlace(fold, row) && key == OrderKey(row.key.Kind())))
            && (ForgetsPlace(fold, row) ==> after[OrderKey(row.key.Kind())].at == row.seqno)
  {
  }

  /** The keys a run stamped, each with the seq that stamped it last. */
  function Stamped(fold: Fold, above: nat): map<Key, nat> {
    map key | key in fold && above < fold[key].at :: fold[key].at
  }

  // ----- Counting -------------------------------------------------------------------------

  /** The counts of a fold with one more entity. */
  function Counted(kinds: map<string, nat>, kind: string): map<string, nat> {
    kinds[kind := (if kind in kinds then kinds[kind] else 0) + 1]
  }

  lemma OfKindPlus(keys: set<Key>, key: Key, kind: string)
    requires key !in keys
    ensures OfKind(keys + {key}, kind) == if kind == key.Kind() then OfKind(keys, kind) + {key} else OfKind(keys, kind)
    ensures |OfKind(keys + {key}, kind)| == |OfKind(keys, kind)| + if kind == key.Kind() then 1 else 0
  {
  }

  lemma NoneOfKind(kinds: map<string, nat>, keys: set<Key>, kind: string)
    requires KindsTrue(kinds, keys) && kind !in kinds
    ensures OfKind(keys, kind) == {}
  {
  }

  lemma CountOne(kinds: map<string, nat>, keys: set<Key>, key: Key)
    requires KindsTrue(kinds, keys) && key !in keys
    ensures KindsTrue(Counted(kinds, key.Kind()), keys + {key})
  {
    var more, counts := keys + {key}, Counted(kinds, key.Kind());
    forall kind | kind in counts ensures counts[kind] == |OfKind(more, kind)| > 0 {
      OfKindPlus(keys, key, kind);
      if kind !in kinds {
        NoneOfKind(kinds, keys, kind);
      }
    }
  }

  method CountKinds(kinds: map<string, nat>, ghost before: set<Key>, created: set<Key>)
    returns (counts: map<string, nat>)
    requires created !! before
    ensures KindsTrue(kinds, before) ==> KindsTrue(counts, before + created)
  {
    counts := kinds;
    var todo := created;
    ghost var done: set<Key> := {};
    assert before + done == before;
    while todo != {}
      invariant done + todo == created && done !! todo
      invariant KindsTrue(kinds, before) ==> KindsTrue(counts, before + done)
    {
      var key: Key :| key in todo;
      if KindsTrue(kinds, before) {
        CountOne(counts, before + done, key);
      }
      assert before + (done + {key}) == before + done + {key};
      todo, done := todo - {key}, done + {key};
      counts := Counted(counts, key.Kind());
    }
    assert done == created;
  }

  // ----- D1's answers at the base mark ----------------------------------------------------

  /** `fold_versions_revisions`: the live keys at one number of a document. */
  method ReadSlot(base: Fold, doc: string, number: nat) returns (keys: seq<Key>)
    ensures SlotTrue(base, doc, number, keys)
  {
    keys := [];
    var todo := base.Keys;
    while todo != {}
      invariant todo <= base.Keys
      invariant forall key | key in keys :: LiveRev(base, key, doc) && key.number == number
      invariant forall key | key in base && LiveRev(base, key, doc) && key.number == number :: key in todo || key in keys
    {
      var key: Key :| key in todo;
      todo := todo - {key};
      if LiveRev(base, key, doc) && key.number == number {
        keys := keys + [key];
      }
    }
  }

  /** `fold_versions_revisions`: the first maximal runs of held numbers from a number upward. */
  method ReadRuns(base: Fold, doc: string, from: nat, limit: nat) returns (runs: seq<Run>)
    ensures IsRunsAnswer(base, doc, from, limit, runs)
  {
    var taken := Taken(base, doc);
    runs := [];
    var next := from;
    while |runs| < limit && AtLeast(taken, next) != {}
      invariant from <= next && |runs| <= limit
      invariant |runs| > 0 ==> next == runs[|runs| - 1].hi + 1 && next !in taken
      invariant forall run | run in runs :: from <= run.lo <= run.hi < next && forall n | run.lo <= n <= run.hi :: n in taken
      invariant forall n | from <= n < next && n in taken :: Covered(runs, n)
      decreases limit - |runs|
    {
      var lo := Min(AtLeast(taken, next));
      var hi := FirstFree(taken, lo) - 1;
      var longer := runs + [Run(lo, hi)];
      forall n | from <= n < hi + 1 && n in taken ensures Covered(longer, n) {
        if n < next {
          var run :| run in runs && run.lo <= n <= run.hi;
          assert run in longer;
        } else {
          assert n in AtLeast(taken, next);
          assert longer[|runs|] == Run(lo, hi);
        }
      }
      runs, next := longer, hi + 1;
    }
    forall n | limit > 0 && from <= n && (|runs| < limit || n <= runs[|runs| - 1].hi + 1) && Held(base, doc, n)
      ensures Covered(runs, n)
    {
      TakenIsHeld(base, doc, n);
      assert n in AtLeast(taken, next) || n < next;
    }
    forall run, n | run in runs && run.lo <= n <= run.hi ensures Held(base, doc, n) {
      TakenIsHeld(base, doc, n);
    }
  }

  /** `fold_versions_revision_bodies`: live revisions with a body key, lowest number first. */
  method ReadCandidates(digest: Json -> nat, base: Fold, request: Request, limit: nat) returns (rows: seq<Key>)
    ensures IsCandidatesAnswer(digest, base, request, limit, rows)
  {
    rows := [];
    var todo := set key | key in base && Matches(digest, base, request, key);
    while |rows| < limit && todo != {}
      invariant |rows| <= limit
      invariant todo <= base.Keys && forall key | key in todo :: Matches(digest, base, request, key)
      invariant forall key | key in rows :: key in base && Matches(digest, base, request, key)
      invariant forall key | key in base && Matches(digest, base, request, key) :: key in todo || key in rows
      decreases todo
    {
      var numbers := set key | key in todo :: key.number;
      var some: Key :| some in todo;
      assert some.number in numbers;
      var least := Min(numbers);
      var key: Key :| key in todo && key.number == least;
      todo := todo - {key};
      rows := rows + [key];
    }
  }

  /** There is then less left to ask for: of four reads, and of as many as the revision moves by and four. */
  twostate predicate LessToRead(placer: RevisionPlacer, row: Op)
    requires row.key.Rev?
    reads placer`candidates, placer`fold, placer`bodies, placer`slots, placer`runs, placer`versions
  {
    && (Exact(placer.digest, placer.base, row) && Within(placer.fold, placer.base) ==> placer.Unread(row) < old(placer.Unread(row)))
    && (Exact(placer.digest, placer.base, row) && KeepsLive(placer.fold, placer.base, row.key.doc) ==>
          placer.Unknown(row) < old(placer.Unknown(row)))
  }

  /** One read a placement asked for, at the step's base mark. */
  method ReadForPlacement(base: Fold, placer: RevisionPlacer, row: Op, need: Need)
    requires placer.Valid() && placer.base == base && !need.NeedWalk?
    requires Answerable(base, need) && row.key.Rev? && placer.NeedTrue(row, need)
    modifies placer`runs, placer`candidates, placer`bodies, placer`versions
    ensures placer.Valid() && LessToRead(placer, row)
  {
    hide RevisionPlacer.Valid, LessToRead, IsCandidatesAnswer, Exact;
    match need
    case NeedRuns(doc, from) => ReadRunsFor(base, placer, row, from);
    case NeedCandidates(request, limit) => ReadCandidatesFor(base, placer, row, request, limit);
    case NeedBody(key) => ReadBodyFor(base, placer, row, key);
    case NeedVersion(key) => ReadVersionFor(base, placer, row, key);
    case NeedWalk =>
  }

  method ReadCandidatesFor(base: Fold, placer: RevisionPlacer, row: Op, request: Request, limit: nat)
    requires placer.Valid() && placer.base == base && limit > 0
    requires row.key.Rev? && placer.NeedTrue(row, NeedCandidates(request, limit))
    modifies placer`candidates
    ensures placer.Valid() && LessToRead(placer, row)
  {
    hide RevisionPlacer.Told, RevisionPlacer.Destination, RevisionPlacer.Valid, Asked, Exact, Within, KeepsLive,
      FirstUnknown, IsCandidatesAnswer, RevisionPlacer.RunsRead, RevisionPlacer.Untold;
    assert Exact(placer.digest, base, row) && Within(placer.fold, base) ==> KeepsLive(placer.fold, base, row.key.doc) by {
      LoadedKeepsLive(placer.fold, base, row.key.doc);
    }
    var rows := ReadCandidates(placer.digest, base, request, limit);
    placer.AbsorbCandidates(request, limit, rows);
  }

  lemma LoadedKeepsLive(fold: Fold, base: Fold, doc: string)
    ensures Within(fold, base) ==> KeepsLive(fold, base, doc)
  {
  }

  method ReadBodyFor(base: Fold, placer: RevisionPlacer, row: Op, key: Key)
    requires placer.Valid() && placer.base == base && key in base
    requires row.key.Rev? && placer.NeedTrue(row, NeedBody(key))
    modifies placer`bodies
    ensures placer.Valid() && LessToRead(placer, row)
  {
    hide RevisionPlacer.Told, RevisionPlacer.Destination, RevisionPlacer.Valid, Asked, Exact, Within, KeepsLive,
      FirstUnknown, RevisionPlacer.RunsRead, RevisionPlacer.Untold;
    placer.AbsorbBody(key, base[key].entity.state);
  }

  method ReadVersionFor(base: Fold, placer: RevisionPlacer, row: Op, key: Key)
    requires placer.Valid() && placer.base == base
    requires row.key.Rev? && placer.NeedTrue(row, NeedVersion(key))
    modifies placer`versions
    ensures placer.Valid() && LessToRead(placer, row)
  {
    hide RevisionPlacer.Told, RevisionPlacer.Destination, RevisionPlacer.Valid, Asked, Exact, Within, KeepsLive,
      FirstUnknown, RevisionPlacer.RunsRead, RevisionPlacer.Untold;
    placer.AbsorbVersion(key, StoredAt(base, key));
  }

  lemma Fewer(few: set<nat>, all: set<nat>, n: nat)
    requires few <= all - {n}
    ensures n in all ==> |few| < |all|
  {
    Smaller(few, all - {n});
  }

  lemma {:induction false} Smaller(few: set<nat>, all: set<nat>)
    requires few <= all
    ensures |few| <= |all|
  {
    if few != {} {
      var n :| n in few;
      Smaller(few - {n}, all - {n});
    }
  }

  function StoredAt(base: Fold, key: Key): Option<Stored> {
    if key in base then Some(Stored(base[key].entity.version, base[key].entity.deletedAt.Some?)) else None
  }

  method ReadRunsFor(base: Fold, placer: RevisionPlacer, row: Op, from: nat)
    requires placer.Valid() && placer.base == base && row.key.Rev? && placer.NeedTrue(row, NeedRuns(row.key.doc, from))
    modifies placer`runs
    ensures placer.Valid() && LessToRead(placer, row)
  {
    hide RevisionPlacer.Destination, Asked, Exact, Within, KeepsLive, FirstUnknown, Taken, IsRunsAnswer,
      RevisionPlacer.ReadFrom,
      RevisionPlacer.Told, RevisionPlacer.RunsRead, RevisionPlacer.Untold, RevisionPlacer.Valid;
    ghost var untold := placer.Untold(row);
    if Exact(placer.digest, base, row) {
      if Within(placer.fold, base) {
        placer.NeedIsUnread(row, NeedRuns(row.key.doc, from));
      }
      if KeepsLive(placer.fold, base, row.key.doc) {
        placer.NeedIsUnknown(row, NeedRuns(row.key.doc, from));
      }
    }
    var runs := ReadRuns(base, row.key.doc, from, RUNS_READ);
    AbsorbRunsFor(base, placer, row, from, runs);
    Fewer(placer.Untold(row), untold, from);
  }

  method AbsorbRunsFor(base: Fold, placer: RevisionPlacer, row: Op, from: nat, runs: seq<Run>)
    requires placer.Valid() && placer.base == base && row.key.Rev? && placer.ReadFrom(row, from)
    requires IsRunsAnswer(base, row.key.doc, from, RUNS_READ, runs)
    modifies placer`runs
    ensures placer.Valid() && placer.RunsRead(row)
    ensures placer.Untold(row) <= old(placer.Untold(row)) - {from}
  {
    var doc := row.key.doc;
    ghost var fold, slots, list := placer.fold, placer.slots, if doc in placer.runs then placer.runs[doc] else [];
    forall n: nat | row.key.number <= n < from ensures Tells(fold, slots, list, doc, n) {
      assert placer.Told(doc, n);
    }
    placer.AbsorbRuns(doc, from, RUNS_READ, runs);
    var known := KnownOf(from, RUNS_READ, runs);
    forall n | row.key.number <= n < from ensures placer.Told(doc, n) {
      TellsMore(fold, slots, list, known, doc, n);
    }
    assert known in placer.runs[doc] && known.from == from;
  }

  // ----- Loading --------------------------------------------------------------------------

  /** The stored entities a prefix names. */
  function Load(base: Fold, prefix: seq<Op>): Fold {
    map key | key in base && exists i | 0 <= i < |prefix| :: key in NamedKeys(prefix[i]) :: base[key]
  }

  /** The live stored keys at the number of every revision the rows name. */
  method LoadSlots(base: Fold, rows: seq<Op>) returns (slots: map<(string, nat), seq<Key>>)
    ensures forall at | at in slots :: SlotTrue(base, at.0, at.1, slots[at])
    ensures forall i | 0 <= i < |rows| && rows[i].key.Rev? :: (rows[i].key.doc, rows[i].key.number) in slots
  {
    slots := map[];
    for i := 0 to |rows|
      invariant forall at | at in slots :: SlotTrue(base, at.0, at.1, slots[at])
      invariant forall j | 0 <= j < i && rows[j].key.Rev? :: (rows[j].key.doc, rows[j].key.number) in slots
    {
      var key := rows[i].key;
      if key.Rev? && (key.doc, key.number) !in slots {
        var keys := ReadSlot(base, key.doc, key.number);
        slots := slots[(key.doc, key.number) := keys];
      }
    }
  }

  /** Read ahead for a prefix's revision creates: runs from each document's lowest claim, and candidates. */
  method ReadAhead(base: Fold, placer: RevisionPlacer, prefix: seq<Op>)
    requires placer.Valid() && placer.base == base
    modifies placer`runs, placer`candidates
    ensures placer.Valid()
  {
    var runsFrom: map<string, nat> := map[];
    for i := 0 to |prefix|
      invariant placer.Valid()
    {
      var row := prefix[i];
      if IsRevisionCreate(row) {
        var doc, claimed := row.key.doc, row.key.number;
        runsFrom := runsFrom[doc := if doc in runsFrom && runsFrom[doc] < claimed then runsFrom[doc] else claimed];
        var request := RequestFor(placer.digest, doc, Floor(claimed, row.payload), row.payload);
        if request.Some? {
          var rows := ReadCandidates(placer.digest, base, request.value, CANDIDATES_READ);
          placer.AbsorbCandidates(request.value, CANDIDATES_READ, rows);
        }
      }
    }
    var docs := runsFrom.Keys;
    while docs != {}
      invariant placer.Valid() && docs <= runsFrom.Keys
    {
      var doc: string :| doc in docs;
      docs := docs - {doc};
      var runs := ReadRuns(base, doc, runsFrom[doc], RUNS_READ);
      placer.AbsorbRuns(doc, runsFrom[doc], RUNS_READ, runs);
    }
  }

  // ----- The run --------------------------------------------------------------------------

  /** What a placement may cost a step: a read for each number it moves by and four, and the walk again after each. */
  function ReadsFor(moves: nat): nat {
    moves + 4
  }

  function WalkFor(moves: nat): nat {
    Rounds(ReadsFor(moves), moves)
  }

  /** The walk, and again after each read. */
  function Rounds(times: nat, moves: nat): nat {
    moves + 1 + if times == 0 then 0 else Rounds(times - 1, moves)
  }

  /** How far from its claim the fold moves a revision's create. */
  function MovesBy(fold: Fold, row: Op): nat
    requires IsRevisionCreate(row)
  {
    FirstFree(Taken(fold, row.key.doc), row.key.number) - row.key.number
  }

  /** What placing every revision's create of a run may read, and walk. */
  function ReadsOf(base: Fold, rows: seq<Op>): nat {
    if rows == [] then 0
    else
      var n := |rows| - 1;
      ReadsOf(base, rows[..n]) + if IsRevisionCreate(rows[n]) then ReadsFor(MovesBy(FoldLog(base, rows[..n]), rows[n])) else 0
  }

  function WalksOf(base: Fold, rows: seq<Op>): nat {
    if rows == [] then 0
    else
      var n := |rows| - 1;
      WalksOf(base, rows[..n]) + if IsRevisionCreate(rows[n]) then WalkFor(MovesBy(FoldLog(base, rows[..n]), rows[n])) else 0
  }

  /** Nothing but creates names a revision of the document. */
  predicate OnlyCreated(rows: seq<Op>, doc: string) {
    forall row | row in rows :: row.key.Rev? && row.key.doc == doc ==> row.verb.Create?
  }

  /**
   * A run that fits a step: no more operations than it takes, and no more reads and walk than it allows
   * for placing their revisions, none of which is of a document they otherwise write or is keyed as a text
   * its document already holds.
   */
  ghost predicate RunFits(digest: Json -> nat, base: Fold, rows: seq<Op>, limits: Limits) {
    && |rows| <= limits.take && ReadsOf(base, rows) <= limits.readMost && WalksOf(base, rows) <= limits.walkMost
    && forall row | row in rows && IsRevisionCreate(row) :: Exact(digest, base, row) && OnlyCreated(rows, row.key.doc)
  }

  /** A run without a revision's create needs only be short enough. */
  lemma {:induction false} NoCreateFits(digest: Json -> nat, base: Fold, rows: seq<Op>, limits: Limits)
    requires |rows| <= limits.take && forall row | row in rows :: !IsRevisionCreate(row)
    ensures RunFits(digest, base, rows, limits)
  {
    NoCreateCosts(base, rows);
  }

  lemma {:induction false} NoCreateCosts(base: Fold, rows: seq<Op>)
    requires forall row | row in rows :: !IsRevisionCreate(row)
    ensures ReadsOf(base, rows) == 0 && WalksOf(base, rows) == 0
  {
    if rows != [] {
      var n := |rows| - 1;
      assert rows[n] in rows && forall row | row in rows[..n] :: row in rows;
      NoCreateCosts(base, rows[..n]);
    }
  }

  lemma {:induction false} CostsGrow(base: Fold, rows: seq<Op>, n: nat)
    requires n <= |rows|
    ensures ReadsOf(base, rows[..n]) <= ReadsOf(base, rows) && WalksOf(base, rows[..n]) <= WalksOf(base, rows)
    decreases |rows|
  {
    if n < |rows| {
      CostsGrow(base, rows[..|rows| - 1], n);
      assert rows[..|rows| - 1][..n] == rows[..n];
    } else {
      assert rows[..n] == rows;
    }
  }

  /** What is left of a step's reads and walk is enough to place a revision that moves so far. */
  predicate Fits(moves: nat, limits: Limits, readSoFar: nat, walked: nat, walkLimit: Option<nat>) {
    readSoFar + ReadsFor(moves) <= limits.readMost && (walkLimit.Some? ==> walked + WalkFor(moves) <= walkLimit.value)
  }

  lemma {:induction false} FewerRounds(fewer: nat, more: nat, moves: nat)
    ensures fewer <= more ==> Rounds(fewer, moves) <= Rounds(more, moves)
    ensures fewer < more ==> Rounds(fewer, moves) + moves + 1 <= Rounds(more, moves)
    ensures Rounds(fewer, moves) >= moves + 1
  {
    if fewer < more {
      FewerRounds(fewer, more - 1, moves);
    }
  }

  /** One try at placing, which reads nothing. */
  method TryPlace(base: Fold, placer: RevisionPlacer, row: Op) returns (answer: Answer)
    requires placer.Valid() && placer.base == base && IsRevisionCreate(row)
    requires row.key in base ==> row.key in placer.fold
    modifies placer`walked, placer`overlays
    ensures placer.Valid() && placer.walked <= old(placer.walked) + placer.Moves(row) + 1
    ensures !answer.Needs? ==> PlacedTrue(base, placer.fold, row, answer)
    ensures answer.Needs? ==> Answerable(base, answer.need) && placer.NeedTrue(row, answer.need)
    ensures answer.Needs? && answer.need.NeedWalk? ==> placer.walkLimit.Some? && placer.walked > placer.walkLimit.value
    ensures placer.Unread(row) == old(placer.Unread(row)) && placer.Unknown(row) == old(placer.Unknown(row))
    ensures placer.Moves(row) == old(placer.Moves(row))
  {
    hide RevisionPlacer.Unread, RevisionPlacer.Unknown, RevisionPlacer.NeedTrue, RevisionPlacer.Valid, RevisionPlacer.Moves,
      Settle, Answerable;
    answer := placer.Place(row);
  }

  /** A read that leaves a walk less to go. */
  method ReadNext(base: Fold, placer: RevisionPlacer, row: Op, need: Need, ghost moves: nat)
    requires placer.Valid() && placer.base == base && !need.NeedWalk?
    requires Answerable(base, need) && row.key.Rev? && placer.NeedTrue(row, need)
    modifies placer`runs, placer`candidates, placer`bodies, placer`versions
    ensures placer.Valid() && placer.Moves(row) == old(placer.Moves(row))
    ensures Exact(placer.digest, base, row) && Within(placer.fold, base) ==> placer.Unread(row) < old(placer.Unread(row))
    ensures Exact(placer.digest, base, row) && KeepsLive(placer.fold, base, row.key.doc) ==>
      && placer.Unknown(row) < old(placer.Unknown(row))
      && Rounds(placer.Unknown(row), moves) + moves + 1 <= Rounds(old(placer.Unknown(row)), moves)
  {
    hide RevisionPlacer.Unread, RevisionPlacer.Unknown, RevisionPlacer.NeedTrue, RevisionPlacer.Valid, Exact, Within, KeepsLive,
      Rounds, Taken, FirstFree;
    ghost var unknown := placer.Unknown(row);
    ReadForPlacement(base, placer, row, need);
    FewerRounds(placer.Unknown(row), unknown, moves);
  }

  /**
   * Place one revision create, reading what its placement needs. None ends the run before it:
   * the placement needs more than the run may read. It is placed when what is left of the reads and the
   * walk is enough for how far it moves, and the first of a step that must fold is placed within four reads.
   */
  method PlaceReading(base: Fold, placer: RevisionPlacer, row: Op, must: bool, limits: Limits, readSoFar: nat)
    returns (answer: Option<Answer>, readsNow: nat)
    requires placer.Valid() && placer.base == base && IsRevisionCreate(row)
    requires row.key in base ==> row.key in placer.fold
    modifies placer`walked, placer`walkLimit, placer`overlays, placer`runs, placer`candidates, placer`bodies, placer`versions
    ensures placer.Valid()
    ensures answer.Some? ==> !answer.value.Needs? && PlacedTrue(base, placer.fold, row, answer.value)
    ensures must && readSoFar == 0 && Exact(placer.digest, base, row) && Within(placer.fold, base) ==> answer.Some?
    ensures placer.walkLimit in {old(placer.walkLimit), None}
    ensures Exact(placer.digest, base, row) && KeepsLive(placer.fold, base, row.key.doc)
            && Fits(placer.Moves(row), limits, readSoFar, old(placer.walked), old(placer.walkLimit)) ==>
              && answer.Some? && readsNow <= readSoFar + ReadsFor(placer.Moves(row))
              && placer.walked <= old(placer.walked) + WalkFor(placer.Moves(row))
  {
    hide RevisionPlacer.Unread, RevisionPlacer.Unknown, RevisionPlacer.Moves, RevisionPlacer.NeedTrue,
      RevisionPlacer.Valid, Exact,
      Within, KeepsLive, Settle, PlacedAt, Rounds, Again, Taken, FirstFree, LessToRead, PlacedTrue, Answerable;
    var most := if must && limits.readMost < FOLD_STEP_READS then FOLD_STEP_READS else limits.readMost;
    readsNow := readSoFar;
    ghost var mustPlace := must && readSoFar == 0 && Exact(placer.digest, base, row) && Within(placer.fold, base);
    ghost var moves, walk := placer.Moves(row), placer.walked + WalkFor(placer.Moves(row));
    ghost var fits := Exact(placer.digest, base, row) && KeepsLive(placer.fold, base, row.key.doc)
                      && Fits(moves, limits, readSoFar, placer.walked, placer.walkLimit);
    placer.UnknownBound(row);
    FewerRounds(placer.Unknown(row), ReadsFor(moves), moves);
    while true
      invariant placer.Valid() && placer.walkLimit in {old(placer.walkLimit), None}
      invariant mustPlace ==> placer.Unread(row) + readsNow <= FOLD_STEP_READS
      invariant placer.Moves(row) == moves && readsNow >= readSoFar
      invariant fits ==> placer.Unknown(row) + readsNow <= readSoFar + ReadsFor(moves)
      invariant fits ==> placer.walked + Rounds(placer.Unknown(row), moves) <= walk
      decreases most - readsNow, if placer.walkLimit.Some? then 1 else 0
    {
      FewerRounds(placer.Unknown(row), placer.Unknown(row), moves);
      var placed := TryPlace(base, placer, row);
      if !placed.Needs? {
        return Some(placed), readsNow;
      }
      if placed.need.NeedWalk? {
        if !must {
          return None, readsNow;
        }
        placer.WalkOn();
      } else {
        if mustPlace {
          placer.NeedIsUnread(row, placed.need);
        }
        if fits {
          placer.NeedIsUnknown(row, placed.need);
        }
        if readsNow >= most {
          return None, readsNow;
        }
        readsNow := readsNow + 1;
        ReadNext(base, placer, row, placed.need, moves);
      }
    }
  }

  /** The answer is the literal rule's over the whole fold. */
  ghost predicate PlacedTrue(base: Fold, fold: Fold, row: Op, answer: Answer) {
    match answer
    case AlreadyHeld => Settle(base + fold, row) == None
    case Placed(placed, revive) =>
      && Settle(base + fold, row) == Some(placed)
      && (revive.Some? <==> placed.key in base && placed.key !in fold)
      && (revive.Some? ==> base[placed.key].entity.deletedAt.Some? && base[placed.key].entity.version == revive.value)
    case Needs(_) => false
  }

  /** Memory, with the tombstone a placed create revives stubbed in. */
  function Revived(fold: Fold, answer: Answer): Fold {
    match answer
    case Placed(row, Some(version)) => fold[row.key := Cell(ReviveStub(version), 0)]
    case _ => fold
  }

  /** Folding a placed operation into memory is folding it into the whole fold. */
  lemma PlacedFrame(base: Fold, fold: Fold, row: Op, answer: Answer)
    requires answer.Placed? && PlacedTrue(base, fold, row, answer) && Loaded(base, fold, row)
    ensures FoldRow(base + fold, row) == base + Apply(Revived(fold, answer), answer.row)
    ensures ForgetsPlace(base + fold, answer.row) == ForgetsPlace(Revived(fold, answer), answer.row)
  {
    if answer.revive.Some? {
      ReviveFrame(base, fold, answer.row);
    } else {
      ApplyFrame(base, fold, answer.row);
    }
  }

  /** Memory stays what the placement reads it as. */
  lemma MemoryKept(base: Fold, fold: Fold, slots: map<(string, nat), seq<Key>>, row: Op, answer: Answer)
    requires answer.Placed? && PlacedTrue(base, fold, row, answer) && MemoryTrue(base, fold, slots)
    requires row.key.Rev? ==> (row.key.doc, row.key.number) in slots
    ensures MemoryTrue(base, Apply(Revived(fold, answer), answer.row), slots)
  {
    var placed := answer.row;
    var after := Apply(Revived(fold, answer), placed);
    if placed.key.Rev? && (placed.key.doc, placed.key.number) !in slots {
      SettleTakesLeastFree(base + fold, row);
      var doc := placed.key.doc;
      assert !LiveRev(base + fold, placed.key, doc);
    }
    forall key | key in after && key.Rev? && (key.doc, key.number) !in slots
      ensures after[key].entity.deletedAt.None? && !LiveRev(base, key, key.doc)
    {
      if key != placed.key {
        assert key in fold && after[key] == fold[key];
      }
    }
  }

  /** What the loop of a run knows after folding `done`. */
  ghost predicate RunTrue(base: Fold, above: nat, done: seq<Op>, fold: Fold, changed: map<Key, nat>,
                          existed: set<Key>) {
    && base + fold == FoldLog(base, done)
    && changed == Stamped(FoldLog(base, done), above)
    && changed.Keys <= fold.Keys
    && fold.Keys * base.Keys <= existed <= base.Keys
  }

  /** Before its first operation, a run holds what it loaded. */
  lemma RunStarts(base: Fold, above: nat, loaded: Fold)
    requires StampedBy(base, above) && loaded.Keys <= base.Keys && base + loaded == base
    ensures RunTrue(base, above, [], loaded, map[], loaded.Keys)
  {
  }

  /** One more operation, placed and folded. */
  lemma RunStep(base: Fold, above: nat, done: seq<Op>, row: Op, fold: Fold, changed: map<Key, nat>, existed: set<Key>,
                answer: Answer)
    requires RunTrue(base, above, done, fold, changed, existed)
    requires StampedBy(base, above) && above < row.seqno && Loaded(base, fold, row)
    requires answer.Placed? && PlacedTrue(base, fold, row, answer)
    ensures var loaded := Revived(fold, answer);
            RunTrue(base, above, done + [row], Apply(loaded, answer.row), ChangedBy(loaded, answer.row, changed),
              if answer.revive.Some? then existed + {answer.row.key} else existed)
  {
    var loaded := Revived(fold, answer);
    PlacedFrame(base, fold, row, answer);
    assert (done + [row])[..|done|] == done;
    assert FoldLog(base, done + [row]) == Apply(base + fold, answer.row);
    ChangedStep(base + fold, answer.row, above, changed);
    ApplyStamps(loaded, answer.row);
  }

  /** What a run has stamped, after one more operation. */
  function ChangedBy(fold: Fold, row: Op, changed: map<Key, nat>): map<Key, nat> {
    (if ForgetsPlace(fold, row) then changed[OrderKey(row.key.Kind()) := row.seqno] else changed)[row.key := row.seqno]
  }

  lemma ChangedStep(fold: Fold, row: Op, above: nat, changed: map<Key, nat>)
    requires changed == Stamped(fold, above) && above < row.seqno
    ensures Stamped(Apply(fold, row), above) == ChangedBy(fold, row, changed)
  {
    hide Touch, ForgetPlace;
    var after := Apply(fold, row);
    var was := if row.key in fold then fold[row.key].entity else Fresh(row.seqno);
    var own := Cell(Touch(was, row), row.seqno);
    if ForgetsPlace(fold, row) {
      var order := OrderKey(row.key.kind);
      assert after == fold[row.key := own][order := Cell(ForgetPlace(fold[order].entity, row.key.id), row.seqno)];
    } else {
      assert after == fold[row.key := own];
    }
  }

  lemma RunSkip(base: Fold, above: nat, done: seq<Op>, row: Op, fold: Fold, changed: map<Key, nat>, existed: set<Key>)
    requires RunTrue(base, above, done, fold, changed, existed)
    requires Settle(base + fold, row) == None
    ensures RunTrue(base, above, done + [row], fold, changed, existed)
  {
    assert (done + [row])[..|done|] == done;
  }

  /**
   * What a run answers: what it holds at the end, over the base, is the single-pass fold of the
   * operations it folded; what it reports as changed is exactly what they stamped, and as created what
   * the base lacked; and its mark, at the last of them or at `end` once none is left, counts that fold,
   * if the mark it began at counted the base.
   */
  ghost predicate RunAnswer(base: Fold, mark: Mark, rows: seq<Op>, end: nat, result: RunResult) {
    && result.folded <= |rows|
    && var whole := FoldLog(base, rows[..result.folded]);
    && base + result.fold == whole
    && result.changed == Stamped(whole, mark.seqno)
    && result.changed.Keys <= result.fold.Keys
    && result.created == result.changed.Keys - base.Keys
    && result.mark.seqno ==
         (if result.folded == |rows| then end else if result.folded == 0 then mark.seqno else rows[result.folded - 1].seqno)
    && (KindsTrue(mark.kinds, base.Keys) ==> MarkTrue(result.mark, whole, mark.opCount + result.folded))
  }

  lemma NothingRun(base: Fold, mark: Mark, rows: seq<Op>, end: nat)
    requires StampedBy(base, mark.seqno)
    ensures RunAnswer(base, mark, rows, end,
              RunResult(map[], map[], {}, if rows == [] then mark.(seqno := end) else mark, 0))
  {
    assert base + map[] == base;
  }

  /**
   * Fold as many of `rows` onto the fold at `mark` as fit, holding only the entities they name.
   */
  method FoldRows(digest: Json -> nat, base: Fold, mark: Mark, rows: seq<Op>, end: nat, limits: Limits)
    returns (result: RunResult)
    requires StampedBy(base, mark.seqno)
    requires Increasing(rows) && AllAbove(rows, mark.seqno) && AllAtMost(rows, end)
    ensures RunAnswer(base, mark, rows, end, result)
    ensures rows != [] && Exact(digest, base, rows[0]) && !limits.mayBeEmpty ==> result.folded > 0
    ensures RunFits(digest, base, rows, limits) ==> result.folded == |rows|
  {
    hide FoldLog, Loaded, RunTrue, Exact, Within, Load, ReadsOf, WalksOf, OnlyCreated, RunAnswer;
    NothingRun(base, mark, rows, end);
    if rows == [] {
      return RunResult(map[], map[], {}, mark.(seqno := end), 0);
    }
    var take := if limits.take > |rows| then |rows| else limits.take;
    if take == 0 && !limits.mayBeEmpty {
      take := 1;
    }
    if take == 0 {
      return RunResult(map[], map[], {}, mark, 0);
    }
    var prefix := rows[..take];
    assert take == |rows| ==> prefix == rows;
    var placer := LoadPrefix(digest, base, rows, prefix, limits);
    var folded, changed, existed := FoldPrefix(base, placer, mark.seqno, prefix, limits);
    assert prefix[..folded] == rows[..folded];
    FitsTaken(digest, base, rows, limits);
    if folded == 0 {
      return RunResult(map[], map[], {}, mark, 0);
    }
    result := EndRun(base, mark, rows, end, placer.fold, changed, existed, folded);
  }

  lemma FitsTaken(digest: Json -> nat, base: Fold, rows: seq<Op>, limits: Limits)
    ensures RunFits(digest, base, rows, limits) ==> |rows| <= limits.take
  {
  }

  /** What a step holds before it folds: the stored entities its prefix names, and what its placements read ahead. */
  method LoadPrefix(digest: Json -> nat, base: Fold, rows: seq<Op>, prefix: seq<Op>, limits: Limits)
    returns (placer: RevisionPlacer)
    requires prefix <= rows
    ensures fresh(placer) && placer.Valid() && placer.base == base && placer.digest == digest
    ensures placer.fold == Load(base, prefix) && placer.walked == 0 && placer.walkLimit == Some(limits.walkMost)
    ensures base + placer.fold == base && Within(placer.fold, base)
    ensures forall i | 0 <= i < |prefix| :: Loaded(base, placer.fold, prefix[i])
    ensures forall i | 0 <= i < |prefix| && prefix[i].key.Rev? :: (prefix[i].key.doc, prefix[i].key.number) in placer.slots
  {
    hide MemoryTrue, SlotTrue, Loaded;
    var slots := LoadSlots(base, rows);
    var loaded := Load(base, prefix);
    LoadedIsMemory(base, rows, prefix, slots);
    placer := new RevisionPlacer(base, digest, loaded, slots, Some(limits.walkMost));
    ReadAhead(base, placer, prefix);
    assert base + loaded == base;
  }

  /** Fold a prefix an operation at a time, until it is done or a placement needs more than it may read. */
  method FoldPrefix(base: Fold, placer: RevisionPlacer, ghost above: nat, prefix: seq<Op>, limits: Limits)
    returns (folded: nat, changed: map<Key, nat>, existed: set<Key>)
    requires placer.Valid() && placer.base == base && placer.fold.Keys <= base.Keys && base + placer.fold == base
    requires StampedBy(base, above) && AllAbove(prefix, above)
    requires forall i | 0 <= i < |prefix| :: Loaded(base, placer.fold, prefix[i])
    requires forall i | 0 <= i < |prefix| && prefix[i].key.Rev? :: (prefix[i].key.doc, prefix[i].key.number) in placer.slots
    modifies placer
    ensures folded <= |prefix|
    ensures RunTrue(base, above, prefix[..folded], placer.fold, changed, existed)
    ensures prefix != [] && !limits.mayBeEmpty && Exact(placer.digest, base, prefix[0]) && Within(old(placer.fold), base) ==> folded > 0
    ensures RunFits(placer.digest, base, prefix, limits) && Within(old(placer.fold), base) && old(placer.walked) == 0
            && old(placer.walkLimit) == Some(limits.walkMost)
            ==> folded == |prefix|
  {
    hide FoldLog, RunTrue, Exact, Within, KeepsLive, ReadsOf, WalksOf, OnlyCreated, ReadsFor, WalkFor, MovesBy;
    ghost var fits := RunFits(placer.digest, base, prefix, limits) && Within(placer.fold, base) && placer.walked == 0
                      && placer.walkLimit == Some(limits.walkMost);
    CostsStart(base, prefix);
    AllKeepLive(placer.fold, base);
    RunStarts(base, above, placer.fold);
    existed := placer.fold.Keys;
    changed := map[];
    var readSoFar: nat := 0;
    folded := 0;
    ghost var loaded, done: seq<Op> := placer.fold.Keys, [];
    while folded < |prefix|
      invariant 0 <= folded <= |prefix| && done == prefix[..folded]
      invariant placer.Valid() && placer.slots == old(placer.slots)
      invariant RunTrue(base, above, done, placer.fold, changed, existed)
      invariant loaded <= placer.fold.Keys
      invariant folded == 0 ==> placer.fold == old(placer.fold) && readSoFar == 0
      invariant placer.walkLimit in {old(placer.walkLimit), None}
      invariant fits ==> readSoFar <= ReadsOf(base, done) && placer.walked <= WalksOf(base, done)
      invariant fits ==> forall doc | OnlyCreated(prefix, doc) :: KeepsLive(placer.fold, base, doc)
    {
      if fits {
        NextFits(placer.digest, base, prefix, folded, limits, readSoFar, placer.walked, placer.walkLimit);
        RunWhole(base, above, done, placer.fold, changed, existed);
      }
      var more;
      more, changed, existed, readSoFar := FoldOne(base, placer, above, done, prefix[folded],
        folded == 0 && !limits.mayBeEmpty, limits, changed, existed, readSoFar);
      if !more {
        break;
      }
      done := done + [prefix[folded]];
      folded := folded + 1;
    }
  }

  lemma CostsStart(base: Fold, prefix: seq<Op>)
    ensures ReadsOf(base, prefix[..0]) == 0 && WalksOf(base, prefix[..0]) == 0 && prefix[..0] == []
  {
  }

  lemma AllKeepLive(fold: Fold, base: Fold)
    ensures Within(fold, base) ==> forall doc :: KeepsLive(fold, base, doc)
  {
  }

  lemma RunWhole(base: Fold, above: nat, done: seq<Op>, fold: Fold, changed: map<Key, nat>, existed: set<Key>)
    requires RunTrue(base, above, done, fold, changed, existed)
    ensures base + fold == FoldLog(base, done)
  {
  }

  /** What a run that fits has spent leaves enough for its next operation. */
  lemma NextFits(digest: Json -> nat, base: Fold, rows: seq<Op>, n: nat, limits: Limits, readSoFar: nat, walked: nat,
                 walkLimit: Option<nat>)
    requires RunFits(digest, base, rows, limits) && n < |rows| && walkLimit in {Some(limits.walkMost), None}
    requires readSoFar <= ReadsOf(base, rows[..n]) && walked <= WalksOf(base, rows[..n])
    ensures var moves := if IsRevisionCreate(rows[n]) then MovesBy(FoldLog(base, rows[..n]), rows[n]) else 0;
            var cost := if IsRevisionCreate(rows[n]) then ReadsFor(moves) else 0;
            var walk := if IsRevisionCreate(rows[n]) then WalkFor(moves) else 0;
            && ReadsOf(base, rows[..n + 1]) == ReadsOf(base, rows[..n]) + cost
            && WalksOf(base, rows[..n + 1]) == WalksOf(base, rows[..n]) + walk
            && (IsRevisionCreate(rows[n]) ==> Fits(moves, limits, readSoFar, walked, walkLimit) && Exact(digest, base, rows[n])
                                              && OnlyCreated(rows, rows[n].key.doc))
    ensures forall doc | OnlyCreated(rows, doc) :: OnlyCreated([rows[n]], doc)
  {
    hide FoldLog, Exact, MovesBy, ReadsFor, WalkFor;
    assert rows[..n + 1][..n] == rows[..n];
    CostsGrow(base, rows, n + 1);
    assert rows[n] in rows;
  }

  /** Fold one operation of a run, or end the run before it. */
  method FoldOne(base: Fold, placer: RevisionPlacer, ghost above: nat, ghost done: seq<Op>, row: Op, must: bool,
                 limits: Limits,
                 changed: map<Key, nat>, existed: set<Key>, readSoFar: nat)
    returns (folded: bool, changedNow: map<Key, nat>, existedNow: set<Key>, readsNow: nat)
    requires placer.Valid() && placer.base == base
    requires RunTrue(base, above, done, placer.fold, changed, existed)
    requires StampedBy(base, above) && above < row.seqno && Loaded(base, placer.fold, row)
    requires row.key.Rev? ==> (row.key.doc, row.key.number) in placer.slots
    modifies placer
    ensures placer.Valid() && placer.slots == old(placer.slots) && old(placer.fold.Keys) <= placer.fold.Keys
    ensures RunTrue(base, above, if folded then done + [row] else done, placer.fold, changedNow, existedNow)
    ensures must && readSoFar == 0 && Exact(placer.digest, base, row) && Within(old(placer.fold), base) ==> folded
    ensures placer.walkLimit in {old(placer.walkLimit), None}
    ensures !IsRevisionCreate(row) ==> folded && readsNow == readSoFar && placer.walked == old(placer.walked)
    ensures IsRevisionCreate(row) && Exact(placer.digest, base, row) && KeepsLive(old(placer.fold), base, row.key.doc)
            && Fits(MovesBy(base + old(placer.fold), row), limits, readSoFar, old(placer.walked), old(placer.walkLimit)) ==>
              && folded && readsNow <= readSoFar + ReadsFor(MovesBy(base + old(placer.fold), row))
              && placer.walked <= old(placer.walked) + WalkFor(MovesBy(base + old(placer.fold), row))
    ensures forall doc | KeepsLive(old(placer.fold), base, doc) && OnlyCreated([row], doc) :: KeepsLive(placer.fold, base, doc)
  {
    hide FoldRow, FoldLog, Again, Taken, Apply, MemoryTrue, RunTrue, KeepsLive, ReadsFor, WalkFor, Fits, MovesBy,
      OnlyCreated;
    var answer := Placed(row, None);
    readsNow := readSoFar;
    if IsRevisionCreate(row) {
      var placed;
      MovesSame(placer, row);
      placed, readsNow := PlaceReading(base, placer, row, must, limits, readSoFar);
      if placed.None? {
        return false, changed, existed, readsNow;
      }
      answer := placed.value;
    }
    if answer.AlreadyHeld? {
      RunSkip(base, above, done, row, placer.fold, changed, existed);
      return true, changed, existed, readsNow;
    }
    RunStep(base, above, done, row, placer.fold, changed, existed, answer);
    HoldNext(base, placer, row, answer);
    forall doc | KeepsLive(placer.fold, base, doc) && OnlyCreated([row], doc)
      ensures KeepsLive(Apply(Revived(placer.fold, answer), answer.row), base, doc)
    {
      LiveKept(base, placer.fold, row, answer, doc);
    }
    var held := Revived(placer.fold, answer);
    placer.Hold(Apply(held, answer.row), answer.row.key);
    return true, ChangedBy(held, answer.row, changed),
      if answer.revive.Some? then existed + {answer.row.key} else existed, readsNow;
  }

  lemma MovesSame(placer: RevisionPlacer, row: Op)
    requires IsRevisionCreate(row)
    ensures placer.Moves(row) == MovesBy(placer.base + placer.fold, row)
  {
  }

  /** A create changes no live revision of what was loaded. */
  lemma LiveKept(base: Fold, fold: Fold, row: Op, answer: Answer, doc: string)
    requires answer.Placed? && PlacedTrue(base, fold, row, answer)
    requires KeepsLive(fold, base, doc) && OnlyCreated([row], doc)
    ensures KeepsLive(Apply(Revived(fold, answer), answer.row), base, doc)
  {
    hide Touch, ForgetPlace, Again, Taken;
    assert row in [row];
    var after := Apply(Revived(fold, answer), answer.row);
    if IsRevisionCreate(row) {
      SettleTakesLeastFree(base + fold, row);
    }
    forall key | key in after && key in base && LiveRev(base, key, doc) ensures key in fold && after[key] == fold[key] {
      assert LiveRev(base + fold, key, doc);
    }
  }

  /** What a placed operation makes of memory is what the placement may hold next. */
  lemma HoldNext(base: Fold, placer: RevisionPlacer, row: Op, answer: Answer)
    requires answer.Placed? && PlacedTrue(base, placer.fold, row, answer) && MemoryTrue(base, placer.fold, placer.slots)
    requires row.key.Rev? ==> (row.key.doc, row.key.number) in placer.slots
    ensures var after := Apply(Revived(placer.fold, answer), answer.row);
            && MemoryTrue(base, after, placer.slots) && answer.row.key in after && OthersKept(placer.fold, after, answer.row.key)
            && placer.fold.Keys <= after.Keys
  {
    hide MemoryTrue, PlacedTrue, FoldRow;
    MemoryKept(base, placer.fold, placer.slots, row, answer);
    ApplyStamps(Revived(placer.fold, answer), answer.row);
    ApplyKeepsOthers(Revived(placer.fold, answer), answer.row);
  }

  /** An operation changes no revision but its own. */
  lemma ApplyKeepsOthers(fold: Fold, row: Op)
    ensures OthersKept(fold, Apply(fold, row), row.key)
  {
    hide Touch, ForgetPlace;
  }

  /** What a run reports: what it changed and created, and the mark it ends at. */
  method EndRun(base: Fold, mark: Mark, rows: seq<Op>, end: nat, fold: Fold, changed: map<Key, nat>, existed: set<Key>,
                folded: nat)
    returns (result: RunResult)
    requires AllAbove(rows, mark.seqno) && 0 < folded <= |rows|
    requires RunTrue(base, mark.seqno, rows[..folded], fold, changed, existed)
    requires StampedBy(base, mark.seqno)
    ensures RunAnswer(base, mark, rows, end, result) && result.folded == folded
  {
    hide FoldLog;
    var created := changed.Keys - existed;
    RunCreated(base, mark.seqno, rows[..folded], fold, changed, existed);
    var kinds := CountKinds(mark.kinds, base.Keys, created);
    result := RunResult(fold, changed, created,
      Mark(if folded == |rows| then end else rows[folded - 1].seqno, mark.opCount + folded, kinds), folded);
  }

  lemma RunCreated(base: Fold, above: nat, done: seq<Op>, fold: Fold, changed: map<Key, nat>, existed: set<Key>)
    requires RunTrue(base, above, done, fold, changed, existed) && StampedBy(base, above) && AllAbove(done, above)
    ensures changed.Keys - existed == changed.Keys - base.Keys
    ensures FoldLog(base, done).Keys == base.Keys + (changed.Keys - existed)
  {
    hide FoldLog;
    FoldLogExtends(base, done, above);
  }

  lemma LoadedIsMemory(base: Fold, rows: seq<Op>, prefix: seq<Op>, slots: map<(string, nat), seq<Key>>)
    requires prefix <= rows
    requires forall i | 0 <= i < |rows| && rows[i].key.Rev? :: (rows[i].key.doc, rows[i].key.number) in slots
    ensures MemoryTrue(base, Load(base, prefix), slots)
    ensures forall i | 0 <= i < |prefix| :: Loaded(base, Load(base, prefix), prefix[i])
  {
  }
}
