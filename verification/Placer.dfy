/**
 * Placing a document revision without reading every revision of its document
 * (worker/src/fold-revisions.ts): from runs of held numbers and body keys read at a base mark,
 * overlaid with what the step has folded since.
 */
module Placer {
  import opened Types
  import opened Placement
  import opened Overlay

  /** Consecutive numbers held by live revisions, both ends included. */
  datatype Run = Run(lo: nat, hi: nat)

  /** The held runs of a document, known from `from` to `to`; None is no upper bound. */
  datatype KnownRuns = KnownRuns(from: nat, to: Option<nat>, runs: seq<Run>)

  datatype BodyKey = NoBody | NullBody | TruthBody(truth: bool) | NumberBody(n: int) | TextBody(digest: nat)

  /** What a create's same-revision check asks for. */
  datatype Request = Request(doc: string, floor: nat, bodyKey: BodyKey, author: Option<Json>)

  datatype Found = Found(rows: seq<Key>, complete: bool, limit: nat)

  datatype Stored = Stored(version: nat, deleted: bool)

  datatype Need =
    | NeedRuns(doc: string, from: nat)
    | NeedCandidates(request: Request, limit: nat)
    | NeedBody(key: Key)
    | NeedVersion(key: Key)
    | NeedWalk

  datatype Answer =
    | Placed(row: Op, revive: Option<nat>)
    | AlreadyHeld
    | Needs(need: Need)

  const RUNS_READ := 8
  const CANDIDATES_READ := 4

  /** A body's key: exact but for text, which is keyed by a digest that may collide. */
  function KeyOfBody(digest: Json -> nat, body: Option<Json>): Option<BodyKey> {
    match body
    case None => Some(NoBody)
    case Some(Null) => Some(NullBody)
    case Some(Bool(truth)) => Some(TruthBody(truth))
    case Some(Num(n)) => Some(NumberBody(n))
    case Some(Arr(_)) => None
    case Some(Obj(_)) => None
    case Some(text) => Some(TextBody(digest(text)))
  }

  function TextOnly(value: Option<Json>): Option<Json> {
    if value.Some? && value.value.IsText() then value else None
  }

  function RequestFor(digest: Json -> nat, doc: string, floor: nat, payload: Fields): (request: Option<Request>)
  {
    match KeyOfBody(digest, Get(payload, "body"))
    case None => None
    case Some(bodyKey) => Some(Request(doc, floor, bodyKey, TextOnly(Get(payload, "author"))))
  }

  /** A stored live revision the candidates index answers a request with. */
  predicate Matches(digest: Json -> nat, base: Fold, request: Request, key: Key) {
    && LiveRev(base, key, request.doc)
    && request.floor <= key.number
    && KeyOfBody(digest, Get(base[key].entity.state, "body")) == Some(request.bodyKey)
    && SameAuthor(Get(base[key].entity.state, "author"), request.author)
  }

  /** The runs index's answer: the first `limit` maximal runs of held numbers from `from` upward. */
  ghost predicate IsRunsAnswer(base: Fold, doc: string, from: nat, limit: nat, runs: seq<Run>) {
    && |runs| <= limit
    && (forall run | run in runs :: from <= run.lo <= run.hi <= runs[|runs| - 1].hi && forall n | run.lo <= n <= run.hi :: Held(base, doc, n))
    && (forall n | limit > 0 && from <= n && (|runs| < limit || n <= runs[|runs| - 1].hi + 1) && Held(base, doc, n) ::
          Covered(runs, n))
  }

  ghost predicate Covered(runs: seq<Run>, n: nat) {
    exists run | run in runs :: run.lo <= n <= run.hi
  }

  ghost predicate IsCandidatesAnswer(digest: Json -> nat, base: Fold, request: Request, limit: nat, rows: seq<Key>) {
    && |rows| <= limit
    && (forall key | key in rows :: key in base && Matches(digest, base, request, key))
    && (|rows| < limit ==> forall key | key in base && Matches(digest, base, request, key) :: key in rows)
  }

  ghost predicate RunsTrue(base: Fold, doc: string, known: KnownRuns) {
    && (forall run | run in known.runs :: run.lo <= run.hi && forall n | run.lo <= n <= run.hi :: Held(base, doc, n))
    && (known.to.Some? ==> known.from <= known.to.value && forall run | run in known.runs :: run.hi < known.to.value)
    && (forall n | known.from <= n && (known.to.Some? ==> n <= known.to.value) && Held(base, doc, n) :: Covered(known.runs, n))
  }

  /** The first `limit` runs from a number, or all of them when there are fewer. */
  function KnownOf(from: nat, limit: nat, answer: seq<Run>): KnownRuns
    requires limit > 0
  {
    KnownRuns(from, if |answer| < limit then None else Some(answer[|answer| - 1].hi + 1), answer)
  }

  /** What is known of held runs reaches as far as numbers are held without a gap. */
  lemma RunsReach(base: Fold, doc: string, known: KnownRuns, n: nat)
    requires RunsTrue(base, doc, known) && known.from <= n
    requires forall m | known.from <= m < n :: Held(base, doc, m)
    ensures Reaches(known, n)
  {
    assert known.to.Some? && known.to.value < n ==> Covered(known.runs, known.to.value);
  }

  predicate Reaches(known: KnownRuns, n: nat) {
    known.from <= n && (known.to.Some? ==> n <= known.to.value)
  }

  ghost predicate FoundTrue(digest: Json -> nat, base: Fold, request: Request, found: Found) {
    && (forall key | key in found.rows :: key in base && Matches(digest, base, request, key))
    && (found.complete ==> forall key | key in base && Matches(digest, base, request, key) :: key in found.rows)
    && (!found.complete ==> found.rows != []) && found.limit > 0
  }

  /** A need names something D1 can be asked for. */
  ghost predicate Answerable(base: Fold, need: Need) {
    match need
    case NeedCandidates(_, limit) => limit > 0
    case NeedBody(key) => key in base
    case _ => true
  }

  ghost predicate SlotTrue(base: Fold, doc: string, number: nat, keys: seq<Key>) {
    && (forall key | key in keys :: LiveRev(base, key, doc) && key.number == number)
    && (forall key | key in base && LiveRev(base, key, doc) && key.number == number :: key in keys)
  }

  function Min(numbers: set<nat>): (least: nat)
    requires numbers != {}
    ensures least in numbers && forall n | n in numbers :: least <= n
  {
    MinExists(numbers);
    var least :| least in numbers && forall n | n in numbers :: least <= n;
    least
  }

  lemma MinExists(numbers: set<nat>)
    requires numbers != {}
    ensures exists least | least in numbers :: forall n | n in numbers :: least <= n
  {
    var one :| one in numbers;
    MinBelow(numbers, one);
  }

  lemma MinBelow(numbers: set<nat>, one: nat)
    requires one in numbers
    ensures exists least | least in numbers :: forall n | n in numbers :: least <= n
    decreases one
  {
    if less :| less in numbers && less < one {
      MinBelow(numbers, less);
    }
  }

  function FindKnown(list: seq<KnownRuns>, number: nat): (found: Option<KnownRuns>)
    ensures found.Some? ==> found.value in list && Reaches(found.value, number)
    ensures found.None? ==> forall known | known in list :: !Reaches(known, number)
  {
    if list == [] then None
    else if Reaches(list[0], number) then Some(list[0])
    else FindKnown(list[1..], number)
  }

  function FindRun(runs: seq<Run>, number: nat): (found: Option<Run>)
    ensures found.Some? ==> found.value in runs && found.value.lo <= number <= found.value.hi
    ensures found.None? ==> !Covered(runs, number)
  {
    if runs == [] then None
    else if runs[0].lo <= number <= runs[0].hi then Some(runs[0])
    else FindRun(runs[1..], number)
  }

  /** No live revision its document holds is keyed as the text arriving without being it. */
  ghost predicate Exact(digest: Json -> nat, base: Fold, row: Op) {
    row.key.Rev? ==>
      forall key | key in base && LiveRev(base, key, row.key.doc) ::
        SameText(digest, Get(base[key].entity.state, "body"), Get(row.payload, "body"))
  }

  /** Two texts keyed alike are one. */
  predicate SameText(digest: Json -> nat, a: Option<Json>, b: Option<Json>) {
    a.Some? && b.Some? && a.value.IsText() && b.value.IsText() && digest(a.value) == digest(b.value) ==> a == b
  }

  ghost predicate Tells(fold: Fold, slots: map<(string, nat), seq<Key>>, list: seq<KnownRuns>, doc: string, n: nat) {
    || (exists key | key in fold :: LiveRev(fold, key, doc) && key.number == n)
    || (doc, n) in slots
    || (exists known | known in list :: Reaches(known, n))
  }

  lemma TellsMore(fold: Fold, slots: map<(string, nat), seq<Key>>, list: seq<KnownRuns>, more: KnownRuns, doc: string,
                  n: nat)
    requires Tells(fold, slots, list, doc, n)
    ensures Tells(fold, slots, list + [more], doc, n)
  {
    if known :| known in list && Reaches(known, n) {
      assert known in list + [more];
    }
  }

  lemma {:induction false} NoMoreThan(numbers: set<nat>, from: nat, count: nat)
    requires forall n | n in numbers :: from <= n < from + count
    ensures |numbers| <= count
  {
    if count == 0 {
      assert numbers == {};
    } else {
      NoMoreThan(numbers - {from + count - 1}, from, count - 1);
    }
  }

  /** Memory as it was loaded: nothing of it has been folded yet. */
  ghost predicate Within(fold: Fold, base: Fold) {
    forall key | key in fold :: key in base && fold[key] == base[key]
  }

  /** Of what was loaded, no live revision of the document has been folded into. */
  ghost predicate KeepsLive(fold: Fold, base: Fold, doc: string) {
    forall key | key in fold && key in base && LiveRev(base, key, doc) :: fold[key] == base[key]
  }

  function Asked(digest: Json -> nat, row: Op): Option<Request>
    requires row.key.Rev?
  {
    RequestFor(digest, row.key.doc, Floor(row.key.number, row.payload), row.payload)
  }

  /** The first candidate the step does not hold in memory. */
  function FirstUnknown(rows: seq<Key>, fold: Fold): Option<Key> {
    if rows == [] then None else if rows[0] !in fold then Some(rows[0]) else FirstUnknown(rows[1..], fold)
  }

  lemma {:induction false} FirstUnknownIs(rows: seq<Key>, fold: Fold, i: nat)
    requires i < |rows| && rows[i] !in fold && forall j | 0 <= j < i :: rows[j] in fold
    ensures FirstUnknown(rows, fold) == Some(rows[i])
  {
    if i > 0 {
      FirstUnknownIs(rows[1..], fold, i - 1);
    }
  }

  /** A candidate is the revision arriving, so long as no other text of its document is keyed alike. */
  lemma MatchIsSame(digest: Json -> nat, base: Fold, row: Op, key: Key)
    requires Exact(digest, base, row) && row.key.Rev? && Asked(digest, row).Some?
    requires key in base && Matches(digest, base, Asked(digest, row).value, key)
    ensures SameRevision(base[key].entity.state, row.payload)
  {
    hide Floor;
    var held, body := Get(base[key].entity.state, "body"), Get(row.payload, "body");
    assert KeyOfBody(digest, held) == KeyOfBody(digest, body);
    assert held == body;
  }

  /** The placement of a step's revision creates, over what it has folded and what it has read. */
  class RevisionPlacer {
    /** The fold at the step's base mark: what D1 holds, and every read answers from. */
    ghost const base: Fold
    const digest: Json -> nat

    /** The fold the step holds in memory: what it loaded, as it has folded it since. */
    var fold: Fold
    var runs: map<string, seq<KnownRuns>>
    /** The live stored keys at the number of every revision the step names. */
    var slots: map<(string, nat), seq<Key>>
    /** The revisions in memory of every document a placement has looked at, by number and by body. */
    var overlays: map<string, DocumentOverlay>
    var candidates: map<Request, Found>
    var bodies: map<Key, Fields>
    var versions: map<Key, Option<Stored>>
    var walked: nat
    var walkLimit: Option<nat>

    constructor (ghost base: Fold, digest: Json -> nat, fold: Fold, slots: map<(string, nat), seq<Key>>, walkLimit: Option<nat>)
      requires forall at | at in slots :: SlotTrue(base, at.0, at.1, slots[at])
      requires MemoryTrue(base, fold, slots)
      ensures Valid() && this.base == base && this.digest == digest
      ensures this.fold == fold && this.slots == slots && this.walkLimit == walkLimit
      ensures runs == map[] && candidates == map[] && walked == 0
    {
      this.base, this.digest, this.fold, this.slots, this.walkLimit := base, digest, fold, slots, walkLimit;
      runs, candidates, bodies, versions, overlays, walked := map[], map[], map[], map[], map[], 0;
    }

    /** Everything known about D1 is true of the base. */
    ghost predicate Valid()
      reads this
    {
      && (forall doc | doc in runs :: forall known | known in runs[doc] :: RunsTrue(base, doc, known))
      && (forall at | at in slots :: SlotTrue(base, at.0, at.1, slots[at]))
      && (forall request | request in candidates :: FoundTrue(digest, base, request, candidates[request]))
      && (forall key | key in bodies :: key in base && bodies[key] == base[key].entity.state)
      && (forall key | key in versions :: VersionTrue(base, key, versions[key]))
      && MemoryTrue(base, fold, slots)
      && OverlaysTrue(overlays, fold)
    }

    // ----- What is left to read -----------------------------------------------------------

    /** What the step knows tells whether a number is held. */
    ghost predicate Told(doc: string, n: nat)
      reads `fold, `slots, `runs
    {
      Tells(fold, slots, if doc in runs then runs[doc] else [], doc, n)
    }

    ghost predicate CandidatesRead(row: Op)
      requires row.key.Rev?
      reads `candidates
    {
      Asked(digest, row).Some? ==> Asked(digest, row).value in candidates
    }

    ghost predicate BodyRead(row: Op)
      requires row.key.Rev?
      reads `candidates, `fold, `bodies
    {
      Asked(digest, row).Some? ==>
        && Asked(digest, row).value in candidates
        && var unknown := FirstUnknown(candidates[Asked(digest, row).value].rows, fold);
           unknown.None? || unknown.value in bodies
    }

    /** Held runs have been read from a number the walk from the claim reaches. */
    ghost predicate RunsRead(row: Op)
      requires row.key.Rev?
      reads `fold, `slots, `runs
    {
      row.key.doc in runs && exists known | known in runs[row.key.doc] :: ReadFrom(row, known.from)
    }

    ghost predicate ReadFrom(row: Op, from: nat)
      requires row.key.Rev?
      reads `fold, `slots, `runs
    {
      row.key.number <= from && forall n | row.key.number <= n < from :: Told(row.key.doc, n) && n in Taken(base + fold, row.key.doc)
    }

    ghost function Destination(row: Op): Key
      requires row.key.Rev?
      reads `fold
    {
      PlacedAt(row, FirstFree(Taken(base + fold, row.key.doc), row.key.number)).key
    }

    /** How many reads a placement can still ask for, so long as no other text of its document is keyed alike. */
    ghost function Unread(row: Op): (left: nat)
      requires row.key.Rev?
      reads `candidates, `fold, `bodies, `slots, `runs, `versions
      ensures left <= 4
    {
      (if CandidatesRead(row) then 0 else 1) + (if BodyRead(row) then 0 else 1) + (if RunsRead(row) then 0 else 1)
      + (if Destination(row) in versions then 0 else 1)
    }

    /** The numbers from the claim to where it goes that the step cannot tell of. */
    ghost function Untold(row: Op): set<nat>
      requires row.key.Rev?
      reads `fold, `slots, `runs
    {
      set n: nat | row.key.number <= n <= FirstFree(Taken(base + fold, row.key.doc), row.key.number) && !Told(row.key.doc, n)
    }

    /** How many reads a placement can still ask for, so long as no live revision of its document has been folded into. */
    ghost function Unknown(row: Op): (left: nat)
      requires row.key.Rev?
      reads `candidates, `fold, `bodies, `slots, `runs, `versions
    {
      (if CandidatesRead(row) then 0 else 1) + (if BodyRead(row) then 0 else 1) + |Untold(row)|
      + (if Destination(row) in versions then 0 else 1)
    }

    /** How far from its claim the fold moves a revision. */
    ghost function Moves(row: Op): nat
      requires row.key.Rev?
      reads `fold
    {
      FirstFree(Taken(base + fold, row.key.doc), row.key.number) - row.key.number
    }

    lemma UnknownBound(row: Op)
      requires row.key.Rev?
      ensures Unknown(row) <= Moves(row) + 4
    {
      NoMoreThan(Untold(row), row.key.number, Moves(row) + 1);
    }

    /** A need is for something the step has not read. */
    ghost predicate NeedTrue(row: Op, need: Need)
      requires row.key.Rev?
      reads `candidates, `fold, `bodies, `slots, `runs, `versions, `walkLimit
    {
      match need
      case NeedWalk => walkLimit.Some?
      case NeedCandidates(request, limit) =>
        Asked(digest, row) == Some(request) && limit > 0 && (Exact(digest, base, row) && KeepsLive(fold, base, row.key.doc) ==> request !in candidates)
      case NeedBody(key) =>
        && key in base && key !in bodies
        && Asked(digest, row).Some? && Asked(digest, row).value in candidates
        && (Exact(digest, base, row) ==> FirstUnknown(candidates[Asked(digest, row).value].rows, fold) == Some(key))
      case NeedRuns(doc, n) => doc == row.key.doc && ReadFrom(row, n) && !Told(doc, n)
      case NeedVersion(key) => key == Destination(row) && key !in versions
    }

    lemma NeedIsUnread(row: Op, need: Need)
      requires Valid() && row.key.Rev? && NeedTrue(row, need) && Exact(digest, base, row) && Within(fold, base)
      ensures need.NeedCandidates? ==> !CandidatesRead(row)
      ensures need.NeedBody? ==> !BodyRead(row)
      ensures need.NeedRuns? ==> !RunsRead(row)
      ensures !need.NeedWalk? ==> Unread(row) > 0
    {
      if need.NeedRuns? && RunsRead(row) {
        var known :| known in runs[row.key.doc] && ReadFrom(row, known.from);
        assert base + fold == base;
        if known.from <= need.from {
          forall n | known.from <= n < need.from ensures Held(base, row.key.doc, n) {
            TakenIsHeld(base, row.key.doc, n);
          }
          RunsReach(base, row.key.doc, known, need.from);
        }
      }
    }

    /** Whatever is asked for was not known. */
    lemma NeedIsUnknown(row: Op, need: Need)
      requires Valid() && row.key.Rev? && NeedTrue(row, need) && Exact(digest, base, row)
      requires KeepsLive(fold, base, row.key.doc)
      ensures need.NeedCandidates? ==> !CandidatesRead(row)
      ensures need.NeedBody? ==> !BodyRead(row)
      ensures need.NeedRuns? ==> need.from in Untold(row)
      ensures need.NeedVersion? ==> Destination(row) !in versions
      ensures !need.NeedWalk? ==> Unknown(row) > 0
    {
      if need.NeedRuns? {
        HeldUpTo(Taken(base + fold, row.key.doc), row.key.number, need.from);
      }
    }

    /** The step has folded another operation into what it holds: into this entity, of all revisions. */
    method Hold(after: Fold, key: Key)
      requires Valid() && MemoryTrue(base, after, slots) && OthersKept(fold, after, key) && key in after
      modifies `fold, `overlays
      ensures Valid() && fold == after
    {
      hide MemoryTrue, SlotTrue, FoundTrue, RunsTrue, VersionTrue, OverlayTrue, OthersKept;
      ghost var was := fold;
      fold := after;
      Observe(was, key);
    }

    /** Later placements read the revision as the step left it. A document not indexed yet is left for when it is. */
    method Observe(ghost was: Fold, key: Key)
      requires OverlaysTrue(overlays, was) && OthersKept(was, fold, key) && key in fold
      modifies `overlays
      ensures OverlaysTrue(overlays, fold)
    {
      hide OverlayTrue, OthersKept;
      forall doc | doc in overlays && !(key.Rev? && key.doc == doc) ensures OverlayTrue(overlays[doc], fold, doc) {
        ElsewhereTrue(overlays[doc], was, fold, doc, key);
      }
      if key.Rev? && key.doc in overlays {
        ObserveTrue(overlays[key.doc], was, fold, key.doc, key);
        overlays := overlays[key.doc := Track(Untrack(overlays[key.doc], key), key, fold[key].entity)];
      }
    }

    /** A document's index, built when it is first asked for. */
    method OverlayOf(doc: string) returns (overlay: DocumentOverlay)
      requires Valid()
      modifies `overlays
      ensures Valid() && OverlayTrue(overlay, fold, doc)
    {
      hide MemoryTrue, SlotTrue, FoundTrue, RunsTrue, VersionTrue, OverlayTrue;
      if doc in overlays {
        return overlays[doc];
      }
      overlay := Build(fold, doc);
      overlays := overlays[doc := overlay];
    }

    /** An operation that must be placed is placed however far it walks. */
    method WalkOn()
      requires Valid()
      modifies `walkLimit
      ensures Valid() && walkLimit == None
    {
      walkLimit := None;
    }

    method AbsorbRuns(doc: string, from: nat, limit: nat, answer: seq<Run>)
      requires Valid() && limit > 0 && IsRunsAnswer(base, doc, from, limit, answer)
      modifies `runs
      ensures Valid()
      ensures runs == old(runs)[doc := (if doc in old(runs) then old(runs)[doc] else []) + [KnownOf(from, limit, answer)]]
    {
      var known := KnownOf(from, limit, answer);
      assert RunsTrue(base, doc, known);
      var list := if doc in runs then runs[doc] else [];
      runs := runs[doc := list + [known]];
    }

    method AbsorbCandidates(request: Request, limit: nat, rows: seq<Key>)
      requires Valid() && limit > 0 && IsCandidatesAnswer(digest, base, request, limit, rows)
      modifies `candidates
      ensures Valid() && candidates == old(candidates)[request := Found(rows, |rows| < limit, limit)]
    {
      candidates := candidates[request := Found(rows, |rows| < limit, limit)];
    }

    method AbsorbBody(key: Key, state: Fields)
      requires Valid() && key in base && state == base[key].entity.state
      modifies `bodies
      ensures Valid() && bodies == old(bodies)[key := state]
    {
      bodies := bodies[key := state];
    }

    method AbsorbVersion(key: Key, version: Option<Stored>)
      requires Valid() && VersionTrue(base, key, version)
      modifies `versions
      ensures Valid() && versions == old(versions)[key := version]
    {
      versions := versions[key := version];
    }

    /**
     * The first stored revision, in the order read, that the step does not know better and that is
     * the revision arriving: confirmed on its stored body. Or what must be read to tell.
     */
    method Confirm(found: Found, payload: Fields) returns (same: Option<Key>, need: Option<Need>)
      requires Valid()
      requires forall key | key in found.rows :: key in base && key.Rev?
      ensures same.Some? ==>
                && same.value in found.rows && same.value !in fold
                && (Get(payload, "body").Some? && Get(payload, "body").value.IsText() ==>
                      SameRevision(base[same.value].entity.state, payload))
      ensures need.Some? ==> exists i | 0 <= i < |found.rows| ::
                && need.value == NeedBody(found.rows[i]) && found.rows[i] !in fold && found.rows[i] !in bodies
                && forall j | 0 <= j < i && found.rows[j] !in fold :: !SameRevision(base[found.rows[j]].entity.state, payload)
      ensures same.None? && need.None? ==>
                forall key | key in found.rows && key !in fold :: !SameRevision(base[key].entity.state, payload)
    {
      var body := Get(payload, "body");
      var text := body.Some? && body.value.IsText();
      for i := 0 to |found.rows|
        invariant forall j | 0 <= j < i && found.rows[j] !in fold :: !SameRevision(base[found.rows[j]].entity.state, payload)
      {
        var key := found.rows[i];
        if key !in fold {
          if text && key !in bodies {
            return None, Some(NeedBody(key));
          }
          if !text || SameRevision(bodies[key], payload) {
            return Some(key), None;
          }
        }
      }
      same, need := None, None;
    }

    /** The body asked for is the first unknown candidate's: one before it would have been the revision. */
    lemma BodyNeeded(row: Op, need: Need)
      requires Valid() && row.key.Rev? && Asked(digest, row).Some? && Asked(digest, row).value in candidates
      requires var rows := candidates[Asked(digest, row).value].rows;
               exists i | 0 <= i < |rows| :: need == NeedBody(rows[i]) && rows[i] !in fold && rows[i] !in bodies
                 && forall j | 0 <= j < i && rows[j] !in fold :: !SameRevision(base[rows[j]].entity.state, row.payload)
      ensures NeedTrue(row, need)
    {
      hide SameRevision, Floor;
      var rows := candidates[Asked(digest, row).value].rows;
      var i :| 0 <= i < |rows| && need == NeedBody(rows[i]) && rows[i] !in fold && rows[i] !in bodies
        && forall j | 0 <= j < i && rows[j] !in fold :: !SameRevision(base[rows[j]].entity.state, row.payload);
      if Exact(digest, base, row) {
        forall j | 0 <= j < i ensures rows[j] in fold {
          MatchIsSame(digest, base, row, rows[j]);
        }
        FirstUnknownIs(rows, fold, i);
      }
    }

    /** A candidate held in memory as it was loaded is the revision arriving. */
    lemma LastIsHeld(row: Op, last: Key)
      requires Valid() && row.key.Rev? && Asked(digest, row).Some? && Asked(digest, row).value in candidates
      requires last in candidates[Asked(digest, row).value].rows
      requires last !in fold ==> !SameRevision(base[last].entity.state, row.payload)
      ensures Exact(digest, base, row) && KeepsLive(fold, base, row.key.doc) ==> last in fold && IsMine(row, last)
    {
      hide SameRevision, Floor;
      if Exact(digest, base, row) {
        MatchIsSame(digest, base, row, last);
      }
    }

    /** A live revision in memory, at or above the floor, that is the revision arriving. */
    predicate IsMine(row: Op, key: Key)
      requires row.key.Rev?
      reads `fold
    {
      && key in fold && LiveRev(fold, key, row.key.doc) && Floor(row.key.number, row.payload) <= key.number
      && SameRevision(fold[key].entity.state, row.payload)
    }

    /** The lowest number memory holds the revision at, of those the index lists under its body. */
    method Mine(row: Op, overlay: DocumentOverlay) returns (lowest: Option<nat>)
      requires row.key.Rev? && OverlayTrue(overlay, fold, row.key.doc)
      ensures lowest.Some? <==> exists key | key in fold :: IsMine(row, key)
      ensures lowest.Some? ==> forall key | key in fold && IsMine(row, key) :: lowest.value <= key.number
    {
      hide LiveRev, SameRevision, Floor, OverlayTrue;
      lowest := None;
      var body := Get(row.payload, "body");
      var todo := SetAt(overlay.bodies, body);
      forall key | key in fold && IsMine(row, key) ensures key.Rev? && key in todo {
        MineIsRev(row, key);
        SameIsListed(overlay, fold, row.key.doc, key, row.payload);
      }
      while todo != {}
        invariant todo <= SetAt(overlay.bodies, body)
        invariant lowest.Some? ==> exists key | key in fold :: IsMine(row, key)
        invariant forall key | key in fold && IsMine(row, key) ::
          key in todo || (lowest.Some? && lowest.value <= key.number)
      {
        var key: Key :| key in todo;
        todo := todo - {key};
        ListedIsLive(overlay, fold, row.key.doc, key, body);
        LiveIsHeld(key, row.key.doc);
        var number := overlay.at[key].number;
        if Floor(row.key.number, row.payload) <= number && SameRevision(fold[key].entity.state, row.payload) {
          assert IsMine(row, key);
          if lowest.None? || number < lowest.value {
            lowest := Some(number);
          }
        }
      }
    }

    lemma LiveIsHeld(key: Key, doc: string)
      requires LiveRev(fold, key, doc)
      ensures key in fold && key.Rev?
    {
    }

    lemma MineIsRev(row: Op, key: Key)
      requires row.key.Rev? && IsMine(row, key)
      ensures key.Rev? && LiveRev(fold, key, row.key.doc) && SameRevision(fold[key].entity.state, row.payload)
    {
    }

    /** Whether the create is a revision the log already holds: `Again`, or what must be read first. */
    method Same(row: Op, overlay: DocumentOverlay) returns (again: bool, need: Option<Need>)
      requires Valid() && row.key.Rev? && OverlayTrue(overlay, fold, row.key.doc)
      ensures need.Some? ==> Answerable(base, need.value) && !need.value.NeedWalk? && NeedTrue(row, need.value)
      ensures need.None? ==> again == Again(base + fold, row.key.doc, Floor(row.key.number, row.payload), row.payload)
    {
      hide SameRevision, MemoryTrue, SlotTrue, RunsTrue, VersionTrue, Again, IsMine, OverlayTrue;
      var asked := Asked(digest, row);
      if asked.None? {
        NeverSame(row);
        return false, None;
      }
      var request := asked.value;
      var lowest := Mine(row, overlay);
      if request !in candidates {
        return false, Some(NeedCandidates(request, CANDIDATES_READ));
      }
      var found := candidates[request];
      var same, unread := Confirm(found, row.payload);
      if unread.Some? {
        BodyNeeded(row, unread.value);
        return false, unread;
      }
      if same.None? && !found.complete {
        var last := found.rows[|found.rows| - 1];
        LastIsHeld(row, last);
        if lowest.None? || lowest.value > last.number {
          return false, Some(NeedCandidates(request, found.limit * 2));
        }
      }
      again, need := lowest.Some? || same.Some?, None;
      SameDecides(row, same, lowest.Some?);
    }

    lemma NeverSame(row: Op)
      requires row.key.Rev? && Asked(digest, row).None?
      ensures !Again(base + fold, row.key.doc, Floor(row.key.number, row.payload), row.payload)
    {
      assert !Get(row.payload, "body").value.Comparable();
    }

    /** What memory and D1's candidates say between them is what the whole fold does. */
    lemma SameDecides(row: Op, same: Option<Key>, mine: bool)
      requires Valid() && row.key.Rev? && Asked(digest, row).Some? && Asked(digest, row).value in candidates
      requires mine <==> exists key | key in fold :: IsMine(row, key)
      requires var found := candidates[Asked(digest, row).value];
               && (same.Some? ==>
                     && same.value in found.rows && same.value !in fold
                     && (Get(row.payload, "body").Some? && Get(row.payload, "body").value.IsText() ==>
                           SameRevision(base[same.value].entity.state, row.payload)))
               && (same.None? && !mine ==>
                     found.complete && forall key | key in found.rows && key !in fold :: !SameRevision(base[key].entity.state, row.payload))
      ensures (mine || same.Some?) == Again(base + fold, row.key.doc, Floor(row.key.number, row.payload), row.payload)
    {
      hide Again, Floor, MemoryTrue, SlotTrue, RunsTrue, VersionTrue;
      var doc, floor, payload := row.key.doc, Floor(row.key.number, row.payload), row.payload;
      MemoryDecides(doc, floor, payload);
      if same.Some? {
        SameKeyIsSame(same.value, doc, floor, payload);
        assert LiveRev(base, same.value, doc);
      } else if mine {
        var key :| key in fold && IsMine(row, key);
        assert LiveRev(fold, key, doc);
      } else {
        forall key | key in fold && LiveRev(fold, key, doc) && floor <= key.number
          ensures !SameRevision(fold[key].entity.state, payload)
        {
          assert !IsMine(row, key);
        }
        forall key | key in base && key !in fold && LiveRev(base, key, doc) && floor <= key.number
          ensures !SameRevision(base[key].entity.state, payload)
        {
          SameMatches(row, key);
        }
      }
    }

    lemma SameMatches(row: Op, key: Key)
      requires row.key.Rev? && Asked(digest, row).Some? && key in base && LiveRev(base, key, row.key.doc)
      requires Floor(row.key.number, row.payload) <= key.number
      ensures SameRevision(base[key].entity.state, row.payload) ==> Matches(digest, base, Asked(digest, row).value, key)
    {
      hide Floor;
    }

    /** A candidate that is not text needs no confirming: its key is exact. */
    lemma SameKeyIsSame(key: Key, doc: string, floor: nat, payload: Fields)
      requires RequestFor(digest, doc, floor, payload).Some?
      requires key in base && Matches(digest, base, RequestFor(digest, doc, floor, payload).value, key)
      requires Get(payload, "body").Some? && Get(payload, "body").value.IsText() ==> SameRevision(base[key].entity.state, payload)
      ensures SameRevision(base[key].entity.state, payload)
    {
    }

    /** The whole fold holds the revision exactly when memory does, or D1 does at a key memory lacks. */
    lemma MemoryDecides(doc: string, floor: nat, payload: Fields)
      ensures Again(base + fold, doc, floor, payload) <==>
                || (exists key | key in fold ::
                      LiveRev(fold, key, doc) && floor <= key.number && SameRevision(fold[key].entity.state, payload))
                || (exists key | key in base ::
                      key !in fold && LiveRev(base, key, doc) && floor <= key.number && SameRevision(base[key].entity.state, payload))
    {
      var whole := base + fold;
      forall key | key in whole
        ensures LiveRev(whole, key, doc) <==> if key in fold then LiveRev(fold, key, doc) else LiveRev(base, key, doc)
      {
      }
      if key :| key in fold && LiveRev(fold, key, doc) && floor <= key.number && SameRevision(fold[key].entity.state, payload) {
        assert LiveRev(whole, key, doc);
      }
      if key :| key in base && key !in fold && LiveRev(base, key, doc) && floor <= key.number && SameRevision(base[key].entity.state, payload) {
        assert LiveRev(whole, key, doc);
      }
    }

    /** The lowest number above `slot` and below `next` that the step names, or `next`. */
    method NextListed(doc: string, slot: nat, next: nat) returns (lowest: nat)
      requires slot < next
      ensures slot < lowest <= next
      ensures forall n | slot < n < lowest :: (doc, n) !in slots
    {
      lowest := next;
      var todo := slots.Keys;
      while todo != {}
        invariant todo <= slots.Keys && slot < lowest <= next
        invariant forall n | slot < n < lowest && (doc, n) in slots :: (doc, n) in todo
      {
        var at: (string, nat) :| at in todo;
        todo := todo - {at};
        if at.0 == doc && slot < at.1 < lowest {
          lowest := at.1;
        }
      }
    }

    /** Where a number is held: in memory, at a stored key the step has not loaded, or in D1. */
    lemma TakenWhere(doc: string, n: nat)
      requires Valid()
      ensures (exists key | key in fold :: LiveRev(fold, key, doc) && key.number == n) ==> n in Taken(base + fold, doc)
      ensures (doc, n) in slots && !(exists key | key in fold :: LiveRev(fold, key, doc) && key.number == n) ==>
                (n in Taken(base + fold, doc) <==> exists key | key in slots[(doc, n)] :: key !in fold)
      ensures (doc, n) !in slots && Held(base, doc, n) ==> n in Taken(base + fold, doc)
      ensures (doc, n) !in slots && !(exists key | key in fold :: LiveRev(fold, key, doc) && key.number == n) ==>
                (n in Taken(base + fold, doc) <==> Held(base, doc, n))
    {
      HeldWhere(base, fold, slots, doc, n);
      TakenIsHeld(base + fold, doc, n);
    }

    /** A stored run of held numbers, as far as no number in it is named by the step. */
    lemma RunTaken(doc: string, slot: nat, next: nat, run: Run)
      requires Valid() && forall n | run.lo <= n <= run.hi :: Held(base, doc, n)
      requires run.lo <= slot && next <= run.hi + 1 && forall n | slot <= n < next :: (doc, n) !in slots
      ensures forall n | slot <= n < next :: n in Taken(base + fold, doc)
    {
      forall n | slot <= n < next ensures n in Taken(base + fold, doc) {
        TakenWhere(doc, n);
      }
    }

    /** Whether a number is held, and how far from it numbers are. */
    method Look(doc: string, slot: nat, overlay: DocumentOverlay) returns (next: nat, need: Option<Need>)
      requires Valid() && OverlayTrue(overlay, fold, doc)
      ensures need.Some? ==> need.value == NeedRuns(doc, slot) && !Told(doc, slot)
      ensures need.None? ==> slot <= next && forall n | slot <= n < next :: n in Taken(base + fold, doc) && Told(doc, n)
      ensures need.None? && next == slot ==> slot !in Taken(base + fold, doc)
    {
      hide Taken, MemoryTrue, SlotTrue, FoundTrue, VersionTrue, OverlayTrue;
      TakenWhere(doc, slot);
      HeldInMemory(overlay, fold, doc, slot);
      if SetAt(overlay.live, slot) != {} {
        return slot + 1, None;
      }
      if (doc, slot) in slots {
        return if exists key | key in slots[(doc, slot)] :: key !in fold then slot + 1 else slot, None;
      }
      var known := FindKnown(if doc in runs then runs[doc] else [], slot);
      if known.None? {
        return slot, Some(NeedRuns(doc, slot));
      }
      var run := FindRun(known.value.runs, slot);
      if run.None? {
        return slot, None;
      }
      next := NextListed(doc, slot, run.value.hi + 1);
      need := None;
      RunTaken(doc, slot, next, run.value);
      RunTold(doc, slot, next, known.value, run.value);
    }

    lemma RunTold(doc: string, slot: nat, next: nat, known: KnownRuns, run: Run)
      requires Valid() && doc in runs && known in runs[doc] && Reaches(known, slot) && run in known.runs
      requires next <= run.hi + 1
      ensures forall n | slot <= n < next :: Told(doc, n)
    {
      assert RunsTrue(base, doc, known);
      forall n | slot <= n < next ensures Reaches(known, n) {
      }
    }

    /** The first number from the claim upward that no live revision holds, or what must be read first. */
    method Walk(row: Op, overlay: DocumentOverlay) returns (slot: nat, need: Option<Need>)
      requires Valid() && row.key.Rev? && OverlayTrue(overlay, fold, row.key.doc)
      modifies `walked
      ensures Valid() && walked <= old(walked) + Moves(row) + 1
      ensures need == Some(NeedWalk) ==> walkLimit.Some? && walked > walkLimit.value
      ensures need.Some? ==> Answerable(base, need.value) && (need.value.NeedWalk? || need.value.NeedRuns?) && NeedTrue(row, need.value)
      ensures need.None? ==> slot == FirstFree(Taken(base + fold, row.key.doc), row.key.number)
    {
      hide Taken, MemoryTrue, SlotTrue, FoundTrue, VersionTrue, RunsTrue, Told, OverlayTrue;
      var doc, claimed := row.key.doc, row.key.number;
      ghost var taken := Taken(base + fold, doc);
      slot, need := claimed, None;
      while true
        invariant Valid() && claimed <= slot && walked <= old(walked) + (slot - claimed)
        invariant forall n | claimed <= n < slot :: n in taken && Told(doc, n)
        decreases AtLeast(taken, slot)
      {
        walked := walked + 1;
        HeldUpTo(taken, claimed, slot);
        if walkLimit.Some? && walked > walkLimit.value {
          return slot, Some(NeedWalk);
        }
        var next;
        next, need := Look(doc, slot, overlay);
        if need.Some? {
          return;
        }
        if next == slot {
          break;
        }
        assert slot in AtLeast(taken, slot) && slot !in AtLeast(taken, next);
        slot := next;
      }
      LeastFreeIsFirst(taken, claimed, slot);
    }

    /**
     * A revision create as it folds: as it is, moved to another number, or nothing. When it answers,
     * it answers what the literal rule over every revision of the document does.
     */
    method Place(row: Op) returns (answer: Answer)
      requires Valid() && IsRevisionCreate(row)
      requires row.key in base ==> row.key in fold
      modifies `walked, `overlays
      ensures Valid() && walked <= old(walked) + Moves(row) + 1
      ensures answer.Needs? ==> Answerable(base, answer.need) && NeedTrue(row, answer.need)
      ensures answer.Needs? && answer.need.NeedWalk? ==> walkLimit.Some? && walked > walkLimit.value
      ensures answer.AlreadyHeld? ==> Settle(base + fold, row) == None
      ensures answer.Placed? ==>
                && Settle(base + fold, row) == Some(answer.row)
                && (answer.revive.Some? <==> answer.row.key in base && answer.row.key !in fold)
                && (answer.revive.Some? ==>
                      && base[answer.row.key].entity.deletedAt.Some?
                      && base[answer.row.key].entity.version == answer.revive.value)
    {
      hide Valid, OverlayTrue, Again, FirstFree, Taken, NeedTrue;
      var overlay := OverlayOf(row.key.doc);
      var again, unread := Same(row, overlay);
      if unread.Some? {
        return Needs(unread.value);
      }
      if again {
        return AlreadyHeld;
      }
      var slot, more := Walk(row, overlay);
      if more.Some? {
        WalkNeeds(row, more.value);
        return Needs(more.value);
      }
      answer := PlaceOn(row, slot);
    }

    lemma WalkNeeds(row: Op, need: Need)
      requires row.key.Rev? && NeedTrue(row, need)
      ensures need.NeedWalk? ==> walkLimit.Some?
    {
    }

    /** The create at the number found for it: on an id that is free, or over the tombstone stored under it. */
    method PlaceOn(row: Op, slot: nat) returns (answer: Answer)
      requires Valid() && IsRevisionCreate(row)
      requires row.key in base ==> row.key in fold
      requires slot == FirstFree(Taken(base + fold, row.key.doc), row.key.number)
      ensures answer.Needs? ==> answer.need.NeedVersion? && NeedTrue(row, answer.need)
      ensures !answer.AlreadyHeld?
      ensures answer.Placed? ==>
                && answer.row == PlacedAt(row, slot)
                && (answer.revive.Some? <==> answer.row.key in base && answer.row.key !in fold)
                && (answer.revive.Some? ==>
                      && base[answer.row.key].entity.deletedAt.Some?
                      && base[answer.row.key].entity.version == answer.revive.value)
    {
      hide OverlaysTrue, FoundTrue, RunsTrue, SlotTrue, MemoryTrue, Taken;
      var placed := PlacedAt(row, slot);
      if placed == row || placed.key in fold {
        return Placed(placed, None);
      }
      if placed.key !in versions {
        return Needs(NeedVersion(placed.key));
      }
      var stored := versions[placed.key];
      TakenIsHeld(base + fold, row.key.doc, slot);
      if stored.Some? {
        assert LiveRev(base, placed.key, row.key.doc) ==> LiveRev(base + fold, placed.key, row.key.doc);
        return Placed(placed, Some(stored.value.version));
      }
      return Placed(placed, None);
    }
  }

  ghost predicate OverlaysTrue(overlays: map<string, DocumentOverlay>, fold: Fold) {
    forall doc | doc in overlays :: OverlayTrue(overlays[doc], fold, doc)
  }

  ghost predicate VersionTrue(base: Fold, key: Key, version: Option<Stored>) {
    version == if key in base then Some(Stored(base[key].entity.version, base[key].entity.deletedAt.Some?)) else None
  }

  /**
   * What the step holds in memory at a number it has no alias list for is a revision it moved there:
   * live, and not one D1 holds live.
   */
  ghost predicate MemoryTrue(base: Fold, fold: Fold, slots: map<(string, nat), seq<Key>>) {
    forall key | key in fold && key.Rev? && (key.doc, key.number) !in slots ::
      fold[key].entity.deletedAt.None? && !LiveRev(base, key, key.doc)
  }

  /** Where the placement reads whether a number is held. */
  lemma HeldWhere(base: Fold, fold: Fold, slots: map<(string, nat), seq<Key>>, doc: string, n: nat)
    requires MemoryTrue(base, fold, slots)
    requires (doc, n) in slots ==> SlotTrue(base, doc, n, slots[(doc, n)])
    ensures (exists key | key in fold :: LiveRev(fold, key, doc) && key.number == n) ==> Held(base + fold, doc, n)
    ensures (doc, n) in slots && !(exists key | key in fold :: LiveRev(fold, key, doc) && key.number == n) ==>
              (Held(base + fold, doc, n) <==> exists key | key in slots[(doc, n)] :: key !in fold)
    ensures (doc, n) !in slots && Held(base, doc, n) ==> Held(base + fold, doc, n)
    ensures (doc, n) !in slots && !(exists key | key in fold :: LiveRev(fold, key, doc) && key.number == n) ==>
              (Held(base + fold, doc, n) <==> Held(base, doc, n))
  {
    var whole := base + fold;
    if key :| key in fold && LiveRev(fold, key, doc) && key.number == n {
      assert LiveRev(whole, key, doc);
    }
    if key :| key in base && key !in fold && LiveRev(base, key, doc) && key.number == n {
      assert LiveRev(whole, key, doc);
    }
    if Held(whole, doc, n) {
      var key :| key in whole && LiveRev(whole, key, doc) && key.number == n;
      assert key in fold ==> LiveRev(fold, key, doc);
      assert key !in fold ==> LiveRev(base, key, doc);
    }
  }

  /** A walk that has found every number held is still short of the first that is not. */
  lemma HeldUpTo(taken: set<nat>, from: nat, slot: nat)
    requires from <= slot && forall n | from <= n < slot :: n in taken
    ensures slot <= FirstFree(taken, from)
  {
  }

  lemma LeastFreeIsFirst(taken: set<nat>, from: nat, slot: nat)
    requires from <= slot && slot !in taken
    requires forall n | from <= n < slot :: n in taken
    ensures slot == FirstFree(taken, from)
  {
  }
}
