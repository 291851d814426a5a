/** The fold's rule: how one operation changes the fold (worker/src/fold.ts). */
module FoldRule {
  import opened Types
  import opened Placement

  // ----- Spellings of a field -------------------------------------------------------------

  predicate IsLower(c: char) { 'a' <= c <= 'z' }
  predicate IsUpper(c: char) { 'A' <= c <= 'Z' }

  function ToUpper(c: char): char
    requires IsLower(c)
  {
    'A' + (c - 'a')
  }

  function ToLower(c: char): char
    requires IsUpper(c)
  {
    'a' + (c - 'A')
  }

  function Camel(key: string): string {
    if key == "" then ""
    else if |key| >= 2 && key[0] == '_' && IsLower(key[1]) then [ToUpper(key[1])] + Camel(key[2..])
    else [key[0]] + Camel(key[1..])
  }

  function Column(key: string): string {
    if key == "" then ""
    else if IsUpper(key[0]) then ['_', ToLower(key[0])] + Column(key[1..])
    else [key[0]] + Column(key[1..])
  }

  /** `updated_at` for `updatedAt` and back; a key with neither shape is its own. */
  function OtherSpelling(key: string): string {
    if '_' in key then Camel(key)
    else if exists c | c in key :: IsUpper(c) then Column(key)
    else key
  }

  /** A payload naming one field in both spellings keeps the column's. */
  function ColumnSpellingWins(payload: Fields): Fields {
    payload - (set key | key in payload && '_' in key && OtherSpelling(key) != key :: OtherSpelling(key))
  }

  // ----- Attempt ends ---------------------------------------------------------------------

  const ATTEMPT_END_FIELDS :=
    ["state", "outcome", "endReason", "endDetection", "endedBy", "endedAt", "endedAtSource"]

  const ORPHAN_END_REASONS :=
    {"claim_moved", "claim_cleared", "left_active", "superseded_by_merge",
     "issue_removed", "issue_resolved", "superseded_by_newer"}

  function ReadField(fields: Fields, name: string): Option<Json> {
    if name in fields then Some(fields[name]) else Get(fields, Column(name))
  }

  predicate CarriesAttemptEnd(payload: Fields) {
    exists field | field in ATTEMPT_END_FIELDS :: ReadField(payload, field).Some?
  }

  predicate Ended(fields: Fields) {
    ReadField(fields, "state") == Some(Str("ended"))
  }

  predicate IsOrphanEnd(fields: Fields) {
    && Ended(fields)
    && ReadField(fields, "endDetection") == Some(Str("inferred"))
    && var reason := ReadField(fields, "endReason");
       reason.Some? && reason.value.Str? && reason.value.s in ORPHAN_END_REASONS
  }

  /** An orphan end never overwrites a real end; what is not an end never overwrites any end. */
  function SettleAttemptEnd(held: Fields, incoming: Fields): Fields {
    if CarriesAttemptEnd(incoming) &&
       ((IsOrphanEnd(incoming) && Ended(held) && !IsOrphanEnd(held)) || (Ended(held) && !Ended(incoming)))
    then incoming - (set f | f in ATTEMPT_END_FIELDS) - (set f | f in ATTEMPT_END_FIELDS :: Column(f))
    else incoming
  }

  // ----- One operation on one entity ------------------------------------------------------

  const NARRATION_KEY := "originEvents"

  /** What an operation's payload says about the entity's state. */
  function Carried(kind: string, held: Fields, payload: Fields): Fields {
    var spelled := ColumnSpellingWins(payload);
    (if kind == "attempt" then SettleAttemptEnd(held, spelled) else spelled) - {NARRATION_KEY}
  }

  function Respelled(carried: Fields): set<string> {
    set key | key in carried && OtherSpelling(key) != key :: OtherSpelling(key)
  }

  predicate Releases(status: Option<Json>) {
    status in {Some(Str("done")), Some(Str("cancelled"))}
  }

  /** A write that moves an issue from a status that releases its origin to one that holds it. */
  predicate ReopensOrigin(before: Option<Json>, after: Option<Json>) {
    && before.Some? && before.value.IsText() && after.Some? && after.value.IsText()
    && Releases(before) && !Releases(after)
  }

  function Fresh(seqno: nat): Entity {
    Entity(0, None, seqno, false, map[], map[], None, None, None)
  }

  predicate IsVocabulary(kind: string) {
    kind == "status" || kind == "kind"
  }

  predicate StartsWith(text: string, prefix: string) {
    prefix <= text
  }

  /** A create: over a tombstone the entity begins again, and nothing of the deleted one survives. */
  function Begin(e: Entity, row: Op): Entity {
    var restored := row.actor.Some? && StartsWith(row.actor.value, "restore:");
    var begun :=
      if e.deletedAt.None? then e
      else e.(deletedAt := None,
              state := if IsVocabulary(row.key.Kind()) then map["isBuiltin" := Bool(false)] else map[],
              fieldWrites := map[],
              superseded := false);
    begun.(createdSeq := Some(row.seqno),
           createdAt := if restored then None else Some(row.createdAt),
           createdBy := if restored then None else row.actor)
  }

  /** The keys an operation carried, over the state; every other key is left as it is. */
  function Merge(e: Entity, row: Op): Entity {
    var carried := Carried(row.key.Kind(), e.state, row.payload);
    var kept := e.state - Respelled(carried);
    var writes := e.fieldWrites - Respelled(carried);
    var write := Write(if e.version > 0 then e.version - 1 else 0, row.opId, row.createdAt, row.seqno);
    e.(state := kept + carried,
       superseded := row.verb.Replace?,
       fieldWrites :=
         if row.verb.Create? then writes
         else
           var written := writes + map key | key in carried :: write;
           if row.key.Kind() == "issue" && ReopensOrigin(Get(kept, "status"), Get(carried, "status"))
           then written["reopens" := write] else written)
  }

  /** An entity after an operation that names it. A tombstone yields to a create and nothing else. */
  function Touch(was: Entity, row: Op): Entity {
    var e := was.(version := was.version + 1, lastSeq := row.seqno);
    if row.verb.Delete? then e.(deletedAt := Some(row.serverTs))
    else
      var begun := if row.verb.Create? then Begin(e, row) else e;
      if begun.deletedAt.Some? then begun else Merge(begun, row)
  }

  // ----- One operation on the fold --------------------------------------------------------

  function OrderKey(kind: string): Key {
    Plain(kind, "@order")
  }

  function Listed(items: seq<Json>, id: string): seq<Json> {
    if items == [] then []
    else (if items[0] == Str(id) then [] else [items[0]]) + Listed(items[1..], id)
  }

  /** A status or kind created again has no place in any order written before. */
  predicate ForgetsPlace(fold: Fold, row: Op) {
    && row.verb.Create? && row.key.Plain? && IsVocabulary(row.key.kind)
    && row.key in fold && fold[row.key].entity.deletedAt.Some?
    && var order := OrderKey(row.key.kind);
       && order != row.key && order in fold
       && var listed := Get(fold[order].entity.state, "order");
          listed.Some? && listed.value.Arr?
  }

  function ForgetPlace(order: Entity, id: string): Entity
    requires "order" in order.state && order.state["order"].Arr?
  {
    order.(state := order.state["order" := Arr(Listed(order.state["order"].items, id))])
  }

  /** A settled operation folded in. Every entry it changes is stamped with its seq. */
  function Apply(fold: Fold, row: Op): Fold {
    var was := if row.key in fold then fold[row.key].entity else Fresh(row.seqno);
    var touched := fold[row.key := Cell(Touch(was, row), row.seqno)];
    if ForgetsPlace(fold, row) then
      var order := OrderKey(row.key.kind);
      touched[order := Cell(ForgetPlace(fold[order].entity, row.key.id), row.seqno)]
    else touched
  }

  /** The whole of the fold's rule. */
  function FoldRow(fold: Fold, row: Op): Fold {
    match Settle(fold, row)
    case None => fold
    case Some(placed) => Apply(fold, placed)
  }

  /** The single-pass fold of a log. */
  function FoldLog(fold: Fold, log: seq<Op>): Fold {
    if log == [] then fold else FoldRow(FoldLog(fold, log[..|log| - 1]), log[|log| - 1])
  }

  // ----- Logs and their prefixes ----------------------------------------------------------

  /** The operations of an increasing log at or below a cutoff. */
  function UpTo(log: seq<Op>, cutoff: nat): (prefix: seq<Op>)
    ensures prefix <= log
    ensures AllAtMost(prefix, cutoff) || !Increasing(log)
  {
    if log == [] then []
    else if log[|log| - 1].seqno <= cutoff then log
    else UpTo(log[..|log| - 1], cutoff)
  }

  /** The operations above a cutoff. */
  function After(log: seq<Op>, cutoff: nat): seq<Op> {
    log[|UpTo(log, cutoff)|..]
  }

  /** The fold of a log at a cutoff: what every read of the fold is specified by. */
  function FoldAt(log: seq<Op>, cutoff: nat): Fold {
    FoldLog(map[], UpTo(log, cutoff))
  }

  /** What UpTo leaves of an increasing log is above the cutoff. */
  lemma {:induction false} RestIsAbove(log: seq<Op>, cutoff: nat, i: nat)
    requires Increasing(log) && |UpTo(log, cutoff)| <= i < |log|
    ensures cutoff < log[i].seqno
  {
    var last := |log| - 1;
    if i < last {
      assert log[..last][i] == log[i];
      RestIsAbove(log[..last], cutoff, i);
    }
  }

  lemma AfterIsAbove(log: seq<Op>, cutoff: nat)
    requires Increasing(log)
    ensures UpTo(log, cutoff) + After(log, cutoff) == log
    ensures AllAbove(After(log, cutoff), cutoff)
    ensures Increasing(After(log, cutoff)) && Increasing(UpTo(log, cutoff))
  {
    var n := |UpTo(log, cutoff)|;
    forall i | n <= i < |log| ensures cutoff < log[i].seqno {
      RestIsAbove(log, cutoff, i);
    }
  }

  /** A log only grows above a cutoff it has passed, so what is at or below the cutoff is fixed. */
  lemma {:induction false} UpToAppend(log: seq<Op>, more: seq<Op>, cutoff: nat)
    requires AllAbove(more, cutoff)
    ensures UpTo(log + more, cutoff) == UpTo(log, cutoff)
  {
    if more == [] {
      assert log + more == log;
    } else {
      var last := |more| - 1;
      assert (log + more)[..|log + more| - 1] == log + more[..last];
      UpToAppend(log, more[..last], cutoff);
    }
  }

  lemma UpToWhole(log: seq<Op>, cutoff: nat)
    requires AllAtMost(log, cutoff)
    ensures UpTo(log, cutoff) == log
  {
  }

  /** Any split of an increasing log at a cutoff is the split UpTo makes. */
  lemma UpToSplit(low: seq<Op>, high: seq<Op>, cutoff: nat)
    requires AllAtMost(low, cutoff) && AllAbove(high, cutoff)
    ensures UpTo(low + high, cutoff) == low && After(low + high, cutoff) == high
  {
    UpToAppend(low, high, cutoff);
    UpToWhole(low, cutoff);
  }

  lemma UpToTwice(log: seq<Op>, low: nat, high: nat)
    requires Increasing(log) && low <= high
    ensures UpTo(UpTo(log, high), low) == UpTo(log, low)
  {
    AfterIsAbove(log, high);
    UpToAppend(UpTo(log, high), After(log, high), low);
  }

  // ----- Folding a run onto a fold --------------------------------------------------------

  /** Folding a run onto the fold an earlier run left is folding them all at once. */
  lemma {:induction false} FoldLogAppend(fold: Fold, first: seq<Op>, rest: seq<Op>)
    ensures FoldLog(fold, first + rest) == FoldLog(FoldLog(fold, first), rest)
  {
    if rest == [] {
      assert first + rest == first;
    } else {
      var n := |rest| - 1;
      assert (first + rest)[..|first + rest| - 1] == first + rest[..n];
      FoldLogAppend(fold, first, rest[..n]);
    }
  }

  /** The fold at a cutoff, from the fold at an earlier one and the operations between. */
  lemma FoldAtFrom(log: seq<Op>, low: nat, high: nat)
    requires Increasing(log) && low <= high
    ensures FoldAt(log, high) == FoldLog(FoldAt(log, low), After(UpTo(log, high), low))
  {
    AfterIsAbove(log, high);
    UpToTwice(log, low, high);
    AfterIsAbove(UpTo(log, high), low);
    FoldLogAppend(map[], UpTo(log, low), After(UpTo(log, high), low));
  }

  /** Every entry is stamped at or below the last operation folded. */
  ghost predicate StampedBy(fold: Fold, bound: nat) {
    forall key | key in fold :: fold[key].at <= bound
  }

  /** What folding operations above a bound leaves alone: every entry it did not stamp. */
  ghost predicate Extends(before: Fold, after: Fold, bound: nat) {
    && before.Keys <= after.Keys
    && forall key | key in after :: bound < after[key].at || (key in before && after[key] == before[key])
  }

  lemma FoldRowExtends(fold: Fold, row: Op, bound: nat)
    requires bound < row.seqno
    ensures Extends(fold, FoldRow(fold, row), bound)
  {
    hide Touch, Taken, Again;
  }

  lemma {:induction false} FoldLogExtends(fold: Fold, log: seq<Op>, bound: nat)
    requires AllAbove(log, bound)
    ensures Extends(fold, FoldLog(fold, log), bound)
  {
    hide FoldRow;
    if log != [] {
      var n := |log| - 1;
      FoldLogExtends(fold, log[..n], bound);
      FoldRowExtends(FoldLog(fold, log[..n]), log[n], bound);
    }
  }

  lemma {:induction false} FoldLogStamped(fold: Fold, log: seq<Op>, bound: nat)
    requires StampedBy(fold, bound) && AllAtMost(log, bound)
    ensures StampedBy(FoldLog(fold, log), bound)
  {
    if log != [] {
      FoldLogStamped(fold, log[..|log| - 1], bound);
    }
  }

  lemma FoldAtStamped(log: seq<Op>, cutoff: nat)
    requires Increasing(log)
    ensures StampedBy(FoldAt(log, cutoff), cutoff)
  {
    FoldLogStamped(map[], UpTo(log, cutoff), cutoff);
  }

  lemma FoldAtExtends(log: seq<Op>, low: nat, high: nat)
    requires Increasing(log) && low <= high
    ensures Extends(FoldAt(log, low), FoldAt(log, high), low)
  {
    FoldAtFrom(log, low, high);
    AfterIsAbove(log, high);
    AfterIsAbove(UpTo(log, high), low);
    FoldLogExtends(FoldAt(log, low), After(UpTo(log, high), low), low);
  }

  /** An entry is as the fold of the log up to its own stamp holds it: a function of the log alone. */
  lemma Settled(log: seq<Op>, cutoff: nat, key: Key)
    requires Increasing(log) && key in FoldAt(log, cutoff)
    ensures var at := FoldAt(log, cutoff)[key].at;
            at <= cutoff && key in FoldAt(log, at) && FoldAt(log, at)[key] == FoldAt(log, cutoff)[key]
  {
    var at := FoldAt(log, cutoff)[key].at;
    FoldAtStamped(log, cutoff);
    FoldAtExtends(log, at, cutoff);
  }

  /** Pushes above a cutoff change nothing the fold at the cutoff reads. */
  lemma FoldAtAppend(log: seq<Op>, more: seq<Op>, cutoff: nat)
    requires AllAbove(more, cutoff)
    ensures FoldAt(log + more, cutoff) == FoldAt(log, cutoff)
  {
    UpToAppend(log, more, cutoff);
  }
}
