/** What the fold of a log remembers of an entity: how often it was written, who made it, and who wrote a field last. */
module Provenance {
  import opened Types
  import opened Placement
  import opened FoldRule
  import opened FoldMeaning
  import opened Spelling
  import opened AttemptEnds

  // ----- What a log says of one entity ----------------------------------------------------

  predicate Creates(op: Op, key: Key) {
    op.key == key && op.verb.Create?
  }

  predicate Deletes(op: Op, key: Key) {
    op.key == key && op.verb.Delete?
  }

  predicate Writes(op: Op, key: Key, name: string) {
    op.key == key && !op.verb.Create? && !op.verb.Delete? && name in op.payload
  }

  /** How many operations name the entity. */
  function Times(log: seq<Op>, key: Key): nat {
    if log == [] then 0
    else Times(log[..|log| - 1], key) + if log[|log| - 1].key == key then 1 else 0
  }

  ghost predicate LastNamed(log: seq<Op>, key: Key, i: int) {
    0 <= i < |log| && log[i].key == key && forall j | i < j < |log| :: log[j].key != key
  }

  /** Deleted, and not created since. */
  ghost predicate Gone(log: seq<Op>, key: Key) {
    exists d | 0 <= d < |log| :: Deletes(log[d], key) && forall c | d < c < |log| :: !Creates(log[c], key)
  }

  /** A write of the field while the entity was there, and it was not deleted after. */
  ghost predicate Counts(log: seq<Op>, key: Key, name: string, i: int) {
    && 0 <= i < |log| && Writes(log[i], key, name) && !Gone(log[..i], key)
    && forall d | i < d < |log| :: !Deletes(log[d], key)
  }

  /** The last write of the field that counts. */
  ghost predicate LastWrite(log: seq<Op>, key: Key, name: string, i: int) {
    Counts(log, key, name, i) && forall j | i < j < |log| :: !Counts(log, key, name, j)
  }

  ghost predicate LastCreate(log: seq<Op>, key: Key, i: int) {
    0 <= i < |log| && Creates(log[i], key) && forall j | i < j < |log| :: !Creates(log[j], key)
  }

  lemma LastIsOne(log: seq<Op>, key: Key, name: string)
    ensures forall i, j | LastWrite(log, key, name, i) && LastWrite(log, key, name, j) :: i == j
    ensures forall i | LastWrite(log, key, name, i) :: 0 <= i < |log| && Counts(log, key, name, i)
    ensures forall i, j | LastCreate(log, key, i) && LastCreate(log, key, j) :: i == j
    ensures forall i | LastCreate(log, key, i) :: 0 <= i < |log| && Creates(log[i], key)
  {
  }

  // ----- What the fold remembers of it ----------------------------------------------------

  /** A name of small letters that is no end field and not an attempt's narration. */
  predicate Ordinary(name: string) {
    Small(name) && !IsEndName(name) && name != "originEvents" && name != "reopens"
  }

  lemma OrdinaryCarried(kind: string, held: Fields, payload: Fields, name: string)
    requires Ordinary(name)
    ensures Get(Carried(kind, held, payload), name) == Get(payload, name)
    ensures name !in Respelled(Carried(kind, held, payload))
  {
    hide OtherSpelling, Column, Camel, IsEndName, GivesWay, SettleAttemptEnd;
    OneWord(name);
    assert forall c | c in name :: !IsUpper(c);
    SmallNameKept(payload, name);
    if kind == "attempt" {
      hide Carried;
      CarriedEnd(held, payload, name);
    }
  }

  /** What one operation does to the memory of a field's writes. */
  lemma TouchWrote(was: Entity, row: Op, name: string)
    requires Ordinary(name)
    ensures row.verb.Delete? ==> Wrote(Touch(was, row), name) == Wrote(was, name)
    ensures row.verb.Create? ==> Wrote(Touch(was, row), name) == if was.deletedAt.Some? then None else Wrote(was, name)
    ensures !row.verb.Create? && !row.verb.Delete? ==>
      Wrote(Touch(was, row), name) ==
        if was.deletedAt.None? && name in row.payload then Some(Write(was.version, row.opId, row.createdAt, row.seqno))
        else Wrote(was, name)
  {
    hide Carried, Respelled, ReopensOrigin, Small, IsEndName;
    var e := was.(version := was.version + 1, lastSeq := row.seqno);
    var begun := if row.verb.Create? then Begin(e, row) else e;
    OrdinaryCarried(row.key.Kind(), begun.state, row.payload, name);
  }

  /** A restore's own actor, who created nothing. */
  predicate IsRestore(actor: Option<string>) {
    actor.Some? && |actor.value| >= 8 && actor.value[..8] == "restore:"
  }

  /** What one operation does to all but what an entity says. */
  lemma TouchRemembers(was: Entity, row: Op)
    ensures var now := Touch(was, row);
            && now.version == was.version + 1 && now.lastSeq == row.seqno
            && (now.deletedAt.Some? <==> row.verb.Delete? || (was.deletedAt.Some? && !row.verb.Create?))
            && (now.deletedAt.None? ==> now.superseded == row.verb.Replace?)
            && (row.verb.Delete? ==> now.deletedAt == Some(row.serverTs))
            && (if row.verb.Create? then
                  && now.createdSeq == Some(row.seqno)
                  && now.createdAt == (if IsRestore(row.actor) then None else Some(row.createdAt))
                  && now.createdBy == (if IsRestore(row.actor) then None else row.actor)
                else now.createdSeq == was.createdSeq && now.createdAt == was.createdAt && now.createdBy == was.createdBy)
  {
    hide Carried, Respelled, ReopensOrigin;
  }

  /** What the fold of one more operation holds of an entity that is no revision. */
  lemma TouchedRow(fold: Fold, row: Op, key: Key)
    requires key.Plain?
    ensures key in FoldRow(fold, row) <==> key in fold || row.key == key
    ensures row.key == key ==>
      FoldRow(fold, row)[key].entity == Touch(if key in fold then fold[key].entity else Fresh(row.seqno), row)
    ensures row.key != key && key in fold ==>
      FoldRow(fold, row)[key].entity == fold[key].entity.(state := FoldRow(fold, row)[key].entity.state)
  {
    hide Touch, Again, FirstFree, Taken, Listed;
  }

  /** The memory of a field is of its last write that counts, and of how often the entity had been written before it. */
  ghost predicate WriteTold(log: seq<Op>, key: Key, name: string, wrote: Option<Write>) {
    if wrote.None? then forall i :: !Counts(log, key, name, i)
    else exists i | 0 <= i < |log| :: LastWrite(log, key, name, i)
                     && wrote.value == Write(Times(log[..i], key), log[i].opId, log[i].createdAt, log[i].seqno)
  }

  /** Who created an entity, and when, is what its last create says, unless a restore made that. */
  ghost predicate CreateTold(log: seq<Op>, key: Key, e: Entity) {
    if e.createdSeq.None? then
      && (forall i | 0 <= i < |log| :: !Creates(log[i], key))
      && e.createdAt.None? && e.createdBy.None?
    else
      exists i | 0 <= i < |log| ::
        && LastCreate(log, key, i) && e.createdSeq == Some(log[i].seqno)
        && e.createdAt == (if IsRestore(log[i].actor) then None else Some(log[i].createdAt))
        && e.createdBy == (if IsRestore(log[i].actor) then None else log[i].actor)
  }

  /** What the last operation on an entity left: its seq, the time of a delete, and whether it replaced. */
  ghost predicate LastTold(log: seq<Op>, key: Key, e: Entity) {
    exists i | 0 <= i < |log| ::
      && LastNamed(log, key, i) && e.lastSeq == log[i].seqno
      && (log[i].verb.Delete? ==> e.deletedAt == Some(log[i].serverTs))
      && (e.deletedAt.None? ==> e.superseded == log[i].verb.Replace?)
  }

  /** What the fold of a log holds of an entity is what the log says of it. */
  ghost predicate Told(fold: Fold, log: seq<Op>, key: Key, name: string) {
    && (key in fold <==> Times(log, key) > 0)
    && (key in fold ==>
          && fold[key].entity.version == Times(log, key)
          && (fold[key].entity.deletedAt.Some? <==> Gone(log, key))
          && (fold[key].entity.deletedAt.None? ==> WriteTold(log, key, name, Wrote(fold[key].entity, name)))
          && CreateTold(log, key, fold[key].entity) && LastTold(log, key, fold[key].entity))
  }

  lemma GoneStep(log: seq<Op>, op: Op, key: Key)
    ensures Gone(log + [op], key) <==> Deletes(op, key) || (Gone(log, key) && !Creates(op, key))
  {
    var more, n := log + [op], |log|;
    assert more[n] == op && forall i | 0 <= i < n :: more[i] == log[i];
    if Deletes(op, key) {
      assert Deletes(more[n], key);
    } else if Gone(log, key) && !Creates(op, key) {
      var d :| 0 <= d < n && Deletes(log[d], key) && forall c | d < c < n :: !Creates(log[c], key);
      assert Deletes(more[d], key);
    }
  }

  lemma CountsStep(log: seq<Op>, op: Op, key: Key, name: string, i: int)
    ensures Counts(log + [op], key, name, i) <==>
            if i == |log| then Writes(op, key, name) && !Gone(log, key) else Counts(log, key, name, i) && !Deletes(op, key)
  {
    hide Gone;
    var more, n := log + [op], |log|;
    assert more[n] == op && forall j | 0 <= j < n :: more[j] == log[j];
    if 0 <= i < n {
      assert more[..i] == log[..i];
    } else if i == n {
      assert more[..i] == log;
    }
  }

  /** What is gone has no write that counts. */
  lemma GoneNoCounts(log: seq<Op>, key: Key, name: string, i: int)
    requires Gone(log, key)
    ensures !Counts(log, key, name, i)
  {
    var d :| 0 <= d < |log| && Deletes(log[d], key) && forall c | d < c < |log| :: !Creates(log[c], key);
    if d < i < |log| {
      assert Deletes(log[..i][d], key);
      assert forall c | d < c < i :: log[..i][c] == log[c];
      assert Gone(log[..i], key);
    }
  }

  lemma WriteStep(log: seq<Op>, op: Op, key: Key, name: string, was: Option<Write>, now: Option<Write>)
    requires !Gone(log, key) ==> WriteTold(log, key, name, was)
    requires !Gone(log + [op], key)
    requires if Creates(op, key) then now == if Gone(log, key) then None else was
             else if Writes(op, key, name) then now == Some(Write(Times(log, key), op.opId, op.createdAt, op.seqno))
             else now == was
    ensures WriteTold(log + [op], key, name, now)
  {
    hide Gone, Counts, Writes, Creates, Deletes, Times;
    var more, n := log + [op], |log|;
    assert more[n] == op && forall j | 0 <= j < n :: more[j] == log[j];
    assert more[..n] == log && forall j | 0 <= j < n :: more[..j] == log[..j];
    GoneStep(log, op, key);
    forall i ensures Counts(more, key, name, i) <==>
                     if i == n then Writes(op, key, name) && !Gone(log, key) else Counts(log, key, name, i) {
      CountsStep(log, op, key, name, i);
    }
    forall i ensures Gone(log, key) ==> !Counts(log, key, name, i) {
      if Gone(log, key) {
        GoneNoCounts(log, key, name, i);
      }
    }
    forall i ensures Counts(more, key, name, i) ==> i <= n {
      InLog(more, key, name, i);
    }
    forall i ensures Counts(log, key, name, i) ==> i < n {
      InLog(log, key, name, i);
    }
    CreatesNoWrite(op, key, name);
    if Writes(op, key, name) {
      assert LastWrite(more, key, name, n);
    } else if !Gone(log, key) && was.Some? {
      var i :| 0 <= i < |log| && LastWrite(log, key, name, i)
               && was.value == Write(Times(log[..i], key), log[i].opId, log[i].createdAt, log[i].seqno);
      assert LastWrite(more, key, name, i);
    }
  }

  lemma InLog(log: seq<Op>, key: Key, name: string, i: int)
    ensures Counts(log, key, name, i) ==> 0 <= i < |log|
  {
  }

  lemma CreatesNoWrite(op: Op, key: Key, name: string)
    ensures Writes(op, key, name) ==> !Creates(op, key) && !Deletes(op, key)
  {
  }

  lemma CreateStep(log: seq<Op>, op: Op, key: Key, was: Entity, now: Entity)
    requires CreateTold(log, key, was)
    requires if Creates(op, key) then
               && now.createdSeq == Some(op.seqno)
               && now.createdAt == (if IsRestore(op.actor) then None else Some(op.createdAt))
               && now.createdBy == (if IsRestore(op.actor) then None else op.actor)
             else now.createdSeq == was.createdSeq && now.createdAt == was.createdAt && now.createdBy == was.createdBy
    ensures CreateTold(log + [op], key, now)
  {
    hide Creates, IsRestore;
    var more, n := log + [op], |log|;
    assert more[n] == op && forall j | 0 <= j < n :: more[j] == log[j];
    if Creates(op, key) {
      assert LastCreate(more, key, n);
    } else if was.createdSeq.Some? {
      var i :| 0 <= i < |log| && LastCreate(log, key, i) && was.createdSeq == Some(log[i].seqno)
               && was.createdAt == (if IsRestore(log[i].actor) then None else Some(log[i].createdAt))
               && was.createdBy == (if IsRestore(log[i].actor) then None else log[i].actor);
      assert LastCreate(more, key, i);
    }
  }

  lemma LastStep(log: seq<Op>, op: Op, key: Key, was: Entity, now: Entity)
    requires if op.key == key then
               && now.lastSeq == op.seqno && (op.verb.Delete? ==> now.deletedAt == Some(op.serverTs))
               && (now.deletedAt.None? ==> now.superseded == op.verb.Replace?)
             else
               && LastTold(log, key, was) && now.lastSeq == was.lastSeq && now.deletedAt == was.deletedAt
               && now.superseded == was.superseded
    ensures LastTold(log + [op], key, now)
  {
    var more, n := log + [op], |log|;
    assert more[n] == op && forall j | 0 <= j < n :: more[j] == log[j];
    if op.key == key {
      assert LastNamed(more, key, n);
    } else {
      var i :| 0 <= i < |log| && LastNamed(log, key, i) && was.lastSeq == log[i].seqno
               && (log[i].verb.Delete? ==> was.deletedAt == Some(log[i].serverTs))
               && (was.deletedAt.None? ==> was.superseded == log[i].verb.Replace?);
      assert LastNamed(more, key, i);
    }
  }

  lemma OneMore(fold: Fold, log: seq<Op>, op: Op, key: Key, name: string)
    requires key.Plain? && Ordinary(name) && Told(fold, log, key, name)
    ensures Told(FoldRow(fold, op), log + [op], key, name)
  {
    hide FoldRow, Touch, Gone, Counts, WriteTold, CreateTold, LastTold, Ordinary, Times, IsRestore;
    var more, after := log + [op], FoldRow(fold, op);
    TouchedRow(fold, op, key);
    GoneStep(log, op, key);
    TimesStep(log, op, key);
    if key in after {
      var was := if key in fold then fold[key].entity else Fresh(op.seqno);
      var now := after[key].entity;
      if key !in fold {
        NothingSaid(log, key, name, was);
      }
      if op.key == key {
        TouchWrote(was, op, name);
        TouchRemembers(was, op);
      }
      if now.deletedAt.None? {
        WriteStep(log, op, key, name, Wrote(was, name), Wrote(now, name));
      }
      CreateStep(log, op, key, was, now);
      LastStep(log, op, key, was, now);
    }
  }

  lemma TimesStep(log: seq<Op>, op: Op, key: Key)
    ensures Times(log + [op], key) == Times(log, key) + if op.key == key then 1 else 0
  {
    assert (log + [op])[..|log|] == log;
  }

  lemma {:induction false} NeverNamed(log: seq<Op>, key: Key)
    requires Times(log, key) == 0
    ensures forall i | 0 <= i < |log| :: log[i].key != key
  {
    if log != [] {
      NeverNamed(log[..|log| - 1], key);
    }
  }

  lemma NothingSaid(log: seq<Op>, key: Key, name: string, e: Entity)
    requires Times(log, key) == 0 && e.createdSeq.None? && e.createdAt.None? && e.createdBy.None?
    ensures !Gone(log, key) && WriteTold(log, key, name, None) && CreateTold(log, key, e)
  {
    NeverNamed(log, key);
  }

  /** For an entity that is no revision, whose operations are those that name it. */
  lemma {:induction false} LogTold(log: seq<Op>, key: Key, name: string)
    requires key.Plain? && Ordinary(name)
    ensures Told(FoldLog(map[], log), log, key, name)
  {
    if log != [] {
      hide FoldRow, Ordinary, Told;
      var n := |log| - 1;
      LogTold(log[..n], key, name);
      OneMore(FoldLog(map[], log[..n]), log[..n], log[n], key, name);
      assert log[..n] + [log[n]] == log;
    }
  }

  // ----- What it says ---------------------------------------------------------------------

  /** A one-word field is what the operation says of it, or what it was; over a tombstone, what the create says. */
  lemma OneWordTaken(was: Entity, row: Op, name: string)
    requires Ordinary(name) && !row.verb.Delete? && (was.deletedAt.None? || row.verb.Create?)
    ensures var before := if was.deletedAt.None? then Get(was.state, name) else None;
            Get(Touch(was, row).state, name) == if name in row.payload then Some(row.payload[name]) else before
  {
    hide Carried, Respelled, ReopensOrigin, IsEndName;
    var e := was.(version := was.version + 1, lastSeq := row.seqno);
    var begun := if row.verb.Create? then Begin(e, row) else e;
    OrdinaryCarried(row.key.Kind(), begun.state, row.payload, name);
    assert 'B' in "isBuiltin" by { assert "isBuiltin"[2] == 'B'; }
  }

  /** A field's two spellings, which no other key is spelled as. */
  ghost predicate Pair(name: string, column: string) {
    && name != column && '_' in column && '_' !in name
    && OtherSpelling(name) == column && OtherSpelling(column) == name
    && forall key | key != name && key != column :: OtherSpelling(key) != name && OtherSpelling(key) != column
  }

  /** What a field is after an operation: what that says of it, in one spelling, or what it was. */
  predicate Takes(was: Fields, payload: Fields, now: Fields, name: string, column: string) {
    if column in payload then Get(now, column) == Some(payload[column]) && name !in now
    else if name in payload then Get(now, name) == Some(payload[name]) && column !in now
    else Get(now, name) == Get(was, name) && Get(now, column) == Get(was, column)
  }

  lemma PairCarried(kind: string, held: Fields, payload: Fields, name: string, column: string)
    requires Pair(name, column) && !IsEndName(name) && !IsEndName(column) && name != "originEvents"
    requires column != "originEvents"
    ensures var carried := Carried(kind, held, payload);
            && Get(carried, column) == Get(payload, column)
            && Get(carried, name) == (if column in payload then None else Get(payload, name))
            && (name in Respelled(carried) <==> column in carried) && (column in Respelled(carried) <==> name in carried)
  {
    hide OtherSpelling, IsEndName, GivesWay, SettleAttemptEnd;
    if kind == "attempt" {
      hide Carried;
      CarriedEnd(held, payload, name);
      CarriedEnd(held, payload, column);
    }
  }

  lemma PairTaken(was: Fields, kind: string, payload: Fields, name: string, column: string)
    requires Pair(name, column) && !IsEndName(name) && !IsEndName(column) && name != "originEvents"
    requires column != "originEvents"
    ensures var carried := Carried(kind, was, payload); Takes(was, payload, (was - Respelled(carried)) + carried, name, column)
  {
    hide OtherSpelling, IsEndName, Carried, Respelled;
    PairCarried(kind, was, payload, name, column);
  }

  /** A field of two words that is no end field is what the operation says of it, in one spelling, or what it was. */
  lemma TwoWordsTaken(was: Entity, row: Op, head: string, hump: char, tail: string, name: string, column: string)
    requires Small(head) && IsUpper(hump) && Small(tail)
    requires name == head + ([hump] + tail) && column == head + (['_', ToLower(hump)] + tail)
    requires !IsEndName(name) && !IsEndName(column) && name != "originEvents"
    requires !row.verb.Delete? && (was.deletedAt.None? || row.verb.Create?)
    ensures var before := if was.deletedAt.None? then was.state
                          else if row.key.Kind() == "status" || row.key.Kind() == "kind" then map["isBuiltin" := Bool(false)]
                          else map[];
            Takes(before, row.payload, Touch(was, row).state, name, column)
  {
    hide Carried, Respelled, ReopensOrigin, IsEndName, OtherSpelling, Column, Camel, Takes;
    var e := was.(version := was.version + 1, lastSeq := row.seqno);
    var begun := if row.verb.Create? then Begin(e, row) else e;
    TwoWords(head, hump, tail, name, column);
    assert column[|head|] == '_' && column[|head|] in column;
    assert forall c | c in name :: c in head || c == hump || c in tail;
    assert '_' !in "originEvents";
    PairTaken(begun.state, row.key.Kind(), row.payload, name, column);
  }

  /** What is told of an attempt for the timeline is no part of what it says. */
  lemma NarrationLeft(was: Entity, row: Op)
    requires "originEvents" !in was.state
    ensures "originEvents" !in Touch(was, row).state
  {
    hide SettleAttemptEnd, ColumnSpellingWins, Respelled, ReopensOrigin;
    assert "isBuiltin" != "originEvents" by { assert |"isBuiltin"| != |"originEvents"|; }
  }

  predicate IsText(value: Option<Json>) {
    value.Some? && (value.value.Str? || value.value.Moved?)
  }

  predicate IsOver(status: Option<Json>) {
    status == Some(Str("done")) || status == Some(Str("cancelled"))
  }

  /** A write that takes an issue from a status it was over in to another remembers that it reopened the issue; no other write does. */
  lemma ReopenedIff(was: Entity, row: Op)
    requires was.deletedAt.None? && !row.verb.Create? && !row.verb.Delete? && "reopens" !in row.payload
    ensures var before, after := Get(was.state, "status"), Get(row.payload, "status");
            Wrote(Touch(was, row), "reopens") ==
              if row.key.Kind() == "issue" && IsText(before) && IsText(after) && IsOver(before) && !IsOver(after)
              then Some(Write(was.version, row.opId, row.createdAt, row.seqno)) else Wrote(was, "reopens")
  {
    hide Carried, Respelled, IsEndName;
    StatusIsOrdinary();
    OrdinaryCarried(row.key.Kind(), was.state, row.payload, "status");
    OneWordKept(row.key.Kind(), was.state, row.payload, "reopens");
  }

  lemma StatusIsOrdinary()
    ensures Ordinary("status")
  {
  }

  lemma OneWordKept(kind: string, held: Fields, payload: Fields, name: string)
    requires Small(name) && name !in payload
    ensures name !in Carried(kind, held, payload) && name !in Respelled(Carried(kind, held, payload))
  {
    hide Carried, OtherSpelling;
    CarriedWithin(kind, held, payload);
    OneWord(name);
  }
}
