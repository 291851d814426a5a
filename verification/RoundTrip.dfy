/** When folding what a restore staged yields the backup it was given, and when it does not. */
module RoundTrip {
  import opened Types
  import opened Placement
  import opened FoldRule
  import opened Listing
  import opened Pages
  import opened Staging

  // ----- One entity -----------------------------------------------------------------------

  /** A restored entity says what the backup's did. A tombstone keeps nothing but being one. */
  predicate SameEntity(kept: Entity, restored: Entity) {
    if kept.deletedAt.Some? then restored.deletedAt.Some? && restored.state == map[]
    else
      && restored.deletedAt.None? && restored.state == kept.state && restored.superseded == kept.superseded
      && restored.createdAt == kept.createdAt && restored.createdBy == kept.createdBy
  }

  /** No field is held in both its spellings. */
  predicate SpelledOnce(state: Fields) {
    forall key | key in state && '_' in key && OtherSpelling(key) != key :: OtherSpelling(key) !in state
  }

  /** A create's time and actor are kept together, and never a restore's own. */
  predicate CreatedTogether(entity: Entity) {
    && (entity.createdAt.Some? <==> entity.createdBy.Some?)
    && (entity.createdBy.Some? ==> !StartsWith(entity.createdBy.value, "restore:"))
  }

  /** What an entity must be for the operation a restore stages to fold back to it. */
  predicate Reproducible(entity: Entity) {
    entity.deletedAt.Some? ||
    (&& SpelledOnce(entity.state) && NARRATION_KEY !in entity.state
     && if entity.superseded then entity.createdAt.None? && entity.createdBy.None? else CreatedTogether(entity))
  }

  lemma CarriedWhole(kind: string, state: Fields)
    ensures Carried(kind, map[], state) == state <==> SpelledOnce(state) && NARRATION_KEY !in state
  {
    var spelled := ColumnSpellingWins(state);
    assert !Ended(map[]);
    assert Carried(kind, map[], state) == spelled - {NARRATION_KEY};
    if SpelledOnce(state) {
      assert spelled == state;
    } else {
      var key :| key in state && '_' in key && OtherSpelling(key) != key && OtherSpelling(key) in state;
      assert OtherSpelling(key) !in spelled;
    }
  }

  lemma RestoreActor(restore: string)
    ensures StartsWith("restore:" + restore, "restore:")
  {
  }

  /** Folded into an epoch that has not heard of its entity, a staged operation gives it back exactly then. */
  lemma StagedTouch(op: Op, epoch: nat, restore: string, key: Key, entity: Entity)
    requires IsStaged(op, epoch, restore, key, entity)
    ensures SameEntity(entity, Touch(Fresh(op.seqno), op)) <==> Reproducible(entity)
    ensures Touch(Fresh(op.seqno), op).deletedAt.Some? <==> entity.deletedAt.Some?
  {
    hide Carried, SpelledOnce, StartsWith, Listed;
    CarriedWhole(key.Kind(), entity.state);
    RestoreActor(restore);
  }

  // ----- Revisions ------------------------------------------------------------------------

  predicate LiveAt(fold: Fold, key: Key) {
    key in fold && fold[key].entity.deletedAt.None?
  }

  /** A live revision that stands in the way of another: at its number, or the same revision above its floor. */
  predicate Blocks(fold: Fold, other: Key, key: Key)
    requires key in fold && key.Rev? && other in fold
  {
    && LiveRev(fold, other, key.doc)
    && (other.number == key.number
        || (Floor(key.number, fold[key].entity.state) <= other.number && SameRevision(fold[other].entity.state, fold[key].entity.state)))
  }

  /** A revision's summary says already what placing it where it is would make it say. */
  predicate SummarySettled(key: Key, state: Fields)
    requires key.Rev?
  {
    SummaryAt(Get(state, "changeSummary"), key.number, key.number) == OrNull(Get(state, "changeSummary"))
  }

  /** Staged after these, an entity comes back as it was: nothing before it moves it or stands for it. */
  ghost predicate Returns(fold: Fold, before: seq<Key>, key: Key)
    requires key in fold && forall k | k in before :: k in fold
  {
    && Reproducible(fold[key].entity)
    && (key.Rev? && fold[key].entity.deletedAt.None? && !fold[key].entity.superseded ==>
          SummarySettled(key, fold[key].entity.state) && forall other | other in before :: !Blocks(fold, other, key))
  }

  // ----- Step by step ---------------------------------------------------------------------

  /** What has been staged so far folds back to the entities staged, and nothing else. */
  ghost predicate SameSoFar(fold: Fold, before: seq<Key>, refold: Fold) {
    && (forall key :: key in refold <==> key in before)
    && (forall key | key in before :: key in fold && SameEntity(fold[key].entity, refold[key].entity))
  }

  lemma SameLive(fold: Fold, before: seq<Key>, refold: Fold, key: Key)
    requires SameSoFar(fold, before, refold) && key in before
    ensures LiveAt(refold, key) <==> LiveAt(fold, key)
    ensures LiveAt(fold, key) ==> refold[key].entity.state == fold[key].entity.state
  {
  }

  /** Whether a number is held, or a revision held again, is decided by what was staged before. */
  lemma SettlesAsKept(fold: Fold, before: seq<Key>, refold: Fold, key: Key, op: Op)
    requires SameSoFar(fold, before, refold) && key in fold && key.Rev? && IsRevisionCreate(op)
    requires op.key == key && op.payload == fold[key].entity.state
    ensures Settle(refold, op) == Some(op) <==>
              SummarySettled(key, op.payload) && forall other | other in before :: !Blocks(fold, other, key)
    ensures Settle(refold, op).Some? && Settle(refold, op).value.key.number == key.number ==>
              Settle(refold, op).value.key == key || !SummarySettled(key, op.payload)
    ensures (exists other | other in before :: LiveRev(fold, other, key.doc) && other.number == key.number) <==>
              Held(refold, key.doc, key.number)
  {
    hide SameRevision, Floor, SummaryAt;
    forall other | other in before ensures LiveRev(refold, other, key.doc) <==> LiveRev(fold, other, key.doc) {
      SameLive(fold, before, refold, other);
    }
    forall other | other in before && LiveRev(fold, other, key.doc) ensures refold[other].entity.state == fold[other].entity.state {
      SameLive(fold, before, refold, other);
    }
    TakenIsHeld(refold, key.doc, key.number);
  }

  /** The staged operation of an entity the new epoch has not heard of. */
  ghost predicate Stages(op: Op, fold: Fold, key: Key) {
    key in fold && exists epoch: nat, restore :: IsStaged(op, epoch, restore, key, fold[key].entity)
  }

  lemma StagesWhat(op: Op, fold: Fold, key: Key)
    requires Stages(op, fold, key)
    ensures op.key == key && op.verb == MaterialVerb(fold[key].entity)
    ensures SameEntity(fold[key].entity, Touch(Fresh(op.seqno), op)) <==> Reproducible(fold[key].entity)
    ensures Touch(Fresh(op.seqno), op).deletedAt.Some? <==> fold[key].entity.deletedAt.Some?
    ensures op.verb.Create? ==> op.payload == fold[key].entity.state
  {
    hide Touch, Reproducible, SameEntity;
    var epoch: nat, restore :| IsStaged(op, epoch, restore, key, fold[key].entity);
    StagedTouch(op, epoch, restore, key, fold[key].entity);
  }

  /** Folded where nothing is known of its key, a settled operation adds just its entity. */
  lemma AppliesFresh(refold: Fold, op: Op)
    requires op.key !in refold
    ensures Apply(refold, op) == refold[op.key := Cell(Touch(Fresh(op.seqno), op), op.seqno)]
  {
  }

  /** An entity that returns extends what folds back so far. */
  lemma ReturnsStep(fold: Fold, before: seq<Key>, refold: Fold, key: Key, op: Op)
    requires SameSoFar(fold, before, refold) && key !in before && Stages(op, fold, key) && Returns(fold, before, key)
    ensures SameSoFar(fold, before + [key], FoldRow(refold, op))
  {
    hide Touch, Reproducible, SameEntity, Blocks, SummarySettled;
    StagesWhat(op, fold, key);
    assert Settle(refold, op) == Some(op) by {
      if IsRevisionCreate(op) {
        SettlesAsKept(fold, before, refold, key, op);
      }
    }
    AppliesFresh(refold, op);
    assert key !in refold;
  }

  // ----- What spoils a round trip stays spoiled -------------------------------------------

  /** Too few entities; or a live one that is not what was kept; or one missing whose number is taken. */
  ghost predicate Spoiled(fold: Fold, before: seq<Key>, refold: Fold) {
    || |refold| < |before|
    || (exists key | key in before :: Wrong(fold, refold, key))
    || (exists key | key in before :: Missing(before, refold, key))
  }

  predicate Wrong(fold: Fold, refold: Fold, key: Key) {
    key in fold && LiveAt(refold, key) && !SameEntity(fold[key].entity, refold[key].entity)
  }

  ghost predicate Missing(before: seq<Key>, refold: Fold, key: Key) {
    && key.Rev? && key !in refold
    && (key.spelling != 0 || exists other | other in before :: LiveRev(refold, other, key.doc) && other.number == key.number)
  }

  /** Nothing but revisions is ever folded under a key of its own making. */
  ghost predicate PlainStaged(before: seq<Key>, refold: Fold) {
    forall key | key in refold && key.Plain? :: key in before
  }

  /** A staged operation leaves every live entity staged before it alone. */
  lemma LiveKept(before: seq<Key>, refold: Fold, op: Op, key: Key)
    requires PlainStaged(before, refold) && op.key !in before && key in before && LiveAt(refold, key)
    ensures var after := FoldRow(refold, op); key in after && after[key] == refold[key]
  {
    hide Touch, Again;
    if IsRevisionCreate(op) && Settle(refold, op).Some? {
      SettleTakesLeastFree(refold, op);
      assert key.Rev? ==> LiveRev(refold, key, key.doc);
    }
  }

  lemma OneMoreKey(refold: Fold, op: Op)
    ensures |FoldRow(refold, op)| <= |refold| + 1
    ensures forall key | key in FoldRow(refold, op) :: key in refold || (Settle(refold, op).Some? && key == Settle(refold, op).value.key)
  {
    hide Settle, Apply;
    if Settle(refold, op).Some? {
      AppliedKeys(refold, Settle(refold, op).value);
    }
  }

  lemma AppliedKeys(refold: Fold, placed: Op)
    ensures Apply(refold, placed).Keys == refold.Keys + {placed.key} && |Apply(refold, placed)| <= |refold| + 1
  {
    hide Touch, ForgetPlace;
    var after := Apply(refold, placed);
    assert after.Keys == refold.Keys + {placed.key};
    assert |after.Keys| == |after| && |refold.Keys| == |refold|;
  }

  lemma PlainStep(before: seq<Key>, refold: Fold, op: Op)
    requires PlainStaged(before, refold)
    ensures PlainStaged(before + [op.key], FoldRow(refold, op))
  {
    hide Touch, Apply;
    OneMoreKey(refold, op);
  }

  lemma MissingKept(before: seq<Key>, refold: Fold, op: Op, key: Key)
    requires PlainStaged(before, refold) && op.key !in before && key in before && Missing(before, refold, key)
    ensures Missing(before + [op.key], FoldRow(refold, op), key)
  {
    hide Touch, Apply, Again;
    OneMoreKey(refold, op);
    if IsRevisionCreate(op) && Settle(refold, op).Some? {
      SettleTakesLeastFree(refold, op);
    }
    if other :| other in before && LiveRev(refold, other, key.doc) && other.number == key.number {
      LiveKept(before, refold, op, other);
      assert LiveRev(FoldRow(refold, op), other, key.doc);
    }
  }

  lemma SpoiledStep(fold: Fold, before: seq<Key>, refold: Fold, op: Op)
    requires Spoiled(fold, before, refold) && PlainStaged(before, refold) && op.key !in before
    ensures Spoiled(fold, before + [op.key], FoldRow(refold, op))
  {
    hide FoldRow, SameEntity, Missing;
    var after := FoldRow(refold, op);
    OneMoreKey(refold, op);
    if key :| key in before && Wrong(fold, refold, key) {
      LiveKept(before, refold, op, key);
      assert Wrong(fold, after, key);
    } else if key :| key in before && Missing(before, refold, key) {
      MissingKept(before, refold, op, key);
      assert key in before + [op.key];
    }
  }

  /** An entity that does not return spoils the round trip. */
  lemma SpoilsStep(fold: Fold, before: seq<Key>, refold: Fold, key: Key, op: Op)
    requires SameSoFar(fold, before, refold) && |refold| <= |before| && key !in before && Stages(op, fold, key)
    requires !Returns(fold, before, key)
    ensures Spoiled(fold, before + [key], FoldRow(refold, op))
  {
    hide Touch, SpelledOnce, SameEntity, Blocks, SummarySettled, Again;
    StagesWhat(op, fold, key);
    assert key !in refold;
    assert key in before + [key];
    if IsRevisionCreate(op) {
      SettlesAsKept(fold, before, refold, key, op);
      if Settle(refold, op).Some? {
        SpoilsRevision(fold, before, refold, key, op);
      }
    } else {
      AppliesFresh(refold, op);
      assert !Reproducible(fold[key].entity);
      assert FoldRow(refold, op) == Apply(refold, op);
      assert Wrong(fold, FoldRow(refold, op), key);
    }
  }

  /** A revision that was placed, and is not as it was: moved off its number, or its summary rewritten. */
  lemma SpoilsRevision(fold: Fold, before: seq<Key>, refold: Fold, key: Key, op: Op)
    requires SameSoFar(fold, before, refold) && key !in before && Stages(op, fold, key) && !Returns(fold, before, key)
    requires IsRevisionCreate(op) && Settle(refold, op).Some?
    ensures Spoiled(fold, before + [key], FoldRow(refold, op))
  {
    hide Touch, SpelledOnce, SameEntity, Again, Blocks, SummarySettled, Settle, Floor;
    var placed, after := Settle(refold, op).value, FoldRow(refold, op);
    StagesWhat(op, fold, key);
    assert fold[key].entity.deletedAt.None? && after == Apply(refold, placed);
    SettlesAsKept(fold, before, refold, key, op);
    SettleTakesLeastFree(refold, op);
    if placed == op {
      AppliesFresh(refold, op);
      assert !Reproducible(fold[key].entity);
      assert after == Apply(refold, op);
      assert Wrong(fold, after, key);
    } else if placed.key == key {
      AppliesFresh(refold, placed);
      PlacedElsewise(fold, refold, key, op);
      assert Wrong(fold, after, key);
    } else {
      MovedIsMissing(before, refold, key, op);
      assert Missing(before + [key], after, key);
    }
  }

  /** Placed at its own number with its summary rewritten, a revision's state is another. */
  lemma PlacedElsewise(fold: Fold, refold: Fold, key: Key, op: Op)
    requires key in fold && key !in refold && Stages(op, fold, key) && IsRevisionCreate(op) && Settle(refold, op).Some?
    requires Settle(refold, op).value.key == key && Settle(refold, op).value != op
    ensures Settle(refold, op).value.seqno == op.seqno
    ensures var after := Touch(Fresh(op.seqno), Settle(refold, op).value);
            after.deletedAt.None? && !SameEntity(fold[key].entity, after)
  {
    hide Again, Floor, SpelledOnce, Reproducible;
    StagesWhat(op, fold, key);
    var payload := Settle(refold, op).value.payload;
    var carried := Carried("documentRevision", map[], payload);
    assert "changeSummary" in op.payload && payload["changeSummary"] != op.payload["changeSummary"];
    assert "changeSummary" in carried ==> carried["changeSummary"] == payload["changeSummary"];
    assert Touch(Fresh(op.seqno), Settle(refold, op).value).state == carried;
  }

  lemma MovedIsMissing(before: seq<Key>, refold: Fold, key: Key, op: Op)
    requires (forall k :: k in refold <==> k in before) && key !in before && op.key == key && IsRevisionCreate(op)
    requires Settle(refold, op).Some? && Settle(refold, op).value.key != key
    ensures Missing(before + [key], FoldRow(refold, op), key)
  {
    hide Touch, Again, Floor;
    SettleTakesLeastFree(refold, op);
    var placed, after := Settle(refold, op).value, FoldRow(refold, op);
    assert key !in after;
    if placed.key.number != key.number {
      assert Held(refold, key.doc, key.number);
      var other :| other in refold && LiveRev(refold, other, key.doc) && other.number == key.number;
      assert after[other] == refold[other];
      assert LiveRev(after, other, key.doc) && other in before + [key];
    }
  }

  // ----- The whole restore ----------------------------------------------------------------

  ghost predicate AllReturn(fold: Fold, list: seq<Key>, n: nat)
    requires n <= |list| && forall key | key in list :: key in fold
  {
    forall i | 0 <= i < n :: Returns(fold, list[..i], list[i])
  }

  ghost predicate StagesAll(fold: Fold, list: seq<Key>, rows: seq<Op>) {
    |rows| == |list| && forall i | 0 <= i < |rows| :: Stages(rows[i], fold, list[i])
  }

  /** So far the refold is as kept exactly when every entity so far returns, and else it is spoiled. */
  lemma {:induction false} Outcome(fold: Fold, list: seq<Key>, rows: seq<Op>, n: nat)
    requires Distinct(list) && (forall key | key in list :: key in fold) && StagesAll(fold, list, rows) && n <= |list|
    ensures var refold := FoldLog(map[], rows[..n]);
            && |refold| <= n && PlainStaged(list[..n], refold)
            && (AllReturn(fold, list, n) ==> SameSoFar(fold, list[..n], refold))
            && (!AllReturn(fold, list, n) ==> Spoiled(fold, list[..n], refold))
  {
    hide FoldRow, SameEntity, Returns, Spoiled, Stages, Settle, SameSoFar, AllReturn, PlainStaged;
    OutcomeStart(fold, list);
    if n > 0 {
      var i := n - 1;
      Outcome(fold, list, rows, i);
      var before, refold, op := list[..i], FoldLog(map[], rows[..i]), rows[i];
      assert rows[..n][..i] == rows[..i] && list[..n] == before + [list[i]];
      assert Stages(op, fold, list[i]);
      StagesWhat(op, fold, list[i]);
      OneMoreKey(refold, op);
      PlainStep(before, refold, op);
      OutcomeStep(fold, list, i, refold, op);
    }
  }

  lemma OutcomeStart(fold: Fold, list: seq<Key>)
    requires forall key | key in list :: key in fold
    ensures SameSoFar(fold, [], map[]) && PlainStaged([], map[]) && AllReturn(fold, list, 0)
  {
  }

  lemma OutcomeStep(fold: Fold, list: seq<Key>, i: nat, refold: Fold, op: Op)
    requires Distinct(list) && (forall key | key in list :: key in fold) && i < |list| && Stages(op, fold, list[i])
    requires op.key == list[i]
    requires |refold| <= i && PlainStaged(list[..i], refold)
    requires AllReturn(fold, list, i) ==> SameSoFar(fold, list[..i], refold)
    requires !AllReturn(fold, list, i) ==> Spoiled(fold, list[..i], refold)
    ensures AllReturn(fold, list, i + 1) ==> SameSoFar(fold, list[..i] + [list[i]], FoldRow(refold, op))
    ensures !AllReturn(fold, list, i + 1) ==> Spoiled(fold, list[..i] + [list[i]], FoldRow(refold, op))
  {
    hide FoldRow, SameEntity, Returns, Spoiled, Stages, PlainStaged, SameSoFar;
    var before := list[..i];
    assert list[i] !in before;
    assert AllReturn(fold, list, i + 1) <==> AllReturn(fold, list, i) && Returns(fold, before, list[i]);
    if !AllReturn(fold, list, i) {
      SpoiledStep(fold, before, refold, op);
    } else if Returns(fold, before, list[i]) {
      ReturnsStep(fold, before, refold, list[i], op);
    } else {
      SpoilsStep(fold, before, refold, list[i], op);
    }
  }

  /** The fold of the new epoch is what was backed up. */
  ghost predicate FoldsBack(fold: Fold, refold: Fold) {
    refold.Keys == fold.Keys && forall key | key in fold :: SameEntity(fold[key].entity, refold[key].entity)
  }

  /** Every entity of a backup returns, staged in restore order. */
  ghost predicate Restorable(fold: Fold, less: KeyOrder)
    requires StrictOrder(less)
  {
    OrderDistinct(fold, less);
    AllReturn(fold, RestoreOrder(fold, less), |fold|)
  }

  /**
   * A restore is an inverse of the fold exactly when every entity of the backup returns: what it
   * staged folds back to what was kept, entity for entity, or some entity is lost or changed.
   */
  lemma RestoreFoldsBack(fold: Fold, less: KeyOrder, rows: seq<Op>, epoch: nat, restore: string)
    requires StrictOrder(less) && StagedRun(rows, epoch, restore, fold, RestoreOrder(fold, less))
    ensures FoldsBack(fold, FoldLog(map[], rows)) <==> Restorable(fold, less)
  {
    hide FoldLog, SameEntity, Returns, PlainStaged;
    var list, refold := RestoreOrder(fold, less), FoldLog(map[], rows);
    OrderDistinct(fold, less);
    StagedStages(fold, list, rows, epoch, restore);
    Outcome(fold, list, rows, |list|);
    assert rows[..|list|] == rows && list[..|list|] == list;
    SpoiledDiffers(fold, list, refold);
  }

  lemma StagedStages(fold: Fold, list: seq<Key>, rows: seq<Op>, epoch: nat, restore: string)
    requires StagedRun(rows, epoch, restore, fold, list)
    ensures StagesAll(fold, list, rows)
  {
    hide IsStaged;
  }

  lemma SpoiledDiffers(fold: Fold, list: seq<Key>, refold: Fold)
    requires |list| == |fold| && forall key :: key in list <==> key in fold
    ensures SameSoFar(fold, list, refold) ==> FoldsBack(fold, refold)
    ensures Spoiled(fold, list, refold) ==> !FoldsBack(fold, refold)
  {
    hide SameEntity;
    assert |refold.Keys| == |refold| && |fold.Keys| == |fold|;
  }
}
