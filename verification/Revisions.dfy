/** The live numbers of a document, and the logs whose every backup restores exactly. */
module Revisions {
  import opened Types
  import opened Placement
  import opened FoldRule
  import opened Spelling
  import opened Listing
  import opened Pages
  import opened Staging
  import opened RoundTrip

  // ----- Live numbers stay distinct -------------------------------------------------------

  /** Two live revisions of one document at one number. */
  predicate Clash(fold: Fold, a: Key, b: Key) {
    a != b && a.Rev? && b.Rev? && a.doc == b.doc && a.number == b.number && LiveAt(fold, a) && LiveAt(fold, b)
  }

  ghost predicate NumbersDistinct(fold: Fold) {
    forall a, b | a in fold && b in fold :: !Clash(fold, a, b)
  }

  /** A write of a revision nobody created, at a number another spelling of it holds. */
  predicate Doubles(fold: Fold, row: Op) {
    !row.verb.Create? && !row.verb.Delete? && row.key.Rev? && row.key !in fold && Held(fold, row.key.doc, row.key.number)
  }

  /** What one operation can bring to life, and what it leaves live. */
  lemma LiveAfter(fold: Fold, row: Op, key: Key)
    requires key.Rev?
    ensures LiveAt(FoldRow(fold, row), key) && !LiveAt(fold, key) ==>
      && Settle(fold, row).Some? && Settle(fold, row).value.key == key && !row.verb.Delete?
      && (row.verb.Create? || key !in fold)
    ensures LiveAt(fold, key) && !LiveAt(FoldRow(fold, row), key) ==> row.verb.Delete?
  {
    hide Carried, Again, Taken, Listed;
  }

  /** An operation keeps live numbers distinct exactly when it is no such write. */
  lemma DistinctIff(fold: Fold, row: Op)
    requires NumbersDistinct(fold)
    ensures NumbersDistinct(FoldRow(fold, row)) <==> !Doubles(fold, row)
  {
    hide FoldRow, Again, Taken;
    var after := FoldRow(fold, row);
    if Doubles(fold, row) {
      var other :| other in fold && LiveRev(fold, other, row.key.doc) && other.number == row.key.number;
      BornLive(fold, row);
      LiveAfter(fold, row, other);
      assert Clash(after, other, row.key);
    } else {
      forall a, b | a in after && b in after ensures !Clash(after, a, b) {
        if Clash(after, a, b) {
          LiveAfter(fold, row, a);
          LiveAfter(fold, row, b);
          assert !Clash(fold, a, b);
          if LiveAt(fold, b) {
            NoClashBorn(fold, row, a, b);
          } else if LiveAt(fold, a) {
            NoClashBorn(fold, row, b, a);
          }
        }
      }
    }
  }

  lemma BornLive(fold: Fold, row: Op)
    requires Doubles(fold, row)
    ensures LiveAt(FoldRow(fold, row), row.key)
  {
  }

  lemma NoClashBorn(fold: Fold, row: Op, born: Key, other: Key)
    requires !Doubles(fold, row) && born.Rev? && other.Rev? && born.doc == other.doc && born.number == other.number
    requires !LiveAt(fold, born) && LiveAt(fold, other) && born != other
    ensures !(Settle(fold, row).Some? && Settle(fold, row).value.key == born && !row.verb.Delete? && (row.verb.Create? || born !in fold))
  {
    hide Again;
    assert LiveRev(fold, other, born.doc);
    if IsRevisionCreate(row) && Settle(fold, row).Some? {
      SettleTakesLeastFree(fold, row);
    }
  }

  /** So a log in which revisions are written only once they are created keeps them distinct throughout. */
  lemma {:induction false} DistinctThroughout(log: seq<Op>)
    requires forall i | 0 <= i < |log| :: !Doubles(FoldLog(map[], log[..i]), log[i])
    ensures NumbersDistinct(FoldLog(map[], log))
  {
    hide FoldRow, Doubles;
    if log != [] {
      var n := |log| - 1;
      forall i | 0 <= i < n ensures !Doubles(FoldLog(map[], log[..n][..i]), log[..n][i]) {
        assert log[..n][..i] == log[..i];
      }
      DistinctThroughout(log[..n]);
      DistinctIff(FoldLog(map[], log[..n]), log[n]);
    }
  }

  // ----- Logs that restore exactly --------------------------------------------------------

  /**
   * An operation of a log that restores exactly: its fields are tidily named, a create says who wrote
   * it, a revision is only ever created or deleted, and what is replaced is never created.
   */
  predicate TidyOp(op: Op, replaced: set<Key>) {
    && (forall name | name in op.payload :: Tidy(name))
    && (op.verb.Create? ==> op.actor.Some?)
    && (op.key.Rev? ==> op.verb.Create? || op.verb.Delete?)
    && (op.key.Plain? ==> if op.key in replaced then !op.verb.Create? else !op.verb.Replace?)
  }

  predicate TidyState(state: Fields) {
    SpelledOnce(state) && NARRATION_KEY !in state && forall name | name in state :: Tidy(name)
  }

  predicate TidyEntity(key: Key, e: Entity, replaced: set<Key>) {
    && TidyState(e.state) && CreatedTogether(e)
    && (e.superseded ==> key.Plain? && key in replaced)
    && (key.Plain? && key in replaced ==> e.createdAt.None? && e.createdBy.None?)
  }

  lemma TidyIsReproducible(key: Key, e: Entity, replaced: set<Key>)
    requires TidyEntity(key, e, replaced)
    ensures Reproducible(e)
  {
  }

  lemma CarriedTidy(kind: string, held: Fields, payload: Fields)
    requires forall name | name in payload :: Tidy(name)
    ensures TidyState(Carried(kind, held, payload))
  {
    hide OtherSpelling;
    var spelled := ColumnSpellingWins(payload);
    assert SpelledOnce(spelled);
    var settled := if kind == "attempt" then SettleAttemptEnd(held, spelled) else spelled;
    assert settled.Keys <= spelled.Keys;
  }

  /** A write drops the other spelling of every name it carries, so no field is ever held twice. */
  lemma MergedTidy(state: Fields, carried: Fields)
    requires TidyState(state) && TidyState(carried)
    ensures TidyState((state - Respelled(carried)) + carried)
  {
    hide OtherSpelling;
    var merged := (state - Respelled(carried)) + carried;
    forall name | name in merged && '_' in name && OtherSpelling(name) != name ensures OtherSpelling(name) !in merged {
      assert Tidy(name);
    }
  }

  lemma TouchTidy(key: Key, was: Entity, row: Op, replaced: set<Key>)
    requires row.key == key && TidyOp(row, replaced) && TidyEntity(key, was, replaced)
    ensures TidyEntity(key, Touch(was, row), replaced)
  {
    hide Tidy, Carried, SpelledOnce;
    var e := was.(version := was.version + 1, lastSeq := row.seqno);
    var begun := if row.verb.Create? then Begin(e, row) else e;
    BuiltinTidy();
    CarriedTidy(key.Kind(), begun.state, row.payload);
    MergedTidy(begun.state, Carried(key.Kind(), begun.state, row.payload));
  }

  lemma BuiltinTidy()
    ensures TidyState(map["isBuiltin" := Bool(false)]) && TidyState(map[])
  {
    hide OtherSpelling;
    assert '_' !in "isBuiltin";
    CamelIsTidy("isBuiltin");
  }

  // ----- What a revision says once it is placed -------------------------------------------

  /** What the state of a placed revision keeps of its payload. */
  lemma PlacedFields(payload: Fields)
    ensures var state := Carried("documentRevision", map[], payload);
            && Get(state, "body") == Get(payload, "body") && Get(state, "author") == Get(payload, "author")
            && (Get(state, "changeSummary") == None || Get(state, "changeSummary") == Get(payload, "changeSummary"))
  {
    SmallNameKept(payload, "body");
    SmallNameKept(payload, "author");
    assert "documentRevision"[0] != "attempt"[0];
    assert "body"[0] != NARRATION_KEY[0] && "author"[0] != NARRATION_KEY[0];
  }

  /** Where a revision is placed, its summary is settled and its floor no lower than it was. */
  lemma PlacedSummary(row: Op, slot: nat, state: Fields)
    requires row.key.Rev? && row.key.number <= slot
    requires Get(state, "changeSummary") == None || Get(state, "changeSummary") == Get(PlacedAt(row, slot).payload, "changeSummary")
    ensures SummaryAt(Get(state, "changeSummary"), slot, slot) == OrNull(Get(state, "changeSummary"))
    ensures Floor(row.key.number, row.payload) <= Floor(slot, state)
  {
    var said := Get(row.payload, "changeSummary");
    SummaryAtTwice(said, row.key.number, slot);
    assert OrNull(Get(PlacedAt(row, slot).payload, "changeSummary")) == SummaryAt(said, row.key.number, slot);
  }

  lemma PlacedBody(row: Op, slot: nat)
    requires row.key.Rev?
    ensures Get(PlacedAt(row, slot).payload, "body") == Get(row.payload, "body")
    ensures Get(PlacedAt(row, slot).payload, "author") == Get(row.payload, "author")
  {
  }

  lemma PlacedTouch(was: Entity, row: Op)
    requires IsRevisionCreate(row) && (was.deletedAt.Some? || was == Fresh(row.seqno))
    ensures var e := Touch(was, row);
            && e.deletedAt.None? && e.createdSeq == Some(row.seqno) && e.state == Carried("documentRevision", map[], row.payload)
  {
    hide Carried;
    assert !IsVocabulary("documentRevision");
  }

  // ----- Revisions in the order they were created -----------------------------------------

  function CreatedAt(fold: Fold, key: Key): nat
    requires key in fold
  {
    fold[key].entity.createdSeq.GetOr(0)
  }

  ghost predicate RevisionTrue(fold: Fold, key: Key, bound: nat)
    requires key.Rev? && key in fold
  {
    && fold[key].entity.createdSeq.Some? && CreatedAt(fold, key) <= bound
    && SummarySettled(key, fold[key].entity.state)
  }

  /** No live revision stands in the way of one created after it. */
  ghost predicate InOrder(fold: Fold, first: Key, second: Key)
    requires first in fold && second in fold && second.Rev?
  {
    CreatedAt(fold, first) != CreatedAt(fold, second) && (CreatedAt(fold, first) < CreatedAt(fold, second) ==> !Blocks(fold, first, second))
  }

  ghost predicate RevisionsOrdered(fold: Fold, bound: nat) {
    && (forall key | LiveAt(fold, key) && key.Rev? :: RevisionTrue(fold, key, bound))
    && (forall a, b | LiveAt(fold, a) && LiveAt(fold, b) && a.Rev? && b.Rev? && a != b :: InOrder(fold, a, b))
  }

  /** An operation that changes no live revision, but may end one. */
  lemma OrderedFrame(fold: Fold, after: Fold, bound: nat, boundNow: nat)
    requires RevisionsOrdered(fold, bound) && bound <= boundNow
    requires forall key: Key | key.Rev? && LiveAt(after, key) :: LiveAt(fold, key) && after[key] == fold[key]
    ensures RevisionsOrdered(after, boundNow)
  {
    hide SameRevision, Floor, SummarySettled;
    forall a, b | LiveAt(after, a) && LiveAt(after, b) && a.Rev? && b.Rev? && a != b ensures InOrder(after, a, b) {
      assert InOrder(fold, a, b);
    }
  }

  /** A create that is placed: it is the newest, and nothing live stands in its way. */
  lemma PlacedOrdered(fold: Fold, row: Op, bound: nat)
    requires RevisionsOrdered(fold, bound) && bound < row.seqno && IsRevisionCreate(row) && Settle(fold, row).Some?
    ensures RevisionsOrdered(FoldRow(fold, row), row.seqno)
  {
    hide Touch, Carried, SameRevision, Floor, SummaryAt, Again, PlacedAt;
    var slot := FirstFree(Taken(fold, row.key.doc), row.key.number);
    var placed, after := Settle(fold, row).value, FoldRow(fold, row);
    SettleTakesLeastFree(fold, row);
    PlacedWhere(fold, row, after, placed, slot);
    forall key: Key | key.Rev? && LiveAt(after, key) && key != placed.key ensures LiveAt(fold, key) && after[key] == fold[key] {
      LiveAfter(fold, row, key);
    }
    forall key | LiveAt(after, key) && key.Rev? ensures RevisionTrue(after, key, row.seqno) {
      if key != placed.key {
        assert RevisionTrue(fold, key, bound);
      }
    }
    forall a, b | LiveAt(after, a) && LiveAt(after, b) && a.Rev? && b.Rev? && a != b ensures InOrder(after, a, b) {
      if a == placed.key {
        assert RevisionTrue(fold, b, bound);
      } else if b == placed.key {
        assert RevisionTrue(fold, a, bound);
        NothingBlocks(fold, row, after, placed, a, slot);
      } else {
        assert InOrder(fold, a, b);
      }
    }
  }

  lemma PlacedWhere(fold: Fold, row: Op, after: Fold, placed: Op, slot: nat)
    requires IsRevisionCreate(row) && Settle(fold, row) == Some(placed) && after == FoldRow(fold, row)
    requires slot == FirstFree(Taken(fold, row.key.doc), row.key.number)
    ensures placed == PlacedAt(row, slot) && placed.key.Rev? && placed.key.number == slot
    ensures placed.key.doc == row.key.doc
    ensures LiveAt(after, placed.key) && after[placed.key].entity.createdSeq == Some(row.seqno)
    ensures after[placed.key].entity.state == Carried("documentRevision", map[], placed.payload)
    ensures SummarySettled(placed.key, after[placed.key].entity.state)
    ensures Floor(row.key.number, row.payload) <= Floor(slot, after[placed.key].entity.state)
  {
    hide Touch, Carried, SameRevision, Floor, SummaryAt, Again;
    TakenIsHeld(fold, row.key.doc, slot);
    assert LiveAt(fold, placed.key) ==> LiveRev(fold, placed.key, row.key.doc);
    var was := if placed.key in fold then fold[placed.key].entity else Fresh(row.seqno);
    PlacedTouch(was, placed);
    PlacedFields(placed.payload);
    PlacedSummary(row, slot, Carried("documentRevision", map[], placed.payload));
  }

  lemma NothingBlocks(fold: Fold, row: Op, after: Fold, placed: Op, other: Key, slot: nat)
    requires IsRevisionCreate(row) && Settle(fold, row) == Some(placed) && placed == PlacedAt(row, slot)
    requires !Held(fold, row.key.doc, slot)
    requires placed.key.Rev? && placed.key.number == slot && placed.key.doc == row.key.doc && placed.key in after
    requires other.Rev? && LiveAt(fold, other) && other in after && after[other] == fold[other]
    requires after[placed.key].entity.state == Carried("documentRevision", map[], placed.payload)
    requires Floor(row.key.number, row.payload) <= Floor(slot, after[placed.key].entity.state)
    ensures !Blocks(after, other, placed.key)
  {
    hide Carried, Floor, SummaryAt, PlacedAt, SameAuthor, Settle;
    var doc := row.key.doc;
    PlacedBody(row, slot);
    PlacedFields(placed.payload);
    assert Settle(fold, row).Some? ==> !Again(fold, row.key.doc, Floor(row.key.number, row.payload), row.payload) by {
      NotAgain(fold, row);
    }
    assert Blocks(after, other, placed.key) ==> LiveRev(fold, other, doc);
  }

  lemma NotAgain(fold: Fold, row: Op)
    requires IsRevisionCreate(row) && Settle(fold, row).Some?
    ensures !Again(fold, row.key.doc, Floor(row.key.number, row.payload), row.payload)
  {
    hide Again, FirstFree;
  }

  // ----- The whole log --------------------------------------------------------------------

  ghost predicate TidyFold(fold: Fold, replaced: set<Key>, bound: nat) {
    && (forall key | key in fold :: TidyEntity(key, fold[key].entity, replaced))
    && RevisionsOrdered(fold, bound)
  }

  lemma SettledTidy(fold: Fold, row: Op, replaced: set<Key>)
    requires TidyOp(row, replaced) && Settle(fold, row).Some?
    ensures TidyOp(Settle(fold, row).value, replaced)
  {
    hide Tidy, Again, FirstFree, Taken, SummaryAt;
    CamelIsTidy("changeSummary");
    CamelIsTidy("revision");
  }

  lemma FreshTidy(key: Key, seqno: nat, replaced: set<Key>)
    ensures TidyEntity(key, Fresh(seqno), replaced)
  {
  }

  lemma ForgottenTidy(key: Key, e: Entity, id: string, replaced: set<Key>)
    requires TidyEntity(key, e, replaced) && "order" in e.state && e.state["order"].Arr?
    ensures TidyEntity(key, ForgetPlace(e, id), replaced)
  {
    hide Tidy, OtherSpelling;
  }

  lemma EntitiesTidy(fold: Fold, row: Op, replaced: set<Key>)
    requires TidyOp(row, replaced) && forall key | key in fold :: TidyEntity(key, fold[key].entity, replaced)
    ensures forall key | key in FoldRow(fold, row) :: TidyEntity(key, FoldRow(fold, row)[key].entity, replaced)
  {
    hide Touch, TidyEntity, TidyOp, Settle;
    if Settle(fold, row).Some? {
      var placed := Settle(fold, row).value;
      SettledTidy(fold, row, replaced);
      FreshTidy(placed.key, placed.seqno, replaced);
      TouchTidy(placed.key, if placed.key in fold then fold[placed.key].entity else Fresh(placed.seqno), placed,
                replaced);
      if ForgetsPlace(fold, placed) {
        var order := OrderKey(placed.key.kind);
        ForgottenTidy(order, fold[order].entity, placed.key.id, replaced);
      }
    }
  }

  lemma RevisionsStep(fold: Fold, row: Op, replaced: set<Key>, bound: nat)
    requires TidyOp(row, replaced) && RevisionsOrdered(fold, bound) && bound < row.seqno
    ensures RevisionsOrdered(FoldRow(fold, row), row.seqno)
  {
    hide RevisionsOrdered, Touch, Again, Taken, FirstFree;
    if IsRevisionCreate(row) && Settle(fold, row).Some? {
      PlacedOrdered(fold, row, bound);
    } else {
      forall key: Key | key.Rev? && LiveAt(FoldRow(fold, row), key)
        ensures LiveAt(fold, key) && FoldRow(fold, row)[key] == fold[key]
      {
        LiveAfter(fold, row, key);
        OnlyItsKey(fold, row, key);
      }
      OrderedFrame(fold, FoldRow(fold, row), bound, row.seqno);
    }
  }

  /** A tidy operation that places no revision leaves every live one as it is, or deletes it. */
  lemma OnlyItsKey(fold: Fold, row: Op, key: Key)
    requires key.Rev? && (row.key.Rev? ==> row.verb.Create? || row.verb.Delete?)
    requires !(IsRevisionCreate(row) && Settle(fold, row).Some?) && LiveAt(FoldRow(fold, row), key)
    ensures LiveAt(fold, key) && FoldRow(fold, row)[key] == fold[key]
  {
    hide Merge, Again, Taken, FirstFree, Listed;
  }

  lemma {:induction false} TidyLog(log: seq<Op>, replaced: set<Key>, bound: nat)
    requires Increasing(log) && AllAtMost(log, bound) && AllAbove(log, 0)
    requires forall i | 0 <= i < |log| :: TidyOp(log[i], replaced)
    ensures TidyFold(FoldLog(map[], log), replaced, bound)
    decreases |log|
  {
    hide FoldRow, TidyEntity, RevisionsOrdered, TidyOp;
    if log == [] {
      NothingOrdered(bound);
    } else {
      var n := |log| - 1;
      var before := if n == 0 then 0 else log[n - 1].seqno;
      TidyLog(log[..n], replaced, before);
      assert TidyOp(log[n], replaced);
      EntitiesTidy(FoldLog(map[], log[..n]), log[n], replaced);
      RevisionsStep(FoldLog(map[], log[..n]), log[n], replaced, before);
      LaterBound(FoldLog(map[], log), log[n].seqno, bound);
    }
  }

  lemma NothingOrdered(bound: nat)
    ensures RevisionsOrdered(map[], bound)
  {
  }

  lemma LaterBound(fold: Fold, bound: nat, boundNow: nat)
    requires RevisionsOrdered(fold, bound) && bound <= boundNow
    ensures RevisionsOrdered(fold, boundNow)
  {
    hide InOrder, SummarySettled;
    forall key | LiveAt(fold, key) && key.Rev? ensures RevisionTrue(fold, key, boundNow) {
      assert RevisionTrue(fold, key, bound);
    }
  }

  /** Staged in restore order, every entity of a tidy fold returns. */
  lemma TidyReturns(fold: Fold, replaced: set<Key>, bound: nat, less: KeyOrder)
    requires StrictOrder(less) && TidyFold(fold, replaced, bound)
    ensures Restorable(fold, less)
  {
    hide TidyEntity, Blocks, SummarySettled, Reproducible;
    var list := RestoreOrder(fold, less);
    OrderDistinct(fold, less);
    forall i | 0 <= i < |list| ensures Returns(fold, list[..i], list[i]) {
      var key := list[i];
      assert key in fold;
      TidyIsReproducible(key, fold[key].entity, replaced);
      if key.Rev? && LiveAt(fold, key) {
        assert RevisionTrue(fold, key, bound);
        forall other | other in list[..i] ensures !Blocks(fold, other, key) {
          EarlierDoesNotBlock(fold, bound, less, other, key, i);
        }
      }
    }
  }

  lemma EarlierDoesNotBlock(fold: Fold, bound: nat, less: KeyOrder, other: Key, key: Key, i: nat)
    requires StrictOrder(less) && RevisionsOrdered(fold, bound) && i < |fold|
    requires key == RestoreOrder(fold, less)[i] && other in RestoreOrder(fold, less)[..i] && key in fold
    requires other in fold
    requires key.Rev? && LiveAt(fold, key)
    ensures !Blocks(fold, other, key)
  {
    hide SameRevision, Floor, SummarySettled, RestoreOrder;
    if other.Rev? && LiveAt(fold, other) {
      StagedEarlier(fold, less, other, key, i);
      assert other != key && InOrder(fold, other, key);
    }
  }

  lemma StagedEarlier(fold: Fold, less: KeyOrder, other: Key, key: Key, i: nat)
    requires StrictOrder(less) && i < |fold| && key in fold && other in fold && key.Rev? && other.Rev?
    requires key == RestoreOrder(fold, less)[i] && other in RestoreOrder(fold, less)[..i]
    ensures CreatedAt(fold, other) <= CreatedAt(fold, key) && other != key
  {
    StageLessOrders(fold, less);
    SortedLists(fold.Keys, StageLess(fold, less));
    var list := RestoreOrder(fold, less);
    var j :| 0 <= j < i && list[j] == other;
    assert StageLess(fold, less)(other, key);
    Asymmetric(StageLess(fold, less), other, key);
    assert "documentRevision"[0] == 'd' && "issue"[0] == 'i' && "project"[0] == 'p';
    assert ClaimField(other) == None && ClaimField(key) == None;
    assert StageOrder(fold, other) == CreatedAt(fold, other) && StageOrder(fold, key) == CreatedAt(fold, key);
  }

  /**
   * A log whose revisions are only created and deleted, whose replaced entities were never created and
   * whose fields are tidily named restores exactly, from a backup at any cutoff.
   */
  lemma TidyLogRestores(log: seq<Op>, cutoff: nat, replaced: set<Key>, less: KeyOrder)
    requires StrictOrder(less) && Increasing(log) && AllAbove(log, 0)
    requires forall i | 0 <= i < |log| :: TidyOp(log[i], replaced)
    ensures Restorable(FoldAt(log, cutoff), less)
  {
    hide TidyOp, Restorable;
    AfterIsAbove(log, cutoff);
    TidyLog(UpTo(log, cutoff), replaced, cutoff);
    TidyReturns(FoldAt(log, cutoff), replaced, cutoff, less);
  }
}
