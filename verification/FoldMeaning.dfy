/** What the fold of a log says of an entity: its tombstone, its beginning again, its fields' latest values. */
module FoldMeaning {
  import opened Types
  import opened Placement
  import opened FoldRule

  /** The operation as it settles is one of this entity: a revision's create may settle under another number. */
  predicate SettlesOn(fold: Fold, row: Op, key: Key) {
    Settle(fold, row).Some? && Settle(fold, row).value.key == key
  }

  /** What an operation that settles elsewhere leaves of a state: all of it, but for a vocabulary's order. */
  predicate LeftAs(key: Key, was: Fields, now: Fields) {
    if key.Plain? && key.id == "@order" then now - {"order"} == was - {"order"} else now == was
  }

  /** One operation and one entity the fold holds: it is touched, or left as it was. */
  lemma StepOf(fold: Fold, row: Op, key: Key)
    requires key in fold
    ensures key in FoldRow(fold, row)
    ensures var was, now := fold[key].entity, FoldRow(fold, row)[key].entity;
            if SettlesOn(fold, row, key) then now == Touch(was, Settle(fold, row).value)
            else now == was.(state := now.state) && LeftAs(key, was.state, now.state)
  {
    hide Touch, Settle, ForgetPlace;
    if Settle(fold, row).Some? {
      var placed := Settle(fold, row).value;
      if ForgetsPlace(fold, placed) && key == OrderKey(placed.key.kind) && key != placed.key {
        OnlyTheOrder(fold[key].entity, placed.key.id);
      }
    }
  }

  lemma OnlyTheOrder(order: Entity, id: string)
    requires "order" in order.state && order.state["order"].Arr?
    ensures ForgetPlace(order, id) == order.(state := ForgetPlace(order, id).state)
    ensures ForgetPlace(order, id).state - {"order"} == order.state - {"order"}
  {
    hide Listed;
  }

  lemma TombstoneStays(was: Entity, row: Op)
    requires was.deletedAt.Some? && !row.verb.Create?
    ensures Touch(was, row).deletedAt.Some? && Touch(was, row).state == was.state
    ensures !row.verb.Delete? ==> Touch(was, row).deletedAt == was.deletedAt
  {
  }

  /**
   * A tombstone wins over every later write, in whatever order they come: until the entity is created
   * again it stays deleted, and says what it said.
   */
  lemma {:induction false} TombstoneWins(fold: Fold, log: seq<Op>, key: Key)
    requires key in fold && fold[key].entity.deletedAt.Some?
    requires forall i | 0 <= i < |log| && SettlesOn(FoldLog(fold, log[..i]), log[i], key) :: !log[i].verb.Create?
    ensures var was, after := fold[key].entity, FoldLog(fold, log);
            && key in after && after[key].entity.deletedAt.Some? && LeftAs(key, was.state, after[key].entity.state)
            && ((forall row | row in log :: row.key == key ==> !row.verb.Delete?) ==> after[key].entity.deletedAt == was.deletedAt)
  {
    hide FoldRow, SettlesOn, Touch;
    if log != [] {
      var n := |log| - 1;
      var before, row := FoldLog(fold, log[..n]), log[n];
      assert row in log && forall r | r in log[..n] :: r in log;
      assert forall i | 0 <= i < n :: log[..n][..i] == log[..i];
      TombstoneWins(fold, log[..n], key);
      StepOf(before, row, key);
      if SettlesOn(before, row, key) {
        SettlesAs(before, row, key);
        TombstoneStays(before[key].entity, Settle(before, row).value);
      }
    }
  }

  /** A delete dates the tombstone with the time the server stored it at, until the entity is created or deleted again. */
  lemma DeleteIsDated(fold: Fold, row: Op, log: seq<Op>, key: Key)
    requires row.verb.Delete? && row.key == key
    requires forall op | op in log :: op.key == key ==> !op.verb.Delete?
    requires forall i | 0 <= i < |log| && SettlesOn(FoldLog(FoldRow(fold, row), log[..i]), log[i], key) :: !log[i].verb.Create?
    ensures var after := FoldLog(fold, [row] + log); key in after && after[key].entity.deletedAt == Some(row.serverTs)
  {
    hide SettlesOn;
    assert [row][..0] == [] && FoldLog(fold, [row]) == FoldRow(FoldLog(fold, []), row);
    FoldLogAppend(fold, [row], log);
    TombstoneWins(FoldRow(fold, row), log, key);
  }

  /** Settling changes no verb, and moves nothing but a revision's create. */
  lemma SettlesAs(fold: Fold, row: Op, key: Key)
    requires SettlesOn(fold, row, key)
    ensures Settle(fold, row).Some? && Settle(fold, row).value.verb == row.verb
    ensures !row.verb.Create? ==> Settle(fold, row).value == row && row.key == key
  {
    hide Again, Taken, FirstFree;
  }

  /**
   * A create after the delete begins the entity again: nothing of the deleted one survives but how often
   * it was written, whatever it was.
   */
  lemma BeginsAgain(was: Entity, other: Entity, row: Op)
    requires row.verb.Create? && was.deletedAt.Some? && other.deletedAt.Some?
    ensures var a, b := Touch(was, row), Touch(other, row);
            && a.deletedAt.None? && a.version == was.version + 1
            && a.state == b.state && a.superseded == b.superseded && a.fieldWrites == b.fieldWrites
            && a.createdSeq == b.createdSeq && a.createdAt == b.createdAt && a.createdBy == b.createdBy
  {
    hide Carried;
  }

  // ----- A vocabulary's order -------------------------------------------------------------

  /** What is listed without an entry: everything else, where it was. */
  lemma {:induction false} ListedDropsOne(items: seq<Json>, id: string)
    ensures Str(id) !in Listed(items, id)
    ensures forall item | item != Str(id) :: multiset(Listed(items, id))[item] == multiset(items)[item]
    ensures Str(id) !in items ==> Listed(items, id) == items
  {
    if items != [] {
      ListedDropsOne(items[1..], id);
      assert items == [items[0]] + items[1..];
      assert Listed(items, id) == (if items[0] == Str(id) then [] else [items[0]]) + Listed(items[1..], id);
    }
  }

  lemma {:induction false} ListedInOrder(a: seq<Json>, b: seq<Json>, id: string)
    ensures Listed(a + b, id) == Listed(a, id) + Listed(b, id)
  {
    if a == [] {
      assert a + b == b;
    } else {
      assert (a + b)[1..] == a[1..] + b;
      ListedInOrder(a[1..], b, id);
    }
  }

  /** A create of a status or kind that was deleted. */
  predicate AddsBack(fold: Fold, row: Op) {
    && row.verb.Create? && row.key.Plain? && (row.key.kind == "status" || row.key.kind == "kind")
    && row.key in fold && fold[row.key].entity.deletedAt.Some?
  }

  /** The order written of a vocabulary, if there is one to read. */
  predicate HasOrder(fold: Fold, kind: string) {
    var key := Plain(kind, "@order");
    key in fold && "order" in fold[key].entity.state && fold[key].entity.state["order"].Arr?
  }

  /**
   * A status or kind created again after it was deleted has no place in the order written before, and
   * every other entry keeps its own.
   */
  lemma CreatedAgainHasNoPlace(fold: Fold, row: Op)
    requires AddsBack(fold, row) && row.key.id != "@order" && HasOrder(fold, row.key.kind)
    ensures var order := Plain(row.key.kind, "@order");
            var before, after := fold[order].entity.state["order"].items, FoldRow(fold, row)[order].entity.state;
            && "order" in after && after["order"] == Arr(Listed(before, row.key.id))
            && Str(row.key.id) !in Listed(before, row.key.id)
            && FoldRow(fold, row)[order].at == row.seqno
  {
    hide Touch;
    ListedDropsOne(fold[Plain(row.key.kind, "@order")].entity.state["order"].items, row.key.id);
  }

  /** And nothing else an operation does to another entity changes an order. */
  lemma OrderIsLeft(fold: Fold, row: Op, kind: string)
    requires HasOrder(fold, kind) && row.key != Plain(kind, "@order")
    ensures Plain(kind, "@order") in FoldRow(fold, row)
    ensures FoldRow(fold, row)[Plain(kind, "@order")].entity.state != fold[Plain(kind, "@order")].entity.state ==>
              AddsBack(fold, row) && row.key.kind == kind
  {
    hide Touch, Again, Taken, FirstFree;
  }

  // ----- Fields ---------------------------------------------------------------------------

  /** What an operation writes under a name: the value it carries, once its own two spellings are settled. */
  function Written(kind: string, held: Fields, row: Op, name: string): Option<Json> {
    Get(Carried(kind, held, row.payload), name)
  }

  /** Who last wrote a field, by other than a create. */
  function Wrote(e: Entity, name: string): Option<Write> {
    if name in e.fieldWrites then Some(e.fieldWrites[name]) else None
  }

  /** The operation speaks of a field: under its name or under the other spelling of a name. */
  predicate Speaks(row: Op, name: string) {
    name in row.payload || exists other | other in row.payload :: OtherSpelling(other) == name
  }

  lemma SilentKeeps(e: Entity, row: Op, name: string)
    requires e.deletedAt.None? && !row.verb.Delete? && !Speaks(row, name)
    ensures Get(Touch(e, row).state, name) == Get(e.state, name) && Touch(e, row).deletedAt.None?
  {
    hide SettleAttemptEnd, OtherSpelling;
    var carried := Carried(row.key.Kind(), e.state, row.payload);
    CarriedWithin(row.key.Kind(), e.state, row.payload);
    assert carried.Keys <= row.payload.Keys;
  }

  lemma CarriedWithin(kind: string, held: Fields, payload: Fields)
    ensures Carried(kind, held, payload).Keys <= payload.Keys
    ensures forall name | name in Carried(kind, held, payload) :: Carried(kind, held, payload)[name] == payload[name]
  {
    hide OtherSpelling, CarriesAttemptEnd, IsOrphanEnd, Ended;
  }

  /**
   * The state of a live entity holds a field's latest write: once an operation has written it, what it
   * wrote is there until an operation on the entity speaks of the field again, or deletes the entity. A
   * vocabulary's order is the one exception: an entry created again leaves it.
   */
  lemma {:induction false} LatestWriteHolds(fold: Fold, log: seq<Op>, key: Key, name: string)
    requires key in fold && fold[key].entity.deletedAt.None? && !(key.Plain? && key.id == "@order" && name == "order")
    requires forall i | 0 <= i < |log| && SettlesOn(FoldLog(fold, log[..i]), log[i], key) ::
      !log[i].verb.Delete? && !Speaks(Settle(FoldLog(fold, log[..i]), log[i]).value, name)
    ensures var after := FoldLog(fold, log);
            key in after && after[key].entity.deletedAt.None? && Get(after[key].entity.state, name) == Get(fold[key].entity.state, name)
  {
    hide FoldRow, Touch, Speaks, SettlesOn;
    if log != [] {
      var n := |log| - 1;
      var before, row := FoldLog(fold, log[..n]), log[n];
      assert forall i | 0 <= i < n :: log[..n][..i] == log[..i];
      LatestWriteHolds(fold, log[..n], key, name);
      StepOf(before, row, key);
      if SettlesOn(before, row, key) {
        SettlesAs(before, row, key);
        SilentKeeps(before[key].entity, Settle(before, row).value, name);
      } else {
        LeftKeeps(key, before[key].entity.state, FoldRow(before, row)[key].entity.state, name);
      }
    }
  }

  lemma LeftKeeps(key: Key, was: Fields, now: Fields, name: string)
    requires LeftAs(key, was, now) && !(key.Plain? && key.id == "@order" && name == "order")
    ensures Get(now, name) == Get(was, name)
  {
    if key.Plain? && key.id == "@order" {
      assert name in now <==> name in now - {"order"};
      assert name in was <==> name in was - {"order"};
      assert name in now ==> now[name] == (now - {"order"})[name];
      assert name in was ==> was[name] == (was - {"order"})[name];
    }
  }

  /** A write of a live entity: what it carries is in the state, and no name it carries is left in its other spelling. */
  lemma WriteIsThere(e: Entity, row: Op, name: string)
    requires e.deletedAt.None? && !row.verb.Delete? && Written(row.key.Kind(), e.state, row, name).Some?
    requires OtherSpelling(name) == name || Written(row.key.Kind(), e.state, row, OtherSpelling(name)).None?
    ensures var after := Touch(e, row);
            && Get(after.state, name) == Some(row.payload[name])
            && (OtherSpelling(name) != name ==> OtherSpelling(name) !in after.state)
            && (!row.verb.Create? ==> name in after.fieldWrites && (row.key.Kind() != "issue" ==> after.fieldWrites[name].seqno == row.seqno))
  {
    hide SettleAttemptEnd, OtherSpelling, ReopensOrigin;
    CarriedWithin(row.key.Kind(), e.state, row.payload);
  }
}
