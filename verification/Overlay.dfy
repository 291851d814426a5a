/**
 * A document's revisions as a step has left them, indexed by number and by body, so that a placement
 * looks at no others (`DocumentOverlay`, worker/src/fold-revisions.ts).
 */
module Overlay {
  import opened Types
  import opened Placement

  /** A revision as the index has it: what must be taken out again when the revision changes. */
  datatype Tracked = Tracked(number: nat, live: bool, body: Option<Json>)

  datatype DocumentOverlay = DocumentOverlay(
    live: map<nat, set<Key>>,
    bodies: map<Option<Json>, set<Key>>,
    at: map<Key, Tracked>)

  const NOTHING_TRACKED := DocumentOverlay(map[], map[], map[])

  /** What `===` can find equal to another body: an object never is. */
  predicate ComparableBody(body: Option<Json>) {
    body.Some? ==> body.value.Comparable()
  }

  function SetAt<K>(index: map<K, set<Key>>, at: K): set<Key> {
    if at in index then index[at] else {}
  }

  function Add<K>(index: map<K, set<Key>>, at: K, key: Key): map<K, set<Key>> {
    index[at := SetAt(index, at) + {key}]
  }

  /** An emptied set is dropped with its entry. */
  function Remove<K>(index: map<K, set<Key>>, at: K, key: Key): map<K, set<Key>> {
    var left := SetAt(index, at) - {key};
    if left == {} then index - {at} else index[at := left]
  }

  function TrackedOf(key: Key, entity: Entity): Tracked
    requires key.Rev?
  {
    Tracked(key.number, entity.deletedAt.None?, Get(entity.state, "body"))
  }

  function Track(overlay: DocumentOverlay, key: Key, entity: Entity): DocumentOverlay
    requires key.Rev?
  {
    var now := TrackedOf(key, entity);
    var listed := overlay.(at := overlay.at[key := now]);
    if !now.live then listed
    else
      listed.(live := Add(overlay.live, now.number, key),
              bodies := if ComparableBody(now.body) then Add(overlay.bodies, now.body, key) else overlay.bodies)
  }

  function Untrack(overlay: DocumentOverlay, key: Key): DocumentOverlay {
    if key !in overlay.at then overlay
    else
      var was := overlay.at[key];
      var listed := overlay.(at := overlay.at - {key});
      if !was.live then listed
      else
        listed.(live := Remove(overlay.live, was.number, key),
                bodies := if ComparableBody(was.body) then Remove(overlay.bodies, was.body, key) else overlay.bodies)
  }

  // ----- What the index says --------------------------------------------------------------

  /** Each revision is listed under its own number and body, if it is live, and under no other. */
  ghost predicate Consistent(overlay: DocumentOverlay) {
    && (forall key: Key, n: nat :: LiveListed(overlay, n, key))
    && (forall key: Key, body: Option<Json> :: BodyListed(overlay, body, key))
  }

  predicate LiveListed(overlay: DocumentOverlay, n: nat, key: Key) {
    key in SetAt(overlay.live, n) <==> key in overlay.at && overlay.at[key].live && overlay.at[key].number == n
  }

  predicate BodyListed(overlay: DocumentOverlay, body: Option<Json>, key: Key) {
    key in SetAt(overlay.bodies, body) <==>
      key in overlay.at && overlay.at[key].live && overlay.at[key].body == body && ComparableBody(body)
  }

  /** The index of a document's revisions as this fold holds them. */
  ghost predicate OverlayTrue(overlay: DocumentOverlay, fold: Fold, doc: string) {
    && Consistent(overlay)
    && (forall key :: key in overlay.at <==> key in fold && key.Rev? && key.doc == doc)
    && (forall key | key in overlay.at :: overlay.at[key] == TrackedOf(key, fold[key].entity))
  }

  lemma AddSetAt<K>(index: map<K, set<Key>>, at: K, key: Key, other: K)
    ensures SetAt(Add(index, at, key), other) == SetAt(index, other) + if other == at then {key} else {}
  {
  }

  lemma RemoveSetAt<K>(index: map<K, set<Key>>, at: K, key: Key, other: K)
    ensures SetAt(Remove(index, at, key), other) == SetAt(index, other) - if other == at then {key} else {}
  {
  }

  lemma TrackConsistent(overlay: DocumentOverlay, key: Key, entity: Entity)
    requires Consistent(overlay) && key.Rev? && key !in overlay.at
    ensures Consistent(Track(overlay, key, entity))
  {
    hide Add, SetAt, TrackedOf;
    var now, after := TrackedOf(key, entity), Track(overlay, key, entity);
    forall n: nat, other: Key ensures LiveListed(after, n, other) {
      assert LiveListed(overlay, n, other) && LiveListed(overlay, n, key);
      AddSetAt(overlay.live, now.number, key, n);
    }
    forall body: Option<Json>, other: Key ensures BodyListed(after, body, other) {
      assert BodyListed(overlay, body, other) && BodyListed(overlay, body, key);
      AddSetAt(overlay.bodies, now.body, key, body);
    }
  }

  lemma UntrackConsistent(overlay: DocumentOverlay, key: Key)
    requires Consistent(overlay)
    ensures Consistent(Untrack(overlay, key))
  {
    hide SetAt, Remove;
    if key in overlay.at {
      var was, after := overlay.at[key], Untrack(overlay, key);
      forall n: nat, other: Key ensures LiveListed(after, n, other) {
        assert LiveListed(overlay, n, other) && LiveListed(overlay, n, key);
        RemoveSetAt(overlay.live, was.number, key, n);
      }
      forall body: Option<Json>, other: Key ensures BodyListed(after, body, other) {
        assert BodyListed(overlay, body, other) && BodyListed(overlay, body, key);
        RemoveSetAt(overlay.bodies, was.body, key, body);
      }
    }
  }

  lemma UntrackAt(overlay: DocumentOverlay, key: Key)
    ensures Untrack(overlay, key).at == overlay.at - {key}
  {
  }

  lemma TrackAt(overlay: DocumentOverlay, key: Key, entity: Entity)
    requires key.Rev?
    ensures Track(overlay, key, entity).at == overlay.at[key := TrackedOf(key, entity)]
  {
  }

  /** A revision changed and observed: the index of what the step held is the index of what it holds. */
  lemma ObserveTrue(overlay: DocumentOverlay, fold: Fold, after: Fold, doc: string, key: Key)
    requires OverlayTrue(overlay, fold, doc) && key.Rev? && key.doc == doc && key in after
    requires OthersKept(fold, after, key)
    ensures OverlayTrue(Track(Untrack(overlay, key), key, after[key].entity), after, doc)
  {
    hide Consistent, Track, Untrack, TrackedOf;
    UntrackConsistent(overlay, key);
    UntrackAt(overlay, key);
    TrackConsistent(Untrack(overlay, key), key, after[key].entity);
    TrackAt(Untrack(overlay, key), key, after[key].entity);
  }

  /** Revisions other than this one are as they were. */
  ghost predicate OthersKept(fold: Fold, after: Fold, key: Key) {
    forall other: Key | other.Rev? && other != key :: (other in after <==> other in fold) && (other in fold ==> after[other] == fold[other])
  }

  lemma ElsewhereTrue(overlay: DocumentOverlay, fold: Fold, after: Fold, doc: string, key: Key)
    requires OverlayTrue(overlay, fold, doc) && OthersKept(fold, after, key) && !(key.Rev? && key.doc == doc)
    ensures OverlayTrue(overlay, after, doc)
  {
    hide Consistent;
  }

  /** Built from the fold when a document is first asked for. */
  method Build(fold: Fold, doc: string) returns (overlay: DocumentOverlay)
    ensures OverlayTrue(overlay, fold, doc)
  {
    overlay := NOTHING_TRACKED;
    var todo := fold.Keys;
    ghost var seen: Fold := map[];
    while todo != {}
      invariant todo <= fold.Keys && seen == fold - todo
      invariant OverlayTrue(overlay, seen, doc)
    {
      hide OverlayTrue;
      var key: Key :| key in todo;
      ghost var more := fold - (todo - {key});
      SeenMore(fold, seen, todo, key);
      if key.Rev? && key.doc == doc {
        TrackNew(overlay, seen, more, doc, key);
        overlay := Track(overlay, key, fold[key].entity);
      } else {
        ElsewhereTrue(overlay, seen, more, doc, key);
      }
      todo, seen := todo - {key}, more;
    }
    assert seen == fold;
  }

  lemma SeenMore(fold: Fold, seen: Fold, todo: set<Key>, key: Key)
    requires key in todo && todo <= fold.Keys && seen == fold - todo
    ensures var more := fold - (todo - {key}); key !in seen && more == seen[key := fold[key]] && OthersKept(seen, more, key)
  {
    var more := fold - (todo - {key});
    assert more == seen[key := fold[key]];
  }

  lemma TrackNew(overlay: DocumentOverlay, fold: Fold, after: Fold, doc: string, key: Key)
    requires OverlayTrue(overlay, fold, doc) && key !in fold && key.Rev? && key.doc == doc && key in after
    requires OthersKept(fold, after, key)
    ensures OverlayTrue(Track(overlay, key, after[key].entity), after, doc)
  {
    hide Consistent, Track, TrackedOf;
    TrackConsistent(overlay, key, after[key].entity);
    TrackAt(overlay, key, after[key].entity);
  }

  // ----- What a placement asks of it ------------------------------------------------------

  /** A number is held in memory exactly when the index lists a revision there. */
  lemma HeldInMemory(overlay: DocumentOverlay, fold: Fold, doc: string, number: nat)
    requires OverlayTrue(overlay, fold, doc)
    ensures SetAt(overlay.live, number) != {} <==> exists key | key in fold :: LiveRev(fold, key, doc) && key.number == number
  {
    if key :| key in fold && LiveRev(fold, key, doc) && key.number == number {
      assert key in overlay.at && LiveListed(overlay, number, key);
    }
    if key :| key in SetAt(overlay.live, number) {
      assert LiveListed(overlay, number, key);
      assert LiveRev(fold, key, doc);
    }
  }

  /** A live revision that is the same as one arriving is listed under its body. */
  lemma SameIsListed(overlay: DocumentOverlay, fold: Fold, doc: string, key: Key, payload: Fields)
    requires OverlayTrue(overlay, fold, doc) && LiveRev(fold, key, doc) && SameRevision(fold[key].entity.state, payload)
    ensures key in SetAt(overlay.bodies, Get(payload, "body"))
  {
    assert key in overlay.at && BodyListed(overlay, Get(payload, "body"), key);
  }

  lemma ListedIsLive(overlay: DocumentOverlay, fold: Fold, doc: string, key: Key, body: Option<Json>)
    requires OverlayTrue(overlay, fold, doc) && key in SetAt(overlay.bodies, body)
    ensures LiveRev(fold, key, doc) && key in overlay.at && overlay.at[key].number == key.number
  {
    assert BodyListed(overlay, body, key);
  }
}
