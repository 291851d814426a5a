/** Paging the fold at a cutoff: a snapshot by key, a restore by claim (worker/src/fold-store.ts). */
module Pages {
  import opened Types
  import opened FoldRule
  import opened FoldRun
  import opened Checkpoint
  import opened Listing
  import opened FoldStore

  type KeyOrder = (Key, Key) -> bool

  datatype FoldPage = FoldPage(keys: seq<Key>, entities: seq<Entity>, hasMore: bool, deferred: bool)

  /** What a page may carry: so many entities, and no more than `room` of their weight. */
  datatype Room = Room(limit: nat, weigh: Entity -> nat, room: nat, atLeastOne: bool)

  /** Everything a page could still serve: the keys of the fold after the last one served, in order. */
  function Rest(fold: Fold, after: Option<Key>, less: KeyOrder): seq<Key>
    requires StrictOrder(less)
  {
    Sorted(Beyond(fold.Keys, after, less), less)
  }

  /** What a list of entities weighs. */
  function Weight(fold: Fold, keys: seq<Key>, weigh: Entity -> nat): nat {
    if keys == [] then 0
    else
      var n := |keys| - 1;
      Weight(fold, keys[..n], weigh) + if keys[n] in fold then weigh(fold[keys[n]].entity) else 0
  }

  /** As many of a list as there is room for, the first of them in any case where one is always served, and no fewer. */
  ghost predicate Fills(fold: Fold, list: seq<Key>, room: Room, n: nat) {
    && n <= |list| && n <= room.limit
    && (n > 1 || !room.atLeastOne ==> Weight(fold, list[..n], room.weigh) <= room.room)
    && (n < |list| && n < room.limit ==>
          (n > 0 || !room.atLeastOne) && room.room < Weight(fold, list[..n + 1], room.weigh))
  }

  lemma {:induction false} WeightSame(fold: Fold, other: Fold, keys: seq<Key>, weigh: Entity -> nat)
    requires forall key | key in keys :: key in fold && key in other && fold[key].entity == other[key].entity
    ensures Weight(fold, keys, weigh) == Weight(other, keys, weigh)
  {
    if keys != [] {
      var n := |keys| - 1;
      assert keys[n] in keys && forall key | key in keys[..n] :: key in keys;
      WeightSame(fold, other, keys[..n], weigh);
    }
  }

  /** What fills a page depends on the first of the list, and on the entities there. */
  lemma FillsSame(fold: Fold, other: Fold, list: seq<Key>, more: seq<Key>, room: Room, n: nat)
    requires Fills(fold, list, room, n) && Take(list, room.limit + 1) == Take(more, room.limit + 1)
    requires forall key | key in list :: key in fold && key in other && fold[key].entity == other[key].entity
    ensures Fills(other, more, room, n)
  {
    hide Weight;
    assert list[..n] == Take(list, room.limit + 1)[..n] == more[..n];
    WeightSame(fold, other, list[..n], room.weigh);
    if n < |more| && n < room.limit {
      assert list[..n + 1] == Take(list, room.limit + 1)[..n + 1] == more[..n + 1];
      WeightSame(fold, other, list[..n + 1], room.weigh);
    }
  }

  /** A page is the next entities of the fold, as many as fit and no fewer, and says truly whether more follow. */
  ghost predicate PageTrue(fold: Fold, after: Option<Key>, less: KeyOrder, room: Room, page: FoldPage)
    requires StrictOrder(less)
  {
    var rest := Rest(fold, after, less);
    && page.keys <= rest && |page.keys| <= room.limit
    && |page.entities| == |page.keys|
    && (forall i | 0 <= i < |page.keys| :: page.keys[i] in fold && page.entities[i] == fold[page.keys[i]].entity)
    && (page.hasMore <==> |page.keys| < |rest|)
    && (page.deferred <==> page.keys == [] && rest != [])
    && (room.atLeastOne ==> !page.deferred)
    && Fills(fold, rest, room, |page.keys|)
  }

  /** How much of a list fits: the longest prefix within the room, its first entry always. */
  method Cut(fold: Fold, ordered: seq<Key>, room: Room) returns (n: nat)
    requires forall key | key in ordered :: key in fold
    requires room.limit > 0
    ensures Fills(fold, ordered, room, n)
  {
    n := 0;
    var spent := 0;
    while n < |ordered| && n < room.limit
      invariant n <= |ordered| && n <= room.limit && spent == Weight(fold, ordered[..n], room.weigh)
      invariant n > 1 || !room.atLeastOne ==> spent <= room.room
    {
      assert ordered[..n + 1][..n] == ordered[..n];
      var cost := room.weigh(fold[ordered[n]].entity);
      if (n > 0 || !room.atLeastOne) && spent + cost > room.room {
        break;
      }
      spent, n := spent + cost, n + 1;
    }
  }

  /** The entities a page can serve: those a mark lists first, and those the tail made. */
  function Candidates(base: set<Key>, created: set<Key>, after: Option<Key>, less: KeyOrder, most: nat): set<Key>
    requires StrictOrder(less)
  {
    (set key | key in Take(Sorted(Beyond(base, after, less), less), most)) + Beyond(created, after, less)
  }

  /** What the whole fold lists first is among them. */
  lemma CandidateListed(base: set<Key>, created: set<Key>, after: Option<Key>, less: KeyOrder, most: nat, key: Key)
    requires StrictOrder(less) && key in Take(Sorted(Beyond(base + created, after, less), less), most)
    ensures key in Candidates(base, created, after, less, most)
  {
    var here, every := Beyond(base, after, less), Beyond(base + created, after, less);
    SortedLists(every, less);
    assert key in every && here <= every;
    if key in here {
      EarlierAmongFewer(here, every, less, most, key);
    }
  }

  lemma CandidatesAreLater(base: set<Key>, created: set<Key>, after: Option<Key>, less: KeyOrder, most: nat)
    requires StrictOrder(less)
    ensures Candidates(base, created, after, less, most) <= Beyond(base + created, after, less)
  {
    SortedLists(Beyond(base, after, less), less);
  }

  /** Their first are the fold's first. */
  lemma CandidatesSuffice(base: set<Key>, created: set<Key>, after: Option<Key>, less: KeyOrder, most: nat)
    requires StrictOrder(less)
    ensures var few, every := Candidates(base, created, after, less, most), Beyond(base + created, after, less);
            few <= every && Take(Sorted(few, less), most) == Take(Sorted(every, less), most)
  {
    var few, every := Candidates(base, created, after, less, most), Beyond(base + created, after, less);
    CandidatesAreLater(base, created, after, less, most);
    forall key | key in Take(Sorted(every, less), most) ensures key in few {
      CandidateListed(base, created, after, less, most, key);
    }
    TakeOfFewer(few, every, less, most);
  }

  /** What a page promises: with nothing cleared between the queries that made it, that it is true of the fold. */
  ghost predicate PageAnswers(marked: Seen, loaded: Seen, listed: Seen, cutoff: nat, after: Option<Key>, less: KeyOrder,
                              room: Room, page: FoldPage)
    requires StrictOrder(less)
  {
    Uncleared(marked, loaded) && Uncleared(loaded, listed) ==> PageTrue(FoldAt(marked.log, cutoff), after, less, room, page)
  }

  /** What a request that cannot serve its page writes before it refuses: part of the tail, and a mark nearer the cutoff. */
  ghost predicate MovesOn(marked: Seen, loaded: Seen, cutoff: nat, step: Option<Flight>) {
    && step.Some? && FlightTrue(step.value, loaded.log, loaded.head) && Readable(loaded.cp, step.value.from)
    && step.value.mark.seqno < cutoff
    && forall seqno | seqno in marked.cp.marks && seqno <= cutoff :: seqno < step.value.mark.seqno
  }

  /**
   * `foldedPage`: the fold at a cutoff, the page of entities whose keys follow `after`. The mark, the
   * tail, what it folds onto, the list of what the mark holds and the entities themselves are read by
   * queries one after another. None when the tail does not fit the request, and then what was folded of it
   * is written; or when a version listed is gone when it is read. Only the entities the page can serve are
   * read.
   */
  method FoldedPage(digest: Json -> nat, marked: Seen, read: Seen, loaded: Seen, listed: Seen, served: Seen,
                    cutoff: nat, after: Option<Key>, less: KeyOrder, room: Room, limits: Limits)
    returns (page: Option<FoldPage>, step: Option<Flight>)
    requires SeenTrue(marked) && Later(marked, read) && Later(read, loaded) && cutoff <= marked.head
    requires Later(loaded, listed) && Later(listed, served)
    requires StrictOrder(less) && room.limit > 0
    ensures page.Some? ==> PageAnswers(marked, loaded, listed, cutoff, after, less, room, page.value)
    ensures Uncleared(marked, loaded) && Uncleared(loaded, listed) && Uncleared(listed, served) ==>
      cutoff in marked.cp.marks ==> page.Some?
    ensures Uncleared(marked, loaded) && Uncleared(loaded, listed) && Uncleared(listed, served) ==>
      forall at: nat | TailFits(digest, marked, cutoff, at, limits) :: page.Some?
    ensures Uncleared(marked, loaded) && Uncleared(loaded, listed) && Uncleared(listed, served)
      ==> NoClash(digest, UpTo(marked.log, cutoff)) && !limits.mayBeEmpty ==> page.Some? || MovesOn(marked, loaded, cutoff, step)
  {
    hide FoldAt, CheckpointTrue, FlightTrue, View, PageTrue, TailFits, NoClash, UpTo, TailTrue;
    var base, run, whole := FoldTail(digest, marked, read, loaded, cutoff, limits);
    if !whole {
      if Uncleared(marked, loaded) {
        PartIsTrue(loaded, cutoff, base, run);
      }
      return None, if run.folded > 0 then Some(PartOf(base, run)) else None;
    }
    var list := View(listed.cp, base.seqno);
    VersionsAgree(listed, served, base.seqno);
    page := ServePage(list, served.cp, run.fold, run.created, after, less, room);
    step := None;
    if Uncleared(marked, loaded) {
      PageOfTail(marked, loaded, listed, served, cutoff, base, run, after, less, room, page);
    }
  }

  /**
   * A client that asks for a page until it is served. Each request reads, and writes if it must refuse,
   * after whatever else the service has done meanwhile short of a clear; and one of them serves the page.
   */
  method AskForPage(digest: Json -> nat, start: Seen, world: (nat, Seen) -> Seen, cutoff: nat, after: Option<Key>,
                    less: KeyOrder, room: Room, limits: Limits)
    returns (page: FoldPage)
    requires SeenTrue(start) && NothingCleared(world) && cutoff <= start.head && !limits.mayBeEmpty
    requires NoClash(digest, UpTo(start.log, cutoff)) && StrictOrder(less) && room.limit > 0
    ensures PageTrue(FoldAt(start.log, cutoff), after, less, room, page)
  {
    hide CheckpointTrue, NoClash, NothingCleared, FlightTrue, UpTo, View, FoldAt, PageTrue, StrictOrder, TailFits,
      Readable;
    UnclearedSame(start);
    var now, i := start, 0;
    ghost var floor: Option<nat> := None;
    while true
      invariant SeenTrue(now) && Uncleared(start, now)
      invariant floor.Some? ==> floor.value <= cutoff && floor.value in now.cp.marks
      decreases if floor.None? then cutoff + 1 else cutoff - floor.value
    {
      var marked := Pass(now, world, i);
      var read := Pass(marked, world, i + 1);
      var loaded := Pass(read, world, i + 2);
      var listed := Pass(loaded, world, i + 3);
      var served := Pass(listed, world, i + 4);
      UnclearedJoin(start, now, marked);
      UnclearedJoin(marked, read, loaded);
      PrefixesAgree(start, marked);
      var answer, step := FoldedPage(digest, marked, read, loaded, listed, served, cutoff, after, less, room, limits);
      if answer.Some? {
        return answer.value;
      }
      UnclearedJoin(start, marked, loaded);
      var later := Pass(loaded, world, i + 5);
      now := WritePart(start, loaded, later, step.value);
      floor, i := Some(step.value.mark.seqno), i + 6;
    }
  }

  /** What a query finds some time after another. */
  method Pass(now: Seen, world: (nat, Seen) -> Seen, i: nat) returns (later: Seen)
    requires SeenTrue(now) && NothingCleared(world)
    ensures SeenTrue(later) && Uncleared(now, later) && now.head <= later.head
  {
    hide CheckpointTrue, NothingCleared;
    WorldKeeps(world, i, now);
    later := world(i, now);
  }

  lemma PageOfTail(marked: Seen, loaded: Seen, listed: Seen, served: Seen, cutoff: nat,
                   base: Mark, run: RunResult, after: Option<Key>, less: KeyOrder, room: Room, page: Option<FoldPage>)
    requires SeenTrue(marked) && Uncleared(marked, loaded) && cutoff <= marked.head
    requires Later(loaded, listed) && Later(listed, served) && StrictOrder(less)
    requires IsMark(marked.cp, base) && TailTrue(loaded, cutoff, base, run, true)
    requires var list := View(listed.cp, base.seqno);
             Served(list, served.cp, run.fold, run.created, after, less, room, page)
    ensures page.Some? && Uncleared(loaded, listed) ==> PageTrue(FoldAt(marked.log, cutoff), after, less, room, page.value)
    ensures Uncleared(loaded, listed) && Uncleared(listed, served) ==> page.Some?
  {
    hide FoldAt, CheckpointTrue, FlightTrue, View, PageTrue, StrictOrder;
    PrefixesAgree(marked, loaded);
    BaseOf(marked, loaded, base);
    if Uncleared(loaded, listed) {
      UnclearedJoin(marked, loaded, listed);
      BaseOf(marked, listed, base);
      ReadsAgree(marked, loaded, base.seqno);
      ReadsAgree(marked, listed, base.seqno);
      if Uncleared(listed, served) {
        ListedHeld(listed, served, base.seqno);
      }
    }
  }

  /** A version listed is there to be read, so long as nothing was cleared between. */
  lemma ListedHeld(listed: Seen, served: Seen, at: nat)
    requires Uncleared(listed, served)
    ensures ReadIn(View(listed.cp, at), served.cp)
  {
    forall key | key in View(listed.cp, at) ensures (key, View(listed.cp, at)[key].at) in served.cp.versions {
      KeyHasVersion(listed.cp, key, at);
    }
  }

  /** Every version a list names is there to be read. */
  ghost predicate ReadIn(list: Fold, cp: Checkpoint) {
    forall key | key in list :: (key, list[key].at) in cp.versions
  }

  /** A page of what a list and a tail hold between them, unless a version it lists is gone. */
  ghost predicate Served(list: Fold, cp: Checkpoint, tail: Fold, created: set<Key>, after: Option<Key>,
                         less: KeyOrder, room: Room, page: Option<FoldPage>)
    requires StrictOrder(less)
  {
    created == (list + tail).Keys - list.Keys ==>
      (page.Some? ==> PageTrue(list + tail, after, less, room, page.value)) && (ReadIn(list, cp) ==> page.Some?)
  }

  /** A list no entity is missing from is what every page of it needs, and what some page of it cannot do without. */
  lemma PagesTrueIff(list: Fold, fold: Fold, less: KeyOrder)
    requires StrictOrder(less) && list.Keys <= fold.Keys
    ensures (forall after, room, page | PageTrue(list, after, less, room, page) :: PageTrue(fold, after, less, room, page))
            <==> forall key | key in fold :: key in list && list[key].entity == fold[key].entity
  {
    hide Rest, PageTrue;
    if forall key | key in fold :: key in list && list[key].entity == fold[key].entity {
      assert list.Keys == fold.Keys;
      forall after, room, page | PageTrue(list, after, less, room, page) ensures PageTrue(fold, after, less, room, page) {
        SamePage(list, fold, after, less, room, page);
      }
    }
    if forall after, room, page | PageTrue(list, after, less, room, page) :: PageTrue(fold, after, less, room, page) {
      WholePageShows(list, fold, less);
    }
  }

  lemma SamePage(list: Fold, fold: Fold, after: Option<Key>, less: KeyOrder, room: Room, page: FoldPage)
    requires StrictOrder(less) && list.Keys == fold.Keys && forall key | key in fold :: list[key].entity == fold[key].entity
    requires PageTrue(list, after, less, room, page)
    ensures PageTrue(fold, after, less, room, page)
  {
    hide StrictOrder, Weight;
    var rest := Rest(list, after, less);
    SortedLists(Beyond(list.Keys, after, less), less);
    FillsSame(list, fold, rest, rest, room, |page.keys|);
  }

  /** The page of everything a fold lists. */
  function WholePage(list: Fold, less: KeyOrder): FoldPage
    requires StrictOrder(less)
  {
    var keys := Rest(list, None, less);
    EveryKeyListed(list, less);
    FoldPage(keys, seq(|keys|, i requires 0 <= i < |keys| => list[keys[i]].entity), false, false)
  }

  lemma EveryKeyListed(fold: Fold, less: KeyOrder)
    requires StrictOrder(less)
    ensures forall key :: key in Rest(fold, None, less) <==> key in fold
  {
    hide StrictOrder;
    SortedLists(Beyond(fold.Keys, None, less), less);
  }

  lemma {:induction false} WeighsNothing(fold: Fold, keys: seq<Key>, weigh: Entity -> nat)
    requires forall e :: weigh(e) == 0
    ensures Weight(fold, keys, weigh) == 0
  {
    if keys != [] {
      WeighsNothing(fold, keys[..|keys| - 1], weigh);
    }
  }

  lemma WholePageTrue(list: Fold, less: KeyOrder, room: Room)
    requires StrictOrder(less) && room.limit == |Rest(list, None, less)| && !room.atLeastOne
    requires forall e :: room.weigh(e) == 0
    ensures PageTrue(list, None, less, room, WholePage(list, less))
  {
    hide Rest;
    WeighsNothing(list, Rest(list, None, less), room.weigh);
    assert Rest(list, None, less)[..room.limit] == Rest(list, None, less);
    EveryKeyListed(list, less);
  }

  lemma WholePageShows(list: Fold, fold: Fold, less: KeyOrder)
    requires StrictOrder(less) && list.Keys <= fold.Keys
    requires forall after, room, page | PageTrue(list, after, less, room, page) :: PageTrue(fold, after, less, room, page)
    ensures forall key | key in fold :: key in list && list[key].entity == fold[key].entity
  {
    hide Rest, StrictOrder;
    var page := WholePage(list, less);
    var room := Room(|page.keys|, (e: Entity) => 0, 0, false);
    WholePageTrue(list, less, room);
    assert PageTrue(fold, None, less, room, page);
    EveryKeyListed(list, less);
    EveryKeyListed(fold, less);
    forall key | key in fold ensures key in list && list[key].entity == fold[key].entity {
      assert key in Rest(fold, None, less) && page.keys == Rest(fold, None, less);
      var i :| 0 <= i < |page.keys| && page.keys[i] == key;
    }
  }

  /** What was read of the first of a list: what the tail holds as it left it, and the version listed of the rest. */
  ghost predicate CutRead(held: Fold, ordered: seq<Key>, cp: Checkpoint, tail: Fold, n: nat,
                          entities: Option<seq<Entity>>)
    requires n <= |ordered| && forall key | key in ordered :: key in held
  {
    && (entities.Some? ==>
          && |entities.value| == n
          && forall i | 0 <= i < n ::
               if ordered[i] in tail then entities.value[i] == held[ordered[i]].entity
               else (ordered[i], held[ordered[i]].at) in cp.versions
                    && entities.value[i] == cp.versions[(ordered[i], held[ordered[i]].at)])
    && ((forall key | key in ordered && key !in tail :: (key, held[key].at) in cp.versions) ==> entities.Some?)
  }

  /** Cut a list to what fits, and read what the tail did not of what is left. */
  method ReadCut(held: Fold, ordered: seq<Key>, cp: Checkpoint, tail: Fold, room: Room)
    returns (n: nat, entities: Option<seq<Entity>>)
    requires (forall key | key in ordered :: key in held) && room.limit > 0
    ensures Fills(held, ordered, room, n) && CutRead(held, ordered, cp, tail, n, entities)
  {
    n := Cut(held, ordered, room);
    var read := [];
    for i := 0 to n
      invariant |read| == i
      invariant forall j | 0 <= j < i ::
        if ordered[j] in tail then read[j] == held[ordered[j]].entity
        else (ordered[j], held[ordered[j]].at) in cp.versions && read[j] == cp.versions[(ordered[j], held[ordered[j]].at)]
    {
      var key := ordered[i];
      if key in tail {
        read := read + [held[key].entity];
      } else if (key, held[key].at) in cp.versions {
        read := read + [cp.versions[(key, held[key].at)]];
      } else {
        return n, None;
      }
    }
    entities := Some(read);
  }

  /** Serve a page of the fold a mark and a tail hold between them, reading what the tail did not. */
  method ServePage(list: Fold, cp: Checkpoint, tail: Fold, created: set<Key>, after: Option<Key>, less: KeyOrder,
                   room: Room)
    returns (page: Option<FoldPage>)
    requires StrictOrder(less) && room.limit > 0
    requires created <= tail.Keys
    requires (forall key | key in list && (key, list[key].at) in cp.versions :: cp.versions[(key, list[key].at)] == list[key].entity)
    ensures Served(list, cp, tail, created, after, less, room, page)
  {
    hide Candidates, Served, StrictOrder;
    var candidates := Candidates(list.Keys, created, after, less, room.limit + 1);
    CandidatesListed(list, tail, created, after, less, room.limit + 1);
    var held := map key | key in candidates :: if key in tail then tail[key] else list[key];
    assert held.Keys == candidates;
    SortedLists(candidates, less);
    var ordered := Sorted(candidates, less);
    var n, entities := ReadCut(held, ordered, cp, tail, room);
    if entities.None? {
      page := None;
    } else {
      page := Some(FoldPage(ordered[..n], entities.value, n < |ordered|, n == 0 && ordered != []));
    }
    PageServed(list, cp, tail, created, after, less, room, held, n, entities, page);
  }

  lemma PageServed(list: Fold, cp: Checkpoint, tail: Fold, created: set<Key>, after: Option<Key>, less: KeyOrder,
                   room: Room, held: Fold, n: nat, entities: Option<seq<Entity>>, page: Option<FoldPage>)
    requires StrictOrder(less) && room.limit > 0
    requires held.Keys == Candidates(list.Keys, created, after, less, room.limit + 1)
    requires forall key | key in held :: (key in tail || key in list) && held[key] == if key in tail then tail[key] else list[key]
    requires forall key | key in list && (key, list[key].at) in cp.versions :: cp.versions[(key, list[key].at)] == list[key].entity
    requires var ordered := Sorted(held.Keys, less);
             && Fills(held, ordered, room, n)
             && (forall key | key in ordered :: key in held)
             && CutRead(held, ordered, cp, tail, n, entities)
             && page == if entities.None? then None
                        else Some(FoldPage(ordered[..n], entities.value, n < |ordered|, n == 0 && ordered != []))
    ensures Served(list, cp, tail, created, after, less, room, page)
  {
    hide Candidates, Rest, PageTrue, StrictOrder, Sorted, Weight;
    var ordered := Sorted(held.Keys, less);
    if created == (list + tail).Keys - list.Keys {
      CandidatesOf(list, tail, created, after, less, room.limit + 1);
      HeldOfBoth(list, tail, held);
      if page.Some? {
        PageAssembled(list + tail, after, less, room, held, ordered, n, entities.value);
      }
    }
  }

  lemma HeldOfBoth(list: Fold, tail: Fold, held: Fold)
    requires forall key | key in held :: (key in tail || key in list) && held[key] == if key in tail then tail[key] else list[key]
    ensures forall key | key in held :: key in list + tail && held[key] == (list + tail)[key]
  {
  }

  lemma PageAssembled(fold: Fold, after: Option<Key>, less: KeyOrder, room: Room,
                      held: Fold, ordered: seq<Key>, n: nat, entities: seq<Entity>)
    requires StrictOrder(less) && |entities| == n && Fills(held, ordered, room, n) && room.limit > 0
    requires Take(ordered, room.limit + 1) == Take(Rest(fold, after, less), room.limit + 1)
    requires forall key | key in held :: key in fold && held[key] == fold[key]
    requires forall i | 0 <= i < n :: ordered[i] in held && entities[i] == held[ordered[i]].entity
    requires forall key | key in ordered :: key in held
    ensures PageTrue(fold, after, less, room, FoldPage(ordered[..n], entities, n < |ordered|, n == 0 && ordered != []))
  {
    hide Rest, Weight;
    FillsSame(held, fold, ordered, Rest(fold, after, less), room, n);
    PageOfFew(Rest(fold, after, less), ordered, room.limit, n);
  }

  lemma CandidatesOf(stored: Fold, tail: Fold, created: set<Key>, after: Option<Key>, less: KeyOrder, most: nat)
    requires StrictOrder(less) && created == (stored + tail).Keys - stored.Keys
    ensures Take(Sorted(Candidates(stored.Keys, created, after, less, most), less), most)
         == Take(Rest(stored + tail, after, less), most)
  {
    CandidatesSuffice(stored.Keys, created, after, less, most);
    var keys := (stored + tail).Keys;
    assert stored.Keys + created == keys;
    assert Rest(stored + tail, after, less) == Sorted(Beyond(keys, after, less), less);
  }

  /** The candidates are listed, or made by the tail. */
  lemma CandidatesListed(list: Fold, tail: Fold, created: set<Key>, after: Option<Key>, less: KeyOrder, most: nat)
    requires StrictOrder(less) && created <= tail.Keys
    ensures forall key | key in Candidates(list.Keys, created, after, less, most) :: key in tail || key in list
  {
    CandidatesAreLater(list.Keys, created, after, less, most);
  }

  lemma PageOfFew(all: seq<Key>, ordered: seq<Key>, limit: nat, n: nat)
    requires Take(ordered, limit + 1) == Take(all, limit + 1) && n <= |ordered| && n <= limit
    ensures ordered[..n] <= all && (n < |ordered| <==> n < |all|) && (ordered == [] <==> all == [])
  {
    assert ordered[..n] == Take(ordered, limit + 1)[..n];
  }

  // ----- A restore's order ----------------------------------------------------------------

  function ClaimField(key: Key): Option<string> {
    if key.Kind() == "issue" then Some("identifier")
    else if key.Kind() == "project" then Some("slug")
    else if key.Plain? && key.id == "@order" then Some("order")
    else None
  }

  /** Where an entity's claim sits in its log: its identifier, slug or order's last write, else its create. */
  function ClaimSeq(key: Key, entity: Entity): Option<nat> {
    var field := ClaimField(key);
    if field.Some? && field.value in entity.fieldWrites then Some(entity.fieldWrites[field.value].seqno)
    else entity.createdSeq
  }

  /** `fold_versions.stage_order`. */
  function StageOrder(fold: Fold, key: Key): nat {
    if key in fold then ClaimSeq(key, fold[key].entity).GetOr(0) else 0
  }

  /** By claim, then by key. */
  function StageLess(fold: Fold, less: KeyOrder): KeyOrder {
    (a, b) => StageOrder(fold, a) < StageOrder(fold, b) || (StageOrder(fold, a) == StageOrder(fold, b) && less(a, b))
  }

  lemma StageLessOrders(fold: Fold, less: KeyOrder)
    requires StrictOrder(less)
    ensures StrictOrder(StageLess(fold, less))
  {
    forall a, b, c ensures Ordered(StageLess(fold, less), a, b, c) {
      assert Ordered(less, a, b, c);
    }
  }

  /** The order a restore stages a backup's entities in. */
  function RestoreOrder(fold: Fold, less: KeyOrder): (list: seq<Key>)
    requires StrictOrder(less)
    ensures |list| == |fold|
  {
    StageLessOrders(fold, less);
    assert |fold.Keys| == |fold|;
    Sorted(fold.Keys, StageLess(fold, less))
  }

  /** What a restore's page lists: the entities after the last one staged, whose place an earlier query read. */
  function Unstaged(list: Fold, after: Option<Key>, place: nat, less: KeyOrder): set<Key> {
    set key | key in list && (after.None? || place < StageOrder(list, key) || (place == StageOrder(list, key) && less(after.value, key)))
  }

  lemma UnstagedIsBeyond(list: Fold, after: Option<Key>, less: KeyOrder)
    ensures Unstaged(list, after, if after.None? then 0 else StageOrder(list, after.value), less)
         == Beyond(list.Keys, after, StageLess(list, less))
  {
  }

  /** A restore's page: the next entities in stage order, as the fold has them. */
  ghost predicate StagePageTrue(fold: Fold, after: Option<Key>, less: KeyOrder, room: Room, keys: seq<Key>,
                                entities: seq<Entity>)
    requires StrictOrder(less)
  {
    StageLessOrders(fold, less);
    var rest := Rest(fold, after, StageLess(fold, less));
    && keys <= rest && |keys| <= room.limit && |entities| == |keys| && Fills(fold, rest, room, |keys|)
    && (forall i | 0 <= i < |keys| :: keys[i] in fold && entities[i] == fold[keys[i]].entity)
    && (room.atLeastOne && rest != [] ==> keys != [])
  }

  /**
   * `restorePage`: at a mark, the entities a restore stages next, after the one the last turn ended on.
   * The mark, that entity's place, the list and the entities are read by queries one after another;
   * None when there is no mark there, or something a query needs is gone.
   */
  method RestorePage(marked: Seen, placed: Seen, listed: Seen, served: Seen, cutoff: nat, after: Option<Key>,
                     less: KeyOrder, room: Room)
    returns (page: Option<(seq<Key>, seq<Entity>)>)
    requires SeenTrue(marked) && Later(marked, placed) && Later(placed, listed) && Later(listed, served)
    requires StrictOrder(less) && room.limit > 0
    ensures page.Some? && Uncleared(marked, placed) && Uncleared(placed, listed) ==>
      StagePageTrue(FoldAt(marked.log, cutoff), after, less, room, page.value.0, page.value.1)
    ensures Uncleared(marked, placed) && Uncleared(placed, listed) && Uncleared(listed, served)
      ==> cutoff in marked.cp.marks ==> (after.Some? ==> after.value in FoldAt(marked.log, cutoff)) ==> page.Some?
  {
    hide FoldAt, CheckpointTrue, View, StagePageTrue, Newest;
    var base := MarkAtOrBelow(marked.cp, marked.log, marked.head, cutoff);
    if base.seqno != cutoff {
      return None;
    }
    MarkIsTrue(marked.cp, marked.log, marked.head, base);
    if Uncleared(marked, placed) {
      ReadsAgree(marked, placed, cutoff);
      if Uncleared(placed, listed) {
        UnclearedJoin(marked, placed, listed);
        ReadsAgree(marked, listed, cutoff);
      }
    }
    var place := 0;
    if after.Some? {
      if after.value !in View(placed.cp, cutoff) {
        return None;
      }
      place := StageOrder(View(placed.cp, cutoff), after.value);
    }
    page := StagePage(listed, served, cutoff, after, place, less, room);
  }

  /** The list from a place on, cut to what fits and read. */
  method StagePage(listed: Seen, served: Seen, cutoff: nat, after: Option<Key>, place: nat, less: KeyOrder, room: Room)
    returns (page: Option<(seq<Key>, seq<Entity>)>)
    requires SeenTrue(listed) && Later(listed, served) && StrictOrder(less) && room.limit > 0
    ensures var list := View(listed.cp, cutoff);
            page.Some? && place == (if after.None? then 0 else StageOrder(list, after.value)) ==>
              StagePageTrue(list, after, less, room, page.value.0, page.value.1)
    ensures Uncleared(listed, served) ==> page.Some?
  {
    hide FoldAt, CheckpointTrue, View, StagePageTrue, Unstaged, StageLess;
    var list := View(listed.cp, cutoff);
    StageLessOrders(list, less);
    var keys := Unstaged(list, after, place, less);
    SortedLists(keys, StageLess(list, less));
    UnstagedListed(list, after, place, less);
    var ordered := Sorted(keys, StageLess(list, less));
    var n, entities := ReadCut(list, ordered, served.cp, map[], room);
    ReadOfList(listed, served, cutoff, ordered, n, entities);
    if entities.None? {
      return None;
    }
    page := Some((ordered[..n], entities.value));
    StagePageOf(list, after, place, less, room, ordered, n, entities.value);
  }

  lemma UnstagedListed(list: Fold, after: Option<Key>, place: nat, less: KeyOrder)
    ensures Unstaged(list, after, place, less) <= list.Keys
  {
  }

  /** What is read of a list is what it lists; all of it is there while nothing is cleared. */
  lemma ReadOfList(listed: Seen, served: Seen, at: nat, ordered: seq<Key>, n: nat, entities: Option<seq<Entity>>)
    requires SeenTrue(listed) && Later(listed, served) && n <= |ordered|
    requires (forall key | key in ordered :: key in View(listed.cp, at))
             && CutRead(View(listed.cp, at), ordered, served.cp, map[], n, entities)
    ensures entities.Some? ==> |entities.value| == n
    ensures entities.Some? ==> forall i | 0 <= i < n ::
      ordered[i] in View(listed.cp, at) && entities.value[i] == View(listed.cp, at)[ordered[i]].entity
    ensures Uncleared(listed, served) ==> entities.Some?
  {
    hide FoldAt, CheckpointTrue, View;
    VersionsAgree(listed, served, at);
    if Uncleared(listed, served) {
      ListedHeld(listed, served, at);
    }
  }

  lemma StagePageOf(list: Fold, after: Option<Key>, place: nat, less: KeyOrder, room: Room, ordered: seq<Key>, n: nat,
                    entities: seq<Entity>)
    requires StrictOrder(less) && Fills(list, ordered, room, n) && room.limit > 0
    requires StrictOrder(StageLess(list, less))
    requires ordered == Sorted(Unstaged(list, after, place, less), StageLess(list, less))
    requires |entities| == n && forall i | 0 <= i < n :: ordered[i] in list && entities[i] == list[ordered[i]].entity
    ensures place == (if after.None? then 0 else StageOrder(list, after.value)) ==>
              StagePageTrue(list, after, less, room, ordered[..n], entities)
  {
    hide StageLess, Unstaged, StageOrder, StrictOrder;
    UnstagedIsBeyond(list, after, less);
  }

  /** The page after the first `staged` entities is the next ones in restore order. */
  lemma RestorePageContinues(fold: Fold, less: KeyOrder, staged: nat, page: seq<Key>)
    requires StrictOrder(less) && staged <= |fold| && StrictOrder(StageLess(fold, less))
    requires page <= Rest(fold, if staged == 0 then None else Some(RestoreOrder(fold, less)[staged - 1]), StageLess(fold, less))
    ensures staged + |page| <= |fold| && page == RestoreOrder(fold, less)[staged..staged + |page|]
  {
    var order := StageLess(fold, less);
    var list := RestoreOrder(fold, less);
    assert |fold.Keys| == |fold|;
    if staged == 0 {
      assert Beyond(fold.Keys, None, order) == fold.Keys;
    } else {
      SortedBeyond(fold.Keys, order, staged);
    }
    assert page <= list[staged..];
  }
}
