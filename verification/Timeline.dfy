/** A ticket's progress timeline (src/mcp-progress.ts): transitions, a derived end and comments, in order of time. */
module Timeline {
  import opened Types

  datatype Kind = Started | Milestone | Paused | Resumed | Interrupted | Ended | Commented

  /** A stored transition. Kinds that are not progress carry none; a milestone may point at a comment. */
  datatype Transition = Transition(kind: Option<Kind>, at: int, comment: Option<string>)

  datatype Comment = Comment(id: string, at: int)

  datatype Source = OfTransition(i: nat) | Derived | OfComment(id: string)

  datatype Entry = Entry(kind: Kind, at: int, source: Source)

  datatype Answer = Answer(timeline: seq<Entry>, earlier: nat)

  const TIMELINE_LIMIT := 20

  predicate IsEnd(kind: Kind) {
    kind.Ended? || kind.Interrupted?
  }

  // ----- What is on it --------------------------------------------------------------------

  function FromTransitions(transitions: seq<Transition>): seq<Entry> {
    if transitions == [] then []
    else
      var n := |transitions| - 1;
      FromTransitions(transitions[..n])
      + if transitions[n].kind.Some? then [Entry(transitions[n].kind.value, transitions[n].at, OfTransition(n))] else []
  }

  /** The comments milestones point at. */
  function PointedAt(transitions: seq<Transition>): set<string> {
    set t | t in transitions && t.kind == Some(Milestone) && t.comment.Some? :: t.comment.value
  }

  predicate EndRecorded(transitions: seq<Transition>) {
    exists t | t in transitions :: t.kind.Some? && IsEnd(t.kind.value)
  }

  /** A comment with its own place: nothing points at it, and the attempt was running when it was made. */
  predicate Shown(comment: Comment, pointed: set<string>, startedAt: int, until: Option<int>) {
    comment.id !in pointed && startedAt <= comment.at && (until.Some? ==> comment.at <= until.value)
  }

  function FromComments(comments: seq<Comment>, pointed: set<string>, startedAt: int, until: Option<int>): seq<Entry> {
    if comments == [] then []
    else
      var n := |comments| - 1;
      FromComments(comments[..n], pointed, startedAt, until)
      + if Shown(comments[n], pointed, startedAt, until) then [Entry(Commented, comments[n].at, OfComment(comments[n].id))] else []
  }

  function Entries(transitions: seq<Transition>, comments: seq<Comment>, startedAt: int,
                   until: Option<int>): seq<Entry> {
    FromTransitions(transitions)
    + (if !EndRecorded(transitions) && until.Some? then [Entry(Ended, until.value, Derived)] else [])
    + FromComments(comments, PointedAt(transitions), startedAt, until)
  }

  // ----- In order -------------------------------------------------------------------------

  function Rank(entry: Entry): nat {
    if IsEnd(entry.kind) then 1 else 0
  }

  /** By time, ends last at an instant. */
  predicate Before(a: Entry, b: Entry) {
    a.at < b.at || (a.at == b.at && Rank(a) < Rank(b))
  }

  function Insert(entry: Entry, sorted: seq<Entry>): seq<Entry> {
    if sorted == [] || !Before(sorted[0], entry) then [entry] + sorted else [sorted[0]] + Insert(entry, sorted[1..])
  }

  /** The library's stable sort. */
  function Sorted(entries: seq<Entry>): seq<Entry> {
    if entries == [] then [] else Insert(entries[0], Sorted(entries[1..]))
  }

  ghost predicate InOrder(entries: seq<Entry>) {
    forall i, j | 0 <= i < j < |entries| :: !Before(entries[j], entries[i])
  }

  /** The entries of one instant and rank, in the order they stand. */
  function Tied(entries: seq<Entry>, at: int, rank: nat): seq<Entry> {
    if entries == [] then []
    else (if entries[0].at == at && Rank(entries[0]) == rank then [entries[0]] else []) + Tied(entries[1..], at, rank)
  }

  lemma {:induction false} InsertSorts(entry: Entry, sorted: seq<Entry>)
    requires InOrder(sorted)
    ensures InOrder(Insert(entry, sorted))
    ensures multiset(Insert(entry, sorted)) == multiset(sorted) + multiset{entry}
  {
    if sorted == [] || !Before(sorted[0], entry) {
      forall i | 0 <= i < |sorted| ensures !Before(sorted[i], entry) {
        assert i > 0 ==> !Before(sorted[i], sorted[0]);
      }
    } else {
      var rest := sorted[1..];
      assert sorted == [sorted[0]] + rest;
      InsertSorts(entry, rest);
      forall e | e in Insert(entry, rest) ensures !Before(e, sorted[0]) {
        assert e in multiset(Insert(entry, rest));
        assert e == entry || e in rest;
      }
    }
  }

  lemma {:induction false} InsertTies(entry: Entry, sorted: seq<Entry>, at: int, rank: nat)
    ensures Tied(Insert(entry, sorted), at, rank) == Tied([entry], at, rank) + Tied(sorted, at, rank)
  {
    hide Tied;
    if sorted == [] || !Before(sorted[0], entry) {
      assert ([entry] + sorted)[1..] == sorted;
      TiedHead([entry] + sorted, at, rank);
    } else {
      var inserted := Insert(entry, sorted);
      assert inserted[1..] == Insert(entry, sorted[1..]);
      TiedHead(inserted, at, rank);
      TiedHead(sorted, at, rank);
      InsertTies(entry, sorted[1..], at, rank);
      OneOfTwo(sorted[0], entry, at, rank);
    }
  }

  /** Of two entries one of which comes before the other, one at most is of an instant and rank. */
  lemma OneOfTwo(a: Entry, b: Entry, at: int, rank: nat)
    requires Before(a, b)
    ensures Tied([a], at, rank) == [] || Tied([b], at, rank) == []
  {
    assert [a][1..] == [] && [b][1..] == [];
  }

  lemma {:induction false} SortOrders(entries: seq<Entry>)
    ensures InOrder(Sorted(entries)) && multiset(Sorted(entries)) == multiset(entries)
  {
    if entries != [] {
      var rest := entries[1..];
      assert entries == [entries[0]] + rest;
      SortOrders(rest);
      InsertSorts(entries[0], Sorted(rest));
    }
  }

  lemma {:induction false} SortTies(entries: seq<Entry>, at: int, rank: nat)
    ensures Tied(Sorted(entries), at, rank) == Tied(entries, at, rank)
  {
    if entries != [] {
      hide InOrder, Insert, Tied;
      var rest := entries[1..];
      SortOrders(rest);
      SortTies(rest, at, rank);
      InsertTies(entries[0], Sorted(rest), at, rank);
      TiedHead(entries, at, rank);
    } else {
      assert Sorted(entries) == entries;
    }
  }

  lemma TiedHead(entries: seq<Entry>, at: int, rank: nat)
    requires entries != []
    ensures Tied(entries, at, rank) == Tied([entries[0]], at, rank) + Tied(entries[1..], at, rank)
  {
    assert [entries[0]][1..] == [];
  }

  /** Sorting puts the entries in order, loses and adds none, and keeps the order of those that tie. */
  lemma SortIsStable(entries: seq<Entry>)
    ensures InOrder(Sorted(entries)) && multiset(Sorted(entries)) == multiset(entries)
    ensures forall at, rank :: Tied(Sorted(entries), at, rank) == Tied(entries, at, rank)
  {
    hide InOrder, Sorted, Tied;
    SortOrders(entries);
    forall at, rank ensures Tied(Sorted(entries), at, rank) == Tied(entries, at, rank) {
      SortTies(entries, at, rank);
    }
  }

  // ----- The view -------------------------------------------------------------------------

  /** Each entry of the comments is a comment shown, so none that a milestone points at. */
  lemma {:induction false} CommentsShown(comments: seq<Comment>, pointed: set<string>, startedAt: int,
                                         until: Option<int>, entry: Entry)
    ensures entry in FromComments(comments, pointed, startedAt, until) <==>
              exists c | c in comments :: Shown(c, pointed, startedAt, until) && entry == Entry(Commented, c.at, OfComment(c.id))
  {
    if comments != [] {
      var n := |comments| - 1;
      CommentsShown(comments[..n], pointed, startedAt, until, entry);
      assert forall c :: c in comments <==> c in comments[..n] || c == comments[n];
    }
  }

  /** The attempt's transitions, the comments they point at, and whether they record its end. */
  method ReadTransitions(transitions: seq<Transition>)
    returns (entries: seq<Entry>, pointed: set<string>, endRecorded: bool)
    ensures entries == FromTransitions(transitions) && pointed == PointedAt(transitions)
    ensures endRecorded == EndRecorded(transitions)
    ensures forall e | e in entries :: e.source.OfTransition?
  {
    entries, pointed, endRecorded := [], {}, false;
    for i := 0 to |transitions|
      invariant entries == FromTransitions(transitions[..i]) && pointed == PointedAt(transitions[..i])
      invariant endRecorded == EndRecorded(transitions[..i])
      invariant forall e | e in entries :: e.source.OfTransition?
    {
      var t := transitions[i];
      assert transitions[..i + 1] == transitions[..i] + [t];
      assert transitions[..i + 1][..i] == transitions[..i];
      if t.kind.Some? {
        if t.kind.value.Milestone? && t.comment.Some? {
          pointed := pointed + {t.comment.value};
        }
        endRecorded := endRecorded || IsEnd(t.kind.value);
        entries := entries + [Entry(t.kind.value, t.at, OfTransition(i))];
      }
    }
    assert transitions[..|transitions|] == transitions;
  }

  method AddComments(before: seq<Entry>, comments: seq<Comment>, pointed: set<string>, startedAt: int,
                     until: Option<int>)
    returns (entries: seq<Entry>)
    requires forall e | e in before :: !e.source.OfComment?
    ensures entries == before + FromComments(comments, pointed, startedAt, until)
    ensures forall e | e in entries && e.source.OfComment? :: e.source.id !in pointed
  {
    entries := before;
    for i := 0 to |comments|
      invariant entries == before + FromComments(comments[..i], pointed, startedAt, until)
      invariant forall e | e in entries && e.source.OfComment? :: e.source.id !in pointed
    {
      assert comments[..i + 1][..i] == comments[..i];
      if Shown(comments[i], pointed, startedAt, until) {
        entries := entries + [Entry(Commented, comments[i].at, OfComment(comments[i].id))];
      }
    }
    assert comments[..|comments|] == comments;
  }

  // ----- What is there, and where ---------------------------------------------------------

  /** By time, and at one instant an end after everything else. */
  ghost predicate EndsLast(entries: seq<Entry>) {
    forall i, j | 0 <= i < j < |entries| ::
      && entries[i].at <= entries[j].at
      && (entries[i].at == entries[j].at && (entries[i].kind.Ended? || entries[i].kind.Interrupted?) ==>
            entries[j].kind.Ended? || entries[j].kind.Interrupted?)
  }

  lemma InOrderEndsLast(entries: seq<Entry>)
    ensures InOrder(entries) <==> EndsLast(entries)
  {
  }

  /** Each kept transition once, and nothing of any other. */
  ghost predicate TransitionsOnce(transitions: seq<Transition>, entries: multiset<Entry>) {
    && (forall i | 0 <= i < |transitions| && transitions[i].kind.Some? ::
          entries[Entry(transitions[i].kind.value, transitions[i].at, OfTransition(i))] == 1)
    && (forall e | e in entries && e.source.OfTransition? ::
          e.source.i < |transitions| && transitions[e.source.i].kind == Some(e.kind) && transitions[e.source.i].at == e.at)
  }

  /** An end made up where the attempt has one that no transition records, and only there. */
  ghost predicate DerivedOnce(transitions: seq<Transition>, until: Option<int>, entries: multiset<Entry>) {
    && (forall e | e in entries && e.source.Derived? :: e.kind.Ended? && until == Some(e.at) && entries[e] == 1)
    && ((exists e | e in entries :: e.source.Derived?) <==>
          until.Some? && forall t | t in transitions :: t.kind != Some(Ended) && t.kind != Some(Interrupted))
  }

  /** Each comment of the attempt that no milestone points at, as often as it was read. */
  ghost predicate CommentsOnce(transitions: seq<Transition>, comments: seq<Comment>, startedAt: int, until: Option<int>,
                               entries: multiset<Entry>) {
    && (forall e | e in entries && e.source.OfComment? ::
          e.kind.Commented? && Comment(e.source.id, e.at) in comments && entries[e] == multiset(comments)[Comment(e.source.id, e.at)])
    && (forall c | c in comments ::
          Entry(Commented, c.at, OfComment(c.id)) in entries <==>
          && startedAt <= c.at && (until.Some? ==> c.at <= until.value)
          && forall t | t in transitions && t.kind == Some(Milestone) :: t.comment != Some(c.id))
  }

  lemma {:induction false} TransitionsKept(transitions: seq<Transition>)
    ensures TransitionsOnce(transitions, multiset(FromTransitions(transitions)))
    ensures forall e | e in FromTransitions(transitions) :: e.source.OfTransition?
  {
    if transitions != [] {
      var n := |transitions| - 1;
      TransitionsKept(transitions[..n]);
      var before, t := FromTransitions(transitions[..n]), transitions[n];
      forall i | 0 <= i < |transitions| && transitions[i].kind.Some?
        ensures multiset(FromTransitions(transitions))[Entry(transitions[i].kind.value, transitions[i].at, OfTransition(i))] == 1
      {
        var e := Entry(transitions[i].kind.value, transitions[i].at, OfTransition(i));
        if i == n {
          assert e !in multiset(before);
        } else {
          assert transitions[..n][i] == transitions[i];
          assert multiset(before)[e] == 1;
        }
      }
      forall e: Entry | e in multiset(FromTransitions(transitions))
        ensures e.source.OfTransition? && e.source.i < |transitions| && transitions[e.source.i].kind == Some(e.kind)
                && transitions[e.source.i].at == e.at
      {
        if e in multiset(before) {
          assert transitions[..n][e.source.i] == transitions[e.source.i];
        }
      }
    }
  }

  lemma {:induction false} CommentsCounted(comments: seq<Comment>, pointed: set<string>, startedAt: int,
                                           until: Option<int>, c: Comment)
    ensures multiset(FromComments(comments, pointed, startedAt, until))[Entry(Commented, c.at, OfComment(c.id))]
         == if Shown(c, pointed, startedAt, until) then multiset(comments)[c] else 0
  {
    if comments != [] {
      var n := |comments| - 1;
      CommentsCounted(comments[..n], pointed, startedAt, until, c);
      assert comments == comments[..n] + [comments[n]];
    }
  }

  lemma CommentsKept(transitions: seq<Transition>, comments: seq<Comment>, startedAt: int, until: Option<int>)
    ensures CommentsOnce(transitions, comments, startedAt, until,
              multiset(FromComments(comments, PointedAt(transitions), startedAt, until)))
    ensures forall e | e in FromComments(comments, PointedAt(transitions), startedAt, until) :: e.source.OfComment?
  {
    var pointed := PointedAt(transitions);
    var entries := FromComments(comments, pointed, startedAt, until);
    forall e: Entry | e in multiset(entries)
      ensures e.source.OfComment? && e.kind.Commented? && Comment(e.source.id, e.at) in comments
              && multiset(entries)[e] == multiset(comments)[Comment(e.source.id, e.at)]
    {
      CommentsShown(comments, pointed, startedAt, until, e);
      CommentsCounted(comments, pointed, startedAt, until, Comment(e.source.id, e.at));
    }
    forall c | c in comments
      ensures Entry(Commented, c.at, OfComment(c.id)) in multiset(entries) <==> Shown(c, pointed, startedAt, until)
    {
      CommentsCounted(comments, pointed, startedAt, until, c);
      assert multiset(comments)[c] > 0;
    }
  }

  lemma TransitionsAmong(transitions: seq<Transition>, part: multiset<Entry>, whole: multiset<Entry>)
    requires TransitionsOnce(transitions, part) && forall e: Entry | e.source.OfTransition? :: whole[e] == part[e]
    ensures TransitionsOnce(transitions, whole)
  {
    forall e: Entry | e in whole && e.source.OfTransition? ensures e in part {
      assert whole[e] == part[e];
    }
  }

  lemma CommentsAmong(transitions: seq<Transition>, comments: seq<Comment>, startedAt: int, until: Option<int>,
                      part: multiset<Entry>, whole: multiset<Entry>)
    requires CommentsOnce(transitions, comments, startedAt, until, part)
    requires forall e: Entry | e.source.OfComment? :: whole[e] == part[e]
    ensures CommentsOnce(transitions, comments, startedAt, until, whole)
  {
    forall e: Entry | e.source.OfComment? ensures e in whole <==> e in part {
      assert whole[e] == part[e];
    }
  }

  lemma DerivedAmong(transitions: seq<Transition>, until: Option<int>, derived: seq<Entry>, whole: multiset<Entry>)
    requires derived == if !EndRecorded(transitions) && until.Some? then [Entry(Ended, until.value, Derived)] else []
    requires forall e: Entry | e.source.Derived? :: whole[e] == multiset(derived)[e]
    ensures DerivedOnce(transitions, until, whole)
  {
    assert EndRecorded(transitions) <==> exists t | t in transitions :: t.kind == Some(Ended) || t.kind == Some(Interrupted);
    forall e: Entry | e.source.Derived? ensures e in whole <==> e in derived {
      assert whole[e] == multiset(derived)[e];
    }
    assert derived != [] ==> derived[0] in whole;
  }

  /** Everything the timeline is of is there once, and nothing else. */
  lemma EntriesOnce(transitions: seq<Transition>, comments: seq<Comment>, startedAt: int, until: Option<int>)
    ensures var entries := multiset(Entries(transitions, comments, startedAt, until));
            && TransitionsOnce(transitions, entries) && DerivedOnce(transitions, until, entries)
            && CommentsOnce(transitions, comments, startedAt, until, entries)
  {
    hide FromTransitions, FromComments, PointedAt, EndRecorded, TransitionsOnce, DerivedOnce, CommentsOnce;
    TransitionsKept(transitions);
    CommentsKept(transitions, comments, startedAt, until);
    var first, last := FromTransitions(transitions), FromComments(comments, PointedAt(transitions), startedAt, until);
    var derived := if !EndRecorded(transitions) && until.Some? then [Entry(Ended, until.value, Derived)] else [];
    var entries := multiset(Entries(transitions, comments, startedAt, until));
    assert entries == multiset(first) + multiset(derived) + multiset(last);
    assert forall e | e in derived :: e.source.Derived?;
    TransitionsAmong(transitions, multiset(first), entries);
    DerivedAmong(transitions, until, derived, entries);
    CommentsAmong(transitions, comments, startedAt, until, multiset(last), entries);
  }

  /**
   * `ticketProgress`: every kept transition, the derived end and every comment shown are among `all` once,
   * and nothing else is; they are in order of time with ends last; and the timeline is the newest of them,
   * the rest counted as earlier.
   */
  method Progress(transitions: seq<Transition>, comments: seq<Comment>, startedAt: int, until: Option<int>)
    returns (answer: Answer, ghost all: seq<Entry>)
    ensures TransitionsOnce(transitions, multiset(all)) && DerivedOnce(transitions, until, multiset(all))
    ensures CommentsOnce(transitions, comments, startedAt, until, multiset(all))
    ensures EndsLast(all) && forall at, rank :: Tied(all, at, rank) == Tied(Entries(transitions, comments, startedAt, until), at, rank)
    ensures answer.earlier + |answer.timeline| == |all| && answer.timeline == all[answer.earlier..]
    ensures |answer.timeline| == if |all| < 20 then |all| else 20
  {
    hide Entries, Sorted, InOrder, FromTransitions, FromComments, PointedAt, EndsLast, TransitionsOnce, DerivedOnce,
      CommentsOnce,
      Tied;
    var entries, pointed, endRecorded := ReadTransitions(transitions);
    if !endRecorded && until.Some? {
      entries := entries + [Entry(Ended, until.value, Derived)];
    }
    ghost var before := entries;
    entries := AddComments(entries, comments, pointed, startedAt, until);
    AllEntries(transitions, comments, startedAt, until, before, entries);
    answer := Newest(entries);
    all := Sorted(entries);
    SortIsStable(entries);
    EntriesOnce(transitions, comments, startedAt, until);
    InOrderEndsLast(all);
  }

  lemma AllEntries(transitions: seq<Transition>, comments: seq<Comment>, startedAt: int, until: Option<int>,
                   before: seq<Entry>, entries: seq<Entry>)
    requires before == if !EndRecorded(transitions) && until.Some? then FromTransitions(transitions) + [Entry(Ended, until.value, Derived)]
                       else FromTransitions(transitions)
    requires entries == before + FromComments(comments, PointedAt(transitions), startedAt, until)
    ensures entries == Entries(transitions, comments, startedAt, until)
  {
    hide FromTransitions, FromComments, PointedAt;
    var from := FromTransitions(transitions);
    assert from + [] == from;
  }

  /** The last of the entries in order, and how many came before. */
  method Newest(entries: seq<Entry>) returns (answer: Answer)
    ensures var all := Sorted(entries);
            && answer.earlier + |answer.timeline| == |all| && answer.timeline == all[answer.earlier..]
            && |answer.timeline| == if |all| < TIMELINE_LIMIT then |all| else TIMELINE_LIMIT
  {
    var sorted := Sorted(entries);
    var earlier := if |sorted| <= TIMELINE_LIMIT then 0 else |sorted| - TIMELINE_LIMIT;
    answer := Answer(sorted[earlier..], earlier);
  }
}
