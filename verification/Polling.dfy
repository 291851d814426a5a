/**
 * The commands that poll a database other processes commit to (src/cli.ts): `wait`, which must not
 * miss the commit it waits for, and `events --follow`, which must emit each event once.
 */
module Polling {
  import opened Types

  datatype Event = Event(seqno: nat, kind: string)

  /** What the probe reads of the issue waited for. */
  datatype Facts = Facts(finished: bool, parked: bool, unresolved: seq<string>, queuedBy: Option<string>)

  /** A probe's answer: three reads, which need not see one state. */
  datatype Snapshot = Snapshot(finished: bool, parked: bool, unresolved: seq<string>, queuedBy: Option<string>) {
    predicate Ready() {
      finished || (!parked && queuedBy.None? && unresolved == [])
    }
  }

  function Mixed(issue: Facts, blockers: Facts, queue: Facts): Snapshot {
    Snapshot(issue.finished, issue.parked, blockers.unresolved, queue.queuedBy)
  }

  /** What a probe of one state answers. */
  function Fresh(facts: Facts): Snapshot {
    Mixed(facts, facts, facts)
  }

  /**
   * What `wait` waits for: the work is finished, or it is not parked, it is behind no gate and nothing
   * that blocks it is left; each as one read found it.
   */
  predicate MayStart(issue: Facts, blockers: Facts, queue: Facts) {
    issue.finished || (!issue.parked && queue.queuedBy.None? && |blockers.unresolved| == 0)
  }

  lemma ReadyIsMayStart(issue: Facts, blockers: Facts, queue: Facts)
    ensures Mixed(issue, blockers, queue).Ready() <==> MayStart(issue, blockers, queue)
  {
  }

  const EVENT_PAGE := 200
  const RETRIES := 20

  /** The place in a log of its first event above a cursor. */
  function First(log: seq<Event>, cursor: nat): (i: nat)
    ensures i <= |log|
  {
    if log == [] then 0
    else if log[|log| - 1].seqno <= cursor then |log|
    else First(log[..|log| - 1], cursor)
  }

  ghost predicate InOrder(log: seq<Event>) {
    forall i, j | 0 <= i < j < |log| :: log[i].seqno < log[j].seqno
  }

  lemma {:induction false} FirstSplits(log: seq<Event>, cursor: nat, i: nat)
    requires InOrder(log) && i < |log|
    ensures log[i].seqno <= cursor <==> i < First(log, cursor)
  {
    var last := |log| - 1;
    if log[last].seqno > cursor && i < last {
      assert log[..last][i] == log[i];
      FirstSplits(log[..last], cursor, i);
    }
  }

  lemma FirstIs(log: seq<Event>, cursor: nat, k: nat)
    requires InOrder(log) && k <= |log|
    requires (forall i | 0 <= i < k :: log[i].seqno <= cursor) && forall i | k <= i < |log| :: cursor < log[i].seqno
    ensures First(log, cursor) == k
  {
    if k < |log| {
      FirstSplits(log, cursor, k);
    }
    if k > 0 {
      FirstSplits(log, cursor, k - 1);
    }
  }

  /** The first `n` events of a log, above a cursor. */
  lemma FirstOfPrefix(log: seq<Event>, cursor: nat, n: nat)
    requires InOrder(log) && n <= |log|
    ensures First(log[..n], cursor) == if First(log, cursor) <= n then First(log, cursor) else n
  {
    forall i | 0 <= i < n ensures log[..n][i].seqno <= cursor <==> i < First(log, cursor) {
      FirstSplits(log, cursor, i);
    }
    FirstIs(log[..n], cursor, if First(log, cursor) <= n then First(log, cursor) else n);
  }

  lemma FirstAfter(log: seq<Event>, k: nat)
    requires InOrder(log) && k < |log|
    ensures First(log, log[k].seqno) == k + 1
  {
    FirstIs(log, log[k].seqno, k + 1);
  }

  /**
   * A database others commit to. `history[p]` is what it holds after `p` commits, and its events then are
   * the first `counts[p]` of the log. Between any two reads any commits may land, and any read may
   * meet a lock.
   */
  class Database {
    const history: seq<Facts>
    const log: seq<Event>
    const counts: seq<nat>
    var at: nat

    ghost predicate Valid()
      reads this
    {
      && at < |history| == |counts| && InOrder(log)
      && (forall p | 0 <= p < |counts| :: counts[p] <= |log|)
      && (forall p, q | 0 <= p <= q < |counts| :: counts[p] <= counts[q])
    }

    constructor (history: seq<Facts>, log: seq<Event>, counts: seq<nat>)
      requires 0 < |history| == |counts| && InOrder(log)
      requires forall p | 0 <= p < |counts| :: counts[p] <= |log|
      requires forall p, q | 0 <= p <= q < |counts| :: counts[p] <= counts[q]
      ensures Valid()
    {
      this.history, this.log, this.counts, at := history, log, counts, 0;
    }

    method Pass() returns (locked: bool)
      requires Valid()
      modifies this
      ensures Valid() && old(at) <= at
    {
      var now: nat :| at <= now < |history|;
      at := now;
      locked := *;
    }

    /** `PRAGMA data_version`: a number only another connection's commit moves. None is a lock. */
    method DataVersion() returns (version: Option<nat>)
      requires Valid()
      modifies this
      ensures Valid() && old(at) <= at && (version.Some? ==> version.value == at)
    {
      var locked := Pass();
      version := if locked then None else Some(at);
    }

    method Probe() returns (snapshot: Option<Snapshot>)
      requires Valid()
      modifies this
      ensures Valid() && old(at) <= at
      ensures snapshot.Some? ==> Seen(snapshot.value, old(at), at)
    {
      var locked := Pass();
      if locked {
        return None;
      }
      ghost var p := at;
      var issue := history[at];
      locked := Pass();
      if locked {
        return None;
      }
      ghost var q := at;
      var blockers := history[at];
      locked := Pass();
      if locked {
        return None;
      }
      snapshot := Some(Mixed(issue, blockers, history[at]));
      assert snapshot.value == Mixed(history[p], history[q], history[at]);
    }

    /** A probe's answer, whose reads all fell between two positions. */
    ghost predicate Seen(snapshot: Snapshot, from: nat, upTo: nat) {
      exists p, q, r | from <= p <= q <= r <= upTo && r < |history| :: snapshot == Mixed(history[p], history[q], history[r])
    }

    /** Between two reads of one version nothing was committed, so the probe in between saw that state. */
    lemma SeenAtOnce(snapshot: Snapshot, from: nat, upTo: nat)
      requires Seen(snapshot, from, upTo) && from == upTo < |history|
      ensures snapshot == Fresh(history[upTo])
    {
      hide Mixed;
      var p, q, r :| from <= p <= q <= r <= upTo && r < |history| && snapshot == Mixed(history[p], history[q], history[r]);
      assert p == upTo && q == upTo && r == upTo;
    }

    /** `listEvents(since, 200)`: the first events above a cursor, in order. */
    method ListEvents(cursor: nat) returns (page: Option<seq<Event>>)
      requires Valid()
      modifies this
      ensures Valid() && old(at) <= at
      ensures page.Some? ==>
        var from := First(log, cursor);
        if counts[at] <= from then page.value == []
        else page.value == log[from..if from + EVENT_PAGE < counts[at] then from + EVENT_PAGE else counts[at]]
    {
      var locked := Pass();
      if locked {
        return None;
      }
      var shown := log[..counts[at]];
      FirstOfPrefix(log, cursor, counts[at]);
      var rest := shown[First(shown, cursor)..];
      page := Some(if |rest| <= EVENT_PAGE then rest else rest[..EVENT_PAGE]);
    }
  }

  // ----- events --follow ------------------------------------------------------------------

  /**
   * `eventsSince`: drained a page at a time, what is read is one unbroken run of the log from the cursor,
   * with everything that was there when the drain began.
   */
  method EventsSince(db: Database, since: nat) returns (drained: Option<seq<Event>>)
    requires db.Valid()
    modifies db
    ensures db.Valid() && old(db.at) <= db.at
    ensures drained.Some? ==>
      var from := First(db.log, since);
      && from + |drained.value| <= |db.log| && drained.value == db.log[from..from + |drained.value|]
      && db.counts[old(db.at)] <= from + |drained.value|
  {
    hide First, InOrder;
    var events: seq<Event> := [];
    var cursor := since;
    ghost var from := First(db.log, since);
    while true
      invariant db.Valid() && old(db.at) <= db.at
      invariant from + |events| <= |db.log| && events == db.log[from..from + |events|]
      invariant First(db.log, cursor) == from + |events|
      decreases |db.log| - |events|
    {
      var page := db.ListEvents(cursor);
      if page.None? {
        return None;
      }
      if page.value == [] {
        return Some(events);
      }
      ghost var was := from + |events|;
      assert db.log[from..was] + db.log[was..was + |page.value|] == db.log[from..was + |page.value|];
      events := events + page.value;
      cursor := page.value[|page.value| - 1].seqno;
      FirstAfter(db.log, from + |events| - 1);
      if |page.value| < EVENT_PAGE {
        return Some(events);
      }
    }
  }

  /** `latestSeq`, where a follower with no `--since` begins: the head of the log while it was read. */
  method LatestSeq(db: Database) returns (head: Option<nat>)
    requires db.Valid()
    modifies db
    ensures db.Valid() && old(db.at) <= db.at
    ensures head.Some? ==> db.counts[old(db.at)] <= First(db.log, head.value) && (head.value == 0 || First(db.log, head.value) <= db.counts[db.at])
  {
    hide First, InOrder;
    var cursor := 0;
    while true
      invariant db.Valid() && old(db.at) <= db.at
      invariant cursor == 0 || First(db.log, cursor) <= db.counts[db.at]
      decreases |db.log| - First(db.log, cursor)
    {
      var page := db.ListEvents(cursor);
      if page.None? {
        return None;
      }
      if page.value == [] {
        return Some(cursor);
      }
      FirstAfter(db.log, First(db.log, cursor) + |page.value| - 1);
      cursor := page.value[|page.value| - 1].seqno;
      if |page.value| < EVENT_PAGE {
        return Some(cursor);
      }
    }
  }

  /** What a follower has emitted: the log's events from where it began, one after another, and none twice. */
  ghost predicate Emitted(log: seq<Event>, start: nat, emitted: seq<Event>, cursor: nat) {
    && start + |emitted| <= |log| && emitted == log[start..start + |emitted|]
    && First(log, cursor) == start + |emitted|
  }

  datatype Tick = Tick(at: nat, landed: bool, emitted: nat)

  /**
   * `events --follow`, over any number of ticks. Each event above the cursor it starts at is emitted
   * exactly once and in order; after a tick that met no lock nothing committed before it is missing,
   * unless the most it may emit has been.
   */
  method Follow(db: Database, since: nat, most: nat, ticks: nat) returns (emitted: seq<Event>, ghost trace: seq<Tick>)
    requires db.Valid() && most > 0
    modifies db
    ensures db.Valid()
    ensures var start := First(db.log, since);
            start + |emitted| <= |db.log| && emitted == db.log[start..start + |emitted|] && |emitted| <= most
    ensures forall t | t in trace && t.landed ::
      t.at < |db.counts| && (t.emitted == most || db.counts[t.at] <= First(db.log, since) + t.emitted)
    ensures |emitted| < most ==> |trace| == ticks
    ensures forall t | t in trace :: t.emitted <= |emitted|
  {
    hide First, InOrder;
    var cursor := since;
    var lastVersion: Option<nat> := None;
    ghost var start := First(db.log, since);
    emitted, trace := [], [];
    for tick := 0 to ticks
      invariant db.Valid() && Emitted(db.log, start, emitted, cursor) && |emitted| < most && |trace| == tick
      invariant lastVersion.Some? ==> lastVersion.value <= db.at && db.counts[lastVersion.value] <= start + |emitted|
      invariant forall t | t in trace :: t.emitted <= |emitted|
      invariant forall t | t in trace && t.landed ::
        t.at < |db.counts| && (t.emitted == most || db.counts[t.at] <= start + t.emitted)
    {
      var version := db.DataVersion();
      ghost var at := db.at;
      var landed := version.Some?;
      if version.Some? && version != lastVersion {
        var drained := EventsSince(db, cursor);
        landed := drained.Some?;
        if drained.Some? {
          lastVersion := version;
          emitted, cursor := Emit(db, start, emitted, cursor, drained.value, most);
        }
      }
      trace := trace + [Tick(at, landed, |emitted|)];
      if |emitted| == most {
        return;
      }
    }
  }

  /** Emit a drained batch, an event at a time, and no more than `most` in all. */
  method Emit(db: Database, ghost start: nat, before: seq<Event>, cursorBefore: nat, batch: seq<Event>, most: nat)
    returns (emitted: seq<Event>, cursor: nat)
    requires db.Valid() && Emitted(db.log, start, before, cursorBefore) && |before| < most
    requires var from := start + |before|; from + |batch| <= |db.log| && batch == db.log[from..from + |batch|]
    ensures Emitted(db.log, start, emitted, cursor) && |before| <= |emitted| <= most
    ensures |emitted| < most ==> |emitted| == |before| + |batch|
  {
    hide First, InOrder;
    emitted, cursor := before, cursorBefore;
    for i := 0 to |batch|
      invariant Emitted(db.log, start, emitted, cursor) && |emitted| == |before| + i && |emitted| < most
    {
      cursor := batch[i].seqno;
      emitted := emitted + [batch[i]];
      FirstAfter(db.log, start + |before| + i);
      if |emitted| >= most {
        return;
      }
    }
  }

  // ----- wait -----------------------------------------------------------------------------

  /** One turn of the loop: the version read and the one held, where it was read, and what is held before and after. */
  datatype WaitTick = WaitTick(version: Option<nat>, held: Option<nat>, at: nat, locked: bool, before: Snapshot,
                               after: Snapshot)

  /** What is held was probed since the version held was read. */
  ghost predicate Holds(db: Database, snapshot: Snapshot, version: Option<nat>)
    reads db
  {
    version.Some? ==> version.value <= db.at && db.Seen(snapshot, version.value, db.at)
  }

  /**
   * A tick that sees the version it holds holds what a probe of the database as it is would answer; and
   * one that meets no lock after the last commit ends up holding it.
   */
  ghost predicate TickTrue(history: seq<Facts>, t: WaitTick) {
    && t.at < |history|
    && (t.version.Some? && t.version == t.held ==> t.before == Fresh(history[t.at]))
    && (!t.locked && t.at == |history| - 1 ==> t.after == Fresh(history[t.at]))
  }

  /** One turn of `wait`'s loop. */
  method Turn(db: Database, held: Snapshot, lastVersion: Option<nat>)
    returns (snapshot: Snapshot, version: Option<nat>, ghost tick: WaitTick)
    requires db.Valid() && Holds(db, held, lastVersion)
    modifies db
    ensures db.Valid() && Holds(db, snapshot, version) && TickTrue(db.history, tick)
    ensures tick.held == lastVersion && tick.before == held && tick.after == snapshot
    ensures old(db.at) <= db.at && (snapshot == held || db.Seen(snapshot, old(db.at), db.at))
  {
    hide Fresh, InOrder;
    snapshot, version := held, lastVersion;
    ghost var before := db.at;
    var seen := db.DataVersion();
    ghost var at := db.at;
    if seen.None? || seen == lastVersion {
      if seen.Some? {
        db.SeenAtOnce(held, lastVersion.value, before);
      }
      tick := WaitTick(seen, lastVersion, at, seen.None?, held, held);
      return;
    }
    var next := db.Probe();
    tick := WaitTick(seen, lastVersion, at, next.None?, held, next.GetOr(held));
    if next.Some? {
      if at == |db.history| - 1 {
        db.SeenAtOnce(next.value, at, db.at);
      }
      version, snapshot := seen, next.value;
    }
  }

  /** Three reads, one after another, that between them found the work may start. */
  ghost predicate FoundReady(history: seq<Facts>, from: nat, upTo: nat) {
    exists p, q, r | from <= p <= q <= r <= upTo && r < |history| :: MayStart(history[p], history[q], history[r])
  }

  lemma SeenIsFound(db: Database, snapshot: Snapshot, from: nat, upTo: nat)
    requires db.Seen(snapshot, from, upTo) && snapshot.Ready()
    ensures FoundReady(db.history, from, upTo)
  {
    hide Mixed, MayStart;
    var p, q, r :| from <= p <= q <= r <= upTo && r < |db.history|
                   && snapshot == Mixed(db.history[p], db.history[q], db.history[r]);
    ReadyIsMayStart(db.history[p], db.history[q], db.history[r]);
  }

  /** A turn after the last commit that met no lock ends holding that the work may start exactly when it may. */
  lemma LastTurnKnows(history: seq<Facts>, t: WaitTick)
    requires TickTrue(history, t) && !t.locked && t.at == |history| - 1
    ensures t.after.Ready() <==> MayStart(history[t.at], history[t.at], history[t.at])
  {
    ReadyIsMayStart(history[t.at], history[t.at], history[t.at]);
  }

  lemma SeenLonger(db: Database, snapshot: Snapshot, from: nat, upTo: nat, earlier: nat, later: nat)
    requires db.Seen(snapshot, from, upTo) && earlier <= from && upTo <= later
    ensures db.Seen(snapshot, earlier, later)
  {
    hide Mixed;
  }

  /** `readWithRetry(probe)`: a first answer, unless every attempt meets a lock. */
  method FirstProbe(db: Database, version: Option<nat>) returns (snapshot: Option<Snapshot>)
    requires db.Valid() && (version.Some? ==> version.value == db.at)
    modifies db
    ensures db.Valid() && (snapshot.Some? ==> Holds(db, snapshot.value, version))
    ensures old(db.at) <= db.at && (snapshot.Some? ==> db.Seen(snapshot.value, old(db.at), db.at))
  {
    hide Mixed;
    snapshot := None;
    var attempt := 0;
    while snapshot.None? && attempt <= RETRIES
      invariant db.Valid() && (version.Some? ==> version.value <= db.at) && old(db.at) <= db.at
      invariant snapshot.Some? ==> Holds(db, snapshot.value, version) && db.Seen(snapshot.value, old(db.at), db.at)
    {
      snapshot := db.Probe();
      attempt := attempt + 1;
    }
  }

  /**
   * `wait`, over any number of ticks. The version is read before the probe it stands for, so a commit is
   * never taken for one already seen.
   */
  method Wait(db: Database, ticks: nat) returns (snapshot: Option<Snapshot>, timedOut: bool, ghost trace: seq<WaitTick>)
    requires db.Valid()
    modifies db
    ensures db.Valid()
    ensures snapshot.Some? && !timedOut ==> snapshot.value.Ready()
    ensures snapshot.Some? && !timedOut ==> FoundReady(db.history, old(db.at), db.at)
    ensures snapshot.Some? && timedOut ==> !snapshot.value.Ready() && |trace| == ticks
    ensures timedOut ==> forall t | t in trace && !t.locked && t.at == |db.history| - 1 ::
      !MayStart(db.history[t.at], db.history[t.at], db.history[t.at])
    ensures forall t | t in trace :: TickTrue(db.history, t)
    ensures forall i | 0 < i < |trace| :: trace[i].before == trace[i - 1].after && !trace[i].before.Ready()
    ensures snapshot.Some? && trace != [] ==> snapshot.value == trace[|trace| - 1].after
  {
    hide Holds, TickTrue, Database.Seen, Snapshot.Ready, MayStart, FoundReady;
    trace, timedOut := [], false;
    var lastVersion := db.DataVersion();
    ghost var began := db.at;
    snapshot := FirstProbe(db, lastVersion);
    if snapshot.None? {
      return;
    }
    SeenLonger(db, snapshot.value, began, db.at, old(db.at), db.at);
    var tick := 0;
    while !snapshot.value.Ready() && tick < ticks
      invariant db.Valid() && snapshot.Some? && Holds(db, snapshot.value, lastVersion) && |trace| == tick <= ticks
      invariant old(db.at) <= db.at && db.Seen(snapshot.value, old(db.at), db.at)
      invariant forall i | 0 <= i < |trace| - 1 :: !trace[i].after.Ready()
      invariant forall t | t in trace :: TickTrue(db.history, t)
      invariant forall i | 0 < i < |trace| :: trace[i].before == trace[i - 1].after && !trace[i].before.Ready()
      invariant trace != [] ==> snapshot.value == trace[|trace| - 1].after
    {
      var next;
      ghost var turn;
      ghost var was := db.at;
      next, lastVersion, turn := Turn(db, snapshot.value, lastVersion);
      if next == snapshot.value {
        SeenLonger(db, next, old(db.at), was, old(db.at), db.at);
      } else {
        SeenLonger(db, next, was, db.at, old(db.at), db.at);
      }
      snapshot, trace, tick := Some(next), trace + [turn], tick + 1;
    }
    timedOut := !snapshot.value.Ready();
    if timedOut {
      forall t | t in trace && !t.locked && t.at == |db.history| - 1
        ensures !MayStart(db.history[t.at], db.history[t.at], db.history[t.at])
      {
        LastTurnKnows(db.history, t);
      }
    } else {
      SeenIsFound(db, snapshot.value, old(db.at), db.at);
    }
  }
}
