/** The queue view's lanes (src/mcp-queue.ts): the effective queue split by what holds each row. */
module QueueLanes {
  import opened Types

  datatype Eligibility = Eligible | Gated | Claimed | Blocked | Unavailable

  /** A row of the effective queue; `gate` is the ticket whose gate it is queued behind, if it is not its own. */
  datatype Row = Row(identifier: string, unqueued: bool, eligibility: Eligibility, gate: Option<string>)

  datatype Policy = Strict | Advisory

  datatype Group = Group(holder: string, holds: seq<Row>, heldTotal: nat)

  datatype Lanes = Lanes(
    expected: Option<string>,
    ready: seq<Row>,
    takeable: set<string>,
    gated: seq<Group>,
    inProgress: seq<Row>,
    blocked: seq<Row>,
    unavailable: seq<Row>,
    readyTotal: nat,
    gatedTotal: nat,
    gates: nat,
    claimedTotal: nat,
    blockedTotal: nat,
    unavailableTotal: nat)

  const LANE_LIMIT := 20

  /** `rows.filter(...)`. */
  function Only(rows: seq<Row>, eligibility: Eligibility): seq<Row> {
    if rows == [] then []
    else Only(rows[..|rows| - 1], eligibility) + if rows[|rows| - 1].eligibility == eligibility then [rows[|rows| - 1]] else []
  }

  function Cut<T>(list: seq<T>): seq<T> {
    if |list| <= LANE_LIMIT then list else list[..LANE_LIMIT]
  }

  function Holder(row: Row): string {
    row.gate.GetOr(row.identifier)
  }

  /** The gated rows a gate holds, in effective order. */
  function HeldBy(rows: seq<Row>, holder: string): seq<Row> {
    if rows == [] then []
    else
      var row := rows[|rows| - 1];
      HeldBy(rows[..|rows| - 1], holder) + if row.eligibility.Gated? && Holder(row) == holder then [row] else []
  }

  /** A lane is its rows and no others, in effective order. */
  lemma {:induction false} LaneInOrder(a: seq<Row>, b: seq<Row>, row: Row, eligibility: Eligibility)
    ensures Only([row], eligibility) == if row.eligibility == eligibility then [row] else []
    ensures Only(a + b, eligibility) == Only(a, eligibility) + Only(b, eligibility)
  {
    assert [row][..0] == [];
    if b == [] {
      assert a + b == a;
    } else {
      var n := |b| - 1;
      assert (a + b)[..|a + b| - 1] == a + b[..n];
      LaneInOrder(a, b[..n], row, eligibility);
    }
  }

  /** What a gate holds is the gated rows behind it, or the one whose own gate it is, in effective order. */
  lemma {:induction false} HeldInOrder(a: seq<Row>, b: seq<Row>, row: Row, holder: string)
    ensures HeldBy([row], holder) ==
              if row.eligibility.Gated? && (row.gate == Some(holder) || (row.gate.None? && row.identifier == holder)) then [row] else []
    ensures HeldBy(a + b, holder) == HeldBy(a, holder) + HeldBy(b, holder)
  {
    assert [row][..0] == [];
    if b == [] {
      assert a + b == a;
    } else {
      var n := |b| - 1;
      assert (a + b)[..|a + b| - 1] == a + b[..n];
      HeldInOrder(a, b[..n], row, holder);
    }
  }

  /** A lane shows its first twenty. */
  lemma FirstTwenty(rows: seq<Row>)
    ensures Cut(rows) <= rows && |Cut(rows)| == if |rows| < 20 then |rows| else 20
  {
  }

  function Total(groups: seq<Group>): nat {
    if groups == [] then 0 else Total(groups[..|groups| - 1]) + groups[|groups| - 1].heldTotal
  }

  /** Each gate once, with the first of what it holds and how much that is; between them, every gated row. */
  ghost predicate Grouped(rows: seq<Row>, groups: seq<Group>) {
    && (forall i, j | 0 <= i < j < |groups| :: groups[i].holder != groups[j].holder)
    && (forall g | g in groups :: g.holds == Cut(HeldBy(rows, g.holder)) && g.heldTotal == |HeldBy(rows, g.holder)| > 0)
    && (forall row | row in rows && row.eligibility.Gated? :: exists g | g in groups :: g.holder == Holder(row))
    && Total(groups) == |Only(rows, Gated)|
  }

  /** Where the first row a gate holds is; the length of the rows where there is none. */
  function FirstHeld(rows: seq<Row>, holder: string): nat {
    if rows == [] then 0
    else
      var n := |rows| - 1;
      var at := FirstHeld(rows[..n], holder);
      if at < n || (rows[n].eligibility.Gated? && Holder(rows[n]) == holder) then at else |rows|
  }

  lemma {:induction false} FirstHeldIs(rows: seq<Row>, holder: string)
    ensures var at := FirstHeld(rows, holder);
            && at <= |rows| && (at < |rows| ==> rows[at].eligibility.Gated? && Holder(rows[at]) == holder)
            && forall k | 0 <= k < at :: !(rows[k].eligibility.Gated? && Holder(rows[k]) == holder)
  {
    if rows != [] {
      FirstHeldIs(rows[..|rows| - 1], holder);
    }
  }

  /** The gates come in the order of the first row each holds. */
  ghost predicate InOrder(rows: seq<Row>, groups: seq<Group>) {
    && (forall i | 0 <= i < |groups| :: FirstHeld(rows, groups[i].holder) < |rows|)
    && (forall i, j | 0 <= i < j < |groups| :: FirstHeld(rows, groups[i].holder) < FirstHeld(rows, groups[j].holder))
  }

  lemma FirstStays(rows: seq<Row>, row: Row, holder: string)
    ensures FirstHeld(rows, holder) < |rows| ==> FirstHeld(rows + [row], holder) == FirstHeld(rows, holder)
    ensures row.eligibility.Gated? && Holder(row) == holder && FirstHeld(rows, holder) == |rows| ==> FirstHeld(rows + [row], holder) == |rows|
  {
    FirstHeldIs(rows, holder);
    assert (rows + [row])[..|rows|] == rows;
  }

  lemma FirstOfGroup(rows: seq<Row>, row: Row, was: string, holder: string)
    requires holder == was && FirstHeld(rows, was) < |rows|
    ensures FirstHeld(rows + [row], holder) == FirstHeld(rows, was) < |rows + [row]|
  {
    FirstStays(rows, row, was);
  }

  lemma FirstOfNew(rows: seq<Row>, row: Row, holder: string)
    requires row.eligibility.Gated? && holder == Holder(row) && FirstHeld(rows, Holder(row)) == |rows|
    ensures FirstHeld(rows + [row], holder) == |rows| < |rows + [row]|
  {
    FirstStays(rows, row, Holder(row));
  }

  lemma OrderOneMore(rows: seq<Row>, row: Row, groups: seq<Group>, after: seq<Group>)
    requires InOrder(rows, groups) && |groups| <= |after| <= |groups| + 1
    requires forall i | 0 <= i < |groups| :: after[i].holder == groups[i].holder
    requires |after| > |groups| ==> row.eligibility.Gated? && after[|groups|].holder == Holder(row) && FirstHeld(rows, Holder(row)) == |rows|
    ensures InOrder(rows + [row], after)
  {
    hide FirstHeld, Holder;
    var now := rows + [row];
    forall i | 0 <= i < |after| ensures FirstHeld(now, after[i].holder) == Place(rows, groups, i) < |now| {
      if i < |groups| {
        FirstOfGroup(rows, row, groups[i].holder, after[i].holder);
      } else {
        assert i == |groups|;
        FirstOfNew(rows, row, after[|groups|].holder);
      }
    }
    forall i, j | 0 <= i < j < |after| ensures FirstHeld(now, after[i].holder) < FirstHeld(now, after[j].holder) {
      assert Place(rows, groups, i) < Place(rows, groups, j);
    }
  }

  lemma JoinsOrder(rows: seq<Row>, row: Row, groups: seq<Group>, at: nat)
    requires InOrder(rows, groups) && at < |groups|
    ensures InOrder(rows + [row], groups[at := Joined(groups[at], row)])
  {
    hide InOrder;
    OrderOneMore(rows, row, groups, groups[at := Joined(groups[at], row)]);
  }

  lemma StartsOrder(rows: seq<Row>, row: Row, groups: seq<Group>, group: Group)
    requires InOrder(rows, groups) && Grouped(rows, groups) && (forall g | g in groups :: g.holder != Holder(row))
    requires row.eligibility.Gated? && group.holder == Holder(row)
    ensures InOrder(rows + [row], groups + [group])
  {
    hide InOrder, Grouped;
    NoGroupNoRow(rows, groups, Holder(row));
    OrderOneMore(rows, row, groups, groups + [group]);
  }

  /** Where each group's first row is, and the end of the rows for one that is new. */
  function Place(rows: seq<Row>, groups: seq<Group>, i: nat): nat {
    if i < |groups| then FirstHeld(rows, groups[i].holder) else |rows|
  }

  /** A gate no group is of holds none of the rows. */
  lemma NoGroupNoRow(rows: seq<Row>, groups: seq<Group>, holder: string)
    requires Grouped(rows, groups) && forall g | g in groups :: g.holder != holder
    ensures FirstHeld(rows, holder) == |rows|
  {
    FirstHeldIs(rows, holder);
    var at := FirstHeld(rows, holder);
    assert forall row | row in rows && row.eligibility.Gated? :: Holder(row) != holder;
  }

  function Find(groups: seq<Group>, holder: string): (at: Option<nat>)
    ensures at.Some? ==> at.value < |groups| && groups[at.value].holder == holder
    ensures at.None? ==> forall g | g in groups :: g.holder != holder
  {
    if groups == [] then None
    else if groups[|groups| - 1].holder == holder then Some(|groups| - 1)
    else Find(groups[..|groups| - 1], holder)
  }

  lemma {:induction false} TotalUpdate(groups: seq<Group>, at: nat, group: Group)
    requires at < |groups| && group.heldTotal == groups[at].heldTotal + 1
    ensures Total(groups[at := group]) == Total(groups) + 1
  {
    var n := |groups| - 1;
    if at == n {
      assert groups[at := group][..n] == groups[..n];
    } else {
      assert groups[at := group][..n] == groups[..n][at := group];
      TotalUpdate(groups[..n], at, group);
    }
  }

  lemma {:induction false} NoneHeld(rows: seq<Row>, holder: string)
    requires forall row | row in rows && row.eligibility.Gated? :: Holder(row) != holder
    ensures HeldBy(rows, holder) == []
  {
    if rows != [] {
      NoneHeld(rows[..|rows| - 1], holder);
    }
  }

  lemma HeldOneMore(rows: seq<Row>, row: Row, holder: string)
    ensures HeldBy(rows + [row], holder) == HeldBy(rows, holder) + if row.eligibility.Gated? && Holder(row) == holder then [row] else []
  {
    assert (rows + [row])[..|rows|] == rows;
  }

  lemma OnlyOneMore(rows: seq<Row>, row: Row, eligibility: Eligibility)
    ensures Only(rows + [row], eligibility) == Only(rows, eligibility) + if row.eligibility == eligibility then [row] else []
  {
    assert (rows + [row])[..|rows|] == rows;
  }

  /** One more of what a gate holds: listed while there is room, counted always. */
  function Joined(group: Group, row: Row): Group {
    Group(group.holder, if |group.holds| < LANE_LIMIT then group.holds + [row] else group.holds, group.heldTotal + 1)
  }

  /** One more gated row, in a group the loop has. */
  lemma JoinsGroup(rows: seq<Row>, row: Row, groups: seq<Group>, at: nat, after: seq<Group>)
    requires Grouped(rows, groups) && row.eligibility.Gated? && at < |groups| && groups[at].holder == Holder(row)
    requires after == groups[at := Joined(groups[at], row)]
    ensures Grouped(rows + [row], after)
  {
    hide Total, HeldBy, Only;
    TotalUpdate(groups, at, after[at]);
    OnlyOneMore(rows, row, Gated);
    forall g | g in after ensures g.holds == Cut(HeldBy(rows + [row], g.holder)) && g.heldTotal == |HeldBy(rows + [row], g.holder)| > 0 {
      var i :| 0 <= i < |after| && after[i] == g;
      assert groups[i] in groups;
      HeldOneMore(rows, row, g.holder);
    }
    assert after[at] in after;
    forall r | r in rows + [row] && r.eligibility.Gated? ensures exists g | g in after :: g.holder == Holder(r) {
      if r in rows {
        var g :| g in groups && g.holder == Holder(r);
        var i :| 0 <= i < |groups| && groups[i] == g;
        assert after[i] in after && after[i].holder == g.holder;
      }
    }
  }

  /** One more gated row, the first of its gate. */
  lemma StartsGroup(rows: seq<Row>, row: Row, groups: seq<Group>, after: seq<Group>)
    requires Grouped(rows, groups) && row.eligibility.Gated? && forall g | g in groups :: g.holder != Holder(row)
    requires after == groups + [Group(Holder(row), [row], 1)]
    ensures Grouped(rows + [row], after)
  {
    hide HeldBy, Only;
    OnlyOneMore(rows, row, Gated);
    assert after[..|groups|] == groups;
    NoneHeld(rows, Holder(row));
    forall g | g in after ensures g.holds == Cut(HeldBy(rows + [row], g.holder)) && g.heldTotal == |HeldBy(rows + [row], g.holder)| > 0 {
      HeldOneMore(rows, row, g.holder);
    }
    assert after[|groups|] in after;
    forall r | r in rows + [row] && r.eligibility.Gated? ensures exists g | g in after :: g.holder == Holder(r) {
      if r in rows {
        var g :| g in groups && g.holder == Holder(r);
        assert g in after;
      }
    }
  }

  lemma NotGated(rows: seq<Row>, row: Row, groups: seq<Group>)
    requires Grouped(rows, groups) && !row.eligibility.Gated?
    ensures Grouped(rows + [row], groups)
  {
    hide HeldBy, Only, Total;
    OnlyOneMore(rows, row, Gated);
    forall g | g in groups ensures HeldBy(rows + [row], g.holder) == HeldBy(rows, g.holder) {
      HeldOneMore(rows, row, g.holder);
    }
  }

  /** The gated rows by the gate that holds them, each gate where its first row is. */
  method GroupGated(rows: seq<Row>) returns (groups: seq<Group>, gatedRows: nat)
    ensures Grouped(rows, groups) && InOrder(rows, groups) && gatedRows == |Only(rows, Gated)|
  {
    hide Grouped, InOrder, Total, HeldBy, FirstHeld, Joined, Only, Holder;
    groups, gatedRows := [], 0;
    NothingGrouped();
    for i := 0 to |rows|
      invariant Grouped(rows[..i], groups) && InOrder(rows[..i], groups) && gatedRows == |Only(rows[..i], Gated)|
    {
      var row := rows[i];
      assert rows[..i + 1] == rows[..i] + [row];
      OnlyOneMore(rows[..i], row, Gated);
      if !row.eligibility.Gated? {
        NotGated(rows[..i], row, groups);
        OrderOneMore(rows[..i], row, groups, groups);
      } else {
        gatedRows := gatedRows + 1;
        var at := Find(groups, Holder(row));
        ghost var before := groups;
        if at.None? {
          groups := groups + [Group(Holder(row), [row], 1)];
          StartsGroup(rows[..i], row, before, groups);
          StartsOrder(rows[..i], row, before, Group(Holder(row), [row], 1));
        } else {
          groups := groups[at.value := Joined(groups[at.value], row)];
          JoinsGroup(rows[..i], row, before, at.value, groups);
          JoinsOrder(rows[..i], row, before, at.value);
        }
      }
    }
    assert rows[..|rows|] == rows;
  }

  lemma NothingGrouped()
    ensures Grouped([], []) && InOrder([], []) && Only([], Gated) == []
  {
  }

  /** The row strict checkout accepts: the first eligible row of the whole plan. */
  function Head(whole: seq<Row>): Option<string> {
    if whole == [] then None
    else if !whole[0].unqueued && whole[0].eligibility.Eligible? then Some(whole[0].identifier)
    else Head(whole[1..])
  }

  predicate Takeable(policy: Policy, expected: Option<string>, row: Row) {
    policy.Advisory? || expected.None? || expected == Some(row.identifier)
  }

  /**
   * `queueLanes`, over the rows of the scope asked for and of the whole queue: every row is counted in the
   * lane of its eligibility, in effective order, and the gates between them hold every gated row.
   */
  method Split(rows: seq<Row>, whole: seq<Row>, policy: Policy) returns (lanes: Lanes)
    ensures lanes.expected == if policy.Strict? then Head(whole) else None
    ensures lanes.ready == Cut(Only(rows, Eligible)) && lanes.readyTotal == |Only(rows, Eligible)|
    ensures forall row | row in lanes.ready :: row.identifier in lanes.takeable <==> Takeable(policy, lanes.expected, row)
    ensures forall row | row in lanes.ready ::
      row.identifier in lanes.takeable <==> policy == Advisory || lanes.expected == None || lanes.expected == Some(row.identifier)
    ensures lanes.expected.Some? ==> lanes.takeable <= {lanes.expected.value}
    ensures exists groups :: Grouped(rows, groups) && lanes.gated == Cut(groups) && lanes.gates == |groups| && lanes.gatedTotal == Total(groups)
    ensures lanes.inProgress == Cut(Only(rows, Claimed)) && lanes.claimedTotal == |Only(rows, Claimed)|
    ensures lanes.blocked == Cut(Only(rows, Blocked)) && lanes.blockedTotal == |Only(rows, Blocked)|
    ensures lanes.unavailable == Cut(Only(rows, Unavailable)) && lanes.unavailableTotal == |Only(rows, Unavailable)|
    ensures lanes.readyTotal + lanes.gatedTotal + lanes.claimedTotal + lanes.blockedTotal + lanes.unavailableTotal == |rows|
  {
    var expected := if policy.Strict? then Head(whole) else None;
    var eligible := Only(rows, Eligible);
    var ready := Cut(eligible);
    var takeable := set row | row in ready && Takeable(policy, expected, row) :: row.identifier;
    var groups, gatedRows := GroupGated(rows);
    var claimed, blocked, unavailable := Only(rows, Claimed), Only(rows, Blocked), Only(rows, Unavailable);
    lanes := Lanes(expected, ready, takeable, Cut(groups), Cut(claimed), Cut(blocked), Cut(unavailable),
                   |eligible|, gatedRows, |groups|, |claimed|, |blocked|, |unavailable|);
    EveryRowOnce(rows);
  }

  lemma {:induction false} EveryRowOnce(rows: seq<Row>)
    ensures |Only(rows, Eligible)| + |Only(rows, Gated)| + |Only(rows, Claimed)| + |Only(rows, Blocked)| + |Only(rows, Unavailable)| == |rows|
  {
    if rows != [] {
      EveryRowOnce(rows[..|rows| - 1]);
    }
  }

  /** Without an eligible row in the plan nothing is expected. */
  lemma {:induction false} NoHead(whole: seq<Row>)
    requires forall row | row in whole :: row.unqueued || !row.eligibility.Eligible?
    ensures Head(whole) == None
  {
    if whole != [] {
      assert whole[0] in whole && forall row | row in whole[1..] :: row in whole;
      NoHead(whole[1..]);
    }
  }

  /** The head is the first eligible row of the plan. */
  lemma {:induction false} HeadIsFirst(whole: seq<Row>, i: nat)
    requires i < |whole| && !whole[i].unqueued && whole[i].eligibility.Eligible?
    requires forall j | 0 <= j < i :: whole[j].unqueued || !whole[j].eligibility.Eligible?
    ensures Head(whole) == Some(whole[i].identifier)
  {
    if i > 0 {
      HeadIsFirst(whole[1..], i - 1);
    }
  }
}
