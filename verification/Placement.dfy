/**
 * Where a document revision goes: the one rule every reader of the log places a revision by
 * (src/core/cloud/revision-placement.ts), read literally, over every revision of the document.
 */
module Placement {
  import opened Types

  /** The same body, and the same author where both name one. */
  predicate SameRevision(held: Fields, incoming: Fields) {
    var body := Get(held, "body");
    && body == Get(incoming, "body")
    && (body.Some? ==> body.value.Comparable())
    && SameAuthor(Get(held, "author"), Get(incoming, "author"))
  }

  predicate SameAuthor(held: Option<Json>, incoming: Option<Json>) {
    held.Some? && held.value.IsText() && incoming.Some? && incoming.value.IsText() ==> held == incoming
  }

  /** The number a renumbered revision was written as. */
  function WrittenAs(summary: Option<Json>): Option<nat> {
    match summary
    case Some(Moved(_, written, _)) => Some(written)
    case _ => None
  }

  /** The summary a revision was written with, without what a renumbering added; null for none. */
  function WrittenSummary(summary: Option<Json>): Json {
    match summary
    case Some(Str(s)) => Str(s)
    case Some(Moved(Some(own), _, _)) => Str(own)
    case _ => Null
  }

  /** What `trim` takes for white space. */
  predicate IsSpace(c: char) {
    || c in {' ', '\t', '\n', '\U{000B}', '\U{000C}', '\r', '\U{00A0}', '\U{1680}', '\U{2028}', '\U{2029}', '\U{202F}', '\U{205F}',
             '\U{3000}', '\U{FEFF}'}
    || '\U{2000}' <= c <= '\U{200A}'
  }

  predicate Blank(s: string) {
    forall c | c in s :: IsSpace(c)
  }

  function RenumberedSummary(summary: Option<Json>, from: nat, to: nat): Json {
    var own := WrittenSummary(summary);
    Moved(if own.Str? && !Blank(own.s) then Some(own.s) else None, WrittenAs(summary).GetOr(from), to)
  }

  /** A revision's summary at `slot`, when it claimed `claimed`. */
  function SummaryAt(summary: Option<Json>, claimed: nat, slot: nat): Json {
    if slot == WrittenAs(summary).GetOr(claimed) then WrittenSummary(summary)
    else RenumberedSummary(summary, claimed, slot)
  }

  /** Below this number, a revision holding the same text is an earlier revision, not this one. */
  function Floor(claimed: nat, payload: Fields): nat {
    var written := WrittenAs(Get(payload, "changeSummary")).GetOr(claimed);
    if written < claimed then written else claimed
  }

  predicate LiveRev(fold: Fold, key: Key, doc: string) {
    key in fold && key.Rev? && key.doc == doc && fold[key].entity.deletedAt.None?
  }

  /** Some live revision of the document sits at `number`. */
  predicate Held(fold: Fold, doc: string, number: nat) {
    exists key | key in fold :: LiveRev(fold, key, doc) && key.number == number
  }

  function Taken(fold: Fold, doc: string): set<nat> {
    set key | key in fold && LiveRev(fold, key, doc) :: key.number
  }

  lemma TakenIsHeld(fold: Fold, doc: string, number: nat)
    ensures number in Taken(fold, doc) <==> Held(fold, doc, number)
  {
  }

  /** A live revision at or above the floor already is this revision. */
  predicate Again(fold: Fold, doc: string, floor: nat, payload: Fields) {
    exists key | key in fold ::
      LiveRev(fold, key, doc) && floor <= key.number && SameRevision(fold[key].entity.state, payload)
  }

  function AtLeast(numbers: set<nat>, from: nat): set<nat> {
    set n | n in numbers && from <= n
  }

  /** The first number from `from` upward that `taken` does not hold. */
  function FirstFree(taken: set<nat>, from: nat): (slot: nat)
    ensures from <= slot && slot !in taken
    ensures forall n | from <= n < slot :: n in taken
    decreases AtLeast(taken, from)
  {
    if from in taken then
      assert from in AtLeast(taken, from) && from !in AtLeast(taken, from + 1);
      FirstFree(taken, from + 1)
    else from
  }

  function OrNull(value: Option<Json>): Json {
    value.GetOr(Null)
  }

  /** The operation a create of `row.key` becomes once its number is settled at `slot`. */
  function PlacedAt(row: Op, slot: nat): Op
    requires row.key.Rev?
  {
    var summary := SummaryAt(Get(row.payload, "changeSummary"), row.key.number, slot);
    if slot == row.key.number && summary == OrNull(Get(row.payload, "changeSummary")) then row
    else
      row.(key := Rev(row.key.doc, slot, 0),
           payload := row.payload["revision" := Num(slot)]["changeSummary" := summary])
  }

  predicate IsRevisionCreate(row: Op) {
    row.verb.Create? && row.key.Rev?
  }

  /**
   * The literal rule: an operation as the fold takes it. A revision's create is dropped when the
   * fold already holds the revision, and otherwise takes the first number from its claim upward
   * that no live revision holds. Every other operation is itself.
   */
  function Settle(fold: Fold, row: Op): Option<Op> {
    if !IsRevisionCreate(row) then Some(row)
    else if Again(fold, row.key.doc, Floor(row.key.number, row.payload), row.payload) then None
    else Some(PlacedAt(row, FirstFree(Taken(fold, row.key.doc), row.key.number)))
  }

  /** The number chosen is the least free one at or above the claim, and no live revision holds it. */
  lemma SettleTakesLeastFree(fold: Fold, row: Op)
    requires IsRevisionCreate(row) && Settle(fold, row).Some?
    ensures var placed := Settle(fold, row).value;
            && placed.key.Rev? && placed.key.doc == row.key.doc && row.key.number <= placed.key.number
            && !Held(fold, row.key.doc, placed.key.number)
            && (forall n | row.key.number <= n < placed.key.number :: Held(fold, row.key.doc, n))
            && (placed.key == row.key || placed.key.spelling == 0)
  {
    var doc := row.key.doc;
    var slot := FirstFree(Taken(fold, doc), row.key.number);
    TakenIsHeld(fold, doc, slot);
    forall n | row.key.number <= n < slot ensures Held(fold, doc, n) {
      TakenIsHeld(fold, doc, n);
    }
  }

  /**
   * A revision's create is dropped exactly when a live revision of its document says the same - one body,
   * and one author where both name one - at the number it claims or above; one that was moved, also at the
   * number it was written as or above.
   */
  lemma DroppedIff(fold: Fold, row: Op)
    requires IsRevisionCreate(row)
    ensures Settle(fold, row) == None <==>
            exists key | key in fold ::
              && key.Rev? && key.doc == row.key.doc && fold[key].entity.deletedAt.None?
              && (row.key.number <= key.number
                  || match Get(row.payload, "changeSummary") case Some(Moved(_, written, _)) => written <= key.number case _ => false)
              && var held, mine := fold[key].entity.state, row.payload;
                 && (if "body" in held then "body" in mine && held["body"] == mine["body"] && !held["body"].Arr? && !held["body"].Obj?
                     else "body" !in mine)
                 && ("author" in held && "author" in mine && held["author"].IsText() && mine["author"].IsText()
                     ==> held["author"] == mine["author"])
  {
  }

  /** A document put back to an earlier text: a create that was never moved is placed when every revision like it is earlier. */
  lemma PutBackIsPlaced(fold: Fold, row: Op)
    requires IsRevisionCreate(row)
    requires (match Get(row.payload, "changeSummary") case Some(Moved(_, _, _)) => false case _ => true)
    requires forall key | key in fold && key.Rev? && key.doc == row.key.doc && row.key.number <= key.number ::
               fold[key].entity.deletedAt.Some? || Get(fold[key].entity.state, "body") != Get(row.payload, "body")
    ensures Settle(fold, row).Some? && Settle(fold, row).value.key.doc == row.key.doc
    ensures Get(Settle(fold, row).value.payload, "body") == Get(row.payload, "body")
  {
    DroppedIff(fold, row);
  }

  /** A text that says something. */
  predicate Says(own: Option<string>) {
    own.Some? && exists c | c in own.value :: !IsSpace(c)
  }

  /**
   * What a placed revision says: all its create said, with the number it takes, and its own summary at the
   * number it was written as. At any other number the summary also tells the move, from the number it was
   * written as whatever it was moved through.
   */
  lemma PlacedSays(fold: Fold, row: Op)
    requires IsRevisionCreate(row) && Settle(fold, row).Some?
    ensures var placed := Settle(fold, row).value;
            && placed == row.(key := placed.key, payload := placed.payload) && placed.key.Rev?
            && placed.payload - {"revision", "changeSummary"} == row.payload - {"revision", "changeSummary"}
            && Get(placed.payload, "revision") in {Get(row.payload, "revision"), Some(Num(placed.key.number))}
            && (placed.key.number != row.key.number ==> Get(placed.payload, "revision") == Some(Num(placed.key.number)))
            && var now := Get(placed.payload, "changeSummary");
               var slot := placed.key.number;
               match Get(row.payload, "changeSummary")
               case Some(Moved(own, written, _)) =>
                 if slot == written then now == Some(if own.Some? then Str(own.value) else Null)
                 else now == Some(Moved(if Says(own) then own else None, written, slot))
               case Some(Str(own)) =>
                 if slot == row.key.number then now == Some(Str(own))
                 else now == Some(Moved(if Says(Some(own)) then Some(own) else None, row.key.number, slot))
               case _ =>
                 if slot == row.key.number then now in {None, Some(Null)} else now == Some(Moved(None, row.key.number, slot))
  {
  }

  /** Placing a revision that was already moved says the same thing about it. */
  lemma SummaryAtTwice(summary: Option<Json>, claimed: nat, slot: nat)
    ensures var once := SummaryAt(summary, claimed, slot); SummaryAt(Some(once), slot, slot) == once
  {
  }
}
