/**
 * Logs on which the fold and the restore do not do what is written of them, beside the exact conditions
 * proved elsewhere (RoundTrip.RestoreFoldsBack, Revisions.DistinctIff).
 */
module Counterexamples {
  import opened Types
  import opened Placement
  import opened FoldRule
  import opened Pages
  import opened OpLog
  import opened Revisions
  import opened RoundTrip
  import opened Races

  // ----- Restores that do not fold back ---------------------------------------------------

  /** An entity created and then replaced comes back without who created it and when. */
  lemma ReplacedLosesItsCreate(create: Op, replace: Op)
    requires create.key.Plain? && create.verb.Create? && replace.key == create.key && replace.verb.Replace?
    requires create.actor.Some? && !StartsWith(create.actor.value, "restore:")
    ensures var fold, key := FoldLog(map[], [create, replace]), create.key;
            && key in fold && fold[key].entity.deletedAt.None? && fold[key].entity.superseded
            && fold[key].entity.createdBy == create.actor && fold[key].entity.createdAt == Some(create.createdAt)
            && !Reproducible(fold[key].entity)
  {
    hide Carried, StartsWith, Listed, FoldRow, Settle;
    FoldsFresh(map[], [], create);
    assert [] + [create] == [create] && [create, replace][..1] == [create];
    ReplaceFolds(FoldLog(map[], [create]), replace);
  }

  lemma ReplaceFolds(fold: Fold, row: Op)
    requires row.verb.Replace? && row.key in fold
    ensures FoldRow(fold, row) == fold[row.key := Cell(Touch(fold[row.key].entity, row), row.seqno)]
  {
    hide Touch;
  }

  /**
   * An entity created by nobody comes back without when: what is staged for want of an actor is the
   * restore's own, and a restore's own time is not kept.
   */
  lemma NobodysCreateLosesItsTime(create: Op)
    requires create.key.Plain? && create.verb.Create? && create.actor.None?
    ensures var fold, key := FoldLog(map[], [create]), create.key;
            && key in fold && fold[key].entity.deletedAt.None? && fold[key].entity.createdAt == Some(create.createdAt)
            && !Reproducible(fold[key].entity)
  {
    hide Carried, StartsWith, Listed, FoldRow;
    FoldsFresh(map[], [], create);
    assert [] + [create] == [create];
  }

  function Revision(number: nat, body: string): Fields {
    map["body" := Str(body), "author" := Str("someone")]
  }

  const SEVENTH := Draft(Sent("a"), Rev("d", 7, 0), Create, Revision(7, "old"), Some("someone"), "now")
  const FIFTH := Draft(Sent("b"), Rev("d", 5, 0), Create, Revision(5, "text"), Some("someone"), "now")
  const EDIT := Draft(Sent("c"), Rev("d", 7, 0), Update, Revision(7, "text"), Some("someone"), "now")

  /**
   * A revision edited to the text of one created after it stands in that one's way when both are
   * staged again: the backup holds both revisions, and the restored epoch one.
   */
  lemma EditedRevisionDropsAnother()
    ensures var fold := FoldLog(map[], [Row(SEVENTH, 1, 0, 0), Row(FIFTH, 2, 0, 0), Row(EDIT, 3, 0, 0)]);
            && Rev("d", 7, 0) in fold && Rev("d", 5, 0) in fold
            && StageOrder(fold, Rev("d", 7, 0)) < StageOrder(fold, Rev("d", 5, 0))
            && !Returns(fold, [Rev("d", 7, 0)], Rev("d", 5, 0))
  {
    hide Touch, Settle, ForgetsPlace;
    var a, b, c := Row(SEVENTH, 1, 0, 0), Row(FIFTH, 2, 0, 0), Row(EDIT, 3, 0, 0);
    var seventh, fifth := Rev("d", 7, 0), Rev("d", 5, 0);
    WrittenState(Fresh(1), a);
    WrittenState(Fresh(2), b);
    var first := map[seventh := Cell(Touch(Fresh(1), a), 1)];
    var second := first[fifth := Cell(Touch(Fresh(2), b), 2)];
    SettlesWhereItIs(map[], a);
    AppliesFresh(map[], a);
    SettlesWhereItIs(first, b);
    AppliesFresh(first, b);
    ThreeFolded(a, b, c);
    WrittenState(second[seventh].entity, c);
    EditFolds(second, c);
    var fold := FoldRow(second, c);
    assert fold[fifth] == second[fifth] && fold[seventh].entity == Touch(second[seventh].entity, c);
    assert Blocks(fold, seventh, fifth);
  }

  /** A revision's body and author are what was last written of it. */
  lemma WrittenState(was: Entity, row: Op)
    requires was.deletedAt.None? && was.state.Keys <= {"body", "author"} && row.payload.Keys == {"body", "author"}
    requires row.verb.Create? || row.verb.Update?
    requires row.key.Rev?
    ensures var after := Touch(was, row);
            && after.deletedAt.None? && after.state == row.payload && after.superseded == false
            && after.createdSeq == (if row.verb.Create? then Some(row.seqno) else was.createdSeq)
  {
    hide SettleAttemptEnd, OtherSpelling;
    assert '_' !in "body" && '_' !in "author";
    assert ColumnSpellingWins(row.payload) == row.payload;
    assert Carried("documentRevision", was.state, row.payload) == row.payload;
    NoOtherSpelling();
    assert Respelled(row.payload) == {};
  }

  lemma NoOtherSpelling()
    ensures OtherSpelling("body") == "body" && OtherSpelling("author") == "author"
  {
  }

  lemma ThreeFolded(a: Op, b: Op, c: Op)
    ensures FoldLog(map[], [a, b, c]) == FoldRow(FoldRow(FoldRow(map[], a), b), c)
  {
    hide FoldRow;
    assert [a, b, c][..2] == [a, b] && [a, b][..1] == [a] && [a][..0] == [];
    assert FoldLog(map[], [a]) == FoldRow(map[], a);
    assert FoldLog(map[], [a, b]) == FoldRow(FoldRow(map[], a), b);
  }

  /** A revision whose number is free and whose text is new is placed as it is. */
  lemma SettlesWhereItIs(fold: Fold, row: Op)
    requires IsRevisionCreate(row) && "changeSummary" !in row.payload && !Held(fold, row.key.doc, row.key.number)
    requires forall key | key in fold && LiveRev(fold, key, row.key.doc) :: !SameRevision(fold[key].entity.state, row.payload)
    ensures Settle(fold, row) == Some(row)
  {
    TakenIsHeld(fold, row.key.doc, row.key.number);
  }

  // ----- One number, two live revisions ---------------------------------------------------

  const ALIAS := Draft(Sent("d"), Rev("d", 7, 1), Update, Revision(7, "other"), Some("someone"), "now")

  /** An update naming a revision by another spelling of its number makes a second live one of that number. */
  lemma AliasDoublesNumber()
    ensures var fold := FoldLog(map[], [Row(SEVENTH, 1, 0, 0)]);
            && NumbersDistinct(fold) && Doubles(fold, Row(ALIAS, 2, 0, 0))
            && !NumbersDistinct(FoldLog(map[], [Row(SEVENTH, 1, 0, 0), Row(ALIAS, 2, 0, 0)]))
  {
    hide Touch, Settle, FoldRow;
    var a, b := Row(SEVENTH, 1, 0, 0), Row(ALIAS, 2, 0, 0);
    SettlesWhereItIs(map[], a);
    WrittenState(Fresh(1), a);
    FirstRevision(a);
    var fold := FoldLog(map[], [a]);
    assert LiveRev(fold, a.key, "d");
    DistinctIff(fold, b);
    assert [a, b][..1] == [a];
  }

  lemma FirstRevision(row: Op)
    requires Settle(map[], row) == Some(row)
    ensures FoldLog(map[], [row]) == map[row.key := Cell(Touch(Fresh(row.seqno), row), row.seqno)]
  {
    hide Touch, Settle;
    assert [row][..0] == [];
    AppliesFresh(map[], row);
  }
}
