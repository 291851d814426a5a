/** Where an entity's claim sits in the log its fold came from (worker/src/fold.ts, `claimSeq`). */
module Claims {
  import opened Types
  import opened FoldRule
  import opened FoldMeaning
  import opened Provenance
  import opened Pages

  /** The field in which two entities of a kind can want one value. */
  predicate Contests(key: Key, name: string) {
    && key.Plain?
    && if key.kind == "issue" then name == "identifier"
       else if key.kind == "project" then name == "slug"
       else key.id == "@order" && name == "order"
  }

  /** The operation that makes an entity's claim: the last write of its contested field, else its create. */
  ghost predicate Claim(log: seq<Op>, key: Key, name: string, i: int) {
    || LastWrite(log, key, name, i)
    || (LastCreate(log, key, i) && forall j | 0 <= j < |log| :: !Counts(log, key, name, j))
  }

  lemma ClaimTold(log: seq<Op>, key: Key, name: string, e: Entity)
    requires WriteTold(log, key, name, Wrote(e, name)) && CreateTold(log, key, e)
    ensures var place := if Wrote(e, name).Some? then Some(Wrote(e, name).value.seqno) else e.createdSeq;
            && (forall i | 0 <= i < |log| && Claim(log, key, name, i) :: place == Some(log[i].seqno))
            && (place.Some? ==> exists i | 0 <= i < |log| :: Claim(log, key, name, i))
            && (place.None? ==> forall i | 0 <= i < |log| :: !Creates(log[i], key) && !Counts(log, key, name, i))
  {
    hide LastWrite, LastCreate, Counts, Creates;
    LastIsOne(log, key, name);
    if Wrote(e, name).Some? {
      var i :| 0 <= i < |log| && LastWrite(log, key, name, i) && Wrote(e, name).value.seqno == log[i].seqno;
      assert Claim(log, key, name, i);
    } else if e.createdSeq.Some? {
      var i :| 0 <= i < |log| && LastCreate(log, key, i) && e.createdSeq == Some(log[i].seqno);
      assert Claim(log, key, name, i);
    }
  }

  /**
   * The seq a restore orders a live entity by is that of the operation that made its claim; an entity that
   * nothing created and whose field nothing wrote goes first.
   */
  lemma ClaimOfLog(log: seq<Op>, key: Key, name: string)
    requires Contests(key, name) && key in FoldLog(map[], log) && FoldLog(map[], log)[key].entity.deletedAt.None?
    ensures forall i | 0 <= i < |log| && Claim(log, key, name, i) :: StageOrder(FoldLog(map[], log), key) == log[i].seqno
    ensures (exists i | 0 <= i < |log| :: Claim(log, key, name, i))
            || (StageOrder(FoldLog(map[], log), key) == 0
                && forall i | 0 <= i < |log| :: !Creates(log[i], key) && !Counts(log, key, name, i))
  {
    hide FoldLog, Gone, Claim, Counts, Creates, WriteTold, CreateTold, LastTold, Times;
    ContestedIsOrdinary(key, name);
    LogTold(log, key, name);
    var e := FoldLog(map[], log)[key].entity;
    ClaimTold(log, key, name, e);
  }

  lemma ContestedIsOrdinary(key: Key, name: string)
    requires Contests(key, name)
    ensures Ordinary(name) && ClaimField(key) == Some(name)
  {
  }
}
