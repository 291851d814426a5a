/** Which of two ends an attempt keeps (src/core/cloud/attempt-ends.ts), said of the folds of logs. */
module AttemptEnds {
  import opened Types
  import opened Placement
  import opened FoldRule
  import opened FoldMeaning
  import opened Spelling

  // ----- The names of the end fields ------------------------------------------------------

  /** The column of an end field. */
  function ColumnOf(name: string): string {
    if name == "endReason" then "end_reason"
    else if name == "endDetection" then "end_detection"
    else if name == "endedBy" then "ended_by"
    else if name == "endedAt" then "ended_at"
    else if name == "endedAtSource" then "ended_at_source"
    else name
  }

  /** The seven end fields, each by its name and by its column. */
  predicate EndField(name: string, column: string) {
    && name in {"state", "outcome", "endReason", "endDetection", "endedBy", "endedAt", "endedAtSource"}
    && column == ColumnOf(name)
  }

  /** Either spelling of one of the seven. */
  predicate IsEndName(name: string) {
    name in {"state", "outcome", "endReason", "endDetection", "endedBy", "endedAt", "endedAtSource",
             "end_reason", "end_detection", "ended_by", "ended_at", "ended_at_source"}
  }

  /** The two other keys that camel case reads as `endedAtSource`. */
  predicate HalfSpelled(key: string) {
    key == "ended_atSource" || key == "endedAt_source"
  }

  /** Which keys can drop a field: its own two spellings, and for one field two more. */
  ghost predicate Spelled(name: string, column: string) {
    && Column(name) == column
    && (name != column ==> OtherSpelling(name) == column && OtherSpelling(column) == name)
    && forall key | key != name && key != column ::
         OtherSpelling(key) != column && (OtherSpelling(key) == name <==> name == "endedAtSource" && HalfSpelled(key))
  }

  lemma SourceColumn(name: string, column: string)
    requires name == "endedAtSource" && column == "ended_at_source"
    ensures Column(name) == column && Camel(column) == name && OtherSpelling(name) == column
    ensures OtherSpelling(column) == name
  {
    hide Column, Camel;
    var ended, middle, half := "ended", "tSource", "t_source";
    assert ended + (['A'] + middle) == name && ended + (['_', 'a'] + half) == column;
    SourceTail(half, middle);
    HumpThen(ended, 'A', middle, half);
    assert name[5] == 'A' && name[5] in name && column[5] == '_';
    assert '_' !in name;
  }

  lemma HalfSpelledIs(key: string, name: string)
    requires name == "endedAtSource" && HalfSpelled(key)
    ensures '_' in key && Camel(key) == name
  {
    hide Camel;
    assert key[if key == "ended_atSource" then 5 else 7] == '_';
    if key == "ended_atSource" {
      FirstHalf(key, name);
    } else {
      SecondHalf(key, name);
    }
  }

  lemma FirstHalf(key: string, name: string)
    requires name == "endedAtSource" && key == "ended_atSource"
    ensures Camel(key) == name
  {
    hide Camel;
    var ended, middle := "ended", "tSource";
    assert ended + (['A'] + middle) == name && ended + (['_', 'a'] + middle) == key;
    HumpThen(ended, 'A', middle, middle);
    CamelPlain(middle);
  }

  lemma SecondHalf(key: string, name: string)
    requires name == "endedAtSource" && key == "endedAt_source"
    ensures Camel(key) == name
  {
    hide Camel;
    var ended, middle, half := "ended", "tSource", "t_source";
    assert ended + (['A'] + middle) == name && ended + (['A'] + half) == key;
    SourceTail(half, middle);
    HumpThen(ended, 'A', half, half);
  }

  lemma SourceTail(half: string, middle: string)
    requires half == "t_source" && middle == "tSource"
    ensures Column(middle) == half && Camel(half) == middle
  {
    hide Camel, Column;
    var t, tail := "t", "ource";
    HumpSpellings(t, 'S', tail);
    assert t + (['S'] + tail) == middle && t + (['_', 's'] + tail) == half;
  }

  lemma SourceKeys(key: string, name: string, column: string)
    requires name == "endedAtSource" && column == "ended_at_source" && key != name && key != column
    ensures OtherSpelling(key) != column && (OtherSpelling(key) == name <==> HalfSpelled(key))
  {
    hide Column, Camel;
    SourceColumn(name, column);
    assert !IsUpper('_') && forall c | c in column :: !IsUpper(c);
    assert '_' !in name;
    if HalfSpelled(key) {
      HalfSpelledIs(key, name);
      CamelShows(key);
      assert name[5] == 'A' && 'A' in name;
    } else if '_' in key {
      CamelShows(key);
      if Camel(key) == name {
        SourcePeeled(key, name, column);
      }
    } else {
      CamelOfColumn(key);
    }
  }

  lemma SourcePeeled(key: string, name: string, column: string)
    requires name == "endedAtSource" && column == "ended_at_source" && Camel(key) == name
    ensures key == name || key == column || HalfSpelled(key)
  {
    hide Column, Camel;
    assert "ended" + (['A'] + "tSource") == name;
    var rest := Peel(key, "ended", 'A', "tSource");
    assert "t" + (['S'] + "ource") == "tSource" && "t" + (['_', 's'] + "ource") == "t_source";
    OneHump(rest, "t", 'S', "ource");
    assert "ended" + (['A'] + "t_source") == "endedAt_source";
    assert "ended" + (['_', 'a'] + "tSource") == "ended_atSource";
    assert "ended" + (['_', 'a'] + "t_source") == column;
  }

  lemma EndedAtSource(name: string, column: string)
    requires name == "endedAtSource" && column == "ended_at_source"
    ensures Spelled(name, column)
  {
    hide OtherSpelling, Column, Camel;
    SourceColumn(name, column);
    forall key | key != name && key != column
      ensures OtherSpelling(key) != column && (OtherSpelling(key) == name <==> HalfSpelled(key))
    {
      SourceKeys(key, name, column);
    }
  }

  lemma EndFieldSpelled(name: string, column: string)
    requires EndField(name, column)
    ensures Spelled(name, column)
  {
    hide OtherSpelling, Column, Camel;
    if name == "endReason" {
      assert "end" + (['R'] + "eason") == "endReason" && "end" + (['_', 'r'] + "eason") == "end_reason";
      TwoWords("end", 'R', "eason", name, column);
    } else if name == "endDetection" {
      assert "end" + (['D'] + "etection") == "endDetection" && "end" + (['_', 'd'] + "etection") == "end_detection";
      TwoWords("end", 'D', "etection", name, column);
    } else if name == "endedBy" {
      assert "ended" + (['B'] + "y") == "endedBy" && "ended" + (['_', 'b'] + "y") == "ended_by";
      TwoWords("ended", 'B', "y", name, column);
    } else if name == "endedAt" {
      assert "ended" + (['A'] + "t") == "endedAt" && "ended" + (['_', 'a'] + "t") == "ended_at";
      TwoWords("ended", 'A', "t", name, column);
    } else if name == "endedAtSource" {
      EndedAtSource(name, column);
    } else {
      OneWord(name);
    }
  }

  // ----- What fields say of an end --------------------------------------------------------

  /** What a state says: under a field's name, and where that is missing under its column. */
  function Said(state: Fields, name: string, column: string): Option<Json> {
    if name in state then Some(state[name]) else Get(state, column)
  }

  /** What an operation says: where it names both spellings, the column's. */
  function Told(payload: Fields, name: string, column: string): Option<Json> {
    if column in payload then Some(payload[column]) else Get(payload, name)
  }

  predicate IsOrphanReason(reason: Option<Json>) {
    reason in {Some(Str("claim_moved")), Some(Str("claim_cleared")), Some(Str("left_active")),
               Some(Str("superseded_by_merge")), Some(Str("issue_removed")), Some(Str("issue_resolved")),
               Some(Str("superseded_by_newer"))}
  }

  predicate HoldsEnd(state: Fields) {
    Get(state, "state") == Some(Str("ended"))
  }

  predicate HoldsOrphanEnd(state: Fields) {
    && HoldsEnd(state)
    && Said(state, "endDetection", "end_detection") == Some(Str("inferred"))
    && IsOrphanReason(Said(state, "endReason", "end_reason"))
  }

  predicate HoldsRealEnd(state: Fields) {
    HoldsEnd(state) && !HoldsOrphanEnd(state)
  }

  predicate TellsEnd(payload: Fields) {
    Get(payload, "state") == Some(Str("ended"))
  }

  predicate TellsOrphanEnd(payload: Fields) {
    && TellsEnd(payload)
    && Told(payload, "endDetection", "end_detection") == Some(Str("inferred"))
    && IsOrphanReason(Told(payload, "endReason", "end_reason"))
  }

  predicate TellsRealEnd(payload: Fields) {
    TellsEnd(payload) && !TellsOrphanEnd(payload)
  }

  /** An orphan end told to what holds a real end, or what is no end told to what holds any. */
  predicate GivesWay(held: Fields, payload: Fields) {
    (HoldsRealEnd(held) && TellsOrphanEnd(payload)) || (HoldsEnd(held) && !TellsEnd(payload))
  }

  /** A key that camel case reads as `endedAtSource` while it is neither that nor its column. */
  predicate TellsHalf(payload: Fields) {
    "ended_atSource" in payload || "endedAt_source" in payload
  }

  lemma ReadIsSaid(fields: Fields, name: string, column: string)
    requires EndField(name, column)
    ensures ReadField(fields, name) == Said(fields, name, column)
  {
    hide Column, OtherSpelling;
    EndFieldSpelled(name, column);
  }

  /** Settling a payload's own spellings leaves an end field in one of them, as the payload tells it. */
  lemma SpelledIsTold(payload: Fields, name: string, column: string)
    requires EndField(name, column)
    ensures var spelled := ColumnSpellingWins(payload);
            && Get(spelled, column) == Get(payload, column)
            && (name == column || Get(spelled, name) ==
                  if column in payload || (name == "endedAtSource" && TellsHalf(payload)) then None else Get(payload, name))
  {
    hide Column, OtherSpelling;
    EndFieldSpelled(name, column);
    if name != column {
      ColumnHas(name, column);
    }
    assert "ended_atSource"[5] == '_' && "endedAt_source"[7] == '_';
  }

  lemma ColumnHas(name: string, column: string)
    requires EndField(name, column) && name != column
    ensures '_' in column && '_' !in name
  {
    assert column[3] == '_' || column[5] == '_';
  }

  lemma EndsAreSaid(fields: Fields)
    ensures Ended(fields) <==> HoldsEnd(fields)
    ensures IsOrphanEnd(fields) <==> HoldsOrphanEnd(fields)
  {
    hide ReadField;
    ReadIsSaid(fields, "state", "state");
    ReadIsSaid(fields, "endDetection", "end_detection");
    ReadIsSaid(fields, "endReason", "end_reason");
  }

  lemma EndsAreTold(payload: Fields)
    ensures HoldsEnd(ColumnSpellingWins(payload)) <==> TellsEnd(payload)
    ensures HoldsOrphanEnd(ColumnSpellingWins(payload)) <==> TellsOrphanEnd(payload)
  {
    hide ColumnSpellingWins;
    SpelledIsTold(payload, "state", "state");
    SpelledIsTold(payload, "endDetection", "end_detection");
    SpelledIsTold(payload, "endReason", "end_reason");
  }

  lemma EndFieldListed(field: string)
    ensures field in ATTEMPT_END_FIELDS <==>
            field in {"state", "outcome", "endReason", "endDetection", "endedBy", "endedAt", "endedAtSource"}
  {
    var names := ATTEMPT_END_FIELDS;
    assert names[0] == "state" && names[1] == "outcome" && names[2] == "endReason" && names[3] == "endDetection"
        && names[4] == "endedBy" && names[5] == "endedAt" && names[6] == "endedAtSource";
  }

  lemma EndFieldColumn(field: string)
    requires field in ATTEMPT_END_FIELDS
    ensures EndField(field, Column(field)) && Column(field) == ColumnOf(field)
  {
    hide Column, OtherSpelling;
    EndFieldListed(field);
    EndFieldSpelled(field, ColumnOf(field));
  }

  lemma EndColumns(name: string)
    ensures IsEndName(name) <==> name in ATTEMPT_END_FIELDS || exists f | f in ATTEMPT_END_FIELDS :: name == Column(f)
  {
    hide Column, OtherSpelling, ATTEMPT_END_FIELDS;
    EndFieldListed(name);
    if IsEndName(name) && name !in ATTEMPT_END_FIELDS {
      var f :| f in {"endReason", "endDetection", "endedBy", "endedAt", "endedAtSource"} && ColumnOf(f) == name;
      EndFieldListed(f);
      EndFieldColumn(f);
    }
    if f :| f in ATTEMPT_END_FIELDS && name == Column(f) {
      EndFieldColumn(f);
    }
  }

  lemma SettledIs(held: Fields, incoming: Fields)
    ensures var settled := SettleAttemptEnd(held, incoming);
            if (HoldsRealEnd(held) && HoldsOrphanEnd(incoming)) || (HoldsEnd(held) && !HoldsEnd(incoming))
            then forall name :: Get(settled, name) == if IsEndName(name) then None else Get(incoming, name)
            else settled == incoming
  {
    hide Column, IsOrphanEnd, Ended, HoldsOrphanEnd, HoldsEnd, IsEndName;
    EndsAreSaid(held);
    EndsAreSaid(incoming);
    forall name ensures IsEndName(name) <==> name in ATTEMPT_END_FIELDS || exists f | f in ATTEMPT_END_FIELDS :: name == Column(f) {
      EndColumns(name);
    }
    if !CarriesAttemptEnd(incoming) {
      forall name | IsEndName(name) ensures name !in incoming {
        NotCarried(incoming, name);
      }
    }
  }

  lemma NotCarried(incoming: Fields, name: string)
    requires !CarriesAttemptEnd(incoming) && IsEndName(name)
    ensures name !in incoming
  {
    hide Column;
    EndColumns(name);
  }

  // ----- One operation on a live attempt --------------------------------------------------

  lemma HalfIsKept(payload: Fields, key: string)
    requires HalfSpelled(key) && key in payload
    ensures key in ColumnSpellingWins(payload)
  {
    hide Camel;
    var i := if key == "ended_atSource" then 5 else 7;
    assert key[i] == '_' && IsLower(key[i + 1]);
    forall other | other in payload && '_' in other ensures Camel(other) != key {
      if Camel(other) == key {
        CamelHasNoColumn(other, i);
      }
    }
  }

  /** What a payload carries onto an attempt: none of the end fields where it gives way, and otherwise all it spells. */
  lemma CarriedEnd(held: Fields, payload: Fields, name: string)
    ensures var carried := Carried("attempt", held, payload);
            if GivesWay(held, payload) && IsEndName(name) then name !in carried
            else if name == "originEvents" then name !in carried
            else Get(carried, name) == Get(ColumnSpellingWins(payload), name)
  {
    hide SettleAttemptEnd, ColumnSpellingWins, HoldsOrphanEnd, TellsOrphanEnd, IsEndName;
    SettledIs(held, ColumnSpellingWins(payload));
    EndsAreTold(payload);
  }

  lemma RespelledBoth(fields: Fields, name: string, column: string)
    requires Spelled(name, column)
    ensures name == column ==> (name in Respelled(fields) <==> name == "endedAtSource" && TellsHalf(fields))
    ensures name != column ==> (column in Respelled(fields) <==> name in fields)
    ensures name != column ==>
              (name in Respelled(fields) <==> column in fields || (name == "endedAtSource" && TellsHalf(fields)))
  {
    hide OtherSpelling;
  }

  lemma HalfCarried(held: Fields, payload: Fields)
    ensures TellsHalf(Carried("attempt", held, payload)) <==> TellsHalf(payload)
  {
    hide Carried, GivesWay, ColumnSpellingWins;
    CarriedWithin("attempt", held, payload);
    HalfIsNone("ended_atSource");
    HalfIsNone("endedAt_source");
    CarriedEnd(held, payload, "ended_atSource");
    CarriedEnd(held, payload, "endedAt_source");
    if "ended_atSource" in payload {
      HalfIsKept(payload, "ended_atSource");
    }
    if "endedAt_source" in payload {
      HalfIsKept(payload, "endedAt_source");
    }
  }

  /** Which end fields a payload's other keys take out of a state that keeps its end. */
  lemma RespelledEnd(held: Fields, payload: Fields, name: string)
    requires GivesWay(held, payload) && IsEndName(name)
    ensures name in Respelled(Carried("attempt", held, payload)) <==> name == "endedAtSource" && TellsHalf(payload)
  {
    hide Carried, GivesWay, IsEndName, Respelled, TellsHalf, NameOf, ColumnOf, EndField, Spelled;
    var field, column := NameOf(name), ColumnOf(NameOf(name));
    NamesOf(name);
    BothEndNames(field, column);
    EndFieldSpelled(field, column);
    RespelledBoth(Carried("attempt", held, payload), field, column);
    HalfCarried(held, payload);
    CarriedEnd(held, payload, field);
    CarriedEnd(held, payload, column);
  }

  function NameOf(name: string): string {
    if name == "end_reason" then "endReason"
    else if name == "end_detection" then "endDetection"
    else if name == "ended_by" then "endedBy"
    else if name == "ended_at" then "endedAt"
    else if name == "ended_at_source" then "endedAtSource"
    else name
  }

  lemma NamesOf(name: string)
    requires IsEndName(name)
    ensures EndField(NameOf(name), ColumnOf(NameOf(name)))
    ensures name == NameOf(name) || name == ColumnOf(NameOf(name))
  {
  }

  lemma BothEndNames(field: string, column: string)
    requires EndField(field, column)
    ensures IsEndName(field) && IsEndName(column) && column != "endedAtSource"
  {
  }

  lemma HalfIsNone(half: string)
    requires HalfSpelled(half)
    ensures !IsEndName(half) && half != "originEvents" && half != "endedAtSource"
  {
  }

  /**
   * What gives way to an attempt's end leaves it as it was, each field in either spelling and what is
   * remembered of its writing, but for one field that two odd keys drop.
   */
  lemma StepKeepsEnd(e: Entity, row: Op, name: string)
    requires e.deletedAt.None? && !row.verb.Delete? && row.key.Kind() == "attempt"
    requires GivesWay(e.state, row.payload) && IsEndName(name)
    ensures var after := Touch(e, row);
            && after.deletedAt.None?
            && if name == "endedAtSource" && TellsHalf(row.payload) then Get(after.state, name) == None && Wrote(after, name) == None
               else && Get(after.state, name) == Get(e.state, name)
                    && Wrote(after, name) == Wrote(e, name)
  {
    hide Carried, GivesWay, IsEndName, Respelled, TellsHalf;
    CarriedEnd(e.state, row.payload, name);
    RespelledEnd(e.state, row.payload, name);
  }

  /** What an end field is once an operation's end is taken: what it tells, in one spelling, or what it was. */
  predicate TakenAs(was: Fields, payload: Fields, now: Fields, name: string, column: string) {
    if column in payload then Get(now, column) == Some(payload[column]) && (name != column ==> name !in now)
    else if name == "endedAtSource" && TellsHalf(payload) then name !in now && Get(now, column) == Get(was, column)
    else if name in payload then Get(now, name) == Some(payload[name]) && (name != column ==> column !in now)
    else Get(now, name) == Get(was, name) && Get(now, column) == Get(was, column)
  }

  lemma MergedEnd(was: Fields, payload: Fields, carried: Fields, name: string, column: string)
    requires Spelled(name, column) && (name == "endedAtSource" ==> name != column)
    requires Get(carried, column) == Get(payload, column) && (TellsHalf(carried) <==> TellsHalf(payload))
    requires name == column || Get(carried, name) ==
               if column in payload || (name == "endedAtSource" && TellsHalf(payload)) then None else Get(payload, name)
    ensures TakenAs(was, payload, (was - Respelled(carried)) + carried, name, column)
  {
    hide Respelled, TellsHalf, Spelled;
    RespelledBoth(carried, name, column);
  }

  /** An operation whose end does not give way is taken whole. */
  lemma StepTakesEnd(e: Entity, row: Op, name: string, column: string)
    requires e.deletedAt.None? && !row.verb.Delete? && row.key.Kind() == "attempt"
    requires !GivesWay(e.state, row.payload) && EndField(name, column)
    ensures Touch(e, row).deletedAt.None? && TakenAs(e.state, row.payload, Touch(e, row).state, name, column)
  {
    hide Carried, GivesWay, EndField, Respelled, TellsHalf, ColumnSpellingWins, TakenAs, Spelled;
    var carried := Carried("attempt", e.state, row.payload);
    CarriedEnd(e.state, row.payload, name);
    CarriedEnd(e.state, row.payload, column);
    HalfCarried(e.state, row.payload);
    SpelledIsTold(row.payload, name, column);
    EndFieldSpelled(name, column);
    NotNarration(name, column);
    MergedEnd(e.state, row.payload, carried, name, column);
  }

  lemma NotNarration(name: string, column: string)
    requires EndField(name, column)
    ensures name != "originEvents" && column != "originEvents" && (name == "endedAtSource" ==> name != column)
  {
  }

  // ----- Over a log -----------------------------------------------------------------------

  predicate LiveAttempt(fold: Fold, key: Key) {
    key in fold && key.Plain? && key.kind == "attempt" && fold[key].entity.deletedAt.None?
  }

  predicate ToldHalf(log: seq<Op>, key: Key) {
    exists op | op in log :: op.key == key && TellsHalf(op.payload)
  }

  /** Every end field as it was, in either spelling, but for the one that odd keys drop. */
  ghost predicate EndsAs(was: Entity, now: Entity, half: bool) {
    forall name | IsEndName(name) ::
      if half && name == "endedAtSource" then Get(now.state, name) == None && Wrote(now, name) == None
      else Get(now.state, name) == Get(was.state, name) && Wrote(now, name) == Wrote(was, name)
  }

  lemma EndsAsHolds(was: Entity, now: Entity, half: bool)
    requires EndsAs(was, now, half)
    ensures HoldsEnd(now.state) <==> HoldsEnd(was.state)
    ensures HoldsOrphanEnd(now.state) <==> HoldsOrphanEnd(was.state)
  {
    hide IsEndName, IsOrphanReason;
    AreEndNames();
    EndsAsAt(was, now, half, "state");
    EndsAsAt(was, now, half, "endDetection");
    EndsAsAt(was, now, half, "end_detection");
    EndsAsAt(was, now, half, "endReason");
    EndsAsAt(was, now, half, "end_reason");
  }

  lemma AreEndNames()
    ensures IsEndName("state") && IsEndName("endDetection") && IsEndName("end_detection")
    ensures IsEndName("endReason") && IsEndName("end_reason")
  {
  }

  lemma EndsAsAt(was: Entity, now: Entity, half: bool, name: string)
    requires EndsAs(was, now, half) && IsEndName(name) && name != "endedAtSource"
    ensures name in now.state <==> name in was.state
    ensures name in now.state ==> now.state[name] == was.state[name]
  {
    hide IsEndName;
    assert Get(now.state, name) == Get(was.state, name);
  }

  lemma OneRow(fold: Fold, row: Op, key: Key)
    requires LiveAttempt(fold, key)
    requires row.key == key ==> !row.verb.Delete? && GivesWay(fold[key].entity.state, row.payload)
    ensures LiveAttempt(FoldRow(fold, row), key)
    ensures EndsAs(fold[key].entity, FoldRow(fold, row)[key].entity, row.key == key && TellsHalf(row.payload))
  {
    hide Touch, FoldRow, GivesWay, IsEndName, TellsHalf;
    StepOf(fold, row, key);
    SettlesWhere(fold, row, key);
    var was, now := fold[key].entity, FoldRow(fold, row)[key].entity;
    if row.key == key {
      forall name | IsEndName(name)
        ensures if TellsHalf(row.payload) && name == "endedAtSource" then Get(now.state, name) == None && Wrote(now, name) == None
                else Get(now.state, name) == Get(was.state, name) && Wrote(now, name) == Wrote(was, name)
      {
        StepKeepsEnd(was, row, name);
      }
      AreEndNames();
      StepKeepsEnd(was, row, "state");
    } else {
      forall name | IsEndName(name) ensures Get(now.state, name) == Get(was.state, name) {
        NoOrder(name);
        LeftKeeps(key, was.state, now.state, name);
      }
    }
  }

  lemma NoOrder(name: string)
    requires IsEndName(name)
    ensures name != "order"
  {
  }

  /** What settles on an entity that is no revision is what names it, unchanged. */
  lemma SettlesWhere(fold: Fold, row: Op, key: Key)
    requires key.Plain?
    ensures SettlesOn(fold, row, key) <==> row.key == key
    ensures row.key == key ==> Settle(fold, row) == Some(row)
  {
    hide Again, Taken, FirstFree;
  }

  /**
   * An attempt that has ended keeps its end, field by field, through any log in which what is told of it
   * gives way.
   */
  lemma {:induction false} EndStands(fold: Fold, log: seq<Op>, key: Key)
    requires LiveAttempt(fold, key)
    requires forall op | op in log && op.key == key :: !op.verb.Delete? && GivesWay(fold[key].entity.state, op.payload)
    ensures LiveAttempt(FoldLog(fold, log), key)
    ensures EndsAs(fold[key].entity, FoldLog(fold, log)[key].entity, ToldHalf(log, key))
  {
    hide FoldRow, GivesWay, IsEndName, TellsHalf;
    if log != [] {
      var n := |log| - 1;
      var before, row := FoldLog(fold, log[..n]), log[n];
      assert row in log && forall op | op in log :: op in log[..n] || op == row;
      assert forall op | op in log[..n] :: op in log;
      EndStands(fold, log[..n], key);
      if row.key == key {
        EndsAsGives(fold[key].entity, before[key].entity, ToldHalf(log[..n], key), row.payload);
      }
      OneRow(before, row, key);
    }
  }

  lemma EndsAsGives(was: Entity, now: Entity, half: bool, payload: Fields)
    requires EndsAs(was, now, half)
    ensures GivesWay(now.state, payload) <==> GivesWay(was.state, payload)
  {
    hide HoldsEnd, HoldsOrphanEnd, TellsEnd, TellsOrphanEnd, EndsAs;
    EndsAsHolds(was, now, half);
  }

  // ----- Which end is kept ----------------------------------------------------------------

  /**
   * A real end is kept, each field in either spelling, through any log of orphan ends and of what is no
   * end. `endedAtSource` so spelled stays exactly while nothing tells the attempt another key that camel
   * case reads as that name: the rule drops the two spellings of a field and no third.
   */
  lemma RealEndStands(fold: Fold, log: seq<Op>, key: Key)
    requires LiveAttempt(fold, key) && HoldsRealEnd(fold[key].entity.state)
    requires forall op | op in log && op.key == key ::
               !op.verb.Delete? && (TellsOrphanEnd(op.payload) || !TellsEnd(op.payload))
    ensures LiveAttempt(FoldLog(fold, log), key)
    ensures var was, now := fold[key].entity, FoldLog(fold, log)[key].entity;
            && HoldsRealEnd(now.state)
            && (forall name | IsEndName(name) && name != "endedAtSource" ::
                  Get(now.state, name) == Get(was.state, name) && Wrote(now, name) == Wrote(was, name))
            && (Get(now.state, "endedAtSource") == Get(was.state, "endedAtSource") <==>
                "endedAtSource" !in was.state || !ToldHalf(log, key))
  {
    hide FoldLog, IsEndName, HoldsEnd, HoldsOrphanEnd, TellsEnd, TellsOrphanEnd, ToldHalf;
    EndStands(fold, log, key);
    var was, now := fold[key].entity, FoldLog(fold, log)[key].entity;
    EndsAsHolds(was, now, ToldHalf(log, key));
    SourceIsEndName();
  }

  lemma SourceIsEndName()
    ensures IsEndName("endedAtSource")
  {
  }

  /** A pause or a resume, which is no end, reopens no attempt and changes none of its end's fields. */
  lemma PauseLeavesEnd(fold: Fold, log: seq<Op>, key: Key)
    requires LiveAttempt(fold, key) && HoldsEnd(fold[key].entity.state)
    requires forall op | op in log && op.key == key :: !op.verb.Delete? && !TellsEnd(op.payload)
    ensures LiveAttempt(FoldLog(fold, log), key)
    ensures var was, now := fold[key].entity, FoldLog(fold, log)[key].entity;
            && HoldsEnd(now.state)
            && (forall name | IsEndName(name) && name != "endedAtSource" ::
                  Get(now.state, name) == Get(was.state, name) && Wrote(now, name) == Wrote(was, name))
            && (Get(now.state, "endedAtSource") == Get(was.state, "endedAtSource") <==>
                "endedAtSource" !in was.state || !ToldHalf(log, key))
  {
    hide FoldLog, IsEndName, HoldsEnd, HoldsOrphanEnd, TellsEnd, TellsOrphanEnd, ToldHalf;
    EndStands(fold, log, key);
    EndsAsHolds(fold[key].entity, FoldLog(fold, log)[key].entity, ToldHalf(log, key));
    SourceIsEndName();
  }

  /** What a field says once an operation is taken: what the operation tells, or else what was said. */
  function Next(was: Fields, payload: Fields, name: string, column: string): Option<Json> {
    if Told(payload, name, column).Some? then Told(payload, name, column) else Said(was, name, column)
  }

  lemma TakenSays(was: Fields, payload: Fields, now: Fields, name: string, column: string)
    requires TakenAs(was, payload, now, name, column) && EndField(name, column)
    requires name == "endedAtSource" ==> !TellsHalf(payload)
    ensures Said(now, name, column) == Next(was, payload, name, column)
  {
  }

  /**
   * A real end is taken whatever the attempt held: an orphan end, a pause, or another real end. Each field
   * it tells is what it tells, in that spelling alone, and the attempt then holds a real end unless the
   * operation left out what the orphan end before it goes on saying.
   */
  lemma RealEndIsTaken(fold: Fold, row: Op, key: Key)
    requires LiveAttempt(fold, key) && row.key == key && !row.verb.Delete? && TellsRealEnd(row.payload)
    ensures LiveAttempt(FoldRow(fold, row), key)
    ensures var was, now := fold[key].entity.state, FoldRow(fold, row)[key].entity.state;
            && (forall name, column | EndField(name, column) :: TakenAs(was, row.payload, now, name, column))
            && HoldsEnd(now)
            && (HoldsOrphanEnd(now) <==>
                && Next(was, row.payload, "endDetection", "end_detection") == Some(Str("inferred"))
                && IsOrphanReason(Next(was, row.payload, "endReason", "end_reason")))
  {
    hide FoldRow, Touch, TakenAs, EndField, Next, IsOrphanReason, TellsOrphanEnd, Told, Said;
    StepOf(fold, row, key);
    SettlesWhere(fold, row, key);
    var was, now := fold[key].entity, FoldRow(fold, row)[key].entity;
    assert !GivesWay(was.state, row.payload);
    forall name, column | EndField(name, column) ensures TakenAs(was.state, row.payload, now.state, name, column) {
      StepTakesEnd(was, row, name, column);
    }
    EndFieldsRead();
    StepTakesEnd(was, row, "state", "state");
    TakenSays(was.state, row.payload, now.state, "state", "state");
    TakenSays(was.state, row.payload, now.state, "endDetection", "end_detection");
    TakenSays(was.state, row.payload, now.state, "endReason", "end_reason");
    StateSaid(was.state, row.payload, now.state);
  }

  lemma EndFieldsRead()
    ensures EndField("state", "state") && EndField("endDetection", "end_detection")
    ensures EndField("endReason", "end_reason")
  {
  }

  lemma StateSaid(was: Fields, payload: Fields, now: Fields)
    requires TellsEnd(payload) && Said(now, "state", "state") == Next(was, payload, "state", "state")
    ensures HoldsEnd(now)
  {
  }

  /** Every end field told in one spelling or the other. */
  ghost predicate TellsAll(payload: Fields) {
    forall name, column | EndField(name, column) :: Told(payload, name, column).Some?
  }

  /** A real end told whole is what the attempt says ever after, whatever it held and whatever then gives way. */
  lemma RealEndPrevails(fold: Fold, row: Op, log: seq<Op>, key: Key)
    requires LiveAttempt(fold, key) && row.key == key && !row.verb.Delete? && TellsRealEnd(row.payload)
    requires TellsAll(row.payload)
    requires forall op | op in log && op.key == key ::
               !op.verb.Delete? && (TellsOrphanEnd(op.payload) || !TellsEnd(op.payload))
    ensures LiveAttempt(FoldLog(fold, [row] + log), key)
    ensures var now := FoldLog(fold, [row] + log)[key].entity.state;
            forall name, column | EndField(name, column) && (name == "endedAtSource" ==> !ToldHalf([row] + log, key)) ::
              Said(now, name, column) == Told(row.payload, name, column)
  {
    hide FoldRow, TakenAs, EndField, Next, IsOrphanReason, TellsOrphanEnd, TellsEnd, Told, Said, HoldsOrphanEnd,
      HoldsEnd, TellsHalf, IsEndName;
    var taken := FoldRow(fold, row);
    assert FoldLog(fold, [row]) == taken by {
      assert [row][..0] == [];
      assert FoldLog(fold, []) == fold;
    }
    FoldLogAppend(fold, [row], log);
    RealEndIsTaken(fold, row, key);
    EndFieldsRead();
    ToldIsReal(fold[key].entity.state, row.payload);
    RealEndStands(taken, log, key);
    var was, then', now := fold[key].entity.state, taken[key].entity, FoldLog(taken, log)[key].entity;
    assert forall op | op in log :: op in [row] + log;
    assert row in [row] + log;
    forall name, column | EndField(name, column) && (name == "endedAtSource" ==> !ToldHalf([row] + log, key))
      ensures Said(now.state, name, column) == Told(row.payload, name, column)
    {
      assert name == "endedAtSource" ==> !TellsHalf(row.payload) && !ToldHalf(log, key);
      TakenSays(was, row.payload, then'.state, name, column);
      NextIsTold(was, row.payload, name, column);
      BothEndNames(name, column);
      SaidSame(then'.state, now.state, name, column);
    }
  }

  lemma NextIsTold(was: Fields, payload: Fields, name: string, column: string)
    requires Told(payload, name, column).Some?
    ensures Next(was, payload, name, column) == Told(payload, name, column)
  {
  }

  lemma SaidSame(was: Fields, now: Fields, name: string, column: string)
    requires Get(now, name) == Get(was, name) && Get(now, column) == Get(was, column)
    ensures Said(now, name, column) == Said(was, name, column)
  {
  }

  lemma ToldIsReal(was: Fields, payload: Fields)
    requires TellsRealEnd(payload)
    requires Told(payload, "endDetection", "end_detection").Some? && Told(payload, "endReason", "end_reason").Some?
    ensures !(Next(was, payload, "endDetection", "end_detection") == Some(Str("inferred"))
              && IsOrphanReason(Next(was, payload, "endReason", "end_reason")))
  {
    hide IsOrphanReason, Told;
  }

  /** The one key beside a field's two spellings that takes it from an attempt that keeps its end. */
  lemma OddKeyTakesSource(fold: Fold, row: Op, key: Key)
    requires LiveAttempt(fold, key) && HoldsRealEnd(fold[key].entity.state) && "endedAtSource" in fold[key].entity.state
    requires row.key == key && row.verb.Update? && row.payload == map["ended_atSource" := Str("clock")]
    ensures key in FoldRow(fold, row) && "endedAtSource" !in FoldRow(fold, row)[key].entity.state
  {
    hide FoldRow, HoldsOrphanEnd, IsEndName;
    assert "state" != "ended_atSource" by { assert |"state"| != |"ended_atSource"|; }
    OneRow(fold, row, key);
    SourceIsEndName();
  }
}
