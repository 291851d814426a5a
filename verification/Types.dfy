/** The values the sync service stores: operations, entities and the JSON they carry. */
module Types {
  datatype Option<+T> = None | Some(value: T) {
    function GetOr(default: T): T {
      if Some? then value else default
    }
  }

  /**
   * JSON values. A change summary that a renumbering has rewritten is kept in its parsed form,
   * `Moved`: the text "<own> — renumbered from r<written> to r<to>: ..." and nothing else.
   */
  datatype Json =
    | Null
    | Bool(truth: bool)
    | Num(n: int)
    | Str(s: string)
    | Moved(own: Option<string>, written: nat, to: nat)
    | Arr(items: seq<Json>)
    | Obj(members: map<string, Json>)
  {
    predicate IsText() {
      Str? || Moved?
    }

    /** What `===` can find equal to another value: two objects never are. */
    predicate Comparable() {
      !Arr? && !Obj?
    }
  }

  type Fields = map<string, Json>

  /** A field's value, or None where JavaScript reads `undefined`. */
  function Get(fields: Fields, name: string): Option<Json> {
    if name in fields then Some(fields[name]) else None
  }

  /**
   * An entity's key. A document revision whose id ends in an integer is read as its document,
   * its number and how the number was spelled (0 for the ordinary decimal): `05` and `5` are two
   * keys with one number. Every other entity is its kind and its id.
   */
  datatype Key =
    | Rev(doc: string, number: nat, spelling: nat)
    | Plain(kind: string, id: string)
  {
    function Kind(): string {
      if Rev? then "documentRevision" else kind
    }
  }

  datatype Verb = Create | Update | Renumber | Replace | Delete

  /** An operation's id: a device's own text, or the one a restore mints for an entity. */
  datatype OpId =
    | Sent(text: string)
    | Minted(epoch: nat, restore: string, key: Key)

  /** One row of `ops`. */
  datatype Op = Op(
    seqno: nat,
    epoch: nat,
    opId: OpId,
    key: Key,
    verb: Verb,
    payload: Fields,
    actor: Option<string>,
    createdAt: string,
    serverTs: int)

  /** The newest write of a field by an operation other than a create. */
  datatype Write = Write(baseVersion: nat, opId: OpId, at: string, seqno: nat)

  /** An entity as the fold of a log holds it. */
  datatype Entity = Entity(
    version: nat,
    deletedAt: Option<int>,
    lastSeq: nat,
    superseded: bool,
    state: Fields,
    fieldWrites: map<string, Write>,
    createdSeq: Option<nat>,
    createdAt: Option<string>,
    createdBy: Option<string>)

  /** An entity together with the seq of the last operation that changed it. */
  datatype Cell = Cell(entity: Entity, at: nat)

  type Fold = map<Key, Cell>

  /** `seqno` strictly increases along a log. Gaps are legal. */
  ghost predicate Increasing(log: seq<Op>) {
    forall i, j | 0 <= i < j < |log| :: log[i].seqno < log[j].seqno
  }

  ghost predicate AllAbove(log: seq<Op>, bound: nat) {
    forall i | 0 <= i < |log| :: bound < log[i].seqno
  }

  ghost predicate AllAtMost(log: seq<Op>, bound: nat) {
    forall i | 0 <= i < |log| :: log[i].seqno <= bound
  }
}
