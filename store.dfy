/**
 * The `messages` table behind *sql.DB: rows keyed by an AUTO_INCREMENT integer, each
 * holding content, created_at and a nullable deleted_at. Rows are never removed.
 * A path identifier selects a row when it reads as that row's key in decimal.
 */
module Store {
  import opened Wrappers
  import opened Model

  datatype Record = Record(content: string, createdAt: Time, deletedAt: Option<Time>)

  type Rows = map<nat, Record>

  /** `SELECT EXISTS(... WHERE id = ?)`: some row has the key `id` names. */
  predicate Exists(rows: Rows, id: string) {
    var key := ParseDecimal(id);
    key.Some? && key.value in rows
  }

  /** `SELECT EXISTS(... WHERE id = ? AND deleted_at IS NULL)`. */
  predicate ExistsActive(rows: Rows, id: string) {
    Exists(rows, id) && rows[ParseDecimal(id).value].deletedAt.None?
  }

  function ActiveKeys(rows: Rows): set<nat> {
    set k | k in rows && rows[k].deletedAt.None?
  }

  function DeletedKeys(rows: Rows): set<nat> {
    set k | k in rows && rows[k].deletedAt.Some?
  }

  /** The AUTO_INCREMENT invariant: the counter is positive and every key lies below it. */
  predicate KeysBelow(rows: Rows, nextId: nat) {
    nextId >= 1 && forall k :: k in rows ==> 1 <= k < nextId
  }

  /** `UPDATE messages SET deleted_at = ? WHERE id = ?`: no row matches, nothing changes. */
  function SetDeletedAt(rows: Rows, id: string, at: Time): Rows {
    if Exists(rows, id) then
      var key := ParseDecimal(id).value;
      rows[key := rows[key].(deletedAt := Some(at))]
    else rows
  }

  class MessageTable {
    var rows: Rows
    /** The AUTO_INCREMENT counter: the key the next insert receives. */
    var nextId: nat

    ghost predicate Valid()
      reads this
    {
      KeysBelow(rows, nextId)
    }

    constructor ()
      ensures Valid() && rows == map[] && nextId == 1
    {
      rows := map[];
      nextId := 1;
    }

    /** `INSERT INTO messages (content, created_at, deleted_at)`: the new key is fresh, no existing row changes. */
    method Insert(content: string, createdAt: Time, deletedAt: Option<Time>) returns (key: nat)
      requires Valid()
      modifies this
      ensures Valid()
      ensures key == old(nextId) && key !in old(rows) && nextId == key + 1
      ensures rows == old(rows)[key := Record(content, createdAt, deletedAt)]
    {
      key := nextId;
      rows := rows[key := Record(content, createdAt, deletedAt)];
      nextId := nextId + 1;
    }

    /**
     * `SELECT EXISTS(SELECT 1 FROM messages WHERE id = ?)`: every identifier the create
     * handler returned for a stored row is found, and an identifier that is not a
     * numeral is never found.
     */
    method QueryExists(id: string) returns (found: bool)
      ensures found == Exists(rows, id)
      ensures forall k :: k in rows && id == DecimalString(k) ==> found
      ensures id == "" || !AllDigits(id) ==> !found
    {
      var key := ParseDecimal(id);
      found := key.Some? && key.value in rows;
      forall k | k in rows && id == DecimalString(k)
        ensures found
      {
        ParseDecimalString(k);
      }
    }

    /**
     * `SELECT EXISTS(... WHERE id = ? AND deleted_at IS NULL)`: the identifier the create
     * handler returned for a row is found exactly while that row is not soft-deleted,
     * and an identifier that is not a numeral is never found.
     */
    method QueryExistsActive(id: string) returns (found: bool)
      ensures found == ExistsActive(rows, id)
      ensures forall k :: k in rows && id == DecimalString(k) ==> (found <==> rows[k].deletedAt.None?)
      ensures id == "" || !AllDigits(id) ==> !found
    {
      var key := ParseDecimal(id);
      found := key.Some? && key.value in rows && rows[key.value].deletedAt.None?;
      forall k | k in rows && id == DecimalString(k)
        ensures found <==> rows[k].deletedAt.None?
      {
        ParseDecimalString(k);
      }
    }

    method UpdateDeletedAt(id: string, at: Time)
      requires Valid()
      modifies this
      ensures Valid() && nextId == old(nextId)
      ensures rows == SetDeletedAt(old(rows), id, at)
    {
      var key := ParseDecimal(id);
      if key.Some? && key.value in rows {
        rows := rows[key.value := rows[key.value].(deletedAt := Some(at))];
      }
    }
  }
}
