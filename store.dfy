/** The database file both JavaScript modules talk to, as one object whose
    statements change it in place.  Each statement method is proved to do what
    the matching function of module Table says of the snapshot before it. */
module Store {
  import opened Table

  class Database {
    /** Whether `transactions` has been created in this file. */
    var hasTable: bool
    /** The table's rows, by their INTEGER PRIMARY KEY. */
    var rows: map<int, Entry>
    /** The AUTOINCREMENT counter: one past the largest id ever assigned. */
    var nextId: int

    function State(): Snapshot
      reads this
    {
      Snapshot(hasTable, rows, nextId)
    }

    predicate Valid()
      reads this
    {
      Table.Valid(State())
    }

    /** Opening a file that does not exist yet yields an empty database with no
        tables. */
    constructor Open()
      ensures Valid() && State() == Snapshot(false, map[], 1)
    {
      hasTable := false;
      rows := map[];
      nextId := 1;
    }

    /** `CREATE TABLE IF NOT EXISTS transactions (...)`. */
    method CreateTable()
      requires Valid()
      modifies this
      ensures Valid() && State() == CreateIfNotExists(old(State()))
    {
      if !hasTable {
        hasTable := true;
      }
    }

    /** The INSERT statement; returns the new row's id (`lastID`). */
    method Insert(p: Payload) returns (r: Result<int>)
      requires Valid()
      modifies this
      ensures Valid()
      ensures State() == Table.Insert(old(State()), p).state
      ensures r == Table.Insert(old(State()), p).result
    {
      if !hasTable || !SatisfiesNotNull(p) || nextId > MaxRowId {
        return Failure;
      }
      var id := nextId;
      rows := rows[id := Stored(p)];
      nextId := id + 1;
      r := Ok(id);
    }

    /** The UPDATE statement; returns the number of rows changed. */
    method Update(key: Option<int>, p: Payload) returns (r: Result<nat>)
      requires Valid()
      modifies this
      ensures Valid()
      ensures State() == Table.Update(old(State()), key, p).state
      ensures r == Table.Update(old(State()), key, p).result
    {
      if !hasTable {
        return Failure;
      }
      if key.None? || key.value !in rows {
        return Ok(0);
      }
      if !SatisfiesNotNull(p) {
        return Failure;
      }
      rows := rows[key.value := Stored(p)];
      r := Ok(1);
    }

    /** The DELETE statement; returns the number of rows removed. */
    method Delete(key: Option<int>) returns (r: Result<nat>)
      requires Valid()
      modifies this
      ensures Valid()
      ensures State() == Table.Delete(old(State()), key).state
      ensures r == Table.Delete(old(State()), key).result
    {
      if !hasTable {
        return Failure;
      }
      if key.None? || key.value !in rows {
        return Ok(0);
      }
      rows := rows - {key.value};
      r := Ok(1);
    }
  }
}
