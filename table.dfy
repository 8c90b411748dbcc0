/** The `transactions` table as SQLite defines it in the schema of db/db.js:
    `id INTEGER PRIMARY KEY AUTOINCREMENT`, `type`, `category`, `amount` and
    `date` NOT NULL, `description` nullable.  Every SQL statement the program
    issues is given here as a pure function of a database snapshot; the class
    in module Store and the two JavaScript modules are proved against them. */
module Table {

  datatype Option<+T> = None | Some(value: T)

  /** Outcome of one statement: its value, or the single failure the program
      sees (missing table, constraint violation, full rowid space). */
  datatype Result<+T> = Ok(value: T) | Failure

  /** Largest rowid SQLite assigns (2^63 - 1).  Once AUTOINCREMENT has handed it
      out, every further INSERT fails with SQLITE_FULL. */
  const MaxRowId: int := 0x7FFF_FFFF_FFFF_FFFF

  /** The five non-id columns of a stored row.  `amount` is the REAL column,
      kept as an exact `real`. */
  datatype Entry = Entry(txType: string, category: string, amount: real, date: string,
                         description: Option<string>)

  /** A row as `SELECT *` returns it. */
  datatype Row = Row(id: int, entry: Entry)

  /** The values bound to the five `?` of an INSERT or UPDATE; `None` stands for
      a JavaScript `null` or `undefined`, which the driver binds as SQL NULL. */
  datatype Payload = Payload(txType: Option<string>, category: Option<string>, amount: Option<real>,
                             date: Option<string>, description: Option<string>)

  /** The database file: whether `transactions` exists yet, its rows by id, and
      the AUTOINCREMENT counter (one past the largest id ever assigned). */
  datatype Snapshot = Snapshot(hasTable: bool, rows: map<int, Entry>, nextId: int)

  /** A statement's new snapshot together with what it reports. */
  datatype Step<+T> = Step(state: Snapshot, result: Result<T>)

  /** Per-type totals of the summary query; `None` is the SQL NULL that `SUM`
      yields over zero rows (the query has no COALESCE). */
  datatype Totals = Totals(income: Option<real>, expenses: Option<real>)

  const Income: string := "income"
  const Expense: string := "expense"

  /** Every key lies in [1, nextId), nextId stays within the rowid space, and a
      file without the table has no rows and an untouched counter. */
  predicate Valid(s: Snapshot) {
    && 1 <= s.nextId <= MaxRowId + 1
    && (forall id :: id in s.rows ==> 1 <= id < s.nextId)
    && (!s.hasTable ==> s.rows == map[] && s.nextId == 1)
  }

  /** The NOT NULL constraints on type, category, amount and date. */
  predicate SatisfiesNotNull(p: Payload) {
    p.txType.Some? && p.category.Some? && p.amount.Some? && p.date.Some?
  }

  /** The row values a constraint-respecting payload is stored as. */
  function Stored(p: Payload): Entry
    requires SatisfiesNotNull(p)
  {
    Entry(p.txType.value, p.category.value, p.amount.value, p.date.value, p.description)
  }

  /** True when `WHERE id = ?` with this key selects a row. `key` is the integer
      the bound parameter compares equal to, or `None` when it equals none. */
  predicate Hit(s: Snapshot, key: Option<int>) {
    key.Some? && key.value in s.rows
  }

  // ---------------------------------------------------------------- schema

  /** `CREATE TABLE IF NOT EXISTS transactions (...)`. */
  function CreateIfNotExists(s: Snapshot): (r: Snapshot)
    requires Valid(s)
    ensures Valid(r) && r.hasTable
    ensures r.rows == s.rows && r.nextId == s.nextId
    ensures s.hasTable ==> r == s
  {
    if s.hasTable then s else Snapshot(true, s.rows, s.nextId)
  }

  lemma CreateIfNotExistsIdempotent(s: Snapshot)
    requires Valid(s)
    ensures CreateIfNotExists(CreateIfNotExists(s)) == CreateIfNotExists(s)
  {
  }

  // ---------------------------------------------------------------- statements

  /** `INSERT INTO transactions (type, category, amount, date, description)
      VALUES (?, ?, ?, ?, ?)`, reporting the new row's id (`lastID`). */
  function Insert(s: Snapshot, p: Payload): (r: Step<int>)
    requires Valid(s)
    ensures Valid(r.state) && r.state.hasTable == s.hasTable
    ensures r.result.Ok? <==> s.hasTable && SatisfiesNotNull(p) && s.nextId <= MaxRowId
    ensures r.result.Failure? ==> r.state == s
    ensures r.result.Ok? ==>
              && SatisfiesNotNull(p)
              && r.result.value !in s.rows
              && (forall id :: id in s.rows ==> id < r.result.value)
              && s.nextId <= r.result.value < r.state.nextId
              && r.state.rows == s.rows[r.result.value := Stored(p)]
  {
    if !s.hasTable || !SatisfiesNotNull(p) || s.nextId > MaxRowId then
      Step(s, Failure)
    else
      Step(Snapshot(true, s.rows[s.nextId := Stored(p)], s.nextId + 1), Ok(s.nextId))
  }

  /** `UPDATE transactions SET type = ?, ..., description = ? WHERE id = ?`,
      reporting the number of rows changed.  The NOT NULL constraints are only
      checked against a row the WHERE clause selects. */
  function Update(s: Snapshot, key: Option<int>, p: Payload): (r: Step<nat>)
    requires Valid(s)
    ensures Valid(r.state)
    ensures r.state.hasTable == s.hasTable && r.state.nextId == s.nextId
    ensures r.result.Failure? <==> !s.hasTable || (Hit(s, key) && !SatisfiesNotNull(p))
    ensures r.result == Ok(1) <==> s.hasTable && Hit(s, key) && SatisfiesNotNull(p)
    ensures r.result == Ok(0) <==> s.hasTable && !Hit(s, key)
    ensures r.result == Ok(1) ==> SatisfiesNotNull(p) && r.state.rows == s.rows[key.value := Stored(p)]
    ensures r.result != Ok(1) ==> r.state == s
  {
    if !s.hasTable then Step(s, Failure)
    else if !Hit(s, key) then Step(s, Ok(0))
    else if !SatisfiesNotNull(p) then Step(s, Failure)
    else Step(Snapshot(true, s.rows[key.value := Stored(p)], s.nextId), Ok(1))
  }

  /** `DELETE FROM transactions WHERE id = ?`, reporting the rows removed. */
  function Delete(s: Snapshot, key: Option<int>): (r: Step<nat>)
    requires Valid(s)
    ensures Valid(r.state)
    ensures r.state.hasTable == s.hasTable && r.state.nextId == s.nextId
    ensures r.result.Failure? <==> !s.hasTable
    ensures r.result == Ok(1) <==> s.hasTable && Hit(s, key)
    ensures r.result == Ok(0) <==> s.hasTable && !Hit(s, key)
    ensures r.result == Ok(1) ==> r.state.rows == s.rows - {key.value} && |r.state.rows| == |s.rows| - 1
    ensures r.result != Ok(1) ==> r.state == s
  {
    if !s.hasTable then Step(s, Failure)
    else if !Hit(s, key) then Step(s, Ok(0))
    else
      var rest := s.rows - {key.value};
      assert rest.Keys == s.rows.Keys - {key.value};
      Step(Snapshot(true, rest, s.nextId), Ok(1))
  }

  // ---------------------------------------------------------------- queries

  /** A set of ids with no member is empty. */
  lemma NoMemberEmpty(ids: set<int>)
    requires forall id :: id !in ids
    ensures |ids| == 0
  {
    var none: set<int> := {};
    assert forall id :: id in ids <==> id in none;
    assert ids == none;
  }

  /** A non-empty set of ids has a member. */
  lemma SomeMember(ids: set<int>)
    requires |ids| > 0
    ensures exists id :: id in ids
  {
    if forall id :: id !in ids {
      NoMemberEmpty(ids);
      assert false;
    }
  }

  /** Some id of a non-empty table is no larger than any other. */
  lemma LeastIdExists(ids: set<int>)
    requires |ids| > 0
    ensures exists k :: k in ids && forall id :: id in ids ==> k <= id
    decreases ids
  {
    SomeMember(ids);
    var x :| x in ids;
    var others := ids - {x};
    if |others| == 0 {
      assert forall id :: id in ids ==> id == x;
    } else {
      LeastIdExists(others);
      var y :| y in others && forall id :: id in others ==> y <= id;
      var least := if x < y then x else y;
      forall id | id in ids ensures least <= id {
        if id != x { assert id in others; }
      }
    }
  }

  /** The smallest id of a non-empty table: where SQLite's scan of a rowid
      table starts. */
  function MinKey(m: map<int, Entry>): (k: int)
    requires |m| > 0
    ensures k in m && forall id :: id in m ==> k <= id
  {
    LeastIdExists(m.Keys);
    var k :| k in m && forall id :: id in m ==> k <= id; k
  }

  /** The rows `SELECT * FROM transactions` yields: one per row of the table.
      The SQL promises no order; the model walks the table in ascending id, as
      SQLite scans a rowid table, and no contract here claims an order. */
  function Scan(m: map<int, Entry>): (r: seq<Row>)
    ensures |r| == |m|
    decreases m.Keys
  {
    if |m| == 0 then []
    else
      var k := MinKey(m);
      var rest := m - {k};
      assert rest.Keys < m.Keys;
      [Row(k, m[k])] + Scan(rest)
  }

  /** The scan yields exactly the table's rows, each once. */
  lemma {:induction false} ScanRows(m: map<int, Entry>)
    ensures forall row :: row in Scan(m) <==> row.id in m && m[row.id] == row.entry
    ensures forall i, j :: 0 <= i < j < |Scan(m)| ==> Scan(m)[i].id != Scan(m)[j].id
    decreases m.Keys
  {
    if |m| == 0 {
      assert forall row: Row :: row.id !in m;
    } else {
      var k := MinKey(m);
      var rest := m - {k};
      assert rest.Keys < m.Keys;
      ScanRows(rest);
      var tail := Scan(rest);
      var r := [Row(k, m[k])] + tail;
      assert Scan(m) == r;
      assert forall row :: row in r <==> row == Row(k, m[k]) || row in tail;
      assert forall i :: 0 < i < |r| ==> r[i] == tail[i - 1];
    }
  }

  /** Scan starts at the smallest id and continues with the rest of the table. */
  lemma ScanUnfold(m: map<int, Entry>)
    requires |m| > 0
    ensures Scan(m) == [Row(MinKey(m), m[MinKey(m)])] + Scan(m - {MinKey(m)})
  {
  }

  /** What one row adds to `SUM(CASE WHEN type = kind THEN amount ELSE 0 END)`. */
  function Contribution(e: Entry, kind: string): real {
    if e.txType == kind then e.amount else 0.0
  }

  /** The CASE-sum over a sequence of rows. */
  function Total(rows: seq<Row>, kind: string): real {
    if rows == [] then 0.0 else Contribution(rows[0].entry, kind) + Total(rows[1..], kind)
  }

  lemma TotalCons(row: Row, rows: seq<Row>, kind: string)
    ensures Total([row] + rows, kind) == Contribution(row.entry, kind) + Total(rows, kind)
  {
    assert ([row] + rows)[1..] == rows;
  }

  /** `SUM(CASE ...)` over the whole table: NULL when the table is empty. */
  function SumCase(m: map<int, Entry>, kind: string): Option<real> {
    if |m| == 0 then None else Some(Total(Scan(m), kind))
  }

  /** The sum does not depend on the scan order: any one row can be taken out
      of the table and its contribution added back. */
  lemma {:induction false} TotalRemove(m: map<int, Entry>, id: int, kind: string)
    requires id in m
    ensures Total(Scan(m), kind) == Total(Scan(m - {id}), kind) + Contribution(m[id], kind)
    decreases m.Keys
  {
    var k := MinKey(m);
    var rest := m - {k};
    ScanUnfold(m);
    TotalCons(Row(k, m[k]), Scan(rest), kind);
    if id != k {
      var without := m - {id};
      assert k in without;
      assert MinKey(without) == k;
      var both := without - {k};
      assert both == rest - {id};
      assert rest.Keys < m.Keys;
      ScanUnfold(without);
      TotalCons(Row(k, m[k]), Scan(both), kind);
      TotalRemove(rest, id, kind);
    }
  }

  /** A row of any other type adds nothing to a total. */
  lemma TotalIgnoresOtherKinds(m: map<int, Entry>, id: int, kind: string)
    requires id in m && m[id].txType != kind
    ensures Total(Scan(m), kind) == Total(Scan(m - {id}), kind)
  {
    TotalRemove(m, id, kind);
  }

  /** Reading the NULL of an empty SUM as 0. */
  function OrZero(v: Option<real>): real {
    if v.Some? then v.value else 0.0
  }

  lemma AddThenRemove(m: map<int, Entry>, id: int, e: Entry)
    requires id !in m
    ensures m[id := e] - {id} == m
  {
    var after := m[id := e] - {id};
    assert after.Keys == m.Keys;
    assert forall k :: k in after ==> after[k] == m[k];
  }

  /** Inserting a row under a fresh id raises the total of its own type by its
      amount and leaves every other total as it was (NULL read as 0). */
  lemma SumCaseAfterAdd(m: map<int, Entry>, id: int, e: Entry, kind: string)
    requires id !in m
    ensures SumCase(m[id := e], kind) == Some(OrZero(SumCase(m, kind)) + Contribution(e, kind))
  {
    var m' := m[id := e];
    AddThenRemove(m, id, e);
    TotalRemove(m', id, kind);
    assert |m'| > 0;
  }

  /** Removing a row takes its contribution out of its own type's total. */
  lemma SumCaseAfterRemove(m: map<int, Entry>, id: int, kind: string)
    requires id in m
    ensures OrZero(SumCase(m - {id}, kind)) == OrZero(SumCase(m, kind)) - Contribution(m[id], kind)
  {
    TotalRemove(m, id, kind);
  }

  lemma OverwriteThenRemove(m: map<int, Entry>, id: int, e: Entry)
    ensures m[id := e] - {id} == m - {id}
  {
    var before, after := m - {id}, m[id := e] - {id};
    assert after.Keys == before.Keys;
    assert forall k :: k in after ==> after[k] == before[k];
  }

  /** Overwriting a row swaps its old contribution for the new one. */
  lemma SumCaseAfterOverwrite(m: map<int, Entry>, id: int, e: Entry, kind: string)
    requires id in m
    ensures SumCase(m[id := e], kind)
            == Some(OrZero(SumCase(m, kind)) - Contribution(m[id], kind) + Contribution(e, kind))
  {
    var m' := m[id := e];
    var rest := Total(Scan(m - {id}), kind);
    OverwriteThenRemove(m, id, e);
    TotalRemove(m, id, kind);
    TotalRemove(m', id, kind);
    assert Total(Scan(m), kind) == rest + Contribution(m[id], kind);
    assert Total(Scan(m'), kind) == rest + Contribution(e, kind);
    assert SumCase(m, kind) == Some(Total(Scan(m), kind)) by { assert |m| > 0; }
    assert SumCase(m', kind) == Some(Total(Scan(m'), kind)) by { assert |m'| > 0; }
  }

  /** Rows (income, 100), (expense, 40), (income, 25) total 125 of income and
      40 of expense, a balance of 85. */
  lemma WorkedExample(salary: Entry, rent: Entry, refund: Entry)
    requires salary.txType == Income && salary.amount == 100.0
    requires rent.txType == Expense && rent.amount == 40.0
    requires refund.txType == Income && refund.amount == 25.0
    ensures var m := map[1 := salary, 2 := rent, 3 := refund];
            && SumCase(m, Income) == Some(125.0)
            && SumCase(m, Expense) == Some(40.0)
            && OrZero(SumCase(m, Income)) - OrZero(SumCase(m, Expense)) == 85.0
  {
    var m0: map<int, Entry> := map[];
    var m1 := m0[1 := salary];
    var m2 := m1[2 := rent];
    var m3 := m2[3 := refund];
    assert m3 == map[1 := salary, 2 := rent, 3 := refund];
    SumCaseAfterAdd(m0, 1, salary, Income);
    SumCaseAfterAdd(m0, 1, salary, Expense);
    SumCaseAfterAdd(m1, 2, rent, Income);
    SumCaseAfterAdd(m1, 2, rent, Expense);
    SumCaseAfterAdd(m2, 3, refund, Income);
    SumCaseAfterAdd(m2, 3, refund, Expense);
  }

  /** `SELECT * FROM transactions`. */
  function SelectAll(s: Snapshot): (r: Result<seq<Row>>)
    ensures r.Failure? <==> !s.hasTable
    ensures r.Ok? ==> |r.value| == |s.rows|
    ensures r.Ok? ==> forall row :: row in r.value <==> row.id in s.rows && s.rows[row.id] == row.entry
  {
    ScanRows(s.rows);
    if !s.hasTable then Failure else Ok(Scan(s.rows))
  }

  /** `SELECT * FROM transactions WHERE id = ?`: the row, or none. */
  function SelectById(s: Snapshot, key: Option<int>): (r: Result<Option<Row>>)
    ensures r.Failure? <==> !s.hasTable
    ensures r == Ok(None) <==> s.hasTable && !Hit(s, key)
    ensures r.Ok? && r.value.Some? ==> key == Some(r.value.value.id) && r.value.value == Row(key.value, s.rows[key.value])
  {
    if !s.hasTable then Failure
    else if Hit(s, key) then Ok(Some(Row(key.value, s.rows[key.value])))
    else Ok(None)
  }

  /** The two CASE-sums of the summary query, over one scan of the table. */
  function SelectTotals(s: Snapshot): (r: Result<Totals>)
    ensures r.Failure? <==> !s.hasTable
    ensures r.Ok? ==> r.value == Totals(SumCase(s.rows, Income), SumCase(s.rows, Expense))
    ensures r.Ok? ==> (r.value.income.None? <==> |s.rows| == 0) && (r.value.expenses.None? <==> |s.rows| == 0)
  {
    if !s.hasTable then Failure else Ok(Totals(SumCase(s.rows, Income), SumCase(s.rows, Expense)))
  }

  /** Reading back the row an INSERT reported yields the inserted values. */
  lemma InsertThenSelect(s: Snapshot, p: Payload)
    requires Valid(s) && Insert(s, p).result.Ok?
    ensures var id := Insert(s, p).result.value;
            && SelectById(Insert(s, p).state, Some(id)) == Ok(Some(Row(id, Stored(p))))
            && Stored(p) == Entry(p.txType.value, p.category.value, p.amount.value, p.date.value, p.description)
  {
  }

  /** After a DELETE the id selects nothing, whether or not it was present. */
  lemma DeleteThenSelect(s: Snapshot, key: Option<int>)
    requires Valid(s) && s.hasTable
    ensures SelectById(Delete(s, key).state, key) == Ok(None)
  {
  }
}
