/** The storage gateway of db/db.js: one function per statement, each running
    it against the shared database and handing back the driver's answer
    (`lastID` for an insert, `changes` for an update or delete, the row or rows
    of a query).  Failures of the statement reach the caller unchanged. */
module Gateway {
  import opened Table
  import opened Store

  /** `initDb`: creates the table unless it exists; rows and the id counter are
      kept, so a second call changes nothing. */
  method InitDb(db: Database)
    requires db.Valid()
    modifies db
    ensures db.Valid() && db.hasTable
    ensures db.rows == old(db.rows) && db.nextId == old(db.nextId)
    ensures old(db.hasTable) ==> db.State() == old(db.State())
  {
    db.CreateTable();
  }

  /** `addTransaction`: inserts the row and returns its id. */
  method AddTransaction(db: Database, t: Payload) returns (r: Result<int>)
    requires db.Valid()
    modifies db
    ensures db.Valid() && db.hasTable == old(db.hasTable)
    ensures r.Ok? <==> old(db.hasTable) && SatisfiesNotNull(t) && old(db.nextId) <= MaxRowId
    ensures r.Failure? ==> db.State() == old(db.State())
    ensures r.Ok? ==>
              && r.value !in old(db.rows)
              && (forall id :: id in old(db.rows) ==> id < r.value)
              && old(db.nextId) <= r.value < db.nextId
              && db.rows == old(db.rows)[r.value := Stored(t)]
  {
    r := db.Insert(t);
  }

  /** `getAllTransactions`: every row of the table, each once. */
  function GetAllTransactions(db: Database): (r: Result<seq<Row>>)
    reads db
    ensures r.Failure? <==> !db.hasTable
    ensures r.Ok? ==> |r.value| == |db.rows|
    ensures r.Ok? ==> forall row :: row in r.value <==> row.id in db.rows && db.rows[row.id] == row.entry
  {
    SelectAll(db.State())
  }

  /** `getTransactionById`: the row with that id, or nothing (`undefined`). */
  function GetTransactionById(db: Database, id: int): (r: Result<Option<Row>>)
    reads db
    ensures r.Failure? <==> !db.hasTable
    ensures r == Ok(None) <==> db.hasTable && id !in db.rows
    ensures r.Ok? && r.value.Some? ==> id in db.rows && r.value.value == Row(id, db.rows[id])
  {
    SelectById(db.State(), Some(id))
  }

  /** `updateTransaction`: overwrites the five columns of the row with that id
      and returns 1, or returns 0 and changes nothing when there is none. */
  method UpdateTransaction(db: Database, id: int, t: Payload) returns (r: Result<nat>)
    requires db.Valid()
    modifies db
    ensures db.Valid() && db.hasTable == old(db.hasTable) && db.nextId == old(db.nextId)
    ensures r.Failure? <==> !old(db.hasTable) || (id in old(db.rows) && !SatisfiesNotNull(t))
    ensures r == Ok(1) <==> old(db.hasTable) && id in old(db.rows) && SatisfiesNotNull(t)
    ensures r == Ok(0) <==> old(db.hasTable) && id !in old(db.rows)
    ensures r == Ok(1) ==> SatisfiesNotNull(t) && db.rows == old(db.rows)[id := Stored(t)]
    ensures r != Ok(1) ==> db.State() == old(db.State())
  {
    r := db.Update(Some(id), t);
  }

  /** `deleteTransaction`: removes the row with that id and returns 1, or
      returns 0 and changes nothing when there is none. */
  method DeleteTransaction(db: Database, id: int) returns (r: Result<nat>)
    requires db.Valid()
    modifies db
    ensures db.Valid() && db.hasTable == old(db.hasTable) && db.nextId == old(db.nextId)
    ensures r.Failure? <==> !old(db.hasTable)
    ensures r == Ok(1) <==> old(db.hasTable) && id in old(db.rows)
    ensures r == Ok(0) <==> old(db.hasTable) && id !in old(db.rows)
    ensures r == Ok(1) ==> db.rows == old(db.rows) - {id}
    ensures r != Ok(1) ==> db.State() == old(db.State())
    ensures db.hasTable ==> GetTransactionById(db, id) == Ok(None)
  {
    r := db.Delete(Some(id));
  }

  /** `getTransactionSummary`: `totalIncome` and `totalExpenses`, the amounts of
      the 'income' and of the 'expense' rows summed; both NULL on an empty
      table.  No balance is computed here. */
  function GetTransactionSummary(db: Database): (r: Result<Totals>)
    reads db
    ensures r.Failure? <==> !db.hasTable
    ensures r.Ok? ==> r.value.income == SumCase(db.rows, Income) && r.value.expenses == SumCase(db.rows, Expense)
    ensures r.Ok? ==> (r.value.income.None? <==> |db.rows| == 0) && (r.value.expenses.None? <==> |db.rows| == 0)
  {
    SelectTotals(db.State())
  }

  /** Adding an 'income' row raises `totalIncome` by its amount and leaves
      `totalExpenses` where it was (a NULL total read as 0). */
  lemma AddIncomeRaisesIncome(s: Snapshot, t: Payload)
    requires Valid(s) && Table.Insert(s, t).result.Ok? && t.txType == Some(Income)
    ensures var before, after := SelectTotals(s), SelectTotals(Table.Insert(s, t).state);
            && before.Ok? && after.Ok?
            && after.value.income == Some(OrZero(before.value.income) + t.amount.value)
            && after.value.expenses == Some(OrZero(before.value.expenses))
  {
    var id := Table.Insert(s, t).result.value;
    SumCaseAfterAdd(s.rows, id, Stored(t), Income);
    SumCaseAfterAdd(s.rows, id, Stored(t), Expense);
  }

  /** Adding an 'expense' row raises `totalExpenses` and leaves `totalIncome`. */
  lemma AddExpenseRaisesExpenses(s: Snapshot, t: Payload)
    requires Valid(s) && Table.Insert(s, t).result.Ok? && t.txType == Some(Expense)
    ensures var before, after := SelectTotals(s), SelectTotals(Table.Insert(s, t).state);
            && before.Ok? && after.Ok?
            && after.value.income == Some(OrZero(before.value.income))
            && after.value.expenses == Some(OrZero(before.value.expenses) + t.amount.value)
  {
    var id := Table.Insert(s, t).result.value;
    SumCaseAfterAdd(s.rows, id, Stored(t), Income);
    SumCaseAfterAdd(s.rows, id, Stored(t), Expense);
  }

  /** Adding a row of any other type leaves both totals where they were. */
  lemma AddOtherTypeKeepsTotals(s: Snapshot, t: Payload)
    requires Valid(s) && Table.Insert(s, t).result.Ok?
    requires t.txType != Some(Income) && t.txType != Some(Expense)
    ensures var before, after := SelectTotals(s), SelectTotals(Table.Insert(s, t).state);
            && before.Ok? && after.Ok?
            && after.value.income == Some(OrZero(before.value.income))
            && after.value.expenses == Some(OrZero(before.value.expenses))
  {
    var id := Table.Insert(s, t).result.value;
    SumCaseAfterAdd(s.rows, id, Stored(t), Income);
    SumCaseAfterAdd(s.rows, id, Stored(t), Expense);
  }
}
