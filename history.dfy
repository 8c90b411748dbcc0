/** Sequences of calls into the gateway of db/db.js, and what they leave in the
    table: how many rows there are, and which ids the inserts handed out. */
module History {
  import opened Table

  /** One gateway call that can change the database. */
  datatype Call =
    | InitDb
    | Add(t: Payload)
    | Change(id: int, t: Payload)
    | Remove(id: int)

  /** The database after the calls, the ids the successful inserts returned
      (in call order), the row values each of those inserts stored, and the
      number of deletes that removed a row. */
  datatype Trace = Trace(state: Snapshot, issued: seq<int>, inserted: seq<Entry>, removed: nat)

  function Replay(s: Snapshot, calls: seq<Call>): (r: Trace)
    requires Valid(s)
    ensures Valid(r.state)
    ensures r.state.nextId >= s.nextId
    ensures s.hasTable ==> r.state.hasTable
    ensures |r.inserted| == |r.issued|
    decreases |calls|
  {
    if calls == [] then Trace(s, [], [], 0)
    else
      var prev := Replay(s, calls[..|calls| - 1]);
      match calls[|calls| - 1]
      case InitDb =>
        Trace(CreateIfNotExists(prev.state), prev.issued, prev.inserted, prev.removed)
      case Add(t) =>
        var step := Insert(prev.state, t);
        if step.result.Ok? then
          Trace(step.state, prev.issued + [step.result.value], prev.inserted + [Stored(t)], prev.removed)
        else
          Trace(step.state, prev.issued, prev.inserted, prev.removed)
      case Change(id, t) =>
        Trace(Update(prev.state, Some(id), t).state, prev.issued, prev.inserted, prev.removed)
      case Remove(id) =>
        var step := Delete(prev.state, Some(id));
        Trace(step.state, prev.issued, prev.inserted, prev.removed + if step.result == Ok(1) then 1 else 0)
  }

  /** The table holds the rows it started with, plus one per successful
      insert, minus one per delete that removed a row. */
  lemma {:induction false} RowCount(s: Snapshot, calls: seq<Call>)
    requires Valid(s)
    ensures |Replay(s, calls).state.rows| == |s.rows| + |Replay(s, calls).issued| - Replay(s, calls).removed
  {
    if calls != [] {
      RowCount(s, calls[..|calls| - 1]);
    }
  }

  /** `getAllTransactions` on a table that starts empty returns as many rows as
      inserts succeeded minus deletes that removed one. */
  lemma GetAllCountsInsertsAndDeletes(calls: seq<Call>)
    ensures var r := Replay(Snapshot(true, map[], 1), calls);
            && SelectAll(r.state).Ok?
            && |SelectAll(r.state).value| == |r.issued| - r.removed
  {
    RowCount(Snapshot(true, map[], 1), calls);
  }

  /** Every id in the trace lies between `from` and the final counter. */
  predicate IssuedFrom(from: int, r: Trace) {
    forall i :: 0 <= i < |r.issued| ==> from <= r.issued[i] < r.state.nextId
  }

  predicate Increasing(ids: seq<int>) {
    forall i, j :: 0 <= i < j < |ids| ==> ids[i] < ids[j]
  }

  /** Every id an insert hands out is larger than the ids of all rows present
      at the start and than every id handed out before it, and below the
      counter afterwards: AUTOINCREMENT never reuses an id, even after a
      delete. */
  lemma {:induction false} IdsNeverReused(s: Snapshot, calls: seq<Call>)
    requires Valid(s)
    ensures IssuedFrom(s.nextId, Replay(s, calls)) && Increasing(Replay(s, calls).issued)
    ensures forall i, id :: 0 <= i < |Replay(s, calls).issued| && id in s.rows ==> id < Replay(s, calls).issued[i]
  {
    if calls != [] {
      var init := calls[..|calls| - 1];
      IdsNeverReused(s, init);
      var prev, r := Replay(s, init), Replay(s, calls);
      if calls[|calls| - 1].Add? {
        var step := Insert(prev.state, calls[|calls| - 1].t);
        assert r.state == step.state;
        if step.result.Ok? {
          assert r.issued == prev.issued + [step.result.value];
        } else {
          assert r.issued == prev.issued;
        }
      } else {
        assert r.issued == prev.issued;
        assert r.state.nextId == prev.state.nextId;
      }
    }
  }

  predicate NoRemove(calls: seq<Call>) {
    forall i :: 0 <= i < |calls| ==> !calls[i].Remove?
  }

  predicate NoChange(calls: seq<Call>) {
    forall i :: 0 <= i < |calls| ==> !calls[i].Change?
  }

  /** Without deletes, every row an insert created is still in the table; with
      no updates either, it still holds the values that insert stored. */
  lemma {:induction false} InsertedRowsKept(s: Snapshot, calls: seq<Call>)
    requires Valid(s) && NoRemove(calls)
    ensures forall i :: 0 <= i < |Replay(s, calls).issued| ==> Replay(s, calls).issued[i] in Replay(s, calls).state.rows
    ensures NoChange(calls) ==>
              forall i :: 0 <= i < |Replay(s, calls).issued| ==>
                Replay(s, calls).state.rows[Replay(s, calls).issued[i]] == Replay(s, calls).inserted[i]
  {
    if calls != [] {
      var init := calls[..|calls| - 1];
      assert forall i :: 0 <= i < |init| ==> init[i] == calls[i];
      InsertedRowsKept(s, init);
      var prev, r := Replay(s, init), Replay(s, calls);
      var last := calls[|calls| - 1];
      if last.Add? {
        var step := Insert(prev.state, last.t);
        if step.result.Ok? {
          assert r.issued == prev.issued + [step.result.value];
          assert r.inserted == prev.inserted + [Stored(last.t)];
          assert forall i :: 0 <= i < |prev.issued| ==> prev.issued[i] != step.result.value;
        } else {
          assert r == Trace(prev.state, prev.issued, prev.inserted, prev.removed);
        }
      } else if last.Change? {
        assert r.issued == prev.issued && r.state.rows.Keys == prev.state.rows.Keys;
      } else {
        assert last.InitDb?;
        assert r.issued == prev.issued && r.state.rows == prev.state.rows;
      }
    }
  }

  /** `getAllTransactions` on a table that starts empty and sees no update or delete
      returns exactly the created transactions: one row per successful insert,
      under the id it reported and with the values it stored. */
  lemma GetAllReturnsCreated(calls: seq<Call>)
    requires NoRemove(calls) && NoChange(calls)
    ensures var r := Replay(Snapshot(true, map[], 1), calls);
            && SelectAll(r.state).Ok?
            && |SelectAll(r.state).value| == |r.issued|
            && forall i :: 0 <= i < |r.issued| ==> Row(r.issued[i], r.inserted[i]) in SelectAll(r.state).value
  {
    var s := Snapshot(true, map[], 1);
    RowCount(s, calls);
    InsertedRowsKept(s, calls);
    assert Replay(s, calls).removed == 0 by { NoRemoveNoDeletes(s, calls); }
  }

  lemma {:induction false} NoRemoveNoDeletes(s: Snapshot, calls: seq<Call>)
    requires Valid(s) && NoRemove(calls)
    ensures Replay(s, calls).removed == 0
  {
    if calls != [] {
      var init := calls[..|calls| - 1];
      assert forall i :: 0 <= i < |init| ==> init[i] == calls[i];
      NoRemoveNoDeletes(s, init);
    }
  }
}
