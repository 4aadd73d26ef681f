/** One database table: rows keyed by an auto-increment id. */
module Tables {

  /** A row as a query returns it: its id and its columns. */
  datatype Row<R> = Row(id: nat, record: R)

  /** The rows of `rows` whose id is below `n`, in ascending id order. */
  function ListBelow<R>(rows: map<nat, R>, n: nat): (r: seq<Row<R>>)
    ensures forall i :: 0 <= i < |r| ==> r[i].id < n && r[i].id in rows && r[i].record == rows[r[i].id]
    ensures forall i, j :: 0 <= i < j < |r| ==> r[i].id < r[j].id
    ensures forall id :: id in rows && id < n ==> exists i :: 0 <= i < |r| && r[i].id == id
  {
    if n == 0 then []
    else
      var prev := ListBelow(rows, n - 1);
      if n - 1 in rows then
        var r := prev + [Row(n - 1, rows[n - 1])];
        ListsLastRow(rows, n - 1, prev, r);
        r
      else prev
  }

  /** Appending row `n` to a listing of the rows below `n` lists every row
      below `n + 1`. */
  lemma ListsLastRow<R>(rows: map<nat, R>, n: nat, prev: seq<Row<R>>, r: seq<Row<R>>)
    requires n in rows && r == prev + [Row(n, rows[n])]
    requires forall i :: 0 <= i < |prev| ==> prev[i].id < n && prev[i].id in rows && prev[i].record == rows[prev[i].id]
    requires forall id :: id in rows && id < n ==> exists i :: 0 <= i < |prev| && prev[i].id == id
    ensures forall i :: 0 <= i < |r| ==> r[i].id < n + 1 && r[i].id in rows && r[i].record == rows[r[i].id]
    ensures forall id :: id in rows && id < n + 1 ==> exists i :: 0 <= i < |r| && r[i].id == id
  {
    assert r[|prev|].id == n;
    assert forall i :: 0 <= i < |prev| ==> r[i] == prev[i];
    forall id | id in rows && id < n + 1
      ensures exists i :: 0 <= i < |r| && r[i].id == id
    {
      if id < n {
        var i :| 0 <= i < |prev| && prev[i].id == id;
        assert r[i].id == id;
      }
    }
  }

  /** The records of a query result, without their ids. */
  function RecordsOf<R>(rows: seq<Row<R>>): (r: seq<R>)
    ensures |r| == |rows|
    ensures forall i :: 0 <= i < |rows| ==> r[i] == rows[i].record
  {
    if rows == [] then [] else [rows[0].record] + RecordsOf(rows[1..])
  }

  class Table<R> {
    var rows: map<nat, R>
    var nextId: nat

    /** Every id in use was handed out before `nextId`. */
    ghost predicate Valid()
      reads this
    {
      forall id :: id in rows ==> id < nextId
    }

    constructor Empty()
      ensures Valid() && rows == map[] && nextId == 1
    {
      rows := map[];
      nextId := 1;
    }

    /** `Model::all()`: every row once, in ascending id order. */
    function Listing(): (r: seq<Row<R>>)
      reads this
      requires Valid()
      ensures forall i :: 0 <= i < |r| ==> r[i].id in rows && r[i].record == rows[r[i].id]
      ensures forall i, j :: 0 <= i < j < |r| ==> r[i].id < r[j].id
      ensures forall id :: id in rows ==> exists i :: 0 <= i < |r| && r[i].id == id
    {
      ListBelow(rows, nextId)
    }

    /** `Model::create(…)`: a row under a fresh id. */
    method Insert(record: R) returns (id: nat)
      requires Valid()
      modifies this
      ensures Valid()
      ensures id == old(nextId) && id !in old(rows)
      ensures rows == old(rows)[id := record] && nextId == old(nextId) + 1
    {
      id := nextId;
      rows := rows[id := record];
      nextId := nextId + 1;
    }

    /** `$model->update(…)` on a row that exists. */
    method Replace(id: nat, record: R)
      requires Valid() && id in rows
      modifies this
      ensures Valid()
      ensures rows == old(rows)[id := record] && nextId == old(nextId)
    {
      rows := rows[id := record];
    }

    /** `$model->delete()` on a row that exists. */
    method Delete(id: nat)
      requires Valid() && id in rows
      modifies this
      ensures Valid()
      ensures rows == old(rows) - {id} && nextId == old(nextId)
    {
      rows := rows - {id};
    }
  }
}
