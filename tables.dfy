/**
 * A table of the store as a sequence of rows in insertion order. Every table
 * has an auto-increment integer id, a status column and (except
 * info_requests) an admin_notes column. Rows are never deleted, so ids are
 * the positions counted from 1.
 */
module Tables {
  import opened Options

  datatype Row<T, S> = Row(id: int, data: T, status: S, notes: Option<string>)

  /** Ids are 1, 2, 3, ... in insertion order. */
  ghost predicate Positional<T, S>(rows: seq<Row<T, S>>) {
    forall i :: 0 <= i < |rows| ==> rows[i].id == i + 1
  }

  /** The id the next insert receives. */
  function NextId<T, S>(rows: seq<Row<T, S>>): int {
    |rows| + 1
  }

  /** INSERT: appends a row with a fresh id, the given status and no notes. */
  function Insert<T, S>(rows: seq<Row<T, S>>, data: T, status: S): (r: seq<Row<T, S>>)
    ensures |r| == |rows| + 1 && r[..|rows|] == rows
    ensures r[|rows|].id == |r| && r[|rows|].data == data && r[|rows|].status == status && r[|rows|].notes.None?
  {
    rows + [Row(NextId(rows), data, status, None)]
  }

  lemma InsertKeepsPositional<T, S>(rows: seq<Row<T, S>>, data: T, status: S)
    requires Positional(rows)
    ensures Positional(Insert(rows, data, status))
    ensures forall i :: 0 <= i < |rows| ==> rows[i].id < NextId(rows)
    ensures NextId(rows) > 0
  {
  }

  /** `SELECT * ... WHERE id = ?`: the row with that id, if any. */
  function Find<T, S>(rows: seq<Row<T, S>>, id: int): (r: Option<Row<T, S>>)
    ensures r.Some? ==> r.value in rows && r.value.id == id
    ensures r.None? ==> forall i :: 0 <= i < |rows| ==> rows[i].id != id
  {
    if rows == [] then None
    else if rows[0].id == id then Some(rows[0])
    else Find(rows[1..], id)
  }

  /** With positional ids, a lookup succeeds exactly for ids 1..|rows|, and finds the row at id - 1. */
  lemma FindPositional<T, S>(rows: seq<Row<T, S>>, id: int)
    requires Positional(rows)
    ensures Find(rows, id).Some? <==> 1 <= id <= |rows|
    ensures 1 <= id <= |rows| ==> Find(rows, id) == Some(rows[id - 1])
  {
    if 1 <= id <= |rows| {
      assert rows[id - 1].id == id;
      FindFirst(rows, id - 1);
    }
  }

  lemma {:induction false} FindFirst<T, S>(rows: seq<Row<T, S>>, k: nat)
    requires k < |rows|
    requires forall i :: 0 <= i < k ==> rows[i].id != rows[k].id
    ensures Find(rows, rows[k].id) == Some(rows[k])
  {
    if k > 0 {
      FindFirst(rows[1..], k - 1);
    }
  }

  /** `SELECT * ... WHERE status = ?` in insertion order. */
  function Select<T, S(==)>(rows: seq<Row<T, S>>, status: S): (r: seq<Row<T, S>>)
    ensures |r| <= |rows|
    ensures forall i :: 0 <= i < |r| ==> r[i] in rows && r[i].status == status
    ensures forall i :: 0 <= i < |rows| && rows[i].status == status ==> rows[i] in r
  {
    if rows == [] then []
    else if rows[0].status == status then [rows[0]] + Select(rows[1..], status)
    else Select(rows[1..], status)
  }

  /** Rows with a status not asked for are skipped: selecting after appending one. */
  lemma SelectAppend<T, S>(rows: seq<Row<T, S>>, x: Row<T, S>, status: S)
    ensures Select(rows + [x], status) == Select(rows, status) + (if x.status == status then [x] else [])
  {
    if rows != [] {
      assert (rows + [x])[1..] == rows[1..] + [x];
      SelectAppend(rows[1..], x, status);
    }
  }

  /** The ids of some rows, in order. */
  function Ids<T, S>(rows: seq<Row<T, S>>): (r: seq<int>)
    ensures |r| == |rows|
    ensures forall i :: 0 <= i < |rows| ==> r[i] == rows[i].id
  {
    seq(|rows|, i requires 0 <= i < |rows| => rows[i].id)
  }

  /** An insert with a given status adds exactly the new id, last, to the rows selected by that status. */
  lemma InsertSelected<T, S>(rows: seq<Row<T, S>>, data: T, status: S)
    ensures Ids(Select(Insert(rows, data, status), status)) == Ids(Select(rows, status)) + [NextId(rows)]
  {
    SelectAppend(rows, Row(NextId(rows), data, status, None), status);
  }

  /** `SELECT COUNT(*) ... WHERE status = ?`. */
  function Count<T, S(==)>(rows: seq<Row<T, S>>, status: S): (n: nat)
    ensures n == |Select(rows, status)|
  {
    if rows == [] then 0
    else (if rows[0].status == status then 1 else 0) + Count(rows[1..], status)
  }

  /** The notes an update leaves: new ones only when given and non-empty. */
  function NewNotes(old_: Option<string>, given: Option<string>): Option<string> {
    if given.Some? && given.value != "" then given else old_
  }

  /**
   * `UPDATE ... SET status = ?[, admin_notes = ?] WHERE id = ?`: every row
   * with that id gets the status (and the notes when they are given), every
   * other row stays as it was; a missing id changes nothing.
   */
  function SetStatus<T, S>(rows: seq<Row<T, S>>, id: int, status: S, notes: Option<string>): (r: seq<Row<T, S>>)
    ensures |r| == |rows|
    ensures forall i :: 0 <= i < |rows| ==>
      r[i] == if rows[i].id == id then rows[i].(status := status, notes := NewNotes(rows[i].notes, notes)) else rows[i]
  {
    if rows == [] then []
    else
      var head := if rows[0].id == id then rows[0].(status := status, notes := NewNotes(rows[0].notes, notes)) else rows[0];
      [head] + SetStatus(rows[1..], id, status, notes)
  }

  lemma SetStatusKeepsPositional<T, S>(rows: seq<Row<T, S>>, id: int, status: S, notes: Option<string>)
    requires Positional(rows)
    ensures Positional(SetStatus(rows, id, status, notes))
  {
  }
}
