/** Tasks as clients see them, rows as the database stores them, and the row
    sequences that stand for the tables `pending` and `done`. */
module Tasks {
  import opened Codec

  datatype Option<+T> = None | Some(value: T)

  /** The error codes of model/errmsg.hpp that the queue returns. */
  datatype Code = OK | INVALID_ARGUMENT | NOT_FOUND | OS_ERROR

  datatype Task = Task(execName: string, args: seq<string>, workDir: string,
                       id: int, exitCode: int, isSuccess: bool)

  datatype Row = Row(execName: string, args: string, workDir: string,
                     id: int, exitCode: int, isSuccess: bool)

  /** The row the worker is busy with, if any. */
  datatype Flight = NoFlight | Flying(row: Row)

  /** The default-constructed task: what `m_currentTask` holds while idle. */
  const IDLE := Task("", [], "", 0, 0, false)

  /** The values that addTaskToTable binds. */
  function ToRow(t: Task): Row {
    Row(t.execName, Concat(t.args), t.workDir, t.id, t.exitCode, t.isSuccess)
  }

  /** The fields that are read back from the columns of a row. */
  function FromRow(r: Row): Task {
    Task(r.execName, Split(r.args), r.workDir, r.id, r.exitCode, r.isSuccess)
  }

  /** The columns of the row are the fields of the task, the arguments joined. */
  predicate Stores(r: Row, t: Task) {
    && r.execName == t.execName && r.args == Concat(t.args) && r.workDir == t.workDir
    && r.id == t.id && r.exitCode == t.exitCode && r.isSuccess == t.isSuccess
  }

  /** The fields of the task are the columns of the row, the arguments split. */
  predicate Holds(r: Row, t: Task) {
    && t.execName == r.execName && t.args == Split(r.args) && t.workDir == r.workDir
    && t.id == r.id && t.exitCode == r.exitCode && t.isSuccess == r.isSuccess
  }

  /** Rows and tasks are converted field by field, and a task comes back from its row
      unchanged if and only if its arguments do. */
  lemma StoredTask(t: Task)
    ensures Stores(ToRow(t), t) && Holds(ToRow(t), FromRow(ToRow(t)))
    ensures FromRow(ToRow(t)) == t <==> Separable(t.args)
  {
    RoundTripIff(t.args);
  }

  /** A row that travels through `m_currentTask` and is written again differs
      from what was read in the exit code alone. */
  lemma RowSurvives(r: Row, code: int)
    ensures ToRow(FromRow(r).(exitCode := code)) == r.(exitCode := code)
  {
    ConcatOfSplit(r.args);
  }

  function IdSet(rows: seq<Row>): set<int> {
    set r | r in rows :: r.id
  }

  function Ids(rows: seq<Row>): seq<int> {
    seq(|rows|, i requires 0 <= i < |rows| => rows[i].id)
  }

  ghost predicate Increasing(rows: seq<Row>) {
    forall i, j :: 0 <= i < j < |rows| ==> rows[i].id < rows[j].id
  }

  /** `DELETE FROM ... WHERE ID = id`: the rows that stay. */
  function Without(rows: seq<Row>, id: int): seq<Row> {
    if |rows| == 0 then []
    else if rows[0].id == id then Without(rows[1..], id)
    else [rows[0]] + Without(rows[1..], id)
  }

  /** `SELECT ... WHERE ID = id`: the rows that match. */
  function Only(rows: seq<Row>, id: int): seq<Row> {
    if |rows| == 0 then []
    else if rows[0].id == id then [rows[0]] + Only(rows[1..], id)
    else Only(rows[1..], id)
  }

  lemma {:induction false} WithoutMembers(rows: seq<Row>, id: int)
    ensures forall r :: r in Without(rows, id) <==> r in rows && r.id != id
    ensures forall r :: r in Only(rows, id) <==> r in rows && r.id == id
  {
    if |rows| > 0 {
      WithoutMembers(rows[1..], id);
      assert rows == [rows[0]] + rows[1..];
    }
  }

  lemma {:induction false} WithoutAbsent(rows: seq<Row>, id: int)
    requires forall r :: r in rows ==> r.id != id
    ensures Without(rows, id) == rows && Only(rows, id) == []
  {
    if |rows| > 0 {
      assert rows[0] in rows;
      WithoutAbsent(rows[1..], id);
    }
  }

  lemma {:induction false} WithoutIncreasing(rows: seq<Row>, id: int)
    requires Increasing(rows)
    ensures Increasing(Without(rows, id))
  {
    if |rows| > 0 {
      var tail := rows[1..];
      WithoutIncreasing(tail, id);
      WithoutMembers(tail, id);
      assert forall r :: r in tail ==> rows[0].id < r.id;
      assert forall r :: r in Without(tail, id) ==> rows[0].id < r.id;
    }
  }

  lemma {:induction false} OnlyOne(rows: seq<Row>, id: int)
    requires Increasing(rows)
    ensures |Only(rows, id)| <= 1
  {
    if |rows| > 0 {
      if rows[0].id == id {
        assert forall r :: r in rows[1..] ==> rows[0].id < r.id;
        WithoutAbsent(rows[1..], id);
      } else {
        OnlyOne(rows[1..], id);
      }
    }
  }

  /** When no row is older than id, deleting id takes it off the front. */
  lemma FrontDeleted(rows: seq<Row>, id: int)
    requires Increasing(rows) && forall r :: r in rows ==> id <= r.id
    ensures Only(rows, id) + Without(rows, id) == rows
    ensures |rows| > 0 && rows[0].id == id ==> Without(rows, id) == rows[1..]
    ensures !(|rows| > 0 && rows[0].id == id) ==> Without(rows, id) == rows && id !in IdSet(rows)
  {
    if |rows| > 0 && rows[0].id == id {
      TailIsNewer(rows);
      WithoutAbsent(rows[1..], id);
      assert [rows[0]] + rows[1..] == rows;
    } else {
      if |rows| > 0 {
        TailIsNewer(rows);
        assert rows[0] in rows;
      }
      WithoutAbsent(rows, id);
    }
  }

  lemma TailIsNewer(rows: seq<Row>)
    requires Increasing(rows) && |rows| > 0
    ensures forall r :: r in rows[1..] ==> rows[0].id < r.id
    ensures forall r :: r in rows ==> r == rows[0] || rows[0].id < r.id
  {
  }

  lemma IdSetWithout(rows: seq<Row>, id: int)
    ensures IdSet(Without(rows, id)) == IdSet(rows) - {id}
  {
    WithoutMembers(rows, id);
    forall i | i in IdSet(rows) - {id} ensures i in IdSet(Without(rows, id)) {
      var r :| r in rows && r.id == i;
      assert r in Without(rows, id);
    }
  }

  lemma IdSetAppend(rows: seq<Row>, r: Row)
    ensures IdSet(rows + [r]) == IdSet(rows) + {r.id}
  {
    assert forall x :: x in rows + [r] <==> x in rows || x == r;
    forall i | i in IdSet(rows) + {r.id} ensures i in IdSet(rows + [r]) {
      if i == r.id {
        assert r in rows + [r];
      } else {
        var x :| x in rows && x.id == i;
        assert x in rows + [r];
      }
    }
  }
}
