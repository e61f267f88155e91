/** SQLiteQueue as one thread executes it: the database helpers with every way
    they can fail, and the worker loop. */
module SqliteQueue {
  import opened Codec
  import opened Tasks
  import opened Database
  import opened Process
  import opened DrainSpec
  import opened Schema
  import opened WorkerSpec
  import F = FifoQueue

  /** `UPDATE ... SET ID = to WHERE ID = from`. */
  function Replace(ids: seq<int>, from: int, to: int): seq<int> {
    seq(|ids|, i requires 0 <= i < |ids| => if ids[i] == from then to else ids[i])
  }

  class Queue {
    const db: Connection
    const process: LinuxProc
    var currentTask: Task
    var isRunning: bool
    var start: bool

    constructor (db: Connection, process: LinuxProc)
      ensures this.db == db && this.process == process && currentTask == IDLE && !isRunning && !start
    {
      this.db, this.process := db, process;
      currentTask, isRunning, start := IDLE, false, false;
    }

    // ---- Opening ------------------------------------------------------------------

    method CreateTable(table: TableName) returns (ret: Verdict)
      requires db.Quiet() && !table.IdTable?
      modifies db`clock, db`stmt, db`live, db`prepared, db`finalized, db`catalog, db`pending, db`done
      ensures db.Quiet() && old(db.clock) <= db.clock
      ensures ret == if table !in old(db.catalog) && db.Clean(old(db.clock), 2) then Created else Bad
      ensures db.catalog == if ret.Created? then old(db.catalog)[table := TASK_COLUMNS] else old(db.catalog)
      ensures db.pending == if ret.Created? && table.PendingTable? then [] else old(db.pending)
      ensures db.done == if ret.Created? && table.DoneTable? then [] else old(db.done)
    {
      ret := Created;
      label exit: {
        var ok := db.Prepare(table !in db.catalog);
        if !ok {
          ret := Bad;
          break exit;
        }
        ok := db.Step();
        if !ok {
          ret := Bad;
        } else {
          db.catalog := db.catalog[table := TASK_COLUMNS];
          if table.PendingTable? {
            db.pending := [];
          } else {
            db.done := [];
          }
        }
      }
      db.Finalize();
    }

    /** The first statement of verifyTable and verifyID: how many tables have the name. */
    method CountTables(table: TableName) returns (ok: bool, rowCount: nat)
      requires db.Busy()
      modifies db`clock
      ensures old(db.clock) <= db.clock && rowCount <= 1
      ensures ok ==> rowCount == if table in db.catalog then 1 else 0
      ensures db.CleanForever(old(db.clock)) ==> ok
    {
      rowCount := 0;
      var matches := if table in db.catalog then 1 else 0;
      ok := db.Step();
      while ok && rowCount < matches
        invariant old(db.clock) <= db.clock && 0 <= rowCount <= matches
        invariant db.CleanForever(old(db.clock)) ==> ok
      {
        rowCount := rowCount + 1;
        ok := db.Step();
      }
    }

    /** The loop of verifyTable over the reported columns. */
    method TaskColumnsMatch(columns: seq<Column>) returns (good: bool)
      requires db.Busy()
      modifies db`clock
      ensures old(db.clock) <= db.clock && (good ==> ValidTask(columns))
      ensures db.CleanForever(old(db.clock)) ==> good == ValidTask(columns)
    {
      var rowCount := 0;
      while true
        invariant 0 <= rowCount <= |columns| && old(db.clock) <= db.clock
        invariant forall i :: 0 <= i < rowCount ==> TypeOf(columns[i].name) == columns[i].decl
        decreases |columns| - rowCount
      {
        var ok := db.Step();
        if !ok {
          return false;
        } else if rowCount < |columns| {
          if TypeOf(columns[rowCount].name) != columns[rowCount].decl {
            return false;
          }
          rowCount := rowCount + 1;
        } else {
          break;
        }
      }
      good := rowCount == 6;
    }

    /** The loop of verifyID over the reported columns. */
    method IdColumnsMatch(columns: seq<Column>) returns (good: bool)
      requires db.Busy()
      modifies db`clock
      ensures old(db.clock) <= db.clock && (good ==> |columns| == 1 && columns[0] == Column("ID", "INT"))
      ensures db.CleanForever(old(db.clock)) ==> good == (|columns| == 1 && columns[0] == Column("ID", "INT"))
    {
      var rowCount := 0;
      while true
        invariant 0 <= rowCount <= |columns| && old(db.clock) <= db.clock
        invariant forall i :: 0 <= i < rowCount ==> columns[i] == Column("ID", "INT")
        decreases |columns| - rowCount
      {
        var ok := db.Step();
        if !ok {
          return false;
        } else if rowCount < |columns| {
          if columns[rowCount].name != "ID" || columns[rowCount].decl != "INT" {
            return false;
          }
          rowCount := rowCount + 1;
        } else {
          break;
        }
      }
      good := rowCount == 1;
    }

    /** The loop of verifyID over the rows of lastID. */
    method IdRowIsAlone() returns (good: bool)
      requires db.Busy()
      modifies db`clock
      ensures old(db.clock) <= db.clock && (good ==> |db.ids| == 1)
      ensures db.CleanForever(old(db.clock)) ==> good == (|db.ids| == 1)
    {
      var rowCount := 0;
      while true
        invariant 0 <= rowCount <= |db.ids| && old(db.clock) <= db.clock
        decreases |db.ids| - rowCount
      {
        var ok := db.Step();
        if !ok {
          return false;
        } else if rowCount < |db.ids| {
          rowCount := rowCount + 1;
        } else {
          break;
        }
      }
      good := rowCount == 1;
    }

    method VerifyTable(table: TableName) returns (ret: Verdict)
      requires db.Quiet() && !table.IdTable?
      modifies db`clock, db`stmt, db`live, db`prepared, db`finalized, db`catalog, db`pending, db`done
      ensures db.Quiet() && old(db.clock) <= db.clock
      ensures db.CleanForever(old(db.clock)) ==> ret == TaskVerdict(old(db.catalog), table)
      ensures ret.Bad? || ret == TaskVerdict(old(db.catalog), table)
      ensures ret.Existing? ==> table in db.catalog && |db.catalog[table]| == 6
      ensures db.catalog == if ret.Created? then old(db.catalog)[table := TASK_COLUMNS] else old(db.catalog)
      ensures db.pending == if ret.Created? && table.PendingTable? then [] else old(db.pending)
      ensures db.done == if ret.Created? && table.DoneTable? then [] else old(db.done)
    {
      ret := Existing;
      label exit: {
        var ok := db.Prepare(true);
        if !ok {
          ret := Bad;
          break exit;
        }
        ok := db.Bind();
        if !ok {
          ret := Bad;
          break exit;
        }
        var rowCount;
        ok, rowCount := CountTables(table);
        if !ok {
          ret := Bad;
          break exit;
        }
        db.Finalize();
        if rowCount == 0 {
          ret := CreateTable(table);
          return;
        }
        ok := db.Prepare(true);
        if !ok {
          ret := Bad;
          break exit;
        }
        ok := TaskColumnsMatch(db.catalog[table]);
        if !ok {
          ret := Bad;
        }
      }
      db.Finalize();
    }

    /** The part of verifyID that runs when there is no table lastID. */
    method CreateID() returns (ret: Verdict)
      requires db.Quiet() && IdTable !in db.catalog
      modifies db`clock, db`stmt, db`live, db`prepared, db`finalized, db`catalog, db`ids
      ensures db.Quiet() && old(db.clock) <= db.clock && !ret.Existing?
      ensures db.CleanForever(old(db.clock)) ==> ret.Created?
      ensures ret.Created? ==> db.catalog == old(db.catalog)[IdTable := ID_COLUMNS] && db.ids == [0]
      ensures ret.Bad? ==>
        (db.catalog == old(db.catalog) && db.ids == old(db.ids))
        || (db.catalog == old(db.catalog)[IdTable := ID_COLUMNS] && db.ids == [])
    {
      ret := Existing;
      label exit: {
        var ok := db.Prepare(true);
        if !ok {
          ret := Bad;
          break exit;
        }
        ok := db.Step();
        if !ok {
          ret := Bad;
        } else {
          db.catalog := db.catalog[IdTable := ID_COLUMNS];
          db.ids := [];
        }
        db.Finalize();
        ok := db.Prepare(IdTable in db.catalog);
        if !ok {
          ret := Bad;
          break exit;
        }
        ok := db.Step();
        if !ok {
          ret := Bad;
          break exit;
        }
        db.ids := db.ids + [0];
        ret := Created;
      }
      db.Finalize();
    }

    /** The part of verifyID that runs when there is a table lastID. */
    method CheckID() returns (ret: Verdict)
      requires db.Quiet() && IdTable in db.catalog
      modifies db`clock, db`stmt, db`live, db`prepared, db`finalized
      ensures db.Quiet() || db.Busy()
      ensures old(db.clock) <= db.clock && !ret.Created?
      ensures ret.Existing? ==> ValidId(db.catalog[IdTable], db.ids)
      ensures db.CleanForever(old(db.clock)) ==> ret == IdVerdict(db.catalog, db.ids)
    {
      var ok := db.Prepare(true);
      if !ok {
        return Bad;
      }
      ok := IdColumnsMatch(db.catalog[IdTable]);
      if !ok {
        return Bad;
      }
      db.Finalize();
      ok := db.Prepare(true);
      if !ok {
        return Bad;
      }
      ok := IdRowIsAlone();
      ret := if ok then Existing else Bad;
    }

    method VerifyID() returns (ret: Verdict)
      requires db.Quiet()
      modifies db`clock, db`stmt, db`live, db`prepared, db`finalized, db`catalog, db`ids
      ensures db.Quiet() && old(db.clock) <= db.clock
      ensures db.CleanForever(old(db.clock)) ==> ret == IdVerdict(old(db.catalog), old(db.ids))
      ensures ret.Bad? || ret == IdVerdict(old(db.catalog), old(db.ids))
      ensures ret.Created? ==> db.catalog == old(db.catalog)[IdTable := ID_COLUMNS] && db.ids == [0]
      ensures ret.Existing? ==> db.catalog == old(db.catalog) && db.ids == old(db.ids)
      ensures ret.Bad? ==>
        (db.catalog == old(db.catalog) && db.ids == old(db.ids))
        || (IdTable !in old(db.catalog) && db.catalog == old(db.catalog)[IdTable := ID_COLUMNS] && db.ids == [])
      ensures ret.Bad? && IdTable in old(db.catalog) ==> db.catalog == old(db.catalog) && db.ids == old(db.ids)
    {
      ret := Existing;
      label exit: {
        var ok := db.Prepare(true);
        if !ok {
          ret := Bad;
          break exit;
        }
        var rowCount;
        ok, rowCount := CountTables(IdTable);
        if !ok {
          ret := Bad;
          break exit;
        }
        db.Finalize();
        if rowCount == 0 {
          ret := CreateID();
          return;
        }
        ret := CheckID();
      }
      db.Finalize();
    }

    /** The middle part of connectToDB: the three verdicts and their comparison. */
    method VerifyAll() returns (ok: bool)
      requires db.Quiet()
      modifies db`clock, db`stmt, db`live, db`prepared, db`finalized, db`catalog, db`pending, db`done, db`ids
      ensures db.Quiet()
      // Whatever fails on the way, success means that all is in place.
      ensures ok ==> AllGood(db.catalog, db.ids)
      ensures db.CleanForever(old(db.clock)) ==>
        Opened(ok, db.catalog, db.ids) == Open(old(db.catalog), old(db.ids))
      // Good tables are left alone, even by an attempt that fails.
      ensures AllGood(old(db.catalog), old(db.ids)) ==> db.catalog == old(db.catalog) && db.ids == old(db.ids)
      ensures PendingTable in old(db.catalog) ==> db.pending == old(db.pending)
      ensures DoneTable in old(db.catalog) ==> db.done == old(db.done)
    {
      var rcPending := VerifyTable(PendingTable);
      if rcPending.Bad? {
        return false;
      }
      var rcDone := VerifyTable(DoneTable);
      // rcPending is tested again here, and once more after verifyID: neither test can hold.
      var rcID := VerifyID();
      ok := !(rcPending != rcDone || rcPending != rcID || rcDone != rcID);
      NewTablesAreGood();
    }

    method ConnectToDB() returns (failed: bool)
      requires db.Quiet()
      modifies db
      ensures db.Quiet() && db.isOpen == !failed
      ensures !failed ==> AllGood(db.catalog, db.ids)
      ensures db.CleanForever(old(db.clock)) ==>
        Opened(!failed, db.catalog, db.ids) == Open(old(db.catalog), old(db.ids))
      // Good tables are left alone, even by an attempt that fails.
      ensures AllGood(old(db.catalog), old(db.ids)) ==> db.catalog == old(db.catalog) && db.ids == old(db.ids)
      ensures PendingTable in old(db.catalog) ==> db.pending == old(db.pending)
      ensures DoneTable in old(db.catalog) ==> db.done == old(db.done)
    {
      var ok := db.Open();
      if !ok {
        return true;
      }
      ok := VerifyAll();
      if !ok {
        db.isOpen := false;
      }
      failed := !ok;
    }

    // ---- Statements ----------------------------------------------------------------

    method ClearTable(table: TableName) returns (ret: Code)
      requires db.Quiet() && !table.IdTable?
      modifies db`clock, db`stmt, db`live, db`prepared, db`finalized, db`pending, db`done
      ensures db.Quiet()
      ensures ret == if db.Clean(old(db.clock), 2) then OK else OS_ERROR
      ensures db.pending == if ret == OK && table.PendingTable? then [] else old(db.pending)
      ensures db.done == if ret == OK && table.DoneTable? then [] else old(db.done)
    {
      ret := OK;
      label exit: {
        var ok := db.Prepare(true);
        if !ok {
          ret := OS_ERROR;
          break exit;
        }
        ok := db.Step();
        if !ok {
          ret := OS_ERROR;
        } else if table.PendingTable? {
          db.pending := [];
        } else {
          db.done := [];
        }
      }
      db.Finalize();
    }

    method ListIDInTable(table: TableName) returns (ret: Code, out: seq<int>)
      requires db.Quiet() && !table.IdTable?
      modifies db`clock, db`stmt, db`live, db`prepared, db`finalized
      ensures db.Quiet()
      ensures ret == if db.Clean(old(db.clock), |db.Rows(table)| + 2) then OK else OS_ERROR
      ensures ret == OK ==> out == Ids(db.Rows(table))
      ensures ret == OK ==> |out| == |db.Rows(table)| && forall i :: 0 <= i < |out| ==> out[i] == db.Rows(table)[i].id
    {
      ret, out := OK, [];
      var rows := db.Rows(table);
      label exit: {
        var ok := db.Prepare(true);
        if !ok {
          ret := OS_ERROR;
          break exit;
        }
        ghost var first := db.clock;
        while true
          invariant db.Busy() && 0 <= |out| <= |rows| && out == Ids(rows[..|out|])
          invariant db.clock == first + |out| && db.Clean(old(db.clock), |out| + 1)
          decreases |rows| - |out|
        {
          ok := db.Step();
          if !ok {
            ret := OS_ERROR;
            break exit;
          } else if |out| < |rows| {
            out := out + [rows[|out|].id];
          } else {
            break;
          }
        }
      }
      db.Finalize();
    }

    /** The six columns of the row that a step has reached. */
    method ReadColumns(r: Row) returns (t: Task)
      ensures t == FromRow(r) && Holds(r, t)
    {
      var args := SplitString(r.args);
      t := Task(r.execName, args, r.workDir, r.id, r.exitCode, r.isSuccess);
    }

    /** The loop of taskDetails over the matching rows: the last one is kept. */
    method ReadRows(found: seq<Row>, out0: Task) returns (ok: bool, rowCount: nat, out: Task)
      requires db.Busy()
      modifies db`clock
      ensures ok == db.Clean(old(db.clock), |found| + 1)
      ensures ok ==> rowCount == |found| && (rowCount > 0 ==> out == FromRow(found[rowCount - 1]))
    {
      rowCount, out := 0, out0;
      ghost var first := db.clock;
      ok := db.Step();
      db.FirstFailure(first, 0, |found| + 1);
      while ok && rowCount < |found|
        invariant 0 <= rowCount <= |found| && db.clock == first + rowCount + 1
        invariant rowCount > 0 ==> out == FromRow(found[rowCount - 1])
        invariant if ok then db.Clean(first, rowCount + 1) else !db.Clean(first, |found| + 1)
      {
        out := ReadColumns(found[rowCount]);
        rowCount := rowCount + 1;
        db.FirstFailure(first, rowCount, |found| + 1);
        ok := db.Step();
      }
    }

    method TaskDetails(table: TableName, id: int, out0: Task) returns (ret: Code, out: Task)
      requires db.Quiet() && !table.IdTable?
      modifies db`clock, db`stmt, db`live, db`prepared, db`finalized
      ensures db.Quiet()
      ensures var found := Only(db.Rows(table), id);
        && ret == (if !db.Clean(old(db.clock), |found| + 3) then OS_ERROR
                   else if |found| == 0 then NOT_FOUND else OK)
        && (ret == OK ==> out == FromRow(found[|found| - 1]) && Holds(found[|found| - 1], out))
    {
      ret, out := OK, out0;
      label exit: {
        var ok := db.Prepare(true);
        if !ok {
          ret := OS_ERROR;
          break exit;
        }
        ok := db.Bind();
        if !ok {
          ret := OS_ERROR;
          break exit;
        }
        var rowCount;
        ok, rowCount, out := ReadRows(Only(db.Rows(table), id), out);
        if !ok {
          ret := OS_ERROR;
          break exit;
        }
        if rowCount == 0 {
          ret := NOT_FOUND;
        }
      }
      db.Finalize();
    }

    /** The six binds of addTaskToTable: execName, args, workDir, ID, exitCode, isSuccess. */
    method BindTask() returns (ok: bool)
      requires db.Busy()
      modifies db`clock
      ensures old(db.clock) < db.clock && ok == db.Clean(old(db.clock), 6)
      ensures ok ==> db.clock == old(db.clock) + 6
    {
      ok := true;
      var i := 0;
      while i < 6 && ok
        invariant 0 <= i <= 6 && db.clock == old(db.clock) + i
        invariant if ok then db.Clean(old(db.clock), i) else i > 0 && db.Fails(old(db.clock) + i - 1)
      {
        ok := db.Bind();
        i := i + 1;
      }
    }

    method AddTaskToTable(table: TableName, t: Task) returns (ret: Code)
      requires db.Quiet() && !table.IdTable?
      modifies db`clock, db`stmt, db`live, db`prepared, db`finalized, db`pending, db`done
      ensures db.Quiet() && old(db.clock) < db.clock
      ensures ret == if db.Clean(old(db.clock), 8) && t.id !in IdSet(old(db.Rows(table))) then OK else OS_ERROR
      ensures ret == OK ==>
        |db.Rows(table)| == |old(db.Rows(table))| + 1 && Stores(db.Rows(table)[|old(db.Rows(table))|], t)
      ensures db.pending == if ret == OK && table.PendingTable? then old(db.pending) + [ToRow(t)] else old(db.pending)
      ensures db.done == if ret == OK && table.DoneTable? then old(db.done) + [ToRow(t)] else old(db.done)
    {
      ret := OK;
      label exit: {
        var ok := db.Prepare(true);
        if !ok {
          ret := OS_ERROR;
          break exit;
        }
        var args := ConcatString(t.args);
        ok := BindTask();
        if !ok {
          ret := OS_ERROR;
          break exit;
        }
        ok := db.StepInsert(table, Row(t.execName, args, t.workDir, t.id, t.exitCode, t.isSuccess));
        if !ok {
          ret := OS_ERROR;
        }
      }
      db.Finalize();
    }

    method RemoveTaskFromPending(id: int, needCheckCurrentTask: bool) returns (ret: Code)
      requires db.Quiet()
      modifies db`clock, db`stmt, db`live, db`prepared, db`finalized, db`pending
      ensures db.Quiet() && old(db.clock) <= db.clock
      ensures ret == if needCheckCurrentTask && id == currentTask.id then INVALID_ARGUMENT
                     else if db.Clean(old(db.clock), 3) then OK
                     else if db.Clean(old(db.clock), 2) then NOT_FOUND
                     else OS_ERROR
      ensures ret != INVALID_ARGUMENT ==> old(db.clock) < db.clock
      ensures ret == OK || ret == NOT_FOUND ==> db.clock == old(db.clock) + 3
      ensures db.pending == if ret == OK then Without(old(db.pending), id) else old(db.pending)
    {
      ret := OK;
      if needCheckCurrentTask {
        if id == currentTask.id {
          return INVALID_ARGUMENT;
        }
      }
      label exit: {
        var ok := db.Prepare(true);
        if !ok {
          ret := OS_ERROR;
          break exit;
        }
        ok := db.Bind();
        if !ok {
          ret := OS_ERROR;
          break exit;
        }
        ok := db.Step();
        if !ok {
          ret := NOT_FOUND;
        } else {
          db.pending := Without(db.pending, id);
        }
      }
      db.Finalize();
    }

    /** The loop of getID over the rows of lastID: the last one is kept. */
    method ReadCounter(out0: int) returns (ok: bool, rowCount: nat, out: int)
      requires db.Busy()
      modifies db`clock
      ensures old(db.clock) < db.clock && ok == db.Clean(old(db.clock), |db.ids| + 1)
      ensures ok ==> rowCount == |db.ids| && db.clock == old(db.clock) + |db.ids| + 1
      ensures rowCount <= |db.ids| && (rowCount > 0 ==> out == db.ids[rowCount - 1])
    {
      rowCount, out := 0, out0;
      ok := db.Step();
      while ok && rowCount < |db.ids|
        invariant 0 <= rowCount <= |db.ids| && db.clock == old(db.clock) + rowCount + 1
        invariant rowCount > 0 ==> out == db.ids[rowCount - 1]
        invariant db.Clean(old(db.clock), rowCount) && ok == !db.Fails(old(db.clock) + rowCount)
      {
        out := db.ids[rowCount];
        rowCount := rowCount + 1;
        ok := db.Step();
      }
    }

    /** The part of getID that stores the next id in the place of the old one. */
    method StoreNext(id: int) returns (ok: bool)
      requires db.Quiet() && db.ids == [id]
      modifies db`clock, db`stmt, db`live, db`prepared, db`finalized, db`ids
      ensures db.Quiet() || db.Busy()
      ensures ok == db.Clean(old(db.clock), 4) && (ok ==> db.clock == old(db.clock) + 4)
      ensures old(db.clock) < db.clock && db.ids == [if ok then id + 1 else id]
    {
      ok := db.Prepare(true);
      if !ok {
        return;
      }
      ok := db.Bind();
      if !ok {
        return;
      }
      ok := db.Bind();
      if !ok {
        return;
      }
      ok := db.Step();
      if ok {
        db.ids := Replace(db.ids, id, id + 1);
      }
    }

    method GetID(out0: int) returns (ret: Code, out: int)
      requires db.Quiet()
      modifies db`clock, db`stmt, db`live, db`prepared, db`finalized, db`ids
      ensures db.Quiet() && old(db.clock) < db.clock
      ensures ret == OK <==> |old(db.ids)| == 1 && db.Clean(old(db.clock), 7)
      ensures ret == OK ==> out == old(db.ids)[0] && db.ids == [out + 1] && db.clock == old(db.clock) + 7
      ensures ret != OK ==> db.ids == old(db.ids)
      ensures ret == INVALID_ARGUMENT <==> |old(db.ids)| != 1 && db.Clean(old(db.clock), |old(db.ids)| + 2)
    {
      ret, out := OK, out0;
      label exit: {
        var ok := db.Prepare(true);
        if !ok {
          ret := OS_ERROR;
          break exit;
        }
        var rowCount;
        ok, rowCount, out := ReadCounter(out);
        if !ok {
          ret := OS_ERROR;
          break exit;
        }
        if rowCount != 1 {
          ret := INVALID_ARGUMENT;
          break exit;
        }
        db.Finalize();
        ok := StoreNext(out);
        if !ok {
          ret := OS_ERROR;
        }
      }
      db.Finalize();
    }

    // ---- Client calls -------------------------------------------------------------

    /** The atomic queue this object stands for between two calls. */
    ghost function View(): F.Queue
      requires |db.ids| == 1
      reads this, db
    {
      F.Queue(db.pending, if currentTask == IDLE then NoFlight else Flying(ToRow(currentTask)), db.done, db.ids[0])
    }

    method AddTask(t: Task) returns (ret: Code, id: int)
      requires db.Quiet()
      modifies db`clock, db`stmt, db`live, db`prepared, db`finalized, db`ids, db`pending, db`done
      ensures db.Quiet() && db.done == old(db.done)
      ensures |old(db.ids)| == 1 ==> |db.ids| == 1
      ensures |old(db.ids)| == 1 ==>
        F.Serves(old(View()), F.Add(t), if ret == OK then F.Added(id) else F.Failed(ret), View())
      ensures ret == OK || ret == OS_ERROR
      ensures ret == OK <==>
        |old(db.ids)| == 1 && db.Clean(old(db.clock), 15) && old(db.ids)[0] !in IdSet(old(db.pending))
      ensures ret == OK ==>
        id == old(db.ids)[0] && db.ids == [id + 1] && db.pending == old(db.pending) + [ToRow(t.(id := id))]
      ensures ret == OK ==> Stores(db.pending[|old(db.pending)|], t.(id := id))
      ensures ret != OK ==> db.pending == old(db.pending)
      ensures ret != OK ==> db.ids == old(db.ids) || (|old(db.ids)| == 1 && db.ids == [old(db.ids)[0] + 1])
    {
      var code;
      code, id := GetID(t.id);
      if code != OK {
        return OS_ERROR, id;
      }
      ret := AddTaskToTable(PendingTable, t.(id := id));
    }

    method RemoveTask(id: int) returns (ret: Code)
      requires db.Quiet()
      modifies db`clock, db`stmt, db`live, db`prepared, db`finalized, db`pending
      ensures db.Quiet()
      ensures |db.ids| == 1 ==>
        F.Serves(old(View()), F.Remove(id), if ret == OK then F.Done else F.Failed(ret), View())
      ensures ret == INVALID_ARGUMENT <==> id == currentTask.id
      ensures currentTask == IDLE ==> (ret == INVALID_ARGUMENT <==> id == 0)
      ensures ret == OK <==> id != currentTask.id && db.Clean(old(db.clock), 3)
      ensures db.pending == if ret == OK then Without(old(db.pending), id) else old(db.pending)
    {
      ret := RemoveTaskFromPending(id, true);
    }

    method ClearPending() returns (ret: Code)
      requires db.Quiet()
      modifies db`clock, db`stmt, db`live, db`prepared, db`finalized, db`pending, db`done
      ensures db.Quiet()
      ensures |db.ids| == 1 ==>
        F.Serves(old(View()), F.ClearPending, if ret == OK then F.Done else F.Failed(ret), View())
      ensures ret == OK <==> db.Clean(old(db.clock), 2)
    {
      ret := ClearTable(PendingTable);
    }

    method ClearFinished() returns (ret: Code)
      requires db.Quiet()
      modifies db`clock, db`stmt, db`live, db`prepared, db`finalized, db`pending, db`done
      ensures db.Quiet()
      ensures |db.ids| == 1 ==>
        F.Serves(old(View()), F.ClearFinished, if ret == OK then F.Done else F.Failed(ret), View())
      ensures ret == OK <==> db.Clean(old(db.clock), 2)
    {
      ret := ClearTable(DoneTable);
    }

    method ListPending() returns (ret: Code, out: seq<int>)
      requires db.Quiet()
      modifies db`clock, db`stmt, db`live, db`prepared, db`finalized
      ensures db.Quiet()
      ensures |db.ids| == 1 ==>
        F.Serves(old(View()), F.ListPending, if ret == OK then F.IdList(out) else F.Failed(ret), View())
      ensures ret == OK <==> db.Clean(old(db.clock), |db.pending| + 2)
      ensures ret == OK ==> |out| == |db.pending| && forall i :: 0 <= i < |out| ==> out[i] == db.pending[i].id
    {
      ret, out := ListIDInTable(PendingTable);
    }

    method ListFinished() returns (ret: Code, out: seq<int>)
      requires db.Quiet()
      modifies db`clock, db`stmt, db`live, db`prepared, db`finalized
      ensures db.Quiet()
      ensures |db.ids| == 1 ==>
        F.Serves(old(View()), F.ListFinished, if ret == OK then F.IdList(out) else F.Failed(ret), View())
      ensures ret == OK <==> db.Clean(old(db.clock), |db.done| + 2)
      ensures ret == OK ==> |out| == |db.done| && forall i :: 0 <= i < |out| ==> out[i] == db.done[i].id
    {
      ret, out := ListIDInTable(DoneTable);
    }

    method PendingDetails(id: int, out0: Task) returns (ret: Code, out: Task)
      requires db.Quiet()
      modifies db`clock, db`stmt, db`live, db`prepared, db`finalized
      ensures db.Quiet()
      ensures |db.ids| == 1 ==>
        F.Serves(old(View()), F.PendingDetails(id), if ret == OK then F.TaskInfo(out) else F.Failed(ret), View())
      ensures db.CleanForever(old(db.clock)) ==> (ret == OK <==> id in IdSet(db.pending))
    {
      F.OnlyLooksUp(db.pending, id);
      ret, out := TaskDetails(PendingTable, id, out0);
    }

    method FinishedDetails(id: int, out0: Task) returns (ret: Code, out: Task)
      requires db.Quiet()
      modifies db`clock, db`stmt, db`live, db`prepared, db`finalized
      ensures db.Quiet()
      ensures |db.ids| == 1 ==>
        F.Serves(old(View()), F.FinishedDetails(id), if ret == OK then F.TaskInfo(out) else F.Failed(ret), View())
      ensures db.CleanForever(old(db.clock)) ==> (ret == OK <==> id in IdSet(db.done))
    {
      F.OnlyLooksUp(db.done, id);
      ret, out := TaskDetails(DoneTable, id, out0);
    }

    /** The answer is the one of the atomic queue if the arguments of the current
        task survive storage, as those of a picked task do. */
    method CurrentTask(out0: Task) returns (ret: Code, out: Task)
      ensures ret == if isRunning then OK else INVALID_ARGUMENT
      ensures out == if ret == OK then currentTask else out0
      ensures |db.ids| == 1 && (currentTask == IDLE || Separable(currentTask.args)) ==>
        F.Serves(View(), F.CurrentTask, if ret == OK then F.TaskInfo(out) else F.Failed(ret), View())
    {
      RoundTripIff(currentTask.args);
      if !isRunning {
        return INVALID_ARGUMENT, out0;
      }
      ret, out := OK, currentTask;
    }

    /** stop and stopImpl. */
    method Stop()
      modifies `start, `isRunning, process
      ensures !isRunning
      ensures if old(isRunning) then !start && process.proc == After(old(process.proc), Exits(SIGKILL))
              else start == old(start) && process.proc == old(process.proc)
      ensures |db.ids| == 1 ==> F.Serves(old(View()), F.Stop, F.Done, View())
    {
      if !isRunning {
        return;
      }
      start := false;
      process.Stop();
      isRunning := false;
    }

    // ---- The worker ------------------------------------------------------------------

    method MainLoopInit() returns (failed: bool)
      requires db.Quiet()
      modifies this, db`clock, db`stmt, db`live, db`prepared, db`finalized
      ensures db.Quiet() && old(db.clock) < db.clock
      ensures Chosen(!failed, currentTask, isRunning, start)
           == AfterInit(db.pending, old(currentTask), old(isRunning), old(start), db.Ending(old(db.clock), 0))
      ensures db.Fails(old(db.clock)) ==> db.clock == old(db.clock) + 1
      // The statement cannot be prepared: nothing changes.
      ensures db.Fails(old(db.clock)) ==>
        failed && isRunning == old(isRunning) && start == old(start) && currentTask == old(currentTask)
      // It fails in the step, or there is no row: the loop is told to stop.
      ensures !db.Fails(old(db.clock)) && (db.Fails(old(db.clock) + 1) || |db.pending| == 0) ==>
        failed && !isRunning && !start && currentTask == old(currentTask)
      // The first row is picked.
      ensures db.Clean(old(db.clock), 2) && |db.pending| > 0 ==>
        !failed && isRunning == old(isRunning) && start == old(start)
        && Holds(db.pending[0], currentTask)
    {
      failed := false;
      label exit: {
        var ok := db.Prepare(true);
        if !ok {
          failed := true;
          break exit;
        }
        ok := db.Step();
        if ok && |db.pending| > 0 {
          currentTask := ReadColumns(db.pending[0]);
        } else {
          start := false;
          isRunning := false;
          failed := true;
        }
      }
      db.Finalize();
    }

    method MainLoopFin()
      requires db.Quiet()
      modifies this, process, db`clock, db`stmt, db`live, db`prepared, db`finalized, db`pending, db`done
      ensures db.Quiet() && old(db.clock) <= db.clock && currentTask == IDLE && isRunning == old(isRunning)
      ensures process.proc == Poll(old(process.Now())).0
      ensures process.launched == old(process.launched)
      ensures Finished(db.pending, db.done, start)
           == AfterFin(old(db.pending), old(db.done), old(currentTask), old(start),
                       Fortune(!Poll(old(process.Now())).1, process.proc.exitCode,
                               db.Ending(old(db.clock), 1), db.Ending(old(db.clock) + 3, 6)))
      // The task goes from pending exactly if the exit code can be read and the delete succeeds.
      ensures db.pending == if !Poll(old(process.Now())).1 && db.Clean(old(db.clock), 3)
                            then Without(old(db.pending), old(currentTask).id) else old(db.pending)
      // It is recorded exactly if besides the insert succeeds, even after a delete that failed in its step.
      ensures (|db.done| > |old(db.done)| <==>
                 !Poll(old(process.Now())).1 && db.Clean(old(db.clock), 2) && db.Clean(old(db.clock) + 3, 8)
                 && old(currentTask).id !in IdSet(old(db.done)))
      ensures start <==> old(start) && |db.done| > |old(db.done)|
      ensures |db.done| > |old(db.done)| ==>
        Stores(db.done[|old(db.done)|], old(currentTask).(exitCode := process.proc.exitCode))
      ensures start ==> old(currentTask).id !in IdSet(old(db.done))
      ensures |db.pending| <= |old(db.pending)|
      ensures forall p :: p in db.pending ==> p in old(db.pending)
      ensures var t := old(currentTask).(exitCode := process.proc.exitCode);
        (!start && db.done == old(db.done))
        || (!Poll(old(process.Now())).1 && db.done == old(db.done) + [ToRow(t)])
      ensures
        (!Poll(old(process.Now())).1 && db.CleanForever(old(db.clock))
         && old(currentTask).id !in IdSet(old(db.done))) ==>
        var t := old(currentTask).(exitCode := process.proc.exitCode);
        Finished(db.pending, db.done, start)
        == Finished(Without(old(db.pending), t.id), old(db.done) + [ToRow(t)], old(start))
    {
      WithoutShrinks(db.pending, currentTask.id);
      WithoutMembers(db.pending, currentTask.id);
      var failed, exitCode := process.ExitCode(currentTask.exitCode);
      currentTask := currentTask.(exitCode := exitCode);
      if failed {
        start := false;
        currentTask := IDLE;
        return;
      }
      var code := RemoveTaskFromPending(currentTask.id, false);
      if code == INVALID_ARGUMENT || code == OS_ERROR {
        start := false;
        currentTask := IDLE;
        return;
      }
      code := AddTaskToTable(DoneTable, currentTask);
      if code != OK {
        start := false;
        currentTask := IDLE;
        return;
      }
      currentTask := IDLE;
    }

    /** Nothing disturbs the worker: no statement fails, ids are as they are
        handed out, and no child is left over. */
    ghost predicate Undisturbed()
      reads this, db, process
    {
      Orderly() && (process.proc.child == NoChild || process.proc.child == Reaped)
    }

    ghost predicate Orderly()
      reads db
    {
      && db.CleanForever(db.clock)
      && Increasing(db.pending) && (forall p, d :: p in db.pending && d in db.done ==> p.id != d.id)
    }

    /** What the worker loop leaves behind if nothing disturbs it from now on. */
    ghost function Target(): Drained
      reads db, process
    {
      Drain(db.pending, db.done, process.script, process.launched, process.proc.exitCode)
    }

    /** Poll the process once a second until it has ended. */
    method WaitForProcess()
      modifies process
      ensures process.launched == old(process.launched)
      ensures process.proc == if old(process.proc).child.Running? then Proc(Reaped, old(process.fate))
                              else Poll(old(process.proc)).0
    {
      var running := process.IsRunning();
      while running
        invariant running ==> process.proc.child.Running?
        invariant process.launched == old(process.launched) && process.fate == old(process.fate)
        invariant running ==> process.proc == old(process.proc)
        invariant !running ==> process.proc == if old(process.proc).child.Running? then Proc(Reaped, old(process.fate))
                                               else Poll(old(process.proc)).0
        decreases if running then process.left + 1 else 0
      {
        running := process.IsRunning();
      }
    }

    /** A child that an earlier launch has left behind still runs. */
    ghost predicate Leftover()
      reads process
    {
      Poll(process.Now()).1
    }

    /** The launch of the picked task and, if it succeeds, the wait for its end. */
    method LaunchPicked() returns (failed: bool)
      modifies process
      ensures old(Leftover()) ==>
        failed && process.proc == old(process.proc) && process.launched == old(process.launched)
        && process.fate == old(process.fate)
      ensures !old(Leftover()) ==>
        var launch, before := process.script(old(process.launched)), Poll(old(process.Now())).0.exitCode;
        && process.launched == old(process.launched) + 1 && failed == !launch.Spawned?
        && Leftover() == (launch.Aborted? && launch.polls > 0)
        && (!Leftover() ==> Poll(process.Now()).0.exitCode == Filed(launch, before))
      ensures !failed ==> process.proc.child == Reaped
    {
      failed := process.Start();
      if !failed {
        WaitForProcess();
      }
    }

    /** The first pending row as the next pass will have it filed, if at all.  A
        child left behind refuses the launch, but may have ended when it is asked
        for its exit code. */
    ghost function ThisRow(): Row
      requires |db.pending| > 0
      reads db, process
    {
      db.pending[0].(exitCode := if Leftover() then process.fate
                                 else Filed(process.script(process.launched), Poll(process.Now()).0.exitCode))
    }

    /** The exit code on record, if no child runs. */
    ghost function OnRecord(): int
      reads process
    {
      Poll(process.Now()).0.exitCode
    }

    ghost function Setup(): Setting
      reads db, process
    {
      Setting(db.pending, process.script, process.launched, OnRecord(),
              if Leftover() then Some(process.fate) else None)
    }

    /** How many passes are still to come, at most, but for refused ones: one for
        each pending task and one that finds none; but if the first task is recorded
        as done already, recording it again fails and ends the loop. */
    ghost function Ahead(): nat
      reads this, db
    {
      if !start then 0
      else if |db.pending| > 0 && db.pending[0].id in IdSet(db.done) then 1
      else |db.pending| + 1
    }

    /** mainLoopFin for the task picked, the first pending one. */
    method FilePicked()
      requires db.Quiet() && start && |db.pending| > 0 && currentTask == FromRow(db.pending[0])
      modifies this, process, db`clock, db`stmt, db`live, db`prepared, db`finalized, db`pending, db`done
      ensures db.Quiet() && old(db.clock) <= db.clock
      ensures process.proc == Poll(old(process.Now())).0 && process.launched == old(process.launched)
      ensures forall p :: p in db.pending ==> p in old(db.pending)
      ensures var r := old(db.pending)[0].(exitCode := process.proc.exitCode);
        (!start && db.done == old(db.done)) || (!old(Leftover()) && db.done == old(db.done) + [r])
      ensures start ==>
        old(db.pending)[0].id !in IdSet(old(db.done))
        && (|db.pending| < |old(db.pending)| || db.pending == old(db.pending))
      ensures old(Leftover()) ==> !start && db.pending == old(db.pending)
      ensures old(Orderly()) && !old(Leftover()) ==>
        var r := old(db.pending)[0].(exitCode := process.proc.exitCode);
        start && db.pending == old(db.pending)[1..] && db.done == old(db.done) + [r]
    {
      HeadLeaves(db.pending, db.done);
      MainLoopFin();
    }

    /** One pass of the loop in mainLoop, from the launch of the picked task on. */
    method RunPicked()
      requires db.Quiet() && start && |db.pending| > 0 && currentTask == FromRow(db.pending[0])
      modifies this, process, db`clock, db`stmt, db`live, db`prepared, db`finalized, db`pending, db`done
      ensures db.Quiet()
      ensures Ahead() < old(Ahead())
      ensures old(Undisturbed()) && start ==> Undisturbed() && Target() == old(Target())
      ensures old(Undisturbed()) && !start ==> Drained(db.pending, db.done) == old(Target())
      // Whatever fails: what is filed is the picked row, with the code that is due.
      ensures forall p :: p in db.pending ==> p in old(db.pending)
      ensures db.done == old(db.done) || db.done == old(db.done) + [old(ThisRow())]
      ensures process.launched == old(process.launched) + if old(Leftover()) then 0 else 1
      ensures start ==> !old(Leftover()) && process.proc == Proc(Reaped, old(ThisRow()).exitCode)
    {
      ghost var pending0, done0, undisturbed := db.pending, db.done, Undisturbed();
      ghost var r := ThisRow();
      var failed := LaunchPicked();
      FilePicked();
      if failed {
        start := false;
        return;
      }
      if start {
        IdSetAppend(done0, r);
      }
      if undisturbed {
        assert db.pending == pending0[1..] && db.done == done0 + [r];
        RestApart(pending0, done0, r);
      }
    }

    /** One pass of the loop in mainLoop.  It is refused if the statement of
        mainLoopInit cannot be prepared; then nothing has changed, and the loop
        goes on. */
    method Turn()
      requires db.Quiet() && start
      modifies this, process, db`clock, db`stmt, db`live, db`prepared, db`finalized, db`pending, db`done
      ensures db.Quiet()
      ensures db.Fails(old(db.clock)) ==>
        start && db.clock == old(db.clock) + 1 && db.pending == old(db.pending) && db.done == old(db.done)
        && currentTask == old(currentTask) && isRunning == old(isRunning) && unchanged(process)
      ensures !db.Fails(old(db.clock)) ==> Ahead() < old(Ahead())
      ensures old(Undisturbed()) && start ==> Undisturbed() && Target() == old(Target())
      ensures old(Undisturbed()) && !start ==> Drained(db.pending, db.done) == old(Target())
      ensures forall p :: p in db.pending ==> p in old(db.pending)
      ensures db.done == old(db.done)
              || (|old(db.pending)| > 0 && db.done == old(db.done) + [old(ThisRow())]
                  && process.launched == old(process.launched) + if old(Leftover()) then 0 else 1)
      ensures process.launched >= old(process.launched)
      ensures !db.Fails(old(db.clock)) && start ==>
        |old(db.pending)| > 0 && !old(Leftover()) && process.launched == old(process.launched) + 1
        && !Leftover() && OnRecord() == old(ThisRow()).exitCode
    {
      var failed := MainLoopInit();
      if failed {
        return;
      }
      RunPicked();
    }

    /** Every row filed since the setting is accounted for, and if the loop goes on so
        is the code on record. */
    ghost predicate Booked(setup: Setting, added: seq<Row>, origins: seq<Origin>)
      reads this, db, process
    {
      && (forall p :: p in db.pending ==> p in setup.from)
      && FiledBy(setup, added, origins, process.launched)
      && (start ==> Due(setup, added, process.launched, Leftover(), process.fate, OnRecord()))
    }

    /** One pass of the loop, with the account of what it files. */
    method BookedTurn(ghost setup: Setting, ghost done0: seq<Row>, ghost added: seq<Row>, ghost origins: seq<Origin>)
        returns (ghost added': seq<Row>, ghost origins': seq<Origin>)
      requires db.Quiet() && start
      requires db.done == done0 + added && Booked(setup, added, origins) && process.script == setup.script
      modifies this, process, db`clock, db`stmt, db`live, db`prepared, db`finalized, db`pending, db`done
      ensures db.Quiet()
      ensures db.done == done0 + added' && Booked(setup, added', origins')
      ensures if db.Fails(old(db.clock)) then
                start && db.clock == old(db.clock) + 1 && db.pending == old(db.pending) && db.done == old(db.done)
              else Ahead() < old(Ahead())
      ensures old(Undisturbed()) && start ==> Undisturbed() && Target() == old(Target())
      ensures old(Undisturbed()) && !start ==> Drained(db.pending, db.done) == old(Target())
    {
      ghost var n, o := process.launched, if Leftover() then LeftBehind else ByLaunch(process.launched);
      ghost var rows := if |db.pending| > 0 then [ThisRow()] else [];
      assert |db.pending| > 0 ==> FiledFrom(setup, ThisRow(), o) by {
        if |db.pending| > 0 {
          assert ThisRow() == db.pending[0].(exitCode := CodeOf(setup, o));
        }
      }
      Turn();
      added', origins' := TurnFiles(setup, added, origins, n, done0, db.done, process.launched, rows, o);
    }

    /** The loop of the worker, cut off after limit passes if it has not ended by
        then.  origins says whose exit code was filed with each row added to done. */
    method MainLoop(limit: nat)
        returns (turns: nat, ghost refusals: nat, ghost added: seq<Row>, ghost origins: seq<Origin>)
      requires db.Quiet()
      modifies this, process, db`clock, db`stmt, db`live, db`prepared, db`finalized, db`pending, db`done
      ensures db.Quiet() && (!start ==> !isRunning) && (start ==> turns == limit)
      // Passes that are not refused are few, so only refusals can keep the loop going.
      ensures refusals <= turns <= limit && turns + Ahead() <= old(Ahead()) + refusals
      ensures old(start) && db.FailsForever(old(db.clock)) ==>
        start && refusals == limit && db.pending == old(db.pending) && db.done == old(db.done)
      ensures old(start) && old(Undisturbed()) && limit > |old(db.pending)| ==>
        !start && Drained(db.pending, db.done) == old(Target()) && turns <= |old(db.pending)| + 1
      // Whatever fails: every row filed is a pending one with the code that is due.
      ensures db.done == old(db.done) + added
      ensures FiledBy(old(Setup()), added, origins, process.launched)
    {
      turns, refusals, added, origins := 0, 0, [], [];
      ghost var clean, target, stuck, setup := start && Undisturbed(), Target(), db.FailsForever(db.clock), Setup();
      while start && turns < limit
        invariant db.Quiet() && refusals <= turns <= limit
        // how many passes there were, and how many are to come
        invariant turns - refusals + Ahead() <= old(Ahead())
        invariant refusals == turns ==>
          start == old(start) && db.clock == old(db.clock) + turns
          && db.pending == old(db.pending) && db.done == old(db.done)
        invariant stuck ==> refusals == turns
        // undisturbed
        invariant clean && start ==> refusals == 0 && Undisturbed() && Target() == target
        invariant clean && !start ==> refusals == 0 && Drained(db.pending, db.done) == target
        // what was filed
        invariant db.done == old(db.done) + added && Booked(setup, added, origins)
        decreases limit - turns
      {
        ghost var refused := db.Fails(db.clock);
        added, origins := BookedTurn(setup, old(db.done), added, origins);
        turns, refusals := turns + 1, if refused then refusals + 1 else refusals;
      }
      if !start {
        isRunning := false;
      }
    }
  }

  /** Whose status a row was filed with: that of a child which an earlier loop had
      left behind, or what launch n left on record. */
  datatype Origin = LeftBehind | ByLaunch(n: nat)

  /** What the loop begins with: the pending rows, the launches to come and the
      number of the first, the exit code on record, and the status with which a
      child left behind will end, if there is one. */
  datatype Setting = Setting(from: seq<Row>, script: nat -> Launch, first: nat, before: int, behind: Option<int>)

  function CodeOf(s: Setting, o: Origin): int {
    match o
    case LeftBehind => if s.behind.Some? then s.behind.value else s.before
    case ByLaunch(n) => CodeAfter(s.script, s.first, n + 1, s.before)
  }

  /** r is one of the rows pending at first, but with the exit code of the origin. */
  ghost predicate FiledFrom(s: Setting, r: Row, o: Origin) {
    exists p :: p in s.from && r == p.(exitCode := CodeOf(s, o))
  }

  /** Each row added is a pending row with the exit code of its origin: one of the
      launches before last, ascending, or, for a single row, a child left behind. */
  ghost predicate FiledBy(s: Setting, added: seq<Row>, origins: seq<Origin>, last: nat) {
    && |added| == |origins| && s.first <= last
    && (forall i :: 0 <= i < |origins| ==>
          match origins[i]
          case LeftBehind => s.behind.Some?
          case ByLaunch(n) => s.first <= n < last)
    && (forall i, j :: 0 <= i < j < |origins| ==>
          origins[i].ByLaunch? && origins[j].ByLaunch? && origins[i].n < origins[j].n)
    && (forall i :: 0 <= i < |origins| ==> FiledFrom(s, added[i], origins[i]))
  }

  /** Before launch n: the code on record is as the launches so far have left it, and
      a child is left behind only if it was at first and nothing has been filed. */
  predicate Due(s: Setting, added: seq<Row>, n: nat, leftover: bool, fate: int, record: int) {
    if leftover then s.behind == Some(fate) && added == []
    else s.behind.None? && record == CodeAfter(s.script, s.first, n, s.before)
  }

  /** A pass of the loop, begun with launch n to come, has added nothing to
      done0 + added, or the one row of rows. */
  lemma TurnFiles(s: Setting, added: seq<Row>, origins: seq<Origin>, n: nat, done0: seq<Row>, done: seq<Row>,
                  last: nat, rows: seq<Row>, o: Origin)
      returns (added': seq<Row>, origins': seq<Origin>)
    requires FiledBy(s, added, origins, n) && n <= last
    requires LeftBehind !in origins && (o.LeftBehind? ==> added == [] && s.behind.Some?)
    requires done == done0 + added
             || (done == (done0 + added) + rows && |rows| == 1 && FiledFrom(s, rows[0], o)
                 && (o.ByLaunch? ==> o.n == n < last))
    ensures done == done0 + added' && FiledBy(s, added', origins', last)
    ensures (added' == added && origins' == origins) || (done != done0 + added && origins' == origins + [o])
  {
    if done == done0 + added {
      added', origins' := added, origins;
    } else {
      added', origins' := added + rows, origins + [o];
    }
  }

  /** code is the wait status of a child launched for the task itself. */
  predicate IsOwn(s: Setting, o: Origin, code: int) {
    o.ByLaunch? && IsOwnStatus(s.script(o.n), code)
  }

  /** A row filed by the loop bears the status of a child launched for it if and
      only if there was a launch for it and that has forked one. */
  lemma FiledWithOwnStatus(s: Setting, added: seq<Row>, origins: seq<Origin>, last: nat)
    requires FiledBy(s, added, origins, last)
    ensures forall i :: 0 <= i < |added| ==>
      (IsOwn(s, origins[i], added[i].exitCode) <==> origins[i].ByLaunch? && HasChild(s.script(origins[i].n)))
  {
    forall i | 0 <= i < |added|
      ensures IsOwn(s, origins[i], added[i].exitCode) <==> origins[i].ByLaunch? && HasChild(s.script(origins[i].n))
    {
      assert FiledFrom(s, added[i], origins[i]);
      if origins[i].ByLaunch? {
        OwnStatusIff(s.script, s.first, origins[i].n, s.before);
      }
    }
  }

  lemma {:induction false} WithoutShrinks(rows: seq<Row>, id: int)
    ensures |Without(rows, id)| <= |rows|
  {
    if |rows| > 0 {
      WithoutShrinks(rows[1..], id);
    }
  }

  /** Finishing the first pending task takes one row off the front and adds it,
      with its exit code, to done. */
  lemma HeadLeaves(pending: seq<Row>, done: seq<Row>)
    requires |pending| > 0
    ensures Increasing(pending) ==> Without(pending, pending[0].id) == pending[1..]
    ensures |Without(pending, pending[0].id)| < |pending|
    ensures forall code :: ToRow(FromRow(pending[0]).(exitCode := code)) == pending[0].(exitCode := code)
    ensures (forall p, d :: p in pending && d in done ==> p.id != d.id) ==> pending[0].id !in IdSet(done)
  {
    WithoutShrinks(pending[1..], pending[0].id);
    assert pending[0] in pending;
    if Increasing(pending) {
      FrontDeleted(pending, pending[0].id);
    }
    forall code ensures ToRow(FromRow(pending[0]).(exitCode := code)) == pending[0].(exitCode := code) {
      RowSurvives(pending[0], code);
    }
  }

  /** With the first task done, the ids in the two tables still ascend and differ. */
  lemma RestApart(pending: seq<Row>, done: seq<Row>, r: Row)
    requires |pending| > 0 && Increasing(pending) && r.id == pending[0].id
    requires forall p, d :: p in pending && d in done ==> p.id != d.id
    ensures Increasing(pending[1..]) && forall p, d :: p in pending[1..] && d in done + [r] ==> p.id != d.id
  {
    TailIsNewer(pending);
  }
}
