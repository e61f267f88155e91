/** What an undisturbed pass of the worker through mainLoopInit or mainLoopFin
    does.  The concurrent protocol and the class are both proved against it. */
module WorkerSpec {
  import opened Tasks

  /** A statement takes effect, or is refused before it is stepped, or fails in
      the step; in the last two cases it has no effect. */
  datatype Sql = Success | NoPrepare | NoStep

  datatype Chosen = Chosen(picked: bool, current: Task, running: bool, start: bool)

  /** mainLoopInit.  It stops the loop if there is nothing to pick and also if the
      step fails, but not if the statement cannot be prepared. */
  function AfterInit(pending: seq<Row>, current: Task, running: bool, start: bool, select: Sql): Chosen {
    if select.NoPrepare? then Chosen(false, current, running, start)
    else if select.NoStep? || |pending| == 0 then Chosen(false, current, false, false)
    else Chosen(true, FromRow(pending[0]), running, start)
  }

  datatype Finished = Finished(pending: seq<Row>, done: seq<Row>, start: bool)

  /** What mainLoopFin meets: whether the exit code can be read, the exit code,
      and how its two statements end. */
  datatype Fortune = Fortune(readable: bool, code: int, delete: Sql, insert: Sql)

  /** mainLoopFin.  A delete that fails in its step does not keep the task from
      being recorded. */
  function AfterFin(pending: seq<Row>, done: seq<Row>, current: Task, start: bool, f: Fortune): Finished {
    if !f.readable || f.delete.NoPrepare? then Finished(pending, done, false)
    else
      var rest := if f.delete.Success? then Without(pending, current.id) else pending;
      if f.insert.Success? && current.id !in IdSet(done) then
        Finished(rest, done + [ToRow(current.(exitCode := f.code))], start)
      else Finished(rest, done, false)
  }
}
