/** A crash of the concurrent queue and what opening its file again finds. */
module Reopening {
  import opened Tasks
  import opened Protocol
  import opened ProtocolInvariant
  import opened Database
  import opened Process
  import opened Schema
  import opened SqliteQueue
  import opened Refinement

  /** The tables of a crashed queue, in good order, are opened by a new object.  It
      may take many attempts; one that fails leaves the tables as they are, and one
      that succeeds gives a queue that is a crash away from the one before. */
  method Reopen(s: Shared, catalog: map<TableName, seq<Column>>, plan: nat -> bool, script: nat -> Launch)
      returns (queue: Queue, failed: bool)
    requires WorkerLocks(s) && CurrentMatches(s) && WorkerSees(s)
    requires AllGood(catalog, [s.lastID])
    ensures queue.db.Quiet() && queue.db.isOpen == !failed
    ensures queue.db.catalog == catalog && queue.db.pending == s.pending && queue.db.done == s.done
    ensures queue.db.ids == [s.lastID]
    ensures queue.View() == Abs(Restart(s)) && F.Step(Abs(s), F.Crash, queue.View())
    ensures !queue.isRunning && !queue.start && queue.currentTask == IDLE
    ensures (forall i: nat :: !plan(i)) ==> !failed
  {
    var db := new Connection(plan, catalog, s.pending, s.done, [s.lastID]);
    var process := new LinuxProc(script);
    queue := new Queue(db, process);
    failed := queue.ConnectToDB();
    OpensIff(catalog, [s.lastID]);
    RestartShows(s);
    CrashRefines(s);
  }
}
