/** The queue as its users think of it: every operation is one atomic step.
    Both the locking protocol and the sequential class are proved against it. */
module FifoQueue {
  import opened Tasks

  datatype Call =
    | Add(task: Task)
    | Remove(id: int)
    | ClearPending
    | ClearFinished
    | ListPending
    | ListFinished
    | PendingDetails(id: int)
    | FinishedDetails(id: int)
    | CurrentTask
    | Start
    | Stop

  datatype Reply =
    | Failed(code: Code)
    | Done
    | Added(id: int)
    | IdList(ids: seq<int>)
    | TaskInfo(task: Task)

  /** flight is the task the worker is running: its row stays in pending until
      it is finished.  next is the smallest id that was never handed out. */
  datatype Queue = Queue(pending: seq<Row>, flight: Flight, done: seq<Row>, next: int)

  datatype Event =
    | Internal
    | Serve(c: nat, call: Call, reply: Reply)
    | Pick
    | Finish(code: int)
    | Repeat(code: int)   // recorded as done although its row is still pending
    | Lose                // its row is gone and it is not recorded as done
    | Drop                // given up without touching either table
    | Crash

  function CurrentId(q: Queue): int {
    if q.flight.Flying? then q.flight.row.id else IDLE.id
  }

  function CurrentOf(q: Queue): Task {
    if q.flight.Flying? then FromRow(q.flight.row) else IDLE
  }

  predicate Lookup(rows: seq<Row>, id: int, reply: Reply) {
    match reply
    case TaskInfo(t) => exists r :: r in rows && r.id == id && t == FromRow(r)
    case Failed(code) => code == OS_ERROR || (code == NOT_FOUND && id !in IdSet(rows))
    case _ => false
  }

  /** Reading the matching rows and keeping the last one is looking the id up. */
  lemma OnlyLooksUp(rows: seq<Row>, id: int)
    ensures var found := Only(rows, id);
      Lookup(rows, id, if |found| == 0 then Failed(NOT_FOUND) else TaskInfo(FromRow(found[|found| - 1])))
  {
    WithoutMembers(rows, id);
    var found := Only(rows, id);
    if |found| > 0 {
      assert found[|found| - 1] in found;
    }
  }

  /** What a call may answer, and what it does to the queue. */
  predicate Serves(q: Queue, call: Call, reply: Reply, q': Queue) {
    match call
    case Add(t) =>
      (match reply
       case Added(id) =>
         id == q.next
         && q' == q.(pending := q.pending + [ToRow(t.(id := id))], next := q.next + 1)
       case Failed(code) => code == OS_ERROR && (q' == q || q' == q.(next := q.next + 1))
       case _ => false)
    case Remove(id) =>
      (match reply
       case Done =>
         (q.flight.Flying? ==> id != q.flight.row.id) && q' == q.(pending := Without(q.pending, id))
       case Failed(code) =>
         q' == q && (code == INVALID_ARGUMENT ==> id == CurrentId(q)) && code != OK
       case _ => false)
    case ClearPending =>
      (reply == Done && q' == q.(pending := [])) || (reply == Failed(OS_ERROR) && q' == q)
    case ClearFinished =>
      (reply == Done && q' == q.(done := [])) || (reply == Failed(OS_ERROR) && q' == q)
    case ListPending =>
      q' == q && (reply == IdList(Ids(q.pending)) || reply == Failed(OS_ERROR))
    case ListFinished =>
      q' == q && (reply == IdList(Ids(q.done)) || reply == Failed(OS_ERROR))
    case PendingDetails(id) => q' == q && Lookup(q.pending, id, reply)
    case FinishedDetails(id) => q' == q && Lookup(q.done, id, reply)
    case CurrentTask =>
      q' == q && (reply == TaskInfo(CurrentOf(q)) || reply == Failed(INVALID_ARGUMENT))
    case Start => q' == q && (reply == Done || reply == Failed(INVALID_ARGUMENT))
    case Stop => q' == q && reply == Done
  }

  predicate Step(q: Queue, e: Event, q': Queue) {
    match e
    case Internal => q' == q
    case Serve(_, call, reply) => Serves(q, call, reply, q')
    case Pick =>
      q.flight.NoFlight? && |q.pending| > 0 && q' == q.(flight := Flying(q.pending[0]))
    case Finish(code) =>
      q.flight.Flying? && q.flight.row.id !in IdSet(q.done)
      && q' == q.(pending := Without(q.pending, q.flight.row.id),
                  flight := NoFlight,
                  done := q.done + [q.flight.row.(exitCode := code)])
    case Repeat(code) =>
      q.flight.Flying? && q.flight.row.id !in IdSet(q.done) && q.flight.row.id in IdSet(q.pending)
      && q' == q.(flight := NoFlight, done := q.done + [q.flight.row.(exitCode := code)])
    case Lose =>
      q.flight.Flying?
      && q' == q.(pending := Without(q.pending, q.flight.row.id), flight := NoFlight)
    case Drop => q.flight.Flying? && q' == q.(flight := NoFlight)
    case Crash =>
      || q' == q.(flight := NoFlight)
      || q' == q.(flight := NoFlight, next := q.next + 1)
      || (q.flight.Flying?
          && q' == q.(pending := Without(q.pending, q.flight.row.id), flight := NoFlight))
  }

  /** The events es lead through the states qs, one step each. */
  ghost predicate IsRun(qs: seq<Queue>, es: seq<Event>) {
    && |qs| == |es| + 1
    && forall i :: 0 <= i < |es| ==> Step(qs[i], es[i], qs[i + 1])
  }
}
