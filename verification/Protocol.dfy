/** The queue as a concurrent system: any number of clients and one worker
    interleave lock operations, single SQL statements, flag accesses and process
    events; at any moment everything in memory can be lost in a crash.

    A statement is prepared, bound and stepped as one action.  It either takes
    effect, or is refused before it is stepped, or fails in the step; in the last
    two cases it has no effect. */
module Protocol {
  import opened Tasks
  import opened FifoQueue
  import opened WorkerSpec

  /** The holder of a mutex. */
  datatype Holder = Free | ByWorker | ByClient(c: nat)

  datatype ClientPc =
    | Idle
    | AwaitToken(call: Call)
    | AwaitCurrent(call: Call)
    | AddSelect(task: Task)
    | AddUpdate(task: Task, id: int)
    | AddInsert(task: Task, id: int)
    | RemoveCheck(id: int)
    | RemoveUnlock(id: int, refused: bool)
    | RemoveDelete(id: int)
    | ClearAll
    | ClearUnlock(reply: Reply)
    | ClearDone
    | Read(call: Call)
    | Unlock(call: Call, reply: Reply)
    | CurrentLoad
    | CurrentRead
    | CurrentUnlock(reply: Reply)
    | StartLoad
    | StartRunning
    | StartFlag
    | StartSpawn
    | StopLoad
    | StopFlag
    | StopKill
    | StopClear
    | Return(call: Call, reply: Reply)

  /** launchFailed says which branch of mainLoop called mainLoopFin. */
  datatype WorkerPc =
    | Absent
    | TestStart
    | InitLock
    | InitSelect
    | InitLockCurrent(row: Row)
    | InitCopy(row: Row)
    | InitUnlockCurrent
    | InitStopFlag
    | InitRunFlag
    | InitUnlock(picked: bool)
    | Launch
    | Wait
    | FinFirst(launchFailed: bool)
    | FinExit(launchFailed: bool)
    | FinSecond(launchFailed: bool)
    | FinDelete(launchFailed: bool)
    | FinInsert(launchFailed: bool, deleted: seq<Row>, kept: bool)
    | FinFail(launchFailed: bool, hasToken: bool)
    | FinReset(launchFailed: bool, hasToken: bool)
    | FinUnlockToken(launchFailed: bool)
    | FinUnlockCurrent(launchFailed: bool)
    | FinFlag
    | Leave

  /** What became of ids: taken holds the id that a client has drawn but not yet
      inserted; entered lists the ids that entered done, in the order they did. */
  datatype History = History(taken: set<int>, removed: set<int>, cleared: set<int>,
                             burned: set<int>, lost: set<int>, entered: seq<int>)

  /** All that is not local to a client.  tokenFirst is a constant of the run:
      false is the code, true is the code with the two lock acquisitions of
      mainLoopFin exchanged.  flight and hist only observe: no branch reads them. */
  datatype Shared = Shared(
    tokenFirst: bool,
    pending: seq<Row>, done: seq<Row>, lastID: int,
    current: Task, running: bool, start: bool,
    token: Holder, cur: Holder,
    worker: WorkerPc,
    flight: Flight, hist: History)

  datatype State = State(sh: Shared, clients: map<nat, ClientPc>)

  /** ok and code are what the process answers: whether it could be launched,
      whether it still runs, whether and which exit code can be read. */
  datatype Action =
    | Begin(c: nat, call: Call)
    | Advance(c: nat, sql: Sql)
    | Work(sql: Sql, ok: bool, code: int)
    | PowerLoss

  function Fresh(tokenFirst: bool): Shared {
    Shared(tokenFirst, [], [], 0, IDLE, false, false, Free, Free, Absent,
           NoFlight, History({}, {}, {}, {}, {}, []))
  }

  function Init(tokenFirst: bool): State {
    State(Fresh(tokenFirst), map[])
  }

  function PcOf(s: State, c: nat): ClientPc {
    if c in s.clients then s.clients[c] else Idle
  }

  function Entry(call: Call): ClientPc {
    match call
    case CurrentTask => CurrentLoad
    case Start => StartLoad
    case Stop => StopLoad
    case _ => AwaitToken(call)
  }

  /** Where a call goes once it holds the token mutex. */
  function WithToken(call: Call): ClientPc {
    match call
    case Add(t) => AddSelect(t)
    case Remove(_) => AwaitCurrent(call)
    case ClearPending => AwaitCurrent(call)
    case ClearFinished => ClearDone
    case _ => Read(call)
  }

  /** Where a call goes once it holds the mutex of the current task. */
  function WithCurrent(call: Call): ClientPc {
    match call
    case Remove(id) => RemoveCheck(id)
    case ClearPending => ClearAll
    case _ => CurrentRead
  }

  function Details(rows: seq<Row>, id: int): Reply {
    var found := Only(rows, id);
    if |found| == 0 then Failed(NOT_FOUND) else TaskInfo(FromRow(found[|found| - 1]))
  }

  function ReadReply(s: Shared, call: Call): Reply {
    match call
    case ListPending => IdList(Ids(s.pending))
    case ListFinished => IdList(Ids(s.done))
    case PendingDetails(id) => Details(s.pending, id)
    case FinishedDetails(id) => Details(s.done, id)
    case _ => Failed(OS_ERROR)
  }

  function FlightIds(s: Shared): set<int> {
    match s.flight
    case NoFlight => {}
    case Flying(row) => {row.id}
  }

  /** The flight ends without being recorded: lost, unless its row remains. */
  function GiveUp(s: Shared): Shared {
    s.(flight := NoFlight,
       hist := s.hist.(lost := s.hist.lost + (FlightIds(s) - IdSet(s.pending) - IdSet(s.done))))
  }

  datatype ClientMove = Blocked | Moved(sh: Shared, pc: ClientPc)

  /** The client is about to run an SQL statement. */
  predicate AtStatement(pc: ClientPc) {
    pc.AddSelect? || pc.AddUpdate? || pc.AddInsert? || pc.RemoveDelete? || pc.ClearAll?
    || pc.ClearDone? || pc.Read?
  }

  /** One SQL statement of a client. */
  function Statement(s: Shared, pc: ClientPc, sql: Sql): ClientMove
    requires AtStatement(pc)
  {
    match pc
    // addTask
    case AddSelect(t) =>
      Moved(s, if sql.Success? then AddUpdate(t, s.lastID) else Unlock(Add(t), Failed(OS_ERROR)))
    case AddUpdate(t, id) =>
      if sql.Success? then
        Moved(s.(lastID := if s.lastID == id then id + 1 else s.lastID, hist := s.hist.(taken := {id})),
              AddInsert(t, id))
      else Moved(s, Unlock(Add(t), Failed(OS_ERROR)))
    case AddInsert(t, id) =>
      if sql.Success? && id !in IdSet(s.pending) then
        Moved(s.(pending := s.pending + [ToRow(t.(id := id))], hist := s.hist.(taken := {})),
              Unlock(Add(t), Added(id)))
      else
        Moved(s.(hist := s.hist.(taken := {}, burned := s.hist.burned + {id})),
              Unlock(Add(t), Failed(OS_ERROR)))
    // removeTask
    case RemoveDelete(id) =>
      (match sql
       case Success =>
         Moved(s.(pending := Without(s.pending, id),
                  hist := s.hist.(removed := s.hist.removed + ({id} * IdSet(s.pending) - IdSet(s.done)))),
               Unlock(Remove(id), Done))
       case NoPrepare => Moved(s, Unlock(Remove(id), Failed(OS_ERROR)))
       case NoStep => Moved(s, Unlock(Remove(id), Failed(NOT_FOUND))))
    // clearPending, clearFinished
    case ClearAll =>
      if sql.Success? then
        Moved(s.(pending := [],
                 hist := s.hist.(cleared := s.hist.cleared
                                   + (IdSet(s.pending) - FlightIds(s) - IdSet(s.done)))),
              ClearUnlock(Done))
      else Moved(s, ClearUnlock(Failed(OS_ERROR)))
    case ClearDone =>
      if sql.Success? then
        Moved(s.(done := [],
                 hist := s.hist.(cleared := s.hist.cleared
                                   + (IdSet(s.done) - FlightIds(s) - IdSet(s.pending)))),
              Unlock(ClearFinished, Done))
      else Moved(s, Unlock(ClearFinished, Failed(OS_ERROR)))
    // listPending, listFinished, pendingDetails, finishedDetails
    case Read(call) =>
      Moved(s, Unlock(call, if sql.Success? then ReadReply(s, call) else Failed(OS_ERROR)))
  }

  /** One action of client c on mutexes, flags or the current task. */
  function Control(s: Shared, c: nat, pc: ClientPc): ClientMove
    requires !AtStatement(pc)
  {
    match pc
    case Idle => Blocked
    case AwaitToken(call) =>
      if s.token.Free? then Moved(s.(token := ByClient(c)), WithToken(call)) else Blocked
    case AwaitCurrent(call) =>
      if s.cur.Free? then Moved(s.(cur := ByClient(c)), WithCurrent(call)) else Blocked
    case RemoveCheck(id) => Moved(s, RemoveUnlock(id, id == s.current.id))
    case RemoveUnlock(id, refused) =>
      Moved(s.(cur := Free),
            if refused then Unlock(Remove(id), Failed(INVALID_ARGUMENT)) else RemoveDelete(id))
    case ClearUnlock(reply) => Moved(s.(cur := Free), Unlock(ClearPending, reply))
    case Unlock(call, reply) => Moved(s.(token := Free), Return(call, reply))
    // currentTask
    case CurrentLoad =>
      Moved(s, if s.running then AwaitCurrent(CurrentTask)
               else Return(CurrentTask, Failed(INVALID_ARGUMENT)))
    case CurrentRead => Moved(s, CurrentUnlock(TaskInfo(s.current)))
    case CurrentUnlock(reply) => Moved(s.(cur := Free), Return(CurrentTask, reply))
    // start, stop
    case StartLoad =>
      Moved(s, if s.running then Return(Start, Failed(INVALID_ARGUMENT)) else StartRunning)
    case StartRunning => Moved(s.(running := true), StartFlag)
    case StartFlag => Moved(s.(start := true), StartSpawn)
    case StartSpawn =>
      if s.worker.Absent? then Moved(s.(worker := TestStart), Return(Start, Done)) else Blocked
    case StopLoad => Moved(s, if s.running then StopFlag else Return(Stop, Done))
    case StopFlag => Moved(s.(start := false), StopKill)
    case StopKill => Moved(s, StopClear)
    case StopClear => Moved(s.(running := false), Return(Stop, Done))
    case Return(_, _) => Moved(s, Idle)
  }

  function AdvanceClient(s: Shared, c: nat, pc: ClientPc, sql: Sql): ClientMove {
    if AtStatement(pc) then Statement(s, pc, sql) else Control(s, c, pc)
  }

  datatype WorkerMove = Stuck | Worked(sh: Shared)

  /** The worker is inside mainLoopInit. */
  predicate InInit(w: WorkerPc) {
    w.InitLock? || w.InitSelect? || w.InitLockCurrent? || w.InitCopy? || w.InitUnlockCurrent?
    || w.InitStopFlag? || w.InitRunFlag? || w.InitUnlock?
  }

  /** The worker is inside mainLoopFin, about to read the exit code or to run a statement. */
  predicate InRecord(w: WorkerPc) {
    w.FinExit? || w.FinDelete? || w.FinInsert?
  }

  /** The worker is elsewhere inside mainLoopFin. */
  predicate InFin(w: WorkerPc) {
    w.FinFirst? || w.FinSecond? || w.FinFail? || w.FinReset? || w.FinUnlockToken?
    || w.FinUnlockCurrent?
  }

  /** mainLoopInit, one action. */
  function InitStep(s: Shared, sql: Sql): WorkerMove
    requires InInit(s.worker)
  {
    match s.worker
    case InitLock =>
      if s.token.Free? then Worked(s.(token := ByWorker, worker := InitSelect)) else Stuck
    case InitSelect =>
      (match sql
       case NoPrepare => Worked(s.(worker := InitUnlock(false)))
       case NoStep => Worked(s.(worker := InitStopFlag))
       case Success =>
         Worked(s.(worker := if |s.pending| == 0 then InitStopFlag else InitLockCurrent(s.pending[0]))))
    case InitLockCurrent(row) =>
      if s.cur.Free? then Worked(s.(cur := ByWorker, worker := InitCopy(row))) else Stuck
    case InitCopy(row) =>
      Worked(s.(current := FromRow(row), flight := Flying(row), worker := InitUnlockCurrent))
    case InitUnlockCurrent => Worked(s.(cur := Free, worker := InitUnlock(true)))
    case InitStopFlag => Worked(s.(start := false, worker := InitRunFlag))
    case InitRunFlag => Worked(s.(running := false, worker := InitUnlock(false)))
    case InitUnlock(picked) =>
      Worked(s.(token := Free, worker := if picked then Launch else TestStart))
  }

  /** mainLoopFin, one action on mutexes, flags or the current task. */
  function FinStep(s: Shared): WorkerMove
    requires InFin(s.worker)
  {
    match s.worker
    case FinFirst(lf) =>
      if s.tokenFirst then
        if s.token.Free? then Worked(s.(token := ByWorker, worker := FinSecond(lf))) else Stuck
      else
        if s.cur.Free? then Worked(s.(cur := ByWorker, worker := FinExit(lf))) else Stuck
    case FinSecond(lf) =>
      if s.tokenFirst then
        if s.cur.Free? then Worked(s.(cur := ByWorker, worker := FinExit(lf))) else Stuck
      else
        if s.token.Free? then Worked(s.(token := ByWorker, worker := FinDelete(lf))) else Stuck
    case FinFail(lf, hasToken) => Worked(s.(start := false, worker := FinReset(lf, hasToken)))
    case FinReset(lf, hasToken) =>
      Worked(s.(current := IDLE,
                worker := if hasToken then FinUnlockToken(lf) else FinUnlockCurrent(lf)))
    case FinUnlockToken(lf) => Worked(s.(token := Free, worker := FinUnlockCurrent(lf)))
    case FinUnlockCurrent(lf) => Worked(s.(cur := Free, worker := if lf then FinFlag else TestStart))
  }

  /** mainLoopFin, reading the exit code and the two statements. */
  function Record(s: Shared, sql: Sql, ok: bool, code: int): WorkerMove
    requires InRecord(s.worker)
  {
    match s.worker
    case FinExit(lf) =>
      if ok then
        Worked(s.(current := s.current.(exitCode := code),
                  worker := if s.tokenFirst then FinDelete(lf) else FinSecond(lf)))
      else Worked(GiveUp(s).(worker := FinFail(lf, s.tokenFirst)))
    case FinDelete(lf) =>
      (match sql
       case NoPrepare => Worked(GiveUp(s).(worker := FinFail(lf, true)))
       case NoStep => Worked(s.(worker := FinInsert(lf, [], true)))
       case Success =>
         Worked(s.(pending := Without(s.pending, s.current.id),
                   worker := FinInsert(lf, Only(s.pending, s.current.id), false))))
    case FinInsert(lf, _, _) =>
      if sql.Success? && s.current.id !in IdSet(s.done) then
        Worked(s.(done := s.done + [ToRow(s.current)], worker := FinReset(lf, true), flight := NoFlight,
                  hist := s.hist.(entered := s.hist.entered + [s.current.id])))
      else Worked(GiveUp(s).(worker := FinFail(lf, true)))
  }

  /** mainLoop itself, one action. */
  function LoopStep(s: Shared, ok: bool): WorkerMove
    requires !InInit(s.worker) && !InFin(s.worker) && !InRecord(s.worker)
  {
    match s.worker
    case Absent => Stuck
    case TestStart => Worked(s.(worker := if s.start then InitLock else Leave))
    case Launch => Worked(s.(worker := if ok then Wait else FinFirst(true)))
    case Wait => Worked(s.(worker := if ok then Wait else FinFirst(false)))
    case FinFlag => Worked(s.(start := false, worker := TestStart))
    case Leave => Worked(s.(running := false, worker := Absent))
  }

  function AdvanceWorker(s: Shared, sql: Sql, ok: bool, code: int): WorkerMove {
    if InInit(s.worker) then InitStep(s, sql)
    else if InFin(s.worker) then FinStep(s)
    else if InRecord(s.worker) then Record(s, sql, ok, code)
    else LoopStep(s, ok)
  }

  /** Everything in memory is gone; the tables are as the last statement left
      them, and the database is opened again. */
  function Restart(s: Shared): Shared {
    var t := GiveUp(s);
    t.(current := IDLE, running := false, start := false, token := Free, cur := Free, worker := Absent,
       hist := t.hist.(taken := {}, burned := t.hist.burned + t.hist.taken))
  }

  function Next(s: State, a: Action): Option<State> {
    match a
    case Begin(c, call) =>
      if PcOf(s, c).Idle? then Some(s.(clients := s.clients[c := Entry(call)])) else None
    case Advance(c, sql) =>
      (match AdvanceClient(s.sh, c, PcOf(s, c), sql)
       case Blocked => None
       case Moved(sh, pc) => Some(State(sh, s.clients[c := pc])))
    case Work(sql, ok, code) =>
      (match AdvanceWorker(s.sh, sql, ok, code)
       case Stuck => None
       case Worked(sh) => Some(s.(sh := sh)))
    case PowerLoss => Some(State(Restart(s.sh), map[]))
  }

  /** The state that a sequence of actions leads to from s, if all are enabled. */
  function Exec(s: State, run: seq<Action>): Option<State> {
    if |run| == 0 then Some(s)
    else
      var before := Exec(s, run[..|run| - 1]);
      if before.None? then None else Next(before.value, run[|run| - 1])
  }

  /** The actions of run are enabled one after the other from s. */
  predicate IsRunFrom(s: State, run: seq<Action>) {
    Exec(s, run).Some?
  }

  lemma {:induction false} PrefixRuns(s: State, run: seq<Action>, i: nat)
    requires IsRunFrom(s, run) && i <= |run|
    ensures IsRunFrom(s, run[..i])
  {
    if i < |run| {
      var before := run[..|run| - 1];
      PrefixRuns(s, before, i);
      assert before[..i] == run[..i];
    } else {
      assert run[..i] == run;
    }
  }

  /** The state after the first i actions. */
  function StateAt(s: State, run: seq<Action>, i: nat): State
    requires IsRunFrom(s, run) && i <= |run|
  {
    PrefixRuns(s, run, i);
    Exec(s, run[..i]).value
  }

  lemma StateAfter(s: State, run: seq<Action>, i: nat)
    requires IsRunFrom(s, run) && i < |run|
    ensures Next(StateAt(s, run, i), run[i]) == Some(StateAt(s, run, i + 1))
  {
    PrefixRuns(s, run, i + 1);
    assert run[..i + 1][..i] == run[..i];
  }
}
