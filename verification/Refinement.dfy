/** Every run of the protocol simulates the atomic FIFO queue. */
module Refinement {
  import opened Tasks
  import opened FifoQueue
  import opened WorkerSpec
  import opened Protocol
  import opened ProtocolInvariant
  import opened ProtocolSteps

  /** The queue a state stands for.  A row deleted by mainLoopFin counts as
      pending until the insert, and a drawn id as unused until the insert. */
  function Abs(s: Shared): Queue {
    Queue((if s.worker.FinInsert? then s.worker.deleted else []) + s.pending,
          s.flight, s.done, Bound(s))
  }

  datatype Effect = Unserved(call: Call) | Served(call: Call, reply: Reply)

  /** The call a client is in, and its answer once the call has taken effect. */
  function EffectOf(pc: ClientPc): Effect
    requires !pc.Idle?
  {
    match pc
    case AwaitToken(call) => Unserved(call)
    case AwaitCurrent(call) => Unserved(call)
    case AddSelect(t) => Unserved(Add(t))
    case AddUpdate(t, _) => Unserved(Add(t))
    case AddInsert(t, _) => Unserved(Add(t))
    case RemoveCheck(id) => Unserved(Remove(id))
    case RemoveUnlock(id, refused) =>
      if refused then Served(Remove(id), Failed(INVALID_ARGUMENT)) else Unserved(Remove(id))
    case RemoveDelete(id) => Unserved(Remove(id))
    case ClearAll => Unserved(ClearPending)
    case ClearUnlock(reply) => Served(ClearPending, reply)
    case ClearDone => Unserved(ClearFinished)
    case Read(call) => Unserved(call)
    case Unlock(call, reply) => Served(call, reply)
    case CurrentLoad => Unserved(CurrentTask)
    case CurrentRead => Unserved(CurrentTask)
    case CurrentUnlock(reply) => Served(CurrentTask, reply)
    case StartLoad => Unserved(Start)
    case StartRunning => Unserved(Start)
    case StartFlag => Unserved(Start)
    case StartSpawn => Unserved(Start)
    case StopLoad => Unserved(Stop)
    case StopFlag => Unserved(Stop)
    case StopKill => Unserved(Stop)
    case StopClear => Unserved(Stop)
    case Return(call, reply) => Served(call, reply)
  }

  /** The call that takes effect when client c moves from pc to pc', if any. */
  function ClientEvent(c: nat, pc: ClientPc, pc': ClientPc): Event {
    if !pc.Idle? && !pc'.Idle? && EffectOf(pc).Unserved? && EffectOf(pc').Served?
    then Serve(c, EffectOf(pc').call, EffectOf(pc').reply)
    else Internal
  }

  /** The insert of mainLoopFin succeeds. */
  predicate Enters(s: Shared, sql: Sql) {
    sql.Success? && s.current.id !in IdSet(s.done)
  }

  function WorkerEvent(s: Shared, sql: Sql, ok: bool): Event {
    match s.worker
    case InitCopy(_) => Pick
    case FinExit(_) => if ok then Internal else Drop
    case FinDelete(_) => if sql.NoPrepare? then Drop else Internal
    case FinInsert(_, deleted, _) =>
      if Enters(s, sql) then
        if s.current.id in IdSet(s.pending) then Repeat(s.current.exitCode)
        else Finish(s.current.exitCode)
      else if deleted != [] then Lose
      else Drop
    case _ => Internal
  }

  function EventOf(s: State, a: Action): Event
    requires Next(s, a).Some?
  {
    match a
    case Begin(_, _) => Internal
    case Advance(c, sql) =>
      ClientEvent(c, PcOf(s, c), AdvanceClient(s.sh, c, PcOf(s, c), sql).pc)
    case Work(sql, ok, _) => WorkerEvent(s.sh, sql, ok)
    case PowerLoss => Crash
  }

  // ---- Clients -------------------------------------------------------------------

  /** While a client holds the token mutex, the tables are what they seem. */
  lemma NothingHidden(s: Shared, c: nat, pc: ClientPc)
    requires WorkerLocks(s) && ClientOk(s, c, pc) && AtStatement(pc)
    ensures !s.worker.FinInsert? && Abs(s) == Queue(s.pending, s.flight, s.done, Bound(s))
  {
    assert s.token == ByClient(c);
    assert [] + s.pending == s.pending;
  }

  lemma InsertServes(s: Shared, pc: ClientPc, sql: Sql)
    requires Tables(s) && !s.worker.FinInsert? && pc.AddInsert? && s.hist.taken == {pc.id}
    ensures var m := Statement(s, pc, sql);
      Serves(Abs(s), Add(pc.task), m.pc.reply, Abs(m.sh))
  {
    var m := Statement(s, pc, sql);
    assert forall p :: p in s.pending ==> p.id != pc.id;
    assert pc.id == s.lastID - 1;
    assert Abs(s) == Queue(s.pending, s.flight, s.done, pc.id) by { assert [] + s.pending == s.pending; }
    assert [] + m.sh.pending == m.sh.pending;
  }

  lemma DetailsLookUp(rows: seq<Row>, id: int)
    ensures Lookup(rows, id, Details(rows, id))
  {
    OnlyLooksUp(rows, id);
  }

  lemma ReadServes(s: Shared, call: Call, sql: Sql)
    requires !s.worker.FinInsert? && WellPlaced(Read(call))
    ensures Serves(Abs(s), call, if sql.Success? then ReadReply(s, call) else Failed(OS_ERROR), Abs(s))
  {
    assert [] + s.pending == s.pending;
    if call.PendingDetails? {
      DetailsLookUp(s.pending, call.id);
    } else if call.FinishedDetails? {
      DetailsLookUp(s.done, call.id);
    }
  }

  lemma DeleteServes(s: Shared, c: nat, pc: ClientPc, sql: Sql)
    requires !s.worker.FinInsert? && ClientOk(s, c, pc) && (pc.RemoveDelete? || pc.ClearAll? || pc.ClearDone?)
    ensures var m := Statement(s, pc, sql);
      Serves(Abs(s), EffectOf(pc).call, m.pc.reply, Abs(m.sh))
  {
    var m := Statement(s, pc, sql);
    assert [] + s.pending == s.pending && [] + m.sh.pending == m.sh.pending;
  }

  /** A statement answers the call it belongs to, unless it is one of the first
      two of addTask and succeeds. */
  lemma StatementAnswers(s: Shared, pc: ClientPc, sql: Sql)
    requires AtStatement(pc)
    ensures var pc' := Statement(s, pc, sql).pc;
      if (pc.AddSelect? || pc.AddUpdate?) && sql.Success? then
        !pc'.Idle? && EffectOf(pc') == EffectOf(pc)
      else
        (pc'.Unlock? || pc'.ClearUnlock?) && EffectOf(pc') == Served(EffectOf(pc).call, pc'.reply)
    ensures EffectOf(pc).Unserved?
  {
  }

  lemma StatementServes(s: Shared, c: nat, pc: ClientPc, sql: Sql)
    requires WorkerLocks(s) && Tables(s) && ClientOk(s, c, pc) && AtStatement(pc)
    ensures var m := Statement(s, pc, sql);
      if (pc.AddSelect? || pc.AddUpdate?) && sql.Success? then Abs(m.sh) == Abs(s)
      else (m.pc.Unlock? || m.pc.ClearUnlock?) && Serves(Abs(s), EffectOf(pc).call, m.pc.reply, Abs(m.sh))
  {
    NothingHidden(s, c, pc);
    StatementAnswers(s, pc, sql);
    if pc.AddInsert? {
      InsertServes(s, pc, sql);
    } else if pc.Read? {
      ReadServes(s, pc.call, sql);
    } else if pc.AddSelect? || pc.AddUpdate? {
      assert Abs(Statement(s, pc, sql).sh) == Abs(s);
    } else {
      DeleteServes(s, c, pc, sql);
    }
  }

  lemma StatementRefines(s: Shared, c: nat, pc: ClientPc, sql: Sql)
    requires WorkerLocks(s) && Tables(s) && ClientOk(s, c, pc) && AtStatement(pc)
    ensures var m := Statement(s, pc, sql); Step(Abs(s), ClientEvent(c, pc, m.pc), Abs(m.sh))
  {
    var m := Statement(s, pc, sql);
    StatementServes(s, c, pc, sql);
    StatementAnswers(s, pc, sql);
    if (pc.AddSelect? || pc.AddUpdate?) && sql.Success? {
      assert ClientEvent(c, pc, m.pc) == Internal;
    } else {
      assert ClientEvent(c, pc, m.pc) == Serve(c, EffectOf(pc).call, m.pc.reply);
    }
  }

  lemma ControlServes(s: Shared, c: nat, pc: ClientPc)
    requires WorkerLocks(s) && CurrentMatches(s) && ClientOk(s, c, pc)
    requires !AtStatement(pc) && !pc.Idle? && EffectOf(pc).Unserved? && Control(s, c, pc).Moved?
    ensures var pc' := Control(s, c, pc).pc;
      !pc'.Idle? && (EffectOf(pc').Served? ==> Serves(Abs(s), EffectOf(pc').call, EffectOf(pc').reply, Abs(s)))
  {
  }

  lemma ControlRefines(s: Shared, c: nat, pc: ClientPc)
    requires WorkerLocks(s) && CurrentMatches(s) && ClientOk(s, c, pc)
    requires !AtStatement(pc) && Control(s, c, pc).Moved?
    ensures var m := Control(s, c, pc); Step(Abs(s), ClientEvent(c, pc, m.pc), Abs(m.sh))
  {
    var m := Control(s, c, pc);
    ControlKeepsData(s, c, pc);
    assert Abs(m.sh) == Abs(s);
    if !pc.Idle? && EffectOf(pc).Unserved? {
      ControlServes(s, c, pc);
    }
  }

  // ---- The worker ------------------------------------------------------------------

  /** Once the row in flight is deleted, what is left is the queue without it. */
  lemma DeletedAside(deleted: seq<Row>, pending: seq<Row>, k: int)
    requires deleted == [] || (|deleted| == 1 && deleted[0].id == k)
    requires forall p :: p in pending ==> p.id != k
    ensures Without(deleted + pending, k) == pending
  {
    WithoutAbsent(pending, k);
    if deleted == [] {
      assert deleted + pending == pending;
    } else {
      assert (deleted + pending)[1..] == pending;
    }
  }

  lemma FlightIsInFront(s: Shared)
    requires Tables(s) && FlightOrder(s) && CurrentMatches(s) && s.flight.Flying?
    ensures s.current.id == s.flight.row.id
    ensures Only(s.pending, s.current.id) + Without(s.pending, s.current.id) == s.pending
  {
    assert s.current.id in FlightIds(s);
    FrontDeleted(s.pending, s.current.id);
  }

  lemma DeleteRefines(s: Shared, sql: Sql, ok: bool, code: int)
    requires s.worker.FinDelete?
    requires Only(s.pending, s.current.id) + Without(s.pending, s.current.id) == s.pending
    ensures var s' := Record(s, sql, ok, code).sh;
      Abs(s') == if sql.NoPrepare? then Abs(s).(flight := NoFlight) else Abs(s)
  {
  }

  lemma DeleteStep(s: Shared, sql: Sql, ok: bool, code: int)
    requires Tables(s) && FlightOrder(s) && CurrentMatches(s) && s.worker.FinDelete?
    ensures Step(Abs(s), WorkerEvent(s, sql, ok), Abs(Record(s, sql, ok, code).sh))
  {
    FlightIsInFront(s);
    DeleteRefines(s, sql, ok, code);
  }

  lemma RecordedRow(s: Shared)
    requires CurrentMatches(s) && s.worker.FinInsert?
    ensures s.flight.Flying? && s.current.id == s.flight.row.id
    ensures ToRow(s.current) == s.flight.row.(exitCode := s.current.exitCode)
  {
    RowSurvives(s.flight.row, s.current.exitCode);
  }

  lemma HiddenRow(s: Shared)
    requires WorkerSees(s) && s.worker.FinInsert? && s.flight.Flying?
    ensures var k, q := s.flight.row.id, Abs(s);
      && (s.worker.deleted == [] ==> q.pending == s.pending)
      && (k in IdSet(s.pending) ==> s.worker.deleted == [])
      && (k !in IdSet(s.pending) ==> Without(q.pending, k) == s.pending)
  {
    var k := s.flight.row.id;
    assert FlightIds(s) == {k};
    assert [] + s.pending == s.pending;
    if k !in IdSet(s.pending) {
      assert forall p :: p in s.pending ==> p.id != k;
      DeletedAside(s.worker.deleted, s.pending, k);
    }
  }

  lemma InsertRefines(s: Shared, sql: Sql, ok: bool, code: int)
    requires s.worker.FinInsert?
    ensures Abs(Record(s, sql, ok, code).sh) ==
      Queue(s.pending, NoFlight, if Enters(s, sql) then s.done + [ToRow(s.current)] else s.done, Bound(s))
  {
    assert [] + s.pending == s.pending;
  }

  /** The insert of mainLoopFin as an event of the atomic queue: pending are the
      rows left in the table, gone says whether the row was deleted from it. */
  lemma RecordedShows(q: Queue, e: Event, q': Queue, pending: seq<Row>, row: Row, code: int)
    requires q.flight == Flying(row) && row.id !in IdSet(q.done)
    requires if row.id in IdSet(pending) then q.pending == pending else Without(q.pending, row.id) == pending
    requires q' == Queue(pending, NoFlight, q.done + [row.(exitCode := code)], q.next)
    requires e == if row.id in IdSet(pending) then Repeat(code) else Finish(code)
    ensures Step(q, e, q')
  {
  }

  lemma UnrecordedShows(q: Queue, e: Event, q': Queue, pending: seq<Row>, row: Row, gone: bool)
    requires q.flight == Flying(row) && q' == Queue(pending, NoFlight, q.done, q.next)
    requires if gone then Without(q.pending, row.id) == pending else q.pending == pending
    requires e == if gone then Lose else Drop
    ensures Step(q, e, q')
  {
  }

  /** Which event the insert is. */
  lemma InsertEvent(s: Shared, sql: Sql, ok: bool)
    requires s.worker.FinInsert?
    ensures WorkerEvent(s, sql, ok) ==
      if Enters(s, sql) then
        if s.current.id in IdSet(s.pending) then Repeat(s.current.exitCode) else Finish(s.current.exitCode)
      else if s.worker.deleted != [] then Lose else Drop
  {
  }

  lemma InsertShows(s: Shared, e: Event, q': Queue, sql: Sql)
    requires s.worker.FinInsert? && s.flight.Flying? && s.current.id == s.flight.row.id
    requires var k, q := s.current.id, Abs(s);
      && (s.worker.deleted == [] ==> q.pending == s.pending)
      && (k in IdSet(s.pending) ==> s.worker.deleted == [])
      && (k !in IdSet(s.pending) ==> Without(q.pending, k) == s.pending)
    requires ToRow(s.current) == s.flight.row.(exitCode := s.current.exitCode)
    requires q' == Queue(s.pending, NoFlight,
                         if Enters(s, sql) then s.done + [ToRow(s.current)] else s.done, Bound(s))
    requires e == if Enters(s, sql) then
        if s.current.id in IdSet(s.pending) then Repeat(s.current.exitCode) else Finish(s.current.exitCode)
      else if s.worker.deleted != [] then Lose else Drop
    ensures Step(Abs(s), e, q')
  {
    if Enters(s, sql) {
      RecordedShows(Abs(s), e, q', s.pending, s.flight.row, s.current.exitCode);
    } else {
      UnrecordedShows(Abs(s), e, q', s.pending, s.flight.row, s.worker.deleted != []);
    }
  }

  lemma InsertStep(s: Shared, sql: Sql, ok: bool, code: int)
    requires CurrentMatches(s) && WorkerSees(s) && s.worker.FinInsert?
    ensures Step(Abs(s), WorkerEvent(s, sql, ok), Abs(Record(s, sql, ok, code).sh))
  {
    RecordedRow(s);
    HiddenRow(s);
    InsertEvent(s, sql, ok);
    InsertRefines(s, sql, ok, code);
    InsertShows(s, WorkerEvent(s, sql, ok), Abs(Record(s, sql, ok, code).sh), sql);
  }

  lemma ExitStep(s: Shared, sql: Sql, ok: bool, code: int)
    requires CurrentMatches(s) && s.worker.FinExit?
    ensures Step(Abs(s), WorkerEvent(s, sql, ok), Abs(Record(s, sql, ok, code).sh))
  {
    assert Abs(Record(s, sql, ok, code).sh) == if ok then Abs(s) else Abs(s).(flight := NoFlight);
  }

  lemma PickShows(s: Shared, s': Shared)
    requires CurrentMatches(s) && WorkerSees(s) && s.worker.InitCopy? && !s'.worker.FinInsert?
    requires s' == s.(flight := Flying(s.worker.row), current := s'.current, worker := s'.worker)
    ensures Step(Abs(s), Pick, Abs(s'))
  {
    assert [] + s.pending == s.pending;
  }

  /** Outside Record nothing but picking shows. */
  lemma PlainStep(s: Shared, sql: Sql, ok: bool, code: int)
    requires CurrentMatches(s) && WorkerSees(s)
    requires !InRecord(s.worker) && AdvanceWorker(s, sql, ok, code).Worked?
    ensures Step(Abs(s), WorkerEvent(s, sql, ok), Abs(AdvanceWorker(s, sql, ok, code).sh))
  {
    var s' := AdvanceWorker(s, sql, ok, code).sh;
    WorkTouches(s, sql, ok, code);
    if s.worker.InitCopy? {
      PickShows(s, s');
    } else {
      assert Abs(s') == Abs(s);
      assert WorkerEvent(s, sql, ok) == Internal;
    }
  }

  lemma WorkerRefines(s: Shared, sql: Sql, ok: bool, code: int)
    requires Tables(s) && FlightOrder(s) && CurrentMatches(s) && WorkerSees(s)
    requires AdvanceWorker(s, sql, ok, code).Worked?
    ensures Step(Abs(s), WorkerEvent(s, sql, ok), Abs(AdvanceWorker(s, sql, ok, code).sh))
  {
    if InRecord(s.worker) {
      assert AdvanceWorker(s, sql, ok, code) == Record(s, sql, ok, code);
      if s.worker.FinDelete? {
        DeleteStep(s, sql, ok, code);
      } else if s.worker.FinInsert? {
        InsertStep(s, sql, ok, code);
      } else {
        ExitStep(s, sql, ok, code);
      }
    } else {
      PlainStep(s, sql, ok, code);
    }
  }

  lemma RestartShows(s: Shared)
    ensures Abs(Restart(s)) == Queue(s.pending, NoFlight, s.done, s.lastID)
  {
    assert [] + s.pending == s.pending;
  }

  /** Between the delete and the insert nobody has drawn an id, as the worker
      holds the token. */
  lemma CrashInFinish(s: Shared)
    requires WorkerLocks(s) && CurrentMatches(s) && WorkerSees(s)
    requires s.worker.FinInsert? && !s.worker.kept
    ensures Abs(s).flight.Flying? && Without(Abs(s).pending, Abs(s).flight.row.id) == s.pending
    ensures Bound(s) == s.lastID
  {
    assert s.flight.row.id in FlightIds(s);
    DeletedAside(s.worker.deleted, s.pending, s.flight.row.id);
  }

  lemma CrashElsewhere(s: Shared)
    requires WorkerSees(s) && !(s.worker.FinInsert? && !s.worker.kept)
    ensures Abs(s).pending == s.pending
  {
    assert [] + s.pending == s.pending;
  }

  lemma CrashRefines(s: Shared)
    requires WorkerLocks(s) && CurrentMatches(s) && WorkerSees(s)
    ensures Step(Abs(s), Crash, Abs(Restart(s)))
  {
    RestartShows(s);
    if s.worker.FinInsert? && !s.worker.kept {
      CrashInFinish(s);
    } else {
      CrashElsewhere(s);
    }
  }

  // ---- Whole runs --------------------------------------------------------------------

  lemma StepRefines(s: State, a: Action)
    requires Inv(s) && Next(s, a).Some?
    ensures Step(Abs(s.sh), EventOf(s, a), Abs(Next(s, a).value.sh))
  {
    match a
    case Begin(_, _) =>
    case Advance(c, sql) =>
      assert ClientOk(s.sh, c, PcOf(s, c));
      if AtStatement(PcOf(s, c)) {
        StatementRefines(s.sh, c, PcOf(s, c), sql);
      } else {
        ControlRefines(s.sh, c, PcOf(s, c));
      }
    case Work(sql, ok, code) => WorkerRefines(s.sh, sql, ok, code);
    case PowerLoss => CrashRefines(s.sh);
  }

  function QueueAt(s: State, run: seq<Action>, i: nat): Queue
    requires IsRunFrom(s, run) && i <= |run|
  {
    Abs(StateAt(s, run, i).sh)
  }

  function EventAt(s: State, run: seq<Action>, i: nat): Event
    requires IsRunFrom(s, run) && i < |run|
  {
    StateAfter(s, run, i);
    EventOf(StateAt(s, run, i), run[i])
  }

  /** The queues that the states of a run stand for form a run of the atomic
      queue, one event per action, from the empty queue. */
  lemma RunRefines(tokenFirst: bool, run: seq<Action>)
    requires IsRunFrom(Init(tokenFirst), run)
    ensures var s := Init(tokenFirst);
      && QueueAt(s, run, 0) == Queue([], NoFlight, [], 0)
      && IsRun(seq(|run| + 1, i requires 0 <= i <= |run| => QueueAt(s, run, i)),
               seq(|run|, i requires 0 <= i < |run| => EventAt(s, run, i)))
  {
    var s := Init(tokenFirst);
    assert StateAt(s, run, 0) == s;
    forall i: nat | i < |run| ensures Step(QueueAt(s, run, i), EventAt(s, run, i), QueueAt(s, run, i + 1)) {
      InvAt(tokenFirst, run, i);
      StateAfter(s, run, i);
      StepRefines(StateAt(s, run, i), run[i]);
    }
  }

  /** What happens to one call in one step: it begins, it takes effect with an
      answer, it returns that answer, or nothing happens to it. */
  ghost predicate CallMoves(c: nat, pc: ClientPc, a: Action, e: Event, pc': ClientPc) {
    if pc.Idle? then
      && (pc' == pc || (a.Begin? && a.c == c && !pc'.Idle? && EffectOf(pc') == Unserved(a.call)))
      && (e.Serve? ==> e.c != c)
    else if EffectOf(pc).Unserved? then
      && !pc'.Idle? && EffectOf(pc').call == EffectOf(pc).call
      && (if EffectOf(pc').Served? then e == Serve(c, EffectOf(pc').call, EffectOf(pc').reply)
          else e.Serve? ==> e.c != c)
    else
      && (e.Serve? ==> e.c != c)
      && (if pc'.Idle? then pc == Return(EffectOf(pc).call, EffectOf(pc).reply)
          else EffectOf(pc') == EffectOf(pc))
  }

  lemma ControlAnswers(s: Shared, c: nat, pc: ClientPc)
    requires !AtStatement(pc) && WellPlaced(pc) && !pc.Idle? && Control(s, c, pc).Moved?
    ensures var pc' := Control(s, c, pc).pc;
      && (EffectOf(pc).Unserved? ==> !pc'.Idle? && EffectOf(pc').call == EffectOf(pc).call)
      && (EffectOf(pc).Served? ==> if pc.Return? then pc'.Idle? else !pc'.Idle? && EffectOf(pc') == EffectOf(pc))
  {
  }

  lemma OwnMove(s: Shared, c: nat, pc: ClientPc, sql: Sql)
    requires WellPlaced(pc) && AdvanceClient(s, c, pc, sql).Moved?
    ensures var pc' := AdvanceClient(s, c, pc, sql).pc;
      CallMoves(c, pc, Advance(c, sql), ClientEvent(c, pc, pc'), pc')
  {
    if AtStatement(pc) {
      StatementAnswers(s, pc, sql);
    } else {
      ControlAnswers(s, c, pc);
    }
  }

  /** A call takes effect exactly once between its begin and its return, and
      what it returns is the answer it took effect with. */
  lemma OneEffectPerCall(s: State, c: nat, a: Action)
    requires Inv(s) && Next(s, a).Some? && !a.PowerLoss?
    ensures CallMoves(c, PcOf(s, c), a, EventOf(s, a), PcOf(Next(s, a).value, c))
  {
    var pc := PcOf(s, c);
    assert ClientOk(s.sh, c, pc);
    if a.Advance? && a.c == c {
      OwnMove(s.sh, c, pc, a.sql);
    } else if a.Work? {
      WorkerServesNobody(s.sh, a.sql, a.ok);
    }
  }

  lemma WorkerServesNobody(s: Shared, sql: Sql, ok: bool)
    ensures !WorkerEvent(s, sql, ok).Serve?
  {
  }

  function Outstanding(pc: ClientPc): seq<Effect> {
    if !pc.Idle? && EffectOf(pc).Served? then [EffectOf(pc)] else []
  }

  function ServedBy(e: Event, c: nat): seq<Effect> {
    if e.Serve? && e.c == c then [Served(e.call, e.reply)] else []
  }

  function EndedBy(pc: ClientPc, pc': ClientPc): seq<Effect> {
    if !pc.Idle? && pc'.Idle? then Outstanding(pc) else []
  }

  /** The effects client c had in a run, in order. */
  function ServedTo(s: State, run: seq<Action>, c: nat): seq<Effect>
    requires IsRunFrom(s, run)
    decreases |run|
  {
    if |run| == 0 then []
    else
      var n := |run| - 1;
      PrefixRuns(s, run, n);
      ServedTo(s, run[..n], c) + ServedBy(EventOf(Exec(s, run[..n]).value, run[n]), c)
  }

  /** The calls of client c that ended after they took effect: by returning
      their answer, or in a crash. */
  function EndedFor(s: State, run: seq<Action>, c: nat): seq<Effect>
    requires IsRunFrom(s, run)
    decreases |run|
  {
    if |run| == 0 then []
    else
      var n := |run| - 1;
      PrefixRuns(s, run, n);
      EndedFor(s, run[..n], c)
      + EndedBy(PcOf(Exec(s, run[..n]).value, c), PcOf(Exec(s, run).value, c))
  }

  /** Every effect of a client is listed. */
  lemma ServedIsListed(s: State, run: seq<Action>, c: nat, i: nat, call: Call, reply: Reply)
    requires IsRunFrom(s, run) && i < |run| && EventAt(s, run, i) == Serve(c, call, reply)
    ensures Served(call, reply) in ServedTo(s, run, c)
  {
    PrefixRuns(s, run, i + 1);
    var upto := run[..i + 1];
    assert upto[..i] == run[..i] && upto[i] == run[i];
    LastServed(s, upto, c, call, reply);
    ServedGrows(s, run, c, i + 1, Served(call, reply));
  }

  lemma LastServed(s: State, run: seq<Action>, c: nat, call: Call, reply: Reply)
    requires IsRunFrom(s, run) && |run| > 0 && EventAt(s, run, |run| - 1) == Serve(c, call, reply)
    ensures Served(call, reply) in ServedTo(s, run, c)
  {
    ServedMore(s, run, c);
    assert ServedBy(EventAt(s, run, |run| - 1), c) == [Served(call, reply)];
  }

  lemma ServedMore(s: State, run: seq<Action>, c: nat)
    requires IsRunFrom(s, run) && |run| > 0
    ensures var n := |run| - 1;
      IsRunFrom(s, run[..n])
      && ServedTo(s, run, c) == ServedTo(s, run[..n], c) + ServedBy(EventAt(s, run, n), c)
  {
    PrefixRuns(s, run, |run| - 1);
  }

  lemma {:induction false} ServedGrows(s: State, run: seq<Action>, c: nat, k: nat, e: Effect)
    requires IsRunFrom(s, run) && k <= |run| && IsRunFrom(s, run[..k]) && e in ServedTo(s, run[..k], c)
    ensures e in ServedTo(s, run, c)
    decreases |run|
  {
    if k == |run| {
      assert run[..k] == run;
    } else {
      ServedMore(s, run, c);
      assert run[..|run| - 1][..k] == run[..k];
      ServedGrows(s, run[..|run| - 1], c, k, e);
    }
  }

  /** Every answer returned is listed. */
  lemma ReturnIsListed(s: State, run: seq<Action>, c: nat, i: nat, call: Call, reply: Reply)
    requires IsRunFrom(s, run) && i < |run|
    requires PcOf(StateAt(s, run, i), c) == Return(call, reply) && PcOf(StateAt(s, run, i + 1), c).Idle?
    ensures Served(call, reply) in EndedFor(s, run, c)
  {
    PrefixRuns(s, run, i + 1);
    var upto := run[..i + 1];
    assert upto[..i] == run[..i] && upto[..i + 1] == upto;
    LastReturn(s, upto, c, call, reply);
    EndedGrows(s, run, c, i + 1, Served(call, reply));
  }

  lemma {:induction false} EndedGrows(s: State, run: seq<Action>, c: nat, k: nat, e: Effect)
    requires IsRunFrom(s, run) && k <= |run| && IsRunFrom(s, run[..k]) && e in EndedFor(s, run[..k], c)
    ensures e in EndedFor(s, run, c)
    decreases |run|
  {
    if k == |run| {
      assert run[..k] == run;
    } else {
      EndedMore(s, run, c);
      assert run[..|run| - 1][..k] == run[..k];
      EndedGrows(s, run[..|run| - 1], c, k, e);
    }
  }

  lemma LastReturn(s: State, run: seq<Action>, c: nat, call: Call, reply: Reply)
    requires IsRunFrom(s, run) && |run| > 0
    requires PcOf(StateAt(s, run, |run| - 1), c) == Return(call, reply) && PcOf(StateAt(s, run, |run|), c).Idle?
    ensures Served(call, reply) in EndedFor(s, run, c)
  {
    EndedMore(s, run, c);
    ReturnEnds(call, reply, PcOf(StateAt(s, run, |run|), c));
  }

  lemma ReturnEnds(call: Call, reply: Reply, pc': ClientPc)
    requires pc'.Idle?
    ensures EndedBy(Return(call, reply), pc') == [Served(call, reply)]
  {
  }

  lemma EndedMore(s: State, run: seq<Action>, c: nat)
    requires IsRunFrom(s, run) && |run| > 0
    ensures var n := |run| - 1;
      IsRunFrom(s, run[..n])
      && EndedFor(s, run, c)
         == EndedFor(s, run[..n], c) + EndedBy(PcOf(StateAt(s, run, n), c), PcOf(StateAt(s, run, n + 1), c))
  {
    PrefixRuns(s, run, |run| - 1);
    assert run[..|run|] == run;
  }

  /** Over a whole run a client is told, call by call and in order, exactly the
      answers with which its calls took effect on the atomic queue. */
  lemma {:induction false} AnswersAreEffects(tokenFirst: bool, run: seq<Action>, c: nat)
    requires IsRunFrom(Init(tokenFirst), run)
    ensures var s := Init(tokenFirst);
      ServedTo(s, run, c) == EndedFor(s, run, c) + Outstanding(PcOf(Exec(s, run).value, c))
  {
    var s0 := Init(tokenFirst);
    if |run| > 0 {
      var n := |run| - 1;
      PrefixRuns(s0, run, n);
      var s, s' := Exec(s0, run[..n]).value, Exec(s0, run).value;
      AnswersAreEffects(tokenFirst, run[..n], c);
      ReachableInv(tokenFirst, run[..n]);
      AnswerStep(s, c, run[n], s');
      Regroup(EndedFor(s0, run[..n], c), Outstanding(PcOf(s, c)), ServedBy(EventOf(s, run[n]), c),
              EndedBy(PcOf(s, c), PcOf(s', c)), Outstanding(PcOf(s', c)));
    }
  }

  lemma Regroup(a: seq<Effect>, b: seq<Effect>, c: seq<Effect>, d: seq<Effect>, e: seq<Effect>)
    requires b + c == d + e
    ensures (a + b) + c == (a + d) + e
  {
    assert (a + b) + c == a + (b + c) && (a + d) + e == a + (d + e);
  }

  lemma AnswerStep(s: State, c: nat, a: Action, s': State)
    requires Inv(s) && Next(s, a) == Some(s')
    ensures Outstanding(PcOf(s, c)) + ServedBy(EventOf(s, a), c)
            == EndedBy(PcOf(s, c), PcOf(s', c)) + Outstanding(PcOf(s', c))
  {
    if !a.PowerLoss? {
      OneEffectPerCall(s, c, a);
    }
  }
}
