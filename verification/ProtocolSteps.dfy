/** Every action of the protocol preserves the invariant. */
module ProtocolSteps {
  import opened Tasks
  import opened FifoQueue
  import opened WorkerSpec
  import opened Protocol
  import opened ProtocolInvariant
  import opened ProtocolData

  // ---- What a step leaves alone: the other threads ---------------------------

  lemma ClientKeepsOthers(s: Shared, c: nat, pc: ClientPc, sql: Sql, d: nat, other: ClientPc)
    requires c != d && ClientOk(s, c, pc) && ClientOk(s, d, other)
    requires AdvanceClient(s, c, pc, sql).Moved?
    ensures ClientOk(AdvanceClient(s, c, pc, sql).sh, d, other)
  {
  }

  lemma InitKeepsClients(s: Shared, sql: Sql, d: nat, other: ClientPc)
    requires WorkerLocks(s) && ClientOk(s, d, other)
    requires InInit(s.worker) && InitStep(s, sql).Worked?
    ensures ClientOk(InitStep(s, sql).sh, d, other)
  {
  }

  lemma FinKeepsClients(s: Shared, d: nat, other: ClientPc)
    requires WorkerLocks(s) && ClientOk(s, d, other)
    requires InFin(s.worker) && FinStep(s).Worked?
    ensures ClientOk(FinStep(s).sh, d, other)
  {
  }

  lemma RecordTouches(s: Shared, sql: Sql, ok: bool, code: int)
    requires InRecord(s.worker)
    ensures var m := Record(s, sql, ok, code); var s' := m.sh;
      && m.Worked? && s'.token == s.token && s'.cur == s.cur && s'.lastID == s.lastID
      && s'.hist.taken == s.hist.taken && s'.tokenFirst == s.tokenFirst
      && (s'.flight == s.flight || s'.flight.NoFlight?)
  {
  }

  lemma RecordKeepsClients(s: Shared, sql: Sql, ok: bool, code: int, d: nat, other: ClientPc)
    requires ClientOk(s, d, other) && InRecord(s.worker)
    ensures ClientOk(Record(s, sql, ok, code).sh, d, other)
  {
    RecordTouches(s, sql, ok, code);
    assert FlightIds(Record(s, sql, ok, code).sh) <= FlightIds(s);
  }

  lemma LoopKeepsClients(s: Shared, ok: bool, d: nat, other: ClientPc)
    requires WorkerLocks(s) && ClientOk(s, d, other)
    requires !InInit(s.worker) && !InFin(s.worker) && !InRecord(s.worker) && LoopStep(s, ok).Worked?
    ensures ClientOk(LoopStep(s, ok).sh, d, other)
  {
  }

  // ---- Mutexes and the current task --------------------------------------------

  lemma StatementKeepsItself(s: Shared, c: nat, pc: ClientPc, sql: Sql)
    requires ClientOk(s, c, pc) && AtStatement(pc)
    ensures var m := Statement(s, pc, sql); m.Moved? && ClientOk(m.sh, c, m.pc)
  {
  }

  lemma ControlKeepsItself(s: Shared, c: nat, pc: ClientPc)
    requires WorkerLocks(s) && CurrentMatches(s) && ClientOk(s, c, pc)
    requires !AtStatement(pc) && Control(s, c, pc).Moved?
    ensures var m := Control(s, c, pc); ClientOk(m.sh, c, m.pc)
  {
  }

  lemma ClientKeepsLocks(s: Shared, c: nat, pc: ClientPc, sql: Sql)
    requires WorkerLocks(s) && ClientOk(s, c, pc) && AdvanceClient(s, c, pc, sql).Moved?
    ensures WorkerLocks(AdvanceClient(s, c, pc, sql).sh)
  {
  }

  ghost predicate Untouched(s: Shared, s': Shared) {
    && s'.current == s.current && s'.flight == s.flight && s'.tokenFirst == s.tokenFirst
    && (s'.worker == s.worker || (s.worker == Absent && s'.worker == TestStart))
  }

  lemma StatementTouches(s: Shared, pc: ClientPc, sql: Sql)
    requires AtStatement(pc)
    ensures Untouched(s, Statement(s, pc, sql).sh)
  {
  }

  lemma ControlTouches(s: Shared, c: nat, pc: ClientPc)
    requires !AtStatement(pc) && Control(s, c, pc).Moved?
    ensures Untouched(s, Control(s, c, pc).sh) && SameData(s, Control(s, c, pc).sh)
  {
  }

  /** A client touches neither the current task nor a worker that runs. */
  lemma ClientTouches(s: Shared, c: nat, pc: ClientPc, sql: Sql)
    requires AdvanceClient(s, c, pc, sql).Moved?
    ensures Untouched(s, AdvanceClient(s, c, pc, sql).sh)
    ensures !AtStatement(pc) ==> SameData(s, AdvanceClient(s, c, pc, sql).sh)
  {
    if AtStatement(pc) {
      StatementTouches(s, pc, sql);
    } else {
      ControlTouches(s, c, pc);
    }
  }

  lemma UntouchedMatches(s: Shared, s': Shared)
    requires CurrentMatches(s) && Untouched(s, s')
    ensures CurrentMatches(s')
  {
  }

  lemma ClientKeepsCurrent(s: Shared, c: nat, pc: ClientPc, sql: Sql)
    requires CurrentMatches(s) && AdvanceClient(s, c, pc, sql).Moved?
    ensures CurrentMatches(AdvanceClient(s, c, pc, sql).sh)
  {
    ClientTouches(s, c, pc, sql);
    UntouchedMatches(s, AdvanceClient(s, c, pc, sql).sh);
  }

  lemma InitKeepsLocks(s: Shared, sql: Sql)
    requires WorkerLocks(s) && InInit(s.worker) && InitStep(s, sql).Worked?
    ensures WorkerLocks(InitStep(s, sql).sh)
  {
  }

  lemma InitKeepsCurrent(s: Shared, sql: Sql)
    requires CurrentMatches(s) && InInit(s.worker) && InitStep(s, sql).Worked?
    ensures CurrentMatches(InitStep(s, sql).sh)
  {
  }

  lemma FinKeepsLocks(s: Shared)
    requires WorkerLocks(s) && InFin(s.worker) && FinStep(s).Worked?
    ensures WorkerLocks(FinStep(s).sh)
  {
  }

  lemma FinKeepsCurrent(s: Shared)
    requires CurrentMatches(s) && InFin(s.worker) && FinStep(s).Worked?
    ensures CurrentMatches(FinStep(s).sh)
  {
  }

  lemma RecordKeepsLocks(s: Shared, sql: Sql, ok: bool, code: int)
    requires WorkerLocks(s) && InRecord(s.worker) && Record(s, sql, ok, code).Worked?
    ensures WorkerLocks(Record(s, sql, ok, code).sh)
  {
  }

  lemma RecordKeepsCurrent(s: Shared, sql: Sql, ok: bool, code: int)
    requires CurrentMatches(s) && InRecord(s.worker) && Record(s, sql, ok, code).Worked?
    ensures CurrentMatches(Record(s, sql, ok, code).sh)
  {
  }

  lemma LoopKeepsLocks(s: Shared, ok: bool)
    requires WorkerLocks(s) && !InInit(s.worker) && !InFin(s.worker) && !InRecord(s.worker) && LoopStep(s, ok).Worked?
    ensures WorkerLocks(LoopStep(s, ok).sh)
  {
  }

  lemma LoopKeepsCurrent(s: Shared, ok: bool)
    requires CurrentMatches(s) && !InInit(s.worker) && !InFin(s.worker) && !InRecord(s.worker)
    requires LoopStep(s, ok).Worked?
    ensures CurrentMatches(LoopStep(s, ok).sh)
  {
  }

  // ---- The tables ----------------------------------------------------------------

  lemma StatementKeepsData(s: Shared, c: nat, pc: ClientPc, sql: Sql)
    requires DataOk(s) && ClientOk(s, c, pc) && AtStatement(pc)
    ensures DataOk(Statement(s, pc, sql).sh)
  {
    var s' := Statement(s, pc, sql).sh;
    match pc
    case AddUpdate(_, _) =>
      if sql.Success? {
        TakeOrder(s, s');
        TakeLedger(s, s');
      }
    case AddInsert(t, id) =>
      if sql.Success? && id !in IdSet(s.pending) {
        InsertOrder(s, s', ToRow(t.(id := id)));
        InsertLedger(s, s', ToRow(t.(id := id)));
      } else {
        BurnOrder(s, s');
        BurnLedger(s, s');
      }
    case RemoveDelete(id) =>
      if sql.Success? {
        RemoveOrder(s, s', id);
        RemoveLedger(s, s', id);
      }
    case ClearAll =>
      if sql.Success? {
        ClearPendingOrder(s, s');
        ClearPendingLedger(s, s');
      }
    case ClearDone =>
      if sql.Success? {
        ClearFinishedOrder(s, s');
        ClearFinishedLedger(s, s');
      }
    case _ =>
  }

  lemma ControlKeepsData(s: Shared, c: nat, pc: ClientPc)
    requires !AtStatement(pc) && Control(s, c, pc).Moved?
    ensures SameData(s, Control(s, c, pc).sh)
  {
  }

  lemma InitKeepsData(s: Shared, sql: Sql)
    requires DataOk(s) && CurrentMatches(s) && WorkerSees(s)
    requires InInit(s.worker) && InitStep(s, sql).Worked?
    ensures DataOk(InitStep(s, sql).sh)
  {
    var s' := InitStep(s, sql).sh;
    InitTouches(s, sql);
    if s.worker.InitCopy? {
      PickOrder(s, s');
      PickLedger(s, s');
    } else {
      SameDataOk(s, s');
    }
  }

  lemma InitTouches(s: Shared, sql: Sql)
    requires InInit(s.worker) && InitStep(s, sql).Worked?
    ensures var s' := InitStep(s, sql).sh;
      if s.worker.InitCopy?
      then s' == s.(flight := Flying(s.worker.row), current := s'.current, worker := s'.worker)
      else SameData(s, s')
    ensures !InitStep(s, sql).sh.worker.FinInsert?
  {
  }

  lemma FinKeepsData(s: Shared)
    requires InFin(s.worker) && FinStep(s).Worked?
    ensures SameData(s, FinStep(s).sh) && !FinStep(s).sh.worker.FinInsert?
  {
  }

  lemma LoopKeepsData(s: Shared, ok: bool)
    requires !InInit(s.worker) && !InFin(s.worker) && !InRecord(s.worker) && LoopStep(s, ok).Worked?
    ensures SameData(s, LoopStep(s, ok).sh) && !LoopStep(s, ok).sh.worker.FinInsert?
  {
  }

  lemma DeleteKeepsData(s: Shared, sql: Sql, ok: bool, code: int)
    requires DataOk(s) && CurrentMatches(s) && s.worker.FinDelete? && sql.Success?
    ensures DataOk(Record(s, sql, ok, code).sh)
  {
    var s' := Record(s, sql, ok, code).sh;
    assert FlightIds(s) == {s.current.id};
    DeleteOrder(s, s', s.current.id);
    DeleteLedger(s, s', s.current.id);
  }

  lemma InsertKeepsData(s: Shared, sql: Sql, ok: bool, code: int)
    requires DataOk(s) && CurrentMatches(s) && s.worker.FinInsert?
    requires sql.Success? && s.current.id !in IdSet(s.done)
    ensures DataOk(Record(s, sql, ok, code).sh)
  {
    var s' := Record(s, sql, ok, code).sh;
    var r := ToRow(s.current);
    assert FlightIds(s) == {r.id};
    FinishTables(s, s', r);
    FinishEntered(s, s', r);
    FinishLedger(s, s', r);
  }

  /** Where nothing is deleted or inserted the data stay or the flight is given up. */
  lemma RecordElse(s: Shared, sql: Sql, ok: bool, code: int)
    requires InRecord(s.worker) && !(s.worker.FinDelete? && sql.Success?)
    requires !(s.worker.FinInsert? && sql.Success? && s.current.id !in IdSet(s.done))
    ensures var s' := Record(s, sql, ok, code).sh;
      SameData(s, s') || s' == GiveUp(s).(worker := s'.worker)
  {
  }

  lemma GiveUpKeepsData(s: Shared, s': Shared)
    requires DataOk(s) && s' == GiveUp(s).(worker := s'.worker)
    ensures DataOk(s')
  {
    GiveUpOrder(s, GiveUp(s));
    GiveUpLedger(s, GiveUp(s));
    SameDataOk(GiveUp(s), s');
  }

  lemma RecordKeepsData(s: Shared, sql: Sql, ok: bool, code: int)
    requires DataOk(s) && CurrentMatches(s) && InRecord(s.worker)
    ensures var m := Record(s, sql, ok, code); m.Worked? && DataOk(m.sh)
  {
    var s' := Record(s, sql, ok, code).sh;
    if s.worker.FinDelete? && sql.Success? {
      DeleteKeepsData(s, sql, ok, code);
    } else if s.worker.FinInsert? && sql.Success? && s.current.id !in IdSet(s.done) {
      InsertKeepsData(s, sql, ok, code);
    } else {
      RecordElse(s, sql, ok, code);
      if SameData(s, s') {
        SameDataOk(s, s');
      } else {
        GiveUpKeepsData(s, s');
      }
    }
  }

  /** Outside Record the worker changes none of the data but the flight, by picking. */
  lemma WorkTouches(s: Shared, sql: Sql, ok: bool, code: int)
    requires !InRecord(s.worker) && AdvanceWorker(s, sql, ok, code).Worked?
    ensures var s' := AdvanceWorker(s, sql, ok, code).sh;
      if s.worker.InitCopy?
      then s' == s.(flight := Flying(s.worker.row), current := s'.current, worker := s'.worker)
      else SameData(s, s')
    ensures !AdvanceWorker(s, sql, ok, code).sh.worker.FinInsert?
  {
    if InInit(s.worker) {
      InitTouches(s, sql);
    } else if InFin(s.worker) {
      FinKeepsData(s);
    } else {
      LoopKeepsData(s, ok);
    }
  }

  // ---- What the worker has seen ------------------------------------------------------

  lemma ClientKeepsSeen(s: Shared, c: nat, pc: ClientPc, sql: Sql)
    requires WorkerLocks(s) && WorkerSees(s) && ClientOk(s, c, pc)
    requires AdvanceClient(s, c, pc, sql).Moved?
    ensures WorkerSees(AdvanceClient(s, c, pc, sql).sh)
  {
    var s' := AdvanceClient(s, c, pc, sql).sh;
    ClientTouches(s, c, pc, sql);
    assert FlightIds(s') == FlightIds(s);
    if AtStatement(pc) {
      assert s.token == ByClient(c);
    } else {
      assert s'.pending == s.pending;
    }
  }

  lemma InitKeepsSeen(s: Shared, sql: Sql)
    requires WorkerSees(s) && InInit(s.worker) && InitStep(s, sql).Worked?
    ensures WorkerSees(InitStep(s, sql).sh)
  {
  }

  lemma FinKeepsSeen(s: Shared)
    requires WorkerSees(s) && InFin(s.worker) && FinStep(s).Worked?
    ensures WorkerSees(FinStep(s).sh)
  {
  }

  lemma LoopKeepsSeen(s: Shared, ok: bool)
    requires !InInit(s.worker) && !InFin(s.worker) && !InRecord(s.worker) && LoopStep(s, ok).Worked?
    ensures WorkerSees(LoopStep(s, ok).sh)
  {
  }

  lemma RecordKeepsSeen(s: Shared, sql: Sql, ok: bool, code: int)
    requires Ordered(s) && CurrentMatches(s) && InRecord(s.worker)
    ensures WorkerSees(Record(s, sql, ok, code).sh)
  {
    if s.worker.FinDelete? && sql.Success? {
      assert FlightIds(s) == {s.current.id};
      OnlyFront(s.pending, s.current.id);
    }
  }

  /** Deleting an id that is no newer than any leaves newer ones only. */
  lemma OnlyFront(rows: seq<Row>, id: int)
    requires Increasing(rows) && forall p :: p in rows ==> id <= p.id
    ensures forall p :: p in Without(rows, id) ==> id < p.id
    ensures Only(rows, id) == [] || (|Only(rows, id)| == 1 && Only(rows, id)[0].id == id)
  {
    WithoutMembers(rows, id);
    OnlyOne(rows, id);
  }

  // ---- All together ---------------------------------------------------------------------

  lemma WorkerKeepsShared(s: Shared, sql: Sql, ok: bool, code: int)
    requires SharedOk(s) && AdvanceWorker(s, sql, ok, code).Worked?
    ensures SharedOk(AdvanceWorker(s, sql, ok, code).sh)
  {
    var s' := AdvanceWorker(s, sql, ok, code).sh;
    if InInit(s.worker) {
      InitKeepsLocks(s, sql);
      InitKeepsCurrent(s, sql);
      InitKeepsData(s, sql);
      InitKeepsSeen(s, sql);
    } else if InFin(s.worker) {
      FinKeepsLocks(s);
      FinKeepsCurrent(s);
      FinKeepsData(s);
      SameDataOk(s, s');
      FinKeepsSeen(s);
    } else if InRecord(s.worker) {
      RecordKeepsLocks(s, sql, ok, code);
      RecordKeepsCurrent(s, sql, ok, code);
      RecordKeepsData(s, sql, ok, code);
      RecordKeepsSeen(s, sql, ok, code);
    } else {
      LoopKeepsLocks(s, ok);
      LoopKeepsCurrent(s, ok);
      LoopKeepsData(s, ok);
      SameDataOk(s, s');
      LoopKeepsSeen(s, ok);
    }
  }

  lemma ClientKeepsShared(s: Shared, c: nat, pc: ClientPc, sql: Sql)
    requires SharedOk(s) && ClientOk(s, c, pc) && AdvanceClient(s, c, pc, sql).Moved?
    ensures var m := AdvanceClient(s, c, pc, sql); SharedOk(m.sh) && ClientOk(m.sh, c, m.pc)
  {
    ClientKeepsLocks(s, c, pc, sql);
    ClientKeepsCurrent(s, c, pc, sql);
    ClientKeepsSeen(s, c, pc, sql);
    if AtStatement(pc) {
      StatementKeepsData(s, c, pc, sql);
      StatementKeepsItself(s, c, pc, sql);
    } else {
      ControlKeepsData(s, c, pc);
      SameDataOk(s, Control(s, c, pc).sh);
      ControlKeepsItself(s, c, pc);
    }
  }

  lemma WorkerKeepsClients(s: Shared, sql: Sql, ok: bool, code: int, d: nat, other: ClientPc)
    requires WorkerLocks(s) && ClientOk(s, d, other) && AdvanceWorker(s, sql, ok, code).Worked?
    ensures ClientOk(AdvanceWorker(s, sql, ok, code).sh, d, other)
  {
    if InInit(s.worker) {
      InitKeepsClients(s, sql, d, other);
    } else if InFin(s.worker) {
      FinKeepsClients(s, d, other);
    } else if InRecord(s.worker) {
      RecordKeepsClients(s, sql, ok, code, d, other);
    } else {
      LoopKeepsClients(s, ok, d, other);
    }
  }

  lemma RestartKeepsShared(s: Shared)
    requires SharedOk(s)
    ensures SharedOk(Restart(s))
  {
    var t := GiveUp(s);
    var u := t.(hist := t.hist.(taken := {}, burned := t.hist.burned + t.hist.taken));
    GiveUpOrder(s, t);
    GiveUpLedger(s, t);
    BurnOrder(t, u);
    BurnLedger(t, u);
    SameDataOk(u, Restart(s));
    RestartKeepsRest(s);
  }

  lemma RestartKeepsRest(s: Shared)
    ensures var s' := Restart(s); WorkerLocks(s') && CurrentMatches(s') && WorkerSees(s')
  {
  }

  lemma InitialOk(tokenFirst: bool)
    ensures Inv(Init(tokenFirst))
  {
    var s := Fresh(tokenFirst);
    assert IdSet([]) == {} && FlightIds(s) == {};
    assert Upto(0) == {};
  }

  /** The invariant is inductive. */
  lemma InvNext(s: State, a: Action)
    requires Inv(s) && Next(s, a).Some?
    ensures Inv(Next(s, a).value)
  {
    var s' := Next(s, a).value;
    match a
    case Begin(c, call) => BeginOk(s, c, call);
    case Advance(c, sql) => AdvanceOk(s, c, sql);
    case Work(sql, ok, code) => WorkOk(s, sql, ok, code);
    case PowerLoss =>
      RestartKeepsShared(s.sh);
      assert s'.sh == Restart(s.sh);
      assert forall c: nat :: PcOf(s', c) == Idle;
  }

  lemma BeginOk(s: State, c: nat, call: Call)
    requires Inv(s) && PcOf(s, c).Idle?
    ensures Inv(State(s.sh, s.clients[c := Entry(call)]))
  {
    var s' := State(s.sh, s.clients[c := Entry(call)]);
    forall d: nat ensures ClientOk(s'.sh, d, PcOf(s', d)) {
      assert ClientOk(s.sh, d, PcOf(s, d));
    }
  }

  lemma AdvanceOk(s: State, c: nat, sql: Sql)
    requires Inv(s) && AdvanceClient(s.sh, c, PcOf(s, c), sql).Moved?
    ensures var m := AdvanceClient(s.sh, c, PcOf(s, c), sql); Inv(State(m.sh, s.clients[c := m.pc]))
  {
    var pc := PcOf(s, c);
    var m := AdvanceClient(s.sh, c, pc, sql);
    var s' := State(m.sh, s.clients[c := m.pc]);
    ClientKeepsShared(s.sh, c, pc, sql);
    forall d: nat ensures ClientOk(s'.sh, d, PcOf(s', d)) {
      if d != c {
        ClientKeepsOthers(s.sh, c, pc, sql, d, PcOf(s, d));
      }
    }
  }

  lemma WorkOk(s: State, sql: Sql, ok: bool, code: int)
    requires Inv(s) && AdvanceWorker(s.sh, sql, ok, code).Worked?
    ensures Inv(State(AdvanceWorker(s.sh, sql, ok, code).sh, s.clients))
  {
    var s' := State(AdvanceWorker(s.sh, sql, ok, code).sh, s.clients);
    WorkerKeepsShared(s.sh, sql, ok, code);
    forall d: nat ensures ClientOk(s'.sh, d, PcOf(s', d)) {
      WorkerKeepsClients(s.sh, sql, ok, code, d, PcOf(s, d));
    }
  }

  /** Every state that a run from the empty queue reaches satisfies the invariant. */
  lemma {:induction false} ReachableInv(tokenFirst: bool, run: seq<Action>)
    requires IsRunFrom(Init(tokenFirst), run)
    ensures Inv(Exec(Init(tokenFirst), run).value)
  {
    if |run| == 0 {
      InitialOk(tokenFirst);
    } else {
      var before := run[..|run| - 1];
      ReachableInv(tokenFirst, before);
      InvNext(Exec(Init(tokenFirst), before).value, run[|run| - 1]);
    }
  }

  lemma InvAt(tokenFirst: bool, run: seq<Action>, i: nat)
    requires IsRunFrom(Init(tokenFirst), run) && i <= |run|
    ensures Inv(StateAt(Init(tokenFirst), run, i))
  {
    PrefixRuns(Init(tokenFirst), run, i);
    ReachableInv(tokenFirst, run[..i]);
  }
}
