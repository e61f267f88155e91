/** What every reachable state of the protocol satisfies: who holds which mutex,
    the order of ids in the two tables, and the ledger of ids. */
module ProtocolInvariant {
  import opened Tasks
  import opened Protocol

  // ---- Mutexes ----------------------------------------------------------

  predicate ClientHasToken(pc: ClientPc) {
    match pc
    case AwaitCurrent(call) => !call.CurrentTask?
    case AddSelect(_) => true
    case AddUpdate(_, _) => true
    case AddInsert(_, _) => true
    case RemoveCheck(_) => true
    case RemoveUnlock(_, _) => true
    case RemoveDelete(_) => true
    case ClearAll => true
    case ClearUnlock(_) => true
    case ClearDone => true
    case Read(_) => true
    case Unlock(_, _) => true
    case _ => false
  }

  predicate ClientHasCurrent(pc: ClientPc) {
    match pc
    case RemoveCheck(_) => true
    case RemoveUnlock(_, _) => true
    case ClearAll => true
    case ClearUnlock(_) => true
    case CurrentRead => true
    case CurrentUnlock(_) => true
    case _ => false
  }

  predicate WorkerHasToken(w: WorkerPc, tokenFirst: bool) {
    match w
    case InitSelect => true
    case InitLockCurrent(_) => true
    case InitCopy(_) => true
    case InitUnlockCurrent => true
    case InitStopFlag => true
    case InitRunFlag => true
    case InitUnlock(_) => true
    case FinExit(_) => tokenFirst
    case FinSecond(_) => tokenFirst
    case FinDelete(_) => true
    case FinInsert(_, _, _) => true
    case FinFail(_, hasToken) => hasToken
    case FinReset(_, hasToken) => hasToken
    case FinUnlockToken(_) => true
    case _ => false
  }

  predicate WorkerHasCurrent(w: WorkerPc, tokenFirst: bool) {
    match w
    case InitCopy(_) => true
    case InitUnlockCurrent => true
    case FinExit(_) => true
    case FinSecond(_) => !tokenFirst
    case FinDelete(_) => true
    case FinInsert(_, _, _) => true
    case FinFail(_, _) => true
    case FinReset(_, _) => true
    case FinUnlockToken(_) => true
    case FinUnlockCurrent(_) => true
    case _ => false
  }

  /** A call that waits for a mutex is one that takes it. */
  predicate WellPlaced(pc: ClientPc) {
    match pc
    case AwaitToken(call) => !call.CurrentTask? && !call.Start? && !call.Stop?
    case AwaitCurrent(call) => call.Remove? || call.ClearPending? || call.CurrentTask?
    case Read(call) =>
      call.ListPending? || call.ListFinished? || call.PendingDetails? || call.FinishedDetails?
    case _ => true
  }

  // ---- What holds of one client against the shared state ------------------

  ghost predicate ClientOk(s: Shared, c: nat, pc: ClientPc) {
    && (s.token == ByClient(c) <==> ClientHasToken(pc))
    && (s.cur == ByClient(c) <==> ClientHasCurrent(pc))
    && WellPlaced(pc)
    && (pc.AddUpdate? ==> pc.id == s.lastID)
    && (pc.AddInsert? ==> s.hist.taken == {pc.id})
    && (s.token == ByClient(c) && !pc.AddInsert? ==> s.hist.taken == {})
    && (pc.RemoveDelete? ==> pc.id !in FlightIds(s))
    && (pc.RemoveUnlock? && !pc.refused ==> pc.id !in FlightIds(s))
  }

  // ---- What holds of the shared state -------------------------------------

  ghost predicate WorkerLocks(s: Shared) {
    && (s.token == ByWorker <==> WorkerHasToken(s.worker, s.tokenFirst))
    && (s.cur == ByWorker <==> WorkerHasCurrent(s.worker, s.tokenFirst))
    && (s.hist.taken != {} ==> s.token.ByClient?)
  }

  /** Every id in use lies below: an id that is taken but not inserted does not count. */
  function Bound(s: Shared): int {
    if s.hist.taken == {} then s.lastID else s.lastID - 1
  }

  ghost predicate Tables(s: Shared) {
    && Increasing(s.pending) && Increasing(s.done)
    && (s.hist.taken == {} || s.hist.taken == {s.lastID - 1})
    && 0 <= Bound(s)
    && (forall p :: p in s.pending ==> 0 <= p.id < Bound(s))
    && (forall d :: d in s.done ==> 0 <= d.id < Bound(s))
    && (forall d, p :: d in s.done && p in s.pending ==> d.id <= p.id)
  }

  /** A task is in flight from the copy in mainLoopInit to the insert in
      mainLoopFin, unless mainLoopFin gives it up before. */
  predicate Flies(w: WorkerPc) {
    w.InitUnlockCurrent? || (w.InitUnlock? && w.picked) || w.Launch? || w.Wait? || w.FinFirst?
    || w.FinExit? || w.FinSecond? || w.FinDelete? || w.FinInsert?
  }

  /** The exit code is already in m_currentTask. */
  predicate ExitRead(s: Shared) {
    s.worker.FinDelete? || s.worker.FinInsert? || (s.worker.FinSecond? && !s.tokenFirst)
  }

  /** m_currentTask is the row that was picked, but for the exit code once it is
      read, and the idle task when nothing is in flight. */
  ghost predicate CurrentMatches(s: Shared) {
    && (Flies(s.worker) <==> s.flight.Flying?)
    && (s.flight.Flying? ==>
          s.current == FromRow(s.flight.row).(
            exitCode := if ExitRead(s) then s.current.exitCode else s.flight.row.exitCode))
    && (s.flight.NoFlight? && !s.worker.FinFail? && !s.worker.FinReset? ==> s.current == IDLE)
  }

  ghost predicate FlightOrder(s: Shared) {
    && (forall k :: k in FlightIds(s) ==> 0 <= k < Bound(s))
    && (forall k, p :: k in FlightIds(s) && p in s.pending ==> k <= p.id)
    && (forall k, d :: k in FlightIds(s) && d in s.done ==> d.id <= k)
  }

  /** What the worker has seen is still so: the row it picked is the first one,
      and after a delete that was carried out the row in flight is not pending. */
  ghost predicate WorkerSees(s: Shared) {
    && (s.worker.InitLockCurrent? || s.worker.InitCopy?
        ==> |s.pending| > 0 && s.worker.row == s.pending[0])
    && (s.worker.FinInsert? ==>
          if s.worker.kept then s.worker.deleted == []
          else
            && (forall k, p :: k in FlightIds(s) && p in s.pending ==> k < p.id)
            && (s.worker.deleted == []
                || (|s.worker.deleted| == 1 && s.worker.deleted[0].id in FlightIds(s))))
  }

  /** Ids entered done in ascending order, no later than anything still to run. */
  ghost predicate EnteredOrder(s: Shared) {
    var entered := s.hist.entered;
    && (forall i, j :: 0 <= i < j < |entered| ==> entered[i] <= entered[j])
    && (forall e :: e in entered ==> 0 <= e < Bound(s))
    && (forall e, p :: e in entered && p in s.pending ==> e <= p.id)
    && (forall e, k :: e in entered && k in FlightIds(s) ==> e <= k)
    && (forall d :: d in s.done ==> d.id in entered)
  }

  /** The ids that are still somewhere in the system. */
  function Live(s: Shared): set<int> {
    IdSet(s.pending) + IdSet(s.done) + FlightIds(s) + s.hist.taken
  }

  /** The ids 0, ..., n - 1. */
  function Upto(n: int): set<int> {
    if n <= 0 then {} else Upto(n - 1) + {n - 1}
  }

  lemma {:induction false} UptoMembers(n: int)
    ensures forall i :: i in Upto(n) <==> 0 <= i < n
  {
    if n > 0 {
      UptoMembers(n - 1);
    }
  }

  /** Every id below lastID is accounted for exactly once. */
  ghost predicate Ledger(s: Shared) {
    var h := s.hist;
    && (Live(s) !! h.removed !! h.cleared !! h.burned !! h.lost)
    && Live(s) + h.removed + h.cleared + h.burned + h.lost == Upto(s.lastID)
  }

  ghost predicate Ordered(s: Shared) {
    Tables(s) && FlightOrder(s) && EnteredOrder(s)
  }

  ghost predicate DataOk(s: Shared) {
    Ordered(s) && Ledger(s)
  }

  ghost predicate SharedOk(s: Shared) {
    WorkerLocks(s) && CurrentMatches(s) && DataOk(s) && WorkerSees(s)
  }

  ghost predicate Inv(s: State) {
    SharedOk(s.sh) && forall c: nat :: ClientOk(s.sh, c, PcOf(s, c))
  }
}
