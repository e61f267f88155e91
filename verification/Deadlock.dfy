/** Which threads can wait for each other in a circle, and what exchanging the two
    lock acquisitions of mainLoopFin does about it. */
module Deadlock {
  import opened FifoQueue
  import opened WorkerSpec
  import opened Protocol
  import opened ProtocolInvariant
  import opened ProtocolSteps

  /** The thread is about to lock the token mutex. */
  predicate WantsToken(s: State, t: Holder) {
    match t
    case Free => false
    case ByWorker =>
      s.sh.worker.InitLock? || (if s.sh.tokenFirst then s.sh.worker.FinFirst? else s.sh.worker.FinSecond?)
    case ByClient(c) => PcOf(s, c).AwaitToken?
  }

  /** The thread is about to lock the mutex of the current task. */
  predicate WantsCurrent(s: State, t: Holder) {
    match t
    case Free => false
    case ByWorker =>
      s.sh.worker.InitLockCurrent?
      || (if s.sh.tokenFirst then s.sh.worker.FinSecond? else s.sh.worker.FinFirst?)
    case ByClient(c) => PcOf(s, c).AwaitCurrent?
  }

  /** The holder of the mutex that t is about to lock; Free if t is not kept waiting. */
  function WaitsFor(s: State, t: Holder): Holder {
    if WantsToken(s, t) then s.sh.token
    else if WantsCurrent(s, t) then s.sh.cur
    else Free
  }

  /** Each thread of ts waits for the next, and the last for the first. */
  ghost predicate Circle(s: State, ts: seq<Holder>) {
    && |ts| > 0
    && (forall i :: 0 <= i < |ts| ==> ts[i] != Free)
    && (forall i :: 0 <= i < |ts| - 1 ==> WaitsFor(s, ts[i]) == ts[i + 1])
    && WaitsFor(s, ts[|ts| - 1]) == ts[0]
  }

  /** mainLoopFin holds the current task and waits for the token, which a client
      holds that waits for the current task. */
  predicate Embrace(s: State) {
    && !s.sh.tokenFirst && s.sh.worker.FinSecond?
    && s.sh.token.ByClient? && PcOf(s, s.sh.token.c).AwaitCurrent?
  }

  function After(ts: seq<Holder>, i: nat): Holder
    requires i < |ts|
  {
    if i == |ts| - 1 then ts[0] else ts[i + 1]
  }

  /** A thread that holds the current task and is kept waiting is the worker in
      mainLoopFin, and the code is the one with the current task locked first. */
  lemma HolderOfCurrentWaits(s: State, t: Holder)
    requires Inv(s) && t != Free && s.sh.cur == t && WaitsFor(s, t) != Free
    ensures t == ByWorker && !s.sh.tokenFirst && s.sh.worker.FinSecond? && WaitsFor(s, t) == s.sh.token
  {
    var c := if t.ByClient? then t.c else 0;
    assert ClientOk(s.sh, c, PcOf(s, c));
  }

  lemma HolderOfTokenWaits(s: State, t: Holder)
    requires Inv(s) && t != Free && s.sh.token == t && WaitsFor(s, t) != Free
    ensures WantsCurrent(s, t) && WaitsFor(s, t) == s.sh.cur
    ensures t.ByClient? ==> PcOf(s, t.c).AwaitCurrent?
  {
    var c := if t.ByClient? then t.c else 0;
    assert ClientOk(s.sh, c, PcOf(s, c));
  }

  lemma NextInCircle(s: State, ts: seq<Holder>, i: nat)
    requires Circle(s, ts) && i < |ts|
    ensures WaitsFor(s, ts[i]) == After(ts, i) && After(ts, i) in ts && After(ts, i) != Free
    ensures WaitsFor(s, After(ts, i)) != Free
  {
    var j := if i == |ts| - 1 then 0 else i + 1;
    assert After(ts, i) == ts[j];
    assert WaitsFor(s, ts[j]) == After(ts, j);
  }

  /** In every circle there is the worker inside mainLoopFin, waiting for the
      token with the current task in hand; so with the acquisitions exchanged
      there is no circle at all. */
  lemma CirclesNeedFin(tokenFirst: bool, run: seq<Action>, ts: seq<Holder>)
    requires IsRunFrom(Init(tokenFirst), run) && Circle(Exec(Init(tokenFirst), run).value, ts)
    ensures var s := Exec(Init(tokenFirst), run).value;
      ByWorker in ts && s.sh.worker.FinSecond? && !s.sh.tokenFirst && Embrace(s)
  {
    ReachableInv(tokenFirst, run);
    CircleInv(Exec(Init(tokenFirst), run).value, ts);
  }

  lemma CircleInv(s: State, ts: seq<Holder>)
    requires Inv(s) && Circle(s, ts)
    ensures ByWorker in ts && Embrace(s)
  {
    NextInCircle(s, ts, 0);
    var t := After(ts, 0);
    var i :| 0 <= i < |ts| && ts[i] == t;
    NextInCircle(s, ts, i);
    if t == s.sh.cur {
      HolderOfCurrentWaits(s, t);
      HolderOfTokenWaits(s, s.sh.token);
    } else {
      HolderOfTokenWaits(s, t);
      HolderOfCurrentWaits(s, s.sh.cur);
    }
  }

  /** There is a circle if and only if there is the embrace. */
  lemma CircleIff(s: State)
    requires Inv(s)
    ensures (exists ts :: Circle(s, ts)) <==> Embrace(s)
  {
    if Embrace(s) {
      EmbraceIsCircle(s);
    }
    forall ts | Circle(s, ts) ensures Embrace(s) {
      CircleInv(s, ts);
    }
  }

  /** The embrace is a circle of two. */
  lemma EmbraceIsCircle(s: State)
    requires Inv(s) && Embrace(s)
    ensures Circle(s, [ByWorker, s.sh.token])
  {
    assert ClientOk(s.sh, s.sh.token.c, PcOf(s, s.sh.token.c));
  }

  /** The order of acquisition never changes during a run. */
  lemma {:induction false} TokenFirstIsConstant(s: State, run: seq<Action>)
    requires IsRunFrom(s, run)
    ensures Exec(s, run).value.sh.tokenFirst == s.sh.tokenFirst
  {
    if |run| > 0 {
      var n := |run| - 1;
      PrefixRuns(s, run, n);
      TokenFirstIsConstant(s, run[..n]);
      TokenFirstStays(Exec(s, run[..n]).value, run[n]);
    }
  }

  lemma TokenFirstStays(s: State, a: Action)
    requires Next(s, a).Some?
    ensures Next(s, a).value.sh.tokenFirst == s.sh.tokenFirst
  {
    match a
    case Work(sql, ok, code) =>
      if InInit(s.sh.worker) {
        assert InitStep(s.sh, sql).sh.tokenFirst == s.sh.tokenFirst;
      } else if InFin(s.sh.worker) {
        assert FinStep(s.sh).sh.tokenFirst == s.sh.tokenFirst;
      }
    case _ =>
  }

  /** With the token locked first, no reachable state has a circle of waiting. */
  lemma ExchangedIsDeadlockFree(run: seq<Action>, ts: seq<Holder>)
    requires IsRunFrom(Init(true), run)
    ensures !Circle(Exec(Init(true), run).value, ts)
  {
    TokenFirstIsConstant(Init(true), run);
    if Circle(Exec(Init(true), run).value, ts) {
      CirclesNeedFin(true, run, ts);
    }
  }

  // ---- Which calls deadlock, and when -------------------------------------------

  /** The calls that lock the current task while they hold the token. */
  predicate LocksBoth(call: Call) {
    call.Remove? || call.ClearPending?
  }

  /** The client that waits in the embrace is inside such a call. */
  lemma EmbracedCall(s: State)
    requires Inv(s) && Embrace(s)
    ensures LocksBoth(PcOf(s, s.sh.token.c).call)
  {
    assert ClientOk(s.sh, s.sh.token.c, PcOf(s, s.sh.token.c));
  }

  /** Between the two locks of mainLoopFin such a call takes the token; or it has
      done so before, and the worker, with the current task in hand, reads an exit
      code and goes on to the token. */
  predicate Collides(s: State, a: Action) {
    && !s.sh.tokenFirst
    && (match a
        case Advance(c, _) =>
          s.sh.worker.FinSecond? && s.sh.token.Free?
          && PcOf(s, c).AwaitToken? && LocksBoth(PcOf(s, c).call)
        case Work(_, ok, _) =>
          s.sh.worker.FinExit? && ok && s.sh.token.ByClient? && PcOf(s, s.sh.token.c).AwaitCurrent?
        case _ => false)
  }

  /** Threads become locked in a circle by these actions and by no others. */
  lemma EmbraceBegins(s: State, a: Action)
    requires Inv(s) && !Embrace(s) && Next(s, a).Some?
    ensures Embrace(Next(s, a).value) <==> Collides(s, a)
  {
    match a
    case Begin(c, _) =>
    case Advance(c, sql) => AdvanceBegins(s, c, sql);
    case Work(sql, ok, code) => WorkMeets(s.sh, sql, ok, code);
    case PowerLoss =>
  }

  lemma AdvanceBegins(s: State, c: nat, sql: Sql)
    requires Inv(s) && !Embrace(s) && Next(s, Advance(c, sql)).Some?
    ensures Embrace(Next(s, Advance(c, sql)).value) <==> Collides(s, Advance(c, sql))
  {
    var pc := PcOf(s, c);
    assert ClientOk(s.sh, c, pc);
    var m := AdvanceClient(s.sh, c, pc, sql);
    if AtStatement(pc) {
      StatementMeets(s.sh, pc, sql);
    } else {
      ControlMeets(s.sh, c, pc);
      ControlWaits(s.sh, c, pc);
    }
    var s' := Next(s, Advance(c, sql)).value;
    assert s'.sh == m.sh && PcOf(s', c) == m.pc && forall d: nat :: d != c ==> PcOf(s', d) == PcOf(s, d);
  }

  lemma StatementMeets(s: Shared, pc: ClientPc, sql: Sql)
    requires AtStatement(pc)
    ensures var m := Statement(s, pc, sql);
      && m.sh.worker == s.worker && m.sh.tokenFirst == s.tokenFirst && m.sh.token == s.token
      && !m.pc.AwaitCurrent?
  {
  }

  lemma ControlMeets(s: Shared, c: nat, pc: ClientPc)
    requires ClientOk(s, c, pc) && !AtStatement(pc) && Control(s, c, pc).Moved?
    ensures var s' := Control(s, c, pc).sh;
      && s'.worker.FinSecond? == s.worker.FinSecond? && s'.tokenFirst == s.tokenFirst
      && (s'.token == s.token
          || (s.token.Free? && s'.token == ByClient(c)) || (s.token == ByClient(c) && s'.token.Free?))
  {
  }

  /** A client comes to wait for the current task with the token in hand only by
      taking the token in a call that locks both. */
  lemma ControlWaits(s: Shared, c: nat, pc: ClientPc)
    requires ClientOk(s, c, pc) && !AtStatement(pc) && Control(s, c, pc).Moved?
    ensures var m := Control(s, c, pc);
      m.sh.token == ByClient(c) && m.pc.AwaitCurrent? <==> s.token.Free? && pc.AwaitToken? && LocksBoth(pc.call)
  {
  }

  /** The worker comes to its second lock only from reading the exit code, and
      takes no token from a client. */
  lemma WorkMeets(s: Shared, sql: Sql, ok: bool, code: int)
    requires WorkerLocks(s) && AdvanceWorker(s, sql, ok, code).Worked?
    ensures var s' := AdvanceWorker(s, sql, ok, code).sh;
      && s'.tokenFirst == s.tokenFirst
      && (s'.token == s.token || (!s.token.ByClient? && !s'.token.ByClient?))
      && (!s.tokenFirst ==> (s'.worker.FinSecond? <==> s.worker.FinExit? && ok))
  {
    if InInit(s.worker) {
      InitMeets(s, sql);
    } else if InFin(s.worker) {
      FinMeets(s);
    } else if InRecord(s.worker) {
      RecordMeets(s, sql, ok, code);
    }
  }

  lemma InitMeets(s: Shared, sql: Sql)
    requires WorkerLocks(s) && InInit(s.worker) && InitStep(s, sql).Worked?
    ensures var s' := InitStep(s, sql).sh;
      && s'.tokenFirst == s.tokenFirst && !s'.worker.FinSecond?
      && (s'.token == s.token || (!s.token.ByClient? && !s'.token.ByClient?))
  {
  }

  lemma FinMeets(s: Shared)
    requires WorkerLocks(s) && InFin(s.worker) && FinStep(s).Worked?
    ensures var s' := FinStep(s).sh;
      && s'.tokenFirst == s.tokenFirst && (!s.tokenFirst ==> !s'.worker.FinSecond?)
      && (s'.token == s.token || (!s.token.ByClient? && !s'.token.ByClient?))
  {
  }

  lemma RecordMeets(s: Shared, sql: Sql, ok: bool, code: int)
    requires InRecord(s.worker)
    ensures var s' := Record(s, sql, ok, code).sh;
      && s'.tokenFirst == s.tokenFirst && s'.token == s.token
      && (!s.tokenFirst ==> (s'.worker.FinSecond? <==> s.worker.FinExit? && ok))
  {
  }

  /** A run comes to a circle of waiting threads if and only if it has such an action. */
  lemma {:induction false} RunCollidesIff(tokenFirst: bool, run: seq<Action>)
    requires IsRunFrom(Init(tokenFirst), run)
    ensures (exists i: nat :: i <= |run| && Embrace(StateAt(Init(tokenFirst), run, i)))
       <==> (exists i: nat :: i < |run| && Collides(StateAt(Init(tokenFirst), run, i), run[i]))
  {
    var s := Init(tokenFirst);
    if i: nat :| i < |run| && Collides(StateAt(s, run, i), run[i]) {
      InvAt(tokenFirst, run, i);
      StateAfter(s, run, i);
      EmbraceBegins(StateAt(s, run, i), run[i]);
      assert Embrace(StateAt(s, run, i + 1));
    } else {
      forall i: nat | i <= |run| ensures !Embrace(StateAt(s, run, i)) {
        NoEmbraceUpTo(tokenFirst, run, i);
      }
    }
  }

  lemma {:induction false} NoEmbraceUpTo(tokenFirst: bool, run: seq<Action>, n: nat)
    requires IsRunFrom(Init(tokenFirst), run) && n <= |run|
    requires forall i: nat :: i < n ==> !Collides(StateAt(Init(tokenFirst), run, i), run[i])
    ensures !Embrace(StateAt(Init(tokenFirst), run, n))
  {
    if n > 0 {
      NoEmbraceUpTo(tokenFirst, run, n - 1);
      InvAt(tokenFirst, run, n - 1);
      StateAfter(Init(tokenFirst), run, n - 1);
      EmbraceBegins(StateAt(Init(tokenFirst), run, n - 1), run[n - 1]);
    }
  }

  /** No client is inside a call that locks both and still has to lock. */
  ghost predicate NoneLocksBoth(s: State) {
    forall c: nat :: Harmless(PcOf(s, c))
  }

  predicate Harmless(pc: ClientPc) {
    pc.AwaitToken? || pc.AwaitCurrent? ==> !LocksBoth(pc.call)
  }

  lemma HarmlessNext(s: State, a: Action)
    requires NoneLocksBoth(s) && Next(s, a).Some? && !(a.Begin? && LocksBoth(a.call))
    ensures NoneLocksBoth(Next(s, a).value)
  {
    var s' := Next(s, a).value;
    forall c: nat ensures Harmless(PcOf(s', c)) {
      assert Harmless(PcOf(s, c));
      if a.Advance? && a.c == c {
        HarmlessMove(s.sh, c, PcOf(s, c), a.sql);
      }
    }
  }

  lemma HarmlessMove(s: Shared, c: nat, pc: ClientPc, sql: Sql)
    requires Harmless(pc) && AdvanceClient(s, c, pc, sql).Moved?
    ensures Harmless(AdvanceClient(s, c, pc, sql).pc)
  {
  }

  /** As long as nobody calls removeTask or clearPending, nothing deadlocks. */
  lemma {:induction false} OthersNeverDeadlock(tokenFirst: bool, run: seq<Action>)
    requires IsRunFrom(Init(tokenFirst), run)
    requires forall i :: 0 <= i < |run| && run[i].Begin? ==> !LocksBoth(run[i].call)
    ensures var s := Exec(Init(tokenFirst), run).value; NoneLocksBoth(s) && forall ts :: !Circle(s, ts)
  {
    if |run| > 0 {
      var n := |run| - 1;
      PrefixRuns(Init(tokenFirst), run, n);
      OthersNeverDeadlock(tokenFirst, run[..n]);
      HarmlessNext(Exec(Init(tokenFirst), run[..n]).value, run[n]);
    }
    var s := Exec(Init(tokenFirst), run).value;
    ReachableInv(tokenFirst, run);
    CircleIff(s);
    if Embrace(s) {
      EmbracedCall(s);
    }
  }

  /** Once embraced, always embraced: no action but a crash ends it. */
  lemma EmbraceLasts(s: State, a: Action)
    requires Inv(s) && Embrace(s) && Next(s, a).Some? && !a.PowerLoss?
    ensures Embrace(Next(s, a).value)
  {
    var c := s.sh.token.c;
    assert s.sh.cur == ByWorker;
    match a
    case Begin(d, _) =>
    case Advance(d, sql) =>
      assert ClientOk(s.sh, d, PcOf(s, d));
      assert ClientOk(s.sh, c, PcOf(s, c));
      if !AtStatement(PcOf(s, d)) {
        EmbraceControl(s.sh, d, PcOf(s, d), c);
      }
    case Work(_, _, _) =>
  }

  lemma EmbraceControl(s: Shared, d: nat, pc: ClientPc, c: nat)
    requires ClientOk(s, d, pc) && !AtStatement(pc) && Control(s, d, pc).Moved?
    requires s.token == ByClient(c) && s.cur == ByWorker && s.worker.FinSecond?
    requires d == c ==> pc.AwaitCurrent?
    ensures d != c
    ensures var s' := Control(s, d, pc).sh;
      s'.token == s.token && s'.worker == s.worker && s'.tokenFirst == s.tokenFirst
  {
  }

  /** A client cannot move exactly if it waits for a mutex that another thread holds,
      has nothing to do, or is to begin a worker while there is one. */
  lemma ClientBlockedIff(s: State, c: nat, sql: Sql)
    requires Inv(s)
    ensures AdvanceClient(s.sh, c, PcOf(s, c), sql).Blocked? <==>
      (WaitsFor(s, ByClient(c)) != Free || PcOf(s, c).Idle?
       || (PcOf(s, c).StartSpawn? && !s.sh.worker.Absent?))
  {
    assert ClientOk(s.sh, c, PcOf(s, c));
  }

  /** The worker cannot move exactly if it waits for a mutex, or there is none. */
  lemma WorkerBlockedIff(s: State, sql: Sql, ok: bool, code: int)
    requires WorkerLocks(s.sh)
    ensures AdvanceWorker(s.sh, sql, ok, code).Stuck? <==> WaitsFor(s, ByWorker) != Free || s.sh.worker.Absent?
  {
  }

  /** Thread t can take a step. */
  predicate CanMove(s: State, t: Holder) {
    match t
    case Free => false
    case ByWorker => AdvanceWorker(s.sh, Success, true, 0).Worked?
    case ByClient(c) => AdvanceClient(s.sh, c, PcOf(s, c), Success).Moved?
  }

  lemma HolderMoves(s: State, t: Holder)
    requires Inv(s) && t != Free && (s.sh.token == t || s.sh.cur == t) && WaitsFor(s, t) == Free
    ensures CanMove(s, t)
  {
    match t
    case ByWorker => HoldingWorkerMoves(s.sh);
    case ByClient(c) =>
      assert ClientOk(s.sh, c, PcOf(s, c));
      assert !PcOf(s, c).StartSpawn? && !PcOf(s, c).Idle? && !PcOf(s, c).AwaitToken?;
  }

  lemma HoldingWorkerMoves(s: Shared)
    requires WorkerLocks(s) && (s.token == ByWorker || s.cur == ByWorker)
    requires s.worker.InitLockCurrent? ==> s.cur.Free?
    requires s.worker.FinSecond? ==> if s.tokenFirst then s.cur.Free? else s.token.Free?
    ensures AdvanceWorker(s, Success, true, 0).Worked?
  {
  }

  /** Short of the embrace, a thread that is kept waiting waits for a thread that
      can move, or for one that waits for a thread that can move. */
  lemma WaitingIsServed(s: State, t: Holder)
    requires Inv(s) && !Embrace(s) && t != Free && WaitsFor(s, t) != Free
    ensures var u := WaitsFor(s, t); CanMove(s, u) || (WaitsFor(s, u) != Free && CanMove(s, WaitsFor(s, u)))
  {
    var u := WaitsFor(s, t);
    if WaitsFor(s, u) == Free {
      HolderMoves(s, u);
    } else if u == s.sh.cur {
      HolderOfCurrentWaits(s, u);
      SecondServed(s, u, s.sh.token);
    } else {
      HolderOfTokenWaits(s, u);
      SecondServed(s, u, s.sh.cur);
    }
  }

  lemma SecondServed(s: State, u: Holder, v: Holder)
    requires Inv(s) && !Embrace(s) && u != Free && v != Free && WaitsFor(s, u) == v
    requires (s.sh.cur == u && s.sh.token == v) || (s.sh.token == u && s.sh.cur == v)
    ensures CanMove(s, v)
  {
    if WaitsFor(s, v) == Free {
      HolderMoves(s, v);
    } else if s.sh.cur == u {
      HolderOfCurrentWaits(s, u);
      HolderOfTokenWaits(s, v);
    } else {
      HolderOfCurrentWaits(s, v);
      HolderOfTokenWaits(s, u);
    }
  }
}
