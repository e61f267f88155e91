/** Whole calls of start and stop, what m_isRunning says, and the course of the
    worker's loop between them. */
module StartStop {
  import opened Tasks
  import opened WorkerSpec
  import opened Protocol
  import opened FifoQueue
  import opened StopBound

  // ---- A whole call of stop -------------------------------------------------------

  /** Action k is one of client c and leaves m_start = false. */
  predicate StoresFalse(s: State, run: seq<Action>, k: nat, c: nat)
    requires IsRunFrom(s, run) && k < |run|
  {
    run[k].Advance? && run[k].c == c && !StateAt(s, run, k + 1).sh.start
  }

  /** At action i client c finds the queue running in a call of stop, and it is in
      that call up to the state after j actions. */
  ghost predicate Stopping(s: State, run: seq<Action>, i: nat, j: nat, c: nat)
    requires IsRunFrom(s, run) && i < j <= |run|
  {
    && run[i].Advance? && run[i].c == c
    && PcOf(StateAt(s, run, i), c).StopLoad? && StateAt(s, run, i).sh.running
    && forall m: nat :: i < m <= j ==> !PcOf(StateAt(s, run, m), c).Idle?
  }

  lemma StopMoves(s: State, a: Action, c: nat)
    requires Next(s, a).Some?
    ensures var pc, s' := PcOf(s, c), Next(s, a).value; var pc' := PcOf(s', c);
      && (pc.StopLoad? && s.sh.running && a.Advance? && a.c == c ==> pc'.StopFlag?)
      && (pc.StopFlag? && !pc'.Idle? ==> pc'.StopFlag? || (pc'.StopKill? && a.Advance? && a.c == c && !s'.sh.start))
      && (pc.StopKill? && !pc'.Idle? ==> pc'.StopKill? || pc'.StopClear?)
      && (pc.StopClear? && !pc'.Idle? ==> pc'.StopClear? || (pc' == Return(Stop, Done) && !s'.sh.running))
      && (pc == Return(Stop, Done) && !pc'.Idle? ==> pc' == pc)
  {
  }

  /** It is about to store m_start = false, or has done so. */
  lemma {:induction false} StopStage(s: State, run: seq<Action>, i: nat, j: nat, c: nat) returns (k: nat)
    requires IsRunFrom(s, run) && i < j <= |run| && Stopping(s, run, i, j, c)
    ensures var pc := PcOf(StateAt(s, run, j), c);
      || pc.StopFlag?
      || ((pc.StopKill? || pc.StopClear? || pc == Return(Stop, Done)) && i < k < j && StoresFalse(s, run, k, c))
    decreases j
  {
    StateAfter(s, run, j - 1);
    StopMoves(StateAt(s, run, j - 1), run[j - 1], c);
    if j == i + 1 {
      k := i;
    } else {
      k := StopStage(s, run, i, j - 1, c);
      if PcOf(StateAt(s, run, j - 1), c).StopFlag? {
        k := j - 1;
      }
    }
  }

  lemma FalseNext(s: State, a: Action)
    requires !s.sh.start && Next(s, a).Some? && !SetsStart(s, a)
    ensures !Next(s, a).value.sh.start
  {
    StepSpends(s, a);
  }

  /** m_start stays false as long as nobody sets it. */
  lemma {:induction false} StaysFalse(s: State, run: seq<Action>, k: nat, j: nat)
    requires IsRunFrom(s, run) && k <= j <= |run| && !StateAt(s, run, k).sh.start
    requires forall m: nat :: k <= m < j ==> !SetsStart(StateAt(s, run, m), run[m])
    ensures !StateAt(s, run, j).sh.start
    decreases j
  {
    if k < j {
      StaysFalse(s, run, k, j - 1);
      StateAfter(s, run, j - 1);
      FalseNext(StateAt(s, run, j - 1), run[j - 1]);
    }
  }

  /** Nobody sets m_start from action k on. */
  ghost predicate NobodySets(s: State, run: seq<Action>, k: nat)
    requires IsRunFrom(s, run)
  {
    forall m: nat :: k <= m < |run| ==> !SetsStart(StateAt(s, run, m), run[m])
  }

  /** A call of stop that has found the queue running and returns has stored
      m_start = false in between, and unless somebody has set it since it is false. */
  lemma StopReturns(s: State, run: seq<Action>, i: nat, c: nat) returns (k: nat)
    requires IsRunFrom(s, run) && i < |run| && Stopping(s, run, i, |run|, c)
    requires PcOf(Exec(s, run).value, c).Return?
    ensures i < k < |run| && StoresFalse(s, run, k, c)
    ensures PcOf(Exec(s, run).value, c) == Return(Stop, Done)
    ensures NobodySets(s, run, k + 1) ==> !Exec(s, run).value.sh.start
  {
    assert run[..|run|] == run;
    k := StopStage(s, run, i, |run|, c);
    if NobodySets(s, run, k + 1) {
      StaysFalse(s, run, k + 1, |run|);
    }
  }

  /** The stop bound from the return of such a call: if nobody sets m_start again, at
      most one more task is picked and at most one more enters done. */
  lemma StopBoundReturned(s: State, run: seq<Action>, i: nat, c: nat, more: seq<Action>)
    requires IsRunFrom(s, run) && i < |run| && Stopping(s, run, i, |run|, c)
    requires PcOf(Exec(s, run).value, c).Return? && NobodySets(s, run, i)
    requires IsRunFrom(Exec(s, run).value, more) && NeverStarted(Exec(s, run).value, more)
    ensures Picks(Exec(s, run).value, more) <= 1 && Finishes(Exec(s, run).value, more) <= 1
  {
    var k := StopReturns(s, run, i, c);
    AtMostOneMore(Exec(s, run).value, more);
  }

  // ---- A whole call of start ------------------------------------------------------

  /** At action i client c finds the queue not running in a call of start, and it is
      in that call up to the state after j actions. */
  ghost predicate Starting(s: State, run: seq<Action>, i: nat, j: nat, c: nat)
    requires IsRunFrom(s, run) && i < j <= |run|
  {
    && run[i].Advance? && run[i].c == c
    && PcOf(StateAt(s, run, i), c).StartLoad? && !StateAt(s, run, i).sh.running
    && forall m: nat :: i < m <= j ==> !PcOf(StateAt(s, run, m), c).Idle?
  }

  /** Action k of client c begins the worker. */
  predicate Begins(s: State, run: seq<Action>, k: nat, c: nat)
    requires IsRunFrom(s, run) && k < |run|
  {
    && run[k].Advance? && run[k].c == c
    && StateAt(s, run, k).sh.worker.Absent? && StateAt(s, run, k + 1).sh.worker.TestStart?
  }

  /** Action k of client c stores m_start = true. */
  predicate StoresTrue(s: State, run: seq<Action>, k: nat, c: nat)
    requires IsRunFrom(s, run) && k < |run|
  {
    run[k].Advance? && run[k].c == c && StateAt(s, run, k + 1).sh.start
  }

  lemma StartMoves(s: State, a: Action, c: nat)
    requires Next(s, a).Some?
    ensures var pc, s' := PcOf(s, c), Next(s, a).value; var pc' := PcOf(s', c); var own := a.Advance? && a.c == c;
      && (pc.StartLoad? && !s.sh.running && own ==> pc'.StartRunning?)
      && (pc.StartRunning? && !pc'.Idle? ==> pc'.StartRunning? || (pc'.StartFlag? && own && s'.sh.running))
      && (pc.StartFlag? && !pc'.Idle? ==> pc'.StartFlag? || (pc'.StartSpawn? && own && s'.sh.start))
      && (pc.StartSpawn? && !pc'.Idle? ==>
            pc'.StartSpawn?
            || (pc' == Return(Start, Done) && own && s.sh.worker.Absent? && s'.sh.worker.TestStart?))
      && (pc == Return(Start, Done) && !pc'.Idle? ==> pc' == pc)
  {
  }

  /** The same along a run. */
  lemma StartMovesAt(s: State, run: seq<Action>, m: nat, c: nat)
    requires IsRunFrom(s, run) && m < |run|
    ensures var pc, pc' := PcOf(StateAt(s, run, m), c), PcOf(StateAt(s, run, m + 1), c);
      && (pc.StartLoad? && !StateAt(s, run, m).sh.running && run[m].Advance? && run[m].c == c ==> pc'.StartRunning?)
      && (pc.StartRunning? && !pc'.Idle? ==> pc'.StartRunning? || pc'.StartFlag?)
      && (pc.StartFlag? && !pc'.Idle? ==> pc'.StartFlag? || (pc'.StartSpawn? && StoresTrue(s, run, m, c)))
      && (pc.StartSpawn? && !pc'.Idle? ==>
            pc'.StartSpawn? || (pc' == Return(Start, Done) && Begins(s, run, m, c)))
      && (pc == Return(Start, Done) && !pc'.Idle? ==> pc' == pc)
  {
    StateAfter(s, run, m);
    StartMoves(StateAt(s, run, m), run[m], c);
  }

  lemma {:induction false} StartStage(s: State, run: seq<Action>, i: nat, j: nat, c: nat) returns (k: nat, b: nat)
    requires IsRunFrom(s, run) && i < j <= |run| && Starting(s, run, i, j, c)
    ensures var pc := PcOf(StateAt(s, run, j), c);
      || pc.StartRunning? || pc.StartFlag?
      || (pc.StartSpawn? && i < k < j && StoresTrue(s, run, k, c))
      || (pc == Return(Start, Done) && i < k < b < j && StoresTrue(s, run, k, c) && Begins(s, run, b, c))
    decreases j
  {
    StartMovesAt(s, run, j - 1, c);
    if j == i + 1 {
      k, b := i, i;
    } else {
      var pc, pc' := PcOf(StateAt(s, run, j - 1), c), PcOf(StateAt(s, run, j), c);
      k, b := StartStage(s, run, i, j - 1, c);
      if pc.StartFlag? && pc'.StartSpawn? {
        k := j - 1;
      } else if pc.StartSpawn? && pc'.Return? {
        b := j - 1;
      }
    }
  }

  /** A call of start that has found the queue not running and returns has stored
      m_start = true and then begun the worker. */
  lemma StartReturns(s: State, run: seq<Action>, i: nat, c: nat)
    requires IsRunFrom(s, run) && i < |run| && Starting(s, run, i, |run|, c)
    requires PcOf(Exec(s, run).value, c).Return?
    ensures PcOf(Exec(s, run).value, c) == Return(Start, Done)
    ensures exists k: nat, b: nat :: i < k < b < |run| && StoresTrue(s, run, k, c) && Begins(s, run, b, c)
  {
    assert run[..|run|] == run;
    var k, b := StartStage(s, run, i, |run|, c);
  }

  // ---- What m_isRunning says -----------------------------------------------------

  /** Some client is starting the worker. */
  ghost predicate BeingStarted(s: State) {
    exists c: nat :: PcOf(s, c).StartFlag? || PcOf(s, c).StartSpawn?
  }

  lemma RunningNext(s: State, a: Action)
    requires Next(s, a).Some? && (s.sh.running ==> !s.sh.worker.Absent? || BeingStarted(s))
    ensures var s' := Next(s, a).value; s'.sh.running ==> !s'.sh.worker.Absent? || BeingStarted(s')
  {
    var s' := Next(s, a).value;
    match a
    case Begin(c, _) =>
      if d: nat :| PcOf(s, d).StartFlag? || PcOf(s, d).StartSpawn? {
        assert PcOf(s', d) == PcOf(s, d);
      }
    case Advance(c, sql) => RunningMove(s, c, sql);
    case Work(sql, ok, code) =>
      WorkerEnds(s.sh, sql, ok, code);
      if d: nat :| PcOf(s, d).StartFlag? || PcOf(s, d).StartSpawn? {
        assert PcOf(s', d) == PcOf(s, d);
      }
    case PowerLoss =>
  }

  lemma RunningMove(s: State, c: nat, sql: Sql)
    requires Next(s, Advance(c, sql)).Some? && (s.sh.running ==> !s.sh.worker.Absent? || BeingStarted(s))
    ensures var s' := Next(s, Advance(c, sql)).value; s'.sh.running ==> !s'.sh.worker.Absent? || BeingStarted(s')
  {
    var s' := Next(s, Advance(c, sql)).value;
    OwnRunning(s.sh, c, PcOf(s, c), sql);
    assert PcOf(s', c) == AdvanceClient(s.sh, c, PcOf(s, c), sql).pc;
    if d: nat :| PcOf(s, d).StartFlag? || PcOf(s, d).StartSpawn? {
      assert d != c ==> PcOf(s', d) == PcOf(s, d);
    }
  }

  lemma OwnRunning(s: Shared, c: nat, pc: ClientPc, sql: Sql)
    requires AdvanceClient(s, c, pc, sql).Moved?
    ensures var m := AdvanceClient(s, c, pc, sql);
      && (m.sh.running ==> s.running || m.pc.StartFlag?)
      && (!s.worker.Absent? ==> !m.sh.worker.Absent?)
      && (pc.StartFlag? || pc.StartSpawn? ==> m.pc.StartSpawn? || !m.sh.worker.Absent?)
  {
  }

  lemma InitCourse(s: Shared, sql: Sql)
    requires InInit(s.worker) && InitStep(s, sql).Worked?
    ensures var s' := InitStep(s, sql).sh; var w' := s'.worker;
      && (s'.running ==> s.running)
      && !w'.Absent? && !w'.InitLock? && !w'.Leave? && !w'.Wait? && !w'.FinFirst? && !w'.FinFlag?
  {
  }

  lemma FinCourse(s: Shared)
    requires InFin(s.worker) && FinStep(s).Worked?
    ensures var s' := FinStep(s).sh; var w' := s'.worker;
      && s'.running == s.running
      && !w'.Absent? && !w'.InitLock? && !w'.Leave? && !w'.Wait? && !w'.FinFirst?
      && (w'.FinFlag? <==> s.worker.FinUnlockCurrent? && s.worker.launchFailed)
  {
  }

  lemma RecordCourse(s: Shared, sql: Sql, ok: bool, code: int)
    requires InRecord(s.worker)
    ensures var s' := Record(s, sql, ok, code).sh; var w' := s'.worker;
      && s'.running == s.running
      && !w'.Absent? && !w'.InitLock? && !w'.Leave? && !w'.Wait? && !w'.FinFirst? && !w'.FinFlag?
  {
  }

  /** When the worker ends the queue is no longer running. */
  lemma WorkerEnds(s: Shared, sql: Sql, ok: bool, code: int)
    requires AdvanceWorker(s, sql, ok, code).Worked?
    ensures var s' := AdvanceWorker(s, sql, ok, code).sh;
      (s'.worker.Absent? ==> !s'.running && s.worker.Leave?) && (s'.running ==> s.running)
  {
    if InInit(s.worker) {
      InitCourse(s, sql);
    } else if InFin(s.worker) {
      FinCourse(s);
    } else if InRecord(s.worker) {
      RecordCourse(s, sql, ok, code);
    }
  }

  /** In every reachable state: if the queue is said to run there is a worker, or a
      client is about to begin one. */
  lemma {:induction false} RunningIsReal(tokenFirst: bool, run: seq<Action>)
    requires IsRunFrom(Init(tokenFirst), run)
    ensures var s := Exec(Init(tokenFirst), run).value; s.sh.running ==> !s.sh.worker.Absent? || BeingStarted(s)
  {
    if |run| > 0 {
      var n := |run| - 1;
      PrefixRuns(Init(tokenFirst), run, n);
      RunningIsReal(tokenFirst, run[..n]);
      RunningNext(Exec(Init(tokenFirst), run[..n]).value, run[n]);
    }
  }

  /** A crash leaves the tables and the counter, and nothing of what is in memory. */
  lemma CrashClears(s: State)
    ensures var t := Next(s, PowerLoss).value;
      && t.sh.pending == s.sh.pending && t.sh.done == s.sh.done && t.sh.lastID == s.sh.lastID
      && t.sh.current == Task("", [], "", 0, 0, false) && !t.sh.running && !t.sh.start
      && t.sh.token.Free? && t.sh.cur.Free? && t.sh.worker.Absent? && forall c: nat :: PcOf(t, c).Idle?
  {
  }

  // ---- The course of the loop -------------------------------------------------------

  /** The worker goes into mainLoopInit only if it finds m_start set, and ends the
      loop only if not; it finishes a task only after its launch has failed, or
      after it was launched and has been found to have ended. */
  lemma LoopCourse(s: Shared, sql: Sql, ok: bool, code: int)
    requires AdvanceWorker(s, sql, ok, code).Worked?
    ensures var w, w' := s.worker, AdvanceWorker(s, sql, ok, code).sh.worker;
      && (w'.InitLock? <==> w.TestStart? && s.start)
      && (w'.Leave? <==> w.TestStart? && !s.start)
      && (w'.Wait? <==> (w.Launch? || w.Wait?) && ok)
      && (w'.FinFirst? <==> (w.Launch? || w.Wait?) && !ok)
      && (w'.FinFirst? ==> w'.launchFailed == w.Launch?)
      && (w'.FinFlag? <==> w.FinUnlockCurrent? && w.launchFailed)
  {
    if InInit(s.worker) {
      InitCourse(s, sql);
    } else if InFin(s.worker) {
      FinCourse(s);
    } else if InRecord(s.worker) {
      RecordCourse(s, sql, ok, code);
    }
  }
}
