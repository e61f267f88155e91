/** Concrete runs of the code as it is: one that records a task as done while it
    is still pending, and one that ends in a deadlock. */
module Witnesses {
  import opened Tasks
  import opened FifoQueue
  import opened WorkerSpec
  import opened Protocol
  import opened OrderTheorems
  import opened Deadlock

  ghost predicate Reached(s: State) {
    exists run :: Exec(Init(false), run) == Some(s)
  }

  lemma Move(s: State, a: Action, s': State)
    requires Reached(s) && Next(s, a) == Some(s')
    ensures Reached(s')
  {
    var run :| Exec(Init(false), run) == Some(s);
    assert (run + [a])[..|run|] == run;
    assert Exec(Init(false), run + [a]) == Some(s');
  }

  lemma MoveClient(sh: Shared, pc: ClientPc, sql: Sql, sh': Shared, pc': ClientPc)
    requires Reached(State(sh, map[0 := pc])) && AdvanceClient(sh, 0, pc, sql) == Moved(sh', pc')
    ensures Reached(State(sh', map[0 := pc']))
  {
    assert map[0 := pc][0 := pc'] == map[0 := pc'];
    Move(State(sh, map[0 := pc]), Advance(0, sql), State(sh', map[0 := pc']));
  }

  lemma MoveBegin(sh: Shared, call: Call)
    requires Reached(State(sh, map[0 := Idle]))
    ensures Reached(State(sh, map[0 := Entry(call)]))
  {
    assert map[0 := Idle][0 := Entry(call)] == map[0 := Entry(call)];
    Move(State(sh, map[0 := Idle]), Begin(0, call), State(sh, map[0 := Entry(call)]));
  }

  lemma MoveWorker(sh: Shared, sql: Sql, ok: bool, pc: ClientPc, sh': Shared)
    requires Reached(State(sh, map[0 := pc])) && AdvanceWorker(sh, sql, ok, 0) == Worked(sh')
    ensures Reached(State(sh', map[0 := pc]))
  {
    Move(State(sh, map[0 := pc]), Work(sql, ok, 0), State(sh', map[0 := pc]));
  }

  /** One client has added the task t. */
  function Added1(t: Task): Shared {
    Fresh(false).(pending := [ToRow(t.(id := 0))], lastID := 1)
  }

  /** The id 0 is drawn and the token held. */
  function Drawn(): Shared {
    var f := Fresh(false);
    f.(token := ByClient(0), lastID := 1, hist := f.hist.(taken := {0}))
  }

  lemma DrawPhase(t: Task)
    ensures Reached(State(Drawn(), map[0 := AddInsert(t, 0)]))
  {
    var f := Fresh(false);
    assert Exec(Init(false), []) == Some(Init(false));
    Move(Init(false), Begin(0, Add(t)), State(f, map[0 := AwaitToken(Add(t))]));
    var locked := f.(token := ByClient(0));
    MoveClient(f, AwaitToken(Add(t)), Success, locked, AddSelect(t));
    MoveClient(locked, AddSelect(t), Success, locked, AddUpdate(t, 0));
    MoveClient(locked, AddUpdate(t, 0), Success, Drawn(), AddInsert(t, 0));
  }

  lemma ClientUnlocks(s: Shared, call: Call, reply: Reply)
    requires Reached(State(s, map[0 := Unlock(call, reply)]))
    ensures Reached(State(s.(token := Free), map[0 := Idle]))
  {
    MoveClient(s, Unlock(call, reply), Success, s.(token := Free), Return(call, reply));
    MoveClient(s.(token := Free), Return(call, reply), Success, s.(token := Free), Idle);
  }

  lemma InsertPhase(t: Task)
    ensures Reached(State(Added1(t).(token := ByClient(0)), map[0 := Unlock(Add(t), Added(0))]))
  {
    DrawPhase(t);
    assert IdSet([]) == {};
    MoveClient(Drawn(), AddInsert(t, 0), Success, Added1(t).(token := ByClient(0)), Unlock(Add(t), Added(0)));
  }

  lemma AddPhase(t: Task)
    ensures Reached(State(Added1(t), map[0 := Idle]))
  {
    InsertPhase(t);
    ClientUnlocks(Added1(t).(token := ByClient(0)), Add(t), Added(0));
  }

  /** The queue has been started. */
  function Started(t: Task): Shared {
    Added1(t).(running := true, start := true, worker := TestStart)
  }

  lemma LoadPhase(s: Shared)
    requires Reached(State(s, map[0 := Idle])) && !s.running
    ensures Reached(State(s, map[0 := StartRunning]))
  {
    MoveBegin(s, Start);
    MoveClient(s, StartLoad, Success, s, StartRunning);
  }

  lemma RunningPhase(s: Shared)
    requires Reached(State(s, map[0 := StartRunning]))
    ensures Reached(State(s.(running := true), map[0 := StartFlag]))
  {
    MoveClient(s, StartRunning, Success, s.(running := true), StartFlag);
  }

  lemma FlagPhase(s: Shared)
    requires Reached(State(s, map[0 := StartFlag]))
    ensures Reached(State(s.(start := true), map[0 := StartSpawn]))
  {
    MoveClient(s, StartFlag, Success, s.(start := true), StartSpawn);
  }

  lemma SpawnPhase(s: Shared)
    requires Reached(State(s, map[0 := StartSpawn])) && s.worker.Absent?
    ensures Reached(State(s.(worker := TestStart), map[0 := Idle]))
  {
    MoveClient(s, StartSpawn, Success, s.(worker := TestStart), Return(Start, Done));
    MoveClient(s.(worker := TestStart), Return(Start, Done), Success, s.(worker := TestStart), Idle);
  }

  lemma StartPhase(t: Task)
    ensures Reached(State(Started(t), map[0 := Idle]))
  {
    var s := Added1(t);
    AddPhase(t);
    LoadPhase(s);
    RunningPhase(s);
    FlagPhase(s.(running := true));
    SpawnPhase(s.(running := true, start := true));
  }

  /** The worker has run the task and holds the current task in mainLoopFin. */
  function Finishing(t: Task): Shared {
    var row := ToRow(t.(id := 0));
    Started(t).(worker := FinExit(false), current := FromRow(row), flight := Flying(row), cur := ByWorker)
  }

  lemma SelectPhase(s: Shared)
    requires Reached(State(s, map[0 := Idle])) && s.worker.TestStart? && s.start && s.token.Free? && |s.pending| > 0
    ensures Reached(State(s.(token := ByWorker, worker := InitLockCurrent(s.pending[0])), map[0 := Idle]))
  {
    MoveWorker(s, Success, true, Idle, s.(worker := InitLock));
    var locked := s.(worker := InitSelect, token := ByWorker);
    MoveWorker(s.(worker := InitLock), Success, true, Idle, locked);
    MoveWorker(locked, Success, true, Idle, locked.(worker := InitLockCurrent(s.pending[0])));
  }

  lemma CopyPhase(s: Shared, row: Row)
    requires Reached(State(s, map[0 := Idle])) && s.worker == InitLockCurrent(row) && s.cur.Free?
    ensures Reached(State(s.(token := Free, worker := Launch, current := FromRow(row), flight := Flying(row)),
                          map[0 := Idle]))
  {
    var locked := s.(worker := InitCopy(row), cur := ByWorker);
    MoveWorker(s, Success, true, Idle, locked);
    var copied := locked.(current := FromRow(row), flight := Flying(row), worker := InitUnlockCurrent);
    MoveWorker(locked, Success, true, Idle, copied);
    var unlocked := copied.(cur := Free, worker := InitUnlock(true));
    MoveWorker(copied, Success, true, Idle, unlocked);
    MoveWorker(unlocked, Success, true, Idle, unlocked.(worker := Launch, token := Free));
  }

  lemma PickPhase(t: Task)
    ensures Reached(State(Started(t).(worker := Launch, current := FromRow(ToRow(t.(id := 0))),
                                      flight := Flying(ToRow(t.(id := 0)))), map[0 := Idle]))
  {
    var row, s := ToRow(t.(id := 0)), Started(t);
    StartPhase(t);
    SelectPhase(s);
    CopyPhase(s.(token := ByWorker, worker := InitLockCurrent(row)), row);
  }

  lemma RunPhase(t: Task)
    ensures Reached(State(Finishing(t), map[0 := Idle]))
  {
    var row := ToRow(t.(id := 0));
    var s := Started(t).(current := FromRow(row), flight := Flying(row));
    PickPhase(t);
    MoveWorker(s.(worker := Launch), Success, true, Idle, s.(worker := Wait));
    MoveWorker(s.(worker := Wait), Success, false, Idle, s.(worker := FinFirst(false)));
    MoveWorker(s.(worker := FinFirst(false)), Success, true, Idle, Finishing(t));
  }

  /** Not in every run is what is done older than what is pending: when the delete
      of mainLoopFin is stepped and fails, the same id ends up in both tables. */
  lemma SlipHappens(t: Task)
    ensures exists s ::
              Reached(s) && !Strict(s.sh) && 0 in IdSet(s.sh.pending) && 0 in IdSet(s.sh.done)
  {
    var row := ToRow(t.(id := 0));
    var s := Finishing(t);
    RunPhase(t);
    var exited := s.(current := s.current.(exitCode := 0), worker := FinSecond(false));
    MoveWorker(s, Success, true, Idle, exited);
    var locked := exited.(token := ByWorker, worker := FinDelete(false));
    MoveWorker(exited, Success, true, Idle, locked);
    var kept := locked.(worker := FinInsert(false, [], true));
    MoveWorker(locked, NoStep, true, Idle, kept);
    assert IdSet([]) == {};
    var both := kept.(done := [] + [ToRow(kept.current)], worker := FinReset(false, true), flight := NoFlight,
                      hist := kept.hist.(entered := [] + [0]));
    MoveWorker(kept, Success, true, Idle, both);
    assert both.pending[0] == row && row in both.pending;
    assert ToRow(kept.current) in both.done;
    assert both.hist.entered[0] == 0 && 0 in both.hist.entered;
    assert Reached(State(both, map[0 := Idle]));
  }

  /** The code as it is can deadlock, by either of the calls that lock both: one
      client adds a task and starts the queue, and makes that call while the task
      finishes. */
  lemma DeadlockHappens(t: Task, call: Call)
    requires LocksBoth(call)
    ensures exists s :: Reached(s) && Embrace(s) && PcOf(s, 0) == AwaitCurrent(call)
  {
    var s := Finishing(t);
    RunPhase(t);
    MoveBegin(s, call);
    var locked := s.(token := ByClient(0));
    MoveClient(s, AwaitToken(call), Success, locked, AwaitCurrent(call));
    var exited := locked.(current := s.current.(exitCode := 0), worker := FinSecond(false));
    MoveWorker(locked, Success, true, AwaitCurrent(call), exited);
    assert Embrace(State(exited, map[0 := AwaitCurrent(call)]));
  }

  /** n actions of a worker whose selects are refused. */
  function Refusals(n: nat): seq<Action> {
    seq(n, _ => Work(NoPrepare, true, 0))
  }

  lemma ExecMore(s: State, run: seq<Action>, a: Action)
    requires Exec(s, run).Some?
    ensures Exec(s, run + [a]) == Next(Exec(s, run).value, a)
  {
    assert (run + [a])[..|run|] == run;
  }

  lemma RefusalNext(s: State, n: nat, t: State, sh: Shared)
    requires Exec(s, Refusals(n)) == Some(t) && AdvanceWorker(t.sh, NoPrepare, true, 0) == Worked(sh)
    ensures Exec(s, Refusals(n + 1)) == Some(t.(sh := sh))
  {
    assert Refusals(n + 1) == Refusals(n) + [Work(NoPrepare, true, 0)];
    ExecMore(s, Refusals(n), Work(NoPrepare, true, 0));
  }

  lemma RefusedTest(s: State, m: nat)
    requires s.sh.worker.TestStart? && s.sh.start && s.sh.token.Free? && Exec(s, Refusals(m)) == Some(s)
    ensures Exec(s, Refusals(m + 2)) == Some(s.(sh := s.sh.(token := ByWorker, worker := InitSelect)))
  {
    var locks := s.sh.(worker := InitLock);
    RefusalNext(s, m, s, locks);
    RefusalNext(s, m + 1, s.(sh := locks), locks.(token := ByWorker, worker := InitSelect));
  }

  lemma RefusedSelect(s: State, m: nat, t: State)
    requires t.sh.worker.InitSelect? && Exec(s, Refusals(m)) == Some(t)
    ensures Exec(s, Refusals(m + 2)) == Some(t.(sh := t.sh.(token := Free, worker := TestStart)))
  {
    var unlocks := t.sh.(worker := InitUnlock(false));
    RefusalNext(s, m, t, unlocks);
    RefusalNext(s, m + 1, t.(sh := unlocks), unlocks.(token := Free, worker := TestStart));
  }

  predicate Back(s: State, k: nat) {
    Exec(s, Refusals(k)) == Some(s)
  }

  /** Four of them lead back to where they began. */
  lemma RefusedRound(s: State, k: nat)
    requires s.sh.worker.TestStart? && s.sh.start && s.sh.token.Free? && Back(s, k)
    ensures Back(s, k + 4)
  {
    var t := s.(sh := s.sh.(token := ByWorker, worker := InitSelect));
    RefusedTest(s, k);
    RefusedSelect(s, k + 2, t);
    assert t.(sh := t.sh.(token := Free, worker := TestStart)) == s;
  }

  lemma {:induction false} RefusedRounds(s: State, n: nat)
    requires s.sh.worker.TestStart? && s.sh.start && s.sh.token.Free?
    ensures Back(s, 4 * n)
  {
    if n > 0 {
      RefusedRounds(s, n - 1);
      RefusedRound(s, 4 * (n - 1));
      assert 4 * (n - 1) + 4 == 4 * n;
    }
  }

  /** The loop of the worker need not end: with a task pending and the queue started,
      it comes back to the same state for ever if every select is refused. */
  lemma LoopForever(t: Task)
    ensures exists s ::
              Reached(s) && s.sh.start && |s.sh.pending| == 1 && forall n: nat :: Back(s, 4 * n)
  {
    StartPhase(t);
    var s := State(Started(t), map[0 := Idle]);
    forall n: nat ensures Back(s, 4 * n) {
      RefusedRounds(s, n);
    }
  }
}
