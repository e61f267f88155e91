/** Whether the worker loop ends, the worker acting alone: exactly what makes it go
    on for ever. */
module Endless {
  import opened Tasks
  import opened WorkerSpec
  import opened Protocol
  import opened ProtocolInvariant

  /** What the worker meets in one action. */
  datatype Input = Input(sql: Sql, ok: bool, code: int)

  function Act(s: Shared, i: Input): WorkerMove {
    AdvanceWorker(s, i.sql, i.ok, i.code)
  }

  // ---- The worker alone ----------------------------------------------------------

  /** The worker has chosen the first pending row, which is still there. */
  predicate Chosen1(w: WorkerPc) {
    w.InitUnlockCurrent? || (w.InitUnlock? && w.picked) || w.Launch? || w.Wait? || w.FinFirst?
    || w.FinExit? || w.FinSecond? || w.FinDelete? || (w.FinInsert? && w.kept)
  }

  /** Nobody else holds a mutex. */
  predicate NoneElse(s: Shared) {
    && s.token == (if WorkerHasToken(s.worker, s.tokenFirst) then ByWorker else Free)
    && s.cur == (if WorkerHasCurrent(s.worker, s.tokenFirst) then ByWorker else Free)
  }

  /** Nobody has touched pending since the worker looked. */
  predicate Sees(s: Shared) {
    && (s.worker.InitLockCurrent? || s.worker.InitCopy? ==> |s.pending| > 0 && s.worker.row == s.pending[0])
    && (s.worker.InitRunFlag? ==> !s.start)
    && (Chosen1(s.worker) ==> |s.pending| > 0 && s.current.id == s.pending[0].id)
  }

  predicate Alone(s: Shared) {
    NoneElse(s) && Sees(s)
  }

  /** Alone, the worker is never kept waiting; it stops by ending the loop. */
  lemma StuckIsAbsent(s: Shared, i: Input)
    requires Alone(s)
    ensures Act(s, i).Stuck? <==> s.worker.Absent?
  {
  }

  /** The worker passes the select of mainLoopInit. */
  predicate Selects(s: Shared, i: Input) {
    s.worker.InitSelect? && !i.sql.NoPrepare?
  }

  /** How often the select can still be passed from the head of the loop. */
  function Passes(s: Shared): nat {
    if |s.pending| > 0 && s.pending[0].id in IdSet(s.done) then 1 else |s.pending| + 1
  }

  /** How often the select can still be passed. */
  function Budget(s: Shared): nat {
    match s.worker
    case TestStart => if s.start then Passes(s) else 0
    case InitLock => Passes(s)
    case InitSelect => Passes(s)
    case InitUnlock(picked) => if picked then Passes(s) - 1 else if s.start then Passes(s) else 0
    case FinInsert(_, _, kept) => if s.current.id in IdSet(s.done) then 0 else if kept then 1 else Passes(s)
    case FinReset(_, _) => if s.start then Passes(s) else 0
    case FinUnlockToken(_) => if s.start then Passes(s) else 0
    case FinUnlockCurrent(_) => if s.start then Passes(s) else 0
    case _ => if Chosen1(s.worker) || s.worker.InitLockCurrent? || s.worker.InitCopy? then Passes(s) - 1 else 0
  }

  lemma InitKeeps(s: Shared, sql: Sql)
    requires NoneElse(s) && InInit(s.worker) && InitStep(s, sql).Worked?
    ensures NoneElse(InitStep(s, sql).sh)
  {
  }

  lemma InitSees(s: Shared, sql: Sql)
    requires Sees(s) && InInit(s.worker) && InitStep(s, sql).Worked?
    ensures Sees(InitStep(s, sql).sh)
  {
  }

  lemma InitSpends(s: Shared, sql: Sql)
    requires Sees(s) && InInit(s.worker) && InitStep(s, sql).Worked?
    ensures Budget(InitStep(s, sql).sh) + (if s.worker.InitSelect? && !sql.NoPrepare? then 1 else 0) <= Budget(s)
  {
  }

  lemma FinKeeps(s: Shared)
    requires NoneElse(s) && InFin(s.worker) && FinStep(s).Worked?
    ensures NoneElse(FinStep(s).sh)
  {
  }

  lemma FinSees(s: Shared)
    requires Sees(s) && InFin(s.worker) && FinStep(s).Worked?
    ensures Sees(FinStep(s).sh)
  {
  }

  lemma FinSpends(s: Shared)
    requires Sees(s) && InFin(s.worker) && FinStep(s).Worked?
    ensures Budget(FinStep(s).sh) <= Budget(s)
  {
  }

  lemma LoopKeeps(s: Shared, ok: bool)
    requires NoneElse(s) && !InInit(s.worker) && !InFin(s.worker) && !InRecord(s.worker) && LoopStep(s, ok).Worked?
    ensures NoneElse(LoopStep(s, ok).sh)
  {
  }

  lemma LoopSpends(s: Shared, ok: bool)
    requires Sees(s) && !InInit(s.worker) && !InFin(s.worker) && !InRecord(s.worker) && LoopStep(s, ok).Worked?
    ensures Sees(LoopStep(s, ok).sh) && Budget(LoopStep(s, ok).sh) <= Budget(s)
  {
  }

  lemma {:induction false} DeleteShrinks(rows: seq<Row>, id: int)
    ensures |Without(rows, id)| <= |rows|
    ensures |rows| > 0 && rows[0].id == id ==> |Without(rows, id)| < |rows|
  {
    if |rows| > 0 {
      DeleteShrinks(rows[1..], id);
    }
  }

  lemma RecordKeeps(s: Shared, sql: Sql, ok: bool, code: int)
    requires NoneElse(s) && InRecord(s.worker)
    ensures NoneElse(Record(s, sql, ok, code).sh)
  {
  }

  lemma DeleteSpends(s: Shared, sql: Sql, ok: bool, code: int)
    requires Sees(s) && s.worker.FinDelete?
    ensures var s' := Record(s, sql, ok, code).sh; Sees(s') && Budget(s') <= Budget(s)
  {
    DeleteShrinks(s.pending, s.current.id);
  }

  lemma InsertSpends(s: Shared, sql: Sql, ok: bool, code: int)
    requires Sees(s) && s.worker.FinInsert?
    ensures var s' := Record(s, sql, ok, code).sh; Sees(s') && Budget(s') <= Budget(s)
  {
    IdSetAppend(s.done, ToRow(s.current));
  }

  lemma RecordSpends(s: Shared, sql: Sql, ok: bool, code: int)
    requires Sees(s) && InRecord(s.worker)
    ensures var s' := Record(s, sql, ok, code).sh; Sees(s') && Budget(s') <= Budget(s)
  {
    match s.worker
    case FinDelete(_) => DeleteSpends(s, sql, ok, code);
    case FinInsert(_, _, _) => InsertSpends(s, sql, ok, code);
    case _ =>
  }

  lemma ActSpends(s: Shared, i: Input)
    requires Alone(s) && Act(s, i).Worked?
    ensures var s' := Act(s, i).sh; Alone(s') && Budget(s') + (if Selects(s, i) then 1 else 0) <= Budget(s)
  {
    if InInit(s.worker) {
      InitKeeps(s, i.sql);
      InitSees(s, i.sql);
      InitSpends(s, i.sql);
    } else if InFin(s.worker) {
      FinKeeps(s);
      FinSees(s);
      FinSpends(s);
    } else if InRecord(s.worker) {
      RecordKeeps(s, i.sql, i.ok, i.code);
      RecordSpends(s, i.sql, i.ok, i.code);
    } else {
      LoopKeeps(s, i.ok);
      LoopSpends(s, i.ok);
    }
  }

  // ---- Towards the end of the loop ----------------------------------------------

  /** The worker tries the select, or is about to. */
  predicate Trying(w: WorkerPc) {
    w.TestStart? || w.InitLock? || w.InitSelect? || (w.InitUnlock? && !w.picked)
  }

  /** How far the worker is from trying the select again, or from the end. */
  function Rank(s: Shared): nat {
    match s.worker
    case InitLockCurrent(_) => 30
    case InitCopy(_) => 29
    case InitUnlockCurrent => 28
    case InitUnlock(picked) => if picked then 27 else if s.start then 12 else 9
    case Launch => 26
    case Wait => 25
    case FinFirst(_) => 24
    case FinExit(_) => if s.tokenFirst then 22 else 23
    case FinSecond(_) => if s.tokenFirst then 23 else 22
    case FinDelete(_) => 21
    case FinInsert(_, _, _) => 20
    case FinFail(_, _) => 19
    case FinReset(_, _) => 18
    case FinUnlockToken(_) => 17
    case FinUnlockCurrent(_) => 16
    case FinFlag => 15
    case InitStopFlag => 14
    case InitRunFlag => 13
    case TestStart => if s.start then 12 else 8
    case InitLock => if s.start then 12 else 11
    case InitSelect => if s.start then 12 else 10
    case Leave => 7
    case Absent => 6
  }

  /** Unless it passes the select, the worker comes nearer, but for waiting for its
      process and for trying again. */
  lemma ActComesNearer(s: Shared, i: Input)
    requires Act(s, i).Worked? && !Selects(s, i)
    ensures var s' := Act(s, i).sh;
      || Rank(s') < Rank(s)
      || (s.worker.Wait? && i.ok && s'.worker.Wait?)
      || (Trying(s.worker) && s.start && Trying(s'.worker) && s'.start)
  {
    if InInit(s.worker) {
      InitComesNearer(s, i.sql);
    } else if InFin(s.worker) {
      FinComesNearer(s);
    } else if InRecord(s.worker) {
      RecordComesNearer(s, i.sql, i.ok, i.code);
    }
  }

  lemma InitComesNearer(s: Shared, sql: Sql)
    requires InInit(s.worker) && InitStep(s, sql).Worked? && !(s.worker.InitSelect? && !sql.NoPrepare?)
    ensures var s' := InitStep(s, sql).sh;
      Rank(s') < Rank(s) || (Trying(s.worker) && s.start && Trying(s'.worker) && s'.start)
  {
  }

  lemma FinComesNearer(s: Shared)
    requires InFin(s.worker) && FinStep(s).Worked?
    ensures Rank(FinStep(s).sh) < Rank(s)
  {
  }

  lemma RecordComesNearer(s: Shared, sql: Sql, ok: bool, code: int)
    requires InRecord(s.worker)
    ensures Rank(Record(s, sql, ok, code).sh) < Rank(s)
  {
  }

  lemma TryingStep(s: Shared, i: Input)
    requires Alone(s) && Trying(s.worker) && s.start && !Selects(s, i)
    ensures Act(s, i).Worked? && Trying(Act(s, i).sh.worker) && Act(s, i).sh.start
  {
  }

  // ---- Runs without end ------------------------------------------------------------

  /** All that matters of the actions of the worker here. */
  ghost predicate Tame(act: (Shared, Input) -> WorkerMove) {
    && (forall s: Shared, i: Input :: Alone(s) && act(s, i).Worked? ==>
          Alone(act(s, i).sh) && Budget(act(s, i).sh) + (if Selects(s, i) then 1 else 0) <= Budget(s))
    && (forall s: Shared, i: Input :: Alone(s) && act(s, i).Worked? && !Selects(s, i) ==>
          || Rank(act(s, i).sh) < Rank(s)
          || (s.worker.Wait? && i.ok && act(s, i).sh.worker.Wait?)
          || (Trying(s.worker) && s.start && Trying(act(s, i).sh.worker) && act(s, i).sh.start))
    && (forall s: Shared, i: Input :: Trying(s.worker) && Alone(s) && s.start && !Selects(s, i) ==>
          act(s, i).Worked? && Trying(act(s, i).sh.worker) && act(s, i).sh.start)
    && (forall s: Shared, i: Input :: s.worker.Wait? && i.ok ==> act(s, i) == Worked(s))
  }

  lemma ActIsTame()
    ensures Tame(Act)
  {
    forall s: Shared, i: Input | Alone(s) && Act(s, i).Worked?
      ensures Alone(Act(s, i).sh) && Budget(Act(s, i).sh) + (if Selects(s, i) then 1 else 0) <= Budget(s)
    {
      ActSpends(s, i);
    }
    forall s: Shared, i: Input | Alone(s) && Act(s, i).Worked? && !Selects(s, i)
      ensures
        || Rank(Act(s, i).sh) < Rank(s)
        || (s.worker.Wait? && i.ok && Act(s, i).sh.worker.Wait?)
        || (Trying(s.worker) && s.start && Trying(Act(s, i).sh.worker) && Act(s, i).sh.start)
    {
      ActComesNearer(s, i);
    }
    forall s: Shared, i: Input | Trying(s.worker) && Alone(s) && s.start && !Selects(s, i)
      ensures Act(s, i).Worked? && Trying(Act(s, i).sh.worker) && Act(s, i).sh.start
    {
      TryingStep(s, i);
    }
  }

  /** The state after n actions, or Stuck if they cannot be made. */
  function Go(act: (Shared, Input) -> WorkerMove, s: Shared, input: nat -> Input, n: nat): WorkerMove {
    if n == 0 then Worked(s)
    else match Go(act, s, input, n - 1)
         case Stuck => Stuck
         case Worked(t) => act(t, input(n - 1))
  }

  /** There is no end to the actions. */
  ghost predicate GoesOn(act: (Shared, Input) -> WorkerMove, s: Shared, input: nat -> Input) {
    forall n: nat :: Go(act, s, input, n).Worked?
  }

  function BudgetAt(act: (Shared, Input) -> WorkerMove, s: Shared, input: nat -> Input, n: nat): nat {
    match Go(act, s, input, n)
    case Stuck => 0
    case Worked(t) => Budget(t)
  }

  function RankAt(act: (Shared, Input) -> WorkerMove, s: Shared, input: nat -> Input, n: nat): nat {
    match Go(act, s, input, n)
    case Stuck => 0
    case Worked(t) => Rank(t)
  }

  predicate SelectsAt(act: (Shared, Input) -> WorkerMove, s: Shared, input: nat -> Input, n: nat) {
    match Go(act, s, input, n)
    case Stuck => false
    case Worked(t) => Selects(t, input(n))
  }

  /** From action n on the select is never passed. */
  ghost predicate NoSelect(act: (Shared, Input) -> WorkerMove, s: Shared, input: nat -> Input, n: nat) {
    forall i: nat :: n <= i ==> !SelectsAt(act, s, input, i)
  }

  /** From action n on the worker waits for a process that never ends. */
  ghost predicate WaitsForever(act: (Shared, Input) -> WorkerMove, s: Shared, input: nat -> Input, n: nat) {
    && Go(act, s, input, n).Worked? && Go(act, s, input, n).sh.worker.Wait?
    && forall i: nat :: n <= i ==> input(i).ok
  }

  /** From action n on m_start is set and every select is refused. */
  ghost predicate RefusedForever(act: (Shared, Input) -> WorkerMove, s: Shared, input: nat -> Input, n: nat) {
    && Go(act, s, input, n).Worked? && Trying(Go(act, s, input, n).sh.worker) && Go(act, s, input, n).sh.start
    && NoSelect(act, s, input, n)
  }

  lemma {:induction false} AloneAt(act: (Shared, Input) -> WorkerMove, s: Shared, input: nat -> Input, n: nat)
    requires Tame(act) && Alone(s) && Go(act, s, input, n).Worked?
    ensures Alone(Go(act, s, input, n).sh)
  {
    if n > 0 {
      AloneAt(act, s, input, n - 1);
    }
  }

  lemma {:induction false} BudgetFalls(act: (Shared, Input) -> WorkerMove, s: Shared, input: nat -> Input,
                                       m: nat, n: nat)
    requires Tame(act) && Alone(s) && m < n && Go(act, s, input, n).Worked?
    ensures Go(act, s, input, m).Worked?
    ensures BudgetAt(act, s, input, n) + (if SelectsAt(act, s, input, m) then 1 else 0) <= BudgetAt(act, s, input, m)
    decreases n
  {
    if m < n - 1 {
      BudgetFalls(act, s, input, m, n - 1);
    }
    AloneAt(act, s, input, n - 1);
  }

  /** What costs something each time it happens ends some time. */
  lemma {:induction false} HitsEnd(budget: nat -> nat, hit: nat -> bool, m: nat) returns (n: nat)
    requires forall i: nat, j: nat :: m <= i < j ==> budget(j) + (if hit(i) then 1 else 0) <= budget(i)
    ensures forall i: nat :: n <= i ==> !hit(i)
    decreases budget(m)
  {
    n := m;
    if i: nat :| m <= i && hit(i) {
      assert budget(i + 1) + 1 <= budget(i) && (m < i ==> budget(i) <= budget(m));
      n := HitsEnd(budget, hit, i + 1);
    }
  }

  /** A rank that falls again and again comes to a halt. */
  lemma {:induction false} ComesToHalt(rank: nat -> nat, halt: nat -> bool, m: nat) returns (n: nat)
    requires forall i: nat :: m <= i && !halt(i) ==> exists j: nat :: i < j && rank(j) < rank(i)
    ensures m <= n && halt(n)
    decreases rank(m)
  {
    if halt(m) {
      n := m;
    } else {
      var j: nat :| m < j && rank(j) < rank(m);
      n := ComesToHalt(rank, halt, j);
    }
  }

  lemma SelectsEnd(act: (Shared, Input) -> WorkerMove, s: Shared, input: nat -> Input) returns (n: nat)
    requires Tame(act) && Alone(s) && GoesOn(act, s, input)
    ensures NoSelect(act, s, input, n)
  {
    var budget, hit := (i: nat) => BudgetAt(act, s, input, i), (i: nat) => SelectsAt(act, s, input, i);
    forall i: nat, j: nat | 0 <= i < j ensures budget(j) + (if hit(i) then 1 else 0) <= budget(i) {
      assert Go(act, s, input, j).Worked?;
      BudgetFalls(act, s, input, i, j);
    }
    n := HitsEnd(budget, hit, 0);
    forall i: nat | n <= i ensures !SelectsAt(act, s, input, i) {
      assert !hit(i);
    }
  }

  /** The worker waits for ever, or tries the select with m_start set. */
  ghost predicate Halts(act: (Shared, Input) -> WorkerMove, s: Shared, input: nat -> Input, n: nat) {
    match Go(act, s, input, n)
    case Stuck => false
    case Worked(t) => WaitsForever(act, s, input, n) || (Trying(t.worker) && t.start)
  }

  /** Short of that it comes nearer. */
  lemma ComesNearer(act: (Shared, Input) -> WorkerMove, s: Shared, input: nat -> Input, m: nat) returns (j: nat)
    requires Tame(act) && Alone(s) && GoesOn(act, s, input)
    requires !SelectsAt(act, s, input, m) && !Halts(act, s, input, m)
    ensures m < j && RankAt(act, s, input, j) < RankAt(act, s, input, m)
  {
    assert Go(act, s, input, m).Worked? && Go(act, s, input, m + 1).Worked?;
    if Go(act, s, input, m).sh.worker.Wait? {
      var i: nat :| m <= i && !input(i).ok;
      j := FirstEnd(act, s, input, m, i);
    } else {
      AloneAt(act, s, input, m);
      j := m + 1;
    }
  }

  lemma Settles(act: (Shared, Input) -> WorkerMove, s: Shared, input: nat -> Input, m: nat) returns (n: nat)
    requires Tame(act) && Alone(s) && GoesOn(act, s, input) && NoSelect(act, s, input, m)
    ensures m <= n && Halts(act, s, input, n)
  {
    var rank, halt := (i: nat) => RankAt(act, s, input, i), (i: nat) => Halts(act, s, input, i);
    forall i: nat | m <= i && !halt(i) ensures exists j: nat :: i < j && rank(j) < rank(i) {
      var j := ComesNearer(act, s, input, i);
      assert i < j && rank(j) < rank(i);
    }
    n := ComesToHalt(rank, halt, m);
  }

  lemma {:induction false} FirstEnd(act: (Shared, Input) -> WorkerMove, s: Shared, input: nat -> Input, m: nat,
                                    i: nat)
      returns (j: nat)
    requires Tame(act) && Alone(s) && GoesOn(act, s, input)
    requires Go(act, s, input, m).Worked? && Go(act, s, input, m).sh.worker.Wait? && m <= i && !input(i).ok
    ensures m < j && RankAt(act, s, input, j) < RankAt(act, s, input, m)
    decreases i - m
  {
    assert Go(act, s, input, m + 1).Worked?;
    if input(m).ok {
      j := FirstEnd(act, s, input, m + 1, i);
    } else {
      AloneAt(act, s, input, m);
      j := m + 1;
    }
  }

  lemma {:induction false} WaitingGoesOn(act: (Shared, Input) -> WorkerMove, s: Shared, input: nat -> Input, n: nat,
                                         i: nat)
    requires Tame(act) && WaitsForever(act, s, input, n) && n <= i
    ensures Go(act, s, input, i).Worked? && Go(act, s, input, i).sh.worker.Wait?
    decreases i
  {
    if n < i {
      WaitingGoesOn(act, s, input, n, i - 1);
    }
  }

  lemma {:induction false} TryingGoesOn(act: (Shared, Input) -> WorkerMove, s: Shared, input: nat -> Input, n: nat,
                                        i: nat)
    requires Tame(act) && Alone(s) && RefusedForever(act, s, input, n) && n <= i
    ensures var m := Go(act, s, input, i); m.Worked? && Trying(m.sh.worker) && m.sh.start
    decreases i
  {
    if n < i {
      TryingGoesOn(act, s, input, n, i - 1);
      assert !SelectsAt(act, s, input, i - 1);
      AloneAt(act, s, input, i - 1);
    }
  }

  lemma {:induction false} EarlierToo(act: (Shared, Input) -> WorkerMove, s: Shared, input: nat -> Input, m: nat,
                                      n: nat)
    requires m <= n && Go(act, s, input, n).Worked?
    ensures Go(act, s, input, m).Worked?
    decreases n
  {
    if m < n {
      EarlierToo(act, s, input, m, n - 1);
    }
  }

  lemma TameGoesOnIff(act: (Shared, Input) -> WorkerMove, s: Shared, input: nat -> Input)
    requires Tame(act) && Alone(s)
    ensures GoesOn(act, s, input)
       <==> exists n: nat :: WaitsForever(act, s, input, n) || RefusedForever(act, s, input, n)
  {
    if GoesOn(act, s, input) {
      var m := SelectsEnd(act, s, input);
      var n := Settles(act, s, input, m);
      assert WaitsForever(act, s, input, n) || RefusedForever(act, s, input, n);
    }
    if n: nat :| WaitsForever(act, s, input, n) || RefusedForever(act, s, input, n) {
      forall i: nat ensures Go(act, s, input, i).Worked? {
        if i < n {
          EarlierToo(act, s, input, i, n);
        } else if WaitsForever(act, s, input, n) {
          WaitingGoesOn(act, s, input, n, i);
        } else {
          TryingGoesOn(act, s, input, n, i);
        }
      }
    }
  }

  /** The loop of a worker that is alone never ends if and only if from some action on
      it waits for a process that does not end, or m_start is set and every select
      of mainLoopInit is refused before it is stepped. */
  lemma EndlessIff(s: Shared, input: nat -> Input)
    requires Alone(s)
    ensures GoesOn(Act, s, input)
       <==> exists n: nat :: WaitsForever(Act, s, input, n) || RefusedForever(Act, s, input, n)
  {
    ActIsTame();
    TameGoesOnIff(Act, s, input);
  }

  /** How often the select is passed in the first n actions. */
  function Selected(act: (Shared, Input) -> WorkerMove, s: Shared, input: nat -> Input, n: nat): nat {
    if n == 0 || Go(act, s, input, n - 1).Stuck? then 0
    else Selected(act, s, input, n - 1) + if Selects(Go(act, s, input, n - 1).sh, input(n - 1)) then 1 else 0
  }

  lemma {:induction false} TameIsBounded(act: (Shared, Input) -> WorkerMove, s: Shared, input: nat -> Input, n: nat)
    requires Tame(act) && Alone(s) && Go(act, s, input, n).Worked?
    ensures Selected(act, s, input, n) + Budget(Go(act, s, input, n).sh) <= Budget(s)
  {
    if n > 0 {
      TameIsBounded(act, s, input, n - 1);
      AloneAt(act, s, input, n - 1);
    }
  }

  /** However long it goes on, a worker that begins at the head of the loop passes
      the select at most once for each pending task and once more. */
  lemma SelectedIsBounded(s: Shared, input: nat -> Input, n: nat)
    requires Alone(s) && s.worker.TestStart? && Go(Act, s, input, n).Worked?
    ensures Selected(Act, s, input, n) <= |s.pending| + 1
  {
    ActIsTame();
    TameIsBounded(Act, s, input, n);
  }
}
