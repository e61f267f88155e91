/** How much the worker can still do after it has been told to stop. */
module StopBound {
  import opened Tasks
  import opened WorkerSpec
  import opened Protocol
  import opened ProtocolInvariant

  predicate IsPick(s: State, a: Action) {
    a.Work? && s.sh.worker.InitCopy?
  }

  /** The worker records its task in done. */
  predicate IsFinish(s: State, a: Action) {
    a.Work? && s.sh.worker.FinInsert? && a.sql.Success? && s.sh.current.id !in IdSet(s.sh.done)
  }

  predicate SetsStart(s: State, a: Action) {
    a.Advance? && PcOf(s, a.c).StartFlag?
  }

  function Picks(s: State, run: seq<Action>): nat
    requires IsRunFrom(s, run)
    decreases |run|
  {
    if |run| == 0 then 0
    else
      var n := |run| - 1;
      PrefixRuns(s, run, n);
      Picks(s, run[..n]) + (if IsPick(Exec(s, run[..n]).value, run[n]) then 1 else 0)
  }

  function Finishes(s: State, run: seq<Action>): nat
    requires IsRunFrom(s, run)
    decreases |run|
  {
    if |run| == 0 then 0
    else
      var n := |run| - 1;
      PrefixRuns(s, run, n);
      Finishes(s, run[..n]) + (if IsFinish(Exec(s, run[..n]).value, run[n]) then 1 else 0)
  }

  /** Past the test of m_start but not yet past the copy: one more pick may come. */
  function PickCredit(w: WorkerPc): nat {
    if w.InitLock? || w.InitSelect? || w.InitLockCurrent? || w.InitCopy? then 1 else 0
  }

  /** A task is in flight or may still be picked: one more finish may come. */
  function FinishCredit(w: WorkerPc): nat {
    if PickCredit(w) == 1 || Flies(w) then 1 else 0
  }

  /** The worker is finishing a task whose process could not be launched: it will
      store m_start = false itself. */
  predicate LaunchFailed(w: WorkerPc) {
    match w
    case FinFirst(lf) => lf
    case FinExit(lf) => lf
    case FinSecond(lf) => lf
    case FinDelete(lf) => lf
    case FinInsert(lf, _, _) => lf
    case FinFail(lf, _) => lf
    case FinReset(lf, _) => lf
    case FinUnlockToken(lf) => lf
    case FinUnlockCurrent(lf) => lf
    case FinFlag => true
    case _ => false
  }

  /** The loop will end without testing m_start successfully again. */
  predicate Ending(s: Shared) {
    !s.start || LaunchFailed(s.worker)
  }

  lemma WorkerSpends(s: Shared, sql: Sql, ok: bool, code: int)
    requires Ending(s) && AdvanceWorker(s, sql, ok, code).Worked?
    ensures var s' := AdvanceWorker(s, sql, ok, code).sh;
      && Ending(s') && (!s.start ==> !s'.start)
      && PickCredit(s'.worker) + (if s.worker.InitCopy? then 1 else 0) <= PickCredit(s.worker)
      && FinishCredit(s'.worker)
         + (if s.worker.FinInsert? && sql.Success? && s.current.id !in IdSet(s.done) then 1 else 0)
         <= FinishCredit(s.worker)
  {
    if InInit(s.worker) {
      InitSpends(s, sql);
    } else if InFin(s.worker) {
      FinSpends(s);
    } else if InRecord(s.worker) {
      RecordSpends(s, sql, ok, code);
    }
  }

  lemma InitSpends(s: Shared, sql: Sql)
    requires Ending(s) && InInit(s.worker) && InitStep(s, sql).Worked?
    ensures var s' := InitStep(s, sql).sh;
      && Ending(s') && (!s.start ==> !s'.start) && FinishCredit(s'.worker) <= FinishCredit(s.worker)
      && PickCredit(s'.worker) + (if s.worker.InitCopy? then 1 else 0) <= PickCredit(s.worker)
  {
  }

  lemma FinSpends(s: Shared)
    requires Ending(s) && InFin(s.worker) && FinStep(s).Worked?
    ensures var s' := FinStep(s).sh;
      && Ending(s') && (!s.start ==> !s'.start) && PickCredit(s'.worker) == 0
      && FinishCredit(s'.worker) <= FinishCredit(s.worker)
  {
  }

  lemma RecordSpends(s: Shared, sql: Sql, ok: bool, code: int)
    requires Ending(s) && InRecord(s.worker)
    ensures var s' := Record(s, sql, ok, code).sh;
      && Ending(s') && (!s.start ==> !s'.start) && PickCredit(s'.worker) == 0
      && FinishCredit(s'.worker) <= 1 && (s.worker.FinInsert? ==> FinishCredit(s'.worker) == 0)
  {
  }

  lemma ClientKeepsEnding(s: Shared, c: nat, pc: ClientPc, sql: Sql)
    requires Ending(s) && !pc.StartFlag? && AdvanceClient(s, c, pc, sql).Moved?
    ensures var s' := AdvanceClient(s, c, pc, sql).sh;
      && Ending(s') && (!s.start ==> !s'.start)
      && PickCredit(s'.worker) == PickCredit(s.worker) && FinishCredit(s'.worker) == FinishCredit(s.worker)
  {
  }

  lemma StepSpends(s: State, a: Action)
    requires Ending(s.sh) && Next(s, a).Some? && !SetsStart(s, a)
    ensures var s' := Next(s, a).value;
      && Ending(s'.sh) && (!s.sh.start ==> !s'.sh.start)
      && PickCredit(s'.sh.worker) + (if IsPick(s, a) then 1 else 0) <= PickCredit(s.sh.worker)
      && FinishCredit(s'.sh.worker) + (if IsFinish(s, a) then 1 else 0) <= FinishCredit(s.sh.worker)
  {
    match a
    case Begin(_, _) =>
    case Advance(c, sql) => ClientKeepsEnding(s.sh, c, PcOf(s, c), sql);
    case Work(sql, ok, code) => WorkerSpends(s.sh, sql, ok, code);
    case PowerLoss =>
  }

  /** Nobody sets m_start in the run. */
  ghost predicate NeverStarted(s: State, run: seq<Action>)
    requires IsRunFrom(s, run)
  {
    forall i: nat :: i < |run| ==> !SetsStart(StateAt(s, run, i), run[i])
  }

  /** From any state in which m_start is false, wherever the worker is, or in which
      a launch has failed, and through any run in which nobody sets m_start again:
      at most one more task is picked and at most one more enters done, and none
      of either once the worker has passed the point where it could. */
  lemma {:induction false} AtMostOneMore(s: State, run: seq<Action>)
    requires IsRunFrom(s, run) && Ending(s.sh) && NeverStarted(s, run)
    ensures Ending(Exec(s, run).value.sh) && (!s.sh.start ==> !Exec(s, run).value.sh.start)
    ensures Picks(s, run) + PickCredit(Exec(s, run).value.sh.worker) <= PickCredit(s.sh.worker) <= 1
    ensures Finishes(s, run) + FinishCredit(Exec(s, run).value.sh.worker) <= FinishCredit(s.sh.worker) <= 1
    decreases |run|
  {
    if |run| > 0 {
      var n := |run| - 1;
      var before := run[..n];
      PrefixRuns(s, run, n);
      forall i: nat | i < n ensures !SetsStart(StateAt(s, before, i), before[i]) {
        assert before[..i] == run[..i];
        assert !SetsStart(StateAt(s, run, i), run[i]);
      }
      AtMostOneMore(s, before);
      assert !SetsStart(StateAt(s, run, n), run[n]);
      StepSpends(Exec(s, before).value, run[n]);
    }
  }

  /** The stop bound: from the moment a call of stop stores m_start = false. */
  lemma AfterStop(s: State, c: nat, sql: Sql, run: seq<Action>)
    requires PcOf(s, c).StopFlag? && Next(s, Advance(c, sql)).Some?
    requires IsRunFrom(Next(s, Advance(c, sql)).value, run)
    requires NeverStarted(Next(s, Advance(c, sql)).value, run)
    ensures var s' := Next(s, Advance(c, sql)).value; Picks(s', run) <= 1 && Finishes(s', run) <= 1
  {
    AtMostOneMore(Next(s, Advance(c, sql)).value, run);
  }

  /** From a failed launch on nothing more is picked, and at most that one task
      enters done. */
  lemma AfterFailedLaunch(s: State, sql: Sql, code: int, run: seq<Action>)
    requires s.sh.worker.Launch?
    requires IsRunFrom(Next(s, Work(sql, false, code)).value, run)
    requires NeverStarted(Next(s, Work(sql, false, code)).value, run)
    ensures var s' := Next(s, Work(sql, false, code)).value; Picks(s', run) == 0 && Finishes(s', run) <= 1
  {
    AtMostOneMore(Next(s, Work(sql, false, code)).value, run);
  }

  /** The worker is about to store m_start = false: nothing is pending, a finish
      has failed, or it has finished a task whose launch had failed. */
  predicate GivesUp(w: WorkerPc) {
    w.InitStopFlag? || w.FinFail? || w.FinFlag?
  }

  lemma GivingUpStores(s: Shared, sql: Sql, ok: bool, code: int)
    requires GivesUp(s.worker)
    ensures var m := AdvanceWorker(s, sql, ok, code);
      m.Worked? && !m.sh.start && PickCredit(m.sh.worker) == 0 && FinishCredit(m.sh.worker) == 0
  {
  }

  /** From that store on it picks nothing and finishes nothing until it is started again. */
  lemma AfterGivingUp(s: State, sql: Sql, ok: bool, code: int, run: seq<Action>)
    requires GivesUp(s.sh.worker)
    requires IsRunFrom(Next(s, Work(sql, ok, code)).value, run)
    requires NeverStarted(Next(s, Work(sql, ok, code)).value, run)
    ensures var s' := Next(s, Work(sql, ok, code)).value; Picks(s', run) == 0 && Finishes(s', run) == 0
  {
    GivingUpStores(s.sh, sql, ok, code);
    AtMostOneMore(Next(s, Work(sql, ok, code)).value, run);
  }

  // ---- What is counted --------------------------------------------------------------

  /** A pick is the action that brings a task into flight. */
  lemma PickMeans(s: State, a: Action)
    requires CurrentMatches(s.sh) && Next(s, a).Some?
    ensures IsPick(s, a) <==> s.sh.flight.NoFlight? && Next(s, a).value.sh.flight.Flying?
  {
    match a
    case Begin(_, _) =>
    case Advance(c, sql) => ClientKeepsFlight(s.sh, c, PcOf(s, c), sql);
    case Work(sql, ok, code) => WorkerPicks(s.sh, sql, ok, code);
    case PowerLoss =>
  }

  lemma ClientKeepsFlight(s: Shared, c: nat, pc: ClientPc, sql: Sql)
    requires AdvanceClient(s, c, pc, sql).Moved?
    ensures AdvanceClient(s, c, pc, sql).sh.flight == s.flight
    ensures |AdvanceClient(s, c, pc, sql).sh.done| <= |s.done|
  {
  }

  lemma WorkerPicks(s: Shared, sql: Sql, ok: bool, code: int)
    requires CurrentMatches(s) && AdvanceWorker(s, sql, ok, code).Worked?
    ensures var s' := AdvanceWorker(s, sql, ok, code).sh;
      s.worker.InitCopy? <==> s.flight.NoFlight? && s'.flight.Flying?
  {
    if InFin(s.worker) {
      assert FinStep(s).sh.flight == s.flight;
    } else if InRecord(s.worker) {
      assert s.flight.Flying?;
    }
  }

  /** A finish is the action that adds a row to done. */
  lemma FinishMeans(s: State, a: Action)
    requires Next(s, a).Some?
    ensures IsFinish(s, a) <==> |Next(s, a).value.sh.done| > |s.sh.done|
  {
    match a
    case Begin(_, _) =>
    case Advance(c, sql) => ClientKeepsFlight(s.sh, c, PcOf(s, c), sql);
    case Work(sql, ok, code) =>
      if !InRecord(s.sh.worker) {
        WorkerKeepsDone(s.sh, sql, ok, code);
      }
    case PowerLoss =>
  }

  lemma WorkerKeepsDone(s: Shared, sql: Sql, ok: bool, code: int)
    requires !InRecord(s.worker) && AdvanceWorker(s, sql, ok, code).Worked?
    ensures AdvanceWorker(s, sql, ok, code).sh.done == s.done
  {
    if InInit(s.worker) {
      assert InitStep(s, sql).sh.done == s.done;
    }
  }

  /** A run with at most one pick has no two of them. */
  lemma PickedTwice(s: State, run: seq<Action>, i: nat, j: nat)
    requires IsRunFrom(s, run) && i < j < |run|
    requires IsPick(StateAt(s, run, i), run[i]) && IsPick(StateAt(s, run, j), run[j])
    ensures Picks(s, run) >= 2
  {
    PickedOnce(s, run, j);
    assert run[..j][..i] == run[..i];
    PickedOnce(s, run[..j], i);
  }

  /** Each pick counts. */
  lemma {:induction false} PickedOnce(s: State, run: seq<Action>, j: nat)
    requires IsRunFrom(s, run) && j < |run| && IsPick(StateAt(s, run, j), run[j])
    ensures IsRunFrom(s, run[..j]) && Picks(s, run) >= Picks(s, run[..j]) + 1
    decreases |run|
  {
    var before := run[..|run| - 1];
    LastPicks(s, run);
    if j < |before| {
      assert before[..j] == run[..j] && before[j] == run[j];
      PickedOnce(s, before, j);
    }
  }

  lemma LastPicks(s: State, run: seq<Action>)
    requires IsRunFrom(s, run) && |run| > 0
    ensures var n := |run| - 1;
      IsRunFrom(s, run[..n])
      && Picks(s, run) == Picks(s, run[..n]) + if IsPick(StateAt(s, run, n), run[n]) then 1 else 0
  {
    PrefixRuns(s, run, |run| - 1);
  }

  lemma {:induction false} FinishedOnce(s: State, run: seq<Action>, j: nat)
    requires IsRunFrom(s, run) && j < |run| && IsFinish(StateAt(s, run, j), run[j])
    ensures IsRunFrom(s, run[..j]) && Finishes(s, run) >= Finishes(s, run[..j]) + 1
    decreases |run|
  {
    var before := run[..|run| - 1];
    LastFinishes(s, run);
    if j < |before| {
      assert before[..j] == run[..j] && before[j] == run[j];
      FinishedOnce(s, before, j);
    }
  }

  lemma LastFinishes(s: State, run: seq<Action>)
    requires IsRunFrom(s, run) && |run| > 0
    ensures var n := |run| - 1;
      IsRunFrom(s, run[..n])
      && Finishes(s, run) == Finishes(s, run[..n]) + if IsFinish(StateAt(s, run, n), run[n]) then 1 else 0
  {
    PrefixRuns(s, run, |run| - 1);
  }

  /** A run with at most one finish has no two of them. */
  lemma FinishedTwice(s: State, run: seq<Action>, i: nat, j: nat)
    requires IsRunFrom(s, run) && i < j < |run|
    requires IsFinish(StateAt(s, run, i), run[i]) && IsFinish(StateAt(s, run, j), run[j])
    ensures Finishes(s, run) >= 2
  {
    FinishedOnce(s, run, j);
    assert run[..j][..i] == run[..i];
    FinishedOnce(s, run[..j], i);
  }
}
