/** The worker of the protocol while no client acts: what its single actions add
    up to, and that this does not depend on the order in which mainLoopFin locks. */
module WorkerAlone {
  import opened Tasks
  import opened WorkerSpec
  import opened Protocol

  // ---- mainLoopInit -----------------------------------------------------------

  /** Up to n actions of the worker inside mainLoopInit. */
  function Choosing(s: Shared, select: Sql, n: nat): Shared
    decreases n
  {
    if n == 0 || !InInit(s.worker) then s
    else match InitStep(s, select)
         case Stuck => s
         case Worked(s') => Choosing(s', select, n - 1)
  }

  lemma Choose1(s: Shared, select: Sql, n: nat, s': Shared)
    requires n > 0 && InInit(s.worker) && InitStep(s, select) == Worked(s')
    ensures Choosing(s, select, n) == Choosing(s', select, n - 1)
  {
  }

  lemma Choose0(s: Shared, select: Sql, n: nat)
    requires !InInit(s.worker)
    ensures Choosing(s, select, n) == s
  {
  }

  /** The end of mainLoopInit, once it is known whether a row was picked. */
  lemma InitLeaves(s: Shared, select: Sql, n: nat)
    requires n > 0 && s.worker.InitUnlock?
    ensures Choosing(s, select, n) == s.(token := Free, worker := if s.worker.picked then Launch else TestStart)
  {
    var s1 := s.(token := Free, worker := if s.worker.picked then Launch else TestStart);
    Choose1(s, select, n, s1);
    Choose0(s1, select, n - 1);
  }

  lemma InitEmpty(s: Shared, select: Sql, n: nat)
    requires n > 2 && s.worker.InitStopFlag?
    ensures Choosing(s, select, n) == s.(start := false, running := false, token := Free, worker := TestStart)
  {
    var s1 := s.(start := false, worker := InitRunFlag);
    var s2 := s1.(running := false, worker := InitUnlock(false));
    Choose1(s, select, n, s1);
    Choose1(s1, select, n - 1, s2);
    InitLeaves(s2, select, n - 2);
  }

  lemma InitPicks(s: Shared, select: Sql, n: nat)
    requires n > 3 && s.worker.InitLockCurrent? && s.cur.Free?
    ensures var row := s.worker.row;
      Choosing(s, select, n) == s.(current := FromRow(row), flight := Flying(row), token := Free, worker := Launch)
  {
    var row := s.worker.row;
    var s1 := s.(cur := ByWorker, worker := InitCopy(row));
    var s2 := s1.(current := FromRow(row), flight := Flying(row), worker := InitUnlockCurrent);
    var s3 := s2.(cur := Free, worker := InitUnlock(true));
    Choose1(s, select, n, s1);
    Choose1(s1, select, n - 1, s2);
    Choose1(s2, select, n - 2, s3);
    InitLeaves(s3, select, n - 3);
  }

  /** Alone, the actions of mainLoopInit do what AfterInit says; they leave both
      mutexes free and the tables as they were. */
  lemma InitAgrees(s: Shared, select: Sql)
    requires s.worker.InitLock? && s.token.Free? && s.cur.Free?
    ensures var s' := Choosing(s, select, 6);
      && Chosen(s'.worker.Launch?, s'.current, s'.running, s'.start)
         == AfterInit(s.pending, s.current, s.running, s.start, select)
      && (s'.worker.Launch? || s'.worker.TestStart?) && s'.token.Free? && s'.cur.Free?
      && s'.pending == s.pending && s'.done == s.done && s'.lastID == s.lastID
  {
    var s1 := s.(token := ByWorker, worker := InitSelect);
    Choose1(s, select, 6, s1);
    if select.NoPrepare? {
      var s2 := s1.(worker := InitUnlock(false));
      Choose1(s1, select, 5, s2);
      InitLeaves(s2, select, 4);
    } else if select.NoStep? || |s.pending| == 0 {
      var s2 := s1.(worker := InitStopFlag);
      Choose1(s1, select, 5, s2);
      InitEmpty(s2, select, 4);
    } else {
      var s2 := s1.(worker := InitLockCurrent(s.pending[0]));
      Choose1(s1, select, 5, s2);
      InitPicks(s2, select, 4);
    }
  }

  // ---- mainLoopFin -------------------------------------------------------------

  /** Up to n actions of the worker inside mainLoopFin. */
  function Finishing(s: Shared, f: Fortune, n: nat): Shared
    decreases n
  {
    if n == 0 || !(InFin(s.worker) || InRecord(s.worker)) then s
    else match FinishOne(s, f)
         case Stuck => s
         case Worked(s') => Finishing(s', f, n - 1)
  }

  function FinishOne(s: Shared, f: Fortune): WorkerMove
    requires InFin(s.worker) || InRecord(s.worker)
  {
    AdvanceWorker(s, if s.worker.FinDelete? then f.delete else f.insert, f.readable, f.code)
  }

  lemma Finish1(s: Shared, f: Fortune, n: nat, s': Shared)
    requires n > 0 && (InFin(s.worker) || InRecord(s.worker)) && FinishOne(s, f) == Worked(s')
    ensures Finishing(s, f, n) == Finishing(s', f, n - 1)
  {
  }

  lemma Finish0(s: Shared, f: Fortune, n: nat)
    requires !InFin(s.worker) && !InRecord(s.worker)
    ensures Finishing(s, f, n) == s
  {
  }

  /** From s the worker left mainLoopFin in s', with the tables as in r. */
  predicate Left(s: Shared, s': Shared, launchFailed: bool, r: Finished) {
    && s'.worker == (if launchFailed then FinFlag else TestStart)
    && Finished(s'.pending, s'.done, s'.start) == r
    && s'.current == IDLE && s'.running == s.running && s'.lastID == s.lastID
    && s'.token.Free? && s'.cur.Free?
  }

  lemma FinEnd(s: Shared, f: Fortune, n: nat)
    requires n > 0 && s.worker.FinUnlockCurrent?
    ensures Finishing(s, f, n) == s.(cur := Free, worker := if s.worker.launchFailed then FinFlag else TestStart)
  {
    var s1 := s.(cur := Free, worker := if s.worker.launchFailed then FinFlag else TestStart);
    Finish1(s, f, n, s1);
    Finish0(s1, f, n - 1);
  }

  lemma FinTail(s: Shared, f: Fortune, n: nat)
    requires n > 2 && s.worker.FinReset?
    requires s.token == if s.worker.hasToken then ByWorker else Free
    ensures Left(s, Finishing(s, f, n), s.worker.launchFailed, Finished(s.pending, s.done, s.start))
  {
    var lf := s.worker.launchFailed;
    var s1 := s.(current := IDLE, token := Free, worker := FinUnlockCurrent(lf));
    if s.worker.hasToken {
      var s0 := s.(current := IDLE, worker := FinUnlockToken(lf));
      Finish1(s, f, n, s0);
      Finish1(s0, f, n - 1, s1);
      FinEnd(s1, f, n - 2);
    } else {
      Finish1(s, f, n, s1);
      FinEnd(s1, f, n - 1);
    }
  }

  lemma FinFails(s: Shared, f: Fortune, n: nat)
    requires n > 3 && s.worker.FinFail?
    requires s.token == if s.worker.hasToken then ByWorker else Free
    ensures Left(s, Finishing(s, f, n), s.worker.launchFailed, Finished(s.pending, s.done, false))
  {
    var s1 := s.(start := false, worker := FinReset(s.worker.launchFailed, s.worker.hasToken));
    Finish1(s, f, n, s1);
    FinTail(s1, f, n - 1);
  }

  lemma FromInsert(s: Shared, f: Fortune, n: nat)
    requires n > 4 && s.worker.FinInsert? && s.token == ByWorker
    ensures Left(s, Finishing(s, f, n), s.worker.launchFailed,
                 if f.insert.Success? && s.current.id !in IdSet(s.done)
                 then Finished(s.pending, s.done + [ToRow(s.current)], s.start)
                 else Finished(s.pending, s.done, false))
  {
    var s1 := Record(s, f.insert, f.readable, f.code).sh;
    Finish1(s, f, n, s1);
    if s1.worker.FinReset? {
      FinTail(s1, f, n - 1);
    } else {
      FinFails(s1, f, n - 1);
    }
  }

  lemma FromDelete(s: Shared, f: Fortune, n: nat)
    requires n > 5 && s.worker.FinDelete? && s.token == ByWorker
    requires f.readable && f.code == s.current.exitCode
    ensures Left(s, Finishing(s, f, n), s.worker.launchFailed, AfterFin(s.pending, s.done, s.current, s.start, f))
  {
    var s1 := Record(s, f.delete, f.readable, f.code).sh;
    Finish1(s, f, n, s1);
    assert s.current.(exitCode := f.code) == s.current;
    if f.delete.NoPrepare? {
      FinFails(s1, f, n - 1);
    } else {
      FromInsert(s1, f, n - 1);
    }
  }

  lemma ExitRead(s: Shared, s1: Shared, f: Fortune, n: nat)
    requires n > 6 && s.worker.FinExit? && s.token == if s.tokenFirst then ByWorker else Free
    requires f.readable
    requires s1 == s.(current := s.current.(exitCode := f.code),
                      worker := if s.tokenFirst then FinDelete(s.worker.launchFailed)
                                else FinSecond(s.worker.launchFailed))
    ensures Left(s, Finishing(s1, f, n), s.worker.launchFailed, AfterFin(s.pending, s.done, s.current, s.start, f))
  {
    if s.tokenFirst {
      FromDelete(s1, f, n);
    } else {
      var s2 := s1.(token := ByWorker, worker := FinDelete(s.worker.launchFailed));
      Finish1(s1, f, n, s2);
      FromDelete(s2, f, n - 1);
    }
  }

  lemma FromExit(s: Shared, f: Fortune, n: nat)
    requires n > 7 && s.worker.FinExit? && s.token == if s.tokenFirst then ByWorker else Free
    ensures Left(s, Finishing(s, f, n), s.worker.launchFailed, AfterFin(s.pending, s.done, s.current, s.start, f))
  {
    var lf := s.worker.launchFailed;
    if !f.readable {
      var s1 := GiveUp(s).(worker := FinFail(lf, s.tokenFirst));
      Finish1(s, f, n, s1);
      FinFails(s1, f, n - 1);
    } else {
      var s1 := s.(current := s.current.(exitCode := f.code),
                   worker := if s.tokenFirst then FinDelete(lf) else FinSecond(lf));
      Finish1(s, f, n, s1);
      ExitRead(s, s1, f, n - 1);
    }
  }

  /** Alone, the actions of mainLoopFin do what AfterFin says, whichever of the
      two mutexes is locked first. */
  lemma FinAgrees(s: Shared, f: Fortune)
    requires s.worker.FinFirst? && s.token.Free? && s.cur.Free?
    ensures Left(s, Finishing(s, f, 10), s.worker.launchFailed, AfterFin(s.pending, s.done, s.current, s.start, f))
  {
    var lf := s.worker.launchFailed;
    if s.tokenFirst {
      var s1 := s.(token := ByWorker, worker := FinSecond(lf));
      var s2 := s1.(cur := ByWorker, worker := FinExit(lf));
      Finish1(s, f, 10, s1);
      Finish1(s1, f, 9, s2);
      FromExit(s2, f, 8);
    } else {
      var s1 := s.(cur := ByWorker, worker := FinExit(lf));
      Finish1(s, f, 10, s1);
      FromExit(s1, f, 9);
    }
  }
}
