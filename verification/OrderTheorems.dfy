/** Order and bookkeeping of task ids over whole runs. */
module OrderTheorems {
  import opened Tasks
  import opened WorkerSpec
  import opened Protocol
  import opened ProtocolInvariant
  import opened ProtocolData
  import opened ProtocolSteps

  // ---- Order -----------------------------------------------------------------

  /** In every reachable state both tables ascend, what is done is no newer than
      what is in flight, and what is in flight is no newer than what is pending. */
  lemma OrderAlways(tokenFirst: bool, run: seq<Action>)
    requires IsRunFrom(Init(tokenFirst), run)
    ensures var s := Exec(Init(tokenFirst), run).value.sh;
      && Increasing(s.pending) && Increasing(s.done)
      && (forall d, p :: d in s.done && p in s.pending ==> d.id <= p.id)
      && (s.flight.Flying? ==>
            && (forall d :: d in s.done ==> d.id <= s.flight.row.id)
            && (forall p :: p in s.pending ==> s.flight.row.id <= p.id)
            && 0 <= s.flight.row.id < s.lastID)
      && (forall r :: r in s.pending + s.done ==> 0 <= r.id < s.lastID)
  {
    ReachableInv(tokenFirst, run);
    var s := Exec(Init(tokenFirst), run).value.sh;
    if s.flight.Flying? {
      assert s.flight.row.id in FlightIds(s);
    }
  }

  /** Everything that ever entered done is older than all that is still to run,
      and the entries were made in strictly ascending order. */
  ghost predicate Strict(s: Shared) {
    var entered := s.hist.entered;
    && (forall i, j :: 0 <= i < j < |entered| ==> entered[i] < entered[j])
    && (forall e, p :: e in entered && p in s.pending ==> e < p.id)
    && (forall e, k :: e in entered && k in FlightIds(s) ==> e < k)
  }

  /** The worker records a task as done while its row is still pending. */
  predicate RecordsPending(s: Shared, a: Action) {
    && a.Work? && s.worker.FinInsert? && a.sql.Success?
    && s.current.id !in IdSet(s.done) && s.current.id in IdSet(s.pending)
  }

  /** mainLoopFin goes on to insert although its delete was stepped and failed, the
      insert succeeds, and no clearPending has taken the row in the meantime. */
  predicate Slip(s: Shared, a: Action) {
    && s.worker.FinInsert? && s.worker.kept && a.Work? && a.sql.Success?
    && s.current.id !in IdSet(s.done) && s.current.id in IdSet(s.pending)
  }

  /** There is no other way to record a task that is still pending. */
  lemma SlipIff(s: Shared, a: Action)
    requires SharedOk(s)
    ensures RecordsPending(s, a) <==> Slip(s, a)
  {
    if RecordsPending(s, a) {
      var p :| p in s.pending && p.id == s.current.id;
      assert s.current.id in FlightIds(s);
    }
  }

  lemma StatementStrict(s: Shared, pc: ClientPc, sql: Sql)
    requires Ordered(s) && Strict(s) && AtStatement(pc)
    requires pc.AddInsert? ==> s.hist.taken == {pc.id}
    ensures Strict(Statement(s, pc, sql).sh)
  {
    var s' := Statement(s, pc, sql).sh;
    assert FlightIds(s') == FlightIds(s);
    if pc.RemoveDelete? {
      WithoutMembers(s.pending, pc.id);
    } else if pc.AddInsert? {
      assert forall e :: e in s.hist.entered ==> e < pc.id;
    }
  }

  lemma SameDataStrict(s: Shared, s': Shared)
    requires Strict(s) && SameData(s, s')
    ensures Strict(s')
  {
    assert FlightIds(s') == FlightIds(s);
  }

  lemma PickStrict(s: Shared, s': Shared)
    requires Strict(s) && |s.pending| > 0
    requires s' == s.(flight := Flying(s.pending[0]), current := s'.current, worker := s'.worker)
    ensures Strict(s')
  {
    assert s.pending[0] in s.pending;
    assert FlightIds(s') == {s.pending[0].id};
  }

  lemma EnterStrict(s: Shared, s': Shared, k: int)
    requires Ordered(s) && Strict(s) && FlightIds(s) == {k}
    requires s'.pending == s.pending && s'.flight.NoFlight?
    requires s'.hist.entered == s.hist.entered + [k]
    ensures Strict(s') <==> k !in IdSet(s.pending)
  {
    var before, after := s.hist.entered, s'.hist.entered;
    assert forall e :: e in after <==> e in before || e == k;
    assert forall i :: 0 <= i < |before| ==> after[i] in before;
    assert k in after;
  }

  lemma FewerStrict(s: Shared, s': Shared)
    requires Strict(s) && s'.hist.entered == s.hist.entered
    requires s'.flight == s.flight || s'.flight.NoFlight?
    requires forall p :: p in s'.pending ==> p in s.pending
    ensures Strict(s')
  {
    assert FlightIds(s') <= FlightIds(s);
  }

  lemma RecordStrict(s: Shared, sql: Sql, ok: bool, code: int)
    requires Ordered(s) && CurrentMatches(s) && Strict(s) && InRecord(s.worker)
    ensures Strict(Record(s, sql, ok, code).sh) <==> !RecordsPending(s, Work(sql, ok, code))
  {
    var s' := Record(s, sql, ok, code).sh;
    if s.worker.FinInsert? && sql.Success? && s.current.id !in IdSet(s.done) {
      EnterStrict(s, s', s.current.id);
    } else {
      WithoutMembers(s.pending, s.current.id);
      RecordTouches(s, sql, ok, code);
      assert s'.pending == s.pending || s'.pending == Without(s.pending, s.current.id);
      FewerStrict(s, s');
    }
  }

  /** One action breaks strict order exactly if it is a slip. */
  lemma StrictNext(s: State, a: Action)
    requires Inv(s) && Strict(s.sh) && Next(s, a).Some?
    ensures Strict(Next(s, a).value.sh) <==> !Slip(s.sh, a)
  {
    SlipIff(s.sh, a);
    match a
    case Begin(c, call) =>
    case Advance(c, sql) =>
      var pc := PcOf(s, c);
      assert ClientOk(s.sh, c, pc);
      if AtStatement(pc) {
        StatementStrict(s.sh, pc, sql);
      } else {
        ControlKeepsData(s.sh, c, pc);
        SameDataStrict(s.sh, Control(s.sh, c, pc).sh);
      }
    case Work(sql, ok, code) =>
      if InRecord(s.sh.worker) {
        RecordStrict(s.sh, sql, ok, code);
      } else {
        WorkTouches(s.sh, sql, ok, code);
        if s.sh.worker.InitCopy? {
          PickStrict(s.sh, Next(s, a).value.sh);
        } else {
          SameDataStrict(s.sh, Next(s, a).value.sh);
        }
      }
    case PowerLoss =>
      assert FlightIds(Restart(s.sh)) == {};
  }

  /** A whole run keeps strict order in every state if and only if it has no slip. */
  lemma {:induction false} StrictRun(tokenFirst: bool, run: seq<Action>)
    requires IsRunFrom(Init(tokenFirst), run)
    ensures (forall i: nat :: i <= |run| ==> Strict(StateAt(Init(tokenFirst), run, i).sh))
       <==> (forall i: nat :: i < |run| ==> !Slip(StateAt(Init(tokenFirst), run, i).sh, run[i]))
  {
    var s := Init(tokenFirst);
    if forall i: nat :: i < |run| ==> !Slip(StateAt(s, run, i).sh, run[i]) {
      forall i: nat | i <= |run| ensures Strict(StateAt(s, run, i).sh) {
        StrictUpTo(tokenFirst, run, i);
      }
    } else {
      var i: nat :| i < |run| && Slip(StateAt(s, run, i).sh, run[i]);
      if Strict(StateAt(s, run, i).sh) {
        InvAt(tokenFirst, run, i);
        StateAfter(s, run, i);
        StrictNext(StateAt(s, run, i), run[i]);
        assert !Strict(StateAt(s, run, i + 1).sh);
      }
    }
  }

  lemma {:induction false} StrictUpTo(tokenFirst: bool, run: seq<Action>, n: nat)
    requires IsRunFrom(Init(tokenFirst), run) && n <= |run|
    requires forall i: nat :: i < n ==> !Slip(StateAt(Init(tokenFirst), run, i).sh, run[i])
    ensures Strict(StateAt(Init(tokenFirst), run, n).sh)
  {
    if n > 0 {
      StrictUpTo(tokenFirst, run, n - 1);
      InvAt(tokenFirst, run, n - 1);
      StateAfter(Init(tokenFirst), run, n - 1);
      StrictNext(StateAt(Init(tokenFirst), run, n - 1), run[n - 1]);
    }
  }

  /** The delete of mainLoopFin is stepped and fails. */
  predicate DeleteFails(s: Shared, a: Action) {
    a.Work? && s.worker.FinDelete? && a.sql.NoStep?
  }

  lemma KeptOnlyByFailedDelete(s: State, a: Action)
    requires Next(s, a).Some? && !DeleteFails(s.sh, a)
    requires s.sh.worker.FinInsert? ==> !s.sh.worker.kept
    ensures var w := Next(s, a).value.sh.worker; w.FinInsert? ==> !w.kept
  {
    if a.Work? && !InRecord(s.sh.worker) {
      WorkTouches(s.sh, a.sql, a.ok, a.code);
    }
  }

  lemma {:induction false} NotKept(tokenFirst: bool, run: seq<Action>, n: nat)
    requires IsRunFrom(Init(tokenFirst), run) && n <= |run|
    requires forall i: nat :: i < |run| ==> !DeleteFails(StateAt(Init(tokenFirst), run, i).sh, run[i])
    ensures var w := StateAt(Init(tokenFirst), run, n).sh.worker; w.FinInsert? ==> !w.kept
  {
    if n > 0 {
      NotKept(tokenFirst, run, n - 1);
      StateAfter(Init(tokenFirst), run, n - 1);
      KeptOnlyByFailedDelete(StateAt(Init(tokenFirst), run, n - 1), run[n - 1]);
    }
  }

  /** As long as no delete of mainLoopFin fails in its step, each task enters
      done at most once and in id order, and no insert into done collides.  All
      other failures, and any number of crashes, are allowed. */
  lemma EnteredOnce(tokenFirst: bool, run: seq<Action>)
    requires IsRunFrom(Init(tokenFirst), run)
    requires forall i: nat :: i < |run| ==> !DeleteFails(StateAt(Init(tokenFirst), run, i).sh, run[i])
    ensures var s := Exec(Init(tokenFirst), run).value.sh;
      && Strict(s)
      && (s.worker.FinInsert? ==> s.current.id !in IdSet(s.done))
  {
    var s0 := Init(tokenFirst);
    forall i: nat | i < |run| ensures !Slip(StateAt(s0, run, i).sh, run[i]) {
      NotKept(tokenFirst, run, i);
    }
    StrictUpTo(tokenFirst, run, |run|);
    ReachableInv(tokenFirst, run);
    assert run[..|run|] == run;
    var s := Exec(s0, run).value.sh;
    if s.worker.FinInsert? {
      assert s.current.id in FlightIds(s);
    }
  }

  /** Inserts into pending never collide: a drawn id is unused. */
  lemma DrawnIdIsNew(tokenFirst: bool, run: seq<Action>, c: nat)
    requires IsRunFrom(Init(tokenFirst), run)
    requires PcOf(Exec(Init(tokenFirst), run).value, c).AddInsert?
    ensures var s := Exec(Init(tokenFirst), run).value;
      PcOf(s, c).id !in IdSet(s.sh.pending) + IdSet(s.sh.done) + FlightIds(s.sh)
  {
    ReachableInv(tokenFirst, run);
    var s := Exec(Init(tokenFirst), run).value;
    assert ClientOk(s.sh, c, PcOf(s, c));
  }

  // ---- The ledger of ids --------------------------------------------------------

  /** Every id that was ever drawn is somewhere in the queue or in exactly one of
      the four buckets; no other id is anywhere. */
  lemma Conservation(tokenFirst: bool, run: seq<Action>)
    requires IsRunFrom(Init(tokenFirst), run)
    ensures var s := Exec(Init(tokenFirst), run).value.sh; var h := s.hist;
      && (forall i :: 0 <= i < s.lastID <==>
            (i in Live(s) || i in h.removed || i in h.cleared || i in h.burned || i in h.lost))
      && (Live(s) !! h.removed !! h.cleared !! h.burned !! h.lost)
  {
    ReachableInv(tokenFirst, run);
    var s := Exec(Init(tokenFirst), run).value.sh;
    UptoMembers(s.lastID);
    forall i
      ensures 0 <= i < s.lastID <==>
        (i in Live(s) || i in s.hist.removed || i in s.hist.cleared || i in s.hist.burned || i in s.hist.lost)
    {
      assert i in Upto(s.lastID) <==>
        i in Live(s) + s.hist.removed + s.hist.cleared + s.hist.burned + s.hist.lost;
    }
  }

  /** The step in which the worker gives its task up without recording it. */
  predicate FinishFails(s: Shared, a: Action) {
    && a.Work? && InRecord(s.worker)
    && (match s.worker
        case FinExit(_) => !a.ok
        case FinDelete(_) => a.sql.NoPrepare?
        case _ => !a.sql.Success? || s.current.id in IdSet(s.done))
  }

  /** Buckets only grow, and an action loses at most the one task in flight. */
  ghost predicate LosesLittle(s: Shared, s': Shared) {
    var h, h' := s.hist, s'.hist;
    && h.removed <= h'.removed && h.cleared <= h'.cleared && h.burned <= h'.burned
    && (h'.lost == h.lost || h'.lost == h.lost + (FlightIds(s) - IdSet(s.pending) - IdSet(s.done)))
  }

  lemma RecordLoses(s: Shared, sql: Sql, ok: bool, code: int)
    requires InRecord(s.worker)
    ensures var s' := Record(s, sql, ok, code).sh;
      && LosesLittle(s, s')
      && (s'.hist.lost != s.hist.lost ==> FinishFails(s, Work(sql, ok, code)))
  {
  }

  lemma ClientLosesNothing(s: Shared, c: nat, pc: ClientPc, sql: Sql)
    requires AdvanceClient(s, c, pc, sql).Moved?
    ensures var s' := AdvanceClient(s, c, pc, sql).sh; LosesLittle(s, s') && s'.hist.lost == s.hist.lost
  {
    if !AtStatement(pc) {
      ControlKeepsData(s, c, pc);
    }
  }

  /** Only a failed finish or a crash loses a task, and then only the one in
      flight, when it is in neither table. */
  lemma LossIsBounded(s: State, a: Action)
    requires Next(s, a).Some?
    ensures var s' := Next(s, a).value;
      && LosesLittle(s.sh, s'.sh)
      && |s'.sh.hist.lost| <= |s.sh.hist.lost| + 1
      && (s'.sh.hist.lost != s.sh.hist.lost ==> a.PowerLoss? || FinishFails(s.sh, a))
  {
    match a
    case Begin(_, _) =>
    case Advance(c, sql) => ClientLosesNothing(s.sh, c, PcOf(s, c), sql);
    case Work(sql, ok, code) =>
      if InRecord(s.sh.worker) {
        RecordLoses(s.sh, sql, ok, code);
      } else {
        WorkTouches(s.sh, sql, ok, code);
      }
    case PowerLoss =>
  }

  /** What each statement of a client does to the ledger: removed gains what
      removeTask deletes, cleared what the clear calls delete, and burned an id
      whose insert fails; an id in flight, or still in the other table, is not gone. */
  lemma BucketsMean(s: Shared, pc: ClientPc, sql: Sql)
    requires AtStatement(pc)
    ensures var h, h' := s.hist, Statement(s, pc, sql).sh.hist; var ok := sql.Success?;
      && h'.removed - h.removed
         == (if pc.RemoveDelete? && ok then {pc.id} * IdSet(s.pending) - IdSet(s.done) - h.removed else {})
      && h'.cleared - h.cleared
         == (if pc.ClearAll? && ok then IdSet(s.pending) - FlightIds(s) - IdSet(s.done) - h.cleared
             else if pc.ClearDone? && ok then IdSet(s.done) - FlightIds(s) - IdSet(s.pending) - h.cleared
             else {})
      && h'.burned - h.burned
         == (if pc.AddInsert? && !(ok && pc.id !in IdSet(s.pending)) then {pc.id} - h.burned else {})
      && h'.lost == h.lost && h'.entered == h.entered
  {
  }

  /** entered lists exactly the ids whose rows were added to done, one by one. */
  lemma EnteredIsDone(s: Shared, sql: Sql, ok: bool, code: int)
    requires InRecord(s.worker)
    ensures var s' := Record(s, sql, ok, code).sh;
      || (s'.done == s.done && s'.hist.entered == s.hist.entered)
      || exists r :: s'.done == s.done + [r] && s'.hist.entered == s.hist.entered + [r.id]
  {
    var s' := Record(s, sql, ok, code).sh;
    if s'.done != s.done {
      assert s'.done == s.done + [ToRow(s.current)];
    }
  }

  /** A task whose finish succeeds is recorded with the text it was stored with,
      whatever became of its pending row in the meantime. */
  lemma FinishRecords(tokenFirst: bool, run: seq<Action>, ok: bool, code: int)
    requires IsRunFrom(Init(tokenFirst), run)
    requires var s := Exec(Init(tokenFirst), run).value.sh;
      s.worker.FinInsert? && s.flight.Flying? && s.flight.row.id !in IdSet(s.done)
    ensures var s := Exec(Init(tokenFirst), run).value; var s' := Next(s, Work(Success, ok, code));
      && s'.Some?
      && s'.value.sh.done == s.sh.done + [s.sh.flight.row.(exitCode := s.sh.current.exitCode)]
      && s'.value.sh.hist.lost == s.sh.hist.lost
  {
    ReachableInv(tokenFirst, run);
    var s := Exec(Init(tokenFirst), run).value.sh;
    RowSurvives(s.flight.row, s.current.exitCode);
  }
}
