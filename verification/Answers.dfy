/** What each call is answered, exactly: a call whose statements all succeed gets its
    result, and a failed statement is reported. */
module Answers {
  import opened Tasks
  import opened WorkerSpec
  import opened FifoQueue
  import opened Protocol
  import opened ProtocolInvariant
  import opened ProtocolSteps
  import opened Refinement

  /** ids are the ids of the rows, one for one. */
  predicate Lists(ids: seq<int>, rows: seq<Row>) {
    |ids| == |rows| && forall i :: 0 <= i < |ids| ==> ids[i] == rows[i].id
  }

  /** The task of the row with this id, or NOT_FOUND if there is none. */
  predicate Finds(reply: Reply, rows: seq<Row>, id: int) {
    if exists r :: r in rows && r.id == id
    then reply.TaskInfo? && exists r :: r in rows && r.id == id && Holds(r, reply.task)
    else reply == Failed(NOT_FOUND)
  }

  /** The result of a call that reaches its last statement in state s and succeeds. */
  predicate Result(s: Shared, call: Call, reply: Reply) {
    match call
    case Add(_) => reply == Added(s.lastID - 1)
    case Remove(_) => reply == Done
    case ClearPending => reply == Done
    case ClearFinished => reply == Done
    case ListPending => reply.IdList? && Lists(reply.ids, s.pending)
    case ListFinished => reply.IdList? && Lists(reply.ids, s.done)
    case PendingDetails(id) => Finds(reply, s.pending, id)
    case FinishedDetails(id) => Finds(reply, s.done, id)
    case _ => false
  }

  lemma DetailsFind(rows: seq<Row>, id: int)
    ensures Finds(Details(rows, id), rows, id)
  {
    WithoutMembers(rows, id);
    var found := Only(rows, id);
    if |found| > 0 {
      assert found[|found| - 1] in found;
    } else {
      assert forall r :: r in rows ==> r.id != id;
    }
  }

  lemma InsertAnswered(s: Shared, c: nat, pc: ClientPc, sql: Sql)
    requires Tables(s) && ClientOk(s, c, pc) && pc.AddInsert?
    ensures Statement(s, pc, sql).pc
         == Unlock(Add(pc.task), if sql.Success? then Added(s.lastID - 1) else Failed(OS_ERROR))
  {
    assert pc.id == s.lastID - 1;
    assert forall p :: p in s.pending ==> p.id != pc.id;
  }

  lemma ReadAnswered(s: Shared, call: Call, sql: Sql)
    requires WellPlaced(Read(call))
    ensures var pc' := Statement(s, Read(call), sql).pc;
      && pc' == Unlock(call, pc'.reply)
      && if sql.Success? then Result(s, call, pc'.reply) else pc'.reply == Failed(OS_ERROR)
  {
    if call.PendingDetails? {
      DetailsFind(s.pending, call.id);
    } else if call.FinishedDetails? {
      DetailsFind(s.done, call.id);
    }
  }

  lemma DeleteAnswered(s: Shared, pc: ClientPc, sql: Sql)
    requires pc.RemoveDelete? || pc.ClearAll? || pc.ClearDone?
    ensures var pc' := Statement(s, pc, sql).pc;
      !pc'.Idle?
      && EffectOf(pc') == Served(EffectOf(pc).call,
                                 if sql.Success? then Done
                                 else Failed(if pc.RemoveDelete? && sql.NoStep? then NOT_FOUND else OS_ERROR))
  {
  }

  /** The statement of a call: if it succeeds the call goes on to its next one, in
      the case of addTask, or has its result; if not, the call fails. */
  lemma StatementAnswered(s: Shared, c: nat, pc: ClientPc, sql: Sql)
    requires Tables(s) && ClientOk(s, c, pc) && AtStatement(pc)
    ensures var pc' := Statement(s, pc, sql).pc; var call := EffectOf(pc).call;
      if sql.Success? then
        (pc.AddSelect? && pc' == AddUpdate(pc.task, s.lastID))
        || (pc.AddUpdate? && pc' == AddInsert(pc.task, s.lastID))
        || (!pc.AddSelect? && !pc.AddUpdate?
            && !pc'.Idle? && EffectOf(pc').Served? && Result(s, call, EffectOf(pc').reply))
      else
        !pc'.Idle?
        && EffectOf(pc') == Served(call, Failed(if call.Remove? && sql.NoStep? then NOT_FOUND else OS_ERROR))
  {
    if pc.AddInsert? {
      InsertAnswered(s, c, pc, sql);
    } else if pc.Read? {
      ReadAnswered(s, pc.call, sql);
    } else if !pc.AddSelect? && !pc.AddUpdate? {
      DeleteAnswered(s, pc, sql);
    }
  }

  /** The insert of addTask appends the task, field by field, with the id it answers. */
  lemma AddStores(s: Shared, c: nat, pc: ClientPc)
    requires Tables(s) && ClientOk(s, c, pc) && pc.AddInsert?
    ensures var s' := Statement(s, pc, Success).sh;
      && |s'.pending| == |s.pending| + 1 && s'.pending[..|s.pending|] == s.pending
      && Stores(s'.pending[|s.pending|], pc.task.(id := s.lastID - 1))
  {
    StatementAnswered(s, c, pc, Success);
    assert forall p :: p in s.pending ==> p.id != pc.id;
  }

  /** What a statement of a client does to the tables: what its call says if it
      succeeds, and nothing if it fails. */
  lemma StatementEffects(s: Shared, c: nat, pc: ClientPc, sql: Sql)
    requires Tables(s) && ClientOk(s, c, pc) && AtStatement(pc)
    ensures var s' := Statement(s, pc, sql).sh; var ok := sql.Success?;
      && (ok && pc.RemoveDelete? ==> forall r :: r in s'.pending <==> r in s.pending && r.id != pc.id)
      && (ok && pc.ClearAll? ==> s'.pending == [])
      && (ok && pc.ClearDone? ==> s'.done == [])
      && (!ok || !(pc.RemoveDelete? || pc.ClearAll? || pc.AddInsert?) ==> s'.pending == s.pending)
      && (!ok || !pc.ClearDone? ==> s'.done == s.done)
      && s'.lastID == (if ok && pc.AddUpdate? then s.lastID + 1 else s.lastID)
      && s'.current == s.current && s'.running == s.running && s'.start == s.start
      && s'.token == s.token && s'.cur == s.cur && s'.worker == s.worker
  {
    if pc.RemoveDelete? {
      WithoutMembers(s.pending, pc.id);
    }
  }

  /** The decisions that calls take without a statement: which id removeTask refuses
      (0 while nothing is in flight), and what depends on m_isRunning. */
  lemma ControlDecides(s: Shared, c: nat, pc: ClientPc)
    requires CurrentMatches(s) && WorkerLocks(s) && ClientOk(s, c, pc)
    requires !AtStatement(pc) && Control(s, c, pc).Moved?
    ensures var pc' := Control(s, c, pc).pc;
      && (pc.RemoveCheck? ==>
            pc' == RemoveUnlock(pc.id, pc.id == if s.flight.Flying? then s.flight.row.id else 0))
      && (pc.RemoveUnlock? ==>
            pc' == if pc.refused then Unlock(Remove(pc.id), Failed(INVALID_ARGUMENT)) else RemoveDelete(pc.id))
      && (pc.CurrentLoad? ==>
            pc' == if s.running then AwaitCurrent(CurrentTask) else Return(CurrentTask, Failed(INVALID_ARGUMENT)))
      && (pc.CurrentRead? ==> pc' == CurrentUnlock(TaskInfo(s.current)))
      && (pc.StartLoad? ==> pc' == if s.running then Return(Start, Failed(INVALID_ARGUMENT)) else StartRunning)
      && (pc.StopLoad? ==> pc' == if s.running then StopFlag else Return(Stop, Done))
  {
  }

  /** How an answer came about that was given at pc in state s: by a statement, or
      without one. */
  predicate Answered(s: Shared, pc: ClientPc, sql: Sql, call: Call, reply: Reply) {
    if AtStatement(pc) then
      if sql.Success? then Result(s, call, reply)
      else reply == Failed(if call.Remove? && sql.NoStep? then NOT_FOUND else OS_ERROR)
    else
      match call
      case Remove(id) =>
        reply == Failed(INVALID_ARGUMENT) && id == if s.flight.Flying? then s.flight.row.id else 0
      case CurrentTask =>
        reply == if pc.CurrentLoad? then Failed(INVALID_ARGUMENT) else TaskInfo(s.current)
      case Start => reply == if pc.StartLoad? then Failed(INVALID_ARGUMENT) else Done
      case Stop => reply == Done
      case _ => false
  }

  lemma StatementGives(s: Shared, c: nat, pc: ClientPc, sql: Sql)
    requires Tables(s) && ClientOk(s, c, pc) && AtStatement(pc)
    ensures var pc' := Statement(s, pc, sql).pc;
      !pc'.Idle? && EffectOf(pc').Served? ==> Answered(s, pc, sql, EffectOf(pc).call, EffectOf(pc').reply)
    ensures !Statement(s, pc, sql).pc.Idle? ==> EffectOf(Statement(s, pc, sql).pc).call == EffectOf(pc).call
  {
    StatementAnswered(s, c, pc, sql);
    StatementAnswers(s, pc, sql);
  }

  lemma ControlGives(s: Shared, c: nat, pc: ClientPc, sql: Sql)
    requires CurrentMatches(s) && WorkerLocks(s) && ClientOk(s, c, pc)
    requires !AtStatement(pc) && !pc.Idle? && EffectOf(pc).Unserved? && Control(s, c, pc).Moved?
    ensures var pc' := Control(s, c, pc).pc;
      && !pc'.Idle? && EffectOf(pc').call == EffectOf(pc).call
      && (EffectOf(pc').Served? ==> Answered(s, pc, sql, EffectOf(pc).call, EffectOf(pc').reply))
  {
  }

  lemma StepAnswered(s: State, a: Action, c: nat, call: Call, reply: Reply)
    requires Inv(s) && Next(s, a).Some? && EventOf(s, a) == Serve(c, call, reply)
    ensures a.Advance? && a.c == c && Answered(s.sh, PcOf(s, c), a.sql, call, reply)
  {
    if a.Work? {
      WorkerServesNobody(s.sh, a.sql, a.ok);
    } else if a.Advance? {
      var pc := PcOf(s, a.c);
      assert ClientOk(s.sh, a.c, pc);
      if AtStatement(pc) {
        StatementGives(s.sh, a.c, pc, a.sql);
      } else {
        ControlGives(s.sh, a.c, pc, a.sql);
      }
    }
  }

  /** In every run, whenever a call takes effect, its answer is its result if the
      statement it then ran has succeeded, and tells of the failure if it has not;
      as the first failure ends a call, one none of whose statements failed has
      its result. */
  lemma RunAnswered(tokenFirst: bool, run: seq<Action>, i: nat, c: nat, call: Call, reply: Reply)
    requires IsRunFrom(Init(tokenFirst), run) && i < |run|
    requires EventAt(Init(tokenFirst), run, i) == Serve(c, call, reply)
    ensures var s := StateAt(Init(tokenFirst), run, i);
      run[i].Advance? && run[i].c == c && Answered(s.sh, PcOf(s, c), run[i].sql, call, reply)
  {
    InvAt(tokenFirst, run, i);
    StateAfter(Init(tokenFirst), run, i);
    StepAnswered(StateAt(Init(tokenFirst), run, i), run[i], c, call, reply);
  }

  // ---- What clients are returned ----------------------------------------------------

  /** Action j of client c gave this answer to this call, and since then the client
      has been in that call. */
  ghost predicate AnsweredAt(s: State, run: seq<Action>, j: nat, c: nat, call: Call, reply: Reply)
    requires IsRunFrom(s, run) && j < |run|
  {
    && run[j].Advance? && run[j].c == c
    && Answered(StateAt(s, run, j).sh, PcOf(StateAt(s, run, j), c), run[j].sql, call, reply)
    && forall m: nat :: j < m <= |run| ==> !PcOf(StateAt(s, run, m), c).Idle?
  }

  lemma AnswerMoves(s: State, a: Action, c: nat)
    requires Inv(s) && Next(s, a).Some?
    requires var pc' := PcOf(Next(s, a).value, c); !pc'.Idle? && EffectOf(pc').Served?
    ensures var pc, pc' := PcOf(s, c), PcOf(Next(s, a).value, c); var e := EffectOf(pc');
      || (!pc.Idle? && EffectOf(pc) == e)
      || (a.Advance? && a.c == c && Answered(s.sh, pc, a.sql, e.call, e.reply))
  {
    if !a.PowerLoss? {
      OneEffectPerCall(s, c, a);
      var pc, pc' := PcOf(s, c), PcOf(Next(s, a).value, c);
      if !pc.Idle? && EffectOf(pc).Unserved? {
        StepAnswered(s, a, c, EffectOf(pc').call, EffectOf(pc').reply);
      }
    }
  }

  lemma StillAnswered(s: State, run: seq<Action>, j: nat, c: nat, call: Call, reply: Reply)
    requires IsRunFrom(s, run) && |run| > 0 && IsRunFrom(s, run[..|run| - 1])
    requires j < |run| - 1 && AnsweredAt(s, run[..|run| - 1], j, c, call, reply)
    requires !PcOf(StateAt(s, run, |run|), c).Idle?
    ensures AnsweredAt(s, run, j, c, call, reply)
  {
    var before := run[..|run| - 1];
    forall m: nat | m <= |before| ensures StateAt(s, run, m) == StateAt(s, before, m) {
      assert before[..m] == run[..m];
    }
    assert before[j] == run[j];
    forall m: nat | j < m <= |run| ensures !PcOf(StateAt(s, run, m), c).Idle? {
      if m < |run| {
        assert !PcOf(StateAt(s, before, m), c).Idle?;
      }
    }
  }

  /** Whenever a call of a client is about to return, or has its answer, that answer
      was given by one of the client's own actions during the call. */
  lemma {:induction false} ReturnedAnswer(tokenFirst: bool, run: seq<Action>, c: nat) returns (j: nat)
    requires IsRunFrom(Init(tokenFirst), run)
    requires var pc := PcOf(Exec(Init(tokenFirst), run).value, c); !pc.Idle? && EffectOf(pc).Served?
    ensures var e := EffectOf(PcOf(Exec(Init(tokenFirst), run).value, c));
      j < |run| && AnsweredAt(Init(tokenFirst), run, j, c, e.call, e.reply)
    decreases |run|
  {
    var s0, n := Init(tokenFirst), |run| - 1;
    PrefixRuns(s0, run, n);
    ReachableInv(tokenFirst, run[..n]);
    assert run[..|run|] == run;
    var s := Exec(s0, run[..n]).value;
    AnswerMoves(s, run[n], c);
    var e := EffectOf(PcOf(Exec(s0, run).value, c));
    if !PcOf(s, c).Idle? && EffectOf(PcOf(s, c)) == e {
      j := ReturnedAnswer(tokenFirst, run[..n], c);
      StillAnswered(s0, run, j, c, e.call, e.reply);
    } else {
      j := n;
    }
  }
}
