/** The connection that the queue shares under its token mutex: the statement
    slot, the tables, and which calls into SQLite fail. */
module Database {
  import opened Tasks
  import opened WorkerSpec

  datatype TableName = PendingTable | DoneTable | IdTable

  datatype Column = Column(name: string, decl: string)

  datatype Handle = Null | Stmt(number: nat)

  /** The numbers 0, ..., n - 1 in order. */
  function Numbers(n: nat): seq<nat> {
    seq(n, i => i)
  }

  class Connection {
    /** Which calls fail, by their number; there may be no end to them. */
    const plan: nat -> bool
    /** How many calls were made so far. */
    var clock: nat

    /** m_token->db is not null. */
    var isOpen: bool
    /** m_token->stmt. */
    var stmt: Handle
    /** The statements that are prepared and not finalized, how many were ever
        prepared, and which were finalized, in order. */
    var live: set<nat>
    var prepared: nat
    var finalized: seq<nat>

    /** What is on disk: the columns of the tables that exist, and their rows. */
    var catalog: map<TableName, seq<Column>>
    var pending: seq<Row>
    var done: seq<Row>
    var ids: seq<int>

    predicate Fails(i: nat) {
      plan(i)
    }

    /** None of the n calls from number i on fails. */
    ghost predicate Clean(i: nat, n: nat) {
      forall j: nat :: i <= j < i + n ==> !Fails(j)
    }

    /** The first failure is the end of being clean. */
    lemma FirstFailure(i: nat, k: nat, n: nat)
      requires k <= n && Clean(i, k)
      ensures Fails(i + k) && k < n ==> !Clean(i, n)
      ensures !Fails(i + k) ==> Clean(i, k + 1)
    {
    }

    /** No call from number i on fails. */
    ghost predicate CleanForever(i: nat) {
      forall j: nat :: i <= j ==> !Fails(j)
    }

    /** How a statement ends that is prepared in call number i and stepped once
        after the given number of binds. */
    ghost function Ending(i: nat, binds: nat): Sql {
      if Clean(i, binds + 2) then Success else if Clean(i, binds + 1) then NoStep else NoPrepare
    }

    /** Every call from number i on fails. */
    ghost predicate FailsForever(i: nat) {
      forall j: nat :: i <= j ==> Fails(j)
    }

    /** No statement is live, m_token->stmt is null, and every statement ever
        prepared was finalized exactly once. */
    ghost predicate Quiet()
      reads `stmt, `live, `prepared, `finalized
    {
      stmt == Null && live == {} && finalized == Numbers(prepared)
    }

    /** Exactly one statement is live and m_token->stmt is that one. */
    ghost predicate Busy()
      reads `stmt, `live, `prepared, `finalized
    {
      && prepared > 0 && stmt == Stmt(prepared - 1) && live == {prepared - 1}
      && finalized == Numbers(prepared - 1)
    }

    function Rows(table: TableName): seq<Row>
      requires !table.IdTable?
      reads this
    {
      if table.PendingTable? then pending else done
    }

    constructor (plan: nat -> bool, catalog: map<TableName, seq<Column>>, pending: seq<Row>, done: seq<Row>,
                 ids: seq<int>)
      ensures this.plan == plan && clock == 0 && !isOpen && Quiet()
      ensures this.catalog == catalog && this.pending == pending && this.done == done && this.ids == ids
    {
      this.plan := plan;
      this.catalog, this.pending, this.done, this.ids := catalog, pending, done, ids;
      clock, isOpen, stmt, live, prepared, finalized := 0, false, Null, {}, 0, [];
    }

    /** sqlite3_open. */
    method Open() returns (ok: bool)
      modifies `clock, `isOpen
      ensures clock == old(clock) + 1 && ok == !Fails(old(clock)) && isOpen == ok
    {
      ok := !Fails(clock);
      isOpen := ok;
      clock := clock + 1;
    }

    /** sqlite3_prepare_v2 into m_token->stmt; legal says whether the statement
        can be compiled against the present tables. */
    method Prepare(legal: bool) returns (ok: bool)
      requires Quiet()
      modifies `clock, `stmt, `live, `prepared
      ensures clock == old(clock) + 1
      ensures ok == (legal && !Fails(old(clock)))
      ensures if ok then Busy() else Quiet()
    {
      ok := legal && !Fails(clock);
      clock := clock + 1;
      if ok {
        stmt := Stmt(prepared);
        live := live + {prepared};
        prepared := prepared + 1;
      }
    }

    /** sqlite3_bind_text, sqlite3_bind_int. */
    method Bind() returns (ok: bool)
      requires Busy()
      modifies `clock
      ensures clock == old(clock) + 1 && ok == !Fails(old(clock))
    {
      ok := !Fails(clock);
      clock := clock + 1;
    }

    /** sqlite3_step, as far as failing goes. */
    method Step() returns (ok: bool)
      requires Busy()
      modifies `clock
      ensures clock == old(clock) + 1 && ok == !Fails(old(clock))
    {
      ok := !Fails(clock);
      clock := clock + 1;
    }

    /** sqlite3_step of an insert into a task table, whose ID is the primary key. */
    method StepInsert(table: TableName, r: Row) returns (ok: bool)
      requires Busy() && !table.IdTable?
      modifies `clock, `pending, `done
      ensures clock == old(clock) + 1
      ensures ok == (!Fails(old(clock)) && r.id !in IdSet(old(Rows(table))))
      ensures pending == if ok && table.PendingTable? then old(pending) + [r] else old(pending)
      ensures done == if ok && table.DoneTable? then old(done) + [r] else old(done)
    {
      ok := !Fails(clock) && r.id !in IdSet(Rows(table));
      clock := clock + 1;
      if ok {
        if table.PendingTable? {
          pending := pending + [r];
        } else {
          done := done + [r];
        }
      }
    }

    /** sqlite3_finalize of m_token->stmt, which is then set to null. */
    method Finalize()
      requires Quiet() || Busy()
      modifies `stmt, `live, `finalized
      ensures Quiet()
    {
      if stmt.Stmt? {
        assert Numbers(prepared) == Numbers(prepared - 1) + [prepared - 1];
        live := live - {stmt.number};
        finalized := finalized + [stmt.number];
      }
      stmt := Null;
    }
  }
}
