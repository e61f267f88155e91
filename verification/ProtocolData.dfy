/** The steps that change a table, the id counter or the task in flight keep the
    order of ids and the ledger of ids. */
module ProtocolData {
  import opened Tasks
  import opened Protocol
  import opened ProtocolInvariant

  ghost predicate SameData(s: Shared, s': Shared) {
    && s'.pending == s.pending && s'.done == s.done && s'.lastID == s.lastID
    && s'.flight == s.flight && s'.hist == s.hist
  }

  lemma SameDataOk(s: Shared, s': Shared)
    requires DataOk(s) && SameData(s, s')
    ensures DataOk(s')
  {
    assert FlightIds(s') == FlightIds(s) && Bound(s') == Bound(s) && Live(s') == Live(s);
  }

  lemma TakeOrder(s: Shared, s': Shared)
    requires Ordered(s) && s.hist.taken == {}
    requires s' == s.(lastID := s.lastID + 1, hist := s.hist.(taken := {s.lastID}))
    ensures Ordered(s')
  {
    assert Bound(s') == Bound(s);
  }

  lemma TakeLedger(s: Shared, s': Shared)
    requires Ordered(s) && Ledger(s) && s.hist.taken == {}
    requires s' == s.(lastID := s.lastID + 1, hist := s.hist.(taken := {s.lastID}))
    ensures Ledger(s')
  {
    UptoMembers(s.lastID);
    assert Live(s') == Live(s) + {s.lastID};
    assert Upto(s'.lastID) == Upto(s.lastID) + {s.lastID};
  }

  lemma InsertOrder(s: Shared, s': Shared, r: Row)
    requires Ordered(s) && s.hist.taken == {r.id}
    requires s' == s.(pending := s.pending + [r], hist := s.hist.(taken := {}))
    ensures Ordered(s')
  {
    assert r.id in s.hist.taken;
    assert FlightIds(s') == FlightIds(s) && Bound(s) == r.id && Bound(s') == r.id + 1;
    assert forall p :: p in s'.pending <==> p in s.pending || p == r;
    assert forall p :: p in s.pending ==> p.id < r.id;
    assert Increasing(s'.pending);
  }

  lemma InsertLedger(s: Shared, s': Shared, r: Row)
    requires Ordered(s) && Ledger(s) && s.hist.taken == {r.id}
    requires s' == s.(pending := s.pending + [r], hist := s.hist.(taken := {}))
    ensures Ledger(s')
  {
    IdSetAppend(s.pending, r);
    assert Live(s') == Live(s);
  }

  lemma BurnOrder(s: Shared, s': Shared)
    requires Ordered(s)
    requires s' == s.(hist := s.hist.(taken := {}, burned := s.hist.burned + s.hist.taken))
    ensures Ordered(s')
  {
    assert FlightIds(s') == FlightIds(s);
  }

  lemma BurnLedger(s: Shared, s': Shared)
    requires Ordered(s) && Ledger(s)
    requires s' == s.(hist := s.hist.(taken := {}, burned := s.hist.burned + s.hist.taken))
    ensures Ledger(s')
  {
    assert s.hist.taken !! IdSet(s.pending) + IdSet(s.done) + FlightIds(s);
    assert Live(s') == Live(s) - s.hist.taken;
  }

  lemma RemoveOrder(s: Shared, s': Shared, id: int)
    requires Ordered(s) && id !in FlightIds(s) && s.hist.taken == {}
    requires s' == s.(pending := Without(s.pending, id),
                      hist := s.hist.(removed := s.hist.removed + ({id} * IdSet(s.pending) - IdSet(s.done))))
    ensures Ordered(s')
  {
    WithoutMembers(s.pending, id);
    WithoutIncreasing(s.pending, id);
  }

  lemma RemoveLedger(s: Shared, s': Shared, id: int)
    requires Ordered(s) && Ledger(s) && id !in FlightIds(s) && s.hist.taken == {}
    requires s' == s.(pending := Without(s.pending, id),
                      hist := s.hist.(removed := s.hist.removed + ({id} * IdSet(s.pending) - IdSet(s.done))))
    ensures Ledger(s')
  {
    IdSetWithout(s.pending, id);
    assert Live(s') == Live(s) - ({id} * IdSet(s.pending) - IdSet(s.done));
  }

  lemma ClearPendingOrder(s: Shared, s': Shared)
    requires Ordered(s) && s.hist.taken == {}
    requires s' == s.(pending := [],
                      hist := s.hist.(cleared := s.hist.cleared
                                        + (IdSet(s.pending) - FlightIds(s) - IdSet(s.done))))
    ensures Ordered(s')
  {
  }

  lemma ClearPendingLedger(s: Shared, s': Shared)
    requires Ordered(s) && Ledger(s) && s.hist.taken == {}
    requires s' == s.(pending := [],
                      hist := s.hist.(cleared := s.hist.cleared
                                        + (IdSet(s.pending) - FlightIds(s) - IdSet(s.done))))
    ensures Ledger(s')
  {
    assert IdSet([]) == {};
    assert Live(s') == Live(s) - (IdSet(s.pending) - FlightIds(s) - IdSet(s.done));
  }

  lemma ClearFinishedOrder(s: Shared, s': Shared)
    requires Ordered(s) && s.hist.taken == {}
    requires s' == s.(done := [],
                      hist := s.hist.(cleared := s.hist.cleared
                                        + (IdSet(s.done) - FlightIds(s) - IdSet(s.pending))))
    ensures Ordered(s')
  {
  }

  lemma ClearFinishedLedger(s: Shared, s': Shared)
    requires Ordered(s) && Ledger(s) && s.hist.taken == {}
    requires s' == s.(done := [],
                      hist := s.hist.(cleared := s.hist.cleared
                                        + (IdSet(s.done) - FlightIds(s) - IdSet(s.pending))))
    ensures Ledger(s')
  {
    assert IdSet([]) == {};
    assert Live(s') == Live(s) - (IdSet(s.done) - FlightIds(s) - IdSet(s.pending));
  }

  lemma PickOrder(s: Shared, s': Shared)
    requires Ordered(s) && s.flight.NoFlight? && |s.pending| > 0
    requires s' == s.(flight := Flying(s.pending[0]), current := s'.current, worker := s'.worker)
    ensures Ordered(s')
  {
    assert s.pending[0] in s.pending;
    assert forall p :: p in s.pending ==> s.pending[0].id <= p.id;
  }

  lemma PickLedger(s: Shared, s': Shared)
    requires Ordered(s) && Ledger(s) && s.flight.NoFlight? && |s.pending| > 0
    requires s' == s.(flight := Flying(s.pending[0]), current := s'.current, worker := s'.worker)
    ensures Ledger(s')
  {
    assert s.pending[0] in s.pending;
    assert Live(s') == Live(s);
  }

  lemma GiveUpOrder(s: Shared, s': Shared)
    requires Ordered(s)
    requires s' == GiveUp(s)
    ensures Ordered(s')
  {
  }

  lemma GiveUpLedger(s: Shared, s': Shared)
    requires Ordered(s) && Ledger(s)
    requires s' == GiveUp(s)
    ensures Ledger(s')
  {
    assert s.hist.taken !! FlightIds(s);
    assert Live(s') == Live(s) - (FlightIds(s) - IdSet(s.pending) - IdSet(s.done));
  }

  lemma DeleteOrder(s: Shared, s': Shared, id: int)
    requires Ordered(s) && FlightIds(s) == {id}
    requires s' == s.(pending := Without(s.pending, id), worker := s'.worker)
    ensures Ordered(s')
  {
    WithoutMembers(s.pending, id);
    WithoutIncreasing(s.pending, id);
  }

  lemma DeleteLedger(s: Shared, s': Shared, id: int)
    requires Ordered(s) && Ledger(s) && FlightIds(s) == {id}
    requires s' == s.(pending := Without(s.pending, id), worker := s'.worker)
    ensures Ledger(s')
  {
    IdSetWithout(s.pending, id);
    assert Live(s') == Live(s);
  }

  lemma FinishTables(s: Shared, s': Shared, r: Row)
    requires Ordered(s) && FlightIds(s) == {r.id} && r.id !in IdSet(s.done)
    requires s' == s.(done := s.done + [r], flight := NoFlight, worker := s'.worker,
                      hist := s.hist.(entered := s.hist.entered + [r.id]))
    ensures Tables(s')
  {
    assert forall d :: d in s'.done <==> d in s.done || d == r;
    assert forall d :: d in s.done ==> d.id < r.id;
    assert Increasing(s'.done);
  }

  lemma FinishEntered(s: Shared, s': Shared, r: Row)
    requires Ordered(s) && FlightIds(s) == {r.id}
    requires s' == s.(done := s.done + [r], flight := NoFlight, worker := s'.worker,
                      hist := s.hist.(entered := s.hist.entered + [r.id]))
    ensures EnteredOrder(s') && FlightOrder(s')
  {
    assert forall d :: d in s'.done <==> d in s.done || d == r;
    var before, after := s.hist.entered, s'.hist.entered;
    assert forall e :: e in after <==> e in before || e == r.id;
    assert forall i :: 0 <= i < |before| ==> after[i] in before;
  }

  lemma FinishLedger(s: Shared, s': Shared, r: Row)
    requires Ordered(s) && Ledger(s) && FlightIds(s) == {r.id} && r.id !in IdSet(s.done)
    requires s' == s.(done := s.done + [r], flight := NoFlight, worker := s'.worker,
                      hist := s.hist.(entered := s.hist.entered + [r.id]))
    ensures Ledger(s')
  {
    IdSetAppend(s.done, r);
    assert Live(s') == Live(s);
  }

}
