/** What an undisturbed run of the worker loop does to the tables. */
module DrainSpec {
  import opened Tasks
  import opened Process

  datatype Drained = Drained(pending: seq<Row>, done: seq<Row>)

  /** The tables after the worker has stopped by itself: n is the number of the
      next attempt to start a process, code the last exit code seen. */
  function Drain(pending: seq<Row>, done: seq<Row>, script: nat -> Launch, n: nat, code: int): Drained {
    if |pending| == 0 then Drained(pending, done)
    else
      match script(n)
      case Spawned(_, status) =>
        Drain(pending[1..], done + [pending[0].(exitCode := status)], script, n + 1, status)
      case Aborted(polls, status) =>
        if polls == 0 then Drained(pending[1..], done + [pending[0].(exitCode := status)])
        else Drained(pending, done)
      case _ => Drained(pending[1..], done + [pending[0].(exitCode := Filed(script(n), code))])
  }

  /** The attempts number lo, ..., hi - 1 to start a process all succeed. */
  ghost predicate Launches(script: nat -> Launch, lo: nat, hi: nat) {
    forall j: nat :: lo <= j < hi ==> script(j).Spawned?
  }

  /** The rows with the exit codes of the processes n, n + 1, ... filled in. */
  ghost function Finished(rows: seq<Row>, script: nat -> Launch, n: nat): seq<Row>
    requires Launches(script, n, n + |rows|)
  {
    seq(|rows|, i requires 0 <= i < |rows| => rows[i].(exitCode := script(n + i).status))
  }

  /** If the first k launches succeed, the first k tasks move over in order. */
  lemma {:induction false} PrefixDrains(pending: seq<Row>, done: seq<Row>, script: nat -> Launch, n: nat,
                                        code: int, k: nat)
    requires k <= |pending| && Launches(script, n, n + k)
    ensures Drain(pending, done, script, n, code)
         == Drain(pending[k..], done + Finished(pending[..k], script, n), script, n + k,
                  if k == 0 then code else script(n + k - 1).status)
  {
    if k == 0 {
      assert pending[0..] == pending && done + Finished([], script, n) == done;
      assert pending[..0] == [];
    } else {
      var first := [pending[0].(exitCode := script(n).status)];
      var tail := pending[1..];
      PrefixDrains(tail, done + first, script, n + 1, script(n).status, k - 1);
      assert tail[k - 1..] == pending[k..];
      var rest := Finished(tail[..k - 1], script, n + 1);
      assert first + rest == Finished(pending[..k], script, n);
      assert (done + first) + rest == done + Finished(pending[..k], script, n);
    }
  }

  /** If every launch succeeds, the whole queue is done, in order, with the exit
      codes of its processes. */
  lemma AllDrain(pending: seq<Row>, done: seq<Row>, script: nat -> Launch, n: nat, code: int)
    requires Launches(script, n, n + |pending|)
    ensures Drain(pending, done, script, n, code) == Drained([], done + Finished(pending, script, n))
    ensures var r := Drain(pending, done, script, n, code).done;
      && |r| == |done| + |pending| && r[..|done|] == done
      && forall i :: 0 <= i < |pending| ==> r[|done| + i] == pending[i].(exitCode := script(n + i).status)
  {
    PrefixDrains(pending, done, script, n, code, |pending|);
    assert pending[|pending|..] == [] && pending[..|pending|] == pending;
  }

  /** If launch k is the first to fail and its exit code can be read, exactly the
      tasks up to and including k have moved, and task k is filed with the status
      of its own child if it has one, else with zero or with the code before. */
  lemma FailureStopsDrain(pending: seq<Row>, done: seq<Row>, script: nat -> Launch, n: nat, code: int, k: nat)
    requires k < |pending| && Launches(script, n, n + k) && !script(n + k).Spawned?
    ensures var r := Drain(pending, done, script, n, code);
      if script(n + k).Aborted? && script(n + k).polls > 0 then
        r == Drained(pending[k..], done + Finished(pending[..k], script, n))
      else
        var before := if k == 0 then code else script(n + k - 1).status;
        r == Drained(pending[k + 1..], done + Finished(pending[..k], script, n)
                                       + [pending[k].(exitCode := Filed(script(n + k), before))])
  {
    PrefixDrains(pending, done, script, n, code, k);
    assert pending[k..][1..] == pending[k + 1..];
  }

  /** A task whose launch is refused for the super user is filed with the status of
      the task before. */
  lemma StaleCodeIsFiled(first: Row, second: Row, script: nat -> Launch, polls: nat, status: int)
    requires script(0) == Spawned(polls, status) && script(1) == AsRoot
    ensures Drain([first, second], [], script, 0, 0)
         == Drained([], [first.(exitCode := status), second.(exitCode := status)])
    ensures !IsOwnStatus(script(1), status)
  {
    FailureStopsDrain([first, second], [], script, 0, 0, 1);
    assert [first, second][2..] == [];
  }
}
