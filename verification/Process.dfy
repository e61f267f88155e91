/** The child process as LinuxProc sees it through waitpid. */
module Process {

  /** What the kernel knows of the child. */
  datatype Child = NoChild | Running | Zombie(status: int) | Reaped

  /** m_pid's child and m_exitCode. */
  datatype Proc = Proc(child: Child, exitCode: int)

  /** `LinuxProc::isRunning`: one waitpid with WNOHANG. */
  function Poll(p: Proc): (r: (Proc, bool))
  {
    match p.child
    case Running => (p, true)
    case Zombie(status) => (Proc(Reaped, status), false)
    case _ => (p, false)   // waitpid fails
  }

  datatype Event =
    | IsRunning
    | ExitCode
    | Exits(status: int)   // the child ends by itself or is killed

  datatype Answer = Silent | Runs(yes: bool) | Refused | Code(status: int)

  function After(p: Proc, e: Event): Proc {
    match e
    case IsRunning => Poll(p).0
    case ExitCode => Poll(p).0
    case Exits(status) => if p.child.Running? then p.(child := Zombie(status)) else p
  }

  function AnswerTo(p: Proc, e: Event): Answer {
    match e
    case IsRunning => Runs(Poll(p).1)
    case ExitCode => if Poll(p).1 then Refused else Code(Poll(p).0.exitCode)
    case Exits(_) => Silent
  }

  function AfterAll(p: Proc, es: seq<Event>): Proc {
    if |es| == 0 then p else After(AfterAll(p, es[..|es| - 1]), es[|es| - 1])
  }

  /** The first end of the child among es: its status. */
  datatype End = StillRuns | Ended(status: int)

  function FirstEnd(es: seq<Event>): End {
    if |es| == 0 then StillRuns
    else
      var before := FirstEnd(es[..|es| - 1]);
      if before.Ended? then before
      else match es[|es| - 1]
           case Exits(status) => Ended(status)
           case _ => StillRuns
  }

  lemma {:induction false} TracksTheChild(code: int, es: seq<Event>)
    ensures var p := AfterAll(Proc(Running, code), es);
      match FirstEnd(es)
      case StillRuns => p.child == Running
      case Ended(status) => p.child == Zombie(status) || p == Proc(Reaped, status)
  {
    if |es| > 0 {
      TracksTheChild(code, es[..|es| - 1]);
    }
  }

  /** Polled however often, by isRunning or by exitCode, a started process is
      reported running exactly until its child has ended, and the exit code read
      is refused until then and is the status of that end ever after. */
  lemma ExitStatusIsTheChilds(code: int, es: seq<Event>, i: nat)
    requires i < |es|
    ensures var a := AnswerTo(AfterAll(Proc(Running, code), es[..i]), es[i]); var end := FirstEnd(es[..i]);
      match es[i]
      case IsRunning => a == Runs(end.StillRuns?)
      case ExitCode => a == (if end.StillRuns? then Refused else Code(end.status))
      case Exits(_) => a == Silent
  {
    TracksTheChild(code, es[..i]);
  }

  /** Once an end is seen no later one changes it. */
  lemma {:induction false} FirstEndStays(es: seq<Event>, more: seq<Event>)
    requires FirstEnd(es).Ended?
    ensures FirstEnd(es + more) == FirstEnd(es)
  {
    if |more| == 0 {
      assert es + more == es;
    } else {
      var n := |more| - 1;
      assert (es + more)[..|es| + n] == es + more[..n];
      FirstEndStays(es, more[..n]);
    }
  }

  // ---- LinuxProc ----------------------------------------------------------------

  /** What becomes of an attempt to start: refused for the super user, no
      pseudo-terminal, a child that is started and at once killed because it
      cannot be read from, or a child that runs.  polls is how often the child
      will be found alive before it has ended with the status. */
  datatype Launch =
    | AsRoot
    | NoPty
    | Aborted(polls: nat, status: int)
    | Spawned(polls: nat, status: int)

  /** The exit code on record once the process of a launch has ended, if it was
      before on record before the launch.  A launch without a child of its own
      leaves what was there (AsRoot) or zero (NoPty). */
  function Filed(launch: Launch, before: int): int {
    match launch
    case AsRoot => before
    case NoPty => 0
    case Aborted(_, status) => status
    case Spawned(_, status) => status
  }

  /** The launch got past the checks of LinuxProc::start and has forked. */
  predicate HasChild(launch: Launch) {
    launch.Aborted? || launch.Spawned?
  }

  /** code is the wait status of a child of this launch. */
  predicate IsOwnStatus(launch: Launch, code: int) {
    match launch
    case Aborted(_, status) => code == status
    case Spawned(_, status) => code == status
    case _ => false
  }

  /** The exit code on record after the launches number from, ..., n - 1. */
  function CodeAfter(script: nat -> Launch, from: nat, n: nat, before: int): int {
    if n <= from then before else Filed(script(n - 1), CodeAfter(script, from, n - 1, before))
  }

  /** The launches from, ..., n - 1 were all refused for the super user. */
  ghost predicate AllRefused(script: nat -> Launch, from: nat, n: nat) {
    forall k: nat :: from <= k < n ==> script(k).AsRoot?
  }

  /** The code on record is what the last launch left that was not refused for the
      super user, or the first one if there is none. */
  lemma {:induction false} CodeIsOfLast(script: nat -> Launch, from: nat, n: nat, before: int)
    requires from <= n
    ensures var code := CodeAfter(script, from, n, before);
      (AllRefused(script, from, n) && code == before)
      || exists k: nat :: from <= k < n && !script(k).AsRoot? && AllRefused(script, k + 1, n)
                          && code == Filed(script(k), 0)
    decreases n
  {
    if from < n {
      CodeIsOfLast(script, from, n - 1, before);
      if !script(n - 1).AsRoot? {
        assert AllRefused(script, n - 1 + 1, n);
      } else if !AllRefused(script, from, n) {
        var k: nat :| from <= k < n - 1 && !script(k).AsRoot? && AllRefused(script, k + 1, n - 1)
                      && CodeAfter(script, from, n - 1, before) == Filed(script(k), 0);
        assert AllRefused(script, k + 1, n);
      }
    }
  }

  /** The code on record after launch n is the status of its own child if and only
      if it has forked one; if not, it is zero or what it was before. */
  lemma OwnStatusIff(script: nat -> Launch, from: nat, n: nat, before: int)
    requires from <= n
    ensures IsOwnStatus(script(n), CodeAfter(script, from, n + 1, before)) <==> HasChild(script(n))
    ensures script(n).NoPty? ==> CodeAfter(script, from, n + 1, before) == 0
    ensures script(n).AsRoot? ==> CodeAfter(script, from, n + 1, before) == CodeAfter(script, from, n, before)
  {
  }

  /** The wait status of a child that was killed. */
  const SIGKILL := 9

  class LinuxProc {
    const script: nat -> Launch
    /** The number of the next attempt to start. */
    var launched: nat
    var proc: Proc
    /** How often the running child will still be found alive, and how it will end. */
    var left: nat
    var fate: int

    constructor (script: nat -> Launch)
      ensures this.script == script && launched == 0 && proc == Proc(NoChild, 0)
    {
      this.script := script;
      launched, proc, left, fate := 0, Proc(NoChild, 0), 0, 0;
    }

    /** What the next poll will find: the child may have ended since the last one. */
    function Now(): Proc
      reads this
    {
      if left == 0 then After(proc, Exits(fate)) else proc
    }

    method IsRunning() returns (r: bool)
      modifies `proc, `left
      ensures r == Poll(old(Now())).1 && proc == Poll(old(Now())).0
      ensures left == if r then old(left) - 1 else old(left)
    {
      if proc.child.Running? && left == 0 {
        proc := proc.(child := Zombie(fate));
      }
      match proc.child
      case Running =>
        r := true;
        left := left - 1;
      case Zombie(status) =>
        r := false;
        proc := Proc(Reaped, status);
      case _ => r := false;
    }

    method ExitCode(out0: int) returns (failed: bool, out: int)
      modifies `proc, `left
      ensures proc == Poll(old(Now())).0 && failed == Poll(old(Now())).1
      ensures out == if failed then out0 else proc.exitCode
    {
      out := out0;
      failed := IsRunning();
      if !failed {
        out := proc.exitCode;
      }
    }

    method Start() returns (failed: bool)
      modifies this
      ensures var before := Poll(old(Now())).0;
        if before.child.Running? then
          && failed && proc == before && launched == old(launched)
          && left == old(left) - 1 && fate == old(fate)
        else
          && launched == old(launched) + 1
          && (match script(old(launched))
              case AsRoot => failed && proc == before
              case NoPty => failed && proc == Proc(NoChild, 0)
              case Aborted(polls, status) =>
                failed && proc == Proc(Running, 0) && left == polls && fate == status
              case Spawned(polls, status) =>
                !failed && proc == Proc(Running, 0) && left == polls && fate == status)
    {
      var running := IsRunning();
      if running {
        return true;
      }
      var launch := script(launched);
      launched := launched + 1;
      match launch
      case AsRoot => failed := true;
      case NoPty =>
        failed := true;
        proc := Proc(NoChild, 0);
      case Aborted(polls, status) =>
        failed := true;
        proc := Proc(Running, 0);
        left, fate := polls, status;
      case Spawned(polls, status) =>
        failed := false;
        proc := Proc(Running, 0);
        left, fate := polls, status;
    }

    /** stopImpl: the child is killed. */
    method Stop()
      modifies `proc
      ensures proc == After(old(proc), Exits(SIGKILL))
      ensures old(proc).child.Running? ==> proc.child == Zombie(9)
    {
      if proc.child.Running? {
        proc := proc.(child := Zombie(SIGKILL));
      }
    }
  }
}
