/**
 * The compensating executor of elevated command lists: every finished command may push a group of
 * recovery commands, and the first required command that fails unwinds the groups, newest first.
 */
module ElevatedSequence {
  import opened Wrappers
  import opened LaunchdWorld
  import Sequences

  datatype Request = Request(
    op: Op,
    allowFailure: bool := false,
    clear: bool := false,
    discard: bool := false,
    limit: Option<nat> := None,
    rollback: seq<Request> := [])

  /** An exit status, absent when the child was killed or never launched, and what it left behind. */
  datatype Exit = Exit(status: Option<int>, residue: Residue)

  /** How long a child runs and how it ends if left alone, and how it ends if a limit stops it. */
  datatype Child = Child(milliseconds: nat, alone: Exit, stopped: Exit)

  /** The n-th command issued, forward or recovery, is Oracle(n). */
  type Oracle = nat -> Child

  /** The loop in this process, and the script that osascript runs in one elevated process. */
  datatype Executor = InProcess | Script

  const SCRIPT_LIMIT := 15_000

  /** The limit a child runs under; zero means none in either executor. */
  function Limit(x: Executor, r: Request): Option<nat> {
    match r.limit
    case Some(t) => if t == 0 then None else Some(t)
    case None => if x.Script? then Some(SCRIPT_LIMIT) else None
  }

  predicate Overruns(x: Executor, r: Request, child: Child) {
    Limit(x, r).Some? && child.milliseconds > Limit(x, r).value
  }

  /** How a child ended for the executor that ran it. */
  datatype Outcome = Outcome(timedOut: bool, exit: Exit)

  function End(x: Executor, r: Request, child: Child): Outcome {
    if Overruns(x, r, child) then Outcome(true, child.stopped) else Outcome(false, child.alone)
  }

  /** The in-process loop goes by the exit status alone; to the script a time-out is an error too. */
  predicate Accepts(x: Executor, o: Outcome) {
    o.exit.status == Some(0) && (x.Script? ==> !o.timedOut)
  }

  function Observe(x: Executor, r: Request, child: Child): Event {
    var o := End(x, r, child);
    Event(r.op, Accepts(x, o), o.exit.residue)
  }

  type Stack = seq<seq<Request>>

  /** The rollback stack after a request succeeded. */
  function Next(stack: Stack, r: Request): Stack {
    var cleared := if r.clear then [] else stack;
    var discarded := if r.discard && cleared != [] then cleared[..|cleared| - 1] else cleared;
    if r.rollback != [] then discarded + [r.rollback] else discarded
  }

  /** Forward progress: what was issued, the stack it left, and whether a required command failed. */
  datatype Phase = Phase(events: seq<Event>, stack: Stack, failed: bool)

  function Forward(x: Executor, requests: seq<Request>, oracle: Oracle, k: nat, stack: Stack): Phase {
    if requests == [] then
      Phase([], stack, false)
    else
      var e := Observe(x, requests[0], oracle(k));
      if !e.ok && !requests[0].allowFailure then
        Phase([e], stack, true)
      else
        var rest := Forward(x, requests[1..], oracle, k + 1, if e.ok then Next(stack, requests[0]) else stack);
        rest.(events := [e] + rest.events)
  }

  /** Recovery commands in the order they are issued: newest group first, each group in its order. */
  function Recoveries(stack: Stack): seq<Request> {
    if stack == [] then [] else stack[|stack| - 1] + Recoveries(stack[..|stack| - 1])
  }

  function Recover(x: Executor, recoveries: seq<Request>, oracle: Oracle, k: nat): seq<Event> {
    if recoveries == [] then
      []
    else
      var e := Observe(x, recoveries[0], oracle(k));
      if !e.ok && !recoveries[0].allowFailure then [e] else [e] + Recover(x, recoveries[1..], oracle, k + 1)
  }

  datatype Run = Run(forward: seq<Event>, recovery: seq<Event>, failed: bool, reported: bool) {
    function Trace(): seq<Event> { forward + recovery }
  }

  /** `reported` is what the caller learns: the script exits with the status of the failed child. */
  function Execute(x: Executor, requests: seq<Request>, oracle: Oracle, k: nat): Run {
    var p := Forward(x, requests, oracle, k, []);
    if !p.failed then
      Run(p.events, [], false, true)
    else
      Run(p.events, Recover(x, Recoveries(p.stack), oracle, k + |p.events|), true,
          x.Script? && 0 < |p.events| <= |requests|
          && End(x, requests[|p.events| - 1], oracle(k + |p.events| - 1)).exit.status == Some(0))
  }

  // ----- The two executors as they are written -----

  /** Issues commands and keeps the list of what it issued. */
  class Runner {
    const executor: Executor
    const oracle: Oracle
    var issued: nat
    var log: seq<Event>

    constructor (executor: Executor, oracle: Oracle)
      ensures this.executor == executor && this.oracle == oracle && issued == 0 && log == []
    {
      this.executor, this.oracle := executor, oracle;
      issued, log := 0, [];
    }

    method Issue(r: Request) returns (o: Outcome)
      modifies this
      ensures o == End(executor, r, oracle(old(issued))) && issued == old(issued) + 1
      ensures log == old(log) + [Observe(executor, r, oracle(old(issued)))]
    {
      o := End(executor, r, oracle(issued));
      log := log + [Observe(executor, r, oracle(issued))];
      issued := issued + 1;
    }
  }

  /** One turn of the inner recovery loop, seen from the group and the groups below it. */
  lemma RecoverStep(x: Executor, group: seq<Request>, i: nat, below: seq<Request>, oracle: Oracle, k: nat)
    requires i < |group|
    ensures var e := Observe(x, group[i], oracle(k));
            && e.ok == Accepts(x, End(x, group[i], oracle(k)))
            && Recover(x, group[i..] + below, oracle, k) ==
               if !e.ok && !group[i].allowFailure then [e] else [e] + Recover(x, group[i + 1..] + below, oracle, k + 1)
  {
    var rest := group[i..] + below;
    assert rest[0] == group[i] && rest[1..] == group[i + 1..] + below;
  }

  lemma RecoverNothing(x: Executor, oracle: Oracle, k: nat)
    ensures Recover(x, [], oracle, k) == []
  {
  }

  /** The inner loop: the recoveries of one group, up to a required one that fails. */
  method UnwindGroup(runner: Runner, group: seq<Request>, ghost below: seq<Request>) returns (failed: bool)
    modifies runner
    ensures var x, oracle := runner.executor, runner.oracle;
            old(runner.log) + Recover(x, group + below, oracle, old(runner.issued)) ==
            runner.log + if failed then [] else Recover(x, below, oracle, runner.issued)
  {
    hide Recover, Observe, End;
    ghost var all := old(runner.log) + Recover(runner.executor, group + below, runner.oracle, runner.issued);
    var i := 0;
    assert group[0..] == group;
    while i < |group|
      invariant 0 <= i <= |group|
      invariant all == runner.log + Recover(runner.executor, group[i..] + below, runner.oracle, runner.issued)
    {
      RecoverStep(runner.executor, group, i, below, runner.oracle, runner.issued);
      var o := runner.Issue(group[i]);
      if !Accepts(runner.executor, o) && !group[i].allowFailure {
        return true;
      }
      i := i + 1;
    }
    assert group[i..] + below == below;
    return false;
  }

  /** Unwinds the rollback stack, stopping at the first required recovery that fails. */
  method Unwind(runner: Runner, rollback: Stack)
    modifies runner
    ensures runner.log ==
            old(runner.log) + Recover(runner.executor, Recoveries(rollback), runner.oracle, old(runner.issued))
  {
    hide Recover;
    ghost var all := Recover(runner.executor, Recoveries(rollback), runner.oracle, runner.issued);
    var g := |rollback|;
    assert rollback[..g] == rollback;
    while g > 0
      invariant 0 <= g <= |rollback|
      invariant old(runner.log) + all ==
                runner.log + Recover(runner.executor, Recoveries(rollback[..g]), runner.oracle, runner.issued)
    {
      g := g - 1;
      assert rollback[..g + 1][..g] == rollback[..g];
      var rollbackFailed := UnwindGroup(runner, rollback[g], Recoveries(rollback[..g]));
      if rollbackFailed {
        return;
      }
    }
    RecoverNothing(runner.executor, runner.oracle, runner.issued);
  }

  function After(done: seq<Event>, p: Phase): Phase {
    p.(events := done + p.events)
  }

  /** One turn of either loop, seen from the requests that remain. */
  lemma ForwardStep(x: Executor, requests: seq<Request>, i: nat, oracle: Oracle, k: nat, stack: Stack, done: seq<Event>)
    requires i < |requests|
    ensures var e := Observe(x, requests[i], oracle(k));
            After(done, Forward(x, requests[i..], oracle, k, stack)) ==
            if !e.ok && !requests[i].allowFailure then
              Phase(done + [e], stack, true)
            else
              After(done + [e],
                    Forward(x, requests[i + 1..], oracle, k + 1, if e.ok then Next(stack, requests[i]) else stack))
  {
    assert requests[i..][1..] == requests[i + 1..];
  }

  lemma ForwardNothing(x: Executor, oracle: Oracle, k: nat, stack: Stack)
    ensures Forward(x, [], oracle, k, stack) == Phase([], stack, false)
  {
  }

  /** The three updates a finished request makes to the rollback stack. */
  method Compensate(rollback: Stack, request: Request) returns (updated: Stack)
    ensures updated == Next(rollback, request)
  {
    updated := rollback;
    if request.clear {
      updated := [];
    }
    if request.discard && updated != [] {
      updated := updated[..|updated| - 1];
    }
    if request.rollback != [] {
      updated := updated + [request.rollback];
    }
  }

  /** The loop of runElevatedCommands: a command fails when the runner's promise rejects. */
  method IssueInProcess(runner: Runner, commands: seq<Request>) returns (rollback: Stack, failure: Option<Outcome>)
    requires runner.executor == InProcess
    modifies runner
    ensures var p := Forward(runner.executor, commands, runner.oracle, old(runner.issued), []);
            && runner.log == old(runner.log) + p.events && rollback == p.stack && failure.Some? == p.failed
            && runner.issued == old(runner.issued) + |p.events|
            && (p.failed ==>
                0 < |p.events| <= |commands|
                && failure == Some(End(runner.executor, commands[|p.events| - 1], runner.oracle(runner.issued - 1))))
  {
    hide Forward, Next;
    ghost var x := runner.executor;
    ghost var whole := Forward(x, commands, runner.oracle, runner.issued, []);
    ghost var done := [];
    rollback, failure := [], None;
    var i := 0;
    assert commands[0..] == commands && [] + whole.events == whole.events;
    while i < |commands|
      invariant 0 <= i == |done| <= |commands|
      invariant runner.issued == old(runner.issued) + i && runner.log == old(runner.log) + done
      invariant whole == After(done, Forward(x, commands[i..], runner.oracle, runner.issued, rollback))
    {
      ForwardStep(x, commands, i, runner.oracle, runner.issued, rollback, done);
      var request := commands[i];
      done := done + [Observe(x, request, runner.oracle(runner.issued))];
      var o := runner.Issue(request);
      if o.exit.status == Some(0) {
        rollback := Compensate(rollback, request);
      } else if !request.allowFailure {
        return rollback, Some(o);
      }
      i := i + 1;
    }
    assert commands[i..] == [];
    ForwardNothing(x, runner.oracle, runner.issued, rollback);
    Sequences.Empty(done);
  }

  /** The loop of the script: a command fails on a time-out or a status other than zero. */
  method IssueInScript(runner: Runner, commands: seq<Request>) returns (rollback: Stack, failure: Option<Outcome>)
    requires runner.executor == Script
    modifies runner
    ensures var p := Forward(runner.executor, commands, runner.oracle, old(runner.issued), []);
            && runner.log == old(runner.log) + p.events && rollback == p.stack && failure.Some? == p.failed
            && runner.issued == old(runner.issued) + |p.events|
            && (p.failed ==>
                0 < |p.events| <= |commands|
                && failure == Some(End(runner.executor, commands[|p.events| - 1], runner.oracle(runner.issued - 1))))
  {
    hide Forward, Next;
    ghost var x := runner.executor;
    ghost var whole := Forward(x, commands, runner.oracle, runner.issued, []);
    ghost var done := [];
    rollback, failure := [], None;
    var i := 0;
    assert commands[0..] == commands && [] + whole.events == whole.events;
    while i < |commands|
      invariant 0 <= i == |done| <= |commands|
      invariant runner.issued == old(runner.issued) + i && runner.log == old(runner.log) + done
      invariant whole == After(done, Forward(x, commands[i..], runner.oracle, runner.issued, rollback))
    {
      ForwardStep(x, commands, i, runner.oracle, runner.issued, rollback, done);
      var request := commands[i];
      done := done + [Observe(x, request, runner.oracle(runner.issued))];
      var child := runner.Issue(request);
      i := i + 1;
      if child.timedOut || child.exit.status != Some(0) {
        if request.allowFailure {
          continue;
        }
        return rollback, Some(child);
      }
      rollback := Compensate(rollback, request);
    }
    assert commands[i..] == [];
    ForwardNothing(x, runner.oracle, runner.issued, rollback);
    Sequences.Empty(done);
  }

  /** runElevatedCommands: the result says whether the promise fulfils. */
  method RunElevatedCommands(runner: Runner, commands: seq<Request>) returns (fulfilled: bool)
    requires runner.executor == InProcess
    modifies runner
    ensures var run := Execute(InProcess, commands, runner.oracle, old(runner.issued));
            runner.log == old(runner.log) + run.Trace() && fulfilled == run.reported
  {
    var rollback, failure := IssueInProcess(runner, commands);
    if failure.Some? {
      Unwind(runner, rollback);
    }
    return failure.None?;
  }

  /** The script handed to osascript: the result is its exit status. */
  method RunElevatedScript(runner: Runner, commands: seq<Request>) returns (exitStatus: int)
    requires runner.executor == Script
    modifies runner
    ensures var run := Execute(Script, commands, runner.oracle, old(runner.issued));
            runner.log == old(runner.log) + run.Trace() && (exitStatus == 0 <==> run.reported)
  {
    var rollback, failure := IssueInScript(runner, commands);
    if failure.Some? {
      Unwind(runner, rollback);
      return if failure.value.exit.status.Some? then failure.value.exit.status.value else 1;
    }
    return 0;
  }

  // ----- When the two executors agree -----

  /**
   * The two executors see this child differently. Under a limit of its own it is stopped by both,
   * and only the script minds if it then exits cleanly. Without one only the script stops it.
   */
  predicate LimitShows(r: Request, child: Child) {
    if Overruns(InProcess, r, child) then
      child.stopped.status == Some(0)
    else
      && Overruns(Script, r, child)
      && (child.alone.status == Some(0) || child.alone.residue != child.stopped.residue)
  }

  lemma LimitShowsExactly(r: Request, child: Child)
    ensures LimitShows(r, child) <==> Observe(InProcess, r, child) != Observe(Script, r, child)
  {
  }

  /** The script was stopped short by a child that it had killed and that exited cleanly. */
  predicate HidesFailure(r: Request, child: Child) {
    !r.allowFailure && Overruns(Script, r, child) && child.stopped.status == Some(0)
  }

  /** None of the first n children, counted from k, is one whose limit shows. */
  predicate NoLimitShows(requests: seq<Request>, oracle: Oracle, k: nat, n: nat) {
    forall i :: 0 <= i < n && i < |requests| ==> !LimitShows(requests[i], oracle(k + i))
  }

  lemma NoLimitShowsFirst(requests: seq<Request>, oracle: Oracle, k: nat, n: nat)
    requires requests != []
    ensures NoLimitShows(requests, oracle, k, n + 1) <==>
            !LimitShows(requests[0], oracle(k)) && NoLimitShows(requests[1..], oracle, k + 1, n)
  {
    if NoLimitShows(requests, oracle, k, n + 1) {
      forall i | 0 <= i < n && i < |requests[1..]| ensures !LimitShows(requests[1..][i], oracle(k + 1 + i)) {
        assert !LimitShows(requests[i + 1], oracle(k + (i + 1)));
      }
      assert !LimitShows(requests[0], oracle(k + 0));
    } else {
      var i :| 0 <= i < n + 1 && i < |requests| && LimitShows(requests[i], oracle(k + i));
      assert i > 0 ==> LimitShows(requests[1..][i - 1], oracle(k + 1 + (i - 1)));
    }
  }

  lemma {:induction false} ForwardAgrees(requests: seq<Request>, oracle: Oracle, k: nat, stack: Stack)
    ensures var p, q := Forward(InProcess, requests, oracle, k, stack), Forward(Script, requests, oracle, k, stack);
            && (NoLimitShows(requests, oracle, k, |p.events|) ==> p == q)
            && (p.events == q.events ==> NoLimitShows(requests, oracle, k, |p.events|))
    decreases |requests|
  {
    if requests != [] {
      var r, e := requests[0], Observe(InProcess, requests[0], oracle(k));
      LimitShowsExactly(r, oracle(k));
      var s := if e.ok then Next(stack, r) else stack;
      if e.ok || r.allowFailure {
        var rest := Forward(InProcess, requests[1..], oracle, k + 1, s);
        NoLimitShowsFirst(requests, oracle, k, |rest.events|);
        ForwardAgrees(requests[1..], oracle, k + 1, s);
        if Forward(Script, requests, oracle, k, stack).events == [e] + rest.events {
          assert Forward(Script, requests, oracle, k, stack).events[0] == e;
          assert Forward(Script, requests, oracle, k, stack).events[1..] == rest.events;
        }
      } else {
        NoLimitShowsFirst(requests, oracle, k, 0);
      }
    }
  }

  lemma {:induction false} RecoverAgrees(recoveries: seq<Request>, oracle: Oracle, k: nat)
    ensures var p, q := Recover(InProcess, recoveries, oracle, k), Recover(Script, recoveries, oracle, k);
            NoLimitShows(recoveries, oracle, k, |p|) <==> p == q
    decreases |recoveries|
  {
    if recoveries != [] {
      var r, e := recoveries[0], Observe(InProcess, recoveries[0], oracle(k));
      LimitShowsExactly(r, oracle(k));
      if e.ok || r.allowFailure {
        var rest := Recover(InProcess, recoveries[1..], oracle, k + 1);
        NoLimitShowsFirst(recoveries, oracle, k, |rest|);
        RecoverAgrees(recoveries[1..], oracle, k + 1);
        if Recover(Script, recoveries, oracle, k) == [e] + rest {
          assert Recover(Script, recoveries, oracle, k)[0] == e;
          assert Recover(Script, recoveries, oracle, k)[1..] == rest;
        }
      } else {
        NoLimitShowsFirst(recoveries, oracle, k, 0);
      }
    }
  }

  /** A failed run ends with a required command that its executor rejected. */
  lemma {:induction false} FailureIsLast(x: Executor, requests: seq<Request>, oracle: Oracle, k: nat, stack: Stack)
    ensures var p := Forward(x, requests, oracle, k, stack);
            p.failed ==>
              && 0 < |p.events| <= |requests|
              && !requests[|p.events| - 1].allowFailure && !p.events[|p.events| - 1].ok
              && !Observe(x, requests[|p.events| - 1], oracle(k + |p.events| - 1)).ok
    decreases |requests|
  {
    if requests != [] {
      var e := Observe(x, requests[0], oracle(k));
      FailureIsLast(x, requests[1..], oracle, k + 1, if e.ok then Next(stack, requests[0]) else stack);
    }
  }

  /** Where no limit shows in an in-process run: not in its commands, its failure or its recoveries. */
  predicate LimitsUnnoticed(requests: seq<Request>, oracle: Oracle) {
    var p := Forward(InProcess, requests, oracle, 0, []);
    && NoLimitShows(requests, oracle, 0, |p.events|)
    && (p.failed ==>
        && (0 < |p.events| <= |requests| ==> !HidesFailure(requests[|p.events| - 1], oracle(|p.events| - 1)))
        && NoLimitShows(Recoveries(p.stack), oracle, |p.events|,
                        |Recover(InProcess, Recoveries(p.stack), oracle, |p.events|)|))
  }

  /**
   * For every command list and all children: the two executors issue the same forward and recovery
   * commands with the same effects and report the same result, exactly when no child that the
   * in-process run issues is one whose limit shows, and the one that fails the run does not hide it.
   */
  lemma ExecutorsAgreeExactly(requests: seq<Request>, oracle: Oracle)
    ensures Execute(InProcess, requests, oracle, 0) == Execute(Script, requests, oracle, 0) <==>
            LimitsUnnoticed(requests, oracle)
  {
    hide Forward, Recover, Recoveries, NoLimitShows;
    var p, q := Forward(InProcess, requests, oracle, 0, []), Forward(Script, requests, oracle, 0, []);
    ForwardAgrees(requests, oracle, 0, []);
    FailureIsLast(InProcess, requests, oracle, 0, []);
    FailureIsLast(Script, requests, oracle, 0, []);
    RecoverAgrees(Recoveries(p.stack), oracle, |p.events|);
    if p == q && p.failed {
      var r, child := requests[|p.events| - 1], oracle(|p.events| - 1);
      assert HidesFailure(r, child) <==> End(Script, r, child).exit.status == Some(0);
    }
  }

  /** A command without a limit of its own that needs more than the script allows: only the script fails. */
  lemma OnlyTheScriptIsImpatient(r: Request, oracle: Oracle)
    requires !r.allowFailure && r.limit.None?
    requires oracle(0).milliseconds > SCRIPT_LIMIT && oracle(0).alone.status == Some(0)
    ensures !Execute(InProcess, [r], oracle, 0).failed && Execute(Script, [r], oracle, 0).failed
    ensures !LimitsUnnoticed([r], oracle)
  {
    SingleRequest(Script, r, oracle, 0, []);
    SingleRequest(InProcess, r, oracle, 0, []);
    ExecutorsAgreeExactly([r], oracle);
  }

  /** A required child that the script stops and that then exits cleanly: undone, and reported as a success. */
  lemma ScriptHidesATimedOutFailure(r: Request, oracle: Oracle)
    requires HidesFailure(r, oracle(0))
    ensures var run := Execute(Script, [r], oracle, 0); run.failed && run.reported
    ensures !LimitsUnnoticed([r], oracle)
  {
    SingleRequest(Script, r, oracle, 0, []);
    SingleRequest(InProcess, r, oracle, 0, []);
    ExecutorsAgreeExactly([r], oracle);
  }

  lemma SingleRequest(x: Executor, r: Request, oracle: Oracle, k: nat, stack: Stack)
    ensures var e := Observe(x, r, oracle(k));
            Forward(x, [r], oracle, k, stack) ==
            Phase([e], if e.ok then Next(stack, r) else stack, !e.ok && !r.allowFailure)
  {
    assert [r][1..] == [];
  }

  // ----- Composing programs -----

  lemma {:induction false} ForwardLength(x: Executor, a: seq<Request>, oracle: Oracle, k: nat, stack: Stack)
    ensures var p := Forward(x, a, oracle, k, stack); |p.events| <= |a| && (!p.failed ==> |p.events| == |a|)
    decreases |a|
  {
    if a != [] {
      var e := Observe(x, a[0], oracle(k));
      ForwardLength(x, a[1..], oracle, k + 1, if e.ok then Next(stack, a[0]) else stack);
    }
  }

  lemma {:induction false} ForwardOps(x: Executor, a: seq<Request>, oracle: Oracle, k: nat, stack: Stack)
    ensures var p := Forward(x, a, oracle, k, stack);
            |p.events| <= |a| && forall i :: 0 <= i < |p.events| ==> p.events[i].op == a[i].op
    decreases |a|
  {
    if a != [] {
      var e := Observe(x, a[0], oracle(k));
      ForwardOps(x, a[1..], oracle, k + 1, if e.ok then Next(stack, a[0]) else stack);
    }
  }

  /** The run of a program continued by the run of another from the stack and the count it left. */
  function Continue(p: Phase, x: Executor, b: seq<Request>, oracle: Oracle, k: nat): Phase {
    if p.failed then p else After(p.events, Forward(x, b, oracle, k + |p.events|, p.stack))
  }

  lemma {:induction false} ForwardAppend(x: Executor, a: seq<Request>, b: seq<Request>, oracle: Oracle, k: nat, stack: Stack)
    ensures Forward(x, a + b, oracle, k, stack) == Continue(Forward(x, a, oracle, k, stack), x, b, oracle, k)
    decreases |a|
  {
    if a == [] {
      assert a + b == b;
      var q := Forward(x, b, oracle, k, stack);
      assert After([], q) == q;
    } else {
      assert (a + b)[0] == a[0] && (a + b)[1..] == a[1..] + b;
      var e := Observe(x, a[0], oracle(k));
      if e.ok || a[0].allowFailure {
        var s := if e.ok then Next(stack, a[0]) else stack;
        ForwardAppend(x, a[1..], b, oracle, k + 1, s);
        ContinueAfter(e, Forward(x, a[1..], oracle, k + 1, s), x, b, oracle, k);
      }
    }
  }

  lemma ContinueAfter(e: Event, p: Phase, x: Executor, b: seq<Request>, oracle: Oracle, k: nat)
    ensures Continue(After([e], p), x, b, oracle, k) == After([e], Continue(p, x, b, oracle, k + 1))
  {
    if !p.failed {
      var q := Forward(x, b, oracle, k + 1 + |p.events|, p.stack);
      assert [e] + (p.events + q.events) == ([e] + p.events) + q.events;
    }
  }

  // ----- What a commit forgets -----

  /** Every group on the stack was there before or belongs to a request of the list. */
  lemma {:induction false} StackComesFrom(x: Executor, requests: seq<Request>, oracle: Oracle, k: nat, stack: Stack)
    ensures forall g :: g in Forward(x, requests, oracle, k, stack).stack ==>
              g in stack || exists r :: r in requests && r.rollback == g
    decreases |requests|
  {
    if requests != [] {
      var r, e := requests[0], Observe(x, requests[0], oracle(k));
      if e.ok || r.allowFailure {
        var s := if e.ok then Next(stack, r) else stack;
        StackComesFrom(x, requests[1..], oracle, k + 1, s);
        forall g | g in Forward(x, requests, oracle, k, stack).stack
          ensures g in stack || exists q :: q in requests && q.rollback == g
        {
          if q :| q in requests[1..] && q.rollback == g {
            assert q in requests;
          } else {
            assert g in s;
            assert g in stack || r.rollback == g;
          }
        }
      }
    }
  }

  lemma {:induction false} RecoveryComesFrom(stack: Stack, q: Request) returns (g: seq<Request>)
    requires q in Recoveries(stack)
    ensures g in stack && q in g
  {
    var n := |stack| - 1;
    if q in stack[n] {
      g := stack[n];
    } else {
      g := RecoveryComesFrom(stack[..n], q);
    }
  }

  lemma {:induction false} RecoverIssues(x: Executor, recoveries: seq<Request>, oracle: Oracle, k: nat)
    ensures var events := Recover(x, recoveries, oracle, k);
            |events| <= |recoveries| && forall i :: 0 <= i < |events| ==> events[i].op == recoveries[i].op
    decreases |recoveries|
  {
    if recoveries != [] {
      RecoverIssues(x, recoveries[1..], oracle, k + 1);
    }
  }

  /** After a request with `clear` succeeded, only its own group is left, if it has one. */
  lemma ClearLeavesOwnGroup(x: Executor, a: seq<Request>, c: Request, oracle: Oracle)
    requires c.clear
    requires var p := Forward(x, a + [c], oracle, 0, []); !p.failed && p.events[|p.events| - 1].ok
    ensures forall g :: g in Forward(x, a + [c], oracle, 0, []).stack ==> g == c.rollback
  {
    ForwardAppend(x, a, [c], oracle, 0, []);
    ForwardLength(x, a, oracle, 0, []);
    var p := Forward(x, a, oracle, 0, []);
    if !p.failed {
      SingleRequest(x, c, oracle, |p.events|, p.stack);
    }
  }

  /**
   * A commit forgets what went before: when a request with `clear` succeeded after any program a, every recovery that
   * any continuation b makes necessary comes from the group of that request or of one after it.
   */
  lemma {:induction false} CommitForgets(x: Executor, a: seq<Request>, c: Request, b: seq<Request>, oracle: Oracle, i: nat)
    requires c.clear
    requires var p := Forward(x, a + [c], oracle, 0, []); !p.failed && p.events[|p.events| - 1].ok
    requires i < |Execute(x, a + [c] + b, oracle, 0).recovery|
    ensures var recovery := Execute(x, a + [c] + b, oracle, 0).recovery;
            exists r, q :: r in [c] + b && q in r.rollback && recovery[i].op == q.op
  {
    var p := Forward(x, a + [c], oracle, 0, []);
    ForwardAppend(x, a + [c], b, oracle, 0, []);
    ClearLeavesOwnGroup(x, a, c, oracle);
    StackComesFrom(x, b, oracle, |p.events|, p.stack);
    var whole := Forward(x, a + [c] + b, oracle, 0, []);
    assert whole == After(p.events, Forward(x, b, oracle, |p.events|, p.stack));
    var plan := Recoveries(whole.stack);
    RecoverIssues(x, plan, oracle, |whole.events|);
    var q := plan[i];
    var g := RecoveryComesFrom(whole.stack, q);
    if g == c.rollback {
      assert c in [c] + b && q in c.rollback;
    } else {
      var r :| r in b && r.rollback == g;
      assert r in [c] + b && q in r.rollback;
    }
  }

  /** No request that may run once the program has committed carries a group. */
  predicate CommitsForGood(program: seq<Request>) {
    forall i, j :: 0 <= i <= j < |program| && program[i].clear ==> program[j].rollback == []
  }

  /** A request that was issued and succeeded was the last of a prefix that did not fail. */
  lemma {:induction false} PrefixSucceeded(x: Executor, program: seq<Request>, oracle: Oracle, i: nat)
    requires var p := Forward(x, program, oracle, 0, []); i < |p.events| && i < |program| && p.events[i].ok
    ensures var p := Forward(x, program[..i + 1], oracle, 0, []);
            !p.failed && |p.events| == i + 1 && p.events[i].ok
  {
    var a, b := program[..i + 1], program[i + 1..];
    assert program == a + b;
    ForwardAppend(x, a, b, oracle, 0, []);
    ForwardLength(x, a, oracle, 0, []);
    FailureIsLast(x, a, oracle, 0, []);
  }

  /** Such a program is never rolled back once a request with `clear` succeeded. */
  lemma {:induction false} NoRecoveryAfterCommit(x: Executor, program: seq<Request>, oracle: Oracle, i: nat)
    requires CommitsForGood(program)
    requires var run := Execute(x, program, oracle, 0);
             i < |run.forward| && i < |program| && program[i].clear && run.forward[i].ok
    ensures Execute(x, program, oracle, 0).recovery == []
  {
    var a, c, b := program[..i], program[i], program[i + 1..];
    assert program[..i + 1] == a + [c] && program == a + [c] + b;
    PrefixSucceeded(x, program, oracle, i);
    forall r | r in [c] + b ensures r.rollback == [] {
      var j :| 0 <= j < |[c] + b| && ([c] + b)[j] == r;
      assert program[i + j] == r;
    }
    if Execute(x, program, oracle, 0).recovery != [] {
      CommitForgets(x, a, c, b, oracle, 0);
    }
  }
}
