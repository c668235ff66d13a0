/** Which service a failed macOS start brings back, which failures a program tolerates, and how long it waits. */
module MacosOutcomes {
  import opened Wrappers
  import opened LaunchdWorld
  import opened ElevatedSequence
  import opened MacosPrograms
  import Completion = MacosCompletion
  import Install = MacosInstall
  import Start = MacosStart

  // ----- The service that comes back -----

  /** The first legacy service that was running. */
  ghost predicate FirstRan(existing: seq<Installation>, k: int) {
    0 <= k < |existing| && existing[k].wasRunning && forall j :: 0 <= j < k ==> !existing[j].wasRunning
  }

  ghost predicate CanonicalRan(canonical: Option<Installation>) {
    canonical.Some? && canonical.value.wasRunning
  }

  lemma {:induction false} FirstRunningIs(existing: seq<Installation>)
    ensures FirstRunning(existing).None? ==> forall j :: 0 <= j < |existing| ==> !existing[j].wasRunning
    ensures forall k :: FirstRan(existing, k) ==> FirstRunning(existing) == Some(existing[k].id)
  {
    if existing != [] {
      FirstRunningIs(existing[1..]);
      assert forall j :: 1 <= j < |existing| ==> existing[j] == existing[1..][j - 1];
      forall k | FirstRan(existing, k) ensures FirstRunning(existing) == Some(existing[k].id) {
        if k > 0 {
          assert FirstRan(existing[1..], k - 1);
        }
      }
    }
  }

  /** The canonical service wins if it ran, else the first legacy one that did; with neither there is no winner. */
  lemma WinnerExactly(canonical: Option<Installation>, existing: seq<Installation>)
    ensures CanonicalRan(canonical) ==> Winner(canonical, existing) == Some(canonical.value.id)
    ensures !CanonicalRan(canonical) ==>
              forall k :: FirstRan(existing, k) ==> Winner(canonical, existing) == Some(existing[k].id)
    ensures !CanonicalRan(canonical) && (forall i :: i in existing ==> !i.wasRunning) ==>
              Winner(canonical, existing) == None
  {
    FirstRunningIs(existing);
    if FirstRunning(existing).Some? && forall i :: i in existing ==> !i.wasRunning {
      SomebodyRan(existing);
    }
  }

  lemma {:induction false} SomebodyRan(existing: seq<Installation>)
    ensures FirstRunning(existing).Some? ==> exists i :: i in existing && i.wasRunning
  {
    if existing != [] {
      SomebodyRan(existing[1..]);
      assert existing[0] in existing;
    }
  }

  /** This one of the quiesced services is enabled and no other is; where it ran before, it runs again. */
  ghost predicate Alone(after: World, quiesced: set<Identifier>, id: Identifier, ran: bool) {
    && (forall other :: other in quiesced ==> (At(after, other).enabled <==> other == id))
    && (ran ==> At(after, id).running)
  }

  /**
   * A start that fails after quiescing and before it commits, with recoveries that succeed, from any launchd state:
   * a canonical service that ran is alone again; if it did not, the first legacy service that ran is; if none ran,
   * the canonical one is enabled alone, and without a canonical one every service stays disabled.
   */
  lemma FailedStartBringsBack(
      x: Executor, existing: seq<Installation>, canonical: Option<Installation>, oracle: Oracle, w: World)
    requires Start.AllDistinct(existing, canonical)
    requires var program := Start.StartProgram(existing, canonical);
             var run := Execute(x, program, oracle, 0);
             && run.failed && |run.forward| > |Start.QuiescePart(existing, canonical)|
             && !Committed(program, run.forward) && RecoverySucceeded(x, program, oracle)
    ensures var after := ApplyAll(w, Execute(x, Start.StartProgram(existing, canonical), oracle, 0).Trace());
            var quiesced := Start.Quiesced(existing, canonical);
            && (CanonicalRan(canonical) ==> Alone(after, quiesced, canonical.value.id, true))
            && (!CanonicalRan(canonical) ==> forall k :: FirstRan(existing, k) ==> Alone(after, quiesced, existing[k].id, true))
            && (!CanonicalRan(canonical) && (forall i :: i in existing ==> !i.wasRunning) ==>
                  if canonical.Some? then Alone(after, quiesced, canonical.value.id, false)
                  else forall id :: id in quiesced ==> !At(after, id).enabled)
  {
    WinnerExactly(canonical, existing);
    Start.SingleEnabledAfterFailedStart(x, existing, canonical, oracle, w);
    hide Execute, ApplyAll, At, Start.StartProgram, Winner, Committed, RecoverySucceeded;
  }

  // ----- What is tolerated, and how long is waited -----

  /** Only a bootout may fail; only the wait for an answer has a limit of its own, and it commits. */
  predicate Usual(r: Request) {
    && (r.allowFailure <==> r.op.Bootout?)
    && r.limit == (if r.op.AwaitReady? then Some(35_000) else None)
    && (r.op.AwaitReady? ==> r.clear)
  }

  predicate AllUsual(rs: seq<Request>) {
    forall r :: r in rs ==> Usual(r)
  }

  lemma BothUsual(a: seq<Request>, b: seq<Request>)
    requires AllUsual(a) && AllUsual(b)
    ensures AllUsual(a + b)
  {
  }

  lemma {:induction false} QuiesceIsUsual(list: seq<Installation>, restoreStopped: bool)
    ensures AllUsual(Quiesce(list, restoreStopped))
    decreases |list|
  {
    if list != [] {
      QuiesceIsUsual(list[1..], restoreStopped);
    }
  }

  lemma {:induction false} BootoutIsUsual(list: seq<Installation>, clearAfterLast: bool)
    ensures AllUsual(BootoutAll(list, clearAfterLast))
    decreases |list|
  {
    if list != [] {
      BootoutIsUsual(list[1..], clearAfterLast);
    }
  }

  lemma {:induction false} CleanupIsUsual(list: seq<Installation>)
    ensures AllUsual(Cleanup(list))
    decreases |list|
  {
    if list != [] {
      CleanupIsUsual(list[1..]);
    }
  }

  lemma StartIsUsual(existing: seq<Installation>, canonical: Option<Installation>)
    ensures AllUsual(Start.StartProgram(existing, canonical))
  {
    var winner := Winner(canonical, existing);
    var q1 := Quiesce(Mark(existing, winner), false);
    var q2 := if canonical.Some? then Quiesce([MarkOne(canonical.value, winner)], winner.None?) else [];
    var b, s, c := BootoutAll(existing, canonical.None?), Start.StartPart(canonical), Cleanup(existing);
    assert Start.StartProgram(existing, canonical) == (q1 + q2) + (b + (s + c));
    QuiesceIsUsual(Mark(existing, winner), false);
    if canonical.Some? {
      QuiesceIsUsual([MarkOne(canonical.value, winner)], winner.None?);
    }
    BootoutIsUsual(existing, canonical.None?);
    CleanupIsUsual(existing);
    assert AllUsual(s);
    hide Quiesce, BootoutAll, Cleanup, Start.StartPart, Usual;
    BothUsual(q1, q2);
    BothUsual(s, c);
    BothUsual(b, s + c);
    BothUsual(q1 + q2, b + (s + c));
  }

  lemma ReplacingIsUsual(id: Identifier)
    ensures AllUsual([Install.ArmRestore(id)]) && AllUsual(Install.ReplacePart(id))
  {
  }

  lemma UpdateIsUsual(existing: Installation, obsolete: seq<Installation>)
    ensures AllUsual(Install.UpdateProgram(existing, obsolete))
  {
    var winner := Winner(Some(existing), obsolete);
    var q1, q2 := Quiesce([MarkOne(existing, winner)], winner.None?), Quiesce(Mark(obsolete, winner), false);
    var arm, b := [Install.ArmRestore(existing.id)], BootoutAll(obsolete, false);
    var r, c := Install.ReplacePart(existing.id), Cleanup(obsolete);
    assert Install.UpdateProgram(existing, obsolete) == (q1 + q2) + (arm + (b + (r + c)));
    QuiesceIsUsual([MarkOne(existing, winner)], winner.None?);
    QuiesceIsUsual(Mark(obsolete, winner), false);
    BootoutIsUsual(obsolete, false);
    CleanupIsUsual(obsolete);
    ReplacingIsUsual(existing.id);
    hide Quiesce, BootoutAll, Cleanup, Install.ReplacePart, Install.ArmRestore, Usual;
    BothUsual(q1, q2);
    BothUsual(r, c);
    BothUsual(b, r + c);
    BothUsual(arm, b + (r + c));
    BothUsual(q1 + q2, arm + (b + (r + c)));
  }

  /** A command that fails ends the forward part, unless it is a bootout; a run fails at its last command only. */
  ghost predicate ToleratesBootouts(run: Run) {
    && (forall i :: 0 <= i < |run.forward| && !run.forward[i].ok && !run.forward[i].op.Bootout? ==>
          run.failed && i == |run.forward| - 1)
    && (run.failed ==>
          var last := |run.forward| - 1; last >= 0 && !run.forward[last].ok && !run.forward[last].op.Bootout?)
  }

  /** A wait for an answer that ends well by itself within 35 seconds succeeds; beyond that it is stopped. */
  ghost predicate WaitsLongEnough(x: Executor, run: Run, oracle: Oracle) {
    forall i :: 0 <= i < |run.forward| ==> LongEnough(x, run.forward[i], oracle(i))
  }

  predicate LongEnough(x: Executor, e: Event, child: Child) {
    e.op.AwaitReady? ==>
      if child.milliseconds <= 35_000 then e.ok <==> child.alone.status == Some(0)
      else e.ok <==> x.InProcess? && child.stopped.status == Some(0)
  }

  /** What is observed of the command, and that it succeeded, was tolerated, or ended the forward part. */
  ghost predicate Told(x: Executor, program: seq<Request>, oracle: Oracle, k: nat, p: Phase, i: nat) {
    && i < |p.events| && i < |program|
    && p.events[i] == Observe(x, program[i], oracle(k + i))
    && (p.events[i].ok || program[i].allowFailure || (p.failed && i == |p.events| - 1))
  }

  lemma {:induction false} EachIsTold(x: Executor, program: seq<Request>, oracle: Oracle, k: nat, stack: Stack, i: nat)
    requires i < |Forward(x, program, oracle, k, stack).events|
    ensures Told(x, program, oracle, k, Forward(x, program, oracle, k, stack), i)
    decreases |program|
  {
    if program != [] {
      var e := Observe(x, program[0], oracle(k));
      hide Observe;
      if i > 0 {
        EachIsTold(x, program[1..], oracle, k + 1, if e.ok then Next(stack, program[0]) else stack, i - 1);
        assert k + 1 + (i - 1) == k + i;
      }
    }
  }

  /** How a usual request is observed. */
  lemma UsualIsObserved(x: Executor, r: Request, child: Child)
    requires Usual(r)
    ensures Observe(x, r, child).op == r.op && LongEnough(x, Observe(x, r, child), child)
  {
  }

  lemma {:induction false} UsualRun(x: Executor, program: seq<Request>, oracle: Oracle)
    requires AllUsual(program)
    ensures ToleratesBootouts(Execute(x, program, oracle, 0)) && WaitsLongEnough(x, Execute(x, program, oracle, 0), oracle)
  {
    var p := Forward(x, program, oracle, 0, []);
    FailureIsLast(x, program, oracle, 0, []);
    hide Forward, Recover, Observe, LongEnough;
    forall i | 0 <= i < |p.events| ensures TellsUsual(x, program, oracle, p, i) {
      EachIsTold(x, program, oracle, 0, [], i);
      assert program[i] in program;
      UsualIsObserved(x, program[i], oracle(0 + i));
    }
    hide AllUsual, Usual;
    var run := Execute(x, program, oracle, 0);
    forall i | 0 <= i < |run.forward|
      ensures run.forward[i].ok || run.forward[i].op.Bootout? || (run.failed && i == |run.forward| - 1)
      ensures LongEnough(x, run.forward[i], oracle(i))
    {
      assert TellsUsual(x, program, oracle, p, i);
    }
    if run.failed {
      assert TellsUsual(x, program, oracle, p, |p.events| - 1);
    }
  }

  /** A command of a usual program is a bootout if it failed before the end, and is waited for long enough. */
  ghost predicate TellsUsual(x: Executor, program: seq<Request>, oracle: Oracle, p: Phase, i: nat) {
    && i < |p.events| && i < |program| && p.events[i].op == program[i].op
    && (program[i].allowFailure <==> program[i].op.Bootout?)
    && (p.events[i].ok || p.events[i].op.Bootout? || (p.failed && i == |p.events| - 1))
    && LongEnough(x, p.events[i], oracle(i))
  }

  /** Every start and every update, with either executor, tolerates failed bootouts alone and waits 35 s for an answer. */
  lemma ProgramsTolerateBootouts(
      x: Executor, existing: seq<Installation>, canonical: Option<Installation>, current: Installation, oracle: Oracle)
    ensures var run := Execute(x, Start.StartProgram(existing, canonical), oracle, 0);
            ToleratesBootouts(run) && WaitsLongEnough(x, run, oracle)
    ensures var run := Execute(x, Install.UpdateProgram(current, existing), oracle, 0);
            ToleratesBootouts(run) && WaitsLongEnough(x, run, oracle)
  {
    StartIsUsual(existing, canonical);
    UpdateIsUsual(current, existing);
    UsualRun(x, Start.StartProgram(existing, canonical), oracle);
    UsualRun(x, Install.UpdateProgram(current, existing), oracle);
  }

  /** Some service was awaited and answered. */
  ghost predicate Answered(events: seq<Event>) {
    exists i :: 0 <= i < |events| && events[i].op.AwaitReady? && events[i].ok
  }

  lemma {:induction false} AnswerCommits(x: Executor, program: seq<Request>, oracle: Oracle)
    requires AllUsual(program) && Answered(Execute(x, program, oracle, 0).forward)
    ensures Committed(program, Execute(x, program, oracle, 0).forward)
  {
    var events := Forward(x, program, oracle, 0, []).events;
    assert events == Execute(x, program, oracle, 0).forward;
    hide Forward, Execute, Recover, Observe;
    var i :| 0 <= i < |events| && events[i].op.AwaitReady? && events[i].ok;
    EachIsTold(x, program, oracle, 0, [], i);
    assert program[i] in program;
    UsualIsObserved(x, program[i], oracle(0 + i));
  }

  /** Once the canonical service has answered, nothing that fails afterwards is rolled back. */
  lemma AnsweredIsNotRolledBack(
      x: Executor, existing: seq<Installation>, canonical: Option<Installation>, current: Installation, oracle: Oracle)
    ensures var run := Execute(x, Start.StartProgram(existing, canonical), oracle, 0);
            Answered(run.forward) ==> run.recovery == []
    ensures var run := Execute(x, Install.UpdateProgram(current, existing), oracle, 0);
            Answered(run.forward) ==> run.recovery == []
  {
    var start, update := Start.StartProgram(existing, canonical), Install.UpdateProgram(current, existing);
    StartIsUsual(existing, canonical);
    UpdateIsUsual(current, existing);
    if Answered(Execute(x, start, oracle, 0).forward) {
      AnswerCommits(x, start, oracle);
      Completion.CommittedStartIsNotRolledBack(x, existing, canonical, oracle);
    }
    if Answered(Execute(x, update, oracle, 0).forward) {
      AnswerCommits(x, update, oracle);
      Completion.CommittedUpdateIsNotRolledBack(x, current, existing, oracle);
    }
  }
}
