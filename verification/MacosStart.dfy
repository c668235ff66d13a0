/** startStartupService on macOS: what a failed start leaves behind, for any number of legacy services. */
module MacosStart {
  import opened Wrappers
  import opened LaunchdWorld
  import opened ElevatedSequence
  import opened MacosPrograms
  import Sequences

  /** The compensation of `enable`: the canonical service is disabled, booted out and gone. */
  function UndoEnable(id: Identifier): seq<Request> {
    [Request(Disable(id)), Request(Bootout(id), allowFailure := true), Request(AwaitRemoved(id))]
  }

  function QuiescePart(existing: seq<Installation>, canonical: Option<Installation>): seq<Request> {
    var winner := Winner(canonical, existing);
    Quiesce(Mark(existing, winner), false)
    + if canonical.Some? then Quiesce([MarkOne(canonical.value, winner)], winner.None?) else []
  }

  /** The canonical service is quiesced and started again only when it serves no routes. */
  function StartPart(canonical: Option<Installation>): seq<Request> {
    if canonical.None? then
      []
    else
      var id := canonical.value.id;
      [Request(Enable(id), rollback := UndoEnable(id)),
       Request(Kickstart(id)),
       Request(AwaitReady(id), clear := true, limit := Some(READINESS_LIMIT))]
  }

  function StartProgram(existing: seq<Installation>, canonical: Option<Installation>): seq<Request> {
    QuiescePart(existing, canonical) + Tail(existing, canonical)
  }

  function Tail(existing: seq<Installation>, canonical: Option<Installation>): seq<Request> {
    BootoutAll(existing, canonical.None?) + (StartPart(canonical) + Cleanup(existing))
  }

  /** Every service the program quiesces. */
  function Quiesced(existing: seq<Installation>, canonical: Option<Installation>): set<Identifier> {
    Ids(existing) + if canonical.Some? then {canonical.value.id} else {}
  }

  predicate AllDistinct(existing: seq<Installation>, canonical: Option<Installation>) {
    Distinct(existing) && (canonical.Some? ==> canonical.value.id !in Ids(existing))
  }

  /** The recovery that every failure between quiescing and committing runs. */
  function RecoveryPlan(existing: seq<Installation>, canonical: Option<Installation>, enabled: bool): seq<Request> {
    (if enabled && canonical.Some? then UndoEnable(canonical.value.id) else [])
    + ReviveSurvivor(existing, canonical)
  }

  // ----- The stack at the point of failure -----

  function QuiesceGroups(existing: seq<Installation>, canonical: Option<Installation>): Stack {
    var winner := Winner(canonical, existing);
    Groups(Mark(existing, winner), false)
    + if canonical.Some? then Groups([MarkOne(canonical.value, winner)], winner.None?) else []
  }

  lemma QuiescePartRun(
      x: Executor, existing: seq<Installation>, canonical: Option<Installation>, oracle: Oracle, w: World)
    requires AllDistinct(existing, canonical)
    requires !Forward(x, QuiescePart(existing, canonical), oracle, 0, []).failed
    ensures var p := Forward(x, QuiescePart(existing, canonical), oracle, 0, []);
            && p.stack == QuiesceGroups(existing, canonical)
            && (forall id :: id in Quiesced(existing, canonical) ==> !At(ApplyAll(w, p.events), id).enabled)
  {
    var winner := Winner(canonical, existing);
    var marked := Mark(existing, winner);
    var one := if canonical.Some? then [MarkOne(canonical.value, winner)] else [];
    assert canonical.Some? ==> one[0] in one;
    MarkKeepsIds(existing, winner);
    QuiesceBoth(x, marked, false, one, winner.None?, oracle);
    var p := Forward(x, QuiescePart(existing, canonical), oracle, 0, []);
    forall id | id in Quiesced(existing, canonical) ensures !At(ApplyAll(w, p.events), id).enabled {
      QuiesceBothEffect(x, marked, false, one, winner.None?, oracle, w, id);
    }
  }

  lemma QuiesceGroupsAre(existing: seq<Installation>, canonical: Option<Installation>)
    requires AllDistinct(existing, canonical)
    ensures var winner := Winner(canonical, existing);
            QuiesceGroups(existing, canonical) ==
            if winner.Some? then [[Request(Enable(winner.value))], Revive(winner.value)]
            else if canonical.Some? then [[Request(Enable(canonical.value.id))]]
            else []
  {
    var winner := Winner(canonical, existing);
    GroupsOfMarked(existing, winner);
    if canonical.Some? {
      var one := MarkOne(canonical.value, winner);
      assert [one][1..] == [];
      assert Groups([one], winner.None?) == GroupsOne(one, winner.None?) + [];
    }
  }

  lemma PlanOfGroups(existing: seq<Installation>, canonical: Option<Installation>)
    requires AllDistinct(existing, canonical)
    ensures Recoveries(QuiesceGroups(existing, canonical)) == RecoveryPlan(existing, canonical, false)
    ensures canonical.Some? ==>
              Recoveries(QuiesceGroups(existing, canonical) + [UndoEnable(canonical.value.id)]) ==
              RecoveryPlan(existing, canonical, true)
  {
    var winner := Winner(canonical, existing);
    QuiesceGroupsAre(existing, canonical);
    var stack := QuiesceGroups(existing, canonical);
    if canonical.Some? {
      RecoveriesPush(stack, UndoEnable(canonical.value.id));
    }
    if winner.Some? {
      RecoveriesOfWinner(winner.value);
    } else if canonical.Some? {
      RecoveriesPush([], [Request(Enable(canonical.value.id))]);
    }
  }

  /** What forward execution left when it failed: only the canonical service can be enabled again. */
  ghost predicate FailurePoint(
      existing: seq<Installation>, canonical: Option<Installation>, p: Phase, w: World, enabled: bool)
  {
    && (enabled ==> canonical.Some?)
    && p.stack == QuiesceGroups(existing, canonical)
                  + (if enabled then [UndoEnable(canonical.value.id)] else [])
    && forall id :: id in Quiesced(existing, canonical) ==>
         At(ApplyAll(w, p.events), id).enabled ==> enabled && id == canonical.value.id
  }

  /** What the requests after the quiesce part leave: at most the canonical service's own group is new. */
  ghost predicate TailPoint(canonical: Option<Installation>, p: Phase, stack: Stack, w: World, enabled: bool) {
    && (enabled ==> canonical.Some?)
    && p.stack == stack + (if enabled then [UndoEnable(canonical.value.id)] else [])
    && forall id :: At(ApplyAll(w, p.events), id).enabled ==>
         At(w, id).enabled || (enabled && id == canonical.value.id)
  }

  /** Starting the canonical service and cleaning up, up to a failure or the end. */
  lemma StartRun(
      x: Executor, id: Identifier, rest: seq<Request>, canonical: Option<Installation>, oracle: Oracle, k: nat,
      stack: Stack, w: World)
    requires canonical.Some? && canonical.value.id == id && forall r :: r in rest ==> Neutral(r)
    requires var requests := [Request(Enable(id), rollback := UndoEnable(id))] + rest;
             !Committed(requests, Forward(x, requests, oracle, k, stack).events)
    ensures var p := Forward(x, [Request(Enable(id), rollback := UndoEnable(id))] + rest, oracle, k, stack);
            TailPoint(canonical, p, stack, w, false) || TailPoint(canonical, p, stack, w, true)
  {
    var enable := Request(Enable(id), rollback := UndoEnable(id));
    ForwardAppend(x, [enable], rest, oracle, k, stack);
    SingleRequest(x, enable, oracle, k, stack);
    var e := Observe(x, enable, oracle(k));
    ApplyAllAppend(w, [e], []);
    if !e.ok {
      assert stack + [] == stack;
    } else {
      var pushed := stack + [UndoEnable(id)];
      NeutralRun(x, rest, oracle, k + 1, pushed, Apply(w, e));
      var q := Forward(x, rest, oracle, k + 1, pushed);
      ApplyAllAppend(w, [e], q.events);
      if Committed(rest, q.events) {
        CommittedAppend([enable], rest, [e], q.events);
      }
    }
  }

  lemma AfterBootouts(
      x: Executor, existing: seq<Installation>, canonical: Option<Installation>, oracle: Oracle, k: nat,
      stack: Stack, w: World)
    requires var rest := StartPart(canonical) + Cleanup(existing);
             !Committed(rest, Forward(x, rest, oracle, k, stack).events)
    ensures var p := Forward(x, StartPart(canonical) + Cleanup(existing), oracle, k, stack);
            TailPoint(canonical, p, stack, w, false) || TailPoint(canonical, p, stack, w, true)
  {
    var s, c := StartPart(canonical), Cleanup(existing);
    CleanupIsNeutral(existing);
    if canonical.Some? {
      assert s + c == [s[0]] + (s[1..] + c);
      StartRun(x, canonical.value.id, s[1..] + c, canonical, oracle, k, stack, w);
    } else {
      NeutralRun(x, s + c, oracle, k, stack, w);
      assert stack + [] == stack;
    }
  }

  /** Neutral requests ahead of a program do not change what it leaves. */
  lemma NeutralAhead(
      x: Executor, b: seq<Request>, rest: seq<Request>, canonical: Option<Installation>, oracle: Oracle, k: nat,
      stack: Stack, w: World, enabled: bool)
    requires forall r :: r in b ==> Neutral(r)
    requires var pb := Forward(x, b, oracle, k, stack);
             && !Committed(b, pb.events)
             && (!pb.failed ==>
                   TailPoint(canonical, Forward(x, rest, oracle, k + |pb.events|, stack), stack,
                             ApplyAll(w, pb.events), enabled))
    ensures TailPoint(canonical, Forward(x, b + rest, oracle, k, stack), stack, w,
                      enabled && !Forward(x, b, oracle, k, stack).failed)
  {
    hide Forward, ApplyAll;
    NeutralRun(x, b, oracle, k, stack, w);
    ForwardAppend(x, b, rest, oracle, k, stack);
    var pb := Forward(x, b, oracle, k, stack);
    if pb.failed {
      Sequences.Empty(stack);
    } else {
      ApplyAllAppend(w, pb.events, Forward(x, rest, oracle, k + |pb.events|, stack).events);
    }
  }

  /** Everything after the quiesce part, up to a failure or the end, while nothing commits. */
  lemma TailRun(
      x: Executor, existing: seq<Installation>, canonical: Option<Installation>, oracle: Oracle, k: nat,
      stack: Stack, w: World)
    requires !Committed(Tail(existing, canonical), Forward(x, Tail(existing, canonical), oracle, k, stack).events)
    ensures var p := Forward(x, Tail(existing, canonical), oracle, k, stack);
            TailPoint(canonical, p, stack, w, false) || TailPoint(canonical, p, stack, w, true)
  {
    var b, rest := BootoutAll(existing, canonical.None?), StartPart(canonical) + Cleanup(existing);
    assert Tail(existing, canonical) == b + rest;
    hide *;
    UncommittedParts(x, b, rest, oracle, k, stack);
    BootoutAllIsNeutral(existing, canonical.None?);
    QuietStack(x, b, oracle, k, stack);
    if Forward(x, b, oracle, k, stack).failed {
      NeutralAhead(x, b, rest, canonical, oracle, k, stack, w, false);
    } else {
      TailAfterBootouts(x, existing, canonical, oracle, k, stack, w);
    }
  }

  /** The bootouts went through: what the start and the cleanup leave is what the tail leaves. */
  lemma TailAfterBootouts(
      x: Executor, existing: seq<Installation>, canonical: Option<Installation>, oracle: Oracle, k: nat,
      stack: Stack, w: World)
    requires var b, rest := BootoutAll(existing, canonical.None?), StartPart(canonical) + Cleanup(existing);
             var pb := Forward(x, b, oracle, k, stack);
             && (forall r :: r in b ==> Neutral(r))
             && !pb.failed && !Committed(b, pb.events) && pb.stack == stack
             && !Committed(rest, Forward(x, rest, oracle, k + |pb.events|, stack).events)
    ensures var b, rest := BootoutAll(existing, canonical.None?), StartPart(canonical) + Cleanup(existing);
            var p := Forward(x, b + rest, oracle, k, stack);
            TailPoint(canonical, p, stack, w, false) || TailPoint(canonical, p, stack, w, true)
  {
    hide *;
    var b, rest := BootoutAll(existing, canonical.None?), StartPart(canonical) + Cleanup(existing);
    var pb := Forward(x, b, oracle, k, stack);
    var w1 := ApplyAll(w, pb.events);
    AfterBootouts(x, existing, canonical, oracle, k + |pb.events|, stack, w1);
    var enabled := TailPoint(canonical, Forward(x, rest, oracle, k + |pb.events|, stack), stack, w1, true);
    NeutralAhead(x, b, rest, canonical, oracle, k, stack, w, enabled);
  }

  lemma UncommittedFailure(
      x: Executor, existing: seq<Installation>, canonical: Option<Installation>, oracle: Oracle, w: World)
    requires AllDistinct(existing, canonical)
    requires var p := Forward(x, StartProgram(existing, canonical), oracle, 0, []);
             && p.failed && |p.events| > |QuiescePart(existing, canonical)|
             && !Committed(StartProgram(existing, canonical), p.events)
    ensures var p := Forward(x, StartProgram(existing, canonical), oracle, 0, []);
            FailurePoint(existing, canonical, p, w, false) || FailurePoint(existing, canonical, p, w, true)
  {
    var q, tail := QuiescePart(existing, canonical), Tail(existing, canonical);
    ForwardAppend(x, q, tail, oracle, 0, []);
    ForwardLength(x, q, oracle, 0, []);
    var pq := Forward(x, q, oracle, 0, []);
    QuiescePartRun(x, existing, canonical, oracle, w);
    var pt := Forward(x, tail, oracle, |pq.events|, pq.stack);
    ApplyAllAppend(w, pq.events, pt.events);
    if Committed(tail, pt.events) {
      CommittedAppend(q, tail, pq.events, pt.events);
    }
    TailRun(x, existing, canonical, oracle, |pq.events|, pq.stack, ApplyAll(w, pq.events));
  }

  // ----- What the recovery leaves -----

  lemma UndoneIsDisabled(w: World, id: Identifier, events: seq<Event>)
    requires Completed(UndoEnable(id), events)
    ensures !At(ApplyAll(w, events), id).enabled
    ensures forall other :: other != id ==> At(ApplyAll(w, events), other) == At(w, other)
  {
    assert events == [events[0]] + ([events[1]] + [events[2]]);
    ApplyAllAppend(w, [events[0]], [events[1]] + [events[2]]);
    ApplyAllAppend(Apply(w, events[0]), [events[1]], [events[2]]);
    assert events[0].op == Disable(id) && events[1].op == Bootout(id) && events[2].op == AwaitRemoved(id);
  }

  lemma RecoveredWorld(
      existing: seq<Installation>, canonical: Option<Installation>, enabled: bool, w: World, events: seq<Event>)
    requires enabled ==> canonical.Some?
    requires Completed(RecoveryPlan(existing, canonical, enabled), events)
    requires forall id :: id in Quiesced(existing, canonical) && At(w, id).enabled ==>
               enabled && id == canonical.value.id
    ensures forall id :: id in Quiesced(existing, canonical) ==>
              (At(ApplyAll(w, events), id).enabled <==> Survivor(existing, canonical) == Some(id))
    ensures Winner(canonical, existing).Some? ==> At(ApplyAll(w, events), Winner(canonical, existing).value).running
  {
    var undo := if enabled then UndoEnable(canonical.value.id) else [];
    CompletedSplit(undo, ReviveSurvivor(existing, canonical), events);
    var first, second := events[..|undo|], events[|undo|..];
    ApplyAllAppend(w, first, second);
    var w1 := ApplyAll(w, first);
    if enabled {
      UndoneIsDisabled(w, canonical.value.id, first);
    }
    SurvivorRevived(existing, canonical, w1, second);
  }

  /**
   * A start that fails after every service was quiesced and before anything committed leaves exactly
   * one quiesced service enabled, the survivor (or none when there is none to choose), and the previous
   * winner runs again. This holds from any launchd state, for either executor and for any failures.
   */
  lemma SingleEnabledAfterFailedStart(
      x: Executor, existing: seq<Installation>, canonical: Option<Installation>, oracle: Oracle, w: World)
    requires AllDistinct(existing, canonical)
    requires var program := StartProgram(existing, canonical);
             var run := Execute(x, program, oracle, 0);
             && run.failed && |run.forward| > |QuiescePart(existing, canonical)|
             && !Committed(program, run.forward) && RecoverySucceeded(x, program, oracle)
    ensures var run := Execute(x, StartProgram(existing, canonical), oracle, 0);
            var after := ApplyAll(w, run.Trace());
            && (forall id :: id in Quiesced(existing, canonical) ==>
                  (At(after, id).enabled <==> Survivor(existing, canonical) == Some(id)))
            && (Winner(canonical, existing).Some? ==> At(after, Winner(canonical, existing).value).running)
  {
    var program := StartProgram(existing, canonical);
    var p := Forward(x, program, oracle, 0, []);
    var run := Execute(x, program, oracle, 0);
    UncommittedFailure(x, existing, canonical, oracle, w);
    var enabled := FailurePoint(existing, canonical, p, w, true);
    PlanOfGroups(existing, canonical);
    assert QuiesceGroups(existing, canonical) + [] == QuiesceGroups(existing, canonical);
    UnstoppedRecoveryEnds(x, Recoveries(p.stack), oracle, |p.events|);
    ApplyAllAppend(w, run.forward, run.recovery);
    RecoveredWorld(existing, canonical, enabled, ApplyAll(w, run.forward), run.recovery);
  }
}
