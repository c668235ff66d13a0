/** The elevated programs that quiesce, boot out and clean up launchd services. */
module MacosPrograms {
  import opened Wrappers
  import opened LaunchdWorld
  import opened ElevatedSequence
  import Sequences

  /** The one command with a limit of its own, in milliseconds: waiting for the service to answer. */
  const READINESS_LIMIT := 35_000

  /** An installed service and whether it counts as running for the rollback that may follow. */
  datatype Installation = Installation(id: Identifier, wasRunning: bool, hasRuntime: bool)

  /** Brings a service back: enabled, bootstrapped unless it still is, and running. */
  function Revive(id: Identifier): seq<Request> {
    [Request(Enable(id)), Request(Bootstrap(id), allowFailure := true), Request(Kickstart(id))]
  }

  function QuiesceOne(i: Installation, restoreStopped: bool): seq<Request> {
    [Request(Disable(i.id), rollback := [Request(Enable(i.id))]),
     Request(StopIdle(i.id),
             discard := !i.wasRunning && !restoreStopped,
             rollback := if i.wasRunning then Revive(i.id) else [])]
  }

  function Quiesce(installations: seq<Installation>, restoreStopped: bool): seq<Request> {
    if installations == [] then
      []
    else
      QuiesceOne(installations[0], restoreStopped) + Quiesce(installations[1..], restoreStopped)
  }

  function BootoutAll(installations: seq<Installation>, clearAfterLast: bool): seq<Request> {
    if installations == [] then
      []
    else
      [Request(Bootout(installations[0].id), allowFailure := true),
       Request(AwaitRemoved(installations[0].id), clear := clearAfterLast && |installations| == 1)]
      + BootoutAll(installations[1..], clearAfterLast)
  }

  function Cleanup(installations: seq<Installation>): seq<Request> {
    if installations == [] then
      []
    else
      var i := installations[0];
      [Request(RemoveFile(Definition(i.id)), clear := true), Request(RemoveFile(Records(i.id)))]
      + (if i.hasRuntime then [Request(RemoveRuntime(i.id))] else [])
      + Cleanup(installations[1..])
  }

  /** The one service that a rollback brings back: the canonical one if it ran, else the first that did. */
  function Winner(canonical: Option<Installation>, others: seq<Installation>): Option<Identifier> {
    if canonical.Some? && canonical.value.wasRunning then Some(canonical.value.id) else FirstRunning(others)
  }

  function FirstRunning(others: seq<Installation>): (w: Option<Identifier>)
    ensures w.Some? ==> w.value in Ids(others)
  {
    if others == [] then None
    else if others[0].wasRunning then Some(others[0].id)
    else FirstRunning(others[1..])
  }

  function Ids(installations: seq<Installation>): set<Identifier> {
    set i | i in installations :: i.id
  }

  /** Only the winner still counts as running. */
  function Mark(installations: seq<Installation>, winner: Option<Identifier>): seq<Installation> {
    seq(|installations|, n requires 0 <= n < |installations| => MarkOne(installations[n], winner))
  }

  function MarkOne(i: Installation, winner: Option<Identifier>): Installation {
    i.(wasRunning := Some(i.id) == winner)
  }

  predicate Distinct(installations: seq<Installation>) {
    forall i, j :: 0 <= i < j < |installations| ==> installations[i].id != installations[j].id
  }

  // ----- What a finished quiesce program leaves -----

  function GroupsOne(i: Installation, restoreStopped: bool): Stack {
    (if i.wasRunning || restoreStopped then [[Request(Enable(i.id))]] else [])
    + (if i.wasRunning then [Revive(i.id)] else [])
  }

  function Groups(installations: seq<Installation>, restoreStopped: bool): Stack {
    if installations == [] then
      []
    else
      GroupsOne(installations[0], restoreStopped) + Groups(installations[1..], restoreStopped)
  }

  /**
   * Quiescing one service pushes exactly its own groups. For a service that is not to come back the
   * discard pops the group that its own disable pushed, and nothing that was there before.
   */
  lemma QuiesceOneKeepsOthers(x: Executor, i: Installation, restoreStopped: bool, oracle: Oracle, k: nat, stack: Stack)
    ensures var p := Forward(x, QuiesceOne(i, restoreStopped), oracle, k, stack);
            !p.failed ==>
              && p.stack == stack + GroupsOne(i, restoreStopped)
              && |p.events| == 2 && p.events[0].ok && p.events[1].ok
              && p.events[0].op == Disable(i.id) && p.events[1].op == StopIdle(i.id)
    ensures !i.wasRunning && !restoreStopped ==>
              Next(Next(stack, QuiesceOne(i, restoreStopped)[0]), QuiesceOne(i, restoreStopped)[1]) == stack
  {
    var q := QuiesceOne(i, restoreStopped);
    assert q == [q[0]] + [q[1]];
    ForwardAppend(x, [q[0]], [q[1]], oracle, k, stack);
    SingleRequest(x, q[0], oracle, k, stack);
    var pushed := stack + [[Request(Enable(i.id))]];
    assert pushed[..|pushed| - 1] == stack;
    SingleRequest(x, q[1], oracle, k + 1, pushed);
    assert Next(stack, q[0]) == pushed;
  }

  /** The events of a finished quiesce program. */
  predicate QuiesceEvents(list: seq<Installation>, events: seq<Event>) {
    if list == [] then
      events == []
    else
      && |events| >= 2 && events[0].ok && events[1].ok
      && events[0].op == Disable(list[0].id) && events[1].op == StopIdle(list[0].id)
      && QuiesceEvents(list[1..], events[2..])
  }

  /** A finished quiesce program leaves its groups on the stack. */
  lemma {:induction false} QuiesceAll(
      x: Executor, list: seq<Installation>, restoreStopped: bool, oracle: Oracle, k: nat, stack: Stack)
    requires !Forward(x, Quiesce(list, restoreStopped), oracle, k, stack).failed
    ensures var p := Forward(x, Quiesce(list, restoreStopped), oracle, k, stack);
            p.stack == stack + Groups(list, restoreStopped) && QuiesceEvents(list, p.events)
    decreases |list|
  {
    if list == [] {
      Sequences.Empty(stack);
    } else {
      var a, b := QuiesceOne(list[0], restoreStopped), Quiesce(list[1..], restoreStopped);
      ForwardAppend(x, a, b, oracle, k, stack);
      QuiesceOneKeepsOthers(x, list[0], restoreStopped, oracle, k, stack);
      var p := Forward(x, a, oracle, k, stack);
      QuiesceAll(x, list[1..], restoreStopped, oracle, k + 2, p.stack);
      var q := Forward(x, b, oracle, k + 2, p.stack);
      Sequences.Split(p.events, q.events);
      Sequences.Assoc(stack, GroupsOne(list[0], restoreStopped), Groups(list[1..], restoreStopped));
    }
  }

  /** Every quiesced service ends disabled; no other service changes. */
  lemma {:induction false} QuiesceEffect(w: World, list: seq<Installation>, events: seq<Event>, id: Identifier)
    requires QuiesceEvents(list, events)
    ensures if id in Ids(list) then !At(ApplyAll(w, events), id).enabled else At(ApplyAll(w, events), id) == At(w, id)
    decreases |list|
  {
    if list != [] {
      var w1 := Apply(w, events[0]);
      var w2 := Apply(w1, events[1]);
      assert At(w2, id) == if id == list[0].id then At(w, id).(enabled := false, running := false) else At(w, id);
      assert events == [events[0]] + ([events[1]] + events[2..]);
      ApplyAllAppend(w, [events[0]], [events[1]] + events[2..]);
      ApplyAllAppend(w1, [events[1]], events[2..]);
      QuiesceEffect(w2, list[1..], events[2..], id);
    }
  }

  /** Two quiesce programs in a row, from an empty stack. */
  lemma QuiesceBoth(
      x: Executor, first: seq<Installation>, f: bool, second: seq<Installation>, g: bool, oracle: Oracle)
    requires !Forward(x, Quiesce(first, f) + Quiesce(second, g), oracle, 0, []).failed
    ensures var p := Forward(x, Quiesce(first, f) + Quiesce(second, g), oracle, 0, []);
            var a := Forward(x, Quiesce(first, f), oracle, 0, []);
            && p.stack == Groups(first, f) + Groups(second, g)
            && |a.events| <= |p.events| && QuiesceEvents(first, p.events[..|a.events|])
            && QuiesceEvents(second, p.events[|a.events|..])
  {
    ForwardAppend(x, Quiesce(first, f), Quiesce(second, g), oracle, 0, []);
    QuiesceAll(x, first, f, oracle, 0, []);
    var a := Forward(x, Quiesce(first, f), oracle, 0, []);
    QuiesceAll(x, second, g, oracle, |a.events|, a.stack);
    var b := Forward(x, Quiesce(second, g), oracle, |a.events|, a.stack);
    assert (a.events + b.events)[..|a.events|] == a.events && (a.events + b.events)[|a.events|..] == b.events;
    assert [] + Groups(first, f) == Groups(first, f);
  }

  lemma QuiesceBothEffect(
      x: Executor, first: seq<Installation>, f: bool, second: seq<Installation>, g: bool, oracle: Oracle, w: World,
      id: Identifier)
    requires !Forward(x, Quiesce(first, f) + Quiesce(second, g), oracle, 0, []).failed
    requires id in Ids(first) || id in Ids(second)
    ensures !At(ApplyAll(w, Forward(x, Quiesce(first, f) + Quiesce(second, g), oracle, 0, []).events), id).enabled
  {
    hide Forward, Quiesce, QuiesceEvents, Groups, Ids, ApplyAll;
    QuiesceBoth(x, first, f, second, g, oracle);
    var events := Forward(x, Quiesce(first, f) + Quiesce(second, g), oracle, 0, []).events;
    var n := |Forward(x, Quiesce(first, f), oracle, 0, []).events|;
    assert events == events[..n] + events[n..];
    ApplyAllAppend(w, events[..n], events[n..]);
    QuiesceEffect(w, first, events[..n], id);
    QuiesceEffect(ApplyAll(w, events[..n]), second, events[n..], id);
  }

  /** With distinct identifiers the groups of a marked list are those of the winner, and of nobody else. */
  lemma {:induction false} GroupsOfMarked(list: seq<Installation>, winner: Option<Identifier>)
    requires Distinct(list)
    ensures Groups(Mark(list, winner), false) ==
            if winner.Some? && winner.value in Ids(list) then
              [[Request(Enable(winner.value))], Revive(winner.value)]
            else []
    decreases |list|
  {
    if list != [] {
      assert Mark(list, winner)[1..] == Mark(list[1..], winner);
      assert forall i | i in list[1..] :: i.id != list[0].id;
      GroupsOfMarked(list[1..], winner);
      assert winner == Some(list[0].id) ==> winner.value !in Ids(list[1..]);
    }
  }

  lemma MarkKeepsIds(list: seq<Installation>, winner: Option<Identifier>)
    ensures Ids(Mark(list, winner)) == Ids(list)
  {
    var m := Mark(list, winner);
    forall i | i in list ensures i.id in Ids(m) {
      var n :| 0 <= n < |list| && list[n] == i;
      assert m[n] in m && m[n].id == i.id;
    }
    forall i | i in m ensures i.id in Ids(list) {
      var n :| 0 <= n < |m| && m[n] == i;
      assert list[n] in list;
    }
  }

  // ----- Requests that neither push nor pop -----

  predicate Quiet(r: Request) {
    r.rollback == [] && !r.discard
  }

  predicate Neutral(r: Request) {
    Quiet(r) && !r.op.Enable? && !r.op.Disable?
  }

  /** The issued command behind a request, when that request was reached. */
  predicate Committed(requests: seq<Request>, events: seq<Event>) {
    exists i :: 0 <= i < |requests| && i < |events| && requests[i].clear && events[i].ok
  }

  /** Quiet requests leave the stack alone until one of them commits. */
  lemma {:induction false} QuietStack(x: Executor, requests: seq<Request>, oracle: Oracle, k: nat, stack: Stack)
    requires forall r :: r in requests ==> Quiet(r)
    ensures var p := Forward(x, requests, oracle, k, stack); Committed(requests, p.events) || p.stack == stack
    decreases |requests|
  {
    if requests != [] {
      var r := requests[0];
      assert Quiet(r);
      var e := Observe(x, r, oracle(k));
      var p := Forward(x, requests, oracle, k, stack);
      if e.ok || r.allowFailure {
        var s := if e.ok then Next(stack, r) else stack;
        QuietStack(x, requests[1..], oracle, k + 1, s);
        assert p.events[1..] == Forward(x, requests[1..], oracle, k + 1, s).events;
        if r.clear && e.ok {
          assert requests[0].clear && p.events[0].ok;
        } else if Committed(requests[1..], p.events[1..]) {
          var i :| 0 <= i < |requests[1..]| && i < |p.events[1..]| && requests[1..][i].clear && p.events[1..][i].ok;
          assert requests[i + 1].clear && p.events[i + 1].ok;
        }
      }
    }
  }

  lemma {:induction false} KeepsEnabled(w: World, events: seq<Event>)
    requires forall e :: e in events ==> !e.op.Enable? && !e.op.Disable?
    ensures forall id :: At(ApplyAll(w, events), id).enabled == At(w, id).enabled
    decreases |events|
  {
    if events != [] {
      assert forall id :: At(Apply(w, events[0]), id).enabled == At(w, id).enabled;
      KeepsEnabled(Apply(w, events[0]), events[1..]);
    }
  }

  lemma NeutralRun(x: Executor, requests: seq<Request>, oracle: Oracle, k: nat, stack: Stack, w: World)
    requires forall r :: r in requests ==> Neutral(r)
    ensures var p := Forward(x, requests, oracle, k, stack);
            && (Committed(requests, p.events) || p.stack == stack)
            && (forall id :: At(ApplyAll(w, p.events), id).enabled == At(w, id).enabled)
  {
    QuietStack(x, requests, oracle, k, stack);
    ForwardOps(x, requests, oracle, k, stack);
    var p := Forward(x, requests, oracle, k, stack);
    forall e | e in p.events ensures !e.op.Enable? && !e.op.Disable? {
      var i :| 0 <= i < |p.events| && p.events[i] == e;
      assert Neutral(requests[i]);
    }
    KeepsEnabled(w, p.events);
  }

  lemma {:induction false} BootoutAllIsNeutral(list: seq<Installation>, clearAfterLast: bool)
    ensures forall r :: r in BootoutAll(list, clearAfterLast) ==> Neutral(r)
    ensures clearAfterLast && list != [] ==>
              var b := BootoutAll(list, clearAfterLast); b != [] && b[|b| - 1].clear && !b[|b| - 1].allowFailure
    decreases |list|
  {
    if list != [] {
      BootoutAllIsNeutral(list[1..], clearAfterLast);
    }
  }

  lemma {:induction false} RecoveriesPush(stack: Stack, group: seq<Request>)
    ensures Recoveries(stack + [group]) == group + Recoveries(stack)
  {
    assert (stack + [group])[..|stack|] == stack;
  }

  lemma RecoveriesOfOne(group: seq<Request>)
    ensures Recoveries([group]) == group
  {
    RecoveriesPush([], group);
    Sequences.Empty([group]);
    Sequences.Empty(group);
  }

  lemma RecoveriesOfWinner(id: Identifier)
    ensures Recoveries([[Request(Enable(id))], Revive(id)]) == Revive(id) + [Request(Enable(id))]
  {
    var enable := [Request(Enable(id))];
    RecoveriesPush([], enable);
    Sequences.Empty([enable]);
    Sequences.Empty(enable);
    RecoveriesPush([enable], Revive(id));
  }

  // ----- Finished recoveries -----

  /** Every recovery was issued, and each one that had to succeed did. */
  predicate Completed(recoveries: seq<Request>, events: seq<Event>) {
    && |events| == |recoveries|
    && forall i :: 0 <= i < |events| ==> events[i].op == recoveries[i].op && (events[i].ok || recoveries[i].allowFailure)
  }

  lemma CompletedSplit(a: seq<Request>, b: seq<Request>, events: seq<Event>)
    requires Completed(a + b, events)
    ensures Completed(a, events[..|a|]) && Completed(b, events[|a|..])
    ensures events == events[..|a|] + events[|a|..]
  {
    forall i | 0 <= i < |b| ensures events[|a|..][i].op == b[i].op && (events[|a|..][i].ok || b[i].allowFailure) {
      assert (a + b)[|a| + i] == b[i];
    }
    forall i | 0 <= i < |a| ensures events[..|a|][i].op == a[i].op && (events[..|a|][i].ok || a[i].allowFailure) {
      assert (a + b)[i] == a[i];
    }
  }

  /** A finished revival leaves its service enabled and running, and touches no other service. */
  lemma RevivedIsRunning(w: World, id: Identifier, events: seq<Event>)
    requires Completed(Revive(id), events)
    ensures At(ApplyAll(w, events), id).enabled && At(ApplyAll(w, events), id).running
    ensures forall other :: other != id ==> At(ApplyAll(w, events), other) == At(w, other)
    ensures ApplyAll(w, events).files == w.files
  {
    assert events == [events[0]] + ([events[1]] + [events[2]]);
    ApplyAllAppend(w, [events[0]], [events[1]] + [events[2]]);
    ApplyAllAppend(Apply(w, events[0]), [events[1]], [events[2]]);
    assert events[0].op == Enable(id) && events[1].op == Bootstrap(id) && events[2].op == Kickstart(id);
  }

  /** The service that is to end enabled: the previous winner, else the canonical one if it was quiesced. */
  function Survivor(existing: seq<Installation>, canonical: Option<Installation>): Option<Identifier> {
    var winner := Winner(canonical, existing);
    if winner.Some? then winner else if canonical.Some? then Some(canonical.value.id) else None
  }

  function ReviveSurvivor(existing: seq<Installation>, canonical: Option<Installation>): seq<Request> {
    var winner := Winner(canonical, existing);
    if winner.Some? then Revive(winner.value) + [Request(Enable(winner.value))]
    else if canonical.Some? then [Request(Enable(canonical.value.id))]
    else []
  }

  /** Bringing the survivor back enables it and no other service. */
  lemma SurvivorRevived(existing: seq<Installation>, canonical: Option<Installation>, w: World, events: seq<Event>)
    requires Completed(ReviveSurvivor(existing, canonical), events)
    ensures forall id :: Survivor(existing, canonical) != Some(id) ==> At(ApplyAll(w, events), id) == At(w, id)
    ensures Survivor(existing, canonical).Some? ==> At(ApplyAll(w, events), Survivor(existing, canonical).value).enabled
    ensures Winner(canonical, existing).Some? ==> At(ApplyAll(w, events), Winner(canonical, existing).value).running
  {
    var winner := Winner(canonical, existing);
    if winner.Some? {
      CompletedSplit(Revive(winner.value), [Request(Enable(winner.value))], events);
      ApplyAllAppend(w, events[..3], events[3..]);
      RevivedIsRunning(w, winner.value, events[..3]);
    } else if canonical.Some? {
    }
  }

  lemma CommittedAppend(a: seq<Request>, b: seq<Request>, first: seq<Event>, second: seq<Event>)
    requires Committed(a, first) || (|first| == |a| && Committed(b, second))
    ensures Committed(a + b, first + second)
  {
    if Committed(a, first) {
      var i :| 0 <= i < |a| && i < |first| && a[i].clear && first[i].ok;
      assert (a + b)[i].clear && (first + second)[i].ok;
    } else {
      var i :| 0 <= i < |b| && i < |second| && b[i].clear && second[i].ok;
      assert (a + b)[|a| + i].clear && (first + second)[|a| + i].ok;
    }
  }

  lemma {:induction false} CleanupIsNeutral(list: seq<Installation>)
    ensures forall r :: r in Cleanup(list) ==> Neutral(r)
    decreases |list|
  {
    if list != [] {
      CleanupIsNeutral(list[1..]);
    }
  }

  /** Running a prefix that does not commit keeps the rest uncommitted as well. */
  lemma UncommittedParts(x: Executor, a: seq<Request>, b: seq<Request>, oracle: Oracle, k: nat, stack: Stack)
    requires !Committed(a + b, Forward(x, a + b, oracle, k, stack).events)
    ensures var p := Forward(x, a, oracle, k, stack);
            && !Committed(a, p.events)
            && (!p.failed ==> !Committed(b, Forward(x, b, oracle, k + |p.events|, p.stack).events))
  {
    hide Forward, Committed;
    ForwardAppend(x, a, b, oracle, k, stack);
    ForwardLength(x, a, oracle, k, stack);
    var p := Forward(x, a, oracle, k, stack);
    if p.failed {
      if Committed(a, p.events) {
        CommittedAppend(a, b, p.events, []);
        Sequences.Empty(p.events);
      }
    } else {
      var q := Forward(x, b, oracle, k + |p.events|, p.stack);
      if Committed(a, p.events) || Committed(b, q.events) {
        CommittedAppend(a, b, p.events, q.events);
      }
    }
  }

  lemma {:induction false} RecoverOps(x: Executor, recoveries: seq<Request>, oracle: Oracle, k: nat)
    ensures var events := Recover(x, recoveries, oracle, k);
            |events| <= |recoveries| && forall i :: 0 <= i < |events| ==> events[i].op == recoveries[i].op
    decreases |recoveries|
  {
    if recoveries != [] {
      RecoverOps(x, recoveries[1..], oracle, k + 1);
    }
  }

  /** No required recovery failed, so the unwinding ran to its end. */
  predicate RecoverySucceeded(x: Executor, requests: seq<Request>, oracle: Oracle) {
    var p := Forward(x, requests, oracle, 0, []);
    var rs := Recoveries(p.stack);
    var events := Recover(x, rs, oracle, |p.events|);
    forall i :: 0 <= i < |events| && i < |rs| ==> events[i].ok || rs[i].allowFailure
  }

  lemma {:induction false} UnstoppedRecoveryEnds(x: Executor, recoveries: seq<Request>, oracle: Oracle, k: nat)
    requires var events := Recover(x, recoveries, oracle, k);
             forall i :: 0 <= i < |events| && i < |recoveries| ==> events[i].ok || recoveries[i].allowFailure
    ensures Completed(recoveries, Recover(x, recoveries, oracle, k))
    decreases |recoveries|
  {
    RecoverOps(x, recoveries, oracle, k);
    if recoveries != [] {
      var events := Recover(x, recoveries, oracle, k);
      assert events[0].ok || recoveries[0].allowFailure;
      var rest := Recover(x, recoveries[1..], oracle, k + 1);
      assert events[1..] == rest;
      forall i | 0 <= i < |rest| && i < |recoveries[1..]| ensures rest[i].ok || recoveries[1..][i].allowFailure {
        assert events[i + 1].ok || recoveries[i + 1].allowFailure;
      }
      UnstoppedRecoveryEnds(x, recoveries[1..], oracle, k + 1);
      forall i | 0 <= i < |events|
        ensures events[i].op == recoveries[i].op && (events[i].ok || recoveries[i].allowFailure)
      {
      }
    }
  }

}
