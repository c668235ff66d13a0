/** What the macOS programs leave when they succeed, and that a commit ends every rollback. */
module MacosCompletion {
  import opened Wrappers
  import opened LaunchdWorld
  import opened ElevatedSequence
  import opened MacosPrograms
  import Install = MacosInstall
  import Start = MacosStart

  // ----- A commit ends every rollback -----

  predicate NeverClears(rs: seq<Request>) {
    forall r :: r in rs ==> !r.clear
  }

  predicate NoGroups(rs: seq<Request>) {
    forall r :: r in rs ==> r.rollback == []
  }

  lemma BothNeverClear(a: seq<Request>, b: seq<Request>)
    requires NeverClears(a) && NeverClears(b)
    ensures NeverClears(a + b)
  {
  }

  lemma BothHaveNoGroups(a: seq<Request>, b: seq<Request>)
    requires NoGroups(a) && NoGroups(b)
    ensures NoGroups(a + b)
  {
  }

  lemma {:induction false} QuiesceNeverClears(list: seq<Installation>, restoreStopped: bool)
    ensures NeverClears(Quiesce(list, restoreStopped))
    decreases |list|
  {
    if list != [] {
      QuiesceNeverClears(list[1..], restoreStopped);
    }
  }

  lemma {:induction false} BootoutHasNoGroups(list: seq<Installation>, clearAfterLast: bool)
    ensures NoGroups(BootoutAll(list, clearAfterLast)) && (!clearAfterLast ==> NeverClears(BootoutAll(list, clearAfterLast)))
    decreases |list|
  {
    if list != [] {
      BootoutHasNoGroups(list[1..], clearAfterLast);
    }
  }

  lemma {:induction false} CleanupHasNoGroups(list: seq<Installation>)
    ensures NoGroups(Cleanup(list))
    decreases |list|
  {
    if list != [] {
      CleanupHasNoGroups(list[1..]);
    }
  }

  /** The first part does not commit, and the second has no groups: a commit is for good. */
  lemma CommitsInTheEnd(a: seq<Request>, b: seq<Request>)
    requires NeverClears(a) && NoGroups(b)
    ensures CommitsForGood(a + b)
  {
    var program := a + b;
    assert forall i :: 0 <= i < |a| ==> program[i] == a[i] && a[i] in a;
    assert forall i :: |a| <= i < |program| ==> program[i] == b[i - |a|] && b[i - |a|] in b;
  }

  lemma StartPartCommitsLast(canonical: Option<Installation>)
    requires canonical.Some?
    ensures var s := Start.StartPart(canonical);
            |s| == 3 && s == s[..2] + s[2..] && NeverClears(s[..2]) && NoGroups(s[2..])
  {
  }

  lemma StartCommitsForGood(existing: seq<Installation>, canonical: Option<Installation>)
    ensures CommitsForGood(Start.StartProgram(existing, canonical))
  {
    var winner := Winner(canonical, existing);
    var q1 := Quiesce(Mark(existing, winner), false);
    var q2 := if canonical.Some? then Quiesce([MarkOne(canonical.value, winner)], winner.None?) else [];
    var b, s, c := BootoutAll(existing, canonical.None?), Start.StartPart(canonical), Cleanup(existing);
    assert Start.StartProgram(existing, canonical) == (q1 + q2) + (b + (s + c));
    hide *;
    QuiesceNeverClears(Mark(existing, winner), false);
    if canonical.Some? {
      QuiesceNeverClears([MarkOne(canonical.value, winner)], winner.None?);
    }
    BootoutHasNoGroups(existing, canonical.None?);
    CleanupHasNoGroups(existing);
    NothingIsHarmless();
    BothNeverClear(q1, q2);
    if canonical.Some? {
      StartPartCommitsLast(canonical);
      BothNeverClear(q1 + q2, b);
      BothNeverClear(q1 + q2 + b, s[..2]);
      BothHaveNoGroups(s[2..], c);
      CommitsInTheEnd(q1 + q2 + b + s[..2], s[2..] + c);
      Regroup(q1 + q2, b, s, 2, c);
    } else {
      StartPartIsNothing();
      BothHaveNoGroups(b, c);
      CommitsInTheEnd(q1 + q2, b + c);
      assert b + (s + c) == b + c;
    }
  }

  lemma Regroup(q: seq<Request>, b: seq<Request>, s: seq<Request>, n: nat, c: seq<Request>)
    requires n <= |s|
    ensures q + (b + (s + c)) == (q + b + s[..n]) + (s[n..] + c)
  {
  }

  lemma NothingIsHarmless()
    ensures NeverClears([]) && NoGroups([])
  {
  }

  lemma StartPartIsNothing()
    ensures Start.StartPart(None) == []
  {
  }

  lemma ReplacePartHasNoGroups(id: Identifier)
    ensures NoGroups(Install.ReplacePart(id)) && NeverClears([Install.ArmRestore(id)])
  {
  }

  lemma UpdateCommitsForGood(existing: Installation, obsolete: seq<Installation>)
    ensures CommitsForGood(Install.UpdateProgram(existing, obsolete))
  {
    var winner := Winner(Some(existing), obsolete);
    var q1, q2 := Quiesce([MarkOne(existing, winner)], winner.None?), Quiesce(Mark(obsolete, winner), false);
    var arm, b := [Install.ArmRestore(existing.id)], BootoutAll(obsolete, false);
    var r, c := Install.ReplacePart(existing.id), Cleanup(obsolete);
    assert Install.UpdateProgram(existing, obsolete) == (q1 + q2) + (arm + (b + (r + c)));
    QuiesceNeverClears([MarkOne(existing, winner)], winner.None?);
    QuiesceNeverClears(Mark(obsolete, winner), false);
    BootoutHasNoGroups(obsolete, false);
    CleanupHasNoGroups(obsolete);
    ReplacePartHasNoGroups(existing.id);
    hide *;
    BothNeverClear(q1, q2);
    BothNeverClear(q1 + q2, arm);
    BothHaveNoGroups(r, c);
    BothHaveNoGroups(b, r + c);
    CommitsInTheEnd(q1 + q2 + arm, b + (r + c));
    assert (q1 + q2) + (arm + (b + (r + c))) == (q1 + q2 + arm) + (b + (r + c));
  }

  /** Once a start has committed, whatever fails then, no recovery command is issued. */
  lemma CommittedStartIsNotRolledBack(
      x: Executor, existing: seq<Installation>, canonical: Option<Installation>, oracle: Oracle)
    requires var program := Start.StartProgram(existing, canonical);
             Committed(program, Execute(x, program, oracle, 0).forward)
    ensures Execute(x, Start.StartProgram(existing, canonical), oracle, 0).recovery == []
  {
    var program := Start.StartProgram(existing, canonical);
    StartCommitsForGood(existing, canonical);
    var forward := Execute(x, program, oracle, 0).forward;
    var i :| 0 <= i < |program| && i < |forward| && program[i].clear && forward[i].ok;
    NoRecoveryAfterCommit(x, program, oracle, i);
  }

  /** Once an update has committed, whatever fails then, no recovery command is issued. */
  lemma CommittedUpdateIsNotRolledBack(
      x: Executor, existing: Installation, obsolete: seq<Installation>, oracle: Oracle)
    requires var program := Install.UpdateProgram(existing, obsolete);
             Committed(program, Execute(x, program, oracle, 0).forward)
    ensures Execute(x, Install.UpdateProgram(existing, obsolete), oracle, 0).recovery == []
  {
    var program := Install.UpdateProgram(existing, obsolete);
    UpdateCommitsForGood(existing, obsolete);
    var forward := Execute(x, program, oracle, 0).forward;
    var i :| 0 <= i < |program| && i < |forward| && program[i].clear && forward[i].ok;
    NoRecoveryAfterCommit(x, program, oracle, i);
  }

  // ----- What each part leaves when it ran to its end -----

  lemma {:induction false} FinishedIsCompleted(x: Executor, requests: seq<Request>, oracle: Oracle, k: nat, stack: Stack)
    requires !Forward(x, requests, oracle, k, stack).failed
    ensures Completed(requests, Forward(x, requests, oracle, k, stack).events)
    decreases |requests|
  {
    if requests != [] {
      var e := Observe(x, requests[0], oracle(k));
      FinishedIsCompleted(x, requests[1..], oracle, k + 1, if e.ok then Next(stack, requests[0]) else stack);
    }
  }

  lemma ApplyFirstTwo(w: World, events: seq<Event>)
    requires |events| >= 2
    ensures ApplyAll(w, events) == ApplyAll(Apply(Apply(w, events[0]), events[1]), events[2..])
  {
    assert events[1..][1..] == events[2..];
  }

  /** Two commands about one service: no file and no other service changes. */
  ghost predicate OnlyService(w: World, next: World, id: Identifier, s: Service) {
    next.files == w.files && At(next, id) == s && forall other :: other != id ==> At(next, other) == At(w, other)
  }

  lemma Quiesced(w: World, id: Identifier, d: Event, s: Event)
    requires d.op == Disable(id) && d.ok && s.op == StopIdle(id) && s.ok
    ensures OnlyService(w, Apply(Apply(w, d), s), id, At(w, id).(enabled := false, running := false))
  {
  }

  lemma BootedOut(w: World, id: Identifier, b: Event, a: Event)
    requires b.op == Bootout(id) && a.op == AwaitRemoved(id) && a.ok
    ensures OnlyService(w, Apply(Apply(w, b), a), id, At(w, id).(loaded := false, running := false))
  {
  }

  lemma Bootstrapped(w: World, id: Identifier, e: Event, b: Event)
    requires e.op == Enable(id) && e.ok && b.op == Bootstrap(id) && b.ok
    ensures OnlyService(w, Apply(Apply(w, e), b), id, Service(true, true, true))
  {
  }

  lemma Answering(w: World, id: Identifier, k: Event, a: Event)
    requires k.op == Kickstart(id) && k.ok && a.op == AwaitReady(id) && a.ok
    ensures OnlyService(w, Apply(Apply(w, k), a), id, At(w, id).(running := true))
  {
  }

  lemma {:induction false} QuiesceLeaves(w: World, list: seq<Installation>, restoreStopped: bool, events: seq<Event>)
    requires Completed(Quiesce(list, restoreStopped), events)
    ensures ApplyAll(w, events).files == w.files
    ensures forall id :: At(ApplyAll(w, events), id) ==
              if id in Ids(list) then At(w, id).(enabled := false, running := false) else At(w, id)
    decreases |list|
  {
    if list != [] {
      var one, rest := QuiesceOne(list[0], restoreStopped), Quiesce(list[1..], restoreStopped);
      CompletedSplit(one, rest, events);
      ApplyFirstTwo(w, events);
      assert events[0] == events[..2][0] && events[1] == events[..2][1];
      assert events[0].op == Disable(list[0].id) && events[1].op == StopIdle(list[0].id);
      var next := Apply(Apply(w, events[0]), events[1]);
      Quiesced(w, list[0].id, events[0], events[1]);
      hide Apply, ApplyAll, At;
      QuiesceLeaves(next, list[1..], restoreStopped, events[2..]);
    }
  }

  lemma {:induction false} BootoutLeaves(w: World, list: seq<Installation>, clearAfterLast: bool, events: seq<Event>)
    requires Completed(BootoutAll(list, clearAfterLast), events)
    ensures ApplyAll(w, events).files == w.files
    ensures forall id :: At(ApplyAll(w, events), id) ==
              if id in Ids(list) then At(w, id).(loaded := false, running := false) else At(w, id)
    decreases |list|
  {
    if list != [] {
      var all, rest := BootoutAll(list, clearAfterLast), BootoutAll(list[1..], clearAfterLast);
      assert all == all[..2] + rest;
      CompletedSplit(all[..2], rest, events);
      ApplyFirstTwo(w, events);
      assert events[0] == events[..2][0] && events[1] == events[..2][1];
      assert events[0].op == Bootout(list[0].id) && events[1].op == AwaitRemoved(list[0].id) && events[1].ok;
      var next := Apply(Apply(w, events[0]), events[1]);
      BootedOut(w, list[0].id, events[0], events[1]);
      hide Apply, ApplyAll, At;
      BootoutLeaves(next, list[1..], clearAfterLast, events[2..]);
    }
  }

  predicate BelongsTo(p: Path, ids: set<Identifier>) {
    (p.Definition? || p.Node? || p.Cli? || p.Records?) && p.id in ids
  }

  /** The files a removed installation must not leave behind. */
  predicate Removed(p: Path, i: Installation) {
    p == Definition(i.id) || p == Records(i.id) || (i.hasRuntime && (p == Node(i.id) || p == Cli(i.id)))
  }

  lemma {:induction false} CleanupLeaves(w: World, list: seq<Installation>, events: seq<Event>)
    requires Completed(Cleanup(list), events)
    ensures ApplyAll(w, events).services == w.services
    ensures forall p :: !BelongsTo(p, Ids(list)) ==> FileAt(ApplyAll(w, events), p) == FileAt(w, p)
    ensures forall p :: FileAt(w, p).None? ==> FileAt(ApplyAll(w, events), p).None?
    ensures forall p, i :: i in list && Removed(p, i) ==> FileAt(ApplyAll(w, events), p).None?
    decreases |list|
  {
    if list != [] {
      var i := list[0];
      var n := if i.hasRuntime then 3 else 2;
      var one, rest := Cleanup(list)[..n], Cleanup(list[1..]);
      assert Cleanup(list) == one + rest;
      CompletedSplit(one, rest, events);
      ApplyAllAppend(w, events[..n], events[n..]);
      var next := ApplyAll(w, events[..n]);
      OneRemoved(w, i, one, events[..n]);
      CleanupLeaves(next, list[1..], events[n..]);
      assert forall p :: BelongsTo(p, Ids(list)) <==> BelongsTo(p, {i.id}) || BelongsTo(p, Ids(list[1..])) by {
        assert Ids(list) == {i.id} + Ids(list[1..]);
      }
    }
  }

  lemma OneRemoved(w: World, i: Installation, one: seq<Request>, events: seq<Event>)
    requires one == Cleanup([i]) && Completed(one, events)
    ensures ApplyAll(w, events).services == w.services
    ensures forall p :: FileAt(ApplyAll(w, events), p) == if Removed(p, i) then None else FileAt(w, p)
  {
    assert [i][1..] == [] && Cleanup([]) == [];
    ApplyFirstTwo(w, events);
    assert events[0].op == RemoveFile(Definition(i.id)) && events[1].op == RemoveFile(Records(i.id));
    if i.hasRuntime {
      assert events[2].op == RemoveRuntime(i.id);
      assert events[2..] == [events[2]] && [events[2]][1..] == [];
    } else {
      assert events[2..] == [];
    }
  }

  // ----- A successful update -----

  lemma FilesReplaced(w: World, id: Identifier, events: seq<Event>)
    requires Completed(Install.ReplacePart(id)[..4], events)
    ensures ApplyAll(w, events).services == w.services
    ensures forall p :: FileAt(ApplyAll(w, events), p) ==
              if p == Node(id) then FileAt(w, SourceNode)
              else if p == Cli(id) then FileAt(w, StagedCli)
              else if p == Definition(id) then FileAt(w, StagedDefinition)
              else FileAt(w, p)
  {
    hide Apply, ApplyAll, FileAt;
    var plan := Install.ReplacePart(id)[..4];
    assert events[0].op == MakeRuntime(id) && events[1].op == CopyFile(SourceNode, Node(id));
    assert events[2].op == CopyFile(StagedCli, Cli(id)) && events[3].op == CopyFile(StagedDefinition, Definition(id));
    assert events[1].ok && events[2].ok && events[3].ok;
    assert events == [events[0]] + ([events[1]] + ([events[2]] + [events[3]]));
    var w1 := Apply(w, events[0]);
    var w2 := Apply(w1, events[1]);
    var w3 := Apply(w2, events[2]);
    ApplyInTurn(w, events[0], [events[1]] + ([events[2]] + [events[3]]));
    ApplyInTurn(w1, events[1], [events[2]] + [events[3]]);
    ApplyInTurn(w2, events[2], [events[3]]);
    Install.ApplyOne(w3, events[3]);
    MakingChangesNothing(w, events[0]);
    Install.CopyEffect(w1, events[1]);
    Install.CopyEffect(w2, events[2]);
    Install.CopyEffect(w3, events[3]);
  }

  lemma ApplyInTurn(w: World, e: Event, rest: seq<Event>)
    ensures ApplyAll(w, [e] + rest) == ApplyAll(Apply(w, e), rest)
  {
    assert ([e] + rest)[1..] == rest;
  }

  lemma MakingChangesNothing(w: World, e: Event)
    requires e.op.MakeRuntime?
    ensures Apply(w, e) == w
  {
  }

  /** Booted out, enabled, bootstrapped, kicked and answering. */
  lemma ServiceReplaced(w: World, id: Identifier, events: seq<Event>)
    requires Completed(Install.ReplacePart(id)[4..10], events)
    ensures ApplyAll(w, events).files == w.files
    ensures At(ApplyAll(w, events), id) == Service(true, true, true)
    ensures forall other :: other != id ==> At(ApplyAll(w, events), other) == At(w, other)
  {
    assert events[0].op == Bootout(id) && events[1].op == AwaitRemoved(id) && events[2].op == Enable(id);
    assert events[3].op == Bootstrap(id) && events[4].op == Kickstart(id) && events[5].op == AwaitReady(id);
    assert forall i :: 1 <= i < 6 ==> events[i].ok;
    hide Apply, At;
    ApplyFirstTwo(w, events);
    var w2 := Apply(Apply(w, events[0]), events[1]);
    BootedOut(w, id, events[0], events[1]);
    ApplyFirstTwo(w2, events[2..]);
    var w4 := Apply(Apply(w2, events[2]), events[3]);
    Bootstrapped(w2, id, events[2], events[3]);
    assert events[2..][2..] == events[4..];
    ApplyFirstTwo(w4, events[4..]);
    Answering(w4, id, events[4], events[5]);
    assert events[4..][2..] == [];
  }

  lemma RecordMoved(w: World, id: Identifier, events: seq<Event>)
    requires Completed(Install.ReplacePart(id)[10..], events)
    ensures ApplyAll(w, events).services == w.services
    ensures FileAt(ApplyAll(w, events), Records(id)) == FileAt(w, StagedRecord)
    ensures forall p :: p != Records(id) && p != StagedRecord ==> FileAt(ApplyAll(w, events), p) == FileAt(w, p)
  {
    assert events[0].op == MoveFile(StagedRecord, Records(id)) && events[0].ok;
    assert events == [events[0]];
    Install.ApplyOne(w, events[0]);
  }

  /** The part that replaces the canonical service, from its runtime to its record. */
  lemma ReplacePartLeaves(w: World, id: Identifier, events: seq<Event>)
    requires Completed(Install.ReplacePart(id), events)
    ensures var after := ApplyAll(w, events);
            && FileAt(after, Node(id)) == FileAt(w, SourceNode)
            && FileAt(after, Cli(id)) == FileAt(w, StagedCli)
            && FileAt(after, Definition(id)) == FileAt(w, StagedDefinition)
            && FileAt(after, Records(id)) == FileAt(w, StagedRecord)
            && At(after, id) == Service(true, true, true)
            && forall other :: other != id ==> At(after, other) == At(w, other)
  {
    hide Apply, ApplyAll, At, FileAt;
    var plan := Install.ReplacePart(id);
    assert plan == plan[..4] + (plan[4..10] + plan[10..]);
    CompletedSplit(plan[..4], plan[4..10] + plan[10..], events);
    var late := events[4..];
    CompletedSplit(plan[4..10], plan[10..], late);
    ApplyAllAppend(w, events[..4], late);
    var w1 := ApplyAll(w, events[..4]);
    FilesReplaced(w, id, events[..4]);
    ApplyAllAppend(w1, late[..6], late[6..]);
    var w2 := ApplyAll(w1, late[..6]);
    ServiceReplaced(w1, id, late[..6]);
    SameFiles(w1, w2);
    RecordMoved(w2, id, late[6..]);
    SameServices(w, w1);
    SameServices(w2, ApplyAll(w2, late[6..]));
  }

  lemma SameFiles(w: World, next: World)
    requires next.files == w.files
    ensures forall p :: FileAt(next, p) == FileAt(w, p)
  {
  }

  lemma SameServices(w: World, next: World)
    requires next.services == w.services
    ensures forall id :: At(next, id) == At(w, id)
  {
  }

  /** Quiesced twice over, and then booted out: gone, disabled, and the files as before. */
  lemma QuiesceBothLeave(
      w: World, first: seq<Installation>, f: bool, second: seq<Installation>, g: bool, events: seq<Event>)
    requires Completed(Quiesce(first, f) + Quiesce(second, g), events)
    ensures ApplyAll(w, events).files == w.files
    ensures forall id :: At(ApplyAll(w, events), id) ==
              if id in Ids(first) || id in Ids(second) then At(w, id).(enabled := false, running := false) else At(w, id)
  {
    hide Apply, ApplyAll, At, Quiesce;
    CompletedSplit(Quiesce(first, f), Quiesce(second, g), events);
    var n := |Quiesce(first, f)|;
    ApplyAllAppend(w, events[..n], events[n..]);
    QuiesceLeaves(w, first, f, events[..n]);
    QuiesceLeaves(ApplyAll(w, events[..n]), second, g, events[n..]);
  }

  /** The service is gone for good: disabled, booted out, and its files removed. */
  ghost predicate Retired(w: World, i: Installation) {
    At(w, i.id) == Service(false, false, false) && forall p :: Removed(p, i) ==> FileAt(w, p).None?
  }

  /**
   * An update that succeeds installs what it staged: the node binary, the command line interface, the definition and
   * the record of the canonical service are the staged ones, it is enabled and runs, and every obsolete service is
   * retired. Other services are as before.
   */
  lemma SuccessfulUpdate(
      x: Executor, existing: Installation, obsolete: seq<Installation>, oracle: Oracle, w: World)
    requires Install.AllDistinct(existing, obsolete)
    requires !Execute(x, Install.UpdateProgram(existing, obsolete), oracle, 0).failed
    ensures var after := ApplyAll(w, Execute(x, Install.UpdateProgram(existing, obsolete), oracle, 0).Trace());
            && Replaced(w, after, existing.id)
            && (forall i :: i in obsolete ==> Retired(after, i))
            && forall id :: id != existing.id && id !in Ids(obsolete) ==> At(after, id) == At(w, id)
  {
    var program := Install.UpdateProgram(existing, obsolete);
    FinishedIsCompleted(x, program, oracle, 0, []);
    var events := Forward(x, program, oracle, 0, []).events;
    assert Execute(x, program, oracle, 0).Trace() == events + [];
    assert events + [] == events;
    CompletedUpdate(existing, obsolete, events, w);
  }

  /** Before anything is replaced: the files are as they were, and everything quiesced is disabled and idle. */
  lemma QuiescedAndArmed(existing: Installation, obsolete: seq<Installation>, events: seq<Event>, w: World)
    requires Completed(Install.QuiescePart(existing, obsolete) + [Install.ArmRestore(existing.id)], events)
    ensures ApplyAll(w, events).files == w.files
    ensures forall id :: At(ApplyAll(w, events), id) ==
              if id == existing.id || id in Ids(obsolete) then At(w, id).(enabled := false, running := false) else At(w, id)
  {
    var winner := Winner(Some(existing), obsolete);
    var one, marked := [MarkOne(existing, winner)], Mark(obsolete, winner);
    var q, arm := Install.QuiescePart(existing, obsolete), [Install.ArmRestore(existing.id)];
    MarkKeepsIds(obsolete, winner);
    assert Ids(one) == {existing.id} by { assert one[0] in one; }
    CompletedSplit(q, arm, events);
    hide Apply, ApplyAll, At, FileAt, Quiesce, Mark, Winner;
    ApplyAllAppend(w, events[..|q|], events[|q|..]);
    QuiesceBothLeave(w, one, winner.None?, marked, false, events[..|q|]);
    TestChangesNothing(ApplyAll(w, events[..|q|]), existing.id, events[|q|..]);
  }

  /** What an update has made of the canonical service. */
  ghost predicate Replaced(w: World, after: World, id: Identifier) {
    && FileAt(after, Node(id)) == FileAt(w, SourceNode)
    && FileAt(after, Cli(id)) == FileAt(w, StagedCli)
    && FileAt(after, Definition(id)) == FileAt(w, StagedDefinition)
    && FileAt(after, Records(id)) == FileAt(w, StagedRecord)
    && At(after, id) == Service(true, true, true)
  }

  /** The obsolete services go, and the canonical one is replaced between. */
  lemma RetiredAndReplaced(id: Identifier, obsolete: seq<Installation>, events: seq<Event>, w: World)
    requires id !in Ids(obsolete) && forall i :: i in obsolete ==> !At(w, i.id).enabled
    requires Completed(BootoutAll(obsolete, false) + (Install.ReplacePart(id) + Cleanup(obsolete)), events)
    ensures var after := ApplyAll(w, events);
            && Replaced(w, after, id)
            && (forall i :: i in obsolete ==> Retired(after, i))
            && forall other :: other != id && other !in Ids(obsolete) ==> At(after, other) == At(w, other)
  {
    var b, r, c := BootoutAll(obsolete, false), Install.ReplacePart(id), Cleanup(obsolete);
    hide Apply, ApplyAll, At, FileAt, BootoutAll, Cleanup, Install.ReplacePart;
    CompletedSplit(b, r + c, events);
    var late := events[|b|..];
    CompletedSplit(r, c, late);
    ApplyAllAppend(w, events[..|b|], late);
    var w1 := ApplyAll(w, events[..|b|]);
    BootoutLeaves(w, obsolete, false, events[..|b|]);
    SameFiles(w, w1);
    ApplyAllAppend(w1, late[..|r|], late[|r|..]);
    var w2 := ApplyAll(w1, late[..|r|]);
    ReplacePartLeaves(w1, id, late[..|r|]);
    CleanupLeaves(w2, obsolete, late[|r|..]);
    SameServices(w2, ApplyAll(w, events));
    forall i | i in obsolete ensures i.id in Ids(obsolete) && i.id != id {
    }
  }

  lemma CompletedUpdate(existing: Installation, obsolete: seq<Installation>, events: seq<Event>, w: World)
    requires Install.AllDistinct(existing, obsolete)
    requires Completed(Install.UpdateProgram(existing, obsolete), events)
    ensures var after := ApplyAll(w, events);
            && Replaced(w, after, existing.id)
            && (forall i :: i in obsolete ==> Retired(after, i))
            && forall id :: id != existing.id && id !in Ids(obsolete) ==> At(after, id) == At(w, id)
  {
    var first := Install.QuiescePart(existing, obsolete) + [Install.ArmRestore(existing.id)];
    var rest := Install.AfterArming(existing, obsolete);
    assert Install.UpdateProgram(existing, obsolete) == first + rest;
    hide Apply, ApplyAll, At, FileAt, Install.QuiescePart, Install.UpdateProgram, Retired, BootoutAll, Cleanup;
    CompletedSplit(first, rest, events);
    var n := |first|;
    ApplyAllAppend(w, events[..n], events[n..]);
    var w1 := ApplyAll(w, events[..n]);
    QuiescedAndArmed(existing, obsolete, events[..n], w);
    SameFiles(w, w1);
    forall i | i in obsolete ensures i.id in Ids(obsolete) {
    }
    RetiredAndReplaced(existing.id, obsolete, events[n..], w1);
  }

  lemma TestChangesNothing(w: World, id: Identifier, events: seq<Event>)
    requires Completed([Install.ArmRestore(id)], events)
    ensures ApplyAll(w, events) == w
  {
    assert events == [events[0]];
    Install.ApplyOne(w, events[0]);
  }

  // ----- A successful start -----

  lemma Kicked(w: World, id: Identifier, events: seq<Event>)
    requires Completed(Start.StartPart(Some(Installation(id, false, false))), events)
    ensures ApplyAll(w, events).files == w.files
    ensures OnlyService(w, ApplyAll(w, events), id, At(w, id).(enabled := true, running := true))
  {
    assert events[0].op == Enable(id) && events[1].op == Kickstart(id) && events[2].op == AwaitReady(id);
    assert events[0].ok && events[1].ok && events[2].ok;
    assert events == [events[0]] + events[1..];
    ApplyInTurn(w, events[0], events[1..]);
    ApplyFirstTwo(Apply(w, events[0]), events[1..]);
    assert events[1..][2..] == [];
    Answering(Apply(w, events[0]), id, events[1], events[2]);
  }

  /** The canonical service, if it is restarted, keeps all but its state; nothing happens otherwise. */
  lemma StartPartLeaves(w: World, canonical: Option<Installation>, events: seq<Event>)
    requires Completed(Start.StartPart(canonical), events)
    ensures ApplyAll(w, events).files == w.files
    ensures forall id :: At(ApplyAll(w, events), id) ==
              if canonical.Some? && id == canonical.value.id then At(w, id).(enabled := true, running := true) else At(w, id)
  {
    if canonical.Some? {
      var id := canonical.value.id;
      assert Start.StartPart(canonical) == Start.StartPart(Some(Installation(id, false, false)));
      Kicked(w, id, events);
    }
  }

  /** The legacy services go, and the canonical one is started between. */
  lemma RetiredAndStarted(existing: seq<Installation>, canonical: Option<Installation>, events: seq<Event>, w: World)
    requires canonical.Some? ==> canonical.value.id !in Ids(existing)
    requires forall i :: i in existing ==> !At(w, i.id).enabled
    requires Completed(Start.Tail(existing, canonical), events)
    ensures var after := ApplyAll(w, events);
            && (forall i :: i in existing ==> Retired(after, i))
            && (forall id :: id !in Ids(existing) ==>
                  At(after, id) ==
                  if canonical.Some? && id == canonical.value.id then At(w, id).(enabled := true, running := true)
                  else At(w, id))
            && forall p :: !BelongsTo(p, Ids(existing)) ==> FileAt(after, p) == FileAt(w, p)
  {
    var b, s, c := BootoutAll(existing, canonical.None?), Start.StartPart(canonical), Cleanup(existing);
    hide Apply, ApplyAll, At, FileAt, BootoutAll, Cleanup, Start.StartPart;
    CompletedSplit(b, s + c, events);
    var late := events[|b|..];
    CompletedSplit(s, c, late);
    ApplyAllAppend(w, events[..|b|], late);
    var w1 := ApplyAll(w, events[..|b|]);
    BootoutLeaves(w, existing, canonical.None?, events[..|b|]);
    SameFiles(w, w1);
    ApplyAllAppend(w1, late[..|s|], late[|s|..]);
    var w2 := ApplyAll(w1, late[..|s|]);
    StartPartLeaves(w1, canonical, late[..|s|]);
    SameFiles(w1, w2);
    CleanupLeaves(w2, existing, late[|s|..]);
    SameServices(w2, ApplyAll(w, events));
    forall i | i in existing ensures i.id in Ids(existing) {
    }
  }

  lemma QuiescedForStart(existing: seq<Installation>, canonical: Option<Installation>, events: seq<Event>, w: World)
    requires Completed(Start.QuiescePart(existing, canonical), events)
    ensures ApplyAll(w, events).files == w.files
    ensures forall id :: At(ApplyAll(w, events), id) ==
              if id in Start.Quiesced(existing, canonical) then At(w, id).(enabled := false, running := false) else At(w, id)
  {
    var winner := Winner(canonical, existing);
    var marked, one := Mark(existing, winner), if canonical.Some? then [MarkOne(canonical.value, winner)] else [];
    MarkKeepsIds(existing, winner);
    assert canonical.Some? ==> Ids(one) == {canonical.value.id} by { assert canonical.Some? ==> one[0] in one; }
    assert Start.QuiescePart(existing, canonical) == Quiesce(marked, false) + Quiesce(one, winner.None?);
    QuiesceBothLeave(w, marked, false, one, winner.None?, events);
  }

  /**
   * A start that succeeds leaves every legacy service retired; the canonical one, when it was restarted, is enabled
   * and runs; no other service and no other file has changed.
   */
  lemma SuccessfulStart(
      x: Executor, existing: seq<Installation>, canonical: Option<Installation>, oracle: Oracle, w: World)
    requires Start.AllDistinct(existing, canonical)
    requires !Execute(x, Start.StartProgram(existing, canonical), oracle, 0).failed
    ensures var after := ApplyAll(w, Execute(x, Start.StartProgram(existing, canonical), oracle, 0).Trace());
            && (forall i :: i in existing ==> Retired(after, i))
            && (canonical.Some? ==> At(after, canonical.value.id) == At(w, canonical.value.id).(enabled := true, running := true))
            && (forall id :: id !in Start.Quiesced(existing, canonical) ==> At(after, id) == At(w, id))
            && forall p :: !BelongsTo(p, Ids(existing)) ==> FileAt(after, p) == FileAt(w, p)
  {
    var program := Start.StartProgram(existing, canonical);
    FinishedIsCompleted(x, program, oracle, 0, []);
    var events := Forward(x, program, oracle, 0, []).events;
    assert events + [] == events;
    var q, tail := Start.QuiescePart(existing, canonical), Start.Tail(existing, canonical);
    assert program == q + tail;
    hide Forward, Apply, ApplyAll, At, FileAt, Start.StartProgram, Start.QuiescePart, Start.Tail, Retired;
    CompletedSplit(q, tail, events);
    ApplyAllAppend(w, events[..|q|], events[|q|..]);
    var w1 := ApplyAll(w, events[..|q|]);
    QuiescedForStart(existing, canonical, events[..|q|], w);
    SameFiles(w, w1);
    forall i | i in existing ensures i.id in Start.Quiesced(existing, canonical) {
    }
    RetiredAndStarted(existing, canonical, events[|q|..], w1);
  }
}
