/** installMacos over an existing record: what a failed update leaves of the installed files. */
module MacosInstall {
  import opened Wrappers
  import opened LaunchdWorld
  import opened ElevatedSequence
  import opened MacosPrograms
  import Sequences

  /** Puts the backed-up runtime and definition of the canonical service back in place. */
  function RestoreFiles(id: Identifier): seq<Request> {
    [Request(Bootout(id), allowFailure := true),
     Request(AwaitRemoved(id)),
     Request(CopyFile(BackupNode, Node(id))),
     Request(CopyFile(BackupCli, Cli(id))),
     Request(CopyFile(BackupDefinition, Definition(id)))]
  }

  function QuiescePart(existing: Installation, obsolete: seq<Installation>): seq<Request> {
    var winner := Winner(Some(existing), obsolete);
    Quiesce([MarkOne(existing, winner)], winner.None?) + Quiesce(Mark(obsolete, winner), false)
  }

  function ArmRestore(id: Identifier): Request {
    Request(TestFile(BackupDefinition), rollback := RestoreFiles(id))
  }

  function ReplacePart(id: Identifier): seq<Request> {
    [Request(MakeRuntime(id)),
     Request(CopyFile(SourceNode, Node(id))),
     Request(CopyFile(StagedCli, Cli(id))),
     Request(CopyFile(StagedDefinition, Definition(id))),
     Request(Bootout(id), allowFailure := true),
     Request(AwaitRemoved(id)),
     Request(Enable(id)),
     Request(Bootstrap(id)),
     Request(Kickstart(id)),
     Request(AwaitReady(id), clear := true, limit := Some(READINESS_LIMIT)),
     Request(MoveFile(StagedRecord, Records(id)))]
  }

  function AfterArming(existing: Installation, obsolete: seq<Installation>): seq<Request> {
    BootoutAll(obsolete, false) + (ReplacePart(existing.id) + Cleanup(obsolete))
  }

  /** The elevated program of an update, from quiescing to the removal of the obsolete services. */
  function UpdateProgram(existing: Installation, obsolete: seq<Installation>): seq<Request> {
    QuiescePart(existing, obsolete) + ([ArmRestore(existing.id)] + AfterArming(existing, obsolete))
  }

  /** Backups are staged before the program runs; one that an interrupted update left is kept. */
  function Stage(w: World, id: Identifier): World {
    StageFile(StageFile(StageFile(w, Definition(id), BackupDefinition), Node(id), BackupNode), Cli(id), BackupCli)
  }

  function StageFile(w: World, source: Path, backup: Path): World {
    if FileAt(w, backup).Some? then w else SetFile(w, backup, FileAt(w, source))
  }

  predicate Installed(p: Path, id: Identifier) {
    p == Node(id) || p == Cli(id) || p == Definition(id)
  }

  function BackupOf(p: Path): Path {
    match p
    case Node(_) => BackupNode
    case Cli(_) => BackupCli
    case _ => BackupDefinition
  }

  predicate IsBackup(p: Path) {
    p == BackupNode || p == BackupCli || p == BackupDefinition
  }

  predicate AllDistinct(existing: Installation, obsolete: seq<Installation>) {
    Distinct(obsolete) && existing.id !in Ids(obsolete)
  }

  // ----- Which files a command can touch -----

  predicate Writes(op: Op, p: Path) {
    match op
    case CopyFile(_, t) => p == t
    case MoveFile(s, t) => p == t || p == s
    case RemoveFile(q) => p == q
    case RemoveRuntime(id) => p == Node(id) || p == Cli(id)
    case _ => false
  }

  lemma {:induction false} Untouched(w: World, events: seq<Event>, p: Path)
    requires forall e :: e in events ==> !Writes(e.op, p)
    ensures FileAt(ApplyAll(w, events), p) == FileAt(w, p)
    decreases |events|
  {
    if events != [] {
      assert !Writes(events[0].op, p);
      assert FileAt(Apply(w, events[0]), p) == FileAt(w, p);
      Untouched(Apply(w, events[0]), events[1..], p);
    }
  }

  lemma {:induction false} ForwardUntouched(
      x: Executor, requests: seq<Request>, oracle: Oracle, k: nat, stack: Stack, w: World, p: Path)
    requires forall r :: r in requests ==> !Writes(r.op, p)
    ensures FileAt(ApplyAll(w, Forward(x, requests, oracle, k, stack).events), p) == FileAt(w, p)
  {
    ForwardOps(x, requests, oracle, k, stack);
    var events := Forward(x, requests, oracle, k, stack).events;
    forall e | e in events ensures !Writes(e.op, p) {
      var i :| 0 <= i < |events| && events[i] == e;
      assert requests[i] in requests;
    }
    Untouched(w, events, p);
  }

  lemma {:induction false} QuiesceWritesNothing(list: seq<Installation>, restoreStopped: bool)
    ensures forall r, p :: r in Quiesce(list, restoreStopped) ==> !Writes(r.op, p)
    decreases |list|
  {
    if list != [] {
      QuiesceWritesNothing(list[1..], restoreStopped);
    }
  }

  predicate SparesBackups(op: Op) {
    !Writes(op, BackupNode) && !Writes(op, BackupCli) && !Writes(op, BackupDefinition)
  }

  /** No rollback bookkeeping, no backup touched, and no service but the canonical one enabled. */
  predicate Plain(r: Request, id: Identifier) {
    Quiet(r) && SparesBackups(r.op) && !r.op.Disable? && (r.op.Enable? ==> r.op.id == id)
  }

  lemma {:induction false} ObsoleteCommandsArePlain(list: seq<Installation>, id: Identifier)
    ensures forall r :: r in BootoutAll(list, false) ==> Plain(r, id)
    ensures forall r :: r in Cleanup(list) ==> Plain(r, id)
    decreases |list|
  {
    if list != [] {
      ObsoleteCommandsArePlain(list[1..], id);
    }
  }

  lemma AfterArmingIsPlain(existing: Installation, obsolete: seq<Installation>)
    ensures forall r :: r in AfterArming(existing, obsolete) ==> Plain(r, existing.id)
  {
    ObsoleteCommandsArePlain(obsolete, existing.id);
    forall i | 0 <= i < 11 ensures Plain(ReplacePart(existing.id)[i], existing.id) {
    }
  }

  // ----- The stack at the point of failure -----

  lemma QuiescePartRun(x: Executor, existing: Installation, obsolete: seq<Installation>, oracle: Oracle, w: World)
    requires AllDistinct(existing, obsolete)
    requires !Forward(x, QuiescePart(existing, obsolete), oracle, 0, []).failed
    ensures var p := Forward(x, QuiescePart(existing, obsolete), oracle, 0, []);
            var winner := Winner(Some(existing), obsolete);
            && p.stack == Groups([MarkOne(existing, winner)], winner.None?) + Groups(Mark(obsolete, winner), false)
            && (forall id :: id in Ids(obsolete) || id == existing.id ==> !At(ApplyAll(w, p.events), id).enabled)
  {
    var winner := Winner(Some(existing), obsolete);
    var one := [MarkOne(existing, winner)];
    MarkKeepsIds(obsolete, winner);
    assert one[0] in one;
    QuiesceBoth(x, one, winner.None?, Mark(obsolete, winner), false, oracle);
    var p := Forward(x, QuiescePart(existing, obsolete), oracle, 0, []);
    forall id | id in Ids(obsolete) || id == existing.id ensures !At(ApplyAll(w, p.events), id).enabled {
      QuiesceBothEffect(x, one, winner.None?, Mark(obsolete, winner), false, oracle, w, id);
    }
  }

  lemma GroupsOfOne(one: Installation, restoreStopped: bool)
    ensures Groups([one], restoreStopped) == GroupsOne(one, restoreStopped)
  {
    assert [one][1..] == [];
    Sequences.Empty(GroupsOne(one, restoreStopped));
  }

  lemma QuiesceRecoveries(existing: Installation, obsolete: seq<Installation>)
    requires AllDistinct(existing, obsolete)
    ensures var winner := Winner(Some(existing), obsolete);
            Recoveries(Groups([MarkOne(existing, winner)], winner.None?) + Groups(Mark(obsolete, winner), false)) ==
            ReviveSurvivor(obsolete, Some(existing))
  {
    hide Recoveries, Mark, Groups;
    var winner := Winner(Some(existing), obsolete);
    GroupsOfMarked(obsolete, winner);
    GroupsOfOne(MarkOne(existing, winner), winner.None?);
    if winner.Some? {
      RecoveriesOfWinner(winner.value);
      Sequences.Empty([[Request(Enable(winner.value))], Revive(winner.value)]);
      assert GroupsOne(MarkOne(existing, winner), false) ==
             if Some(existing.id) == winner then [[Request(Enable(winner.value))], Revive(winner.value)] else [];
    } else {
      RecoveriesOfOne([Request(Enable(existing.id))]);
      Sequences.Empty([[Request(Enable(existing.id))]]);
      assert GroupsOne(MarkOne(existing, winner), true) == [[Request(Enable(existing.id))]];
    }
  }

  /** The restore group has been pushed: the quiesce part and the backup test both succeeded. */
  predicate Armed(existing: Installation, obsolete: seq<Installation>, forward: seq<Event>) {
    var n := |QuiescePart(existing, obsolete)|;
    |forward| > n && forward[n].ok
  }

  function QuiescePhase(x: Executor, existing: Installation, obsolete: seq<Installation>, oracle: Oracle): Phase {
    Forward(x, QuiescePart(existing, obsolete), oracle, 0, [])
  }

  /** What runs after the restore group was pushed. */
  function ArmedPhase(x: Executor, existing: Installation, obsolete: seq<Installation>, oracle: Oracle): Phase {
    var q := QuiescePhase(x, existing, obsolete, oracle);
    Forward(x, AfterArming(existing, obsolete), oracle, |q.events| + 1, q.stack + [RestoreFiles(existing.id)])
  }

  lemma ArmedShape(x: Executor, existing: Installation, obsolete: seq<Installation>, oracle: Oracle)
    ensures var p := Forward(x, UpdateProgram(existing, obsolete), oracle, 0, []);
            var q := QuiescePhase(x, existing, obsolete, oracle);
            if Armed(existing, obsolete, p.events) then
              && !q.failed && |q.events| == |QuiescePart(existing, obsolete)|
              && p == After(q.events, After([Observe(x, ArmRestore(existing.id), oracle(|q.events|))],
                                            ArmedPhase(x, existing, obsolete, oracle)))
            else
              p.stack == q.stack && |p.events| <= |QuiescePart(existing, obsolete)| + 1
  {
    var q, arm, rest := QuiescePart(existing, obsolete), [ArmRestore(existing.id)], AfterArming(existing, obsolete);
    hide Forward, QuiescePart, AfterArming;
    var pq := QuiescePhase(x, existing, obsolete, oracle);
    ForwardAppend(x, q, arm + rest, oracle, 0, []);
    ForwardLength(x, q, oracle, 0, []);
    if !pq.failed {
      ForwardAppend(x, arm, rest, oracle, |pq.events|, pq.stack);
      SingleRequest(x, arm[0], oracle, |pq.events|, pq.stack);
      var tail := Forward(x, arm + rest, oracle, |pq.events|, pq.stack);
      assert (pq.events + tail.events)[|q|] == tail.events[0];
    }
  }

  lemma ArmedUncommitted(x: Executor, existing: Installation, obsolete: seq<Installation>, oracle: Oracle)
    requires var p := Forward(x, UpdateProgram(existing, obsolete), oracle, 0, []);
             Armed(existing, obsolete, p.events) && !Committed(UpdateProgram(existing, obsolete), p.events)
    ensures !Committed(AfterArming(existing, obsolete), ArmedPhase(x, existing, obsolete, oracle).events)
  {
    ArmedShape(x, existing, obsolete, oracle);
    var pq, pr := QuiescePhase(x, existing, obsolete, oracle), ArmedPhase(x, existing, obsolete, oracle);
    var arm, rest := [ArmRestore(existing.id)], AfterArming(existing, obsolete);
    var test := [Observe(x, ArmRestore(existing.id), oracle(|pq.events|))];
    if Committed(rest, pr.events) {
      CommittedAppend(arm, rest, test, pr.events);
      CommittedAppend(QuiescePart(existing, obsolete), arm + rest, pq.events, test + pr.events);
    }
  }

  /** The canonical service was enabled by a command after the backup test. */
  predicate EnableSucceeded(existing: Installation, obsolete: seq<Installation>, forward: seq<Event>) {
    exists i :: |QuiescePart(existing, obsolete)| < i < |forward|
                && forward[i].op == Enable(existing.id) && forward[i].ok
  }

  predicate Enables(events: seq<Event>, id: Identifier) {
    exists i :: 0 <= i < |events| && events[i].op == Enable(id) && events[i].ok
  }

  lemma {:induction false} EnablesAppend(a: seq<Event>, b: seq<Event>, id: Identifier)
    ensures Enables(a + b, id) <==> Enables(a, id) || Enables(b, id)
  {
    if Enables(a, id) {
      var i :| 0 <= i < |a| && a[i].op == Enable(id) && a[i].ok;
      assert (a + b)[i] == a[i];
    }
    if Enables(b, id) {
      var i :| 0 <= i < |b| && b[i].op == Enable(id) && b[i].ok;
      assert (a + b)[|a| + i] == b[i];
    }
  }

  lemma {:induction false} EnabledBy(w: World, events: seq<Event>, id: Identifier)
    requires forall e :: e in events ==> !e.op.Disable? && (e.op.Enable? ==> e.op.id == id)
    ensures forall other :: other != id ==> At(ApplyAll(w, events), other).enabled == At(w, other).enabled
    ensures At(ApplyAll(w, events), id).enabled <==> At(w, id).enabled || Enables(events, id)
    decreases |events|
  {
    if events != [] {
      assert events == [events[0]] + events[1..];
      EnablesAppend([events[0]], events[1..], id);
      assert Enables([events[0]], id) <==> events[0].op == Enable(id) && events[0].ok;
      assert events[0] in events;
      EnabledBy(Apply(w, events[0]), events[1..], id);
    }
  }

  lemma ArmedPhaseEnables(
      x: Executor, existing: Installation, obsolete: seq<Installation>, oracle: Oracle, w: World)
    ensures var events := ArmedPhase(x, existing, obsolete, oracle).events;
            && (forall id :: At(ApplyAll(w, events), id).enabled <==>
                  At(w, id).enabled || (id == existing.id && Enables(events, id)))
            && (forall b :: IsBackup(b) ==> FileAt(ApplyAll(w, events), b) == FileAt(w, b))
  {
    var q, rest := QuiescePhase(x, existing, obsolete, oracle), AfterArming(existing, obsolete);
    var k, stack := |q.events| + 1, q.stack + [RestoreFiles(existing.id)];
    var events := ArmedPhase(x, existing, obsolete, oracle).events;
    AfterArmingIsPlain(existing, obsolete);
    ForwardOps(x, rest, oracle, k, stack);
    forall e | e in events ensures !e.op.Disable? && (e.op.Enable? ==> e.op.id == existing.id) && SparesBackups(e.op) {
      var i :| 0 <= i < |events| && events[i] == e;
      assert Plain(rest[i], existing.id);
    }
    EnabledBy(w, events, existing.id);
    Untouched(w, events, BackupNode);
    Untouched(w, events, BackupCli);
    Untouched(w, events, BackupDefinition);
  }

  lemma QuiescePhaseSparesFiles(
      x: Executor, existing: Installation, obsolete: seq<Installation>, oracle: Oracle, w: World, p: Path)
    ensures FileAt(ApplyAll(w, QuiescePhase(x, existing, obsolete, oracle).events), p) == FileAt(w, p)
  {
    var winner := Winner(Some(existing), obsolete);
    QuiesceWritesNothing([MarkOne(existing, winner)], winner.None?);
    QuiesceWritesNothing(Mark(obsolete, winner), false);
    ForwardUntouched(x, QuiescePart(existing, obsolete), oracle, 0, [], w, p);
  }

  /** A failure after arming and before the readiness check succeeded. */
  predicate ArmedFailure(x: Executor, existing: Installation, obsolete: seq<Installation>, oracle: Oracle) {
    var p := Forward(x, UpdateProgram(existing, obsolete), oracle, 0, []);
    Armed(existing, obsolete, p.events) && !Committed(UpdateProgram(existing, obsolete), p.events)
  }

  /** After a group was pushed, quiet requests that do not commit leave it on top. */
  lemma QuietTail(x: Executor, rest: seq<Request>, oracle: Oracle, k: nat, stack: Stack, group: seq<Request>)
    requires forall r :: r in rest ==> Quiet(r)
    requires !Committed(rest, Forward(x, rest, oracle, k, stack + [group]).events)
    ensures Recoveries(Forward(x, rest, oracle, k, stack + [group]).stack) == group + Recoveries(stack)
  {
    QuietStack(x, rest, oracle, k, stack + [group]);
    RecoveriesPush(stack, group);
  }

  lemma ArmedRecoveries(x: Executor, existing: Installation, obsolete: seq<Installation>, oracle: Oracle)
    requires AllDistinct(existing, obsolete) && ArmedFailure(x, existing, obsolete, oracle)
    ensures Recoveries(Forward(x, UpdateProgram(existing, obsolete), oracle, 0, []).stack) ==
            RestoreFiles(existing.id) + ReviveSurvivor(obsolete, Some(existing))
  {
    hide Forward, Recoveries, RestoreFiles, AfterArming, QuiescePart, ReviveSurvivor, Groups, Mark;
    ArmedShape(x, existing, obsolete, oracle);
    ArmedUncommitted(x, existing, obsolete, oracle);
    var q := QuiescePhase(x, existing, obsolete, oracle);
    QuiescePartRun(x, existing, obsolete, oracle, World(map[], map[]));
    QuiesceRecoveries(existing, obsolete);
    AfterArmingIsPlain(existing, obsolete);
    QuietTail(x, AfterArming(existing, obsolete), oracle, |q.events| + 1, q.stack, RestoreFiles(existing.id));
  }

  lemma ArmedWorldSplit(x: Executor, existing: Installation, obsolete: seq<Installation>, oracle: Oracle, w: World)
    requires Armed(existing, obsolete, Forward(x, UpdateProgram(existing, obsolete), oracle, 0, []).events)
    ensures ApplyAll(w, Forward(x, UpdateProgram(existing, obsolete), oracle, 0, []).events) ==
            ApplyAll(ApplyAll(w, QuiescePhase(x, existing, obsolete, oracle).events),
                     ArmedPhase(x, existing, obsolete, oracle).events)
  {
    hide Forward, ApplyAll, AfterArming, QuiescePart;
    ArmedShape(x, existing, obsolete, oracle);
    var q, rest := QuiescePhase(x, existing, obsolete, oracle), ArmedPhase(x, existing, obsolete, oracle);
    AroundTest(w, q.events, Observe(x, ArmRestore(existing.id), oracle(|q.events|)), rest.events);
  }

  lemma {:induction false} AroundTest(w: World, first: seq<Event>, test: Event, last: seq<Event>)
    requires test.op.TestFile?
    ensures ApplyAll(w, first + ([test] + last)) == ApplyAll(ApplyAll(w, first), last)
  {
    ApplyAllAppend(w, first, [test] + last);
    ApplyAllAppend(ApplyAll(w, first), [test], last);
  }

  lemma ArmedBackups(x: Executor, existing: Installation, obsolete: seq<Installation>, oracle: Oracle, w: World, b: Path)
    requires Armed(existing, obsolete, Forward(x, UpdateProgram(existing, obsolete), oracle, 0, []).events)
    requires IsBackup(b)
    ensures FileAt(ApplyAll(w, Forward(x, UpdateProgram(existing, obsolete), oracle, 0, []).events), b) == FileAt(w, b)
  {
    ArmedWorldSplit(x, existing, obsolete, oracle, w);
    QuiescePhaseSparesFiles(x, existing, obsolete, oracle, w, b);
    ArmedPhaseEnables(x, existing, obsolete, oracle, ApplyAll(w, QuiescePhase(x, existing, obsolete, oracle).events));
  }

  lemma ArmedEnablement(
      x: Executor, existing: Installation, obsolete: seq<Installation>, oracle: Oracle, w: World, id: Identifier)
    requires AllDistinct(existing, obsolete) && (id in Ids(obsolete) || id == existing.id)
    requires Armed(existing, obsolete, Forward(x, UpdateProgram(existing, obsolete), oracle, 0, []).events)
    ensures var p := Forward(x, UpdateProgram(existing, obsolete), oracle, 0, []);
            At(ApplyAll(w, p.events), id).enabled <==>
            id == existing.id && EnableSucceeded(existing, obsolete, p.events)
  {
    ArmedShape(x, existing, obsolete, oracle);
    ArmedWorldSplit(x, existing, obsolete, oracle, w);
    QuiescePartRun(x, existing, obsolete, oracle, w);
    var q, rest := QuiescePhase(x, existing, obsolete, oracle), ArmedPhase(x, existing, obsolete, oracle);
    ArmedPhaseEnables(x, existing, obsolete, oracle, ApplyAll(w, q.events));
    EnableIsInTail(existing, obsolete, q.events,
                   Observe(x, ArmRestore(existing.id), oracle(|q.events|)), rest.events);
  }

  lemma EnableIsInTail(
      existing: Installation, obsolete: seq<Installation>, first: seq<Event>, test: Event, last: seq<Event>)
    requires |first| == |QuiescePart(existing, obsolete)|
    ensures EnableSucceeded(existing, obsolete, first + ([test] + last)) <==> Enables(last, existing.id)
  {
    var all, n := first + ([test] + last), |first|;
    assert forall i :: n < i < |all| ==> all[i] == last[i - n - 1];
    if Enables(last, existing.id) {
      var i :| 0 <= i < |last| && last[i].op == Enable(existing.id) && last[i].ok;
      assert all[n + 1 + i] == last[i];
    }
  }

  // ----- What the recovery leaves -----

  lemma FilesRestored(w: World, id: Identifier, events: seq<Event>)
    requires Completed(RestoreFiles(id), events)
    ensures forall p :: Installed(p, id) ==> FileAt(ApplyAll(w, events), p) == FileAt(w, BackupOf(p))
    ensures forall other :: At(ApplyAll(w, events), other).enabled == At(w, other).enabled
  {
    var copies := events[2..];
    assert events == [events[0]] + ([events[1]] + copies);
    ApplyAllAppend(w, [events[0]], [events[1]] + copies);
    var w1 := Apply(w, events[0]);
    ApplyAllAppend(w1, [events[1]], copies);
    assert events[0].op == Bootout(id) && events[1].op == AwaitRemoved(id);
    assert forall i :: 0 <= i < 3 ==> copies[i] == events[i + 2];
    var w2 := Apply(w1, events[1]);
    assert w1.files == w.files && w2.files == w.files;
    CopiesRestore(w2, id, copies);
  }

  lemma CopiesRestore(w: World, id: Identifier, copies: seq<Event>)
    requires |copies| == 3 && forall e :: e in copies ==> e.ok
    requires copies[0].op == CopyFile(BackupNode, Node(id)) && copies[1].op == CopyFile(BackupCli, Cli(id))
    requires copies[2].op == CopyFile(BackupDefinition, Definition(id))
    ensures forall p :: Installed(p, id) ==> FileAt(ApplyAll(w, copies), p) == FileAt(w, BackupOf(p))
    ensures ApplyAll(w, copies).services == w.services
  {
    hide Apply, ApplyAll, FileAt;
    assert copies == [copies[0]] + ([copies[1]] + [copies[2]]);
    var w1 := Apply(w, copies[0]);
    var w2 := Apply(w1, copies[1]);
    ApplyAllAppend(w, [copies[0]], [copies[1]] + [copies[2]]);
    ApplyAllAppend(w1, [copies[1]], [copies[2]]);
    ApplyOne(w, copies[0]);
    ApplyOne(w1, copies[1]);
    ApplyOne(w2, copies[2]);
    CopyEffect(w, copies[0]);
    CopyEffect(w1, copies[1]);
    CopyEffect(w2, copies[2]);
  }

  lemma ApplyOne(w: World, e: Event)
    ensures ApplyAll(w, [e]) == Apply(w, e)
  {
    assert [e][1..] == [];
  }

  lemma CopyEffect(w: World, e: Event)
    requires e.ok && e.op.CopyFile?
    ensures FileAt(Apply(w, e), e.op.target) == FileAt(w, e.op.source)
    ensures forall p :: p != e.op.target ==> FileAt(Apply(w, e), p) == FileAt(w, p)
    ensures Apply(w, e).services == w.services
  {
  }

  lemma ReviveWritesNothing(existing: Installation, obsolete: seq<Installation>, events: seq<Event>, w: World, p: Path)
    requires Completed(ReviveSurvivor(obsolete, Some(existing)), events)
    ensures FileAt(ApplyAll(w, events), p) == FileAt(w, p)
  {
    var plan := ReviveSurvivor(obsolete, Some(existing));
    forall e | e in events ensures !Writes(e.op, p) {
      var i :| 0 <= i < |events| && events[i] == e;
      assert plan[i].op == e.op;
    }
    Untouched(w, events, p);
  }

  lemma RecoveryOfArmedFailure(
      existing: Installation, obsolete: seq<Installation>, w: World, events: seq<Event>)
    requires AllDistinct(existing, obsolete)
    requires Completed(RestoreFiles(existing.id) + ReviveSurvivor(obsolete, Some(existing)), events)
    ensures forall p :: Installed(p, existing.id) ==> FileAt(ApplyAll(w, events), p) == FileAt(w, BackupOf(p))
    ensures forall id ::
              At(ApplyAll(w, events), id).enabled <==> At(w, id).enabled || Survivor(obsolete, Some(existing)) == Some(id)
    ensures Winner(Some(existing), obsolete).Some? ==>
              At(ApplyAll(w, events), Winner(Some(existing), obsolete).value).running
  {
    var restore, revive := RestoreFiles(existing.id), ReviveSurvivor(obsolete, Some(existing));
    CompletedSplit(restore, revive, events);
    var first, second := events[..|restore|], events[|restore|..];
    ApplyAllAppend(w, first, second);
    var w1 := ApplyAll(w, first);
    FilesRestored(w, existing.id, first);
    forall p | Installed(p, existing.id) ensures FileAt(ApplyAll(w, events), p) == FileAt(w, BackupOf(p)) {
      ReviveWritesNothing(existing, obsolete, second, w1, p);
    }
    SurvivorRevived(obsolete, Some(existing), w1, second);
  }

  lemma StagedBackup(w: World, id: Identifier, p: Path)
    requires Installed(p, id)
    ensures FileAt(Stage(w, id), BackupOf(p)) ==
            if FileAt(w, BackupOf(p)).Some? then FileAt(w, BackupOf(p)) else FileAt(w, p)
    ensures FileAt(Stage(w, id), p) == FileAt(w, p)
  {
    hide StageFile, FileAt;
    var w1 := StageFile(w, Definition(id), BackupDefinition);
    var w2 := StageFile(w1, Node(id), BackupNode);
    StagedFile(w, Definition(id), BackupDefinition);
    StagedFile(w1, Node(id), BackupNode);
    StagedFile(w2, Cli(id), BackupCli);
  }

  lemma StagedFile(w: World, source: Path, backup: Path)
    ensures forall q :: q != backup ==> FileAt(StageFile(w, source, backup), q) == FileAt(w, q)
    ensures FileAt(StageFile(w, source, backup), backup) ==
            if FileAt(w, backup).Some? then FileAt(w, backup) else FileAt(w, source)
  {
  }

  /** The elevated program failed before readiness, and every required recovery finished. */
  predicate RolledBack(x: Executor, existing: Installation, obsolete: seq<Installation>, oracle: Oracle) {
    var program := UpdateProgram(existing, obsolete);
    var run := Execute(x, program, oracle, 0);
    run.failed && !Committed(program, run.forward) && RecoverySucceeded(x, program, oracle)
  }

  /**
   * A rolled-back update whose restore group was armed: each installed file holds its staged backup, the
   * winner runs again, and a service ends enabled exactly when it is the survivor, or it is the canonical
   * one and the uncompensated `enable` had already succeeded.
   */
  lemma ArmedUpdateRestores(x: Executor, existing: Installation, obsolete: seq<Installation>, oracle: Oracle, staged: World)
    requires AllDistinct(existing, obsolete) && RolledBack(x, existing, obsolete, oracle)
    requires Armed(existing, obsolete, Execute(x, UpdateProgram(existing, obsolete), oracle, 0).forward)
    ensures var run := Execute(x, UpdateProgram(existing, obsolete), oracle, 0);
            var after := ApplyAll(staged, run.Trace());
            && (forall p :: Installed(p, existing.id) ==> FileAt(after, p) == FileAt(staged, BackupOf(p)))
            && (forall id :: id in Ids(obsolete) || id == existing.id ==>
                  (At(after, id).enabled <==>
                     || Survivor(obsolete, Some(existing)) == Some(id)
                     || (id == existing.id && EnableSucceeded(existing, obsolete, run.forward))))
            && (Winner(Some(existing), obsolete).Some? ==>
                  At(after, Winner(Some(existing), obsolete).value).running)
  {
    var program := UpdateProgram(existing, obsolete);
    var run := Execute(x, program, oracle, 0);
    var p := Forward(x, program, oracle, 0, []);
    UnstoppedRecoveryEnds(x, Recoveries(p.stack), oracle, |p.events|);
    ApplyAllAppend(staged, run.forward, run.recovery);
    ArmedRecoveries(x, existing, obsolete, oracle);
    var w := ApplyAll(staged, run.forward);
    RecoveryOfArmedFailure(existing, obsolete, w, run.recovery);
    forall q | Installed(q, existing.id) ensures FileAt(w, BackupOf(q)) == FileAt(staged, BackupOf(q)) {
      ArmedBackups(x, existing, obsolete, oracle, staged, BackupOf(q));
    }
    forall id | id in Ids(obsolete) || id == existing.id
      ensures At(w, id).enabled <==> id == existing.id && EnableSucceeded(existing, obsolete, run.forward)
    {
      ArmedEnablement(x, existing, obsolete, oracle, staged, id);
    }
  }

  ghost predicate TouchesOnlyServices(requests: seq<Request>) {
    forall r :: r in requests ==>
      && (forall p :: !Writes(r.op, p))
      && forall c :: c in r.rollback ==> forall p :: !Writes(c.op, p)
  }

  lemma {:induction false} QuiesceTouchesOnlyServices(list: seq<Installation>, restoreStopped: bool)
    ensures TouchesOnlyServices(Quiesce(list, restoreStopped))
    decreases |list|
  {
    if list != [] {
      QuiesceTouchesOnlyServices(list[1..], restoreStopped);
      forall r | r in QuiesceOne(list[0], restoreStopped)
        ensures (forall p :: !Writes(r.op, p)) && forall c :: c in r.rollback ==> forall p :: !Writes(c.op, p)
      {
      }
    }
  }

  ghost predicate StackTouchesOnlyServices(stack: Stack) {
    forall g, c, p :: g in stack && c in g ==> !Writes(c.op, p)
  }

  lemma {:induction false} ForwardStackTouchesOnlyServices(
      x: Executor, requests: seq<Request>, oracle: Oracle, k: nat, stack: Stack)
    requires TouchesOnlyServices(requests) && StackTouchesOnlyServices(stack)
    ensures StackTouchesOnlyServices(Forward(x, requests, oracle, k, stack).stack)
    decreases |requests|
  {
    if requests != [] {
      var e := Observe(x, requests[0], oracle(k));
      var s := if e.ok then Next(stack, requests[0]) else stack;
      assert requests[0] in requests;
      ForwardStackTouchesOnlyServices(x, requests[1..], oracle, k + 1, s);
    }
  }

  lemma {:induction false} RecoveriesTouchOnlyServices(stack: Stack)
    requires StackTouchesOnlyServices(stack)
    ensures forall c, p :: c in Recoveries(stack) ==> !Writes(c.op, p)
    decreases |stack|
  {
    if stack != [] {
      RecoveriesTouchOnlyServices(stack[..|stack| - 1]);
    }
  }

  lemma QuiescePhaseStack(x: Executor, existing: Installation, obsolete: seq<Installation>, oracle: Oracle)
    ensures StackTouchesOnlyServices(QuiescePhase(x, existing, obsolete, oracle).stack)
  {
    var winner := Winner(Some(existing), obsolete);
    QuiesceTouchesOnlyServices([MarkOne(existing, winner)], winner.None?);
    QuiesceTouchesOnlyServices(Mark(obsolete, winner), false);
    ForwardStackTouchesOnlyServices(x, QuiescePart(existing, obsolete), oracle, 0, []);
  }

  lemma UnarmedIsShort(x: Executor, existing: Installation, obsolete: seq<Installation>, oracle: Oracle)
    requires !Armed(existing, obsolete, Forward(x, UpdateProgram(existing, obsolete), oracle, 0, []).events)
    ensures |Forward(x, UpdateProgram(existing, obsolete), oracle, 0, []).events| <= |QuiescePart(existing, obsolete)| + 1
  {
    ArmedShape(x, existing, obsolete, oracle);
  }

  lemma UnarmedPrefixWritesNothing(existing: Installation, obsolete: seq<Installation>, i: nat, path: Path)
    requires i <= |QuiescePart(existing, obsolete)| && i < |UpdateProgram(existing, obsolete)|
    ensures !Writes(UpdateProgram(existing, obsolete)[i].op, path)
  {
    var q, winner := QuiescePart(existing, obsolete), Winner(Some(existing), obsolete);
    if i < |q| {
      QuiesceWritesNothing([MarkOne(existing, winner)], winner.None?);
      QuiesceWritesNothing(Mark(obsolete, winner), false);
      assert UpdateProgram(existing, obsolete)[i] == q[i] && q[i] in q;
    }
  }

  lemma UnarmedForwardSparesFiles(
      x: Executor, existing: Installation, obsolete: seq<Installation>, oracle: Oracle, w: World, path: Path)
    requires !Armed(existing, obsolete, Forward(x, UpdateProgram(existing, obsolete), oracle, 0, []).events)
    ensures FileAt(ApplyAll(w, Forward(x, UpdateProgram(existing, obsolete), oracle, 0, []).events), path) ==
            FileAt(w, path)
  {
    var program := UpdateProgram(existing, obsolete);
    var events := Forward(x, program, oracle, 0, []).events;
    UnarmedIsShort(x, existing, obsolete, oracle);
    ForwardOps(x, program, oracle, 0, []);
    forall e | e in events ensures !Writes(e.op, path) {
      var i :| 0 <= i < |events| && events[i] == e;
      UnarmedPrefixWritesNothing(existing, obsolete, i, path);
    }
    Untouched(w, events, path);
  }

  /** A failure before the restore group was armed has written none of the files. */
  lemma UnarmedWritesNothing(
      x: Executor, existing: Installation, obsolete: seq<Installation>, oracle: Oracle, w: World, path: Path)
    requires var run := Execute(x, UpdateProgram(existing, obsolete), oracle, 0);
             run.failed && !Armed(existing, obsolete, run.forward)
    ensures var run := Execute(x, UpdateProgram(existing, obsolete), oracle, 0);
            FileAt(ApplyAll(w, run.Trace()), path) == FileAt(w, path)
  {
    var run := Execute(x, UpdateProgram(existing, obsolete), oracle, 0);
    var p := Forward(x, UpdateProgram(existing, obsolete), oracle, 0, []);
    UnarmedForwardSparesFiles(x, existing, obsolete, oracle, w, path);
    ArmedShape(x, existing, obsolete, oracle);
    QuiescePhaseStack(x, existing, obsolete, oracle);
    var plan := Recoveries(p.stack);
    RecoveriesTouchOnlyServices(p.stack);
    RecoverOps(x, plan, oracle, |p.events|);
    forall e | e in run.recovery ensures !Writes(e.op, path) {
      var i :| 0 <= i < |run.recovery| && run.recovery[i] == e;
      assert plan[i] in plan;
    }
    Untouched(ApplyAll(w, run.forward), run.recovery, path);
    ApplyAllAppend(w, run.forward, run.recovery);
  }

  /**
   * A rolled-back update leaves an installed file as it was before the call exactly when the restore group
   * had not been armed, or no interrupted update had left a backup with other contents.
   */
  lemma RestoredExactly(
      x: Executor, existing: Installation, obsolete: seq<Installation>, oracle: Oracle, before: World, p: Path)
    requires AllDistinct(existing, obsolete) && Installed(p, existing.id) && RolledBack(x, existing, obsolete, oracle)
    ensures var run := Execute(x, UpdateProgram(existing, obsolete), oracle, 0);
            var after := ApplyAll(Stage(before, existing.id), run.Trace());
            FileAt(after, p) == FileAt(before, p) <==>
            || !Armed(existing, obsolete, run.forward)
            || FileAt(before, BackupOf(p)).None?
            || FileAt(before, BackupOf(p)) == FileAt(before, p)
  {
    var run := Execute(x, UpdateProgram(existing, obsolete), oracle, 0);
    StagedBackup(before, existing.id, p);
    if Armed(existing, obsolete, run.forward) {
      ArmedUpdateRestores(x, existing, obsolete, oracle, Stage(before, existing.id));
    } else {
      UnarmedWritesNothing(x, existing, obsolete, oracle, Stage(before, existing.id), p);
    }
  }

  const DONE: Child := Child(0, Exit(Some(0), Residue(false, false, None)), Exit(Some(0), Residue(false, false, None)))

  predicate AllDone(oracle: Oracle, k: nat, n: nat) {
    forall i :: k <= i < k + n ==> oracle(i) == DONE
  }

  lemma {:induction false} DoneForward(x: Executor, requests: seq<Request>, oracle: Oracle, k: nat, stack: Stack)
    requires AllDone(oracle, k, |requests|)
    ensures var p := Forward(x, requests, oracle, k, stack);
            !p.failed && |p.events| == |requests| && forall i :: 0 <= i < |p.events| ==> p.events[i].ok
    decreases |requests|
  {
    if requests != [] {
      assert oracle(k) == DONE;
      DoneForward(x, requests[1..], oracle, k + 1, Next(stack, requests[0]));
    }
  }

  lemma {:induction false} DoneRecover(x: Executor, recoveries: seq<Request>, oracle: Oracle, k: nat)
    requires AllDone(oracle, k, |recoveries|)
    ensures forall i :: 0 <= i < |Recover(x, recoveries, oracle, k)| ==> Recover(x, recoveries, oracle, k)[i].ok
    decreases |recoveries|
  {
    if recoveries != [] {
      assert oracle(k) == DONE;
      DoneRecover(x, recoveries[1..], oracle, k + 1);
    }
  }

  /** Everything succeeds but the creation of the runtime directory, right after the restore group was armed. */
  function MakeRuntimeFails(at: nat): Oracle {
    (n: nat) => if n == at then DONE.(alone := Exit(Some(1), Residue(false, false, None))) else DONE
  }

  lemma {:induction false} FailsAfter(x: Executor, head: seq<Request>, next: Request, rest: seq<Request>, oracle: Oracle)
    requires AllDone(oracle, 0, |head|) && !next.allowFailure && !Observe(x, next, oracle(|head|)).ok
    ensures var p := Forward(x, head + ([next] + rest), oracle, 0, []);
            && p.failed && |p.events| == |head| + 1
            && (forall i :: 0 <= i < |head| ==> p.events[i].ok) && !p.events[|head|].ok
  {
    hide Forward, Observe, Next;
    DoneForward(x, head, oracle, 0, []);
    ForwardAppend(x, head, [next] + rest, oracle, 0, []);
    var stack := Forward(x, head, oracle, 0, []).stack;
    ForwardAppend(x, [next], rest, oracle, |head|, stack);
    SingleRequest(x, next, oracle, |head|, stack);
  }

  lemma {:induction false} FailsOnceArmed(x: Executor, existing: Installation)
    ensures var oracle := MakeRuntimeFails(|QuiescePart(existing, [])| + 1);
            var p := Forward(x, UpdateProgram(existing, []), oracle, 0, []);
            && p.failed && |p.events| == |QuiescePart(existing, [])| + 2 && Armed(existing, [], p.events)
            && !Committed(UpdateProgram(existing, []), p.events)
  {
    var q := QuiescePart(existing, []);
    var oracle := MakeRuntimeFails(|q| + 1);
    var arm, make := ArmRestore(existing.id), Request(MakeRuntime(existing.id));
    var rest := ReplacePart(existing.id)[1..];
    var head := q + [arm];
    assert AfterArming(existing, []) == [make] + rest;
    assert UpdateProgram(existing, []) == head + ([make] + rest);
    hide QuiescePart, UpdateProgram, AfterArming, ReplacePart, ArmRestore, Forward;
    FailsAfter(x, head, make, rest, oracle);
    QuiesceNeverCommits(existing);
    ArmNeverCommits(existing.id);
  }

  lemma ArmNeverCommits(id: Identifier)
    ensures !ArmRestore(id).clear
  {
  }

  lemma QuiesceNeverCommits(existing: Installation)
    ensures forall r :: r in QuiescePart(existing, []) ==> !r.clear
  {
    var winner := Winner(Some(existing), []);
    var marked := MarkOne(existing, winner);
    assert Mark([], winner) == [];
    assert Quiesce([], false) == [];
    assert [marked][1..] == [] && Quiesce([], winner.None?) == [];
    assert QuiescePart(existing, []) == QuiesceOne(marked, winner.None?);
  }

  /** An interrupted update left a backup with other contents: the next rolled-back update puts that one in place. */
  lemma {:induction false} OlderBackupWins(x: Executor, existing: Installation, older: string, current: string)
    requires older != current
    ensures var oracle := MakeRuntimeFails(|QuiescePart(existing, [])| + 1);
            var before := World(map[], map[Node(existing.id) := current, BackupNode := older]);
            && RolledBack(x, existing, [], oracle)
            && var run := Execute(x, UpdateProgram(existing, []), oracle, 0);
               FileAt(ApplyAll(Stage(before, existing.id), run.Trace()), Node(existing.id)) != FileAt(before, Node(existing.id))
  {
    var oracle := MakeRuntimeFails(|QuiescePart(existing, [])| + 1);
    var before := World(map[], map[Node(existing.id) := current, BackupNode := older]);
    FailsOnceArmed(x, existing);
    var p := Forward(x, UpdateProgram(existing, []), oracle, 0, []);
    DoneRecover(x, Recoveries(p.stack), oracle, |p.events|);
    assert RolledBack(x, existing, [], oracle);
    RestoredExactly(x, existing, [], oracle, before, Node(existing.id));
  }

  /** All three files are back before the recovery bootstraps any service again. */
  lemma FilesBeforeBootstrap(x: Executor, existing: Installation, obsolete: seq<Installation>, oracle: Oracle, j: nat)
    requires AllDistinct(existing, obsolete)
    requires var program := UpdateProgram(existing, obsolete);
             var run := Execute(x, program, oracle, 0);
             && run.failed && !Committed(program, run.forward) && Armed(existing, obsolete, run.forward)
             && j < |run.recovery| && run.recovery[j].op.Bootstrap?
    ensures var recovery := Execute(x, UpdateProgram(existing, obsolete), oracle, 0).recovery;
            && 5 <= j
            && (forall i :: 2 <= i < 5 ==> recovery[i].ok && recovery[i].op == RestoreFiles(existing.id)[i].op)
  {
    var p := Forward(x, UpdateProgram(existing, obsolete), oracle, 0, []);
    ArmedRecoveries(x, existing, obsolete, oracle);
    RestoreComesFirst(x, existing, obsolete, oracle, |p.events|, j);
  }

  lemma RestoreComesFirst(
      x: Executor, existing: Installation, obsolete: seq<Installation>, oracle: Oracle, k: nat, j: nat)
    requires var plan := RestoreFiles(existing.id) + ReviveSurvivor(obsolete, Some(existing));
             j < |Recover(x, plan, oracle, k)| && Recover(x, plan, oracle, k)[j].op.Bootstrap?
    ensures var plan := RestoreFiles(existing.id) + ReviveSurvivor(obsolete, Some(existing));
            var recovery := Recover(x, plan, oracle, k);
            5 <= j && forall i :: 2 <= i < 5 ==> recovery[i].ok && recovery[i].op == RestoreFiles(existing.id)[i].op
  {
    var restore := RestoreFiles(existing.id);
    var plan := restore + ReviveSurvivor(obsolete, Some(existing));
    RecoverOps(x, plan, oracle, k);
    assert forall i :: 0 <= i < 5 ==> plan[i] == restore[i] && !restore[i].op.Bootstrap?;
    forall i | 2 <= i < 5 ensures Recover(x, plan, oracle, k)[i].ok {
      RecoveryPast(x, plan, oracle, k, i);
    }
  }

  lemma {:induction false} RecoveryPast(x: Executor, plan: seq<Request>, oracle: Oracle, k: nat, i: nat)
    requires i + 1 < |Recover(x, plan, oracle, k)| && i < |plan| && !plan[i].allowFailure
    ensures Recover(x, plan, oracle, k)[i].ok
    decreases i
  {
    if i > 0 {
      RecoveryPast(x, plan[1..], oracle, k + 1, i - 1);
    }
  }
}
