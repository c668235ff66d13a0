/**
 * What the Linux and Windows operations come to: the order in which a committed start or install does its work,
 * and the last word of a rollback about the canonical service.
 */
module LegacyCompletion {
  import opened Wrappers
  import opened LegacyRollback
  import Sequences

  // ----- Committed runs -----

  /** The command was issued at this place and did not fail. */
  ghost predicate DoneAt(es: seq<Entry>, i: int, c: Command) {
    0 <= i < |es| && es[i].command == c && !es[i].outcome.Failed?
  }

  /** One command succeeded before the other did. */
  ghost predicate Before(es: seq<Entry>, c: Command, d: Command) {
    exists i, j :: i < j && DoneAt(es, i, c) && DoneAt(es, j, d)
  }

  ghost predicate Untouched(es: seq<Entry>, id: Id) {
    forall i :: 0 <= i < |es| ==> Target(es[i].command) != Some(id)
  }

  /** The service is stopped, then disabled, and nothing ever asks for it again. */
  ghost predicate GivenUp(es: seq<Entry>, id: Id) {
    && Before(es, Quiesce(id), Disable(id))
    && forall i :: 0 <= i < |es| ==> !Asks(es[i].command, id)
  }

  lemma DoneBefore(es: seq<Entry>, i: int, c: Command, j: int, d: Command)
    requires i < j && DoneAt(es, i, c) && DoneAt(es, j, d)
    ensures Before(es, c, d)
  {
  }

  /** A program that went well, followed by one that may have failed. */
  lemma RunsThrough(p: seq<Command>, q: seq<Command>, oracle: Oracle, n: nat)
    requires Well(Until(p, oracle, n))
    ensures var es := Until(p, oracle, n) + Until(q, oracle, n + |p|);
            && |Until(p, oracle, n)| == |p| <= |es| <= |p| + |q|
            && (forall i :: 0 <= i < |p| ==> DoneAt(es, i, p[i]))
            && (forall i :: |p| <= i < |es| ==> es[i].command == q[i - |p|])
            && (Well(es) ==> |es| == |p| + |q| && forall i :: 0 <= i < |q| ==> DoneAt(es, |p| + i, q[i]))
  {
    UntilShape(p, oracle, n);
    UntilShape(q, oracle, n + |p|);
    hide Until, Well, DoneAt;
    var first, rest := Until(p, oracle, n), Until(q, oracle, n + |p|);
    WellOfBoth(first, rest);
    WellMeansDone(p, first);
    WellMeansDone(q, rest);
    forall i | 0 <= i < |p| ensures DoneAt(first + rest, i, p[i]) {
      DoneInFirst(first, rest, i, p[i]);
    }
    if Well(first + rest) {
      forall i | 0 <= i < |q| ensures DoneAt(first + rest, |p| + i, q[i]) {
        DoneInSecond(first, rest, i, q[i]);
      }
    }
    forall i | |p| <= i < |first + rest| ensures (first + rest)[i].command == q[i - |p|] {
      assert (first + rest)[i] == rest[i - |p|];
    }
  }

  lemma DoneInFirst(first: seq<Entry>, rest: seq<Entry>, i: int, c: Command)
    requires DoneAt(first, i, c)
    ensures DoneAt(first + rest, i, c)
  {
  }

  lemma DoneInSecond(first: seq<Entry>, rest: seq<Entry>, i: int, c: Command)
    requires DoneAt(rest, i, c)
    ensures DoneAt(first + rest, |first| + i, c)
  {
  }

  /** If the last command did not fail, none did. */
  lemma WellMeansDone(p: seq<Command>, es: seq<Entry>)
    requires |es| <= |p| && forall i :: 0 <= i < |es| ==> es[i].command == p[i]
    requires forall i :: 0 <= i < |es| - 1 ==> !es[i].outcome.Failed?
    ensures Well(es) ==> forall i :: 0 <= i < |es| ==> DoneAt(es, i, p[i])
  {
  }

  /** The places of a program's commands, with the number of those that come before the disables. */
  lemma ProgramPlaces(before: seq<Command>, quiesced: seq<Id>, existing: seq<Id>, after: seq<Command>)
    ensures var p, q := Program(before, quiesced, existing, after), |before| + |quiesced|;
            && |p| == q + |existing| + |after|
            && (forall i :: 0 <= i < |before| ==> p[i] == before[i])
            && (forall i :: 0 <= i < |quiesced| ==> p[|before| + i] == Quiesce(quiesced[i]))
            && (forall i :: 0 <= i < |existing| ==> p[q + i] == Disable(existing[i]))
            && (forall i :: 0 <= i < |after| ==> p[q + |existing| + i] == after[i])
  {
    EachIs(quiesced, id => Quiesce(id));
    EachIs(existing, id => Disable(id));
    var stops, disables := Each(quiesced, id => Quiesce(id)), Each(existing, id => Disable(id));
    assert Program(before, quiesced, existing, after) == before + stops + disables + after;
  }

  lemma RetirePlaces(existing: seq<Id>, windows: bool)
    ensures var p := RetireProgram(existing, windows);
            && (forall i :: 0 <= i < |existing| ==> p[i] == Discard(existing[i]))
            && |p| == |existing| + (if windows then 0 else if existing == [] then 1 else 2)
            && (!windows ==> p[|p| - 1] == RemoveRecords && (existing != [] ==> p[|existing|] == Reload))
  {
    EachIs(existing, id => Discard(id));
  }

  /** Where a committed operation does what. */
  ghost predicate Milestones(
      es: seq<Entry>, before: seq<Command>, quiesced: seq<Id>, existing: seq<Id>, after: seq<Command>, windows: bool)
  {
    var q, k := |before| + |quiesced|, |existing|;
    var m := q + k + |after|;
    && m <= |es|
    && (forall i :: 0 <= i < |before| ==> DoneAt(es, i, before[i]))
    && (forall i :: 0 <= i < |quiesced| ==> DoneAt(es, |before| + i, Quiesce(quiesced[i])))
    && (forall i :: 0 <= i < k ==> DoneAt(es, q + i, Disable(existing[i])))
    && (forall i :: 0 <= i < |after| ==> DoneAt(es, q + k + i, after[i]))
    && (forall i :: m <= i < |es| ==>
          var c := es[i].command; c.Reload? || c.RemoveRecords? || (c.Discard? && c.id in existing))
    && (Well(es) ==>
          && (forall i :: 0 <= i < k ==> DoneAt(es, m + i, Discard(existing[i])))
          && (windows ==> |es| == m + k)
          && (!windows ==>
                && |es| == m + k + (if k == 0 then 1 else 2)
                && DoneAt(es, |es| - 1, RemoveRecords)
                && (k > 0 ==> DoneAt(es, m + k, Reload))))
  }

  lemma {:induction false} ReachesMilestones(
      before: seq<Command>, quiesced: seq<Id>, existing: seq<Id>, after: seq<Command>, windows: bool, oracle: Oracle, n: nat)
    requires Well(Until(Program(before, quiesced, existing, after), oracle, n))
    ensures var forward := Until(Program(before, quiesced, existing, after), oracle, n);
            Milestones(
              forward + Until(RetireProgram(existing, windows), oracle, n + |forward|),
              before, quiesced, existing, after, windows)
  {
    hide Until, Well, Program, RetireProgram, DoneAt;
    var p, r := Program(before, quiesced, existing, after), RetireProgram(existing, windows);
    RunsThrough(p, r, oracle, n);
    ProgramPlaces(before, quiesced, existing, after);
    RetirePlaces(existing, windows);
    var es := Until(p, oracle, n) + Until(r, oracle, n + |p|);
    forall i | |p| <= i < |es|
      ensures var c := es[i].command; c.Reload? || c.RemoveRecords? || (c.Discard? && c.id in existing)
    {
      assert es[i].command == r[i - |p|];
    }
    if Well(es) {
      forall i | 0 <= i < |existing| ensures DoneAt(es, |p| + i, Discard(existing[i])) {
        assert DoneAt(es, |p| + i, r[i]);
      }
      if !windows {
        assert DoneAt(es, |p| + (|r| - 1), r[|r| - 1]);
        assert existing != [] ==> DoneAt(es, |p| + |existing|, r[|existing|]);
      }
    }
  }

  /** Each legacy service has its place among those that are quiesced. */
  ghost predicate Follows(quiesced: seq<Id>, existing: seq<Id>) {
    var k := |quiesced| - |existing|;
    k >= 0 && quiesced[k..] == existing
  }

  lemma FollowsAt(quiesced: seq<Id>, existing: seq<Id>, i: nat)
    requires Follows(quiesced, existing) && i < |existing|
    ensures |quiesced| >= |existing| && quiesced[|quiesced| - |existing| + i] == existing[i]
  {
    assert quiesced[|quiesced| - |existing|..][i] == existing[i];
  }

  /** What happens to a legacy service, and the commands it waits for and is waited for by. */
  lemma {:induction false} LegacyOrder(
      es: seq<Entry>, before: seq<Command>, quiesced: seq<Id>, existing: seq<Id>, after: seq<Command>, windows: bool, k: nat)
    requires Milestones(es, before, quiesced, existing, after, windows) && Follows(quiesced, existing) && k < |existing|
    ensures var id := existing[k];
            && Before(es, Quiesce(id), Disable(id))
            && (forall c :: c in before ==> Before(es, c, Quiesce(id)))
            && (forall i :: 0 <= i < |quiesced| - |existing| ==> Before(es, Quiesce(quiesced[i]), Quiesce(id)))
            && (forall c :: c in after ==> Before(es, Disable(id), c))
            && (Well(es) ==>
                  && Before(es, Disable(id), Discard(id))
                  && (forall c :: c in after ==> Before(es, c, Discard(id)))
                  && (!windows ==> Before(es, Discard(id), Reload) && Before(es, Discard(id), RemoveRecords)))
  {
    hide Follows, DoneAt, Before, Well;
    var id, q, e := existing[k], |before| + |quiesced|, |existing|;
    var place := |quiesced| - e + k;
    var at := |before| + place;
    FollowsAt(quiesced, existing, k);
    assert DoneAt(es, |before| + place, Quiesce(quiesced[place]));
    DoneBefore(es, at, Quiesce(id), q + k, Disable(id));
    forall c | c in before ensures Before(es, c, Quiesce(id)) {
      var i :| 0 <= i < |before| && before[i] == c;
      DoneBefore(es, i, c, at, Quiesce(id));
    }
    forall i | 0 <= i < |quiesced| - e ensures Before(es, Quiesce(quiesced[i]), Quiesce(id)) {
      DoneBefore(es, |before| + i, Quiesce(quiesced[i]), at, Quiesce(id));
    }
    forall c | c in after
      ensures Before(es, Disable(id), c) && (Well(es) ==> Before(es, c, Discard(id)))
    {
      var i :| 0 <= i < |after| && after[i] == c;
      DoneBefore(es, q + k, Disable(id), q + e + i, c);
      if Well(es) {
        DoneBefore(es, q + e + i, c, q + e + |after| + k, Discard(id));
      }
    }
    if Well(es) {
      var m := q + e + |after|;
      DoneBefore(es, q + k, Disable(id), m + k, Discard(id));
      if !windows {
        DoneBefore(es, m + k, Discard(id), m + e, Reload);
        DoneBefore(es, m + k, Discard(id), |es| - 1, RemoveRecords);
      }
    }
  }

  /** A command that no part of the program is never comes up. */
  lemma NeverIssued(
      es: seq<Entry>, before: seq<Command>, quiesced: seq<Id>, existing: seq<Id>, after: seq<Command>, windows: bool, i: nat)
    requires Milestones(es, before, quiesced, existing, after, windows) && i < |es|
    ensures var c := es[i].command;
            || c in before
            || (c.Quiesce? && c.id in quiesced)
            || (c.Disable? && c.id in existing)
            || c in after
            || c.Reload? || c.RemoveRecords? || (c.Discard? && c.id in existing)
  {
    var q, k := |before| + |quiesced|, |existing|;
    if i < |before| {
      assert DoneAt(es, i, before[i]);
    } else if i < q {
      assert DoneAt(es, |before| + (i - |before|), Quiesce(quiesced[i - |before|]));
    } else if i < q + k {
      assert DoneAt(es, q + (i - q), Disable(existing[i - q]));
    } else if i < q + k + |after| {
      assert DoneAt(es, q + k + (i - q - k), after[i - q - k]);
    }
  }

  /** The legacy services are discarded, after this command and after they were disabled; on Linux the records go last. */
  ghost predicate RetiredAfter(es: seq<Entry>, existing: seq<Id>, last: Option<Command>, windows: bool) {
    && (forall id :: id in existing ==>
          && Before(es, Disable(id), Discard(id))
          && (last.Some? ==> Before(es, last.value, Discard(id)))
          && (!windows ==> Before(es, Discard(id), Reload) && Before(es, Discard(id), RemoveRecords)))
    && (!windows ==> es != [] && DoneAt(es, |es| - 1, RemoveRecords))
  }

  /**
   * A committed start: every legacy service is stopped and disabled, and never asked for again. With a restart the
   * canonical service is stopped first, and started (on Windows: enabled and started) and awaited once all legacy
   * services are disabled; without one it is left alone. If all went well, every legacy service is discarded after
   * that, and on Linux the records go last.
   */
  lemma {:induction false} CommittedStart(
      canonical: Id, restart: bool, existing: seq<Id>, windows: bool, oracle: Oracle, n: nat)
    requires canonical !in existing
    requires StartService(canonical, restart, existing, windows, oracle, n).committed
    ensures var es := StartService(canonical, restart, existing, windows, oracle, n).forward;
            && (forall id :: id in existing ==> GivenUp(es, id))
            && (restart ==>
                  && Before(es, Quiesce(canonical), Start(canonical))
                  && Before(es, Start(canonical), AwaitReady(canonical))
                  && (windows ==> Before(es, Enable(canonical), Start(canonical)))
                  && forall id :: id in existing ==>
                       && Before(es, Quiesce(canonical), Quiesce(id))
                       && Before(es, Disable(id), if windows then Enable(canonical) else Start(canonical)))
            && (!restart ==> Untouched(es, canonical))
            && (Well(es) ==> RetiredAfter(es, existing, if restart then Some(AwaitReady(canonical)) else None, windows))
  {
    hide Until, Well, Program, RetireProgram, Milestones, DoneAt, Before;
    var es := StartService(canonical, restart, existing, windows, oracle, n).forward;
    var quiesced, after := WithCanonical(canonical, restart, existing), Restart(canonical, restart, windows);
    ReachesMilestones([], quiesced, existing, after, windows, oracle, n);
    assert Milestones(es, [], quiesced, existing, after, windows);
    assert Follows(quiesced, existing);
    forall i | 0 <= i < |es|
      ensures forall id :: id in existing ==> !Asks(es[i].command, id)
      ensures !restart ==> Target(es[i].command) != Some(canonical)
    {
      NeverIssued(es, [], quiesced, existing, after, windows, i);
    }
    forall id | id in existing
      ensures Before(es, Quiesce(id), Disable(id))
      ensures restart ==> Before(es, Quiesce(canonical), Quiesce(id))
      ensures forall c :: c in after ==> Before(es, Disable(id), c)
      ensures Well(es) ==> forall c :: c in after ==> Before(es, c, Discard(id))
      ensures Well(es) ==> Before(es, Disable(id), Discard(id))
      ensures Well(es) && !windows ==> Before(es, Discard(id), Reload) && Before(es, Discard(id), RemoveRecords)
    {
      var k :| 0 <= k < |existing| && existing[k] == id;
      LegacyOrder(es, [], quiesced, existing, after, windows, k);
      assert restart ==> quiesced[0] == canonical;
    }
    StartOrder(es, canonical, restart, existing, windows);
  }

  /** The order of what a restart does to the canonical service. */
  lemma StartOrder(es: seq<Entry>, canonical: Id, restart: bool, existing: seq<Id>, windows: bool)
    requires var quiesced, after := WithCanonical(canonical, restart, existing), Restart(canonical, restart, windows);
             Milestones(es, [], quiesced, existing, after, windows)
    ensures restart ==>
              && Start(canonical) in Restart(canonical, restart, windows)
              && AwaitReady(canonical) in Restart(canonical, restart, windows)
              && (windows ==> Enable(canonical) in Restart(canonical, restart, windows))
              && Before(es, Quiesce(canonical), Start(canonical))
              && Before(es, Start(canonical), AwaitReady(canonical))
              && (windows ==> Before(es, Enable(canonical), Start(canonical)))
    ensures Well(es) && !windows ==> es != [] && DoneAt(es, |es| - 1, RemoveRecords)
  {
    hide DoneAt, Before;
    var quiesced, after := WithCanonical(canonical, restart, existing), Restart(canonical, restart, windows);
    if restart {
      var m := |quiesced| + |existing|;
      assert DoneAt(es, 0, Quiesce(quiesced[0]));
      assert DoneAt(es, m + 0, after[0]) && DoneAt(es, m + 1, after[1]);
      assert windows ==> DoneAt(es, m + 2, after[2]);
      var s := if windows then m + 1 else m;
      DoneBefore(es, 0, Quiesce(canonical), s, Start(canonical));
      DoneBefore(es, s, Start(canonical), s + 1, AwaitReady(canonical));
      if windows {
        DoneBefore(es, m, Enable(canonical), s, Start(canonical));
      }
    }
  }

  /**
   * A committed installation on Linux: with a record its files are backed up before anything is stopped; every
   * legacy service is stopped and disabled before the runtime changes; then runtime, definition, reload, enable,
   * wait and record follow each other. If all went well, the legacy services are discarded after the record.
   */
  lemma {:induction false} CommittedInstall(canonical: Id, hasRecord: bool, existing: seq<Id>, oracle: Oracle, n: nat)
    requires canonical !in existing
    requires InstallService(canonical, hasRecord, existing, oracle, n).committed
    ensures var es := InstallService(canonical, hasRecord, existing, oracle, n).forward;
            && (forall id :: id in existing ==>
                  && GivenUp(es, id)
                  && Before(es, Quiesce(canonical), Quiesce(id))
                  && Before(es, Disable(id), InstallRuntime))
            && (hasRecord ==> Before(es, StageBackups, Quiesce(canonical)))
            && Before(es, Quiesce(canonical), InstallRuntime)
            && Before(es, InstallRuntime, InstallDefinition)
            && Before(es, InstallDefinition, Reload)
            && Before(es, InstallDefinition, EnableNow(canonical))
            && Before(es, Reload, EnableNow(canonical))
            && Before(es, EnableNow(canonical), AwaitReady(canonical))
            && Before(es, AwaitReady(canonical), WriteRecord)
            && (Well(es) ==> RetiredAfter(es, existing, Some(WriteRecord), false))
  {
    hide Until, Well, Program, RetireProgram, Milestones, DoneAt, Before;
    var es := InstallService(canonical, hasRecord, existing, oracle, n).forward;
    var before, quiesced, after := Backups(hasRecord), [canonical] + existing, InstallMutation(canonical);
    ReachesMilestones(before, quiesced, existing, after, false, oracle, n);
    assert Milestones(es, before, quiesced, existing, after, false);
    assert Follows(quiesced, existing);
    forall i | 0 <= i < |es| ensures forall id :: id in existing ==> !Asks(es[i].command, id) {
      NeverIssued(es, before, quiesced, existing, after, false, i);
    }
    InstallOrder(es, canonical, hasRecord, existing);
    forall id | id in existing
      ensures Before(es, Quiesce(id), Disable(id))
      ensures Before(es, Quiesce(canonical), Quiesce(id))
      ensures Before(es, Disable(id), InstallRuntime)
      ensures Well(es) ==> Before(es, WriteRecord, Discard(id)) && Before(es, Disable(id), Discard(id))
      ensures Well(es) ==> Before(es, Discard(id), Reload) && Before(es, Discard(id), RemoveRecords)
    {
      var k :| 0 <= k < |existing| && existing[k] == id;
      LegacyOrder(es, before, quiesced, existing, after, false, k);
      assert quiesced[0] == canonical;
    }
  }

  /** The order of what an installation does to the canonical service. */
  lemma InstallOrder(es: seq<Entry>, canonical: Id, hasRecord: bool, existing: seq<Id>)
    requires Milestones(es, Backups(hasRecord), [canonical] + existing, existing, InstallMutation(canonical), false)
    ensures (hasRecord ==> Before(es, StageBackups, Quiesce(canonical)))
            && Before(es, Quiesce(canonical), InstallRuntime)
            && Before(es, InstallRuntime, InstallDefinition)
            && Before(es, InstallDefinition, Reload)
            && Before(es, InstallDefinition, EnableNow(canonical))
            && Before(es, Reload, EnableNow(canonical))
            && Before(es, EnableNow(canonical), AwaitReady(canonical))
            && Before(es, AwaitReady(canonical), WriteRecord)
            && InstallRuntime in InstallMutation(canonical) && WriteRecord in InstallMutation(canonical)
    ensures Well(es) ==> es != [] && DoneAt(es, |es| - 1, RemoveRecords)
  {
    hide DoneAt, Before;
    var before, quiesced, after := Backups(hasRecord), [canonical] + existing, InstallMutation(canonical);
    var b := |before|;
    var m := b + |quiesced| + |existing|;
    assert DoneAt(es, b + 0, Quiesce(quiesced[0]));
    if hasRecord {
      assert DoneAt(es, 0, before[0]);
      DoneBefore(es, 0, StageBackups, b, Quiesce(canonical));
    }
    assert DoneAt(es, m + 0, after[0]) && DoneAt(es, m + 1, after[1]) && DoneAt(es, m + 2, after[2]);
    assert DoneAt(es, m + 3, after[3]) && DoneAt(es, m + 4, after[4]) && DoneAt(es, m + 5, after[5]);
    DoneBefore(es, b, Quiesce(canonical), m, InstallRuntime);
    DoneBefore(es, m, InstallRuntime, m + 1, InstallDefinition);
    DoneBefore(es, m + 1, InstallDefinition, m + 2, Reload);
    DoneBefore(es, m + 1, InstallDefinition, m + 3, EnableNow(canonical));
    DoneBefore(es, m + 2, Reload, m + 3, EnableNow(canonical));
    DoneBefore(es, m + 3, EnableNow(canonical), m + 4, AwaitReady(canonical));
    DoneBefore(es, m + 4, AwaitReady(canonical), m + 5, WriteRecord);
  }

  lemma NotWellFails(cs: seq<Command>, oracle: Oracle, n: nat)
    ensures !Well(Until(cs, oracle, n)) ==> FailsAtTheEnd(Until(cs, oracle, n))
  {
    UntilShape(cs, oracle, n);
  }

  /** A run that does not commit ends with its first failure. */
  lemma FailureEndsTheRun(
      canonical: Id, restart: bool, existing: seq<Id>, windows: bool, hasRecord: bool, oracle: Oracle, n: nat)
    ensures var r := StartService(canonical, restart, existing, windows, oracle, n);
            !r.committed ==> FailsAtTheEnd(r.forward)
    ensures var r := InstallService(canonical, hasRecord, existing, oracle, n);
            !r.committed ==> FailsAtTheEnd(r.forward)
  {
    hide Program, StartProgram, RetireProgram, Until, Well, StartRollback, InstallRollback, Stopped, FailsAtTheEnd;
    NotWellFails(StartProgram(canonical, restart, existing, windows), oracle, n);
    NotWellFails(
      Program(Backups(hasRecord), [canonical] + existing, existing, InstallMutation(canonical)), oracle, n);
  }

  ghost predicate FailsAtTheEnd(es: seq<Entry>) {
    && es != [] && es[|es| - 1].outcome.Failed?
    && forall i :: 0 <= i < |es| - 1 ==> !es[i].outcome.Failed?
  }

  // ----- Failed runs: what the rollback says last about the canonical service -----

  /** Only the canonical service is mentioned. */
  ghost predicate Canonical(es: seq<Entry>, canonical: Id) {
    forall i :: 0 <= i < |es| ==> Target(es[i].command) == Some(canonical)
  }

  /** The last part decides; if it is empty, the first one does. */
  lemma LastOfParts(
      halt: seq<Entry>, revived: seq<Entry>, end: seq<Entry>, ids: set<Id>, due: set<Id>, canonical: Id)
    requires Course(revived, ids, due) && canonical !in ids && Canonical(end, canonical)
    requires NothingStarted(halt)
    ensures var es := halt + revived + end;
            && (LegacyCameBack(es, canonical) <==> Winner(revived).Some?)
            && LastAbout(es, canonical) ==
                 if end == [] then LastAbout(halt, canonical) else Some(end[|end| - 1].command)
  {
    hide Course;
    assert StartsOnly(end, {canonical});
    CameBackIsWon(canonical, halt, revived, end, ids, due);
    if end == [] {
      CourseStaysLast(halt, revived, ids, due, canonical);
      assert end == [];
    }
  }

  lemma {:induction false} LastWordOfStart(
      canonical: Id, restart: bool, existing: seq<Id>, windows: bool, disabled: nat, stopped: set<Id>, oracle: Oracle, n: nat)
    requires disabled <= |existing| && canonical !in existing
    ensures var es := StartRollback(canonical, restart, existing, windows, disabled, stopped, oracle, n);
            LastAbout(es, canonical) ==
              if !restart then None
              else if LegacyCameBack(es, canonical) then Some(Disable(canonical))
              else if canonical in stopped then Some(Start(canonical))
              else Some(if windows then Enable(canonical) else Stop(canonical))
    ensures var es := StartRollback(canonical, restart, existing, windows, disabled, stopped, oracle, n);
            restart ==>
              && es != []
              && es[0].command == (if windows then Disable(canonical) else Stop(canonical))
              && (windows && !LegacyCameBack(es, canonical) ==> Issued(es, Enable(canonical)))
  {
    hide Revive, Course, LastAbout, LegacyCameBack;
    var how := if windows then ByEnableAndStart else ByEnableNow;
    var halt := if restart then [Entry(if windows then Disable(canonical) else Stop(canonical), oracle(n))] else [];
    var revived := Revive(existing, disabled, stopped, canonical in stopped, how, oracle, n + |halt|);
    ReviveIs(existing, disabled, stopped, canonical in stopped, how, oracle, n + |halt|);
    var m := n + |halt| + |revived|;
    var end :=
      if !restart then []
      else if Winner(revived).Some? then if windows then [] else [Entry(Disable(canonical), oracle(m))]
      else (if windows then [Entry(Enable(canonical), oracle(m))] else [])
           + (if canonical in stopped then [Entry(Start(canonical), oracle(if windows then m + 1 else m))] else []);
    var es := halt + revived + end;
    assert StartRollback(canonical, restart, existing, windows, disabled, stopped, oracle, n) == es;
    LastOfParts(
      halt, revived, end, SetOf(existing) * stopped, Due(existing, disabled, stopped, canonical in stopped), canonical);
    LastOfOne(halt, canonical);
    if restart && windows && Winner(revived).None? {
      assert es[|halt| + |revived|] == end[0];
    }
  }

  lemma LastOfOne(es: seq<Entry>, id: Id)
    requires |es| <= 1
    ensures LastAbout(es, id) == if es != [] && Target(es[0].command) == Some(id) then Some(es[0].command) else None
  {
  }

  /**
   * A failed start with a restart: first the canonical service is halted. If a legacy one came back, it is left
   * disabled; if not, it is started again where it had been stopped, and otherwise it is left halted, on Windows
   * enabled. Without a restart the rollback does not mention it.
   */
  lemma {:induction false} LastWordOfFailedStart(
      canonical: Id, restart: bool, existing: seq<Id>, windows: bool, oracle: Oracle, n: nat)
    requires canonical !in existing
    requires !StartService(canonical, restart, existing, windows, oracle, n).committed
    ensures var r := StartService(canonical, restart, existing, windows, oracle, n);
            LastAbout(r.rollback, canonical) ==
              if !restart then None
              else if LegacyCameBack(r.rollback, canonical) then Some(Disable(canonical))
              else if canonical in Stopped(r.forward) then Some(Start(canonical))
              else Some(if windows then Enable(canonical) else Stop(canonical))
    ensures var r := StartService(canonical, restart, existing, windows, oracle, n);
            restart ==>
              && r.rollback != []
              && r.rollback[0].command == (if windows then Disable(canonical) else Stop(canonical))
              && (windows && !LegacyCameBack(r.rollback, canonical) ==> Issued(r.rollback, Enable(canonical)))
  {
    hide Stopped, StartProgram, RetireProgram, Until, StartRollback, LastAbout, LegacyCameBack, Issued, Well;
    var r := StartService(canonical, restart, existing, windows, oracle, n);
    var disabled := DisabledCount(r.forward, |WithCanonical(canonical, restart, existing)|, |existing|);
    LastWordOfStart(canonical, restart, existing, windows, disabled, Stopped(r.forward), oracle, n + |r.forward|);
  }

  /** After the files are back in place: the legacy services, then the canonical one. */
  lemma {:induction false} LastWordOfRevival(
      canonical: Id, hasRecord: bool, mutated: bool, existing: seq<Id>, disabled: nat, stopped: set<Id>, oracle: Oracle, n: nat,
      halt: seq<Entry>)
    requires disabled <= |existing| && canonical !in existing && (canonical in stopped ==> hasRecord)
    requires NothingStarted(halt) && LastAbout(halt, canonical) == if mutated then Some(Disable(canonical)) else None
    ensures var (revived, end) := InstallRevival(canonical, hasRecord, mutated, existing, disabled, stopped, oracle, n);
            InstallEnds(halt + revived + end, canonical, hasRecord, mutated, canonical in stopped)
  {
    hide Revive, Course, LastAbout, LegacyCameBack;
    var (revived, end) := InstallRevival(canonical, hasRecord, mutated, existing, disabled, stopped, oracle, n);
    NoCourse();
    ReviveIs(existing, disabled, stopped, false, ByEnableNow, oracle, n);
    var ids := if canonical in stopped then {} else SetOf(existing) * stopped;
    var due := if canonical in stopped then {} else Due(existing, disabled, stopped, false);
    LastOfParts(halt, revived, end, ids, due, canonical);
  }

  /** The last word of an installation's rollback about the canonical service. */
  ghost predicate InstallEnds(es: seq<Entry>, canonical: Id, hasRecord: bool, mutated: bool, stopped: bool) {
    LastAbout(es, canonical) ==
      if LegacyCameBack(es, canonical) && (hasRecord || mutated) then Some(Disable(canonical))
      else if hasRecord && mutated then Some(if stopped then EnableNow(canonical) else Enable(canonical))
      else if hasRecord && stopped then Some(Start(canonical))
      else if mutated then Some(Disable(canonical))
      else None
  }

  lemma {:induction false} LastWordOfInstall(
      canonical: Id, hasRecord: bool, mutated: bool, existing: seq<Id>, disabled: nat, stopped: set<Id>, oracle: Oracle, n: nat)
    requires disabled <= |existing| && canonical !in existing && (canonical in stopped ==> hasRecord)
    requires !Aborted(InstallRollback(canonical, hasRecord, mutated, existing, disabled, stopped, oracle, n))
    ensures var es := InstallRollback(canonical, hasRecord, mutated, existing, disabled, stopped, oracle, n);
            && InstallEnds(es, canonical, hasRecord, mutated, canonical in stopped)
            && (mutated ==> HaltsFirst(es, canonical, hasRecord))
  {
    hide InstallRevival, LastAbout, Until, Aborted, Well, InstallEnds;
    var halt := if mutated then [Entry(Disable(canonical), oracle(n))] else [];
    var restored :=
      if hasRecord && mutated then Until([RestoreRuntime, RestoreDefinition, Reload], oracle, n + |halt|) else [];
    RestoredIs(oracle, n + |halt|);
    NothingIsWell();
    LastOfOne(halt, canonical);
    RestoringSaysNothing(halt, restored, canonical);
    HaltIsCautious(halt, restored, canonical, hasRecord || mutated, stopped);
    if !Well(restored) {
      AbortedLater(halt, restored);
    }
    UntilShape([RestoreRuntime, RestoreDefinition, Reload], oracle, n + |halt|);
    hide NothingStarted, StartsOnly, Restoring;
    LastWordOfRevival(
      canonical, hasRecord, mutated, existing, disabled, stopped, oracle, n + |halt| + |restored|, halt + restored);
  }

  /** A canonical service whose files changed is disabled before they are put back. */
  ghost predicate HaltsFirst(es: seq<Entry>, canonical: Id, hasRecord: bool) {
    && es != []
    && es[0].command == Disable(canonical)
    && (hasRecord ==>
          && |es| >= 4
          && es[1].command == RestoreRuntime && es[2].command == RestoreDefinition && es[3].command == Reload)
  }

  /**
   * A failed installation whose restore of the files did not fail: a canonical service whose files changed is
   * disabled first. If a legacy one came back, it is left disabled; if not, a recorded one is started where it had
   * been stopped, and enabled where its files changed.
   */
  lemma {:induction false} LastWordOfFailedInstall(
      canonical: Id, hasRecord: bool, existing: seq<Id>, oracle: Oracle, n: nat)
    requires canonical !in existing
    requires var r := InstallService(canonical, hasRecord, existing, oracle, n); !r.committed && !Aborted(r.rollback)
    ensures var r := InstallService(canonical, hasRecord, existing, oracle, n);
            var mutated := Issued(r.forward, InstallRuntime);
            var stopped := DoneIn(r.forward, Quiesce(canonical));
            && InstallEnds(r.rollback, canonical, hasRecord, mutated, stopped)
            && (mutated ==> HaltsFirst(r.rollback, canonical, hasRecord))
  {
    hide Stopped, Program, RetireProgram, Until, InstallRollback, Well, Aborted, LastAbout, LegacyCameBack, Issued, DoneIn;
    var r := InstallService(canonical, hasRecord, existing, oracle, n);
    var stopped := StoppedForInstall(r.forward, canonical, hasRecord);
    var mutated := |r.forward| > QuietCount(hasRecord, existing);
    WhatWasDone(canonical, hasRecord, existing, oracle, n);
    LastWordOfInstall(
      canonical, hasRecord, mutated, existing,
      DisabledCount(r.forward, |Backups(hasRecord)| + 1 + |existing|, |existing|), stopped, oracle, n + |r.forward|);
  }

  /** The canonical files changed once more than the quiet commands were issued. */
  lemma {:induction false} WhatWasDone(canonical: Id, hasRecord: bool, existing: seq<Id>, oracle: Oracle, n: nat)
    requires !InstallService(canonical, hasRecord, existing, oracle, n).committed
    ensures var r := InstallService(canonical, hasRecord, existing, oracle, n);
            && (Issued(r.forward, InstallRuntime) <==> |r.forward| > QuietCount(hasRecord, existing))
            && (canonical in StoppedForInstall(r.forward, canonical, hasRecord) <==>
                  hasRecord && DoneIn(r.forward, Quiesce(canonical)))
  {
    hide Until, Well, Program;
    var before, quiesced, after := Backups(hasRecord), [canonical] + existing, InstallMutation(canonical);
    var p := Program(before, quiesced, existing, after);
    var es := InstallService(canonical, hasRecord, existing, oracle, n).forward;
    ProgramPlaces(before, quiesced, existing, after);
    UntilShape(p, oracle, n);
    var q := QuietCount(hasRecord, existing);
    forall i | 0 <= i < q ensures p[i] != InstallRuntime {
      QuietAre(p, before, quiesced, existing, after, i);
    }
    if |es| > q {
      assert p[q + 0] == after[0];
      assert es[q].command == InstallRuntime;
    }
    if i :| 0 <= i < |es| && es[i] == Entry(Quiesce(canonical), Done) {
      assert es[i].command.id in Stopped(es);
    }
    if canonical in Stopped(es) {
      var i :| 0 <= i < |es| && es[i].command.Quiesce? && es[i].outcome.Done? && es[i].command.id == canonical;
      assert es[i] == Entry(Quiesce(canonical), Done);
    }
  }

  lemma QuietAre(
      p: seq<Command>, before: seq<Command>, quiesced: seq<Id>, existing: seq<Id>, after: seq<Command>, i: nat)
    requires p == Program(before, quiesced, existing, after) && i < |before| + |quiesced| + |existing| <= |p|
    ensures p[i] in before || p[i].Quiesce? || p[i].Disable?
  {
    hide Program;
    ProgramPlaces(before, quiesced, existing, after);
    var q := |before| + |quiesced|;
    if |before| <= i < q {
      assert p[|before| + (i - |before|)] == Quiesce(quiesced[i - |before|]);
    } else if q <= i {
      assert p[q + (i - q)] == Disable(existing[i - q]);
    }
  }

  /** The quiesce really stopped something. */
  ghost predicate DoneIn(es: seq<Entry>, c: Command) {
    exists i :: 0 <= i < |es| && es[i] == Entry(c, Done)
  }
}
