/**
 * Starting or installing the canonical service on Linux and Windows: legacy services are stopped and disabled
 * first, and a failure before the commit brings at most one of the stopped services back.
 */
module LegacyRollback {
  import opened Wrappers
  import Sequences

  type Id = string

  /** `Disable` also stops on Linux, and `EnableNow` also starts; on Windows `Start` runs the task. */
  datatype Command =
    | Quiesce(id: Id)
    | Start(id: Id)
    | EnableNow(id: Id)
    | Enable(id: Id)
    | Disable(id: Id)
    | Stop(id: Id)
    | AwaitReady(id: Id)
    | Discard(id: Id)
    | StageBackups
    | InstallRuntime
    | InstallDefinition
    | Reload
    | WriteRecord
    | RestoreRuntime
    | RestoreDefinition
    | RemoveRecords

  /** A quiesce that finds nothing running does `Nothing`. */
  datatype Outcome = Done | Nothing | Failed

  datatype Entry = Entry(command: Command, outcome: Outcome)

  /** The outcome of the nth command. */
  type Oracle = nat -> Outcome

  function Target(c: Command): Option<Id> {
    match c
    case Quiesce(id) => Some(id)
    case Start(id) => Some(id)
    case EnableNow(id) => Some(id)
    case Enable(id) => Some(id)
    case Disable(id) => Some(id)
    case Stop(id) => Some(id)
    case AwaitReady(id) => Some(id)
    case Discard(id) => Some(id)
    case _ => None
  }

  predicate Starts(c: Command) {
    c.Start? || c.EnableNow?
  }

  /** A start that succeeded. */
  predicate Started(e: Entry) {
    Starts(e.command) && !e.outcome.Failed?
  }

  // ----- Forward: stop at the first failure -----

  function Until(cs: seq<Command>, oracle: Oracle, n: nat): seq<Entry>
    decreases |cs|
  {
    if cs == [] then []
    else if oracle(n).Failed? then [Entry(cs[0], Failed)]
    else [Entry(cs[0], oracle(n))] + Until(cs[1..], oracle, n + 1)
  }

  predicate Well(es: seq<Entry>) {
    es == [] || !es[|es| - 1].outcome.Failed?
  }

  lemma {:induction false} UntilShape(cs: seq<Command>, oracle: Oracle, n: nat)
    ensures var es := Until(cs, oracle, n);
            && |es| <= |cs| && (Well(es) ==> |es| == |cs|)
            && (forall i :: 0 <= i < |es| ==> es[i].command == cs[i] && es[i].outcome == oracle(n + i))
            && (forall i :: 0 <= i < |es| - 1 ==> !es[i].outcome.Failed?)
    decreases |cs|
  {
    if cs != [] {
      UntilShape(cs[1..], oracle, n + 1);
      var es, rest := Until(cs, oracle, n), Until(cs[1..], oracle, n + 1);
      if !oracle(n).Failed? {
        assert es[1..] == rest;
        forall i | 0 <= i < |es|
          ensures es[i].command == cs[i] && es[i].outcome == oracle(n + i) && (i < |es| - 1 ==> !es[i].outcome.Failed?)
        {
          if i > 0 {
            assert es[i] == rest[i - 1];
            assert cs[i] == cs[1..][i - 1];
          }
        }
      }
    }
  }

  lemma {:induction false} UntilAppend(a: seq<Command>, b: seq<Command>, oracle: Oracle, n: nat)
    ensures Until(a + b, oracle, n) ==
            if Well(Until(a, oracle, n)) then Until(a, oracle, n) + Until(b, oracle, n + |a|) else Until(a, oracle, n)
    decreases |a|
  {
    if a == [] {
      assert a + b == b;
      assert [] + Until(b, oracle, n) == Until(b, oracle, n);
    } else {
      hide Well;
      assert (a + b)[1..] == a[1..] + b && (a + b)[0] == a[0];
      UntilAppend(a[1..], b, oracle, n + 1);
      var first, rest := Entry(a[0], oracle(n)), Until(a[1..], oracle, n + 1);
      WellFirst(first, rest);
      WellFirst(first, []);
      Sequences.Assoc([first], rest, Until(b, oracle, n + |a|));
    }
  }

  lemma WellFirst(e: Entry, rest: seq<Entry>)
    ensures rest != [] || !e.outcome.Failed? ==> (Well([e] + rest) <==> Well(rest))
    ensures e.outcome.Failed? ==> !Well([e])
  {
  }

  /** The services that a quiesce really stopped. */
  function Stopped(es: seq<Entry>): set<Id> {
    set i | 0 <= i < |es| && es[i].command.Quiesce? && es[i].outcome.Done? :: es[i].command.id
  }

  function Each(ids: seq<Id>, f: Id -> Command): seq<Command> {
    seq(|ids|, i requires 0 <= i < |ids| => f(ids[i]))
  }

  /** How many of the legacy services were disabled or at least asked to be, given what came before them. */
  function DisabledCount(es: seq<Entry>, before: nat, all: nat): nat {
    if |es| <= before then 0 else if |es| - before < all then |es| - before else all
  }

  // ----- Bringing one stopped service back -----

  datatype How = ByEnableNow | ByStart | ByEnableAndStart

  function GiveUp(id: Id, oracle: Oracle, n: nat): seq<Entry> {
    [Entry(Disable(id), oracle(n))]
  }

  /** Tries to bring one service back; a service that does not come back is disabled. */
  function Attempt(id: Id, how: How, oracle: Oracle, n: nat): seq<Entry> {
    match how
    case ByEnableNow =>
      [Entry(EnableNow(id), oracle(n))] + (if oracle(n).Failed? then GiveUp(id, oracle, n + 1) else [])
    case ByStart =>
      [Entry(Start(id), oracle(n))] + (if oracle(n).Failed? then GiveUp(id, oracle, n + 1) else [])
    case ByEnableAndStart =>
      if oracle(n).Failed? then
        [Entry(Enable(id), oracle(n))] + GiveUp(id, oracle, n + 1)
      else
        [Entry(Enable(id), oracle(n)), Entry(Start(id), oracle(n + 1))]
        + (if oracle(n + 1).Failed? then GiveUp(id, oracle, n + 2) else [])
  }

  /** The service that came back, if the entries end with that. */
  function Winner(es: seq<Entry>): Option<Id> {
    if es != [] && Started(es[|es| - 1]) then Some(es[|es| - 1].command.id) else None
  }

  /** Tries one service after the other until one comes back. */
  function Try(ids: seq<Id>, how: How, oracle: Oracle, n: nat): seq<Entry>
    decreases |ids|
  {
    if ids == [] then
      []
    else
      var first := Attempt(ids[0], how, oracle, n);
      if Winner(first).Some? then first else first + Try(ids[1..], how, oracle, n + |first|)
  }

  /** The stopped services of a list that are not excepted, last one first. */
  function LastFirst(ids: seq<Id>, stopped: set<Id>, except: set<Id>): seq<Id> {
    if ids == [] then
      []
    else
      var last := ids[|ids| - 1];
      (if last in stopped && last !in except then [last] else []) + LastFirst(ids[..|ids| - 1], stopped, except)
  }

  function SetOf(ids: seq<Id>): set<Id> {
    set id | id in ids
  }

  /** Services that were disabled come back enabled; failing those, one that was only stopped is started. */
  function Revive(
      existing: seq<Id>, disabled: nat, stopped: set<Id>, skipDisabled: bool, how: How, oracle: Oracle, n: nat): seq<Entry>
    requires disabled <= |existing|
  {
    var first := if skipDisabled then [] else Try(LastFirst(existing[..disabled], stopped, {}), how, oracle, n);
    if Winner(first).Some? then
      first
    else
      first + Try(LastFirst(existing, stopped, SetOf(existing[..disabled])), ByStart, oracle, n + |first|)
  }

  // ----- The three operations -----

  datatype Record = Record(forward: seq<Entry>, rollback: seq<Entry>, committed: bool)

  /** Quiesce, then disable, then what this operation adds. */
  function Program(before: seq<Command>, quiesced: seq<Id>, existing: seq<Id>, after: seq<Command>): seq<Command> {
    before + (Each(quiesced, id => Quiesce(id)) + (Each(existing, id => Disable(id)) + after))
  }

  function WithCanonical(canonical: Id, restart: bool, existing: seq<Id>): seq<Id> {
    (if restart then [canonical] else []) + existing
  }

  function Restart(canonical: Id, restart: bool, windows: bool): seq<Command> {
    if !restart then []
    else if windows then [Enable(canonical), Start(canonical), AwaitReady(canonical)]
    else [Start(canonical), AwaitReady(canonical)]
  }

  function StartProgram(canonical: Id, restart: bool, existing: seq<Id>, windows: bool): seq<Command> {
    Program([], WithCanonical(canonical, restart, existing), existing, Restart(canonical, restart, windows))
  }

  /** After the commit the legacy services are removed. */
  function RetireProgram(existing: seq<Id>, windows: bool): seq<Command> {
    Each(existing, id => Discard(id))
    + (if windows then [] else if existing == [] then [RemoveRecords] else [Reload, RemoveRecords])
  }

  function StartLinuxRollback(
      canonical: Id, restart: bool, existing: seq<Id>, disabled: nat, stopped: set<Id>, oracle: Oracle, n: nat): seq<Entry>
    requires disabled <= |existing|
  {
    var halt := if restart then [Entry(Stop(canonical), oracle(n))] else [];
    var revived := Revive(existing, disabled, stopped, canonical in stopped, ByEnableNow, oracle, n + |halt|);
    var m := n + |halt| + |revived|;
    halt + revived
    + (if !restart then []
       else if Winner(revived).Some? then [Entry(Disable(canonical), oracle(m))]
       else if canonical in stopped then [Entry(Start(canonical), oracle(m))]
       else [])
  }

  function StartWindowsRollback(
      canonical: Id, restart: bool, existing: seq<Id>, disabled: nat, stopped: set<Id>, oracle: Oracle, n: nat): seq<Entry>
    requires disabled <= |existing|
  {
    var halt := if restart then [Entry(Disable(canonical), oracle(n))] else [];
    var revived := Revive(existing, disabled, stopped, canonical in stopped, ByEnableAndStart, oracle, n + |halt|);
    var m := n + |halt| + |revived|;
    halt + revived
    + (if !restart || Winner(revived).Some? then []
       else [Entry(Enable(canonical), oracle(m))]
            + (if canonical in stopped then [Entry(Start(canonical), oracle(m + 1))] else []))
  }

  function StartRollback(
      canonical: Id, restart: bool, existing: seq<Id>, windows: bool, disabled: nat, stopped: set<Id>, oracle: Oracle, n: nat)
    : seq<Entry>
    requires disabled <= |existing|
  {
    if windows then StartWindowsRollback(canonical, restart, existing, disabled, stopped, oracle, n)
    else StartLinuxRollback(canonical, restart, existing, disabled, stopped, oracle, n)
  }

  function StartService(canonical: Id, restart: bool, existing: seq<Id>, windows: bool, oracle: Oracle, n: nat): Record {
    var forward := Until(StartProgram(canonical, restart, existing, windows), oracle, n);
    if Well(forward) then
      Record(forward + Until(RetireProgram(existing, windows), oracle, n + |forward|), [], true)
    else
      var disabled := DisabledCount(forward, |WithCanonical(canonical, restart, existing)|, |existing|);
      var m := n + |forward|;
      Record(
        forward,
        StartRollback(canonical, restart, existing, windows, disabled, Stopped(forward), oracle, m),
        false)
  }

  function Backups(hasRecord: bool): seq<Command> {
    if hasRecord then [StageBackups] else []
  }

  function InstallMutation(canonical: Id): seq<Command> {
    [InstallRuntime, InstallDefinition, Reload, EnableNow(canonical), AwaitReady(canonical), WriteRecord]
  }

  /** After the halt: the legacy services unless the canonical one was stopped, then the canonical one. */
  function InstallRevival(
      canonical: Id, hasRecord: bool, mutated: bool, existing: seq<Id>, disabled: nat, stopped: set<Id>, oracle: Oracle, n: nat)
    : (seq<Entry>, seq<Entry>)
    requires disabled <= |existing|
  {
    var again := hasRecord && canonical in stopped;
    var revived := if again then [] else Revive(existing, disabled, stopped, false, ByEnableNow, oracle, n);
    var k := n + |revived|;
    (revived,
     if !hasRecord then []
     else if Winner(revived).Some? then [Entry(Disable(canonical), oracle(k))]
     else if mutated then [Entry(if again then EnableNow(canonical) else Enable(canonical), oracle(k))]
     else if again then [Entry(Start(canonical), oracle(k))]
     else [])
  }

  function InstallRollback(
      canonical: Id, hasRecord: bool, mutated: bool, existing: seq<Id>, disabled: nat, stopped: set<Id>, oracle: Oracle, n: nat)
    : seq<Entry>
    requires disabled <= |existing|
  {
    var halt := if mutated then [Entry(Disable(canonical), oracle(n))] else [];
    var restored :=
      if hasRecord && mutated then Until([RestoreRuntime, RestoreDefinition, Reload], oracle, n + |halt|) else [];
    if !Well(restored) then
      halt + restored
    else
      var (revived, end) :=
        InstallRevival(canonical, hasRecord, mutated, existing, disabled, stopped, oracle, n + |halt| + |restored|);
      halt + restored + revived + end
  }

  /** A canonical service without a record is quiesced, but never counts as stopped. */
  function StoppedForInstall(es: seq<Entry>, canonical: Id, hasRecord: bool): set<Id> {
    if hasRecord then Stopped(es) else Stopped(es) - {canonical}
  }

  /** How many commands come before the canonical files change. */
  function QuietCount(hasRecord: bool, existing: seq<Id>): nat {
    |Backups(hasRecord)| + 1 + |existing| + |existing|
  }

  function InstallService(canonical: Id, hasRecord: bool, existing: seq<Id>, oracle: Oracle, n: nat): Record {
    var forward := Until(Program(Backups(hasRecord), [canonical] + existing, existing, InstallMutation(canonical)), oracle, n);
    if Well(forward) then
      Record(forward + Until(RetireProgram(existing, false), oracle, n + |forward|), [], true)
    else
      Record(
        forward,
        InstallRollback(
          canonical, hasRecord, |forward| > QuietCount(hasRecord, existing), existing,
          DisabledCount(forward, |Backups(hasRecord)| + 1 + |existing|, |existing|),
          StoppedForInstall(forward, canonical, hasRecord), oracle, n + |forward|),
        false)
  }

  // ----- What every rollback guarantees -----

  /** The command asks for a service to come back. */
  predicate Asks(c: Command, id: Id) {
    c == Start(id) || c == EnableNow(id) || c == Enable(id)
  }

  ghost predicate Tried(es: seq<Entry>, id: Id) {
    exists i :: 0 <= i < |es| && Asks(es[i].command, id)
  }

  /** Only the last entry may be a start that succeeded. */
  predicate QuietUntilLast(es: seq<Entry>) {
    forall i :: 0 <= i < |es| - 1 ==> !Started(es[i])
  }

  predicate OneStart(es: seq<Entry>) {
    forall i, j :: 0 <= i < j < |es| && Started(es[i]) ==> !Started(es[j])
  }

  /** Whatever is asked or told concerns these services only. */
  predicate AboutOnly(es: seq<Entry>, ids: set<Id>) {
    forall i :: 0 <= i < |es| ==> Target(es[i].command).Some? && Target(es[i].command).value in ids
  }

  predicate StartsOnly(es: seq<Entry>, ids: set<Id>) {
    forall i :: 0 <= i < |es| && Starts(es[i].command) ==> es[i].command.id in ids
  }

  function LastAbout(es: seq<Entry>, id: Id): Option<Command> {
    if es == [] then None
    else if Target(es[|es| - 1].command) == Some(id) then Some(es[|es| - 1].command)
    else LastAbout(es[..|es| - 1], id)
  }

  ghost predicate LegacyCameBack(es: seq<Entry>, canonical: Id) {
    exists i :: 0 <= i < |es| && Started(es[i]) && es[i].command.id != canonical
  }

  /**
   * At most one start succeeds; only services that this call stopped are started; when a legacy service came back
   * the last word about the canonical one is that it is disabled; and a commit is never rolled back.
   */
  ghost predicate Safe(r: Record, canonical: Id, replaced: bool) {
    && Cautious(r.rollback, canonical, replaced, Stopped(r.forward))
    && (r.committed ==> r.rollback == [])
  }

  ghost predicate Cautious(es: seq<Entry>, canonical: Id, replaced: bool, stopped: set<Id>) {
    && OneStart(es)
    && StartsOnly(es, stopped)
    && (replaced && LegacyCameBack(es, canonical) ==> LastAbout(es, canonical) == Some(Disable(canonical)))
  }

  /** The entries concern these services, and either the last one brought one back or all of them were tried. */
  ghost predicate Course(es: seq<Entry>, ids: set<Id>, due: set<Id>) {
    QuietUntilLast(es) && AboutOnly(es, ids) && (Winner(es).None? ==> forall id :: id in due ==> Tried(es, id))
  }

  lemma AttemptIs(id: Id, how: How, oracle: Oracle, n: nat)
    ensures var es := Attempt(id, how, oracle, n);
            && es != [] && Course(es, {id}, {id})
            && (Winner(es).None? ==> es[|es| - 1].command == Disable(id))
  {
    var es := Attempt(id, how, oracle, n);
    assert Asks(es[0].command, id);
  }

  lemma TriedMore(a: seq<Entry>, b: seq<Entry>, id: Id)
    requires Tried(a, id) || Tried(b, id)
    ensures Tried(a + b, id)
  {
    if i :| 0 <= i < |a| && Asks(a[i].command, id) {
      assert Asks((a + b)[i].command, id);
    } else {
      var j :| 0 <= j < |b| && Asks(b[j].command, id);
      assert Asks((a + b)[|a| + j].command, id);
    }
  }

  lemma WinnerOfBoth(a: seq<Entry>, b: seq<Entry>)
    requires Winner(a).None?
    ensures Winner(a + b) == Winner(b)
  {
    if b == [] {
      assert a + b == a;
    }
  }

  /** A course that brought nobody back may be followed by another one. */
  lemma CourseGoesOn(a: seq<Entry>, b: seq<Entry>, ids: set<Id>, due: set<Id>, ids2: set<Id>, due2: set<Id>)
    requires Course(a, ids, due) && Winner(a).None? && Course(b, ids2, due2)
    ensures Course(a + b, ids + ids2, due + due2)
  {
    WinnerOfBoth(a, b);
    forall i | 0 <= i < |a + b| - 1 ensures !Started((a + b)[i]) {
      if i == |a| - 1 {
        assert !Started(a[|a| - 1]);
      }
    }
    if Winner(b).None? {
      forall id | id in due + due2 ensures Tried(a + b, id) {
        TriedMore(a, b, id);
      }
    }
  }

  lemma WiderCourse(es: seq<Entry>, ids: set<Id>, due: set<Id>, wider: set<Id>, narrower: set<Id>)
    requires Course(es, ids, due) && ids <= wider && narrower <= due
    ensures Course(es, wider, narrower)
  {
  }

  lemma NoCourse()
    ensures Course([], {}, {})
  {
  }

  lemma NothingIn(ids: seq<Id>)
    requires ids == []
    ensures SetOf(ids) == {}
  {
  }

  lemma SetOfFirst(ids: seq<Id>)
    requires ids != []
    ensures SetOf(ids) == {ids[0]} + SetOf(ids[1..])
  {
    assert forall id :: id in ids <==> id == ids[0] || id in ids[1..];
  }

  /** Trying in order ends with the first service that comes back; if none does, all were tried. */
  lemma {:induction false} TryIs(ids: seq<Id>, how: How, oracle: Oracle, n: nat)
    ensures Course(Try(ids, how, oracle, n), SetOf(ids), SetOf(ids))
    decreases |ids|
  {
    hide Attempt, Course, SetOf, Winner;
    NoCourse();
    if ids == [] {
      NothingIn(ids);
    } else {
      var first, rest := Attempt(ids[0], how, oracle, n), ids[1..];
      AttemptIs(ids[0], how, oracle, n);
      SetOfFirst(ids);
      if Winner(first).None? {
        TryIs(rest, how, oracle, n + |first|);
        CourseGoesOn(first, Try(rest, how, oracle, n + |first|), {ids[0]}, {ids[0]}, SetOf(rest), SetOf(rest));
      } else {
        WonCourse(first, {ids[0]}, {ids[0]}, SetOf(ids), SetOf(ids));
      }
    }
  }

  lemma WonCourse(es: seq<Entry>, ids: set<Id>, due: set<Id>, wider: set<Id>, any: set<Id>)
    requires Course(es, ids, due) && ids <= wider && Winner(es).Some?
    ensures Course(es, wider, any)
  {
  }

  lemma {:induction false} LastFirstAre(ids: seq<Id>, stopped: set<Id>, except: set<Id>)
    ensures forall id :: id in LastFirst(ids, stopped, except) <==> id in ids && id in stopped && id !in except
    decreases |ids|
  {
    if ids != [] {
      LastFirstAre(ids[..|ids| - 1], stopped, except);
      assert ids == ids[..|ids| - 1] + [ids[|ids| - 1]];
    }
  }

  /** The stopped legacy services that a failed operation owes a try. */
  function Due(existing: seq<Id>, disabled: nat, stopped: set<Id>, skipDisabled: bool): set<Id>
    requires disabled <= |existing|
  {
    set id | id in existing && id in stopped && (skipDisabled ==> id !in existing[..disabled])
  }

  lemma DueSplit(existing: seq<Id>, disabled: nat, stopped: set<Id>, skipDisabled: bool)
    requires disabled <= |existing|
    ensures var a := SetOf(LastFirst(existing[..disabled], stopped, {}));
            var b := SetOf(LastFirst(existing, stopped, SetOf(existing[..disabled])));
            && a <= SetOf(existing) * stopped && b <= SetOf(existing) * stopped
            && Due(existing, disabled, stopped, skipDisabled) <= (if skipDisabled then {} else a) + b
  {
    LastFirstAre(existing[..disabled], stopped, {});
    LastFirstAre(existing, stopped, SetOf(existing[..disabled]));
  }

  /** Reviving concerns stopped legacy services only, and gives up only after trying every one it may. */
  lemma ReviveIs(existing: seq<Id>, disabled: nat, stopped: set<Id>, skipDisabled: bool, how: How, oracle: Oracle, n: nat)
    requires disabled <= |existing|
    ensures Course(
              Revive(existing, disabled, stopped, skipDisabled, how, oracle, n),
              SetOf(existing) * stopped, Due(existing, disabled, stopped, skipDisabled))
  {
    hide Course, Try, Due, SetOf, LastFirst, Winner;
    var a, b := LastFirst(existing[..disabled], stopped, {}), LastFirst(existing, stopped, SetOf(existing[..disabled]));
    DueSplit(existing, disabled, stopped, skipDisabled);
    var all, due := SetOf(existing) * stopped, Due(existing, disabled, stopped, skipDisabled);
    var first := if skipDisabled then [] else Try(a, how, oracle, n);
    var owed := if skipDisabled then {} else SetOf(a);
    NoCourse();
    TryIs(a, how, oracle, n);
    TryIs(b, ByStart, oracle, n + |first|);
    assert Course(first, owed, owed);
    if Winner(first).None? {
      var second := Try(b, ByStart, oracle, n + |first|);
      CourseGoesOn(first, second, owed, owed, SetOf(b), SetOf(b));
      WiderCourse(first + second, owed + SetOf(b), owed + SetOf(b), all, due);
    } else {
      WonCourse(first, owed, owed, all, due);
    }
  }

  /** The service at this place was stopped, and none after it was, as far as they are eligible. */
  predicate LastStopped(ids: seq<Id>, stopped: set<Id>, except: set<Id>, i: nat)
    requires i < |ids|
  {
    ids[i] in stopped && ids[i] !in except && forall j :: i < j < |ids| ==> !(ids[j] in stopped && ids[j] !in except)
  }

  lemma {:induction false} LastFirstBegins(ids: seq<Id>, stopped: set<Id>, except: set<Id>, i: nat)
    requires i < |ids| && LastStopped(ids, stopped, except, i)
    ensures LastFirst(ids, stopped, except) != [] && LastFirst(ids, stopped, except)[0] == ids[i]
    decreases |ids|
  {
    if i < |ids| - 1 {
      assert ids[..|ids| - 1][i] == ids[i];
      LastFirstBegins(ids[..|ids| - 1], stopped, except, i);
    }
  }

  lemma FirstTriedComesBack(ids: seq<Id>, how: How, oracle: Oracle, n: nat)
    requires ids != [] && !oracle(n).Failed? && !oracle(n + 1).Failed?
    ensures Winner(Try(ids, how, oracle, n)) == Some(ids[0])
  {
    var es := Attempt(ids[0], how, oracle, n);
    assert Started(es[|es| - 1]) && es[|es| - 1].command.id == ids[0];
  }

  lemma {:induction false} NobodyStopped(ids: seq<Id>, stopped: set<Id>, except: set<Id>)
    requires forall j :: 0 <= j < |ids| ==> ids[j] !in stopped || ids[j] in except
    ensures LastFirst(ids, stopped, except) == []
    decreases |ids|
  {
    if ids != [] {
      NobodyStopped(ids[..|ids| - 1], stopped, except);
    }
  }

  lemma NothingToTry(how: How, oracle: Oracle, n: nat)
    ensures Try([], how, oracle, n) == [] && Winner([]).None?
  {
  }

  /** When starts succeed, the service that comes back is the last one that was stopped, disabled ones first. */
  lemma LastStoppedComesBack(existing: seq<Id>, disabled: nat, stopped: set<Id>, how: How, oracle: Oracle, n: nat, i: nat)
    requires disabled <= |existing| && !oracle(n).Failed? && !oracle(n + 1).Failed?
    requires if i < disabled then LastStopped(existing[..disabled], stopped, {}, i)
             else i < |existing| && LastStopped(existing, stopped, SetOf(existing[..disabled]), i)
                  && forall j :: 0 <= j < disabled ==> existing[j] !in stopped
    ensures Winner(Revive(existing, disabled, stopped, false, how, oracle, n)) == Some(existing[i])
  {
    hide Try, LastFirst, SetOf, Winner, LastStopped;
    if i < disabled {
      LastFirstBegins(existing[..disabled], stopped, {}, i);
      FirstTriedComesBack(LastFirst(existing[..disabled], stopped, {}), how, oracle, n);
    } else {
      NobodyStopped(existing[..disabled], stopped, {});
      NothingToTry(how, oracle, n);
      LastFirstBegins(existing, stopped, SetOf(existing[..disabled]), i);
      var rest := LastFirst(existing, stopped, SetOf(existing[..disabled]));
      FirstTriedComesBack(rest, ByStart, oracle, n);
      assert [] + Try(rest, ByStart, oracle, n) == Try(rest, ByStart, oracle, n);
    }
  }

  // ----- The rollback of a start -----

  predicate NothingStarted(es: seq<Entry>) {
    forall i :: 0 <= i < |es| ==> !Started(es[i])
  }

  /** Three parts of which only the second or the third can end with a start. */
  lemma PartsStartOnce(a: seq<Entry>, b: seq<Entry>, c: seq<Entry>)
    requires NothingStarted(a) && QuietUntilLast(b) && QuietUntilLast(c)
    requires Winner(b).Some? ==> NothingStarted(c)
    ensures OneStart(a + b + c)
    ensures NothingStarted(a + b + c) ==> Winner(b).None?
  {
    var es := a + b + c;
    forall i, j | 0 <= i < j < |es| && Started(es[i]) ensures !Started(es[j]) {
    }
    if Winner(b).Some? {
      assert es[|a| + |b| - 1] == b[|b| - 1];
    }
  }

  lemma PartsTried(a: seq<Entry>, b: seq<Entry>, c: seq<Entry>, id: Id)
    requires Tried(b, id) || Tried(c, id)
    ensures Tried(a + b + c, id)
  {
    if Tried(b, id) {
      TriedMore(a, b, id);
    }
    TriedMore(a + b, c, id);
  }

  lemma {:induction false} LastAboutSkips(a: seq<Entry>, b: seq<Entry>, ids: set<Id>, id: Id)
    requires AboutOnly(b, ids) && id !in ids
    ensures LastAbout(a + b, id) == LastAbout(a, id)
    decreases |b|
  {
    if b == [] {
      assert a + b == a;
    } else {
      assert (a + b)[..|a + b| - 1] == a + b[..|b| - 1];
      LastAboutSkips(a, b[..|b| - 1], ids, id);
    }
  }

  /**
   * A rollback in three parts: a halt, the legacy services, and the end. It is safe when the end starts only a
   * canonical service that was stopped, and when the last word about a displaced canonical service disables it.
   */
  lemma PartsAreSafe(
      halt: seq<Entry>, revived: seq<Entry>, end: seq<Entry>, ids: set<Id>, due: set<Id>, stopped: set<Id>, canonical: Id)
    requires NothingStarted(halt) && StartsOnly(halt, {}) && Course(revived, ids, due) && ids <= stopped
    requires QuietUntilLast(end) && StartsOnly(end, stopped * {canonical})
    requires Winner(revived).Some? ==> NothingStarted(end)
    requires canonical in stopped ==> Tried(end, canonical) || Winner(revived).Some?
    ensures var es := halt + revived + end;
            && OneStart(es) && StartsOnly(es, stopped)
            && (LegacyCameBack(es, canonical) ==> Winner(revived).Some?)
            && (NothingStarted(es) ==>
                  (canonical in stopped ==> Tried(es, canonical)) && forall id :: id in due ==> Tried(es, id))
  {
    PartsStartOnce(halt, revived, end);
    var es := halt + revived + end;
    if LegacyCameBack(es, canonical) {
    }
    if NothingStarted(es) {
      if canonical in stopped {
        PartsTried(halt, revived, end, canonical);
      }
      forall id | id in due ensures Tried(es, id) {
        PartsTried(halt, revived, end, id);
      }
    }
  }

  /** If nothing could be started, the canonical service was tried, or else every legacy service was. */
  ghost predicate Thorough(es: seq<Entry>, canonical: Id, existing: seq<Id>, stopped: set<Id>) {
    NothingStarted(es) ==>
      if canonical in stopped then Tried(es, canonical) else forall id :: id in existing && id in stopped ==> Tried(es, id)
  }

  lemma {:induction false} StartLinuxRollbackIs(
      canonical: Id, restart: bool, existing: seq<Id>, disabled: nat, stopped: set<Id>, oracle: Oracle, n: nat)
    requires disabled <= |existing| && (canonical in stopped ==> restart)
    ensures var es := StartLinuxRollback(canonical, restart, existing, disabled, stopped, oracle, n);
            Cautious(es, canonical, restart, stopped) && Thorough(es, canonical, existing, stopped)
  {
    hide Revive, Course, LastAbout;
    var halt := if restart then [Entry(Stop(canonical), oracle(n))] else [];
    var revived := Revive(existing, disabled, stopped, canonical in stopped, ByEnableNow, oracle, n + |halt|);
    ReviveIs(existing, disabled, stopped, canonical in stopped, ByEnableNow, oracle, n + |halt|);
    var k := n + |halt| + |revived|;
    var end := if !restart then []
               else if Winner(revived).Some? then [Entry(Disable(canonical), oracle(k))]
               else if canonical in stopped then [Entry(Start(canonical), oracle(k))]
               else [];
    assert canonical in stopped && Winner(revived).None? ==> Asks(end[0].command, canonical);
    var ids, due := SetOf(existing) * stopped, Due(existing, disabled, stopped, canonical in stopped);
    PartsAreSafe(halt, revived, end, ids, due, stopped, canonical);
    var es := halt + revived + end;
    if restart && Winner(revived).Some? {
      EndsWithDisable(halt + revived, canonical, oracle(k));
    }
  }

  lemma EndsWithDisable(es: seq<Entry>, id: Id, o: Outcome)
    ensures LastAbout(es + [Entry(Disable(id), o)], id) == Some(Disable(id))
  {
  }

  lemma DisableStaysLast(halt: seq<Entry>, revived: seq<Entry>, ids: set<Id>, due: set<Id>, id: Id, o: Outcome)
    requires Course(revived, ids, due) && id !in ids && halt == [Entry(Disable(id), o)]
    ensures LastAbout(halt + revived + [], id) == Some(Disable(id))
  {
    LastAboutSkips(halt, revived, ids, id);
    Sequences.Empty(halt + revived);
    EndsWithDisable([], id, o);
    assert [] + halt == halt;
  }

  lemma {:induction false} StartWindowsRollbackIs(
      canonical: Id, restart: bool, existing: seq<Id>, disabled: nat, stopped: set<Id>, oracle: Oracle, n: nat)
    requires disabled <= |existing| && (canonical in stopped ==> restart) && canonical !in existing
    ensures var es := StartWindowsRollback(canonical, restart, existing, disabled, stopped, oracle, n);
            Cautious(es, canonical, restart, stopped) && Thorough(es, canonical, existing, stopped)
  {
    hide Revive, LastAbout, Course, OneStart, LegacyCameBack;
    var halt := if restart then [Entry(Disable(canonical), oracle(n))] else [];
    var revived := Revive(existing, disabled, stopped, canonical in stopped, ByEnableAndStart, oracle, n + |halt|);
    ReviveIs(existing, disabled, stopped, canonical in stopped, ByEnableAndStart, oracle, n + |halt|);
    var k := n + |halt| + |revived|;
    var end := if !restart || Winner(revived).Some? then []
               else [Entry(Enable(canonical), oracle(k))]
                    + (if canonical in stopped then [Entry(Start(canonical), oracle(k + 1))] else []);
    assert canonical in stopped && Winner(revived).None? ==> Asks(end[0].command, canonical);
    var ids, due := SetOf(existing) * stopped, Due(existing, disabled, stopped, canonical in stopped);
    PartsAreSafe(halt, revived, end, ids, due, stopped, canonical);
    if restart && Winner(revived).Some? {
      DisableStaysLast(halt, revived, ids, due, canonical, oracle(n));
    }
  }

  lemma {:induction false} EachIs(ids: seq<Id>, f: Id -> Command)
    ensures |Each(ids, f)| == |ids| && forall i :: 0 <= i < |ids| ==> Each(ids, f)[i] == f(ids[i])
  {
  }

  /** Only what the program quiesces can count as stopped. */
  lemma StoppedByStart(canonical: Id, restart: bool, existing: seq<Id>, windows: bool, oracle: Oracle, n: nat)
    requires canonical !in existing && !restart
    ensures canonical !in Stopped(Until(StartProgram(canonical, restart, existing, windows), oracle, n))
  {
    UntilShape(StartProgram(canonical, restart, existing, windows), oracle, n);
  }

  /**
   * Starting on Linux or Windows, whatever the commands answer: the rollback starts at most one service, and
   * only one this call stopped; a legacy service that came back leaves the canonical one disabled; after the
   * commit nothing is rolled back; and it gives up only after trying what it owes.
   */
  lemma {:induction false} StartIsSafe(canonical: Id, restart: bool, existing: seq<Id>, windows: bool, oracle: Oracle, n: nat)
    requires canonical !in existing
    ensures var r := StartService(canonical, restart, existing, windows, oracle, n);
            && Safe(r, canonical, restart)
            && (!r.committed ==> Thorough(r.rollback, canonical, existing, Stopped(r.forward)))
  {
    hide Stopped, StartProgram, RetireProgram, Until, StartRollback, Cautious, Thorough, Well;
    var r := StartService(canonical, restart, existing, windows, oracle, n);
    if r.committed {
      NothingIsCautious(canonical, restart, Stopped(r.forward));
    } else {
      var disabled := DisabledCount(r.forward, |WithCanonical(canonical, restart, existing)|, |existing|);
      if !restart {
        StoppedByStart(canonical, restart, existing, windows, oracle, n);
      }
      StartRollbackIs(canonical, restart, existing, windows, disabled, Stopped(r.forward), oracle, n + |r.forward|);
    }
  }

  lemma NothingIsCautious(canonical: Id, replaced: bool, stopped: set<Id>)
    ensures Cautious([], canonical, replaced, stopped)
  {
  }

  lemma {:induction false} StartRollbackIs(
      canonical: Id, restart: bool, existing: seq<Id>, windows: bool, disabled: nat, stopped: set<Id>, oracle: Oracle, n: nat)
    requires disabled <= |existing| && (canonical in stopped ==> restart) && canonical !in existing
    ensures var es := StartRollback(canonical, restart, existing, windows, disabled, stopped, oracle, n);
            Cautious(es, canonical, restart, stopped) && Thorough(es, canonical, existing, stopped)
  {
    hide Cautious, Thorough, StartWindowsRollback, StartLinuxRollback;
    if windows {
      StartWindowsRollbackIs(canonical, restart, existing, disabled, stopped, oracle, n);
    } else {
      StartLinuxRollbackIs(canonical, restart, existing, disabled, stopped, oracle, n);
    }
  }

  // ----- When a stopped canonical service gives way -----

  ghost predicate Issued(es: seq<Entry>, c: Command) {
    exists i :: 0 <= i < |es| && es[i].command == c
  }

  /** A legacy service that the call stopped but had not yet asked to be disabled. */
  ghost predicate Overlooked(forward: seq<Entry>, existing: seq<Id>, id: Id) {
    id in existing && id in Stopped(forward) && !Issued(forward, Disable(id))
  }

  /** The services the second loop of the rollback tries, in its order. */
  function SecondLoop(existing: seq<Id>, forward: seq<Entry>): seq<Id> {
    var disabled := DisabledCount(forward, |existing| + 1, |existing|);
    LastFirst(existing, Stopped(forward), SetOf(existing[..disabled]))
  }

  /** A start that fails is followed by a disable, so the k-th service is started by the command 2k further on. */
  predicate AnyStarts(ids: seq<Id>, oracle: Oracle, n: nat) {
    exists k :: 0 <= k < |ids| && !oracle(n + 2 * k).Failed?
  }

  lemma AnyStartsFirst(ids: seq<Id>, oracle: Oracle, n: nat)
    requires ids != []
    ensures AnyStarts(ids, oracle, n) <==> !oracle(n).Failed? || AnyStarts(ids[1..], oracle, n + 2)
  {
    if k :| 0 <= k < |ids| && !oracle(n + 2 * k).Failed? {
      assert k > 0 ==> !oracle(n + 2 + 2 * (k - 1)).Failed?;
    }
    if k :| 0 <= k < |ids[1..]| && !oracle(n + 2 + 2 * k).Failed? {
      assert !oracle(n + 2 * (k + 1)).Failed?;
    }
    assert !oracle(n).Failed? ==> !oracle(n + 2 * 0).Failed?;
  }

  lemma {:induction false} TryStarts(ids: seq<Id>, oracle: Oracle, n: nat)
    ensures Winner(Try(ids, ByStart, oracle, n)).Some? <==> AnyStarts(ids, oracle, n)
    decreases |ids|
  {
    if ids != [] {
      hide AnyStarts;
      AnyStartsFirst(ids, oracle, n);
      if oracle(n).Failed? {
        TryStarts(ids[1..], oracle, n + 2);
        WinnerOfBoth(Attempt(ids[0], ByStart, oracle, n), Try(ids[1..], ByStart, oracle, n + 2));
      }
    }
  }

  lemma StartProgramIs(canonical: Id, existing: seq<Id>, windows: bool)
    ensures var program, quiesced, q := StartProgram(canonical, true, existing, windows), [canonical] + existing, |existing| + 1;
            && |program| >= q + |existing|
            && (forall i :: 0 <= i < q ==> program[i] == Quiesce(quiesced[i]))
            && (forall i :: q <= i < q + |existing| ==> program[i] == Disable(existing[i - q]))
            && (forall i :: q + |existing| <= i < |program| ==> !program[i].Disable?)
  {
    var stops, disables := Each([canonical] + existing, id => Quiesce(id)), Each(existing, id => Disable(id));
    EachIs([canonical] + existing, id => Quiesce(id));
    EachIs(existing, id => Disable(id));
    var after := Restart(canonical, true, windows);
    assert StartProgram(canonical, true, existing, windows) == stops + disables + after;
  }

  lemma {:induction false} AskedToBeDisabled(canonical: Id, existing: seq<Id>, windows: bool, oracle: Oracle, n: nat, id: Id)
    ensures var forward := Until(StartProgram(canonical, true, existing, windows), oracle, n);
            id in existing[..DisabledCount(forward, |existing| + 1, |existing|)] <==> Issued(forward, Disable(id))
  {
    hide StartProgram, Until;
    var forward := Until(StartProgram(canonical, true, existing, windows), oracle, n);
    var q := |existing| + 1;
    StartProgramIs(canonical, existing, windows);
    UntilShape(StartProgram(canonical, true, existing, windows), oracle, n);
    if Issued(forward, Disable(id)) {
      var i :| 0 <= i < |forward| && forward[i].command == Disable(id);
      assert existing[i - q] == id;
    }
    if id in existing[..DisabledCount(forward, q, |existing|)] {
      var j :| 0 <= j < DisabledCount(forward, q, |existing|) && existing[j] == id;
      assert forward[q + j].command == Disable(id);
    }
  }

  lemma CameBackIsWon(canonical: Id, halt: seq<Entry>, revived: seq<Entry>, end: seq<Entry>, ids: set<Id>, due: set<Id>)
    requires NothingStarted(halt) && Course(revived, ids, due) && canonical !in ids
    requires StartsOnly(end, {canonical})
    ensures LegacyCameBack(halt + revived + end, canonical) <==> Winner(revived).Some?
  {
    var es := halt + revived + end;
    assert forall i :: 0 <= i < |es| ==>
      es[i] == if i < |halt| then halt[i]
               else if i < |halt| + |revived| then revived[i - |halt|]
               else end[i - |halt| - |revived|];
    if Winner(revived).Some? {
      var i := |halt| + |revived| - 1;
      assert es[i] == revived[|revived| - 1] && Started(es[i]);
    }
  }

  /** The second loop alone runs, and the end starts the canonical service unless it brought one back. */
  lemma {:induction false} GiveWayParts(
      canonical: Id, windows: bool, ids: seq<Id>, halt: seq<Entry>, revived: seq<Entry>, end: seq<Entry>)
    requires Course(revived, SetOf(ids), SetOf(ids)) && canonical !in ids && NothingStarted(halt)
    requires Winner(revived).Some? ==>
               if windows then end == [] else |end| == 1 && end[0].command == Disable(canonical)
    requires Winner(revived).None? ==>
               && end != [] && end[|end| - 1].command == Start(canonical)
               && forall i :: 0 <= i < |end| - 1 ==> !Starts(end[i].command)
    ensures var es := halt + revived + end;
            && es != []
            && (LegacyCameBack(es, canonical) <==> Winner(revived).Some?)
            && (es[|es| - 1].command == Start(canonical) <==> Winner(revived).None?)
  {
    CameBackIsWon(canonical, halt, revived, end, SetOf(ids), SetOf(ids));
    hide LegacyCameBack, Course;
    var es := halt + revived + end;
    if Winner(revived).Some? {
      WonIsAbout(revived, SetOf(ids), SetOf(ids));
      if windows {
        assert es[|es| - 1] == revived[|revived| - 1];
      } else {
        assert es[|es| - 1] == end[0];
      }
    } else {
      assert es[|es| - 1] == end[|end| - 1];
    }
  }

  /** The rollback of a start that had stopped the canonical service: one halt, the second loop, an end. */
  lemma {:induction false} GiveWayIs(
      canonical: Id, existing: seq<Id>, windows: bool, disabled: nat, stopped: set<Id>, oracle: Oracle, n: nat)
    requires disabled <= |existing| && canonical in stopped && canonical !in existing
    ensures var es := StartRollback(canonical, true, existing, windows, disabled, stopped, oracle, n);
            && es != []
            && (LegacyCameBack(es, canonical) <==>
                  AnyStarts(LastFirst(existing, stopped, SetOf(existing[..disabled])), oracle, n + 1))
            && (es[|es| - 1].command == Start(canonical) <==> !LegacyCameBack(es, canonical))
  {
    hide Try, LastFirst, LegacyCameBack, AnyStarts, Course, SetOf;
    var ids := LastFirst(existing, stopped, SetOf(existing[..disabled]));
    var revived := Try(ids, ByStart, oracle, n + 1);
    assert [] + revived == revived;
    var how := if windows then ByEnableAndStart else ByEnableNow;
    assert Revive(existing, disabled, stopped, true, how, oracle, n + 1) == revived;
    TryStarts(ids, oracle, n + 1);
    TryIs(ids, ByStart, oracle, n + 1);
    LastFirstAre(existing, stopped, SetOf(existing[..disabled]));
    var halt := [Entry(if windows then Disable(canonical) else Stop(canonical), oracle(n))];
    var m := n + 1 + |revived|;
    var end :=
      if Winner(revived).Some? then
        if windows then [] else [Entry(Disable(canonical), oracle(m))]
      else if windows then
        [Entry(Enable(canonical), oracle(m)), Entry(Start(canonical), oracle(m + 1))]
      else
        [Entry(Start(canonical), oracle(m))];
    assert StartRollback(canonical, true, existing, windows, disabled, stopped, oracle, n) == halt + revived + end;
    GiveWayParts(canonical, windows, ids, halt, revived, end);
  }

  lemma WonIsAbout(es: seq<Entry>, ids: set<Id>, due: set<Id>)
    requires Course(es, ids, due) && Winner(es).Some?
    ensures Winner(es).value in ids && Winner(es) == Target(es[|es| - 1].command)
  {
  }

  /**
   * A start fails after it had stopped the canonical service, on either platform, for any list and any outcomes.
   * The second loop of the rollback tries exactly the overlooked services. The canonical service gives way to a
   * legacy one if and only if one of those starts succeeds; otherwise the last command starts it again.
   */
  lemma StoppedCanonicalGivesWayExactly(canonical: Id, existing: seq<Id>, windows: bool, oracle: Oracle, n: nat)
    requires canonical !in existing
    requires var r := StartService(canonical, true, existing, windows, oracle, n);
             !r.committed && canonical in Stopped(r.forward)
    ensures var r := StartService(canonical, true, existing, windows, oracle, n);
            && (forall id :: id in SecondLoop(existing, r.forward) <==> Overlooked(r.forward, existing, id))
            && (LegacyCameBack(r.rollback, canonical) <==>
                  AnyStarts(SecondLoop(existing, r.forward), oracle, n + |r.forward| + 1))
            && (LegacyCameBack(r.rollback, canonical) <==>
                  r.rollback[|r.rollback| - 1].command != Start(canonical))
  {
    hide Until, StartRollback, Stopped, LastFirst, AnyStarts, LegacyCameBack, Issued, StartProgram;
    var r := StartService(canonical, true, existing, windows, oracle, n);
    var disabled := DisabledCount(r.forward, |existing| + 1, |existing|);
    LastFirstAre(existing, Stopped(r.forward), SetOf(existing[..disabled]));
    forall id ensures id in existing[..disabled] <==> Issued(r.forward, Disable(id)) {
      AskedToBeDisabled(canonical, existing, windows, oracle, n, id);
    }
    GiveWayIs(canonical, existing, windows, disabled, Stopped(r.forward), oracle, n + |r.forward|);
  }

  /** Once every stopped legacy service has been asked to be disabled, a stopped canonical service never gives way. */
  lemma DisabledLegacyNeverWins(canonical: Id, existing: seq<Id>, windows: bool, oracle: Oracle, n: nat)
    requires canonical !in existing
    requires var r := StartService(canonical, true, existing, windows, oracle, n);
             && !r.committed && canonical in Stopped(r.forward)
             && forall id :: id in existing && id in Stopped(r.forward) ==> Issued(r.forward, Disable(id))
    ensures var r := StartService(canonical, true, existing, windows, oracle, n);
            !LegacyCameBack(r.rollback, canonical) && r.rollback[|r.rollback| - 1].command == Start(canonical)
  {
    hide Until, Stopped, LastFirst, LegacyCameBack, Issued, StartProgram, StartRollback;
    StoppedCanonicalGivesWayExactly(canonical, existing, windows, oracle, n);
    var r := StartService(canonical, true, existing, windows, oracle, n);
    var disabled := existing[..DisabledCount(r.forward, |existing| + 1, |existing|)];
    forall j | 0 <= j < |existing| ensures existing[j] !in Stopped(r.forward) || existing[j] in SetOf(disabled) {
      AskedToBeDisabled(canonical, existing, windows, oracle, n, existing[j]);
    }
    NobodyStopped(existing, Stopped(r.forward), SetOf(disabled));
  }

  lemma StartOfTwo(canonical: Id, a: Id, b: Id, windows: bool, oracle: Oracle)
    ensures var program := StartProgram(canonical, true, [a, b], windows);
            |program| > 5 && program[..5] == [Quiesce(canonical), Quiesce(a), Quiesce(b), Disable(a), Disable(b)]
  {
  }

  /** The second legacy service refuses to be quiesced: the first one wins over the stopped canonical service. */
  lemma {:induction false} RefusedQuiesceGivesWay(canonical: Id, a: Id, b: Id, windows: bool, oracle: Oracle)
    requires canonical != a && canonical != b && a != b
    requires oracle(0).Done? && oracle(1).Done? && oracle(2).Failed? && !oracle(4).Failed?
    ensures var r := StartService(canonical, true, [a, b], windows, oracle, 0);
            !r.committed && canonical in Stopped(r.forward) && LegacyCameBack(r.rollback, canonical)
  {
    var program := StartProgram(canonical, true, [a, b], windows);
    StartOfTwo(canonical, a, b, windows, oracle);
    FailsAt(program, oracle, 0, 2);
    FailedStartOfTwo(canonical, a, b, windows, oracle, 2, a);
  }

  /** The first legacy service refuses to be disabled: the second one wins over the stopped canonical service. */
  lemma {:induction false} RefusedDisableGivesWay(canonical: Id, a: Id, b: Id, windows: bool, oracle: Oracle)
    requires canonical != a && canonical != b && a != b
    requires oracle(0).Done? && oracle(1).Done? && oracle(2).Done? && oracle(3).Failed? && !oracle(5).Failed?
    ensures var r := StartService(canonical, true, [a, b], windows, oracle, 0);
            !r.committed && canonical in Stopped(r.forward) && LegacyCameBack(r.rollback, canonical)
  {
    var program := StartProgram(canonical, true, [a, b], windows);
    StartOfTwo(canonical, a, b, windows, oracle);
    FailsAt(program, oracle, 0, 3);
    FailedStartOfTwo(canonical, a, b, windows, oracle, 3, b);
  }

  lemma {:induction false} FailsAt(cs: seq<Command>, oracle: Oracle, n: nat, at: nat)
    requires at < |cs| && oracle(n + at).Failed? && forall i :: n <= i < n + at ==> !oracle(i).Failed?
    ensures var es := Until(cs, oracle, n); |es| == at + 1 && !Well(es)
  {
    if at > 0 {
      FailsAt(cs[1..], oracle, n + 1, at - 1);
    }
  }

  /** A failed start of two legacy services, one of them overlooked, whose start then succeeds. */
  lemma {:induction false} FailedStartOfTwo(canonical: Id, a: Id, b: Id, windows: bool, oracle: Oracle, at: nat, id: Id)
    requires canonical != a && canonical != b && a != b && oracle(0).Done? && !oracle(at + 2).Failed?
    requires (at == 2 && id == a && oracle(1).Done?) || (at == 3 && id == b && oracle(2).Done?)
    requires var es := Until(StartProgram(canonical, true, [a, b], windows), oracle, 0); |es| == at + 1 && !Well(es)
    ensures var r := StartService(canonical, true, [a, b], windows, oracle, 0);
            !r.committed && canonical in Stopped(r.forward) && LegacyCameBack(r.rollback, canonical)
  {
    var program := StartProgram(canonical, true, [a, b], windows);
    var forward := Until(program, oracle, 0);
    StartOfTwo(canonical, a, b, windows, oracle);
    UntilShape(program, oracle, 0);
    forall i | 0 <= i <= at ensures forward[i] == Entry(program[..5][i], oracle(i)) {
      assert forward[i].outcome == oracle(0 + i);
    }
    OverlookedWins(canonical, [a, b], windows, oracle, if at == 2 then 1 else 2, id);
  }

  /** The first command stopped the canonical service, a later one an overlooked service that starts at once. */
  lemma {:induction false} OverlookedWins(
      canonical: Id, existing: seq<Id>, windows: bool, oracle: Oracle, i: nat, id: Id)
    requires canonical !in existing && id in existing
    requires var forward := Until(StartProgram(canonical, true, existing, windows), oracle, 0);
             && !Well(forward) && 0 < i < |forward| && !oracle(|forward| + 1).Failed?
             && forward[0] == Entry(Quiesce(canonical), Done) && forward[i] == Entry(Quiesce(id), Done)
             && forall j :: 0 <= j < |forward| ==> forward[j].command != Disable(id)
    ensures var r := StartService(canonical, true, existing, windows, oracle, 0);
            !r.committed && canonical in Stopped(r.forward) && LegacyCameBack(r.rollback, canonical)
  {
    hide Until, StartProgram, StartRollback, LastFirst, LegacyCameBack, Well;
    var forward := Until(StartProgram(canonical, true, existing, windows), oracle, 0);
    assert forward[0].command.id in Stopped(forward) && forward[i].command.id in Stopped(forward);
    StoppedCanonicalGivesWayExactly(canonical, existing, windows, oracle, 0);
    assert Overlooked(forward, existing, id);
    assert id in SecondLoop(existing, forward);
    assert !oracle(|forward| + 1 + 2 * 0).Failed?;
  }

  // ----- The rollback of an installation -----

  predicate Restoring(c: Command) {
    c.RestoreRuntime? || c.RestoreDefinition? || c.Reload?
  }

  /** Putting the previous files back failed, and the rollback ended there. */
  predicate Aborted(es: seq<Entry>) {
    es != [] && Restoring(es[|es| - 1].command) && es[|es| - 1].outcome.Failed?
  }

  lemma RestoredIs(oracle: Oracle, n: nat)
    ensures var es := Until([RestoreRuntime, RestoreDefinition, Reload], oracle, n);
            && (forall i :: 0 <= i < |es| ==> Restoring(es[i].command)) && (!Well(es) ==> Aborted(es))
  {
    UntilShape([RestoreRuntime, RestoreDefinition, Reload], oracle, n);
  }

  /** The end of an installation's rollback: what happens to the canonical service last. */
  lemma InstallRollbackEnds(
      canonical: Id, hasRecord: bool, mutated: bool, halt: seq<Entry>, revived: seq<Entry>, end: seq<Entry>,
      ids: set<Id>, due: set<Id>, stopped: set<Id>, o: Outcome)
    requires Course(revived, ids, due) && ids <= stopped && canonical !in ids
    requires NothingStarted(halt) && StartsOnly(halt, {})
    requires mutated ==> LastAbout(halt, canonical) == Some(Disable(canonical))
    requires hasRecord && canonical in stopped ==> revived == []
    requires end == if !hasRecord then []
                    else if Winner(revived).Some? then [Entry(Disable(canonical), o)]
                    else if mutated then [Entry(if canonical in stopped then EnableNow(canonical) else Enable(canonical), o)]
                    else if canonical in stopped then [Entry(Start(canonical), o)]
                    else []
    requires !hasRecord ==> canonical !in stopped
    ensures Cautious(halt + revived + end, canonical, hasRecord || mutated, stopped)
    ensures NothingStarted(halt + revived + end) ==>
              (canonical in stopped ==> Tried(halt + revived + end, canonical))
              && forall id :: id in due ==> Tried(halt + revived + end, id)
  {
    assert canonical in stopped ==> Asks(end[0].command, canonical);
    PartsAreSafe(halt, revived, end, ids, due, stopped, canonical);
    hide Course;
    if Winner(revived).Some? {
      if hasRecord {
        EndsWithDisable(halt + revived, canonical, o);
      } else if mutated {
        CourseStaysLast(halt, revived, ids, due, canonical);
      }
    }
  }

  lemma CourseStaysLast(halt: seq<Entry>, revived: seq<Entry>, ids: set<Id>, due: set<Id>, id: Id)
    requires Course(revived, ids, due) && id !in ids
    ensures LastAbout(halt + revived + [], id) == LastAbout(halt, id)
  {
    LastAboutSkips(halt, revived, ids, id);
    Sequences.Empty(halt + revived);
  }

  lemma {:induction false} RestoringSaysNothing(halt: seq<Entry>, restored: seq<Entry>, id: Id)
    requires forall i :: 0 <= i < |restored| ==> Restoring(restored[i].command)
    ensures LastAbout(halt + restored, id) == LastAbout(halt, id)
    decreases |restored|
  {
    if restored == [] {
      Sequences.Empty(halt);
    } else {
      assert (halt + restored)[..|halt + restored| - 1] == halt + restored[..|restored| - 1];
      RestoringSaysNothing(halt, restored[..|restored| - 1], id);
    }
  }

  lemma {:induction false} InstallRevivalIs(
      canonical: Id, hasRecord: bool, mutated: bool, existing: seq<Id>, disabled: nat, stopped: set<Id>, oracle: Oracle, n: nat,
      halt: seq<Entry>)
    requires disabled <= |existing| && canonical !in existing && (!hasRecord ==> canonical !in stopped)
    requires NothingStarted(halt) && StartsOnly(halt, {})
    requires mutated ==> LastAbout(halt, canonical) == Some(Disable(canonical))
    ensures var (revived, end) := InstallRevival(canonical, hasRecord, mutated, existing, disabled, stopped, oracle, n);
            var es := halt + revived + end;
            && Cautious(es, canonical, hasRecord || mutated, stopped)
            && Thorough(es, canonical, existing, stopped)
            && (canonical in stopped ==> StartsOnly(es, {canonical}))
  {
    hide Revive, Course, LastAbout, Cautious;
    var (revived, end) := InstallRevival(canonical, hasRecord, mutated, existing, disabled, stopped, oracle, n);
    NoCourse();
    ReviveIs(existing, disabled, stopped, false, ByEnableNow, oracle, n);
    var again := canonical in stopped;
    var ids := if again then {} else SetOf(existing) * stopped;
    var due := if again then {} else Due(existing, disabled, stopped, false);
    InstallRollbackEnds(canonical, hasRecord, mutated, halt, revived, end, ids, due, stopped, oracle(n + |revived|));
  }

  lemma HaltIsCautious(halt: seq<Entry>, restored: seq<Entry>, canonical: Id, replaced: bool, stopped: set<Id>)
    requires NothingStarted(halt) && StartsOnly(halt, {})
    requires forall i :: 0 <= i < |restored| ==> Restoring(restored[i].command)
    ensures NothingStarted(halt + restored) && StartsOnly(halt + restored, {})
    ensures Cautious(halt + restored, canonical, replaced, stopped) && StartsOnly(halt + restored, {canonical})
  {
    hide LastAbout;
  }

  lemma {:induction false} InstallRollbackIs(
      canonical: Id, hasRecord: bool, mutated: bool, existing: seq<Id>, disabled: nat, stopped: set<Id>, oracle: Oracle, n: nat)
    requires disabled <= |existing| && canonical !in existing && (!hasRecord ==> canonical !in stopped)
    ensures var es := InstallRollback(canonical, hasRecord, mutated, existing, disabled, stopped, oracle, n);
            && Cautious(es, canonical, hasRecord || mutated, stopped)
            && (Aborted(es) || Thorough(es, canonical, existing, stopped))
            && (canonical in stopped ==> StartsOnly(es, {canonical}))
  {
    hide InstallRevival, Cautious, Thorough, LastAbout, Until, Aborted, Well;
    var halt := if mutated then [Entry(Disable(canonical), oracle(n))] else [];
    var restored :=
      if hasRecord && mutated then Until([RestoreRuntime, RestoreDefinition, Reload], oracle, n + |halt|) else [];
    RestoredIs(oracle, n + |halt|);
    RestoringSaysNothing(halt, restored, canonical);
    HaltIsCautious(halt, restored, canonical, hasRecord || mutated, stopped);
    if mutated {
      EndsWithDisable([], canonical, oracle(n));
      assert [] + halt == halt;
    }
    NothingIsWell();
    hide NothingStarted, StartsOnly, Restoring;
    if !Well(restored) {
      AbortedLater(halt, restored);
    } else {
      InstallRevivalIs(
        canonical, hasRecord, mutated, existing, disabled, stopped, oracle, n + |halt| + |restored|, halt + restored);
    }
  }

  lemma NothingIsWell()
    ensures Well([])
  {
  }

  lemma AbortedLater(halt: seq<Entry>, restored: seq<Entry>)
    requires Aborted(restored)
    ensures Aborted(halt + restored)
  {
  }

  /**
   * Installing on Linux keeps the same guarantees, unless putting the previous files back failed; and a canonical
   * service that was stopped never loses to a legacy one.
   */
  lemma {:induction false} InstallIsSafe(canonical: Id, hasRecord: bool, existing: seq<Id>, oracle: Oracle, n: nat)
    requires canonical !in existing
    ensures var r := InstallService(canonical, hasRecord, existing, oracle, n);
            var stopped := StoppedForInstall(r.forward, canonical, hasRecord);
            var mutated := |r.forward| > QuietCount(hasRecord, existing);
            && Safe(r, canonical, hasRecord || mutated)
            && (!r.committed ==> Aborted(r.rollback) || Thorough(r.rollback, canonical, existing, stopped))
            && (canonical in stopped ==> StartsOnly(r.rollback, {canonical}))
  {
    hide Stopped, Program, InstallMutation, RetireProgram, Until, InstallRollback, LastAbout, Thorough, Well, Aborted;
    var r := InstallService(canonical, hasRecord, existing, oracle, n);
    var stopped := StoppedForInstall(r.forward, canonical, hasRecord);
    if !r.committed {
      InstallRollbackIs(
        canonical, hasRecord, |r.forward| > QuietCount(hasRecord, existing), existing,
        DisabledCount(r.forward, |Backups(hasRecord)| + 1 + |existing|, |existing|), stopped, oracle, n + |r.forward|);
    }
  }

  // ----- The operations as they are written -----

  class Machine {
    const oracle: Oracle
    var log: seq<Entry>

    constructor (oracle: Oracle)
      ensures this.oracle == oracle && log == []
    {
      this.oracle, log := oracle, [];
    }

    method Issue(c: Command) returns (o: Outcome)
      modifies this
      ensures o == oracle(|old(log)|) && log == old(log) + [Entry(c, o)]
    {
      o := oracle(|log|);
      log := log + [Entry(c, o)];
    }

    /** Issues commands in order and stops at the first that fails. */
    method IssueAll(cs: seq<Command>) returns (ok: bool)
      modifies this
      ensures log == old(log) + Until(cs, oracle, |old(log)|)
      ensures ok == Well(Until(cs, oracle, |old(log)|))
    {
      ghost var all := Until(cs, oracle, |log|);
      var i := 0;
      assert cs[0..] == cs;
      while i < |cs|
        invariant 0 <= i <= |cs|
        invariant log + Until(cs[i..], oracle, |log|) == old(log) + all
        invariant Well(Until(cs[i..], oracle, |log|)) == Well(all)
      {
        assert cs[i..][1..] == cs[i + 1..];
        ghost var rest := Until(cs[i + 1..], oracle, |log| + 1);
        ghost var before, first := log, Entry(cs[i], oracle(|log|));
        Sequences.Assoc(before, [first], rest);
        var o := Issue(cs[i]);
        if o.Failed? {
          return false;
        }
        assert Well([first] + rest) == Well(rest);
        i := i + 1;
      }
      Sequences.Empty(log);
      return true;
    }

    /** Quiesces services in order and keeps those that were running. */
    method QuiesceAll(ids: seq<Id>) returns (ok: bool, stopped: set<Id>)
      modifies this
      ensures var es := Until(Each(ids, id => Quiesce(id)), oracle, |old(log)|);
              log == old(log) + es && ok == Well(es) && stopped == Stopped(es)
    {
      hide Until, Stopped, Each, Well;
      ghost var cs := Each(ids, id => Quiesce(id));
      ghost var es := Until(cs, oracle, |log|);
      EachIs(ids, id => Quiesce(id));
      UntilShape(cs, oracle, |log|);
      NothingYet(es);
      stopped := {};
      var i := 0;
      assert log + es[..0] == log;
      while i < |ids|
        invariant 0 <= i <= |ids| && i <= |es|
        invariant log == old(log) + es[..i]
        invariant stopped == Stopped(es[..i])
        invariant i < |es| || (i == |ids| && Well(es))
      {
        var o := Issue(Quiesce(ids[i]));
        assert es[i] == Entry(Quiesce(ids[i]), o);
        Sequences.TakeNext(es, i);
        Sequences.Assoc(old(log), es[..i], [es[i]]);
        StoppedMore(es[..i], es[i]);
        FailsLast(es, i);
        if o.Done? {
          stopped := stopped + {ids[i]};
        }
        i := i + 1;
        if o.Failed? {
          assert es[..i] == es;
          return false, stopped;
        }
      }
      assert es[..i] == es;
      return true, stopped;
    }

    method DisableBack(id: Id)
      modifies this
      ensures log == old(log) + GiveUp(id, oracle, |old(log)|)
    {
      var o := Issue(Disable(id));
    }

    /** One service is enabled and started, or only started; a failure disables it again. */
    method BringBack(id: Id, how: How) returns (back: bool)
      modifies this
      ensures log == old(log) + Attempt(id, how, oracle, |old(log)|)
      ensures back == Winner(Attempt(id, how, oracle, |old(log)|)).Some?
    {
      var o;
      match how {
        case ByEnableNow => o := Issue(EnableNow(id));
        case ByStart => o := Issue(Start(id));
        case ByEnableAndStart =>
          o := Issue(Enable(id));
          if !o.Failed? {
            o := Issue(Start(id));
          }
      }
      if o.Failed? {
        DisableBack(id);
      }
      return !o.Failed?;
    }

    /** The rollback loop: from the last service to the first, until one comes back. */
    method RestartLast(ids: seq<Id>, stopped: set<Id>, except: set<Id>, how: How) returns (restored: bool)
      modifies this
      ensures log == old(log) + Try(LastFirst(ids, stopped, except), how, oracle, |old(log)|)
      ensures restored == Winner(Try(LastFirst(ids, stopped, except), how, oracle, |old(log)|)).Some?
    {
      hide Try, LastFirst, Attempt, Winner;
      ghost var all := Try(LastFirst(ids, stopped, except), how, oracle, |log|);
      restored := false;
      var i := |ids|;
      assert ids[..i] == ids;
      while i > 0 && !restored
        invariant 0 <= i <= |ids|
        invariant restored ==> log == old(log) + all && Winner(all).Some?
        invariant !restored ==> Remains(old(log) + all, all, log, Try(LastFirst(ids[..i], stopped, except), how, oracle, |log|))
      {
        i := i - 1;
        TryLast(ids[..i + 1], stopped, except, how, oracle, |log|);
        assert ids[..i + 1][..i] == ids[..i];
        if ids[i] !in stopped || ids[i] in except {
          continue;
        }
        ghost var before, first := log, Attempt(ids[i], how, oracle, |log|);
        restored := BringBack(ids[i], how);
        if !restored {
          ghost var rest := Try(LastFirst(ids[..i], stopped, except), how, oracle, |log|);
          Sequences.Assoc(before, first, rest);
          WinnerOfBoth(first, rest);
        }
      }
      if !restored {
        assert ids[..i] == [];
        NobodyLeft(stopped, except, how, oracle, |log|);
        Sequences.Empty(log);
      }
    }

    method DisableAll(ids: seq<Id>) returns (ok: bool, asked: nat)
      modifies this
      ensures var es := Until(Each(ids, id => Disable(id)), oracle, |old(log)|);
              log == old(log) + es && ok == Well(es) && asked == |es|
    {
      hide Until, Each, Well;
      ghost var cs := Each(ids, id => Disable(id));
      ghost var es := Until(cs, oracle, |log|);
      EachIs(ids, id => Disable(id));
      UntilShape(cs, oracle, |log|);
      NothingYet(es);
      asked := 0;
      assert log + es[..0] == log;
      while asked < |ids|
        invariant 0 <= asked <= |ids| && asked <= |es|
        invariant log == old(log) + es[..asked]
        invariant asked < |es| || (asked == |ids| && Well(es))
      {
        var o := Issue(Disable(ids[asked]));
        Sequences.TakeNext(es, asked);
        Sequences.Assoc(old(log), es[..asked], [es[asked]]);
        FailsLast(es, asked);
        asked := asked + 1;
        if o.Failed? {
          assert es[..asked] == es;
          return false, asked;
        }
      }
      assert es[..asked] == es;
      return true, asked;
    }

    /** Disables the legacy services, then does what the operation adds. */
    method GoDisable(existing: seq<Id>, after: seq<Command>) returns (ok: bool, disabled: nat, mutated: bool)
      requires NoQuiesce(after)
      modifies this
      ensures var es := Until(Each(existing, id => Disable(id)) + after, oracle, |old(log)|);
              && log == old(log) + es && ok == Well(es) && Stopped(es) == {}
              && disabled == DisabledCount(es, 0, |existing|) && mutated == (|es| > |existing|)
    {
      hide Until, Well, Stopped, Each;
      ghost var n, start, d := |log|, log, Each(existing, id => Disable(id));
      EachIs(existing, id => Disable(id));
      TwoParts(d, after, oracle, n);
      NothingStopped(d, oracle, n);
      NothingStopped(after, oracle, n + |d|);
      mutated := false;
      ok, disabled := DisableAll(existing);
      if ok {
        Sequences.Assoc(start, Until(d, oracle, n), Until(after, oracle, n + |d|));
        mutated := after != [];
        ok := IssueAll(after);
      }
    }

    method GoQuiesce(quiesced: seq<Id>, existing: seq<Id>, after: seq<Command>)
      returns (ok: bool, stopped: set<Id>, disabled: nat, mutated: bool)
      requires NoQuiesce(after)
      modifies this
      ensures var program := Each(quiesced, id => Quiesce(id)) + (Each(existing, id => Disable(id)) + after);
              var es := Until(program, oracle, |old(log)|);
              && log == old(log) + es && ok == Well(es) && stopped == Stopped(es)
              && disabled == DisabledCount(es, |quiesced|, |existing|) && mutated == (|es| > |quiesced| + |existing|)
    {
      hide Until, Well, Stopped, Each;
      ghost var n, start := |log|, log;
      ghost var q, rest := Each(quiesced, id => Quiesce(id)), Each(existing, id => Disable(id)) + after;
      EachIs(quiesced, id => Quiesce(id));
      TwoParts(q, rest, oracle, n);
      disabled, mutated := 0, false;
      ok, stopped := QuiesceAll(quiesced);
      if ok {
        Sequences.Assoc(start, Until(q, oracle, n), Until(rest, oracle, n + |q|));
        ok, disabled, mutated := GoDisable(existing, after);
      }
    }

    /** Everything up to the commit, with what the rollback needs to know. */
    method GoForward(before: seq<Command>, quiesced: seq<Id>, existing: seq<Id>, after: seq<Command>)
      returns (ok: bool, stopped: set<Id>, disabled: nat, mutated: bool)
      requires NoQuiesce(before) && NoQuiesce(after)
      modifies this
      ensures var es := Until(Program(before, quiesced, existing, after), oracle, |old(log)|);
              && log == old(log) + es && ok == Well(es) && stopped == Stopped(es)
              && disabled == DisabledCount(es, |before| + |quiesced|, |existing|)
              && mutated == (|es| > |before| + |quiesced| + |existing|)
    {
      hide Until, Well, Stopped, Each;
      ghost var n, start, rest := |log|, log, Each(quiesced, id => Quiesce(id)) + (Each(existing, id => Disable(id)) + after);
      TwoParts(before, rest, oracle, n);
      NothingStopped(before, oracle, n);
      stopped, disabled, mutated := {}, 0, false;
      ok := IssueAll(before);
      if ok {
        Sequences.Assoc(start, Until(before, oracle, n), Until(rest, oracle, n + |before|));
        ok, stopped, disabled, mutated := GoQuiesce(quiesced, existing, after);
      }
    }

    /** Both restore loops: services that were disabled, then those that were only stopped. */
    method ReviveLegacy(existing: seq<Id>, disabled: nat, stopped: set<Id>, skipDisabled: bool, how: How)
      returns (restored: bool)
      requires disabled <= |existing|
      modifies this
      ensures log == old(log) + Revive(existing, disabled, stopped, skipDisabled, how, oracle, |old(log)|)
      ensures restored == Winner(Revive(existing, disabled, stopped, skipDisabled, how, oracle, |old(log)|)).Some?
    {
      hide Try, LastFirst;
      ghost var start := log;
      restored := false;
      if !skipDisabled {
        restored := RestartLast(existing[..disabled], stopped, {}, how);
      } else {
        Sequences.Empty(log);
      }
      if !restored {
        ghost var first := log[|start|..];
        assert log == start + first;
        ghost var second := Try(LastFirst(existing, stopped, SetOf(existing[..disabled])), ByStart, oracle, |log|);
        Sequences.Assoc(start, first, second);
        restored := RestartLast(existing, stopped, SetOf(existing[..disabled]), ByStart);
        WinnerOfBoth(first, second);
      }
    }

    method RollBackStart(canonical: Id, restart: bool, existing: seq<Id>, windows: bool, disabled: nat, stopped: set<Id>)
      requires disabled <= |existing|
      modifies this
      ensures log == old(log) + StartRollback(canonical, restart, existing, windows, disabled, stopped, oracle, |old(log)|)
    {
      hide Revive, Winner;
      var o;
      if restart {
        o := Issue(if windows then Disable(canonical) else Stop(canonical));
      }
      var restoreCanonical := canonical in stopped;
      var restored :=
        ReviveLegacy(existing, disabled, stopped, restoreCanonical, if windows then ByEnableAndStart else ByEnableNow);
      if restart && windows && !restored {
        o := Issue(Enable(canonical));
        if restoreCanonical {
          o := Issue(Start(canonical));
        }
      } else if restart && !windows && restored {
        o := Issue(Disable(canonical));
      } else if restart && !windows && restoreCanonical {
        o := Issue(Start(canonical));
      }
    }

    method StartStartupService(canonical: Id, restart: bool, existing: seq<Id>, windows: bool) returns (ok: bool)
      modifies this
      ensures var r := StartService(canonical, restart, existing, windows, oracle, |old(log)|);
              log == old(log) + r.forward + r.rollback && ok == (r.committed && Well(r.forward))
    {
      hide Until, Program, Stopped, Well, Restart, StartRollback, RetireProgram;
      ghost var n, start := |log|, log;
      RestartStopsNothing(canonical, restart, windows);
      var stopped, disabled, mutated;
      ok, stopped, disabled, mutated :=
        GoForward([], WithCanonical(canonical, restart, existing), existing, Restart(canonical, restart, windows));
      ghost var forward := Until(StartProgram(canonical, restart, existing, windows), oracle, n);
      if ok {
        ghost var retired := Until(RetireProgram(existing, windows), oracle, n + |forward|);
        ok := IssueAll(RetireProgram(existing, windows));
        Sequences.Assoc(start, forward, retired);
        Sequences.Empty(start + (forward + retired));
        WellOfBoth(forward, retired);
      } else {
        RollBackStart(canonical, restart, existing, windows, disabled, stopped);
      }
    }

    method ReviveForInstall(canonical: Id, hasRecord: bool, mutated: bool, existing: seq<Id>, disabled: nat, stopped: set<Id>)
      requires disabled <= |existing|
      modifies this
      ensures var (revived, end) :=
                InstallRevival(canonical, hasRecord, mutated, existing, disabled, stopped, oracle, |old(log)|);
              log == old(log) + revived + end
    {
      hide Revive, Winner;
      var restoreCanonical := hasRecord && canonical in stopped;
      var restored := false;
      if !restoreCanonical {
        restored := ReviveLegacy(existing, disabled, stopped, false, ByEnableNow);
      } else {
        NobodyWins();
      }
      if hasRecord {
        var o;
        if restored {
          o := Issue(Disable(canonical));
        } else if mutated {
          o := Issue(if restoreCanonical then EnableNow(canonical) else Enable(canonical));
        } else if restoreCanonical {
          o := Issue(Start(canonical));
        }
      }
    }

    /** Halts what was mutated, puts the previous files back, then the legacy or the canonical service. */
    method RollBackInstall(canonical: Id, hasRecord: bool, mutated: bool, existing: seq<Id>, disabled: nat, stopped: set<Id>)
      requires disabled <= |existing|
      modifies this
      ensures log == old(log) + InstallRollback(canonical, hasRecord, mutated, existing, disabled, stopped, oracle, |old(log)|)
    {
      hide InstallRevival, Until, Well;
      NothingIsWell();
      ghost var start := log;
      if mutated {
        var o := Issue(Disable(canonical));
      }
      ghost var halt := if mutated then [Entry(Disable(canonical), oracle(|start|))] else [];
      assert log == start + halt;
      if hasRecord && mutated {
        ghost var restored := Until([RestoreRuntime, RestoreDefinition, Reload], oracle, |log|);
        Sequences.Assoc(start, halt, restored);
        var restoredFiles := IssueAll([RestoreRuntime, RestoreDefinition, Reload]);
        if !restoredFiles {
          return;
        }
        halt := halt + restored;
      }
      ghost var (revived, end) :=
        InstallRevival(canonical, hasRecord, mutated, existing, disabled, stopped, oracle, |log|);
      Sequences.Assoc(start, halt, revived);
      Sequences.Assoc(start, halt + revived, end);
      ReviveForInstall(canonical, hasRecord, mutated, existing, disabled, stopped);
    }

    method InstallLinux(canonical: Id, hasRecord: bool, existing: seq<Id>) returns (ok: bool)
      modifies this
      ensures var r := InstallService(canonical, hasRecord, existing, oracle, |old(log)|);
              log == old(log) + r.forward + r.rollback && ok == (r.committed && Well(r.forward))
    {
      hide Until, Program, Stopped, Well, InstallRollback, RetireProgram;
      ghost var n, start := |log|, log;
      var stopped, disabled, mutated;
      ok, stopped, disabled, mutated :=
        GoForward(Backups(hasRecord), [canonical] + existing, existing, InstallMutation(canonical));
      if !hasRecord {
        stopped := stopped - {canonical};
      }
      ghost var forward :=
        Until(Program(Backups(hasRecord), [canonical] + existing, existing, InstallMutation(canonical)), oracle, n);
      if ok {
        ghost var retired := Until(RetireProgram(existing, false), oracle, n + |forward|);
        ok := IssueAll(RetireProgram(existing, false));
        Sequences.Assoc(start, forward, retired);
        Sequences.Empty(start + (forward + retired));
        WellOfBoth(forward, retired);
      } else {
        RollBackInstall(canonical, hasRecord, mutated, existing, disabled, stopped);
      }
    }
  }

  lemma RestartStopsNothing(canonical: Id, restart: bool, windows: bool)
    ensures NoQuiesce(Restart(canonical, restart, windows))
  {
  }

  lemma NobodyWins()
    ensures Winner([]).None?
  {
  }

  predicate NoQuiesce(cs: seq<Command>) {
    forall i :: 0 <= i < |cs| ==> !cs[i].Quiesce?
  }

  /** What is still to come completes the whole and decides who wins. */
  predicate Remains(goal: seq<Entry>, all: seq<Entry>, log: seq<Entry>, rest: seq<Entry>) {
    log + rest == goal && Winner(rest) == Winner(all)
  }

  lemma NobodyLeft(stopped: set<Id>, except: set<Id>, how: How, oracle: Oracle, n: nat)
    ensures Try(LastFirst([], stopped, except), how, oracle, n) == [] && Winner([]).None?
  {
  }

  lemma TryLast(ids: seq<Id>, stopped: set<Id>, except: set<Id>, how: How, oracle: Oracle, n: nat)
    requires ids != []
    ensures var last, before := ids[|ids| - 1], ids[..|ids| - 1];
            var first := Attempt(last, how, oracle, n);
            var es := Try(LastFirst(ids, stopped, except), how, oracle, n);
            if last !in stopped || last in except then es == Try(LastFirst(before, stopped, except), how, oracle, n)
            else if Winner(first).Some? then es == first
            else es == first + Try(LastFirst(before, stopped, except), how, oracle, n + |first|)
  {
    hide Attempt, Winner;
    var last, rest := ids[|ids| - 1], LastFirst(ids[..|ids| - 1], stopped, except);
    if last !in stopped || last in except {
      assert LastFirst(ids, stopped, except) == [] + rest == rest;
    } else {
      assert LastFirst(ids, stopped, except) == [last] + rest;
      hide Try, LastFirst;
    }
  }

  lemma NothingYet(es: seq<Entry>)
    ensures Stopped(es[..0]) == {}
    ensures es == [] ==> Well(es)
  {
  }

  /** A failure is the last entry, and then the whole did not go well. */
  lemma FailsLast(es: seq<Entry>, i: nat)
    requires i < |es| && forall j :: 0 <= j < |es| - 1 ==> !es[j].outcome.Failed?
    ensures es[i].outcome.Failed? ==> i == |es| - 1 && !Well(es)
    ensures i == |es| - 1 && !es[i].outcome.Failed? ==> Well(es)
  {
  }

  lemma StoppedMore(es: seq<Entry>, e: Entry)
    ensures Stopped(es + [e]) == Stopped(es) + (if e.command.Quiesce? && e.outcome.Done? then {e.command.id} else {})
  {
    var all := es + [e];
    forall id | id in Stopped(es) ensures id in Stopped(all) {
      var i :| 0 <= i < |es| && es[i].command.Quiesce? && es[i].outcome.Done? && es[i].command.id == id;
      assert all[i] == es[i];
    }
    if e.command.Quiesce? && e.outcome.Done? {
      assert all[|es|].command.id in Stopped(all);
    }
  }

  lemma StoppedOfBoth(a: seq<Entry>, b: seq<Entry>)
    ensures Stopped(a + b) == Stopped(a) + Stopped(b)
  {
    var all := a + b;
    forall id | id in Stopped(a) ensures id in Stopped(all) {
      var i :| 0 <= i < |a| && a[i].command.Quiesce? && a[i].outcome.Done? && a[i].command.id == id;
      assert all[i] == a[i];
    }
    forall id | id in Stopped(b) ensures id in Stopped(all) {
      var i :| 0 <= i < |b| && b[i].command.Quiesce? && b[i].outcome.Done? && b[i].command.id == id;
      assert all[|a| + i] == b[i];
    }
  }

  lemma NothingStopped(cs: seq<Command>, oracle: Oracle, n: nat)
    requires NoQuiesce(cs)
    ensures Stopped(Until(cs, oracle, n)) == {}
  {
    UntilShape(cs, oracle, n);
  }

  /** The second part is reached only if the first went well. */
  lemma TwoParts(a: seq<Command>, b: seq<Command>, oracle: Oracle, n: nat)
    ensures var es, ea, eb := Until(a + b, oracle, n), Until(a, oracle, n), Until(b, oracle, n + |a|);
            && |ea| <= |a| && |eb| <= |b| && (Well(ea) ==> |ea| == |a|) && (b == [] <==> eb == [])
            && if Well(ea) then es == ea + eb && (Well(es) <==> Well(eb)) && Stopped(es) == Stopped(ea) + Stopped(eb)
               else es == ea
  {
    UntilShape(a, oracle, n);
    UntilShape(b, oracle, n + |a|);
    UntilAppend(a, b, oracle, n);
    hide Until, Stopped;
    WellOfBoth(Until(a, oracle, n), Until(b, oracle, n + |a|));
    StoppedOfBoth(Until(a, oracle, n), Until(b, oracle, n + |a|));
  }

  lemma WellOfBoth(a: seq<Entry>, b: seq<Entry>)
    ensures Well(a) ==> (Well(a + b) <==> Well(b))
  {
    if b == [] {
      assert a + b == a;
    }
  }
}
