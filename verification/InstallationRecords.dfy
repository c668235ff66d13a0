/**
 * The durable record of the canonical startup service: three files that every install rewrites step
 * by step, so that a stop between any two steps can be recovered from.
 */
module InstallationRecords {
  import opened Wrappers
  import ServiceVersion
  import Text

  const CONTROL_PROTOCOL_VERSION: nat := 1

  datatype InstallationState = Installing | Installed

  /** A version 1 or version 2 record; `stamp` is when it was made. */
  datatype Record =
    | Legacy(stamp: nat)
    | Current(state: InstallationState, packageVersion: string, protocolVersion: nat,
              controlSocket: Option<string>, stamp: nat)

  /** service-install-v2.json, service-install.json and service-install-previous.json. */
  datatype Slots = Slots(v2: Option<Record>, v1: Option<Record>, previous: Option<Record>)

  datatype RecordError = Mismatch

  predicate IsComplete(r: Record) {
    r.Legacy? || r.state.Installed?
  }

  predicate IsInstalling(r: Record) {
    r.Current? && r.state.Installing?
  }

  /** The record in force; one recovered from the previous-record file must be complete. */
  function ReadRecord(d: Slots): Result<Option<Record>, RecordError> {
    if d.v2.Some? then
      if d.v2.value.Current? && d.v2.value.protocolVersion >= 1 then Ok(d.v2) else Err(Mismatch)
    else if d.v1.Some? then
      if d.v1.value.Legacy? then Ok(d.v1) else Err(Mismatch)
    else
      ReadPreviousRecord(d)
  }

  function ReadPreviousRecord(d: Slots): Result<Option<Record>, RecordError> {
    if d.previous.None? then Ok(None)
    else if IsComplete(d.previous.value) && (d.previous.value.Current? ==> d.previous.value.protocolVersion >= 1)
    then Ok(d.previous)
    else Err(Mismatch)
  }

  /** One call of the installer: who calls, and how the world answers. */
  datatype Attempt = Attempt(
    version: string,            // the client's package version
    stamp: nat,                 // when the planned record was made
    finalStamp: nat,            // when the final record was made
    commits: bool,              // the platform step marked the planned record installed
    succeeds: bool,             // the platform step finished
    ownsCommitted: bool,        // the target of the record then in force is verifiably ours
    ownsPrevious: bool,         // so is the target of the previous record
    ownsPlanned: bool,          // so is the target of the planned record
    keepsV2: bool,              // a tolerated unlink of service-install-v2.json failed
    keepsPrevious: bool)        // a tolerated unlink of the previous-record file failed

  function Planned(a: Attempt): Record {
    Current(Installing, a.version, CONTROL_PROTOCOL_VERSION, None, a.stamp)
  }

  function CommittedRecord(a: Attempt): Record {
    Current(Installed, a.version, CONTROL_PROTOCOL_VERSION, None, a.stamp)
  }

  function Final(a: Attempt): Record {
    Current(Installed, a.version, CONTROL_PROTOCOL_VERSION, None, a.finalStamp)
  }

  /** The record an install falls back to, given the one it found. */
  function PreviousOf(d: Slots, existing: Option<Record>): Result<Option<Record>, RecordError> {
    if existing.Some? && IsInstalling(existing.value) then ReadPreviousRecord(d) else Ok(existing)
  }

  function Backup(d: Slots, existing: Option<Record>): Slots {
    if existing.Some? && !IsInstalling(existing.value) then d.(previous := existing) else d
  }

  function DropLegacy(d: Slots, previous: Option<Record>): Slots {
    if previous.Some? && previous.value.Legacy? then d.(v1 := None) else d
  }

  function Announce(d: Slots, previous: Option<Record>, a: Attempt): Slots {
    d.(v2 := if previous.Some? then Some(Planned(a)) else None)
  }

  function Commit(d: Slots, a: Attempt): Slots {
    if a.commits then d.(v2 := Some(CommittedRecord(a))) else d
  }

  /** The failed install had in fact committed, and its target is still ours. */
  predicate StaysCommitted(d: Slots, a: Attempt) {
    var current := ReadRecord(d);
    && current.Ok? && current.value.Some? && a.ownsCommitted
    && current.value.value.Current?
    && current.value.value == CommittedRecord(a).(controlSocket := current.value.value.controlSocket)
  }

  function WriteBack(d: Slots, r: Record): Slots {
    if r.Legacy? then d.(v1 := Some(r)) else d.(v2 := Some(r))
  }

  /** What the failure path of an install writes, state by state. */
  function Restoration(d: Slots, previous: Option<Record>, a: Attempt): seq<Slots> {
    if StaysCommitted(d, a) then
      []
    else if previous.Some? then
      if !a.ownsPrevious then
        []
      else
        var written := WriteBack(d, previous.value);
        var cleared := if previous.value.Legacy? && !a.keepsV2 then written.(v2 := None) else written;
        [written, cleared, if a.keepsPrevious then cleared else cleared.(previous := None)]
    else if a.ownsPlanned then
      [d.(v2 := Some(Planned(a)))]
    else if a.keepsV2 then
      []
    else
      [d.(v2 := None)]
  }

  function Completion(d: Slots, a: Attempt): seq<Slots> {
    [d.(v2 := Some(Final(a))), d.(v2 := Some(Final(a)), v1 := None), Slots(Some(Final(a)), None, None)]
  }

  /** Every state of the three files during one install, in order; a stop leaves any one of them. */
  function Visits(d: Slots, a: Attempt): (states: seq<Slots>)
    ensures |states| >= 1
  {
    var existing := ReadRecord(d);
    if existing.Err? then
      [d]
    else
      var previous := PreviousOf(d, existing.value);
      if previous.Err? then
        [d]
      else
        var d1 := Backup(d, existing.value);
        var d2 := DropLegacy(d1, previous.value);
        var d3 := Announce(d2, previous.value, a);
        var d4 := Commit(d3, a);
        [d, d1, d2, d3, d4] + if a.succeeds then Completion(d4, a) else Restoration(d4, previous.value, a)
  }

  // ----- Crash consistency -----

  /** Every file holds a record of its own kind, and some file holds a complete one. */
  predicate Sound(d: Slots) {
    && (d.v2.Some? ==> d.v2.value.Current? && d.v2.value.protocolVersion >= 1)
    && (d.v1.Some? ==> d.v1.value.Legacy?)
    && (d.previous.Some? ==> IsComplete(d.previous.value)
                             && (d.previous.value.Current? ==> d.previous.value.protocolVersion >= 1))
    && ((d.v2.Some? && IsComplete(d.v2.value)) || d.v1.Some? || d.previous.Some?)
  }

  /** The complete record that the next install would fall back to. */
  function Fallback(d: Slots): Option<Record> {
    if d.v2.Some? && IsComplete(d.v2.value) then d.v2
    else if d.v2.Some? then (if d.previous.Some? then d.previous else d.v1)
    else if d.v1.Some? then d.v1
    else d.previous
  }

  predicate MadeBy(r: Record, a: Attempt) {
    r == Final(a) || r == CommittedRecord(a)
  }

  /** A state that one install may leave: sound, and falling back to the old record or to its own. */
  predicate Recoverable(s: Slots, origin: Record, a: Attempt) {
    && Sound(s) && Fallback(s).Some?
    && (Fallback(s) == Some(origin) || ((a.commits || a.succeeds) && MadeBy(Fallback(s).value, a)))
  }

  lemma {:induction false} SoundIsReadable(d: Slots)
    requires Sound(d)
    ensures ReadRecord(d).Ok? && ReadRecord(d).value.Some?
    ensures Fallback(d).Some? && IsComplete(Fallback(d).value)
  {
  }

  lemma PreparationIsRecoverable(d: Slots, a: Attempt)
    requires Sound(d)
    ensures var existing := ReadRecord(d).value;
            var fallback := PreviousOf(d, existing).value;
            var origin := Fallback(d).value;
            var d1 := Backup(d, existing);
            var d2 := DropLegacy(d1, fallback);
            var d3 := Announce(d2, fallback, a);
            && Recoverable(d1, origin, a) && Recoverable(d2, origin, a) && Recoverable(d3, origin, a)
            && (if fallback.Some? then fallback == Some(origin) == d3.previous && d3.v2.Some?
                else d3.v1 == Some(origin) && d3.previous.None?)
  {
  }

  /** Every state of an install from a sound state is recoverable, wherever it stops. */
  lemma InstallIsRecoverable(d: Slots, a: Attempt, s: Slots)
    requires Sound(d) && s in Visits(d, a)
    ensures Recoverable(s, Fallback(d).value, a)
  {
    var existing := ReadRecord(d).value;
    var fallback := PreviousOf(d, existing).value;
    PreparationIsRecoverable(d, a);
    hide PreviousOf, Backup, DropLegacy, Announce;
    var d3 := Announce(DropLegacy(Backup(d, existing), fallback), fallback, a);
    var d4 := Commit(d3, a);
    var origin := Fallback(d).value;
    assert Recoverable(d4, origin, a);
    if s in Completion(d4, a) && a.succeeds {
      assert Recoverable(s, origin, a);
    } else if s in Restoration(d4, fallback, a) && !a.succeeds {
      RestorationIsRecoverable(d4, fallback, origin, a, s);
    }
  }

  lemma RestorationIsRecoverable(d: Slots, previous: Option<Record>, origin: Record, a: Attempt, s: Slots)
    requires Recoverable(d, origin, a) && s in Restoration(d, previous, a)
    requires previous.Some? ==> previous == Some(origin) == d.previous && d.v2.Some?
    requires previous.None? ==> d.v1 == Some(origin) && d.previous.None?
    ensures Recoverable(s, origin, a)
  {
  }

  /** One call and how many of its writes happened before it stopped. */
  datatype Call = Call(attempt: Attempt, reached: nat)

  function Min(a: nat, b: nat): nat {
    if a < b then a else b
  }

  function Outcome(d: Slots, c: Call): Slots {
    var states := Visits(d, c.attempt);
    states[Min(c.reached, |states| - 1)]
  }

  function AfterCalls(d: Slots, calls: seq<Call>): Slots
    decreases |calls|
  {
    if calls == [] then d else AfterCalls(Outcome(d, calls[0]), calls[1..])
  }

  /**
   * From any complete installation, after any number of finished, failed and interrupted installs, the
   * record in force can be read, the previous-record file holds a complete record if any, and the record
   * to fall back to is the original one or one that some call committed.
   */
  lemma {:induction false} RecordsSurviveCrashes(d: Slots, calls: seq<Call>)
    requires Sound(d)
    ensures var after := AfterCalls(d, calls);
            && Sound(after) && ReadRecord(after).Ok? && ReadRecord(after).value.Some?
            && Fallback(after).Some? && IsComplete(Fallback(after).value)
            && (Fallback(after) == Fallback(d) ||
                exists i :: 0 <= i < |calls| && (calls[i].attempt.commits || calls[i].attempt.succeeds)
                            && MadeBy(Fallback(after).value, calls[i].attempt))
    decreases |calls|
  {
    SoundIsReadable(d);
    if calls != [] {
      var next := Outcome(d, calls[0]);
      assert next in Visits(d, calls[0].attempt);
      InstallIsRecoverable(d, calls[0].attempt, next);
      RecordsSurviveCrashes(next, calls[1..]);
      var after := AfterCalls(d, calls);
      if Fallback(after) == Fallback(next) {
        assert calls[0] == calls[0] && (Fallback(next) == Fallback(d) || MadeBy(Fallback(after).value, calls[0].attempt));
      } else {
        var i :| 0 <= i < |calls[1..]| && (calls[1..][i].attempt.commits || calls[1..][i].attempt.succeeds)
                 && MadeBy(Fallback(after).value, calls[1..][i].attempt);
        assert calls[i + 1] == calls[1..][i];
      }
    }
  }

  /**
   * A failed install whose previous target is still ours puts the record it fell back to in force again, exactly
   * unless it had in fact committed and owns what it committed, or that record is a version 1 record and the
   * version 2 file could not be removed.
   */
  lemma FailureRestoresRecord(d: Slots, a: Attempt)
    requires Sound(d) && PreviousOf(d, ReadRecord(d).value).value.Some?
    requires !a.succeeds && a.ownsPrevious && Fallback(d) != Some(CommittedRecord(a))
    ensures var after := Visits(d, a)[|Visits(d, a)| - 1];
            ReadRecord(after) == Ok(Fallback(d)) <==>
            !(a.commits && a.ownsCommitted) && !(Fallback(d).value.Legacy? && a.keepsV2)
  {
    var previous := PreviousOf(d, ReadRecord(d).value).value;
    var d3 := Announce(DropLegacy(Backup(d, ReadRecord(d).value), previous), previous, a);
    var d4 := Commit(d3, a);
    assert StaysCommitted(d4, a) <==> a.commits && a.ownsCommitted;
    var tail := Restoration(d4, previous, a);
    if StaysCommitted(d4, a) {
      assert Visits(d, a)[4] == d4 && |Visits(d, a)| == 5;
    } else {
      assert |tail| == 3 && Visits(d, a)[7] == tail[2];
    }
  }

  // ----- Never downgrade -----

  datatype UpdateStatus = Absent | AsCurrent | Newer | NewerIncompatible | AsLegacy | Outdated | Modified | InProgress

  /** getStartupServiceUpdateStatus; `sameCli` compares the two CLI files when both exist. */
  function Status(record: Option<Record>, version: string, sameCli: bool): UpdateStatus {
    if record.None? then Absent
    else if record.value.Legacy? then AsLegacy
    else if record.value.state.Installing? then InProgress
    else
      var comparison := ServiceVersion.Compare(record.value.packageVersion, version);
      if comparison.None? then Modified
      else if comparison.value == 1 then
        if record.value.protocolVersion == CONTROL_PROTOCOL_VERSION then Newer else NewerIncompatible
      else if comparison.value == -1 then Outdated
      else if record.value.protocolVersion != CONTROL_PROTOCOL_VERSION then Modified
      else if record.value.controlSocket.Some? then Modified
      else if sameCli then AsCurrent
      else Modified
  }

  /** installStartupService and replaceStartupService: a newer record is only started, or refused. */
  function Install(d: Slots, a: Attempt, sameCli: bool): Slots {
    if ReadRecord(d).Err? then
      d
    else
      var status := Status(ReadRecord(d).value, a.version, sameCli);
      if status.Newer? || status.NewerIncompatible? then d else Visits(d, a)[|Visits(d, a)| - 1]
  }

  /** A call by a client that has some version. */
  datatype Client = Client(attempt: Attempt, sameCli: bool)

  /** From these files the call succeeds: it starts a newer service, or installs its own to the end. */
  predicate Succeeds(d: Slots, c: Client) {
    && ServiceVersion.Parse(c.attempt.version).Some? && c.attempt.succeeds
    && ReadRecord(d).Ok? && PreviousOf(d, ReadRecord(d).value).Ok?
    && !Status(ReadRecord(d).value, c.attempt.version, c.sameCli).NewerIncompatible?
  }

  /** The version of the installed service in force, if its record says so in a way that can be compared. */
  function RecordedVersion(d: Slots): Option<string> {
    var r := ReadRecord(d);
    if r.Ok? && r.value.Some? && r.value.value.Current? && r.value.value.state.Installed?
       && ServiceVersion.Parse(r.value.value.packageVersion).Some?
    then Some(r.value.value.packageVersion)
    else None
  }

  /** What a version stands for: nothing recorded is below everything. */
  predicate Covers(d: Slots, version: Option<string>) {
    version.Some? ==> RecordedVersion(d).Some? && ServiceVersion.AtLeast(RecordedVersion(d).value, version.value)
  }

  /**
   * From any files at all, with no record, a version 1 record, an unfinished one, an incomparable version or an
   * installed one: a successful call leaves an installed version, the higher of what was recorded and its own.
   */
  lemma InstallNeverDowngrades(d: Slots, c: Client)
    requires Succeeds(d, c)
    ensures var after := Install(d, c.attempt, c.sameCli);
            && Covers(after, RecordedVersion(d)) && Covers(after, Some(c.attempt.version))
            && (RecordedVersion(after) == RecordedVersion(d) || RecordedVersion(after) == Some(c.attempt.version))
  {
    hide ServiceVersion.Precedence, ServiceVersion.Parse;
    var a := c.attempt;
    ServiceVersion.AtLeastItself(a.version);
    if RecordedVersion(d).Some? {
      var recorded := RecordedVersion(d).value;
      ServiceVersion.AtLeastOrNewer(recorded, a.version);
      ServiceVersion.AtLeastItself(recorded);
    }
  }

  function AfterInstalls(d: Slots, clients: seq<Client>): Slots
    decreases |clients|
  {
    if clients == [] then d else AfterInstalls(Install(d, clients[0].attempt, clients[0].sameCli), clients[1..])
  }

  predicate AllSucceed(d: Slots, clients: seq<Client>)
    decreases |clients|
  {
    clients != [] ==>
      Succeeds(d, clients[0]) && AllSucceed(Install(d, clients[0].attempt, clients[0].sameCli), clients[1..])
  }

  lemma CoversChain(d: Slots, between: Slots, version: Option<string>)
    requires Covers(d, RecordedVersion(between)) && Covers(between, version)
    requires version.Some? ==> ServiceVersion.Parse(version.value).Some?
    ensures Covers(d, version)
  {
    hide ServiceVersion.AtLeast, ServiceVersion.Parse;
    if version.Some? {
      ServiceVersion.AtLeastChains(RecordedVersion(d).value, RecordedVersion(between).value, version.value);
    }
  }

  /**
   * From any files, over any number of successful calls by any clients: the recorded version only rises and covers
   * every caller.
   */
  lemma {:induction false} VersionsNeverDecrease(d: Slots, clients: seq<Client>)
    requires AllSucceed(d, clients)
    ensures var after := AfterInstalls(d, clients);
            && Covers(after, RecordedVersion(d))
            && forall i :: 0 <= i < |clients| ==> Covers(after, Some(clients[i].attempt.version))
    decreases |clients|
  {
    hide ServiceVersion.Compare, Covers, Install;
    if clients == [] {
      CoversItself(d);
    } else {
      InstallNeverDowngrades(d, clients[0]);
      var next := Install(d, clients[0].attempt, clients[0].sameCli);
      VersionsNeverDecrease(next, clients[1..]);
      var after := AfterInstalls(d, clients);
      CoversChain(after, next, RecordedVersion(d));
      CoversChain(after, next, Some(clients[0].attempt.version));
      forall i | 0 <= i < |clients| ensures Covers(after, Some(clients[i].attempt.version)) {
        if i > 0 {
          assert clients[i] == clients[1..][i - 1];
        }
      }
    }
  }

  lemma CoversItself(d: Slots)
    ensures Covers(d, RecordedVersion(d))
  {
    if RecordedVersion(d).Some? {
      ServiceVersion.AtLeastItself(RecordedVersion(d).value);
    }
  }

  // ----- The installer as it is written -----

  datatype InstallResult = Stopped | Refused | Failed | Done(record: Record)

  /** The three files, and how many more writes happen before the process is stopped. */
  class RecordStore {
    var v2: Option<Record>
    var v1: Option<Record>
    var previous: Option<Record>
    var budget: nat

    ghost function State(): Slots
      reads this
    {
      Slots(v2, v1, previous)
    }

    constructor (d: Slots, budget: nat)
      ensures State() == d && this.budget == budget
    {
      v2, v1, previous := d.v2, d.v1, d.previous;
      this.budget := budget;
    }

    /** Whether the process reaches its next write. */
    method Reaches() returns (reached: bool)
      modifies this`budget
      ensures reached <==> old(budget) > 0
      ensures budget == if reached then old(budget) - 1 else old(budget)
    {
      reached := budget > 0;
      if reached {
        budget := budget - 1;
      }
    }

    method WriteRecord(r: Record) returns (reached: bool)
      modifies this
      ensures State() == if reached then WriteBack(old(State()), r) else old(State())
      ensures !reached ==> budget == old(budget) == 0
    {
      reached := Reaches();
      if reached && r.Legacy? {
        v1 := Some(r);
      } else if reached {
        v2 := Some(r);
      }
    }

    method UnlinkV2() returns (reached: bool)
      modifies this
      ensures State() == if reached then old(State()).(v2 := None) else old(State())
      ensures !reached ==> budget == old(budget) == 0
    {
      reached := Reaches();
      if reached {
        v2 := None;
      }
    }

    method UnlinkV1() returns (reached: bool)
      modifies this
      ensures State() == if reached then old(State()).(v1 := None) else old(State())
      ensures !reached ==> budget == old(budget) == 0
    {
      reached := Reaches();
      if reached {
        v1 := None;
      }
    }

    method WritePrevious(r: Option<Record>) returns (reached: bool)
      modifies this
      ensures State() == if reached then old(State()).(previous := r) else old(State())
      ensures !reached ==> budget == old(budget) == 0
    {
      reached := Reaches();
      if reached {
        previous := r;
      }
    }

    /** The failure path of an install. */
    method Restore(fallback: Option<Record>, a: Attempt) returns (finished: bool)
      modifies this
      ensures var all := [old(State())] + Restoration(old(State()), fallback, a);
              State() in all && (finished ==> State() == all[|all| - 1])
      ensures !finished ==> budget == 0
    {
      ghost var d := State();
      ghost var all := Restoration(d, fallback, a);
      finished := true;
      var current := Slots(v2, v1, previous);
      if StaysCommitted(current, a) {
        return;
      }
      if fallback.Some? {
        if a.ownsPrevious {
          finished := WriteRecord(fallback.value);
          if !finished { return; }
          assert State() == all[0];
          if fallback.value.Legacy? && !a.keepsV2 {
            finished := UnlinkV2();
            if !finished { return; }
          }
          assert State() == all[1];
          if !a.keepsPrevious {
            finished := WritePrevious(None);
            if !finished { return; }
          }
          assert State() == all[2];
        }
      } else if a.ownsPlanned {
        finished := WriteRecord(Planned(a));
        assert finished ==> State() == all[0];
      } else if !a.keepsV2 {
        finished := UnlinkV2();
        assert finished ==> State() == all[0];
      }
    }

    /** The success path of an install. */
    method Complete(a: Attempt) returns (finished: bool)
      modifies this
      ensures var all := [old(State())] + Completion(old(State()), a);
              State() in all && (finished ==> State() == all[|all| - 1])
      ensures !finished ==> budget == 0
    {
      ghost var all := Completion(State(), a);
      finished := WriteRecord(Final(a));
      if !finished { return; }
      assert State() == all[0];
      finished := UnlinkV1();
      if !finished { return; }
      assert State() == all[1];
      finished := WritePrevious(None);
      assert finished ==> State() == all[2];
    }

    /** Everything up to and including the platform step, for the records already read. */
    method Prepare(existing: Option<Record>, fallback: Option<Record>, a: Attempt) returns (finished: bool)
      requires fallback == existing || (existing.Some? && IsInstalling(existing.value))
      modifies this
      ensures var d1 := Backup(old(State()), existing);
              var d2 := DropLegacy(d1, fallback);
              var d3 := Announce(d2, fallback, a);
              var d4 := Commit(d3, a);
              State() in [old(State()), d1, d2, d3, d4] && (finished ==> State() == d4)
      ensures !finished ==> budget == 0
    {
      finished := true;
      if existing.Some? && !IsInstalling(existing.value) {
        finished := WritePrevious(existing);
        if !finished { return; }
      }
      if fallback.Some? && fallback.value.Legacy? {
        finished := UnlinkV1();
        if !finished { return; }
      }
      if fallback.Some? {
        finished := WriteRecord(Planned(a));
      } else {
        finished := UnlinkV2();
      }
      if !finished { return; }
      if a.commits {
        finished := WriteRecord(CommittedRecord(a));
      }
    }

    /**
     * installStartupServiceRecords: wherever it stops, the files are in one of the states of Visits, and
     * in the last of them when nothing stopped it.
     */
    method InstallStartupServiceRecords(a: Attempt) returns (result: InstallResult)
      modifies this
      ensures State() in Visits(old(State()), a)
      ensures !result.Stopped? ==> State() == Visits(old(State()), a)[|Visits(old(State()), a)| - 1]
      ensures result.Stopped? ==> budget == 0
      ensures result.Done? ==> result.record == Final(a) && State() == Slots(Some(Final(a)), None, None)
    {
      var current := Slots(v2, v1, previous);
      var existing := ReadRecord(current);
      if existing.Err? {
        return Refused;
      }
      var fallback := PreviousOf(current, existing.value);
      if fallback.Err? {
        return Refused;
      }
      var finished := Prepare(existing.value, fallback.value, a);
      if !finished {
        return Stopped;
      }
      if a.succeeds {
        finished := Complete(a);
        return if finished then Done(Final(a)) else Stopped;
      }
      finished := Restore(fallback.value, a);
      return if finished then Failed else Stopped;
    }
  }
}
