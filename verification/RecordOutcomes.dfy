/** What an install makes of the three record files, and when an installed service counts as what. */
module RecordOutcomes {
  import opened Wrappers
  import opened InstallationRecords
  import ServiceVersion

  // ----- One write at a time -----

  /** The two states differ in at most one of the three files. */
  predicate OneFile(a: Slots, b: Slots) {
    || (a.v1 == b.v1 && a.previous == b.previous)
    || (a.v2 == b.v2 && a.previous == b.previous)
    || (a.v2 == b.v2 && a.v1 == b.v1)
  }

  ghost predicate ByOneFile(states: seq<Slots>) {
    forall i :: 0 <= i < |states| - 1 ==> OneFile(states[i], states[i + 1])
  }

  lemma ByOneFileJoins(a: seq<Slots>, b: seq<Slots>)
    requires ByOneFile(a) && ByOneFile(b) && a != [] && (b != [] ==> OneFile(a[|a| - 1], b[0]))
    ensures ByOneFile(a + b)
  {
    var all := a + b;
    forall i | 0 <= i < |all| - 1 ensures OneFile(all[i], all[i + 1]) {
      if i < |a| - 1 {
        assert all[i] == a[i] && all[i + 1] == a[i + 1];
      } else if i == |a| - 1 {
        assert all[i] == a[i] && all[i + 1] == b[0];
      } else {
        assert all[i] == b[i - |a|] && all[i + 1] == b[i - |a| + 1];
      }
    }
  }

  /** From any files, however the call goes: it starts from them, and each step writes or removes one file at most. */
  lemma {:induction false} EachStepIsOneWrite(d: Slots, a: Attempt)
    ensures Visits(d, a)[0] == d && ByOneFile(Visits(d, a))
  {
    var existing := ReadRecord(d);
    if existing.Ok? && PreviousOf(d, existing.value).Ok? {
      var previous := PreviousOf(d, existing.value).value;
      var d1 := Backup(d, existing.value);
      var d2 := DropLegacy(d1, previous);
      var d3 := Announce(d2, previous, a);
      var d4 := Commit(d3, a);
      hide ReadRecord, PreviousOf, StaysCommitted;
      var rest := if a.succeeds then Completion(d4, a) else Restoration(d4, previous, a);
      ByOneFileJoins([d, d1, d2, d3, d4], rest);
    }
  }

  // ----- What a finished call leaves -----

  /** The call found files it could read, and this record to fall back to. */
  ghost predicate FallsBackTo(d: Slots, previous: Option<Record>) {
    match ReadRecord(d)
    case Err(_) => false
    case Ok(None) => previous == None
    case Ok(Some(r)) =>
      if r.Current? && r.state.Installing? then
        if d.previous.Some? then previous == d.previous && PreviousIsValid(d.previous.value) else previous == None
      else previous == Some(r)
  }

  predicate PreviousIsValid(r: Record) {
    r.Legacy? || (r.state.Installed? && r.protocolVersion >= 1)
  }

  /** The record that is announced and, installed, committed. */
  function Own(a: Attempt, state: InstallationState, stamp: nat): Record {
    Current(state, a.version, 1, None, stamp)
  }

  /** The version 2 file as the platform step left it. */
  function Platform(previous: Option<Record>, a: Attempt): Option<Record> {
    if a.commits then Some(Own(a, Installed, a.stamp))
    else if previous.Some? then Some(Own(a, Installing, a.stamp))
    else None
  }

  /** The previous-record file before the platform step: the record in force, if it is complete. */
  function BackedUp(d: Slots, previous: Option<Record>): Option<Record> {
    if previous.Some? && ReadRecord(d) == Ok(previous) then previous else d.previous
  }

  /** Before the platform step the record in force is backed up, and a version 1 record is moved away. */
  predicate Prepared(d: Slots, previous: Option<Record>, s: Slots) {
    && s.previous == BackedUp(d, previous)
    && s.v1 == (if previous.Some? && previous.value.Legacy? then None else d.v1)
  }

  /**
   * From any files: a call that succeeds leaves its own record alone. One that fails keeps what it committed and
   * owns; failing that, it puts the previous record back where that is still owned, and only what a tolerated
   * failure kept stays beside it; and with nothing to put back it leaves its plan where that is owned, or nothing.
   */
  lemma {:induction false} FinishedCallLeaves(d: Slots, a: Attempt, previous: Option<Record>)
    requires FallsBackTo(d, previous)
    ensures var after := Visits(d, a)[|Visits(d, a)| - 1];
            if a.succeeds then
              after == Slots(Some(Own(a, Installed, a.finalStamp)), None, None)
            else if a.commits && a.ownsCommitted then
              Prepared(d, previous, after) && after.v2 == Some(Own(a, Installed, a.stamp))
            else if previous.Some? && a.ownsPrevious then
              var p := previous.value;
              && after.v1 == (if p.Legacy? then previous else d.v1)
              && after.v2 == (if p.Current? then previous else if a.keepsV2 then Platform(previous, a) else None)
              && after.previous == (if a.keepsPrevious then BackedUp(d, previous) else None)
            else
              && Prepared(d, previous, after)
              && after.v2 == (if previous.Some? || (a.keepsV2 && !a.ownsPlanned) then Platform(previous, a)
                              else if a.ownsPlanned then Some(Own(a, Installing, a.stamp))
                              else None)
  {
  }

  /** A call that cannot read its files, or the record it would fall back to, leaves them as they are. */
  lemma {:induction false} UnreadableFilesStay(d: Slots, a: Attempt)
    requires forall previous :: !FallsBackTo(d, previous)
    ensures Visits(d, a) == [d]
  {
    var existing := ReadRecord(d);
    if existing.Ok? && PreviousOf(d, existing.value).Ok? {
      assert FallsBackTo(d, PreviousOf(d, existing.value).value);
    }
  }

  /** The record in force is that of the first file there is; one that does not belong in its file is an error. */
  lemma RecordInForce(d: Slots)
    ensures d.v2.Some? ==>
              ReadRecord(d) == if d.v2.value.Current? && d.v2.value.protocolVersion >= 1 then Ok(d.v2) else Err(Mismatch)
    ensures d.v2.None? && d.v1.Some? ==> ReadRecord(d) == if d.v1.value.Legacy? then Ok(d.v1) else Err(Mismatch)
    ensures d.v2.None? && d.v1.None? && d.previous.Some? ==>
              ReadRecord(d) == if PreviousIsValid(d.previous.value) then Ok(d.previous) else Err(Mismatch)
    ensures d == Slots(None, None, None) ==> ReadRecord(d) == Ok(None)
  {
  }

  // ----- What an installed service counts as -----

  lemma {:induction false} StatusExactly(record: Option<Record>, version: string, sameCli: bool)
    ensures var status := Status(record, version, sameCli);
            && (status.Absent? <==> record.None?)
            && (status.AsLegacy? <==> record.Some? && record.value.Legacy?)
            && (status.InProgress? <==> record.Some? && record.value.Current? && record.value.state.Installing?)
    ensures record.Some? && record.value.Current? && record.value.state.Installed? ==>
              var status, r := Status(record, version, sameCli), record.value;
              var above, below :=
                ServiceVersion.VersionAbove(r.packageVersion, version), ServiceVersion.VersionAbove(version, r.packageVersion);
              var comparable := ServiceVersion.Parse(r.packageVersion).Some? && ServiceVersion.Parse(version).Some?;
              && (status.Newer? <==> above && r.protocolVersion == 1)
              && (status.NewerIncompatible? <==> above && r.protocolVersion != 1)
              && (status.Outdated? <==> below)
              && (status.AsCurrent? <==>
                    comparable && !above && !below && r.protocolVersion == 1 && r.controlSocket == None && sameCli)
  {
    if record.Some? && record.value.Current? && record.value.state.Installed? {
      var written := record.value.packageVersion;
      ServiceVersion.CompareMeansAbove(written, version);
      ServiceVersion.CompareMeansAbove(version, written);
      if ServiceVersion.Parse(written).Some? && ServiceVersion.Parse(version).Some? {
        ServiceVersion.CompareIsTotalPreorder(written, version, written);
      }
      hide ServiceVersion.VersionAbove, ServiceVersion.Parse, ServiceVersion.Precedence;
    }
  }
}
