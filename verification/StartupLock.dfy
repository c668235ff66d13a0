/**
 * Any number of processes run `ensureRunning` against one lock file, one control socket and one state file.
 * Each file or socket access is a step of its own, except that a stale lock is read and removed in one step.
 */
module StartupLock {
  import opened Wrappers

  type Pid = nat

  /** The lock file is created empty; its owner then writes the record. */
  datatype Lock = Lock(owner: Pid, recorded: bool)

  datatype Socket = Missing | Unrelated | Daemon(compatible: bool, routes: nat)

  datatype Outcome = Running | Failed(code: string)

  /** Where a process stands; `locked` tells the check under the lock from the one before it. */
  datatype Pc =
    | Probe(locked: bool)
    | ReadState(locked: bool)
    | LookForLock(locked: bool)
    | Acquire
    | Write
    | Replace
    | AwaitStop
    | AssertDead
    | Start
    | Listen
    | Record
    | Verify
    | Release(outcome: Outcome)
    | Clear
    | Wait
    | Done(outcome: Outcome)

  /** `state` is the state file and whether it names this socket and namespace. */
  datatype World = World(
    lock: Option<Lock>,
    socket: Socket,
    state: Option<bool>,
    procs: map<Pid, Pc>,
    dead: set<Pid>,
    starters: seq<Pid>)

  /** What a process observes in its step, and whether what it tries succeeds. */
  datatype Reading = Reading(seen: Socket, ok: bool, aged: bool, predatesBoot: bool, ownerRuns: bool)

  datatype Event =
    | Arrive(p: Pid)
    | Go(p: Pid, reading: Reading)
    | Crash(p: Pid)
    | Outside(socket: Socket, state: Option<bool>)

  /** Leaves the protected part, with the lock still to release if it is held. */
  function Leave(locked: bool, o: Outcome): Pc {
    if locked then Release(o) else Done(o)
  }

  /** No healthy daemon was found. */
  function NotRunning(locked: bool): Pc {
    if locked then Replace else Acquire
  }

  function AfterProbe(locked: bool, seen: Socket): Pc {
    match seen
    case Missing => NotRunning(locked)
    case Unrelated => Leave(locked, Failed("UNRELATED_LISTENER"))
    case Daemon(compatible, routes) =>
      if compatible then ReadState(locked)
      else if routes > 0 then Leave(locked, Failed("INCOMPATIBLE_ACTIVE_DAEMON"))
      else NotRunning(locked)
  }

  function AfterReplace(seen: Socket): Pc {
    match seen
    case Missing => AssertDead
    case Unrelated => Release(Failed("UNRELATED_LISTENER"))
    case Daemon(compatible, routes) =>
      if compatible then AssertDead
      else if routes > 0 then Release(Failed("INCOMPATIBLE_ACTIVE_DAEMON"))
      else AwaitStop
  }

  function At(w: World, p: Pid, pc: Pc): World {
    w.(procs := w.procs[p := pc])
  }

  predicate Stale(l: Lock, r: Reading) {
    (l.recorded && (r.predatesBoot || !r.ownerRuns)) || (!l.recorded && r.aged)
  }

  /** The next step of a process. */
  function Advance(w: World, p: Pid, r: Reading): World
    requires p in w.procs
  {
    match w.procs[p]
    case Probe(locked) => At(w, p, AfterProbe(locked, r.seen))
    case ReadState(locked) =>
      At(w, p, match w.state
               case None => LookForLock(locked)
               case Some(matches) => Leave(locked, if matches then Running else Failed("INVALID_STATE")))
    case LookForLock(locked) =>
      At(w, p, if w.lock.Some? then NotRunning(locked) else Leave(locked, Failed("INVALID_STATE")))
    case Acquire =>
      if w.lock.Some? then At(w, p, Clear) else At(w.(lock := Some(Lock(p, false))), p, Write)
    case Write =>
      if r.ok then
        At(if w.lock.Some? && w.lock.value.owner == p then w.(lock := Some(Lock(p, true))) else w, p, Probe(true))
      else
        At(w.(lock := None), p, Done(Failed("EIO")))
    case Replace => At(w, p, AfterReplace(r.seen))
    case AwaitStop =>
      At(w, p, if !r.ok then Release(Failed("STOP_TIMEOUT"))
               else if r.seen.Missing? && w.state.None? then Start else AwaitStop)
    case AssertDead => At(w, p, if r.ok then Start else Release(Failed("UNHEALTHY_DAEMON")))
    case Start => At(w.(starters := w.starters + [p]), p, if r.ok then Listen else Release(Failed("EACCES")))
    case Listen =>
      if r.ok then At(w.(socket := Daemon(true, 0)), p, Record) else At(w, p, Release(Failed("EADDRINUSE")))
    case Record =>
      if r.ok then At(w.(state := Some(true)), p, Verify)
      else At(w.(socket := Missing, state := None), p, Release(Failed("EIO")))
    case Verify =>
      At(w, p, Release(if r.seen.Daemon? && r.seen.compatible then Running else Failed("START_FAILED")))
    case Release(o) => At(w.(lock := None), p, Done(o))
    case Clear => At(if w.lock.Some? && Stale(w.lock.value, r) then w.(lock := None) else w, p, Wait)
    case Wait => At(w, p, if r.ok then Probe(false) else Done(Failed("STARTUP_TIMEOUT")))
    case Done(_) => w
  }

  predicate Alive(w: World, p: Pid) {
    p in w.procs && p !in w.dead
  }

  function Step(w: World, e: Event): World {
    match e
    case Arrive(p) => if p in w.procs then w else At(w, p, Probe(false))
    case Go(p, r) => if Alive(w, p) then Advance(w, p, r) else w
    case Crash(p) => w.(dead := w.dead + {p})
    case Outside(socket, state) => w.(socket := socket, state := state)
  }

  /** Between acquire and release. */
  predicate Critical(pc: Pc) {
    match pc
    case Probe(locked) => locked
    case ReadState(locked) => locked
    case LookForLock(locked) => locked
    case Acquire => false
    case Clear => false
    case Wait => false
    case Done(_) => false
    case _ => true
  }

  predicate Holds(w: World, p: Pid) {
    Alive(w, p) && Critical(w.procs[p])
  }

  /**
   * What the staleness test relies on: a start time before this boot and a missing process both mean that the
   * recorded owner is gone, and an owner at work writes its record before the lock counts as old.
   */
  predicate Sound(w: World, e: Event) {
    e.Go? && Alive(w, e.p) && w.procs[e.p] == Clear && w.lock.Some? && Stale(w.lock.value, e.reading) ==>
      !Holds(w, w.lock.value.owner)
  }

  function Run(w: World, events: seq<Event>): World {
    if events == [] then w else Step(Run(w, events[..|events| - 1]), events[|events| - 1])
  }

  predicate SoundRun(w: World, events: seq<Event>) {
    events == [] ||
    (var before := events[..|events| - 1];
     SoundRun(w, before) && Sound(Run(w, before), events[|events| - 1]))
  }

  /** Nobody runs yet; the lock file, the socket and the state file may be left over from before. */
  predicate Fresh(w: World) {
    w.procs == map[] && w.starters == []
  }

  /** Whoever stands between acquire and release owns the lock file. */
  ghost predicate OwnsLock(w: World) {
    forall p :: Holds(w, p) ==>
      w.lock.Some? && w.lock.value.owner == p && (w.lock.value.recorded <==> w.procs[p] != Write)
  }

  lemma GoKeepsOwnership(w: World, p: Pid, r: Reading)
    requires OwnsLock(w) && Sound(w, Go(p, r)) && Alive(w, p)
    ensures OwnsLock(Advance(w, p, r))
  {
    hide Stale;
    var after := Advance(w, p, r);
    forall q | Holds(after, q)
      ensures after.lock.Some? && after.lock.value.owner == q && (after.lock.value.recorded <==> after.procs[q] != Write)
    {
      if q != p {
        assert Holds(w, q);
      } else {
        assert Critical(w.procs[p]) ==> Holds(w, p);
      }
    }
  }

  lemma StepKeepsOwnership(w: World, e: Event)
    requires OwnsLock(w) && Sound(w, e)
    ensures OwnsLock(Step(w, e))
  {
    hide Advance;
    match e
    case Go(p, r) =>
      if Alive(w, p) {
        GoKeepsOwnership(w, p, r);
      }
    case _ =>
      forall q | Holds(Step(w, e), q) ensures Holds(w, q) {
      }
  }

  lemma {:induction false} RunKeepsOwnership(w: World, events: seq<Event>)
    requires Fresh(w) && SoundRun(w, events)
    ensures OwnsLock(Run(w, events))
    decreases |events|
  {
    if events != [] {
      RunKeepsOwnership(w, events[..|events| - 1]);
      StepKeepsOwnership(Run(w, events[..|events| - 1]), events[|events| - 1]);
    }
  }

  /** For any interleaving at most one live process is between acquire and release. */
  lemma {:induction false} MutualExclusion(w: World, events: seq<Event>, p: Pid, q: Pid)
    requires Fresh(w) && SoundRun(w, events)
    requires Holds(Run(w, events), p) && Holds(Run(w, events), q)
    ensures p == q
  {
    RunKeepsOwnership(w, events);
  }

  // ----- Without sound readings -----

  lemma RunNext(w: World, events: seq<Event>, e: Event)
    ensures Run(w, events + [e]) == Step(Run(w, events), e)
    ensures SoundRun(w, events + [e]) <==> SoundRun(w, events) && Sound(Run(w, events), e)
  {
    assert (events + [e])[..|events|] == events;
  }

  /** What a process observes when nothing listens and everything it tries succeeds. */
  const QUIET := Reading(Missing, true, false, false, true)

  /** Another process leads the same life as before when q waits, probes a missing socket and takes the free lock. */
  lemma TakesFreeLock(w: World, events: seq<Event>, q: Pid) returns (more: seq<Event>)
    requires Alive(Run(w, events), q) && Run(w, events).procs[q] == Wait && Run(w, events).lock.None?
    ensures var before, after := Run(w, events), Run(w, more);
            && events <= more && Holds(after, q)
            && forall p :: p != q && Holds(before, p) ==> Holds(after, p)
  {
    var w0 := Run(w, events);
    more := events;
    RunNext(w, more, Outside(Missing, w0.state));
    more := more + [Outside(Missing, w0.state)];
    RunNext(w, more, Go(q, QUIET));
    more := more + [Go(q, QUIET)];
    RunNext(w, more, Go(q, QUIET));
    more := more + [Go(q, QUIET)];
    RunNext(w, more, Go(q, QUIET));
    more := more + [Go(q, QUIET)];
    assert Run(w, more).procs == w0.procs[q := Write] && Run(w, more).dead == w0.dead;
  }

  /**
   * The exclusion needs exactly sound readings: once any sound run is followed by a step that removes the lock of
   * an owner at work, the run goes on to two processes between acquire and release. It does not matter whether
   * the owner was recorded and misjudged, or had not written its record yet.
   */
  lemma {:induction false} UnsoundClearBreaksExclusion(w: World, events: seq<Event>, e: Event)
      returns (more: seq<Event>)
    requires Fresh(w) && SoundRun(w, events) && !Sound(Run(w, events), e)
    ensures events + [e] <= more
    ensures var before, after := Run(w, events), Run(w, more);
            && e.Go? && before.lock.Some? && before.lock.value.owner != e.p
            && Holds(after, before.lock.value.owner) && Holds(after, e.p)
  {
    var before := Run(w, events);
    var p, q := before.lock.value.owner, e.p;
    RunNext(w, events, e);
    assert Step(before, e) == At(before.(lock := None), q, Wait);
    more := TakesFreeLock(w, events + [e], q);
    assert Holds(Step(before, e), p);
  }

  /** Two processes arrive; the first holds the new lock and the second is about to look whether it is stale. */
  lemma {:induction false} OwnerAndRival(w: World, p: Pid, q: Pid) returns (events: seq<Event>)
    requires Fresh(w) && w.lock.None? && p != q && p !in w.dead && q !in w.dead
    ensures SoundRun(w, events)
    ensures var after := Run(w, events);
            Alive(after, p) && Alive(after, q) && after.procs[p] == Write && after.procs[q] == Clear
            && after.lock == Some(Lock(p, false))
  {
    events := [Arrive(p)];
    RunNext(w, [], Arrive(p));
    assert [] + [Arrive(p)] == [Arrive(p)] && Run(w, []) == w && SoundRun(w, []);
    RunNext(w, events, Go(p, QUIET));
    events := events + [Go(p, QUIET)];
    RunNext(w, events, Go(p, QUIET));
    events := events + [Go(p, QUIET)];
    RunNext(w, events, Arrive(q));
    events := events + [Arrive(q)];
    RunNext(w, events, Go(q, QUIET));
    events := events + [Go(q, QUIET)];
    RunNext(w, events, Go(q, QUIET));
    events := events + [Go(q, QUIET)];
  }

  /** An owner that has not written its record by the time its lock counts as old loses the exclusion. */
  lemma {:induction false} TardyOwnerIsNotExcluded(w: World, p: Pid, q: Pid) returns (more: seq<Event>)
    requires Fresh(w) && w.lock.None? && p != q && p !in w.dead && q !in w.dead
    ensures Holds(Run(w, more), p) && Holds(Run(w, more), q)
  {
    var events := OwnerAndRival(w, p, q);
    hide Run, SoundRun, Step, Advance;
    more := UnsoundClearBreaksExclusion(w, events, Go(q, QUIET.(aged := true)));
  }

  /** A recorded owner at work whose process is taken for missing loses it as well. */
  lemma {:induction false} MisjudgedOwnerIsNotExcluded(w: World, p: Pid, q: Pid) returns (more: seq<Event>)
    requires Fresh(w) && w.lock.None? && p != q && p !in w.dead && q !in w.dead
    ensures Holds(Run(w, more), p) && Holds(Run(w, more), q)
  {
    var events := OwnerAndRival(w, p, q);
    RunNext(w, events, Go(p, QUIET));
    events := events + [Go(p, QUIET)];
    hide Run, SoundRun;
    more := UnsoundClearBreaksExclusion(w, events, Go(q, QUIET.(ownerRuns := false)));
  }

  // ----- What a process decides from what it sees -----

  /** A daemon of another protocol that still serves routes. */
  ghost predicate Busy(seen: Socket) {
    seen.Daemon? && !seen.compatible && seen.routes > 0
  }

  /** Nothing listens, or a daemon of another protocol that nobody uses. */
  ghost predicate Replaceable(seen: Socket) {
    seen.Missing? || (seen.Daemon? && !seen.compatible && seen.routes == 0)
  }

  /** The call is over for this process, once the lock is released if it holds it. */
  ghost predicate Ends(after: Pc, locked: bool, o: Outcome) {
    after == if locked then Release(o) else Done(o)
  }

  /** One step of a live process: nothing else in the world changes, and the process goes on at `pc`. */
  ghost predicate OnlyMoves(w: World, p: Pid, r: Reading, pc: Pc) {
    Step(w, Go(p, r)) == w.(procs := w.procs[p := pc])
  }

  /**
   * A probe refuses exactly an unrelated listener and a daemon of another protocol with routes, goes on to read the
   * state exactly of a compatible daemon, and otherwise goes for the lock, or on to replacing if it has it.
   */
  lemma ProbeDecides(w: World, p: Pid, r: Reading, locked: bool)
    requires Alive(w, p) && w.procs[p] == Probe(locked)
    ensures var after := Step(w, Go(p, r)).procs[p];
            && OnlyMoves(w, p, r, after)
            && (r.seen.Unrelated? <==> Ends(after, locked, Failed("UNRELATED_LISTENER")))
            && (Busy(r.seen) <==> Ends(after, locked, Failed("INCOMPATIBLE_ACTIVE_DAEMON")))
            && (Compatible(r.seen) <==> after == ReadState(locked))
            && (Replaceable(r.seen) <==> after == if locked then Replace else Acquire)
  {
  }

  /** The state file decides about a compatible daemon; without one, somebody who holds the lock may be starting it. */
  lemma StateDecides(w: World, p: Pid, r: Reading, locked: bool)
    requires Alive(w, p) && (w.procs[p] == ReadState(locked) || w.procs[p] == LookForLock(locked))
    ensures var after := Step(w, Go(p, r)).procs[p];
            && OnlyMoves(w, p, r, after)
            && (Ends(after, locked, Running) <==> w.procs[p].ReadState? && w.state == Some(true))
            && (Ends(after, locked, Failed("INVALID_STATE")) <==>
                  if w.procs[p].ReadState? then w.state == Some(false) else w.lock.None?)
            && (after == LookForLock(locked) <==> w.procs[p].ReadState? && w.state.None?)
            && (after == (if locked then Replace else Acquire) <==> w.procs[p].LookForLock? && w.lock.Some?)
  {
  }

  /** Under the lock the same two are refused; only an idle daemon of another protocol is waited for. */
  lemma ReplaceDecides(w: World, p: Pid, r: Reading)
    requires Alive(w, p) && w.procs[p] == Replace
    ensures var after := Step(w, Go(p, r)).procs[p];
            && OnlyMoves(w, p, r, after)
            && (r.seen.Unrelated? <==> after == Release(Failed("UNRELATED_LISTENER")))
            && (Busy(r.seen) <==> after == Release(Failed("INCOMPATIBLE_ACTIVE_DAEMON")))
            && (r.seen.Missing? || Compatible(r.seen) <==> after == AssertDead)
            && (Replaceable(r.seen) && !r.seen.Missing? <==> after == AwaitStop)
  {
  }

  /** A start begins only when the old daemon and its state are gone, or nobody alive is behind the state. */
  lemma ClearanceDecides(w: World, p: Pid, r: Reading)
    requires Alive(w, p) && (w.procs[p] == AwaitStop || w.procs[p] == AssertDead)
    ensures var after := Step(w, Go(p, r)).procs[p];
            && OnlyMoves(w, p, r, after)
            && (after == Start <==>
                  r.ok && (w.procs[p] == AwaitStop ==> r.seen.Missing? && w.state.None?))
            && (!r.ok <==> after == Release(Failed(if w.procs[p] == AwaitStop then "STOP_TIMEOUT" else "UNHEALTHY_DAEMON")))
  {
  }

  /** Past the last look under the lock, on the way to a start. */
  ghost predicate Cleared(pc: Pc) {
    pc.AwaitStop? || pc.AssertDead? || pc.Start? || pc.Listen? || pc.Record? || pc.Verify?
  }

  /** At this event the process looked under the lock, and saw neither a foreign listener nor a daemon in use. */
  ghost predicate LookedAt(w: World, events: seq<Event>, p: Pid, i: nat) {
    && i < |events| && events[i].Go? && events[i].p == p
    && Alive(Run(w, events[..i]), p) && Run(w, events[..i]).procs[p] == Replace
    && !events[i].reading.seen.Unrelated? && !Busy(events[i].reading.seen)
  }

  /**
   * Over any run, whatever the readings: a process that is on its way to a start has looked under the lock, and saw
   * neither an unrelated listener nor a daemon of another protocol with routes.
   */
  lemma {:induction false} NobodyStartsOverOthers(w: World, events: seq<Event>, p: Pid) returns (i: nat)
    requires Fresh(w)
    requires p in Run(w, events).procs && Cleared(Run(w, events).procs[p])
    ensures LookedAt(w, events, p, i)
    decreases |events|
  {
    var n := |events| - 1;
    var before, e := Run(w, events[..n]), events[n];
    if p in before.procs && Cleared(before.procs[p]) {
      i := NobodyStartsOverOthers(w, events[..n], p);
      assert events[..n][..i] == events[..i];
    } else {
      i := n;
      assert e.Go? && e.p == p && Alive(before, p) && before.procs[p] == Replace;
      ReplaceDecides(before, p, e.reading);
    }
  }

  /** At this event the process found a daemon that answers, or had started one that does. */
  ghost predicate FoundAt(w: World, events: seq<Event>, p: Pid, i: nat) {
    && i < |events| && events[i].Go? && events[i].p == p && Alive(Run(w, events[..i]), p)
    && var before := Run(w, events[..i]);
       || (before.procs[p].ReadState? && before.state == Some(true))
       || (before.procs[p].Verify? && Compatible(events[i].reading.seen))
  }

  predicate Succeeds(pc: Pc) {
    pc == Done(Running) || pc == Release(Running)
  }

  lemma RunningStepFoundIt(w: World, p: Pid, r: Reading)
    requires p in w.procs && !Succeeds(w.procs[p]) && Succeeds(Advance(w, p, r).procs[p])
    ensures (w.procs[p].ReadState? && w.state == Some(true)) || (w.procs[p].Verify? && Compatible(r.seen))
  {
    hide Stale;
  }

  /** Over any run nobody is told that the daemon runs without having found it so. */
  lemma {:induction false} RunningWasFound(w: World, events: seq<Event>, p: Pid) returns (i: nat)
    requires Fresh(w) && p in Run(w, events).procs && Succeeds(Run(w, events).procs[p])
    ensures FoundAt(w, events, p, i)
    decreases |events|
  {
    var n := |events| - 1;
    var before, e := Run(w, events[..n]), events[n];
    if p in before.procs && Succeeds(before.procs[p]) {
      i := RunningWasFound(w, events[..n], p);
      assert events[..n][..i] == events[..i];
    } else {
      i := n;
      OnlyItsOwnStep(before, e, p);
      hide Advance;
      RunningStepFoundIt(before, p, e.reading);
    }
  }

  /** What makes a step end in this failure; a state file may have appeared since it was found missing. */
  ghost predicate Cause(code: string, w: World, pc: Pc, r: Reading) {
    || (code == "UNRELATED_LISTENER" && (pc.Probe? || pc.Replace?) && r.seen.Unrelated?)
    || (code == "INCOMPATIBLE_ACTIVE_DAEMON" && (pc.Probe? || pc.Replace?) && Busy(r.seen))
    || (code == "INVALID_STATE" && pc.ReadState? && w.state == Some(false))
    || (code == "INVALID_STATE" && pc.LookForLock? && w.lock.None?)
    || (code == "STOP_TIMEOUT" && pc.AwaitStop? && !r.ok)
    || (code == "UNHEALTHY_DAEMON" && pc.AssertDead? && !r.ok)
    || (code == "EACCES" && pc.Start? && !r.ok)
    || (code == "EADDRINUSE" && pc.Listen? && !r.ok)
    || (code == "EIO" && (pc.Write? || pc.Record?) && !r.ok)
    || (code == "START_FAILED" && pc.Verify? && !Compatible(r.seen))
    || (code == "STARTUP_TIMEOUT" && pc.Wait? && !r.ok)
  }

  predicate FailsWith(pc: Pc, code: string) {
    pc == Done(Failed(code)) || pc == Release(Failed(code))
  }

  lemma FailingStepHasItsCause(w: World, p: Pid, r: Reading, code: string)
    requires p in w.procs && !FailsWith(w.procs[p], code) && FailsWith(Advance(w, p, r).procs[p], code)
    ensures Cause(code, w, w.procs[p], r)
  {
    hide Stale;
  }

  /** Over any run whoever is told of a failure met its cause. */
  lemma {:induction false} FailureHasItsCause(w: World, events: seq<Event>, p: Pid, code: string) returns (i: nat)
    requires Fresh(w) && p in Run(w, events).procs && FailsWith(Run(w, events).procs[p], code)
    ensures i < |events| && events[i].Go? && events[i].p == p && Alive(Run(w, events[..i]), p)
    ensures var before := Run(w, events[..i]); Cause(code, before, before.procs[p], events[i].reading)
    decreases |events|
  {
    var n := |events| - 1;
    var before, e := Run(w, events[..n]), events[n];
    if p in before.procs && FailsWith(before.procs[p], code) {
      i := FailureHasItsCause(w, events[..n], p, code);
      assert events[..n][..i] == events[..i];
    } else {
      i := n;
      OnlyItsOwnStep(before, e, p);
      hide Advance, Cause;
      FailingStepHasItsCause(before, p, e.reading, code);
    }
  }

  /** A process arrives at a probe and moves by its own steps. */
  lemma OnlyItsOwnStep(w: World, e: Event, p: Pid)
    requires p in Step(w, e).procs && (p in w.procs ==> Step(w, e).procs[p] != w.procs[p])
    ensures || (e == Arrive(p) && p !in w.procs && Step(w, e).procs[p] == Probe(false))
            || (e.Go? && e.p == p && Alive(w, p) && Step(w, e) == Advance(w, p, e.reading))
  {
    if e.Go? && Alive(w, e.p) {
      OthersStay(w, e.p, e.reading);
    }
  }

  lemma OthersStay(w: World, p: Pid, r: Reading)
    requires p in w.procs
    ensures var after := Advance(w, p, r);
            p in after.procs && after.procs == w.procs[p := after.procs[p]]
  {
    hide Stale, AfterProbe, AfterReplace;
  }

  /** The lock is the one from before, or its owner is still between acquire and release. */
  ghost predicate LockIsUsed(before: World, w: World) {
    w.lock.Some? && w.lock != before.lock ==>
      w.lock.value.owner in w.procs && Critical(w.procs[w.lock.value.owner])
  }

  lemma StepUsesLock(before: World, w: World, p: Pid, r: Reading)
    requires p in w.procs && LockIsUsed(before, w)
    ensures LockIsUsed(before, Advance(w, p, r))
  {
    OthersStay(w, p, r);
    var after := Advance(w, p, r);
    OwnStepUsesLock(w, p, r);
    hide Advance;
  }

  /** A step takes a free lock, keeps it, writes its record, or removes it. */
  lemma OwnStepUsesLock(w: World, p: Pid, r: Reading)
    requires p in w.procs
    ensures var after := Advance(w, p, r);
            || after.lock.None?
            || (after.lock == w.lock && (Critical(w.procs[p]) ==> Critical(after.procs[p])))
            || (after.lock.value.owner == p && Critical(after.procs[p]))
  {
    hide Stale;
  }

  /**
   * Over any run, whatever the readings: nobody leaves its lock behind. Once every process is done, the lock file
   * is gone, unless it is the one that was there before.
   */
  lemma {:induction false} NobodyLeavesALock(w: World, events: seq<Event>)
    requires Fresh(w)
    ensures LockIsUsed(w, Run(w, events))
    ensures var after := Run(w, events);
            (forall p :: p in after.procs ==> after.procs[p].Done?) ==> after.lock.None? || after.lock == w.lock
    decreases |events|
  {
    if events != [] {
      var last, e := Run(w, events[..|events| - 1]), events[|events| - 1];
      NobodyLeavesALock(w, events[..|events| - 1]);
      hide Advance;
      if e.Go? && Alive(last, e.p) {
        StepUsesLock(w, last, e.p, e.reading);
      }
    }
  }

  /** A process that starts a daemon leaves a compatible one that serves nobody yet. */
  lemma StartedDaemonServesNobody(w: World, p: Pid, r: Reading)
    requires Alive(w, p) && w.procs[p] == Listen && Advance(w, p, r).procs[p] == Record
    ensures Advance(w, p, r).socket == Daemon(true, 0)
  {
  }

  // ----- One start -----

  predicate Compatible(s: Socket) {
    s.Daemon? && s.compatible
  }

  /**
   * Probes see what is there, every start succeeds, whoever started a daemon does not crash, and the outside
   * starts no compatible daemon, removes none, and leaves the state file of a started one alone.
   */
  predicate Calm(w: World, e: Event) {
    match e
    case Arrive(_) => true
    case Go(p, r) =>
      && Sound(w, e) && r.seen == w.socket
      && (Alive(w, p) && Starting(w.procs[p]) ==> r.ok)
    case Crash(p) => p !in w.starters
    case Outside(socket, state) =>
      if w.starters == [] then
        !Compatible(socket)
      else
        state == w.state && (socket == w.socket || (Compatible(socket) && Compatible(w.socket)))
  }

  predicate Starting(pc: Pc) {
    pc.Start? || pc.Listen? || pc.Record?
  }

  predicate CalmRun(w: World, events: seq<Event>) {
    events == [] ||
    (var before := events[..|events| - 1];
     CalmRun(w, before) && Calm(Run(w, before), events[|events| - 1]))
  }

  /** The process saw or started a compatible daemon. */
  predicate Knows(pc: Pc) {
    match pc
    case ReadState(_) => true
    case LookForLock(_) => true
    case Listen => true
    case Record => true
    case Verify => true
    case Release(o) => o.Running?
    case Done(o) => o.Running?
    case _ => false
  }

  /** The process holds the lock and is on its way to start a daemon. */
  predicate Launching(pc: Pc) {
    pc == LookForLock(true) || pc.Replace? || pc.AwaitStop? || pc.AssertDead? || Starting(pc) || pc.Verify?
  }

  ghost predicate NotStarted(w: World) {
    && w.starters == [] && !Compatible(w.socket)
    && forall p :: p in w.procs ==> !Knows(w.procs[p])
  }

  /** The starter is at work under the lock, or its daemon is up; nobody else is about to start another. */
  ghost predicate StartedBy(w: World, s: Pid) {
    && w.starters == [s] && Alive(w, s)
    && (|| w.procs[s].Listen?
        || (w.procs[s].Record? && Compatible(w.socket))
        || ((w.procs[s].Verify? || w.procs[s] == Release(Running) || w.procs[s] == Done(Running))
            && Compatible(w.socket) && w.state == Some(true)))
    && forall p :: Alive(w, p) && p != s ==> !Launching(w.procs[p])
  }

  ghost predicate OneStart(w: World) {
    OwnsLock(w) && (NotStarted(w) || (|w.starters| == 1 && StartedBy(w, w.starters[0])))
  }

  /** The step of a process before any start. */
  lemma GoBeforeStart(w: World, p: Pid, r: Reading)
    requires OwnsLock(w) && NotStarted(w) && Calm(w, Go(p, r)) && Alive(w, p)
    ensures OneStart(Advance(w, p, r))
  {
    GoKeepsOwnership(w, p, r);
    var after := Advance(w, p, r);
    if w.procs[p].Start? {
      assert Holds(w, p);
      forall q | Alive(after, q) && q != p ensures !Launching(after.procs[q]) {
        assert Alive(w, q) && (Critical(w.procs[q]) ==> Holds(w, q));
      }
      assert StartedBy(after, p);
    } else {
      forall q | q in after.procs ensures !Knows(after.procs[q]) {
        assert q in w.procs;
      }
    }
  }

  lemma OtherIsUnlocked(w: World, s: Pid, p: Pid)
    requires OwnsLock(w) && StartedBy(w, s) && Alive(w, p) && p != s && Critical(w.procs[p])
    ensures Compatible(w.socket) && w.state == Some(true)
  {
    assert Holds(w, p);
    assert !Holds(w, s);
  }

  /** A step that launches nothing changes nothing but the lock and the process itself. */
  lemma AdvanceFrame(w: World, p: Pid, r: Reading)
    requires p in w.procs && !Launching(w.procs[p])
    ensures var after := Advance(w, p, r);
            && after.starters == w.starters && after.dead == w.dead && after.socket == w.socket && after.state == w.state
            && after.procs == w.procs[p := after.procs[p]]
  {
  }

  lemma UpMeansNoLaunch(w: World, p: Pid, r: Reading)
    requires p in w.procs && !Launching(w.procs[p]) && r.seen == w.socket
    requires Critical(w.procs[p]) ==> Compatible(w.socket) && w.state == Some(true)
    ensures !Launching(Advance(w, p, r).procs[p])
  {
  }

  lemma OtherDoesNotLaunch(w: World, s: Pid, p: Pid, r: Reading)
    requires OwnsLock(w) && StartedBy(w, s) && r.seen == w.socket && Alive(w, p) && p != s
    ensures !Launching(Advance(w, p, r).procs[p])
  {
    hide Advance, OwnsLock, Critical, Launching;
    if Critical(w.procs[p]) {
      OtherIsUnlocked(w, s, p);
    }
    UpMeansNoLaunch(w, p, r);
  }

  /** A process other than the starter finds the daemon once it has the lock. */
  lemma GoOfOther(w: World, s: Pid, p: Pid, r: Reading)
    requires OwnsLock(w) && StartedBy(w, s) && Calm(w, Go(p, r)) && Alive(w, p) && p != s
    ensures StartedBy(Advance(w, p, r), s)
  {
    hide Advance, OwnsLock, Launching, Critical;
    var after := Advance(w, p, r);
    OtherDoesNotLaunch(w, s, p, r);
    AdvanceFrame(w, p, r);
    forall q | Alive(after, q) && q != s ensures !Launching(after.procs[q]) {
      assert Alive(w, q);
    }
  }

  lemma StepKeepsOneStart(w: World, e: Event)
    requires OneStart(w) && Calm(w, e)
    ensures OneStart(Step(w, e))
  {
    StepKeepsOwnership(w, e);
    hide Advance, OwnsLock;
    var after := Step(w, e);
    match e
    case Go(p, r) =>
      if Alive(w, p) {
        if NotStarted(w) {
          GoBeforeStart(w, p, r);
        } else if p == w.starters[0] {
        } else {
          GoOfOther(w, w.starters[0], p, r);
        }
      }
    case _ =>
      if !NotStarted(w) {
        var s := w.starters[0];
        forall q | Alive(after, q) && q != s ensures !Launching(after.procs[q]) {
          if q in w.procs {
            assert Alive(w, q);
          }
        }
        assert StartedBy(after, s);
      }
  }

  lemma {:induction false} RunKeepsOneStart(w: World, events: seq<Event>)
    requires Fresh(w) && !Compatible(w.socket) && CalmRun(w, events)
    ensures OneStart(Run(w, events))
    decreases |events|
  {
    if events != [] {
      RunKeepsOneStart(w, events[..|events| - 1]);
      StepKeepsOneStart(Run(w, events[..|events| - 1]), events[|events| - 1]);
    }
  }

  /**
   * For any interleaving in which starts succeed and the started daemon stays up, the daemon is started at most
   * once, and exactly once as soon as anybody is told that it runs.
   */
  lemma {:induction false} StartedExactlyOnce(w: World, events: seq<Event>, p: Pid)
    requires Fresh(w) && !Compatible(w.socket) && CalmRun(w, events)
    ensures var after := Run(w, events);
            && |after.starters| <= 1
            && (p in after.procs && after.procs[p] == Done(Running) ==> |after.starters| == 1)
  {
    RunKeepsOneStart(w, events);
  }
}
