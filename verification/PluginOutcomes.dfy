/** How plugin runs end: when hostnames are left without a client, and which clients outlive a shutdown. */
module PluginOutcomes {
  import opened Wrappers
  import opened PluginRecovery

  // ----- Who is responsible for a client -----

  /** The candidate of the running recovery. */
  predicate Candidate(p: Plugin, c: ClientId) {
    p.promise.Some? && p.promise.value in p.loops && OwnCandidate(p.loops[p.promise.value], c)
  }

  predicate Connecting(p: Plugin, c: ClientId) {
    || p.setup == SetupConnect(c)
    || (p.promise.Some? && p.promise.value in p.loops
        && p.loops[p.promise.value].LoopConnect? && p.loops[p.promise.value].candidate == c)
  }

  predicate ClosedBySetup(p: Plugin, c: ClientId) {
    p.setup.SetupClose? && p.setup.c == c
  }

  /**
   * Every open client is the current one, a candidate, or one of the clients nobody will close; every closing client
   * is awaited; and every fresh one is connecting.
   */
  ghost predicate Accounted(p: Plugin, left: set<ClientId>) {
    && (forall c :: Has(p, c, Open) ==> c in left || p.client == Some(c) || Candidate(p, c))
    && (forall c :: Has(p, c, Closing) && !p.shuttingDown ==> Candidate(p, c) || ClosedBySetup(p, c))
    && (forall c :: Has(p, c, Fresh) ==> Connecting(p, c))
    && (forall c :: c in left ==>
          && p.shuttingDown && Has(p, c, Open) && p.loops == map[]
          && (p.setup == SetupRegister(c) || (p.setup.SetupAnswered? && p.setup.c == c) || p.setup.SetupDone?))
  }

  /** The setup's connection opens although the shutdown has already closed what there was to close. */
  predicate OpensTooLate(p: Plugin, e: Event, c: ClientId) {
    p.shuttingDown && p.setup == SetupConnect(c) && e == SetupConnected(true)
  }

  function StillLeft(p: Plugin, e: Event, left: set<ClientId>): set<ClientId> {
    if e.Disconnected? then left - {e.c}
    else if p.setup.SetupConnect? && OpensTooLate(p, e, p.setup.c) then left + {p.setup.c}
    else left
  }

  /** No client became open, fresh or closing except this one. */
  ghost predicate OnlyChanges(p: Plugin, q: Plugin, c: ClientId) {
    forall d, s :: d != c && s != Dead ==> (Has(q, d, s) <==> Has(p, d, s))
  }

  ghost predicate NothingChanges(p: Plugin, q: Plugin) {
    forall d, s :: s != Dead ==> (Has(q, d, s) <==> Has(p, d, s))
  }

  lemma CleanupAccounts(p: Plugin, left: set<ClientId>)
    requires Accounted(p, left)
    ensures Accounted(Cleanup(p), left)
  {
    if !p.shuttingDown {
      var q := Cleanup(p);
      assert forall c :: c !in left;
      assert forall c: ClientId :: Candidate(q, c) <==> Candidate(p, c);
      assert forall c: ClientId :: Connecting(q, c) <==> Connecting(p, c);
      if p.client.Some? {
        assert OnlyChanges(p, q, p.client.value);
      } else {
        assert NothingChanges(p, q);
      }
      assert forall c: ClientId :: Has(q, c, Open) ==> Has(p, c, Open) && p.client != Some(c);
    }
  }

  lemma EndLoopAccounts(p: Plugin, l: LoopId, left: set<ClientId>)
    requires OneLoop(p) && l in p.loops && Accounted(p, left)
    requires !p.loops[l].LoopConnect? && forall c :: !Live(p, c)
    ensures Accounted(EndLoop(p, l), left)
  {
    assert NothingChanges(p, EndLoop(p, l));
    NobodyLives(p);
  }

  lemma NobodyLives(p: Plugin)
    requires forall c :: !Live(p, c)
    ensures forall c :: !Has(p, c, Open) && !Has(p, c, Closing)
  {
    forall c ensures !Has(p, c, Open) && !Has(p, c, Closing) {
      assert !Live(p, c);
    }
  }

  lemma RecoverAccounts(p: Plugin, left: set<ClientId>)
    requires OneLoop(p) && Accounted(p, left)
    ensures Accounted(RecoverRoutes(p), left)
  {
    hide Filtered;
    assert NothingChanges(p, RecoverRoutes(p));
  }

  lemma LoopClosedAccounts(p: Plugin, l: LoopId, last: bool, left: set<ClientId>)
    requires OneLoop(p) && l in p.loops && Accounted(p, left)
    requires !p.loops[l].LoopConnect? && forall c :: !Live(p, c)
    ensures Accounted(LoopClosed(p, l, last), left)
  {
    assert NothingChanges(p, LoopClosed(p, l, last));
    NobodyLives(p);
  }

  lemma LoopHeadAccounts(p: Plugin, l: LoopId, left: set<ClientId>)
    requires OneLoop(p) && l in p.loops && Accounted(p, left)
    requires !p.loops[l].LoopConnect? && forall c :: !Live(p, c)
    ensures Accounted(LoopHead(p, l), left)
  {
    hide Filtered;
    assert NothingChanges(p, LoopHead(p, l));
    NobodyLives(p);
  }

  /** The setup gives up or goes on recovering, with its own client out of the way. */
  lemma SetupFailedAccounts(p: Plugin, update: bool, left: set<ClientId>)
    requires OneLoop(p) && Accounted(p.(setup := SetupDone), left)
    ensures Accounted(SetupFailed(p, update), left)
  {
    CleanupAccounts(p.(setup := SetupDone), left);
    RecoverAccounts(p.(setup := SetupDone), left);
  }

  lemma SetupFailAccounts(p: Plugin, update: bool, left: set<ClientId>)
    requires Inv(p) && (p.setup.SetupInfra? || p.setup.SetupAnswered?) && Accounted(p, left)
    ensures Accounted(SetupFail(p, update), left)
  {
    hide NoReclaim, Forgotten, SetupFailed;
    var q := SetupFail(p, update);
    if p.shuttingDown {
      assert NothingChanges(p, q);
    } else if p.client.Some? && Has(p, p.client.value, Open) {
      assert Live(p, p.client.value);
      assert OnlyChanges(p, q, p.client.value);
    } else {
      SetupCannotBeClosing(p);
      NobodyLives(p);
      var done := p.(client := None, setup := SetupDone);
      assert NothingChanges(p, done);
      SetupFailedAccounts(p.(client := None), update, left);
    }
  }

  lemma SetupConnectedAccounts(p: Plugin, ok: bool, left: set<ClientId>)
    requires Inv(p) && p.setup.SetupConnect? && Accounted(p, left)
    ensures Accounted(SetupStep(p, SetupConnected(ok)), StillLeft(p, SetupConnected(ok), left))
  {
    hide NoReclaim, Forgotten, SetupFailed;
    var c := p.setup.c;
    var q := SetupStep(p, SetupConnected(ok));
    if ok {
      assert OnlyChanges(p, q, c) && Has(q, c, Open);
      assert forall l :: l !in p.loops;
    } else {
      var failed := Mark(p, c, Dead);
      assert OnlyChanges(p, failed, c) && Has(failed, c, Dead);
      NobodyLives(p);
      var done := failed.(client := None, setup := SetupDone);
      assert NothingChanges(failed, done);
      if p.shuttingDown {
        assert SetupFail(failed, false) == done;
      } else {
        SetupFailedAccounts(failed.(client := None), false, left);
      }
    }
  }

  lemma SetupStepAccounts(p: Plugin, e: Event, left: set<ClientId>)
    requires Inv(p) && Accounted(p, left)
    ensures Accounted(SetupStep(p, e), if e.SetupConnected? then StillLeft(p, e, left) else left)
  {
    hide NoReclaim, Forgotten, SetupFail;
    var q := SetupStep(p, e);
    match e
    case SetupInfraDone(ok, update) =>
      if p.setup.SetupInfra? && !ok {
        SetupFailAccounts(p, update, left);
      } else if p.setup.SetupInfra? && !p.shuttingDown {
        assert OnlyChanges(p, q, |p.clients|);
      } else {
        assert NothingChanges(p, q);
      }
    case SetupConnected(ok) =>
      if p.setup.SetupConnect? {
        SetupConnectedAccounts(p, ok, left);
      }
    case SetupResumed =>
      if p.setup.SetupAnswered? && p.setup.answer.Refused? {
        SetupFailAccounts(p, p.setup.answer.updateRequired, left);
      } else {
        assert NothingChanges(p, q);
      }
    case _ => assert NothingChanges(p, q);
  }

  lemma CloseCandidateAccounts(p: Plugin, l: LoopId, c: ClientId, last: bool, left: set<ClientId>)
    requires Inv(p) && l in p.loops && p.loops[l].LoopAnswered? && p.loops[l].candidate == c && Accounted(p, left)
    ensures Accounted(CloseCandidate(p, l, c, last), left)
  {
    hide NoReclaim, Forgotten, LoopClosed;
    if Has(p, c, Open) {
      assert OnlyChanges(p, CloseCandidate(p, l, c, last), c);
    } else {
      assert forall d :: Live(p, d) ==> OwnCandidate(p.loops[l], d);
      LoopClosedAccounts(p, l, last, left);
    }
  }

  lemma LoopConnectAccounts(p: Plugin, l: LoopId, ok: bool, left: set<ClientId>)
    requires Inv(p) && l in p.loops && p.loops[l].LoopConnect? && Accounted(p, left)
    ensures Accounted(LoopStep(p, LoopConnected(l, ok)), left)
  {
    hide NoReclaim, Forgotten, LoopClosed;
    var c := p.loops[l].candidate;
    var q := LoopStep(p, LoopConnected(l, ok));
    assert forall d :: Live(p, d) ==> OwnCandidate(p.loops[l], d);
    if ok {
      assert OnlyChanges(p, q, c) && Has(q, c, Open);
    } else {
      NobodyLives(p);
      var failed := Mark(p, c, Dead).(loops := p.loops[l := LoopWait]);
      assert OnlyChanges(p, failed, c) && Has(failed, c, Dead);
      assert forall d :: Live(failed, d) <==> Live(p, d);
      LoopClosedAccounts(failed, l, false, left);
      LoopClosedForgets(Mark(p, c, Dead), l, false);
    }
  }

  lemma LoopInfraAccounts(p: Plugin, l: LoopId, ok: bool, left: set<ClientId>)
    requires Inv(p) && l in p.loops && p.loops[l].LoopInfra? && Accounted(p, left)
    ensures Accounted(LoopStep(p, LoopInfraDone(l, ok)), left)
  {
    hide NoReclaim, Forgotten, LoopClosed, EndLoop, Filtered;
    assert forall d :: Live(p, d) ==> OwnCandidate(p.loops[l], d);
    if !ok {
      LoopClosedAccounts(p, l, false, left);
    } else if Filtered(p.domains, p.owned) == [] {
      EndLoopAccounts(p, l, left);
    } else {
      assert OnlyChanges(p, LoopStep(p, LoopInfraDone(l, ok)), |p.clients|);
    }
  }

  /** The candidate becomes the current client; no other client was open. */
  lemma AdoptionAccounts(p: Plugin, l: LoopId, left: set<ClientId>)
    requires Inv(p) && l in p.loops && p.loops[l].LoopAnswered? && p.loops[l].accepted && !p.shuttingDown
    requires Accounted(p, left)
    ensures Accounted(LoopStep(p, LoopResumed(l)), left)
  {
    hide NoReclaim, Forgotten;
    var q := LoopStep(p, LoopResumed(l));
    assert NothingChanges(p, q);
    forall d | Has(p, d, Open) || Has(p, d, Closing) ensures d == p.loops[l].candidate {
      assert Live(p, d);
    }
  }

  lemma LoopStepAccounts(p: Plugin, e: Event, left: set<ClientId>)
    requires Inv(p) && Accounted(p, left)
    ensures Accounted(LoopStep(p, e), left)
  {
    hide NoReclaim, Forgotten, LoopClosed, LoopHead, CloseCandidate, Filtered;
    var q := LoopStep(p, e);
    match e
    case LoopInfraDone(l, ok) =>
      if l in p.loops && p.loops[l].LoopInfra? {
        LoopInfraAccounts(p, l, ok, left);
      }
    case LoopConnected(l, ok) =>
      if l in p.loops && p.loops[l].LoopConnect? {
        LoopConnectAccounts(p, l, ok, left);
      }
    case LoopReplied(l, ok) =>
      assert NothingChanges(p, q);
    case LoopResumed(l) =>
      if l in p.loops && p.loops[l].LoopAnswered? {
        CloseCandidateAccounts(p, l, p.loops[l].candidate, false, left);
        CloseCandidateAccounts(p, l, p.loops[l].candidate, true, left);
        if p.loops[l].accepted && !p.shuttingDown {
          AdoptionAccounts(p, l, left);
        }
      }
    case LoopWaited(l) =>
      if l in p.loops && p.loops[l].LoopWait? {
        WaitingMeansNobodyLives(p, l);
        LoopHeadAccounts(p, l, left);
      }
    case _ =>
  }

  lemma RefuseAccounts(p: Plugin, c: ClientId, left: set<ClientId>)
    requires Inv(p) && Accounted(p, left) && Live(p, c)
    requires !p.setup.SetupClose? && forall l :: l in p.loops ==> !p.loops[l].LoopClose?
    ensures Accounted(Refuse(Mark(p, c, Dead), c), left - {c})
  {
    hide NoReclaim, Forgotten;
    DeathLeavesNobody(p, c);
    var q := Refuse(Mark(p, c, Dead), c);
    assert forall d :: Live(q, d) <==> Live(Mark(p, c, Dead), d);
    NobodyLives(q);
    assert OnlyChanges(p, q, c) && Has(q, c, Dead);
  }

  lemma DisconnectAccounts(p: Plugin, c: ClientId, left: set<ClientId>)
    requires Inv(p) && Has(p, c, Open) && Accounted(p, left)
    ensures Accounted(Disconnect(p, c), left - {c})
  {
    hide NoReclaim, Forgotten, RecoverRoutes;
    assert Live(p, c);
    forall l | l in p.loops ensures !p.loops[l].LoopClose? {
      assert OwnCandidate(p.loops[l], c);
    }
    RefuseAccounts(p, c, left);
    RecoverAccounts(Refuse(Mark(p, c, Dead), c), left - {c});
  }

  lemma CloseAccounts(p: Plugin, c: ClientId, left: set<ClientId>)
    requires Inv(p) && Has(p, c, Closing) && Accounted(p, left)
    ensures Accounted(Close(p, c), left)
  {
    hide NoReclaim, Forgotten, SetupFailed, LoopClosed, Refuse;
    var dead := Mark(p, c, Dead);
    assert Live(p, c);
    DeathLeavesNobody(p, c);
    NobodyLives(dead);
    assert OnlyChanges(p, dead, c) && Has(dead, c, Dead);
    assert c !in left;
    if p.setup.SetupClose? && p.setup.c == c {
      var done := dead.(setup := SetupDone);
      assert NothingChanges(dead, done);
      SetupFailedAccounts(dead, p.setup.updateRequired, left);
    } else if LoopIs(p, LoopClose(c, false)) || LoopIs(p, LoopClose(c, true)) {
      assert Accounted(dead, left);
      LoopClosedAccounts(dead, p.promise.value, p.loops[p.promise.value].last, left);
    } else {
      NobodyElseCloses(p, c);
      RefuseAccounts(p, c, left);
      assert left - {c} == left;
    }
  }

  lemma LearnedAccounts(p: Plugin, c: ClientId, hs: seq<Hostname>, left: set<ClientId>)
    requires Inv(p) && Accounted(p, left)
    ensures Accounted(React(p, Learned(c, hs)), left)
  {
    hide Inv;
    assert NothingChanges(p, React(p, Learned(c, hs)));
  }

  lemma LostAccounts(p: Plugin, c: ClientId, left: set<ClientId>)
    requires Inv(p) && Accounted(p, left)
    ensures Accounted(React(p, Disconnected(c)), left - {c})
  {
    hide Inv, Disconnect;
    if Has(p, c, Open) {
      DisconnectAccounts(p, c, left);
    } else {
      assert c !in left;
      assert left - {c} == left;
    }
  }

  lemma StepAccounts(p: Plugin, e: Event, left: set<ClientId>)
    requires Inv(p) && Accounted(p, left)
    ensures Accounted(Step(p, e), StillLeft(p, e, left))
  {
    hide Inv, Accounted, SetupStep, LoopStep, Disconnect, Close, Cleanup, Due;
    if Due(p).None? || SameTurn(e, Due(p).value) {
      match e
      case Learned(c, hs) => LearnedAccounts(p, c, hs, left);
      case Disconnected(c) => LostAccounts(p, c, left);
      case Closed(c) =>
        if Has(p, c, Closing) {
          CloseAccounts(p, c, left);
        }
      case Shutdown => CleanupAccounts(p, left);
      case _ =>
        SetupStepAccounts(p, e, left);
        LoopStepAccounts(p, e, left);
    } else {
      DueIsTheOneLeft(p, left);
      assert e.Disconnected? ==> left - {e.c} == left;
    }
  }

  /** While a continuation is due, nobody else's socket can be heard to close. */
  lemma DueIsTheOneLeft(p: Plugin, left: set<ClientId>)
    requires Inv(p) && Accounted(p, left) && Due(p).Some?
    ensures forall c :: c != Due(p).value ==> c !in left
    ensures !p.setup.SetupConnect?
  {
  }

  function Left(domains: seq<Hostname>, events: seq<Event>): set<ClientId> {
    if events == [] then
      {}
    else
      var n := |events| - 1;
      StillLeft(Run(domains, events[..n]), events[n], Left(domains, events[..n]))
  }

  lemma {:induction false} ReachableAccounted(domains: seq<Hostname>, events: seq<Event>)
    ensures Accounted(Run(domains, events), Left(domains, events))
    decreases |events|
  {
    if events != [] {
      var n := |events| - 1;
      ReachableAccounted(domains, events[..n]);
      ReachableInv(domains, events[..n]);
      StepAccounts(Run(domains, events[..n]), events[n], Left(domains, events[..n]));
    }
  }

  // ----- After a shutdown -----

  ghost predicate LeftAt(domains: seq<Hostname>, events: seq<Event>, c: ClientId, i: nat) {
    && i < |events|
    && OpensTooLate(Run(domains, events[..i]), events[i], c)
    && forall j :: i < j < |events| ==> events[j] != Disconnected(c)
  }

  /** Its connection opened after the shutdown had begun, and its socket has not been lost since. */
  ghost predicate LeftBehind(domains: seq<Hostname>, events: seq<Event>, c: ClientId) {
    exists i :: LeftAt(domains, events, c, i)
  }

  lemma LeftAtPrefix(domains: seq<Hostname>, events: seq<Event>, c: ClientId, i: nat)
    requires i < |events|
    ensures var n := |events| - 1;
            LeftAt(domains, events, c, i) <==>
            if i == n then OpensTooLate(Run(domains, events[..n]), events[n], c)
            else LeftAt(domains, events[..n], c, i) && events[n] != Disconnected(c)
  {
    hide OpensTooLate, Run;
    var n := |events| - 1;
    if i < n {
      assert events[..n][..i] == events[..i];
    }
  }

  lemma {:induction false} LeftIsLeftBehind(domains: seq<Hostname>, events: seq<Event>, c: ClientId)
    ensures c in Left(domains, events) <==> LeftBehind(domains, events, c)
    decreases |events|
  {
    hide LeftAt, Run;
    if events == [] {
      NothingLeftAt(domains, c);
    } else {
      var n := |events| - 1;
      LeftIsLeftBehind(domains, events[..n], c);
      if i: nat :| LeftAt(domains, events[..n], c, i) {
        LeftAtIndex(domains, events[..n], c, i);
        LeftAtPrefix(domains, events, c, i);
      }
      if i: nat :| LeftAt(domains, events, c, i) {
        LeftAtIndex(domains, events, c, i);
        LeftAtPrefix(domains, events, c, i);
      }
      LeftAtPrefix(domains, events, c, n);
    }
  }

  lemma LeftAtIndex(domains: seq<Hostname>, events: seq<Event>, c: ClientId, i: nat)
    requires LeftAt(domains, events, c, i)
    ensures i < |events|
  {
  }

  lemma NothingLeftAt(domains: seq<Hostname>, c: ClientId)
    ensures !LeftBehind(domains, [], c)
  {
  }

  /** Shut down, and nothing is under way any more. */
  predicate AtRest(p: Plugin) {
    && p.shuttingDown && (p.setup.SetupDone? || p.setup.NotStarted?) && p.loops == map[]
    && forall c :: 0 <= c < |p.clients| ==> !p.clients[c].Closing?
  }

  /**
   * After a shutdown that has come to rest every client of the setup and of every recovery is dead, except exactly
   * the setup's client whose connection opened after the shutdown began and was not lost since: nobody closes it.
   */
  lemma {:induction false} ShutdownEndsClientsExactly(domains: seq<Hostname>, events: seq<Event>, c: ClientId)
    requires AtRest(Run(domains, events)) && c < |Run(domains, events).clients|
    ensures var end := Run(domains, events).clients[c];
            (end == Dead || end == Open) && (end == Open <==> LeftBehind(domains, events, c))
  {
    var p := Run(domains, events);
    ReachableInv(domains, events);
    ReachableAccounted(domains, events);
    LeftIsLeftBehind(domains, events, c);
    assert Has(p, c, p.clients[c]);
  }

  // ----- Hostnames that nobody serves any more -----

  predicate NothingOwned(p: Plugin) {
    forall h :: h in p.domains ==> h !in p.owned
  }

  predicate SetUp(p: Plugin) {
    p.setup.SetupDone? || (p.setup.SetupAnswered? && p.setup.answer.Accepted?)
  }

  /** Once set up and until shut down: an open client, or a running recovery, or nothing left to recover. */
  predicate Kept(p: Plugin) {
    SetUp(p) && !p.shuttingDown ==>
      p.promise.Some? || (p.client.Some? && Has(p, p.client.value, Open)) || NothingOwned(p)
  }

  /**
   * A recovery's registration was accepted, its socket was lost before the continuation ran, and the continuation
   * takes the dead candidate for the current client and ends the recovery.
   */
  predicate AdoptsDead(p: Plugin, e: Event) {
    && e.LoopResumed? && e.l in p.loops && p.loops[e.l].LoopAnswered? && p.loops[e.l].accepted
    && Has(p, p.loops[e.l].candidate, Dead) && !p.shuttingDown && !NothingOwned(p)
  }

  lemma HeadKeeps(p: Plugin, l: LoopId)
    requires p.promise.Some?
    ensures Kept(LoopHead(p, l))
  {
    FilteredOwned(p.domains, p.owned);
  }

  lemma RecoverKeeps(p: Plugin)
    ensures Kept(RecoverRoutes(p))
  {
    if p.promise.None? && !p.shuttingDown {
      HeadKeeps(
        p.(promise := Some(p.nextLoop), loops := p.loops[p.nextLoop := LoopWait], nextLoop := p.nextLoop + 1), p.nextLoop);
    }
  }

  lemma SetupFailedKeeps(p: Plugin, update: bool)
    ensures Kept(SetupFailed(p, update))
  {
    RecoverKeeps(p.(setup := SetupDone));
  }

  lemma SetupStepKeeps(p: Plugin, e: Event, left: set<ClientId>)
    requires Inv(p) && Kept(p) && Accounted(p, left)
    ensures Kept(SetupStep(p, e))
  {
    hide NoReclaim, Forgotten, OneLive, SetupFailed;
    match e
    case SetupInfraDone(ok, update) =>
      SetupFailedKeeps(p.(client := None), update);
    case SetupConnected(ok) =>
      if p.setup.SetupConnect? {
        SetupFailedKeeps(Mark(p, p.setup.c, Dead).(client := None), false);
      }
    case SetupResumed =>
      if p.setup.SetupAnswered? && p.setup.answer.Refused? {
        SetupFailedKeeps(p.(client := None), p.setup.answer.updateRequired);
      }
    case _ =>
  }

  lemma LoopResumedKeeps(p: Plugin, l: LoopId)
    requires Inv(p) && Kept(p)
    ensures Kept(LoopStep(p, LoopResumed(l))) <==> !AdoptsDead(p, LoopResumed(l))
  {
    hide NoReclaim, Forgotten;
    if l in p.loops && p.loops[l].LoopAnswered? {
      assert p.loops[l] in p.loops.Values;
      assert p.setup.SetupDone?;
      assert p.promise == Some(l);
    }
  }

  lemma LoopStepKeeps(p: Plugin, e: Event)
    requires Inv(p) && Kept(p)
    ensures Kept(LoopStep(p, e)) <==> !AdoptsDead(p, e)
  {
    hide NoReclaim, Forgotten, OneLive;
    FilteredOwned(p.domains, p.owned);
    hide Filtered;
    match e
    case LoopWaited(l) =>
      if l in p.loops && p.loops[l].LoopWait? {
        HeadKeeps(p, l);
      }
    case LoopResumed(l) => LoopResumedKeeps(p, l);
    case _ =>
  }

  lemma DisconnectKeeps(p: Plugin, c: ClientId)
    ensures Kept(Disconnect(p, c))
  {
    RecoverKeeps(Refuse(Mark(p, c, Dead), c));
  }

  lemma CloseKeeps(p: Plugin, c: ClientId)
    requires Inv(p) && Kept(p) && Has(p, c, Closing)
    ensures Kept(Close(p, c))
  {
    hide NoReclaim, Forgotten, SetupFailed;
    assert Live(p, c);
    SetupFailedKeeps(Mark(p, c, Dead), if p.setup.SetupClose? then p.setup.updateRequired else false);
  }

  lemma StepKeeps(p: Plugin, e: Event, left: set<ClientId>)
    requires Inv(p) && Accounted(p, left) && Kept(p)
    ensures Kept(Step(p, e)) <==> !AdoptsDead(p, e)
  {
    hide NoReclaim, Forgotten, Accounted, SetupStep, LoopStep, Disconnect, Close, OneLive, Named;
    if Due(p).None? || SameTurn(e, Due(p).value) {
      match e
      case Disconnected(c) => DisconnectKeeps(p, c);
      case Closed(c) =>
        if Has(p, c, Closing) {
          CloseKeeps(p, c);
        }
      case Learned(_, _) =>
      case Shutdown =>
      case _ =>
        SetupStepKeeps(p, e, left);
        LoopStepKeeps(p, e);
    }
  }

  /** Without a client and without a recovery nothing happens any more but the shutdown. */
  lemma AbandonedForGood(p: Plugin, e: Event, left: set<ClientId>)
    requires Inv(p) && Accounted(p, left) && !Kept(p) && p.setup.SetupDone?
    ensures Kept(Step(p, e)) <==> Step(p, e).shuttingDown
    ensures Step(p, e).setup.SetupDone?
  {
    hide NoReclaim, Forgotten;
    assert p.loops == map[];
    forall c: ClientId ensures !Has(p, c, Open) && !Has(p, c, Closing) {
      assert !Candidate(p, c) && !ClosedBySetup(p, c) && c !in left;
    }
  }

  lemma ShutdownIsFinal(p: Plugin, e: Event)
    requires p.shuttingDown
    ensures Step(p, e).shuttingDown
  {
  }

  lemma AdoptionAbandons(p: Plugin, e: Event)
    requires Inv(p) && AdoptsDead(p, e)
    ensures p.setup.SetupDone? && Step(p, e).setup.SetupDone? && !Step(p, e).shuttingDown
  {
    hide NoReclaim, Forgotten;
    assert e.l in p.loops;
  }

  ghost predicate AdoptedAt(domains: seq<Hostname>, events: seq<Event>, i: nat) {
    i < |events| && AdoptsDead(Run(domains, events[..i]), events[i])
  }

  ghost predicate AdoptedDead(domains: seq<Hostname>, events: seq<Event>) {
    exists i :: AdoptedAt(domains, events, i)
  }

  lemma AdoptedDeadStep(domains: seq<Hostname>, events: seq<Event>)
    requires events != []
    ensures var n := |events| - 1;
            AdoptedDead(domains, events) <==>
            AdoptedDead(domains, events[..n]) || AdoptsDead(Run(domains, events[..n]), events[n])
  {
    hide AdoptsDead, Run;
    var n := |events| - 1;
    if i: nat :| AdoptedAt(domains, events[..n], i) {
      assert events[..n][..i] == events[..i];
      assert AdoptedAt(domains, events, i);
    }
    if i: nat :| AdoptedAt(domains, events, i) && i < n {
      assert events[..n][..i] == events[..i];
      assert AdoptedAt(domains, events[..n], i);
    }
    assert AdoptsDead(Run(domains, events[..n]), events[n]) ==> AdoptedAt(domains, events, n);
  }

  /**
   * Over any run: until the shutdown the hostnames are kept (an open client, a running recovery, or nothing owned),
   * unless a recovery adopted a candidate whose socket was lost between its reply and its continuation. That is the
   * only way to abandon them, and it is final.
   */
  lemma {:induction false} RoutesAreAbandonedExactly(domains: seq<Hostname>, events: seq<Event>)
    ensures var p := Run(domains, events);
            && (Kept(p) <==> p.shuttingDown || !AdoptedDead(domains, events))
            && (!Kept(p) ==> p.setup.SetupDone?)
    decreases |events|
  {
    hide Kept, AdoptsDead, Inv, Accounted, Step, AdoptedDead;
    if events == [] {
      NothingAdopted(domains);
    } else {
      var n := |events| - 1;
      var p, e, left := Run(domains, events[..n]), events[n], Left(domains, events[..n]);
      RoutesAreAbandonedExactly(domains, events[..n]);
      ReachableInv(domains, events[..n]);
      ReachableAccounted(domains, events[..n]);
      AdoptedDeadStep(domains, events);
      if AdoptsDead(p, e) {
        AdoptionAbandons(p, e);
      }
      if p.shuttingDown {
        ShutdownIsFinal(p, e);
        KeptAfterShutdown(p);
      }
      if Kept(p) {
        StepKeeps(p, e, left);
      } else {
        AbandonedForGood(p, e, left);
      }
      if Step(p, e).shuttingDown {
        KeptAfterShutdown(Step(p, e));
      }
    }
  }

  lemma KeptAfterShutdown(p: Plugin)
    requires p.shuttingDown
    ensures Kept(p)
  {
  }

  lemma NothingAdopted(domains: seq<Hostname>)
    ensures Kept(Run(domains, [])) && !AdoptedDead(domains, [])
  {
  }

  // ----- What a registration names -----

  /** Exactly the owned ones of the domains, each at its place, in their order. */
  ghost predicate Names(hs: seq<Hostname>, domains: seq<Hostname>, owned: set<Hostname>) {
    exists at: seq<nat> :: PicksAt(hs, domains, owned, at)
  }

  predicate PicksAt(hs: seq<Hostname>, domains: seq<Hostname>, owned: set<Hostname>, at: seq<nat>) {
    && |at| == |hs|
    && (forall i :: 0 <= i < |at| ==> at[i] < |domains| && hs[i] == domains[at[i]])
    && (forall i, j :: 0 <= i < j < |at| ==> at[i] < at[j])
    && (forall d :: 0 <= d < |domains| ==> (domains[d] in owned <==> d in at))
  }

  /** The places of the owned domains from one place on. */
  ghost predicate PlacesFrom(domains: seq<Hostname>, from: nat, owned: set<Hostname>, hs: seq<Hostname>, at: seq<nat>) {
    && |at| == |hs|
    && (forall i :: 0 <= i < |at| ==> from <= at[i] < |domains| && hs[i] == domains[at[i]])
    && (forall i, j :: 0 <= i < j < |at| ==> at[i] < at[j])
    && (forall d :: from <= d < |domains| ==> (domains[d] in owned <==> d in at))
  }

  lemma OneMorePlace(domains: seq<Hostname>, from: nat, owned: set<Hostname>, hs: seq<Hostname>, at: seq<nat>)
    requires from < |domains| && PlacesFrom(domains, from + 1, owned, hs, at)
    ensures if domains[from] in owned then PlacesFrom(domains, from, owned, [domains[from]] + hs, [from] + at)
            else PlacesFrom(domains, from, owned, hs, at)
  {
    var more := [from] + at;
    assert forall i :: 1 <= i < |more| ==> more[i] == at[i - 1];
    assert forall d :: d in more <==> d == from || d in at;
    assert from !in at;
  }

  lemma {:induction false} FilteredFrom(domains: seq<Hostname>, from: nat, owned: set<Hostname>) returns (at: seq<nat>)
    requires from <= |domains|
    ensures PlacesFrom(domains, from, owned, Filtered(domains[from..], owned), at)
    decreases |domains| - from
  {
    if from == |domains| {
      at := [];
    } else {
      var rest := FilteredFrom(domains, from + 1, owned);
      assert domains[from..][1..] == domains[from + 1..];
      OneMorePlace(domains, from, owned, Filtered(domains[from + 1..], owned), rest);
      hide PlacesFrom;
      assert [] + Filtered(domains[from + 1..], owned) == Filtered(domains[from + 1..], owned);
      at := if domains[from] in owned then [from] + rest else rest;
    }
  }

  lemma {:induction false} FilteredNames(domains: seq<Hostname>, owned: set<Hostname>)
    ensures Names(Filtered(domains, owned), domains, owned)
  {
    var at := FilteredFrom(domains, 0, owned);
    assert domains[0..] == domains;
    assert PicksAt(Filtered(domains, owned), domains, owned, at);
  }

  lemma AllNames(domains: seq<Hostname>)
    ensures Names(domains, domains, SetOf(domains))
  {
    var at: seq<nat> := seq(|domains|, i => i);
    forall d | 0 <= d < |domains| ensures domains[d] in SetOf(domains) <==> d in at {
      assert at[d] == d && domains[d] in domains;
    }
    assert PicksAt(domains, domains, SetOf(domains), at);
  }

  lemma SentNamesTheOwned(p: Plugin, e: Event, hs: seq<Hostname>)
    requires Inv(p) && Step(p, e).log == p.log + [Called(hs)]
    ensures Names(hs, p.domains, p.owned)
  {
    hide Names;
    FilteredNames(p.domains, p.owned);
    AllNames(p.domains);
    SentIsOwned(p, e, hs);
  }

  /**
   * Over any run, whatever step sends a registration, of the setup or of a recovery, it names exactly the hostnames
   * that are owned at that moment, all of them, in the order of the domains.
   */
  lemma {:induction false} RegistrationsNameTheOwned(domains: seq<Hostname>, events: seq<Event>, e: Event, hs: seq<Hostname>)
    requires Step(Run(domains, events), e).log == Run(domains, events).log + [Called(hs)]
    ensures Names(hs, Run(domains, events).domains, Run(domains, events).owned)
  {
    ReachableInv(domains, events);
    SentNamesTheOwned(Run(domains, events), e, hs);
  }

  lemma SetupSendsAll(p: Plugin, e: Event, hs: seq<Hostname>)
    requires Inv(p) && SetupStep(p, e).log == p.log + [Called(hs)]
    ensures hs == p.domains && p.owned == SetOf(p.domains)
  {
    hide OneLive, OneLoop, Named, NoReclaim, Filtered;
    assert SetupStep(p, e).log[|p.log|] == Called(hs);
  }

  lemma LoopSendsOwned(p: Plugin, e: Event, hs: seq<Hostname>)
    requires Inv(p) && LoopStep(p, e).log == p.log + [Called(hs)]
    ensures hs == Filtered(p.domains, p.owned)
  {
    hide OneLive, OneLoop, Named, NoReclaim, Filtered;
    assert LoopStep(p, e).log[|p.log|] == Called(hs);
  }

  /** Only two steps send a registration: the setup's first one, and a recovery's. */
  lemma SentIsOwned(p: Plugin, e: Event, hs: seq<Hostname>)
    requires Inv(p) && Step(p, e).log == p.log + [Called(hs)]
    ensures hs == Filtered(p.domains, p.owned) || (hs == p.domains && p.owned == SetOf(p.domains))
  {
    hide Inv, SetupStep, LoopStep, Filtered;
    var q := Step(p, e);
    assert q.log[|p.log|] == Called(hs);
    if e.Learned? {
      LearnedOnlyLoses(p, e);
    } else if SetupStep(p, e) == q {
      SetupSendsAll(p, e, hs);
    } else if LoopStep(p, e) == q {
      LoopSendsOwned(p, e, hs);
    }
  }

  lemma LearnedOnlyLoses(p: Plugin, e: Event)
    requires e.Learned?
    ensures var q := Step(p, e); |p.log| <= |q.log| && forall i :: |p.log| <= i < |q.log| ==> q.log[i].Lost?
  {
  }

  // ----- Every continuation runs once -----

  /** The setup waits for this event; a client that closes is waited for by name. */
  predicate SetupAwaits(p: Plugin, e: Event) {
    match e
    case Listening => p.setup.NotStarted?
    case SetupInfraDone(_, _) => p.setup.SetupInfra?
    case SetupConnected(_) => p.setup.SetupConnect?
    case SetupReplied(_) => p.setup.SetupRegister?
    case SetupResumed => p.setup.SetupAnswered?
    case Closed(c) => p.setup.SetupClose? && p.setup.c == c && Has(p, c, Closing)
    case _ => false
  }

  /** The loop waits for this event. */
  predicate LoopAwaits(p: Plugin, l: LoopId, e: Event) {
    l in p.loops
    && match e
       case LoopInfraDone(m, _) => m == l && p.loops[l].LoopInfra?
       case LoopConnected(m, _) => m == l && p.loops[l].LoopConnect?
       case LoopReplied(m, _) => m == l && p.loops[l].LoopRegister?
       case LoopResumed(m) => m == l && p.loops[l].LoopAnswered?
       case LoopWaited(m) => m == l && p.loops[l].LoopWait?
       case Closed(c) => p.loops[l].LoopClose? && p.loops[l].candidate == c && Has(p, c, Closing)
       case _ => false
  }

  /**
   * Over any run, what the setup or a loop waits for moves it on, so that no continuation runs twice and none is
   * forgotten: outside a turn that is not over, the awaited event leaves another waiting point, or the end.
   */
  lemma {:induction false} ContinuationsMoveOn(domains: seq<Hostname>, events: seq<Event>, e: Event, l: LoopId)
    requires Due(Run(domains, events)).None? || e.SetupResumed? || e.LoopResumed?
    ensures var p := Run(domains, events); SetupAwaits(p, e) ==> !SetupAwaits(Step(p, e), e)
    ensures var p := Run(domains, events);
            LoopAwaits(p, l, e) ==> l !in Step(p, e).loops || Step(p, e).loops[l] != p.loops[l]
  {
    ReachableInv(domains, events);
    MovesOn(Run(domains, events), e, l);
  }

  lemma MovesOn(p: Plugin, e: Event, l: LoopId)
    requires Inv(p) && (Due(p).None? || e.SetupResumed? || e.LoopResumed?)
    ensures SetupAwaits(p, e) ==> !SetupAwaits(Step(p, e), e)
    ensures LoopAwaits(p, l, e) ==> l !in Step(p, e).loops || Step(p, e).loops[l] != p.loops[l]
  {
  }

  /** In the turn of a reply the losses of the same chunk count, and nothing of another client is heard. */
  lemma LossesOfTheTurnCount(p: Plugin, c: ClientId, d: ClientId, hs: seq<Hostname>)
    requires Due(p) == Some(c) && Live(p, c) && d != c
    ensures Step(p, Learned(c, hs)).owned == p.owned - SetOf(hs)
    ensures Step(p, Learned(d, hs)) == p
  {
  }

  /**
   * A client whose socket was given up is heard to the end of that chunk, and no longer: while the recovery it set off
   * waits for the infrastructure, or its own reply has still to be acted on.
   */
  lemma LateLossesCount(p: Plugin, c: ClientId, hs: seq<Hostname>)
    requires Has(p, c, Dead) && (Due(p).None? || Due(p) == Some(c))
    ensures if exists l :: Recovers(p, l) then Step(p, Learned(c, hs)).owned == p.owned - SetOf(hs)
            else Step(p, Learned(c, hs)) == p
  {
    if p.promise.Some? {
      assert Recovers(p, p.promise.value) <==> exists l :: Recovers(p, l);
    }
  }

  /** The recovery in charge waits for the infrastructure, or was answered. */
  ghost predicate Recovers(p: Plugin, l: LoopId) {
    p.promise == Some(l) && l in p.loops && match p.loops[l]
                                            case LoopInfra => true
                                            case LoopAnswered(_, _) => true
                                            case _ => false
  }

  // ----- Runs that end on the failing side -----

  lemma RunNext(domains: seq<Hostname>, events: seq<Event>, e: Event)
    ensures Run(domains, events + [e]) == Step(Run(domains, events), e)
  {
    assert (events + [e])[..|events|] == events;
  }

  lemma ConnectingRun(h: Hostname)
    ensures Run([h], [Listening, SetupInfraDone(true, false)]) ==
            Plugin([h], {h}, [Fresh], Some(0), SetupConnect(0), None, map[], 0, false, [])
  {
    RunNext([h], [], Listening);
    RunNext([h], [Listening], SetupInfraDone(true, false));
    assert [] + [Listening] == [Listening];
    assert [Listening] + [SetupInfraDone(true, false)] == [Listening, SetupInfraDone(true, false)];
    assert Run([h], []) == Initial([h]);
    assert (set x | x in [h]) == {h};
  }

  /** A shutdown while the setup's client connects: the client registers afterwards and stays open. */
  lemma {:induction false} SetupClientIsLeftOpen(h: Hostname) returns (events: seq<Event>)
    ensures AtRest(Run([h], events)) && Run([h], events).clients == [Open] && Run([h], events).log == [Called([h])]
  {
    events := [Listening, SetupInfraDone(true, false)];
    ConnectingRun(h);
    RunNext([h], events, Shutdown);
    events := events + [Shutdown];
    RunNext([h], events, SetupConnected(true));
    events := events + [SetupConnected(true)];
    RunNext([h], events, SetupReplied(Accepted));
    events := events + [SetupReplied(Accepted)];
    RunNext([h], events, SetupResumed);
    events := events + [SetupResumed];
  }

  lemma {:induction false} SetUpRun(h: Hostname) returns (events: seq<Event>)
    ensures Run([h], events) == Plugin([h], {h}, [Open], Some(0), SetupDone, None, map[], 0, false, [Called([h])])
  {
    events := [Listening, SetupInfraDone(true, false)];
    ConnectingRun(h);
    RunNext([h], events, SetupConnected(true));
    events := events + [SetupConnected(true)];
    RunNext([h], events, SetupReplied(Accepted));
    events := events + [SetupReplied(Accepted)];
    RunNext([h], events, SetupResumed);
    events := events + [SetupResumed];
  }

  /** Set up, then disconnected, then recovering with a registration that was just sent. */
  lemma {:induction false} RecoveringRun(h: Hostname) returns (events: seq<Event>)
    ensures Run([h], events) ==
            Plugin([h], {h}, [Dead, Open], Some(0), SetupDone, Some(0), map[0 := LoopRegister(1)], 1, false,
                   [Called([h]), Called([h])])
  {
    events := SetUpRun(h);
    RunNext([h], events, Disconnected(0));
    events := events + [Disconnected(0)];
    assert Filtered([h], {h}) == [h];
    assert Run([h], events) ==
           Plugin([h], {h}, [Dead], Some(0), SetupDone, Some(0), map[0 := LoopInfra], 1, false, [Called([h])]);
    RunNext([h], events, LoopInfraDone(0, true));
    events := events + [LoopInfraDone(0, true)];
    RunNext([h], events, LoopConnected(0, true));
    events := events + [LoopConnected(0, true)];
  }

  /** One chunk holds the reply of a recovery's registration and a malformed frame: its hostname is abandoned. */
  lemma {:induction false} AcceptedThenMalformedAbandons(h: Hostname) returns (events: seq<Event>)
    ensures !Kept(Run([h], events))
  {
    events := RecoveringRun(h);
    RunNext([h], events, LoopReplied(0, true));
    events := events + [LoopReplied(0, true)];
    RunNext([h], events, Disconnected(1));
    events := events + [Disconnected(1)];
    assert Run([h], events) ==
           Plugin([h], {h}, [Dead, Dead], Some(0), SetupDone, Some(0), map[0 := LoopAnswered(1, true)], 1, false,
                  [Called([h]), Called([h])]);
    RunNext([h], events, LoopResumed(0));
    events := events + [LoopResumed(0)];
    assert h in Run([h], events).domains;
  }
}
