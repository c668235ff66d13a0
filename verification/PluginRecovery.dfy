/**
 * The plugin's route recovery: one setup, reconnecting loops, and the set of hostnames still thought owned.
 * One step is one callback of the event loop or one continuation. A continuation that is due runs before the next
 * callback, so between a reply and its continuation only frames of the same chunk are handled.
 */
module PluginRecovery {
  import opened Wrappers

  type Hostname = string
  type ClientId = nat
  type LoopId = nat

  /** A closing client may still deliver frames; a dead one at most the rest of its last chunk. */
  datatype Status = Fresh | Open | Closing | Dead

  datatype Answer = Accepted | Refused(updateRequired: bool)

  /** `SetupAnswered`: the registration's promise is settled and its continuation has not run yet. */
  datatype Setup =
    | NotStarted
    | SetupInfra
    | SetupConnect(c: ClientId)
    | SetupRegister(c: ClientId)
    | SetupAnswered(c: ClientId, answer: Answer)
    | SetupClose(c: ClientId, updateRequired: bool)
    | SetupDone

  datatype Loop =
    | LoopInfra
    | LoopConnect(candidate: ClientId, hostnames: seq<Hostname>)
    | LoopRegister(candidate: ClientId)
    | LoopAnswered(candidate: ClientId, accepted: bool)
    | LoopClose(candidate: ClientId, last: bool)
    | LoopWait

  /** What the plugin learned and what it asked for, in order. */
  datatype Entry = Lost(hostname: Hostname) | Called(hostnames: seq<Hostname>)

  /** `promise` is the guard against a second recovery; `loops` are the recoveries that really run. */
  datatype Plugin = Plugin(
    domains: seq<Hostname>,
    owned: set<Hostname>,
    clients: seq<Status>,
    client: Option<ClientId>,
    setup: Setup,
    promise: Option<LoopId>,
    loops: map<LoopId, Loop>,
    nextLoop: LoopId,
    shuttingDown: bool,
    log: seq<Entry>)

  /** A reply settles a registration; `Resumed` runs the continuation. `Closed` ends a close that had to wait. */
  datatype Event =
    | Listening
    | SetupInfraDone(ok: bool, updateRequired: bool)
    | SetupConnected(ok: bool)
    | SetupReplied(answer: Answer)
    | SetupResumed
    | LoopInfraDone(l: LoopId, ok: bool)
    | LoopConnected(l: LoopId, ok: bool)
    | LoopReplied(l: LoopId, ok: bool)
    | LoopResumed(l: LoopId)
    | LoopWaited(l: LoopId)
    | Learned(c: ClientId, lost: seq<Hostname>)
    | Disconnected(c: ClientId)
    | Closed(c: ClientId)
    | Shutdown

  function Initial(domains: seq<Hostname>): Plugin {
    Plugin(domains, set h | h in domains, [], None, NotStarted, None, map[], 0, false, [])
  }

  function SetOf(hs: seq<Hostname>): set<Hostname> {
    set h | h in hs
  }

  predicate Has(p: Plugin, c: ClientId, s: Status) {
    c < |p.clients| && p.clients[c] == s
  }

  predicate Live(p: Plugin, c: ClientId) {
    Has(p, c, Open) || Has(p, c, Closing)
  }

  function Mark(p: Plugin, c: ClientId, s: Status): Plugin {
    if c < |p.clients| then p.(clients := p.clients[c := s]) else p
  }

  function Filtered(domains: seq<Hostname>, owned: set<Hostname>): seq<Hostname> {
    if domains == [] then
      []
    else
      (if domains[0] in owned then [domains[0]] else []) + Filtered(domains[1..], owned)
  }

  /** Closing an open client takes until its socket closed; closing any other finishes at once. */
  function Cleanup(p: Plugin): Plugin {
    if p.shuttingDown then
      p
    else
      var stopped := p.(shuttingDown := true, client := None);
      if p.client.Some? && Has(p, p.client.value, Open) then Mark(stopped, p.client.value, Closing) else stopped
  }

  function EndLoop(p: Plugin, l: LoopId): Plugin {
    p.(loops := p.loops - {l}, promise := None)
  }

  /** The head of the loop: stop, or ask for the infrastructure. */
  function LoopHead(p: Plugin, l: LoopId): Plugin {
    if p.shuttingDown || Filtered(p.domains, p.owned) == [] then EndLoop(p, l) else p.(loops := p.loops[l := LoopInfra])
  }

  function RecoverRoutes(p: Plugin): Plugin {
    if p.promise.Some? || p.shuttingDown then
      p
    else
      var l := p.nextLoop;
      LoopHead(p.(promise := Some(l), loops := p.loops[l := LoopWait], nextLoop := l + 1), l)
  }

  /** The candidate is closed: the loop is over, or waits before it tries again. */
  function LoopClosed(p: Plugin, l: LoopId, last: bool): Plugin {
    if last || p.shuttingDown then EndLoop(p, l) else p.(loops := p.loops[l := LoopWait])
  }

  function CloseCandidate(p: Plugin, l: LoopId, c: ClientId, last: bool): Plugin {
    if Has(p, c, Open) then Mark(p, c, Closing).(loops := p.loops[l := LoopClose(c, last)]) else LoopClosed(p, l, last)
  }

  /** The failed client is closed: recover when a service update is required, give up otherwise. */
  function SetupFailed(p: Plugin, updateRequired: bool): Plugin {
    if updateRequired then RecoverRoutes(p.(setup := SetupDone)) else Cleanup(p.(setup := SetupDone))
  }

  function SetupFail(p: Plugin, updateRequired: bool): Plugin {
    if p.shuttingDown then
      p.(setup := SetupDone)
    else
      var forgotten := p.(client := None);
      if p.client.Some? && Has(p, p.client.value, Open) then
        Mark(forgotten, p.client.value, Closing).(setup := SetupClose(p.client.value, updateRequired))
      else
        SetupFailed(forgotten, updateRequired)
  }

  function Losses(hs: seq<Hostname>): seq<Entry> {
    seq(|hs|, i requires 0 <= i < |hs| => Lost(hs[i]))
  }

  function SetupStep(p: Plugin, e: Event): Plugin {
    match e
    case Listening => if p.setup.NotStarted? then p.(setup := SetupInfra) else p
    case SetupInfraDone(ok, update) =>
      if !p.setup.SetupInfra? then p
      else if !ok then SetupFail(p, update)
      else if p.shuttingDown then p.(setup := SetupDone)
      else p.(clients := p.clients + [Fresh], client := Some(|p.clients|), setup := SetupConnect(|p.clients|))
    case SetupConnected(ok) =>
      if !p.setup.SetupConnect? then p
      else if !ok then SetupFail(Mark(p, p.setup.c, Dead), false)
      else Mark(p, p.setup.c, Open).(setup := SetupRegister(p.setup.c), log := p.log + [Called(p.domains)])
    case SetupReplied(answer) =>
      if !p.setup.SetupRegister? then p else p.(setup := SetupAnswered(p.setup.c, answer))
    case SetupResumed =>
      if !p.setup.SetupAnswered? then p
      else if p.setup.answer.Refused? then SetupFail(p, p.setup.answer.updateRequired)
      else p.(setup := SetupDone)
    case _ => p
  }

  function LoopStep(p: Plugin, e: Event): Plugin {
    match e
    case LoopInfraDone(l, ok) =>
      if l !in p.loops || !p.loops[l].LoopInfra? then p
      else if !ok then LoopClosed(p, l, false)
      else
        var hs := Filtered(p.domains, p.owned);
        if hs == [] then EndLoop(p, l)
        else p.(clients := p.clients + [Fresh], loops := p.loops[l := LoopConnect(|p.clients|, hs)])
    case LoopConnected(l, ok) =>
      if l !in p.loops || !p.loops[l].LoopConnect? then p
      else
        var c, hs := p.loops[l].candidate, p.loops[l].hostnames;
        if !ok then LoopClosed(Mark(p, c, Dead), l, false)
        else Mark(p, c, Open).(loops := p.loops[l := LoopRegister(c)], log := p.log + [Called(hs)])
    case LoopReplied(l, ok) =>
      if l !in p.loops || !p.loops[l].LoopRegister? then p
      else p.(loops := p.loops[l := LoopAnswered(p.loops[l].candidate, ok)])
    case LoopResumed(l) =>
      if l !in p.loops || !p.loops[l].LoopAnswered? then p
      else
        var c := p.loops[l].candidate;
        if !p.loops[l].accepted then CloseCandidate(p, l, c, false)
        else if p.shuttingDown then CloseCandidate(p, l, c, true)
        else EndLoop(p.(client := Some(c)), l)
    case LoopWaited(l) =>
      if l !in p.loops || !p.loops[l].LoopWait? then p else LoopHead(p, l)
    case _ => p
  }

  /** What the loop of the guard is doing. */
  predicate LoopIs(p: Plugin, loop: Loop) {
    p.promise.Some? && p.promise.value in p.loops && p.loops[p.promise.value] == loop
  }

  /** A registration that waits for a reply of this client is refused; its continuation runs later. */
  function Refuse(p: Plugin, c: ClientId): Plugin {
    if p.setup == SetupRegister(c) then p.(setup := SetupAnswered(c, Refused(false)))
    else if LoopIs(p, LoopRegister(c)) then p.(loops := p.loops[p.promise.value := LoopAnswered(c, false)])
    else p
  }

  /** The socket is gone: whoever waits for a reply is refused, and recovery starts unless it runs. */
  function Disconnect(p: Plugin, c: ClientId): Plugin {
    RecoverRoutes(Refuse(Mark(p, c, Dead), c))
  }

  /** A client finished closing: a pending registration is refused, or whoever waited for the close goes on. */
  function Close(p: Plugin, c: ClientId): Plugin {
    var dead := Mark(p, c, Dead);
    if p.setup.SetupClose? && p.setup.c == c then SetupFailed(dead, p.setup.updateRequired)
    else if LoopIs(p, LoopClose(c, false)) || LoopIs(p, LoopClose(c, true)) then
      LoopClosed(dead, p.promise.value, p.loops[p.promise.value].last)
    else Refuse(dead, c)
  }

  /** Later frames of the chunk in which the socket was given up are still handled, before the recovery goes on. */
  predicate StillHeard(p: Plugin, c: ClientId) {
    Has(p, c, Dead) && p.promise.Some? && p.promise.value in p.loops
    && (p.loops[p.promise.value].LoopInfra? || p.loops[p.promise.value].LoopAnswered?)
  }

  function React(p: Plugin, e: Event): Plugin {
    match e
    case Learned(c, hs) =>
      if Live(p, c) || StillHeard(p, c) then p.(owned := p.owned - SetOf(hs), log := p.log + Losses(hs)) else p
    case Disconnected(c) => if Has(p, c, Open) then Disconnect(p, c) else p
    case Closed(c) => if Has(p, c, Closing) then Close(p, c) else p
    case Shutdown => Cleanup(p)
    case _ =>
      if e.Listening? || e.SetupInfraDone? || e.SetupConnected? || e.SetupReplied? || e.SetupResumed? then SetupStep(p, e)
      else LoopStep(p, e)
  }

  /** The client whose registration is settled while the continuation has yet to run. */
  function Due(p: Plugin): Option<ClientId> {
    if p.setup.SetupAnswered? then Some(p.setup.c)
    else if p.promise.Some? && p.promise.value in p.loops && p.loops[p.promise.value].LoopAnswered? then
      Some(p.loops[p.promise.value].candidate)
    else None
  }

  /** Frames of the same chunk, and the continuation itself. */
  predicate SameTurn(e: Event, c: ClientId) {
    e.SetupResumed? || e.LoopResumed? || e == Disconnected(c) || (e.Learned? && e.c == c)
  }

  function Step(p: Plugin, e: Event): Plugin {
    if Due(p).Some? && !SameTurn(e, Due(p).value) then p else React(p, e)
  }

  function Run(domains: seq<Hostname>, events: seq<Event>): Plugin {
    if events == [] then
      Initial(domains)
    else
      Step(Run(domains, events[..|events| - 1]), events[|events| - 1])
  }

  // ----- Invariants -----

  /** Exactly the loop that the guard names runs. */
  predicate OneLoop(p: Plugin) {
    && p.loops.Keys == (if p.promise.Some? then {p.promise.value} else {})
    && (forall l :: l in p.loops ==> l < p.nextLoop)
  }

  /** The loop's own candidate, once its registration went out. */
  predicate OwnCandidate(loop: Loop, c: ClientId) {
    (loop.LoopRegister? || loop.LoopAnswered? || loop.LoopClose?) && loop.candidate == c
  }

  predicate Early(p: Plugin) {
    p.setup.NotStarted? || p.setup.SetupInfra? || p.setup.SetupConnect?
  }

  predicate Registering(p: Plugin) {
    p.setup.SetupRegister? || p.setup.SetupAnswered? || p.setup.SetupClose?
  }

  /** At most one client lives; while a loop runs it can only be the loop's candidate. */
  ghost predicate OneLive(p: Plugin) {
    && (forall c, d :: Live(p, c) && Live(p, d) ==> c == d)
    && (forall l, c :: l in p.loops && Live(p, c) ==> OwnCandidate(p.loops[l], c))
    && (Early(p) ==> p.loops == map[] && forall c :: !Live(p, c))
    && (Registering(p) ==> forall c :: Live(p, c) ==> c == p.setup.c)
    && (p.setup.SetupRegister? || p.setup.SetupClose? ==> p.loops == map[])
    && (p.setup.SetupAnswered? ==> forall l :: l in p.loops ==> p.loops[l].LoopInfra? || p.loops[l].LoopWait?)
  }

  /** What the setup and a loop say about their clients. */
  predicate Named(p: Plugin) {
    && (p.setup.SetupConnect? ==> Has(p, p.setup.c, Fresh))
    && (p.setup.SetupRegister? ==> Live(p, p.setup.c))
    && (p.setup.SetupAnswered? ==> p.setup.c < |p.clients|)
    && (p.setup.SetupClose? ==> Has(p, p.setup.c, Closing))
    && (forall l :: l in p.loops && p.loops[l].LoopConnect? ==> Has(p, p.loops[l].candidate, Fresh))
    && (forall l :: l in p.loops && p.loops[l].LoopRegister? ==> Has(p, p.loops[l].candidate, Open))
    && (forall l :: l in p.loops && p.loops[l].LoopAnswered? ==>
          Has(p, p.loops[l].candidate, Open) || Has(p, p.loops[l].candidate, Dead))
    && (forall l :: l in p.loops && p.loops[l].LoopClose? ==>
          Has(p, p.loops[l].candidate, Closing) && (p.loops[l].last ==> p.shuttingDown))
    && (forall l :: l in p.loops && !p.loops[l].LoopInfra? && !p.loops[l].LoopWait? ==>
          p.client != Some(p.loops[l].candidate))
    && (p.client.Some? ==> p.client.value < |p.clients| && !p.shuttingDown)
    && (p.setup.NotStarted? || p.setup.SetupInfra? || p.setup.SetupClose? ==> p.client.None?)
    && ((p.setup.SetupConnect? || p.setup.SetupRegister? || p.setup.SetupAnswered?) && !p.shuttingDown ==>
          p.client == Some(p.setup.c) && !Has(p, p.setup.c, Closing))
  }

  /** What was lost is not owned, and a registration about to be sent names exactly what is owned. */
  ghost predicate Forgotten(p: Plugin) {
    && (forall i :: 0 <= i < |p.log| && p.log[i].Lost? ==> p.log[i].hostname !in p.owned)
    && (Early(p) ==> p.owned == SetOf(p.domains) && forall i :: 0 <= i < |p.log| ==> !p.log[i].Lost?)
    && (forall l :: l in p.loops && p.loops[l].LoopConnect? ==> p.loops[l].hostnames == Filtered(p.domains, p.owned))
  }

  /** No registration names a hostname that was lost before. */
  ghost predicate NoReclaim(log: seq<Entry>) {
    forall i, j :: 0 <= i < j < |log| && log[i].Lost? && log[j].Called? ==> log[i].hostname !in log[j].hostnames
  }

  ghost predicate Inv(p: Plugin) {
    OneLoop(p) && OneLive(p) && Named(p) && Forgotten(p) && NoReclaim(p.log)
  }

  lemma {:induction false} FilteredOwned(domains: seq<Hostname>, owned: set<Hostname>)
    ensures var hs := Filtered(domains, owned);
            && (forall i :: 0 <= i < |hs| ==> hs[i] in owned)
            && (forall h :: h in hs <==> h in domains && h in owned)
  {
    if domains != [] {
      FilteredOwned(domains[1..], owned);
      assert forall h :: h in domains <==> h == domains[0] || h in domains[1..];
    }
  }

  lemma CleanupKeepsInv(p: Plugin)
    requires Inv(p)
    ensures Inv(Cleanup(p))
  {
    hide NoReclaim;
    assert forall d :: Live(Cleanup(p), d) <==> Live(p, d);
  }

  lemma EndLoopKeepsInv(p: Plugin, l: LoopId)
    requires Inv(p) && l in p.loops
    ensures Inv(EndLoop(p, l))
  {
    hide NoReclaim;
    assert forall d :: Live(EndLoop(p, l), d) <==> Live(p, d);
  }

  lemma LoopHeadKeepsInv(p: Plugin, l: LoopId)
    requires Inv(p) && l in p.loops && forall c :: !Live(p, c)
    ensures Inv(LoopHead(p, l))
  {
    hide NoReclaim, Filtered;
    if p.shuttingDown || Filtered(p.domains, p.owned) == [] {
      EndLoopKeepsInv(p, l);
    } else {
      assert forall d :: Live(LoopHead(p, l), d) <==> Live(p, d);
    }
  }

  lemma LoopClosedKeepsInv(p: Plugin, l: LoopId, last: bool)
    requires Inv(p) && l in p.loops && forall c :: !Live(p, c)
    requires !p.setup.SetupAnswered?
    ensures Inv(LoopClosed(p, l, last))
  {
    hide NoReclaim;
    if last || p.shuttingDown {
      EndLoopKeepsInv(p, l);
    } else {
      assert forall d :: Live(LoopClosed(p, l, last), d) <==> Live(p, d);
    }
  }

  /** A recovery starts only when no client lives. */
  lemma RecoverKeepsInv(p: Plugin)
    requires Inv(p)
    requires p.promise.None? && !p.shuttingDown ==>
               (forall c :: !Live(p, c)) && !Early(p) && !p.setup.SetupRegister? && !p.setup.SetupClose?
    ensures Inv(RecoverRoutes(p))
  {
    hide NoReclaim, LoopHead;
    if p.promise.None? && !p.shuttingDown {
      var q := p.(promise := Some(p.nextLoop), loops := p.loops[p.nextLoop := LoopWait], nextLoop := p.nextLoop + 1);
      assert forall d :: Live(q, d) <==> Live(p, d);
      LoopHeadKeepsInv(q, p.nextLoop);
    }
  }

  lemma SetupFailedKeepsInv(p: Plugin, updateRequired: bool)
    requires Inv(p.(setup := SetupDone)) && (updateRequired && !p.shuttingDown ==> forall c :: !Live(p, c))
    ensures Inv(SetupFailed(p, updateRequired))
  {
    hide NoReclaim, RecoverRoutes, Cleanup;
    var q := p.(setup := SetupDone);
    assert forall d :: Live(q, d) <==> Live(p, d);
    if updateRequired {
      RecoverKeepsInv(q);
    } else {
      CleanupKeepsInv(q);
    }
  }

  lemma SetupFailKeepsInv(p: Plugin, updateRequired: bool)
    requires Inv(p) && (p.setup.SetupInfra? || p.setup.SetupAnswered?)
    ensures Inv(SetupFail(p, updateRequired))
  {
    hide NoReclaim, SetupFailed;
    var q := SetupFail(p, updateRequired);
    if p.shuttingDown {
      assert forall d :: Live(q, d) <==> Live(p, d);
    } else if p.client.Some? && Has(p, p.client.value, Open) {
      assert Live(p, p.client.value);
      assert p.loops == map[];
      assert forall d :: Live(q, d) <==> Live(p, d);
    } else {
      var forgotten := p.(client := None);
      var done := forgotten.(setup := SetupDone);
      assert forall d :: Live(forgotten, d) <==> Live(p, d);
      assert forall d :: Live(done, d) <==> Live(p, d);
      SetupCannotBeClosing(p);
      SetupFailedKeepsInv(forgotten, updateRequired);
    }
  }

  /** Only a shutdown closes the client of a setup that still waits for its registration. */
  lemma SetupCannotBeClosing(p: Plugin)
    requires Inv(p) && (p.setup.SetupInfra? || p.setup.SetupAnswered?) && !p.shuttingDown
    requires p.client.Some? ==> !Has(p, p.client.value, Open)
    ensures forall c :: !Live(p, c)
  {
  }

  lemma SetupStepKeepsInv(p: Plugin, e: Event)
    requires Inv(p)
    ensures Inv(SetupStep(p, e))
  {
    hide SetupFail;
    var q := SetupStep(p, e);
    match e
    case SetupInfraDone(ok, update) =>
      hide NoReclaim;
      if p.setup.SetupInfra? && !ok {
        SetupFailKeepsInv(p, update);
      } else {
        assert forall d :: Live(q, d) <==> Live(p, d);
      }
    case SetupConnected(ok) =>
      if p.setup.SetupConnect? {
        if ok {
          SetupOpenedKeepsInv(p);
        } else {
          SetupConnectFailedKeepsInv(p);
        }
      }
    case SetupResumed =>
      hide NoReclaim;
      if p.setup.SetupAnswered? && p.setup.answer.Refused? {
        SetupFailKeepsInv(p, p.setup.answer.updateRequired);
      } else {
        assert forall d :: Live(q, d) <==> Live(p, d);
      }
    case _ =>
      hide NoReclaim;
      assert forall d :: Live(q, d) <==> Live(p, d);
  }

  lemma SetupOpenedKeepsInv(p: Plugin)
    requires Inv(p) && p.setup.SetupConnect?
    ensures Inv(SetupStep(p, SetupConnected(true)))
  {
    assert forall d :: Live(SetupStep(p, SetupConnected(true)), d) <==> Live(p, d) || d == p.setup.c;
  }

  lemma SetupConnectFailedKeepsInv(p: Plugin)
    requires Inv(p) && p.setup.SetupConnect?
    ensures Inv(SetupStep(p, SetupConnected(false)))
  {
    hide NoReclaim, SetupFailed;
    var failed := Mark(p, p.setup.c, Dead);
    var done := failed.(client := None, setup := SetupDone);
    assert forall d :: Live(done, d) <==> Live(p, d);
    if p.shuttingDown {
      assert SetupFail(failed, false) == done;
    } else {
      SetupFailedKeepsInv(failed.(client := None), false);
    }
  }

  lemma LoopInfraKeepsInv(p: Plugin, l: LoopId, ok: bool)
    requires Inv(p) && !p.setup.SetupAnswered?
    ensures Inv(LoopStep(p, LoopInfraDone(l, ok)))
  {
    hide NoReclaim, Filtered, EndLoop, LoopClosed;
    var q := LoopStep(p, LoopInfraDone(l, ok));
    if l in p.loops && p.loops[l].LoopInfra? {
      FilteredOwned(p.domains, p.owned);
      if !ok {
        LoopClosedKeepsInv(p, l, false);
      } else if Filtered(p.domains, p.owned) == [] {
        EndLoopKeepsInv(p, l);
      } else {
        assert forall d :: Live(q, d) <==> Live(p, d);
      }
    }
  }

  lemma LoopOpenedKeepsInv(p: Plugin, l: LoopId)
    requires Inv(p) && !p.setup.SetupAnswered? && l in p.loops && p.loops[l].LoopConnect?
    ensures Inv(LoopStep(p, LoopConnected(l, true)))
  {
    var q := LoopStep(p, LoopConnected(l, true));
    FilteredOwned(p.domains, p.owned);
    assert forall d :: Live(q, d) <==> Live(p, d) || d == p.loops[l].candidate;
  }

  lemma LoopConnectedKeepsInv(p: Plugin, l: LoopId, ok: bool)
    requires Inv(p) && !p.setup.SetupAnswered?
    ensures Inv(LoopStep(p, LoopConnected(l, ok)))
  {
    hide NoReclaim, LoopClosed;
    if l in p.loops && p.loops[l].LoopConnect? {
      if ok {
        LoopOpenedKeepsInv(p, l);
      } else {
        var failed := Mark(p, p.loops[l].candidate, Dead);
        var waits := failed.(loops := p.loops[l := LoopWait]);
        assert forall d :: Live(waits, d) <==> Live(p, d);
        LoopClosedKeepsInv(waits, l, false);
        LoopClosedForgets(failed, l, false);
      }
    }
  }

  /** What the loop was doing before does not matter once its candidate is closed. */
  lemma LoopClosedForgets(p: Plugin, l: LoopId, last: bool)
    ensures LoopClosed(p.(loops := p.loops[l := LoopWait]), l, last) == LoopClosed(p, l, last)
  {
    assert p.loops[l := LoopWait] - {l} == p.loops - {l};
    assert p.loops[l := LoopWait][l := LoopWait] == p.loops[l := LoopWait];
  }

  lemma CloseCandidateKeepsInv(p: Plugin, l: LoopId, c: ClientId, last: bool)
    requires Inv(p) && l in p.loops && p.loops[l].LoopAnswered? && p.loops[l].candidate == c
    requires last ==> p.shuttingDown
    ensures Inv(CloseCandidate(p, l, c, last))
  {
    hide NoReclaim, LoopClosed;
    if Has(p, c, Open) {
      assert forall d :: Live(CloseCandidate(p, l, c, last), d) <==> Live(p, d);
    } else {
      var waits := p.(loops := p.loops[l := LoopWait]);
      assert forall d :: Live(p, d) ==> OwnCandidate(p.loops[l], d);
      assert forall d :: Live(waits, d) <==> Live(p, d);
      LoopClosedKeepsInv(waits, l, last);
      LoopClosedForgets(p, l, last);
    }
  }

  lemma LoopResumedKeepsInv(p: Plugin, l: LoopId)
    requires Inv(p)
    ensures Inv(LoopStep(p, LoopResumed(l)))
  {
    hide NoReclaim, CloseCandidate;
    if l in p.loops && p.loops[l].LoopAnswered? {
      var c := p.loops[l].candidate;
      CloseCandidateKeepsInv(p, l, c, false);
      if p.shuttingDown {
        CloseCandidateKeepsInv(p, l, c, true);
      } else if p.loops[l].accepted {
        var q := LoopStep(p, LoopResumed(l));
        assert forall d :: Live(q, d) <==> Live(p, d);
      }
    }
  }

  lemma LoopRepliedKeepsInv(p: Plugin, l: LoopId, ok: bool)
    requires Inv(p)
    ensures Inv(LoopStep(p, LoopReplied(l, ok)))
  {
    hide NoReclaim;
    var q := LoopStep(p, LoopReplied(l, ok));
    assert forall d :: Live(q, d) <==> Live(p, d);
  }

  lemma LoopStepKeepsInv(p: Plugin, e: Event)
    requires Inv(p) && (p.setup.SetupAnswered? ==> e.LoopResumed?)
    ensures Inv(LoopStep(p, e))
  {
    hide Inv;
    match e
    case LoopInfraDone(l, ok) => LoopInfraKeepsInv(p, l, ok);
    case LoopConnected(l, ok) => LoopConnectedKeepsInv(p, l, ok);
    case LoopReplied(l, ok) => LoopRepliedKeepsInv(p, l, ok);
    case LoopResumed(l) => LoopResumedKeepsInv(p, l);
    case LoopWaited(l) =>
      if l in p.loops && p.loops[l].LoopWait? {
        WaitingMeansNobodyLives(p, l);
        LoopHeadKeepsInv(p, l);
      }
    case _ =>
  }

  lemma WaitingMeansNobodyLives(p: Plugin, l: LoopId)
    requires Inv(p) && l in p.loops && p.loops[l].LoopWait?
    ensures forall c :: !Live(p, c)
  {
  }

  /** One live client died: everything else is as before, and now nobody lives. */
  lemma DeathLeavesNobody(p: Plugin, c: ClientId)
    requires Inv(p) && Live(p, c)
    ensures forall d :: !Live(Mark(p, c, Dead), d)
  {
    forall d ensures !Live(Mark(p, c, Dead), d) {
      if Live(p, d) {
        assert d == c;
      }
    }
  }

  lemma RefuseSetupKeepsInv(p: Plugin, c: ClientId)
    requires Inv(p) && Live(p, c) && p.setup == SetupRegister(c)
    ensures Inv(Refuse(Mark(p, c, Dead), c))
  {
    hide NoReclaim;
    DeathLeavesNobody(p, c);
    var q := Refuse(Mark(p, c, Dead), c);
    assert forall d :: Live(q, d) <==> Live(Mark(p, c, Dead), d);
  }

  lemma RefuseLoopKeepsInv(p: Plugin, c: ClientId)
    requires Inv(p) && Live(p, c) && LoopIs(p, LoopRegister(c))
    ensures Inv(Refuse(Mark(p, c, Dead), c))
  {
    hide NoReclaim;
    DeathLeavesNobody(p, c);
    assert !p.setup.SetupRegister?;
    var q := Refuse(Mark(p, c, Dead), c);
    assert forall d :: Live(q, d) <==> Live(Mark(p, c, Dead), d);
  }

  /** A client dies that nobody waits to see closed: whoever waits for its reply is refused. */
  lemma RefuseKeepsInv(p: Plugin, c: ClientId)
    requires Inv(p) && Live(p, c)
    requires !p.setup.SetupClose? && forall l :: l in p.loops ==> !p.loops[l].LoopClose?
    ensures Inv(Refuse(Mark(p, c, Dead), c))
  {
    hide NoReclaim;
    if p.setup == SetupRegister(c) {
      RefuseSetupKeepsInv(p, c);
    } else if LoopIs(p, LoopRegister(c)) {
      RefuseLoopKeepsInv(p, c);
    } else {
      DeathLeavesNobody(p, c);
    }
  }

  lemma DisconnectKeepsInv(p: Plugin, c: ClientId)
    requires Inv(p) && Has(p, c, Open)
    ensures Inv(Disconnect(p, c))
  {
    hide NoReclaim, RecoverRoutes;
    assert Live(p, c);
    forall l | l in p.loops ensures !p.loops[l].LoopClose? {
      assert OwnCandidate(p.loops[l], c);
    }
    RefuseKeepsInv(p, c);
    DeathLeavesNobody(p, c);
    var q := Refuse(Mark(p, c, Dead), c);
    assert forall d :: Live(q, d) <==> Live(Mark(p, c, Dead), d);
    RecoverKeepsInv(q);
  }

  lemma CloseKeepsInv(p: Plugin, c: ClientId)
    requires Inv(p) && Has(p, c, Closing) && !p.setup.SetupAnswered?
    ensures Inv(Close(p, c))
  {
    hide NoReclaim, SetupFailed, LoopClosed, Refuse;
    var dead := Mark(p, c, Dead);
    assert Live(p, c);
    DeathLeavesNobody(p, c);
    if p.setup.SetupClose? && p.setup.c == c {
      var done := dead.(setup := SetupDone);
      assert forall d :: Live(done, d) <==> Live(dead, d);
      SetupFailedKeepsInv(dead, p.setup.updateRequired);
    } else if LoopIs(p, LoopClose(c, false)) || LoopIs(p, LoopClose(c, true)) {
      var l, last := p.promise.value, p.loops[p.promise.value].last;
      var waits := dead.(loops := p.loops[l := LoopWait]);
      assert forall d :: Live(waits, d) <==> Live(dead, d);
      LoopClosedKeepsInv(waits, l, last);
      LoopClosedForgets(dead, l, last);
    } else {
      NobodyElseCloses(p, c);
      RefuseKeepsInv(p, c);
    }
  }

  lemma NobodyElseCloses(p: Plugin, c: ClientId)
    requires Inv(p) && Live(p, c) && !(p.setup.SetupClose? && p.setup.c == c)
    requires !LoopIs(p, LoopClose(c, false)) && !LoopIs(p, LoopClose(c, true))
    ensures !p.setup.SetupClose? && forall l :: l in p.loops ==> !p.loops[l].LoopClose?
  {
    hide NoReclaim;
    forall l | l in p.loops ensures !p.loops[l].LoopClose? {
      assert OwnCandidate(p.loops[l], c);
      assert p.promise == Some(l);
      assert p.loops[l] != LoopClose(c, false) && p.loops[l] != LoopClose(c, true);
    }
  }

  lemma LearnedIsForgotten(p: Plugin, hs: seq<Hostname>)
    requires Forgotten(p) && NoReclaim(p.log) && !Early(p)
    requires forall l :: l in p.loops ==> !p.loops[l].LoopConnect?
    ensures var q := p.(owned := p.owned - SetOf(hs), log := p.log + Losses(hs)); Forgotten(q) && NoReclaim(q.log)
  {
    var q := p.(owned := p.owned - SetOf(hs), log := p.log + Losses(hs));
    assert forall i :: 0 <= i < |hs| ==> q.log[|p.log| + i] == Lost(hs[i]);
    assert forall i :: |p.log| <= i < |q.log| ==> q.log[i].Lost? && q.log[i].hostname in hs;
  }

  /** A loss can only be heard while no registration is about to be sent. */
  lemma LearnedKeepsInv(p: Plugin, c: ClientId, hs: seq<Hostname>)
    requires Inv(p) && (Live(p, c) || StillHeard(p, c))
    ensures Inv(React(p, Learned(c, hs)))
  {
    hide NoReclaim, Losses, SetOf;
    assert !Early(p) && forall l :: l in p.loops ==> !p.loops[l].LoopConnect?;
    LearnedIsForgotten(p, hs);
    hide Forgotten;
    assert forall d :: Live(React(p, Learned(c, hs)), d) <==> Live(p, d);
  }

  lemma StepKeepsInv(p: Plugin, e: Event)
    requires Inv(p)
    ensures Inv(Step(p, e))
  {
    hide Inv, SetupStep, LoopStep, Disconnect, Close, Cleanup;
    if Due(p).None? || SameTurn(e, Due(p).value) {
      match e
      case Learned(c, hs) =>
        if Live(p, c) || StillHeard(p, c) {
          LearnedKeepsInv(p, c, hs);
        }
      case Disconnected(c) =>
        if Has(p, c, Open) {
          DisconnectKeepsInv(p, c);
        }
      case Closed(c) =>
        if Has(p, c, Closing) {
          CloseKeepsInv(p, c);
        }
      case Shutdown => CleanupKeepsInv(p);
      case _ =>
        SetupStepKeepsInv(p, e);
        if !p.setup.SetupAnswered? || e.LoopResumed? {
          LoopStepKeepsInv(p, e);
        }
    }
  }

  lemma {:induction false} ReachableInv(domains: seq<Hostname>, events: seq<Event>)
    ensures Inv(Run(domains, events))
    decreases |events|
  {
    if events != [] {
      ReachableInv(domains, events[..|events| - 1]);
      StepKeepsInv(Run(domains, events[..|events| - 1]), events[|events| - 1]);
    }
  }

  /** Over any run no registration names a hostname the plugin had learned to be lost. */
  lemma {:induction false} LostIsNeverReclaimed(domains: seq<Hostname>, events: seq<Event>, i: nat, j: nat)
    requires var log := Run(domains, events).log; i < j < |log| && log[i].Lost? && log[j].Called?
    ensures var log := Run(domains, events).log; log[i].hostname !in log[j].hostnames
  {
    ReachableInv(domains, events);
  }

  /** Over any run at most one recovery loop is active and at most one client can deliver anything. */
  lemma {:induction false} OneRecoveryAtATime(domains: seq<Hostname>, events: seq<Event>)
    ensures var p := Run(domains, events);
            && |p.loops| <= 1
            && forall c, d :: Live(p, c) && Live(p, d) ==> c == d
  {
    ReachableInv(domains, events);
    var p := Run(domains, events);
    assert |p.loops| == |p.loops.Keys|;
  }
}
