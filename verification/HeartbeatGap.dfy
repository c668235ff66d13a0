/** A run after which a heartbeat round cannot correct the client: more than a hundred hostnames, one of them lost. */
module HeartbeatGap {
  import opened Wrappers
  import opened RouteRegistry
  import opened ControlServer
  import opened ControlClient

  predicate Idle(s: Server, c: ConnectionId) {
    c in s.connections && s.connections[c].pending == [] && s.connections[c].inFlight.None?
    && !s.connections[c].cleanupScheduled
  }

  function RegisterSteps(s: Server, c: ConnectionId, id: RequestId, gs: seq<Registration>): Server {
    Step(Step(Step(Step(s, Receive(c, id, Message.Register(gs))), Dispatch(c)), Advance), Validated(true))
  }

  /** A registration on an idle server: validated, carried out and answered; every connection is as idle as before. */
  lemma RegisterIsServed(s: Server, c: ConnectionId, id: RequestId, gs: seq<Registration>)
    requires Idle(s, c) && s.queue == [] && !s.validating && Acceptable(Message.Register(gs))
    ensures var after, (registry, ns) := RegisterSteps(s, c, id, gs), RegisteredAll(s.registry, gs, c);
            && after.registry.routes == registry.routes
            && after.sent == s.sent + NoticeFrames(ns) + [Sent(c, Frame.Registered(id, Hostnames(gs)))]
            && after.queue == [] && !after.validating
            && forall d :: Idle(s, d) ==> Idle(after, d)
  {
    var m := Message.Register(gs);
    var s1 := Step(s, Receive(c, id, m));
    var s2 := Step(s1, Dispatch(c));
    assert s2.connections[c].inFlight == Some(Parsed(id, m)) && s2.queue == [c];
    var s3 := Step(s2, Advance);
    assert s3 == s2.(validating := true) && HasHead(s3) && Head(s3) == Item.Request(id, m);
    var (registry, ns) := RegisteredAll(s3.registry, gs, c);
    var claimed := s3.(registry := registry, sent := s3.sent + NoticeFrames(ns));
    AdoptKeepsQueue(claimed, c, gs);
    ProcessKeepsQueue(s3, c, Head(s3));
    assert Step(s3, Validated(true)) == Complete(s3);
    assert Process(s3, c, Head(s3)) == Claim(s3, c, id, gs);
  }

  /** While one token holds every route, its own registrations tell nobody. */
  lemma {:induction false} OneTokenTellsNobody(r: Registry, gs: seq<Registration>, c: ConnectionId, t: Token)
    requires forall h :: h in r.routes ==> r.routes[h].Owner() == t
    requires forall i :: 0 <= i < |gs| ==> gs[i].owner == t
    ensures var (after, ns) := RegisteredAll(r, gs, c);
            ns == [] && forall h :: h in after.routes ==> after.routes[h].Owner() == t
    decreases |gs|
  {
    if gs != [] {
      OneTokenTellsNobody(RegisteredOne(r, gs[0], c).0, gs[1..], c, t);
    }
  }

  // ----- Steps of the joint system -----

  ghost predicate Reaches(start: System, y: System) {
    exists actions :: After(start, actions) == y
  }

  lemma ReachesItself(start: System)
    ensures Reaches(start, start)
  {
    assert After(start, []) == start;
  }

  lemma ReachesNext(start: System, y: System, a: Action)
    requires Reaches(start, y)
    ensures Reaches(start, Next(y, a))
  {
    var actions :| After(start, actions) == y;
    assert (actions + [a])[..|actions|] == actions;
    assert After(start, actions + [a]) == Next(y, a);
  }

  function Registrations(hs: seq<Hostname>, t: Token): seq<Registration> {
    seq(|hs|, i requires 0 <= i < |hs| => Registration(hs[i], t, ""))
  }

  /** The client asks for a registration and the server serves it to the end. */
  lemma {:induction false} AskAndServe(start: System, y: System, id: RequestId, gs: seq<Registration>)
    requires Reaches(start, y) && Idle(y.server, y.me) && y.server.queue == [] && !y.server.validating
    requires id !in y.asked && Own(Message.Register(gs), y.token)
    ensures Reaches(start, y.(server := RegisterSteps(y.server, y.me, id, gs),
                              client := y.client.(pending := y.client.pending[id := Message.Register(gs)]),
                              asked := y.asked[id := Message.Register(gs)]))
  {
    hide Step, After, Own, Idle;
    var m := Message.Register(gs);
    var y1 := Next(y, Ask(id, m));
    ReachesNext(start, y, Ask(id, m));
    var y2 := Next(y1, Serve(Dispatch(y.me)));
    ReachesNext(start, y1, Serve(Dispatch(y.me)));
    var y3 := Next(y2, Serve(Advance));
    ReachesNext(start, y2, Serve(Advance));
    ReachesNext(start, y3, Serve(Validated(true)));
  }

  lemma {:induction false} OtherIsServed(start: System, y: System, other: ConnectionId, id: RequestId, gs: seq<Registration>)
    requires Reaches(start, y) && other != y.me
    ensures Reaches(start, y.(server := RegisterSteps(y.server, other, id, gs)))
  {
    hide Step, After;
    var e := Receive(other, id, Message.Register(gs));
    var y1 := Next(y, Serve(e));
    ReachesNext(start, y, Serve(e));
    var y2 := Next(y1, Serve(Dispatch(other)));
    ReachesNext(start, y1, Serve(Dispatch(other)));
    var y3 := Next(y2, Serve(Advance));
    ReachesNext(start, y2, Serve(Advance));
    ReachesNext(start, y3, Serve(Validated(true)));
  }

  predicate LossesOf(fs: seq<Frame>, h: Hostname) {
    forall i :: 0 <= i < |fs| ==> fs[i].RouteLost? && fs[i].takeover.hostname == h
  }

  /** Only losses of one hostname are on their way: hearing them all costs at most that hostname. */
  lemma {:induction false} HearLosses(start: System, y: System, h: Hostname) returns (claimed: set<Hostname>)
    requires Reaches(start, y) && y.delivered <= |Log(y)| && LossesOf(Log(y)[y.delivered..], h)
    ensures Reaches(start, y.(client := y.client.(claimed := claimed), delivered := |Log(y)|))
    ensures y.client.claimed - {h} <= claimed <= y.client.claimed
    decreases |Log(y)| - y.delivered
  {
    if y.delivered == |Log(y)| {
      claimed := y.client.claimed;
      assert y.(client := y.client.(claimed := claimed), delivered := |Log(y)|) == y;
    } else {
      var f := Log(y)[y.delivered];
      assert f == Log(y)[y.delivered..][0];
      var next := Next(y, Deliver);
      ReachesNext(start, y, Deliver);
      assert Log(next)[next.delivered..] == Log(y)[y.delivered..][1..];
      claimed := HearLosses(start, next, h);
    }
  }

  // ----- The run -----

  /** A connected client of this token that shares the server with another connection; nothing is under way. */
  ghost predicate Calm(y: System, other: ConnectionId) {
    && Idle(y.server, y.me) && Idle(y.server, other) && y.server.queue == [] && !y.server.validating
    && (forall h :: h in y.server.registry.routes ==> y.server.registry.routes[h].Owner() == y.token)
  }

  lemma StartIsCalm(me: ConnectionId, other: ConnectionId, t: Token)
    requires me != other
    ensures var y := Start([Connect(other)], me, t);
            && me !in Run([Connect(other)]).connections
            && Calm(y, other) && y.me == me && y.token == t && y.asked == map[]
            && y.client == Client({}, map[], []) && y.delivered == 0 == |Log(y)|
  {
    assert [Connect(other)][..0] == [] && Run([]) == INITIAL;
    assert Run([Connect(other)]) == Step(INITIAL, Connect(other));
  }

  lemma RegistrationsAre(hs: seq<Hostname>, t: Token)
    requires Distinct(hs) && 1 <= |hs| <= MAX_HOSTNAMES
    ensures Hostnames(Registrations(hs, t)) == hs
    ensures Acceptable(Message.Register(Registrations(hs, t))) && Own(Message.Register(Registrations(hs, t)), t)
  {
    assert Hostnames(Registrations(hs, t)) == hs;
  }

  /** The client's own registration is served and answered, and tells nobody. */
  lemma {:induction false} OwnRegistration(start: System, y: System, other: ConnectionId, id: RequestId, hs: seq<Hostname>)
      returns (z: System)
    requires Reaches(start, y) && Calm(y, other) && other != y.me && id !in y.asked
    requires Distinct(hs) && 1 <= |hs| <= MAX_HOSTNAMES
    ensures var m := Message.Register(Registrations(hs, y.token));
            && Reaches(start, z) && Calm(z, other) && z.me == y.me && z.token == y.token
            && z.asked == y.asked[id := m] && z.client == y.client.(pending := y.client.pending[id := m])
            && z.delivered == y.delivered && Log(z) == Log(y) + [Frame.Registered(id, hs)]
  {
    var gs := Registrations(hs, y.token);
    RegistrationsAre(hs, y.token);
    AskAndServe(start, y, id, gs);
    RegisterIsServed(y.server, y.me, id, gs);
    OneTokenTellsNobody(y.server.registry, gs, y.me, y.token);
    var after := RegisterSteps(y.server, y.me, id, gs);
    z := y.(server := after, client := y.client.(pending := y.client.pending[id := Message.Register(gs)]),
            asked := y.asked[id := Message.Register(gs)]);
    OneFrame(y.server.sent, y.me, Frame.Registered(id, hs), y.me);
    assert NoticeFrames([]) == [] && y.server.sent + [] == y.server.sent;
  }

  lemma {:induction false} NoticesOfOne(listeners: seq<Listener>, t: Takeover, me: ConnectionId)
    ensures LossesOf(FramesFor(NoticeFrames(Notices(listeners, t)), me), t.hostname)
    decreases |listeners|
  {
    if listeners != [] {
      var all := NoticeFrames(Notices(listeners, t));
      NoticesOfOne(listeners[1..], t, me);
      assert all[1..] == NoticeFrames(Notices(listeners[1..], t));
    }
  }

  /** Another connection takes one hostname over: this client is sent losses of that hostname at most. */
  lemma {:induction false} TakenOver(start: System, y: System, other: ConnectionId, id: RequestId, h: Hostname, t: Token)
      returns (z: System)
    requires Reaches(start, y) && Calm(y, other) && other != y.me
    ensures Reaches(start, z) && z == y.(server := z.server) && Idle(z.server, y.me) && z.server.queue == []
    ensures h !in Held(z)
    ensures |Log(z)| >= |Log(y)| && Log(z)[..|Log(y)|] == Log(y) && LossesOf(Log(z)[|Log(y)|..], h)
  {
    var gs := Registrations([h], t);
    RegistrationsAre([h], t);
    OtherIsServed(start, y, other, id, gs);
    RegisterIsServed(y.server, other, id, gs);
    z := y.(server := RegisterSteps(y.server, other, id, gs));
    var (registry, ns) := RegisteredAll(y.server.registry, gs, other);
    assert gs[1..] == [];
    var (first, n1) := RegisteredOne(y.server.registry, gs[0], other);
    assert registry == first && ns == n1 + [];
    assert ns == n1;
    FramesForAppend(y.server.sent + NoticeFrames(ns), [Sent(other, Frame.Registered(id, Hostnames(gs)))], y.me);
    FramesForAppend(y.server.sent, NoticeFrames(ns), y.me);
    if n1 != [] {
      var previous := y.server.registry.routes[h].Owner();
      NoticesOfOne(ListenersOf(y.server.registry, previous), Takeover(h, previous, t), y.me);
    }
    var last := [Sent(other, Frame.Registered(id, Hostnames(gs)))];
    assert last[1..] == [] && FramesFor(last, y.me) == [];
    assert Log(z) == Log(y) + FramesFor(NoticeFrames(ns), y.me);
  }

  /** A first registration is heard and run on: the client claims exactly what it named. */
  lemma {:induction false} FirstClaims(me: ConnectionId, other: ConnectionId, t: Token, id: RequestId, hs: seq<Hostname>)
      returns (z: System)
    requires me != other && Distinct(hs) && 1 <= |hs| <= MAX_HOSTNAMES
    ensures Reaches(Start([Connect(other)], me, t), z) && Calm(z, other) && z.me == me && z.token == t
    ensures z.client == Client(SetOf(hs), map[], []) && z.asked.Keys == {id} && z.delivered == |Log(z)|
  {
    var start := Start([Connect(other)], me, t);
    StartIsCalm(me, other, t);
    ReachesItself(start);
    hide Start, Calm, Reaches, Idle;
    var y := OwnRegistration(start, start, other, id, hs);
    var f := Frame.Registered(id, hs);
    assert Log(y) == [f];
    ReachesNext(start, y, Deliver);
    var heard := Next(y, Deliver);
    ReachesNext(start, heard, Resume);
    z := Next(heard, Resume);
    assert heard.client.ready == [Continuation(Message.Register(Registrations(hs, t)), f)];
    assert {} + SetOf(hs) == SetOf(hs);
    assert y.client.pending - {id} == map[];
    CalmIsOfServer(y, z, other);
  }

  lemma CalmIsOfServer(y: System, z: System, other: ConnectionId)
    requires Calm(y, other) && z.server == y.server && z.me == y.me && z.token == y.token
    ensures Calm(z, other)
  {
  }

  /**
   * The client registers a hundred hostnames and then one more, which another connection takes over before the
   * caller of the second registration has run on: everything is quiet, and the client claims what it lost.
   */
  lemma {:induction false} LostBeyondAHundred(
      me: ConnectionId, other: ConnectionId, t: Token, rival: Token, hs: seq<Hostname>, h: Hostname)
      returns (y: System)
    requires me != other && |hs| == MAX_HOSTNAMES && Distinct(hs) && h !in hs
    ensures Reaches(Start([Connect(other)], me, t), y) && Quiet(y) && y.server.queue == []
    ensures y.client.claimed == SetOf(hs + [h]) && h !in Held(y) && y.asked.Keys == {"1", "2"}
  {
    var start := Start([Connect(other)], me, t);
    var first := FirstClaims(me, other, t, "1", hs);
    hide Start, Calm, Reaches, Handled, Held, Distinct;
    OneIsDistinct(h);
    var asked := OwnRegistration(start, first, other, "2", [h]);
    var taken := TakenOver(start, asked, other, "3", h, rival);
    assert Log(taken)[taken.delivered] == Frame.Registered("2", [h]);
    assert Log(taken)[taken.delivered + 1..] == Log(taken)[|Log(asked)|..];
    y := RunsOnLate(start, taken, Message.Register(Registrations([h], t)), hs, h);
    HeldIsOfServer(taken, y);
  }

  /** The reply and all losses are heard before the caller runs on: what it claims last is what was lost. */
  lemma {:induction false} RunsOnLate(start: System, taken: System, m: Message, hs: seq<Hostname>, h: Hostname)
      returns (y: System)
    requires Reaches(start, taken) && m.Register? && Idle(taken.server, taken.me)
    requires taken.client == Client(SetOf(hs), map["2" := m], []) && taken.delivered < |Log(taken)|
    requires Log(taken)[taken.delivered] == Frame.Registered("2", [h])
    requires LossesOf(Log(taken)[taken.delivered + 1..], h)
    ensures Reaches(start, y) && Quiet(y) && y == taken.(client := y.client, delivered := y.delivered)
    ensures y.client.claimed == SetOf(hs + [h])
  {
    hide Reaches, Handled, SetOf, FramesFor;
    ReachesNext(start, taken, Deliver);
    var heard := Next(taken, Deliver);
    HandledReply(taken.client, "2", m, Frame.Registered("2", [h]));
    var claimed := HearLosses(start, heard, h);
    var all := heard.(client := heard.client.(claimed := claimed), delivered := |Log(heard)|);
    ReachesNext(start, all, Resume);
    y := Next(all, Resume);
    assert y.client.claimed == claimed + SetOf([h]);
    ClaimedWithLast(hs, h, claimed);
  }

  lemma OneIsDistinct(h: Hostname)
    ensures Distinct([h])
  {
  }

  lemma HandledReply(c: Client, id: RequestId, m: Message, f: Frame)
    requires c.pending == map[id := m] && c.ready == [] && f.Registered? && f.id == id
    ensures Handled(c, f) == Client(c.claimed, map[], [Continuation(m, f)])
  {
    assert c.pending - {id} == map[];
  }

  lemma ClaimedWithLast(hs: seq<Hostname>, h: Hostname, claimed: set<Hostname>)
    requires SetOf(hs) - {h} <= claimed <= SetOf(hs)
    ensures claimed + SetOf([h]) == SetOf(hs + [h])
  {
    forall x ensures x in claimed + SetOf([h]) <==> x in SetOf(hs + [h]) {
      assert x in hs + [h] <==> x in hs || x == h;
      assert x in SetOf([h]) <==> x == h;
      assert x in SetOf(hs) <==> x in hs;
    }
  }

  lemma HeldIsOfServer(y: System, z: System)
    requires z.server.registry == y.server.registry && z.me == y.me
    ensures Held(z) == Held(y)
  {
  }

  lemma RoundKeepsMe(y: System, id: RequestId, m: Message)
    ensures AfterRound(y, id, m).me == y.me
  {
  }

  /** From there a whole heartbeat round leaves the client claiming a hostname that its lease does not hold. */
  lemma {:induction false} HeartbeatCannotReconcile(
      me: ConnectionId, other: ConnectionId, t: Token, rival: Token, hs: seq<Hostname>, h: Hostname)
      returns (actions: seq<Action>)
    requires me != other && |hs| == MAX_HOSTNAMES && Distinct(hs) && h !in hs
    ensures var y := After(Start([Connect(other)], me, t), actions);
            var done := AfterRound(y, "3", Message.Heartbeat(y.token, hs + [h]));
            h in done.client.claimed && h !in Held(done)
  {
    var start := Start([Connect(other)], me, t);
    StartIsCalm(me, other, t);
    var y := LostBeyondAHundred(me, other, t, rival, hs, h);
    actions :| After(start, actions) == y;
    var all := hs + [h];
    assert Distinct(all);
    hide Start, AfterRound, After, Quiet, Held, Run;
    HeartbeatRoundReconciles([Connect(other)], me, t, actions, "3", all);
    assert h in all;
    RoundKeepsMe(y, "3", Message.Heartbeat(y.token, all));
    HeldIsOfServer(y, AfterRound(y, "3", Message.Heartbeat(y.token, all)));
  }
}
