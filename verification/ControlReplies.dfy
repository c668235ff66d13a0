/** What the control server answers, stated by the history of claims and releases rather than by its registry. */
module ControlReplies {
  import opened Wrappers
  import opened RouteRegistry
  import opened ControlServer

  /** Somebody holds the hostname: its latest claim was neither released nor cleaned up. */
  ghost predicate IsHeld(events: seq<Event>, h: Hostname) {
    exists route: ActiveRoute :: route.registration.hostname == h && Holds(History(events), route)
  }

  /** This connection holds the hostname under this token. */
  ghost predicate IsHeldBy(events: seq<Event>, h: Hostname, owner: Token, c: ConnectionId) {
    exists route: ActiveRoute :: route.registration.hostname == h && route.Owner() == owner && route.lease == c
                    && Holds(History(events), route)
  }

  lemma HeldIsMapped(events: seq<Event>, h: Hostname)
    ensures h in Run(events).registry.routes <==> IsHeld(events, h)
  {
    var routes := Run(events).registry.routes;
    if h in routes {
      RegistryRefinesHistory(events, routes[h]);
      assert Maps(routes, routes[h]);
    }
    if route: ActiveRoute :| route.registration.hostname == h && Holds(History(events), route) {
      RegistryRefinesHistory(events, route);
    }
  }

  lemma HeldByIsMapped(events: seq<Event>, h: Hostname, owner: Token, c: ConnectionId)
    ensures HeldBy(Run(events).registry, h, owner, Some(c)) <==> IsHeldBy(events, h, owner, c)
  {
    var routes := Run(events).registry.routes;
    if h in routes {
      RegistryRefinesHistory(events, routes[h]);
      assert Maps(routes, routes[h]);
    }
    if IsHeldBy(events, h, owner, c) {
      var route: ActiveRoute :| route.registration.hostname == h && route.Owner() == owner && route.lease == c
                                && Holds(History(events), route);
      RegistryRefinesHistory(events, route);
    }
  }

  /** The step completes this request of the connection at the head of the queue. */
  predicate Answers(events: seq<Event>, e: Event, id: RequestId, m: Message) {
    var s := Run(events);
    Completes(s, e) && Head(s) == Item.Request(id, m)
  }

  /** What the step sends, and to whom. */
  function Reply(events: seq<Event>, e: Event, f: Frame): seq<Sent>
    requires Run(events).queue != []
  {
    Run(events).sent + [Sent(Run(events).queue[0], f)]
  }

  /** Over any run a request to stop is granted exactly when nobody holds a hostname. */
  lemma {:induction false} StopsExactlyWhenIdle(events: seq<Event>, e: Event, id: RequestId)
    requires Answers(events, e, id, StopIfIdle)
    ensures if exists h :: IsHeld(events, h) then Step(Run(events), e).sent == Reply(events, e, Failure(Some(id), "ROUTES_ACTIVE"))
            else Step(Run(events), e).sent == Reply(events, e, Stopping(id))
  {
    var routes := Run(events).registry.routes;
    if h :| IsHeld(events, h) {
      HeldIsMapped(events, h);
      assert routes.Keys != {};
    } else if routes != map[] {
      var h :| h in routes;
      HeldIsMapped(events, h);
    }
  }

  /** Over any run negotiation and health report how many hostnames are held. */
  lemma {:induction false} CountsWhatIsHeld(events: seq<Event>, e: Event, id: RequestId, names: set<Hostname>)
    requires Answers(events, e, id, Negotiate) || Answers(events, e, id, Health)
    requires forall h :: h in names <==> IsHeld(events, h)
    ensures Answers(events, e, id, Negotiate) ==> Step(Run(events), e).sent == Reply(events, e, Negotiated(id, |names|))
    ensures Answers(events, e, id, Health) ==> Step(Run(events), e).sent == Reply(events, e, Healthy(id, |names|))
  {
    var routes := Run(events).registry.routes;
    forall h ensures h in routes <==> h in names {
      HeldIsMapped(events, h);
    }
    assert routes.Keys == names;
  }

  /** Over any run a heartbeat confirms exactly the hostnames it asks about that the lease holds. */
  lemma {:induction false} HeartbeatConfirms(events: seq<Event>, e: Event, id: RequestId, owner: Token, hs: seq<Hostname>)
      returns (confirmed: seq<Hostname>)
    requires Answers(events, e, id, Message.Heartbeat(owner, hs))
    ensures Step(Run(events), e).sent == Reply(events, e, Alive(id, confirmed))
    ensures forall h :: h in confirmed <==> h in hs && IsHeldBy(events, h, owner, Run(events).queue[0])
  {
    var s := Run(events);
    confirmed := ActiveHostnames(s.registry, owner, hs, Some(s.queue[0]));
    ActiveHostnamesAre(s.registry, owner, hs, Some(s.queue[0]));
    forall h ensures HeldBy(s.registry, h, owner, Some(s.queue[0])) <==> IsHeldBy(events, h, owner, s.queue[0]) {
      HeldByIsMapped(events, h, owner, s.queue[0]);
    }
  }

  /** Over any run an unregistration reports exactly the hostnames that its lease held and now does not. */
  lemma {:induction false} UnregisterReports(events: seq<Event>, e: Event, id: RequestId, owner: Token, hs: seq<Hostname>)
      returns (removed: seq<Hostname>)
    requires Answers(events, e, id, Message.Unregister(owner, hs))
    ensures Step(Run(events), e).sent == Reply(events, e, Frame.Unregistered(id, removed))
    ensures forall h :: h in removed <==> h in hs && IsHeldBy(events, h, owner, Run(events).queue[0])
    ensures forall h :: h in removed ==> h !in Step(Run(events), e).registry.routes
  {
    var s := Run(events);
    var active := ActiveHostnames(s.registry, owner, hs, Some(s.queue[0]));
    removed := UnregisteredAll(s.registry, active, owner, Some(s.queue[0])).1;
    ActiveHostnamesAre(s.registry, owner, hs, Some(s.queue[0]));
    UnregisterManyRemoves(s.registry, active, owner, Some(s.queue[0]));
    forall h ensures HeldBy(s.registry, h, owner, Some(s.queue[0])) <==> IsHeldBy(events, h, owner, s.queue[0]) {
      HeldByIsMapped(events, h, owner, s.queue[0]);
    }
  }

  /** A validated registration is answered last, with the hostnames it named in their order. */
  lemma {:induction false} RegistrationIsConfirmed(events: seq<Event>, id: RequestId, gs: seq<Registration>)
      returns (hs: seq<Hostname>)
    requires Answers(events, Validated(true), id, Message.Register(gs))
    ensures var sent := Step(Run(events), Validated(true)).sent;
            sent != [] && sent[|sent| - 1] == Sent(Run(events).queue[0], Frame.Registered(id, hs))
    ensures |hs| == |gs| && forall i :: 0 <= i < |gs| ==> hs[i] == gs[i].hostname
  {
    var s := Run(events);
    hs := Hostnames(gs);
    ClaimSends(s, s.queue[0], id, gs);
  }

  /** A registration whose routes do not validate is answered with an error, and nothing else happens. */
  lemma {:induction false} RejectionChangesNothing(events: seq<Event>, id: RequestId, gs: seq<Registration>)
    requires var s := Run(events); HasHead(s) && s.validating && Head(s) == Item.Request(id, Message.Register(gs))
    ensures var s := Run(events);
            var after := Step(s, Validated(false));
            after.registry == s.registry && after.sent == s.sent + [Sent(s.queue[0], Failure(Some(id), "CERTIFICATE_REQUIRED"))]
  {
  }

  /** A frame that does not parse is answered without a request id, and nothing else happens. */
  lemma {:induction false} MalformedChangesNothing(events: seq<Event>, e: Event)
    requires var s := Run(events); Completes(s, e) && Head(s) == Malformed
    ensures var s := Run(events);
            var after := Step(s, e);
            after.registry == s.registry && after.sent == s.sent + [Sent(s.queue[0], Failure(None, "INVALID_MESSAGE"))]
  {
  }
}
