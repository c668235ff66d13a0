/**
 * The control server: each connection runs its frames one at a time, all connections share one
 * operation slot, and a registration keeps the slot while its routes are validated.
 */
module ControlServer {
  import opened Wrappers
  import opened RouteRegistry
  import Sequences

  type RequestId = string

  datatype Message =
    | Negotiate
    | StopIfIdle
    | Health
    | Register(routes: seq<Registration>)
    | Unregister(owner: Token, hostnames: seq<Hostname>)
    | Heartbeat(owner: Token, hostnames: seq<Hostname>)

  /** What waits in a connection's queue; a frame that does not parse is answered without a request id. */
  datatype Item = Request(id: RequestId, message: Message) | Malformed | Cleanup

  datatype Frame =
    | Negotiated(id: RequestId, activeRoutes: nat)
    | Stopping(id: RequestId)
    | Healthy(id: RequestId, activeRoutes: nat)
    | Registered(id: RequestId, hostnames: seq<Hostname>)
    | Unregistered(id: RequestId, hostnames: seq<Hostname>)
    | Alive(id: RequestId, hostnames: seq<Hostname>)
    | RouteLost(takeover: Takeover)
    | Failure(request: Option<RequestId>, code: string)

  datatype Sent = Sent(connection: ConnectionId, frame: Frame)

  datatype Connection = Connection(
    owners: set<Token>,
    unsubscribers: map<Token, Listener>,
    pending: seq<Item>,
    inFlight: Option<Item>,
    cleanupScheduled: bool,
    cleaned: bool)

  /** `queue` lists the connections whose item is in the shared slot or waits for it. */
  datatype Server = Server(
    registry: Registry,
    connections: map<ConnectionId, Connection>,
    queue: seq<ConnectionId>,
    validating: bool,
    sent: seq<Sent>,
    nextListener: nat)

  datatype Event =
    | Connect(c: ConnectionId)
    | Receive(c: ConnectionId, id: RequestId, message: Message)
    | Close(c: ConnectionId)
    | Dispatch(c: ConnectionId)
    | Advance
    | Validated(ok: bool)

  const MAX_HOSTNAMES: nat := 100

  predicate Distinct(hs: seq<Hostname>) {
    forall i, j :: 0 <= i < j < |hs| ==> hs[i] != hs[j]
  }

  function Hostnames(gs: seq<Registration>): seq<Hostname> {
    seq(|gs|, i requires 0 <= i < |gs| => gs[i].hostname)
  }

  /** The counts and the distinctness that the protocol parser insists on. */
  predicate Acceptable(m: Message) {
    match m
    case Register(gs) => 1 <= |gs| <= MAX_HOSTNAMES && Distinct(Hostnames(gs))
    case Unregister(_, hs) => 1 <= |hs| <= MAX_HOSTNAMES && Distinct(hs)
    case Heartbeat(_, hs) => 1 <= |hs| <= MAX_HOSTNAMES && Distinct(hs)
    case _ => true
  }

  function Parsed(id: RequestId, m: Message): Item {
    if Acceptable(m) then Request(id, m) else Malformed
  }

  function Send(s: Server, c: ConnectionId, f: Frame): Server {
    s.(sent := s.sent + [Sent(c, f)])
  }

  function NoticeFrames(ns: seq<Notice>): seq<Sent> {
    seq(|ns|, i requires 0 <= i < |ns| => Sent(ns[i].listener.connection, RouteLost(ns[i].takeover)))
  }

  /** Remembers an owner token, and subscribes for it unless the connection already did. */
  function AdoptOne(s: Server, c: ConnectionId, t: Token): Server
    requires c in s.connections
  {
    var conn := s.connections[c];
    var added := conn.(owners := conn.owners + {t});
    if t in conn.unsubscribers then
      s.(connections := s.connections[c := added])
    else
      var l := Listener(s.nextListener, c);
      s.(registry := Subscribed(s.registry, t, l),
         connections := s.connections[c := added.(unsubscribers := conn.unsubscribers[t := l])],
         nextListener := s.nextListener + 1)
  }

  function Adopt(s: Server, c: ConnectionId, gs: seq<Registration>): Server
    requires c in s.connections
    decreases |gs|
  {
    if gs == [] then s else Adopt(AdoptOne(s, c, gs[0].owner), c, gs[1..])
  }

  function Claim(s: Server, c: ConnectionId, id: RequestId, gs: seq<Registration>): Server
    requires c in s.connections
  {
    var (registry, ns) := RegisteredAll(s.registry, gs, c);
    Send(Adopt(s.(registry := registry, sent := s.sent + NoticeFrames(ns)), c, gs), c, Frame.Registered(id, Hostnames(gs)))
  }

  /** The listeners of a token once one connection's own subscription is gone. */
  function ListenersWithout(r: Registry, unsubscribers: map<Token, Listener>, t: Token): seq<Listener> {
    if t in unsubscribers then Without(ListenersOf(r, t), unsubscribers[t]) else ListenersOf(r, t)
  }

  function DepartedRoutes(routes: map<Hostname, ActiveRoute>, c: ConnectionId, owners: set<Token>): map<Hostname, ActiveRoute> {
    map h | h in routes && !(routes[h].lease == c && routes[h].Owner() in owners) :: routes[h]
  }

  function DepartedListeners(r: Registry, unsubscribers: map<Token, Listener>): map<Token, seq<Listener>> {
    map t | t in r.listeners && (t !in unsubscribers || ListenersWithout(r, unsubscribers, t) != [])
      :: ListenersWithout(r, unsubscribers, t)
  }

  lemma OneMore(m: map<Token, Listener>, left: set<Token>, t: Token)
    requires t in left && t in m
    ensures (m - left)[t := m[t]] == m - (left - {t})
  {
  }

  lemma DepartOneMore(r: Registry, gone: map<Token, Listener>, t: Token, l: Listener)
    requires t !in gone
    ensures Unsubscribed(r.(listeners := DepartedListeners(r, gone)), t, l) ==
            r.(listeners := DepartedListeners(r, gone[t := l]))
  {
    var after := Unsubscribed(r.(listeners := DepartedListeners(r, gone)), t, l).listeners;
    var all := DepartedListeners(r, gone[t := l]);
    assert forall u :: u != t ==> ListenersWithout(r, gone[t := l], u) == ListenersWithout(r, gone, u);
    assert forall u :: u in after <==> u in all;
    assert forall u :: u in after ==> after[u] == all[u];
  }

  function Departure(r: Registry, c: ConnectionId, conn: Connection): Registry {
    Registry(DepartedRoutes(r.routes, c, conn.owners), DepartedListeners(r, conn.unsubscribers))
  }

  function CleanUp(s: Server, c: ConnectionId): Server
    requires c in s.connections
  {
    var conn := s.connections[c];
    if conn.cleaned then
      s
    else
      s.(registry := Departure(s.registry, c, conn), connections := s.connections[c := conn.(cleaned := true)])
  }

  /** One item, once it may run; a registration gets here after its routes were validated. */
  function Process(s: Server, c: ConnectionId, item: Item): Server
    requires c in s.connections
  {
    match item
    case Cleanup => CleanUp(s, c)
    case Malformed => Send(s, c, Failure(None, "INVALID_MESSAGE"))
    case Request(id, m) =>
      match m
      case Negotiate => Send(s, c, Negotiated(id, |s.registry.routes|))
      case StopIfIdle => Send(s, c, if |s.registry.routes| > 0 then Failure(Some(id), "ROUTES_ACTIVE") else Stopping(id))
      case Health => Send(s, c, Healthy(id, |s.registry.routes|))
      case Register(gs) => Claim(s, c, id, gs)
      case Unregister(owner, hs) =>
        var active := ActiveHostnames(s.registry, owner, hs, Some(c));
        var (registry, removed) := UnregisteredAll(s.registry, active, owner, Some(c));
        Send(s.(registry := registry), c, Frame.Unregistered(id, removed))
      case Heartbeat(owner, hs) =>
        Send(s, c, Alive(id, ActiveHostnames(s.registry, owner, hs, Some(c))))
  }

  /** The slot is free again and the connection may dispatch its next item. */
  function Finish(s: Server, c: ConnectionId): Server
    requires c in s.connections && s.queue != []
  {
    s.(connections := s.connections[c := s.connections[c].(inFlight := None)], queue := s.queue[1..], validating := false)
  }

  function Enqueue(s: Server, c: ConnectionId, item: Item): Server
    requires c in s.connections
  {
    s.(connections := s.connections[c := s.connections[c].(pending := s.connections[c].pending + [item])])
  }

  predicate IsRegister(item: Item) {
    item.Request? && item.message.Register?
  }

  /** The item that owns the shared slot, if any. */
  predicate HasHead(s: Server) {
    s.queue != [] && s.queue[0] in s.connections && s.connections[s.queue[0]].inFlight.Some?
  }

  function Head(s: Server): Item
    requires HasHead(s)
  {
    s.connections[s.queue[0]].inFlight.value
  }

  /** Process keeps connections and the queue. */
  lemma ProcessKeepsQueue(s: Server, c: ConnectionId, item: Item)
    requires c in s.connections
    ensures var after := Process(s, c, item);
            && after.queue == s.queue && after.connections.Keys == s.connections.Keys && after.validating == s.validating
            && (forall d :: d in s.connections ==>
                  && after.connections[d].pending == s.connections[d].pending
                  && after.connections[d].inFlight == s.connections[d].inFlight
                  && after.connections[d].cleanupScheduled == s.connections[d].cleanupScheduled
                  && (after.connections[d].cleaned <==> s.connections[d].cleaned || (item.Cleanup? && d == c)))
  {
    if IsRegister(item) {
      var (registry, ns) := RegisteredAll(s.registry, item.message.routes, c);
      AdoptKeepsQueue(s.(registry := registry, sent := s.sent + NoticeFrames(ns)), c, item.message.routes);
    }
  }

  lemma {:induction false} AdoptKeepsQueue(s: Server, c: ConnectionId, gs: seq<Registration>)
    requires c in s.connections
    ensures var after := Adopt(s, c, gs);
            && after.queue == s.queue && after.connections.Keys == s.connections.Keys && after.validating == s.validating
            && after.registry.routes == s.registry.routes && after.sent == s.sent
            && (forall d :: d in s.connections ==>
                  && after.connections[d].pending == s.connections[d].pending
                  && after.connections[d].inFlight == s.connections[d].inFlight
                  && after.connections[d].cleanupScheduled == s.connections[d].cleanupScheduled
                  && after.connections[d].cleaned == s.connections[d].cleaned)
    decreases |gs|
  {
    if gs != [] {
      var next := AdoptOne(s, c, gs[0].owner);
      AdoptKeepsQueue(next, c, gs[1..]);
    }
  }

  /** Runs the item that owns the slot and frees the slot. */
  function Complete(s: Server): Server
    requires HasHead(s)
  {
    ProcessKeepsQueue(s, s.queue[0], Head(s));
    Finish(Process(s, s.queue[0], Head(s)), s.queue[0])
  }

  /** Validation failed: the registration is answered with an error and changes nothing. */
  function Reject(s: Server): Server
    requires HasHead(s)
  {
    var id := if Head(s).Request? then Some(Head(s).id) else None;
    Finish(Send(s, s.queue[0], Failure(id, "CERTIFICATE_REQUIRED")), s.queue[0])
  }

  /** One step of the server; an event that is not possible changes nothing. No data follows a close. */
  function Step(s: Server, e: Event): Server {
    match e
    case Connect(c) =>
      if c in s.connections then s
      else s.(connections := s.connections[c := Connection({}, map[], [], None, false, false)])
    case Receive(c, id, m) =>
      if c in s.connections && !s.connections[c].cleanupScheduled then Enqueue(s, c, Parsed(id, m)) else s
    case Close(c) =>
      if c in s.connections && !s.connections[c].cleanupScheduled then
        Enqueue(s.(connections := s.connections[c := s.connections[c].(cleanupScheduled := true)]), c, Cleanup)
      else s
    case Dispatch(c) =>
      if c in s.connections && s.connections[c].inFlight.None? && s.connections[c].pending != [] then
        var conn := s.connections[c];
        s.(connections := s.connections[c := conn.(inFlight := Some(conn.pending[0]), pending := conn.pending[1..])],
           queue := s.queue + [c])
      else s
    case Advance =>
      if !HasHead(s) || s.validating then s
      else if IsRegister(Head(s)) then s.(validating := true)
      else Complete(s)
    case Validated(ok) =>
      if !HasHead(s) || !s.validating then s
      else if ok then Complete(s)
      else Reject(s)
  }

  /** The step runs the item in the slot to its end. */
  predicate Completes(s: Server, e: Event) {
    HasHead(s) && ((e.Advance? && !s.validating && !IsRegister(Head(s))) || (e == Validated(true) && s.validating))
  }

  const INITIAL: Server := Server(Registry(map[], map[]), map[], [], false, [], 0)

  function Run(events: seq<Event>): Server {
    if events == [] then INITIAL else Step(Run(events[..|events| - 1]), events[|events| - 1])
  }

  // ----- Queues and cleanup order -----

  function Items(conn: Connection): seq<Item> {
    (if conn.inFlight.Some? then [conn.inFlight.value] else []) + conn.pending
  }

  /** Cleanup is the last item a connection ever has, and after it ran nothing is left. */
  predicate CleanupLast(conn: Connection) {
    var items := Items(conn);
    && (conn.cleaned ==> conn.cleanupScheduled && items == [])
    && (conn.cleanupScheduled && !conn.cleaned ==> items != [] && items[|items| - 1] == Cleanup)
    && (forall i :: 0 <= i < |items| && items[i] == Cleanup ==> conn.cleanupScheduled && i == |items| - 1)
    && (forall i :: 0 <= i < |items| && items[i].Request? ==> Acceptable(items[i].message))
  }

  ghost predicate QueueInv(s: Server) {
    && (forall i :: 0 <= i < |s.queue| ==> s.queue[i] in s.connections && s.connections[s.queue[i]].inFlight.Some?)
    && (forall i, j :: 0 <= i < j < |s.queue| ==> s.queue[i] != s.queue[j])
    && (s.validating ==> HasHead(s) && IsRegister(Head(s)))
    && (forall c :: c in s.connections ==> CleanupLast(s.connections[c]))
  }

  lemma EnqueueKeepsOrder(conn: Connection, item: Item)
    requires CleanupLast(conn) && !conn.cleanupScheduled
    requires item.Request? ==> Acceptable(item.message)
    ensures CleanupLast(conn.(cleanupScheduled := item.Cleanup?, pending := conn.pending + [item]))
  {
    var after := conn.(cleanupScheduled := item.Cleanup?, pending := conn.pending + [item]);
    assert Items(after) == Items(conn) + [item];
  }

  lemma DispatchKeepsOrder(conn: Connection)
    requires CleanupLast(conn) && conn.inFlight.None? && conn.pending != []
    ensures CleanupLast(conn.(inFlight := Some(conn.pending[0]), pending := conn.pending[1..]))
  {
    var after := conn.(inFlight := Some(conn.pending[0]), pending := conn.pending[1..]);
    assert Items(after) == Items(conn);
  }

  lemma FinishKeepsOrder(before: Connection, after: Connection)
    requires CleanupLast(before) && before.inFlight.Some?
    requires after.pending == before.pending && after.inFlight.None?
    requires after.cleanupScheduled == before.cleanupScheduled
    requires after.cleaned <==> before.inFlight.value.Cleanup?
    ensures CleanupLast(after)
  {
    assert Items(before)[1..] == Items(after);
    assert Items(before)[0] == before.inFlight.value;
  }

  lemma EditKeepsQueueInv(s: Server, c: ConnectionId, conn: Connection)
    requires QueueInv(s) && CleanupLast(conn)
    requires conn.inFlight == if c in s.connections then s.connections[c].inFlight else None
    ensures QueueInv(s.(connections := s.connections[c := conn]))
  {
  }

  lemma DispatchKeepsQueueInv(s: Server, c: ConnectionId)
    requires QueueInv(s) && c in s.connections && s.connections[c].inFlight.None? && s.connections[c].pending != []
    ensures QueueInv(Step(s, Dispatch(c)))
  {
    DispatchKeepsOrder(s.connections[c]);
    var after := Step(s, Dispatch(c));
    assert forall d :: d in s.connections && d != c ==> after.connections[d] == s.connections[d];
    hide CleanupLast;
    assert after.queue == s.queue + [c] && c !in s.queue;
  }

  lemma ArrivalKeepsQueueInv(s: Server, c: ConnectionId, item: Item)
    requires QueueInv(s) && c in s.connections && !s.connections[c].cleanupScheduled
    requires item.Request? ==> Acceptable(item.message)
    ensures QueueInv(s.(connections := s.connections[c := s.connections[c].(
              cleanupScheduled := item.Cleanup?, pending := s.connections[c].pending + [item])]))
  {
    EnqueueKeepsOrder(s.connections[c], item);
  }

  lemma StepKeepsQueueInv(s: Server, e: Event)
    requires QueueInv(s)
    ensures QueueInv(Step(s, e))
  {
    if Completes(s, e) {
      CompleteKeepsQueueInv(s);
    } else if e == Validated(false) && HasHead(s) && s.validating {
      RejectKeepsQueueInv(s);
    } else if e.Dispatch? && Step(s, e) != s {
      DispatchKeepsQueueInv(s, e.c);
    } else if e.Connect? && e.c !in s.connections {
      EditKeepsQueueInv(s, e.c, Connection({}, map[], [], None, false, false));
    } else if e.Receive? && Step(s, e) != s {
      ArrivalKeepsQueueInv(s, e.c, Parsed(e.id, e.message));
    } else if e.Close? && Step(s, e) != s {
      ArrivalKeepsQueueInv(s, e.c, Cleanup);
      assert Step(s, e).connections ==
             s.connections[e.c := s.connections[e.c].(
               cleanupScheduled := true, pending := s.connections[e.c].pending + [Cleanup])];
    }
  }

  lemma FinishKeepsQueueInv(s: Server, done: Server)
    requires QueueInv(s) && HasHead(s) && done.queue == s.queue && done.connections.Keys == s.connections.Keys
    requires forall d :: d in s.connections ==>
               && done.connections[d].pending == s.connections[d].pending
               && done.connections[d].inFlight == s.connections[d].inFlight
               && done.connections[d].cleanupScheduled == s.connections[d].cleanupScheduled
               && (done.connections[d].cleaned <==>
                     s.connections[d].cleaned || (Head(s).Cleanup? && d == s.queue[0]))
    ensures QueueInv(Finish(done, s.queue[0]))
  {
    var c := s.queue[0];
    var after := Finish(done, c);
    var conn := s.connections[c];
    assert Items(conn)[0] == Head(s);
    FinishKeepsOrder(conn, after.connections[c]);
    forall d | d in after.connections ensures CleanupLast(after.connections[d]) {
      if d != c {
        assert Items(after.connections[d]) == Items(s.connections[d]);
      }
    }
  }

  lemma CompleteKeepsQueueInv(s: Server)
    requires QueueInv(s) && HasHead(s)
    ensures QueueInv(Complete(s))
  {
    ProcessKeepsQueue(s, s.queue[0], Head(s));
    FinishKeepsQueueInv(s, Process(s, s.queue[0], Head(s)));
  }

  lemma RejectKeepsQueueInv(s: Server)
    requires QueueInv(s) && HasHead(s) && IsRegister(Head(s))
    ensures QueueInv(Reject(s))
  {
    FinishKeepsQueueInv(s, Send(s, s.queue[0], Failure(Some(Head(s).id), "CERTIFICATE_REQUIRED")));
  }

  // ----- Owners, leases and listeners -----

  /** A connection that may still hold routes. */
  predicate Live(s: Server, c: ConnectionId) {
    c in s.connections && !s.connections[c].cleaned
  }

  /** The connection has subscribed for the token. */
  predicate Subscribes(s: Server, c: ConnectionId, t: Token) {
    Live(s, c) && t in s.connections[c].unsubscribers
  }

  /** Its subscription is its own, is not newer than the server, and is in the registry. */
  predicate Backed(s: Server, c: ConnectionId, t: Token)
    requires Subscribes(s, c, t)
  {
    var l := s.connections[c].unsubscribers[t];
    l.connection == c && l.id < s.nextListener && l in ListenersOf(s.registry, t)
  }

  predicate Subscription(s: Server, t: Token, l: Listener) {
    Subscribes(s, l.connection, t) && s.connections[l.connection].unsubscribers[t] == l
  }

  predicate LeaseLives(s: Server, h: Hostname)
    requires h in s.registry.routes
  {
    Subscribes(s, s.registry.routes[h].lease, s.registry.routes[h].Owner())
  }

  /** Live connections have exactly one listener for each token they used, and nobody else has any. */
  ghost predicate ListenersMatch(s: Server) {
    && (forall c :: Live(s, c) ==> s.connections[c].owners == s.connections[c].unsubscribers.Keys)
    && (forall c, t :: Subscribes(s, c, t) ==> Backed(s, c, t))
    && (forall t, l :: l in ListenersOf(s.registry, t) ==> Subscription(s, t, l))
    && (forall t :: Unique(ListenersOf(s.registry, t)))
  }

  /** Every lease belongs to a live connection that listens under the route's token. */
  ghost predicate OwnerInv(s: Server) {
    ListenersMatch(s) && forall h :: h in s.registry.routes ==> LeaseLives(s, h)
  }

  /** The two servers agree on what connections own and on who listens. */
  ghost predicate SameOwners(s: Server, after: Server) {
    && after.registry.listeners == s.registry.listeners && after.nextListener == s.nextListener
    && s.connections.Keys <= after.connections.Keys
    && (forall c :: c in after.connections ==>
          if c in s.connections then
            && after.connections[c].owners == s.connections[c].owners
            && after.connections[c].unsubscribers == s.connections[c].unsubscribers
            && after.connections[c].cleaned == s.connections[c].cleaned
          else after.connections[c].owners == {} && after.connections[c].unsubscribers == map[])
  }

  lemma SameOwnersKeepListeners(s: Server, after: Server)
    requires ListenersMatch(s) && SameOwners(s, after)
    ensures ListenersMatch(after)
    ensures forall c, t :: Subscribes(after, c, t) <==> Subscribes(s, c, t)
  {
    forall c | Live(after, c) ensures after.connections[c].owners == after.connections[c].unsubscribers.Keys {
      assert c in s.connections ==> Live(s, c);
    }
    assert forall t :: ListenersOf(after.registry, t) == ListenersOf(s.registry, t);
    assert forall c, t :: Subscribes(after, c, t) <==> Subscribes(s, c, t);
    forall c, t | Subscribes(after, c, t) ensures Backed(after, c, t) {
      assert Backed(s, c, t);
    }
    forall t, l | l in ListenersOf(after.registry, t) ensures Subscription(after, t, l) {
      assert Subscription(s, t, l);
    }
    forall t ensures Unique(ListenersOf(after.registry, t)) {
      assert Unique(ListenersOf(s.registry, t));
    }
  }

  lemma SameOwnersKeepInv(s: Server, after: Server)
    requires OwnerInv(s) && SameOwners(s, after)
    requires forall h :: h in after.registry.routes ==>
               h in s.registry.routes && after.registry.routes[h] == s.registry.routes[h]
    ensures OwnerInv(after)
  {
    SameOwnersKeepListeners(s, after);
    forall h | h in after.registry.routes ensures LeaseLives(after, h) {
      assert LeaseLives(s, h);
    }
  }

  function OwnersOf(gs: seq<Registration>): set<Token> {
    set g | g in gs :: g.owner
  }

  lemma AdoptOneSubscribes(s: Server, c: ConnectionId, t: Token)
    requires ListenersMatch(s) && Live(s, c)
    ensures var next := AdoptOne(s, c, t);
            && ListenersMatch(next) && next.registry.routes == s.registry.routes
            && (forall d, u :: Subscribes(next, d, u) <==> Subscribes(s, d, u) || (d == c && u == t))
  {
    var next := AdoptOne(s, c, t);
    assert forall d :: Live(next, d) <==> Live(s, d);
    assert forall d, u :: Subscribes(next, d, u) <==> Subscribes(s, d, u) || (d == c && u == t);
    if t in s.connections[c].unsubscribers {
      assert Subscribes(s, c, t);
      SameOwnersKeepListeners(s, next);
    } else {
      NewListenerFits(s, c, t);
    }
  }

  lemma NewListenerFits(s: Server, c: ConnectionId, t: Token)
    requires ListenersMatch(s) && Live(s, c) && t !in s.connections[c].unsubscribers
    ensures ListenersMatch(AdoptOne(s, c, t))
  {
    var next := AdoptOne(s, c, t);
    var l := Listener(s.nextListener, c);
    var before := ListenersOf(s.registry, t);
    assert ListenersOf(next.registry, t) == before + [l];
    assert forall u :: u != t ==> ListenersOf(next.registry, u) == ListenersOf(s.registry, u);
    forall i | 0 <= i < |before| ensures before[i] != l {
      assert Subscription(s, t, before[i]) && Backed(s, before[i].connection, t);
    }
    forall u, k | k in ListenersOf(next.registry, u) ensures Subscription(next, u, k) {
      if u != t || k != l {
        assert Subscription(s, u, k);
      }
    }
    forall u ensures Unique(ListenersOf(next.registry, u)) {
      assert Unique(ListenersOf(s.registry, u));
    }
    forall d, u | Subscribes(next, d, u) ensures Backed(next, d, u) {
      if d == c && u == t {
        assert (before + [l])[|before|] == l;
      } else {
        assert Subscribes(s, d, u) && Backed(s, d, u);
      }
    }
    forall d | Live(next, d) ensures next.connections[d].owners == next.connections[d].unsubscribers.Keys {
      assert Live(s, d);
    }
  }

  /** After adopting, the connection listens under every token of the registration. */
  lemma {:induction false} AdoptSubscribes(s: Server, c: ConnectionId, gs: seq<Registration>)
    requires ListenersMatch(s) && Live(s, c)
    ensures var after := Adopt(s, c, gs);
            && ListenersMatch(after) && after.registry.routes == s.registry.routes
            && (forall d, u :: Subscribes(after, d, u) <==> Subscribes(s, d, u) || (d == c && u in OwnersOf(gs)))
    decreases |gs|
  {
    if gs != [] {
      var next := AdoptOne(s, c, gs[0].owner);
      AdoptOneSubscribes(s, c, gs[0].owner);
      AdoptSubscribes(next, c, gs[1..]);
      assert OwnersOf(gs) == {gs[0].owner} + OwnersOf(gs[1..]) by {
        assert forall g :: g in gs <==> g == gs[0] || g in gs[1..];
      }
    }
  }

  lemma ClaimKeepsInv(s: Server, c: ConnectionId, id: RequestId, gs: seq<Registration>)
    requires OwnerInv(s) && Live(s, c)
    ensures OwnerInv(Claim(s, c, id, gs))
  {
    var (registry, ns) := RegisteredAll(s.registry, gs, c);
    var mid := s.(registry := registry, sent := s.sent + NoticeFrames(ns));
    RegisterManyClaims(s.registry, gs, c);
    SameOwnersKeepListeners(s, mid);
    AdoptSubscribes(mid, c, gs);
    var done := Adopt(mid, c, gs);
    var after := Claim(s, c, id, gs);
    forall h | h in done.registry.routes ensures LeaseLives(done, h) {
      if exists g :: g in gs && g.hostname == h {
        assert done.registry.routes[h].registration in gs;
      } else {
        assert LeaseLives(s, h);
      }
    }
    SameOwnersKeepInv(done, after);
  }

  lemma DepartureListeners(s: Server, c: ConnectionId, t: Token)
    requires ListenersMatch(s) && Live(s, c)
    ensures var after := CleanUp(s, c);
            && Unique(ListenersOf(after.registry, t))
            && (forall l :: l in ListenersOf(after.registry, t) <==>
                  l in ListenersOf(s.registry, t) && l.connection != c)
  {
    var conn := s.connections[c];
    var before := ListenersOf(s.registry, t);
    assert Unique(before);
    assert ListenersOf(CleanUp(s, c).registry, t) == ListenersWithout(s.registry, conn.unsubscribers, t);
    forall l | l in before ensures Subscription(s, t, l) {
    }
    if Subscribes(s, c, t) {
      assert Backed(s, c, t);
      WithoutKeeps(before, conn.unsubscribers[t]);
    }
  }

  lemma CleanUpRemovesLeases(s: Server, c: ConnectionId)
    requires OwnerInv(s) && Live(s, c)
    ensures CleanUp(s, c).registry.routes ==
            map h | h in s.registry.routes && s.registry.routes[h].lease != c :: s.registry.routes[h]
  {
    assert s.connections[c].owners == s.connections[c].unsubscribers.Keys;
    forall h | h in s.registry.routes && s.registry.routes[h].lease == c
      ensures s.registry.routes[h].Owner() in s.connections[c].owners
    {
      assert LeaseLives(s, h);
    }
  }

  lemma CleanUpRemovesListeners(s: Server, c: ConnectionId)
    requires ListenersMatch(s) && Live(s, c)
    ensures ListenersMatch(CleanUp(s, c))
    ensures forall d, t :: Subscribes(CleanUp(s, c), d, t) <==> Subscribes(s, d, t) && d != c
  {
    var after := CleanUp(s, c);
    assert forall d, t :: Subscribes(after, d, t) <==> Subscribes(s, d, t) && d != c;
    forall t
      ensures Unique(ListenersOf(after.registry, t))
      ensures forall l :: l in ListenersOf(after.registry, t) ==> Subscription(after, t, l)
    {
      DepartureListeners(s, c, t);
      forall l | l in ListenersOf(after.registry, t) ensures Subscription(after, t, l) {
        assert Subscription(s, t, l);
      }
    }
    forall d, t | Subscribes(after, d, t) ensures Backed(after, d, t) {
      assert Backed(s, d, t);
      DepartureListeners(s, c, t);
    }
    forall d | Live(after, d) ensures after.connections[d].owners == after.connections[d].unsubscribers.Keys {
      assert Live(s, d);
    }
  }

  /** A cleaned connection leaves no lease and no listener. */
  lemma CleanUpKeepsInv(s: Server, c: ConnectionId)
    requires OwnerInv(s) && Live(s, c)
    ensures OwnerInv(CleanUp(s, c))
  {
    CleanUpRemovesLeases(s, c);
    CleanUpRemovesListeners(s, c);
    var after := CleanUp(s, c);
    forall h | h in after.registry.routes ensures LeaseLives(after, h) {
      assert LeaseLives(s, h);
    }
  }

  /** Items other than cleanups and registrations claim nothing and change no listener. */
  lemma ReplyKeepsOwners(s: Server, c: ConnectionId, item: Item)
    requires c in s.connections && !item.Cleanup? && !IsRegister(item)
    ensures var after := Process(s, c, item);
            && SameOwners(s, after)
            && forall h :: h in after.registry.routes ==>
                 h in s.registry.routes && after.registry.routes[h] == s.registry.routes[h]
  {
    if item.Request? && item.message.Unregister? {
      var active := ActiveHostnames(s.registry, item.message.owner, item.message.hostnames, Some(c));
      UnregisterManyRemoves(s.registry, active, item.message.owner, Some(c));
    }
  }

  lemma ProcessKeepsOwnerInv(s: Server, c: ConnectionId, item: Item)
    requires OwnerInv(s) && Live(s, c)
    ensures OwnerInv(Process(s, c, item))
  {
    if item.Cleanup? {
      CleanUpKeepsInv(s, c);
    } else if IsRegister(item) {
      ClaimKeepsInv(s, c, item.id, item.message.routes);
    } else {
      ReplyKeepsOwners(s, c, item);
      SameOwnersKeepInv(s, Process(s, c, item));
    }
  }

  ghost predicate Inv(s: Server) {
    QueueInv(s) && OwnerInv(s)
  }

  lemma CompleteKeepsOwnerInv(s: Server)
    requires Inv(s) && HasHead(s)
    ensures OwnerInv(Complete(s))
  {
    var c := s.queue[0];
    ProcessKeepsOwnerInv(s, c, Head(s));
    ProcessKeepsQueue(s, c, Head(s));
    hide Process, OwnerInv;
    SameOwnersKeepInv(Process(s, c, Head(s)), Complete(s));
  }

  lemma OtherStepsKeepOwners(s: Server, e: Event)
    requires !Completes(s, e)
    ensures SameOwners(s, Step(s, e)) && Step(s, e).registry == s.registry
  {
    hide Process, Acceptable;
  }

  lemma StepKeepsOwnerInv(s: Server, e: Event)
    requires Inv(s)
    ensures OwnerInv(Step(s, e))
  {
    if Completes(s, e) {
      CompleteKeepsOwnerInv(s);
      assert Step(s, e) == Complete(s);
      hide OwnerInv, QueueInv;
    } else {
      OtherStepsKeepOwners(s, e);
      hide Step, ListenersMatch;
      SameOwnersKeepInv(s, Step(s, e));
    }
  }

  lemma StepKeepsInv(s: Server, e: Event)
    requires Inv(s)
    ensures Inv(Step(s, e))
  {
    hide Step, OwnerInv, QueueInv;
    StepKeepsQueueInv(s, e);
    StepKeepsOwnerInv(s, e);
  }

  /** In every reachable state leases are live and have exactly one listener under their token. */
  lemma {:induction false} ReachableInv(events: seq<Event>)
    ensures Inv(Run(events))
    decreases |events|
  {
    if events != [] {
      ReachableInv(events[..|events| - 1]);
      StepKeepsInv(Run(events[..|events| - 1]), events[|events| - 1]);
    }
  }

  // ----- The registry refines its history -----

  datatype Change =
    | Claimed(route: ActiveRoute)
    | Released(hostname: Hostname, owner: Token, lease: ConnectionId)
    | Departed(lease: ConnectionId)

  function ClaimsOf(gs: seq<Registration>, c: ConnectionId): seq<Change> {
    seq(|gs|, i requires 0 <= i < |gs| => Claimed(ActiveRoute(gs[i], c)))
  }

  function ReleasesOf(hs: seq<Hostname>, owner: Token, c: ConnectionId): seq<Change> {
    seq(|hs|, i requires 0 <= i < |hs| => Released(hs[i], owner, c))
  }

  /** What one step adds to the history: who claimed, who let go, and who left. */
  function Changes(s: Server, e: Event): seq<Change> {
    if !Completes(s, e) then
      []
    else
      match Head(s)
      case Cleanup => [Departed(s.queue[0])]
      case Malformed => []
      case Request(_, m) =>
        match m
        case Register(gs) => ClaimsOf(gs, s.queue[0])
        case Unregister(owner, hs) => ReleasesOf(hs, owner, s.queue[0])
        case _ => []
  }

  function History(events: seq<Event>): seq<Change> {
    if events == [] then
      []
    else
      var before := events[..|events| - 1];
      History(before) + Changes(Run(before), events[|events| - 1])
  }

  /** The change takes this route away: a later claim, a release by its holder, or its holder's departure. */
  predicate Ends(change: Change, route: ActiveRoute) {
    match change
    case Claimed(r) => r.registration.hostname == route.registration.hostname
    case Released(h, owner, lease) =>
      h == route.registration.hostname && owner == route.Owner() && lease == route.lease
    case Departed(lease) => lease == route.lease
  }

  /** The route was claimed, and since then nothing took it away. */
  predicate Holds(history: seq<Change>, route: ActiveRoute) {
    exists i :: 0 <= i < |history| && history[i] == Claimed(route)
                && forall j :: i < j < |history| ==> !Ends(history[j], route)
  }

  function Replay(routes: map<Hostname, ActiveRoute>, changes: seq<Change>): map<Hostname, ActiveRoute>
    decreases |changes|
  {
    if changes == [] then routes else Replay(Replay1(routes, changes[0]), changes[1..])
  }

  function Replay1(routes: map<Hostname, ActiveRoute>, change: Change): map<Hostname, ActiveRoute> {
    match change
    case Claimed(r) => routes[r.registration.hostname := r]
    case Released(h, owner, lease) =>
      if h in routes && routes[h].Owner() == owner && routes[h].lease == lease then routes - {h} else routes
    case Departed(lease) => map h | h in routes && routes[h].lease != lease :: routes[h]
  }

  /** Each hostname maps to a route for that hostname. */
  predicate Keyed(routes: map<Hostname, ActiveRoute>) {
    forall h :: h in routes ==> routes[h].registration.hostname == h
  }

  predicate Maps(routes: map<Hostname, ActiveRoute>, route: ActiveRoute) {
    route.registration.hostname in routes && routes[route.registration.hostname] == route
  }

  lemma HoldsNext(history: seq<Change>, change: Change, route: ActiveRoute)
    ensures Holds(history + [change], route) <==>
            change == Claimed(route) || (Holds(history, route) && !Ends(change, route))
  {
    var all := history + [change];
    if change == Claimed(route) {
      assert all[|history|] == Claimed(route);
    } else if Holds(history, route) && !Ends(change, route) {
      var i :| 0 <= i < |history| && history[i] == Claimed(route)
               && forall j :: i < j < |history| ==> !Ends(history[j], route);
      assert all[i] == Claimed(route) && forall j :: i < j < |all| ==> !Ends(all[j], route);
    }
    if Holds(all, route) && change != Claimed(route) {
      var i :| 0 <= i < |all| && all[i] == Claimed(route) && forall j :: i < j < |all| ==> !Ends(all[j], route);
      assert history[i] == Claimed(route);
      assert !Ends(all[|history|], route);
      forall j | i < j < |history| ensures !Ends(history[j], route) {
        assert history[j] == all[j];
      }
    }
  }

  lemma {:induction false} ReplayHolds(
      history: seq<Change>, routes: map<Hostname, ActiveRoute>, changes: seq<Change>, route: ActiveRoute)
    requires Keyed(routes) && (Maps(routes, route) <==> Holds(history, route))
    ensures Keyed(Replay(routes, changes))
    ensures Maps(Replay(routes, changes), route) <==> Holds(history + changes, route)
    decreases |changes|
  {
    if changes == [] {
      Sequences.Empty(history);
    } else {
      HoldsNext(history, changes[0], route);
      ReplayHolds(history + [changes[0]], Replay1(routes, changes[0]), changes[1..], route);
      assert history + [changes[0]] + changes[1..] == history + changes;
    }
  }

  lemma {:induction false} ReplayClaims(r: Registry, gs: seq<Registration>, c: ConnectionId)
    ensures RegisteredAll(r, gs, c).0.routes == Replay(r.routes, ClaimsOf(gs, c))
    decreases |gs|
  {
    if gs != [] {
      assert ClaimsOf(gs, c)[1..] == ClaimsOf(gs[1..], c);
      ReplayClaims(RegisteredOne(r, gs[0], c).0, gs[1..], c);
    }
  }

  lemma {:induction false} ReplayReleases(r: Registry, hs: seq<Hostname>, owner: Token, c: ConnectionId)
    ensures Replay(r.routes, ReleasesOf(hs, owner, c)) ==
            map h | h in r.routes && !(h in hs && HeldBy(r, h, owner, Some(c))) :: r.routes[h]
    decreases |hs|
  {
    if hs != [] {
      assert ReleasesOf(hs, owner, c)[1..] == ReleasesOf(hs[1..], owner, c);
      var next := r.(routes := Replay1(r.routes, Released(hs[0], owner, c)));
      ReplayReleases(next, hs[1..], owner, c);
      assert forall h :: h in hs <==> h == hs[0] || h in hs[1..];
    }
  }

  lemma ClaimReplays(s: Server, c: ConnectionId, id: RequestId, gs: seq<Registration>)
    requires c in s.connections
    ensures Claim(s, c, id, gs).registry.routes == Replay(s.registry.routes, ClaimsOf(gs, c))
  {
    ReplayClaims(s.registry, gs, c);
    var (registry, ns) := RegisteredAll(s.registry, gs, c);
    AdoptKeepsQueue(s.(registry := registry, sent := s.sent + NoticeFrames(ns)), c, gs);
  }

  lemma ReleaseReplays(r: Registry, hs: seq<Hostname>, owner: Token, c: ConnectionId)
    ensures UnregisteredAll(r, ActiveHostnames(r, owner, hs, Some(c)), owner, Some(c)).0.routes ==
            Replay(r.routes, ReleasesOf(hs, owner, c))
  {
    var active := ActiveHostnames(r, owner, hs, Some(c));
    ActiveHostnamesAre(r, owner, hs, Some(c));
    UnregisterManyRemoves(r, active, owner, Some(c));
    ReplayReleases(r, hs, owner, c);
  }

  lemma CompleteReplays(s: Server, e: Event)
    requires Inv(s) && Completes(s, e)
    ensures Complete(s).registry.routes == Replay(s.registry.routes, Changes(s, e))
  {
    var c := s.queue[0];
    match Head(s)
    case Cleanup =>
      CleanUpRemovesLeases(s, c);
    case Malformed =>
    case Request(id, m) =>
      match m
      case Register(gs) => ClaimReplays(s, c, id, gs);
      case Unregister(owner, hs) => ReleaseReplays(s.registry, hs, owner, c);
      case _ =>
  }

  lemma StepReplays(s: Server, e: Event)
    requires Inv(s)
    ensures Step(s, e).registry.routes == Replay(s.registry.routes, Changes(s, e))
  {
    if Completes(s, e) {
      CompleteReplays(s, e);
    } else {
      OtherStepsKeepOwners(s, e);
    }
  }

  /**
   * After any run a hostname maps to a route exactly when that route was the latest claim of it and since
   * then neither its own connection and token released it nor its connection was cleaned up.
   */
  lemma {:induction false} RegistryRefinesHistory(events: seq<Event>, route: ActiveRoute)
    ensures Keyed(Run(events).registry.routes)
    ensures Maps(Run(events).registry.routes, route) <==> Holds(History(events), route)
    decreases |events|
  {
    if events != [] {
      var before, e := events[..|events| - 1], events[|events| - 1];
      RegistryRefinesHistory(before, route);
      ReachableInv(before);
      StepReplays(Run(before), e);
      ReplayHolds(History(before), Run(before).registry.routes, Changes(Run(before), e), route);
    }
  }

  /** A connection whose cleanup ran holds nothing, ever after. */
  lemma {:induction false} CleanedHoldsNothing(events: seq<Event>, h: Hostname)
    requires var s := Run(events); h in s.registry.routes
    ensures var s := Run(events); var c := s.registry.routes[h].lease; c in s.connections && !s.connections[c].cleaned
  {
    ReachableInv(events);
    assert LeaseLives(Run(events), h);
  }

  // ----- Takeover notices -----

  /** How many of the listeners belong to the connection. */
  function Ears(ls: seq<Listener>, d: ConnectionId): nat {
    if ls == [] then 0 else (if ls[0].connection == d then 1 else 0) + Ears(ls[1..], d)
  }

  /** How many of the frames tell the connection that it lost the hostname. */
  function Told(sent: seq<Sent>, d: ConnectionId, h: Hostname): nat {
    if sent == [] then 0 else (if Tells(sent[0], d, h) then 1 else 0) + Told(sent[1..], d, h)
  }

  predicate Tells(f: Sent, d: ConnectionId, h: Hostname) {
    f.connection == d && f.frame.RouteLost? && f.frame.takeover.hostname == h
  }

  lemma {:induction false} ToldAppend(a: seq<Sent>, b: seq<Sent>, d: ConnectionId, h: Hostname)
    ensures Told(a + b, d, h) == Told(a, d, h) + Told(b, d, h)
  {
    if a == [] {
      assert a + b == b;
    } else {
      assert (a + b)[1..] == a[1..] + b;
      ToldAppend(a[1..], b, d, h);
    }
  }

  /** No two listeners of a token share a connection, so nobody hears anything twice. */
  lemma {:induction false} EarsOfUnique(ls: seq<Listener>, d: ConnectionId)
    requires Unique(ls)
    requires forall i, j :: 0 <= i < |ls| && 0 <= j < |ls| && ls[i].connection == ls[j].connection ==> ls[i] == ls[j]
    ensures Ears(ls, d) == if exists i :: 0 <= i < |ls| && ls[i].connection == d then 1 else 0
  {
    if ls != [] {
      EarsOfUnique(ls[1..], d);
      if ls[0].connection == d {
        assert forall i :: 0 <= i < |ls[1..]| ==> ls[1..][i] == ls[i + 1] && ls[i + 1] != ls[0];
      } else if i :| 0 <= i < |ls| && ls[i].connection == d {
        assert ls[1..][i - 1].connection == d;
      } else {
        assert forall i :: 0 <= i < |ls[1..]| ==> ls[1..][i] == ls[i + 1];
      }
    }
  }

  /** A connection has one listener under a token if it subscribed for it, and none otherwise. */
  lemma OneListenerPerToken(s: Server, d: ConnectionId, t: Token)
    requires OwnerInv(s)
    ensures Ears(ListenersOf(s.registry, t), d) == if Subscribes(s, d, t) then 1 else 0
  {
    var ls := ListenersOf(s.registry, t);
    assert Unique(ls);
    forall i | 0 <= i < |ls| ensures Subscription(s, t, ls[i]) {
      assert ls[i] in ls;
    }
    EarsOfUnique(ls, d);
    if Subscribes(s, d, t) {
      assert Backed(s, d, t);
      var i :| 0 <= i < |ls| && ls[i] == s.connections[d].unsubscribers[t];
      assert ls[i].connection == d;
    }
  }

  lemma {:induction false} ToldByNotices(ls: seq<Listener>, t: Takeover, d: ConnectionId, h: Hostname)
    ensures Told(NoticeFrames(Notices(ls, t)), d, h) == if t.hostname == h then Ears(ls, d) else 0
  {
    if ls != [] {
      ToldByNotices(ls[1..], t, d, h);
      var ns := Notices(ls, t);
      assert ns[1..] == Notices(ls[1..], t);
      assert NoticeFrames(ns)[1..] == NoticeFrames(ns[1..]);
    }
  }

  /** Who is told when a registration arrives: the listeners of the previous owner, if that is another one. */
  function Audience(r: Registry, g: Registration): seq<Listener> {
    if g.hostname in r.routes && r.routes[g.hostname].Owner() != g.owner then
      ListenersOf(r, r.routes[g.hostname].Owner())
    else
      []
  }

  lemma FramesAppend(a: seq<Notice>, b: seq<Notice>)
    ensures NoticeFrames(a + b) == NoticeFrames(a) + NoticeFrames(b)
  {
  }

  lemma ToldByOne(r: Registry, g: Registration, c: ConnectionId, d: ConnectionId, h: Hostname)
    ensures Told(NoticeFrames(RegisteredOne(r, g, c).1), d, h) == if g.hostname == h then Ears(Audience(r, g), d) else 0
  {
    if g.hostname in r.routes && r.routes[g.hostname].Owner() != g.owner {
      var previous := r.routes[g.hostname].Owner();
      ToldByNotices(ListenersOf(r, previous), Takeover(g.hostname, previous, g.owner), d, h);
    }
  }

  lemma {:induction false} ToldByRest(r: Registry, gs: seq<Registration>, c: ConnectionId, d: ConnectionId, h: Hostname)
    ensures Told(NoticeFrames(RegisteredAll(r, gs, c).1), d, h) ==
            if gs == [] then 0
            else Told(NoticeFrames(RegisteredOne(r, gs[0], c).1), d, h)
                 + Told(NoticeFrames(RegisteredAll(RegisteredOne(r, gs[0], c).0, gs[1..], c).1), d, h)
  {
    if gs != [] {
      var (r1, n1) := RegisteredOne(r, gs[0], c);
      var n2 := RegisteredAll(r1, gs[1..], c).1;
      FramesAppend(n1, n2);
      ToldAppend(NoticeFrames(n1), NoticeFrames(n2), d, h);
    }
  }

  lemma {:induction false} NobodyToldOfOthers(r: Registry, gs: seq<Registration>, c: ConnectionId, d: ConnectionId, h: Hostname)
    requires h !in Hostnames(gs)
    ensures Told(NoticeFrames(RegisteredAll(r, gs, c).1), d, h) == 0
    decreases |gs|
  {
    ToldByRest(r, gs, c, d, h);
    if gs != [] {
      assert Hostnames(gs)[0] == gs[0].hostname && Hostnames(gs)[1..] == Hostnames(gs[1..]);
      ToldByOne(r, gs[0], c, d, h);
      NobodyToldOfOthers(RegisteredOne(r, gs[0], c).0, gs[1..], c, d, h);
    }
  }

  /** Registering many distinct hostnames tells each audience once, as it was before any of them. */
  lemma {:induction false} ToldOf(r: Registry, gs: seq<Registration>, i: nat, c: ConnectionId, d: ConnectionId)
    requires i < |gs| && Distinct(Hostnames(gs))
    ensures Told(NoticeFrames(RegisteredAll(r, gs, c).1), d, gs[i].hostname) == Ears(Audience(r, gs[i]), d)
    decreases |gs|
  {
    var names := Hostnames(gs);
    assert names[1..] == Hostnames(gs[1..]);
    var r1 := RegisteredOne(r, gs[0], c).0;
    ToldByRest(r, gs, c, d, names[i]);
    ToldByOne(r, gs[0], c, d, names[i]);
    if i == 0 {
      NobodyToldOfOthers(r1, gs[1..], c, d, names[0]);
    } else {
      assert names[0] != names[i];
      ToldOf(r1, gs[1..], i - 1, c, d);
    }
  }

  /** A validated registration sends its notices, then its reply. */
  lemma ClaimSends(s: Server, c: ConnectionId, id: RequestId, gs: seq<Registration>)
    requires c in s.connections
    ensures Claim(s, c, id, gs).sent ==
            s.sent + NoticeFrames(RegisteredAll(s.registry, gs, c).1) + [Sent(c, Frame.Registered(id, Hostnames(gs)))]
  {
    var (registry, ns) := RegisteredAll(s.registry, gs, c);
    AdoptKeepsQueue(s.(registry := registry, sent := s.sent + NoticeFrames(ns)), c, gs);
  }

  /** How often the claim of one hostname tells a connection that it lost it. */
  lemma ClaimTells(s: Server, c: ConnectionId, id: RequestId, gs: seq<Registration>, i: nat, d: ConnectionId)
    requires OwnerInv(s) && c in s.connections && i < |gs| && Distinct(Hostnames(gs))
    ensures Told(Claim(s, c, id, gs).sent, d, gs[i].hostname) ==
            Told(s.sent, d, gs[i].hostname) + Ears(Audience(s.registry, gs[i]), d)
  {
    var h := gs[i].hostname;
    var frames := NoticeFrames(RegisteredAll(s.registry, gs, c).1);
    var reply := [Sent(c, Frame.Registered(id, Hostnames(gs)))];
    ClaimSends(s, c, id, gs);
    ToldAppend(s.sent + frames, reply, d, h);
    ToldAppend(s.sent, frames, d, h);
    ToldOf(s.registry, gs, i, c, d);
    assert Told(reply, d, h) == 0 by {
      assert reply[1..] == [];
    }
  }

  /**
   * When a validated registration takes a hostname over from another token, every connection that subscribed
   * under that token is told exactly once, nobody else is told, and the lease holder is among the told.
   */
  lemma {:induction false} TakeoverToldOnce(events: seq<Event>, i: nat, d: ConnectionId)
    requires var s := Run(events);
             && Completes(s, Validated(true)) && IsRegister(Head(s)) && i < |Head(s).message.routes|
             && var g := Head(s).message.routes[i];
                g.hostname in s.registry.routes && s.registry.routes[g.hostname].Owner() != g.owner
    ensures var s := Run(events);
            var g := Head(s).message.routes[i];
            var previous := s.registry.routes[g.hostname];
            && Told(Step(s, Validated(true)).sent, d, g.hostname) ==
               Told(s.sent, d, g.hostname) + (if Subscribes(s, d, previous.Owner()) then 1 else 0)
            && Subscribes(s, previous.lease, previous.Owner())
  {
    var s := Run(events);
    ReachableInv(events);
    var c, item := s.queue[0], Head(s);
    assert Items(s.connections[c])[0] == item;
    var g := item.message.routes[i];
    assert LeaseLives(s, g.hostname);
    OneListenerPerToken(s, d, s.registry.routes[g.hostname].Owner());
    ClaimTells(s, c, item.id, item.message.routes, i, d);
  }

  // ----- The class as it is written -----

  class ControlServer {
    const registry: RouteRegistry
    var connections: map<ConnectionId, Connection>
    var queue: seq<ConnectionId>
    var validating: bool
    var sent: seq<Sent>
    var nextListener: nat

    ghost function State(): Server
      reads this, registry
    {
      Server(registry.Contents(), connections, queue, validating, sent, nextListener)
    }

    constructor ()
      ensures State() == INITIAL && fresh(registry)
    {
      registry := new RouteRegistry();
      connections, queue, validating, sent, nextListener := map[], [], false, [], 0;
    }

    method HandleConnection(c: ConnectionId)
      modifies this`connections
      ensures State() == Step(old(State()), Connect(c))
    {
      if c !in connections {
        connections := connections[c := Connection({}, map[], [], None, false, false)];
      }
    }

    method HandleFrame(c: ConnectionId, id: RequestId, m: Message)
      modifies this`connections
      ensures State() == Step(old(State()), Receive(c, id, m))
    {
      if c in connections && !connections[c].cleanupScheduled {
        var item := if Acceptable(m) then Request(id, m) else Malformed;
        connections := connections[c := connections[c].(pending := connections[c].pending + [item])];
      }
    }

    /** `end`, `close` and `error` all come here; only the first counts. */
    method ScheduleCleanup(c: ConnectionId)
      modifies this`connections
      ensures State() == Step(old(State()), Close(c))
    {
      if c in connections {
        if connections[c].cleanupScheduled {
          return;
        }
        connections := connections[c := connections[c].(cleanupScheduled := true)];
        connections := connections[c := connections[c].(pending := connections[c].pending + [Cleanup])];
      }
    }

    /** The connection's own queue hands its next item to the shared one. */
    method DispatchNext(c: ConnectionId)
      modifies this`connections, this`queue
      ensures State() == Step(old(State()), Dispatch(c))
    {
      if c in connections && connections[c].inFlight.None? && connections[c].pending != [] {
        var conn := connections[c];
        connections := connections[c := conn.(inFlight := Some(conn.pending[0]), pending := conn.pending[1..])];
        queue := queue + [c];
      }
    }

    method WriteMessage(c: ConnectionId, f: Frame)
      modifies this`sent
      ensures sent == old(sent) + [Sent(c, f)]
    {
      sent := sent + [Sent(c, f)];
    }

    method RegisterRoutes(c: ConnectionId, id: RequestId, gs: seq<Registration>)
      requires c in connections
      modifies this, registry
      ensures State() == Claim(old(State()), c, id, gs)
    {
      var told := |registry.notices|;
      registry.RegisterMany(gs, c);
      sent := sent + NoticeFrames(registry.notices[told..]);
      ghost var start := State();
      var i := 0;
      assert gs[0..] == gs;
      while i < |gs|
        invariant 0 <= i <= |gs| && c in connections
        invariant Adopt(State(), c, gs[i..]) == Adopt(start, c, gs)
      {
        assert gs[i..][1..] == gs[i + 1..];
        ghost var before := State();
        var t := gs[i].owner;
        var conn := connections[c].(owners := connections[c].owners + {t});
        if t !in conn.unsubscribers {
          var l := Listener(nextListener, c);
          nextListener := nextListener + 1;
          registry.Subscribe(t, l);
          conn := conn.(unsubscribers := conn.unsubscribers[t := l]);
        }
        connections := connections[c := conn];
        assert State() == AdoptOne(before, c, t);
        i := i + 1;
      }
      WriteMessage(c, Frame.Registered(id, Hostnames(gs)));
    }

    /** Removes the connection's routes, one owner token after the other. */
    method ForgetRoutes(c: ConnectionId, owners: set<Token>)
      modifies registry`routes
      ensures registry.routes == DepartedRoutes(old(registry.routes), c, owners)
    {
      ghost var before := registry.routes;
      var left := owners;
      while left != {}
        decreases |left|
        invariant left <= owners
        invariant registry.routes == DepartedRoutes(before, c, owners - left)
      {
        var t :| t in left;
        left := left - {t};
        registry.UnregisterOwner(t, Some(c));
      }
    }

    /** Removes the connection's listeners, one subscription after the other. */
    method ForgetListeners(unsubscribers: map<Token, Listener>)
      modifies registry`listeners
      ensures registry.listeners == DepartedListeners(old(registry.Contents()), unsubscribers)
    {
      ghost var before := registry.Contents();
      var left := unsubscribers.Keys;
      assert unsubscribers - left == map[];
      while left != {}
        decreases |left|
        invariant left <= unsubscribers.Keys
        invariant registry.Contents() == before.(listeners := DepartedListeners(before, unsubscribers - left))
      {
        hide DepartedListeners, Unsubscribed;
        var t :| t in left;
        DepartOneMore(before, unsubscribers - left, t, unsubscribers[t]);
        registry.Unsubscribe(t, unsubscribers[t]);
        OneMore(unsubscribers, left, t);
        left := left - {t};
      }
      assert unsubscribers - left == unsubscribers;
    }

    method CleanupConnection(c: ConnectionId)
      requires c in connections
      modifies this`connections, registry
      ensures State() == CleanUp(old(State()), c)
    {
      if connections[c].cleaned {
        return;
      }
      connections := connections[c := connections[c].(cleaned := true)];
      ForgetRoutes(c, connections[c].owners);
      ForgetListeners(connections[c].unsubscribers);
    }

    method ProcessMessage(c: ConnectionId, id: RequestId, m: Message)
      requires c in connections
      modifies this, registry
      ensures State() == Process(old(State()), c, Request(id, m))
    {
      match m {
        case Negotiate => WriteMessage(c, Negotiated(id, |registry.routes|));
        case StopIfIdle =>
          if |registry.routes| > 0 {
            WriteMessage(c, Failure(Some(id), "ROUTES_ACTIVE"));
          } else {
            WriteMessage(c, Stopping(id));
          }
        case Health => WriteMessage(c, Healthy(id, |registry.routes|));
        case Register(gs) => RegisterRoutes(c, id, gs);
        case Unregister(owner, hs) =>
          var active := registry.FilterActive(hs, owner, Some(c));
          var removed := registry.UnregisterMany(active, owner, Some(c));
          WriteMessage(c, Frame.Unregistered(id, removed));
        case Heartbeat(owner, hs) =>
          var active := registry.FilterActive(hs, owner, Some(c));
          WriteMessage(c, Alive(id, active));
      }
    }

    /** The item in the slot ran: the slot and its connection are free again. */
    method Release(c: ConnectionId)
      requires c in connections && queue != []
      modifies this`connections, this`queue, this`validating
      ensures State() == Finish(old(State()), c)
    {
      connections := connections[c := connections[c].(inFlight := None)];
      queue := queue[1..];
      validating := false;
    }

    /** The operation slot runs its item, or starts validating its routes. */
    method RunNext()
      modifies this, registry
      ensures State() == Step(old(State()), Advance)
    {
      if queue == [] || queue[0] !in connections || connections[queue[0]].inFlight.None? || validating {
        return;
      }
      var c := queue[0];
      var item := connections[c].inFlight.value;
      ghost var before := State();
      ProcessKeepsQueue(before, c, item);
      match item {
        case Cleanup => CleanupConnection(c);
        case Malformed => WriteMessage(c, Failure(None, "INVALID_MESSAGE"));
        case Request(id, m) =>
          if m.Register? {
            validating := true;
            return;
          }
          ProcessMessage(c, id, m);
      }
      Release(c);
    }

    method FinishValidation(ok: bool)
      modifies this, registry
      ensures State() == Step(old(State()), Validated(ok))
    {
      if queue == [] || queue[0] !in connections || connections[queue[0]].inFlight.None? || !validating {
        return;
      }
      var c := queue[0];
      var item := connections[c].inFlight.value;
      ghost var before := State();
      ProcessKeepsQueue(before, c, item);
      if !ok {
        WriteMessage(c, Failure(if item.Request? then Some(item.id) else None, "CERTIFICATE_REQUIRED"));
      } else {
        match item {
          case Cleanup => CleanupConnection(c);
          case Malformed => WriteMessage(c, Failure(None, "INVALID_MESSAGE"));
          case Request(id, m) => ProcessMessage(c, id, m);
        }
      }
      Release(c);
    }
  }
}
