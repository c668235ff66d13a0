/**
 * The control client beside the server: frames arrive in the order they were sent, replies resume the
 * waiting callers in that order, and a route-lost frame acts at once, even before earlier callers resumed.
 */
module ControlClient {
  import opened Wrappers
  import opened RouteRegistry
  import opened ControlServer
  import Sequences

  /** Requests by their id. */
  type Asked = map<RequestId, Message>

  // ----- The client on its own -----

  /** A caller that was answered and has not run on yet. */
  datatype Continuation = Continuation(request: Message, reply: Frame)

  datatype Client = Client(claimed: set<Hostname>, pending: map<RequestId, Message>, ready: seq<Continuation>)

  function RequestOf(f: Frame): Option<RequestId> {
    match f
    case RouteLost(_) => None
    case Failure(request, _) => request
    case _ => Some(f.id)
  }

  function SetOf(hs: seq<Hostname>): set<Hostname> {
    set h | h in hs
  }

  function Handled(c: Client, f: Frame): Client {
    if f.RouteLost? then
      c.(claimed := c.claimed - {f.takeover.hostname})
    else if RequestOf(f).None? || RequestOf(f).value !in c.pending then
      c
    else
      var id := RequestOf(f).value;
      var rest := c.(pending := c.pending - {id});
      if f.Failure? then rest else rest.(ready := rest.ready + [Continuation(c.pending[id], f)])
  }

  /** What a resumed caller does to the claimed set; a reply of the wrong type makes it throw. */
  function Continued(claimed: set<Hostname>, k: Continuation): set<Hostname> {
    match k.request
    case Register(_) => if k.reply.Registered? then claimed + SetOf(k.reply.hostnames) else claimed
    case Unregister(_, _) => if k.reply.Unregistered? then claimed - SetOf(k.reply.hostnames) else claimed
    case Heartbeat(_, hs) => if k.reply.Alive? then claimed - (SetOf(hs) - SetOf(k.reply.hostnames)) else claimed
    case _ => claimed
  }

  function Resumed(c: Client): Client {
    if c.ready == [] then c else c.(claimed := Continued(c.claimed, c.ready[0]), ready := c.ready[1..])
  }

  /** A lost hostname stays claimed when its notice is handled before the registering caller resumed. */
  lemma LateCallerKeepsLostHostname(id: RequestId, g: Registration, t: Takeover)
    requires t.hostname == g.hostname
    ensures var waiting := Client({}, map[id := Message.Register([g])], []);
            var both := Handled(Handled(waiting, Frame.Registered(id, [g.hostname])), RouteLost(t));
            && g.hostname in Resumed(both).claimed
            && g.hostname !in Handled(Resumed(Handled(waiting, Frame.Registered(id, [g.hostname]))), RouteLost(t)).claimed
  {
    var waiting := Client({}, map[id := Message.Register([g])], []);
    var f := Frame.Registered(id, [g.hostname]);
    assert Handled(waiting, f).ready == [Continuation(Message.Register([g]), f)];
    assert g.hostname in SetOf([g.hostname]);
  }

  // ----- The client and the server together -----

  /**
   * `delivered` counts the frames for `me` that the client handled, and `asked` remembers every request it
   * ever sent; request ids never repeat. A request enters the connection's queue at once: that queue is also
   * the channel from the client.
   */
  datatype System = System(
    me: ConnectionId,
    token: Token,
    server: Server,
    client: Client,
    delivered: nat,
    asked: Asked)

  datatype Action =
    | Serve(event: Event)
    | Ask(id: RequestId, message: Message)
    | Deliver
    | Resume

  function FramesFor(sent: seq<Sent>, me: ConnectionId): seq<Frame> {
    if sent == [] then
      []
    else
      (if sent[0].connection == me then [sent[0].frame] else []) + FramesFor(sent[1..], me)
  }

  function Log(y: System): seq<Frame> {
    FramesFor(y.server.sent, y.me)
  }

  /** The frames that the client has not handled yet. */
  function Underway(y: System): seq<Frame> {
    if y.delivered <= |Log(y)| then Log(y)[y.delivered..] else []
  }

  /** The client uses its own token only, and asks nothing about an empty list. */
  predicate Own(m: Message, token: Token) {
    match m
    case Register(gs) => forall i :: 0 <= i < |gs| ==> gs[i].owner == token
    case Unregister(owner, hs) => owner == token && hs != []
    case Heartbeat(owner, hs) => owner == token && hs != []
    case _ => true
  }

  /** Others may do anything; this connection stays open and carries only what this client sends. */
  predicate ByOthers(e: Event, me: ConnectionId) {
    match e
    case Receive(c, _, _) => c != me
    case Close(c) => c != me
    case _ => true
  }

  function Next(y: System, a: Action): System {
    match a
    case Serve(e) => if ByOthers(e, y.me) then y.(server := Step(y.server, e)) else y
    case Ask(id, m) =>
      if id in y.asked || !Own(m, y.token) then
        y
      else
        y.(server := Step(y.server, Receive(y.me, id, m)),
           client := y.client.(pending := y.client.pending[id := m]),
           asked := y.asked[id := m])
    case Deliver =>
      if y.delivered < |Log(y)| then
        y.(client := Handled(y.client, Log(y)[y.delivered]), delivered := y.delivered + 1)
      else
        y
    case Resume => y.(client := Resumed(y.client))
  }

  /** The client connects to a server that already served others. */
  function Start(before: seq<Event>, me: ConnectionId, token: Token): System {
    var server := Step(Run(before), Connect(me));
    System(me, token, server, Client({}, map[], []), |FramesFor(server.sent, me)|, map[])
  }

  function After(y: System, actions: seq<Action>): System {
    if actions == [] then y else Next(After(y, actions[..|actions| - 1]), actions[|actions| - 1])
  }

  /** The hostnames the registry holds for a lease. */
  function HeldIn(s: Server, me: ConnectionId): set<Hostname> {
    set h | h in s.registry.routes && s.registry.routes[h].lease == me
  }

  function Held(y: System): set<Hostname> {
    HeldIn(y.server, y.me)
  }

  /** No request waits, no frame is on its way, and every answered caller ran on. */
  predicate Quiet(y: System) {
    && y.me in y.server.connections && Items(y.server.connections[y.me]) == []
    && y.delivered == |Log(y)|
    && y.client.ready == []
  }

  // ----- Where the claimed set is heading -----

  function ContinueAll(claimed: set<Hostname>, ks: seq<Continuation>): set<Hostname>
    decreases |ks|
  {
    if ks == [] then claimed else ContinueAll(Continued(claimed, ks[0]), ks[1..])
  }

  /** The effect of a frame whose caller resumes at once. */
  function Settled(claimed: set<Hostname>, asked: Asked, f: Frame): set<Hostname> {
    if f.RouteLost? then
      claimed - {f.takeover.hostname}
    else if RequestOf(f).Some? && RequestOf(f).value in asked then
      Continued(claimed, Continuation(asked[RequestOf(f).value], f))
    else
      claimed
  }

  function SettleAll(claimed: set<Hostname>, asked: Asked, fs: seq<Frame>): set<Hostname>
    decreases |fs|
  {
    if fs == [] then claimed else SettleAll(Settled(claimed, asked, fs[0]), asked, fs[1..])
  }

  /** What the client would claim if all callers ran on now and every frame were followed up at once. */
  function Outlook(y: System): set<Hostname> {
    SettleAll(ContinueAll(y.client.claimed, y.client.ready), y.asked, Underway(y))
  }

  lemma {:induction false} SettleAllMonotone(a: set<Hostname>, b: set<Hostname>, asked: Asked, fs: seq<Frame>)
    requires a <= b
    ensures SettleAll(a, asked, fs) <= SettleAll(b, asked, fs)
    decreases |fs|
  {
    if fs != [] {
      SettleAllMonotone(Settled(a, asked, fs[0]), Settled(b, asked, fs[0]), asked, fs[1..]);
    }
  }

  lemma {:induction false} SettleAllAppend(a: set<Hostname>, asked: Asked, fs: seq<Frame>, gs: seq<Frame>)
    ensures SettleAll(a, asked, fs + gs) == SettleAll(SettleAll(a, asked, fs), asked, gs)
    decreases |fs|
  {
    if fs == [] {
      assert fs + gs == gs;
    } else {
      assert (fs + gs)[1..] == fs[1..] + gs;
      SettleAllAppend(Settled(a, asked, fs[0]), asked, fs[1..], gs);
    }
  }

  lemma {:induction false} ContinueAllAppend(a: set<Hostname>, ks: seq<Continuation>, k: Continuation)
    ensures ContinueAll(a, ks + [k]) == Continued(ContinueAll(a, ks), k)
    decreases |ks|
  {
    if ks == [] {
      assert ks + [k] == [k];
    } else {
      assert (ks + [k])[1..] == ks[1..] + [k];
      ContinueAllAppend(Continued(a, ks[0]), ks[1..], k);
    }
  }

  /** Deleting a hostname early can only leave it claimed by a later caller, never lose another one. */
  lemma {:induction false} EarlyLossIsMild(a: set<Hostname>, b: set<Hostname>, ks: seq<Continuation>, h: Hostname)
    requires b - {h} <= a
    ensures ContinueAll(b, ks) - {h} <= ContinueAll(a, ks)
    decreases |ks|
  {
    if ks != [] {
      EarlyLossIsMild(Continued(a, ks[0]), Continued(b, ks[0]), ks[1..], h);
    }
  }

  // ----- Requests that are still owed an answer -----

  function IdsOfFrames(fs: seq<Frame>): seq<RequestId> {
    if fs == [] then
      []
    else
      (if RequestOf(fs[0]).Some? then [RequestOf(fs[0]).value] else []) + IdsOfFrames(fs[1..])
  }

  function IdsOfItems(items: seq<Item>): seq<RequestId> {
    if items == [] then
      []
    else
      (if items[0].Request? then [items[0].id] else []) + IdsOfItems(items[1..])
  }

  lemma {:induction false} IdsOfFramesAppend(a: seq<Frame>, b: seq<Frame>)
    ensures IdsOfFrames(a + b) == IdsOfFrames(a) + IdsOfFrames(b)
  {
    if a == [] {
      assert a + b == b;
    } else {
      assert (a + b)[1..] == a[1..] + b;
      IdsOfFramesAppend(a[1..], b);
    }
  }

  lemma {:induction false} IdsOfItemsAppend(a: seq<Item>, b: seq<Item>)
    ensures IdsOfItems(a + b) == IdsOfItems(a) + IdsOfItems(b)
  {
    if a == [] {
      assert a + b == b;
    } else {
      assert (a + b)[1..] == a[1..] + b;
      IdsOfItemsAppend(a[1..], b);
    }
  }

  lemma {:induction false} FramesForAppend(a: seq<Sent>, b: seq<Sent>, me: ConnectionId)
    ensures FramesFor(a + b, me) == FramesFor(a, me) + FramesFor(b, me)
  {
    if a == [] {
      assert a + b == b;
    } else {
      assert (a + b)[1..] == a[1..] + b;
      FramesForAppend(a[1..], b, me);
    }
  }

  /** A caller waits for each of the answers, and no two are for the same caller. */
  predicate Awaited(ids: seq<RequestId>, pending: map<RequestId, Message>) {
    && (forall i, j :: 0 <= i < j < |ids| ==> ids[i] != ids[j])
    && (forall i :: 0 <= i < |ids| ==> ids[i] in pending)
  }

  /** Answers on their way, then requests the server has not answered. */
  function Owed(y: System): seq<RequestId> {
    IdsOfFrames(Underway(y)) + (if y.me in y.server.connections then IdsOfItems(Items(y.server.connections[y.me])) else [])
  }

  /** What waits at the server is what was asked. */
  predicate AsAsked(asked: Asked, token: Token, item: Item) {
    item.Request? ==> item.id in asked && asked[item.id] == item.message && Own(item.message, token)
  }

  ghost predicate Open(y: System) {
    && Inv(y.server) && y.me in y.server.connections && !y.server.connections[y.me].cleanupScheduled
    && y.delivered <= |Log(y)|
  }

  ghost predicate Joined(y: System) {
    && Open(y)
    && (forall h :: h in Held(y) ==> y.server.registry.routes[h].Owner() == y.token)
    && (forall i :: 0 <= i < |Items(y.server.connections[y.me])| ==>
          AsAsked(y.asked, y.token, Items(y.server.connections[y.me])[i]))
    && (forall id :: id in y.client.pending ==> id in y.asked && y.asked[id] == y.client.pending[id])
    && Awaited(Owed(y), y.client.pending)
    && Held(y) <= Outlook(y)
  }

  // ----- What the server does to one client -----

  predicate OwnRoutes(s: Server, me: ConnectionId, token: Token) {
    forall h :: h in s.registry.routes && s.registry.routes[h].lease == me ==> s.registry.routes[h].Owner() == token
  }

  /** The frames `fs` reach the client, and it still claims at least what is left of its lease afterwards. */
  ghost predicate Tracked(s: Server, after: Server, me: ConnectionId, token: Token, asked: Asked, fs: seq<Frame>) {
    && FramesFor(after.sent, me) == FramesFor(s.sent, me) + fs
    && OwnRoutes(after, me, token)
    && HeldIn(after, me) <= SettleAll(HeldIn(s, me), asked, fs)
  }

  /** Each frame tells of the loss of a listed hostname. */
  predicate Losses(fs: seq<Frame>, hs: seq<Hostname>) {
    forall i :: 0 <= i < |fs| ==> fs[i].RouteLost? && fs[i].takeover.hostname in hs
  }

  predicate NoticesOf(ns: seq<Notice>, hs: seq<Hostname>) {
    forall i :: 0 <= i < |ns| ==> ns[i].takeover.hostname in hs
  }

  lemma {:induction false} RegisteringNotices(r: Registry, gs: seq<Registration>, c: ConnectionId)
    ensures NoticesOf(RegisteredAll(r, gs, c).1, Hostnames(gs))
    decreases |gs|
  {
    if gs != [] {
      var (r1, n1) := RegisteredOne(r, gs[0], c);
      RegisteringNotices(r1, gs[1..], c);
      assert Hostnames(gs) == [gs[0].hostname] + Hostnames(gs[1..]);
      if n1 != [] {
        var previous := r.routes[gs[0].hostname].Owner();
        NoticesAre(ListenersOf(r, previous), Takeover(gs[0].hostname, previous, gs[0].owner));
      }
    }
  }

  lemma {:induction false} LossesReach(ns: seq<Notice>, hs: seq<Hostname>, me: ConnectionId)
    requires NoticesOf(ns, hs)
    ensures Losses(FramesFor(NoticeFrames(ns), me), hs)
    decreases |ns|
  {
    if ns != [] {
      assert NoticeFrames(ns)[1..] == NoticeFrames(ns[1..]);
      LossesReach(ns[1..], hs, me);
    }
  }

  lemma {:induction false} LossesSettle(a: set<Hostname>, asked: Asked, fs: seq<Frame>, hs: seq<Hostname>)
    requires Losses(fs, hs)
    ensures a - SetOf(hs) <= SettleAll(a, asked, fs)
    ensures IdsOfFrames(fs) == []
    decreases |fs|
  {
    if fs != [] {
      LossesSettle(Settled(a, asked, fs[0]), asked, fs[1..], hs);
    }
  }

  lemma OneFrame(sent: seq<Sent>, c: ConnectionId, f: Frame, me: ConnectionId)
    ensures FramesFor(sent + [Sent(c, f)], me) == FramesFor(sent, me) + (if c == me then [f] else [])
  {
    FramesForAppend(sent, [Sent(c, f)], me);
    assert FramesFor([], me) == [] && [Sent(c, f)][1..] == [];
  }

  /** The frames of a registration for one connection: what it lost, then the reply if it asked. */
  lemma ClaimFrames(s: Server, c: ConnectionId, id: RequestId, gs: seq<Registration>, me: ConnectionId) returns (fs: seq<Frame>)
    requires c in s.connections
    ensures Losses(fs, Hostnames(gs))
    ensures FramesFor(Claim(s, c, id, gs).sent, me) ==
            FramesFor(s.sent, me) + fs + (if c == me then [Frame.Registered(id, Hostnames(gs))] else [])
  {
    var ns := RegisteredAll(s.registry, gs, c).1;
    fs := FramesFor(NoticeFrames(ns), me);
    RegisteringNotices(s.registry, gs, c);
    LossesReach(ns, Hostnames(gs), me);
    ClaimSends(s, c, id, gs);
    FramesForAppend(s.sent, NoticeFrames(ns), me);
    OneFrame(s.sent + NoticeFrames(ns), c, Frame.Registered(id, Hostnames(gs)), me);
  }

  lemma ClaimRoutes(s: Server, c: ConnectionId, id: RequestId, gs: seq<Registration>)
    requires c in s.connections
    ensures Claim(s, c, id, gs).registry.routes == RegisteredAll(s.registry, gs, c).0.routes
  {
    var (registry, ns) := RegisteredAll(s.registry, gs, c);
    AdoptKeepsQueue(s.(registry := registry, sent := s.sent + NoticeFrames(ns)), c, gs);
  }

  lemma HostnameIn(gs: seq<Registration>, g: Registration)
    requires g in gs
    ensures g.hostname in SetOf(Hostnames(gs))
  {
    var i :| 0 <= i < |gs| && gs[i] == g;
    assert Hostnames(gs)[i] == g.hostname;
  }

  lemma OwnClaim(s: Server, me: ConnectionId, id: RequestId, gs: seq<Registration>, token: Token)
    requires me in s.connections && OwnRoutes(s, me, token) && Own(Message.Register(gs), token)
    ensures OwnRoutes(Claim(s, me, id, gs), me, token)
    ensures HeldIn(Claim(s, me, id, gs), me) <= HeldIn(s, me) + SetOf(Hostnames(gs))
  {
    ClaimRoutes(s, me, id, gs);
    RegisterManyClaims(s.registry, gs, me);
    var after := Claim(s, me, id, gs);
    forall h | h in HeldIn(after, me)
      ensures h in HeldIn(s, me) + SetOf(Hostnames(gs)) && after.registry.routes[h].Owner() == token
    {
      if g :| g in gs && g.hostname == h {
        HostnameIn(gs, g);
      }
    }
  }

  lemma OthersClaim(s: Server, c: ConnectionId, id: RequestId, gs: seq<Registration>, me: ConnectionId, token: Token)
    requires c in s.connections && c != me && OwnRoutes(s, me, token)
    ensures OwnRoutes(Claim(s, c, id, gs), me, token)
    ensures HeldIn(Claim(s, c, id, gs), me) <= HeldIn(s, me) - SetOf(Hostnames(gs))
  {
    ClaimRoutes(s, c, id, gs);
    RegisterManyClaims(s.registry, gs, c);
    var after := Claim(s, c, id, gs);
    forall i | 0 <= i < |gs| ensures Hostnames(gs)[i] !in HeldIn(after, me) {
      assert gs[i] in gs;
    }
    forall h | h in HeldIn(after, me) ensures h in HeldIn(s, me) && h !in SetOf(Hostnames(gs)) {
      assert h !in Hostnames(gs);
    }
  }

  lemma OwnClaimTracked(s: Server, me: ConnectionId, id: RequestId, gs: seq<Registration>, token: Token, asked: Asked)
    returns (fs: seq<Frame>)
    requires me in s.connections && OwnRoutes(s, me, token) && Own(Message.Register(gs), token)
    requires id in asked && asked[id] == Message.Register(gs)
    ensures Tracked(s, Claim(s, me, id, gs), me, token, asked, fs) && IdsOfFrames(fs) == [id]
  {
    var lost := ClaimFrames(s, me, id, gs, me);
    var reply := Frame.Registered(id, Hostnames(gs));
    fs := lost + [reply];
    Sequences.Assoc(FramesFor(s.sent, me), lost, [reply]);
    OwnClaim(s, me, id, gs, token);
    LossesSettle(HeldIn(s, me), asked, lost, Hostnames(gs));
    SettleAllAppend(HeldIn(s, me), asked, lost, [reply]);
    var mid := SettleAll(HeldIn(s, me), asked, lost);
    assert SettleAll(mid, asked, [reply]) == mid + SetOf(Hostnames(gs)) by {
      assert [reply][1..] == [];
    }
    IdsOfFramesAppend(lost, [reply]);
    assert IdsOfFrames([reply]) == [id] by {
      assert [reply][1..] == [];
    }
  }

  lemma OthersClaimTracked(
      s: Server, c: ConnectionId, id: RequestId, gs: seq<Registration>, me: ConnectionId, token: Token, asked: Asked)
    returns (fs: seq<Frame>)
    requires c in s.connections && c != me && OwnRoutes(s, me, token)
    ensures Tracked(s, Claim(s, c, id, gs), me, token, asked, fs) && IdsOfFrames(fs) == []
  {
    fs := ClaimFrames(s, c, id, gs, me);
    Sequences.Empty(FramesFor(s.sent, me) + fs);
    OthersClaim(s, c, id, gs, me, token);
    LossesSettle(HeldIn(s, me), asked, fs, Hostnames(gs));
  }

  /** An unregistration removes from the lease what its reply names; a heartbeat keeps what its reply names. */
  lemma ReplyKeepsHeld(s: Server, me: ConnectionId, id: RequestId, m: Message, token: Token, asked: Asked)
    returns (f: Frame)
    requires me in s.connections && OwnRoutes(s, me, token) && Own(m, token) && !m.Register?
    requires id in asked && asked[id] == m
    ensures var after := Process(s, me, Request(id, m));
            && after.sent == s.sent + [Sent(me, f)] && RequestOf(f) == Some(id) && OwnRoutes(after, me, token)
            && HeldIn(after, me) <= Settled(HeldIn(s, me), asked, f)
  {
    var after := Process(s, me, Request(id, m));
    f := after.sent[|s.sent|].frame;
    match m {
      case Unregister(owner, hs) =>
        var active := ActiveHostnames(s.registry, owner, hs, Some(me));
        UnregisterManyRemoves(s.registry, active, owner, Some(me));
      case Heartbeat(owner, hs) =>
        ActiveHostnamesAre(s.registry, owner, hs, Some(me));
      case _ =>
    }
  }

  lemma OwnItemTracked(s: Server, me: ConnectionId, item: Item, token: Token, asked: Asked) returns (fs: seq<Frame>)
    requires me in s.connections && OwnRoutes(s, me, token) && !item.Cleanup? && AsAsked(asked, token, item)
    ensures Tracked(s, Process(s, me, item), me, token, asked, fs)
    ensures IdsOfFrames(fs) == if item.Request? then [item.id] else []
  {
    if IsRegister(item) {
      fs := OwnClaimTracked(s, me, item.id, item.message.routes, token, asked);
    } else {
      var f;
      if item.Request? {
        f := ReplyKeepsHeld(s, me, item.id, item.message, token, asked);
      } else {
        f := Failure(None, "INVALID_MESSAGE");
      }
      fs := [f];
      OneFrame(s.sent, me, f, me);
    }
  }

  lemma OthersReplyKeepsHeld(s: Server, c: ConnectionId, item: Item, me: ConnectionId) returns (f: Frame)
    requires c in s.connections && c != me && !item.Cleanup? && !IsRegister(item)
    ensures var after := Process(s, c, item);
            && after.sent == s.sent + [Sent(c, f)]
            && forall h :: h in HeldIn(after, me) ==>
                 h in HeldIn(s, me) && after.registry.routes[h] == s.registry.routes[h]
  {
    var after := Process(s, c, item);
    f := after.sent[|s.sent|].frame;
    ReplyKeepsOwners(s, c, item);
  }

  lemma OthersItemTracked(
      s: Server, c: ConnectionId, item: Item, me: ConnectionId, token: Token, asked: Asked) returns (fs: seq<Frame>)
    requires OwnerInv(s) && Live(s, c) && c != me && OwnRoutes(s, me, token)
    ensures Tracked(s, Process(s, c, item), me, token, asked, fs) && IdsOfFrames(fs) == []
  {
    if IsRegister(item) {
      fs := OthersClaimTracked(s, c, item.id, item.message.routes, me, token, asked);
    } else {
      fs := [];
      Sequences.Empty(FramesFor(s.sent, me));
      if item.Cleanup? {
        CleanUpRemovesLeases(s, c);
      } else {
        var f := OthersReplyKeepsHeld(s, c, item, me);
        OneFrame(s.sent, c, f, me);
      }
    }
  }

  /** The frames reach the client, its answered requests are struck off, and what waits is what was asked. */
  ghost predicate Served(s: Server, after: Server, me: ConnectionId, token: Token, asked: Asked, fs: seq<Frame>)
    requires me in s.connections
  {
    && Tracked(s, after, me, token, asked, fs)
    && me in after.connections && !after.connections[me].cleanupScheduled
    && IdsOfFrames(fs) + IdsOfItems(Items(after.connections[me])) == IdsOfItems(Items(s.connections[me]))
    && (forall i :: 0 <= i < |Items(after.connections[me])| ==> Items(after.connections[me])[i] in Items(s.connections[me]))
  }

  ghost predicate Ready(s: Server, me: ConnectionId, token: Token, asked: Asked) {
    && Inv(s) && me in s.connections && !s.connections[me].cleanupScheduled && OwnRoutes(s, me, token)
    && forall i :: 0 <= i < |Items(s.connections[me])| ==> AsAsked(asked, token, Items(s.connections[me])[i])
  }

  /** The slot's item is one of the connection's own when the connection is at its head. */
  lemma HeadIsOwn(s: Server, me: ConnectionId, token: Token, asked: Asked)
    requires Ready(s, me, token, asked) && HasHead(s) && s.queue[0] == me
    ensures !Head(s).Cleanup? && AsAsked(asked, token, Head(s))
  {
    assert Items(s.connections[me])[0] == Head(s);
    assert CleanupLast(s.connections[me]);
  }

  lemma StruckIsServed(s: Server, after: Server, me: ConnectionId, token: Token, asked: Asked, fs: seq<Frame>)
    requires me in s.connections && HasHead(s) && me in after.connections && !after.connections[me].cleanupScheduled
    requires Tracked(s, after, me, token, asked, fs)
    requires IdsOfFrames(fs) == if s.queue[0] == me && Head(s).Request? then [Head(s).id] else []
    requires Items(s.connections[me]) == (if s.queue[0] == me then [Head(s)] else []) + Items(after.connections[me])
    ensures Served(s, after, me, token, asked, fs)
  {
    var rest := Items(after.connections[me]);
    if s.queue[0] == me {
      IdsOfItemsAppend([Head(s)], rest);
      assert [Head(s)][1..] == [];
    } else {
      assert [] + rest == rest;
    }
    forall i | 0 <= i < |rest| ensures rest[i] in Items(s.connections[me]) {
      assert Items(s.connections[me])[|Items(s.connections[me])| - |rest| + i] == rest[i];
    }
  }

  lemma CompleteServes(s: Server, me: ConnectionId, token: Token, asked: Asked) returns (fs: seq<Frame>)
    requires Ready(s, me, token, asked) && HasHead(s)
    ensures Served(s, Complete(s), me, token, asked, fs)
  {
    var c := s.queue[0];
    if c == me {
      HeadIsOwn(s, me, token, asked);
      fs := OwnItemTracked(s, me, Head(s), token, asked);
    } else {
      fs := OthersItemTracked(s, c, Head(s), me, token, asked);
    }
    var done := Process(s, c, Head(s));
    ProcessKeepsQueue(s, c, Head(s));
    hide Process, Inv, CleanupLast;
    StruckIsServed(s, Complete(s), me, token, asked, fs);
  }

  lemma RejectServes(s: Server, me: ConnectionId, token: Token, asked: Asked) returns (fs: seq<Frame>)
    requires Ready(s, me, token, asked) && HasHead(s) && IsRegister(Head(s))
    ensures Served(s, Reject(s), me, token, asked, fs)
  {
    var f := Failure(Some(Head(s).id), "CERTIFICATE_REQUIRED");
    var c := s.queue[0];
    OneFrame(s.sent, c, f, me);
    if c == me {
      fs := [f];
      HeadIsOwn(s, me, token, asked);
    } else {
      fs := [];
    }
    StruckIsServed(s, Reject(s), me, token, asked, fs);
  }

  lemma OtherStepKeepsItems(s: Server, e: Event, me: ConnectionId)
    requires me in s.connections && ByOthers(e, me) && !Completes(s, e)
    requires !(e == Validated(false) && HasHead(s) && s.validating)
    ensures var after := Step(s, e);
            && after.sent == s.sent && me in after.connections
            && after.connections[me].cleanupScheduled == s.connections[me].cleanupScheduled
            && Items(after.connections[me]) == Items(s.connections[me])
  {
    hide Process, Acceptable;
  }

  /** Arrivals, dispatches and the start of a validation send nothing and answer nothing. */
  lemma OtherStepServes(s: Server, e: Event, me: ConnectionId, token: Token, asked: Asked)
    requires Ready(s, me, token, asked) && ByOthers(e, me) && !Completes(s, e)
    requires !(e == Validated(false) && HasHead(s) && s.validating)
    ensures Served(s, Step(s, e), me, token, asked, [])
  {
    OtherStepsKeepOwners(s, e);
    OtherStepKeepsItems(s, e, me);
    Sequences.Empty(FramesFor(s.sent, me));
    hide Step, Items, Inv, Completes;
  }

  lemma StepServes(s: Server, e: Event, me: ConnectionId, token: Token, asked: Asked) returns (fs: seq<Frame>)
    requires Ready(s, me, token, asked) && ByOthers(e, me)
    ensures Served(s, Step(s, e), me, token, asked, fs)
  {
    if Completes(s, e) {
      fs := CompleteServes(s, me, token, asked);
      assert Step(s, e) == Complete(s);
    } else if e == Validated(false) && HasHead(s) && s.validating {
      fs := RejectServes(s, me, token, asked);
    } else {
      fs := [];
      OtherStepServes(s, e, me, token, asked);
    }
  }

  // ----- Every step of the whole keeps the invariant -----

  lemma DropAppend(log: seq<Frame>, fs: seq<Frame>, n: nat)
    requires n <= |log|
    ensures (log + fs)[n..] == log[n..] + fs
  {
  }

  lemma ServedKeepsOwed(y: System, after: System, fs: seq<Frame>)
    requires Open(y) && Served(y.server, after.server, y.me, y.token, y.asked, fs)
    requires after == y.(server := after.server)
    ensures after.delivered <= |Log(after)| && Log(after)[y.delivered..] == Log(y)[y.delivered..] + fs
    ensures Owed(after) == Owed(y)
  {
    var d := Log(y)[y.delivered..];
    DropAppend(Log(y), fs, y.delivered);
    IdsOfFramesAppend(d, fs);
    Sequences.Assoc(IdsOfFrames(d), IdsOfFrames(fs), IdsOfItems(Items(after.server.connections[y.me])));
  }

  lemma ServedKeepsOutlook(y: System, after: System, fs: seq<Frame>)
    requires Open(y) && Served(y.server, after.server, y.me, y.token, y.asked, fs)
    requires after == y.(server := after.server) && Held(y) <= Outlook(y)
    ensures after.delivered <= |Log(after)| && Held(after) <= Outlook(after)
  {
    DropAppend(Log(y), fs, y.delivered);
    SettleAllAppend(ContinueAll(y.client.claimed, y.client.ready), y.asked, Log(y)[y.delivered..], fs);
    SettleAllMonotone(Held(y), Outlook(y), y.asked, fs);
  }

  lemma ServeKeepsJoined(y: System, e: Event)
    requires Joined(y) && ByOthers(e, y.me)
    ensures Joined(y.(server := Step(y.server, e)))
  {
    var fs := StepServes(y.server, e, y.me, y.token, y.asked);
    StepKeepsInv(y.server, e);
    var after := y.(server := Step(y.server, e));
    ServedKeepsOwed(y, after, fs);
    ServedKeepsOutlook(y, after, fs);
    hide Step, Owed, Outlook, Inv, Items, Own;
    var items, left := Items(y.server.connections[y.me]), Items(after.server.connections[y.me]);
    forall i | 0 <= i < |left| ensures AsAsked(y.asked, y.token, left[i]) {
      assert left[i] in items;
    }
  }

  lemma {:induction false} SettleUnasked(a: set<Hostname>, asked: Asked, fs: seq<Frame>, id: RequestId, m: Message)
    requires id !in IdsOfFrames(fs)
    ensures SettleAll(a, asked[id := m], fs) == SettleAll(a, asked, fs)
    decreases |fs|
  {
    if fs != [] {
      assert IdsOfFrames(fs) == (if RequestOf(fs[0]).Some? then [RequestOf(fs[0]).value] else []) + IdsOfFrames(fs[1..]);
      SettleUnasked(Settled(a, asked, fs[0]), asked, fs[1..], id, m);
    }
  }

  lemma AskArrives(s: Server, me: ConnectionId, id: RequestId, m: Message)
    requires me in s.connections && !s.connections[me].cleanupScheduled
    ensures var after := Step(s, Receive(me, id, m));
            && after.sent == s.sent && after.registry == s.registry
            && me in after.connections && !after.connections[me].cleanupScheduled
            && Items(after.connections[me]) == Items(s.connections[me]) + [Parsed(id, m)]
  {
  }

  lemma AskKeepsOwed(y: System, id: RequestId, m: Message)
    requires Open(y) && id !in y.asked && Own(m, y.token)
    ensures var after := Next(y, Ask(id, m)); Open(after) && Owed(after) == Owed(y) + (if Acceptable(m) then [id] else [])
  {
    hide Step, Inv, Items, Acceptable, Log;
    StepKeepsInv(y.server, Receive(y.me, id, m));
    AskArrives(y.server, y.me, id, m);
    LogOfAsk(y, id, m);
    var items, item := Items(y.server.connections[y.me]), Parsed(id, m);
    IdsOfItemsAppend(items, [item]);
    Sequences.Assoc(IdsOfFrames(Underway(y)), IdsOfItems(items), IdsOfItems([item]));
    hide IdsOfItems, IdsOfFrames;
  }

  lemma LogOfAsk(y: System, id: RequestId, m: Message)
    requires Open(y) && id !in y.asked && Own(m, y.token)
    ensures Log(Next(y, Ask(id, m))) == Log(y)
  {
    hide Inv, Items, Own;
    AskArrives(y.server, y.me, id, m);
    hide Step;
  }

  lemma AskKeepsOutlook(y: System, id: RequestId, m: Message)
    requires Open(y) && id !in y.asked && Own(m, y.token) && id !in Owed(y)
    ensures var after := Next(y, Ask(id, m)); Open(after) && Held(after) == Held(y) && Outlook(after) == Outlook(y)
  {
    hide Step, Inv, Items, Acceptable;
    StepKeepsInv(y.server, Receive(y.me, id, m));
    AskArrives(y.server, y.me, id, m);
    var fs := Log(y)[y.delivered..];
    assert forall i :: 0 <= i < |IdsOfFrames(fs)| ==> IdsOfFrames(fs)[i] == Owed(y)[i];
    SettleUnasked(ContinueAll(y.client.claimed, y.client.ready), y.asked, fs, id, m);
  }

  lemma AskKeepsItems(y: System, id: RequestId, m: Message)
    requires Joined(y) && id !in y.asked && Own(m, y.token)
    ensures Ready(Next(y, Ask(id, m)).server, y.me, y.token, y.asked[id := m])
  {
    hide Step, Inv, Items, Acceptable, Own;
    StepKeepsInv(y.server, Receive(y.me, id, m));
    AskArrives(y.server, y.me, id, m);
  }

  lemma AwaitOneMore(ids: seq<RequestId>, pending: map<RequestId, Message>, id: RequestId, m: Message)
    requires Awaited(ids, pending) && id !in pending
    ensures Awaited(ids, pending[id := m]) && Awaited(ids + [id], pending[id := m]) && id !in ids
  {
  }

  lemma AskKeepsJoined(y: System, id: RequestId, m: Message)
    requires Joined(y) && id !in y.asked && Own(m, y.token)
    ensures Joined(Next(y, Ask(id, m)))
  {
    hide Step, Inv, Items, Own, Owed, Outlook, Acceptable, Log, Awaited, AsAsked;
    AskKeepsItems(y, id, m);
    AskKeepsOwed(y, id, m);
    AwaitOneMore(Owed(y), y.client.pending, id, m);
    AskKeepsOutlook(y, id, m);
    assert Owed(y) + [] == Owed(y);
  }

  lemma DeliverKeepsOutlook(y: System)
    requires Joined(y) && y.delivered < |Log(y)|
    requires RequestOf(Log(y)[y.delivered]).Some? ==> RequestOf(Log(y)[y.delivered]).value in y.client.pending
    ensures Held(y) <= Outlook(Next(y, Deliver))
  {
    hide Inv, Items, HeldIn, Awaited, Owed, AsAsked, Own, FramesFor;
    var f, rest, c := Log(y)[y.delivered], Log(y)[y.delivered + 1..], y.client;
    assert Log(y)[y.delivered..][1..] == rest;
    var soon := ContinueAll(c.claimed, c.ready);
    if f.RouteLost? {
      EarlyLossIsMild(c.claimed - {f.takeover.hostname}, c.claimed, c.ready, f.takeover.hostname);
      SettleAllMonotone(Settled(soon, y.asked, f), ContinueAll(Handled(c, f).claimed, c.ready), y.asked, rest);
    } else if RequestOf(f).Some? && !f.Failure? {
      ContinueAllAppend(c.claimed, c.ready, Continuation(c.pending[RequestOf(f).value], f));
    }
  }

  lemma DeliverKeepsOwed(y: System)
    requires Joined(y) && y.delivered < |Log(y)|
    ensures var f := Log(y)[y.delivered];
            Owed(y) == (if RequestOf(f).Some? then [RequestOf(f).value] else []) + Owed(Next(y, Deliver))
  {
    var f := Log(y)[y.delivered];
    assert Log(y)[y.delivered..][1..] == Log(y)[y.delivered + 1..];
    Sequences.Assoc(
      if RequestOf(f).Some? then [RequestOf(f).value] else [], IdsOfFrames(Log(y)[y.delivered + 1..]),
      IdsOfItems(Items(y.server.connections[y.me])));
  }

  lemma AwaitOneLess(id: RequestId, ids: seq<RequestId>, pending: map<RequestId, Message>)
    requires Awaited([id] + ids, pending)
    ensures Awaited(ids, pending - {id}) && id in pending
  {
    var all := [id] + ids;
    assert all[0] == id;
    forall i | 0 <= i < |ids| ensures ids[i] in pending && ids[i] != id {
      assert all[i + 1] == ids[i];
    }
    forall i, j | 0 <= i < j < |ids| ensures ids[i] != ids[j] {
      assert all[i + 1] == ids[i] && all[j + 1] == ids[j];
    }
  }

  lemma DeliverKeepsAwaited(y: System)
    requires Joined(y) && y.delivered < |Log(y)|
    ensures Awaited(Owed(Next(y, Deliver)), Next(y, Deliver).client.pending)
    ensures var f := Log(y)[y.delivered]; RequestOf(f).Some? ==> RequestOf(f).value in y.client.pending
  {
    hide Inv, Items, Own, Outlook, Owed, Awaited, Log, HeldIn, AsAsked, Step;
    var f, after := Log(y)[y.delivered], Next(y, Deliver);
    DeliverKeepsOwed(y);
    if RequestOf(f).Some? {
      AwaitOneLess(RequestOf(f).value, Owed(after), y.client.pending);
    } else {
      assert [] + Owed(after) == Owed(after);
    }
  }

  lemma DeliverKeepsJoined(y: System)
    requires Joined(y) && y.delivered < |Log(y)|
    ensures Joined(Next(y, Deliver))
  {
    hide Inv, Items, Own, Outlook, Owed, Awaited;
    DeliverKeepsAwaited(y);
    DeliverKeepsOutlook(y);
  }

  lemma NextKeepsJoined(y: System, a: Action)
    requires Joined(y)
    ensures Joined(Next(y, a))
  {
    match a
    case Serve(e) =>
      if ByOthers(e, y.me) {
        ServeKeepsJoined(y, e);
      }
    case Ask(id, m) =>
      if id !in y.asked && Own(m, y.token) {
        AskKeepsJoined(y, id, m);
      }
    case Deliver =>
      if y.delivered < |Log(y)| {
        DeliverKeepsJoined(y);
      }
    case Resume =>
      hide Inv, Items, Own;
  }

  lemma {:induction false} StartIsJoined(before: seq<Event>, me: ConnectionId, token: Token)
    requires me !in Run(before).connections
    ensures Joined(Start(before, me, token))
  {
    var s := Run(before);
    ReachableInv(before);
    StepKeepsInv(s, Connect(me));
    forall h | h in s.registry.routes ensures s.registry.routes[h].lease != me {
      assert LeaseLives(s, h);
    }
    assert Held(Start(before, me, token)) == {};
    assert Log(Start(before, me, token))[Start(before, me, token).delivered..] == [];
  }

  lemma {:induction false} ReachableJoined(y: System, actions: seq<Action>)
    requires Joined(y)
    ensures Joined(After(y, actions))
    decreases |actions|
  {
    if actions != [] {
      ReachableJoined(y, actions[..|actions| - 1]);
      NextKeepsJoined(After(y, actions[..|actions| - 1]), actions[|actions| - 1]);
    }
  }

  /** Whenever nothing is in flight the client claims every hostname that the registry holds for its lease. */
  lemma {:induction false} ClaimedCoversHeld(before: seq<Event>, me: ConnectionId, token: Token, actions: seq<Action>)
    requires me !in Run(before).connections
    ensures var y := After(Start(before, me, token), actions); Quiet(y) ==> Held(y) <= y.client.claimed
  {
    hide Start, After, Run, Log, Inv, Items, Step;
    StartIsJoined(before, me, token);
    ReachableJoined(Start(before, me, token), actions);
    var y := After(Start(before, me, token), actions);
    if Quiet(y) {
      assert Underway(y) == [];
      assert Outlook(y) == y.client.claimed;
    }
  }

  // ----- Rounds -----

  /** A round: ask, let the server answer, hear the answer, run on. */
  function AfterRound(y: System, id: RequestId, m: Message): System {
    var answered := Next(Next(Next(y, Ask(id, m)), Serve(Dispatch(y.me))), Serve(Advance));
    Next(Next(answered, Deliver), Resume)
  }

  /** The server's half of the round: the heartbeat is asked, dispatched and answered. */
  lemma RoundIsAnswered(s: Server, me: ConnectionId, id: RequestId, m: Message) returns (f: Frame)
    requires m.Heartbeat? && me in s.connections && !s.connections[me].cleanupScheduled
    requires Items(s.connections[me]) == [] && s.queue == [] && !s.validating
    ensures var after := Answered(s, me, id, m); after.sent == s.sent + [Sent(me, f)] && after.registry == s.registry
    ensures if Acceptable(m) then f == Alive(id, ActiveHostnames(s.registry, m.owner, m.hostnames, Some(me)))
            else f == Failure(None, "INVALID_MESSAGE")
  {
    var s1 := Step(s, Receive(me, id, m));
    assert s1.connections[me].pending == [Parsed(id, m)] && s1.connections[me].inFlight == None;
    var s2 := Step(s1, Dispatch(me));
    assert HasHead(s2) && Head(s2) == Parsed(id, m) && s2.queue == [me];
    var s3 := Step(s2, Advance);
    assert s3 == Complete(s2);
    f := s3.sent[|s.sent|].frame;
  }

  /** What the server makes of a request that it takes up at once. */
  function Answered(s: Server, me: ConnectionId, id: RequestId, m: Message): Server {
    Step(Step(Step(s, Receive(me, id, m)), Dispatch(me)), Advance)
  }

  /** The client's half: it hears the answer and the caller runs on. */
  lemma RoundIsHeard(y: System, id: RequestId, m: Message, f: Frame)
    requires Quiet(y) && id !in y.asked && Own(m, y.token)
    requires Answered(y.server, y.me, id, m).sent == y.server.sent + [Sent(y.me, f)]
    ensures var done := AfterRound(y, id, m);
            && done.me == y.me && done.server == Answered(y.server, y.me, id, m)
            && done.client == Resumed(Handled(y.client.(pending := y.client.pending[id := m]), f))
  {
    OneFrame(y.server.sent, y.me, f, y.me);
    hide Step, Items, Handled, Resumed, Own;
    var heard := Next(Next(Next(y, Ask(id, m)), Serve(Dispatch(y.me))), Serve(Advance));
    assert heard ==
           y.(server := heard.server, client := y.client.(pending := y.client.pending[id := m]), asked := y.asked[id := m]);
    assert Log(heard) == Log(y) + [f];
  }

  lemma RoundReconciles(c: Client, held: set<Hostname>, id: RequestId, token: Token, hs: seq<Hostname>, active: seq<Hostname>)
    requires c.ready == [] && SetOf(hs) == c.claimed && held <= c.claimed
    requires forall h :: h in active <==> h in hs && h in held
    ensures var waiting := c.(pending := c.pending[id := Message.Heartbeat(token, hs)]);
            && Resumed(Handled(waiting, Alive(id, active))).claimed == held
            && Resumed(Handled(waiting, Failure(None, "INVALID_MESSAGE"))).claimed == c.claimed
  {
    var m := Message.Heartbeat(token, hs);
    var waiting := c.(pending := c.pending[id := m]);
    assert Handled(waiting, Alive(id, active)).ready == [Continuation(m, Alive(id, active))];
    assert Continued(c.claimed, Continuation(m, Alive(id, active))) == held;
  }

  /**
   * A heartbeat round with no interleaved step makes the claimed set equal to what the lease holds, unless more
   * than a hundred hostnames are claimed: the server refuses such a heartbeat, and the sets stay as they are.
   */
  lemma {:induction false} HeartbeatRoundReconciles(
      before: seq<Event>, me: ConnectionId, token: Token, actions: seq<Action>, id: RequestId, hs: seq<Hostname>)
    requires me !in Run(before).connections
    requires var y := After(Start(before, me, token), actions);
             && Quiet(y) && y.server.queue == [] && id !in y.asked
             && SetOf(hs) == y.client.claimed && Distinct(hs) && hs != []
    ensures var y := After(Start(before, me, token), actions);
            var done := AfterRound(y, id, Message.Heartbeat(y.token, hs));
            && done.server.registry == y.server.registry
            && (done.client.claimed == Held(done) <==> |hs| <= MAX_HOSTNAMES || y.client.claimed == Held(y))
            && (|hs| > MAX_HOSTNAMES ==> done.client.claimed == y.client.claimed)
  {
    hide AfterRound, After, Start, Run, Joined, Held, Quiet, SetOf;
    StartIsJoined(before, me, token);
    ReachableJoined(Start(before, me, token), actions);
    ClaimedCoversHeld(before, me, token, actions);
    JoinedRoundReconciles(After(Start(before, me, token), actions), id, hs);
  }

  lemma JoinedRoundReconciles(y: System, id: RequestId, hs: seq<Hostname>)
    requires Joined(y) && Quiet(y) && Held(y) <= y.client.claimed && y.server.queue == [] && id !in y.asked
    requires SetOf(hs) == y.client.claimed && Distinct(hs) && hs != []
    ensures var done := AfterRound(y, id, Message.Heartbeat(y.token, hs));
            && done.server.registry == y.server.registry
            && (done.client.claimed == Held(done) <==> |hs| <= MAX_HOSTNAMES || y.client.claimed == Held(y))
            && (|hs| > MAX_HOSTNAMES ==> done.client.claimed == y.client.claimed)
  {
    hide AfterRound, Answered, Handled, Resumed, ActiveHostnames, Awaited, Owed, Outlook, OwnerInv;
    assert !y.server.validating;
    var f := RoundIsAnswered(y.server, y.me, id, Message.Heartbeat(y.token, hs));
    RoundIsHeard(y, id, Message.Heartbeat(y.token, hs), f);
    var active := ActiveHostnames(y.server.registry, y.token, hs, Some(y.me));
    ActiveHostnamesAre(y.server.registry, y.token, hs, Some(y.me));
    assert forall h :: HeldBy(y.server.registry, h, y.token, Some(y.me)) <==> h in Held(y);
    RoundReconciles(y.client, Held(y), id, y.token, hs, active);
    assert Acceptable(Message.Heartbeat(y.token, hs)) <==> |hs| <= MAX_HOSTNAMES;
    assert Held(AfterRound(y, id, Message.Heartbeat(y.token, hs))) == Held(y);
  }

  /** The server's half of an unregistration round. */
  lemma UnregisterIsAnswered(s: Server, me: ConnectionId, id: RequestId, owner: Token, hs: seq<Hostname>)
      returns (f: Frame)
    requires me in s.connections && !s.connections[me].cleanupScheduled
    requires Items(s.connections[me]) == [] && s.queue == [] && !s.validating
    ensures var m := Message.Unregister(owner, hs);
            var after := Answered(s, me, id, m);
            && after.sent == s.sent + [Sent(me, f)]
            && if Acceptable(m) then
                 && f.Unregistered? && f.id == id
                 && (forall h :: h in f.hostnames <==> h in hs && HeldBy(s.registry, h, owner, Some(me)))
                 && after.registry.routes == map h | h in s.registry.routes && h !in f.hostnames :: s.registry.routes[h]
               else f == Failure(None, "INVALID_MESSAGE") && after.registry == s.registry
  {
    var m := Message.Unregister(owner, hs);
    var s1 := Step(s, Receive(me, id, m));
    assert s1.connections[me].pending == [Parsed(id, m)] && s1.connections[me].inFlight == None;
    var s2 := Step(s1, Dispatch(me));
    assert HasHead(s2) && Head(s2) == Parsed(id, m) && s2.queue == [me];
    var s3 := Step(s2, Advance);
    assert s3 == Complete(s2);
    f := s3.sent[|s.sent|].frame;
    ActiveHostnamesAre(s.registry, owner, hs, Some(me));
    UnregisterManyRemoves(s.registry, ActiveHostnames(s.registry, owner, hs, Some(me)), owner, Some(me));
  }

  /** The caller that asked to unregister hears the answer and runs on. */
  lemma UnregisterIsHeard(c: Client, id: RequestId, owner: Token, hs: seq<Hostname>, f: Frame)
    requires c.ready == [] && (f == Failure(None, "INVALID_MESSAGE") || (f.Unregistered? && f.id == id))
    ensures Resumed(Handled(c.(pending := c.pending[id := Message.Unregister(owner, hs)]), f)).claimed ==
            if f.Unregistered? then set h | h in c.claimed && h !in f.hostnames else c.claimed
  {
    var m := Message.Unregister(owner, hs);
    if f.Unregistered? {
      assert Handled(c.(pending := c.pending[id := m]), f).ready == [Continuation(m, f)];
    }
  }

  /**
   * An unregistration round with no interleaved step, over any run: what the lease held of the named hostnames goes
   * from the registry and from the claimed set, and nothing else changes; an unacceptable list changes nothing.
   */
  lemma {:induction false} UnregisterRoundReleases(
      before: seq<Event>, me: ConnectionId, token: Token, actions: seq<Action>, id: RequestId, hs: seq<Hostname>)
    requires me !in Run(before).connections
    requires var y := After(Start(before, me, token), actions);
             Quiet(y) && y.server.queue == [] && id !in y.asked && hs != []
    ensures var y := After(Start(before, me, token), actions);
            var done := AfterRound(y, id, Message.Unregister(y.token, hs));
            var gone := if Distinct(hs) && |hs| <= MAX_HOSTNAMES then SetOf(hs) * Held(y) else {};
            && done.server.registry.routes == y.server.registry.routes - gone
            && done.client.claimed == y.client.claimed - gone
  {
    hide AfterRound, After, Start, Run, Joined, Held, Quiet, SetOf;
    StartIsJoined(before, me, token);
    ReachableJoined(Start(before, me, token), actions);
    JoinedRoundReleases(After(Start(before, me, token), actions), id, hs);
  }

  lemma JoinedRoundReleases(y: System, id: RequestId, hs: seq<Hostname>)
    requires Joined(y) && Quiet(y) && y.server.queue == [] && id !in y.asked && hs != []
    ensures var done := AfterRound(y, id, Message.Unregister(y.token, hs));
            var gone := if Distinct(hs) && |hs| <= MAX_HOSTNAMES then SetOf(hs) * Held(y) else {};
            && done.server.registry.routes == y.server.registry.routes - gone
            && done.client.claimed == y.client.claimed - gone
  {
    hide AfterRound, Answered, Handled, Resumed, Awaited, Owed, Outlook, OwnerInv;
    var m := Message.Unregister(y.token, hs);
    assert !y.server.validating;
    var f := UnregisterIsAnswered(y.server, y.me, id, y.token, hs);
    RoundIsHeard(y, id, m, f);
    UnregisterIsHeard(y.client, id, y.token, hs, f);
    hide Inv, Quiet;
    assert forall h :: HeldBy(y.server.registry, h, y.token, Some(y.me)) <==> h in Held(y);
  }

  // ----- The class as it is written -----

  class ControlClient {
    const ownerToken: Token
    var claimed: set<Hostname>
    var pending: map<RequestId, Message>
    /** Callers whose promise is resolved, in the order in which it was. */
    var ready: seq<Continuation>
    var connected: bool
    var closing: bool
    /** The requests written to the socket, and the calls of `onRouteLost` and `onDisconnect`. */
    var written: seq<(RequestId, Message)>
    var losses: seq<Takeover>
    var disconnects: nat

    ghost function State(): Client
      reads this
    {
      Client(claimed, pending, ready)
    }

    constructor (token: Token)
      ensures ownerToken == token && State() == Client({}, map[], []) && !connected
      ensures written == [] && losses == [] && disconnects == 0
    {
      ownerToken := token;
      claimed, pending, ready := {}, map[], [];
      connected, closing := false, false;
      written, losses, disconnects := [], [], 0;
    }

    method Request(id: RequestId, m: Message) returns (sent: bool)
      modifies this`pending, this`written
      ensures sent == connected
      ensures pending == if sent then old(pending)[id := m] else old(pending)
      ensures written == if sent then old(written) + [(id, m)] else old(written)
    {
      if !connected {
        return false;
      }
      pending := pending[id := m];
      written := written + [(id, m)];
      return true;
    }

    /** Unregistering or confirming nothing needs no request. */
    method AskAbout(id: RequestId, hs: seq<Hostname>, heartbeat: bool) returns (sent: bool)
      modifies this`pending, this`written
      ensures sent == (connected && hs != [])
      ensures var m := if heartbeat then Message.Heartbeat(ownerToken, hs) else Message.Unregister(ownerToken, hs);
              && pending == (if sent then old(pending)[id := m] else old(pending))
              && written == (if sent then old(written) + [(id, m)] else old(written))
    {
      if hs == [] {
        return false;
      }
      sent := Request(id, if heartbeat then Message.Heartbeat(ownerToken, hs) else Message.Unregister(ownerToken, hs));
    }

    method HandleMessage(f: Frame)
      modifies this`claimed, this`pending, this`ready, this`losses
      ensures State() == Handled(old(State()), f)
      ensures losses == if f.RouteLost? then old(losses) + [f.takeover] else old(losses)
    {
      if f.RouteLost? {
        claimed := claimed - {f.takeover.hostname};
        losses := losses + [f.takeover];
        return;
      }
      var request := RequestOf(f);
      if request.None? || request.value !in pending {
        return;
      }
      var id, waiting := request.value, pending[request.value];
      pending := pending - {id};
      if f.Failure? {
        return;
      }
      ready := ready + [Continuation(waiting, f)];
    }

    method Claim(hs: seq<Hostname>)
      modifies this`claimed
      ensures claimed == old(claimed) + SetOf(hs)
    {
      var i := 0;
      while i < |hs|
        invariant 0 <= i <= |hs|
        invariant claimed == old(claimed) + SetOf(hs[..i])
      {
        assert hs[..i + 1] == hs[..i] + [hs[i]];
        claimed := claimed + {hs[i]};
        i := i + 1;
      }
      assert hs[..i] == hs;
    }

    /** Deletes the listed hostnames except the ones to keep. */
    method Disclaim(hs: seq<Hostname>, keep: set<Hostname>)
      modifies this`claimed
      ensures claimed == old(claimed) - (SetOf(hs) - keep)
    {
      var i := 0;
      while i < |hs|
        invariant 0 <= i <= |hs|
        invariant claimed == old(claimed) - (SetOf(hs[..i]) - keep)
      {
        assert hs[..i + 1] == hs[..i] + [hs[i]];
        if hs[i] !in keep {
          claimed := claimed - {hs[i]};
        }
        i := i + 1;
      }
      assert hs[..i] == hs;
    }

    /** The next answered caller runs on. */
    method RunOn()
      modifies this`claimed, this`ready
      ensures State() == Resumed(old(State()))
    {
      if ready == [] {
        return;
      }
      var k := ready[0];
      ready := ready[1..];
      match k.request {
        case Register(_) =>
          if k.reply.Registered? {
            Claim(k.reply.hostnames);
          }
        case Unregister(_, _) =>
          if k.reply.Unregistered? {
            Disclaim(k.reply.hostnames, {});
          }
        case Heartbeat(_, hs) =>
          if k.reply.Alive? {
            Disclaim(hs, SetOf(k.reply.hostnames));
          }
        case _ =>
      }
    }

    /** Every caller still waiting is refused; callers already answered run on. */
    method HandleDisconnect()
      modifies this`connected, this`pending, this`disconnects
      ensures !connected
      ensures State() == if old(connected) then old(State()).(pending := map[]) else old(State())
      ensures disconnects == old(disconnects) + if old(connected) && !closing then 1 else 0
    {
      if !connected {
        return;
      }
      connected := false;
      pending := map[];
      if !closing {
        disconnects := disconnects + 1;
      }
    }
  }
}
