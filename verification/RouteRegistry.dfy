/** Which connection holds which hostname, and who is told when a hostname changes owners. */
module RouteRegistry {
  import opened Wrappers
  import Sequences

  type Hostname = string
  type Token = string
  type ConnectionId = nat

  datatype Registration = Registration(hostname: Hostname, owner: Token, upstream: string)
  datatype ActiveRoute = ActiveRoute(registration: Registration, lease: ConnectionId) {
    function Owner(): Token { registration.owner }
  }
  datatype Takeover = Takeover(hostname: Hostname, owner: Token, replacement: Token)

  /** A subscribed callback; every subscription has an identity of its own. */
  datatype Listener = Listener(id: nat, connection: ConnectionId)
  datatype Notice = Notice(listener: Listener, takeover: Takeover)

  /** The routes, and the listeners of each owner token in the order they subscribed. */
  datatype Registry = Registry(routes: map<Hostname, ActiveRoute>, listeners: map<Token, seq<Listener>>)

  function ListenersOf(r: Registry, owner: Token): seq<Listener> {
    if owner in r.listeners then r.listeners[owner] else []
  }

  function Notices(listeners: seq<Listener>, t: Takeover): seq<Notice> {
    if listeners == [] then [] else [Notice(listeners[0], t)] + Notices(listeners[1..], t)
  }

  /** A registration always wins; listeners hear of it only when another owner held the hostname. */
  function RegisteredOne(r: Registry, g: Registration, lease: ConnectionId): (Registry, seq<Notice>) {
    (r.(routes := r.routes[g.hostname := ActiveRoute(g, lease)]),
     if g.hostname in r.routes && r.routes[g.hostname].Owner() != g.owner then
       var previous := r.routes[g.hostname].Owner();
       Notices(ListenersOf(r, previous), Takeover(g.hostname, previous, g.owner))
     else [])
  }

  function RegisteredAll(r: Registry, gs: seq<Registration>, lease: ConnectionId): (Registry, seq<Notice>)
    decreases |gs|
  {
    if gs == [] then
      (r, [])
    else
      var (r1, n1) := RegisteredOne(r, gs[0], lease);
      var (r2, n2) := RegisteredAll(r1, gs[1..], lease);
      (r2, n1 + n2)
  }

  /** The route is held by this token and, when a lease is given, under that lease. */
  predicate HeldBy(r: Registry, h: Hostname, owner: Token, lease: Option<ConnectionId>) {
    h in r.routes && r.routes[h].Owner() == owner && (lease.Some? ==> r.routes[h].lease == lease.value)
  }

  function Unregistered(r: Registry, h: Hostname, owner: Token, lease: Option<ConnectionId>): Registry {
    if HeldBy(r, h, owner, lease) then r.(routes := r.routes - {h}) else r
  }

  function UnregisteredAll(r: Registry, hs: seq<Hostname>, owner: Token, lease: Option<ConnectionId>): (Registry, seq<Hostname>)
    decreases |hs|
  {
    if hs == [] then
      (r, [])
    else
      var (r1, removed) := UnregisteredAll(Unregistered(r, hs[0], owner, lease), hs[1..], owner, lease);
      (r1, if HeldBy(r, hs[0], owner, lease) then [hs[0]] + removed else removed)
  }

  function OwnerRemoved(r: Registry, owner: Token, lease: Option<ConnectionId>): Registry {
    r.(routes := map h | h in r.routes && !HeldBy(r, h, owner, lease) :: r.routes[h])
  }

  function ActiveHostnames(r: Registry, owner: Token, hs: seq<Hostname>, lease: Option<ConnectionId>): seq<Hostname>
    decreases |hs|
  {
    if hs == [] then
      []
    else
      (if HeldBy(r, hs[0], owner, lease) then [hs[0]] else []) + ActiveHostnames(r, owner, hs[1..], lease)
  }

  function Subscribed(r: Registry, owner: Token, l: Listener): Registry {
    r.(listeners := r.listeners[owner := ListenersOf(r, owner) + [l]])
  }

  function Without(listeners: seq<Listener>, l: Listener): seq<Listener> {
    if listeners == [] then
      []
    else
      (if listeners[0] == l then [] else [listeners[0]]) + Without(listeners[1..], l)
  }

  function Unsubscribed(r: Registry, owner: Token, l: Listener): Registry {
    if owner !in r.listeners then
      r
    else
      var rest := Without(r.listeners[owner], l);
      r.(listeners := if rest == [] then r.listeners - {owner} else r.listeners[owner := rest])
  }

  // ----- What the operations mean -----

  lemma {:induction false} ActiveHostnamesAre(r: Registry, owner: Token, hs: seq<Hostname>, lease: Option<ConnectionId>)
    ensures forall h :: h in ActiveHostnames(r, owner, hs, lease) <==> h in hs && HeldBy(r, h, owner, lease)
    decreases |hs|
  {
    if hs != [] {
      ActiveHostnamesAre(r, owner, hs[1..], lease);
      assert forall h :: h in hs <==> h == hs[0] || h in hs[1..];
    }
  }

  lemma ActiveHostnamesStep(r: Registry, owner: Token, hs: seq<Hostname>, i: nat, lease: Option<ConnectionId>)
    requires i < |hs|
    ensures ActiveHostnames(r, owner, hs[i..], lease) ==
            if HeldBy(r, hs[i], owner, lease) then [hs[i]] + ActiveHostnames(r, owner, hs[i + 1..], lease)
            else ActiveHostnames(r, owner, hs[i + 1..], lease)
  {
    assert hs[i..][1..] == hs[i + 1..];
    Sequences.Empty(ActiveHostnames(r, owner, hs[i + 1..], lease));
  }

  lemma ActiveHostnamesEnd(r: Registry, owner: Token, lease: Option<ConnectionId>)
    ensures ActiveHostnames(r, owner, [], lease) == []
  {
  }

  /** Unregistering removes exactly the listed hostnames that the token holds under the lease. */
  lemma {:induction false} UnregisterManyRemoves(r: Registry, hs: seq<Hostname>, owner: Token, lease: Option<ConnectionId>)
    ensures var (after, removed) := UnregisteredAll(r, hs, owner, lease);
            && after.listeners == r.listeners
            && (forall h :: h in removed <==> h in hs && HeldBy(r, h, owner, lease))
            && after.routes == map h | h in r.routes && h !in removed :: r.routes[h]
    decreases |hs|
  {
    if hs != [] {
      var r1 := Unregistered(r, hs[0], owner, lease);
      UnregisterManyRemoves(r1, hs[1..], owner, lease);
      assert forall h :: h in hs <==> h == hs[0] || h in hs[1..];
    }
  }

  /** Registering changes no listener, and gives every named hostname to the lease. */
  lemma {:induction false} RegisterManyClaims(r: Registry, gs: seq<Registration>, lease: ConnectionId)
    ensures var (after, _) := RegisteredAll(r, gs, lease);
            && after.listeners == r.listeners
            && (forall h :: h in after.routes ==>
                  if exists g :: g in gs && g.hostname == h then
                    after.routes[h].lease == lease && after.routes[h].registration in gs
                  else h in r.routes && after.routes[h] == r.routes[h])
            && (forall g :: g in gs ==> g.hostname in after.routes)
            && r.routes.Keys <= after.routes.Keys
    decreases |gs|
  {
    if gs != [] {
      var (r1, _) := RegisteredOne(r, gs[0], lease);
      RegisterManyClaims(r1, gs[1..], lease);
      assert forall g :: g in gs <==> g == gs[0] || g in gs[1..];
      var (after, _) := RegisteredAll(r, gs, lease);
      forall h | h in after.routes
        ensures if exists g :: g in gs && g.hostname == h then
                  after.routes[h].lease == lease && after.routes[h].registration in gs
                else h in r.routes && after.routes[h] == r.routes[h]
      {
        if !(exists g :: g in gs[1..] && g.hostname == h) && h == gs[0].hostname {
          assert gs[0] in gs && gs[0].hostname == h;
        }
      }
    }
  }

  lemma {:induction false} NoticesAre(listeners: seq<Listener>, t: Takeover)
    ensures var ns := Notices(listeners, t);
            |ns| == |listeners| && forall i :: 0 <= i < |ns| ==> ns[i] == Notice(listeners[i], t)
    decreases |listeners|
  {
    if listeners != [] {
      NoticesAre(listeners[1..], t);
    }
  }

  lemma {:induction false} WithoutKeeps(listeners: seq<Listener>, l: Listener)
    ensures forall x :: x in Without(listeners, l) <==> x in listeners && x != l
    ensures Unique(listeners) ==> Unique(Without(listeners, l))
    decreases |listeners|
  {
    if listeners != [] {
      WithoutKeeps(listeners[1..], l);
      var rest := Without(listeners[1..], l);
      if Unique(listeners) && listeners[0] != l {
        assert forall i :: 0 <= i < |rest| ==> rest[i] in rest;
        forall i, j | 0 <= i < j < |[listeners[0]] + rest| ensures ([listeners[0]] + rest)[i] != ([listeners[0]] + rest)[j] {
          if i == 0 {
            assert rest[j - 1] in listeners[1..];
          }
        }
      }
    }
  }

  predicate Unique(listeners: seq<Listener>) {
    forall i, j :: 0 <= i < j < |listeners| ==> listeners[i] != listeners[j]
  }

  // ----- The class as it is written -----

  class RouteRegistry {
    var routes: map<Hostname, ActiveRoute>
    var listeners: map<Token, seq<Listener>>
    /** Every callback made so far. */
    var notices: seq<Notice>

    ghost function Contents(): Registry
      reads this
    {
      Registry(routes, listeners)
    }

    constructor ()
      ensures Contents() == Registry(map[], map[]) && notices == []
    {
      routes, listeners, notices := map[], map[], [];
    }

    method Register(g: Registration, lease: ConnectionId)
      modifies this
      ensures var (after, made) := RegisteredOne(old(Contents()), g, lease);
              Contents() == after && notices == old(notices) + made
    {
      var previous := if g.hostname in routes then Some(routes[g.hostname]) else None;
      routes := routes[g.hostname := ActiveRoute(g, lease)];
      if previous.Some? && previous.value.Owner() != g.owner {
        var takeover := Takeover(g.hostname, previous.value.Owner(), g.owner);
        var called := if previous.value.Owner() in listeners then listeners[previous.value.Owner()] else [];
        var i := 0;
        assert called[0..] == called;
        while i < |called|
          modifies this`notices
          invariant 0 <= i <= |called|
          invariant notices + Notices(called[i..], takeover) == old(notices) + Notices(called, takeover)
        {
          assert called[i..][1..] == called[i + 1..];
          notices := notices + [Notice(called[i], takeover)];
          i := i + 1;
        }
      }
    }

    method RegisterMany(gs: seq<Registration>, lease: ConnectionId)
      modifies this
      ensures var (after, made) := RegisteredAll(old(Contents()), gs, lease);
              Contents() == after && notices == old(notices) + made
    {
      ghost var (after, made) := RegisteredAll(Contents(), gs, lease);
      var i := 0;
      assert gs[0..] == gs;
      while i < |gs|
        invariant 0 <= i <= |gs|
        invariant var (rest, more) := RegisteredAll(Contents(), gs[i..], lease);
                  rest == after && notices + more == old(notices) + made
      {
        assert gs[i..][1..] == gs[i + 1..];
        ghost var before := notices;
        ghost var (r1, n1) := RegisteredOne(Contents(), gs[i], lease);
        Sequences.Assoc(before, n1, RegisteredAll(r1, gs[i + 1..], lease).1);
        Register(gs[i], lease);
        i := i + 1;
      }
      Sequences.Empty(notices);
    }

    method Unregister(h: Hostname, owner: Token, lease: Option<ConnectionId>) returns (removed: bool)
      modifies this`routes
      ensures Contents() == Unregistered(old(Contents()), h, owner, lease)
      ensures removed == old(HeldBy(Contents(), h, owner, lease))
    {
      if h !in routes || routes[h].Owner() != owner || (lease.Some? && routes[h].lease != lease.value) {
        return false;
      }
      routes := routes - {h};
      return true;
    }

    method UnregisterMany(hs: seq<Hostname>, owner: Token, lease: Option<ConnectionId>) returns (removed: seq<Hostname>)
      modifies this`routes
      ensures (Contents(), removed) == UnregisteredAll(old(Contents()), hs, owner, lease)
    {
      ghost var (after, all) := UnregisteredAll(Contents(), hs, owner, lease);
      removed := [];
      var i := 0;
      assert hs[0..] == hs;
      while i < |hs|
        invariant 0 <= i <= |hs|
        invariant var (rest, more) := UnregisteredAll(Contents(), hs[i..], owner, lease);
                  rest == after && removed + more == all
      {
        assert hs[i..][1..] == hs[i + 1..];
        var gone := Unregister(hs[i], owner, lease);
        if gone {
          removed := removed + [hs[i]];
        }
        i := i + 1;
      }
      assert hs[i..] == [] && removed + [] == removed;
    }

    method FilterActive(hs: seq<Hostname>, owner: Token, lease: Option<ConnectionId>) returns (active: seq<Hostname>)
      ensures active == ActiveHostnames(Contents(), owner, hs, lease)
    {
      hide ActiveHostnames;
      ghost var r := Contents();
      active := [];
      var i := 0;
      assert hs[0..] == hs;
      while i < |hs|
        invariant 0 <= i <= |hs|
        invariant active + ActiveHostnames(r, owner, hs[i..], lease) == ActiveHostnames(r, owner, hs, lease)
      {
        ActiveHostnamesStep(r, owner, hs, i, lease);
        Sequences.Assoc(active, [hs[i]], ActiveHostnames(r, owner, hs[i + 1..], lease));
        if hs[i] in routes && routes[hs[i]].Owner() == owner && (lease.Some? ==> routes[hs[i]].lease == lease.value) {
          active := active + [hs[i]];
        }
        i := i + 1;
      }
      ActiveHostnamesEnd(r, owner, lease);
      assert hs[i..] == [];
      Sequences.Empty(active);
    }

    /** Visits every entry that is still there, deleting as it goes. */
    method UnregisterOwner(owner: Token, lease: Option<ConnectionId>)
      modifies this`routes
      ensures Contents() == OwnerRemoved(old(Contents()), owner, lease)
    {
      var left := routes.Keys;
      while left != {}
        decreases |left|
        invariant left <= routes.Keys <= old(routes.Keys)
        invariant forall h :: h in routes ==> routes[h] == old(routes)[h]
        invariant forall h :: h in old(routes) && h in left ==> h in routes
        invariant forall h :: h in old(routes) && h !in left ==>
                    (h in routes <==> !HeldBy(old(Contents()), h, owner, lease))
      {
        var h :| h in left;
        left := left - {h};
        var gone := Unregister(h, owner, lease);
      }
    }

    method Subscribe(owner: Token, l: Listener)
      modifies this`listeners
      ensures Contents() == Subscribed(old(Contents()), owner, l)
    {
      var known := if owner in listeners then listeners[owner] else [];
      listeners := listeners[owner := known + [l]];
    }

    method Unsubscribe(owner: Token, l: Listener)
      modifies this`listeners
      ensures Contents() == Unsubscribed(old(Contents()), owner, l)
    {
      if owner in listeners {
        var rest := Without(listeners[owner], l);
        listeners := listeners[owner := rest];
        if rest == [] {
          listeners := listeners - {owner};
        }
      }
    }
  }
}
