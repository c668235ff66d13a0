/** What the control server accepts as a client message, on values as JSON parsing produces them. */
module ControlMessages {
  import opened Wrappers
  import Text

  /** The keys the protocol knows; any other key is ignored. */
  datatype Key =
    | VersionKey | TypeKey | RequestIdKey | ProtocolVersionKey | RoutesKey | OwnerTokenKey | HostnamesKey
    | HostnameKey | UpstreamHostKey | UpstreamPortKey | CorsKey | HostHeaderKey | InternalTlsKey
    | OtherKey(name: string)

  /** A number is an integer or not; the value of one that is not never matters. */
  datatype Json =
    | JNull
    | JBool(flag: bool)
    | JInt(number: int)
    | JFraction
    | JString(text: string)
    | JArray(items: seq<Json>)
    | JObject(fields: map<Key, Json>)

  datatype Route = Route(
    hostname: string,
    ownerToken: string,
    upstreamHost: string,
    upstreamPort: int,
    cors: Option<string>,
    hostHeader: Option<string>,
    internalTls: Option<bool>)

  datatype Message =
    | Negotiate(requestId: string, protocolVersion: int)
    | StopIfIdle(requestId: string)
    | Health(requestId: string)
    | Register(requestId: string, routes: seq<Route>)
    | Unregister(requestId: string, ownerToken: string, hostnames: seq<string>)
    | Heartbeat(requestId: string, ownerToken: string, hostnames: seq<string>)

  /** A foreign test for literal IP addresses. */
  type IsIp = string -> bool

  const MAX_ITEMS := 100

  function Field(fields: map<Key, Json>, k: Key): Option<Json> {
    if k in fields then Some(fields[k]) else None
  }

  /** The length in UTF-16 code units. */
  function Units(s: string): nat {
    if s == "" then 0 else (if s[0] as int > 0xFFFF then 2 else 1) + Units(s[1..])
  }

  // ----- What the patterns say -----

  predicate Lower(c: char) {
    'a' <= c <= 'z' || '0' <= c <= '9'
  }

  predicate Alphanumeric(c: char) {
    Lower(c) || 'A' <= c <= 'Z'
  }

  /** Letters, digits and inner hyphens. */
  predicate Label(s: string, letter: char -> bool) {
    s != "" && letter(s[0]) && letter(s[|s| - 1]) && forall c :: c in s ==> letter(c) || c == '-'
  }

  predicate ValidHostname(s: string) {
    Units(s) <= 253 && forall p :: p in Text.Split(s, '.') ==> Units(p) <= 63 && Label(p, c => Lower(c))
  }

  predicate TokenChar(c: char) {
    Alphanumeric(c) || c == '.' || c == '_' || c == ':' || c == '-'
  }

  predicate ValidOwner(s: string) {
    16 <= Units(s) <= 256 && forall c :: c in s ==> TokenChar(c)
  }

  predicate ValidRequestId(s: string) {
    1 <= Units(s) <= 128 && forall c :: c in s ==> TokenChar(c)
  }

  predicate HostPattern(s: string, ip: IsIp) {
    ip(s) || s == "localhost" || forall p :: p in Text.Split(s, '.') ==> Label(p, c => Alphanumeric(c))
  }

  predicate ValidUpstream(s: string, ip: IsIp) {
    s != "" && Units(s) <= 253 && HostPattern(s, ip)
  }

  predicate SafeText(s: string, limit: nat) {
    Units(s) <= limit && forall c :: c in s ==> c as int >= 32 && c as int != 127
  }

  predicate Distinct<T(==)>(xs: seq<T>) {
    forall i, j :: 0 <= i < j < |xs| ==> xs[i] != xs[j]
  }

  // ----- The parser -----

  function ParseHostname(v: Option<Json>): Result<string, string> {
    if v.Some? && v.value.JString? && ValidHostname(v.value.text) then Ok(v.value.text) else Err("INVALID_HOSTNAME")
  }

  function ParseOwner(v: Option<Json>): Result<string, string> {
    if v.Some? && v.value.JString? && ValidOwner(v.value.text) then Ok(v.value.text) else Err("INVALID_OWNER")
  }

  /** A host in brackets loses them. */
  function Unwrapped(s: string): string {
    if |s| >= 2 && s[0] == '[' && s[|s| - 1] == ']' then s[1..|s| - 1] else s
  }

  function ParseUpstream(v: Option<Json>, ip: IsIp): Result<string, string> {
    if v.None? || !v.value.JString? || v.value.text == "" || Units(v.value.text) > 253 then Err("INVALID_UPSTREAM")
    else if HostPattern(Unwrapped(v.value.text), ip) then Ok(Unwrapped(v.value.text))
    else Err("INVALID_UPSTREAM")
  }

  function ParsePort(v: Option<Json>): Result<int, string> {
    if v.Some? && v.value.JInt? && 1 <= v.value.number <= 65_535 then Ok(v.value.number) else Err("INVALID_PORT")
  }

  function ParseRequestId(v: Option<Json>): Result<string, string> {
    if v.Some? && v.value.JString? && ValidRequestId(v.value.text) then Ok(v.value.text) else Err("INVALID_MESSAGE")
  }

  function ParseText(v: Option<Json>, limit: nat): Result<Option<string>, string> {
    if v.None? then Ok(None)
    else if !v.value.JString? then Err("INVALID_ROUTE")
    else if SafeText(v.value.text, limit) then Ok(Some(v.value.text))
    else Err("INVALID_MESSAGE")
  }

  function ParseFlag(v: Option<Json>): Result<Option<bool>, string> {
    if v.None? then Ok(None) else if v.value.JBool? then Ok(Some(v.value.flag)) else Err("INVALID_ROUTE")
  }

  function ParseRoute(v: Json, ip: IsIp): Result<Route, string> {
    if !v.JObject? then
      Err("INVALID_ROUTE")
    else
      var hostname :- ParseHostname(Field(v.fields, HostnameKey));
      var owner :- ParseOwner(Field(v.fields, OwnerTokenKey));
      var host :- ParseUpstream(Field(v.fields, UpstreamHostKey), ip);
      var port :- ParsePort(Field(v.fields, UpstreamPortKey));
      var cors :- ParseText(Field(v.fields, CorsKey), 4096);
      var header :- ParseText(Field(v.fields, HostHeaderKey), 255);
      var internal :- ParseFlag(Field(v.fields, InternalTlsKey));
      Ok(Route(hostname, owner, host, port, cors, header, internal))
  }

  /** The first element that is refused decides. */
  function ParseRoutes(vs: seq<Json>, ip: IsIp): Result<seq<Route>, string> {
    if vs == [] then
      Ok([])
    else
      var first :- ParseRoute(vs[0], ip);
      var rest :- ParseRoutes(vs[1..], ip);
      Ok([first] + rest)
  }

  function ParseEachHostname(vs: seq<Json>): Result<seq<string>, string> {
    if vs == [] then
      Ok([])
    else
      var first :- ParseHostname(Some(vs[0]));
      var rest :- ParseEachHostname(vs[1..]);
      Ok([first] + rest)
  }

  function HostnamesOf(routes: seq<Route>): seq<string> {
    seq(|routes|, i requires 0 <= i < |routes| => routes[i].hostname)
  }

  function ParseHostnames(v: Option<Json>): Result<seq<string>, string> {
    if v.None? || !v.value.JArray? || !(1 <= |v.value.items| <= MAX_ITEMS) then
      Err("INVALID_MESSAGE")
    else
      var hs :- ParseEachHostname(v.value.items);
      if Distinct(hs) then Ok(hs) else Err("INVALID_MESSAGE")
  }

  function ParseRegistration(v: Option<Json>, ip: IsIp): Result<seq<Route>, string> {
    if v.None? || !v.value.JArray? || !(1 <= |v.value.items| <= MAX_ITEMS) then
      Err("INVALID_MESSAGE")
    else
      var routes :- ParseRoutes(v.value.items, ip);
      if Distinct(HostnamesOf(routes)) then Ok(routes) else Err("INVALID_MESSAGE")
  }

  function RequireType(v: Option<Json>): Result<string, string> {
    if v.Some? && v.value.JString? && v.value.text != "" then Ok(v.value.text) else Err("INVALID_MESSAGE")
  }

  function Parse(v: Json, ip: IsIp): Result<Message, string> {
    if !v.JObject? then
      Err("INVALID_MESSAGE")
    else
      var id :- ParseRequestId(Field(v.fields, RequestIdKey));
      var kind :- RequireType(Field(v.fields, TypeKey));
      var version := Field(v.fields, VersionKey);
      if version == Some(JInt(0)) && kind == "negotiate" then
        var protocol := Field(v.fields, ProtocolVersionKey);
        if protocol.Some? && protocol.value.JInt? && protocol.value.number >= 1 then Ok(Negotiate(id, protocol.value.number))
        else Err("INVALID_MESSAGE")
      else if version == Some(JInt(0)) && kind == "stop-if-idle" then
        Ok(StopIfIdle(id))
      else if version != Some(JInt(1)) then
        Err("UNSUPPORTED_VERSION")
      else if kind == "health" then
        Ok(Health(id))
      else if kind == "register" then
        var routes :- ParseRegistration(Field(v.fields, RoutesKey), ip);
        Ok(Register(id, routes))
      else if kind == "unregister" || kind == "heartbeat" then
        var owner :- ParseOwner(Field(v.fields, OwnerTokenKey));
        var hs :- ParseHostnames(Field(v.fields, HostnamesKey));
        Ok(if kind == "unregister" then Unregister(id, owner, hs) else Heartbeat(id, owner, hs))
      else
        Err("INVALID_MESSAGE")
  }

  // ----- Messages as they are sent -----

  function RouteJson(r: Route): Json {
    JObject(
      map[HostnameKey := JString(r.hostname), OwnerTokenKey := JString(r.ownerToken),
          UpstreamHostKey := JString(r.upstreamHost), UpstreamPortKey := JInt(r.upstreamPort)]
      + (if r.cors.Some? then map[CorsKey := JString(r.cors.value)] else map[])
      + (if r.hostHeader.Some? then map[HostHeaderKey := JString(r.hostHeader.value)] else map[])
      + (if r.internalTls.Some? then map[InternalTlsKey := JBool(r.internalTls.value)] else map[]))
  }

  function Head(version: int, kind: string, id: string): map<Key, Json> {
    map[VersionKey := JInt(version), TypeKey := JString(kind), RequestIdKey := JString(id)]
  }

  function Texts(xs: seq<string>): Json {
    JArray(seq(|xs|, i requires 0 <= i < |xs| => JString(xs[i])))
  }

  function RoutesJson(rs: seq<Route>): Json {
    JArray(seq(|rs|, i requires 0 <= i < |rs| => RouteJson(rs[i])))
  }

  function Encode(m: Message): Json {
    match m
    case Negotiate(id, n) => JObject(Head(0, "negotiate", id)[ProtocolVersionKey := JInt(n)])
    case StopIfIdle(id) => JObject(Head(0, "stop-if-idle", id))
    case Health(id) => JObject(Head(1, "health", id))
    case Register(id, rs) => JObject(Head(1, "register", id)[RoutesKey := RoutesJson(rs)])
    case Unregister(id, owner, hs) =>
      JObject(Head(1, "unregister", id)[OwnerTokenKey := JString(owner)][HostnamesKey := Texts(hs)])
    case Heartbeat(id, owner, hs) =>
      JObject(Head(1, "heartbeat", id)[OwnerTokenKey := JString(owner)][HostnamesKey := Texts(hs)])
  }

  // ----- Which messages are well formed -----

  predicate ValidRoute(r: Route, ip: IsIp) {
    && ValidHostname(r.hostname) && ValidOwner(r.ownerToken) && ValidUpstream(r.upstreamHost, ip)
    && 1 <= r.upstreamPort <= 65_535
    && (r.cors.Some? ==> SafeText(r.cors.value, 4096))
    && (r.hostHeader.Some? ==> SafeText(r.hostHeader.value, 255))
  }

  predicate ValidHostnames(hs: seq<string>) {
    1 <= |hs| <= MAX_ITEMS && Distinct(hs) && forall i :: 0 <= i < |hs| ==> ValidHostname(hs[i])
  }

  predicate Valid(m: Message, ip: IsIp) {
    && ValidRequestId(m.requestId)
    && match m
       case Negotiate(_, n) => n >= 1
       case StopIfIdle(_) => true
       case Health(_) => true
       case Register(_, rs) =>
         1 <= |rs| <= MAX_ITEMS && Distinct(HostnamesOf(rs)) && forall i :: 0 <= i < |rs| ==> ValidRoute(rs[i], ip)
       case Unregister(_, owner, hs) => ValidOwner(owner) && ValidHostnames(hs)
       case Heartbeat(_, owner, hs) => ValidOwner(owner) && ValidHostnames(hs)
  }

  /** No literal IP address starts with a bracket. */
  ghost predicate PlainIps(ip: IsIp) {
    forall s :: ip(s) ==> s != "" && s[0] != '['
  }

  lemma {:induction false} UnitsOfPrefix(s: string)
    requires s != ""
    ensures Units(s[..|s| - 1]) <= Units(s)
    decreases |s|
  {
    if |s| > 1 {
      assert s[..|s| - 1] == [s[0]] + s[1..][..|s[1..]| - 1];
      UnitsOfPrefix(s[1..]);
    }
  }

  lemma UnitsOfInner(s: string)
    requires |s| >= 2
    ensures Units(s[1..|s| - 1]) <= Units(s)
  {
    assert s[1..|s| - 1] == s[1..][..|s[1..]| - 1];
    UnitsOfPrefix(s[1..]);
  }

  /** What unwrapping leaves is accepted as it is. */
  lemma ParsedUpstream(v: Option<Json>, ip: IsIp)
    requires PlainIps(ip) && ParseUpstream(v, ip).Ok?
    ensures ValidUpstream(ParseUpstream(v, ip).value, ip)
  {
    var s := v.value.text;
    if Unwrapped(s) != s {
      UnitsOfInner(s);
    }
    if Unwrapped(s) == "" {
      assert Text.Split("", '.') == [""];
      assert "" in Text.Split("", '.');
    }
  }

  lemma PatternStart(s: string, ip: IsIp)
    requires PlainIps(ip) && s != "" && HostPattern(s, ip)
    ensures s[0] != '['
  {
    var p := Text.Split(s, '.')[0];
    assert p in Text.Split(s, '.');
    assert p == "" || p[0] == s[0];
  }

  lemma ValidUpstreamParses(s: string, ip: IsIp)
    requires PlainIps(ip) && ValidUpstream(s, ip)
    ensures ParseUpstream(Some(JString(s)), ip) == Ok(s)
  {
    PatternStart(s, ip);
  }

  lemma ParsedRoute(v: Json, ip: IsIp)
    requires PlainIps(ip) && ParseRoute(v, ip).Ok?
    ensures ValidRoute(ParseRoute(v, ip).value, ip)
  {
    hide ValidHostname, ValidOwner, ValidUpstream, SafeText, HostPattern, Units, Unwrapped;
    if ParseUpstream(Field(v.fields, UpstreamHostKey), ip).Ok? {
      ParsedUpstream(Field(v.fields, UpstreamHostKey), ip);
    }
  }

  lemma ValidRouteParses(r: Route, ip: IsIp)
    requires PlainIps(ip) && ValidRoute(r, ip)
    ensures ParseRoute(RouteJson(r), ip) == Ok(r)
  {
    hide ValidHostname, ValidOwner, ValidUpstream, SafeText, HostPattern, Units, Unwrapped, ParseUpstream;
    ValidUpstreamParses(r.upstreamHost, ip);
  }

  lemma {:induction false} ParsedRoutes(vs: seq<Json>, ip: IsIp)
    requires PlainIps(ip) && ParseRoutes(vs, ip).Ok?
    ensures var rs := ParseRoutes(vs, ip).value; |rs| == |vs| && forall i :: 0 <= i < |rs| ==> ValidRoute(rs[i], ip)
    decreases |vs|
  {
    hide ParseRoute, ValidRoute;
    if vs != [] {
      ParsedRoute(vs[0], ip);
      ParsedRoutes(vs[1..], ip);
    }
  }

  lemma {:induction false} ValidRoutesParse(rs: seq<Route>, ip: IsIp)
    requires PlainIps(ip) && forall i :: 0 <= i < |rs| ==> ValidRoute(rs[i], ip)
    ensures ParseRoutes(RoutesJson(rs).items, ip) == Ok(rs)
    decreases |rs|
  {
    hide ParseRoute, ValidRoute, RouteJson;
    if rs != [] {
      ValidRouteParses(rs[0], ip);
      ValidRoutesParse(rs[1..], ip);
      assert RoutesJson(rs).items[1..] == RoutesJson(rs[1..]).items;
      assert rs == [rs[0]] + rs[1..];
    }
  }

  lemma {:induction false} ParsedEachHostname(vs: seq<Json>)
    requires ParseEachHostname(vs).Ok?
    ensures var hs := ParseEachHostname(vs).value; |hs| == |vs| && forall i :: 0 <= i < |hs| ==> ValidHostname(hs[i])
    decreases |vs|
  {
    hide ValidHostname;
    if vs != [] {
      ParsedEachHostname(vs[1..]);
    }
  }

  lemma {:induction false} ValidHostnamesParse(hs: seq<string>)
    requires forall i :: 0 <= i < |hs| ==> ValidHostname(hs[i])
    ensures ParseEachHostname(Texts(hs).items) == Ok(hs)
    decreases |hs|
  {
    hide ValidHostname;
    if hs != [] {
      ValidHostnamesParse(hs[1..]);
      assert Texts(hs).items[1..] == Texts(hs[1..]).items;
      assert hs == [hs[0]] + hs[1..];
    }
  }

  // ----- Parsing and sending undo each other -----

  lemma ParsedRegistration(v: Option<Json>, ip: IsIp)
    requires PlainIps(ip) && ParseRegistration(v, ip).Ok?
    ensures var rs := ParseRegistration(v, ip).value;
            1 <= |rs| <= MAX_ITEMS && Distinct(HostnamesOf(rs)) && forall i :: 0 <= i < |rs| ==> ValidRoute(rs[i], ip)
  {
    hide ValidRoute, ParseRoute;
    ParsedRoutes(v.value.items, ip);
  }

  lemma ParsedHostnames(v: Option<Json>)
    requires ParseHostnames(v).Ok?
    ensures ValidHostnames(ParseHostnames(v).value)
  {
    hide ValidHostname;
    ParsedEachHostname(v.value.items);
  }

  /** What the parser accepts is well formed. */
  lemma ParsedIsValid(v: Json, ip: IsIp)
    requires PlainIps(ip) && Parse(v, ip).Ok?
    ensures Valid(Parse(v, ip).value, ip)
  {
    hide ParseRegistration, ParseHostnames, ValidHostnames, ValidRoute, ValidOwner, ValidRequestId, HostnamesOf, PlainIps;
    var registration := ParseRegistration(Field(v.fields, RoutesKey), ip);
    if registration.Ok? {
      ParsedRegistration(Field(v.fields, RoutesKey), ip);
    }
    if ParseHostnames(Field(v.fields, HostnamesKey)).Ok? {
      ParsedHostnames(Field(v.fields, HostnamesKey));
    }
  }

  lemma RegisterParses(id: string, rs: seq<Route>, ip: IsIp)
    requires PlainIps(ip) && Valid(Register(id, rs), ip)
    ensures Parse(Encode(Register(id, rs)), ip) == Ok(Register(id, rs))
  {
    hide ValidRoute, ParseRoutes, ValidRequestId, PlainIps;
    ValidRoutesParse(rs, ip);
    assert ParseRegistration(Some(RoutesJson(rs)), ip) == Ok(rs);
    hide ParseRegistration, RoutesJson;
  }

  lemma OwnedParses(m: Message, ip: IsIp)
    requires (m.Unregister? || m.Heartbeat?) && Valid(m, ip)
    ensures Parse(Encode(m), ip) == Ok(m)
  {
    hide ValidHostname, ParseEachHostname, ValidRequestId, ValidOwner;
    ValidHostnamesParse(m.hostnames);
    assert ParseHostnames(Some(Texts(m.hostnames))) == Ok(m.hostnames);
    hide ParseHostnames, Texts;
  }

  /** A message is well formed exactly when sending it and parsing what arrives gives the same message back. */
  lemma ValidExactlyWhenItRoundTrips(m: Message, ip: IsIp)
    requires PlainIps(ip)
    ensures Valid(m, ip) <==> Parse(Encode(m), ip) == Ok(m)
  {
    hide PlainIps, ValidRequestId;
    if Valid(m, ip) {
      match m {
        case Register(id, rs) => RegisterParses(id, rs, ip);
        case Unregister(_, _, _) => OwnedParses(m, ip);
        case Heartbeat(_, _, _) => OwnedParses(m, ip);
        case _ =>
      }
    }
    if Parse(Encode(m), ip) == Ok(m) {
      ParsedIsValid(Encode(m), ip);
    }
  }

  /** Parsing a parsed message again returns it unchanged. */
  lemma ReparsingChangesNothing(v: Json, ip: IsIp)
    requires PlainIps(ip) && Parse(v, ip).Ok?
    ensures Parse(Encode(Parse(v, ip).value), ip) == Parse(v, ip)
  {
    hide Parse, Encode, Valid;
    ParsedIsValid(v, ip);
    ValidExactlyWhenItRoundTrips(Parse(v, ip).value, ip);
  }
}
