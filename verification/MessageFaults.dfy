/** What the patterns of the control protocol allow, character by character, and which fault an answer names. */
module MessageFaults {
  import opened Wrappers
  import opened ControlMessages
  import Text

  lemma LettersAre(c: char)
    ensures Lower(c) <==> c in Text.SMALL + Text.DIGITS
    ensures Alphanumeric(c) <==> c in Text.SMALL + Text.CAPITAL + Text.DIGITS
    ensures TokenChar(c) <==> c in Text.SMALL + Text.CAPITAL + Text.DIGITS + "._:-"
  {
    Text.SmallAre(c);
    Text.CapitalAre(c);
    Text.DigitsAre(c);
    assert c in "._:-" <==> c == '.' || c == '_' || c == ':' || c == '-';
    hide Text.SMALL, Text.CAPITAL, Text.DIGITS;
  }

  // ----- Lengths -----

  /** A text has as many units as its parts together: two for a character beyond the basic plane, one for any other. */
  lemma {:induction false} UnitsAdd(a: string, b: string)
    ensures Units(a + b) == Units(a) + Units(b)
    ensures Units("") == 0 && forall c: char :: Units([c]) == if c as int >= 0x1_0000 then 2 else 1
  {
    forall c: char ensures Units([c]) == if c as int >= 0x1_0000 then 2 else 1 {
      assert [c][1..] == "";
    }
    if a == "" {
      assert a + b == b;
    } else {
      assert (a + b)[1..] == a[1..] + b && (a + b)[0] == a[0];
      UnitsAdd(a[1..], b);
    }
  }

  // ----- Patterns -----

  lemma RequestIdExactly(s: string)
    ensures ValidRequestId(s) <==> 1 <= Units(s) <= 128 && Text.Spelled(s, Text.SMALL + Text.CAPITAL + Text.DIGITS + "._:-")
  {
    forall c | c in s ensures TokenChar(c) <==> c in Text.SMALL + Text.CAPITAL + Text.DIGITS + "._:-" {
      LettersAre(c);
    }
    hide Text.SMALL, Text.CAPITAL, Text.DIGITS, TokenChar, Units;
  }

  lemma OwnerExactly(s: string)
    ensures ValidOwner(s) <==> 16 <= Units(s) <= 256 && Text.Spelled(s, Text.SMALL + Text.CAPITAL + Text.DIGITS + "._:-")
  {
    forall c | c in s ensures TokenChar(c) <==> c in Text.SMALL + Text.CAPITAL + Text.DIGITS + "._:-" {
      LettersAre(c);
    }
    hide Text.SMALL, Text.CAPITAL, Text.DIGITS, TokenChar, Units;
  }

  /** Letters of the alphabet and inner hyphens. */
  predicate Hyphenated(s: string, alphabet: string) {
    s != "" && Text.Spelled(s, alphabet + "-") && s[0] != '-' && s[|s| - 1] != '-'
  }

  lemma LabelIsHyphenated(s: string)
    ensures Label(s, c => Lower(c)) <==> Hyphenated(s, Text.SMALL + Text.DIGITS)
    ensures Label(s, c => Alphanumeric(c)) <==> Hyphenated(s, Text.SMALL + Text.CAPITAL + Text.DIGITS)
  {
    assert !Lower('-') && !Alphanumeric('-');
    forall c | c in s
      ensures (Lower(c) <==> c in Text.SMALL + Text.DIGITS) && (Alphanumeric(c) <==> c in Text.SMALL + Text.CAPITAL + Text.DIGITS)
    {
      LettersAre(c);
    }
    hide Text.SMALL, Text.CAPITAL, Text.DIGITS, Lower, Alphanumeric;
    if s != "" {
      assert s[0] in s && s[|s| - 1] in s;
    }
  }

  /**
   * Labels joined by dots are a hostname exactly when there are at most 253 units in all and each label has at most
   * 63, of small letters, digits and inner hyphens. Every text is such a join.
   */
  lemma {:induction false} HostnameExactly(labels: seq<string>)
    requires labels != [] && forall l :: l in labels ==> '.' !in l
    ensures var s := Text.Join(labels, '.');
            ValidHostname(s) <==>
            Units(s) <= 253 && forall l :: l in labels ==> Units(l) <= 63 && Hyphenated(l, Text.SMALL + Text.DIGITS)
  {
    assert Text.AllFree(labels, '.');
    Text.SplitJoin(labels, '.');
    hide Label, Hyphenated, Text.Split, Text.Join, Text.SMALL, Text.DIGITS, Units;
    forall l | l in labels ensures Label(l, c => Lower(c)) <==> Hyphenated(l, Text.SMALL + Text.DIGITS) {
      LabelIsHyphenated(l);
    }
  }

  /** The same for an upstream host, which may be an address or `localhost`, and may have capital letters. */
  lemma {:induction false} UpstreamExactly(labels: seq<string>, ip: IsIp)
    requires labels != [] && forall l :: l in labels ==> '.' !in l
    ensures var s := Text.Join(labels, '.');
            ValidUpstream(s, ip) <==>
            && s != "" && Units(s) <= 253
            && (ip(s) || forall l :: l in labels ==> Hyphenated(l, Text.SMALL + Text.CAPITAL + Text.DIGITS))
  {
    LocalhostIsHyphenated();
    assert Text.AllFree(labels, '.');
    Text.SplitJoin(labels, '.');
    hide Label, Hyphenated, Text.Split, Text.Join, Text.SMALL, Text.CAPITAL, Text.DIGITS, Units;
    forall l | l in labels ensures Label(l, c => Alphanumeric(c)) <==> Hyphenated(l, Text.SMALL + Text.CAPITAL + Text.DIGITS) {
      LabelIsHyphenated(l);
    }
  }

  const LOCAL := "localhost"

  lemma LocalhostIsSmall()
    ensures Text.Free(LOCAL, '.') && forall c :: c in LOCAL ==> Alphanumeric(c)
  {
  }

  lemma LocalhostIsHyphenated()
    ensures Label("localhost", c => Alphanumeric(c)) && Text.Split("localhost", '.') == ["localhost"]
  {
    LocalhostIsSmall();
    hide Alphanumeric, Text.Free, Text.Split;
    Text.SplitFree(LOCAL, '.');
    assert LOCAL[0] in LOCAL && LOCAL[|LOCAL| - 1] in LOCAL;
  }

  // ----- Which fault is named -----

  /** The field is a text of this kind. */
  predicate IsText(fields: map<Key, Json>, k: Key, ok: string -> bool) {
    k in fields && fields[k].JString? && ok(fields[k].text)
  }

  /** An optional text is missing, or free of control characters and not too long. */
  predicate IsNote(fields: map<Key, Json>, k: Key, limit: nat) {
    k in fields ==> fields[k].JString? && Units(fields[k].text) <= limit
                    && forall c :: c in fields[k].text ==> c as int > 31 && c as int != 127
  }

  predicate IsHost(fields: map<Key, Json>, ip: IsIp) {
    var k := UpstreamHostKey;
    && k in fields && fields[k].JString? && fields[k].text != "" && Units(fields[k].text) <= 253
    && var s := fields[k].text;
       var inner := if |s| > 1 && s[0] == '[' && s[|s| - 1] == ']' then s[1..|s| - 1] else s;
       HostPattern(inner, ip)
  }

  predicate IsPort(fields: map<Key, Json>) {
    UpstreamPortKey in fields && fields[UpstreamPortKey].JInt? && 0 < fields[UpstreamPortKey].number < 0x1_0000
  }

  /** The fault of an optional text: of the wrong kind, or not acceptable. */
  function NoteFault(fields: map<Key, Json>, k: Key): string
    requires k in fields
  {
    if fields[k].JString? then "INVALID_MESSAGE" else "INVALID_ROUTE"
  }

  /** A route is refused for the first of its fields that is not as it should be, and accepted if all are. */
  lemma {:induction false} RouteNamesFirstFault(fields: map<Key, Json>, ip: IsIp)
    ensures var answer := ParseRoute(JObject(fields), ip);
            if !IsText(fields, HostnameKey, s => ValidHostname(s)) then answer == Err("INVALID_HOSTNAME")
            else if !IsText(fields, OwnerTokenKey, s => ValidOwner(s)) then answer == Err("INVALID_OWNER")
            else if !IsHost(fields, ip) then answer == Err("INVALID_UPSTREAM")
            else if !IsPort(fields) then answer == Err("INVALID_PORT")
            else if !IsNote(fields, CorsKey, 4096) then answer == Err(NoteFault(fields, CorsKey))
            else if !IsNote(fields, HostHeaderKey, 255) then answer == Err(NoteFault(fields, HostHeaderKey))
            else if InternalTlsKey in fields && !fields[InternalTlsKey].JBool? then answer == Err("INVALID_ROUTE")
            else answer.Ok?
    ensures forall v: Json :: !v.JObject? ==> ParseRoute(v, ip) == Err("INVALID_ROUTE")
  {
    hide ValidHostname, ValidOwner, HostPattern, Units;
  }

  /** A list of routes is refused for the first route that is. */
  lemma {:induction false} FirstRefusedRouteDecides(vs: seq<Json>, ip: IsIp, i: nat, code: string)
    requires i < |vs| && ParseRoute(vs[i], ip) == Err(code) && forall j :: 0 <= j < i ==> ParseRoute(vs[j], ip).Ok?
    ensures ParseRoutes(vs, ip) == Err(code)
  {
    hide ParseRoute;
    if i > 0 {
      assert forall j :: 0 <= j < i - 1 ==> vs[1..][j] == vs[j + 1];
      FirstRefusedRouteDecides(vs[1..], ip, i - 1, code);
    }
  }

  /** A list of hostnames is read off its texts, or refused for one that is not a hostname. */
  lemma {:induction false} HostnamesAnswer(vs: seq<Json>)
    ensures var answer := ParseEachHostname(vs);
            if forall i :: 0 <= i < |vs| ==> vs[i].JString? && ValidHostname(vs[i].text) then
              && answer.Ok? && |answer.value| == |vs|
              && forall i :: 0 <= i < |vs| ==> vs[i] == JString(answer.value[i])
            else answer == Err("INVALID_HOSTNAME")
  {
    hide ValidHostname;
    if vs != [] {
      HostnamesAnswer(vs[1..]);
      assert forall i :: 1 <= i < |vs| ==> vs[i] == vs[1..][i - 1];
    }
  }

  predicate IsList(fields: map<Key, Json>, k: Key) {
    k in fields && fields[k].JArray? && 0 < |fields[k].items| < 101
  }

  /** The request id, then the type, then the version. */
  lemma {:induction false} EnvelopeFaults(v: Json, ip: IsIp)
    ensures !v.JObject? ==> Parse(v, ip) == Err("INVALID_MESSAGE")
    ensures v.JObject? ==>
              var fields := v.fields;
              var zero := VersionKey in fields && fields[VersionKey] == JInt(0);
              var one := VersionKey in fields && fields[VersionKey] == JInt(1);
              if !IsText(fields, RequestIdKey, s => ValidRequestId(s)) || !IsText(fields, TypeKey, s => s != "") then
                Parse(v, ip) == Err("INVALID_MESSAGE")
              else
                var id, kind := fields[RequestIdKey].text, fields[TypeKey].text;
                if zero && kind == "stop-if-idle" then Parse(v, ip) == Ok(StopIfIdle(id))
                else if zero && kind == "negotiate" then
                  var n := ProtocolVersionKey;
                  if n in fields && fields[n].JInt? && fields[n].number > 0 then Parse(v, ip) == Ok(Negotiate(id, fields[n].number))
                  else Parse(v, ip) == Err("INVALID_MESSAGE")
                else if !one then Parse(v, ip) == Err("UNSUPPORTED_VERSION")
                else if kind == "health" then Parse(v, ip) == Ok(Health(id))
                else kind !in ["register", "unregister", "heartbeat"] ==> Parse(v, ip) == Err("INVALID_MESSAGE")
  {
    hide ValidRequestId, ParseRegistration, ParseOwner, ParseHostnames;
  }

  /** The message is of this type under version 1, with an acceptable request id. */
  predicate Framed(fields: map<Key, Json>, kind: string) {
    && IsText(fields, RequestIdKey, s => ValidRequestId(s))
    && TypeKey in fields && fields[TypeKey] == JString(kind)
    && VersionKey in fields && fields[VersionKey] == JInt(1)
  }

  /** A release or heartbeat: the owner, then the list, then its hostnames, then that they differ. */
  lemma {:induction false} OwnedFaults(fields: map<Key, Json>, ip: IsIp, kind: string)
    requires kind in ["unregister", "heartbeat"] && Framed(fields, kind)
    ensures var answer := Parse(JObject(fields), ip);
            if !IsText(fields, OwnerTokenKey, s => ValidOwner(s)) then answer == Err("INVALID_OWNER")
            else if !IsList(fields, HostnamesKey) then answer == Err("INVALID_MESSAGE")
            else
              var vs := fields[HostnamesKey].items;
              if exists i :: 0 <= i < |vs| && !(vs[i].JString? && ValidHostname(vs[i].text)) then
                answer == Err("INVALID_HOSTNAME")
              else if !Distinct(vs) then answer == Err("INVALID_MESSAGE")
              else
                && answer.Ok? && answer.value.requestId == fields[RequestIdKey].text
                && (if kind == "unregister" then answer.value.Unregister? else answer.value.Heartbeat?)
                && answer.value.ownerToken == fields[OwnerTokenKey].text
                && fields[HostnamesKey] == Texts(answer.value.hostnames)
  {
    hide ValidRequestId, ValidOwner, ValidHostname, ParseRegistration, ParseEachHostname;
    if IsList(fields, HostnamesKey) {
      var vs := fields[HostnamesKey].items;
      HostnamesAnswer(vs);
      if ParseEachHostname(vs).Ok? {
        var hs := ParseEachHostname(vs).value;
        assert Distinct(hs) <==> Distinct(vs);
        assert Texts(hs).items == vs;
      }
    }
  }

  /** A registration: the list, then its first refused route, then that the hostnames differ. */
  lemma {:induction false} RegisterFaults(fields: map<Key, Json>, ip: IsIp)
    requires Framed(fields, "register")
    ensures var answer := Parse(JObject(fields), ip);
            if !IsList(fields, RoutesKey) then answer == Err("INVALID_MESSAGE")
            else
              match ParseRoutes(fields[RoutesKey].items, ip)
              case Err(code) => answer == Err(code)
              case Ok(routes) =>
                if exists i, j :: 0 <= i < j < |routes| && routes[i].hostname == routes[j].hostname then
                  answer == Err("INVALID_MESSAGE")
                else answer == Ok(Register(fields[RequestIdKey].text, routes))
  {
    hide ValidRequestId, ParseRoutes, ParseOwner, ParseHostnames;
    if IsList(fields, RoutesKey) && ParseRoutes(fields[RoutesKey].items, ip).Ok? {
      var routes := ParseRoutes(fields[RoutesKey].items, ip).value;
      var names := HostnamesOf(routes);
      assert |names| == |routes| && forall i :: 0 <= i < |routes| ==> names[i] == routes[i].hostname;
      if i, j :| 0 <= i < j < |routes| && routes[i].hostname == routes[j].hostname {
        assert names[i] == names[j];
      }
    }
  }
}
