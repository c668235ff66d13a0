/** The systemd definition of an installation, and when a definition counts as that of another installation. */
module SystemdUnit {
  import opened Wrappers
  import Text

  /** A missing control socket is the empty text. */
  datatype Options = Options(
    username: string,
    uid: nat,
    home: string,
    runtimeDirectory: string,
    nodePath: string,
    cliPath: string,
    namespace: string,
    controlSocket: string)

  datatype Version = V1 | V2

  // ----- Quoting -----

  /** Percent signs, then backslashes, then quotes; the order matters. */
  function Escaped(value: string): string {
    Text.ReplaceAll(Text.ReplaceAll(Text.ReplaceAll(value, '%', "%%"), '\\', "\\\\"), '"', "\\\"")
  }

  function Quote(value: string): string {
    "\"" + Escaped(value) + "\""
  }

  // ----- How a quoted list is read -----

  /** The rest of a quoted value: a backslash keeps the next character, two percent signs are one. */
  function ReadValue(s: string): Option<(string, string)> {
    if s == "" then None
    else if s[0] == '"' then Some(("", s[1..]))
    else if s[0] == '\\' then
      if |s| < 2 then None else Prepend(s[1], ReadValue(s[2..]))
    else if s[0] == '%' then
      if |s| < 2 || s[1] != '%' then None else Prepend('%', ReadValue(s[2..]))
    else
      Prepend(s[0], ReadValue(s[1..]))
  }

  function Prepend(c: char, r: Option<(string, string)>): Option<(string, string)> {
    match r
    case None => None
    case Some((value, rest)) => Some(([c] + value, rest))
  }

  lemma {:induction false} ReadShrinks(s: string)
    ensures ReadValue(s).Some? ==> |ReadValue(s).value.1| < |s|
    decreases |s|
  {
    if s != "" && s[0] != '"' {
      if s[0] == '\\' || s[0] == '%' {
        if |s| >= 2 {
          ReadShrinks(s[2..]);
        }
      } else {
        ReadShrinks(s[1..]);
      }
    }
  }

  /** Quoted values separated by single spaces. */
  function ReadList(s: string): Option<seq<string>>
    decreases |s|
  {
    if s == "" || s[0] != '"' then
      None
    else
      match ReadValue(s[1..])
      case None => None
      case Some((value, rest)) =>
        ReadShrinks(s[1..]);
        if rest == "" then Some([value])
        else if rest[0] != ' ' then None
        else match ReadList(rest[1..]) case None => None case Some(more) => Some([value] + more)
  }

  /** One character in a quoted value. */
  function Coded(c: char): string {
    if c == '%' then "%%" else if c == '\\' then "\\\\" else if c == '"' then "\\\"" else [c]
  }

  function CodedAll(s: string): string {
    if s == "" then "" else Coded(s[0]) + CodedAll(s[1..])
  }

  lemma ReplaceOne(x: char, c: char, t: string)
    ensures Text.ReplaceAll([x], c, t) == if x == c then t else [x]
    ensures x != c ==> Text.ReplaceAll([x, x], c, t) == [x, x]
  {
    assert [x][1..] == "" && [x, x][1..] == [x];
    assert t + Text.ReplaceAll("", c, t) == t;
  }

  lemma {:induction false} EscapedAppend(a: string, b: string)
    ensures Escaped(a + b) == Escaped(a) + Escaped(b)
  {
    Text.ReplaceAllAppend(a, b, '%', "%%");
    var a1, b1 := Text.ReplaceAll(a, '%', "%%"), Text.ReplaceAll(b, '%', "%%");
    Text.ReplaceAllAppend(a1, b1, '\\', "\\\\");
    Text.ReplaceAllAppend(Text.ReplaceAll(a1, '\\', "\\\\"), Text.ReplaceAll(b1, '\\', "\\\\"), '"', "\\\"");
  }

  lemma EscapedOne(x: char)
    ensures Escaped([x]) == Coded(x)
  {
    hide Text.ReplaceAll;
    ReplaceOne(x, '%', "%%");
    ReplaceOne(x, '\\', "\\\\");
    ReplaceOne(x, '"', "\\\"");
  }

  lemma {:induction false} EscapedIsCoded(s: string)
    ensures Escaped(s) == CodedAll(s)
  {
    hide Escaped, Coded;
    if s == "" {
      EscapedEmpty();
    } else {
      EscapedIsCoded(s[1..]);
      EscapedOne(s[0]);
      EscapedAppend([s[0]], s[1..]);
      assert [s[0]] + s[1..] == s;
    }
  }

  lemma EscapedEmpty()
    ensures Escaped("") == ""
  {
  }

  lemma {:induction false} ReadQuoted(s: string, rest: string)
    ensures ReadValue(CodedAll(s) + "\"" + rest) == Some((s, rest))
  {
    if s == "" {
      assert (CodedAll(s) + "\"" + rest)[1..] == rest;
    } else {
      var more := CodedAll(s[1..]) + "\"" + rest;
      assert CodedAll(s) + "\"" + rest == Coded(s[0]) + more;
      ReadQuoted(s[1..], rest);
      assert [s[0]] + s[1..] == s;
    }
  }

  function QuoteAll(args: seq<string>): seq<string> {
    seq(|args|, i requires 0 <= i < |args| => Quote(args[i]))
  }

  lemma ReadOne(value: string, rest: string)
    ensures ReadValue((Quote(value) + rest)[1..]) == Some((value, rest))
  {
    EscapedIsCoded(value);
    assert (Quote(value) + rest)[1..] == CodedAll(value) + "\"" + rest;
    ReadQuoted(value, rest);
  }

  /** A quoted argument list is read back as exactly the arguments. */
  lemma {:induction false} QuotedListReadsBack(args: seq<string>)
    requires args != []
    ensures ReadList(Text.Join(QuoteAll(args), ' ')) == Some(args)
    decreases |args|
  {
    hide ReadValue, Escaped;
    if |args| == 1 {
      ReadOne(args[0], "");
      assert Quote(args[0]) + "" == Quote(args[0]);
      assert args == [args[0]];
    } else {
      var rest := Text.Join(QuoteAll(args[1..]), ' ');
      QuotedListReadsBack(args[1..]);
      assert QuoteAll(args)[1..] == QuoteAll(args[1..]);
      ReadOne(args[0], [' '] + rest);
      assert Quote(args[0]) + [' '] + rest == Quote(args[0]) + ([' '] + rest);
      assert ([' '] + rest)[1..] == rest;
      assert args == [args[0]] + args[1..];
    }
  }

  lemma QuoteIsInjective(a: string, b: string)
    ensures Quote(a) == Quote(b) <==> a == b
  {
    ReadOne(a, "");
    ReadOne(b, "");
    assert Quote(a) + "" == Quote(a) && Quote(b) + "" == Quote(b);
  }

  // ----- The definition -----

  const PACKAGE := "@vampaz/vite-plugin-local-tls"
  const OWNER_MARKER := "managed startup-service-v2 by " + PACKAGE
  const LEGACY_OWNER_MARKER := "generated by " + PACKAGE
  const CAPABILITY := "CAP_NET_BIND_SERVICE"

  function Marker(v: Version): string {
    if v == V1 then LEGACY_OWNER_MARKER else OWNER_MARKER
  }

  predicate IsDigit(c: char) {
    '0' <= c <= '9'
  }

  function LeadingDigits(s: string): string {
    if s == "" || !IsDigit(s[0]) then "" else [s[0]] + LeadingDigits(s[1..])
  }

  function Digit(c: char): nat
    requires IsDigit(c)
  {
    c as int - '0' as int
  }

  function Number(s: string): nat
    requires forall c :: c in s ==> IsDigit(c)
  {
    if s == "" then 0 else Number(s[..|s| - 1]) * 10 + Digit(s[|s| - 1])
  }

  function Decimal(n: nat): string {
    if n < 10 then [('0' as int + n) as char] else Decimal(n / 10) + [('0' as int + n % 10) as char]
  }

  lemma {:induction false} LeadingDigitsAre(s: string)
    ensures |LeadingDigits(s)| <= |s| && forall c :: c in LeadingDigits(s) ==> IsDigit(c)
  {
    if s != "" && IsDigit(s[0]) {
      LeadingDigitsAre(s[1..]);
    }
  }

  const USER_RUNTIME := "/run/user/"
  const MAX_SAFE_INTEGER := 0x1F_FFFF_FFFF_FFFF

  /** The number after `/run/user/`, when the directory is one of a user's runtime directories. */
  function RuntimeUid(directory: string): Option<nat> {
    if !(USER_RUNTIME <= directory) then
      None
    else
      var rest := directory[|USER_RUNTIME|..];
      var digits := LeadingDigits(rest);
      LeadingDigitsAre(rest);
      if digits == "" || (|digits| < |rest| && rest[|digits|] != '/') then None else Some(Number(digits))
  }

  /** The unit a runtime directory needs; one that belongs to another user is refused. */
  function RuntimeUnit(o: Options, v: Version): Result<Option<string>, string> {
    if v == V1 || RuntimeUid(o.runtimeDirectory).None? then Ok(None)
    else if RuntimeUid(o.runtimeDirectory).value > MAX_SAFE_INTEGER || RuntimeUid(o.runtimeDirectory).value != o.uid then
      Err("foreign runtime directory")
    else Ok(Some("user-runtime-dir@" + Decimal(o.uid) + ".service"))
  }

  function Arguments(o: Options): seq<string> {
    [o.nodePath, o.cliPath, "proxy", "start", "--service", "--namespace", o.namespace]
    + (if o.controlSocket == "" then [] else ["--control-socket", o.controlSocket])
  }

  function After(unit: Option<string>): string {
    "After=network.target" + (if unit.Some? then " " + unit.value else "")
  }

  /** The lines that carry values of this installation. */
  function Values(o: Options): seq<string> {
    [ "User=" + o.username,
      "Environment=HOME=" + Quote(o.home),
      "Environment=VITE_LOCAL_TLS_RUNTIME_DIRECTORY=" + Quote(o.runtimeDirectory),
      "ExecStart=" + Text.Join(QuoteAll(Arguments(o)), ' ')]
  }

  const UNIT_HEAD: seq<string> := ["[Unit]", "Description=Vite local TLS proxy"]
  const SERVICE_HEAD: seq<string> := ["[Service]", "Type=simple"]
  const SERVICE_TAIL: seq<string> := [
    "Restart=on-failure", "RestartSec=1", "AmbientCapabilities=" + CAPABILITY,
    "CapabilityBoundingSet=" + CAPABILITY, "NoNewPrivileges=true", "PrivateTmp=false"]
  const INSTALL: seq<string> := ["[Install]", "WantedBy=multi-user.target"]

  /** The unit section, which names the runtime directory's unit when there is one. */
  function UnitPart(unit: Option<string>): seq<string> {
    UNIT_HEAD + [After(unit)] + (if unit.Some? then ["Requires=" + unit.value] else [])
  }

  function Lines(o: Options, v: Version, unit: Option<string>): seq<string> {
    ["# " + Marker(v)] + UnitPart(unit) + [""] + (SERVICE_HEAD + Values(o) + SERVICE_TAIL) + [""] + INSTALL + [""]
  }

  function Definition(o: Options, v: Version): Result<string, string> {
    match RuntimeUnit(o, v)
    case Err(e) => Err(e)
    case Ok(unit) => Ok(Text.Join(Lines(o, v, unit), '\n'))
  }

  // ----- Comparing definitions -----

  function TrimStart(s: string): string {
    if s != "" && Text.White(s[0]) then TrimStart(s[1..]) else s
  }

  function TrimEnd(s: string): string {
    if s != "" && Text.White(s[|s| - 1]) then TrimEnd(s[..|s| - 1]) else s
  }

  /** Trimming also removes a carriage return, so lines may end in either way. */
  function Trim(s: string): string {
    TrimEnd(TrimStart(s))
  }

  function Trimmed(lines: seq<string>): seq<string> {
    seq(|lines|, i requires 0 <= i < |lines| => Trim(lines[i]))
  }

  /** Neither blank nor a comment. */
  predicate Telling(line: string) {
    line != "" && line[0] != '#' && line[0] != ';'
  }

  function TellingOnes(lines: seq<string>): seq<string> {
    if lines == [] then [] else (if Telling(lines[0]) then [lines[0]] else []) + TellingOnes(lines[1..])
  }

  function Normalized(contents: string): seq<string> {
    TellingOnes(Trimmed(Text.Split(contents, '\n')))
  }

  /** The contents carry the owner marker and say the same as the definition of the installation. */
  function Matches(contents: string, o: Options, v: Version): Result<bool, string> {
    match Definition(o, v)
    case Err(e) => Err(e)
    case Ok(expected) =>
      Ok(("# " + Marker(v)) in Trimmed(Text.Split(contents, '\n')) && Normalized(contents) == Normalized(expected))
  }

  /** What the installer insists on: a plain user name, and values without control characters. */
  predicate Printable(value: string) {
    value != "" && forall c :: c in value ==> c as int >= 32 && c as int != 127
  }

  predicate UserChar(c: char) {
    'a' <= c <= 'z' || 'A' <= c <= 'Z' || c == '_'
  }

  predicate PlainUser(name: string) {
    && name != "" && UserChar(name[0])
    && forall i :: 1 <= i < |name| ==>
         UserChar(name[i]) || IsDigit(name[i]) || name[i] == '-' || (name[i] == '$' && i == |name| - 1)
  }

  predicate Accepted(o: Options) {
    && PlainUser(o.username) && Printable(o.home) && Printable(o.runtimeDirectory)
    && Printable(o.nodePath) && Printable(o.cliPath) && Printable(o.namespace)
    && (o.controlSocket == "" || Printable(o.controlSocket))
  }

  /** The installations agree in everything a definition depends on. */
  predicate Agree(a: Options, b: Options) {
    && a.username == b.username && a.home == b.home && a.runtimeDirectory == b.runtimeDirectory
    && a.nodePath == b.nodePath && a.cliPath == b.cliPath
    && a.namespace == b.namespace && a.controlSocket == b.controlSocket
  }

  // ----- What a generated definition normalizes to -----

  predicate OneLine(s: string) {
    '\n' !in s
  }

  /** Trimming leaves the text alone. */
  predicate Solid(s: string) {
    s != "" ==> !Text.White(s[0]) && !Text.White(s[|s| - 1])
  }

  lemma {:induction false} CodedOneLine(s: string)
    requires OneLine(s)
    ensures OneLine(CodedAll(s))
  {
    if s != "" {
      CodedOneLine(s[1..]);
    }
  }

  lemma QuoteOneLine(value: string)
    requires OneLine(value)
    ensures OneLine(Quote(value)) && Solid(Quote(value)) && |Quote(value)| >= 2
  {
    EscapedIsCoded(value);
    CodedOneLine(value);
    hide Escaped;
  }

  lemma {:induction false} ListOneLine(args: seq<string>)
    requires args != [] && forall i :: 0 <= i < |args| ==> OneLine(args[i])
    ensures var s := Text.Join(QuoteAll(args), ' '); OneLine(s) && Solid(s) && s != ""
    decreases |args|
  {
    hide Quote;
    QuoteOneLine(args[0]);
    if |args| > 1 {
      assert QuoteAll(args)[1..] == QuoteAll(args[1..]);
      ListOneLine(args[1..]);
    }
  }

  lemma PrintableOneLine(value: string)
    requires Printable(value)
    ensures OneLine(value)
  {
  }

  predicate Clean(line: string) {
    OneLine(line) && Solid(line)
  }

  lemma UserIsClean(name: string)
    requires PlainUser(name)
    ensures Clean("User=" + name)
  {
    forall c | c in name ensures c != '\n' && !Text.White(c) {
      var i :| 0 <= i < |name| && name[i] == c;
    }
    assert name[|name| - 1] in name;
  }

  lemma ArgumentsOneLine(o: Options)
    requires Accepted(o)
    ensures Clean("ExecStart=" + Text.Join(QuoteAll(Arguments(o)), ' '))
  {
    var args := Arguments(o);
    PrintableOneLine(o.nodePath);
    PrintableOneLine(o.cliPath);
    PrintableOneLine(o.namespace);
    forall i | 0 <= i < |args| ensures OneLine(args[i]) {
    }
    ListOneLine(args);
  }

  lemma CleanBehind(name: string, value: string)
    requires name != "" && OneLine(name) && !Text.White(name[0]) && Clean(value) && value != ""
    ensures Clean(name + value) && (name + value)[0] == name[0]
  {
  }

  lemma ValuesAreClean(o: Options)
    requires Accepted(o)
    ensures forall i :: 0 <= i < |Values(o)| ==> Clean(Values(o)[i]) && Telling(Values(o)[i])
  {
    hide Quote, PlainUser, Printable;
    UserIsClean(o.username);
    PrintableOneLine(o.home);
    PrintableOneLine(o.runtimeDirectory);
    QuoteOneLine(o.home);
    QuoteOneLine(o.runtimeDirectory);
    CleanBehind("Environment=HOME=", Quote(o.home));
    CleanBehind("Environment=VITE_LOCAL_TLS_RUNTIME_DIRECTORY=", Quote(o.runtimeDirectory));
    ArgumentsOneLine(o);
    hide Clean;
  }

  lemma {:induction false} DecimalIsDigits(n: nat)
    ensures Decimal(n) != "" && forall c :: c in Decimal(n) ==> IsDigit(c)
  {
    if n >= 10 {
      DecimalIsDigits(n / 10);
    }
  }

  lemma NameIsClean(n: nat)
    ensures var unit := "user-runtime-dir@" + Decimal(n) + ".service"; Clean(unit) && unit != ""
    ensures OneLine("Requires=") && OneLine("After=network.target ")
  {
    DecimalIsDigits(n);
    hide Decimal;
    assert forall c :: c in Decimal(n) ==> c != '\n';
  }

  lemma UnitIsClean(n: nat)
    ensures var unit := "user-runtime-dir@" + Decimal(n) + ".service"; Clean(After(Some(unit))) && Clean("Requires=" + unit)
  {
    hide Decimal;
    NameIsClean(n);
    var unit := "user-runtime-dir@" + Decimal(n) + ".service";
    hide OneLine;
    CleanBehind("Requires=", unit);
    CleanBehind("After=network.target ", unit);
    assert "After=network.target" + (" " + unit) == "After=network.target " + unit;
  }

  /** Every line of a generated definition survives trimming, and none contains a line break. */
  predicate AllClean(lines: seq<string>) {
    forall i :: 0 <= i < |lines| ==> Clean(lines[i])
  }

  lemma AllCleanAppend(a: seq<string>, b: seq<string>)
    requires AllClean(a) && AllClean(b)
    ensures AllClean(a + b)
  {
  }

  lemma PackageIsClean()
    ensures Clean(PACKAGE) && PACKAGE != ""
  {
  }

  lemma MarkerIsClean(v: Version)
    ensures AllClean(["# " + Marker(v)]) && AllClean([""])
  {
    hide Clean;
    PackageIsClean();
    CleanBehind(if v == V1 then "generated by " else "managed startup-service-v2 by ", PACKAGE);
    CleanBehind("# ", Marker(v));
    NothingIsClean();
  }

  lemma NothingIsClean()
    ensures Clean("")
  {
  }

  lemma HeadsAreClean()
    ensures AllClean(UNIT_HEAD) && AllClean(SERVICE_HEAD)
  {
  }

  lemma InstallIsClean()
    ensures AllClean(INSTALL)
  {
  }

  lemma TailIsClean()
    ensures AllClean(SERVICE_TAIL)
  {
    assert Clean("Restart=on-failure") && Clean("RestartSec=1") && Clean("PrivateTmp=false");
    hide Clean;
  }

  /** The unit is absent, or named after a user id. */
  ghost predicate Regular(unit: Option<string>) {
    unit.Some? ==> exists n: nat :: unit.value == "user-runtime-dir@" + Decimal(n) + ".service"
  }

  lemma UnitPartIsClean(unit: Option<string>)
    requires Regular(unit)
    ensures AllClean(UnitPart(unit)) && forall i :: 0 <= i < |UnitPart(unit)| ==> Telling(UnitPart(unit)[i])
  {
    hide Clean, Decimal, After;
    UnitPartIsTelling(unit);
    HeadsAreClean();
    AfterIsClean();
    if unit.Some? {
      var n: nat :| unit.value == "user-runtime-dir@" + Decimal(n) + ".service";
      UnitIsClean(n);
    }
    hide Telling;
    AllCleanAppend(UNIT_HEAD, [After(unit)]);
    AllCleanAppend(UNIT_HEAD + [After(unit)], if unit.Some? then ["Requires=" + unit.value] else []);
  }

  lemma AfterIsClean()
    ensures Clean(After(None))
  {
  }

  lemma UnitPartIsTelling(unit: Option<string>)
    ensures forall i :: 0 <= i < |UnitPart(unit)| ==> Telling(UnitPart(unit)[i])
  {
  }

  lemma LinesAreClean(o: Options, v: Version, unit: Option<string>)
    requires Accepted(o) && Regular(unit)
    ensures AllClean(Lines(o, v, unit))
  {
    hide AllClean, UnitPart, Values, Accepted, Regular, Marker;
    MarkerIsClean(v);
    HeadsAreClean();
    TailIsClean();
    InstallIsClean();
    UnitPartIsClean(unit);
    ValuesAllClean(o);
    var service := SERVICE_HEAD + Values(o) + SERVICE_TAIL;
    AllCleanAppend(SERVICE_HEAD, Values(o));
    AllCleanAppend(SERVICE_HEAD + Values(o), SERVICE_TAIL);
    var head := ["# " + Marker(v)] + UnitPart(unit);
    AllCleanAppend(["# " + Marker(v)], UnitPart(unit));
    AllCleanAppend(head, [""]);
    AllCleanAppend(head + [""], service);
    AllCleanAppend(head + [""] + service, [""]);
    AllCleanAppend(head + [""] + service + [""], INSTALL);
    AllCleanAppend(head + [""] + service + [""] + INSTALL, [""]);
  }

  lemma ValuesAllClean(o: Options)
    requires Accepted(o)
    ensures AllClean(Values(o))
  {
    ValuesAreClean(o);
  }

  /** Splitting and trimming a generated definition gives back its lines. */
  lemma DefinitionLines(lines: seq<string>)
    requires lines != [] && AllClean(lines)
    ensures Trimmed(Text.Split(Text.Join(lines, '\n'), '\n')) == lines
  {
    forall p | p in lines ensures Text.Free(p, '\n') {
      var i :| 0 <= i < |lines| && lines[i] == p;
      assert Clean(lines[i]);
    }
    Text.SplitJoin(lines, '\n');
    hide Text.Split, Text.Join, Trim;
    forall i | 0 <= i < |lines| ensures Trim(lines[i]) == lines[i] {
    }
  }

  lemma {:induction false} TellingAppend(a: seq<string>, b: seq<string>)
    ensures TellingOnes(a + b) == TellingOnes(a) + TellingOnes(b)
    decreases |a|
  {
    if a == [] {
      assert a + b == b;
    } else {
      assert (a + b)[1..] == a[1..] + b;
      TellingAppend(a[1..], b);
    }
  }

  lemma {:induction false} AllTelling(lines: seq<string>)
    requires forall i :: 0 <= i < |lines| ==> Telling(lines[i])
    ensures TellingOnes(lines) == lines
    decreases |lines|
  {
    if lines != [] {
      AllTelling(lines[1..]);
    }
  }

  /** What a definition says, without comments and blank lines. */
  function Core(o: Options, unit: Option<string>): seq<string> {
    UnitPart(unit) + (SERVICE_HEAD + Values(o) + SERVICE_TAIL) + INSTALL
  }

  lemma NothingTold(v: Version)
    ensures TellingOnes(["# " + Marker(v)]) == [] && TellingOnes([""]) == []
  {
    assert ["# " + Marker(v)][1..] == [] && [""][1..] == [];
  }

  lemma ServiceTells(o: Options)
    requires Accepted(o)
    ensures var service := SERVICE_HEAD + Values(o) + SERVICE_TAIL; TellingOnes(service) == service
    ensures TellingOnes(INSTALL) == INSTALL
  {
    ValuesAreClean(o);
    hide Values, Clean;
    var service := SERVICE_HEAD + Values(o) + SERVICE_TAIL;
    forall i | 0 <= i < |service| ensures Telling(service[i]) {
    }
    AllTelling(service);
    AllTelling(INSTALL);
  }

  lemma LinesTell(o: Options, v: Version, unit: Option<string>)
    requires Accepted(o) && Regular(unit)
    ensures TellingOnes(Lines(o, v, unit)) == Core(o, unit)
  {
    hide TellingOnes, UnitPart, Values, Accepted, Regular, Marker;
    NothingTold(v);
    UnitPartTells(unit);
    ServiceTells(o);
    var service := SERVICE_HEAD + Values(o) + SERVICE_TAIL;
    var head := ["# " + Marker(v)] + UnitPart(unit);
    TellingAppend(["# " + Marker(v)], UnitPart(unit));
    TellingAppend(head, [""]);
    TellingAppend(head + [""], service);
    TellingAppend(head + [""] + service, [""]);
    TellingAppend(head + [""] + service + [""], INSTALL);
    TellingAppend(head + [""] + service + [""] + INSTALL, [""]);
  }

  lemma UnitPartTells(unit: Option<string>)
    requires Regular(unit)
    ensures TellingOnes(UnitPart(unit)) == UnitPart(unit)
  {
    UnitPartIsClean(unit);
    AllTelling(UnitPart(unit));
  }

  // ----- Whose definition it is -----

  lemma Cancel(p: string, x: string, y: string)
    ensures p + x == p + y <==> x == y
  {
    assert (p + x)[|p|..] == x && (p + y)[|p|..] == y;
  }

  lemma ValuesAgree(a: Options, b: Options)
    ensures Values(a) == Values(b) <==> Agree(a, b)
  {
    Cancel("User=", a.username, b.username);
    Cancel("Environment=HOME=", Quote(a.home), Quote(b.home));
    Cancel("Environment=VITE_LOCAL_TLS_RUNTIME_DIRECTORY=", Quote(a.runtimeDirectory), Quote(b.runtimeDirectory));
    var x, y := Text.Join(QuoteAll(Arguments(a)), ' '), Text.Join(QuoteAll(Arguments(b)), ' ');
    Cancel("ExecStart=", x, y);
    QuoteIsInjective(a.home, b.home);
    QuoteIsInjective(a.runtimeDirectory, b.runtimeDirectory);
    QuotedListReadsBack(Arguments(a));
    QuotedListReadsBack(Arguments(b));
    hide Quote, ReadList, Text.Join;
    ArgumentsAgree(a, b);
  }

  lemma ArgumentsAgree(a: Options, b: Options)
    ensures Arguments(a) == Arguments(b) <==>
            && a.nodePath == b.nodePath && a.cliPath == b.cliPath
            && a.namespace == b.namespace && a.controlSocket == b.controlSocket
  {
    var x, y := Arguments(a), Arguments(b);
    assert x[0] == a.nodePath && x[1] == a.cliPath && x[6] == a.namespace;
    assert y[0] == b.nodePath && y[1] == b.cliPath && y[6] == b.namespace;
    assert a.controlSocket != "" ==> x[8] == a.controlSocket;
    assert b.controlSocket != "" ==> y[8] == b.controlSocket;
  }

  lemma UnitPartsAgree(ua: Option<string>, ub: Option<string>)
    ensures UnitPart(ua) == UnitPart(ub) <==> ua == ub
  {
    var x, y := UnitPart(ua), UnitPart(ub);
    if ua.Some? && ub.Some? {
      Cancel("Requires=", ua.value, ub.value);
      assert x[3] == "Requires=" + ua.value && y[3] == "Requires=" + ub.value;
    }
  }

  lemma CoresAgree(a: Options, ua: Option<string>, b: Options, ub: Option<string>)
    ensures Core(a, ua) == Core(b, ub) <==> ua == ub && Values(a) == Values(b)
  {
    UnitPartsAgree(ua, ub);
    assert |UnitPart(ua)| == (if ua.Some? then 4 else 3) && |UnitPart(ub)| == (if ub.Some? then 4 else 3);
    assert |Values(a)| == 4 && |Values(b)| == 4;
    hide UnitPart, Values;
    var n := |UnitPart(ua)|;
    var x, y := Core(a, ua), Core(b, ub);
    if x == y {
      assert |x| == |y| && |UnitPart(ub)| == n;
      assert x[..n] == UnitPart(ua) && y[..n] == UnitPart(ub);
      assert x[n + 2..n + 6] == Values(a) && y[n + 2..n + 6] == Values(b);
    }
  }

  lemma MarkerAmongLines(a: Options, va: Version, ua: Option<string>, vb: Version)
    requires Accepted(a) && Regular(ua)
    ensures ("# " + Marker(vb)) in Lines(a, va, ua) <==> va == vb
  {
    UnitPartIsClean(ua);
    ServiceLinesTell(a);
    hide UnitPart, Values, Clean, AllClean, Accepted, Marker;
    var service := SERVICE_HEAD + Values(a) + SERVICE_TAIL;
    var x := "# " + Marker(vb);
    var lines := Lines(a, va, ua);
    assert x in lines <==>
           x in ["# " + Marker(va)] || x in UnitPart(ua) || x in [""] || x in service || x in INSTALL;
  }

  lemma ServiceLinesTell(o: Options)
    requires Accepted(o)
    ensures var service := SERVICE_HEAD + Values(o) + SERVICE_TAIL; forall i :: 0 <= i < |service| ==> Telling(service[i])
    ensures forall i :: 0 <= i < |INSTALL| ==> Telling(INSTALL[i])
  {
    ValuesAreClean(o);
    hide Values, Clean;
  }

  lemma UnitIsRegular(o: Options, v: Version)
    requires RuntimeUnit(o, v).Ok?
    ensures Regular(RuntimeUnit(o, v).value)
  {
  }

  /** The unit depends on the runtime directory alone once the user is known to own it. */
  lemma SameDirectorySameUnit(a: Options, b: Options, v: Version)
    requires RuntimeUnit(a, v).Ok? && RuntimeUnit(b, v).Ok? && a.runtimeDirectory == b.runtimeDirectory
    ensures RuntimeUnit(a, v) == RuntimeUnit(b, v)
  {
  }

  /**
   * A definition generated for one installation counts as that of another exactly when both have the same record
   * version and agree in user, home, runtime directory, node, command line interface, namespace and control socket.
   */
  lemma MatchesExactly(a: Options, va: Version, b: Options, vb: Version)
    requires Accepted(a) && Accepted(b) && Definition(a, va).Ok? && Definition(b, vb).Ok?
    ensures Matches(Definition(a, va).value, b, vb) == Ok(va == vb && Agree(a, b))
  {
    hide Accepted, Agree, Values, UnitPart, TellingOnes, Trimmed, Text.Join, Text.Split, Lines, Core, Regular, Marker;
    var ua, ub := RuntimeUnit(a, va).value, RuntimeUnit(b, vb).value;
    UnitIsRegular(a, va);
    UnitIsRegular(b, vb);
    LinesAreClean(a, va, ua);
    LinesAreClean(b, vb, ub);
    SomeLines(a, va, ua);
    SomeLines(b, vb, ub);
    DefinitionLines(Lines(a, va, ua));
    DefinitionLines(Lines(b, vb, ub));
    LinesTell(a, va, ua);
    LinesTell(b, vb, ub);
    MarkerAmongLines(a, va, ua, vb);
    CoresAgree(a, ua, b, ub);
    ValuesAgree(a, b);
    if va == vb && Agree(a, b) {
      AgreeOnDirectory(a, b);
      SameDirectorySameUnit(a, b, va);
    }
    hide RuntimeUnit;
  }

  lemma SomeLines(o: Options, v: Version, unit: Option<string>)
    ensures Lines(o, v, unit) != []
  {
  }

  lemma AgreeOnDirectory(a: Options, b: Options)
    requires Agree(a, b)
    ensures a.runtimeDirectory == b.runtimeDirectory
  {
  }
}
