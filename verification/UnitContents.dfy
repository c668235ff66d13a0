/** What a generated systemd definition says, read from its text. */
module UnitContents {
  import opened Wrappers
  import opened SystemdUnit
  import Text

  const USER := "User="
  const HOME := "Environment=HOME="
  const RUNTIME := "Environment=VITE_LOCAL_TLS_RUNTIME_DIRECTORY="
  const EXEC := "ExecStart="
  const NEEDS := "Requires="

  /** One line gives the key this value, and no line gives it another. */
  ghost predicate Says(text: string, key: string, value: string) {
    && (key + value) in Text.Split(text, '\n')
    && forall line :: line in Text.Split(text, '\n') && key <= line ==> line == key + value
  }

  ghost predicate SaysNothing(text: string, key: string) {
    forall line :: line in Text.Split(text, '\n') ==> !(key <= line)
  }

  /** None of the keys begins the line. */
  ghost predicate Plain(line: string) {
    !(USER <= line) && !(HOME <= line) && !(RUNTIME <= line) && !(EXEC <= line) && !(NEEDS <= line)
  }

  lemma BeginsElsewhere(line: string)
    requires line != "" ==> line[0] !in {'U', 'E', 'R'}
    ensures Plain(line)
  {
  }

  lemma FixedArePlain(v: Version, line: string)
    requires line in ["# " + Marker(v)] || line in UNIT_HEAD || line in [""] || line in SERVICE_HEAD || line in INSTALL
    ensures Plain(line)
  {
    assert ("# " + Marker(v))[0] == '#';
    BeginsElsewhere(line);
  }

  lemma TailIsPlain(line: string)
    requires line in SERVICE_TAIL
    ensures Plain(line)
  {
    if line[0] == 'R' {
      assert line[2] == 's';
      assert NEEDS[2] == 'q';
    } else {
      BeginsElsewhere(line);
    }
  }

  lemma AfterIsPlain(unit: Option<string>)
    ensures Plain(After(unit))
  {
    assert After(unit)[0] == 'A';
    BeginsElsewhere(After(unit));
  }

  /** The keys differ early, so a line that begins with one begins with no other. */
  lemma KeysDiffer(value: string)
    ensures !(HOME <= USER + value) && !(RUNTIME <= USER + value) && !(EXEC <= USER + value) && !(NEEDS <= USER + value)
    ensures !(USER <= HOME + value) && !(RUNTIME <= HOME + value) && !(EXEC <= HOME + value) && !(NEEDS <= HOME + value)
    ensures !(USER <= RUNTIME + value) && !(HOME <= RUNTIME + value) && !(EXEC <= RUNTIME + value) && !(NEEDS <= RUNTIME + value)
    ensures !(USER <= EXEC + value) && !(HOME <= EXEC + value) && !(RUNTIME <= EXEC + value) && !(NEEDS <= EXEC + value)
    ensures !(USER <= NEEDS + value) && !(HOME <= NEEDS + value) && !(RUNTIME <= NEEDS + value) && !(EXEC <= NEEDS + value)
  {
    assert (USER + value)[0] == 'U' && (NEEDS + value)[0] == 'R' && (EXEC + value)[0] == 'E';
    assert (EXEC + value)[1] == 'x' && (HOME + value)[1] == 'n' && (RUNTIME + value)[1] == 'n';
    assert (HOME + value)[12] == 'H' && (RUNTIME + value)[12] == 'V';
    assert HOME[12] == 'H' && RUNTIME[12] == 'V' && HOME[1] == 'n' && RUNTIME[1] == 'n' && EXEC[1] == 'x';
  }

  /** The lines of a definition: those that carry a value, and plain ones. */
  lemma {:induction false} LineIs(o: Options, v: Version, unit: Option<string>, line: string)
    requires line in Lines(o, v, unit)
    ensures || Plain(line)
            || line == USER + o.username
            || line == HOME + Quote(o.home)
            || line == RUNTIME + Quote(o.runtimeDirectory)
            || line == EXEC + Text.Join(QuoteAll(Arguments(o)), ' ')
            || (unit.Some? && line == NEEDS + unit.value)
  {
    hide Plain, Quote, Arguments, After, Marker, Text.Join;
    if line in ["# " + Marker(v)] || line in UNIT_HEAD || line in [""] || line in SERVICE_HEAD || line in INSTALL {
      FixedArePlain(v, line);
    } else if line in SERVICE_TAIL {
      TailIsPlain(line);
    } else if line == After(unit) {
      AfterIsPlain(unit);
    }
  }

  lemma {:induction false} LinesInclude(o: Options, v: Version, unit: Option<string>)
    ensures var lines := Lines(o, v, unit);
            && (USER + o.username) in lines
            && (HOME + Quote(o.home)) in lines
            && (RUNTIME + Quote(o.runtimeDirectory)) in lines
            && (EXEC + Text.Join(QuoteAll(Arguments(o)), ' ')) in lines
            && (unit.Some? ==> (NEEDS + unit.value) in lines)
  {
    hide Quote, Arguments, After, Marker, Text.Join;
    var lines := Lines(o, v, unit);
    assert forall line :: line in Values(o) ==> line in lines;
    assert forall line :: line in UnitPart(unit) ==> line in lines;
    assert Values(o)[0] in lines && Values(o)[1] in lines && Values(o)[2] in lines && Values(o)[3] in lines;
    assert unit.Some? ==> UnitPart(unit)[3] in lines;
  }

  lemma TextHasLines(o: Options, v: Version)
    requires Accepted(o) && Definition(o, v).Ok?
    ensures Text.Split(Definition(o, v).value, '\n') == Lines(o, v, RuntimeUnit(o, v).value)
  {
    hide Accepted, Lines, RuntimeUnit, Text.Split, Text.Join;
    var unit := RuntimeUnit(o, v).value;
    UnitIsRegular(o, v);
    hide Regular;
    LinesAreClean(o, v, unit);
    var lines := Lines(o, v, unit);
    SomeLines(o, v, unit);
    forall p | p in lines ensures Text.Free(p, '\n') {
      var i :| 0 <= i < |lines| && lines[i] == p;
      assert Clean(lines[i]);
    }
    Text.SplitJoin(lines, '\n');
  }

  /** A quoted value is read back from its line. */
  lemma QuotedReadsBack(value: string)
    ensures ReadList(Quote(value)) == Some([value])
  {
    QuotedListReadsBack([value]);
    assert QuoteAll([value]) == [Quote(value)];
    assert Text.Join([Quote(value)], ' ') == Quote(value);
  }

  /**
   * The definition of an accepted installation runs its command line interface under its node, in its namespace and
   * with its control socket, as its user, with its home and runtime directory; and it requires a unit just where
   * the runtime directory needs one.
   */
  lemma {:induction false} DefinitionSays(o: Options, v: Version) returns (home: string, runtime: string, exec: string)
    requires Accepted(o) && Definition(o, v).Ok?
    ensures var text := Definition(o, v).value;
            && Says(text, "User=", o.username)
            && Says(text, "Environment=HOME=", home) && ReadList(home) == Some([o.home])
            && Says(text, "Environment=VITE_LOCAL_TLS_RUNTIME_DIRECTORY=", runtime)
            && ReadList(runtime) == Some([o.runtimeDirectory])
            && Says(text, "ExecStart=", exec)
            && ReadList(exec) ==
                 Some([o.nodePath, o.cliPath, "proxy", "start", "--service", "--namespace", o.namespace]
                      + if o.controlSocket == "" then [] else ["--control-socket", o.controlSocket])
            && Text.Split(text, '\n')[0] ==
                 "# " + (if v == V2 then OWNER_MARKER else LEGACY_OWNER_MARKER)
            && match RuntimeUnit(o, v).value
               case None => SaysNothing(text, "Requires=")
               case Some(unit) => Says(text, "Requires=", unit)
  {
    home, runtime, exec := Quote(o.home), Quote(o.runtimeDirectory), Text.Join(QuoteAll(Arguments(o)), ' ');
    QuotedReadsBack(o.home);
    QuotedReadsBack(o.runtimeDirectory);
    QuotedListReadsBack(Arguments(o));
    TextHasLines(o, v);
    hide Accepted, Definition, Lines, RuntimeUnit, Text.Split, Text.Join, ReadList, Quote;
    var unit := RuntimeUnit(o, v).value;
    LinesInclude(o, v, unit);
    FirstLineIs(o, v, unit);
    forall line | line in Lines(o, v, unit) ensures GivesNoOther(line, o.username, home, runtime, exec, unit) {
      LineIsNoOther(o, v, unit, line);
    }
  }

  lemma FirstLineIs(o: Options, v: Version, unit: Option<string>)
    ensures Lines(o, v, unit)[0] ==
            "# " + (if v == V2 then OWNER_MARKER else LEGACY_OWNER_MARKER)
  {
    hide OWNER_MARKER, LEGACY_OWNER_MARKER;
  }

  /** Where the line begins with a key, it gives the key this value. */
  ghost predicate GivesNoOther(
      line: string, user: string, home: string, runtime: string, exec: string, unit: Option<string>)
  {
    && (USER <= line ==> line == USER + user)
    && (HOME <= line ==> line == HOME + home)
    && (RUNTIME <= line ==> line == RUNTIME + runtime)
    && (EXEC <= line ==> line == EXEC + exec)
    && (NEEDS <= line ==> unit.Some? && line == NEEDS + unit.value)
  }

  lemma {:induction false} LineIsNoOther(o: Options, v: Version, unit: Option<string>, line: string)
    requires line in Lines(o, v, unit)
    ensures GivesNoOther(
              line, o.username, Quote(o.home), Quote(o.runtimeDirectory), Text.Join(QuoteAll(Arguments(o)), ' '), unit)
  {
    LineIs(o, v, unit, line);
    hide Lines, Quote, Text.Join, Arguments;
    if line == USER + o.username {
      KeysDiffer(o.username);
    } else if line == HOME + Quote(o.home) {
      KeysDiffer(Quote(o.home));
    } else if line == RUNTIME + Quote(o.runtimeDirectory) {
      KeysDiffer(Quote(o.runtimeDirectory));
    } else if line == EXEC + Text.Join(QuoteAll(Arguments(o)), ' ') {
      KeysDiffer(Text.Join(QuoteAll(Arguments(o)), ' '));
    } else if unit.Some? && line == NEEDS + unit.value {
      KeysDiffer(unit.value);
    }
  }

  /** The first section; its last line is there only if a unit is required. */
  function UnitSection(unit: Option<string>): seq<string> {
    ["[Unit]", "Description=Vite local TLS proxy"]
    + (if unit.Some? then ["After=network.target " + unit.value, "Requires=" + unit.value] else ["After=network.target"])
  }

  /** The second section with these values. */
  function ServiceSection(user: string, home: string, runtime: string, exec: string): seq<string> {
    ["[Service]",
     "Type=simple",
     "User=" + user,
     "Environment=HOME=" + home,
     "Environment=VITE_LOCAL_TLS_RUNTIME_DIRECTORY=" + runtime,
     "ExecStart=" + exec,
     "Restart=on-failure",
     "RestartSec=1",
     "AmbientCapabilities=" + CAPABILITY,
     "CapabilityBoundingSet=" + CAPABILITY,
     "NoNewPrivileges=true",
     "PrivateTmp=false"]
  }

  lemma UnitPartIs(unit: Option<string>)
    ensures UnitPart(unit) == UnitSection(unit)
  {
    if unit.Some? {
      assert "After=network.target" + (" " + unit.value) == "After=network.target " + unit.value;
    } else {
      assert "After=network.target" + "" == "After=network.target";
    }
  }

  lemma ServicePartIs(o: Options)
    ensures SERVICE_HEAD + Values(o) + SERVICE_TAIL ==
            ServiceSection(o.username, Quote(o.home), Quote(o.runtimeDirectory), Text.Join(QuoteAll(Arguments(o)), ' '))
  {
    hide Quote, Text.Join, QuoteAll, Arguments, CAPABILITY;
    var all := SERVICE_HEAD + Values(o) + SERVICE_TAIL;
    assert |SERVICE_HEAD| == 2 && |Values(o)| == 4 && |SERVICE_TAIL| == 6;
    assert forall i :: 0 <= i < 2 ==> all[i] == SERVICE_HEAD[i];
    assert forall i :: 2 <= i < 6 ==> all[i] == Values(o)[i - 2];
    assert forall i :: 6 <= i < 12 ==> all[i] == SERVICE_TAIL[i - 6];
  }

  /** Line by line: the marker, three sections with empty lines between them, and a line break at the end. */
  lemma {:induction false} DefinitionLinesAre(o: Options, v: Version) returns (home: string, runtime: string, exec: string)
    requires Accepted(o) && Definition(o, v).Ok?
    ensures ReadList(home) == Some([o.home]) && ReadList(runtime) == Some([o.runtimeDirectory])
    ensures ReadList(exec).Some? && |ReadList(exec).value| >= 2 && ReadList(exec).value[..2] == [o.nodePath, o.cliPath]
    ensures Text.Split(Definition(o, v).value, '\n') ==
            ["# " + (if v == V2 then OWNER_MARKER else LEGACY_OWNER_MARKER)] + UnitSection(RuntimeUnit(o, v).value) + [""]
            + ServiceSection(o.username, home, runtime, exec) + [""] + ["[Install]", "WantedBy=multi-user.target"] + [""]
  {
    home, runtime, exec := Quote(o.home), Quote(o.runtimeDirectory), Text.Join(QuoteAll(Arguments(o)), ' ');
    QuotedReadsBack(o.home);
    QuotedReadsBack(o.runtimeDirectory);
    QuotedListReadsBack(Arguments(o));
    TextHasLines(o, v);
    UnitPartIs(RuntimeUnit(o, v).value);
    ServicePartIs(o);
    hide Accepted, Definition, RuntimeUnit, Text.Split, Text.Join, ReadList, Quote, OWNER_MARKER, LEGACY_OWNER_MARKER;
    hide UnitSection, ServiceSection, UnitPart, Values, SERVICE_HEAD, SERVICE_TAIL;
  }

  // ----- Which values are accepted -----

  /** A value is accepted if it is not empty and holds no control character. */
  lemma PrintableExactly(value: string)
    ensures Printable(value) <==> value != "" && forall c :: c in value ==> c > '\U{1F}' && c != '\U{7F}'
  {
  }

  lemma UserLettersAre(c: char)
    ensures UserChar(c) <==> c in Text.SMALL + Text.CAPITAL + "_"
    ensures IsDigit(c) <==> c in Text.DIGITS
  {
    Text.SmallAre(c);
    Text.CapitalAre(c);
    Text.DigitsAre(c);
    assert c in "_" <==> c == '_';
    hide Text.SMALL, Text.CAPITAL, Text.DIGITS;
  }

  /** A letter or underscore, then letters, digits, underscores and hyphens. */
  predicate UserBody(body: string) {
    && body != "" && UserChar(body[0])
    && forall i :: 1 <= i < |body| ==> UserChar(body[i]) || IsDigit(body[i]) || body[i] == '-'
  }

  /** The name without the dollar sign it may end with. */
  function WithoutDollar(name: string): string {
    if |name| > 1 && name[|name| - 1] == '$' then name[..|name| - 1] else name
  }

  lemma DollarIsExtra(name: string)
    ensures PlainUser(name) <==> UserBody(WithoutDollar(name))
  {
    assert !UserChar('$') && !IsDigit('$');
    hide UserChar, IsDigit;
  }

  lemma BodyCharIs(c: char)
    ensures c in Text.SMALL + Text.CAPITAL + "_" + (Text.DIGITS + "-") <==> UserChar(c) || IsDigit(c) || c == '-'
  {
    UserLettersAre(c);
    hide Text.SMALL, Text.CAPITAL, Text.DIGITS, UserChar, IsDigit;
  }

  lemma UserBodyIsSpelled(body: string)
    ensures UserBody(body) <==>
            && body != "" && body[0] in Text.SMALL + Text.CAPITAL + "_"
            && Text.Spelled(body, Text.SMALL + Text.CAPITAL + "_" + (Text.DIGITS + "-"))
  {
    var all := Text.SMALL + Text.CAPITAL + "_" + (Text.DIGITS + "-");
    hide Text.SMALL, Text.CAPITAL, Text.DIGITS, UserChar, IsDigit;
    forall i | 0 <= i < |body|
      ensures body[i] in all <==> UserChar(body[i]) || IsDigit(body[i]) || body[i] == '-'
    {
      BodyCharIs(body[i]);
    }
    if body != "" {
      UserLettersAre(body[0]);
      assert Text.Spelled(body, all) <==> forall i :: 0 <= i < |body| ==> body[i] in all;
    }
  }

  /** A user name is spelled so, up to a dollar sign at its end. */
  lemma {:induction false} PlainUserExactly(name: string)
    ensures var body := if |name| > 1 && name[|name| - 1] == '$' then name[..|name| - 1] else name;
            PlainUser(name) <==>
            && body != "" && body[0] in Text.SMALL + Text.CAPITAL + "_"
            && Text.Spelled(body, Text.SMALL + Text.CAPITAL + "_" + (Text.DIGITS + "-"))
  {
    DollarIsExtra(name);
    UserBodyIsSpelled(WithoutDollar(name));
    hide PlainUser, UserBody, Text.Spelled, Text.SMALL, Text.CAPITAL, Text.DIGITS;
  }

  // ----- The unit of a runtime directory -----

  lemma {:induction false} DecimalReadsBack(n: nat)
    ensures (forall c :: c in Decimal(n) ==> IsDigit(c)) && Decimal(n) != ""
    ensures Number(Decimal(n)) == n
  {
    DecimalIsDigits(n);
    if n >= 10 {
      DecimalReadsBack(n / 10);
      var last := ('0' as int + n % 10) as char;
      assert Decimal(n)[..|Decimal(n)| - 1] == Decimal(n / 10);
      assert Decimal(n)[|Decimal(n)| - 1] == last;
    }
  }

  /** The directory is `/run/user/`, these digits, and nothing or a slash and more. */
  ghost predicate UserDirectory(directory: string, digits: string, rest: string) {
    && directory == "/run/user/" + digits + rest
    && digits != "" && (forall c :: c in digits ==> IsDigit(c))
    && (rest == "" || rest[0] == '/')
  }

  lemma {:induction false} DigitsFirst(digits: string, rest: string)
    requires (forall c :: c in digits ==> IsDigit(c)) && (rest == "" || !IsDigit(rest[0]))
    ensures LeadingDigits(digits + rest) == digits
  {
    if digits == "" {
      assert digits + rest == rest;
    } else {
      assert (digits + rest)[1..] == digits[1..] + rest;
      DigitsFirst(digits[1..], rest);
    }
  }

  /**
   * The unit is wanted exactly for the runtime directory of some user, under the second record version; it is named
   * after the number of that user, and another user's directory, or a number that is not safe, is refused.
   */
  lemma {:induction false} RuntimeUnitExactly(o: Options)
    ensures RuntimeUnit(o, V1) == Ok(None)
    ensures (forall digits, rest :: !UserDirectory(o.runtimeDirectory, digits, rest)) ==> RuntimeUnit(o, V2) == Ok(None)
    ensures forall digits, rest :: UserDirectory(o.runtimeDirectory, digits, rest) ==>
              if Number(digits) == o.uid <= 0x1F_FFFF_FFFF_FFFF then
                RuntimeUnit(o, V2) == Ok(Some("user-runtime-dir@" + Decimal(o.uid) + ".service"))
              else RuntimeUnit(o, V2).Err?
  {
    hide Decimal, Number;
    var directory := o.runtimeDirectory;
    forall digits, rest | UserDirectory(directory, digits, rest)
      ensures RuntimeUid(directory) == Some(Number(digits))
    {
      assert directory[|USER_RUNTIME|..] == digits + rest;
      DigitsFirst(digits, rest);
      assert |digits| < |digits + rest| ==> (digits + rest)[|digits|] == rest[0];
    }
    if RuntimeUid(directory).Some? {
      var tail := directory[|USER_RUNTIME|..];
      var digits := LeadingDigits(tail);
      LeadingDigitsAre(tail);
      LeadingIsPrefix(tail);
      assert UserDirectory(directory, digits, tail[|digits|..]);
    }
  }

  lemma {:induction false} LeadingIsPrefix(s: string)
    ensures LeadingDigits(s) <= s
  {
    if s != "" {
      LeadingIsPrefix(s[1..]);
    }
  }
}
