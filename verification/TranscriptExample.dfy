/** Concrete transcripts at which the compiler refuses: a name the summary repeats, and an identifier that is too long. */
module TranscriptExample {
  import opened Results
  import opened Text
  import opened JsonText
  import opened Pseudonyms
  import opened TranscriptParse
  import opened TranscriptFixture
  import opened TranscriptAgreement
  import opened TranscriptRenaming
  import opened TranscriptValidity
  import opened TranscriptSize
  import opened TranscriptSummary
  import opened TranscriptCompiler

  // ---------------------------------------------------------------- the transcript of a machine with one interface

  function Recorded(kind: RequestKind, result: RawResult): RawRecord
  {
    RawRecord(Command(kind, "Wi-Fi").1, Command(kind, "Wi-Fi").0, kind, result)
  }

  function Answer(kind: RequestKind, device: string): RawResult
  {
    match kind
    case ProductVersion => Success("15.1")
    case BuildVersion => Success("24B83")
    case Architecture => Success("arm64")
    case DefaultRoute => Success(Unlines(["interface: " + device]))
    case ServiceOrder => Success(Unlines(["(1) Wi-Fi", HARDWARE_PORT + "Wi-Fi" + DEVICE + device + ")"]))
    case _ => Failure(Unavailable)
  }

  /** All proxy getters unavailable; the service is called Wi-Fi, the interface as given. */
  function Raw(device: string): (raw: seq<RawRecord>)
    ensures |raw| == 11
  {
    seq(11, i requires 0 <= i < 11 => Recorded(ORDER[i], Answer(ORDER[i], device)))
  }

  function Read(device: string): Parsed
  {
    Parsed("15.1", "24B83", "arm64", device, "Wi-Fi", "Wi-Fi", Nothing(6))
  }

  /** The interface names of the examples. */
  predicate IsDevice(device: string)
  {
    device == "a" || device == "W"
  }

  // ---------------------------------------------------------------- it is accepted

  lemma ProgramTokens()
    ensures IsToken("/usr/bin/sw_vers") && IsToken("/usr/bin/uname") && IsToken("/sbin/route") && IsToken(NETWORKSETUP)
    ensures IsToken("Wi-Fi")
  {
  }

  lemma FirstArguments()
    ensures IsToken("-productVersion") && IsToken("-buildVersion") && IsToken("-m") && IsToken("-n") && IsToken("get")
    ensures IsToken("default") && IsToken("-listnetworkserviceorder")
  {
  }

  lemma SomeArguments()
    ensures IsToken("-getwebproxy") && IsToken("-getsecurewebproxy") && IsToken("-getsocksfirewallproxy")
  {
  }

  lemma MoreArguments()
    ensures IsToken("-getautoproxyurl") && IsToken("-getproxybypassdomains") && IsToken("-getproxyautodiscovery")
  {
  }

  lemma CommandTokens(kind: RequestKind)
    ensures IsToken(Command(kind, "Wi-Fi").0) && forall a | a in Command(kind, "Wi-Fi").1 :: IsToken(a)
  {
    hide IsToken;
    ProgramTokens();
    FirstArguments();
    SomeArguments();
    MoreArguments();
  }

  lemma TokenLength(s: string)
    requires IsToken(s)
    ensures ByteLength(s) <= 64
  {
    hide ByteLength, IsPlain;
    PlainLength(s);
  }

  lemma RouteLine(device: string)
    requires IsDevice(device)
    ensures IsCleanLine("interface: " + device) && |"interface: " + device| <= 100
  {
  }

  lemma OrderLines(device: string)
    requires IsDevice(device)
    ensures IsCleanLine("(1) Wi-Fi") && IsCleanLine(HARDWARE_PORT + "Wi-Fi" + DEVICE + device + ")")
    ensures |HARDWARE_PORT + "Wi-Fi" + DEVICE + device + ")"| <= 100
  {
    assert IsClean(HARDWARE_PORT + "Wi-Fi" + DEVICE) && IsSafeStart(HARDWARE_PORT + "Wi-Fi" + DEVICE) && IsClean(device + ")");
    hide IsClean, IsSafeStart;
    CleanConcat(HARDWARE_PORT + "Wi-Fi" + DEVICE, device + ")");
    SafeStartExtends(HARDWARE_PORT + "Wi-Fi" + DEVICE, device + ")");
    assert HARDWARE_PORT + "Wi-Fi" + DEVICE + device + ")" == HARDWARE_PORT + "Wi-Fi" + DEVICE + (device + ")");
    assert IsClean("(1) Wi-Fi") && IsSafeStart("(1) Wi-Fi");
  }

  lemma ShortOutput(lines: seq<string>)
    requires |lines| <= 64 && forall line | line in lines :: IsCleanLine(line) && |line| <= 100
    ensures ByteLength(Unlines(lines)) <= 65536
  {
    hide ByteLength, Unlines, IsCleanLine, IsPlain;
    EmittedPlain(lines);
    PlainLength(Unlines(lines));
  }

  lemma VersionTokens()
    ensures IsToken("15.1") && IsToken("24B83") && IsToken("arm64")
  {
  }

  /** Every recorded output is short. */
  lemma AnswerBounded(kind: RequestKind, device: string)
    requires IsDevice(device)
    ensures var r := Answer(kind, device); r.Success? ==> ByteLength(r.stdout) <= 65536
  {
    hide ByteLength, Unlines, IsCleanLine, IsToken, HARDWARE_PORT, DEVICE, IsDevice;
    VersionTokens();
    match kind
    case ProductVersion => TokenLength("15.1");
    case BuildVersion => TokenLength("24B83");
    case Architecture => TokenLength("arm64");
    case DefaultRoute =>
      RouteLine(device);
      ShortOutput(["interface: " + device]);
    case ServiceOrder =>
      OrderLines(device);
      ShortLineIs("(1) Wi-Fi");
      ShortOutput(["(1) Wi-Fi", HARDWARE_PORT + "Wi-Fi" + DEVICE + device + ")"]);
    case _ =>
  }

  lemma ShortLineIs(line: string)
    requires line == "(1) Wi-Fi"
    ensures |line| <= 100
  {
  }

  lemma RecordBounded(kind: RequestKind, device: string)
    requires IsDevice(device)
    ensures IsBounded(Recorded(kind, Answer(kind, device)))
  {
    hide ByteLength, IsToken, Command, Answer;
    CommandTokens(kind);
    TokenLength(Command(kind, "Wi-Fi").0);
    forall a | a in Command(kind, "Wi-Fi").1 ensures ByteLength(a) <= 256 {
      TokenLength(a);
    }
    AnswerBounded(kind, device);
  }

  lemma FixedCommand(kind: RequestKind, result: RawResult)
    requires kind in ORDER[..5]
    ensures IsCommand(Recorded(kind, result), "")
  {
  }

  lemma Versions()
    ensures Trim("15.1") == "15.1" && Trim("24B83") == "24B83" && Trim("arm64") == "arm64"
    ensures IsProductVersion("15.1") && IsBuildVersion("24B83")
  {
    TrimmedAlready("15.1");
    TrimmedAlready("24B83");
    TrimmedAlready("arm64");
    hide Trim;
    assert "15.1"[3..] == "1" && "1"[1..] == "" && DigitRun("1") == 1;
    assert [Num][1..] == [];
  }

  lemma DeviceIsName(device: string)
    requires IsDevice(device)
    ensures |device| == 1 && IsInterfaceName(device) && ':' !in device && ',' !in device && !IsWhite(device[0])
  {
  }

  lemma MetricsStart()
    ensures |METRICS_HEADER| > 0 && METRICS_HEADER[0] == 'r'
  {
  }

  lemma RouteLineKept(line: string)
    requires |line| > 2 && line[0] == 'i' && !IsWhite(line[|line| - 1])
    ensures WithoutMetrics([line]) == [line]
  {
    hide METRICS_HEADER;
    MetricsStart();
    TrimmedAlready(line);
    hide Trim;
    assert DigitRun(line) == 0;
    assert [line][1..] == [];
  }

  lemma InterfaceKey()
    ensures "interface" in ROUTE_FIELDS && IsKey("interface")
    ensures "interface" + ": " == "interface: " && "interface: "[0] == 'i'
  {
    assert ROUTE_FIELDS[4] == "interface";
  }

  lemma OneField(line: string, key: string, value: string, allowed: seq<string>)
    requires Field(line) == Ok((key, value)) && key in allowed
    ensures Fields(map[], [line], allowed) == Ok(map[key := value])
  {
    hide Field;
    assert [line][1..] == [];
    assert AddField(map[], line, allowed) == Ok(map[key := value]);
    assert Fields(map[key := value], [], allowed) == Ok(map[key := value]);
  }

  lemma RouteRead(device: string)
    requires IsDevice(device)
    ensures ParseRoute(Unlines(["interface: " + device])) == Ok(device)
  {
    hide IsDevice, IsCleanLine, StrictLines, Unlines, IsInterfaceName, WithoutMetrics, ROUTE_FIELDS, Field, Fields;
    DeviceIsName(device);
    InterfaceKey();
    RouteLine(device);
    var line := "interface: " + device;
    StrictLinesReadBack([line]);
    RouteLineKept(line);
    FieldReadBack("interface", device);
    assert "interface" + ": " + device == line;
    OneField(line, "interface", device, ROUTE_FIELDS);
  }

  lemma ServiceLine()
    ensures ParseServiceName("(1) Wi-Fi") == Some("Wi-Fi") && Trim("(1) Wi-Fi") == "(1) Wi-Fi"
  {
    assert "(1) Wi-Fi" == "(" + "1" + ")" + " " + "Wi-Fi";
    assert '\r' !in "Wi-Fi" && '\n' !in "Wi-Fi";
    TrimmedAlready("(1) Wi-Fi");
    hide Trim, ParseServiceName;
    ServiceNameRead("Wi-Fi");
  }

  lemma ServiceNameRead(name: string)
    requires 1 <= |name| <= 128 && !IsWhite(name[0]) && '\r' !in name && '\n' !in name
    ensures ParseServiceName("(" + "1" + ")" + " " + name) == Some(name)
  {
    var line := "(" + "1" + ")" + " " + name;
    var rest := line[1..];
    assert rest == "1" + ")" + " " + name && rest[1] == ')';
    assert DigitRun(rest) == 1 by {
      assert IsDigit(rest[0]) && !IsDigit(rest[1..][0]);
    }
    hide DigitRun;
    assert ")" <= rest[1..];
    var tail := rest[2..];
    assert tail == " " + name && tail[1..] == name;
    assert WhiteRun(tail) == 1;
    hide WhiteRun;
  }

  lemma DetailTexts()
    ensures DEVICE == [','] + " Device: " && " Device: " == [' '] + "Device: " && |DEVICE| == 10
    ensures |HARDWARE_PORT| > 0 && HARDWARE_PORT[0] == '('
  {
  }

  lemma DetailParsed(port: string, device: string)
    requires 1 <= |port| <= 128 && ',' !in port && IsInterfaceName(device)
    ensures ParseDetail(HARDWARE_PORT + port + DEVICE + device + ")") == Some(port)
  {
    hide IsInterfaceName, HARDWARE_PORT, DEVICE;
    DetailTexts();
    var line, rest := HARDWARE_PORT + port + DEVICE + device + ")", port + DEVICE + device + ")";
    assert line == HARDWARE_PORT + rest && line[|HARDWARE_PORT|..] == rest;
    assert rest == port + [','] + (" Device: " + device + ")");
    IndexOfAfter(port, ',', " Device: " + device + ")");
    var tail := rest[|port|..];
    assert tail == DEVICE + device + ")" && rest[..|port|] == port;
    assert tail[|DEVICE|..|tail| - 1] == device;
  }

  lemma DetailEnds(front: string, device: string)
    ensures EndsWith(front + DEVICE + device + ")", "Device: " + device + ")")
  {
    hide DEVICE;
    DetailTexts();
    assert front + DEVICE + device + ")" == (front + [','] + [' ']) + ("Device: " + device + ")");
  }

  lemma DetailLine(device: string)
    requires IsInterfaceName(device)
    ensures var line := HARDWARE_PORT + "Wi-Fi" + DEVICE + device + ")";
            Trim(line) == line && ParseDetail(line) == Some("Wi-Fi") && EndsWith(line, "Device: " + device + ")")
  {
    assert ',' !in "Wi-Fi";
    hide IsInterfaceName, HARDWARE_PORT, DEVICE, ParseDetail, EndsWith, Trim;
    DetailTexts();
    TrimmedAlready(HARDWARE_PORT + "Wi-Fi" + DEVICE + device + ")");
    DetailParsed("Wi-Fi", device);
    DetailEnds(HARDWARE_PORT + "Wi-Fi", device);
  }

  lemma NoDevice(device: string)
    ensures !EndsWith("(1) Wi-Fi", "Device: " + device + ")")
  {
    var suffix := "Device: " + device + ")";
    assert suffix[|suffix| - 1] == ')';
    assert "(1) Wi-Fi"[8] == 'i';
  }

  lemma OrderRead(device: string)
    requires IsDevice(device)
    ensures ParseServiceOrder(Unlines(["(1) Wi-Fi", HARDWARE_PORT + "Wi-Fi" + DEVICE + device + ")"]), device) == Ok(("Wi-Fi", "Wi-Fi"))
  {
    DeviceIsName(device);
    OrderLines(device);
    hide IsDevice, IsCleanLine, StrictLines, Unlines, IsInterfaceName, ParseDetail, ParseServiceName, EndsWith, Trim, HARDWARE_PORT, DEVICE;
    var first, second := "(1) Wi-Fi", HARDWARE_PORT + "Wi-Fi" + DEVICE + device + ")";
    StrictLinesReadBack([first, second]);
    ServiceLine();
    DetailLine(device);
    NoDevice(device);
    assert [first, second][1..] == [second];
    assert FindEnding([second], "Device: " + device + ")") == 0;
    assert FindEnding([first, second], "Device: " + device + ")") == 1;
  }

  lemma RawAt(device: string, i: nat)
    requires i < 11
    ensures Raw(device)[i].kind == ORDER[i] && Raw(device)[i] == Recorded(ORDER[i], Answer(ORDER[i], device))
  {
    hide Answer;
  }

  /** The first five answers and the commands of the other six. */
  lemma RawAnswers(device: string)
    ensures var raw := Raw(device);
            && raw[0].result == Success("15.1") && raw[1].result == Success("24B83") && raw[2].result == Success("arm64")
            && raw[3].result == Success(Unlines(["interface: " + device]))
            && raw[4].result == Success(Unlines(["(1) Wi-Fi", HARDWARE_PORT + "Wi-Fi" + DEVICE + device + ")"]))
  {
    hide Unlines, Command, HARDWARE_PORT, DEVICE;
    assert ORDER[0] == ProductVersion && ORDER[1] == BuildVersion && ORDER[2] == Architecture;
    assert ORDER[3] == DefaultRoute && ORDER[4] == ServiceOrder;
  }

  lemma RawIsSound(device: string)
    requires IsDevice(device)
    ensures var raw := Raw(device);
            && (forall i | 0 <= i < 11 :: raw[i].kind == ORDER[i] && IsBounded(raw[i]))
            && (forall i | 0 <= i < 5 :: IsCommand(raw[i], "")) && forall i | 5 <= i < 11 :: IsCommand(raw[i], "Wi-Fi")
  {
    assert |ORDER| == 11;
    hide Answer, IsBounded, IsDevice, ORDER, Command;
    forall i | 0 <= i < 11 ensures Raw(device)[i].kind == ORDER[i] && IsBounded(Raw(device)[i]) && IsCommand(Raw(device)[i], "Wi-Fi") {
      RawAt(device, i);
      RecordBounded(ORDER[i], device);
    }
    forall i | 0 <= i < 5 ensures IsCommand(Raw(device)[i], "") {
      RawAt(device, i);
      FixedAt(i);
      FixedCommand(ORDER[i], Answer(ORDER[i], device));
    }
  }

  lemma FixedAt(i: nat)
    requires i < 5
    ensures ORDER[i] in ORDER[..5]
  {
    assert ORDER[..5][i] == ORDER[i];
  }

  lemma NetworkRead(device: string)
    requires IsDevice(device)
    ensures ParseNetwork(Raw(device)) == Ok((device, "Wi-Fi", "Wi-Fi"))
  {
    hide Raw, ParseRoute, ParseServiceOrder, Unlines, HARDWARE_PORT, DEVICE, IsDevice;
    RawAnswers(device);
    RouteRead(device);
    OrderRead(device);
  }

  lemma HeaderRead(device: string)
    requires IsDevice(device)
    ensures ParseHeader(Raw(device)) == Ok(Read(device).(getters := []))
  {
    hide Raw, IsBounded, IsCommand, ParseNetwork, IsProductVersion, IsBuildVersion, Trim, Unlines, HARDWARE_PORT, DEVICE, ORDER, IsDevice;
    RawAnswers(device);
    RawIsSound(device);
    NetworkRead(device);
    Versions();
    var raw := Raw(device);
    assert forall record | record in raw :: IsBounded(record);
  }

  /** So many unavailable getters. */
  function Nothing(n: nat): (r: seq<Getter>)
    ensures |r| == n
  {
    seq(n, _ => NotAvailable(Unavailable))
  }

  lemma NothingNext(n: nat)
    ensures Nothing(0) == [] && Nothing(n + 1) == [NotAvailable(Unavailable)] + Nothing(n)
  {
  }

  lemma {:induction false} UnavailableGetters(platform: Platform, records: seq<RawRecord>)
    requires forall record | record in records :: record.kind in ORDER[5..] && record.result == Failure(Unavailable)
    ensures ParseGetters(platform, records, "Wi-Fi") == Ok(Nothing(|records|))
    decreases |records|
  {
    hide ORDER, Nothing;
    NothingNext(|records| - if records == [] then 0 else 1);
    if records != [] {
      assert records[0] in records;
      UnavailableGetters(platform, records[1..]);
    }
  }

  lemma GettersUnavailable(device: string, i: nat)
    requires 5 <= i < 11
    ensures Raw(device)[i].result == Failure(Unavailable) && Raw(device)[i].kind in ORDER[5..]
  {
    RawAt(device, i);
    assert ORDER[5..][i - 5] == ORDER[i];
    assert ORDER[5..] == [HttpProxy, HttpsProxy, SocksProxy, AutoProxyUrl, BypassDomains, AutoDiscovery];
    hide Raw, Unlines, Command;
  }

  /** The examples are accepted and read as intended. */
  lemma RawIsAccepted(platform: Platform, options: Options, device: string)
    requires IsDevice(device) && IsSlug(options.fixtureId)
    ensures ParseTranscript(platform, options, Raw(device)) == Ok(Read(device))
  {
    hide Raw, ParseHeader, IsSlug, IsDevice;
    HeaderRead(device);
    GetterKinds(Raw(device));
    forall record | record in Raw(device)[5..] ensures record.kind in ORDER[5..] && record.result == Failure(Unavailable) {
      var i :| 0 <= i < 6 && Raw(device)[5..][i] == record;
      GettersUnavailable(device, i + 5);
    }
    UnavailableGetters(platform, Raw(device)[5..]);
  }

  // ---------------------------------------------------------------- the examples

  /** Renames the interface `a`, and nothing else. */
  const RENAMING: Renaming := (kind, name) => if kind == Interface && name == "a" then "W" else name

  lemma ReadRequests(device: string)
    ensures RequestsOf(Read(device)) == [(Interface, device), (Service, "Wi-Fi"), (HardwarePort, "Wi-Fi")]
  {
    NothingRequested(6);
    hide Nothing;
  }

  lemma {:induction false} NothingRequested(n: nat)
    ensures GettersRequests(Nothing(n)) == []
    decreases n
  {
    if n > 0 {
      NothingNext(n - 1);
      hide Nothing;
      NothingRequested(n - 1);
      assert Nothing(n)[1..] == Nothing(n - 1);
    }
  }

  lemma {:induction false} NothingRenamed(n: nat)
    ensures RenameGetters(Nothing(n), RENAMING) == Nothing(n)
    decreases n
  {
    NothingNext(if n == 0 then 0 else n - 1);
    hide Nothing;
    if n > 0 {
      NothingRenamed(n - 1);
      assert Nothing(n)[1..] == Nothing(n - 1);
    }
  }

  lemma ReadIsRenamed()
    ensures Rename(Read("a"), RENAMING) == Read("W")
  {
    hide RenameGetters, Nothing;
    NothingRenamed(6);
  }

  lemma RenamingIsBijective()
    ensures IsBijective(RequestsOf(Read("a")), RENAMING)
  {
    hide RequestsOf, Read;
    ReadRequests("a");
    OnlyOneOfEach([(Interface, "a"), (Service, "Wi-Fi"), (HardwarePort, "Wi-Fi")], RENAMING);
  }

  lemma OnlyOneOfEach(requests: Requests, rho: Renaming)
    requires |requests| == 3 && requests[0].0 == Interface && requests[1].0 == Service && requests[2].0 == HardwarePort
    ensures IsBijective(requests, rho)
  {
    forall r | r in requests ensures r == requests[0] || r == requests[1] || r == requests[2] {
    }
  }

  lemma PlainNames(n: nat, kind: Kind)
    ensures Pseudonym(n, kind) !in {"a", "W", "Wi-Fi"}
  {
    hide Pseudonym;
    PseudonymInitial(n, kind);
    assert "a"[0] == 'a' && "W"[0] == 'W' && "Wi-Fi"[0] == 'W';
  }

  lemma ReadAvoidsSynthetic(device: string)
    requires IsDevice(device)
    ensures AvoidsSynthetic(RequestsOf(Read(device)))
  {
    ReadRequests(device);
    hide RequestsOf, Pseudonym;
    forall n: nat, kind: Kind ensures Pseudonym(n, kind) !in AllSources(RequestsOf(Read(device))) {
      PlainNames(n, kind);
    }
  }

  lemma Foreign()
    ensures !IsFamiliar("W") && !IsFamiliar("Wi-Fi")
  {
    assert IsForeignChar("W"[0]) && IsForeignChar("Wi-Fi"[0]);
  }

  /** What the last checks say of the two interfaces. */
  lemma LeaksExactly(options: Options, digest: string)
    requires IsSlug(options.fixtureId) && IsHexDigest(digest)
    ensures SummaryLeaks(options, Read("a"), digest) && !SummaryLeaks(options, Read("W"), digest)
  {
    hide IsSlug, IsHexDigest, IsFamiliar, Summary, Includes, TallyOf, RequestsOf;
    LetterAlwaysLeaks(options, TallyOf(RequestsOf(Read("a"))), digest);
    Foreign();
    ForeignNeverLeaks(options, TallyOf(RequestsOf(Read("W"))), digest, "W");
    ForeignNeverLeaks(options, TallyOf(RequestsOf(Read("W"))), digest, "Wi-Fi");
  }

  /**
    Two transcripts that differ only in the name of the interface, both accepted, of which one is
    refused and the other compiles: the summary's wording repeats the name `a`.
   */
  lemma RenamingMatters(platform: Platform, options: Options, values: Naming, values': Naming)
    requires forall text :: IsHexDigest(platform.sha256(text))
    requires IsSlug(options.fixtureId) && |options.fixtureId| <= 27536
    requires IsSealed(RequestsOf(Read("a")), values) && IsSealed(RequestsOf(Read("W")), values')
    ensures ParseTranscript(platform, options, Raw("a")) == Ok(Read("a"))
    ensures ParseTranscript(platform, options, Raw("W")) == Ok(Rename(Read("a"), RENAMING))
    ensures IsBijective(RequestsOf(Read("a")), RENAMING)
    ensures AvoidsSynthetic(RequestsOf(Read("a"))) && AvoidsSynthetic(RequestsOf(Read("W")))
    ensures WellParsed(Read("a")) && WellParsed(Read("W"))
    ensures Finish(platform, options, Read("a"), BuildFixture(platform, options, Read("a"), values)) == Err(RawIdentifierRetained)
    ensures Finish(platform, options, Read("W"), BuildFixture(platform, options, Read("W"), values')).Ok?
  {
    hide *;
    Devices();
    Examples(platform, options, "a", values);
    Examples(platform, options, "W", values');
    ReadIsRenamed();
    RenamingIsBijective();
    ReadAvoidsSynthetic("a");
    ReadAvoidsSynthetic("W");
  }

  lemma Devices()
    ensures IsDevice("a") && IsDevice("W")
  {
  }

  lemma BuiltDigest(platform: Platform, options: Options, p: Parsed, values: Naming)
    requires WellParsed(p) && forall text :: IsHexDigest(platform.sha256(text))
    ensures IsHexDigest(BuildFixture(platform, options, p, values).digest)
  {
    hide IsHexDigest, BuildRequests, RequestsJson, GetterFits, IsProductVersion, IsBuildVersion;
  }

  /** Both interfaces and every slug: exactly which of the two errors occurs, if any. */
  lemma Examples(platform: Platform, options: Options, device: string, values: Naming)
    requires IsDevice(device) && IsSlug(options.fixtureId) && forall text :: IsHexDigest(platform.sha256(text))
    requires IsSealed(RequestsOf(Read(device)), values)
    ensures ParseTranscript(platform, options, Raw(device)) == Ok(Read(device)) && WellParsed(Read(device))
    ensures var r := Finish(platform, options, Read(device), BuildFixture(platform, options, Read(device), values));
            && (device == "a" ==> r == Err(RawIdentifierRetained))
            && (device == "W" && |options.fixtureId| <= 27536 ==> r.Ok?)
            && (device == "W" && |options.fixtureId| > 65536 ==> r == Err(InvalidFixture))
  {
    hide Raw, Read, IsSlug, IsHexDigest, RequestsOf, ParseTranscript, IsSealed, IsValidFixture, SummaryLeaks, FrameSize, BuildFixture,
         GetterFits, IsProductVersion, IsBuildVersion, Summary, TallyOf;
    RawIsAccepted(platform, options, device);
    FixtureIsValidExactly(platform, options, Raw(device), values);
    BuiltDigest(platform, options, Read(device), values);
    LeaksExactly(options, BuildFixture(platform, options, Read(device), values).digest);
  }

  /** A slug longer than a whole fixture may be. */
  const OVERLONG: string := seq(65537, _ => 'a')

  lemma OverlongIsSlug()
    ensures IsSlug(OVERLONG) && |OVERLONG| == 65537
  {
  }

  /** The compiler itself on the examples: a repeated name, a harmless one, and an identifier that is too long. */
  method CompileExamples(platform: Platform, kind: SourceKind) returns (repeated: Outcome, renamed: Outcome, overlong: Outcome)
    requires forall text :: IsHexDigest(platform.sha256(text))
    ensures repeated == Err(RawIdentifierRetained) && renamed.Ok? && overlong == Err(InvalidFixture)
  {
    hide Raw, Read, IsSlug, IsHexDigest, RequestsOf, ParseTranscript, IsSealed, BuildFixture, WellParsed, Finish, OVERLONG;
    ghost var values, values', values'';
    SlugExample();
    OverlongIsSlug();
    var options := Options("example", kind);
    repeated, values := Compile(platform, options, Raw("a"));
    renamed, values' := Compile(platform, options, Raw("W"));
    RawIsAccepted(platform, options, "a");
    RawIsAccepted(platform, options, "W");
    Examples(platform, options, "a", values);
    Examples(platform, options, "W", values');
    overlong, values'' := Compile(platform, Options(OVERLONG, kind), Raw("W"));
    RawIsAccepted(platform, Options(OVERLONG, kind), "W");
    Examples(platform, Options(OVERLONG, kind), "W", values'');
  }

  lemma SlugExample()
    ensures IsSlug("example") && |"example"| <= 27536
  {
  }
}
