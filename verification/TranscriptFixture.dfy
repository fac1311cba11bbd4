/**
  Compiling a raw transcript into a fixture that holds synthetic identifiers only: what is
  collected, what is emitted under a naming, and the closed schema the result must meet.
 */
module TranscriptFixture {
  import opened Results
  import opened Text
  import opened Pseudonyms
  import opened TranscriptParse
  import opened JsonText

  datatype SourceKind = RealTartCapture | SyntheticTest

  datatype CaptureEnvironment = DisposableTartClone | RepositorySynthetic

  datatype Tool = Networksetup | RouteTool

  datatype FixtureRequest = FixtureRequest(operand: Option<string>, kind: RequestKind, result: RawResult, tool: Tool)

  datatype Fixture = Fixture(architecture: string, buildFamily: string, productVersionFamily: string,
                             captureEnvironment: CaptureEnvironment, fixtureId: string, digest: string,
                             sourceKind: SourceKind, requests: seq<FixtureRequest>)

  datatype Options = Options(fixtureId: string, sourceKind: SourceKind)

  /** What the compiler takes from its platform: URL parsing and the hexadecimal SHA-256 digest of a text. */
  datatype Platform = Platform(parseUrl: string -> Option<Url>, sha256: string -> string)

  // ---------------------------------------------------------------- the raw transcript

  /** Everything the fixture depends on, still under its real names. */
  datatype Parsed = Parsed(productVersion: string, buildVersion: string, architecture: string,
                           interfaceName: string, hardwarePort: string, service: string, getters: seq<Getter>)

  const NETWORKSETUP: string := "/usr/sbin/networksetup"

  const ORDER: seq<RequestKind> :=
    [ProductVersion, BuildVersion, Architecture, DefaultRoute, ServiceOrder,
     HttpProxy, HttpsProxy, SocksProxy, AutoProxyUrl, BypassDomains, AutoDiscovery]

  /** Program and arguments of each recorded command. */
  function Command(kind: RequestKind, service: string): (string, seq<string>)
  {
    match kind
    case ProductVersion => ("/usr/bin/sw_vers", ["-productVersion"])
    case BuildVersion => ("/usr/bin/sw_vers", ["-buildVersion"])
    case Architecture => ("/usr/bin/uname", ["-m"])
    case DefaultRoute => ("/sbin/route", ["-n", "get", "default"])
    case ServiceOrder => (NETWORKSETUP, ["-listnetworkserviceorder"])
    case HttpProxy => (NETWORKSETUP, ["-getwebproxy", service])
    case HttpsProxy => (NETWORKSETUP, ["-getsecurewebproxy", service])
    case SocksProxy => (NETWORKSETUP, ["-getsocksfirewallproxy", service])
    case AutoProxyUrl => (NETWORKSETUP, ["-getautoproxyurl", service])
    case BypassDomains => (NETWORKSETUP, ["-getproxybypassdomains", service])
    case AutoDiscovery => (NETWORKSETUP, ["-getproxyautodiscovery", service])
  }

  predicate IsBounded(record: RawRecord)
  {
    && (forall a | a in record.arguments :: ByteLength(a) <= 256)
    && ByteLength(record.program) <= 64
    && (record.result.Success? ==> ByteLength(record.result.stdout) <= 65536)
  }

  predicate IsCommand(record: RawRecord, service: string)
  {
    record.program == Command(record.kind, service).0 && record.arguments == Command(record.kind, service).1
  }

  /** Lower-case alphanumeric words joined by single hyphens. */
  predicate IsSlug(s: string)
  {
    && |s| > 0 && s[0] != '-' && s[|s| - 1] != '-'
    && (forall i | 0 <= i < |s| :: 'a' <= s[i] <= 'z' || IsDigit(s[i]) || s[i] == '-')
    && (forall i | 0 < i < |s| :: !(s[i - 1] == '-' && s[i] == '-'))
  }

  predicate IsProductVersion(s: string)
  {
    && |s| >= 3 && IsDigit(s[0]) && IsDigit(s[1]) && s[2] == '.'
    && (Matches(s[3..], [Num]) || Matches(s[3..], [Num, Lit("."), Num]))
  }

  predicate IsBuildVersion(s: string)
  {
    && |s| >= 4 && IsDigit(s[0]) && IsDigit(s[1]) && 'A' <= s[2] <= 'Z'
    && forall i | 3 <= i < |s| :: IsAlpha(s[i]) || IsDigit(s[i])
  }

  function ParseGetter(platform: Platform, kind: RequestKind, result: RawResult, service: string)
    : Result<Getter, TranscriptError>
    requires kind in ORDER[5..]
  {
    match result
    case Failure(f) => Ok(NotAvailable(f))
    case Success(stdout) =>
      match kind
      case AutoProxyUrl => ParsePac(platform.parseUrl, stdout)
      case BypassDomains => ParseBypass(stdout, service)
      case AutoDiscovery => ParseDiscovery(stdout)
      case _ => ParseManual(stdout)
  }

  function ParseGetters(platform: Platform, records: seq<RawRecord>, service: string)
    : (r: Result<seq<Getter>, TranscriptError>)
    requires forall record | record in records :: record.kind in ORDER[5..]
    ensures r.Ok? ==> |r.value| == |records|
  {
    if records == [] then Ok([])
    else
      match ParseGetter(platform, records[0].kind, records[0].result, service)
      case Err(e) => Err(e)
      case Ok(getter) =>
        match ParseGetters(platform, records[1..], service)
        case Err(e) => Err(e)
        case Ok(rest) => Ok([getter] + rest)
  }

  /** The checks before any identifier is collected: shape, commands, versions, route, service. */
  function ParseHeader(raw: seq<RawRecord>): Result<Parsed, TranscriptError>
  {
    if |raw| != 11 then Err(WrongCommandCount)
    else if exists record | record in raw :: !IsBounded(record) then Err(OversizedRecord)
    else if exists i | 0 <= i < 11 :: raw[i].kind != ORDER[i] then Err(WrongSequence)
    else if exists i | 0 <= i < 5 :: !IsCommand(raw[i], "") then Err(WrongCommand)
    else if exists i | 0 <= i < 3 :: raw[i].result.Failure? then Err(CommandFailed)
    else
      var version, build, machine :=
        Trim(raw[0].result.stdout), Trim(raw[1].result.stdout), Trim(raw[2].result.stdout);
      if !IsProductVersion(version) then Err(BadProductVersion)
      else if !IsBuildVersion(build) then Err(BadBuildVersion)
      else if machine != "arm64" && machine != "x86_64" then Err(BadArchitecture)
      else
        match ParseNetwork(raw)
        case Err(e) => Err(e)
        case Ok((interfaceName, port, service)) =>
          if exists i | 5 <= i < 11 :: !IsCommand(raw[i], service) then Err(WrongCommand)
          else Ok(Parsed(version, build, machine, interfaceName, port, service, []))
  }

  /** The active interface, its hardware port and its network service. */
  function ParseNetwork(raw: seq<RawRecord>): Result<(string, string, string), TranscriptError>
    requires |raw| == 11
  {
    if raw[3].result.Failure? then Err(CommandFailed)
    else
      match ParseRoute(raw[3].result.stdout)
      case Err(e) => Err(e)
      case Ok(interfaceName) =>
        if raw[4].result.Failure? then Err(CommandFailed)
        else
          match ParseServiceOrder(raw[4].result.stdout, interfaceName)
          case Err(e) => Err(e)
          case Ok((port, service)) => Ok((interfaceName, port, service))
  }

  function ParseTranscript(platform: Platform, options: Options, raw: seq<RawRecord>): Result<Parsed, TranscriptError>
  {
    if !IsSlug(options.fixtureId) then Err(BadFixtureId)
    else
      match ParseHeader(raw)
      case Err(e) => Err(e)
      case Ok(header) =>
        GetterKinds(raw);
        match ParseGetters(platform, raw[5..], header.service)
        case Err(e) => Err(e)
        case Ok(getters) => Ok(header.(getters := getters))
  }

  lemma GetterKinds(raw: seq<RawRecord>)
    ensures ParseHeader(raw).Ok? ==> |raw| == 11 && forall record | record in raw[5..] :: record.kind in ORDER[5..]
  {
    hide IsBounded, IsCommand, ParseNetwork, IsProductVersion, IsBuildVersion, Trim;
    if ParseHeader(raw).Ok? {
      forall record | record in raw[5..] ensures record.kind in ORDER[5..] {
        var i :| 0 <= i < 6 && raw[5..][i] == record;
        assert raw[i + 5].kind == ORDER[i + 5] == ORDER[5..][i];
      }
    }
  }

  // ---------------------------------------------------------------- collecting and emitting

  function DomainRequests(domains: seq<(bool, string)>): Requests
  {
    if domains == [] then [] else [(Domain, domains[0].1)] + DomainRequests(domains[1..])
  }

  /** The identifiers one getter's output mentions, in the order they are mapped. */
  function GetterRequests(g: Getter): Requests
  {
    match g
    case Manual(_, _, port, server) =>
      (if server == "" then [] else [(Host, server)]) + (if port == "0" then [] else [(Port, port)])
    case Pac(_, Some((_, host))) => [(Host, host)]
    case Bypass(domains) => DomainRequests(domains)
    case _ => []
  }

  function GettersRequests(getters: seq<Getter>): Requests
  {
    if getters == [] then [] else GetterRequests(getters[0]) + GettersRequests(getters[1..])
  }

  function RequestsOf(p: Parsed): Requests
  {
    [(Interface, p.interfaceName), (Service, p.service), (HardwarePort, p.hardwarePort)] + GettersRequests(p.getters)
  }

  type Naming = map<Kind, map<string, string>>

  function NameOf(values: Naming, kind: Kind, value: string): string
  {
    if kind in values && value in values[kind] then values[kind][value] else ""
  }

  function YesNo(b: bool): string
  {
    if b then "Yes" else "No"
  }

  function ManualLines(enabled: bool, server: string, port: string, authenticated: string): seq<string>
  {
    ["Enabled: " + YesNo(enabled), "Server: " + server, "Port: " + port, "Authenticated Proxy Enabled: " + authenticated]
  }

  function DomainLines(domains: seq<(bool, string)>, values: Naming): seq<string>
  {
    if domains == [] then []
    else
      [(if domains[0].0 then "*." else "") + NameOf(values, Domain, domains[0].1)] + DomainLines(domains[1..], values)
  }

  /** What the fixture says a getter printed. */
  function GetterLines(g: Getter, values: Naming, service: string): seq<string>
    requires !g.NotAvailable?
  {
    match g
    case Manual(enabled, authenticated, port, server) =>
      ManualLines(enabled, if server == "" then "" else NameOf(values, Host, server),
                  if port == "0" then "0" else NameOf(values, Port, port), authenticated)
    case Pac(enabled, target) =>
      ["URL: " + (if target.None? then "(null)"
                  else target.value.0 + "//" + NameOf(values, Host, target.value.1) + "/proxy.pac"),
       "Enabled: " + YesNo(enabled)]
    case Bypass(domains) => if domains == [] then [NO_BYPASS + service + "."] else DomainLines(domains, values)
    case Discovery(on) => ["Auto Proxy Discovery: " + (if on then "On" else "Off")]
  }

  function GetterResult(g: Getter, values: Naming, service: string): RawResult
  {
    match g
    case NotAvailable(f) => Failure(f)
    case _ => Success(Unlines(GetterLines(g, values, service)))
  }

  /** The fixture's requests: route, service order, then the six getters. */
  function BuildRequests(p: Parsed, values: Naming): (r: seq<FixtureRequest>)
    requires |p.getters| == 6
    ensures |r| == 8
  {
    var interfaceName := NameOf(values, Interface, p.interfaceName);
    var service := NameOf(values, Service, p.service);
    var port := NameOf(values, HardwarePort, p.hardwarePort);
    [FixtureRequest(None, DefaultRoute, Success(Unlines(["route to: default", "interface: " + interfaceName])), RouteTool),
     FixtureRequest(None, ServiceOrder,
                    Success(Unlines(["(1) " + service, HARDWARE_PORT + port + DEVICE + interfaceName + ")"])), Networksetup)]
    + seq(6, i requires 0 <= i < 6 =>
            FixtureRequest(Some(service), ORDER[5 + i], GetterResult(p.getters[i], values, service), Networksetup))
  }

  // ---------------------------------------------------------------- the printed form

  function KindName(kind: RequestKind): string
  {
    match kind
    case ProductVersion => "macos-product-version"
    case BuildVersion => "macos-build-version"
    case Architecture => "macos-architecture"
    case DefaultRoute => "default-route"
    case ServiceOrder => "list-network-service-order"
    case HttpProxy => "get-http-proxy"
    case HttpsProxy => "get-https-proxy"
    case SocksProxy => "get-socks-proxy"
    case AutoProxyUrl => "get-auto-proxy-url"
    case BypassDomains => "get-proxy-bypass-domains"
    case AutoDiscovery => "get-proxy-auto-discovery"
  }

  function FailureName(kind: FailureKind): string
  {
    match kind
    case Failed => "failed"
    case OutputTooLarge => "output-too-large"
    case PermissionDenied => "permission-denied"
    case TimedOut => "timed-out"
    case Unavailable => "unavailable"
  }

  function ToolName(tool: Tool): string
  {
    if tool.RouteTool? then "route" else "networksetup"
  }

  function SourceName(kind: SourceKind): string
  {
    if kind.RealTartCapture? then "real-tart-capture" else "synthetic-test"
  }

  function EnvironmentName(environment: CaptureEnvironment): string
  {
    if environment.DisposableTartClone? then "disposable-tart-clone" else "repository-synthetic"
  }

  function OperandJson(operand: Option<string>): Json
  {
    match operand
    case None => Null
    case Some(service) => Object([Member("networkService", Str(service))])
  }

  function ResultJson(result: RawResult): Json
  {
    match result
    case Failure(kind) => Object([Member("kind", Str(FailureName(kind)))])
    case Success(stdout) => Object([Member("kind", Str("success")), Member("stdout", Str(stdout))])
  }

  function RequestJson(r: FixtureRequest): Json
  {
    Object([Member("operand", OperandJson(r.operand)), Member("requestKind", Str(KindName(r.kind))),
            Member("result", ResultJson(r.result)), Member("tool", Str(ToolName(r.tool)))])
  }

  function RequestsJson(requests: seq<FixtureRequest>): (r: seq<Json>)
    ensures |r| == |requests|
  {
    seq(|requests|, i requires 0 <= i < |requests| => RequestJson(requests[i]))
  }

  function Provenance(f: Fixture): seq<Member>
  {
    [Member("captureEnvironment", Str(EnvironmentName(f.captureEnvironment))),
     Member("capturePolicy", Str("read-only-system-proxy-v1")),
     Member("compiler", Str("macos-platform-transcript-v1")),
     Member("fixtureId", Str(f.fixtureId)),
     Member("sanitizedTranscriptSha256", Str(f.digest)),
     Member("sourceKind", Str(SourceName(f.sourceKind)))]
  }

  function ToolEvidence(tool: string, pathClass: string): Json
  {
    Object([Member("identity", Str(tool)), Member("pathClass", Str(pathClass)), Member("versionEvidence", Str("not-observable"))])
  }

  const TOOL_EVIDENCE: Json :=
    List([ToolEvidence("networksetup", "macos-system-networksetup"), ToolEvidence("route", "macos-system-route")])

  function Heading(f: Fixture): seq<Member>
  {
    [Member("architecture", Str(f.architecture)), Member("buildFamily", Str(f.buildFamily)),
     Member("fixtureKind", Str("macos-command-runner-system-proxy")), Member("locale", Str("C")),
     Member("platformFamily", Str("macos")), Member("productVersionFamily", Str(f.productVersionFamily))]
  }

  function FixtureJson(f: Fixture): Json
  {
    Object(Heading(f)
           + [Member("provenance", Object(Provenance(f)))]
           + [Member("requests", List(RequestsJson(f.requests))), Member("schemaVersion", Number(1)),
              Member("toolEvidence", TOOL_EVIDENCE)])
  }

  /** The file a fixture is stored as. */
  function FixtureText(f: Fixture): string
  {
    Document(FixtureJson(f))
  }

  /** The digest covers the printed request array only. */
  function Digest(platform: Platform, requests: seq<FixtureRequest>): string
  {
    platform.sha256(Document(List(RequestsJson(requests))))
  }

  function BuildFixture(platform: Platform, options: Options, p: Parsed, values: Naming): Fixture
    requires |p.getters| == 6 && IsProductVersion(p.productVersion) && IsBuildVersion(p.buildVersion)
  {
    var requests := BuildRequests(p, values);
    Fixture(p.architecture, p.buildVersion[..3], p.productVersion[..2] + ".x",
            if options.sourceKind.RealTartCapture? then DisposableTartClone else RepositorySynthetic,
            options.fixtureId, Digest(platform, requests), options.sourceKind, requests)
  }

  // ---------------------------------------------------------------- the closed schema

  predicate IsHexDigest(s: string)
  {
    |s| == 64 && forall i | 0 <= i < |s| :: IsDigit(s[i]) || 'a' <= s[i] <= 'f'
  }

  predicate IsClosedManual(stdout: string)
  {
    var values := KeyValues(stdout, MANUAL_FIELDS);
    && values.Ok?
    && "Enabled" in values.value && ParseBoolean(values.value["Enabled"]).Ok?
    && "Server" in values.value && "Port" in values.value && "Authenticated Proxy Enabled" in values.value
    && var server, port := values.value["Server"], values.value["Port"];
    && (server == "" || Matches(server, [Lit("proxy-host-"), Num, Lit(".fixture.invalid")]))
    && (port == "0" || (|port| == 5 && port[0] == '4' && AllDigits(port)))
    && values.value["Authenticated Proxy Enabled"] in ["0", "1"]
  }

  predicate IsClosedPac(stdout: string)
  {
    var values := KeyValues(stdout, ["Enabled", "URL"]);
    && values.Ok?
    && "Enabled" in values.value && ParseBoolean(values.value["Enabled"]).Ok?
    && "URL" in values.value
    && var url := values.value["URL"];
    || url == "(null)"
    || Matches(url, [Lit("http://proxy-host-"), Num, Lit(".fixture.invalid/proxy.pac")])
    || Matches(url, [Lit("https://proxy-host-"), Num, Lit(".fixture.invalid/proxy.pac")])
  }

  predicate IsClosedDomain(line: string)
  {
    || Matches(line, [Lit("domain-"), Num, Lit(".fixture.invalid")])
    || Matches(line, [Lit("*.domain-"), Num, Lit(".fixture.invalid")])
  }

  predicate IsClosedBypass(stdout: string, service: string)
  {
    var lines := StrictLines(stdout);
    && lines.Ok?
    && forall line | line in lines.value :: line == NO_BYPASS + service + "." || IsClosedDomain(line)
  }

  predicate IsClosedOutput(kind: RequestKind, stdout: string, service: string)
  {
    match kind
    case DefaultRoute => Matches(stdout, [Lit("route to: default\ninterface: interface-"), Num, Lit("\n")])
    case ServiceOrder =>
      Matches(stdout, [Lit("(1) network-service-"), Num, Lit("\n(Hardware Port: hardware-port-"), Num,
                       Lit(", Device: interface-"), Num, Lit(")\n")])
    case AutoProxyUrl => IsClosedPac(stdout)
    case BypassDomains => IsClosedBypass(stdout, service)
    case AutoDiscovery => stdout == "Auto Proxy Discovery: On\n" || stdout == "Auto Proxy Discovery: Off\n"
    case _ => IsClosedManual(stdout)
  }

  predicate IsClosedRequest(r: FixtureRequest, i: nat)
    requires i < 8
  {
    && r.kind == ORDER[3 + i]
    && r.tool == (if i == 0 then RouteTool else Networksetup)
    && (i < 2 ==> r.operand.None?)
    && (i >= 2 ==> r.operand.Some? && Matches(r.operand.value, [Lit("network-service-"), Num]))
    && (r.result.Success? ==>
          && ByteLength(r.result.stdout) <= 8192
          && IsClosedOutput(r.kind, r.result.stdout, if i >= 2 then r.operand.value else ""))
  }

  /** Identity and provenance of a fixture. */
  predicate IsValidHeading(f: Fixture)
  {
    && f.architecture in ["arm64", "x86_64"]
    && |f.productVersionFamily| == 4 && IsDigit(f.productVersionFamily[0]) && IsDigit(f.productVersionFamily[1])
    && f.productVersionFamily[2..] == ".x"
    && |f.buildFamily| == 3 && IsDigit(f.buildFamily[0]) && IsDigit(f.buildFamily[1]) && 'A' <= f.buildFamily[2] <= 'Z'
    && IsSlug(f.fixtureId) && IsHexDigest(f.digest)
    && (f.sourceKind.RealTartCapture? <==> f.captureEnvironment.DisposableTartClone?)
  }

  predicate AreClosedRequests(requests: seq<FixtureRequest>)
  {
    |requests| == 8 && forall i | 0 <= i < 8 :: IsClosedRequest(requests[i], i)
  }

  /** The validator every fixture must pass, including the compiler's own. */
  predicate IsValidFixture(platform: Platform, f: Fixture)
  {
    && IsValidHeading(f) && AreClosedRequests(f.requests)
    && f.digest == Digest(platform, f.requests)
    && ByteLength(FixtureText(f)) <= 65536
  }
}
