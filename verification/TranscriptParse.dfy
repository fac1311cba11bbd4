/** Reading the recorded macOS command outputs, fail closed. */
module TranscriptParse {
  import opened Results
  import opened Text

  datatype FailureKind = Failed | OutputTooLarge | PermissionDenied | TimedOut | Unavailable

  datatype RequestKind =
    | ProductVersion | BuildVersion | Architecture | DefaultRoute | ServiceOrder
    | HttpProxy | HttpsProxy | SocksProxy | AutoProxyUrl | BypassDomains | AutoDiscovery

  datatype RawResult = Failure(kind: FailureKind) | Success(stdout: string)

  datatype RawRecord = RawRecord(arguments: seq<string>, program: string, kind: RequestKind, result: RawResult)

  datatype TranscriptError =
    | BadFixtureId | WrongCommandCount | OversizedRecord | WrongSequence | WrongCommand | CommandFailed
    | NulByte | ForbiddenShape | TooManyLines | BadLine | MalformedField | UnexpectedField | RepeatedField
    | MissingField | BadBoolean | BadAuthentication | BadPort | OversizedServer | BadUrl | ForbiddenUrl
    | BadInterface | NoServiceMapping | BadServiceMetadata | BadServiceName
    | BadEmptyBypass | OversizedBypass | BadDomain | BadProductVersion | BadBuildVersion | BadArchitecture
    | UnreservedValue | OversizedOutput | RawIdentifierRetained | InvalidFixture

  /** What `new URL` reports about a text it accepts. */
  datatype Url = Url(protocol: string, username: string, password: string, search: string, hash: string, hostname: string)

  // ---------------------------------------------------------------- lines

  function CharBytes(c: char): nat
  {
    if c < '\U{80}' then 1 else if c < '\U{800}' then 2 else if c < '\U{10000}' then 3 else 4
  }

  function ByteLength(s: string): nat
  {
    if s == [] then 0 else CharBytes(s[0]) + ByteLength(s[1..])
  }

  /** Carriage return and line feed become one line feed. */
  function ReplaceCrlf(s: string): string
  {
    if |s| >= 2 && s[0] == '\r' && s[1] == '\n' then ['\n'] + ReplaceCrlf(s[2..])
    else if s == [] then []
    else [s[0]] + ReplaceCrlf(s[1..])
  }

  predicate IsControl(c: char)
  {
    c <= '\U{8}' || c == '\U{B}' || c == '\U{C}' || '\U{E}' <= c <= '\U{1F}' || c == '\U{7F}'
  }

  /** Case folding as far as the keywords below need it. */
  function Fold(c: char): char
  {
    if 'A' <= c <= 'Z' then c - 'A' + 'a' else if c == '\U{17F}' then 's' else if c == '\U{212A}' then 'k' else c
  }

  predicate FoldedPrefix(word: string, s: string)
  {
    |word| <= |s| && forall i | 0 <= i < |word| :: Fold(s[i]) == word[i]
  }

  predicate IsLineStart(s: string, i: nat)
  {
    i <= |s| && (i == 0 || s[i - 1] == '\n')
  }

  /** A line start, then white space, then the word. */
  predicate WordStartsLine(s: string, j: nat, word: string)
  {
    && j <= |s|
    && FoldedPrefix(word, s[j..])
    && exists i | 0 <= i <= j :: IsLineStart(s, i) && forall k | i <= k < j :: IsWhite(s[k])
  }

  /** The word is followed by white space and one of the separators. */
  predicate HasField(s: string, word: string, separators: seq<char>)
  {
    exists j | 0 <= j <= |s| ::
      && WordStartsLine(s, j, word)
      && var rest := TrimStart(s[j + |word|..]); rest != [] && rest[0] in separators
  }

  predicate IsPemLabel(s: string)
  {
    forall k | 0 <= k < |s| :: 'A' <= s[k] <= 'Z' || s[k] == ' '
  }

  predicate HasPem(s: string)
  {
    exists i, k | 0 <= i <= k <= |s| ::
      && "-----BEGIN " <= s[i..]
      && i + 11 <= k && IsPemLabel(s[i + 11..k])
      && ("PRIVATE KEY-----" <= s[k..] || "CERTIFICATE-----" <= s[k..])
  }

  predicate IsForbidden(s: string)
  {
    || HasPem(s)
    || (exists word | word in ["password", "secret", "token", "proxy-authorization"] :: HasField(s, word, [':', '=']))
    || (exists word | word in ["proxies", "proxy-providers", "rules", "payload"] :: HasField(s, word, [':']))
  }

  predicate IsAcceptableLine(line: string)
  {
    ByteLength(line) <= 1024 && forall i | 0 <= i < |line| :: !IsControl(line[i])
  }

  function StrictLines(output: string): Result<seq<string>, TranscriptError>
  {
    if '\0' in output then Err(NulByte)
    else if IsForbidden(output) then Err(ForbiddenShape)
    else
      var all := Split(ReplaceCrlf(output));
      var lines := if all[|all| - 1] == [] then all[..|all| - 1] else all;
      if |lines| > 256 then Err(TooManyLines)
      else if exists line | line in lines :: !IsAcceptableLine(line) then Err(BadLine)
      else Ok(lines)
  }

  // ---------------------------------------------------------------- fields

  /** One `key: value` line. */
  function Field(line: string): Result<(string, string), TranscriptError>
  {
    var separator := IndexOf(line, ':');
    if separator == 0 || separator == |line| then Err(MalformedField)
    else Ok((Trim(line[..separator]), Trim(line[separator + 1..])))
  }

  function AddField(values: map<string, string>, line: string, allowed: seq<string>)
    : Result<map<string, string>, TranscriptError>
  {
    match Field(line)
    case Err(e) => Err(e)
    case Ok((key, value)) =>
      if key !in allowed then Err(UnexpectedField)
      else if key in values then Err(RepeatedField)
      else Ok(values[key := value])
  }

  function Fields(values: map<string, string>, lines: seq<string>, allowed: seq<string>)
    : Result<map<string, string>, TranscriptError>
    decreases |lines|
  {
    if lines == [] then Ok(values)
    else
      match AddField(values, lines[0], allowed)
      case Err(e) => Err(e)
      case Ok(values') => Fields(values', lines[1..], allowed)
  }

  function KeyValues(output: string, allowed: seq<string>): Result<map<string, string>, TranscriptError>
  {
    match StrictLines(output)
    case Err(e) => Err(e)
    case Ok(lines) => Fields(map[], lines, allowed)
  }

  /** The loop over the fields, as the source runs it. */
  method KeyValueLines(output: string, allowed: seq<string>) returns (r: Result<map<string, string>, TranscriptError>)
    ensures r == KeyValues(output, allowed)
  {
    hide StrictLines, AddField;
    var lines := StrictLines(output);
    if lines.Err? {
      return Err(lines.error);
    }
    r := Ok(map[]);
    for i := 0 to |lines.value|
      invariant r.Ok? && Fields(map[], lines.value, allowed) == Fields(r.value, lines.value[i..], allowed)
    {
      assert lines.value[i..][0] == lines.value[i] && lines.value[i..][1..] == lines.value[i + 1..];
      r := AddField(r.value, lines.value[i], allowed);
      if r.Err? {
        return;
      }
    }
  }

  function ParseBoolean(value: string): Result<bool, TranscriptError>
  {
    if value == "Yes" || value == "On" then Ok(true)
    else if value == "No" || value == "Off" then Ok(false)
    else Err(BadBoolean)
  }

  // ---------------------------------------------------------------- the getters' outputs

  datatype Getter =
    | NotAvailable(failure: FailureKind)
    | Manual(enabled: bool, authenticated: string, port: string, server: string)
    | Pac(pacEnabled: bool, target: Option<(string, string)>)
    | Bypass(domains: seq<(bool, string)>)
    | Discovery(on: bool)

  const MANUAL_FIELDS: seq<string> := ["Authenticated Proxy Enabled", "Enabled", "Port", "Server"]

  predicate IsPortText(port: string)
  {
    1 <= |port| <= 5 && AllDigits(port) && DigitsValue(port) <= 65535
  }

  function ParseManual(output: string): Result<Getter, TranscriptError>
  {
    match KeyValues(output, MANUAL_FIELDS)
    case Err(e) => Err(e)
    case Ok(values) =>
      if "Enabled" !in values then Err(MissingField)
      else if ParseBoolean(values["Enabled"]).Err? then Err(BadBoolean)
      else if "Authenticated Proxy Enabled" !in values then Err(MissingField)
      else if values["Authenticated Proxy Enabled"] != "0" && values["Authenticated Proxy Enabled"] != "1" then
        Err(BadAuthentication)
      else if "Port" !in values then Err(MissingField)
      else if !IsPortText(values["Port"]) then Err(BadPort)
      else if "Server" !in values then Err(MissingField)
      else if |values["Server"]| > 253 then Err(OversizedServer)
      else Ok(Manual(ParseBoolean(values["Enabled"]).value, values["Authenticated Proxy Enabled"],
                     values["Port"], values["Server"]))
  }

  function ParsePac(parseUrl: string -> Option<Url>, output: string): Result<Getter, TranscriptError>
  {
    match KeyValues(output, ["Enabled", "URL"])
    case Err(e) => Err(e)
    case Ok(values) =>
      if "Enabled" !in values then Err(MissingField)
      else if ParseBoolean(values["Enabled"]).Err? then Err(BadBoolean)
      else if "URL" !in values then Err(MissingField)
      else
        var enabled, url := ParseBoolean(values["Enabled"]).value, values["URL"];
        if url == "(null)" || url == "" then Ok(Pac(enabled, None))
        else
          match parseUrl(url)
          case None => Err(BadUrl)
          case Some(u) =>
            if (u.protocol == "http:" || u.protocol == "https:")
               && u.username == "" && u.password == "" && u.search == "" && u.hash == ""
            then Ok(Pac(enabled, Some((u.protocol, u.hostname))))
            else Err(ForbiddenUrl)
  }

  const NO_BYPASS: string := "There aren't any bypass domains set on "

  function TrimmedNonEmpty(lines: seq<string>): seq<string>
  {
    if lines == [] then []
    else
      var rest, line := TrimmedNonEmpty(lines[1..]), Trim(lines[0]);
      if line == [] then rest else [line] + rest
  }

  function ParseDomains(lines: seq<string>): Result<seq<(bool, string)>, TranscriptError>
  {
    if lines == [] then Ok([])
    else
      var domain := lines[0];
      var wildcard := "*." <= domain;
      var name := if wildcard then domain[2..] else domain;
      if |domain| > 253 || ':' in domain || name == [] then Err(BadDomain)
      else
        match ParseDomains(lines[1..])
        case Err(e) => Err(e)
        case Ok(rest) => Ok([(wildcard, name)] + rest)
  }

  function ParseBypass(output: string, service: string): Result<Getter, TranscriptError>
  {
    match StrictLines(output)
    case Err(e) => Err(e)
    case Ok(all) =>
      var lines := TrimmedNonEmpty(all);
      if lines == [] then Ok(Bypass([]))
      else if |lines| == 1 && NO_BYPASS <= lines[0] then
        if lines[0] == NO_BYPASS + service + "." then Ok(Bypass([])) else Err(BadEmptyBypass)
      else if |lines| > 64 then Err(OversizedBypass)
      else
        match ParseDomains(lines)
        case Err(e) => Err(e)
        case Ok(domains) => Ok(Bypass(domains))
  }

  function ParseDiscovery(output: string): Result<Getter, TranscriptError>
  {
    match KeyValues(output, ["Auto Proxy Discovery"])
    case Err(e) => Err(e)
    case Ok(values) =>
      if "Auto Proxy Discovery" !in values then Err(MissingField)
      else
        match ParseBoolean(values["Auto Proxy Discovery"])
        case Err(e) => Err(e)
        case Ok(on) => Ok(Discovery(on))
  }

  // ---------------------------------------------------------------- route and service order

  predicate IsAlpha(c: char)
  {
    'A' <= c <= 'Z' || 'a' <= c <= 'z'
  }

  predicate IsInterfaceName(s: string)
  {
    1 <= |s| <= 32 && IsAlpha(s[0]) && forall i | 0 <= i < |s| :: IsAlpha(s[i]) || IsDigit(s[i])
  }

  function WhiteRun(s: string): nat
    ensures WhiteRun(s) <= |s|
  {
    if s != [] && IsWhite(s[0]) then 1 + WhiteRun(s[1..]) else 0
  }

  /** Exactly `n` numbers separated by white space. */
  predicate IsNumberRow(s: string, n: nat)
    decreases n
  {
    if n == 0 then s == []
    else
      && DigitRun(s) > 0
      && var rest := s[DigitRun(s)..];
      && (n > 1 ==> WhiteRun(rest) > 0)
      && IsNumberRow(if n > 1 then rest[WhiteRun(rest)..] else rest, n - 1)
  }

  const ROUTE_FIELDS: seq<string> :=
    ["route to", "destination", "mask", "gateway", "interface", "flags", "recvpipe", "sendpipe", "ssthresh",
     "rtt,msec", "rttvar", "hopcount", "mtu", "expire"]

  const METRICS_HEADER: string :=
    "recvpipe  sendpipe  ssthresh  " + "rtt,msec    rttvar  hopcount  " + "    mtu     expire"

  function WithoutMetrics(lines: seq<string>): seq<string>
  {
    if lines == [] then []
    else
      var rest, trimmed := WithoutMetrics(lines[1..]), Trim(lines[0]);
      if trimmed == METRICS_HEADER || IsNumberRow(trimmed, 8) then rest else [lines[0]] + rest
  }

  function ParseRoute(output: string): Result<string, TranscriptError>
  {
    match StrictLines(output)
    case Err(e) => Err(e)
    case Ok(lines) =>
      match Fields(map[], WithoutMetrics(lines), ROUTE_FIELDS)
      case Err(e) => Err(e)
      case Ok(values) =>
        if "interface" !in values then Err(MissingField)
        else if !IsInterfaceName(values["interface"]) then Err(BadInterface)
        else Ok(values["interface"])
  }

  predicate EndsWith(s: string, suffix: string)
  {
    |suffix| <= |s| && s[|s| - |suffix|..] == suffix
  }

  /** The first line that ends, once trimmed, with the suffix; the length if there is none. */
  function FindEnding(lines: seq<string>, suffix: string): (i: nat)
    ensures i <= |lines|
  {
    if lines == [] || EndsWith(Trim(lines[0]), suffix) then 0 else 1 + FindEnding(lines[1..], suffix)
  }

  const HARDWARE_PORT: string := "(Hardware Port: "
  const DEVICE: string := ", Device: "

  /** `(Hardware Port: X, Device: Y)` gives X. */
  function ParseDetail(detail: string): Option<string>
  {
    if !(HARDWARE_PORT <= detail) then None
    else
      var rest := detail[|HARDWARE_PORT|..];
      var comma := IndexOf(rest, ',');
      var tail := rest[comma..];
      if 1 <= comma <= 128 && DEVICE <= tail && EndsWith(tail, ")") && |tail| > |DEVICE|
         && IsInterfaceName(tail[|DEVICE|..|tail| - 1])
      then Some(rest[..comma]) else None
  }

  /** `(N) name` or `(*) name` gives the name. */
  function ParseServiceName(line: string): Option<string>
  {
    if !("(" <= line) then None
    else
      var rest := line[1..];
      var mark := if DigitRun(rest) > 0 then DigitRun(rest) else if "*" <= rest then 1 else 0;
      if mark == 0 || !(")" <= rest[mark..]) then None
      else
        var tail := rest[mark + 1..];
        var name := tail[WhiteRun(tail)..];
        if WhiteRun(tail) > 0 && 1 <= |name| <= 128 && '\r' !in name && '\n' !in name then Some(name) else None
  }

  /** The hardware port and the service of the active interface. */
  function ParseServiceOrder(output: string, interfaceName: string): Result<(string, string), TranscriptError>
  {
    match StrictLines(output)
    case Err(e) => Err(e)
    case Ok(lines) =>
      var i := FindEnding(lines, "Device: " + interfaceName + ")");
      if i == 0 || i == |lines| then Err(NoServiceMapping)
      else
        match ParseDetail(Trim(lines[i]))
        case None => Err(BadServiceMetadata)
        case Some(port) =>
          match ParseServiceName(Trim(lines[i - 1]))
          case None => Err(BadServiceName)
          case Some(service) => Ok((port, service))
  }
}
