/**
  Compiler and validator agree: whatever the compiler emits from an accepted transcript meets the
  closed schema.
 */
module TranscriptValidity {
  import opened Results
  import opened Text
  import opened Pseudonyms
  import opened TranscriptParse
  import opened TranscriptFixture
  import opened TranscriptAgreement
  import opened TranscriptRenaming

  // ---------------------------------------------------------------- what parsing guarantees

  ghost predicate GetterFits(kind: RequestKind, g: Getter)
  {
    match g
    case NotAvailable(_) => true
    case Manual(_, authenticated, _, _) =>
      kind in {HttpProxy, HttpsProxy, SocksProxy} && (authenticated == "0" || authenticated == "1")
    case Pac(_, target) =>
      kind == AutoProxyUrl && (target.Some? ==> target.value.0 == "http:" || target.value.0 == "https:")
    case Bypass(domains) => kind == BypassDomains && |domains| <= 64
    case Discovery(_) => kind == AutoDiscovery
  }

  ghost predicate WellParsed(p: Parsed)
  {
    && |p.getters| == 6
    && (forall i | 0 <= i < 6 :: GetterFits(ORDER[5 + i], p.getters[i]))
    && IsProductVersion(p.productVersion) && IsBuildVersion(p.buildVersion)
    && (p.architecture == "arm64" || p.architecture == "x86_64")
  }

  lemma {:induction false} DomainsParsed(lines: seq<string>)
    ensures ParseDomains(lines).Ok? ==> |ParseDomains(lines).value| == |lines|
    decreases |lines|
  {
    if lines != [] {
      DomainsParsed(lines[1..]);
    }
  }

  lemma GetterParsed(platform: Platform, kind: RequestKind, result: RawResult, service: string)
    requires kind in ORDER[5..]
    ensures var g := ParseGetter(platform, kind, result, service); g.Ok? ==> GetterFits(kind, g.value)
  {
    hide KeyValues, StrictLines, ParseBoolean, IsPortText, TrimmedNonEmpty;
    if result.Success? && kind == BypassDomains && StrictLines(result.stdout).Ok? {
      DomainsParsed(TrimmedNonEmpty(StrictLines(result.stdout).value));
      hide ParseDomains;
    }
  }

  lemma {:induction false} GettersParsed(platform: Platform, records: seq<RawRecord>, service: string, i: nat)
    requires forall record | record in records :: record.kind in ORDER[5..]
    requires ParseGetters(platform, records, service).Ok? && i < |records|
    ensures GetterFits(records[i].kind, ParseGetters(platform, records, service).value[i])
    decreases |records|
  {
    hide ParseGetter, GetterFits;
    if i == 0 {
      GetterParsed(platform, records[0].kind, records[0].result, service);
    } else {
      GettersParsed(platform, records[1..], service, i - 1);
    }
  }

  lemma HeaderParsed(raw: seq<RawRecord>)
    requires ParseHeader(raw).Ok?
    ensures var h := ParseHeader(raw).value;
            && |raw| == 11 && (forall i | 0 <= i < 11 :: raw[i].kind == ORDER[i])
            && IsProductVersion(h.productVersion) && IsBuildVersion(h.buildVersion)
            && (h.architecture == "arm64" || h.architecture == "x86_64")
  {
    hide IsBounded, IsCommand, ParseNetwork, IsProductVersion, IsBuildVersion, Trim;
  }

  lemma TranscriptParsed(platform: Platform, options: Options, raw: seq<RawRecord>)
    requires ParseTranscript(platform, options, raw).Ok?
    ensures WellParsed(ParseTranscript(platform, options, raw).value) && IsSlug(options.fixtureId)
  {
    hide ParseHeader, GetterFits, IsProductVersion, IsBuildVersion, IsSlug, ParseGetter;
    GetterKinds(raw);
    HeaderParsed(raw);
    var p := ParseTranscript(platform, options, raw).value;
    forall i | 0 <= i < 6 ensures GetterFits(ORDER[5 + i], p.getters[i]) {
      GettersParsed(platform, raw[5..], ParseHeader(raw).value.service, i);
      assert raw[5..][i] == raw[5 + i];
    }
  }

  // ---------------------------------------------------------------- how many identifiers there can be

  lemma {:induction false} DomainRequestsCount(domains: seq<(bool, string)>)
    ensures |DomainRequests(domains)| == |domains|
    decreases |domains|
  {
    if domains != [] {
      DomainRequestsCount(domains[1..]);
    }
  }

  lemma GetterRequestsCount(kind: RequestKind, g: Getter)
    requires GetterFits(kind, g)
    ensures |GetterRequests(g)| <= if kind == BypassDomains then 64 else 2
  {
    if g.Bypass? {
      DomainRequestsCount(g.domains);
    }
  }

  lemma RequestsCount(p: Parsed)
    requires WellParsed(p)
    ensures |RequestsOf(p)| <= 77
  {
    hide GetterRequests, GetterFits, IsProductVersion, IsBuildVersion;
    var gs := p.getters;
    GetterRequestsCount(HttpProxy, gs[0]);
    GetterRequestsCount(HttpsProxy, gs[1]);
    GetterRequestsCount(SocksProxy, gs[2]);
    GetterRequestsCount(AutoProxyUrl, gs[3]);
    GetterRequestsCount(BypassDomains, gs[4]);
    GetterRequestsCount(AutoDiscovery, gs[5]);
    assert gs[5..][1..] == [];
    assert gs[4..][1..] == gs[5..] && gs[3..][1..] == gs[4..] && gs[2..][1..] == gs[3..];
    assert gs[1..][1..] == gs[2..] && gs[0..] == gs;
    assert |GettersRequests(gs[5..])| <= 2;
    assert |GettersRequests(gs[4..])| <= 66;
    assert |GettersRequests(gs[3..])| <= 68;
    assert |GettersRequests(gs[2..])| <= 70;
    assert |GettersRequests(gs[1..])| <= 72;
  }

  lemma {:induction false} SourcesCount(requests: Requests, kind: Kind)
    ensures |SourcesOf(requests, kind)| <= |requests| && |AllSources(requests)| <= |requests|
    decreases |requests|
  {
    if requests != [] {
      var front, last := requests[..|requests| - 1], requests[|requests| - 1];
      SourcesCount(front, kind);
      assert requests == front + [last];
      assert AllSources(requests) == AllSources(front) + {last.1};
    }
  }

  /** Every emitted name is a pseudonym with a small number. */
  lemma NameIsSmall(p: Parsed, values: Naming, kind: Kind, value: string) returns (n: nat)
    requires WellParsed(p) && IsSealed(RequestsOf(p), values) && (kind, value) in RequestsOf(p)
    ensures 1 <= n <= 154 && NameOf(values, kind, value) == Pseudonym(n, kind)
  {
    hide WellParsed, IsSealed, RequestsOf, Pseudonym, SourcesOf, AllSources;
    RequestsCount(p);
    SourcesCount(RequestsOf(p), kind);
    n := SealedName(RequestsOf(p), values, kind, value);
  }

  // ---------------------------------------------------------------- emitted lines are clean

  lemma DigitsAreClean(s: string)
    requires AllDigits(s)
    ensures IsClean(s) && !IsWhite(s[0]) && !IsWhite(s[|s| - 1])
  {
    assert IsDigit(s[0]) && IsDigit(s[|s| - 1]);
  }

  lemma {:induction false} LeadingFour(m: nat, k: nat)
    requires 4 * Power10(k) <= m < 5 * Power10(k)
    ensures |Decimal(m)| == k + 1 && Decimal(m)[0] == '4'
    decreases k
  {
    if k > 0 {
      assert Power10(k) == 10 * Power10(k - 1);
      assert 4 * Power10(k - 1) <= m / 10 < 5 * Power10(k - 1);
      LeadingFour(m / 10, k - 1);
    }
  }

  lemma SmallDecimal(n: nat)
    requires n <= 154
    ensures |Decimal(n)| <= 3 && |Decimal(40000 + n)| == 5 && Decimal(40000 + n)[0] == '4'
  {
    assert Power10(2) == 100 && Power10(3) == 1000;
    assert Power10(4) == 10000;
    hide Decimal, Power10;
    DecimalLength(n, 3, 1000);
    LeadingFour(40000 + n, 4);
  }

  /** Clean text without white space at its ends, of moderate length. */
  ghost predicate IsWord(s: string)
  {
    && IsClean(s) && 3 <= |s| <= 60
    && !IsWhite(s[0]) && !IsWhite(s[|s| - 1])
  }

  lemma NumberedWord(prefix: string, n: nat, suffix: string)
    requires n <= 154 && 2 <= |prefix| <= 27 && |suffix| <= 30
    requires IsClean(prefix) && IsClean(suffix)
    requires !IsWhite(prefix[0]) && (suffix == [] || !IsWhite(suffix[|suffix| - 1]))
    ensures IsWord(prefix + Decimal(n) + suffix)
  {
    SmallDecimal(n);
    DigitsAreClean(Decimal(n));
    hide Decimal, IsClean, IsWhite;
    CleanConcat(prefix, Decimal(n));
    CleanConcat(prefix + Decimal(n), suffix);
  }

  lemma PseudonymText(n: nat, kind: Kind)
    requires n <= 154
    ensures IsWord(Pseudonym(n, kind))
  {
    hide IsWord, Decimal;
    assert IsClean("domain-") && IsClean("hardware-port-") && IsClean("proxy-host-") && IsClean("interface-");
    assert IsClean("network-service-") && IsClean(".fixture.invalid") && IsClean("");
    hide IsClean;
    match kind
    case Domain => NumberedWord("domain-", n, ".fixture.invalid");
    case HardwarePort => NumberedWord("hardware-port-", n, ""); assert Pseudonym(n, kind) == "hardware-port-" + Decimal(n) + "";
    case Host => NumberedWord("proxy-host-", n, ".fixture.invalid");
    case Interface => NumberedWord("interface-", n, ""); assert Pseudonym(n, kind) == "interface-" + Decimal(n) + "";
    case Port => PortWord(n);
    case Service => NumberedWord("network-service-", n, ""); assert Pseudonym(n, kind) == "network-service-" + Decimal(n) + "";
  }

  lemma PortWord(n: nat)
    requires n <= 154
    ensures IsWord(Decimal(40000 + n))
  {
    SmallDecimal(n);
    DigitsAreClean(Decimal(40000 + n));
    hide Decimal;
  }

  /** An emitted line: clean, safely started, short. */
  ghost predicate IsEmitted(line: string)
  {
    IsCleanLine(line) && |line| <= 100
  }

  lemma EmittedLine(prefix: string, word: string)
    requires IsClean(prefix) && IsSafeStart(prefix) && |prefix| <= 40
    requires word == "" || IsWord(word)
    ensures IsEmitted(prefix + word)
  {
    hide IsSafeStart, IsClean;
    CleanConcat(prefix, word);
    SafeStartExtends(prefix, word);
  }

  // ---------------------------------------------------------------- printed fields read back

  /** Keys and values as `key: value` lines. */
  function FieldLines(fields: seq<(string, string)>): (lines: seq<string>)
    ensures |lines| == |fields|
  {
    seq(|fields|, i requires 0 <= i < |fields| => fields[i].0 + ": " + fields[i].1)
  }

  ghost predicate IsTrimmed(s: string)
  {
    s == [] || (!IsWhite(s[0]) && !IsWhite(s[|s| - 1]))
  }

  ghost predicate AreFields(fields: seq<(string, string)>, allowed: seq<string>)
  {
    && (forall f | f in fields :: f.0 in allowed && f.0 != [] && ':' !in f.0 && IsTrimmed(f.0) && IsTrimmed(f.1))
    && (forall i, j | 0 <= i < j < |fields| :: fields[i].0 != fields[j].0)
  }

  lemma {:induction false} FieldsReadBack(values: map<string, string>, fields: seq<(string, string)>, allowed: seq<string>)
    requires AreFields(fields, allowed) && forall f | f in fields :: f.0 !in values
    ensures var r := Fields(values, FieldLines(fields), allowed);
            && r.Ok?
            && (forall f | f in fields :: f.0 in r.value && r.value[f.0] == f.1)
            && (forall k | k in values :: k in r.value && r.value[k] == values[k])
    decreases |fields|
  {
    if fields != [] {
      var f, rest := fields[0], fields[1..];
      assert f in fields && fields == [f] + rest;
      FieldReadBack(f.0, f.1);
      hide Field;
      var next := values[f.0 := f.1];
      assert AddField(values, FieldLines(fields)[0], allowed) == Ok(next);
      assert FieldLines(fields)[1..] == FieldLines(rest);
      forall g | g in rest ensures g in fields && g.0 !in next {
        var i :| 0 <= i < |rest| && rest[i] == g;
        assert fields[0].0 != fields[i + 1].0;
      }
      FieldsReadBack(next, rest, allowed);
    }
  }

  lemma KeyValuesReadBack(fields: seq<(string, string)>, allowed: seq<string>)
    requires AreFields(fields, allowed) && |fields| <= 256
    requires forall line | line in FieldLines(fields) :: IsCleanLine(line)
    ensures var r := KeyValues(Unlines(FieldLines(fields)), allowed);
            && r.Ok? && forall f | f in fields :: f.0 in r.value && r.value[f.0] == f.1
  {
    hide IsCleanLine, StrictLines, Fields, AreFields;
    StrictLinesReadBack(FieldLines(fields));
    FieldsReadBack(map[], fields, allowed);
  }

  // ---------------------------------------------------------------- each output is closed

  lemma WordIsTrimmed(s: string)
    requires s == "" || IsWord(s)
    ensures IsTrimmed(s)
  {
  }

  lemma HostMatches(n: nat)
    ensures Matches(Pseudonym(n, Host), [Lit("proxy-host-"), Num, Lit(".fixture.invalid")])
  {
    Numbered("proxy-host-", n, ".fixture.invalid");
  }

  lemma MatchesEmpty()
    ensures Matches([], [])
  {
  }

  /** A literal, a number, a literal. */
  lemma Numbered(prefix: string, n: nat, suffix: string)
    requires suffix != [] && !IsDigit(suffix[0])
    ensures Matches(prefix + Decimal(n) + suffix, [Lit(prefix), Num, Lit(suffix)])
  {
    hide Matches, Decimal;
    MatchesEmpty();
    MatchLit(suffix, [], []);
    assert suffix + [] == suffix && [Lit(suffix)] + [] == [Lit(suffix)];
    MatchNum(n, suffix, [Lit(suffix)]);
    assert [Num] + [Lit(suffix)] == [Num, Lit(suffix)];
    MatchLit(prefix, Decimal(n) + suffix, [Num, Lit(suffix)]);
    assert prefix + (Decimal(n) + suffix) == prefix + Decimal(n) + suffix;
    assert [Lit(prefix)] + [Num, Lit(suffix)] == [Lit(prefix), Num, Lit(suffix)];
  }

  ghost predicate IsHostName(s: string)
  {
    s == "" || exists n: nat :: n <= 154 && s == Pseudonym(n, Host)
  }

  ghost predicate IsPortName(s: string)
  {
    s == "0" || exists n: nat :: n <= 154 && s == Pseudonym(n, Port)
  }

  lemma HostNameText(s: string)
    requires IsHostName(s)
    ensures (s == "" || IsWord(s)) && (s == "" || Matches(s, [Lit("proxy-host-"), Num, Lit(".fixture.invalid")]))
  {
    hide Pseudonym, IsWord, Matches;
    if s != "" {
      var n: nat :| n <= 154 && s == Pseudonym(n, Host);
      PseudonymText(n, Host);
      HostMatches(n);
    }
  }

  lemma PortNameText(s: string)
    requires IsPortName(s)
    ensures IsClean(s) && 1 <= |s| <= 60 && IsTrimmed(s)
    ensures s == "0" || (|s| == 5 && s[0] == '4' && AllDigits(s))
  {
    hide Decimal;
    if s != "0" {
      var n: nat :| n <= 154 && s == Pseudonym(n, Port);
      SmallDecimal(n);
      DigitsAreClean(s);
    } else {
      DigitsAreClean(s);
    }
  }

  lemma ShortLine(prefix: string, text: string)
    requires IsClean(prefix) && IsSafeStart(prefix) && |prefix| <= 40 && IsClean(text) && |text| <= 60
    ensures IsEmitted(prefix + text)
  {
    hide IsSafeStart, IsClean;
    CleanConcat(prefix, text);
    SafeStartExtends(prefix, text);
  }

  lemma ManualPrefixes()
    ensures IsClean("Enabled: ") && IsSafeStart("Enabled: ") && IsClean("Server: ") && IsSafeStart("Server: ")
    ensures IsClean("Port: ") && IsSafeStart("Port: ")
    ensures IsClean("Authenticated Proxy Enabled: ") && IsSafeStart("Authenticated Proxy Enabled: ")
    ensures IsClean("Yes") && IsClean("No") && IsClean("0") && IsClean("1") && IsClean("")
  {
  }

  lemma WordIsClean(s: string)
    requires s == "" || IsWord(s)
    ensures IsClean(s) && |s| <= 60
  {
  }

  lemma ManualEmitted(enabled: bool, server: string, port: string, authenticated: string)
    requires IsHostName(server) && IsPortName(port) && (authenticated == "0" || authenticated == "1")
    ensures forall line | line in ManualLines(enabled, server, port, authenticated) :: IsEmitted(line)
  {
    hide IsEmitted, IsClean, IsSafeStart, IsHostName, IsPortName, IsWord;
    ManualPrefixes();
    HostNameText(server);
    WordIsClean(server);
    PortNameText(port);
    ShortLine("Enabled: ", YesNo(enabled));
    ShortLine("Server: ", server);
    ShortLine("Port: ", port);
    ShortLine("Authenticated Proxy Enabled: ", authenticated);
  }

  function ManualFields(enabled: bool, server: string, port: string, authenticated: string): seq<(string, string)>
  {
    [("Enabled", YesNo(enabled)), ("Server", server), ("Port", port), ("Authenticated Proxy Enabled", authenticated)]
  }

  lemma ManualFieldLines(enabled: bool, server: string, port: string, authenticated: string)
    ensures FieldLines(ManualFields(enabled, server, port, authenticated))
            == ManualLines(enabled, server, port, authenticated)
  {
    assert "Enabled" + ": " == "Enabled: " && "Server" + ": " == "Server: " && "Port" + ": " == "Port: ";
    assert "Authenticated Proxy Enabled" + ": " == "Authenticated Proxy Enabled: ";
  }

  ghost predicate IsKey(key: string)
  {
    key != [] && ':' !in key && IsTrimmed(key)
  }

  lemma ManualKeys()
    ensures IsKey("Enabled") && IsKey("Server") && IsKey("Port") && IsKey("Authenticated Proxy Enabled")
    ensures IsTrimmed("Yes") && IsTrimmed("No") && IsTrimmed("0") && IsTrimmed("1")
  {
  }

  lemma ManualKeysDiffer()
    ensures "Enabled" != "Server" && "Enabled" != "Port" && "Enabled" != "Authenticated Proxy Enabled"
    ensures "Server" != "Port" && "Server" != "Authenticated Proxy Enabled" && "Port" != "Authenticated Proxy Enabled"
  {
    assert "Enabled"[0] == 'E' && "Server"[0] == 'S' && "Port"[0] == 'P' && "Authenticated Proxy Enabled"[0] == 'A';
  }

  lemma ManualAreFields(enabled: bool, server: string, port: string, authenticated: string)
    requires IsTrimmed(server) && IsTrimmed(port) && (authenticated == "0" || authenticated == "1")
    ensures AreFields(ManualFields(enabled, server, port, authenticated), MANUAL_FIELDS)
  {
    ManualKeys();
    ManualKeysDiffer();
    hide IsTrimmed;
  }

  lemma ManualReadBack(enabled: bool, server: string, port: string, authenticated: string)
    requires IsHostName(server) && IsPortName(port) && (authenticated == "0" || authenticated == "1")
    ensures var r := KeyValues(Unlines(ManualLines(enabled, server, port, authenticated)), MANUAL_FIELDS);
            && r.Ok? && forall f | f in ManualFields(enabled, server, port, authenticated) :: f.0 in r.value && r.value[f.0] == f.1
  {
    var fields := ManualFields(enabled, server, port, authenticated);
    HostNameText(server);
    WordIsTrimmed(server);
    PortNameText(port);
    ManualAreFields(enabled, server, port, authenticated);
    ManualFieldLines(enabled, server, port, authenticated);
    ManualEmitted(enabled, server, port, authenticated);
    hide *;
    assert forall line | line in FieldLines(fields) :: IsCleanLine(line);
    KeyValuesReadBack(fields, MANUAL_FIELDS);
  }

  /** The printed manual proxy is closed. */
  lemma ManualClosed(enabled: bool, server: string, port: string, authenticated: string)
    requires IsHostName(server) && IsPortName(port) && (authenticated == "0" || authenticated == "1")
    ensures IsClosedManual(Unlines(ManualLines(enabled, server, port, authenticated)))
  {
    var fields := ManualFields(enabled, server, port, authenticated);
    assert fields[0] in fields && fields[1] in fields && fields[2] in fields && fields[3] in fields;
    hide IsHostName, IsPortName, IsWord, Matches, IsClean, KeyValues, Unlines, ManualLines, IsTrimmed;
    HostNameText(server);
    PortNameText(port);
    ManualReadBack(enabled, server, port, authenticated);
  }
}
