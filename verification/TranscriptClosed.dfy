/** Every output the compiler prints meets the closed schema, so the validator accepts its fixtures. */
module TranscriptClosed {
  import opened Results
  import opened Text
  import opened Pseudonyms
  import opened TranscriptParse
  import opened TranscriptFixture
  import opened TranscriptAgreement
  import opened TranscriptRenaming
  import opened TranscriptValidity

  // ---------------------------------------------------------------- PAC

  /** The printed PAC address of the host with the given number. */
  function PacAddress(protocol: string, n: nat): string
  {
    protocol + "//" + Pseudonym(n, Host) + "/proxy.pac"
  }

  ghost predicate IsPacText(url: string)
  {
    || url == "(null)"
    || exists n: nat :: n <= 154 && (url == PacAddress("http:", n) || url == PacAddress("https:", n))
  }

  lemma PacAddressParts(protocol: string, n: nat)
    ensures PacAddress(protocol, n) == (protocol + "//proxy-host-") + Decimal(n) + ".fixture.invalid/proxy.pac"
  {
    hide Decimal;
    assert "//" + "proxy-host-" == "//proxy-host-";
    assert ".fixture.invalid" + "/proxy.pac" == ".fixture.invalid/proxy.pac";
    assert protocol + "//" + ("proxy-host-" + Decimal(n) + ".fixture.invalid") + "/proxy.pac"
        == (protocol + ("//" + "proxy-host-")) + Decimal(n) + (".fixture.invalid" + "/proxy.pac");
  }

  lemma PacAddressText(protocol: string, n: nat)
    requires n <= 154 && (protocol == "http:" || protocol == "https:")
    ensures IsWord(PacAddress(protocol, n))
    ensures Matches(PacAddress(protocol, n), [Lit(protocol + "//proxy-host-"), Num, Lit(".fixture.invalid/proxy.pac")])
  {
    hide Decimal, IsWord, Matches, PacAddress;
    PacAddressParts(protocol, n);
    NumberedWord(protocol + "//proxy-host-", n, ".fixture.invalid/proxy.pac");
    Numbered(protocol + "//proxy-host-", n, ".fixture.invalid/proxy.pac");
  }

  lemma PacProtocols()
    ensures "http:" + "//proxy-host-" == "http://proxy-host-" && "https:" + "//proxy-host-" == "https://proxy-host-"
    ensures IsWord("(null)")
  {
  }

  lemma PacTextShape(url: string)
    requires IsPacText(url)
    ensures IsWord(url)
    ensures || url == "(null)"
            || Matches(url, [Lit("http://proxy-host-"), Num, Lit(".fixture.invalid/proxy.pac")])
            || Matches(url, [Lit("https://proxy-host-"), Num, Lit(".fixture.invalid/proxy.pac")])
  {
    hide IsWord, Matches, PacAddress;
    PacProtocols();
    if url != "(null)" {
      var n: nat :| n <= 154 && (url == PacAddress("http:", n) || url == PacAddress("https:", n));
      if url == PacAddress("http:", n) {
        PacAddressText("http:", n);
      } else {
        PacAddressText("https:", n);
      }
    }
  }

  function PacFields(enabled: bool, url: string): seq<(string, string)>
  {
    [("URL", url), ("Enabled", YesNo(enabled))]
  }

  lemma PacPrefixes()
    ensures IsClean("URL: ") && IsSafeStart("URL: ") && IsKey("URL")
    ensures "URL" + ": " == "URL: " && "Enabled" + ": " == "Enabled: " && "URL" != "Enabled"
  {
    assert "URL"[0] != "Enabled"[0];
  }

  lemma PacReadBack(enabled: bool, url: string)
    requires IsPacText(url)
    ensures forall line | line in ["URL: " + url, "Enabled: " + YesNo(enabled)] :: IsEmitted(line)
    ensures var r := KeyValues(Unlines(["URL: " + url, "Enabled: " + YesNo(enabled)]), ["Enabled", "URL"]);
            && r.Ok? && "URL" in r.value && r.value["URL"] == url
            && "Enabled" in r.value && r.value["Enabled"] == YesNo(enabled)
  {
    var fields := PacFields(enabled, url);
    PacPrefixes();
    ManualPrefixes();
    ManualKeys();
    PacTextShape(url);
    WordIsTrimmed(url);
    WordIsClean(url);
    hide IsClean, IsSafeStart, IsWord, IsPacText, Matches, IsTrimmed, KeyValues, Unlines, IsCleanLine;
    ShortLine("URL: ", url);
    ShortLine("Enabled: ", YesNo(enabled));
    assert FieldLines(fields) == ["URL: " + url, "Enabled: " + YesNo(enabled)];
    assert AreFields(fields, ["Enabled", "URL"]);
    hide AreFields, FieldLines;
    KeyValuesReadBack(fields, ["Enabled", "URL"]);
    assert fields[0] in fields && fields[1] in fields;
  }

  lemma PacClosed(enabled: bool, url: string)
    requires IsPacText(url)
    ensures IsClosedPac(Unlines(["URL: " + url, "Enabled: " + YesNo(enabled)]))
  {
    hide IsPacText, Matches, KeyValues, Unlines, IsWord, IsEmitted;
    PacReadBack(enabled, url);
    PacTextShape(url);
  }

  // ---------------------------------------------------------------- bypass domains

  ghost predicate IsDomainLine(line: string)
  {
    exists n: nat :: n <= 154 && (line == Pseudonym(n, Domain) || line == "*." + Pseudonym(n, Domain))
  }

  lemma DomainPrefixes()
    ensures IsClean("*.domain-") && IsSafeStart("*.domain-") && IsClean("domain-") && IsSafeStart("domain-")
    ensures IsClean(".fixture.invalid") && "*." + "domain-" == "*.domain-"
  {
  }

  lemma Regroup(a: string, b: string, middle: string, c: string)
    ensures a + (b + middle + c) == (a + b) + middle + c == (a + b) + (middle + c)
    ensures a + (b + middle) + c == (a + b) + middle + c
  {
  }

  lemma NumberedEmitted(prefix: string, n: nat, suffix: string)
    requires n <= 154 && IsClean(prefix) && IsSafeStart(prefix) && |prefix| <= 40 && IsClean(suffix) && |suffix| <= 50
    ensures IsEmitted(prefix + Decimal(n) + suffix)
  {
    SmallDecimal(n);
    DigitsAreClean(Decimal(n));
    hide IsClean, IsSafeStart, Decimal, IsEmitted;
    CleanConcat(Decimal(n), suffix);
    ShortLine(prefix, Decimal(n) + suffix);
    assert prefix + (Decimal(n) + suffix) == prefix + Decimal(n) + suffix;
  }

  lemma DomainLineClosed(line: string)
    requires IsDomainLine(line)
    ensures IsEmitted(line) && IsClosedDomain(line)
  {
    hide IsEmitted, Decimal, Matches, IsClean, IsSafeStart;
    var n: nat :| n <= 154 && (line == Pseudonym(n, Domain) || line == "*." + Pseudonym(n, Domain));
    DomainPrefixes();
    if line == Pseudonym(n, Domain) {
      NumberedEmitted("domain-", n, ".fixture.invalid");
      Numbered("domain-", n, ".fixture.invalid");
    } else {
      Regroup("*.", "domain-", Decimal(n), ".fixture.invalid");
      NumberedEmitted("*.domain-", n, ".fixture.invalid");
      Numbered("*.domain-", n, ".fixture.invalid");
    }
  }

  lemma BypassClosed(lines: seq<string>, service: string)
    requires |lines| <= 64 && forall line | line in lines :: IsDomainLine(line)
    ensures IsClosedBypass(Unlines(lines), service)
    ensures forall line | line in lines :: IsEmitted(line)
  {
    hide IsDomainLine, IsClosedDomain, StrictLines, Unlines;
    forall line | line in lines ensures IsEmitted(line) && IsClosedDomain(line) {
      DomainLineClosed(line);
    }
    StrictLinesReadBack(lines);
  }

  lemma NoBypassClosed(service: string)
    requires IsWord(service) && |service| <= 30
    ensures IsClosedBypass(Unlines([NO_BYPASS + service + "."]), service)
    ensures IsEmitted(NO_BYPASS + service + ".")
  {
    assert IsClean(NO_BYPASS) && IsSafeStart(NO_BYPASS) && IsClean(".");
    hide IsClean, IsSafeStart, StrictLines, Unlines;
    CleanConcat(service, ".");
    ShortLine(NO_BYPASS, service + ".");
    var line := NO_BYPASS + service + ".";
    assert NO_BYPASS + (service + ".") == line;
    StrictLinesReadBack([line]);
  }

  // ---------------------------------------------------------------- discovery, route, service order

  lemma UnlinesOne(a: string)
    ensures Unlines([a]) == a + "\n"
  {
    assert [a][1..] == [] && Unlines([]) == [];
  }

  lemma DiscoveryText()
    ensures "Auto Proxy Discovery: " + "On" + "\n" == "Auto Proxy Discovery: On\n"
    ensures "Auto Proxy Discovery: " + "Off" + "\n" == "Auto Proxy Discovery: Off\n"
  {
  }

  lemma DiscoveryEmitted()
    ensures IsEmitted("Auto Proxy Discovery: " + "On") && IsEmitted("Auto Proxy Discovery: " + "Off")
  {
    assert IsClean("Auto Proxy Discovery: ") && IsSafeStart("Auto Proxy Discovery: ") && IsClean("On") && IsClean("Off");
    hide IsClean, IsSafeStart, IsEmitted;
    ShortLine("Auto Proxy Discovery: ", "On");
    ShortLine("Auto Proxy Discovery: ", "Off");
  }

  lemma DiscoveryClosed(on: bool, service: string)
    ensures IsClosedOutput(AutoDiscovery, Unlines(["Auto Proxy Discovery: " + (if on then "On" else "Off")]), service)
    ensures IsEmitted("Auto Proxy Discovery: " + (if on then "On" else "Off"))
  {
    hide IsEmitted, Unlines;
    UnlinesOne("Auto Proxy Discovery: " + (if on then "On" else "Off"));
    DiscoveryText();
    DiscoveryEmitted();
  }

  lemma UnlinesTwo(a: string, b: string)
    ensures Unlines([a, b]) == a + "\n" + b + "\n"
  {
    assert [a, b][1..] == [b] && [b][1..] == [] && Unlines([]) == [];
    assert Unlines([b]) == b + ['\n'] + [];
  }

  lemma RoutePrefixes()
    ensures IsEmitted("route to: default") && IsClean("interface: ") && IsSafeStart("interface: ")
  {
  }

  lemma RouteText()
    ensures ("route to: default" + "\n" + "interface: ") + "interface-" == "route to: default\ninterface: interface-"
  {
  }

  lemma RouteMatches(n: nat)
    ensures Matches("route to: default" + "\n" + ("interface: " + ("interface-" + Decimal(n))) + "\n",
                    [Lit("route to: default\ninterface: interface-"), Num, Lit("\n")])
  {
    hide Decimal, Matches;
    Numbered("route to: default\ninterface: interface-", n, "\n");
    RouteText();
    RegroupTail("route to: default" + "\n", "interface: ", "interface-", Decimal(n), "\n");
  }

  lemma RegroupTail(a: string, b: string, c: string, middle: string, d: string)
    ensures a + (b + (c + middle)) + d == ((a + b) + c) + middle + d
  {
  }

  lemma RouteClosed(n: nat)
    requires n <= 154
    ensures IsClosedOutput(DefaultRoute, Unlines(["route to: default", "interface: " + Pseudonym(n, Interface)]), "")
    ensures IsEmitted("route to: default") && IsEmitted("interface: " + Pseudonym(n, Interface))
  {
    hide Decimal, Matches, Unlines, IsEmitted, IsClean, IsSafeStart, IsWord;
    RoutePrefixes();
    PseudonymText(n, Interface);
    EmittedLine("interface: ", Pseudonym(n, Interface));
    UnlinesTwo("route to: default", "interface: " + Pseudonym(n, Interface));
    RouteMatches(n);
  }

  lemma OperandClosed(n: nat)
    ensures Matches(Pseudonym(n, Service), [Lit("network-service-"), Num])
  {
    hide Matches, Decimal;
    MatchesEmpty();
    MatchNum(n, [], []);
    assert [Num] + [] == [Num] && Decimal(n) + [] == Decimal(n);
    MatchLit("network-service-", Decimal(n), [Num]);
    assert [Lit("network-service-")] + [Num] == [Lit("network-service-"), Num];
  }

  /** A literal, a number, then whatever the rest matches. */
  lemma NumberedThen(prefix: string, n: nat, s: string, pieces: seq<Piece>)
    requires Matches(s, pieces) && s != [] && !IsDigit(s[0])
    ensures Matches(prefix + Decimal(n) + s, [Lit(prefix), Num] + pieces)
  {
    hide Matches, Decimal;
    MatchNum(n, s, pieces);
    MatchLit(prefix, Decimal(n) + s, [Num] + pieces);
    assert prefix + (Decimal(n) + s) == prefix + Decimal(n) + s;
    assert [Lit(prefix)] + ([Num] + pieces) == [Lit(prefix), Num] + pieces;
  }

  lemma ServiceOrderMatches(service: nat, port: nat, device: nat)
    ensures Matches("(1) network-service-" + Decimal(service) +
                    ("\n(Hardware Port: hardware-port-" + Decimal(port) + (", Device: interface-" + Decimal(device) + ")\n")),
                    [Lit("(1) network-service-"), Num, Lit("\n(Hardware Port: hardware-port-"), Num,
                     Lit(", Device: interface-"), Num, Lit(")\n")])
  {
    hide Matches, Decimal;
    Numbered(", Device: interface-", device, ")\n");
    var third := ", Device: interface-" + Decimal(device) + ")\n";
    var pieces3 := [Lit(", Device: interface-"), Num, Lit(")\n")];
    NumberedThen("\n(Hardware Port: hardware-port-", port, third, pieces3);
    var second := "\n(Hardware Port: hardware-port-" + Decimal(port) + third;
    var pieces2 := [Lit("\n(Hardware Port: hardware-port-"), Num] + pieces3;
    NumberedThen("(1) network-service-", service, second, pieces2);
    assert [Lit("(1) network-service-"), Num] + pieces2
        == [Lit("(1) network-service-"), Num, Lit("\n(Hardware Port: hardware-port-"), Num,
            Lit(", Device: interface-"), Num, Lit(")\n")];
  }

  lemma ServiceOrderRegroup(a1: string, a2: string, s: string, b1: string, b2: string, p: string, c1: string, c2: string,
                            d: string, e: string, nl: string)
    ensures (a1 + (a2 + s)) + nl + (b1 + (b2 + p) + c1 + (c2 + d) + e) + nl
         == (a1 + a2) + s + ((nl + b1 + b2) + p + ((c1 + c2) + d + (e + nl)))
  {
  }

  lemma ServiceOrderText()
    ensures "(1) " + "network-service-" == "(1) network-service-"
    ensures "\n" + HARDWARE_PORT + "hardware-port-" == "\n(Hardware Port: hardware-port-"
    ensures DEVICE + "interface-" == ", Device: interface-" && ")" + "\n" == ")\n"
  {
  }

  lemma ServiceOrderPrefixes()
    ensures IsClean("(1) ") && IsSafeStart("(1) ")
    ensures IsClean(HARDWARE_PORT) && IsSafeStart(HARDWARE_PORT) && IsClean(DEVICE) && IsClean(")")
  {
  }

  lemma DetailEmitted(port: nat, device: nat)
    requires port <= 154 && device <= 154
    ensures IsEmitted(HARDWARE_PORT + Pseudonym(port, HardwarePort) + DEVICE + Pseudonym(device, Interface) + ")")
  {
    SmallDecimal(port);
    SmallDecimal(device);
    var a, b := Pseudonym(port, HardwarePort), Pseudonym(device, Interface);
    assert |a| <= 17 && |b| <= 13;
    PseudonymText(port, HardwarePort);
    PseudonymText(device, Interface);
    WordIsClean(a);
    WordIsClean(b);
    ServiceOrderPrefixes();
    hide *;
    CleanConcat(a, DEVICE);
    CleanConcat(a + DEVICE, b);
    CleanConcat(a + DEVICE + b, ")");
    ShortLine(HARDWARE_PORT, a + DEVICE + b + ")");
    assert HARDWARE_PORT + (a + DEVICE + b + ")") == HARDWARE_PORT + a + DEVICE + b + ")";
  }

  lemma ServiceOrderClosed(service: nat, port: nat, device: nat)
    requires service <= 154 && port <= 154 && device <= 154
    ensures var lines := ["(1) " + Pseudonym(service, Service),
                          HARDWARE_PORT + Pseudonym(port, HardwarePort) + DEVICE + Pseudonym(device, Interface) + ")"];
            && IsClosedOutput(ServiceOrder, Unlines(lines), "")
            && forall line | line in lines :: IsEmitted(line)
  {
    hide Decimal, Matches, Unlines, IsEmitted, IsClean, IsSafeStart, IsWord;
    ServiceOrderPrefixes();
    PseudonymText(service, Service);
    EmittedLine("(1) ", Pseudonym(service, Service));
    DetailEmitted(port, device);
    UnlinesTwo("(1) " + Pseudonym(service, Service),
               HARDWARE_PORT + Pseudonym(port, HardwarePort) + DEVICE + Pseudonym(device, Interface) + ")");
    ServiceOrderText();
    ServiceOrderMatches(service, port, device);
    ServiceOrderRegroup("(1) ", "network-service-", Decimal(service), HARDWARE_PORT, "hardware-port-", Decimal(port),
                        DEVICE, "interface-", Decimal(device), ")", "\n");
  }

  // ---------------------------------------------------------------- sizes

  lemma {:induction false} UnlinesLength(lines: seq<string>)
    requires forall line | line in lines :: |line| <= 100
    ensures |Unlines(lines)| <= 101 * |lines|
    decreases |lines|
  {
    if lines != [] {
      assert lines[0] in lines;
      UnlinesLength(lines[1..]);
    }
  }

  lemma EmittedSize(lines: seq<string>)
    requires |lines| <= 64 && forall line | line in lines :: IsEmitted(line)
    ensures ByteLength(Unlines(lines)) <= 8192
  {
    hide ByteLength;
    forall i | 0 <= i < |Unlines(lines)| ensures Unlines(lines)[i] <= '~' {
      UnlinesChars(lines, i);
    }
    hide Unlines;
    UnlinesLength(lines);
    AsciiLength(Unlines(lines));
  }

  // ---------------------------------------------------------------- the getters

  /** Every identifier of the getter has a pseudonym with a small number. */
  ghost predicate AreNamed(requests: Requests, values: Naming)
  {
    forall r | r in requests :: exists n: nat :: n <= 154 && NameOf(values, r.0, r.1) == Pseudonym(n, r.0)
  }

  lemma ParsedAreNamed(p: Parsed, values: Naming)
    requires WellParsed(p) && IsSealed(RequestsOf(p), values)
    ensures AreNamed(RequestsOf(p), values)
  {
    hide WellParsed, IsSealed, RequestsOf, Pseudonym, NameOf;
    forall r | r in RequestsOf(p) ensures exists n: nat :: n <= 154 && NameOf(values, r.0, r.1) == Pseudonym(n, r.0) {
      var n := NameIsSmall(p, values, r.0, r.1);
    }
  }

  lemma {:induction false} DomainLinesNamed(domains: seq<(bool, string)>, values: Naming)
    requires AreNamed(DomainRequests(domains), values)
    ensures |DomainLines(domains, values)| == |domains|
    ensures forall line | line in DomainLines(domains, values) :: IsDomainLine(line)
    decreases |domains|
  {
    hide Pseudonym, NameOf;
    if domains != [] {
      assert (Domain, domains[0].1) in DomainRequests(domains);
      var n: nat :| n <= 154 && NameOf(values, Domain, domains[0].1) == Pseudonym(n, Domain);
      forall r | r in DomainRequests(domains[1..]) ensures r in DomainRequests(domains) {
      }
      assert "" + Pseudonym(n, Domain) == Pseudonym(n, Domain);
      DomainLinesNamed(domains[1..], values);
    }
  }

  /** What the emitted lines of one getter satisfy. */
  ghost predicate AreClosedLines(kind: RequestKind, lines: seq<string>, service: string)
  {
    |lines| <= 64 && IsClosedOutput(kind, Unlines(lines), service) && forall line | line in lines :: IsEmitted(line)
  }

  lemma ManualNamed(g: Getter, values: Naming)
    requires g.Manual? && AreNamed(GetterRequests(g), values)
    ensures IsHostName(if g.server == "" then "" else NameOf(values, Host, g.server))
    ensures IsPortName(if g.port == "0" then "0" else NameOf(values, Port, g.port))
  {
    hide Pseudonym, NameOf;
    var hosts: Requests := if g.server == "" then [] else [(Host, g.server)];
    var ports: Requests := if g.port == "0" then [] else [(Port, g.port)];
    assert g.server != "" ==> (Host, g.server) in hosts + ports;
    assert g.port != "0" ==> (Port, g.port) in hosts + ports;
  }

  lemma ManualLinesAre(kind: RequestKind, enabled: bool, server: string, port: string, authenticated: string, service: string)
    requires kind in {HttpProxy, HttpsProxy, SocksProxy}
    ensures var lines := ManualLines(enabled, server, port, authenticated);
            |lines| == 4 && (IsClosedOutput(kind, Unlines(lines), service) <==> IsClosedManual(Unlines(lines)))
  {
    hide Unlines, IsClosedManual;
  }

  lemma ManualGetterClosed(kind: RequestKind, g: Getter, values: Naming, service: string)
    requires g.Manual? && GetterFits(kind, g) && AreNamed(GetterRequests(g), values)
    ensures AreClosedLines(kind, GetterLines(g, values, service), service)
  {
    var server := if g.server == "" then "" else NameOf(values, Host, g.server);
    var port := if g.port == "0" then "0" else NameOf(values, Port, g.port);
    hide Pseudonym, NameOf, IsEmitted, Unlines, IsClosedManual, IsClosedOutput, AreNamed, GetterRequests, IsHostName, IsPortName,
         ManualLines;
    ManualNamed(g, values);
    ManualLinesAre(kind, g.enabled, server, port, g.authenticated, service);
    ManualEmitted(g.enabled, server, port, g.authenticated);
    ManualClosed(g.enabled, server, port, g.authenticated);
  }

  lemma PacGetterClosed(kind: RequestKind, g: Getter, values: Naming, service: string)
    requires g.Pac? && GetterFits(kind, g) && AreNamed(GetterRequests(g), values)
    ensures AreClosedLines(kind, GetterLines(g, values, service), service)
  {
    hide Pseudonym, NameOf, IsEmitted, Unlines, IsClosedPac;
    if g.target.None? {
      PacReadBack(g.pacEnabled, "(null)");
      PacClosed(g.pacEnabled, "(null)");
    } else {
      assert (Host, g.target.value.1) in GetterRequests(g);
      var n: nat :| n <= 154 && NameOf(values, Host, g.target.value.1) == Pseudonym(n, Host);
      var url := g.target.value.0 + "//" + NameOf(values, Host, g.target.value.1) + "/proxy.pac";
      assert url == PacAddress(g.target.value.0, n);
      PacReadBack(g.pacEnabled, url);
      PacClosed(g.pacEnabled, url);
    }
  }

  lemma ServiceWord(n: nat)
    requires n <= 154
    ensures IsWord(Pseudonym(n, Service)) && |Pseudonym(n, Service)| <= 30
  {
    SmallDecimal(n);
    PseudonymText(n, Service);
  }

  lemma BypassGetterClosed(kind: RequestKind, g: Getter, values: Naming, n: nat)
    requires g.Bypass? && GetterFits(kind, g) && AreNamed(GetterRequests(g), values) && n <= 154
    ensures AreClosedLines(kind, GetterLines(g, values, Pseudonym(n, Service)), Pseudonym(n, Service))
  {
    hide Pseudonym, AreNamed, IsEmitted, IsWord, Unlines, IsClosedBypass, IsDomainLine;
    if g.domains == [] {
      ServiceWord(n);
      NoBypassClosed(Pseudonym(n, Service));
    } else {
      DomainLinesNamed(g.domains, values);
      hide DomainLines;
      BypassClosed(DomainLines(g.domains, values), Pseudonym(n, Service));
    }
  }

  lemma GetterClosed(kind: RequestKind, g: Getter, values: Naming, n: nat)
    requires !g.NotAvailable? && GetterFits(kind, g) && AreNamed(GetterRequests(g), values) && n <= 154
    ensures AreClosedLines(kind, GetterLines(g, values, Pseudonym(n, Service)), Pseudonym(n, Service))
  {
    match g
    case Manual(_, _, _, _) => ManualGetterClosed(kind, g, values, Pseudonym(n, Service));
    case Pac(_, _) => PacGetterClosed(kind, g, values, Pseudonym(n, Service));
    case Bypass(_) => BypassGetterClosed(kind, g, values, n);
    case Discovery(on) =>
      hide AreNamed, Pseudonym, Unlines, IsEmitted;
      DiscoveryClosed(on, Pseudonym(n, Service));
  }

  lemma GetterAnswerClosed(i: nat, g: Getter, values: Naming, n: nat)
    requires i < 6 && GetterFits(ORDER[5 + i], g) && AreNamed(GetterRequests(g), values) && n <= 154
    ensures var service := Pseudonym(n, Service);
            IsClosedRequest(FixtureRequest(Some(service), ORDER[5 + i], GetterResult(g, values, service), Networksetup), 2 + i)
  {
    var service := Pseudonym(n, Service);
    OperandClosed(n);
    hide Pseudonym, GetterRequests, GetterFits, Matches, GetterLines, IsClosedOutput, IsEmitted, Unlines, ByteLength, AreNamed;
    if !g.NotAvailable? {
      GetterClosed(ORDER[5 + i], g, values, n);
      EmittedSize(GetterLines(g, values, service));
    }
  }

  lemma GetterNamed(p: Parsed, values: Naming, i: nat)
    requires WellParsed(p) && IsSealed(RequestsOf(p), values) && i < 6
    ensures AreNamed(GetterRequests(p.getters[i]), values) && GetterFits(ORDER[5 + i], p.getters[i])
  {
    ParsedAreNamed(p, values);
    GetterInAll(p.getters, i);
    var front: Requests := [(Interface, p.interfaceName), (Service, p.service), (HardwarePort, p.hardwarePort)];
    hide IsSealed, Pseudonym, NameOf, GetterRequests, GettersRequests, GetterFits, IsProductVersion, IsBuildVersion;
    assert forall r | r in GetterRequests(p.getters[i]) :: r in front + GettersRequests(p.getters);
  }

  lemma GetterRequestAt(p: Parsed, values: Naming, i: nat)
    requires |p.getters| == 6 && i < 6
    ensures var service := NameOf(values, Service, p.service);
            BuildRequests(p, values)[2 + i]
              == FixtureRequest(Some(service), ORDER[5 + i], GetterResult(p.getters[i], values, service), Networksetup)
  {
    hide NameOf, GetterResult, Unlines;
  }

  lemma GetterRequestClosed(p: Parsed, values: Naming, i: nat, n: nat)
    requires WellParsed(p) && IsSealed(RequestsOf(p), values) && i < 6
    requires n <= 154 && NameOf(values, Service, p.service) == Pseudonym(n, Service)
    ensures IsClosedRequest(BuildRequests(p, values)[2 + i], 2 + i)
  {
    GetterNamed(p, values, i);
    GetterAnswerClosed(i, p.getters[i], values, n);
    GetterRequestAt(p, values, i);
    hide *;
  }

  lemma RouteAnswerClosed(n: nat)
    requires n <= 154
    ensures IsClosedRequest(FixtureRequest(None, DefaultRoute,
              Success(Unlines(["route to: default", "interface: " + Pseudonym(n, Interface)])), RouteTool), 0)
  {
    hide Pseudonym, Matches, IsEmitted, Unlines, ByteLength;
    RouteClosed(n);
    EmittedSize(["route to: default", "interface: " + Pseudonym(n, Interface)]);
  }

  lemma ServiceOrderAnswerClosed(service: nat, port: nat, device: nat)
    requires service <= 154 && port <= 154 && device <= 154
    ensures IsClosedRequest(FixtureRequest(None, ServiceOrder, Success(Unlines(
              ["(1) " + Pseudonym(service, Service),
               HARDWARE_PORT + Pseudonym(port, HardwarePort) + DEVICE + Pseudonym(device, Interface) + ")"])), Networksetup), 1)
  {
    hide Pseudonym, Matches, IsEmitted, Unlines, ByteLength;
    ServiceOrderClosed(service, port, device);
    EmittedSize(["(1) " + Pseudonym(service, Service),
                 HARDWARE_PORT + Pseudonym(port, HardwarePort) + DEVICE + Pseudonym(device, Interface) + ")"]);
  }

  /** The first two requests of a fixture. */
  function NetworkRequests(device: string, service: string, port: string): seq<FixtureRequest>
  {
    [FixtureRequest(None, DefaultRoute, Success(Unlines(["route to: default", "interface: " + device])), RouteTool),
     FixtureRequest(None, ServiceOrder,
                    Success(Unlines(["(1) " + service, HARDWARE_PORT + port + DEVICE + device + ")"])), Networksetup)]
  }

  lemma NetworkRequestsAt(p: Parsed, values: Naming)
    requires |p.getters| == 6
    ensures var all := BuildRequests(p, values);
            var network := NetworkRequests(NameOf(values, Interface, p.interfaceName), NameOf(values, Service, p.service),
                                           NameOf(values, HardwarePort, p.hardwarePort));
            |network| == 2 && all[..2] == network && all[0] == network[0] && all[1] == network[1]
  {
    hide NameOf, GetterResult, Unlines;
  }

  lemma NetworkRequestsAre(device: string, service: string, port: string)
    ensures var network := NetworkRequests(device, service, port);
            && |network| == 2
            && network[0] == FixtureRequest(None, DefaultRoute, Success(Unlines(["route to: default", "interface: " + device])), RouteTool)
            && network[1] == FixtureRequest(None, ServiceOrder,
                 Success(Unlines(["(1) " + service, HARDWARE_PORT + port + DEVICE + device + ")"])), Networksetup)
  {
    hide Unlines, HARDWARE_PORT, DEVICE;
  }

  lemma NetworkMentioned(p: Parsed)
    ensures var all := RequestsOf(p);
            (Interface, p.interfaceName) in all && (Service, p.service) in all && (HardwarePort, p.hardwarePort) in all
  {
    var all := RequestsOf(p);
    assert all[0] == (Interface, p.interfaceName) && all[1] == (Service, p.service) && all[2] == (HardwarePort, p.hardwarePort);
  }

  lemma NetworkRequestsClosed(p: Parsed, values: Naming)
    requires WellParsed(p) && IsSealed(RequestsOf(p), values)
    ensures IsClosedRequest(BuildRequests(p, values)[0], 0) && IsClosedRequest(BuildRequests(p, values)[1], 1)
  {
    hide IsSealed, Pseudonym, NameOf, RequestsOf, GetterFits, GetterResult, IsClosedRequest, Unlines, BuildRequests, NetworkRequests,
         IsProductVersion, IsBuildVersion, HARDWARE_PORT, DEVICE;
    NetworkMentioned(p);
    NetworkRequestsAt(p, values);
    var device := NameIsSmall(p, values, Interface, p.interfaceName);
    var service := NameIsSmall(p, values, Service, p.service);
    var port := NameIsSmall(p, values, HardwarePort, p.hardwarePort);
    RouteAnswerClosed(device);
    ServiceOrderAnswerClosed(service, port, device);
    NetworkRequestsAre(NameOf(values, Interface, p.interfaceName), NameOf(values, Service, p.service),
                       NameOf(values, HardwarePort, p.hardwarePort));
  }

  lemma BuiltRequestsClosed(p: Parsed, values: Naming)
    requires WellParsed(p) && IsSealed(RequestsOf(p), values)
    ensures AreClosedRequests(BuildRequests(p, values))
  {
    hide IsSealed, RequestsOf, IsClosedRequest, GetterFits, IsProductVersion, IsBuildVersion, NameOf, Pseudonym, BuildRequests;
    var service := ServiceNumber(p, values);
    forall i | 0 <= i < 8 ensures IsClosedRequest(BuildRequests(p, values)[i], i) {
      if i < 2 {
        NetworkRequestsClosed(p, values);
      } else {
        GetterRequestClosed(p, values, i - 2, service);
      }
    }
  }

  lemma BuiltHeadingValid(platform: Platform, options: Options, p: Parsed, values: Naming)
    requires WellParsed(p) && IsSlug(options.fixtureId) && forall text :: IsHexDigest(platform.sha256(text))
    ensures IsValidHeading(BuildFixture(platform, options, p, values))
  {
    hide GetterFits, IsHexDigest, IsSlug, BuildRequests, RequestsJson;
    var f := BuildFixture(platform, options, p, values);
    assert f.productVersionFamily[2..] == ".x";
  }

  /**
    Compiler and validator agree: the fixture built from any accepted transcript under its sealed
    names is valid exactly when its printed form is within the size limit.
   */
  lemma FixtureIsValid(platform: Platform, options: Options, raw: seq<RawRecord>, values: Naming)
    requires forall text :: IsHexDigest(platform.sha256(text))
    requires ParseTranscript(platform, options, raw).Ok?
    requires IsSealed(RequestsOf(ParseTranscript(platform, options, raw).value), values)
    ensures var p := ParseTranscript(platform, options, raw).value;
            && WellParsed(p)
            && var f := BuildFixture(platform, options, p, values);
            && (IsValidFixture(platform, f) <==> ByteLength(FixtureText(f)) <= 65536)
  {
    var p := ParseTranscript(platform, options, raw).value;
    TranscriptParsed(platform, options, raw);
    BuiltHeadingValid(platform, options, p, values);
    BuiltRequestsClosed(p, values);
    hide IsSealed, RequestsOf, ParseTranscript, AreClosedRequests, IsValidHeading, IsHexDigest, IsSlug, FixtureText, ByteLength,
         RequestsJson, BuildRequests, GetterFits, IsProductVersion, IsBuildVersion;
  }

  lemma ServiceNumber(p: Parsed, values: Naming) returns (n: nat)
    requires WellParsed(p) && IsSealed(RequestsOf(p), values)
    ensures n <= 154 && NameOf(values, Service, p.service) == Pseudonym(n, Service)
  {
    assert RequestsOf(p)[1] == (Service, p.service);
    hide WellParsed, IsSealed, Pseudonym, NameOf, RequestsOf;
    n := NameIsSmall(p, values, Service, p.service);
  }
}
