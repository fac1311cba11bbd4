/**
  The two-pass compiler: reserve every identifier, seal the table, emit, then check the privacy
  summary and the finished fixture.
 */
module TranscriptCompiler {
  import opened Results
  import opened Text
  import opened Pseudonyms
  import opened TranscriptParse
  import opened TranscriptFixture
  import opened TranscriptAgreement
  import opened TranscriptRenaming
  import opened TranscriptValidity
  import opened TranscriptClosed
  import opened TranscriptSize
  import opened TranscriptSummary

  datatype Compiled = Compiled(fixture: Fixture, privacyDiff: string)

  type Outcome = Result<Compiled, TranscriptError>

  /** The last checks, in the order they are made. */
  function Finish(platform: Platform, options: Options, p: Parsed, fixture: Fixture): Outcome
  {
    if SummaryLeaks(options, p, fixture.digest) then Err(RawIdentifierRetained)
    else if !IsValidFixture(platform, fixture) then Err(InvalidFixture)
    else Ok(Compiled(fixture, Summary(options, TallyOf(RequestsOf(p)), fixture.digest)))
  }

  // ---------------------------------------------------------------- one pass over a getter

  lemma {:induction false} DomainRequestsSplit(a: seq<(bool, string)>, b: seq<(bool, string)>)
    ensures DomainRequests(a + b) == DomainRequests(a) + DomainRequests(b)
    decreases |a|
  {
    if a == [] {
      assert a + b == b;
    } else {
      DomainRequestsSplit(a[1..], b);
      assert (a + b)[1..] == a[1..] + b;
    }
  }

  lemma {:induction false} DomainLinesSplit(a: seq<(bool, string)>, b: seq<(bool, string)>, values: Naming)
    ensures DomainLines(a + b, values) == DomainLines(a, values) + DomainLines(b, values)
    decreases |a|
  {
    hide NameOf;
    if a == [] {
      assert a + b == b;
    } else {
      DomainLinesSplit(a[1..], b, values);
      assert (a + b)[1..] == a[1..] + b;
    }
  }

  lemma DomainsNext(domains: seq<(bool, string)>, i: nat, values: Naming)
    requires i < |domains|
    ensures DomainRequests(domains[..i + 1]) == DomainRequests(domains[..i]) + [(Domain, domains[i].1)]
    ensures DomainLines(domains[..i + 1], values)
            == DomainLines(domains[..i], values) + [(if domains[i].0 then "*." else "") + NameOf(values, Domain, domains[i].1)]
    ensures (Domain, domains[i].1) in DomainRequests(domains)
  {
    hide NameOf;
    assert domains[..i + 1] == domains[..i] + [domains[i]];
    DomainRequestsSplit(domains[..i], [domains[i]]);
    DomainLinesSplit(domains[..i], [domains[i]], values);
    assert [domains[i]][1..] == [];
    assert domains == domains[..i + 1] + domains[i + 1..];
    DomainRequestsSplit(domains[..i + 1], domains[i + 1..]);
  }

  /** What either pass may do to the table: the first only reserves, the second only reads. */
  twostate predicate PassOver(table: PseudonymTable, new requests: Requests)
    reads table
  {
    && table.Valid() && table.isSealed == old(table.isSealed) && table.values == old(table.values)
    && table.requests == old(table.requests) + (if table.isSealed then [] else requests)
  }

  ghost predicate Reserved(requests: Requests, part: Requests)
  {
    forall r | r in part :: r in requests
  }

  method Name(table: PseudonymTable, kind: Kind, value: string) returns (r: Result<string, TranscriptError>)
    requires table.Valid()
    modifies table
    ensures PassOver(table, [(kind, value)])
    ensures !table.isSealed || (kind, value) in table.requests ==> r.Ok?
    ensures table.isSealed && r.Ok? ==> r.value == NameOf(table.values, kind, value)
  {
    var mapped := table.Map(kind, value);
    match mapped
    case Ok(name) => return Ok(name);
    case Err(_) => return Err(UnreservedValue);
  }

  method SanitizeDomains(table: PseudonymTable, domains: seq<(bool, string)>) returns (r: Result<seq<string>, TranscriptError>)
    requires table.Valid()
    modifies table
    ensures r.Ok? ==> PassOver(table, DomainRequests(domains))
    ensures !old(table.isSealed) || Reserved(old(table.requests), DomainRequests(domains)) ==> r.Ok?
    ensures table.isSealed && r.Ok? ==> r.value == DomainLines(domains, table.values)
  {
    hide PseudonymTable.Valid, NameOf;
    var lines: seq<string> := [];
    for i := 0 to |domains|
      invariant PassOver(table, DomainRequests(domains[..i]))
      invariant table.isSealed ==> lines == DomainLines(domains[..i], table.values)
    {
      DomainsNext(domains, i, table.values);
      var name := Name(table, Domain, domains[i].1);
      if name.Err? {
        return Err(name.error);
      }
      lines := lines + [(if domains[i].0 then "*." else "") + name.value];
    }
    assert domains[..|domains|] == domains;
    return Ok(lines);
  }

  /** A getter's output with every identifier passed through the table. */
  method SanitizeGetter(table: PseudonymTable, g: Getter, service: string) returns (r: Result<RawResult, TranscriptError>)
    requires table.Valid()
    modifies table
    ensures r.Ok? ==> PassOver(table, GetterRequests(g))
    ensures !old(table.isSealed) || Reserved(old(table.requests), GetterRequests(g)) ==> r.Ok?
    ensures table.isSealed && r.Ok? ==> r.value == GetterResult(g, table.values, service)
  {
    hide PseudonymTable.Valid, NameOf, Unlines, ManualLines, DomainLines, DomainRequests;
    match g
    case NotAvailable(f) => return Ok(Failure(f));
    case Manual(enabled, authenticated, port, server) => r := SanitizeManual(table, g);
    case Pac(enabled, target) => r := SanitizePac(table, g);
    case Bypass(domains) =>
      if domains == [] {
        EmptyDomains();
        return Ok(Success(Unlines([NO_BYPASS + service + "."])));
      }
      var lines := SanitizeDomains(table, domains);
      if lines.Err? {
        return Err(lines.error);
      }
      return Ok(Success(Unlines(lines.value)));
    case Discovery(on) =>
      return Ok(Success(Unlines(["Auto Proxy Discovery: " + (if on then "On" else "Off")])));
  }

  lemma EmptyDomains()
    ensures DomainRequests([]) == []
  {
  }

  method SanitizeManual(table: PseudonymTable, g: Getter) returns (r: Result<RawResult, TranscriptError>)
    requires table.Valid() && g.Manual?
    modifies table
    ensures r.Ok? ==> PassOver(table, GetterRequests(g))
    ensures !old(table.isSealed) || Reserved(old(table.requests), GetterRequests(g)) ==> r.Ok?
    ensures table.isSealed && r.Ok? ==> r.value == GetterResult(g, table.values, "")
    ensures forall service :: GetterResult(g, table.values, service) == GetterResult(g, table.values, "")
  {
    hide PseudonymTable.Valid, NameOf, Unlines, ManualLines;
    ghost var hosts: Requests := if g.server == "" then [] else [(Host, g.server)];
    ghost var ports: Requests := if g.port == "0" then [] else [(Port, g.port)];
    assert g.server != "" ==> (Host, g.server) in hosts + ports;
    assert g.port != "0" ==> (Port, g.port) in hosts + ports;
    var server, port := "", "0";
    if g.server != "" {
      var name := Name(table, Host, g.server);
      if name.Err? {
        return Err(name.error);
      }
      server := name.value;
    }
    assert PassOver(table, hosts);
    if g.port != "0" {
      var name := Name(table, Port, g.port);
      if name.Err? {
        return Err(name.error);
      }
      port := name.value;
    }
    return Ok(Success(Unlines(ManualLines(g.enabled, server, port, g.authenticated))));
  }

  method SanitizePac(table: PseudonymTable, g: Getter) returns (r: Result<RawResult, TranscriptError>)
    requires table.Valid() && g.Pac?
    modifies table
    ensures r.Ok? ==> PassOver(table, GetterRequests(g))
    ensures !old(table.isSealed) || Reserved(old(table.requests), GetterRequests(g)) ==> r.Ok?
    ensures table.isSealed && r.Ok? ==> r.value == GetterResult(g, table.values, "")
    ensures forall service :: GetterResult(g, table.values, service) == GetterResult(g, table.values, "")
  {
    hide PseudonymTable.Valid, NameOf, Unlines;
    var url := "(null)";
    if g.target.Some? {
      assert (Host, g.target.value.1) in GetterRequests(g);
      var name := Name(table, Host, g.target.value.1);
      if name.Err? {
        return Err(name.error);
      }
      url := g.target.value.0 + "//" + name.value + "/proxy.pac";
    }
    return Ok(Success(Unlines(["URL: " + url, "Enabled: " + YesNo(g.pacEnabled)])));
  }

  // ---------------------------------------------------------------- the two passes

  lemma {:induction false} GettersSplit(a: seq<Getter>, b: seq<Getter>)
    ensures GettersRequests(a + b) == GettersRequests(a) + GettersRequests(b)
    decreases |a|
  {
    hide GetterRequests;
    if a == [] {
      assert a + b == b;
    } else {
      GettersSplit(a[1..], b);
      assert (a + b)[1..] == a[1..] + b;
    }
  }

  lemma GettersNext(getters: seq<Getter>, i: nat)
    requires i < |getters|
    ensures GettersRequests(getters[..i + 1]) == GettersRequests(getters[..i]) + GetterRequests(getters[i])
  {
    hide GetterRequests;
    assert getters[..i + 1] == getters[..i] + [getters[i]];
    GettersSplit(getters[..i], [getters[i]]);
    assert [getters[i]][1..] == [];
  }

  /** The first pass reserves everything the transcript mentions, in order. */
  method Collect(table: PseudonymTable, p: Parsed) returns (r: Result<(), TranscriptError>)
    requires table.Valid() && !table.isSealed && table.requests == []
    modifies table
    ensures r.Ok? && table.Valid() && !table.isSealed && table.requests == RequestsOf(p)
  {
    hide PseudonymTable.Valid, GetterRequests, NameOf, GetterResult;
    var interfaceName := Name(table, Interface, p.interfaceName);
    var service := Name(table, Service, p.service);
    var port := Name(table, HardwarePort, p.hardwarePort);
    ghost var front: Requests := [(Interface, p.interfaceName), (Service, p.service), (HardwarePort, p.hardwarePort)];
    assert table.requests == front;
    for i := 0 to |p.getters|
      invariant table.Valid() && !table.isSealed && table.requests == front + GettersRequests(p.getters[..i])
    {
      GettersNext(p.getters, i);
      var text := SanitizeGetter(table, p.getters[i], service.value);
    }
    assert p.getters[..|p.getters|] == p.getters;
    return Ok(());
  }

  /** Emits one getter and bounds its size. */
  method EmitGetter(table: PseudonymTable, g: Getter, kind: RequestKind, service: string)
    returns (r: Result<FixtureRequest, TranscriptError>)
    requires table.Valid() && table.isSealed && Reserved(table.requests, GetterRequests(g))
    modifies table
    ensures table.Valid() && table.isSealed && table.requests == old(table.requests) && table.values == old(table.values)
    ensures var result := GetterResult(g, table.values, service);
            r == if result.Success? && ByteLength(result.stdout) > 8192 then Err(OversizedOutput)
                 else Ok(FixtureRequest(Some(service), kind, result, Networksetup))
  {
    hide PseudonymTable.Valid, GetterRequests, GetterResult, ByteLength;
    var text := SanitizeGetter(table, g, service);
    if text.value.Success? && ByteLength(text.value.stdout) > 8192 {
      return Err(OversizedOutput);
    }
    return Ok(FixtureRequest(Some(service), kind, text.value, Networksetup));
  }

  lemma ReservedGetter(p: Parsed, i: nat)
    requires i < |p.getters|
    ensures Reserved(RequestsOf(p), GetterRequests(p.getters[i]))
  {
    var front: Requests := [(Interface, p.interfaceName), (Service, p.service), (HardwarePort, p.hardwarePort)];
    GetterInAll(p.getters, i);
    hide GetterRequests, GettersRequests;
    assert RequestsOf(p) == front + GettersRequests(p.getters);
  }

  /** The second pass: names are looked up, never invented, and nothing is too long. */
  method Emit(table: PseudonymTable, p: Parsed) returns (r: Result<seq<FixtureRequest>, TranscriptError>)
    requires table.Valid() && table.isSealed && table.requests == RequestsOf(p) && WellParsed(p)
    modifies table
    ensures table.values == old(table.values)
    ensures r == Ok(BuildRequests(p, table.values))
  {
    hide PseudonymTable.Valid, GetterRequests, GettersRequests, RequestsOf, NameOf, GetterResult, GetterFits, Unlines, ByteLength,
         IsProductVersion, IsBuildVersion, IsSealed, IsClosedRequest, BuildRequests, NetworkRequests;
    SealedTable(table);
    NetworkMentioned(p);
    var interfaceName := Name(table, Interface, p.interfaceName);
    var service := Name(table, Service, p.service);
    var port := Name(table, HardwarePort, p.hardwarePort);
    ghost var values := table.values;
    NetworkRequestsAt(p, values);
    ghost var all := BuildRequests(p, values);
    var requests := NetworkRequests(interfaceName.value, service.value, port.value);
    for i := 0 to 6
      invariant table.Valid() && table.isSealed && table.requests == RequestsOf(p) && table.values == values
      invariant requests == all[..2 + i]
    {
      ReservedGetter(p, i);
      EmittedSmall(p, values, i);
      var request := EmitGetter(table, p.getters[i], ORDER[5 + i], service.value);
      GetterRequestAt(p, values, i);
      requests := requests + [request.value];
      assert all[..2 + i] + [all[2 + i]] == all[..2 + i + 1];
    }
    assert all[..8] == all;
    return Ok(requests);
  }

  lemma SealedTable(table: PseudonymTable)
    requires table.Valid() && table.isSealed
    ensures IsSealed(table.requests, table.values)
  {
  }

  /** The size check of the second pass never fires. */
  lemma EmittedSmall(p: Parsed, values: Naming, i: nat)
    requires WellParsed(p) && IsSealed(RequestsOf(p), values) && i < 6
    ensures var result := GetterResult(p.getters[i], values, NameOf(values, Service, p.service));
            result.Success? ==> ByteLength(result.stdout) <= 8192
  {
    hide IsSealed, RequestsOf, GetterResult, ByteLength, NameOf, IsClosedOutput, Pseudonym;
    var n := ServiceNumber(p, values);
    GetterRequestClosed(p, values, i, n);
    GetterRequestAt(p, values, i);
    hide BuildRequests, WellParsed;
  }

  // ---------------------------------------------------------------- the compiler

  /**
    Compiles a raw transcript. Every failure is a failure to parse it or one of the two last checks:
    no unreserved value, oversized output or second sealing can occur.
   */
  method Compile(platform: Platform, options: Options, raw: seq<RawRecord>) returns (r: Outcome, ghost values: Naming)
    ensures ParseTranscript(platform, options, raw).Err? ==> r == Err(ParseTranscript(platform, options, raw).error)
    ensures ParseTranscript(platform, options, raw).Ok? ==>
              var parsed := ParseTranscript(platform, options, raw).value;
              && WellParsed(parsed) && IsSealed(RequestsOf(parsed), values)
              && r == Finish(platform, options, parsed, BuildFixture(platform, options, parsed, values))
  {
    hide PseudonymTable.Valid, IsSealed, RequestsOf, BuildRequests, Finish;
    values := map[];
    var parsed := ParseTranscript(platform, options, raw);
    if parsed.Err? {
      return Err(parsed.error), values;
    }
    TranscriptParsed(platform, options, raw);
    hide ParseTranscript;
    var p := parsed.value;
    var table := new PseudonymTable();
    var collected := Collect(table, p);
    var finished := table.Seal();
    SealedTable(table);
    var requests := Emit(table, p);
    values := table.values;
    var fixture := Fixture(p.architecture, p.buildVersion[..3], p.productVersion[..2] + ".x",
      if options.sourceKind.RealTartCapture? then DisposableTartClone else RepositorySynthetic,
      options.fixtureId, Digest(platform, requests.value), options.sourceKind, requests.value);
    return Finish(platform, options, p, fixture), values;
  }

  /**
    An accepted transcript compiles exactly when the summary repeats neither name and the chosen
    identifier fits into what the frame of the fixture leaves of 65,536 bytes.
   */
  lemma CompilesExactly(platform: Platform, options: Options, raw: seq<RawRecord>, values: Naming)
    requires forall text :: IsHexDigest(platform.sha256(text))
    requires ParseTranscript(platform, options, raw).Ok?
    requires IsSealed(RequestsOf(ParseTranscript(platform, options, raw).value), values)
    ensures var p := ParseTranscript(platform, options, raw).value;
            && WellParsed(p)
            && var f := BuildFixture(platform, options, p, values);
            Finish(platform, options, p, f)
              == if SummaryLeaks(options, p, f.digest) then Err(RawIdentifierRetained)
                 else if FrameSize(f) + |options.fixtureId| > 65536 then Err(InvalidFixture)
                 else Ok(Compiled(f, Summary(options, TallyOf(RequestsOf(p)), f.digest)))
  {
    hide ParseTranscript, IsSealed, RequestsOf, IsHexDigest, BuildFixture, IsValidFixture, SummaryLeaks, FrameSize, WellParsed;
    FixtureIsValidExactly(platform, options, raw, values);
  }

  lemma TallyIgnoresNames(p: Parsed, rho: Renaming)
    requires IsBijective(RequestsOf(p), rho)
    ensures TallyOf(RequestsOf(Rename(p, rho))) == TallyOf(RequestsOf(p))
  {
    hide IsBijective, RequestsOf, SourcesOf;
    TranscriptRenamed(p, rho);
    forall kind ensures |SourcesOf(RequestsOf(Rename(p, rho)), kind)| == |SourcesOf(RequestsOf(p), kind)| {
      SourcesRenamed(RequestsOf(p), rho, kind);
    }
  }

  lemma FinishIgnoresNames(platform: Platform, options: Options, p: Parsed, rho: Renaming, values: Naming, values': Naming)
    requires WellParsed(p) && IsBijective(RequestsOf(p), rho)
    requires AvoidsSynthetic(RequestsOf(p)) && AvoidsSynthetic(RequestsOf(Rename(p, rho)))
    requires IsSealed(RequestsOf(p), values) && IsSealed(RequestsOf(Rename(p, rho)), values')
    ensures var f := BuildFixture(platform, options, p, values);
            && BuildFixture(platform, options, Rename(p, rho), values') == f
            && (Finish(platform, options, p, f) == Finish(platform, options, Rename(p, rho), f)
                <==> (SummaryLeaks(options, p, f.digest) <==> SummaryLeaks(options, Rename(p, rho), f.digest)))
  {
    hide IsBijective, AvoidsSynthetic, IsSealed, RequestsOf, BuildFixture, GetterFits, IsProductVersion, IsBuildVersion,
         IsValidFixture, SummaryLeaks, TallyOf, Summary;
    TallyIgnoresNames(p, rho);
    FixtureIgnoresNames(platform, options, p, rho, values, values');
    hide WellParsed;
  }

  /**
    Renaming invariance of the whole compiler: when one raw transcript reads as a consistent renaming
    of another, the fixture is the same, and so is the outcome exactly if the summary would repeat a
    real name of both or of neither.
   */
  lemma CompileIgnoresNames(platform: Platform, options: Options, raw: seq<RawRecord>, raw': seq<RawRecord>, rho: Renaming,
                            values: Naming, values': Naming)
    requires ParseTranscript(platform, options, raw).Ok? && ParseTranscript(platform, options, raw').Ok?
    requires var p, p' := ParseTranscript(platform, options, raw).value, ParseTranscript(platform, options, raw').value;
             && p' == Rename(p, rho) && IsBijective(RequestsOf(p), rho)
             && AvoidsSynthetic(RequestsOf(p)) && AvoidsSynthetic(RequestsOf(p'))
             && IsSealed(RequestsOf(p), values) && IsSealed(RequestsOf(p'), values')
    ensures var p, p' := ParseTranscript(platform, options, raw).value, ParseTranscript(platform, options, raw').value;
            && WellParsed(p) && WellParsed(p')
            && var f := BuildFixture(platform, options, p, values);
            && BuildFixture(platform, options, p', values') == f
            && (Finish(platform, options, p, f) == Finish(platform, options, p', f)
                <==> (SummaryLeaks(options, p, f.digest) <==> SummaryLeaks(options, p', f.digest)))
  {
    var p := ParseTranscript(platform, options, raw).value;
    TranscriptParsed(platform, options, raw);
    TranscriptParsed(platform, options, raw');
    FinishIgnoresNames(platform, options, p, rho, values, values');
    hide *;
  }
}
