/**
  The fixture does not depend on what the real identifiers are called: renaming them consistently
  leaves it unchanged.
 */
module TranscriptRenaming {
  import opened Results
  import opened Text
  import opened Pseudonyms
  import opened TranscriptParse
  import opened TranscriptFixture

  type Renaming = (Kind, string) -> string

  function RenameRequests(requests: Requests, rho: Renaming): (r: Requests)
    ensures |r| == |requests|
  {
    seq(|requests|, i requires 0 <= i < |requests| => (requests[i].0, rho(requests[i].0, requests[i].1)))
  }

  function RenameSources(sources: seq<string>, kind: Kind, rho: Renaming): (r: seq<string>)
    ensures |r| == |sources|
  {
    seq(|sources|, i requires 0 <= i < |sources| => rho(kind, sources[i]))
  }

  function RenameDomains(domains: seq<(bool, string)>, rho: Renaming): seq<(bool, string)>
  {
    if domains == [] then [] else [(domains[0].0, rho(Domain, domains[0].1))] + RenameDomains(domains[1..], rho)
  }

  function RenameGetter(g: Getter, rho: Renaming): Getter
  {
    match g
    case Manual(enabled, authenticated, port, server) =>
      Manual(enabled, authenticated, if port == "0" then "0" else rho(Port, port),
             if server == "" then "" else rho(Host, server))
    case Pac(enabled, Some((protocol, host))) => Pac(enabled, Some((protocol, rho(Host, host))))
    case Bypass(domains) => Bypass(RenameDomains(domains, rho))
    case _ => g
  }

  function RenameGetters(getters: seq<Getter>, rho: Renaming): (r: seq<Getter>)
    ensures |r| == |getters|
  {
    if getters == [] then [] else [RenameGetter(getters[0], rho)] + RenameGetters(getters[1..], rho)
  }

  /** The same transcript with every real identifier renamed. */
  function Rename(p: Parsed, rho: Renaming): Parsed
  {
    p.(interfaceName := rho(Interface, p.interfaceName), hardwarePort := rho(HardwarePort, p.hardwarePort),
       service := rho(Service, p.service), getters := RenameGetters(p.getters, rho))
  }

  /** Within each kind, different identifiers stay different; "no server" and port 0 are no identifiers. */
  ghost predicate IsBijective(requests: Requests, rho: Renaming)
  {
    && (forall r, s | r in requests && s in requests && r.0 == s.0 :: rho(r.0, r.1) == rho(s.0, s.1) ==> r == s)
    && (forall r | r in requests :: (r.0 == Host ==> rho(Host, r.1) != "") && (r.0 == Port ==> rho(Port, r.1) != "0"))
  }

  // ---------------------------------------------------------------- what is collected

  lemma RenameConcat(a: Requests, b: Requests, rho: Renaming)
    ensures RenameRequests(a + b, rho) == RenameRequests(a, rho) + RenameRequests(b, rho)
  {
  }

  lemma {:induction false} DomainsRenamed(domains: seq<(bool, string)>, rho: Renaming)
    ensures DomainRequests(RenameDomains(domains, rho)) == RenameRequests(DomainRequests(domains), rho)
    decreases |domains|
  {
    if domains != [] {
      DomainsRenamed(domains[1..], rho);
      var renamed := RenameDomains(domains, rho);
      assert renamed[1..] == RenameDomains(domains[1..], rho);
      RenameConcat([(Domain, domains[0].1)], DomainRequests(domains[1..]), rho);
    }
  }

  lemma GetterRenamed(g: Getter, rho: Renaming)
    requires IsBijective(GetterRequests(g), rho)
    ensures GetterRequests(RenameGetter(g, rho)) == RenameRequests(GetterRequests(g), rho)
  {
    match g
    case Manual(_, _, port, server) =>
      var hosts: Requests := if server == "" then [] else [(Host, server)];
      var ports: Requests := if port == "0" then [] else [(Port, port)];
      assert server != "" ==> (Host, server) in hosts + ports;
      assert port != "0" ==> (Port, port) in hosts + ports;
      RenameConcat(hosts, ports, rho);
    case Bypass(domains) => DomainsRenamed(domains, rho);
    case _ =>
  }

  lemma BijectivePart(part: Requests, all: Requests, rho: Renaming)
    requires IsBijective(all, rho) && forall r | r in part :: r in all
    ensures IsBijective(part, rho)
  {
  }

  lemma {:induction false} GettersRenamed(getters: seq<Getter>, rho: Renaming)
    requires IsBijective(GettersRequests(getters), rho)
    ensures GettersRequests(RenameGetters(getters, rho)) == RenameRequests(GettersRequests(getters), rho)
    decreases |getters|
  {
    hide IsBijective, GetterRequests, RenameGetter;
    if getters != [] {
      var here, rest := GetterRequests(getters[0]), GettersRequests(getters[1..]);
      BijectivePart(here, here + rest, rho);
      BijectivePart(rest, here + rest, rho);
      GetterRenamed(getters[0], rho);
      GettersRenamed(getters[1..], rho);
      RenameConcat(here, rest, rho);
      assert RenameGetters(getters, rho)[1..] == RenameGetters(getters[1..], rho);
    }
  }

  lemma TranscriptRenamed(p: Parsed, rho: Renaming)
    requires IsBijective(RequestsOf(p), rho)
    ensures RequestsOf(Rename(p, rho)) == RenameRequests(RequestsOf(p), rho)
  {
    hide IsBijective;
    var front: Requests := [(Interface, p.interfaceName), (Service, p.service), (HardwarePort, p.hardwarePort)];
    BijectivePart(GettersRequests(p.getters), RequestsOf(p), rho);
    GettersRenamed(p.getters, rho);
    RenameConcat(front, GettersRequests(p.getters), rho);
  }

  // ---------------------------------------------------------------- the names

  /** Ranks do not change: the sources of a kind are renamed one by one. */
  lemma {:induction false} SourcesRenamed(requests: Requests, rho: Renaming, kind: Kind)
    requires IsBijective(requests, rho)
    ensures SourcesOf(RenameRequests(requests, rho), kind) == RenameSources(SourcesOf(requests, kind), kind, rho)
    decreases |requests|
  {
    if requests != [] {
      var front, last := requests[..|requests| - 1], requests[|requests| - 1];
      assert requests == front + [last];
      BijectivePart(front, requests, rho);
      SourcesRenamed(front, rho, kind);
      var renamed := RenameRequests(requests, rho);
      assert renamed[..|requests| - 1] == RenameRequests(front, rho);
      if last.0 == kind {
        SourcesOfExact(front, kind);
        NewAfterRenaming(requests, front, last, rho);
      }
    }
  }

  lemma NewAfterRenaming(requests: Requests, front: Requests, last: (Kind, string), rho: Renaming)
    requires IsBijective(requests, rho) && requests == front + [last]
    ensures last.1 in SourcesOf(front, last.0) <==>
              rho(last.0, last.1) in RenameSources(SourcesOf(front, last.0), last.0, rho)
  {
    SourcesOfExact(front, last.0);
    hide SourcesOf;
    var sources := SourcesOf(front, last.0);
    var renamed := RenameSources(sources, last.0, rho);
    if last.1 in sources {
      var i :| 0 <= i < |sources| && sources[i] == last.1;
      assert renamed[i] == rho(last.0, last.1);
    }
    if rho(last.0, last.1) in renamed {
      var i :| 0 <= i < |renamed| && renamed[i] == rho(last.0, last.1);
      assert sources[i] in sources;
      assert (last.0, sources[i]) in requests && last in requests;
    }
  }

  /** Both namings give an identifier and its new name the same pseudonym. */
  ghost predicate SameNames(requests: Requests, values: Naming, values': Naming, rho: Renaming)
  {
    forall r | r in requests :: NameOf(values', r.0, rho(r.0, r.1)) == NameOf(values, r.0, r.1)
  }

  lemma NamesAgree(requests: Requests, values: Naming, values': Naming, rho: Renaming)
    requires IsBijective(requests, rho)
    requires IsSealed(requests, values) && IsSealed(RenameRequests(requests, rho), values')
    requires AvoidsSynthetic(requests) && AvoidsSynthetic(RenameRequests(requests, rho))
    ensures SameNames(requests, values, values', rho)
  {
    hide IsBijective, IsSealed, AvoidsSynthetic, Pseudonym;
    forall r | r in requests ensures NameOf(values', r.0, rho(r.0, r.1)) == NameOf(values, r.0, r.1) {
      SourcesOfExact(requests, r.0);
      SourcesRenamed(requests, rho, r.0);
      hide SourcesOf;
      var i :| 0 <= i < |SourcesOf(requests, r.0)| && SourcesOf(requests, r.0)[i] == r.1;
      SealedByRank(requests, values, r.0, i);
      SealedByRank(RenameRequests(requests, rho), values', r.0, i);
    }
  }

  // ---------------------------------------------------------------- what is emitted

  lemma {:induction false} DomainLinesAgree(domains: seq<(bool, string)>, requests: Requests, values: Naming, values': Naming, rho: Renaming)
    requires SameNames(requests, values, values', rho) && forall r | r in DomainRequests(domains) :: r in requests
    ensures DomainLines(RenameDomains(domains, rho), values') == DomainLines(domains, values)
    decreases |domains|
  {
    if domains != [] {
      var renamed := RenameDomains(domains, rho);
      assert renamed[1..] == RenameDomains(domains[1..], rho);
      assert (Domain, domains[0].1) in DomainRequests(domains);
      forall r | r in DomainRequests(domains[1..]) ensures r in requests {
        assert r in DomainRequests(domains);
      }
      hide NameOf;
      DomainLinesAgree(domains[1..], requests, values, values', rho);
    }
  }

  lemma GetterAgrees(g: Getter, requests: Requests, values: Naming, values': Naming, rho: Renaming, service: string)
    requires SameNames(requests, values, values', rho) && IsBijective(requests, rho)
    requires forall r | r in GetterRequests(g) :: r in requests
    ensures GetterResult(RenameGetter(g, rho), values', service) == GetterResult(g, values, service)
  {
    hide NameOf, Unlines, ManualLines;
    match g
    case Manual(_, _, port, server) =>
      var hosts: Requests := if server == "" then [] else [(Host, server)];
      var ports: Requests := if port == "0" then [] else [(Port, port)];
      assert server != "" ==> (Host, server) in hosts + ports;
      assert port != "0" ==> (Port, port) in hosts + ports;
    case Pac(_, Some((_, host))) =>
      assert (Host, host) in GetterRequests(g);
    case Bypass(domains) => DomainLinesAgree(domains, requests, values, values', rho);
    case _ =>
  }

  lemma {:induction false} GetterInAll(getters: seq<Getter>, i: nat)
    requires i < |getters|
    ensures forall r | r in GetterRequests(getters[i]) :: r in GettersRequests(getters)
    decreases |getters|
  {
    hide GetterRequests;
    if i > 0 {
      GetterInAll(getters[1..], i - 1);
    }
  }

  lemma {:induction false} RenameGettersAt(getters: seq<Getter>, rho: Renaming, i: nat)
    requires i < |getters|
    ensures RenameGetters(getters, rho)[i] == RenameGetter(getters[i], rho)
    decreases |getters|
  {
    hide RenameGetter;
    if i > 0 {
      RenameGettersAt(getters[1..], rho, i - 1);
    }
  }

  lemma FrontAgrees(p: Parsed, values: Naming, values': Naming, rho: Renaming)
    requires SameNames(RequestsOf(p), values, values', rho)
    ensures var q := Rename(p, rho);
            && NameOf(values', Interface, q.interfaceName) == NameOf(values, Interface, p.interfaceName)
            && NameOf(values', Service, q.service) == NameOf(values, Service, p.service)
            && NameOf(values', HardwarePort, q.hardwarePort) == NameOf(values, HardwarePort, p.hardwarePort)
  {
    var all := RequestsOf(p);
    assert all[0] == (Interface, p.interfaceName) && all[1] == (Service, p.service) && all[2] == (HardwarePort, p.hardwarePort);
    hide NameOf;
  }

  lemma GettersAgree(p: Parsed, values: Naming, values': Naming, rho: Renaming, service: string, i: nat)
    requires SameNames(RequestsOf(p), values, values', rho) && IsBijective(RequestsOf(p), rho) && i < |p.getters|
    ensures GetterResult(Rename(p, rho).getters[i], values', service) == GetterResult(p.getters[i], values, service)
  {
    hide NameOf, IsBijective, SameNames, GettersRequests, GetterRequests, GetterResult, RenameGetter, RenameGetters;
    var front: Requests := [(Interface, p.interfaceName), (Service, p.service), (HardwarePort, p.hardwarePort)];
    GetterInAll(p.getters, i);
    assert forall r | r in GettersRequests(p.getters) :: r in front + GettersRequests(p.getters);
    GetterAgrees(p.getters[i], RequestsOf(p), values, values', rho, service);
    RenameGettersAt(p.getters, rho, i);
  }

  lemma RequestsAgree(p: Parsed, values: Naming, values': Naming, rho: Renaming)
    requires |p.getters| == 6
    requires SameNames(RequestsOf(p), values, values', rho) && IsBijective(RequestsOf(p), rho)
    ensures BuildRequests(Rename(p, rho), values') == BuildRequests(p, values)
  {
    hide RequestsOf, NameOf, IsBijective, SameNames, GetterResult, Unlines;
    FrontAgrees(p, values, values', rho);
    var service := NameOf(values, Service, p.service);
    forall i | 0 <= i < 6
      ensures GetterResult(Rename(p, rho).getters[i], values', service) == GetterResult(p.getters[i], values, service)
    {
      GettersAgree(p, values, values', rho, service, i);
    }
  }

  /**
    Renaming invariance: two transcripts that differ by a consistent renaming of their identifiers,
    none of which looks synthetic, compile to the same fixture.
   */
  lemma FixtureIgnoresNames(platform: Platform, options: Options, p: Parsed, rho: Renaming, values: Naming, values': Naming)
    requires |p.getters| == 6 && IsProductVersion(p.productVersion) && IsBuildVersion(p.buildVersion)
    requires IsBijective(RequestsOf(p), rho)
    requires AvoidsSynthetic(RequestsOf(p)) && AvoidsSynthetic(RequestsOf(Rename(p, rho)))
    requires IsSealed(RequestsOf(p), values) && IsSealed(RequestsOf(Rename(p, rho)), values')
    ensures BuildFixture(platform, options, Rename(p, rho), values') == BuildFixture(platform, options, p, values)
  {
    hide IsBijective, AvoidsSynthetic, IsSealed, RequestsOf, BuildRequests, SameNames, IsProductVersion, IsBuildVersion;
    TranscriptRenamed(p, rho);
    NamesAgree(RequestsOf(p), values, values', rho);
    RequestsAgree(p, values, values', rho);
  }
}
