/** The privacy summary, and which names it can never repeat. */
module TranscriptSummary {
  import opened Results
  import opened Text
  import opened Pseudonyms
  import opened TranscriptParse
  import opened TranscriptFixture

  /** How many identifiers of each kind were replaced. */
  datatype Tally = Tally(services: nat, interfaces: nat, hardwarePorts: nat, hosts: nat, ports: nat, domains: nat)

  function TallyOf(requests: Requests): Tally
  {
    Tally(|SourcesOf(requests, Service)|, |SourcesOf(requests, Interface)|, |SourcesOf(requests, HardwarePort)|,
          |SourcesOf(requests, Host)|, |SourcesOf(requests, Port)|, |SourcesOf(requests, Domain)|)
  }

  const MAPPED: string := " distinct source value(s) mapped " + "to relation-preserving "

  const REJECTED: string :=
    "- Secrets, credentials, " + "Profile/configuration bytes, " + "traffic, packet data, " + "process lists, unrelated routes, "
    + "and remote targets: rejected by " + "the closed capture/schema boundary"

  const COVERAGE: string :=
    "The digest covers only the " + "sanitized request/result array; " + "it is not a fingerprint of " + "quarantined raw evidence."

  function SummaryLines(options: Options, tally: Tally, digest: string): seq<string>
  {
    ["# macOS platform transcript " + "privacy diff",
     "",
     "- Fixture: `" + options.fixtureId + "`",
     "- Source: `" + SourceName(options.sourceKind) + "`",
     "- Raw values included: **none**",
     "- Unknown fields: rejected",
     REJECTED,
     "- Network services: " + Decimal(tally.services) + MAPPED + "synthetic identifiers",
     "- Interfaces: " + Decimal(tally.interfaces) + MAPPED + "synthetic identifiers",
     "- Hardware ports: " + Decimal(tally.hardwarePorts) + MAPPED + "synthetic identifiers",
     "- Proxy/PAC hosts: " + Decimal(tally.hosts) + MAPPED + "`.fixture.invalid` hosts",
     "- Proxy ports: " + Decimal(tally.ports) + " distinct nonzero source value(s) " + "mapped to relation-preserving "
       + "synthetic ports",
     "- Bypass/search domains: " + Decimal(tally.domains) + MAPPED + "`.fixture.invalid` domains",
     "- Sanitized transcript SHA-256: `" + digest + "`",
     "",
     COVERAGE]
  }

  function Summary(options: Options, tally: Tally, digest: string): string
  {
    Unlines(SummaryLines(options, tally, digest))
  }

  predicate Includes(s: string, part: string)
  {
    exists i | 0 <= i <= |s| :: part <= s[i..]
  }

  /** Whether the summary repeats the service's or the interface's real name. */
  predicate SummaryLeaks(options: Options, p: Parsed, digest: string)
  {
    var summary := Summary(options, TallyOf(RequestsOf(p)), digest);
    Includes(summary, p.service) || Includes(summary, p.interfaceName)
  }

  // ---------------------------------------------------------------- letters the summary never uses

  /** Capital letters that occur nowhere in the wording. */
  predicate IsForeignChar(c: char)
  {
    'D' <= c <= 'E' || c == 'G' || 'J' <= c <= 'M' || c == 'Q' || 'V' <= c <= 'Z'
  }

  predicate IsFamiliar(s: string)
  {
    forall i | 0 <= i < |s| :: !IsForeignChar(s[i])
  }

  lemma FamiliarConcat(a: string, b: string)
    requires IsFamiliar(a) && IsFamiliar(b)
    ensures IsFamiliar(a + b)
  {
  }

  lemma FamiliarThree(a: string, b: string, c: string)
    requires IsFamiliar(a) && IsFamiliar(b) && IsFamiliar(c)
    ensures IsFamiliar(a + b + c)
  {
    hide IsFamiliar;
    FamiliarConcat(a, b);
    FamiliarConcat(a + b, c);
  }

  lemma FamiliarFour(a: string, b: string, c: string, d: string)
    requires IsFamiliar(a) && IsFamiliar(b) && IsFamiliar(c) && IsFamiliar(d)
    ensures IsFamiliar(a + b + c + d)
  {
    hide IsFamiliar;
    FamiliarThree(a, b, c);
    FamiliarConcat(a + b + c, d);
  }

  lemma {:induction false} FamiliarUnlines(lines: seq<string>)
    requires forall line | line in lines :: IsFamiliar(line)
    ensures IsFamiliar(Unlines(lines))
    decreases |lines|
  {
    if lines != [] {
      assert lines[0] in lines;
      FamiliarUnlines(lines[1..]);
      assert IsFamiliar(['\n']);
      hide IsFamiliar;
      FamiliarThree(lines[0], ['\n'], Unlines(lines[1..]));
    }
  }

  lemma FamiliarDecimal(n: nat)
    ensures IsFamiliar(Decimal(n))
  {
    hide Decimal;
    assert forall i | 0 <= i < |Decimal(n)| :: IsDigit(Decimal(n)[i]);
  }

  lemma FamiliarSource(kind: SourceKind)
    ensures IsFamiliar(SourceName(kind))
  {
    assert IsFamiliar("real-tart-capture") && IsFamiliar("synthetic-test");
    hide IsFamiliar;
  }

  lemma FamiliarId(id: string, digest: string)
    requires IsSlug(id) && IsHexDigest(digest)
    ensures IsFamiliar(id) && IsFamiliar(digest)
  {
  }

  lemma FamiliarHead()
    ensures IsFamiliar("# macOS platform transcript ") && IsFamiliar("privacy diff") && IsFamiliar("")
    ensures IsFamiliar("- Fixture: `") && IsFamiliar("`") && IsFamiliar("- Source: `")
  {
  }

  lemma FamiliarNotes()
    ensures IsFamiliar("- Raw values included: **none**") && IsFamiliar("- Unknown fields: rejected")
  {
  }

  lemma FamiliarRejected()
    ensures IsFamiliar(REJECTED)
  {
    hide IsFamiliar;
    FamiliarFirst();
    FamiliarSecond();
    FamiliarThird();
    FamiliarFour("- Secrets, credentials, ", "Profile/configuration bytes, ", "traffic, packet data, ", "process lists, unrelated routes, ");
    FamiliarThree("- Secrets, credentials, " + "Profile/configuration bytes, " + "traffic, packet data, " + "process lists, unrelated routes, ",
                  "and remote targets: rejected by ", "the closed capture/schema boundary");
  }

  lemma FamiliarFirst()
    ensures IsFamiliar("- Secrets, credentials, ") && IsFamiliar("Profile/configuration bytes, ")
  {
  }

  lemma FamiliarSecond()
    ensures IsFamiliar("traffic, packet data, ") && IsFamiliar("process lists, unrelated routes, ")
  {
  }

  lemma FamiliarThird()
    ensures IsFamiliar("and remote targets: rejected by ") && IsFamiliar("the closed capture/schema boundary")
  {
  }

  lemma FamiliarCoverage()
    ensures IsFamiliar(COVERAGE)
  {
    hide IsFamiliar;
    FamiliarCoverageStart();
    FamiliarCoverageEnd();
    FamiliarFour("The digest covers only the ", "sanitized request/result array; ", "it is not a fingerprint of ", "quarantined raw evidence.");
  }

  lemma FamiliarCoverageStart()
    ensures IsFamiliar("The digest covers only the ") && IsFamiliar("sanitized request/result array; ")
  {
  }

  lemma FamiliarCoverageEnd()
    ensures IsFamiliar("it is not a fingerprint of ") && IsFamiliar("quarantined raw evidence.")
  {
  }

  lemma FamiliarMapped()
    ensures IsFamiliar(MAPPED)
  {
    hide IsFamiliar;
    FamiliarMappedParts();
    FamiliarConcat(" distinct source value(s) mapped ", "to relation-preserving ");
  }

  lemma FamiliarMappedParts()
    ensures IsFamiliar(" distinct source value(s) mapped ") && IsFamiliar("to relation-preserving ")
  {
  }

  lemma FamiliarCounted(title: string, n: nat, tail: string)
    requires IsFamiliar(title) && IsFamiliar(tail)
    ensures IsFamiliar(title + Decimal(n) + MAPPED + tail)
  {
    hide IsFamiliar, Decimal, MAPPED;
    FamiliarDecimal(n);
    FamiliarMapped();
    FamiliarFour(title, Decimal(n), MAPPED, tail);
  }

  lemma FamiliarLabels()
    ensures IsFamiliar("- Network services: ") && IsFamiliar("- Interfaces: ") && IsFamiliar("- Hardware ports: ")
  {
  }

  lemma FamiliarMoreLabels()
    ensures IsFamiliar("- Proxy/PAC hosts: ") && IsFamiliar("- Bypass/search domains: ")
  {
  }

  lemma FamiliarTails()
    ensures IsFamiliar("synthetic identifiers") && IsFamiliar("`.fixture.invalid` hosts") && IsFamiliar("`.fixture.invalid` domains")
  {
  }

  lemma FamiliarPorts(n: nat)
    ensures IsFamiliar("- Proxy ports: " + Decimal(n) + " distinct nonzero source value(s) " + "mapped to relation-preserving "
                       + "synthetic ports")
  {
    hide IsFamiliar, Decimal;
    FamiliarPortParts();
    FamiliarPortTail();
    FamiliarDecimal(n);
    FamiliarFour("- Proxy ports: ", Decimal(n), " distinct nonzero source value(s) ", "mapped to relation-preserving ");
    FamiliarConcat("- Proxy ports: " + Decimal(n) + " distinct nonzero source value(s) " + "mapped to relation-preserving ", "synthetic ports");
  }

  lemma FamiliarPortParts()
    ensures IsFamiliar("- Proxy ports: ") && IsFamiliar(" distinct nonzero source value(s) ")
  {
  }

  lemma FamiliarPortTail()
    ensures IsFamiliar("mapped to relation-preserving ") && IsFamiliar("synthetic ports")
  {
  }

  lemma FamiliarFront(options: Options)
    requires IsFamiliar(options.fixtureId)
    ensures IsFamiliar("# macOS platform transcript " + "privacy diff")
    ensures IsFamiliar("- Fixture: `" + options.fixtureId + "`") && IsFamiliar("- Source: `" + SourceName(options.sourceKind) + "`")
  {
    hide IsFamiliar, SourceName;
    FamiliarHead();
    FamiliarSource(options.sourceKind);
    FamiliarConcat("# macOS platform transcript ", "privacy diff");
    FamiliarThree("- Fixture: `", options.fixtureId, "`");
    FamiliarThree("- Source: `", SourceName(options.sourceKind), "`");
  }

  lemma FamiliarDigest(digest: string)
    requires IsFamiliar(digest)
    ensures IsFamiliar("- Sanitized transcript SHA-256: `" + digest + "`")
  {
    hide IsFamiliar;
    FamiliarHead();
    FamiliarDigestLabel();
    FamiliarThree("- Sanitized transcript SHA-256: `", digest, "`");
  }

  lemma FamiliarDigestLabel()
    ensures IsFamiliar("- Sanitized transcript SHA-256: `")
  {
  }

  lemma SummaryIsFamiliar(options: Options, tally: Tally, digest: string)
    requires IsSlug(options.fixtureId) && IsHexDigest(digest)
    ensures IsFamiliar(Summary(options, tally, digest))
  {
    hide IsFamiliar, Decimal, MAPPED, REJECTED, COVERAGE, SourceName, Unlines, IsSlug, IsHexDigest;
    FamiliarId(options.fixtureId, digest);
    FamiliarFront(options);
    FamiliarHead();
    FamiliarNotes();
    FamiliarRejected();
    FamiliarLabels();
    FamiliarMoreLabels();
    FamiliarTails();
    FamiliarCounted("- Network services: ", tally.services, "synthetic identifiers");
    FamiliarCounted("- Interfaces: ", tally.interfaces, "synthetic identifiers");
    FamiliarCounted("- Hardware ports: ", tally.hardwarePorts, "synthetic identifiers");
    FamiliarCounted("- Proxy/PAC hosts: ", tally.hosts, "`.fixture.invalid` hosts");
    FamiliarPorts(tally.ports);
    FamiliarCounted("- Bypass/search domains: ", tally.domains, "`.fixture.invalid` domains");
    FamiliarDigest(digest);
    FamiliarCoverage();
    FamiliarUnlines(SummaryLines(options, tally, digest));
  }

  lemma PartIsFamiliar(s: string, part: string)
    requires IsFamiliar(s) && Includes(s, part)
    ensures IsFamiliar(part)
  {
    hide IsForeignChar;
    var i :| 0 <= i <= |s| && part <= s[i..];
    forall k | 0 <= k < |part| ensures !IsForeignChar(part[k]) {
      assert part[k] == s[i..][k] == s[i + k];
    }
  }

  /** A name with a capital letter that the wording leaves out is never repeated, whatever the rest. */
  lemma ForeignNeverLeaks(options: Options, tally: Tally, digest: string, name: string)
    requires IsSlug(options.fixtureId) && IsHexDigest(digest) && !IsFamiliar(name)
    ensures !Includes(Summary(options, tally, digest), name)
  {
    hide Summary, IsSlug, IsHexDigest, IsFamiliar, Includes;
    SummaryIsFamiliar(options, tally, digest);
    if Includes(Summary(options, tally, digest), name) {
      PartIsFamiliar(Summary(options, tally, digest), name);
    }
  }

  /** The wording itself holds the letter `a`, whatever the rest. */
  lemma LetterAlwaysLeaks(options: Options, tally: Tally, digest: string)
    ensures Includes(Summary(options, tally, digest), "a")
  {
    hide Decimal, MAPPED, REJECTED, COVERAGE, SourceName;
    var lines := SummaryLines(options, tally, digest);
    assert Summary(options, tally, digest) == lines[0] + ['\n'] + Unlines(lines[1..]);
    hide Unlines, SummaryLines;
    assert lines[0][3] == 'a';
    var summary := Summary(options, tally, digest);
    assert summary[3] == 'a';
    assert "a" <= summary[3..];
  }
}
