/**
  Finalising a signed release: attestations and digests are added to the evidence, the checksums are
  written, and the directory is read back as a complete candidate.
 */
module SignedCandidate {
  import opened Results
  import opened Text
  import opened Checksums
  import opened SignedEvidence

  // ---------------------------------------------------------------- files

  datatype Asset = Dmg | Sbom | ProvenanceBundle | SbomBundle | EvidenceJson | ChecksumText

  function FileName(asset: Asset, version: string): string
  {
    match asset
    case Dmg => DmgName(version)
    case Sbom => "macos-sbom.spdx.json"
    case ProvenanceBundle => "provenance-attestation.sigstore.json"
    case SbomBundle => "sbom-attestation.sigstore.json"
    case EvidenceJson => "signed-release-evidence.json"
    case ChecksumText => "SHA256SUMS.txt"
  }

  datatype Package = Package(name: string, version: string, checksums: seq<(string, string)>)

  datatype Bill = Bill(isSpdx23: bool, name: string, documentNamespace: string, packages: seq<Package>)

  /** What a file holds; JSON files are given by the value they print. */
  datatype Content = Blob(bytes: seq<nat>) | Written(evidence: Evidence) | Listing(text: string) | Materials(bill: Bill)

  type Files = map<string, Content>

  predicate IsEmpty(c: Content)
  {
    (c.Blob? && c.bytes == []) || (c.Listing? && c.text == [])
  }

  type Digester = Content -> string

  /** Digests are 64 hexadecimal digits, and a release version is made of name characters. */
  ghost predicate AreSound(policy: Policy, sha: Digester)
  {
    (forall c :: IsDigest(sha(c))) && (forall v :: policy.isPrerelease(v) ==> IsName(v))
  }

  /** All files but the checksums, in the sorted order of their names. */
  const PAYLOAD: seq<Asset> := [Dmg, Sbom, ProvenanceBundle, SbomBundle, EvidenceJson]

  function PayloadNames(version: string): set<string>
  {
    set a | a in PAYLOAD :: FileName(a, version)
  }

  function AllNames(version: string): set<string>
  {
    PayloadNames(version) + {FileName(ChecksumText, version)}
  }

  function Sums(sha: Digester, files: Files, version: string): (r: seq<Entry>)
    requires PayloadNames(version) <= files.Keys
    ensures |r| == |PAYLOAD|
  {
    seq(|PAYLOAD|, i requires 0 <= i < |PAYLOAD| =>
      assert PAYLOAD[i] in PAYLOAD;
      (FileName(PAYLOAD[i], version), sha(files[FileName(PAYLOAD[i], version)])))
  }

  // ---------------------------------------------------------------- reading a candidate

  datatype CandidateError =
    | BadSource | BadVersion | WrongFiles | BadEvidence | IdentityDrift | BadChecksums | IncompleteChecksums
    | ChecksumDrift | DigestDrift | BadMaterials | EmptyAsset
    | NotCleaned | Untrusted | BadAttestation | NotVerified | FileExists | StageDrift

  predicate Includes(s: string, part: string)
  {
    exists i | 0 <= i <= |s| :: part <= s[i..]
  }

  /** The bill of materials is about exactly this image, version and source. */
  predicate Describes(c: Content, version: string, sourceSha: string, dmg: string)
  {
    && c.Materials? && c.bill.isSpdx23
    && c.bill.name == "Mish " + version + " macOS signed-direct SBOM"
    && Includes(c.bill.documentNamespace, sourceSha)
    && exists i | 0 <= i < |c.bill.packages| ::
         && c.bill.packages[i].name == "Mish"
         && (forall j | 0 <= j < i :: c.bill.packages[j].name != "Mish")
         && c.bill.packages[i].version == version
         && ("SHA256", dmg) in c.bill.packages[i].checksums
  }

  predicate DigestsAgree(sha: Digester, files: Files, version: string, a: ArtifactIdentity)
    requires AllNames(version) <= files.Keys
  {
    Named(version);
    && a.dmg == sha(files[FileName(Dmg, version)]) && a.sbom == sha(files[FileName(Sbom, version)])
    && a.provenanceBundle == sha(files[FileName(ProvenanceBundle, version)])
    && a.sbomBundle == sha(files[FileName(SbomBundle, version)])
  }

  lemma Named(version: string)
    ensures forall a :: FileName(a, version) in AllNames(version)
    ensures forall a :: a != ChecksumText ==> FileName(a, version) in PayloadNames(version)
  {
    hide FileName;
    forall a | a != ChecksumText ensures FileName(a, version) in PayloadNames(version) {
      assert a in PAYLOAD;
    }
  }

  /** Everything a complete candidate must satisfy; the first violation is reported. */
  function ReadCandidate(policy: Policy, sha: Digester, files: Files, sourceSha: string, version: string)
    : Result<Evidence, CandidateError>
  {
    Named(version);
    if !policy.isSha(sourceSha) then Err(BadSource)
    else if !policy.isPrerelease(version) then Err(BadVersion)
    else if files.Keys != AllNames(version) then Err(WrongFiles)
    else
      var written, listing := files[FileName(EvidenceJson, version)], files[FileName(ChecksumText, version)];
      if !written.Written? || !IsEvidence(policy, written.evidence, true) then Err(BadEvidence)
      else
        var e := written.evidence;
        if e.identity.sourceSha != sourceSha || e.identity.version != version then Err(IdentityDrift)
        else if !listing.Listing? || Parse(listing.text).Err? then Err(BadChecksums)
        else
          var entries := Parse(listing.text).value;
          if (set entry | entry in entries :: entry.0) != PayloadNames(version) then Err(IncompleteChecksums)
          else if exists entry | entry in entries :: !HasDigest(sha, files, entry) then Err(ChecksumDrift)
          else MatchContents(sha, files, sourceSha, version, e)
  }

  /** The evidence and the bill of materials against the files themselves. */
  function MatchContents(sha: Digester, files: Files, sourceSha: string, version: string, e: Evidence): Result<Evidence, CandidateError>
    requires files.Keys == AllNames(version) && e.artifact.Some?
  {
    Named(version);
    if !DigestsAgree(sha, files, version, e.artifact.value) then Err(DigestDrift)
    else if !Describes(files[FileName(Sbom, version)], version, sourceSha, e.artifact.value.dmg) then Err(BadMaterials)
    else if exists name | name in files :: IsEmpty(files[name]) then Err(EmptyAsset)
    else Ok(e)
  }

  predicate HasDigest(sha: Digester, files: Files, entry: Entry)
  {
    entry.0 in files && sha(files[entry.0]) == entry.1
  }

  // ---------------------------------------------------------------- finalising

  /** The attestations offered, and whether the trust policy and the signatures hold. */
  datatype Offer = Offer(provenance: Attestation, sbom: Attestation, provenanceBundle: Content, sbomBundle: Content,
                         repository: string, trusted: bool, verified: bool)

  predicate IsAttestation(policy: Policy, a: Attestation, repository: string)
  {
    && AllDigits(a.id) && policy.isAttestationUrl(a.url)
    && a.url == "https://github.com/" + repository + "/attestations/" + a.id
  }

  function AttestedDetail(o: Offer): string
  {
    "GitHub provenance " + o.provenance.id + " and SBOM " + o.sbom.id + " attested"
  }

  function FrozenDetail(): string
  {
    "exact DMG SBOM and " + "attestation digests frozen"
  }

  function FinalEvidence(sha: Digester, e: Evidence, o: Offer, dmg: Content, sbom: Content): Evidence
  {
    e.(stages := e.stages + [StageEvidence(ProvenanceGenerated, AttestedDetail(o)),
                             StageEvidence(ArtifactIdentityConfirmed, FrozenDetail())],
       artifact := Some(ArtifactIdentity(sha(dmg), sha(o.provenanceBundle), sha(o.sbomBundle), sha(sbom))),
       attestations := Some((o.provenance, o.sbom)))
  }

  /** The directory with the bundles and the final evidence. */
  function WithPayload(files: Files, version: string, o: Offer, final: Evidence): Files
  {
    files[FileName(ProvenanceBundle, version) := o.provenanceBundle]
         [FileName(SbomBundle, version) := o.sbomBundle]
         [FileName(EvidenceJson, version) := Written(final)]
  }

  function WithSums(sha: Digester, files: Files, version: string): Files
    requires PayloadNames(version) <= files.Keys
  {
    files[FileName(ChecksumText, version) := Listing(Print(Sums(sha, files, version)))]
  }

  /** Evidence that stops at the confirmed cleanup. */
  predicate IsCleaned(policy: Policy, c: Content)
  {
    && c.Written? && IsEvidence(policy, c.evidence, false)
    && |c.evidence.stages| > 0 && c.evidence.stages[|c.evidence.stages| - 1].stage == CleanupConfirmed
  }

  predicate IsGoodOffer(policy: Policy, o: Offer)
  {
    && o.trusted && IsAttestation(policy, o.provenance, o.repository) && IsAttestation(policy, o.sbom, o.repository)
    && o.verified && !IsEmpty(o.provenanceBundle) && !IsEmpty(o.sbomBundle) && IsSafeDetail(AttestedDetail(o))
  }

  /** When finalising succeeds: everything it depends on, said of the directory and the offer as they are before. */
  predicate IsReady(policy: Policy, sha: Digester, files: Files, o: Offer)
  {
    var name := FileName(EvidenceJson, "");
    && name in files && IsCleaned(policy, files[name]) && IsGoodOffer(policy, o)
    && var id := files[name].evidence.identity;
    var dmg, sbom := FileName(Dmg, id.version), FileName(Sbom, id.version);
    && files.Keys == {dmg, sbom, name}
    && !IsEmpty(files[dmg])
    && Describes(files[sbom], id.version, id.sourceSha, sha(files[dmg]))
  }

  // ---------------------------------------------------------------- names

  lemma NameTexts()
    ensures IsName("macos-sbom.spdx.json") && IsName("provenance-attestation.sigstore.json")
  {
  }

  lemma OtherNameTexts()
    ensures IsName("sbom-attestation.sigstore.json") && IsName("signed-release-evidence.json")
  {
  }

  lemma DmgNameText(version: string)
    requires IsName(version)
    ensures IsName(DmgName(version))
  {
    assert IsName("Mish-") && IsName("-arm64.dmg");
    NameConcat("Mish-", version);
    NameConcat("Mish-" + version, "-arm64.dmg");
  }

  lemma NameConcat(a: string, b: string)
    requires IsName(a) && IsName(b)
    ensures IsName(a + b)
  {
  }

  lemma PayloadIsNamed(a: Asset, version: string)
    requires IsName(version) && a in PAYLOAD
    ensures IsName(FileName(a, version))
  {
    hide IsName;
    NameTexts();
    OtherNameTexts();
    DmgNameText(version);
  }

  /** The first two letters tell the files apart. */
  function Initials(a: Asset): (char, char)
  {
    match a
    case Dmg => ('M', 'i')
    case Sbom => ('m', 'a')
    case ProvenanceBundle => ('p', 'r')
    case SbomBundle => ('s', 'b')
    case EvidenceJson => ('s', 'i')
    case ChecksumText => ('S', 'H')
  }

  lemma InitialsOf(a: Asset, version: string)
    ensures var name := FileName(a, version); |name| > 1 && (name[0], name[1]) == Initials(a)
  {
    assert "Mish-"[0] == 'M' && "Mish-"[1] == 'i';
  }

  lemma NamesDiffer(a: Asset, b: Asset, version: string)
    requires FileName(a, version) == FileName(b, version)
    ensures a == b
  {
    hide FileName;
    InitialsOf(a, version);
    InitialsOf(b, version);
  }

  lemma FixedName(asset: Asset, v: string, w: string)
    requires asset != Dmg
    ensures FileName(asset, v) == FileName(asset, w)
  {
  }

  // ---------------------------------------------------------------- the finalised directory

  /** The sums of a complete payload are printable entries, one for each file and nothing else. */
  lemma SumsAreEntries(policy: Policy, sha: Digester, files: Files, version: string)
    requires AreSound(policy, sha) && policy.isPrerelease(version) && PayloadNames(version) <= files.Keys
    ensures AreEntries(Sums(sha, files, version))
    ensures (set entry | entry in Sums(sha, files, version) :: entry.0) == PayloadNames(version)
    ensures forall entry | entry in Sums(sha, files, version) :: HasDigest(sha, files, entry)
  {
    hide FileName, IsName, IsDigest;
    var sums := Sums(sha, files, version);
    forall i | 0 <= i < |sums| ensures IsName(sums[i].0) && IsDigest(sums[i].1) && HasDigest(sha, files, sums[i]) {
      assert PAYLOAD[i] in PAYLOAD;
      PayloadIsNamed(PAYLOAD[i], version);
    }
    forall i, j | 0 <= i < j < |sums| ensures sums[i].0 != sums[j].0 {
      if sums[i].0 == sums[j].0 {
        NamesDiffer(PAYLOAD[i], PAYLOAD[j], version);
        PayloadDistinct(i, j);
      }
    }
    forall entry | entry in sums ensures entry.0 in PayloadNames(version) && HasDigest(sha, files, entry) {
      var i :| 0 <= i < |sums| && sums[i] == entry;
      assert PAYLOAD[i] in PAYLOAD;
    }
    forall name | name in PayloadNames(version) ensures name in (set entry | entry in sums :: entry.0) {
      var a :| a in PAYLOAD && FileName(a, version) == name;
      var i :| 0 <= i < |PAYLOAD| && PAYLOAD[i] == a;
      assert sums[i] in sums && sums[i].0 == name;
    }
  }

  lemma PayloadDistinct(i: nat, j: nat)
    requires i < j < |PAYLOAD|
    ensures PAYLOAD[i] != PAYLOAD[j]
  {
  }

  /** What is in the directory once the bundles, the evidence and the sums are written. */
  lemma FinalNames(sha: Digester, files: Files, version: string, o: Offer, final: Evidence)
    requires files.Keys == {FileName(Dmg, version), FileName(Sbom, version), FileName(EvidenceJson, version)}
    ensures WithPayload(files, version, o, final).Keys == PayloadNames(version)
    ensures FileName(ChecksumText, version) !in PayloadNames(version)
  {
    hide FileName;
    var all := WithPayload(files, version, o, final);
    forall name | name in PayloadNames(version) ensures name in all && name != FileName(ChecksumText, version) {
      var a :| a in PAYLOAD && FileName(a, version) == name;
      if FileName(a, version) == FileName(ChecksumText, version) {
        NamesDiffer(a, ChecksumText, version);
      }
    }
    Named(version);
  }

  /** Writing the later files leaves the image, the bill and the bundles as they are. */
  lemma FinalContents(sha: Digester, files: Files, version: string, o: Offer, final: Evidence)
    requires files.Keys == {FileName(Dmg, version), FileName(Sbom, version), FileName(EvidenceJson, version)}
    ensures PayloadNames(version) <= WithPayload(files, version, o, final).Keys
    ensures var all := WithSums(sha, WithPayload(files, version, o, final), version);
            && all.Keys == AllNames(version)
            && all[FileName(Dmg, version)] == files[FileName(Dmg, version)]
            && all[FileName(Sbom, version)] == files[FileName(Sbom, version)]
            && all[FileName(ProvenanceBundle, version)] == o.provenanceBundle
            && all[FileName(SbomBundle, version)] == o.sbomBundle
            && all[FileName(EvidenceJson, version)] == Written(final)
            && all[FileName(ChecksumText, version)] == Listing(Print(Sums(sha, WithPayload(files, version, o, final), version)))
  {
    hide FileName, Print, Sums, PayloadNames;
    FinalNames(sha, files, version, o, final);
    Named(version);
    forall a: Asset, b: Asset | a != b ensures FileName(a, version) != FileName(b, version) {
      if FileName(a, version) == FileName(b, version) {
        NamesDiffer(a, b, version);
      }
    }
  }

  // ---------------------------------------------------------------- the final evidence

  lemma FrozenIsSafe()
    ensures IsSafeDetail(FrozenDetail())
  {
    assert IsSafeDetail("exact DMG SBOM and ") && IsSafeDetail("attestation digests frozen");
  }

  /** A record that ends with the confirmed cleanup holds exactly the first sixteen stages. */
  lemma CleanedIsSixteen(stages: seq<StageEvidence>)
    requires AreRecorded(stages) && |stages| > 0 && stages[|stages| - 1].stage == CleanupConfirmed
    ensures |stages| == 16
  {
    var n := |stages| - 1;
    assert Names(stages)[n] == STAGES[n] && STAGES[15] == CleanupConfirmed;
    StagesDistinct(n, 15);
  }

  /** Finalising appends exactly the last two stages and yields complete evidence. */
  lemma FinalEvidenceHolds(policy: Policy, sha: Digester, e: Evidence, o: Offer, dmg: Content, sbom: Content)
    requires AreSound(policy, sha) && IsCleaned(policy, Written(e)) && IsGoodOffer(policy, o)
    ensures var final := FinalEvidence(sha, e, o, dmg, sbom);
            IsEvidence(policy, final, true) && Names(final.stages) == STAGES && e.stages == final.stages[..16]
  {
    FrozenIsSafe();
    hide IsSafeDetail, AttestedDetail, FrozenDetail, IsDigest, AllDigits, IdentityOf;
    CleanedIsSixteen(e.stages);
    var first := StageEvidence(ProvenanceGenerated, AttestedDetail(o));
    var second := StageEvidence(ArtifactIdentityConfirmed, FrozenDetail());
    RecordedNext(e.stages, first);
    RecordedNext(e.stages + [first], second);
    assert e.stages + [first, second] == e.stages + [first] + [second];
    hide AreRecorded, Names;
    RecordedAll(e.stages + [first, second]);
  }

  lemma RecordedAll(stages: seq<StageEvidence>)
    requires AreRecorded(stages) && |stages| == |STAGES|
    ensures Names(stages) == STAGES
  {
  }

  // ---------------------------------------------------------------- what finalising promises

  ghost predicate IsFinal(sha: Digester, files: Files, version: string, o: Offer, final: Evidence, all: Files)
  {
    && files.Keys == {FileName(Dmg, version), FileName(Sbom, version), FileName(EvidenceJson, version)}
    && PayloadNames(version) <= WithPayload(files, version, o, final).Keys
    && all == WithSums(sha, WithPayload(files, version, o, final), version)
  }

  lemma PrintNotEmpty(entries: seq<Entry>)
    ensures Print(entries) != []
  {
    assert Print(entries)[|Print(entries)| - 1] == '\n';
  }

  /** The sums are of the files as they are in the end. */
  lemma SumsReadBack(policy: Policy, sha: Digester, files: Files, version: string, all: Files)
    requires AreSound(policy, sha) && policy.isPrerelease(version) && PayloadNames(version) <= files.Keys
    requires all == WithSums(sha, files, version) && FileName(ChecksumText, version) !in PayloadNames(version)
    ensures var text := Print(Sums(sha, files, version));
            && Parse(text) == Ok(Sums(sha, files, version)) && text != []
            && (set entry | entry in Parse(text).value :: entry.0) == PayloadNames(version)
            && forall entry | entry in Parse(text).value :: HasDigest(sha, all, entry)
  {
    hide FileName, Print, AreEntries, PayloadNames, Parse, AreSound;
    var sums := Sums(sha, files, version);
    hide Sums;
    SumsAreEntries(policy, sha, files, version);
    ParsePrint(sums);
    PrintNotEmpty(sums);
    assert sums != [];
    forall entry | entry in sums ensures HasDigest(sha, all, entry) {
      assert HasDigest(sha, files, entry);
      assert entry.0 in (set e | e in sums :: e.0);
    }
  }

  lemma NothingEmpty(sha: Digester, files: Files, version: string, o: Offer, final: Evidence, all: Files)
    requires IsFinal(sha, files, version, o, final, all) && !IsEmpty(o.provenanceBundle) && !IsEmpty(o.sbomBundle)
    requires files[FileName(Sbom, version)].Materials?
    ensures (exists name | name in all :: IsEmpty(all[name])) <==> IsEmpty(files[FileName(Dmg, version)])
  {
    hide FileName, Sums, Print;
    FinalContents(sha, files, version, o, final);
    PrintNotEmpty(Sums(sha, WithPayload(files, version, o, final), version));
    hide WithPayload, WithSums;
    forall name | name in all && name != FileName(Dmg, version) ensures !IsEmpty(all[name]) {
      assert name in AllNames(version);
    }
  }

  lemma FinalMatches(sha: Digester, files: Files, o: Offer, e: Evidence, final: Evidence, all: Files)
    requires !IsEmpty(o.provenanceBundle) && !IsEmpty(o.sbomBundle)
    requires var v := e.identity.version;
             && IsFinal(sha, files, v, o, final, all) && all.Keys == AllNames(v)
             && final == FinalEvidence(sha, e, o, files[FileName(Dmg, v)], files[FileName(Sbom, v)])
    ensures var v, s := e.identity.version, e.identity.sourceSha;
            var dmg, sbom := files[FileName(Dmg, v)], files[FileName(Sbom, v)];
            MatchContents(sha, all, s, v, final)
              == if !Describes(sbom, v, s, sha(dmg)) then Err(BadMaterials) else if IsEmpty(dmg) then Err(EmptyAsset) else Ok(final)
  {
    hide FileName, Sums, Print, Describes, IsEmpty, PayloadNames, WithPayload, WithSums;
    var v, s := e.identity.version, e.identity.sourceSha;
    var dmg, sbom := files[FileName(Dmg, v)], files[FileName(Sbom, v)];
    FinalContents(sha, files, v, o, final);
    DescribedIsBill(sbom, v, s, sha(dmg));
    if Describes(sbom, v, s, sha(dmg)) {
      NothingEmpty(sha, files, v, o, final, all);
    }
  }

  /** Read back, the finalised directory can only fail on the bill of materials or an empty image. */
  lemma FinalIsAccepted(policy: Policy, sha: Digester, files: Files, o: Offer, e: Evidence, final: Evidence, all: Files)
    requires AreSound(policy, sha) && IsCleaned(policy, Written(e)) && IsGoodOffer(policy, o)
    requires var v := e.identity.version;
             && IsFinal(sha, files, v, o, final, all)
             && final == FinalEvidence(sha, e, o, files[FileName(Dmg, v)], files[FileName(Sbom, v)])
    ensures var v, s := e.identity.version, e.identity.sourceSha;
            var dmg, sbom := files[FileName(Dmg, v)], files[FileName(Sbom, v)];
            ReadCandidate(policy, sha, all, s, v)
              == if !Describes(sbom, v, s, sha(dmg)) then Err(BadMaterials) else if IsEmpty(dmg) then Err(EmptyAsset) else Ok(final)
  {
    var v, s := e.identity.version, e.identity.sourceSha;
    var dmg, sbom := files[FileName(Dmg, v)], files[FileName(Sbom, v)];
    hide FileName, Sums, Print, Parse, Describes, IsEvidence, AreSound, IsGoodOffer, IsEmpty, PayloadNames, HasDigest, WithPayload, WithSums,
         MatchContents, AllNames, IsCleaned;
    FinalEvidenceHolds(policy, sha, e, o, dmg, sbom);
    FinalContents(sha, files, v, o, final);
    FinalNames(sha, files, v, o, final);
    CleanedIsTrusted(policy, e);
    SumsReadBack(policy, sha, WithPayload(files, v, o, final), v, all);
    GoodOfferNotEmpty(policy, o);
    FinalMatches(sha, files, o, e, final, all);
  }

  lemma CleanedIsTrusted(policy: Policy, e: Evidence)
    requires IsCleaned(policy, Written(e))
    ensures policy.isSha(e.identity.sourceSha) && policy.isPrerelease(e.identity.version)
  {
  }

  lemma GoodOfferNotEmpty(policy: Policy, o: Offer)
    requires IsGoodOffer(policy, o)
    ensures !IsEmpty(o.provenanceBundle) && !IsEmpty(o.sbomBundle)
  {
  }

  lemma DescribedIsBill(c: Content, version: string, sourceSha: string, dmg: string)
    ensures Describes(c, version, sourceSha, dmg) ==> c.Materials?
  {
  }

  // ---------------------------------------------------------------- the procedure

  /** The release directory. */
  class Directory {
    var files: Files

    constructor (files: Files)
      ensures this.files == files
    {
      this.files := files;
    }

    /** Writes a file that must not exist yet. */
    method Create(name: string, content: Content) returns (ok: bool)
      modifies this
      ensures ok <==> name !in old(files)
      ensures files == if ok then old(files)[name := content] else old(files)
    {
      if name in files {
        return false;
      }
      files := files[name := content];
      return true;
    }
  }

  /** Everything up to the bundles: the evidence, the offer and the image. */
  predicate MayStart(policy: Policy, files: Files, o: Offer)
  {
    var name := FileName(EvidenceJson, "");
    && name in files && IsCleaned(policy, files[name])
    && o.trusted && IsAttestation(policy, o.provenance, o.repository) && IsAttestation(policy, o.sbom, o.repository)
    && FileName(Dmg, files[name].evidence.identity.version) in files && o.verified
  }

  /** Copies both bundles in; an existing or empty one is refused. */
  method CopyBundles(directory: Directory, version: string, o: Offer) returns (ok: bool)
    modifies directory
    ensures var p, s := FileName(ProvenanceBundle, version), FileName(SbomBundle, version);
            && (ok <==> p !in old(directory.files) && s !in old(directory.files)
                        && !IsEmpty(o.provenanceBundle) && !IsEmpty(o.sbomBundle))
            && (ok ==> directory.files == old(directory.files)[p := o.provenanceBundle][s := o.sbomBundle])
            && (forall name | name != p && name != s ::
                  (name in directory.files <==> name in old(directory.files))
                  && (name in directory.files ==> directory.files[name] == old(directory.files)[name]))
  {
    hide IsEmpty;
    if FileName(ProvenanceBundle, version) == FileName(SbomBundle, version) {
      NamesDiffer(ProvenanceBundle, SbomBundle, version);
    }
    hide FileName;
    ok := directory.Create(FileName(ProvenanceBundle, version), o.provenanceBundle);
    if !ok {
      return;
    }
    ok := directory.Create(FileName(SbomBundle, version), o.sbomBundle);
    if ok {
      ok := !IsEmpty(o.provenanceBundle) && !IsEmpty(o.sbomBundle);
    }
  }

  lemma SameKeys(keys: set<string>, three: set<string>, bundles: set<string>, sum: string)
    requires keys !! bundles && three !! bundles && sum !in three + bundles
    ensures ((keys + bundles) - {sum} == three + bundles && sum !in keys + bundles) <==> keys == three
  {
    if (keys + bundles) - {sum} == three + bundles && sum !in keys + bundles {
      assert keys + bundles == three + bundles;
      assert keys == (keys + bundles) - bundles && three == (three + bundles) - bundles;
    }
  }

  /** With the bundles new and the evidence there, the payload is complete exactly if image, bill and evidence were all. */
  lemma PayloadComplete(files: Files, version: string, o: Offer, final: Evidence)
    requires FileName(ProvenanceBundle, version) !in files && FileName(SbomBundle, version) !in files
    requires FileName(EvidenceJson, version) in files
    ensures var payload := WithPayload(files, version, o, final);
            (payload.Keys - {FileName(ChecksumText, version)} == PayloadNames(version) && FileName(ChecksumText, version) !in payload)
            <==> files.Keys == {FileName(Dmg, version), FileName(Sbom, version), FileName(EvidenceJson, version)}
  {
    hide FileName, PayloadNames;
    var payload, sum := WithPayload(files, version, o, final), FileName(ChecksumText, version);
    var three := {FileName(Dmg, version), FileName(Sbom, version), FileName(EvidenceJson, version)};
    var bundles := {FileName(ProvenanceBundle, version), FileName(SbomBundle, version)};
    forall a: Asset, b: Asset | a != b ensures FileName(a, version) != FileName(b, version) {
      if FileName(a, version) == FileName(b, version) {
        NamesDiffer(a, b, version);
      }
    }
    PayloadIs(version);
    assert PayloadNames(version) == three + bundles;
    assert payload.Keys == files.Keys + bundles;
    SameKeys(files.Keys, three, bundles, sum);
  }

  lemma PayloadIs(version: string)
    ensures PayloadNames(version)
            == {FileName(Dmg, version), FileName(Sbom, version), FileName(EvidenceJson, version),
                FileName(ProvenanceBundle, version), FileName(SbomBundle, version)}
  {
    hide FileName;
    Named(version);
    forall name | name in PayloadNames(version)
      ensures name in {FileName(Dmg, version), FileName(Sbom, version), FileName(EvidenceJson, version),
                       FileName(ProvenanceBundle, version), FileName(SbomBundle, version)}
    {
      var a :| a in PAYLOAD && FileName(a, version) == name;
    }
  }

  /** The last two stages, recorded on top of the evidence read. */
  method RecordFinalStages(e: Evidence, o: Offer) returns (r: Option<seq<StageEvidence>>)
    requires AreRecorded(e.stages) && |e.stages| == 16
    ensures r.Some? <==> IsSafeDetail(AttestedDetail(o))
    ensures r.Some? ==> r.value == e.stages + [StageEvidence(ProvenanceGenerated, AttestedDetail(o)),
                                               StageEvidence(ArtifactIdentityConfirmed, FrozenDetail())]
  {
    hide IsSafeDetail, AttestedDetail, FrozenDetail, AreRecorded;
    FrozenIsSafe();
    var recorder := new Recorder();
    recorder.stages := e.stages;
    var ok := recorder.Confirm(ProvenanceGenerated, AttestedDetail(o));
    if !ok {
      return None;
    }
    ok := recorder.Confirm(ArtifactIdentityConfirmed, FrozenDetail());
    return Some(recorder.stages);
  }

  /** Writes the sums of an exact payload. */
  method WriteChecksums(directory: Directory, sha: Digester, version: string) returns (ok: bool)
    modifies directory
    ensures ok <==> old(directory.files).Keys - {FileName(ChecksumText, version)} == PayloadNames(version)
                    && FileName(ChecksumText, version) !in old(directory.files)
    ensures ok ==> PayloadNames(version) <= old(directory.files).Keys
                   && directory.files == WithSums(sha, old(directory.files), version)
    ensures !ok ==> directory.files == old(directory.files)
  {
    hide FileName, PayloadNames, Sums, Print;
    if directory.files.Keys - {FileName(ChecksumText, version)} != PayloadNames(version) {
      return false;
    }
    ok := directory.Create(FileName(ChecksumText, version), Listing(Print(Sums(sha, directory.files, version))));
  }

  /** What a successful finalisation leaves behind. */
  ghost predicate IsFinalised(policy: Policy, sha: Digester, files: Files, o: Offer, all: Files, final: Evidence)
  {
    var name := FileName(EvidenceJson, "");
    && name in files && files[name].Written?
    && var e := files[name].evidence;
    var v := e.identity.version;
    && IsFinal(sha, files, v, o, final, all)
    && final == FinalEvidence(sha, e, o, files[FileName(Dmg, v)], files[FileName(Sbom, v)])
    && ReadCandidate(policy, sha, all, e.identity.sourceSha, v) == Ok(final)
    && IsEvidence(policy, final, true) && Names(final.stages) == STAGES && e.stages == final.stages[..16]
  }

  /** The checks before anything is written. */
  method CheckStart(directory: Directory, policy: Policy, o: Offer) returns (r: Result<Evidence, CandidateError>)
    ensures r.Ok? <==> MayStart(policy, directory.files, o)
    ensures r.Ok? ==> Written(r.value) == directory.files[FileName(EvidenceJson, "")]
  {
    hide FileName, IsCleaned, IsAttestation;
    var name := FileName(EvidenceJson, "");
    if name !in directory.files || !IsCleaned(policy, directory.files[name]) {
      return Err(CandidateError.NotCleaned);
    }
    CleanedIsWritten(policy, directory.files[name]);
    var e := directory.files[name].evidence;
    if !o.trusted {
      return Err(Untrusted);
    }
    if !IsAttestation(policy, o.provenance, o.repository) || !IsAttestation(policy, o.sbom, o.repository) {
      return Err(BadAttestation);
    }
    if FileName(Dmg, e.identity.version) !in directory.files {
      return Err(WrongFiles);
    }
    if !o.verified {
      return Err(NotVerified);
    }
    return Ok(e);
  }

  lemma CleanedIsWritten(policy: Policy, c: Content)
    requires IsCleaned(policy, c)
    ensures c.Written? && AreRecorded(c.evidence.stages) && |c.evidence.stages| == 16
  {
    CleanedIsSixteen(c.evidence.stages);
  }

  /** The part of readiness that is about files and bundles. */
  lemma ReadyParts(policy: Policy, sha: Digester, files: Files, o: Offer)
    ensures IsReady(policy, sha, files, o) ==>
              && MayStart(policy, files, o) && !IsEmpty(o.provenanceBundle) && !IsEmpty(o.sbomBundle) && IsSafeDetail(AttestedDetail(o))
              && var v := files[FileName(EvidenceJson, "")].evidence.identity.version;
              && files.Keys == {FileName(Dmg, v), FileName(Sbom, v), FileName(EvidenceJson, v)}
              && FileName(ProvenanceBundle, v) !in files && FileName(SbomBundle, v) !in files
  {
    hide FileName, Describes, IsSafeDetail, IsEmpty, IsAttestation, AttestedDetail, IsEvidence;
    if IsReady(policy, sha, files, o) {
      var v := files[FileName(EvidenceJson, "")].evidence.identity.version;
      FixedName(EvidenceJson, "", v);
      forall a: Asset, b: Asset | a != b ensures FileName(a, v) != FileName(b, v) {
        if FileName(a, v) == FileName(b, v) {
          NamesDiffer(a, b, v);
        }
      }
    }
  }

  lemma ReadyExactly(policy: Policy, sha: Digester, files: Files, o: Offer, e: Evidence)
    requires AreSound(policy, sha) && MayStart(policy, files, o) && files[FileName(EvidenceJson, "")] == Written(e)
    requires !IsEmpty(o.provenanceBundle) && !IsEmpty(o.sbomBundle) && IsSafeDetail(AttestedDetail(o))
    requires var v := e.identity.version; files.Keys == {FileName(Dmg, v), FileName(Sbom, v), FileName(EvidenceJson, v)}
    ensures var v := e.identity.version;
            var final := FinalEvidence(sha, e, o, files[FileName(Dmg, v)], files[FileName(Sbom, v)]);
            && PayloadNames(v) <= WithPayload(files, v, o, final).Keys
            && var all := WithSums(sha, WithPayload(files, v, o, final), v);
            var r := ReadCandidate(policy, sha, all, e.identity.sourceSha, v);
            && (r.Ok? <==> IsReady(policy, sha, files, o))
            && (r.Ok? ==> IsFinalised(policy, sha, files, o, all, final) && r.value == final)
  {
    hide FileName, Describes, IsSafeDetail, IsEmpty, IsAttestation, AttestedDetail, IsEvidence, ReadCandidate, PayloadNames,
         WithPayload, WithSums, AreSound, FinalEvidence, Names;
    var v := e.identity.version;
    FixedName(EvidenceJson, "", v);
    var dmg, sbom := files[FileName(Dmg, v)], files[FileName(Sbom, v)];
    var final := FinalEvidence(sha, e, o, dmg, sbom);
    FinalContents(sha, files, v, o, final);
    var all := WithSums(sha, WithPayload(files, v, o, final), v);
    assert IsGoodOffer(policy, o);
    FinalEvidenceHolds(policy, sha, e, o, dmg, sbom);
    FinalIsAccepted(policy, sha, files, o, e, final, all);
  }

  /** The directory after the bundles were copied into it. */
  ghost predicate HasBundles(files: Files, before: Files, version: string, o: Offer)
  {
    && FileName(ProvenanceBundle, version) !in before && FileName(SbomBundle, version) !in before
    && files == before[FileName(ProvenanceBundle, version) := o.provenanceBundle][FileName(SbomBundle, version) := o.sbomBundle]
  }

  lemma BundlesOnly(files: Files, before: Files, version: string, o: Offer, final: Evidence)
    requires HasBundles(files, before, version, o)
    ensures files[FileName(EvidenceJson, version) := Written(final)] == WithPayload(before, version, o, final)
    ensures FileName(Dmg, version) in before ==> FileName(Dmg, version) in files && files[FileName(Dmg, version)] == before[FileName(Dmg, version)]
    ensures FileName(Sbom, version) in before <==> FileName(Sbom, version) in files
    ensures FileName(Sbom, version) in before ==> files[FileName(Sbom, version)] == before[FileName(Sbom, version)]
  {
    hide FileName;
    StartNames(version);
  }

  /** The evidence, the sums and the reading back. */
  method CompleteCandidate(directory: Directory, policy: Policy, sha: Digester, o: Offer, e: Evidence, ghost before: Files)
    returns (r: Result<Evidence, CandidateError>)
    requires AreSound(policy, sha) && MayStart(policy, before, o) && before[FileName(EvidenceJson, "")] == Written(e)
    requires !IsEmpty(o.provenanceBundle) && !IsEmpty(o.sbomBundle) && IsSafeDetail(AttestedDetail(o))
    requires HasBundles(directory.files, before, e.identity.version, o)
    modifies directory
    ensures r.Ok? <==> IsReady(policy, sha, before, o)
    ensures r.Ok? ==> IsFinalised(policy, sha, before, o, directory.files, r.value)
  {
    hide FileName, IsReady, IsFinalised, MayStart, IsEmpty, IsSafeDetail, AttestedDetail, ReadCandidate, PayloadNames, WithSums,
         WithPayload, AreSound, FinalEvidence, HasBundles;
    var v := e.identity.version;
    ReadyParts(policy, sha, before, o);
    StartIsCleaned(policy, before, o);
    FixedName(EvidenceJson, "", v);
    BundlesOnly(directory.files, before, v, o, e);
    if FileName(Sbom, v) !in directory.files {
      return Err(WrongFiles);
    }
    var final := FinalEvidence(sha, e, o, directory.files[FileName(Dmg, v)], directory.files[FileName(Sbom, v)]);
    BundlesOnly(directory.files, before, v, o, final);
    directory.files := directory.files[FileName(EvidenceJson, v) := Written(final)];
    BundlesAreNew(old(directory.files), before, v, o);
    PayloadComplete(before, v, o, final);
    var listed := WriteChecksums(directory, sha, v);
    if !listed {
      return Err(WrongFiles);
    }
    ReadyExactly(policy, sha, before, o, e);
    r := ReadCandidate(policy, sha, directory.files, e.identity.sourceSha, v);
  }

  lemma BundlesAreNew(files: Files, before: Files, version: string, o: Offer)
    requires HasBundles(files, before, version, o)
    ensures FileName(ProvenanceBundle, version) !in before && FileName(SbomBundle, version) !in before
  {
  }

  /**
    Finalises the candidate. It succeeds exactly on a ready directory; then exactly the last two stages
    are appended, and the directory it leaves reads back as a complete candidate.
   */
  method FinalizeCandidate(directory: Directory, policy: Policy, sha: Digester, o: Offer) returns (r: Result<Evidence, CandidateError>)
    requires AreSound(policy, sha)
    modifies directory
    ensures r.Ok? <==> IsReady(policy, sha, old(directory.files), o)
    ensures r.Ok? ==> IsFinalised(policy, sha, old(directory.files), o, directory.files, r.value)
  {
    ghost var before := directory.files;
    ReadyParts(policy, sha, before, o);
    hide FileName, IsReady, IsFinalised, MayStart, IsEmpty, IsSafeDetail, AttestedDetail, FrozenDetail, IsCleaned, AreSound;
    var started := CheckStart(directory, policy, o);
    if started.Err? {
      return Err(started.error);
    }
    var e := started.value;
    StartIsCleaned(policy, before, o);
    var copied := CopyBundles(directory, e.identity.version, o);
    if !copied {
      return Err(FileExists);
    }
    var stages := RecordFinalStages(e, o);
    if stages.None? {
      return Err(CandidateError.StageDrift);
    }
    r := CompleteCandidate(directory, policy, sha, o, e, before);
  }

  lemma StartIsCleaned(policy: Policy, files: Files, o: Offer)
    requires MayStart(policy, files, o)
    ensures var name := FileName(EvidenceJson, "");
            && name in files && files[name].Written? && AreRecorded(files[name].evidence.stages) && |files[name].evidence.stages| == 16
            && FileName(Dmg, files[name].evidence.identity.version) in files
  {
    hide FileName, IsAttestation;
    CleanedIsWritten(policy, files[FileName(EvidenceJson, "")]);
  }

  lemma StartNames(version: string)
    ensures forall a: Asset, b: Asset | a != b :: FileName(a, version) != FileName(b, version)
  {
    hide FileName;
    forall a: Asset, b: Asset | a != b ensures FileName(a, version) != FileName(b, version) {
      if FileName(a, version) == FileName(b, version) {
        NamesDiffer(a, b, version);
      }
    }
  }

  /** A finalised directory is never ready again. */
  lemma NotRepeatable(policy: Policy, sha: Digester, files: Files, o: Offer, all: Files, final: Evidence, again: Offer)
    requires IsFinalised(policy, sha, files, o, all, final)
    ensures !IsReady(policy, sha, all, again)
  {
    hide FileName, Describes, IsSafeDetail, IsEmpty, IsAttestation, AttestedDetail, IsEvidence, ReadCandidate, PayloadNames, Sums, Print,
         FinalEvidence, WithPayload, WithSums;
    var v := files[FileName(EvidenceJson, "")].evidence.identity.version;
    FixedName(EvidenceJson, "", v);
    FinalContents(sha, files, v, o, final);
    assert STAGES[17] != CleanupConfirmed && final.stages[17].stage == Names(final.stages)[17];
  }
}
