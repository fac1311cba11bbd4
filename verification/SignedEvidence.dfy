/** The ordered evidence of a signed release: its stages, its recorder and its validator. */
module SignedEvidence {
  import opened Results
  import opened Text
  import opened Checksums

  datatype Stage =
    | TrustedBoundary | CredentialsComplete | KeychainCreated | CertificateImported | IdentityVerified
    | BundleBuilt | BundleVerified | DistributionCreated | NotarySubmitted | NotaryAccepted
    | TicketStapled | TicketValidated | CodesignAssessed | DistributionAssessed | SbomGenerated
    | CleanupConfirmed | ProvenanceGenerated | ArtifactIdentityConfirmed

  const STAGES: seq<Stage> :=
    [TrustedBoundary, CredentialsComplete, KeychainCreated, CertificateImported, IdentityVerified,
     BundleBuilt, BundleVerified, DistributionCreated, NotarySubmitted, NotaryAccepted,
     TicketStapled, TicketValidated, CodesignAssessed, DistributionAssessed, SbomGenerated,
     CleanupConfirmed, ProvenanceGenerated, ArtifactIdentityConfirmed]

  datatype StageEvidence = StageEvidence(stage: Stage, detail: string)

  datatype Identity = Identity(version: string, tag: string, dmgName: string, sourceSha: string)

  datatype Notary = Notary(accepted: bool, submissionId: string, issueCount: nat)

  datatype Signing = Signing(identity: string, teamIdentifier: string)

  datatype ArtifactIdentity = ArtifactIdentity(dmg: string, provenanceBundle: string, sbomBundle: string, sbom: string)

  datatype Attestation = Attestation(id: string, url: string)

  datatype Evidence = Evidence(identity: Identity, notary: Notary, signing: Signing, stages: seq<StageEvidence>,
                               artifact: Option<ArtifactIdentity>, attestations: Option<(Attestation, Attestation)>)

  /** The text rules the scripts test with regular expressions, and the identity parser. */
  datatype Policy = Policy(isPrerelease: string -> bool, isSha: string -> bool, isUuid: string -> bool,
                           isAttestationUrl: string -> bool, teamOf: string -> Option<string>)

  function DmgName(version: string): string
  {
    "Mish-" + version + "-arm64.dmg"
  }

  function IdentityOf(version: string, sourceSha: string): Identity
  {
    Identity(version, "v" + version, DmgName(version), sourceSha)
  }

  /** Printable ASCII, at most 300 characters. */
  predicate IsSafeDetail(s: string)
  {
    1 <= |s| <= 300 && forall i | 0 <= i < |s| :: ' ' <= s[i] <= '~'
  }

  function Names(stages: seq<StageEvidence>): (r: seq<Stage>)
    ensures |r| == |stages|
  {
    seq(|stages|, i requires 0 <= i < |stages| => stages[i].stage)
  }

  /** Some first stages of the list, each with a safe detail. */
  predicate AreRecorded(stages: seq<StageEvidence>)
  {
    Names(stages) <= STAGES && forall s | s in stages :: IsSafeDetail(s.detail)
  }

  predicate IsEvidence(policy: Policy, e: Evidence, final: bool)
  {
    && policy.isSha(e.identity.sourceSha) && policy.isPrerelease(e.identity.version)
    && e.identity == IdentityOf(e.identity.version, e.identity.sourceSha)
    && AreRecorded(e.stages)
    && e.notary.accepted && policy.isUuid(e.notary.submissionId) && e.notary.issueCount == 0
    && policy.teamOf(e.signing.identity) == Some(e.signing.teamIdentifier)
    && (final ==>
          && |e.stages| == |STAGES|
          && e.artifact.Some?
          && IsDigest(e.artifact.value.dmg) && IsDigest(e.artifact.value.provenanceBundle)
          && IsDigest(e.artifact.value.sbomBundle) && IsDigest(e.artifact.value.sbom)
          && e.attestations.Some?
          && AllDigits(e.attestations.value.0.id) && AllDigits(e.attestations.value.1.id)
          && policy.isAttestationUrl(e.attestations.value.0.url) && policy.isAttestationUrl(e.attestations.value.1.url))
  }

  lemma NamesAppend(stages: seq<StageEvidence>, s: StageEvidence)
    ensures Names(stages + [s]) == Names(stages) + [s.stage]
  {
  }

  /** The next stage of the list, with a safe detail, and nothing else, extends the record. */
  lemma RecordedNext(stages: seq<StageEvidence>, s: StageEvidence)
    requires AreRecorded(stages)
    ensures AreRecorded(stages + [s]) <==> |stages| < |STAGES| && s.stage == STAGES[|stages|] && IsSafeDetail(s.detail)
  {
    hide IsSafeDetail;
    NamesAppend(stages, s);
    assert (stages + [s])[|stages|] == s;
    assert Names(stages) + [s.stage] <= STAGES <==> |stages| < |STAGES| && s.stage == STAGES[|stages|];
  }

  /** No stage occurs twice in the list, so the record determines how far a run came. */
  lemma StagesDistinct(i: nat, j: nat)
    requires i < |STAGES| && j < |STAGES| && STAGES[i] == STAGES[j]
    ensures i == j
  {
  }

  /** Records stages in the fixed order; anything else is refused and changes nothing. */
  class Recorder {
    var stages: seq<StageEvidence>

    ghost predicate Valid()
      reads this
    {
      AreRecorded(stages)
    }

    constructor ()
      ensures Valid() && stages == []
    {
      stages := [];
    }

    method Confirm(stage: Stage, detail: string) returns (ok: bool)
      requires Valid()
      modifies this
      ensures Valid()
      ensures ok <==> |old(stages)| < |STAGES| && stage == STAGES[|old(stages)|] && IsSafeDetail(detail)
      ensures stages == old(stages) + (if ok then [StageEvidence(stage, detail)] else [])
    {
      hide IsSafeDetail, AreRecorded;
      RecordedNext(stages, StageEvidence(stage, detail));
      if |stages| >= |STAGES| || stage != STAGES[|stages|] || !IsSafeDetail(detail) {
        return false;
      }
      stages := stages + [StageEvidence(stage, detail)];
      return true;
    }
  }
}
