/** A protected signing run: record, work, clean up whatever happened, and only then vouch for it. */
module SigningRun {
  import opened Results
  import opened Text
  import opened Checksums
  import opened SignedEvidence
  import opened SigningCleanup

  datatype RunError = Refused(task: Task) | NotCleaned(error: CleanupError) | StageDrift

  type Progress = Result<(), RunError>

  /** What the run is told and answered: its identity, the signer and the notary's result. */
  datatype Inputs = Inputs(identity: Identity, signing: Signing, notary: Notary)

  /** The wording under which a run records each of its sixteen stages. */
  function DetailOf(inputs: Inputs, stage: Stage): string
  {
    match stage
    case TrustedBoundary => "workflow_dispatch on main " + "in macos-developer-id"
    case CredentialsComplete => "complete protected " + "credential boundary"
    case KeychainCreated => "temporary locked keychain created"
    case CertificateImported => "certificate imported " + "into temporary keychain"
    case IdentityVerified => "exact Developer ID Application " + "identity verified"
    case BundleBuilt => "signed-direct System Proxy-only " + "application built"
    case BundleVerified => "bundle identity layout runtime " + "and resources verified"
    case DistributionCreated => "Developer ID signed DMG " + "created headlessly"
    case NotarySubmitted => "Apple notary submission " + inputs.notary.submissionId
    case NotaryAccepted => "terminal notary status Accepted " + "with zero issues"
    case TicketStapled => "notary ticket stapled to exact DMG"
    case TicketValidated => "stapler validated the " + "final DMG ticket"
    case CodesignAssessed => "independent strict Developer ID " + "assessment passed"
    case DistributionAssessed => "Gatekeeper disk-image " + "assessment passed"
    case SbomGenerated => "SPDX 2.3 SBOM generated " + "for the final DMG and bundle"
    case CleanupConfirmed => "temporary keychain and " + "signing material removed"
    case _ => ""
  }

  predicate IsTrusted(policy: Policy, inputs: Inputs)
  {
    && policy.isSha(inputs.identity.sourceSha) && policy.isPrerelease(inputs.identity.version)
    && inputs.identity == IdentityOf(inputs.identity.version, inputs.identity.sourceSha)
  }

  predicate IsAccepted(policy: Policy, notary: Notary)
  {
    notary.accepted && policy.isUuid(notary.submissionId) && notary.issueCount == 0
  }

  /** Whether a task that ran also passes the script's own check of its result. */
  predicate Passes(policy: Policy, inputs: Inputs, task: Task)
  {
    match task
    case CheckBoundary => IsTrusted(policy, inputs)
    case CheckCredentials => policy.teamOf(inputs.signing.identity) == Some(inputs.signing.teamIdentifier)
    case Notarize => IsAccepted(policy, inputs.notary)
    case _ => true
  }

  // ---------------------------------------------------------------- the plan, and how a stretch of it goes

  datatype Step = Do(task: Task) | Note(stage: Stage)

  const PREPARATION: seq<Step> :=
    [Do(CheckBoundary), Do(CheckCredentials), Note(TrustedBoundary), Note(CredentialsComplete), Do(PrepareOutput), Do(CheckScratch)]

  /** The guarded work: a stage is noted only after what earns it. */
  const SIGNING: seq<Step> :=
    [Do(ImportIdentity), Note(KeychainCreated), Note(CertificateImported), Do(VerifyIdentity), Note(IdentityVerified),
     Do(BuildBundle), Note(BundleBuilt), Do(VerifyBundle), Note(BundleVerified), Do(CreateDistribution), Note(DistributionCreated),
     Do(Notarize), Note(NotarySubmitted), Note(NotaryAccepted), Do(Staple), Note(TicketStapled), Do(ValidateTicket),
     Note(TicketValidated), Do(AssessCode), Note(CodesignAssessed), Do(AssessDistribution), Note(DistributionAssessed),
     Do(GenerateSbom), Note(SbomGenerated)]

  const CONCLUSION: seq<Step> := [Note(CleanupConfirmed), Do(WriteEvidence)]

  /** What a step leaves behind when it succeeds. */
  function WorkOf(step: Step): seq<Effect>
  {
    if step.Do? then [Ran(step.task, true)] else []
  }

  function NoteOf(step: Step, inputs: Inputs): seq<StageEvidence>
  {
    if step.Note? then [StageEvidence(step.stage, DetailOf(inputs, step.stage))] else []
  }

  function Works(steps: seq<Step>): seq<Effect>
  {
    if steps == [] then [] else Works(steps[..|steps| - 1]) + WorkOf(steps[|steps| - 1])
  }

  function Notes(steps: seq<Step>, inputs: Inputs): seq<StageEvidence>
  {
    if steps == [] then [] else Notes(steps[..|steps| - 1], inputs) + NoteOf(steps[|steps| - 1], inputs)
  }

  /** Whether a step whose command succeeds goes through. */
  predicate Succeeds(policy: Policy, inputs: Inputs, step: Step)
  {
    match step
    case Do(task) => Passes(policy, inputs, task)
    case Note(stage) => IsSafeDetail(DetailOf(inputs, stage))
  }

  /** What was run and noted, and how it ended. */
  datatype Stretch = Stretch(work: seq<Effect>, noted: seq<StageEvidence>, r: Progress)

  /** Everything before step `j` succeeded, and step `j` failed. */
  ghost predicate StopsAt(plan: seq<Step>, j: nat, policy: Policy, inputs: Inputs, s: Stretch)
    requires j < |plan|
  {
    && (forall i | 0 <= i < j :: Succeeds(policy, inputs, plan[i])) && s.noted == Notes(plan[..j], inputs)
    && match plan[j]
       case Note(stage) => s.work == Works(plan[..j]) && !IsSafeDetail(DetailOf(inputs, stage)) && s.r == Err(StageDrift)
       case Do(task) =>
         && s.r == Err(Refused(task))
         && (|| s.work == Works(plan[..j]) + [Ran(task, false)]
             || (s.work == Works(plan[..j]) + [Ran(task, true)] && !Passes(policy, inputs, task)))
  }

  /** The first `k` steps succeeded, or the first of them that failed ended it. */
  ghost predicate Reaches(plan: seq<Step>, k: nat, policy: Policy, inputs: Inputs, s: Stretch)
    requires k <= |plan|
  {
    if s.r.Ok? then
      && s.work == Works(plan[..k]) && s.noted == Notes(plan[..k], inputs)
      && forall i | 0 <= i < k :: Succeeds(policy, inputs, plan[i])
    else exists j | 0 <= j < k :: StopsAt(plan, j, policy, inputs, s)
  }

  ghost predicate Follows(plan: seq<Step>, policy: Policy, inputs: Inputs, s: Stretch)
  {
    Reaches(plan, |plan|, policy, inputs, s)
  }

  lemma ReachesNext(plan: seq<Step>, k: nat, policy: Policy, inputs: Inputs, s: Stretch)
    requires k < |plan| && Reaches(plan, k, policy, inputs, s)
    ensures s.r.Err? ==> Reaches(plan, k + 1, policy, inputs, s)
    ensures s.r.Ok? && Succeeds(policy, inputs, plan[k]) ==>
              Reaches(plan, k + 1, policy, inputs, Stretch(s.work + WorkOf(plan[k]), s.noted + NoteOf(plan[k], inputs), Ok(())))
  {
    hide Succeeds, WorkOf, NoteOf, StopsAt;
    assert plan[..k + 1][..k] == plan[..k];
    if s.r.Err? {
      var j :| 0 <= j < k && StopsAt(plan, j, policy, inputs, s);
    }
  }

  lemma ReachesEnd(plan: seq<Step>, k: nat, policy: Policy, inputs: Inputs, s: Stretch, work: seq<Effect>, e: RunError)
    requires k < |plan| && Reaches(plan, k, policy, inputs, s) && s.r.Ok?
    requires StopsAt(plan, k, policy, inputs, Stretch(work, s.noted, Err(e)))
    ensures Reaches(plan, k + 1, policy, inputs, Stretch(work, s.noted, Err(e)))
  {
    hide Succeeds, WorkOf, NoteOf, StopsAt;
  }

  // ---------------------------------------------------------------- the procedures follow the plan

  /** Where a stretch of the plan began. */
  datatype Start = Start(plan: seq<Step>, log: seq<Effect>, stages: seq<StageEvidence>)

  /** The run since `from` reaches step `k`, and so far `count` stages are recorded. */
  ghost predicate At(host: Host, recorder: Recorder, policy: Policy, inputs: Inputs, from: Start, k: nat, count: nat, r: Progress)
    reads host, recorder
  {
    && from.log <= host.log && from.stages <= recorder.stages && recorder.Valid() && k <= |from.plan|
    && (r.Ok? ==> |recorder.stages| == count)
    && Reaches(from.plan, k, policy, inputs, Stretch(host.log[|from.log|..], recorder.stages[|from.stages|..], r))
  }

  predicate IsStage(i: nat, stage: Stage)
  {
    i < |STAGES| && STAGES[i] == stage
  }

  predicate IsSigning(plan: seq<Step>)
  {
    plan == SIGNING
  }

  /** Records the next stage, unless something failed before. */
  method Record(host: Host, recorder: Recorder, policy: Policy, inputs: Inputs, stage: Stage, prior: Progress,
                ghost from: Start, ghost k: nat, ghost count: nat)
    returns (r: Progress)
    requires At(host, recorder, policy, inputs, from, k, count, prior) && k < |from.plan| && from.plan[k] == Note(stage)
    requires IsStage(count, stage)
    modifies recorder
    ensures At(host, recorder, policy, inputs, from, k + 1, count + 1, r)
  {
    hide IsSafeDetail, DetailOf, AreRecorded, Reaches, Works, Notes;
    ghost var s := Stretch(host.log[|from.log|..], recorder.stages[|from.stages|..], prior);
    ReachesNext(from.plan, k, policy, inputs, s);
    if prior.Err? {
      return prior;
    }
    var ok := recorder.Confirm(stage, DetailOf(inputs, stage));
    if ok {
      assert recorder.stages[|from.stages|..] == s.noted + [StageEvidence(stage, DetailOf(inputs, stage))];
      assert s.work + [] == s.work;
      return Ok(());
    }
    assert recorder.stages == old(recorder.stages);
    Completed(from.plan, k, policy, inputs, s);
    ReachesEnd(from.plan, k, policy, inputs, s, s.work, StageDrift);
    return Err(StageDrift);
  }

  lemma Completed(plan: seq<Step>, k: nat, policy: Policy, inputs: Inputs, s: Stretch)
    requires k <= |plan| && Reaches(plan, k, policy, inputs, s) && s.r.Ok?
    ensures s.work == Works(plan[..k]) && s.noted == Notes(plan[..k], inputs)
    ensures forall i | 0 <= i < k :: Succeeds(policy, inputs, plan[i])
  {
  }

  /** Runs a task, unless something failed before. */
  method Attempt(host: Host, recorder: Recorder, policy: Policy, inputs: Inputs, task: Task, prior: Progress,
                 ghost from: Start, ghost k: nat, ghost count: nat)
    returns (r: Progress)
    requires At(host, recorder, policy, inputs, from, k, count, prior) && k < |from.plan| && from.plan[k] == Do(task)
    modifies host
    ensures At(host, recorder, policy, inputs, from, k + 1, count, r)
  {
    hide IsSafeDetail, DetailOf, AreRecorded, Reaches, Works, Notes, Passes;
    ghost var s := Stretch(host.log[|from.log|..], recorder.stages[|from.stages|..], prior);
    ReachesNext(from.plan, k, policy, inputs, s);
    if prior.Err? {
      return prior;
    }
    var ok := host.Run(task);
    assert host.log[|from.log|..] == s.work + [Ran(task, ok)];
    if !ok || !Passes(policy, inputs, task) {
      Completed(from.plan, k, policy, inputs, s);
      ReachesEnd(from.plan, k, policy, inputs, s, s.work + [Ran(task, ok)], Refused(task));
      return Err(Refused(task));
    }
    assert s.noted + [] == s.noted;
    return Ok(());
  }

  /** Runs a task and records the stage it earns. */
  method Achieve(host: Host, recorder: Recorder, policy: Policy, inputs: Inputs, task: Task, stage: Stage, prior: Progress,
                 ghost from: Start, ghost k: nat, ghost count: nat)
    returns (r: Progress)
    requires At(host, recorder, policy, inputs, from, k, count, prior)
    requires k + 1 < |from.plan| && from.plan[k] == Do(task) && from.plan[k + 1] == Note(stage)
    requires IsStage(count, stage)
    modifies host, recorder
    ensures At(host, recorder, policy, inputs, from, k + 2, count + 1, r)
  {
    hide At;
    r := Attempt(host, recorder, policy, inputs, task, prior, from, k, count);
    r := Record(host, recorder, policy, inputs, stage, r, from, k + 1, count);
  }

  lemma AtStart(host: Host, recorder: Recorder, policy: Policy, inputs: Inputs, plan: seq<Step>)
    requires recorder.Valid()
    ensures At(host, recorder, policy, inputs, Start(plan, host.log, recorder.stages), 0, |recorder.stages|, Ok(()))
  {
    assert host.log[|host.log|..] == [] && recorder.stages[|recorder.stages|..] == [];
  }

  /** The checks before any signing material exists. */
  method Prepare(host: Host, recorder: Recorder, policy: Policy, inputs: Inputs) returns (r: Progress)
    requires recorder.stages == [] && recorder.Valid()
    modifies host, recorder
    ensures At(host, recorder, policy, inputs, Start(PREPARATION, old(host.log), []), |PREPARATION|, 2, r)
  {
    hide At, AreRecorded;
    ghost var from := Start(PREPARATION, host.log, recorder.stages);
    AtStart(host, recorder, policy, inputs, PREPARATION);
    r := Attempt(host, recorder, policy, inputs, CheckBoundary, Ok(()), from, 0, 0);
    r := Attempt(host, recorder, policy, inputs, CheckCredentials, r, from, 1, 0);
    r := Record(host, recorder, policy, inputs, TrustedBoundary, r, from, 2, 0);
    r := Record(host, recorder, policy, inputs, CredentialsComplete, r, from, 3, 1);
    r := Attempt(host, recorder, policy, inputs, PrepareOutput, r, from, 4, 2);
    r := Attempt(host, recorder, policy, inputs, CheckScratch, r, from, 5, 2);
  }

  lemma BuildingSteps(plan: seq<Step>)
    requires IsSigning(plan)
    ensures |plan| == 24
    ensures plan[0] == Do(ImportIdentity) && plan[1] == Note(KeychainCreated) && plan[2] == Note(CertificateImported)
    ensures plan[3] == Do(VerifyIdentity) && plan[4] == Note(IdentityVerified) && plan[5] == Do(BuildBundle)
    ensures plan[6] == Note(BundleBuilt) && plan[7] == Do(VerifyBundle) && plan[8] == Note(BundleVerified)
    ensures plan[9] == Do(CreateDistribution) && plan[10] == Note(DistributionCreated)
  {
  }

  lemma NotarizingSteps(plan: seq<Step>)
    requires IsSigning(plan)
    ensures |plan| == 24
    ensures plan[11] == Do(Notarize) && plan[12] == Note(NotarySubmitted) && plan[13] == Note(NotaryAccepted)
    ensures plan[14] == Do(Staple) && plan[15] == Note(TicketStapled) && plan[16] == Do(ValidateTicket)
    ensures plan[17] == Note(TicketValidated) && plan[18] == Do(AssessCode) && plan[19] == Note(CodesignAssessed)
    ensures plan[20] == Do(AssessDistribution) && plan[21] == Note(DistributionAssessed) && plan[22] == Do(GenerateSbom)
    ensures plan[23] == Note(SbomGenerated)
  {
  }

  lemma BuildingStages()
    ensures IsStage(2, KeychainCreated) && IsStage(3, CertificateImported) && IsStage(4, IdentityVerified)
    ensures IsStage(5, BundleBuilt) && IsStage(6, BundleVerified) && IsStage(7, DistributionCreated)
  {
  }

  lemma NotarizingStages()
    ensures IsStage(8, NotarySubmitted) && IsStage(9, NotaryAccepted) && IsStage(10, TicketStapled)
    ensures IsStage(11, TicketValidated) && IsStage(12, CodesignAssessed) && IsStage(13, DistributionAssessed)
    ensures IsStage(14, SbomGenerated)
  {
  }

  /** From importing the identity to the signed disk image. */
  method BuildSigned(host: Host, recorder: Recorder, policy: Policy, inputs: Inputs, ghost from: Start) returns (r: Progress)
    requires IsSigning(from.plan) && At(host, recorder, policy, inputs, from, 0, 2, Ok(()))
    modifies host, recorder
    ensures At(host, recorder, policy, inputs, from, 11, 8, r)
  {
    hide At, IsStage, IsSigning;
    BuildingSteps(from.plan);
    BuildingStages();
    r := Achieve(host, recorder, policy, inputs, ImportIdentity, KeychainCreated, Ok(()), from, 0, 2);
    r := Record(host, recorder, policy, inputs, CertificateImported, r, from, 2, 3);
    r := Achieve(host, recorder, policy, inputs, VerifyIdentity, IdentityVerified, r, from, 3, 4);
    r := Achieve(host, recorder, policy, inputs, BuildBundle, BundleBuilt, r, from, 5, 5);
    r := Achieve(host, recorder, policy, inputs, VerifyBundle, BundleVerified, r, from, 7, 6);
    r := Achieve(host, recorder, policy, inputs, CreateDistribution, DistributionCreated, r, from, 9, 7);
  }

  /** Submission, the ticket, the assessments and the bill of materials. */
  method NotarizeSigned(host: Host, recorder: Recorder, policy: Policy, inputs: Inputs, prior: Progress, ghost from: Start)
    returns (r: Progress)
    requires IsSigning(from.plan) && At(host, recorder, policy, inputs, from, 11, 8, prior)
    modifies host, recorder
    ensures At(host, recorder, policy, inputs, from, 24, 15, r)
  {
    hide At, IsStage, IsSigning;
    NotarizingSteps(from.plan);
    NotarizingStages();
    r := Achieve(host, recorder, policy, inputs, Notarize, NotarySubmitted, prior, from, 11, 8);
    r := Record(host, recorder, policy, inputs, NotaryAccepted, r, from, 13, 9);
    r := Achieve(host, recorder, policy, inputs, Staple, TicketStapled, r, from, 14, 10);
    r := Achieve(host, recorder, policy, inputs, ValidateTicket, TicketValidated, r, from, 16, 11);
    r := Achieve(host, recorder, policy, inputs, AssessCode, CodesignAssessed, r, from, 18, 12);
    r := Achieve(host, recorder, policy, inputs, AssessDistribution, DistributionAssessed, r, from, 20, 13);
    r := Achieve(host, recorder, policy, inputs, GenerateSbom, SbomGenerated, r, from, 22, 14);
  }

  /** The guarded work as a whole. */
  method Sign(host: Host, recorder: Recorder, policy: Policy, inputs: Inputs) returns (r: Progress)
    requires recorder.Valid() && |recorder.stages| == 2
    modifies host, recorder
    ensures At(host, recorder, policy, inputs, Start(SIGNING, old(host.log), old(recorder.stages)), |SIGNING|, 15, r)
  {
    hide At, AreRecorded;
    ghost var from := Start(SIGNING, host.log, recorder.stages);
    AtStart(host, recorder, policy, inputs, SIGNING);
    r := BuildSigned(host, recorder, policy, inputs, from);
    r := NotarizeSigned(host, recorder, policy, inputs, r, from);
  }

  /** What follows a confirmed cleanup. */
  method Conclude(host: Host, recorder: Recorder, policy: Policy, inputs: Inputs) returns (r: Progress)
    requires recorder.Valid() && |recorder.stages| == 15
    modifies host, recorder
    ensures At(host, recorder, policy, inputs, Start(CONCLUSION, old(host.log), old(recorder.stages)), |CONCLUSION|, 16, r)
  {
    hide At, AreRecorded;
    ghost var from := Start(CONCLUSION, host.log, recorder.stages);
    AtStart(host, recorder, policy, inputs, CONCLUSION);
    r := Record(host, recorder, policy, inputs, CleanupConfirmed, Ok(()), from, 0, 15);
    r := Attempt(host, recorder, policy, inputs, WriteEvidence, r, from, 1, 16);
  }

  // ---------------------------------------------------------------- the whole run

  /** The stretches of a run, and the cleanup between them. */
  datatype Run = Run(preparation: Stretch, signing: Stretch, cleanup: seq<Effect>, cleaned: Cleaned, conclusion: Stretch)

  function EvidenceOf(inputs: Inputs, stages: seq<StageEvidence>): Evidence
  {
    Evidence(inputs.identity, inputs.notary, inputs.signing, stages, None, None)
  }

  /**
    Preparation; if it went through, the guarded work and then a cleanup, whatever the work came to;
    if both went through, the conclusion. A failed cleanup outweighs a failure before it.
   */
  ghost predicate IsRun(log: seq<Effect>, stages: seq<StageEvidence>, policy: Policy, inputs: Inputs, run: Run,
                        r: Result<Evidence, RunError>)
  {
    && Follows(PREPARATION, policy, inputs, run.preparation)
    && if run.preparation.r.Err? then
         log == run.preparation.work && stages == run.preparation.noted && r == Err(run.preparation.r.error)
       else
         && Follows(SIGNING, policy, inputs, run.signing) && IsCleanup(run.cleanup, run.cleaned)
         && var done, noted := run.preparation.work + run.signing.work + run.cleanup, run.preparation.noted + run.signing.noted;
         if run.cleaned.Err? then log == done && stages == noted && r == Err(NotCleaned(run.cleaned.error))
         else if run.signing.r.Err? then log == done && stages == noted && r == Err(run.signing.r.error)
         else
           && Follows(CONCLUSION, policy, inputs, run.conclusion)
           && log == done + run.conclusion.work && stages == noted + run.conclusion.noted
           && r == if run.conclusion.r.Err? then Err(run.conclusion.r.error) else Ok(EvidenceOf(inputs, stages))
  }

  method Execute(host: Host, policy: Policy, inputs: Inputs)
    returns (r: Result<Evidence, RunError>, recorder: Recorder, ghost run: Run, ghost log: seq<Effect>)
    modifies host
    ensures host.log == old(host.log) + log && fresh(recorder) && recorder.Valid()
    ensures IsRun(log, recorder.stages, policy, inputs, run, r)
    ensures r.Ok? ==> |recorder.stages| == 16
  {
    hide AreRecorded, Reaches, IsCleanup;
    recorder := new Recorder();
    ghost var nothing := Stretch([], [], Ok(()));
    ghost var start := host.log;
    var prepared := Prepare(host, recorder, policy, inputs);
    log := host.log[|start|..];
    ghost var first := Stretch(log, recorder.stages, prepared);
    run := Run(first, nothing, [], Ok(()), nothing);
    if prepared.Err? {
      return Err(prepared.error), recorder, run, log;
    }
    ghost var before, noted := host.log, recorder.stages;
    var signed := Sign(host, recorder, policy, inputs);
    ghost var second := Stretch(host.log[|before|..], recorder.stages[|noted|..], signed);
    var cleaned;
    ghost var cleanup;
    cleaned, cleanup := CleanupSigningMaterials(host);
    log := first.work + second.work + cleanup;
    run := Run(first, second, cleanup, cleaned, nothing);
    if cleaned.Err? {
      return Err(NotCleaned(cleaned.error)), recorder, run, log;
    }
    if signed.Err? {
      return Err(signed.error), recorder, run, log;
    }
    before, noted := host.log, recorder.stages;
    var concluded := Conclude(host, recorder, policy, inputs);
    ghost var third := Stretch(host.log[|before|..], recorder.stages[|noted|..], concluded);
    log := log + third.work;
    run := Run(first, second, cleanup, cleaned, third);
    r := if concluded.Err? then Err(concluded.error) else Ok(EvidenceOf(inputs, recorder.stages));
  }

  // ---------------------------------------------------------------- what every run keeps

  predicate CreatesMaterial(e: Effect)
  {
    e.Ran? && e.task == ImportIdentity
  }

  lemma {:induction false} WorksOnly(steps: seq<Step>, e: Effect)
    requires e in Works(steps)
    ensures e.Ran? && Do(e.task) in steps
    decreases |steps|
  {
    var n := |steps| - 1;
    if e in Works(steps[..n]) {
      WorksOnly(steps[..n], e);
    } else {
      assert steps[n] in steps;
    }
  }

  lemma {:induction false} NotesOnly(steps: seq<Step>, inputs: Inputs, s: StageEvidence)
    requires s in Notes(steps, inputs)
    ensures Note(s.stage) in steps
    decreases |steps|
  {
    var n := |steps| - 1;
    if s in Notes(steps[..n], inputs) {
      NotesOnly(steps[..n], inputs, s);
    } else {
      assert steps[n] in steps;
    }
  }

  /** A stretch runs and notes only what its plan names. */
  lemma StretchOnly(plan: seq<Step>, policy: Policy, inputs: Inputs, s: Stretch)
    requires Follows(plan, policy, inputs, s)
    ensures forall e | e in s.work :: e.Ran? && Do(e.task) in plan
    ensures forall e | e in s.noted :: Note(e.stage) in plan
  {
    hide Works, Notes, Succeeds, Passes, IsSafeDetail;
    var k := |plan|;
    if s.r.Err? {
      k :| 0 <= k < |plan| && StopsAt(plan, k, policy, inputs, s);
      assert plan[k] in plan;
    }
    forall e | e in s.work ensures e.Ran? && Do(e.task) in plan {
      if e in Works(plan[..k]) {
        WorksOnly(plan[..k], e);
      }
    }
    forall e | e in s.noted ensures Note(e.stage) in plan {
      NotesOnly(plan[..k], inputs, e);
    }
  }

  lemma PlanFacts()
    ensures Do(ImportIdentity) !in PREPARATION && Do(ImportIdentity) !in CONCLUSION
    ensures Note(CleanupConfirmed) !in PREPARATION && Note(CleanupConfirmed) !in SIGNING
  {
  }

  lemma CreatesNothing(plan: seq<Step>, policy: Policy, inputs: Inputs, s: Stretch)
    requires Follows(plan, policy, inputs, s) && Do(ImportIdentity) !in plan
    ensures forall e | e in s.work :: !CreatesMaterial(e)
  {
    hide Follows;
    StretchOnly(plan, policy, inputs, s);
  }

  lemma ConfirmsNothing(plan: seq<Step>, policy: Policy, inputs: Inputs, s: Stretch)
    requires Follows(plan, policy, inputs, s) && Note(CleanupConfirmed) !in plan
    ensures forall e | e in s.noted :: e.stage != CleanupConfirmed
  {
    hide Follows;
    StretchOnly(plan, policy, inputs, s);
  }

  /** After the effect at `i` a whole cleanup follows in the log. */
  ghost predicate IsCleanedAfter(log: seq<Effect>, i: nat, cleaned: Cleaned)
  {
    exists j, k | i < j <= k <= |log| :: IsCleanup(log[j..k], cleaned)
  }

  /**
    Whatever fails: signing material is created only where a whole cleanup follows, and the cleanup
    stage is recorded only after a cleanup that returned normally.
   */
  lemma RunIsGuarded(log: seq<Effect>, stages: seq<StageEvidence>, policy: Policy, inputs: Inputs, run: Run,
                     r: Result<Evidence, RunError>)
    requires IsRun(log, stages, policy, inputs, run, r)
    ensures forall i | 0 <= i < |log| && CreatesMaterial(log[i]) :: IsCleanedAfter(log, i, run.cleaned)
    ensures (exists s | s in stages :: s.stage == CleanupConfirmed) ==> run.cleaned.Ok? && IsCleanup(run.cleanup, run.cleaned)
  {
    hide Follows, IsCleanup, IsCleanedAfter, PREPARATION, SIGNING, CONCLUSION;
    PlanFacts();
    CreatesNothing(PREPARATION, policy, inputs, run.preparation);
    ConfirmsNothing(PREPARATION, policy, inputs, run.preparation);
    if run.preparation.r.Ok? {
      ConfirmsNothing(SIGNING, policy, inputs, run.signing);
      CleanupCreatesNothing(run.cleanup, run.cleaned);
      if run.cleaned.Ok? && run.signing.r.Ok? {
        CreatesNothing(CONCLUSION, policy, inputs, run.conclusion);
      }
      forall i | 0 <= i < |log| && CreatesMaterial(log[i]) ensures IsCleanedAfter(log, i, run.cleaned) {
        var j, k := |run.preparation.work| + |run.signing.work|, |run.preparation.work| + |run.signing.work| + |run.cleanup|;
        assert log[j..k] == run.cleanup;
        Located(log, run.preparation.work + run.signing.work, run.cleanup, log[k..], i);
        CleanedAfter(log, i, j, k, run.cleaned);
      }
    }
  }

  lemma CleanupCreatesNothing(cleanup: seq<Effect>, cleaned: Cleaned)
    requires IsCleanup(cleanup, cleaned)
    ensures forall e | e in cleanup :: !CreatesMaterial(e)
  {
    CleanupOnlyCleans(cleanup, cleaned);
    hide IsCleanup;
  }

  lemma CleanedAfter(log: seq<Effect>, i: nat, j: nat, k: nat, cleaned: Cleaned)
    requires i < j <= k <= |log| && IsCleanup(log[j..k], cleaned)
    ensures IsCleanedAfter(log, i, cleaned)
  {
    hide IsCleanup;
  }

  lemma Located(log: seq<Effect>, front: seq<Effect>, middle: seq<Effect>, back: seq<Effect>, i: nat)
    requires log == front + middle + back && i < |log| && CreatesMaterial(log[i])
    requires (forall e | e in middle :: !CreatesMaterial(e)) && (forall e | e in back :: !CreatesMaterial(e))
    ensures i < |front|
  {
    assert log[..|front|] == front;
    forall e | e in middle + back ensures !CreatesMaterial(e) {
    }
    assert log == front + (middle + back);
  }

  /** Evidence is returned exactly if every stretch and the cleanup went through; then it is valid evidence. */
  lemma EvidenceHolds(log: seq<Effect>, stages: seq<StageEvidence>, policy: Policy, inputs: Inputs, run: Run,
                      r: Result<Evidence, RunError>)
    requires IsRun(log, stages, policy, inputs, run, r) && AreRecorded(stages)
    ensures r.Ok? <==> run.preparation.r.Ok? && run.cleaned.Ok? && run.signing.r.Ok? && run.conclusion.r.Ok?
    ensures r.Ok? ==> r.value.stages == stages && IsEvidence(policy, r.value, false)
  {
    hide IsSafeDetail, DetailOf, AreRecorded, IsCleanup, Works, Notes;
    if r.Ok? {
      assert Succeeds(policy, inputs, PREPARATION[0]) && Succeeds(policy, inputs, PREPARATION[1]);
      assert Succeeds(policy, inputs, SIGNING[11]);
    }
  }

  // ---------------------------------------------------------------- no run fails on its own wording

  lemma SafeConcat(a: string, b: string)
    requires IsSafeDetail(a) && IsSafeDetail(b) && |a| + |b| <= 300
    ensures IsSafeDetail(a + b)
  {
  }

  /** A safe text of moderate length. */
  predicate IsPhrase(s: string)
  {
    IsSafeDetail(s) && |s| <= 60
  }

  lemma PhraseConcat(a: string, b: string)
    requires IsPhrase(a) && IsPhrase(b)
    ensures IsSafeDetail(a + b)
  {
    hide IsSafeDetail;
    SafeConcat(a, b);
  }

  lemma BoundaryPhrases()
    ensures IsPhrase("workflow_dispatch on main ") && IsPhrase("in macos-developer-id")
  {
  }

  lemma CredentialPhrases()
    ensures IsPhrase("complete protected ") && IsPhrase("credential boundary")
  {
  }

  lemma KeychainPhrases()
    ensures IsPhrase("temporary locked keychain created")
  {
  }

  lemma CertificatePhrases()
    ensures IsPhrase("certificate imported ") && IsPhrase("into temporary keychain")
  {
  }

  lemma IdentityPhrases()
    ensures IsPhrase("exact Developer ID Application ") && IsPhrase("identity verified")
  {
  }

  lemma BuildPhrases()
    ensures IsPhrase("signed-direct System Proxy-only ") && IsPhrase("application built")
  {
  }

  lemma BundlePhrases()
    ensures IsPhrase("bundle identity layout runtime ") && IsPhrase("and resources verified")
  {
  }

  lemma DistributionPhrases()
    ensures IsPhrase("Developer ID signed DMG ") && IsPhrase("created headlessly")
  {
  }

  lemma NotaryPhrases()
    ensures IsPhrase("terminal notary status Accepted ") && IsPhrase("with zero issues")
  {
  }

  lemma StaplePhrase()
    ensures IsPhrase("notary ticket stapled to exact DMG")
  {
  }

  lemma TicketPhrases()
    ensures IsPhrase("stapler validated the ") && IsPhrase("final DMG ticket")
  {
  }

  lemma AssessmentPhrases()
    ensures IsPhrase("independent strict Developer ID ") && IsPhrase("assessment passed")
  {
  }

  lemma LastPhrases()
    ensures IsPhrase("SPDX 2.3 SBOM generated ") && IsPhrase("for the final DMG and bundle")
  {
  }

  lemma GatekeeperPhrase()
    ensures IsPhrase("Gatekeeper disk-image ")
  {
  }

  lemma CleanupPhrases()
    ensures IsPhrase("temporary keychain and ") && IsPhrase("signing material removed")
  {
  }

  /** Every fixed wording of a run is a safe detail. */
  lemma DetailsAreSafe(inputs: Inputs, stage: Stage)
    requires stage !in {NotarySubmitted, ProvenanceGenerated, ArtifactIdentityConfirmed}
    ensures IsSafeDetail(DetailOf(inputs, stage))
  {
    hide IsPhrase;
    match stage
    case TrustedBoundary => BoundaryPhrases(); PhraseConcat("workflow_dispatch on main ", "in macos-developer-id");
    case CredentialsComplete => CredentialPhrases(); PhraseConcat("complete protected ", "credential boundary");
    case KeychainCreated => KeychainPhrases(); PhraseIsSafe("temporary locked keychain created");
    case CertificateImported => CertificatePhrases(); PhraseConcat("certificate imported ", "into temporary keychain");
    case IdentityVerified => IdentityPhrases(); PhraseConcat("exact Developer ID Application ", "identity verified");
    case BundleBuilt => BuildPhrases(); PhraseConcat("signed-direct System Proxy-only ", "application built");
    case BundleVerified => BundlePhrases(); PhraseConcat("bundle identity layout runtime ", "and resources verified");
    case DistributionCreated => DistributionPhrases(); PhraseConcat("Developer ID signed DMG ", "created headlessly");
    case NotaryAccepted => NotaryPhrases(); PhraseConcat("terminal notary status Accepted ", "with zero issues");
    case TicketStapled => StaplePhrase(); PhraseIsSafe("notary ticket stapled to exact DMG");
    case TicketValidated => TicketPhrases(); PhraseConcat("stapler validated the ", "final DMG ticket");
    case CodesignAssessed => AssessmentPhrases(); PhraseConcat("independent strict Developer ID ", "assessment passed");
    case DistributionAssessed => GatekeeperPhrase(); AssessmentPhrases(); PhraseConcat("Gatekeeper disk-image ", "assessment passed");
    case SbomGenerated => LastPhrases(); PhraseConcat("SPDX 2.3 SBOM generated ", "for the final DMG and bundle");
    case CleanupConfirmed => CleanupPhrases(); PhraseConcat("temporary keychain and ", "signing material removed");
  }

  lemma PhraseIsSafe(s: string)
    requires IsPhrase(s)
    ensures IsSafeDetail(s)
  {
  }

  /** The submission's wording is safe if its identifier is printable and not too long. */
  lemma SubmissionIsSafe(inputs: Inputs)
    requires IsSafeDetail(inputs.notary.submissionId) && |inputs.notary.submissionId| <= 60
    ensures IsSafeDetail(DetailOf(inputs, NotarySubmitted))
  {
    assert IsPhrase("Apple notary submission ");
    hide IsSafeDetail;
    SafeConcat("Apple notary submission ", inputs.notary.submissionId);
  }

  /** A plan that notes only stages of a run, and the submission only after a passed notarisation. */
  ghost predicate IsSoundPlan(plan: seq<Step>)
  {
    forall j | 0 <= j < |plan| && plan[j].Note? ::
      && plan[j].stage !in {ProvenanceGenerated, ArtifactIdentityConfirmed}
      && (plan[j].stage == NotarySubmitted ==> exists i | 0 <= i < j :: plan[i] == Do(Notarize))
  }

  lemma PlansAreSound()
    ensures IsSoundPlan(PREPARATION) && IsSoundPlan(CONCLUSION)
  {
  }

  lemma SigningIsSound(plan: seq<Step>)
    requires IsSigning(plan)
    ensures IsSoundPlan(plan)
  {
    BuildingSteps(plan);
    NotarizingSteps(plan);
    hide IsSigning;
    assert plan[11] == Do(Notarize);
  }

  lemma NoDrift(plan: seq<Step>, policy: Policy, inputs: Inputs, s: Stretch)
    requires Follows(plan, policy, inputs, s) && IsSoundPlan(plan)
    requires policy.isUuid(inputs.notary.submissionId) ==>
               IsSafeDetail(inputs.notary.submissionId) && |inputs.notary.submissionId| <= 60
    ensures s.r != Err(StageDrift)
  {
    hide IsSafeDetail, DetailOf, Works, Notes;
    if s.r == Err(StageDrift) {
      var j :| 0 <= j < |plan| && StopsAt(plan, j, policy, inputs, s);
      if plan[j].stage == NotarySubmitted {
        var i :| 0 <= i < j && plan[i] == Do(Notarize);
        assert Succeeds(policy, inputs, plan[i]);
        SubmissionIsSafe(inputs);
      } else {
        DetailsAreSafe(inputs, plan[j].stage);
      }
    }
  }

  /** With submission identifiers that are printable and short, as UUIDs are, no run fails on its own wording. */
  lemma RunNeverDrifts(log: seq<Effect>, stages: seq<StageEvidence>, policy: Policy, inputs: Inputs, run: Run,
                       r: Result<Evidence, RunError>)
    requires IsRun(log, stages, policy, inputs, run, r)
    requires policy.isUuid(inputs.notary.submissionId) ==>
               IsSafeDetail(inputs.notary.submissionId) && |inputs.notary.submissionId| <= 60
    ensures r != Err(StageDrift)
  {
    hide Follows, IsCleanup, PREPARATION, SIGNING, CONCLUSION, IsSafeDetail, IsSoundPlan;
    PlansAreSound();
    SigningIs();
    SigningIsSound(SIGNING);
    NoDrift(PREPARATION, policy, inputs, run.preparation);
    if run.preparation.r.Ok? {
      NoDrift(SIGNING, policy, inputs, run.signing);
      if run.cleaned.Ok? && run.signing.r.Ok? {
        NoDrift(CONCLUSION, policy, inputs, run.conclusion);
      }
    }
  }

  lemma SigningIs()
    ensures IsSigning(SIGNING)
  {
  }
}
