/**
  Staging a verified release against a remote repository that other writers use too: read, plan,
  mutate, tolerate known conflicts, read again.
 */
module ReleaseStaging {
  import opened Results
  import opened ReleasePlan
  import opened ReleaseRuns

  datatype ApiError = ApiError(status: int, alreadyExists: bool)

  /** Only create races count as conflicts; any other validation failure is an error. */
  predicate IsGitHubConflict(e: ApiError)
  {
    e.status == 409 || (e.status == 422 && e.alreadyExists)
  }

  /** What may happen to the remote between two requests of one stager. */
  datatype Others =
    | Nobody       // no other writer
    | SameStagers  // any number of stagers of the same request, at any point of their runs
    | Anybody      // arbitrary writers

  /** `after` is reached from `before` by the legal steps that `later` adds to `earlier`. */
  ghost predicate Follows(req: Request, before: Remote, earlier: seq<Op>, after: Remote, later: seq<Op>)
  {
    && earlier <= later
    && LegalRun(req, before, later[|earlier|..])
    && after == Run(req, before, later[|earlier|..])
  }

  lemma FollowsTransitive(req: Request, r0: Remote, t0: seq<Op>, r1: Remote, t1: seq<Op>, r2: Remote, t2: seq<Op>)
    requires Follows(req, r0, t0, r1, t1) && Follows(req, r1, t1, r2, t2)
    ensures Follows(req, r0, t0, r2, t2)
  {
    assert t2[|t0|..] == t1[|t0|..] + t2[|t1|..];
    hide LegalRun, Run;
    RunConcat(req, r0, t1[|t0|..], t2[|t1|..]);
  }

  lemma FollowsGrows(req: Request, r0: Remote, t0: seq<Op>, r1: Remote, t1: seq<Op>)
    requires Follows(req, r0, t0, r1, t1)
    ensures Grows(r0, r1)
    ensures ValidRequest(req) && OwnProgress(req, r0) ==> OwnProgress(req, r1)
  {
    hide LegalRun, Run, Grows, OwnProgress, ValidRequest;
    RunGrows(req, r0, t1[|t0|..]);
    if ValidRequest(req) && OwnProgress(req, r0) {
      RunKeepsProgress(req, r0, t1[|t0|..]);
    }
  }

  /** The remote repository as one stager reaches it. */
  class ReleaseClient {
    const req: Request
    const others: Others
    /** Whether every request is answered; otherwise any request may be lost before or after it took effect. */
    const reliable: bool
    var remote: Remote
    /** All mutations of the remote that legal stagers performed, this one included. */
    ghost var trace: seq<Op>
    /** The mutations of this stager that took effect. */
    ghost var own: seq<Op>
    /** Whether a read saw a release but, earlier in the same read, not yet its tag. */
    ghost var torn: bool
    /** Whether an upload was refused because somebody else's upload came first. */
    ghost var refused: bool

    constructor (req: Request, others: Others, reliable: bool, remote: Remote)
      ensures this.req == req && this.others == others && this.reliable == reliable && this.remote == remote
      ensures trace == [] && own == [] && !torn && !refused
    {
      this.req, this.others, this.reliable, this.remote := req, others, reliable, remote;
      trace, own, torn, refused := [], [], false, false;
    }

    /** Other writers take any number of steps. */
    method Interfere()
      modifies this`remote, this`trace
      ensures !others.Anybody? ==> Follows(req, old(remote), old(trace), remote, trace)
      ensures others.Nobody? ==> remote == old(remote) && trace == old(trace)
    {
      var ops: seq<Op>, state: Remote := *, *;
      ghost var before := trace;
      if others.Anybody? {
        remote := state;
      } else if others.SameStagers? && StagersMay(remote, ops) {
        remote := Run(req, remote, ops);
        trace := trace + ops;
        assert trace[|before|..] == ops;
      } else {
        assert trace[|before|..] == [];
      }
    }

    /** Whether the steps are a legal run of stagers of this request. */
    predicate StagersMay(state: Remote, ops: seq<Op>)
      ensures StagersMay(state, ops) <==> LegalRun(req, state, ops)
      decreases |ops|
    {
      ops == [] ||
      (&& (ops[0].CreateRelease? ==> state.tag.Some?)
       && (ops[0].Upload? ==> ops[0].asset in LocalAssets(req))
       && StagersMay(Apply(req, state, ops[0]), ops[1..]))
    }

    /** Reads the tag, then the release: two requests, so other writers may come between. */
    method GetState() returns (r: Result<Remote, ApiError>)
      modifies this`remote, this`trace, this`torn
      ensures !others.Anybody? ==> Follows(req, old(remote), old(trace), remote, trace)
      ensures others.Nobody? ==> remote == old(remote) && trace == old(trace)
      ensures reliable ==> r.Ok?
      ensures r.Ok? && !others.Anybody? ==>
                && r.value.release == remote.release
                && (r.value.tag.Some? ==> r.value.tag == remote.tag)
                && (old(remote).tag.Some? ==> r.value == remote)
      ensures r.Ok? && others.Nobody? ==> r.value == remote
      ensures torn <==> old(torn) || (r.Ok? && r.value.tag.None? && r.value.release.Some?)
    {
      Interfere();
      ghost var middle, trace' := remote, trace;
      var tag := remote.tag;
      Interfere();
      if !others.Anybody? {
        FollowsTransitive(req, old(remote), old(trace), middle, trace', remote, trace);
        FollowsGrows(req, old(remote), old(trace), middle, trace');
        FollowsGrows(req, middle, trace', remote, trace);
      }
      var state := Remote(tag, remote.release);
      var lost: bool, e: ApiError := *, *;
      if !reliable && lost {
        return Err(e);
      }
      torn := torn || (state.tag.None? && state.release.Some?);
      return Ok(state);
    }

    /** Requests one mutation; the error is absent when the remote confirmed it. */
    method Mutate(op: Op) returns (error: Option<ApiError>)
      modifies this`remote, this`trace, this`own, this`refused
      ensures !others.Anybody? && Legal(req, old(remote), op) ==>
                Follows(req, old(remote), old(trace), remote, trace)
      ensures others.Nobody? ==>
                && old(trace) <= trace && old(own) <= own
                && trace[|old(trace)|..] == own[|old(own)|..]
      ensures reliable && (op.Upload? ==> old(remote).release.Some?) && !others.Anybody? ==>
                && (error.Some? ==> error.value == ApiError(422, true) && Conflicts(remote, op))
                && (error.None? ==> own == old(own) + [op])
                && Conflicts(remote, op)
                && (others.Nobody? ==> (error.Some? <==> Conflicts(old(remote), op)))
                && (refused <==> old(refused) || (op.Upload? && error.Some?))
    {
      Interfere();
      ghost var middle, trace' := remote, trace;
      if !others.Anybody? {
        FollowsGrows(req, old(remote), old(trace), middle, trace');
      }
      var dropped: bool, lost: bool, e: ApiError := *, *, *;
      if !reliable && dropped {
        NoStep(old(trace), old(own));
        return Some(e);
      }
      if Conflicts(remote, op) {
        NoStep(old(trace), old(own));
        refused := refused || op.Upload?;
        return Some(ApiError(422, true));
      }
      if op.Upload? && remote.release.None? {
        NoStep(old(trace), old(own));
        return Some(ApiError(404, false));
      }
      remote := Apply(req, remote, op);
      trace, own := trace + [op], own + [op];
      Stepped(op, middle, trace');
      if !others.Anybody? && Legal(req, old(remote), op) {
        LegalStays(req, old(remote), middle, op);
        RunOne(req, middle, op);
        assert trace[|trace'|..] == [op];
        FollowsTransitive(req, old(remote), old(trace), middle, trace', remote, trace);
      }
      assert own[|old(own)|..] == [op];
      assert others.Nobody? ==> trace[|old(trace)|..] == [op];
      if !reliable && lost {
        return Some(e);
      }
      return None;
    }

    lemma NoStep(t: seq<Op>, o: seq<Op>)
      ensures t[|t|..] == o[|o|..]
    {
    }

    lemma Stepped(op: Op, before: Remote, t: seq<Op>)
      requires !Conflicts(before, op) && (op.Upload? ==> before.release.Some?)
      ensures Conflicts(Apply(req, before, op), op)
    {
      if op.Upload? {
        UploadLands(req, before, op.asset);
      }
    }
  }

  lemma LegalStays(req: Request, before: Remote, after: Remote, op: Op)
    requires Legal(req, before, op) && Grows(before, after)
    ensures Legal(req, after, op)
  {
  }

  // ---------------------------------------------------------------- the stager

  /** The two logs grew by the same steps: nobody else wrote. */
  ghost predicate Alone(t0: seq<Op>, o0: seq<Op>, t1: seq<Op>, o1: seq<Op>)
  {
    t0 <= t1 && o0 <= o1 && t1[|t0|..] == o1[|o0|..]
  }

  lemma AloneTransitive(t0: seq<Op>, o0: seq<Op>, t1: seq<Op>, o1: seq<Op>, t2: seq<Op>, o2: seq<Op>)
    requires Alone(t0, o0, t1, o1) && Alone(t1, o1, t2, o2)
    ensures Alone(t0, o0, t2, o2)
  {
    assert t2[|t0|..] == t1[|t0|..] + t2[|t1|..];
    assert o2[|o0|..] == o1[|o0|..] + o2[|o1|..];
  }

  /** The remote holds only this request's progress, and other writers keep it so. */
  ghost predicate Friendly(client: ReleaseClient)
    reads client
  {
    !client.others.Anybody? && ValidRequest(client.req) && OwnProgress(client.req, client.remote)
  }

  /** Reads the remote and plans. */
  method Observe(client: ReleaseClient) returns (r: Result<(Remote, StagingPlan), StagingError>)
    modifies client`remote, client`trace, client`torn
    ensures r.Ok? ==> Plan(client.req, r.value.0) == Ok(r.value.1)
    ensures !client.others.Anybody? ==>
              Follows(client.req, old(client.remote), old(client.trace), client.remote, client.trace)
    ensures client.others.Nobody? ==> client.remote == old(client.remote) && client.trace == old(client.trace)
    ensures r.Ok? && !client.others.Anybody? ==>
              && r.value.0.release == client.remote.release
              && (r.value.0.tag.Some? ==> r.value.0.tag == client.remote.tag)
              && (old(client.remote).tag.Some? ==> r.value.0 == client.remote)
    ensures r.Ok? && client.others.Nobody? ==> r.value.0 == client.remote
    ensures r.Ok? ==> client.torn == old(client.torn)
    ensures old(Friendly(client)) ==> Friendly(client)
    ensures old(Friendly(client)) && client.reliable && r.Err? ==>
              r.error == ReleaseWithoutTag && client.torn && old(client.remote).tag.None? && client.others.SameStagers?
  {
    var state := client.GetState();
    hide Plan, Follows, OwnProgress, ValidRequest, Grows;
    if !client.others.Anybody? {
      FollowsGrows(client.req, old(client.remote), old(client.trace), client.remote, client.trace);
    }
    if state.Err? {
      return Err(Api(state.error.status));
    }
    var plan := PlanStaging(client.req, state.value);
    PlanAcceptsExactly(client.req, state.value);
    TornRefused(client.req, state.value);
    if plan.Err? {
      if old(Friendly(client)) {
        ObservedProgress(client.req, client.remote, state.value);
        NotTornNobody(client.req, client.remote);
      }
      return Err(plan.error);
    }
    return Ok((state.value, plan.value));
  }

  lemma TornRefused(req: Request, s: Remote)
    ensures s.tag.None? && s.release.Some? ==>
              Plan(req, s).Err? && (ValidRequest(req) ==> Plan(req, s).error == ReleaseWithoutTag)
  {
    hide LocalError, ValidRequest, Missing, ReleaseError;
    LocalErrorExact(req);
  }

  /**
    Such a read can happen: between its two requests another stager tags and drafts, and the
    planner then refuses a state that is in fact this request's own progress.
   */
  lemma TornReadIsReachable(req: Request)
    requires ValidRequest(req)
    ensures var empty := Remote(None, None);
            var later := Run(req, empty, [CreateTag, CreateRelease]);
            && LegalRun(req, empty, [CreateTag, CreateRelease])
            && Plan(req, empty).Ok? && Plan(req, later).Ok?
            && Plan(req, Remote(empty.tag, later.release)) == Err(ReleaseWithoutTag)
  {
    hide ExpectedNames, ValidRequest;
    var empty := Remote(None, None);
    var ops := [CreateTag] + [CreateRelease];
    RunConcat(req, empty, [CreateTag], [CreateRelease]);
    RunOne(req, empty, CreateTag);
    RunOne(req, Apply(req, empty, CreateTag), CreateRelease);
    assert ops[..0] == [] && ops[..2] == ops && ops == [CreateTag, CreateRelease];
    EveryPrefixIsAccepted(req, empty, ops, 0, 0);
    EveryPrefixIsAccepted(req, empty, ops, 0, 2);
    TornRefused(req, Remote(None, Run(req, empty, ops).release));
  }

  /** A read that saw the tag, or no release, saw progress of this request. */
  lemma ObservedProgress(req: Request, remote: Remote, seen: Remote)
    requires OwnProgress(req, remote) && seen.release == remote.release
    requires seen.tag.Some? ==> seen.tag == remote.tag
    ensures OwnProgress(req, seen) <==> !(seen.tag.None? && seen.release.Some?)
  {
    hide OwnDraft;
  }

  lemma NotTornNobody(req: Request, remote: Remote)
    requires OwnProgress(req, remote)
    ensures !(remote.tag.None? && remote.release.Some?)
  {
    hide OwnDraft;
  }

  /** Requests one mutation, tolerating a create race if asked to, and reads the remote again. */
  method MutateAndObserve(client: ReleaseClient, op: Op, tolerant: bool)
    returns (r: Result<(Remote, StagingPlan), StagingError>)
    modifies client`remote, client`trace, client`own, client`torn, client`refused
    ensures r.Ok? ==> Plan(client.req, r.value.0) == Ok(r.value.1)
    ensures !client.others.Anybody? && Legal(client.req, old(client.remote), op) ==>
              Follows(client.req, old(client.remote), old(client.trace), client.remote, client.trace)
    ensures client.others.Nobody? ==>
              Alone(old(client.trace), old(client.own), client.trace, client.own)
    ensures r.Ok? && client.others.Nobody? ==> r.value.0 == client.remote
    ensures r.Ok? && !client.others.Anybody? ==>
              && r.value.0.release == client.remote.release
              && (r.value.0.tag.Some? ==> r.value.0.tag == client.remote.tag)
    ensures r.Ok? ==> client.torn == old(client.torn)
    ensures old(Friendly(client)) && Legal(client.req, old(client.remote), op) ==> Friendly(client)
    ensures old(Friendly(client)) && Legal(client.req, old(client.remote), op) && client.reliable
            && (op.Upload? ==> old(client.remote).release.Some?)
            && (op.CreateTag? || old(client.remote).tag.Some?) ==>
              && (tolerant || (client.others.Nobody? && !Conflicts(old(client.remote), op)) ==> r.Ok?)
              && (r.Ok? ==> r.value.0 == client.remote && Conflicts(client.remote, op))
              && (r.Err? ==> r.error == Api(422) && client.torn == old(client.torn))
              && (!tolerant && op.Upload? ==> (client.refused <==> old(client.refused) || r.Err?))
              && (!op.Upload? ==> client.refused == old(client.refused))
              && (client.others.Nobody? && !Conflicts(old(client.remote), op) ==> client.own == old(client.own) + [op])
  {
    hide Plan, Follows, OwnProgress, ValidRequest, Grows, Alone;
    var error := client.Mutate(op);
    ghost var middle, trace', own' := client.remote, client.trace, client.own;
    if client.others.Nobody? {
      AloneFrom(old(client.trace), old(client.own), trace', own');
    }
    ghost var legal := !client.others.Anybody? && Legal(client.req, old(client.remote), op);
    if legal {
      FollowsGrows(client.req, old(client.remote), old(client.trace), middle, trace');
      TagStays(old(client.remote), middle);
    }
    if error.Some? && !(tolerant && IsGitHubConflict(error.value)) {
      return Err(Api(error.value.status));
    }
    r := Observe(client);
    if legal {
      FollowsTransitive(client.req, old(client.remote), old(client.trace), middle, trace', client.remote, client.trace);
      FollowsGrows(client.req, middle, trace', client.remote, client.trace);
      ConflictStays(middle, client.remote, op);
      TagStays(middle, client.remote);
    }
  }

  lemma AloneFrom(t0: seq<Op>, o0: seq<Op>, t1: seq<Op>, o1: seq<Op>)
    requires t0 <= t1 && o0 <= o1 && t1[|t0|..] == o1[|o0|..]
    ensures Alone(t0, o0, t1, o1)
  {
  }

  lemma TagStays(before: Remote, after: Remote)
    requires Grows(before, after)
    ensures before.tag.Some? ==> after.tag == before.tag
    ensures before.release.Some? ==> after.release.Some?
  {
  }

  lemma ConflictStays(before: Remote, after: Remote, op: Op)
    requires Grows(before, after)
    ensures Conflicts(before, op) ==> Conflicts(after, op)
  {
    hide HasAsset;
    if Conflicts(before, op) && op.Upload? {
      GrowsKeepsAsset(before, after, op.asset.name);
    }
  }

  /** Without other writers, one own step is the whole difference. */
  lemma AloneStep(req: Request, r0: Remote, t0: seq<Op>, o0: seq<Op>, r1: Remote, t1: seq<Op>, o1: seq<Op>, op: Op)
    requires Follows(req, r0, t0, r1, t1) && Alone(t0, o0, t1, o1) && o1 == o0 + [op]
    ensures r1 == Apply(req, r0, op)
  {
    hide Run, LegalRun, Apply;
    assert t1[|t0|..] == [op];
    RunOne(req, r0, op);
  }

  /** Tag and release first: the part of staging before any upload. */
  method PrepareDraft(client: ReleaseClient, seen: Remote, seenPlan: StagingPlan)
    returns (r: Result<(Remote, StagingPlan), StagingError>)
    requires Plan(client.req, seen) == Ok(seenPlan)
    requires !client.others.Anybody? ==>
               seen.release == client.remote.release && (seen.tag.Some? ==> seen.tag == client.remote.tag)
    requires client.others.Nobody? ==> seen == client.remote
    modifies client`remote, client`trace, client`own, client`torn, client`refused
    ensures r.Ok? ==> Plan(client.req, r.value.0) == Ok(r.value.1) && r.value.0.release.Some? && r.value.0.tag.Some?
    ensures r.Ok? && !client.others.Anybody? ==>
              r.value.0.release == client.remote.release && r.value.0.tag == client.remote.tag
    ensures client.others.Nobody? ==> Alone(old(client.trace), old(client.own), client.trace, client.own)
    ensures old(Friendly(client)) ==>
              && Friendly(client)
              && Follows(client.req, old(client.remote), old(client.trace), client.remote, client.trace)
    ensures old(Friendly(client)) && client.reliable ==>
              && r.Ok? && r.value.0 == client.remote
              && client.torn == old(client.torn) && client.refused == old(client.refused)
              && (client.others.Nobody? ==> client.own == old(client.own) + FirstOps(old(client.remote)))
  {
    hide Plan, Follows, OwnProgress, ValidRequest, Grows, Alone, Apply, Run, LegalRun;
    var state, plan := seen, seenPlan;
    PlanSchedulesExactly(client.req, state);
    FollowsReflexive(client.req, client.remote, client.trace);
    AloneReflexive(client.trace, client.own);
    if plan.createTag {
      var tagged := MutateAndObserve(client, CreateTag, true);
      if tagged.Err? {
        return tagged;
      }
      state, plan := tagged.value.0, tagged.value.1;
      OwnTag(client.req, client.remote);
      if state.tag != Some(client.req.sourceSha) {
        return Err(TagNotFrozen);
      }
      if client.others.Nobody? && client.reliable && old(Friendly(client)) {
        AloneStep(client.req, old(client.remote), old(client.trace), old(client.own),
                  client.remote, client.trace, client.own, CreateTag);
        TaggingKeepsRelease(client.req, old(client.remote));
      }
      PlanSchedulesExactly(client.req, state);
    }
    assert state.tag.Some?;
    ghost var middle, trace', own' := client.remote, client.trace, client.own;
    if plan.createRelease {
      var drafted := MutateAndObserve(client, CreateRelease, true);
      if !client.others.Anybody? && old(Friendly(client)) {
        FollowsTransitive(client.req, old(client.remote), old(client.trace), middle, trace', client.remote, client.trace);
      }
      if client.others.Nobody? {
        AloneTransitive(old(client.trace), old(client.own), trace', own', client.trace, client.own);
      }
      if drafted.Err? {
        return drafted;
      }
      state, plan := drafted.value.0, drafted.value.1;
      PlanSchedulesExactly(client.req, state);
      if state.release.None? {
        return Err(ReleaseNotObservable);
      }
      AcceptedReleaseHasTag(client.req, state);
    }
    if state.release.None? {
      return Err(NoRelease);
    }
    return Ok((state, plan));
  }

  lemma TaggingKeepsRelease(req: Request, s: Remote)
    ensures Apply(req, s, CreateTag).release == s.release
  {
  }

  function FirstOps(s: Remote): seq<Op>
  {
    (if s.tag.None? then [CreateTag] else []) + (if s.release.None? then [CreateRelease] else [])
  }

  lemma FollowsReflexive(req: Request, r: Remote, t: seq<Op>)
    ensures Follows(req, r, t, r, t)
  {
    assert t[|t|..] == [];
  }

  lemma AloneReflexive(t: seq<Op>, o: seq<Op>)
    ensures Alone(t, o, t, o)
  {
  }

  lemma OwnTag(req: Request, s: Remote)
    ensures OwnProgress(req, s) && s.tag.Some? ==> s.tag == Some(req.sourceSha)
  {
    hide OwnDraft;
  }

  lemma AcceptedReleaseHasTag(req: Request, s: Remote)
    requires Plan(req, s).Ok? && s.release.Some?
    ensures s.tag.Some?
  {
    hide ReleaseError, LocalError;
  }

  /** The upload loop's progress: all of `names[..i]` are there; alone, none of the others is. */
  ghost predicate Landed(others: Others, s: Remote, names: seq<string>, i: nat)
    requires i <= |names|
  {
    && s.release.Some? && s.tag.Some?
    && (forall k | 0 <= k < i :: HasAsset(s.release.value.assets, names[k]))
    && (others.Nobody? ==> forall k | i <= k < |names| :: !HasAsset(s.release.value.assets, names[k]))
  }

  /** An accepted plan lists each missing name once. */
  lemma MissingFacts(req: Request, seen: Remote, others: Others)
    requires Plan(req, seen).Ok? && seen.release.Some? && seen.tag.Some?
    ensures var missing := Plan(req, seen).value.missingAssets;
            && ReleaseRuns.Distinct(missing)
            && missing == MissingNames(req, seen)
            && Landed(others, seen, missing, 0)
            && (CompleteAssets(req) ==> forall n | n in missing :: Find(LocalAssets(req), n).Some?)
  {
    hide ExpectedNames, LocalError, ReleaseError, HasAsset, Find, ReleaseRuns.Distinct;
    ExpectedNamesDistinct(req);
    MissingDistinct(ExpectedNames(req), seen.release.value.assets);
    var missing := Plan(req, seen).value.missingAssets;
    forall k | 0 <= k < |missing| ensures !HasAsset(seen.release.value.assets, missing[k]) {
      assert missing[k] in missing;
    }
  }

  lemma UploadsGrow(req: Request, names: seq<string>, i: nat, asset: LocalAsset)
    requires i < |names| && Find(LocalAssets(req), names[i]) == Some(asset)
    ensures Uploads(req, names[..i + 1]) == Uploads(req, names[..i]) + [Upload(asset)]
  {
    hide Find;
    assert names[..i + 1] == names[..i] + [names[i]];
    UploadsConcat(req, names[..i], [names[i]]);
    assert [names[i]][1..] == [];
  }

  lemma NoUploads(req: Request)
    ensures Uploads(req, []) == []
  {
  }

  /** Uploads what was missing when the loop was entered, reading the remote after each upload. */
  method UploadMissing(client: ReleaseClient, seen: Remote, seenPlan: StagingPlan, tolerant: bool)
    returns (r: Result<(Remote, StagingPlan), StagingError>)
    requires Plan(client.req, seen) == Ok(seenPlan) && seen.release.Some? && seen.tag.Some?
    requires client.req.assets.Some?
    requires !client.others.Anybody? ==> seen.release == client.remote.release && seen.tag == client.remote.tag
    modifies client`remote, client`trace, client`own, client`torn, client`refused
    ensures r.Ok? ==> Plan(client.req, r.value.0) == Ok(r.value.1)
    ensures client.others.Nobody? ==> Alone(old(client.trace), old(client.own), client.trace, client.own)
    ensures old(Friendly(client)) ==>
              && Friendly(client)
              && Follows(client.req, old(client.remote), old(client.trace), client.remote, client.trace)
    ensures old(Friendly(client)) && client.reliable && CompleteAssets(client.req) ==>
              && client.torn == old(client.torn)
              && (tolerant || client.others.Nobody? ==> r.Ok?)
              && (!tolerant ==> (client.refused <==> old(client.refused) || r.Err?))
              && (r.Err? ==> r.error == Api(422))
              && (r.Ok? ==> r.value.0 == client.remote
                            && Landed(client.others, client.remote, seenPlan.missingAssets, |seenPlan.missingAssets|))
              && (client.others.Nobody? ==>
                    client.own == old(client.own) + Uploads(client.req, seenPlan.missingAssets))
  {
    hide Plan, Follows, OwnProgress, ValidRequest, Grows, Alone, Apply, Run, LegalRun, Landed, Uploads, CompleteAssets, ReleaseRuns.Distinct;
    hide MissingNames, Find;
    var names := seenPlan.missingAssets;
    r := Ok((seen, seenPlan));
    FollowsReflexive(client.req, client.remote, client.trace);
    AloneReflexive(client.trace, client.own);
    MissingFacts(client.req, seen, client.others);
    NoUploads(client.req);
    assert names[..0] == [];
    for i := 0 to |names|
      invariant r.Ok? && Plan(client.req, r.value.0) == Ok(r.value.1)
      invariant client.others.Nobody? ==> Alone(old(client.trace), old(client.own), client.trace, client.own)
      invariant old(Friendly(client)) ==>
                  && Friendly(client)
                  && Follows(client.req, old(client.remote), old(client.trace), client.remote, client.trace)
      invariant old(Friendly(client)) && client.reliable && CompleteAssets(client.req) ==>
                  && client.torn == old(client.torn)
                  && (!tolerant ==> client.refused == old(client.refused))
                  && r.value.0 == client.remote && Landed(client.others, client.remote, names, i)
                  && (client.others.Nobody? ==>
                        client.own == old(client.own) + Uploads(client.req, names[..i]))
    {
      var asset := Find(client.req.assets.value, names[i]);
      assert names[i] in names;
      if asset.None? {
        return Err(LocalAssetMissing);
      }
      if old(Friendly(client)) && client.reliable && CompleteAssets(client.req) {
        LandedHasRelease(client.others, client.remote, names, i);
      }
      if r.value.0.release.None? {
        return Err(NoRelease);
      }
      r := UploadOne(client, names, i, asset.value, tolerant, old(client.remote), old(client.trace), old(client.own));
      UploadsGrow(client.req, names, i, asset.value);
      if r.Err? {
        return;
      }
    }
    assert names[..|names|] == names;
  }

  lemma LandedHasRelease(others: Others, s: Remote, names: seq<string>, i: nat)
    requires i <= |names| && Landed(others, s, names, i)
    ensures s.release.Some?
  {
  }

  /** One round of the upload loop. */
  method UploadOne(client: ReleaseClient, ghost names: seq<string>, ghost i: nat, asset: LocalAsset, tolerant: bool,
                   ghost remote0: Remote, ghost trace0: seq<Op>, ghost own0: seq<Op>)
    returns (r: Result<(Remote, StagingPlan), StagingError>)
    requires client.req.assets.Some? && asset in client.req.assets.value
    requires i < |names| && asset.name == names[i]
    requires client.others.Nobody? ==> Alone(trace0, own0, client.trace, client.own)
    modifies client`remote, client`trace, client`own, client`torn, client`refused
    ensures r.Ok? ==> Plan(client.req, r.value.0) == Ok(r.value.1)
    ensures client.others.Nobody? ==> Alone(trace0, own0, client.trace, client.own)
    ensures old(Friendly(client)) && Follows(client.req, remote0, trace0, old(client.remote), old(client.trace)) ==>
              && Friendly(client)
              && Follows(client.req, remote0, trace0, client.remote, client.trace)
    ensures old(Friendly(client)) && client.reliable && Landed(client.others, old(client.remote), names, i) && ReleaseRuns.Distinct(names) ==>
              && client.torn == old(client.torn)
              && (tolerant || client.others.Nobody? ==> r.Ok?)
              && (!tolerant ==> (client.refused <==> old(client.refused) || r.Err?))
              && (r.Err? ==> r.error == Api(422))
              && (r.Ok? ==> r.value.0 == client.remote && Landed(client.others, client.remote, names, i + 1))
              && (client.others.Nobody? ==> client.own == old(client.own) + [Upload(asset)])
  {
    hide Plan, Follows, OwnProgress, ValidRequest, Grows, Alone, Apply, Run, LegalRun, HasAsset, ReleaseRuns.Distinct;
    r := MutateAndObserve(client, Upload(asset), tolerant);
    if client.others.Nobody? {
      AloneTransitive(trace0, own0, old(client.trace), old(client.own), client.trace, client.own);
    }
    if old(Friendly(client)) && Follows(client.req, remote0, trace0, old(client.remote), old(client.trace)) {
      FollowsTransitive(client.req, remote0, trace0, old(client.remote), old(client.trace), client.remote, client.trace);
    }
    if old(Friendly(client)) && client.reliable && Landed(client.others, old(client.remote), names, i) && ReleaseRuns.Distinct(names) {
      FollowsGrows(client.req, old(client.remote), old(client.trace), client.remote, client.trace);
      TagStays(old(client.remote), client.remote);
      forall k | 0 <= k < i ensures HasAsset(client.remote.release.value.assets, names[k]) {
        GrowsKeepsAsset(old(client.remote), client.remote, names[k]);
      }
      if client.others.Nobody? {
        AloneStep(client.req, old(client.remote), old(client.trace), old(client.own),
                  client.remote, client.trace, client.own, Upload(asset));
        forall k | i + 1 <= k < |names| ensures !HasAsset(client.remote.release.value.assets, names[k]) {
          OthersStayMissing(client.req, old(client.remote), asset, names, i, k);
        }
      }
    }
  }

  lemma OthersStayMissing(req: Request, s: Remote, asset: LocalAsset, names: seq<string>, i: nat, k: nat)
    requires s.release.Some? && i < k < |names| && ReleaseRuns.Distinct(names) && asset.name == names[i]
    requires !HasAsset(s.release.value.assets, names[k])
    ensures var after := Apply(req, s, Upload(asset));
            after.release.Some? && !HasAsset(after.release.value.assets, names[k])
  {
    assert names[i] != names[k];
  }

  /** Without other writers, the own steps are the whole difference. */
  lemma AloneRun(req: Request, r0: Remote, t0: seq<Op>, o0: seq<Op>, r1: Remote, t1: seq<Op>, o1: seq<Op>, ops: seq<Op>)
    requires Follows(req, r0, t0, r1, t1) && Alone(t0, o0, t1, o1) && o1 == o0 + ops
    ensures r1 == Run(req, r0, ops)
  {
    hide Run, LegalRun;
    assert t1[|t0|..] == ops;
  }

  /** Tagging and drafting changes nothing about which assets are missing. */
  lemma MissingAfterDraft(req: Request, s: Remote)
    requires OwnProgress(req, s)
    ensures MissingNames(req, Run(req, s, FirstOps(s))) == MissingNames(req, s)
  {
    hide OwnDraft, ExpectedNames;
    var tagging := if s.tag.None? then [CreateTag] else [];
    var drafting := if s.release.None? then [CreateRelease] else [];
    var tagged := Run(req, s, tagging);
    RunConcat(req, s, tagging, drafting);
    RunOne(req, s, CreateTag);
    RunOne(req, tagged, CreateRelease);
    assert Run(req, s, []) == s && Run(req, tagged, []) == tagged;
    NothingUploaded(ExpectedNames(req));
  }

  lemma {:induction false} NothingUploaded(names: seq<string>)
    ensures Missing(names, []) == names
    decreases |names|
  {
    if names != [] {
      NothingUploaded(names[1..]);
    }
  }

  /** Once everything that was missing has landed, the release is staged. */
  lemma AllLanded(req: Request, seen: Remote, others: Others, s: Remote)
    requires Plan(req, seen).Ok? && seen.release.Some? && Grows(seen, s) && OwnProgress(req, s)
    requires var missing := Plan(req, seen).value.missingAssets; Landed(others, s, missing, |missing|)
    ensures Staged(req, s)
  {
    PlanSchedulesExactly(req, seen);
    hide Plan, OwnProgress, Grows, HasAsset, ExpectedNames;
    var missing := Plan(req, seen).value.missingAssets;
    forall n | n in ExpectedNames(req) ensures HasAsset(s.release.value.assets, n) {
      if n in missing {
        var k :| 0 <= k < |missing| && missing[k] == n;
        assert HasAsset(s.release.value.assets, missing[k]);
      } else {
        GrowsKeepsAsset(seen, s, n);
      }
    }
  }

  lemma StagedStays(req: Request, before: Remote, after: Remote)
    requires Staged(req, before) && Grows(before, after) && OwnProgress(req, after)
    ensures Staged(req, after)
  {
    hide OwnProgress, HasAsset, ExpectedNames, Grows;
    TagStays(before, after);
    forall n | n in ExpectedNames(req) ensures HasAsset(after.release.value.assets, n) {
      GrowsKeepsAsset(before, after, n);
    }
  }

  /** Reads, drafts and uploads: everything both kinds of staging have in common after the first read. */
  method Advance(client: ReleaseClient, seen: Remote, seenPlan: StagingPlan, tolerant: bool)
    returns (r: Result<(Remote, StagingPlan), StagingError>)
    requires Plan(client.req, seen) == Ok(seenPlan) && client.req.assets.Some?
    requires !client.others.Anybody? ==>
               seen.release == client.remote.release && (seen.tag.Some? ==> seen.tag == client.remote.tag)
    requires client.others.Nobody? ==> seen == client.remote
    modifies client`remote, client`trace, client`own, client`torn, client`refused
    ensures r.Ok? ==> Plan(client.req, r.value.0) == Ok(r.value.1)
    ensures client.others.Nobody? ==> Alone(old(client.trace), old(client.own), client.trace, client.own)
    ensures old(Friendly(client)) ==>
              && Friendly(client)
              && Follows(client.req, old(client.remote), old(client.trace), client.remote, client.trace)
    ensures old(Friendly(client)) && client.reliable && CompleteAssets(client.req) ==>
              && client.torn == old(client.torn)
              && (tolerant || client.others.Nobody? ==> r.Ok?)
              && (!tolerant ==> (client.refused <==> old(client.refused) || r.Err?))
              && (r.Err? ==> r.error == Api(422))
              && (r.Ok? ==> r.value.0 == client.remote && Staged(client.req, client.remote))
              && (client.others.Nobody? ==> client.own == old(client.own) + Needed(client.req, old(client.remote)))
  {
    ghost var friendly, remote0, trace0, own0 := Friendly(client), client.remote, client.trace, client.own;
    assert friendly ==> !client.others.Anybody? && ValidRequest(client.req) && OwnProgress(client.req, remote0);
    hide *;
    r := PrepareDraft(client, seen, seenPlan);
    if r.Err? {
      return;
    }
    ghost var middle, trace', own' := client.remote, client.trace, client.own;
    var drafted := r.value;
    MissingFacts(client.req, drafted.0, client.others);
    r := UploadMissing(client, drafted.0, drafted.1, tolerant);
    if client.others.Nobody? {
      AloneTransitive(trace0, own0, trace', own', client.trace, client.own);
    }
    if friendly {
      FollowsTransitive(client.req, remote0, trace0, middle, trace', client.remote, client.trace);
      FollowsGrows(client.req, middle, trace', client.remote, client.trace);
      FollowsGrows(client.req, remote0, trace0, client.remote, client.trace);
      if client.reliable && CompleteAssets(client.req) {
        if r.Ok? {
          AllLanded(client.req, drafted.0, client.others, client.remote);
        }
        if client.others.Nobody? {
          OwnStepsAreNeeded(client.req, remote0, trace0, own0, middle, trace', own', client.own);
        }
      }
    }
  }

  lemma OwnStepsAreNeeded(req: Request, r0: Remote, t0: seq<Op>, o0: seq<Op>, r1: Remote, t1: seq<Op>, o1: seq<Op>, o2: seq<Op>)
    requires OwnProgress(req, r0) && Follows(req, r0, t0, r1, t1) && Alone(t0, o0, t1, o1)
    requires o1 == o0 + FirstOps(r0) && o2 == o1 + Uploads(req, MissingNames(req, r1))
    ensures o2 == o0 + Needed(req, r0)
  {
    hide *;
    AloneRun(req, r0, t0, o0, r1, t1, o1, FirstOps(r0));
    MissingAfterDraft(req, r0);
    NeededSplit(req, r0);
  }

  lemma NeededSplit(req: Request, s: Remote)
    ensures Needed(req, s) == FirstOps(s) + Uploads(req, MissingNames(req, s))
  {
    hide Uploads, MissingNames;
  }

  /**
    Stages an Alpha release.  Whatever other writers do, a normal return of a real run has observed
    the complete Draft Pre-release with verified assets.  Among stagers of the same request nothing
    but a torn first read can make it fail, and alone it requests exactly the needed mutations.
   */
  method StageVerifiedRelease(client: ReleaseClient, dryRun: bool) returns (r: Result<(StagingPlan, Remote), StagingError>)
    requires client.req.variant.Alpha?
    modifies client
    ensures r.Ok? ==> Plan(client.req, r.value.1) == Ok(r.value.0)
    ensures r.Ok? && !dryRun ==> Staged(client.req, r.value.1)
    ensures dryRun ==> client.own == old(client.own)
    ensures old(Friendly(client)) ==>
              && Friendly(client)
              && Follows(client.req, old(client.remote), old(client.trace), client.remote, client.trace)
    ensures old(Friendly(client)) && client.reliable && CompleteAssets(client.req) && client.req.assets.Some?
            && !old(client.torn) ==>
              && (r.Err? <==> client.torn)
              && (r.Err? ==> r.error == ReleaseWithoutTag && old(client.remote).tag.None? && client.others.SameStagers?)
              && (r.Ok? && !dryRun ==> Staged(client.req, client.remote))
              && (client.others.Nobody? && !dryRun ==>
                    && client.own == old(client.own) + Needed(client.req, old(client.remote))
                    && client.remote == Run(client.req, old(client.remote), Needed(client.req, old(client.remote))))
  {
    ghost var friendly, remote0, trace0, own0 := Friendly(client), client.remote, client.trace, client.own;
    assert friendly ==> !client.others.Anybody? && ValidRequest(client.req) && OwnProgress(client.req, remote0);
    hide *;
    if client.req.assets.None? {
      FollowsReflexive(client.req, client.remote, client.trace);
      return Err(NoLocalAssets);
    }
    var seen := Observe(client);
    if seen.Err? {
      return Err(seen.error);
    }
    if dryRun {
      return Ok((seen.value.1, seen.value.0));
    }
    ghost var remote1, trace1 := client.remote, client.trace;
    var staged := Advance(client, seen.value.0, seen.value.1, true);
    ghost var remote2, trace2 := client.remote, client.trace;
    if friendly {
      FollowsTransitive(client.req, remote0, trace0, remote1, trace1, remote2, trace2);
      FollowsGrows(client.req, remote0, trace0, remote2, trace2);
    }
    if staged.Err? {
      return Err(staged.error);
    }
    var last := Observe(client);
    if friendly {
      FollowsTransitive(client.req, remote0, trace0, remote2, trace2, client.remote, client.trace);
      FollowsGrows(client.req, remote2, trace2, client.remote, client.trace);
      if client.reliable && CompleteAssets(client.req) {
        StagedStays(client.req, remote2, client.remote);
        StagedHasTag(client.req, remote2);
        if client.others.Nobody? {
          AloneRun(client.req, remote0, trace0, own0, client.remote, client.trace, client.own, Needed(client.req, remote0));
        }
      }
    }
    if last.Err? {
      return Err(last.error);
    }
    PlanSchedulesExactly(client.req, last.value.0);
    if !last.value.1.action.AlreadyStaged? {
      return Err(StagingIncomplete);
    }
    return Ok((last.value.1, last.value.0));
  }

  lemma StagedHasTag(req: Request, s: Remote)
    requires Staged(req, s)
    ensures s.tag.Some? && s.release.Some?
  {
    hide OwnDraft, ExpectedNames;
  }

  /**
    Stages a signed release.  It stops at the first refused upload and checks the plan made after
    the last upload, so among stagers of the same request it fails exactly when its first read is
    torn or another stager's upload comes first.
   */
  method StageSignedRelease(client: ReleaseClient, dryRun: bool) returns (r: Result<(StagingPlan, Remote), StagingError>)
    requires client.req.variant.SignedDirect?
    modifies client
    ensures r.Ok? ==> Plan(client.req, r.value.1) == Ok(r.value.0)
    ensures r.Ok? && !dryRun ==> Staged(client.req, r.value.1) && CompleteAssets(client.req)
    ensures dryRun ==> client.own == old(client.own)
    ensures old(Friendly(client)) ==>
              && Friendly(client)
              && Follows(client.req, old(client.remote), old(client.trace), client.remote, client.trace)
    ensures old(Friendly(client)) && client.reliable && client.req.assets.Some?
            && !old(client.torn) && !old(client.refused) ==>
              && (r.Err? <==> client.torn || client.refused)
              && (client.torn ==> r.error == ReleaseWithoutTag) && (!client.torn && client.refused ==> r.error == Api(422))
              && (r.Ok? && !dryRun ==> Staged(client.req, client.remote))
              && (client.others.Nobody? && !dryRun ==>
                    && r.Ok?
                    && client.own == old(client.own) + Needed(client.req, old(client.remote))
                    && client.remote == Run(client.req, old(client.remote), Needed(client.req, old(client.remote))))
  {
    ghost var friendly, remote0, trace0, own0 := Friendly(client), client.remote, client.trace, client.own;
    assert friendly ==> !client.others.Anybody? && ValidRequest(client.req) && OwnProgress(client.req, remote0);
    SignedNeedsCandidate(client.req);
    hide *;
    if client.req.assets.None? {
      FollowsReflexive(client.req, client.remote, client.trace);
      return Err(NoLocalAssets);
    }
    if !client.req.candidateUploaded {
      FollowsReflexive(client.req, client.remote, client.trace);
      return Err(CandidateNotUploaded);
    }
    var seen := Observe(client);
    if seen.Err? {
      return Err(seen.error);
    }
    PlanAcceptsExactly(client.req, seen.value.0);
    if dryRun {
      return Ok((seen.value.1, seen.value.0));
    }
    ghost var remote1, trace1 := client.remote, client.trace;
    var staged := Advance(client, seen.value.0, seen.value.1, false);
    if friendly {
      FollowsTransitive(client.req, remote0, trace0, remote1, trace1, client.remote, client.trace);
      if client.reliable && client.others.Nobody? {
        AloneRun(client.req, remote0, trace0, own0, client.remote, client.trace, client.own, Needed(client.req, remote0));
      }
    }
    if staged.Err? {
      return Err(staged.error);
    }
    PlanSchedulesExactly(client.req, staged.value.0);
    if !staged.value.1.action.AlreadyStaged? {
      return Err(StagingIncomplete);
    }
    return Ok((staged.value.1, staged.value.0));
  }

  lemma SignedNeedsCandidate(req: Request)
    ensures ValidRequest(req) && req.variant.SignedDirect? && req.assets.Some? ==>
              req.candidateUploaded && CompleteAssets(req)
  {
  }
}
