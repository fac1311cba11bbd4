/**
  Planning a Draft Pre-release: what the remote repository may hold, which states the planner
  accepts, and what it then schedules.  The ad-hoc signed Alpha and the Developer ID signed
  release differ in their asset names, their release name and one local check.
 */
module ReleasePlan {
  import opened Results

  datatype Variant = Alpha | SignedDirect

  /** A version string and whether it is a canonical prerelease SemVer. */
  datatype Version = Version(text: string, canonical: bool)

  datatype LocalAsset = LocalAsset(name: string, size: nat, digest: string)

  datatype RemoteAsset = RemoteAsset(name: string, size: nat, digest: Option<string>, state: string)

  datatype Release = Release(tagName: string, target: string, name: string, draft: bool, prerelease: bool,
                             assets: seq<RemoteAsset>)

  /** The tag's commit and the release of that tag, each if it exists. */
  datatype Remote = Remote(tag: Option<string>, release: Option<Release>)

  /** `assets` is absent when only a plan is wanted. */
  datatype Request = Request(variant: Variant, version: Version, sourceSha: string,
                             assets: Option<seq<LocalAsset>>, candidateUploaded: bool)

  datatype Action = AlreadyStaged | CreateReleaseOnly | CreateTagAndRelease | ResumeRelease

  datatype StagingPlan = StagingPlan(action: Action, createRelease: bool, createTag: bool,
                                     matchingAssets: seq<string>, missingAssets: seq<string>)

  datatype StagingError =
    | BadVersion | BadSourceSha | DuplicateLocalAsset | UnexpectedLocalAsset | CandidateNotUploaded
    | IncompleteCandidate | TagMoved | ReleaseWithoutTag | WrongReleaseTag | UnresolvedTarget
    | WrongTarget | WrongReleaseName | NotDraft | NotPrerelease | DuplicateAsset | UnexpectedAsset
    | NotUploaded | WrongSize | WrongDigest
    | NoLocalAssets | TagNotFrozen | ReleaseNotObservable | NoRelease | LocalAssetMissing
    | StagingIncomplete | Api(status: int)

  predicate IsFullSha(s: string)
  {
    |s| == 40 && forall i | 0 <= i < |s| :: '0' <= s[i] <= '9' || 'a' <= s[i] <= 'f'
  }

  function TagName(req: Request): string
  {
    "v" + req.version.text
  }

  function ReleaseName(req: Request): string
  {
    "Mish " + TagName(req) + (if req.variant.Alpha? then " Alpha" else " signed-direct")
  }

  function ExpectedNames(req: Request): seq<string>
  {
    var dmg := "Mish-" + req.version.text + "-arm64.dmg";
    if req.variant.Alpha? then [dmg, "release-metadata.json", "SHA256SUMS.txt"]
    else [dmg, "macos-sbom.spdx.json", "signed-release-evidence.json", "provenance-attestation.sigstore.json",
          "sbom-attestation.sigstore.json", "SHA256SUMS.txt"]
  }

  function LocalAssets(req: Request): seq<LocalAsset>
  {
    if req.assets.Some? then req.assets.value else []
  }

  predicate UniqueNames(assets: seq<LocalAsset>)
  {
    forall i, j | 0 <= i < j < |assets| :: assets[i].name != assets[j].name
  }

  /** The first local asset of that name. */
  function Find(assets: seq<LocalAsset>, name: string): (r: Option<LocalAsset>)
    ensures r.Some? ==> r.value in assets && r.value.name == name
    ensures r.None? ==> forall a | a in assets :: a.name != name
  {
    if assets == [] then None
    else if assets[0].name == name then Some(assets[0])
    else Find(assets[1..], name)
  }

  /** The local half of planning: an error, if there is one. */
  function LocalError(req: Request): Option<StagingError>
  {
    var assets := LocalAssets(req);
    if !req.version.canonical then Some(BadVersion)
    else if !IsFullSha(req.sourceSha) then Some(BadSourceSha)
    else if !UniqueNames(assets) then Some(DuplicateLocalAsset)
    else if req.variant.Alpha? then
      if forall a | a in assets :: a.name in ExpectedNames(req) then None else Some(UnexpectedLocalAsset)
    else if req.assets.None? then None
    else if !req.candidateUploaded then Some(CandidateNotUploaded)
    else if (set a | a in assets :: a.name) == (set n | n in ExpectedNames(req)) then None
    else Some(IncompleteCandidate)
  }

  /** One asset of the existing release, given those before it. */
  function AssetError(req: Request, assets: seq<RemoteAsset>, i: nat): Option<StagingError>
    requires i < |assets|
  {
    var asset := assets[i];
    var local := Find(LocalAssets(req), asset.name);
    if exists j | 0 <= j < i :: assets[j].name == asset.name then Some(DuplicateAsset)
    else if asset.name !in ExpectedNames(req) then Some(UnexpectedAsset)
    else if asset.state != "uploaded" then Some(NotUploaded)
    else if local.None? then None
    else if asset.size != local.value.size then Some(WrongSize)
    else if asset.digest != Some("sha256:" + local.value.digest) then Some(WrongDigest)
    else None
  }

  function FirstAssetError(req: Request, assets: seq<RemoteAsset>, i: nat): (r: Option<StagingError>)
    requires i <= |assets|
    ensures r.None? <==> forall k | i <= k < |assets| :: AssetError(req, assets, k).None?
    decreases |assets| - i
  {
    if i == |assets| then None
    else if AssetError(req, assets, i).Some? then AssetError(req, assets, i)
    else FirstAssetError(req, assets, i + 1)
  }

  function ReleaseError(req: Request, release: Release): Option<StagingError>
  {
    if release.tagName != TagName(req) then Some(WrongReleaseTag)
    else if !IsFullSha(release.target) then Some(UnresolvedTarget)
    else if release.target != req.sourceSha then Some(WrongTarget)
    else if release.name != ReleaseName(req) then Some(WrongReleaseName)
    else if !release.draft then Some(NotDraft)
    else if !release.prerelease then Some(NotPrerelease)
    else FirstAssetError(req, release.assets, 0)
  }

  /** Names of the remote assets that also exist locally, in remote order. */
  function Matching(req: Request, assets: seq<RemoteAsset>): seq<string>
  {
    if assets == [] then []
    else
      var last := assets[|assets| - 1];
      Matching(req, assets[..|assets| - 1])
      + (if Find(LocalAssets(req), last.name).Some? then [last.name] else [])
  }

  predicate HasAsset(assets: seq<RemoteAsset>, name: string)
  {
    exists a :: a in assets && a.name == name
  }

  /** Expected names that no remote asset carries, in the expected order. */
  function Missing(names: seq<string>, assets: seq<RemoteAsset>): (r: seq<string>)
    ensures forall n :: n in r <==> n in names && !HasAsset(assets, n)
  {
    if names == [] then []
    else
      var rest := Missing(names[1..], assets);
      if HasAsset(assets, names[0]) then rest else [names[0]] + rest
  }

  /** The planner. */
  function Plan(req: Request, state: Remote): Result<StagingPlan, StagingError>
  {
    var names := ExpectedNames(req);
    if LocalError(req).Some? then Err(LocalError(req).value)
    else if state.tag.Some? && state.tag.value != req.sourceSha then Err(TagMoved)
    else if state.release.Some? && state.tag.None? then Err(ReleaseWithoutTag)
    else if state.release.None? then
      Ok(StagingPlan(if state.tag.Some? then CreateReleaseOnly else CreateTagAndRelease,
                     true, state.tag.None?, [], names))
    else
      var release := state.release.value;
      if ReleaseError(req, release).Some? then Err(ReleaseError(req, release).value)
      else
        var missing := Missing(names, release.assets);
        Ok(StagingPlan(if missing == [] then AlreadyStaged else ResumeRelease,
                       false, false, Matching(req, release.assets), missing))
  }

  // ---------------------------------------------------------------- what acceptance means

  /** The remote asset carries exactly the bytes of the local asset of its name, if there is one. */
  ghost predicate Verified(req: Request, asset: RemoteAsset)
  {
    && asset.state == "uploaded"
    && forall a | a in LocalAssets(req) && a.name == asset.name ::
         asset.size == a.size && asset.digest == Some("sha256:" + a.digest)
  }

  ghost predicate DistinctAssets(assets: seq<RemoteAsset>)
  {
    forall i, j | 0 <= i < j < |assets| :: assets[i].name != assets[j].name
  }

  /** A Draft Pre-release of this request's tag and commit, with no foreign or altered asset. */
  ghost predicate OwnDraft(req: Request, release: Release)
  {
    && release.tagName == TagName(req) && release.name == ReleaseName(req)
    && release.target == req.sourceSha && release.draft && release.prerelease
    && DistinctAssets(release.assets)
    && forall asset | asset in release.assets :: asset.name in ExpectedNames(req) && Verified(req, asset)
  }

  /** The request itself is well formed. */
  ghost predicate ValidRequest(req: Request)
  {
    && req.version.canonical && IsFullSha(req.sourceSha) && UniqueNames(LocalAssets(req))
    && (forall a | a in LocalAssets(req) :: a.name in ExpectedNames(req))
    && (req.variant.SignedDirect? && req.assets.Some? ==> req.candidateUploaded && CompleteAssets(req))
  }

  /** Every expected asset exists locally. */
  ghost predicate CompleteAssets(req: Request)
  {
    forall n | n in ExpectedNames(req) :: Find(LocalAssets(req), n).Some?
  }

  /** The remote holds nothing but this request's own work, so far as it got. */
  ghost predicate OwnProgress(req: Request, state: Remote)
  {
    && (state.tag.Some? ==> state.tag.value == req.sourceSha)
    && (state.release.Some? ==> state.tag.Some? && OwnDraft(req, state.release.value))
  }

  /** Everything is in place. */
  ghost predicate Staged(req: Request, state: Remote)
  {
    && OwnProgress(req, state)
    && state.release.Some?
    && forall n | n in ExpectedNames(req) :: HasAsset(state.release.value.assets, n)
  }

  lemma LocalErrorExact(req: Request)
    ensures LocalError(req).None? <==> ValidRequest(req)
  {
    var assets, names := LocalAssets(req), ExpectedNames(req);
    if req.variant.SignedDirect? && req.assets.Some? {
      var have, want := set a | a in assets :: a.name, set n | n in names;
      hide ExpectedNames, Find;
      forall a | a in assets ensures a.name in have {
      }
      assert (forall a | a in assets :: a.name in names) && (forall n | n in names :: n in have) ==> have == want;
      assert have == want ==> forall n | n in names :: n in have;
      forall n | n in names ensures n in have <==> Find(assets, n).Some? {
        FindNamed(assets, n);
      }
    } else {
      assert req.variant.Alpha? || assets == [];
    }
  }

  lemma FindNamed(assets: seq<LocalAsset>, name: string)
    ensures Find(assets, name).Some? <==> name in (set a | a in assets :: a.name)
  {
  }

  lemma {:induction false} FindUnique(assets: seq<LocalAsset>, a: LocalAsset)
    requires UniqueNames(assets) && a in assets
    ensures Find(assets, a.name) == Some(a)
  {
    var found := Find(assets, a.name).value;
    var i :| 0 <= i < |assets| && assets[i] == a;
    var j :| 0 <= j < |assets| && assets[j] == found;
    if i < j {
      assert assets[i].name != assets[j].name;
    } else if j < i {
      assert assets[j].name != assets[i].name;
    }
  }

  lemma VerifiedExact(req: Request, asset: RemoteAsset)
    requires UniqueNames(LocalAssets(req))
    ensures var local := Find(LocalAssets(req), asset.name);
            Verified(req, asset) <==>
              && asset.state == "uploaded"
              && (local.Some? ==> asset.size == local.value.size && asset.digest == Some("sha256:" + local.value.digest))
  {
    var assets := LocalAssets(req);
    hide LocalAssets;
    forall a | a in assets && a.name == asset.name ensures Find(assets, asset.name) == Some(a) {
      FindUnique(assets, a);
    }
  }

  /** The asset checks, one by one, say that the release holds no foreign or altered asset. */
  lemma AssetErrorsExact(req: Request, assets: seq<RemoteAsset>)
    requires UniqueNames(LocalAssets(req))
    ensures FirstAssetError(req, assets, 0).None? <==>
              && DistinctAssets(assets)
              && forall asset | asset in assets :: asset.name in ExpectedNames(req) && Verified(req, asset)
  {
    hide ExpectedNames, Find, Verified, LocalAssets;
    forall i | 0 <= i < |assets| ensures
      AssetError(req, assets, i).None? <==>
        && (forall j | 0 <= j < i :: assets[j].name != assets[i].name)
        && assets[i].name in ExpectedNames(req) && Verified(req, assets[i])
    {
      VerifiedExact(req, assets[i]);
    }
    hide AssetError;
    if FirstAssetError(req, assets, 0).None? {
      forall i, j | 0 <= i < j < |assets| ensures assets[i].name != assets[j].name {
        assert AssetError(req, assets, j).None?;
      }
      forall asset | asset in assets ensures asset.name in ExpectedNames(req) && Verified(req, asset) {
        var k :| 0 <= k < |assets| && assets[k] == asset;
        assert AssetError(req, assets, k).None?;
      }
    } else if DistinctAssets(assets)
              && forall asset | asset in assets :: asset.name in ExpectedNames(req) && Verified(req, asset) {
      forall i | 0 <= i < |assets| ensures AssetError(req, assets, i).None? {
        assert assets[i] in assets;
      }
    }
  }

  /** The planner accepts exactly the states that hold only this request's own progress. */
  lemma PlanAcceptsExactly(req: Request, state: Remote)
    ensures Plan(req, state).Ok? <==> ValidRequest(req) && OwnProgress(req, state)
  {
    hide ExpectedNames, AssetError, FirstAssetError, Find, Missing, Matching, UniqueNames, TagName, ReleaseName;
    LocalErrorExact(req);
    if ValidRequest(req) && state.release.Some? {
      AssetErrorsExact(req, state.release.value.assets);
    }
  }

  /** What an accepted plan schedules: exactly what is not there yet. */
  lemma PlanSchedulesExactly(req: Request, state: Remote)
    requires Plan(req, state).Ok?
    ensures var plan := Plan(req, state).value;
            && (plan.createTag <==> state.tag.None?)
            && (plan.createRelease <==> state.release.None?)
            && (plan.action.AlreadyStaged? <==> Staged(req, state))
            && (forall n :: n in plan.missingAssets <==>
                  n in ExpectedNames(req) && (state.release.Some? ==> !HasAsset(state.release.value.assets, n)))
  {
    PlanAcceptsExactly(req, state);
    var plan := Plan(req, state).value;
    hide OwnProgress, ReleaseError, LocalError, ExpectedNames, Matching, HasAsset;
    if state.release.Some? {
      var missing := plan.missingAssets;
      if missing == [] {
        forall n | n in ExpectedNames(req) ensures HasAsset(state.release.value.assets, n) {
          assert n !in missing;
        }
      } else {
        assert missing[0] in missing;
      }
    } else {
      assert state.tag.None? <==> plan.createTag;
    }
  }

  // ---------------------------------------------------------------- the planner's loops

  /** Walks the release's assets once, remembering the names seen and those that match locally. */
  method CheckAssets(req: Request, assets: seq<RemoteAsset>)
    returns (r: Result<(set<string>, seq<string>), StagingError>)
    ensures r.Err? ==> FirstAssetError(req, assets, 0) == Some(r.error)
    ensures r.Ok? ==> FirstAssetError(req, assets, 0).None?
    ensures r.Ok? ==> r.value.0 == (set a | a in assets :: a.name) && r.value.1 == Matching(req, assets)
  {
    var seen: set<string>, matching: seq<string> := {}, [];
    var names, local := ExpectedNames(req), LocalAssets(req);
    hide ExpectedNames, LocalAssets, Find;
    assert assets[..0] == [];
    for i := 0 to |assets|
      invariant FirstAssetError(req, assets, 0) == FirstAssetError(req, assets, i)
      invariant seen == set a | a in assets[..i] :: a.name
      invariant matching == Matching(req, assets[..i])
    {
      var asset := assets[i];
      SeenBefore(assets, i, seen);
      if asset.name in seen { return Err(DuplicateAsset); }
      if asset.name !in names { return Err(UnexpectedAsset); }
      if asset.state != "uploaded" { return Err(NotUploaded); }
      var found := Find(local, asset.name);
      if found.Some? {
        if asset.size != found.value.size { return Err(WrongSize); }
        if asset.digest != Some("sha256:" + found.value.digest) { return Err(WrongDigest); }
        matching := matching + [asset.name];
      }
      seen := seen + {asset.name};
      assert assets[..i + 1] == assets[..i] + [asset];
    }
    assert assets[..|assets|] == assets;
    return Ok((seen, matching));
  }

  lemma SeenBefore(assets: seq<RemoteAsset>, i: nat, seen: set<string>)
    requires i < |assets| && seen == set a | a in assets[..i] :: a.name
    ensures assets[i].name in seen <==> exists j | 0 <= j < i :: assets[j].name == assets[i].name
  {
    forall j | 0 <= j < i ensures assets[j].name in seen {
      assert assets[..i][j] == assets[j];
    }
  }

  /** The planner as the release scripts run it. */
  method PlanStaging(req: Request, state: Remote) returns (r: Result<StagingPlan, StagingError>)
    ensures r == Plan(req, state)
  {
    hide ExpectedNames, FirstAssetError, Matching, LocalError, HasAsset;
    var localError := LocalError(req);
    if localError.Some? { return Err(localError.value); }
    var names := ExpectedNames(req);
    if state.tag.Some? && state.tag.value != req.sourceSha { return Err(TagMoved); }
    if state.release.Some? && state.tag.None? { return Err(ReleaseWithoutTag); }
    if state.release.None? {
      return Ok(StagingPlan(if state.tag.Some? then CreateReleaseOnly else CreateTagAndRelease,
                            true, state.tag.None?, [], names));
    }
    var release := state.release.value;
    if release.tagName != TagName(req) { return Err(WrongReleaseTag); }
    if !IsFullSha(release.target) { return Err(UnresolvedTarget); }
    if release.target != req.sourceSha { return Err(WrongTarget); }
    if release.name != ReleaseName(req) { return Err(WrongReleaseName); }
    if !release.draft { return Err(NotDraft); }
    if !release.prerelease { return Err(NotPrerelease); }
    var checked := CheckAssets(req, release.assets);
    if checked.Err? { return Err(checked.error); }
    var missing := FilterMissing(names, checked.value.0, release.assets);
    return Ok(StagingPlan(if missing == [] then AlreadyStaged else ResumeRelease,
                          false, false, checked.value.1, missing));
  }

  method FilterMissing(names: seq<string>, seen: set<string>, ghost assets: seq<RemoteAsset>)
    returns (missing: seq<string>)
    requires seen == set a | a in assets :: a.name
    ensures missing == Missing(names, assets)
  {
    missing := [];
    for i := 0 to |names|
      invariant missing + Missing(names[i..], assets) == Missing(names, assets)
    {
      assert names[i..][1..] == names[i + 1..];
      if names[i] !in seen {
        missing := missing + [names[i]];
      }
    }
  }
}
