/**
  The remote repository as a state machine.  Its atomic steps are the three mutations a stager
  can request; a run is any interleaving of steps by any number of stagers of one request, and a
  crash is a run that simply stops.
 */
module ReleaseRuns {
  import opened Results
  import opened ReleasePlan

  datatype Op = CreateTag | CreateRelease | Upload(asset: LocalAsset)

  function EmptyDraft(req: Request): Release
  {
    Release(TagName(req), req.sourceSha, ReleaseName(req), true, true, [])
  }

  function Uploaded(asset: LocalAsset): RemoteAsset
  {
    RemoteAsset(asset.name, asset.size, Some("sha256:" + asset.digest), "uploaded")
  }

  /** Whether the remote refuses the step because what it creates already exists. */
  predicate Conflicts(s: Remote, op: Op)
  {
    match op
    case CreateTag => s.tag.Some?
    case CreateRelease => s.release.Some?
    case Upload(a) => s.release.Some? && HasAsset(s.release.value.assets, a.name)
  }

  /** The effect of a step; a refused step has none. */
  function Apply(req: Request, s: Remote, op: Op): Remote
  {
    if Conflicts(s, op) then s
    else
      match op
      case CreateTag => s.(tag := Some(req.sourceSha))
      case CreateRelease => s.(release := Some(EmptyDraft(req)))
      case Upload(a) =>
        if s.release.None? then s
        else s.(release := Some(s.release.value.(assets := s.release.value.assets + [Uploaded(a)])))
  }

  /**
    What a stager of `req` may request in state `s`: a release only once the tag exists, and only
    verified local assets.
   */
  ghost predicate Legal(req: Request, s: Remote, op: Op)
  {
    match op
    case CreateTag => true
    case CreateRelease => s.tag.Some?
    case Upload(a) => a in LocalAssets(req)
  }

  function Run(req: Request, s: Remote, ops: seq<Op>): Remote
    decreases |ops|
  {
    if ops == [] then s else Run(req, Apply(req, s, ops[0]), ops[1..])
  }

  ghost predicate LegalRun(req: Request, s: Remote, ops: seq<Op>)
    decreases |ops|
  {
    ops == [] || (Legal(req, s, ops[0]) && LegalRun(req, Apply(req, s, ops[0]), ops[1..]))
  }

  lemma {:induction false} RunConcat(req: Request, s: Remote, a: seq<Op>, b: seq<Op>)
    ensures Run(req, s, a + b) == Run(req, Run(req, s, a), b)
    ensures LegalRun(req, s, a + b) <==> LegalRun(req, s, a) && LegalRun(req, Run(req, s, a), b)
    decreases |a|
  {
    hide Apply, Legal;
    if a == [] {
      assert a + b == b;
    } else {
      assert (a + b)[1..] == a[1..] + b;
      RunConcat(req, Apply(req, s, a[0]), a[1..], b);
    }
  }

  lemma RunOne(req: Request, s: Remote, op: Op)
    ensures Run(req, s, [op]) == Apply(req, s, op)
    ensures LegalRun(req, s, [op]) <==> Legal(req, s, op)
  {
    hide Apply, Legal;
    assert [op][1..] == [];
  }

  /** Nothing that exists is ever removed, moved or altered. */
  ghost predicate Grows(before: Remote, after: Remote)
  {
    && (before.tag.Some? ==> after.tag == before.tag)
    && (before.release.Some? ==>
          && after.release.Some?
          && after.release.value.(assets := before.release.value.assets) == before.release.value
          && before.release.value.assets <= after.release.value.assets)
  }

  lemma ApplyGrows(req: Request, s: Remote, op: Op)
    ensures Grows(s, Apply(req, s, op))
  {
  }

  lemma GrowsTransitive(a: Remote, b: Remote, c: Remote)
    requires Grows(a, b) && Grows(b, c)
    ensures Grows(a, c)
  {
  }

  lemma GrowsKeepsAsset(a: Remote, b: Remote, name: string)
    requires Grows(a, b) && a.release.Some? && HasAsset(a.release.value.assets, name)
    ensures b.release.Some? && HasAsset(b.release.value.assets, name)
  {
  }

  lemma {:induction false} RunGrows(req: Request, s: Remote, ops: seq<Op>)
    ensures Grows(s, Run(req, s, ops))
    decreases |ops|
  {
    hide Apply, Grows;
    if ops != [] {
      ApplyGrows(req, s, ops[0]);
      RunGrows(req, Apply(req, s, ops[0]), ops[1..]);
      GrowsTransitive(s, Apply(req, s, ops[0]), Run(req, s, ops));
    } else {
      GrowsReflexive(s);
    }
  }

  lemma GrowsReflexive(s: Remote)
    ensures Grows(s, s)
  {
  }

  lemma UploadedIsVerified(req: Request, a: LocalAsset)
    requires ValidRequest(req) && a in LocalAssets(req)
    ensures Uploaded(a).name in ExpectedNames(req) && Verified(req, Uploaded(a))
  {
    hide ExpectedNames, LocalAssets;
    forall b | b in LocalAssets(req) && b.name == a.name ensures b == a {
      FindUnique(LocalAssets(req), a);
      FindUnique(LocalAssets(req), b);
    }
  }

  /** A legal step keeps the remote within the request's own progress. */
  lemma ApplyKeepsProgress(req: Request, s: Remote, op: Op)
    requires ValidRequest(req) && OwnProgress(req, s) && Legal(req, s, op)
    ensures OwnProgress(req, Apply(req, s, op))
  {
    hide ValidRequest, ExpectedNames, Verified;
    if op.Upload? && s.release.Some? && !Conflicts(s, op) {
      UploadedIsVerified(req, op.asset);
      var before := s.release.value.assets;
      var after := before + [Uploaded(op.asset)];
      forall i, j | 0 <= i < j < |after| ensures after[i].name != after[j].name {
        if j == |before| {
          assert before[i] in before;
        }
      }
    }
  }

  lemma {:induction false} RunKeepsProgress(req: Request, s: Remote, ops: seq<Op>)
    requires ValidRequest(req) && OwnProgress(req, s) && LegalRun(req, s, ops)
    ensures OwnProgress(req, Run(req, s, ops))
    decreases |ops|
  {
    hide Apply, OwnProgress, ValidRequest, Legal;
    if ops != [] {
      ApplyKeepsProgress(req, s, ops[0]);
      RunKeepsProgress(req, Apply(req, s, ops[0]), ops[1..]);
    }
  }

  /**
    Crash and concurrency safety: however stagers of one request interleave, and wherever they
    stop, the planner accepts the state they leave, the tag is never moved, and nothing that was
    there at an earlier point of the run is lost.
   */
  lemma EveryPrefixIsAccepted(req: Request, s: Remote, ops: seq<Op>, j: nat, k: nat)
    requires ValidRequest(req) && OwnProgress(req, s) && LegalRun(req, s, ops) && j <= k <= |ops|
    ensures Plan(req, Run(req, s, ops[..k])).Ok?
    ensures Grows(Run(req, s, ops[..j]), Run(req, s, ops[..k]))
    ensures Run(req, s, ops[..k]).tag in {None, Some(req.sourceSha)}
  {
    var at := Run(req, s, ops[..k]);
    assert ops[..k] + ops[k..] == ops && ops[..j] + ops[j..k] == ops[..k];
    RunConcat(req, s, ops[..k], ops[k..]);
    RunConcat(req, s, ops[..j], ops[j..k]);
    RunKeepsProgress(req, s, ops[..k]);
    PlanAcceptsExactly(req, at);
    RunGrows(req, Run(req, s, ops[..j]), ops[j..k]);
  }

  // ---------------------------------------------------------------- what is still to be done

  /** Uploads of the named local assets. */
  function Uploads(req: Request, names: seq<string>): seq<Op>
  {
    if names == [] then []
    else
      var found := Find(LocalAssets(req), names[0]);
      (if found.Some? then [Upload(found.value)] else []) + Uploads(req, names[1..])
  }

  function MissingNames(req: Request, s: Remote): seq<string>
  {
    if s.release.None? then ExpectedNames(req) else Missing(ExpectedNames(req), s.release.value.assets)
  }

  /** The mutations that complete `s`, each exactly once, in the order the stager requests them. */
  function Needed(req: Request, s: Remote): seq<Op>
  {
    (if s.tag.None? then [CreateTag] else [])
    + (if s.release.None? then [CreateRelease] else [])
    + Uploads(req, MissingNames(req, s))
  }

  lemma {:induction false} UploadsConcat(req: Request, a: seq<string>, b: seq<string>)
    ensures Uploads(req, a + b) == Uploads(req, a) + Uploads(req, b)
    decreases |a|
  {
    if a == [] {
      assert a + b == b;
    } else {
      assert (a + b)[1..] == a[1..] + b;
      UploadsConcat(req, a[1..], b);
    }
  }

  /** Once everything is staged, nothing is left to do. */
  lemma StagedNeedsNothing(req: Request, s: Remote)
    requires Staged(req, s)
    ensures Needed(req, s) == []
  {
    hide ExpectedNames, OwnDraft;
    NoElements(MissingNames(req, s));
  }

  lemma NoElements(names: seq<string>)
    ensures names == [] || exists n :: n in names
  {
    if names != [] {
      assert names[0] in names;
    }
  }

  ghost predicate Distinct(names: seq<string>)
  {
    forall i, j | 0 <= i < j < |names| :: names[i] != names[j]
  }

  lemma ExpectedNamesDistinct(req: Request)
    ensures Distinct(ExpectedNames(req))
  {
    var names := ExpectedNames(req);
    assert names[0][0] == 'M';
    forall i, j | 0 <= i < j < |names| ensures names[i] != names[j] {
      if i == 0 {
        assert names[j][0] != 'M';
      } else {
        FixedNamesDistinct(i, j);
      }
    }
  }

  /** Names after the disk image are told apart by a character. */
  lemma FixedNamesDistinct(i: nat, j: nat)
    requires 0 < i < j < 6
    ensures j < 3 ==> ["", "release-metadata.json", "SHA256SUMS.txt"][i] != ["", "release-metadata.json", "SHA256SUMS.txt"][j]
    ensures var names := ["", "macos-sbom.spdx.json", "signed-release-evidence.json",
                          "provenance-attestation.sigstore.json", "sbom-attestation.sigstore.json", "SHA256SUMS.txt"];
            names[i] != names[j]
  {
    assert "release-metadata.json"[0] == 'r' && "SHA256SUMS.txt"[0] == 'S';
    assert "macos-sbom.spdx.json"[0] == 'm' && "signed-release-evidence.json"[..2] == "si";
    assert "provenance-attestation.sigstore.json"[0] == 'p' && "sbom-attestation.sigstore.json"[..2] == "sb";
  }

  lemma {:induction false} MissingDistinct(names: seq<string>, assets: seq<RemoteAsset>)
    requires Distinct(names)
    ensures Distinct(Missing(names, assets))
    decreases |names|
  {
    hide HasAsset;
    if names != [] {
      var rest := Missing(names[1..], assets);
      MissingDistinct(names[1..], assets);
      forall n | n in rest ensures n != names[0] {
        var k :| 0 <= k < |names[1..]| && names[1..][k] == n;
        assert names[0] != names[k + 1];
      }
    }
  }

  lemma {:induction false} UploadsLand(req: Request, s: Remote, names: seq<string>)
    requires ValidRequest(req) && OwnProgress(req, s) && s.release.Some?
    requires forall n | n in names :: Find(LocalAssets(req), n).Some?
    ensures var after := Run(req, s, Uploads(req, names));
            && LegalRun(req, s, Uploads(req, names)) && Grows(s, after)
            && OwnProgress(req, after) && after.release.Some? && after.tag == s.tag
            && forall n | n in names :: HasAsset(after.release.value.assets, n)
    decreases |names|
  {
    hide ValidRequest, OwnProgress, Grows, HasAsset;
    if names == [] {
      GrowsReflexive(s);
    } else {
      var a := Find(LocalAssets(req), names[0]).value;
      var op, rest := Upload(a), Uploads(req, names[1..]);
      assert Uploads(req, names) == [op] + rest;
      assert ([op] + rest)[0] == op && ([op] + rest)[1..] == rest;
      var next := Apply(req, s, op);
      ApplyKeepsProgress(req, s, op);
      ApplyGrows(req, s, op);
      UploadLands(req, s, a);
      hide Apply;
      UploadsLand(req, next, names[1..]);
      var after := Run(req, s, Uploads(req, names));
      GrowsTransitive(s, next, after);
      GrowsKeepsAsset(next, after, names[0]);
      assert names == [names[0]] + names[1..];
    }
  }

  lemma UploadLands(req: Request, s: Remote, a: LocalAsset)
    requires s.release.Some?
    ensures var after := Apply(req, s, Upload(a));
            after.release.Some? && HasAsset(after.release.value.assets, a.name) && after.tag == s.tag
  {
    var after := Apply(req, s, Upload(a));
    if !Conflicts(s, Upload(a)) {
      assert Uploaded(a) in after.release.value.assets;
    }
  }

  /** Doing what is needed is legal and completes every accepted state. */
  lemma NeededCompletes(req: Request, s: Remote)
    requires ValidRequest(req) && CompleteAssets(req) && OwnProgress(req, s)
    ensures LegalRun(req, s, Needed(req, s))
    ensures Staged(req, Run(req, s, Needed(req, s)))
  {
    var first := (if s.tag.None? then [CreateTag] else []) + (if s.release.None? then [CreateRelease] else []);
    var ready := FirstSteps(req, s);
    var uploads := Uploads(req, MissingNames(req, s));
    hide ValidRequest, OwnDraft, ExpectedNames, HasAsset, Apply, Find;
    RunConcat(req, s, first, uploads);
    assert Needed(req, s) == first + uploads;
    UploadsLand(req, ready, MissingNames(req, s));
    var after := Run(req, s, Needed(req, s));
    forall n | n in ExpectedNames(req) ensures HasAsset(after.release.value.assets, n) {
      if n !in MissingNames(req, s) {
        GrowsKeepsAsset(ready, after, n);
      }
    }
  }

  lemma FirstSteps(req: Request, s: Remote) returns (ready: Remote)
    requires ValidRequest(req) && OwnProgress(req, s)
    ensures var first := (if s.tag.None? then [CreateTag] else []) + (if s.release.None? then [CreateRelease] else []);
            && LegalRun(req, s, first) && ready == Run(req, s, first)
            && OwnProgress(req, ready) && ready.release.Some? && ready.tag.Some?
            && (s.release.Some? ==> ready.release == s.release)
  {
    var tagging := if s.tag.None? then [CreateTag] else [];
    var drafting := if s.release.None? then [CreateRelease] else [];
    hide ValidRequest;
    RunConcat(req, s, tagging, drafting);
    RunOne(req, s, CreateTag);
    RunOne(req, Run(req, s, tagging), CreateRelease);
    RunKeepsProgress(req, s, tagging + drafting);
    ready := Run(req, s, tagging + drafting);
  }
}
