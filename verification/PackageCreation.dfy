/** A created manifest accepts the bundle it was created for, and goes on accepting it after re-signing. */
module PackageCreation {
  import opened Results
  import opened PackageTree
  import opened PackageManifest
  import Checksums

  // ---------------------------------------------------------------- adding a file

  /** The tree with a new file in an existing directory. */
  function Insert(t: Tree, p: Path, leaf: Tree): Tree
    decreases |p|
  {
    if p == [] || !t.Dir? then t
    else if |p| == 1 then t.(entries := t.entries[p[0] := leaf])
    else if p[0] in t.entries then t.(entries := t.entries[p[0] := Insert(t.entries[p[0]], p[1..], leaf)])
    else t
  }

  /** Same kind, and the same file or a directory with the same owner. */
  predicate LooksLike(a: Option<Tree>, b: Option<Tree>)
  {
    || a == b
    || (a.Some? && b.Some? && a.value.Dir? && b.value.Dir? && a.value.trusted == b.value.trusted)
  }

  lemma {:induction false} InsertLookup(t: Tree, p: Path, leaf: Tree, q: Path)
    requires p != [] && IsDirAt(t, p[..|p| - 1]) && !IsAt(t, p) && leaf.File?
    ensures if q == p then Lookup(Insert(t, p, leaf), q) == Some(leaf)
            else LooksLike(Lookup(t, q), Lookup(Insert(t, p, leaf), q))
    decreases |p|
  {
    if q != [] {
      assert p == [p[0]] + p[1..] && q == [q[0]] + q[1..];
      if |p| == 1 {
        assert p[..0] == [] && p[1..] == [];
        LookupBelow(t, p[0], []);
        assert p[0] !in t.entries;
        assert q[0] == p[0] && q != p ==> q[1..] != [];
      } else {
        assert p[..|p| - 1][1..] == p[1..][..|p| - 2];
        InsertLookup(t.entries[p[0]], p[1..], leaf, q[1..]);
      }
    }
  }

  // ---------------------------------------------------------------- creating

  function EntryFor(codec: Codec, t: Tree, p: Path, role: Role): Entry
    requires IsFileAt(t, p)
  {
    var f := Lookup(t, p).value;
    Entry(if role == Application then f.mode else FixedMode(role), p, role, codec.sha(f.bytes), |f.bytes|)
  }

  /** Neither sealed elsewhere nor part of the payload. */
  predicate IsListedAsApplication(t: Tree, p: Path)
  {
    p != [] && IsFileAt(t, p) && p !in Outside() && !(Payload() < p)
  }

  ghost predicate IsCreatedEntry(codec: Codec, t: Tree, e: Entry)
  {
    || (e.role != Application && IsFileAt(t, FixedPath(e.role)) && e == EntryFor(codec, t, FixedPath(e.role), e.role))
    || (e.role == Application && IsListedAsApplication(t, e.path) && e == EntryFor(codec, t, e.path, Application))
  }

  /** The four fixed files and every application file, each once, in some order. */
  ghost predicate IsCreated(codec: Codec, t: Tree, m: Manifest)
  {
    && (forall role | role in FIXED :: IsFileAt(t, FixedPath(role)))
    && (forall e :: e in m.files <==> IsCreatedEntry(codec, t, e))
    && (forall i, j | 0 <= i < j < |m.files| :: m.files[i].path != m.files[j].path)
  }

  // ---------------------------------------------------------------- conforming bundles

  ghost predicate IsConformingFile(t: Tree, p: Path)
  {
    && IsFileAt(t, p) && IsSafePath(p)
    && var f := Lookup(t, p).value;
    && f.owned && f.links == 1 && 0 < |f.bytes| <= FILE_LIMIT
    && (|| (p == MainPath() && f.mode == EXECUTABLE) || (p == SealPath() && f.mode == PLAIN)
        || (exists role | role in FIXED :: p == FixedPath(role) && f.mode == FixedMode(role))
        || (IsApplicationPath(p) && (f.mode == PLAIN || f.mode == EXECUTABLE)))
  }

  /** A built bundle before its manifest is written. */
  ghost predicate Conforms(t: Tree)
  {
    && Walk(t).Some? && !IsAt(t, ManifestPath())
    && (forall p | p != [] && IsFileAt(t, p) :: IsConformingFile(t, p))
    && (forall role | role in FIXED :: IsFileAt(t, FixedPath(role)))
    && IsFileAt(t, MainPath()) && IsFileAt(t, SealPath()) && IsFileAt(t, InfoPath()) && IsFileAt(t, BundledCorePath())
    && (forall p | p != [] && IsDirAt(t, p) :: Lookup(t, p).value.trusted)
    && HasNoEmptyDir(t)
  }

  ghost predicate HasNoEmptyDir(t: Tree)
  {
    forall p | p != [] && IsDirAt(t, p) :: exists f :: p < f && IsFileAt(t, f)
  }

  lemma PlacesDiffer()
    ensures !(Payload() < MainPath()) && !(Payload() < SealPath()) && !(Payload() < InfoPath()) && !(Payload() < BundledCorePath())
    ensures InfoPath() !in Outside() && BundledCorePath() !in Outside() && MainPath() != SealPath()
    ensures ["Contents"] < InfoPath() && ["Contents"] < BundledCorePath()
  {
    assert MainPath()[1] == "MacOS" && SealPath()[1] == "_CodeSignature" && Payload()[1] == "Resources";
    assert "MacOS"[0] == 'M' && "_CodeSignature"[0] == '_' && "Resources"[0] == 'R';
    assert |InfoPath()| == 2 && |BundledCorePath()| == 3 && |Payload()| == 3;
  }

  lemma FixedDiffer()
    ensures forall role | role in FIXED :: Payload() < FixedPath(role) && FixedPath(role) != ManifestPath() && IsSafePath(FixedPath(role))
    ensures forall r, s | r in FIXED && s in FIXED && FixedPath(r) == FixedPath(s) :: r == s
    ensures Payload() < ManifestPath() && |ManifestPath()| == 4 && ManifestPath()[..3] == Payload()
  {
    assert |FixedName(Controller)| == 27 && |FixedName(Template)| == 47 && |FixedName(Core)| == 6 && |FixedName(Helper)| == 15;
    assert |"internal-tun-alpha-manifest.json"| == 32;
    forall role | role in FIXED ensures FixedPath(role)[3] == FixedName(role) && |FixedPath(role)| == 4 {
    }
    assert ManifestPath()[3] == "internal-tun-alpha-manifest.json";
  }

  // ---------------------------------------------------------------- the created manifest is well shaped

  lemma CreatedEntryIsEntry(codec: Codec, t: Tree, m: Manifest, e: Entry)
    requires Conforms(t) && IsCreated(codec, t, m) && e in m.files && forall b :: Checksums.IsDigest(codec.sha(b))
    ensures IsEntry(e) && (e.role == Application || e.path == FixedPath(e.role))
    ensures e.role == Application ==> IsApplicationPath(e.path)
    ensures e.path != [] && IsFileAt(t, e.path) && Matches(codec, t, e)
  {
    FixedDiffer();
    PlacesDiffer();
    hide Payload, FixedPath, MainPath, SealPath, ManifestPath, InfoPath, BundledCorePath, Lookup, Walk;
    assert IsCreatedEntry(codec, t, e);
    var p := e.path;
    assert e.role in FIXED || e.role == Application;
    assert p != [] && IsFileAt(t, p);
    assert IsConformingFile(t, p);
  }

  lemma CreatedShape(codec: Codec, t: Tree, m: Manifest)
    requires Conforms(t) && IsCreated(codec, t, m) && forall b :: Checksums.IsDigest(codec.sha(b))
    requires codec.isCoreVersion(m.coreVersion) && codec.isHelperVersion(m.helperVersion)
    ensures IsShape(codec, m)
  {
    FixedDiffer();
    PlacesDiffer();
    hide Payload, FixedPath, MainPath, SealPath, ManifestPath, InfoPath, BundledCorePath, Lookup, Walk, IsEntry, IsApplicationPath, Matches;
    forall e | e in m.files
      ensures IsEntry(e) && (e.role == Application || e.path == FixedPath(e.role)) && (e.role == Application ==> IsApplicationPath(e.path))
    {
      CreatedEntryIsEntry(codec, t, m, e);
    }
    forall role | role in FIXED
      ensures exists e | e in m.files :: e.path == FixedPath(role) && e.role == role && e.mode == FixedMode(role)
    {
      var e := EntryFor(codec, t, FixedPath(role), role);
      assert IsCreatedEntry(codec, t, e);
    }
    var info, core := EntryFor(codec, t, InfoPath(), Application), EntryFor(codec, t, BundledCorePath(), Application);
    assert IsCreatedEntry(codec, t, info) && IsCreatedEntry(codec, t, core);
  }

  /** The files of a conforming bundle are what the manifest claims, but for the manifest itself. */
  lemma CreatedClaims(codec: Codec, t: Tree, m: Manifest, p: Path)
    requires Conforms(t) && IsCreated(codec, t, m) && forall b :: Checksums.IsDigest(codec.sha(b))
    ensures p in Claimed(m) <==> p == ManifestPath() || (p != [] && IsFileAt(t, p))
  {
    FixedDiffer();
    PlacesDiffer();
    hide Payload, FixedPath, MainPath, SealPath, ManifestPath, InfoPath, BundledCorePath, Lookup, Walk, IsEntry, Matches;
    if p in PathsOf(m.files) {
      var e :| e in m.files && e.path == p;
      CreatedEntryIsEntry(codec, t, m, e);
    }
    PlacesNotEmpty();
    if p != [] && IsFileAt(t, p) && p !in Outside() {
      assert IsConformingFile(t, p);
      if role :| role in FIXED && p == FixedPath(role) {
        assert IsCreatedEntry(codec, t, EntryFor(codec, t, p, role));
        PathIn(m.files, EntryFor(codec, t, p, role));
      } else {
        assert IsCreatedEntry(codec, t, EntryFor(codec, t, p, Application));
        PathIn(m.files, EntryFor(codec, t, p, Application));
      }
    }
  }

  lemma PlacesNotEmpty()
    ensures MainPath() != [] && SealPath() != [] && ManifestPath() != []
  {
  }

  // ---------------------------------------------------------------- acceptance

  /** The tree once the manifest is written into it. */
  function Packaged(codec: Codec, t: Tree, m: Manifest): Tree
  {
    Insert(t, ManifestPath(), File(PLAIN, true, 1, codec.encode(m)))
  }

  /** The second tree has one more file and otherwise looks the same. */
  ghost predicate HasOneMore(t: Tree, u: Tree, p: Path, leaf: Tree)
  {
    Lookup(u, p) == Some(leaf) && forall q | q != p :: LooksLike(Lookup(t, q), Lookup(u, q))
  }

  lemma PackagedLooks(codec: Codec, t: Tree, m: Manifest)
    requires Conforms(t)
    ensures HasOneMore(t, Packaged(codec, t, m), ManifestPath(), File(PLAIN, true, 1, codec.encode(m)))
  {
    FixedDiffer();
    hide Payload, FixedPath, MainPath, SealPath, ManifestPath, InfoPath, BundledCorePath, Lookup, Walk, Insert, LooksLike;
    var p, leaf := ManifestPath(), File(PLAIN, true, 1, codec.encode(m));
    assert Core in FIXED;
    AboveIsDir(t, Payload(), FixedPath(Core));
    assert p[..|p| - 1] == Payload();
    InsertLookup(t, p, leaf, p);
    forall q | q != p ensures LooksLike(Lookup(t, q), Lookup(Insert(t, p, leaf), q)) {
      InsertLookup(t, p, leaf, q);
    }
  }

  lemma OneMoreKinds(t: Tree, u: Tree, p: Path, leaf: Tree)
    requires HasOneMore(t, u, p, leaf) && !IsAt(t, p) && leaf.File?
    ensures forall q :: IsFileAt(u, q) <==> q == p || IsFileAt(t, q)
    ensures forall q :: IsDirAt(u, q) <==> IsDirAt(t, q)
    ensures forall q | q != p && IsFileAt(t, q) :: Lookup(u, q) == Lookup(t, q)
    ensures forall q | IsDirAt(t, q) :: Lookup(u, q).value.trusted == Lookup(t, q).value.trusted
    ensures forall q | IsAt(u, q) && q != p :: IsAt(t, q)
  {
    hide Lookup;
    assert !IsFileAt(t, p) && !IsDirAt(t, p);
  }

  lemma OneMorePlain(t: Tree, u: Tree, p: Path, leaf: Tree)
    requires HasOneMore(t, u, p, leaf) && !IsAt(t, p) && leaf.File? && Walk(t).Some?
    ensures Walk(u).Some?
  {
    hide Lookup, Walk;
    WalkAccepts(t);
    WalkAccepts(u);
    OneMoreKinds(t, u, p, leaf);
    forall q | IsAt(u, q) ensures IsFileAt(u, q) || IsDirAt(u, q) {
      assert q == p || IsAt(t, q);
    }
  }

  /** Without empty directories, the directories are exactly those above the files. */
  lemma DirsAreAbove(t: Tree, found: set<Path>)
    requires Walk(t) == Some(found) && HasNoEmptyDir(t)
    ensures DirsOf(t, found) == Above(FilesOf(t, found))
  {
    hide Walk, Lookup, Closure;
    var files := FilesOf(t, found);
    forall p ensures p in found <==> p != [] && IsAt(t, p) {
      WalkLists(t, p);
    }
    forall q ensures q in Closure(files) <==> exists p | p in files :: IsPrefixOf(q, p) {
      ClosureExact(files, q);
    }
    forall p | p in DirsOf(t, found) ensures p in Above(files) {
      var f :| p < f && IsFileAt(t, f);
      assert f in files && IsPrefixOf(p, f);
    }
    forall q | q in Above(files) ensures q in DirsOf(t, found) {
      var p :| p in files && IsPrefixOf(q, p);
      assert q != p && q < p;
      AboveIsDir(t, q, p);
    }
  }

  /** The manifest created for a conforming bundle accepts it, once written into it, exactly if its text is within the limit. */
  lemma CreatedIsAccepted(codec: Codec, t: Tree, m: Manifest)
    requires Conforms(t) && IsCreated(codec, t, m) && forall b :: Checksums.IsDigest(codec.sha(b))
    requires codec.isCoreVersion(m.coreVersion) && codec.isHelperVersion(m.helperVersion)
    requires codec.parse(codec.encode(m)) == Some(m)
    ensures IsAccepted(codec, Packaged(codec, t, m), m) <==> 0 < |codec.encode(m)| <= MANIFEST_LIMIT
  {
    hide Conforms, IsCreated, IsAccepted, Packaged;
    if 0 < |codec.encode(m)| <= MANIFEST_LIMIT {
      FittingIsAccepted(codec, t, m);
    }
    if IsAccepted(codec, Packaged(codec, t, m), m) {
      AcceptedFits(codec, t, m);
    }
  }

  lemma AcceptedFits(codec: Codec, t: Tree, m: Manifest)
    requires Conforms(t) && IsAccepted(codec, Packaged(codec, t, m), m)
    ensures 0 < |codec.encode(m)| <= MANIFEST_LIMIT
  {
    hide Conforms, Packaged, Lookup, ManifestPath, Walk, IsShape, LooksLike, Expected, MainPath, SealPath, Matches;
    PackagedLooks(codec, t, m);
  }

  lemma FittingIsAccepted(codec: Codec, t: Tree, m: Manifest)
    requires Conforms(t) && IsCreated(codec, t, m) && forall b :: Checksums.IsDigest(codec.sha(b))
    requires codec.isCoreVersion(m.coreVersion) && codec.isHelperVersion(m.helperVersion)
    requires codec.parse(codec.encode(m)) == Some(m) && 0 < |codec.encode(m)| <= MANIFEST_LIMIT
    ensures IsAccepted(codec, Packaged(codec, t, m), m)
  {
    hide Payload, FixedPath, MainPath, SealPath, ManifestPath, InfoPath, BundledCorePath, Lookup, Walk, IsShape, Packaged, Claimed, Above,
         IsAccepted, PassesEach, IsConformingFile, IsCreatedEntry, HasOneMore;
    var u, p, leaf := Packaged(codec, t, m), ManifestPath(), File(PLAIN, true, 1, codec.encode(m));
    PackagedLooks(codec, t, m);
    OneMoreKinds(t, u, p, leaf);
    OneMorePlain(t, u, p, leaf);
    PackagedPasses(codec, t, m);
    AcceptedExactly(codec, u, m);
    var found := Walk(u).value;
    forall q ensures q in FilesOf(u, found) <==> q in Claimed(m) {
      WalkLists(u, q);
      CreatedClaims(codec, t, m, q);
      PlacesNotEmpty();
      assert IsFileAt(u, q) <==> q == p || IsFileAt(t, q);
      assert IsFileAt(u, q) ==> IsAt(u, q);
      assert q in Walk(u).value <==> q != [] && IsAt(u, q);
    }
    assert FilesOf(u, found) == Claimed(m);
    forall q | q != [] && IsDirAt(u, q) ensures exists f :: q < f && IsFileAt(u, f) {
      var f :| q < f && IsFileAt(t, f);
      assert IsFileAt(u, f);
    }
    DirsAreAbove(u, found);
  }

  lemma PackagedPasses(codec: Codec, t: Tree, m: Manifest)
    requires Conforms(t) && IsCreated(codec, t, m) && forall b :: Checksums.IsDigest(codec.sha(b))
    requires codec.isCoreVersion(m.coreVersion) && codec.isHelperVersion(m.helperVersion)
    requires codec.parse(codec.encode(m)) == Some(m) && 0 < |codec.encode(m)| <= MANIFEST_LIMIT
    ensures PassesEach(codec, Packaged(codec, t, m), m)
  {
    FixedDiffer();
    PlacesDiffer();
    PlacesNotEmpty();
    hide Payload, FixedPath, MainPath, SealPath, ManifestPath, InfoPath, BundledCorePath, Lookup, Walk, IsShape, Packaged,
         IsCreatedEntry, IsEntry, HasOneMore;
    var u, p, leaf := Packaged(codec, t, m), ManifestPath(), File(PLAIN, true, 1, codec.encode(m));
    PackagedLooks(codec, t, m);
    OneMoreKinds(t, u, p, leaf);
    LeafAt(t, u, p, leaf);
    CreatedShape(codec, t, m);
    assert IsConformingFile(t, MainPath()) && IsConformingFile(t, SealPath());
    forall e | e in m.files ensures Matches(codec, u, e) {
      CreatedEntryIsEntry(codec, t, m, e);
      assert e.path != p;
    }
  }

  lemma LeafAt(t: Tree, u: Tree, p: Path, leaf: Tree)
    requires HasOneMore(t, u, p, leaf)
    ensures Lookup(u, p) == Some(leaf)
  {
  }

  // ---------------------------------------------------------------- signing again

  /** Only the contents of the main executable and of the seal may differ. */
  ghost predicate IsResigned(t: Tree, u: Tree)
  {
    forall p ::
      && (IsAt(t, p) <==> IsAt(u, p)) && (IsFileAt(t, p) <==> IsFileAt(u, p)) && (IsDirAt(t, p) <==> IsDirAt(u, p))
      && (IsDirAt(t, p) ==> Lookup(u, p).value.trusted == Lookup(t, p).value.trusted)
      && (IsFileAt(t, p) ==>
            if p == MainPath() || p == SealPath() then
              && Lookup(u, p).value == Lookup(t, p).value.(bytes := Lookup(u, p).value.bytes) && |Lookup(u, p).value.bytes| > 0
            else Lookup(u, p) == Lookup(t, p))
  }

  /** Re-signing keeps an accepted bundle accepted by the same manifest. */
  lemma ResigningIsAccepted(codec: Codec, t: Tree, u: Tree, m: Manifest)
    requires IsAccepted(codec, t, m) && IsResigned(t, u)
    ensures IsAccepted(codec, u, m)
  {
    hide Lookup, Walk, Expected;
    WalkAccepts(t);
    WalkAccepts(u);
    assert IsPlain(u);
    forall p ensures p in Walk(u).value <==> p in Walk(t).value {
      WalkLists(t, p);
      WalkLists(u, p);
    }
    assert Walk(u).value == Walk(t).value;
    ResignedPasses(codec, t, u, m);
    hide PassesEach;
  }

  lemma ResignedPasses(codec: Codec, t: Tree, u: Tree, m: Manifest)
    requires PassesEach(codec, t, m) && IsResigned(t, u)
    ensures PassesEach(codec, u, m)
  {
    FixedDiffer();
    PlacesDiffer();
    hide Payload, FixedPath, MainPath, SealPath, ManifestPath, InfoPath, BundledCorePath, Lookup, IsEntry;
    forall e | e in m.files ensures Matches(codec, u, e) {
      assert Matches(codec, t, e);
      ListedIsNotSealed(codec, m, e);
    }
  }

  lemma ListedIsNotSealed(codec: Codec, m: Manifest, e: Entry)
    requires IsShape(codec, m) && e in m.files
    ensures e.path != MainPath() && e.path != SealPath() && e.path != ManifestPath()
  {
    FixedDiffer();
    PlacesDiffer();
    hide Payload, FixedPath, MainPath, SealPath, ManifestPath, InfoPath, BundledCorePath, IsEntry;
    assert e.role == Application || e.role in FIXED;
  }

  /** Conversely, no accepted bundle has an empty directory. */
  lemma AcceptedHasNoEmptyDir(codec: Codec, t: Tree, m: Manifest)
    requires IsAccepted(codec, t, m)
    ensures HasNoEmptyDir(t)
  {
    AcceptedExactly(codec, t, m);
    ClaimedAreFiles(codec, t, m);
    hide Walk, Lookup, Closure, PassesEach, Expected, Claimed;
    forall p | p != [] && IsDirAt(t, p) ensures exists f :: p < f && IsFileAt(t, f) {
      WalkLists(t, p);
      assert p in DirsOf(t, Walk(t).value);
      ClosureExact(Claimed(m), p);
      var f :| f in Claimed(m) && IsPrefixOf(p, f);
      assert p != f;
    }
  }

  // ---------------------------------------------------------------- the procedure

  function FixedEntries(codec: Codec, t: Tree): (r: seq<Entry>)
    requires forall role | role in FIXED :: IsFileAt(t, FixedPath(role))
    ensures |r| == |FIXED|
  {
    seq(|FIXED|, i requires 0 <= i < |FIXED| =>
      assert FIXED[i] in FIXED;
      EntryFor(codec, t, FixedPath(FIXED[i]), FIXED[i]))
  }

  /** The fixed entries, and those of the application files seen so far. */
  ghost predicate HasListed(codec: Codec, t: Tree, files: seq<Entry>, seen: set<Path>)
  {
    && (forall e :: e in files <==> IsCreatedEntry(codec, t, e) && (e.role == Application ==> e.path in seen))
    && (forall i, j | 0 <= i < j < |files| :: files[i].path != files[j].path)
  }

  lemma FixedListed(codec: Codec, t: Tree)
    requires forall role | role in FIXED :: IsFileAt(t, FixedPath(role))
    ensures HasListed(codec, t, FixedEntries(codec, t), {})
  {
    FixedDiffer();
    hide FixedPath, Payload, ManifestPath, Lookup;
    var files := FixedEntries(codec, t);
    forall e | IsCreatedEntry(codec, t, e) && e.role != Application ensures e in files {
      assert e.role in FIXED;
      var i :| 0 <= i < |FIXED| && FIXED[i] == e.role;
      assert files[i] == e;
    }
    forall e | e in files ensures IsCreatedEntry(codec, t, e) && e.role != Application {
      var i :| 0 <= i < |files| && files[i] == e;
      assert FIXED[i] in FIXED;
    }
    forall i, j | 0 <= i < j < |files| ensures files[i].path != files[j].path {
      assert FIXED[i] in FIXED && FIXED[j] in FIXED && FIXED[i] != FIXED[j];
    }
  }

  lemma ListNext(codec: Codec, t: Tree, files: seq<Entry>, seen: set<Path>, p: Path)
    requires HasListed(codec, t, files, seen) && p !in seen
    ensures !IsListedAsApplication(t, p) ==> HasListed(codec, t, files, seen + {p})
    ensures IsListedAsApplication(t, p) ==> HasListed(codec, t, files + [EntryFor(codec, t, p, Application)], seen + {p})
  {
    FixedDiffer();
    hide FixedPath, Payload, ManifestPath, Lookup;
    if IsListedAsApplication(t, p) {
      var e := EntryFor(codec, t, p, Application);
      var all := files + [e];
      forall f ensures f in all <==> IsCreatedEntry(codec, t, f) && (f.role == Application ==> f.path in seen + {p}) {
        assert f in all <==> f in files || f == e;
      }
      forall i | 0 <= i < |files| ensures files[i].path != p {
        assert files[i] in files;
        assert files[i].role == Application || files[i].role in FIXED;
      }
    }
  }

  /** Lists the fixed files and walks the bundle for the others. */
  method CreateManifest(codec: Codec, t: Tree, coreVersion: string, helperVersion: string) returns (r: Option<Manifest>)
    ensures r.Some? <==> Walk(t).Some? && forall role | role in FIXED :: IsFileAt(t, FixedPath(role))
    ensures r.Some? ==> IsCreated(codec, t, r.value) && r.value.coreVersion == coreVersion && r.value.helperVersion == helperVersion
  {
    hide FixedPath, Payload, ManifestPath, Lookup, Walk, IsCreatedEntry, HasListed, IsListedAsApplication;
    var walked := Walk(t);
    if walked.None? || exists role | role in FIXED :: !IsFileAt(t, FixedPath(role)) {
      return None;
    }
    var files := FixedEntries(codec, t);
    FixedListed(codec, t);
    var left := walked.value;
    assert walked.value - left == {};
    while left != {}
      invariant left <= walked.value && HasListed(codec, t, files, walked.value - left)
      decreases |left|
    {
      var p :| p in left;
      ListNext(codec, t, files, walked.value - left, p);
      assert walked.value - (left - {p}) == (walked.value - left) + {p};
      if IsListedAsApplication(t, p) {
        ApplicationIsFile(t, p);
        files := files + [EntryFor(codec, t, p, Application)];
      }
      left := left - {p};
    }
    assert walked.value - {} == walked.value;
    AllListed(codec, t, files, walked.value);
    return Some(Manifest(coreVersion, helperVersion, files));
  }

  lemma ApplicationIsFile(t: Tree, p: Path)
    requires IsListedAsApplication(t, p)
    ensures IsFileAt(t, p)
  {
  }

  lemma AllListed(codec: Codec, t: Tree, files: seq<Entry>, found: set<Path>)
    requires Walk(t) == Some(found) && HasListed(codec, t, files, found)
    ensures (forall e :: e in files <==> IsCreatedEntry(codec, t, e))
    ensures forall i, j | 0 <= i < j < |files| :: files[i].path != files[j].path
  {
    hide FixedPath, Payload, ManifestPath, Lookup, Walk;
    forall e | IsCreatedEntry(codec, t, e) && e.role == Application ensures e.path in found {
      WalkLists(t, e.path);
    }
  }
}
