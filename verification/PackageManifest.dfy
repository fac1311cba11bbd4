/** The closed-world manifest of the internal package: creating it, and verifying a bundle against it. */
module PackageManifest {
  import opened Results
  import opened PackageTree
  import Checksums

  datatype Role = Application | Controller | Core | Helper | Template

  datatype Entry = Entry(mode: nat, path: Path, role: Role, sha256: string, size: nat)

  datatype Manifest = Manifest(coreVersion: string, helperVersion: string, files: seq<Entry>)

  /** The digest, the manifest's printed form, and the rules for version texts. */
  datatype Codec = Codec(sha: seq<nat> -> string, encode: Manifest -> seq<nat>, parse: seq<nat> -> Option<Manifest>,
                         isCoreVersion: string -> bool, isHelperVersion: string -> bool)

  const MANIFEST_LIMIT := 1024 * 1024
  const FILE_LIMIT := 256 * 1024 * 1024

  // ---------------------------------------------------------------- fixed places

  function Payload(): Path
  {
    ["Contents", "Resources", "internal-tun-alpha"]
  }

  function FixedName(role: Role): string
    requires role != Application
  {
    match role
    case Controller => "mish-internal-tun-alpha-ctl"
    case Template => "com.asuka109.mish.tun-helper.dev.plist.template"
    case Core => "mihomo"
    case Helper => "mish-tun-helper"
  }

  function FixedPath(role: Role): Path
    requires role != Application
  {
    Payload() + [FixedName(role)]
  }

  const EXECUTABLE: nat := 493
  const PLAIN: nat := 420

  function FixedMode(role: Role): nat
  {
    if role == Template then PLAIN else EXECUTABLE
  }

  const FIXED: seq<Role> := [Controller, Template, Core, Helper]

  function ManifestPath(): Path
  {
    Payload() + ["internal-tun-alpha-manifest.json"]
  }

  function MainPath(): Path
  {
    ["Contents", "MacOS", "mish-desktop"]
  }

  function SealPath(): Path
  {
    ["Contents", "_CodeSignature", "CodeResources"]
  }

  function InfoPath(): Path
  {
    ["Contents", "Info.plist"]
  }

  function BundledCorePath(): Path
  {
    ["Contents", "Resources", "mihomo-aarch64-apple-darwin"]
  }

  /** Files the application's own seal covers or that describe the package; the manifest lists neither. */
  function Outside(): set<Path>
  {
    {SealPath(), MainPath(), ManifestPath()}
  }

  // ---------------------------------------------------------------- the manifest's shape

  predicate IsSafePath(p: Path)
  {
    p != [] && forall c | c in p :: c != "" && c != "." && c != ".."
  }

  predicate IsEntry(e: Entry)
  {
    && IsSafePath(e.path) && Checksums.IsDigest(e.sha256)
    && (e.mode == PLAIN || e.mode == EXECUTABLE) && 0 < e.size <= FILE_LIMIT
  }

  predicate IsApplicationPath(p: Path)
  {
    && ["Contents"] < p && p != SealPath() && p != MainPath() && !(Payload() < p)
  }

  function PathsOf(files: seq<Entry>): set<Path>
  {
    set e | e in files :: e.path
  }

  predicate IsShape(codec: Codec, m: Manifest)
  {
    && codec.isCoreVersion(m.coreVersion) && codec.isHelperVersion(m.helperVersion)
    && (forall e | e in m.files :: IsEntry(e))
    && (forall i, j | 0 <= i < j < |m.files| :: m.files[i].path != m.files[j].path)
    && (forall role | role in FIXED :: exists e | e in m.files :: e.path == FixedPath(role) && e.role == role && e.mode == FixedMode(role))
    && (forall e | e in m.files :: e.role == Application || e.path == FixedPath(e.role))
    && (forall e | e in m.files && e.role == Application :: IsApplicationPath(e.path))
    && (exists e | e in m.files :: e.role == Application && e.path == InfoPath())
    && (exists e | e in m.files :: e.role == Application && e.path == BundledCorePath())
  }

  // ---------------------------------------------------------------- verifying a bundle

  predicate HasFile(t: Tree, p: Path, mode: nat)
  {
    && IsFileAt(t, p)
    && var f := Lookup(t, p).value;
    f.owned && f.links == 1 && f.mode == mode && |f.bytes| > 0
  }

  predicate Matches(codec: Codec, t: Tree, e: Entry)
  {
    && HasFile(t, e.path, e.mode)
    && var f := Lookup(t, e.path).value;
    |f.bytes| == e.size && codec.sha(f.bytes) == e.sha256
  }

  /** The paths a bundle with these files must consist of. */
  function Expected(files: seq<Entry>): set<Path>
  {
    {SealPath(), MainPath(), MainPath()[..2], SealPath()[..2], ManifestPath()} + Closure(PathsOf(files))
  }

  /** The checks file by file, and of the directories' owners. */
  ghost predicate PassesEach(codec: Codec, t: Tree, m: Manifest)
  {
    && HasFile(t, MainPath(), EXECUTABLE)
    && HasFile(t, ManifestPath(), PLAIN) && |Lookup(t, ManifestPath()).value.bytes| <= MANIFEST_LIMIT
    && codec.parse(Lookup(t, ManifestPath()).value.bytes) == Some(m) && IsShape(codec, m)
    && (forall e | e in m.files :: Matches(codec, t, e))
    && HasFile(t, SealPath(), PLAIN)
    && (forall p | p != [] && IsDirAt(t, p) :: Lookup(t, p).value.trusted)
  }

  /** Everything but the native signature checks and the template's placeholders. */
  ghost predicate IsAccepted(codec: Codec, t: Tree, m: Manifest)
  {
    PassesEach(codec, t, m) && Walk(t) == Some(Expected(m.files))
  }

  // ---------------------------------------------------------------- what acceptance means

  function Claimed(m: Manifest): set<Path>
  {
    PathsOf(m.files) + Outside()
  }

  lemma PathIn(files: seq<Entry>, e: Entry)
    requires e in files
    ensures e.path in PathsOf(files)
  {
  }

  lemma FixedPrefixes()
    ensures IsPrefixOf(["Contents"], InfoPath()) && IsPrefixOf(Payload(), FixedPath(Core))
    ensures IsPrefixOf(Payload()[..2], FixedPath(Core))
    ensures ManifestPath()[..3] == Payload() && ManifestPath()[..2] == Payload()[..2] && ManifestPath()[..1] == ["Contents"]
    ensures MainPath()[..1] == ["Contents"] && SealPath()[..1] == ["Contents"]
    ensures |MainPath()| == 3 && |SealPath()| == 3 && |ManifestPath()| == 4
  {
  }

  lemma FixedIsListed(codec: Codec, m: Manifest, role: Role)
    requires IsShape(codec, m) && role in FIXED
    ensures FixedPath(role) in PathsOf(m.files)
  {
    hide FixedPath, IsEntry, IsApplicationPath;
    var e :| e in m.files && e.path == FixedPath(role) && e.role == role && e.mode == FixedMode(role);
  }

  lemma InfoIsListed(codec: Codec, m: Manifest)
    requires IsShape(codec, m)
    ensures InfoPath() in PathsOf(m.files)
  {
    hide FixedPath, IsEntry, IsApplicationPath, InfoPath;
    var e :| e in m.files && e.role == Application && e.path == InfoPath();
  }

  lemma ClosureUnion(a: set<Path>, b: set<Path>)
    ensures Closure(a + b) == Closure(a) + Closure(b)
  {
    hide Prefixes;
  }

  lemma OutsideClosure()
    ensures Closure(Outside())
            == {["Contents"], MainPath()[..2], MainPath(), SealPath()[..2], SealPath(), Payload()[..2], Payload(), ManifestPath()}
  {
    hide MainPath, SealPath, ManifestPath, Payload, Closure;
    FixedPrefixes();
    var all := {["Contents"], MainPath()[..2], MainPath(), SealPath()[..2], SealPath(), Payload()[..2], Payload(), ManifestPath()};
    forall q ensures q in Closure(Outside()) <==> q in all {
      ClosureExact(Outside(), q);
      OutsidePrefixes(q);
    }
  }

  lemma ListedClosure(codec: Codec, m: Manifest)
    requires IsShape(codec, m)
    ensures {["Contents"], Payload()[..2], Payload()} <= Closure(PathsOf(m.files))
  {
    FixedIsListed(codec, m, Core);
    InfoIsListed(codec, m);
    FixedPrefixes();
    hide IsShape, FixedPath, InfoPath, Payload, ManifestPath, MainPath, SealPath, Closure, PathsOf;
    ClosureExact(PathsOf(m.files), ["Contents"]);
    ClosureExact(PathsOf(m.files), Payload());
    ClosureExact(PathsOf(m.files), Payload()[..2]);
  }

  /** The directories named one by one are the ones above the files the manifest does not list. */
  lemma ExpectedIsClosure(codec: Codec, m: Manifest)
    requires IsShape(codec, m)
    ensures Expected(m.files) == Closure(Claimed(m))
  {
    FixedPrefixes();
    hide IsShape, Payload, ManifestPath, MainPath, SealPath, Closure, PathsOf, Outside;
    ClosureUnion(PathsOf(m.files), Outside());
    OutsideClosure();
    ListedClosure(codec, m);
  }

  lemma OutsidePrefixes(q: Path)
    ensures IsPrefixOf(q, MainPath()) <==> q in {["Contents"], MainPath()[..2], MainPath()}
    ensures IsPrefixOf(q, SealPath()) <==> q in {["Contents"], SealPath()[..2], SealPath()}
    ensures IsPrefixOf(q, ManifestPath()) <==> q in {["Contents"], Payload()[..2], Payload(), ManifestPath()}
  {
    FixedPrefixes();
    hide MainPath, SealPath, ManifestPath, Payload;
    PrefixOfThree(q, MainPath());
    PrefixOfThree(q, SealPath());
    PrefixOfFour(q, ManifestPath());
  }

  lemma PrefixOfThree(q: Path, p: Path)
    requires |p| == 3
    ensures IsPrefixOf(q, p) <==> q in {p[..1], p[..2], p}
  {
    assert p[..3] == p;
    if IsPrefixOf(q, p) {
      assert q == p[..|q|];
    }
  }

  lemma PrefixOfFour(q: Path, p: Path)
    requires |p| == 4
    ensures IsPrefixOf(q, p) <==> q in {p[..1], p[..2], p[..3], p}
  {
    assert p[..4] == p;
    if IsPrefixOf(q, p) {
      assert q == p[..|q|];
    }
  }

  /**
    Closed world: a bundle whose files pass their checks is accepted exactly if its files are the
    manifest's, the main executable, the seal and the manifest, and its directories are those above them.
   */
  lemma AcceptedExactly(codec: Codec, t: Tree, m: Manifest)
    requires PassesEach(codec, t, m)
    ensures IsAccepted(codec, t, m) <==>
              && Walk(t).Some?
              && FilesOf(t, Walk(t).value) == Claimed(m) && DirsOf(t, Walk(t).value) == Above(Claimed(m))
  {
    ExpectedIsClosure(codec, m);
    ClaimedAreFiles(codec, t, m);
    hide IsShape, Walk, Expected, Claimed, FilesOf, DirsOf, Above, PassesEach;
    if Walk(t).Some? {
      ClosedWorld(t, Walk(t).value, Claimed(m));
    }
  }

  lemma ClaimedAreFiles(codec: Codec, t: Tree, m: Manifest)
    requires PassesEach(codec, t, m)
    ensures [] !in Claimed(m) && forall p | p in Claimed(m) :: IsFileAt(t, p)
  {
    FixedPrefixes();
    hide FixedPath, InfoPath, Payload, ManifestPath, MainPath, SealPath, Lookup, IsApplicationPath;
    forall p | p in Claimed(m) ensures p != [] && IsFileAt(t, p) {
      if p in PathsOf(m.files) {
        var e :| e in m.files && e.path == p;
        assert IsEntry(e) && Matches(codec, t, e);
      }
    }
  }

  // ---------------------------------------------------------------- the loop

  lemma ParentsLeft(p: Path, parent: Path)
    requires parent != [] && parent <= p
    ensures parent in Prefixes(p) && Prefixes(parent) == Prefixes(parent[..|parent| - 1]) + {parent}
  {
    hide Prefixes;
    var up := parent[..|parent| - 1];
    PrefixesExact(p, parent);
    forall q ensures q in Prefixes(parent) <==> q in Prefixes(up) + {parent} {
      PrefixesExact(parent, q);
      PrefixesExact(up, q);
      assert q <= parent <==> q <= up || q == parent by {
        assert parent == up + [parent[|parent| - 1]];
        assert q <= parent && |q| == |parent| ==> q == parent;
      }
    }
  }

  method AddAncestors(expected: set<Path>, path: Path) returns (r: set<Path>)
    requires path != []
    ensures r == expected + Prefixes(path)
  {
    hide Prefixes;
    r := expected + {path};
    var parent := path[..|path| - 1];
    ParentsLeft(path, path);
    while parent != []
      invariant parent <= path && r + Prefixes(parent) == expected + Prefixes(path)
      decreases |parent|
    {
      ParentsLeft(path, parent);
      r := r + {parent};
      parent := parent[..|parent| - 1];
    }
    NoPrefixes();
  }

  lemma NoPrefixes()
    ensures Prefixes([]) == {}
  {
  }

  /** The set the verifier grows file by file. */
  method ExpectedPaths(files: seq<Entry>) returns (expected: set<Path>)
    requires forall e | e in files :: IsSafePath(e.path)
    ensures expected == Expected(files)
  {
    hide Prefixes, SealPath, MainPath, ManifestPath;
    FixedPrefixes();
    ghost var start := {SealPath(), MainPath(), MainPath()[..2], SealPath()[..2], ManifestPath()};
    expected := {SealPath(), MainPath(), MainPath()[..2], SealPath()[..2], ManifestPath()};
    assert PathsOf(files[..0]) == {};
    for i := 0 to |files|
      invariant expected == start + Closure(PathsOf(files[..i]))
    {
      assert files[i] in files;
      assert files[..i + 1] == files[..i] + [files[i]];
      assert PathsOf(files[..i + 1]) == PathsOf(files[..i]) + {files[i].path};
      ClosureUnion(PathsOf(files[..i]), {files[i].path});
      assert Closure({files[i].path}) == Prefixes(files[i].path);
      expected := AddAncestors(expected, files[i].path);
    }
    assert files[..|files|] == files;
  }
}
