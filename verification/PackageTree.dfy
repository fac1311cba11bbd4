/** The application bundle as a directory tree, and the walk that lists it. Paths are lists of components. */
module PackageTree {
  import opened Results

  type Path = seq<string>

  datatype Tree =
    | File(mode: nat, owned: bool, links: nat, bytes: seq<nat>)
    | Dir(trusted: bool, entries: map<string, Tree>)
    | Symlink
    | Special

  /** What the path leads to. */
  function Lookup(t: Tree, p: Path): Option<Tree>
    decreases |p|
  {
    if p == [] then Some(t)
    else if t.Dir? && p[0] in t.entries then Lookup(t.entries[p[0]], p[1..])
    else None
  }

  predicate IsAt(t: Tree, p: Path)
  {
    Lookup(t, p).Some?
  }

  predicate IsFileAt(t: Tree, p: Path)
  {
    Lookup(t, p).Some? && Lookup(t, p).value.File?
  }

  predicate IsDirAt(t: Tree, p: Path)
  {
    Lookup(t, p).Some? && Lookup(t, p).value.Dir?
  }

  /** All paths below, or nothing if there is a link or a special file among them. */
  function Walk(t: Tree): Option<set<Path>>
  {
    match t
    case File(_, _, _, _) => Some({})
    case Dir(_, entries) =>
      if exists name | name in entries :: Walk(entries[name]).None? then None
      else
        Some((set name | name in entries :: [name])
             + (set name, p | name in entries && p in Walk(entries[name]).value :: [name] + p))
    case _ => None
  }

  // ---------------------------------------------------------------- lookups

  lemma {:induction false} LookupConcat(t: Tree, p: Path, q: Path)
    ensures Lookup(t, p + q) == if IsAt(t, p) then Lookup(Lookup(t, p).value, q) else None
    decreases |p|
  {
    if p == [] {
      assert p + q == q;
    } else if t.Dir? && p[0] in t.entries {
      assert (p + q)[1..] == p[1..] + q;
      LookupConcat(t.entries[p[0]], p[1..], q);
    }
  }

  /** Everything above something that exists is a directory. */
  lemma AboveIsDir(t: Tree, p: Path, q: Path)
    requires IsAt(t, q) && p < q
    ensures IsDirAt(t, p)
  {
    assert q == p + q[|p|..];
    LookupConcat(t, p, q[|p|..]);
  }

  /** Only regular files and directories. */
  ghost predicate IsPlain(t: Tree)
  {
    forall p | IsAt(t, p) :: IsFileAt(t, p) || IsDirAt(t, p)
  }

  lemma LookupBelow(t: Tree, name: string, p: Path)
    requires t.Dir?
    ensures Lookup(t, [name] + p) == if name in t.entries then Lookup(t.entries[name], p) else None
  {
    assert ([name] + p)[1..] == p;
  }

  lemma PlainBelow(t: Tree, name: string)
    requires t.Dir? && name in t.entries && IsPlain(t)
    ensures IsPlain(t.entries[name])
  {
    forall p | IsAt(t.entries[name], p) ensures IsFileAt(t.entries[name], p) || IsDirAt(t.entries[name], p) {
      LookupBelow(t, name, p);
      assert IsAt(t, [name] + p);
    }
  }

  /** The walk succeeds exactly on plain trees. */
  lemma {:induction false} WalkAccepts(t: Tree)
    ensures Walk(t).Some? <==> IsPlain(t)
    decreases t
  {
    match t
    case File(_, _, _, _) =>
      assert forall p :: IsAt(t, p) ==> p == [];
    case Dir(_, entries) =>
      forall name | name in entries ensures Walk(entries[name]).Some? <==> IsPlain(entries[name]) {
        WalkAccepts(entries[name]);
      }
      if IsPlain(t) {
        forall name | name in entries ensures Walk(entries[name]).Some? {
          PlainBelow(t, name);
        }
      } else {
        var p :| IsAt(t, p) && !IsFileAt(t, p) && !IsDirAt(t, p);
        assert p != [];
        LookupBelow(t, p[0], p[1..]);
        assert p == [p[0]] + p[1..];
        var below := entries[p[0]];
        assert IsAt(below, p[1..]) && !IsFileAt(below, p[1..]) && !IsDirAt(below, p[1..]);
        assert !IsPlain(below);
      }
    case _ =>
      assert IsAt(t, []);
  }

  /** And it lists exactly the paths that exist. */
  lemma {:induction false} WalkLists(t: Tree, p: Path)
    requires Walk(t).Some?
    ensures p in Walk(t).value <==> p != [] && IsAt(t, p)
    decreases |p|
  {
    if t.Dir? {
      var names := set name | name in t.entries :: [name];
      var deeper := set name, q | name in t.entries && q in Walk(t.entries[name]).value :: [name] + q;
      if p in names {
        LookupBelow(t, p[0], []);
        assert [p[0]] + [] == p;
      } else if p in deeper {
        var name, q :| name in t.entries && q in Walk(t.entries[name]).value && p == [name] + q;
        WalkLists(t.entries[name], q);
        LookupBelow(t, name, q);
      }
      if p != [] && IsAt(t, p) {
        var name, q := p[0], p[1..];
        assert p == [name] + q;
        LookupBelow(t, name, q);
        if q == [] {
          assert p == [name];
          assert [name] in names;
        } else {
          WalkLists(t.entries[name], q);
          assert p in deeper;
        }
      }
    }
  }

  // ---------------------------------------------------------------- ancestors

  /** The path and everything above it, down to its first component. */
  function Prefixes(p: Path): set<Path>
  {
    set i | 1 <= i <= |p| :: p[..i]
  }

  ghost predicate IsPrefixOf(p: Path, q: Path)
  {
    p != [] && p <= q
  }

  lemma PrefixesExact(p: Path, q: Path)
    ensures q in Prefixes(p) <==> IsPrefixOf(q, p)
  {
    if IsPrefixOf(q, p) {
      assert q == p[..|q|];
    }
  }

  /** The nonempty prefixes of all members. */
  function Closure(paths: set<Path>): set<Path>
  {
    set p, q | p in paths && q in Prefixes(p) :: q
  }

  lemma ClosureExact(paths: set<Path>, q: Path)
    ensures q in Closure(paths) <==> exists p | p in paths :: IsPrefixOf(q, p)
  {
    hide Prefixes, IsPrefixOf;
    forall p | p in paths ensures q in Prefixes(p) <==> IsPrefixOf(q, p) {
      PrefixesExact(p, q);
    }
    if q in Closure(paths) {
      var p :| p in paths && q in Prefixes(p);
      assert IsPrefixOf(q, p);
    }
  }

  // ---------------------------------------------------------------- files and directories of a tree

  function FilesOf(t: Tree, found: set<Path>): set<Path>
  {
    set p | p in found && IsFileAt(t, p)
  }

  function DirsOf(t: Tree, found: set<Path>): set<Path>
  {
    set p | p in found && IsDirAt(t, p)
  }

  /** Everything strictly above a member. */
  function Above(paths: set<Path>): set<Path>
  {
    Closure(paths) - paths
  }

  /** No member lies below another. */
  ghost predicate AreLeaves(paths: set<Path>)
  {
    forall p, q | p in paths && q in paths && p <= q :: p == q
  }

  lemma FilesAreLeaves(t: Tree, paths: set<Path>)
    requires forall p | p in paths :: IsFileAt(t, p)
    ensures AreLeaves(paths)
  {
    forall p, q | p in paths && q in paths && p <= q ensures p == q {
      if p != q {
        AboveIsDir(t, p, q);
      }
    }
  }

  /**
    Closed world: when the claimed files exist as files, the walk lists nothing but them and what is
    above them exactly if they are all the files there are and the directories are just those above.
   */
  lemma ClosedWorld(t: Tree, found: set<Path>, claimed: set<Path>)
    requires Walk(t) == Some(found) && [] !in claimed
    requires forall p | p in claimed :: IsFileAt(t, p)
    ensures found == Closure(claimed) <==> FilesOf(t, found) == claimed && DirsOf(t, found) == Above(claimed)
  {
    hide Walk, Lookup, Closure;
    FilesAreLeaves(t, claimed);
    WalkAccepts(t);
    forall p ensures p in found <==> p != [] && IsAt(t, p) {
      WalkLists(t, p);
    }
    forall q ensures q in Closure(claimed) <==> exists p | p in claimed :: IsPrefixOf(q, p) {
      ClosureExact(claimed, q);
    }
    forall p | p in claimed ensures p in Closure(claimed) {
      assert IsPrefixOf(p, p);
    }
    assert found == FilesOf(t, found) + DirsOf(t, found);
    forall q | q in Closure(claimed) ensures q in claimed || IsDirAt(t, q) {
      var p :| p in claimed && IsPrefixOf(q, p);
      if p != q {
        AboveIsDir(t, q, p);
      }
    }
    assert claimed <= FilesOf(t, found);
    assert claimed !! DirsOf(t, found);
  }
}
