/**
  Removing temporary signing material. Every observation and every command may turn out any way;
  the host keeps what happened, in order.
 */
module SigningCleanup {
  import opened Results

  datatype Place = Root | SearchList | Keychain | Certificate | NotaryKey | Mount

  /** The commands and checks of a protected signing run. */
  datatype Task =
    | CheckBoundary | CheckCredentials | PrepareOutput | CheckScratch
    | ImportIdentity | VerifyIdentity | BuildBundle | VerifyBundle | CreateDistribution | Notarize
    | Staple | ValidateTicket | AssessCode | AssessDistribution | GenerateSbom | WriteEvidence
    | RestoreSearchList | LockKeychain | DeleteKeychain | Detach

  datatype Effect =
    | Seen(place: Place, present: bool)
    | Ran(task: Task, ok: bool)
    | Removed(place: Place, ok: bool)

  class Host {
    ghost var log: seq<Effect>

    method Exists(place: Place) returns (present: bool)
      modifies this
      ensures log == old(log) + [Seen(place, present)]
    {
      present := *;
      log := log + [Seen(place, present)];
    }

    method Run(task: Task) returns (ok: bool)
      modifies this
      ensures log == old(log) + [Ran(task, ok)]
    {
      ok := *;
      log := log + [Ran(task, ok)];
    }

    method Remove(place: Place) returns (ok: bool)
      modifies this
      ensures log == old(log) + [Removed(place, ok)]
    {
      ok := *;
      log := log + [Removed(place, ok)];
    }
  }

  // ---------------------------------------------------------------- what a cleanup must have done

  predicate IsFailure(e: Effect)
  {
    !e.Seen? && !e.ok
  }

  predicate AllSucceeded(log: seq<Effect>)
  {
    forall e | e in log :: !IsFailure(e)
  }

  /** The places whose removal was attempted, in order. */
  function Attempts(log: seq<Effect>): seq<Place>
  {
    if log == [] then []
    else
      var rest, last := Attempts(log[..|log| - 1]), log[|log| - 1];
      if last.Removed? then rest + [last.place] else rest
  }

  lemma {:induction false} AttemptsConcat(a: seq<Effect>, b: seq<Effect>)
    ensures Attempts(a + b) == Attempts(a) + Attempts(b)
    decreases |b|
  {
    if b == [] {
      assert a + b == a;
    } else {
      AttemptsConcat(a, b[..|b| - 1]);
      assert (a + b)[..|a + b| - 1] == a + b[..|b| - 1];
    }
  }

  lemma {:induction false} NoAttempts(log: seq<Effect>)
    requires forall e | e in log :: !e.Removed?
    ensures Attempts(log) == []
    decreases |log|
  {
    if log != [] {
      assert log[|log| - 1] in log;
      NoAttempts(log[..|log| - 1]);
    }
  }

  datatype CleanupError = UnsafePath | RestorationFailed | CleanupFailed

  type Cleaned = Result<(), CleanupError>

  const SENSITIVE: seq<Place> := [Certificate, Keychain, NotaryKey, SearchList]

  // ---------------------------------------------------------------- a cleanup, as the host's answers shape it

  /** Everything the host may answer once the scratch root exists. */
  datatype Answers = Answers(searchSeen: bool, restored: bool, keychainSeen: bool, locked: bool, deleted: bool,
                             removals: seq<bool>, mountSeen: bool, detached: bool, rootRemoved: bool)

  function SearchPart(a: Answers): seq<Effect>
  {
    if a.searchSeen then [Seen(SearchList, true), Ran(RestoreSearchList, a.restored)] else [Seen(SearchList, false)]
  }

  function KeychainPart(a: Answers): seq<Effect>
  {
    if a.keychainSeen then [Seen(Keychain, true), Ran(LockKeychain, a.locked), Ran(DeleteKeychain, a.deleted)]
    else [Seen(Keychain, false)]
  }

  function RemovalPart(places: seq<Place>, oks: seq<bool>): (r: seq<Effect>)
    requires |oks| == |places|
    ensures |r| == |oks|
  {
    seq(|oks|, i requires 0 <= i < |oks| => Removed(places[i], oks[i]))
  }

  function MountPart(a: Answers): seq<Effect>
  {
    if a.mountSeen then [Seen(Mount, true), Ran(Detach, a.detached)] else [Seen(Mount, false)]
  }

  function Parts(a: Answers): seq<Effect>
    requires |a.removals| == |SENSITIVE|
  {
    SearchPart(a) + KeychainPart(a) + RemovalPart(SENSITIVE, a.removals) + MountPart(a) + [Removed(Root, a.rootRemoved)]
  }

  predicate FailsToRestore(a: Answers)
  {
    a.searchSeen && !a.restored
  }

  predicate FailsToClean(a: Answers)
  {
    || (a.keychainSeen && !(a.locked && a.deleted)) || false in a.removals
    || (a.mountSeen && !a.detached) || !a.rootRemoved
  }

  /** With the root there: every part in order, whatever fails; the root is looked at again only if nothing did. */
  ghost predicate IsFullCleanup(log: seq<Effect>, a: Answers, r: Cleaned)
  {
    && |a.removals| == |SENSITIVE|
    && var body := [Ran(CheckScratch, true), Seen(Root, true)] + Parts(a);
    if FailsToRestore(a) then log == body && r == Err(RestorationFailed)
    else if FailsToClean(a) then log == body && r == Err(CleanupFailed)
    else || (log == body + [Seen(Root, true)] && r == Err(CleanupFailed))
         || (log == body + [Seen(Root, false)] && r == Ok(()))
  }

  ghost predicate IsCleanup(log: seq<Effect>, r: Cleaned)
  {
    || (log == [Ran(CheckScratch, false)] && r == Err(UnsafePath))
    || (log == [Ran(CheckScratch, true), Seen(Root, false)] && r == Ok(()))
    || exists a :: IsFullCleanup(log, a, r)
  }

  method RemoveSensitive(host: Host) returns (failed: bool, ghost removals: seq<bool>)
    modifies host
    ensures |removals| == |SENSITIVE| && host.log == old(host.log) + RemovalPart(SENSITIVE, removals)
    ensures failed <==> false in removals
  {
    removals := [];
    failed := false;
    for i := 0 to |SENSITIVE|
      invariant |removals| == i && host.log == old(host.log) + RemovalPart(SENSITIVE[..i], removals)
      invariant failed <==> false in removals
    {
      var ok := host.Remove(SENSITIVE[i]);
      assert RemovalPart(SENSITIVE[..i + 1], removals + [ok]) == RemovalPart(SENSITIVE[..i], removals) + [Removed(SENSITIVE[i], ok)];
      removals := removals + [ok];
      failed := failed || !ok;
    }
    assert SENSITIVE[..|SENSITIVE|] == SENSITIVE;
  }

  /** Runs one command for a thing that is seen; a command that throws counts as failed. */
  method RunIfSeen(host: Host, place: Place, task: Task) returns (failed: bool, ghost seen: bool, ghost ok: bool)
    modifies host
    ensures host.log == old(host.log) + (if seen then [Seen(place, true), Ran(task, ok)] else [Seen(place, false)])
    ensures failed == (seen && !ok)
  {
    failed := false;
    ok := true;
    var present := host.Exists(place);
    seen := present;
    if present {
      var done := host.Run(task);
      ok := done;
      failed := !done;
    }
  }

  method DropKeychain(host: Host) returns (failed: bool, ghost seen: bool, ghost locked: bool, ghost deleted: bool)
    modifies host
    ensures host.log == old(host.log) + (if seen then [Seen(Keychain, true), Ran(LockKeychain, locked), Ran(DeleteKeychain, deleted)]
                                         else [Seen(Keychain, false)])
    ensures failed == (seen && !(locked && deleted))
  {
    failed := false;
    locked, deleted := true, true;
    var present := host.Exists(Keychain);
    seen := present;
    if present {
      var lock := host.Run(LockKeychain);
      var drop := host.Run(DeleteKeychain);
      locked, deleted := lock, drop;
      failed := !lock || !drop;
    }
  }

  /** Everything between the first and the last look at the root. */
  method CleanParts(host: Host) returns (restorationFailed: bool, cleanupFailed: bool, ghost a: Answers)
    modifies host
    ensures |a.removals| == |SENSITIVE| && host.log == old(host.log) + Parts(a)
    ensures restorationFailed == FailsToRestore(a) && cleanupFailed == FailsToClean(a)
  {
    hide RemovalPart;
    ghost var searchSeen, restored, keychainSeen, locked, deleted, removals, mountSeen, detached;
    var keychainFailed, removalFailed, mountFailed;
    ghost var start := host.log;
    restorationFailed, searchSeen, restored := RunIfSeen(host, SearchList, RestoreSearchList);
    keychainFailed, keychainSeen, locked, deleted := DropKeychain(host);
    removalFailed, removals := RemoveSensitive(host);
    mountFailed, mountSeen, detached := RunIfSeen(host, Mount, Detach);
    var removed := host.Remove(Root);
    cleanupFailed := keychainFailed || removalFailed || mountFailed || !removed;
    a := Answers(searchSeen, restored, keychainSeen, locked, deleted, removals, mountSeen, detached, removed);
    hide SearchPart, KeychainPart, MountPart;
    Regroup(start, SearchPart(a), KeychainPart(a), RemovalPart(SENSITIVE, removals), MountPart(a), [Removed(Root, removed)]);
  }

  lemma Regroup(start: seq<Effect>, a: seq<Effect>, b: seq<Effect>, c: seq<Effect>, d: seq<Effect>, e: seq<Effect>)
    ensures start + a + b + c + d + e == start + (a + b + c + d + e)
  {
  }

  method CleanupSigningMaterials(host: Host) returns (r: Cleaned, ghost log: seq<Effect>)
    modifies host
    ensures host.log == old(host.log) + log && IsCleanup(log, r)
  {
    hide Parts, FailsToRestore, FailsToClean;
    var safe := host.Run(CheckScratch);
    log := [Ran(CheckScratch, safe)];
    if !safe {
      return Err(UnsafePath), log;
    }
    var present := host.Exists(Root);
    log := [Ran(CheckScratch, true), Seen(Root, present)];
    if !present {
      return Ok(()), log;
    }
    var restorationFailed, cleanupFailed;
    ghost var a;
    restorationFailed, cleanupFailed, a := CleanParts(host);
    log := log + Parts(a);
    if restorationFailed {
      r := Err(RestorationFailed);
    } else if cleanupFailed {
      r := Err(CleanupFailed);
    } else {
      var left := host.Exists(Root);
      log := log + [Seen(Root, left)];
      r := if left then Err(CleanupFailed) else Ok(());
    }
    assert IsFullCleanup(log, a, r);
  }

  // ---------------------------------------------------------------- what every cleanup has done

  /** The removals of a part, and whether any of it failed. */
  ghost predicate IsPart(part: seq<Effect>, places: seq<Place>, failed: bool)
  {
    Attempts(part) == places && (failed <==> !AllSucceeded(part))
  }

  lemma PartsJoin(a: seq<Effect>, b: seq<Effect>, p: seq<Place>, q: seq<Place>, f: bool, g: bool)
    requires IsPart(a, p, f) && IsPart(b, q, g)
    ensures IsPart(a + b, p + q, f || g)
  {
    AttemptsConcat(a, b);
    hide Attempts;
    if !AllSucceeded(a) {
      var e :| e in a && IsFailure(e);
      assert e in a + b;
    }
    if !AllSucceeded(b) {
      var e :| e in b && IsFailure(e);
      assert e in a + b;
    }
  }

  lemma SearchAttempts(a: Answers)
    ensures IsPart(SearchPart(a), [], FailsToRestore(a))
  {
    NoAttempts(SearchPart(a));
    assert a.searchSeen ==> SearchPart(a)[1] in SearchPart(a);
  }

  lemma KeychainAttempts(a: Answers)
    ensures IsPart(KeychainPart(a), [], a.keychainSeen && !(a.locked && a.deleted))
  {
    NoAttempts(KeychainPart(a));
    assert a.keychainSeen ==> KeychainPart(a)[1] in KeychainPart(a) && KeychainPart(a)[2] in KeychainPart(a);
  }

  lemma MountAttempts(a: Answers)
    ensures IsPart(MountPart(a), [], a.mountSeen && !a.detached)
  {
    NoAttempts(MountPart(a));
    assert a.mountSeen ==> MountPart(a)[1] in MountPart(a);
  }

  lemma RemovedPart(place: Place, ok: bool)
    ensures IsPart([Removed(place, ok)], [place], !ok)
  {
    var part := [Removed(place, ok)];
    assert part[0] in part && part[..0] == [];
  }

  lemma {:induction false} RemovalAttempts(places: seq<Place>, oks: seq<bool>)
    requires |oks| == |places|
    ensures IsPart(RemovalPart(places, oks), places, false in oks)
    decreases |oks|
  {
    if oks == [] {
      assert RemovalPart(places, oks) == [];
    } else {
      var n := |oks| - 1;
      RemovalAttempts(places[..n], oks[..n]);
      RemovedPart(places[n], oks[n]);
      PartsJoin(RemovalPart(places[..n], oks[..n]), [Removed(places[n], oks[n])], places[..n], [places[n]], false in oks[..n], !oks[n]);
      assert RemovalPart(places, oks) == RemovalPart(places[..n], oks[..n]) + [Removed(places[n], oks[n])];
      assert places == places[..n] + [places[n]] && oks == oks[..n] + [oks[n]];
    }
  }

  lemma PartsAttempt(a: Answers)
    requires |a.removals| == |SENSITIVE|
    ensures IsPart(Parts(a), SENSITIVE + [Root], FailsToRestore(a) || FailsToClean(a))
  {
    hide IsPart, SearchPart, KeychainPart, RemovalPart, MountPart;
    SearchAttempts(a);
    KeychainAttempts(a);
    RemovalAttempts(SENSITIVE, a.removals);
    MountAttempts(a);
    RemovedPart(Root, a.rootRemoved);
    var s, k, d, m := SearchPart(a), KeychainPart(a), RemovalPart(SENSITIVE, a.removals), MountPart(a);
    var f, g := FailsToRestore(a), a.keychainSeen && !(a.locked && a.deleted);
    var h, i := false in a.removals, a.mountSeen && !a.detached;
    PartsJoin(s, k, [], [], f, g);
    PartsJoin(s + k, d, [] + [], SENSITIVE, f || g, h);
    assert [] + [] + SENSITIVE == SENSITIVE;
    PartsJoin(s + k + d, m, SENSITIVE, [], f || g || h, i);
    assert SENSITIVE + [] == SENSITIVE;
    PartsJoin(s + k + d + m, [Removed(Root, a.rootRemoved)], SENSITIVE, [Root], f || g || h || i, !a.rootRemoved);
  }

  lemma LooksChangeNothing(head: seq<Effect>, body: seq<Effect>, tail: seq<Effect>, places: seq<Place>, failed: bool)
    requires IsPart(body, places, failed)
    requires head == [Ran(CheckScratch, true), Seen(Root, true)] && (tail == [] || exists p :: tail == [Seen(Root, p)])
    ensures IsPart(head + body + tail, places, failed)
  {
    NoAttempts(head);
    NoAttempts(tail);
    assert IsPart(head, [], false) && IsPart(tail, [], false);
    hide IsPart;
    PartsJoin(head, body, [], places, false, failed);
    PartsJoin(head + body, tail, [] + places, [], failed, false);
    assert [] + places + [] == places;
  }

  /**
    Once the root is found, all four sensitive files and then the root are attempted whatever fails;
    a normal return means exactly that nothing failed and the root was seen to be gone.
   */
  lemma CleanupIsThorough(log: seq<Effect>, r: Cleaned)
    requires IsCleanup(log, r) && |log| > 2
    ensures Attempts(log) == SENSITIVE + [Root]
    ensures r.Ok? <==> AllSucceeded(log) && log[|log| - 1] == Seen(Root, false)
  {
    hide Parts, FailsToRestore, FailsToClean, Attempts, AllSucceeded;
    var a :| IsFullCleanup(log, a, r);
    var head := [Ran(CheckScratch, true), Seen(Root, true)];
    var failed := FailsToRestore(a) || FailsToClean(a);
    PartsAttempt(a);
    LooksChangeNothing(head, Parts(a), [], SENSITIVE + [Root], failed);
    assert head + Parts(a) + [] == head + Parts(a);
    LooksChangeNothing(head, Parts(a), [Seen(Root, r.Err?)], SENSITIVE + [Root], failed);
  }

  predicate IsCleaning(e: Effect)
  {
    e.Ran? ==> e.task in {CheckScratch, RestoreSearchList, LockKeychain, DeleteKeychain, Detach}
  }

  lemma PartsOnlyClean(a: Answers)
    requires |a.removals| == |SENSITIVE|
    ensures forall e | e in Parts(a) :: IsCleaning(e)
  {
    assert forall e | e in SearchPart(a) :: IsCleaning(e);
    assert forall e | e in KeychainPart(a) :: IsCleaning(e);
    assert forall e | e in RemovalPart(SENSITIVE, a.removals) :: IsCleaning(e);
    assert forall e | e in MountPart(a) :: IsCleaning(e);
    hide SearchPart, KeychainPart, RemovalPart, MountPart;
  }

  /** A cleanup runs nothing that makes signing material. */
  lemma CleanupOnlyCleans(log: seq<Effect>, r: Cleaned)
    requires IsCleanup(log, r)
    ensures forall e | e in log :: IsCleaning(e)
  {
    hide FailsToRestore, FailsToClean, Parts;
    if |log| > 2 {
      var a :| IsFullCleanup(log, a, r);
      PartsOnlyClean(a);
    }
  }

  lemma {:induction false} AttemptedInLog(log: seq<Effect>, place: Place)
    requires place in Attempts(log)
    ensures Removed(place, true) in log || Removed(place, false) in log
    decreases |log|
  {
    var last := log[|log| - 1];
    if last.Removed? && last.place == place {
      assert last in log;
    } else {
      AttemptedInLog(log[..|log| - 1], place);
    }
  }

  /** A cleanup that found the root and returned normally removed every sensitive file and the root. */
  lemma SuccessMeansRemoved(log: seq<Effect>, r: Cleaned, place: Place)
    requires IsCleanup(log, r) && r.Ok? && |log| > 2 && place in SENSITIVE + [Root]
    ensures Removed(place, true) in log && log[|log| - 1] == Seen(Root, false)
  {
    hide Attempts, IsCleanup;
    CleanupIsThorough(log, r);
    AttemptedInLog(log, place);
  }
}
