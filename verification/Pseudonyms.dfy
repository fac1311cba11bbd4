/**
  Collision-avoiding pseudonyms: identifiers are collected first; sealing then assigns each one a
  synthetic name that is neither another identifier's name nor any identifier itself.
 */
module Pseudonyms {
  import opened Results
  import opened Text

  datatype Kind = Domain | HardwarePort | Host | Interface | Port | Service

  function Pseudonym(index: nat, kind: Kind): string
  {
    match kind
    case Domain => "domain-" + Decimal(index) + ".fixture.invalid"
    case HardwarePort => "hardware-port-" + Decimal(index)
    case Host => "proxy-host-" + Decimal(index) + ".fixture.invalid"
    case Interface => "interface-" + Decimal(index)
    case Port => Decimal(40000 + index)
    case Service => "network-service-" + Decimal(index)
  }

  // ---------------------------------------------------------------- distinct names

  lemma PrefixCancels(prefix: string, a: string, b: string, suffix: string)
    requires prefix + a + suffix == prefix + b + suffix
    ensures a == b
  {
    var s := prefix + a + suffix;
    assert s[|prefix|..|s| - |suffix|] == a;
    assert (prefix + b + suffix)[|prefix|..|s| - |suffix|] == b;
  }

  /** The first character tells the kinds apart. */
  function Initial(kind: Kind): char
  {
    match kind
    case Domain => 'd' case HardwarePort => 'h' case Host => 'p'
    case Interface => 'i' case Port => '4' case Service => 'n'
  }

  lemma PseudonymInitial(index: nat, kind: Kind)
    ensures |Pseudonym(index, kind)| > 0
    ensures if kind.Port? then IsDigit(Pseudonym(index, kind)[0]) else Pseudonym(index, kind)[0] == Initial(kind)
  {
  }

  /** Names of different kinds differ, and so do names with different numbers. */
  lemma PseudonymInjective(i: nat, k: Kind, j: nat, l: Kind)
    requires Pseudonym(i, k) == Pseudonym(j, l)
    ensures i == j && k == l
  {
    PseudonymInitial(i, k);
    PseudonymInitial(j, l);
    assert k == l;
    hide Decimal;
    match k
    case Domain =>
      PrefixCancels("domain-", Decimal(i), Decimal(j), ".fixture.invalid");
      DecimalInjective(i, j);
    case HardwarePort =>
      SuffixCancels("hardware-port-", Decimal(i), Decimal(j));
      DecimalInjective(i, j);
    case Host =>
      PrefixCancels("proxy-host-", Decimal(i), Decimal(j), ".fixture.invalid");
      DecimalInjective(i, j);
    case Interface =>
      SuffixCancels("interface-", Decimal(i), Decimal(j));
      DecimalInjective(i, j);
    case Port => DecimalInjective(40000 + i, 40000 + j);
    case Service =>
      SuffixCancels("network-service-", Decimal(i), Decimal(j));
      DecimalInjective(i, j);
  }

  lemma SuffixCancels(prefix: string, a: string, b: string)
    requires prefix + a == prefix + b
    ensures a == b
  {
    assert (prefix + a)[|prefix|..] == a && (prefix + b)[|prefix|..] == b;
  }

  // ---------------------------------------------------------------- free numbers

  /** The first free number from `index` on. */
  ghost predicate FirstFree(kind: Kind, taken: set<string>, index: nat, n: nat)
  {
    && index <= n && Pseudonym(n, kind) !in taken
    && forall m | index <= m < n :: Pseudonym(m, kind) in taken
  }

  ghost function NamesBetween(kind: Kind, from: nat, bound: nat): set<string>
  {
    set m | from <= m < bound :: Pseudonym(m, kind)
  }

  /** A run of numbers has as many names as numbers. */
  lemma {:induction false} NamesBetweenSize(kind: Kind, from: nat, bound: nat)
    requires from <= bound
    ensures |NamesBetween(kind, from, bound)| == bound - from
    decreases bound
  {
    hide Pseudonym;
    if from < bound {
      NamesBetweenSize(kind, from, bound - 1);
      var before := NamesBetween(kind, from, bound - 1);
      if Pseudonym(bound - 1, kind) in before {
        var m :| from <= m < bound - 1 && Pseudonym(m, kind) == Pseudonym(bound - 1, kind);
        PseudonymInjective(m, kind, bound - 1, kind);
      }
      assert NamesBetween(kind, from, bound) == before + {Pseudonym(bound - 1, kind)};
    } else {
      assert NamesBetween(kind, from, bound) == {};
    }
  }

  lemma SubsetSize<T>(a: set<T>, b: set<T>)
    requires a <= b
    ensures |a| <= |b|
  {
    if a != {} {
      var x :| x in a;
      SubsetSize(a - {x}, b - {x});
    }
  }

  /** The search for a free number stops after at most as many steps as names are taken. */
  lemma SkippedWithin(kind: Kind, taken: set<string>, index: nat, n: nat)
    requires index <= n && forall m | index <= m < n :: Pseudonym(m, kind) in taken
    ensures n - index <= |taken|
  {
    hide Pseudonym;
    NamesBetweenSize(kind, index, n);
    SubsetSize(NamesBetween(kind, index, n), taken);
  }

  /** The inner loop of sealing: count up until the candidate is free. */
  method FindFree(kind: Kind, taken: set<string>, index: nat) returns (n: nat)
    ensures FirstFree(kind, taken, index, n) && n - index <= |taken|
  {
    n := index;
    hide Pseudonym;
    while Pseudonym(n, kind) in taken
      invariant index <= n && forall m | index <= m < n :: Pseudonym(m, kind) in taken
      decreases index + |taken| - n
    {
      SkippedWithin(kind, taken, index, n + 1);
      n := n + 1;
    }
    SkippedWithin(kind, taken, index, n);
  }

  // ---------------------------------------------------------------- what sealing must produce

  /** Kind and identifier, in the order in which they were met. */
  type Requests = seq<(Kind, string)>

  /** The distinct identifiers of one kind, in order of first appearance. */
  function SourcesOf(requests: Requests, kind: Kind): seq<string>
  {
    if requests == [] then []
    else
      var before, last := SourcesOf(requests[..|requests| - 1], kind), requests[|requests| - 1];
      if last.0 == kind && last.1 !in before then before + [last.1] else before
  }

  function AllSources(requests: Requests): set<string>
  {
    set r | r in requests :: r.1
  }

  ghost predicate Distinct(s: seq<string>)
  {
    forall i, j | 0 <= i < j < |s| :: s[i] != s[j]
  }

  lemma {:induction false} SourcesOfExact(requests: Requests, kind: Kind)
    ensures Distinct(SourcesOf(requests, kind))
    ensures forall v :: v in SourcesOf(requests, kind) <==> (kind, v) in requests
    decreases |requests|
  {
    if requests != [] {
      var front, last := requests[..|requests| - 1], requests[|requests| - 1];
      SourcesOfExact(front, kind);
      assert requests == front + [last];
    }
  }

  /**
    Numbers for the identifiers of one kind: each is the first number after the previous one whose
    name is not itself an identifier.
   */
  ghost predicate Numbering(kind: Kind, taken: set<string>, numbers: seq<nat>)
  {
    forall i | 0 <= i < |numbers| ::
      FirstFree(kind, taken, if i == 0 then 1 else numbers[i - 1] + 1, numbers[i])
  }

  lemma NumberingAt(kind: Kind, taken: set<string>, numbers: seq<nat>, i: nat)
    requires Numbering(kind, taken, numbers) && i < |numbers|
    ensures FirstFree(kind, taken, if i == 0 then 1 else numbers[i - 1] + 1, numbers[i])
    ensures Pseudonym(numbers[i], kind) !in taken
  {
    hide Pseudonym;
    var n := numbers[i];
  }

  /** The table `values` assigns every collected identifier its name. */
  ghost predicate Names(kind: Kind, taken: set<string>, sources: seq<string>, numbers: seq<nat>, names: map<string, string>)
  {
    && |numbers| == |sources|
    && Numbering(kind, taken, numbers)
    && names.Keys == (set s | s in sources)
    && forall i | 0 <= i < |sources| :: names[sources[i]] == Pseudonym(numbers[i], kind)
  }

  ghost predicate IsSealed(requests: Requests, values: map<Kind, map<string, string>>)
  {
    forall kind ::
      && (kind in values <==> SourcesOf(requests, kind) != [])
      && (kind in values ==>
            exists numbers :: Names(kind, AllSources(requests), SourcesOf(requests, kind), numbers, values[kind]))
  }

  lemma {:induction false} NumbersIncrease(kind: Kind, taken: set<string>, numbers: seq<nat>, i: nat, j: nat)
    requires Numbering(kind, taken, numbers) && i < j < |numbers|
    ensures numbers[i] < numbers[j]
    decreases j
  {
    hide Pseudonym;
    assert FirstFree(kind, taken, numbers[j - 1] + 1, numbers[j]);
    if i < j - 1 {
      NumbersIncrease(kind, taken, numbers, i, j - 1);
    }
  }

  lemma NamesApart(kind: Kind, a: nat, b: nat, c: nat, d: nat)
    requires b <= c
    ensures NamesBetween(kind, a, b) !! NamesBetween(kind, c, d)
  {
    hide Pseudonym;
    forall s | s in NamesBetween(kind, a, b) ensures s !in NamesBetween(kind, c, d) {
      var m :| a <= m < b && Pseudonym(m, kind) == s;
      forall n | c <= n < d ensures Pseudonym(n, kind) != s {
        if Pseudonym(n, kind) == s {
          PseudonymInjective(m, kind, n, kind);
        }
      }
    }
  }

  lemma NamesInside(kind: Kind, a: nat, b: nat, c: nat, d: nat)
    requires c <= a && b <= d
    ensures NamesBetween(kind, a, b) <= NamesBetween(kind, c, d)
  {
    hide Pseudonym;
  }

  lemma FreeSkips(kind: Kind, taken: set<string>, index: nat, n: nat)
    requires FirstFree(kind, taken, index, n)
    ensures index <= n && NamesBetween(kind, index, n) <= taken
  {
    hide Pseudonym;
  }

  /** Skipped numbers are identifiers, so no number exceeds its rank by more than their count. */
  lemma {:induction false} NumberBound(kind: Kind, taken: set<string>, numbers: seq<nat>, i: nat)
    requires Numbering(kind, taken, numbers) && i < |numbers|
    ensures 1 <= numbers[i] && numbers[i] - (i + 1) <= |taken * NamesBetween(kind, 1, numbers[i])|
    decreases i
  {
    hide Pseudonym, FirstFree, NamesBetween;
    var from: nat := if i == 0 then 1 else numbers[i - 1] + 1;
    var here := NamesBetween(kind, from, numbers[i]);
    FreeSkips(kind, taken, from, numbers[i]);
    NamesBetweenSize(kind, from, numbers[i]);
    var whole := taken * NamesBetween(kind, 1, numbers[i]);
    if i == 0 {
      SubsetSize(here, whole);
    } else {
      NumberBound(kind, taken, numbers, i - 1);
      var before := taken * NamesBetween(kind, 1, numbers[i - 1]);
      NamesApart(kind, 1, numbers[i - 1], from, numbers[i]);
      NamesInside(kind, 1, numbers[i - 1], 1, numbers[i]);
      NamesInside(kind, from, numbers[i], 1, numbers[i]);
      assert before + here <= whole && before !! here;
      SubsetSize(before + here, whole);
    }
  }

  /** The row of the table that holds an identifier. */
  lemma SealedRow(requests: Requests, values: map<Kind, map<string, string>>, kind: Kind, value: string)
    returns (numbers: seq<nat>, i: nat)
    requires IsSealed(requests, values) && (kind, value) in requests
    ensures kind in values && value in values[kind]
    ensures Names(kind, AllSources(requests), SourcesOf(requests, kind), numbers, values[kind])
    ensures i < |numbers| && SourcesOf(requests, kind)[i] == value && values[kind][value] == Pseudonym(numbers[i], kind)
  {
    hide Pseudonym, AllSources, Numbering;
    SourcesOfExact(requests, kind);
    hide SourcesOf;
    var sources := SourcesOf(requests, kind);
    assert value in sources;
    numbers :| Names(kind, AllSources(requests), sources, numbers, values[kind]);
    i :| 0 <= i < |sources| && sources[i] == value;
  }

  /** Every name's number is bounded by the kind's identifiers plus all identifiers. */
  lemma SealedName(requests: Requests, values: map<Kind, map<string, string>>, kind: Kind, value: string)
    returns (number: nat)
    requires IsSealed(requests, values) && (kind, value) in requests
    ensures kind in values && value in values[kind]
    ensures values[kind][value] == Pseudonym(number, kind)
    ensures 1 <= number <= |SourcesOf(requests, kind)| + |AllSources(requests)|
    ensures values[kind][value] !in AllSources(requests)
  {
    hide Pseudonym, IsSealed, SourcesOf, AllSources, NamesBetween;
    var taken := AllSources(requests);
    var numbers, i := SealedRow(requests, values, kind, value);
    number := numbers[i];
    NumberingAt(kind, taken, numbers, i);
    NumberBound(kind, taken, numbers, i);
    SubsetSize(taken * NamesBetween(kind, 1, numbers[i]), taken);
  }

  /** Distinct identifiers get distinct names, within a kind and across kinds. */
  lemma SealedInjective(requests: Requests, values: map<Kind, map<string, string>>,
                        k: Kind, u: string, l: Kind, v: string)
    requires IsSealed(requests, values) && (k, u) in requests && (l, v) in requests
    ensures k in values && u in values[k] && l in values && v in values[l]
    ensures values[k][u] == values[l][v] ==> k == l && u == v
  {
    hide Pseudonym, IsSealed, AllSources;
    var m := SealedName(requests, values, k, u);
    var n := SealedName(requests, values, l, v);
    if values[k][u] == values[l][v] {
      PseudonymInjective(m, k, n, l);
      var numbers, i := SealedRow(requests, values, k, u);
      SourcesOfExact(requests, k);
      hide SourcesOf, Numbering;
      var j :| 0 <= j < |SourcesOf(requests, k)| && SourcesOf(requests, k)[j] == v;
      PseudonymInjective(numbers[i], k, numbers[j], k);
      if i < j {
        NumbersIncrease(k, AllSources(requests), numbers, i, j);
      } else if j < i {
        NumbersIncrease(k, AllSources(requests), numbers, j, i);
      }
    }
  }

  /** No identifier looks like a pseudonym. */
  ghost predicate AvoidsSynthetic(requests: Requests)
  {
    forall n: nat, kind :: Pseudonym(n, kind) !in AllSources(requests)
  }

  lemma {:induction false} PlainNumbers(kind: Kind, taken: set<string>, numbers: seq<nat>, i: nat)
    requires Numbering(kind, taken, numbers) && i < |numbers|
    requires forall n: nat :: Pseudonym(n, kind) !in taken
    ensures numbers[i] == i + 1
    decreases i
  {
    hide Pseudonym, Numbering, FirstFree;
    NumberingAt(kind, taken, numbers, i);
    if i > 0 {
      PlainNumbers(kind, taken, numbers, i - 1);
      FirstIsFree(kind, taken, numbers[i - 1] + 1, numbers[i]);
    } else {
      FirstIsFree(kind, taken, 1, numbers[i]);
    }
  }

  lemma FirstIsFree(kind: Kind, taken: set<string>, index: nat, n: nat)
    requires FirstFree(kind, taken, index, n) && Pseudonym(index, kind) !in taken
    ensures n == index
  {
    hide Pseudonym;
  }

  /** Without look-alikes, an identifier's number is its rank. */
  lemma SealedByRank(requests: Requests, values: map<Kind, map<string, string>>, kind: Kind, i: nat)
    requires IsSealed(requests, values) && AvoidsSynthetic(requests) && i < |SourcesOf(requests, kind)|
    ensures kind in values && SourcesOf(requests, kind)[i] in values[kind]
    ensures values[kind][SourcesOf(requests, kind)[i]] == Pseudonym(i + 1, kind)
  {
    hide Pseudonym;
    var sources, taken := SourcesOf(requests, kind), AllSources(requests);
    var numbers :| Names(kind, taken, sources, numbers, values[kind]);
    PlainNumbers(kind, taken, numbers, i);
  }

  // ---------------------------------------------------------------- the collecting and sealing object

  ghost predicate KindsListed(kinds: seq<Kind>, sources: map<Kind, seq<string>>)
  {
    && (forall k :: k in kinds <==> k in sources)
    && (forall i, j | 0 <= i < j < |kinds| :: kinds[i] != kinds[j])
  }

  ghost predicate SourcesListed(requests: Requests, sources: map<Kind, seq<string>>)
  {
    && (forall k :: k in sources <==> SourcesOf(requests, k) != [])
    && (forall k | k in sources :: sources[k] == SourcesOf(requests, k))
  }

  /** The kinds met so far, each once, with the identifiers collected for it. */
  ghost predicate Collected(requests: Requests, kinds: seq<Kind>, sources: map<Kind, seq<string>>)
  {
    KindsListed(kinds, sources) && SourcesListed(requests, sources)
  }

  lemma SourcesOfNext(requests: Requests, kind: Kind, value: string, k: Kind)
    ensures SourcesOf(requests + [(kind, value)], k)
            == if k == kind && value !in SourcesOf(requests, k) then SourcesOf(requests, k) + [value]
               else SourcesOf(requests, k)
  {
    var all := requests + [(kind, value)];
    assert all[..|all| - 1] == requests;
  }

  /** Collecting one more identifier. */
  lemma CollectedNext(requests: Requests, kinds: seq<Kind>, sources: map<Kind, seq<string>>, kind: Kind, value: string)
    requires Collected(requests, kinds, sources)
    ensures var kinds' := if kind in sources then kinds else kinds + [kind];
            var had := if kind in sources then sources[kind] else [];
            var sources' := sources[kind := if value in had then had else had + [value]];
            Collected(requests + [(kind, value)], kinds', sources')
  {
    hide SourcesListed, KindsListed, SourcesOf;
    var had := if kind in sources then sources[kind] else [];
    var next := if value in had then had else had + [value];
    SourcesListedAt(requests, sources, kind);
    SourcesOfNext(requests, kind, value, kind);
    KindListedNext(kinds, sources, kind, next);
    SourcesListedNext(requests, sources, kind, value, next);
  }

  lemma SourcesListedAt(requests: Requests, sources: map<Kind, seq<string>>, kind: Kind)
    requires SourcesListed(requests, sources)
    ensures SourcesOf(requests, kind) == if kind in sources then sources[kind] else []
  {
    hide SourcesOf;
  }

  lemma KindListedNext(kinds: seq<Kind>, sources: map<Kind, seq<string>>, kind: Kind, next: seq<string>)
    requires KindsListed(kinds, sources)
    ensures KindsListed(if kind in sources then kinds else kinds + [kind], sources[kind := next])
  {
    if kind !in sources {
      assert forall k :: k in kinds + [kind] <==> k in kinds || k == kind;
    }
  }

  lemma SourcesListedNext(requests: Requests, sources: map<Kind, seq<string>>, kind: Kind, value: string, next: seq<string>)
    requires SourcesListed(requests, sources)
    requires next == SourcesOf(requests + [(kind, value)], kind) && next != []
    ensures SourcesListed(requests + [(kind, value)], sources[kind := next])
  {
    forall k | k != kind ensures SourcesOf(requests + [(kind, value)], k) == SourcesOf(requests, k) {
      SourcesOfNext(requests, kind, value, k);
    }
    hide SourcesOf;
  }

  datatype PseudonymError = AlreadySealed | Unreserved(kind: Kind)

  class PseudonymTable {
    /** Kinds in the order of their first use. */
    var kinds: seq<Kind>
    var sources: map<Kind, seq<string>>
    var values: map<Kind, map<string, string>>
    var isSealed: bool
    /** Everything that was reserved before sealing. */
    ghost var requests: Requests

    ghost predicate Valid()
      reads this
    {
      && Collected(requests, kinds, sources)
      && (isSealed ==> IsSealed(requests, values))
      && (!isSealed ==> values == map[])
    }

    constructor ()
      ensures Valid() && !isSealed && requests == []
    {
      kinds, sources, values, isSealed, requests := [], map[], map[], false, [];
    }

    /** Before sealing, reserves the identifier; afterwards, looks its name up. */
    method Map(kind: Kind, value: string) returns (r: Result<string, PseudonymError>)
      requires Valid()
      modifies this
      ensures Valid() && isSealed == old(isSealed) && values == old(values)
      ensures !isSealed ==> requests == old(requests) + [(kind, value)] && r.Ok?
      ensures isSealed ==> requests == old(requests)
      ensures isSealed ==> (r.Ok? <==> (kind, value) in requests)
      ensures isSealed && r.Ok? ==> kind in values && value in values[kind] && r.value == values[kind][value]
    {
      if isSealed {
        r := Lookup(kind, value);
      } else {
        r := Reserve(kind, value);
      }
    }

    method Lookup(kind: Kind, value: string) returns (r: Result<string, PseudonymError>)
      requires Valid() && isSealed
      ensures r.Ok? <==> (kind, value) in requests
      ensures r.Ok? ==> kind in values && value in values[kind] && r.value == values[kind][value]
    {
      hide IsSealed, SourcesOf;
      SourcesOfExact(requests, kind);
      SealedKeys(requests, values, kind);
      if kind in values && value in values[kind] {
        return Ok(values[kind][value]);
      }
      return Err(Unreserved(kind));
    }

    method Reserve(kind: Kind, value: string) returns (r: Result<string, PseudonymError>)
      requires Valid() && !isSealed
      modifies `kinds, `sources, `requests
      ensures Valid() && requests == old(requests) + [(kind, value)] && r.Ok?
    {
      hide Pseudonym, IsSealed, Collected;
      CollectedNext(requests, kinds, sources, kind, value);
      requests := requests + [(kind, value)];
      if kind !in sources {
        kinds := kinds + [kind];
        sources := sources[kind := []];
      }
      if value !in sources[kind] {
        sources := sources[kind := sources[kind] + [value]];
      }
      ghost var was := old(sources);
      ghost var had := if kind in was then was[kind] else [];
      assert sources == was[kind := if value in had then had else had + [value]];
      var index := Position(sources[kind], value);
      return Ok(Pseudonym(index + 1, kind));
    }

    /** Assigns all names; sealing twice is refused. */
    method Seal() returns (r: Result<(), PseudonymError>)
      requires Valid()
      modifies this
      ensures Valid() && requests == old(requests)
      ensures old(isSealed) ==> r == Err(AlreadySealed) && values == old(values) && isSealed
      ensures !old(isSealed) ==> r.Ok? && isSealed
    {
      if isSealed {
        return Err(AlreadySealed);
      }
      hide Collected, IsSealed;
      values := SealKinds(requests, kinds, sources);
      isSealed := true;
      return Ok(());
    }
  }

  /** The loop of sealing over all kinds. */
  method SealKinds(ghost requests: Requests, kinds: seq<Kind>, sources: map<Kind, seq<string>>)
    returns (values: map<Kind, map<string, string>>)
    requires Collected(requests, kinds, sources)
    ensures IsSealed(requests, values)
  {
    hide *;
    CollectedKinds(requests, kinds, sources);
    var sourceValues := Flatten(kinds, sources);
    FlattenExact(requests, kinds, sources);
    var outputs: set<string> := {};
    values := map[];
    NoOutputs();
    NothingSealed(requests);
    assert kinds[..0] == [];
    for k := 0 to |kinds|
      invariant OutputsOf(outputs, kinds[..k]) && SealedKinds(requests, kinds[..k], values)
    {
      var kind := kinds[k];
      CollectedKind(requests, kinds, sources, k);
      var names;
      ghost var numbers;
      names, outputs, numbers := SealKind(kind, sources[kind], sourceValues, outputs, kinds[..k]);
      SealedNext(requests, kinds[..k], values, kind, numbers, names);
      values := values[kind := names];
      assert kinds[..k + 1] == kinds[..k] + [kind];
    }
    assert kinds[..|kinds|] == kinds;
    SealedFinally(requests, kinds, sources, values);
  }

  /** The kinds in `done` have their names. */
  ghost predicate SealedKinds(requests: Requests, done: seq<Kind>, values: map<Kind, map<string, string>>)
  {
    && (forall kind :: kind in values <==> kind in done)
    && forall kind | kind in values ::
         exists numbers :: Names(kind, AllSources(requests), SourcesOf(requests, kind), numbers, values[kind])
  }

  lemma NothingSealed(requests: Requests)
    ensures SealedKinds(requests, [], map[])
  {
  }

  lemma SealedNext(requests: Requests, done: seq<Kind>, values: map<Kind, map<string, string>>, kind: Kind,
                   numbers: seq<nat>, names: map<string, string>)
    requires SealedKinds(requests, done, values)
    requires Names(kind, AllSources(requests), SourcesOf(requests, kind), numbers, names)
    ensures SealedKinds(requests, done + [kind], values[kind := names])
  {
    hide Names, SourcesOf, AllSources;
  }

  lemma SealedFinally(requests: Requests, kinds: seq<Kind>, sources: map<Kind, seq<string>>,
                      values: map<Kind, map<string, string>>)
    requires Collected(requests, kinds, sources) && SealedKinds(requests, kinds, values)
    ensures IsSealed(requests, values)
  {
    hide Names, SourcesOf, AllSources;
  }

  lemma CollectedKinds(requests: Requests, kinds: seq<Kind>, sources: map<Kind, seq<string>>)
    requires Collected(requests, kinds, sources)
    ensures forall k | k in kinds :: k in sources
  {
    hide SourcesOf;
  }

  lemma CollectedKind(requests: Requests, kinds: seq<Kind>, sources: map<Kind, seq<string>>, k: nat)
    requires Collected(requests, kinds, sources) && k < |kinds|
    ensures kinds[k] in sources && sources[kinds[k]] == SourcesOf(requests, kinds[k])
    ensures Distinct(sources[kinds[k]]) && kinds[k] !in kinds[..k]
  {
    SourcesOfExact(requests, kinds[k]);
    hide SourcesOf;
    assert kinds[k] in kinds;
  }

  /** All collected identifiers of the given kinds. */
  function Flatten(kinds: seq<Kind>, sources: map<Kind, seq<string>>): set<string>
    requires forall k | k in kinds :: k in sources
  {
    set k, s | k in kinds && s in sources[k] :: s
  }

  lemma FlattenExact(requests: Requests, kinds: seq<Kind>, sources: map<Kind, seq<string>>)
    requires Collected(requests, kinds, sources)
    ensures (forall k | k in kinds :: k in sources) && Flatten(kinds, sources) == AllSources(requests)
  {
    forall k ensures forall v :: v in SourcesOf(requests, k) <==> (k, v) in requests {
      SourcesOfExact(requests, k);
    }
    hide SourcesOf;
    forall s | s in AllSources(requests) ensures s in Flatten(kinds, sources) {
      var r :| r in requests && r.1 == s;
      assert s in SourcesOf(requests, r.0);
    }
    forall s | s in Flatten(kinds, sources) ensures s in AllSources(requests) {
      var k :| k in kinds && s in sources[k];
      assert (k, s) in requests;
    }
  }

  /** All outputs so far are pseudonyms of the given kinds. */
  ghost predicate OutputsOf(outputs: set<string>, kinds: seq<Kind>)
  {
    forall o | o in outputs :: exists j: nat, l :: l in kinds && o == Pseudonym(j, l)
  }

  lemma NoOutputs()
    ensures OutputsOf({}, [])
  {
  }

  /** No output so far is a name of this kind with this number or a later one. */
  ghost predicate OutputsBelow(outputs: set<string>, kind: Kind, index: nat)
  {
    forall m: nat | index <= m :: Pseudonym(m, kind) !in outputs
  }

  lemma OtherKindsBelow(outputs: set<string>, kinds: seq<Kind>, kind: Kind)
    requires OutputsOf(outputs, kinds) && kind !in kinds
    ensures OutputsBelow(outputs, kind, 1)
  {
    hide Pseudonym;
    forall m: nat | 1 <= m ensures Pseudonym(m, kind) !in outputs {
      if Pseudonym(m, kind) in outputs {
        var j: nat, l :| l in kinds && Pseudonym(m, kind) == Pseudonym(j, l);
        PseudonymInjective(m, kind, j, l);
      }
    }
  }

  lemma BelowNext(outputs: set<string>, kind: Kind, index: nat, n: nat)
    requires OutputsBelow(outputs, kind, index) && index <= n
    ensures OutputsBelow(outputs + {Pseudonym(n, kind)}, kind, n + 1)
  {
    hide Pseudonym;
    forall m: nat | n + 1 <= m ensures Pseudonym(m, kind) != Pseudonym(n, kind) {
      if Pseudonym(m, kind) == Pseudonym(n, kind) {
        PseudonymInjective(m, kind, n, kind);
      }
    }
  }

  /** Outputs never matter: only identifiers make a number unavailable. */
  lemma FreeIgnoresOutputs(kind: Kind, taken: set<string>, outputs: set<string>, index: nat, n: nat)
    requires OutputsBelow(outputs, kind, index) && FirstFree(kind, taken + outputs, index, n)
    ensures FirstFree(kind, taken, index, n)
  {
    hide Pseudonym;
  }

  lemma OutputsGrow(outputs: set<string>, kinds: seq<Kind>, kind: Kind, n: nat)
    requires OutputsOf(outputs, kinds)
    ensures OutputsOf(outputs + {Pseudonym(n, kind)}, kinds + [kind])
  {
    hide Pseudonym;
    var after := kinds + [kind];
    assert kind in after;
    forall o | o in outputs ensures exists j: nat, l :: l in after && o == Pseudonym(j, l) {
      var j: nat, l :| l in kinds && o == Pseudonym(j, l);
      assert l in after;
    }
  }

  lemma OutputsAgain(outputs: set<string>, kinds: seq<Kind>, kind: Kind)
    requires OutputsOf(outputs, kinds + [kind] + [kind])
    ensures OutputsOf(outputs, kinds + [kind])
  {
    hide Pseudonym;
    assert forall l :: l in kinds + [kind] + [kind] <==> l in kinds + [kind];
  }

  lemma OutputsWiden(outputs: set<string>, kinds: seq<Kind>, kind: Kind)
    requires OutputsOf(outputs, kinds)
    ensures OutputsOf(outputs, kinds + [kind])
  {
    hide Pseudonym;
    forall o | o in outputs ensures exists j: nat, l :: l in kinds + [kind] && o == Pseudonym(j, l) {
      var j: nat, l :| l in kinds && o == Pseudonym(j, l);
      assert l in kinds + [kind];
    }
  }

  /** Names the identifiers of one kind, one after the other. */
  method SealKind(kind: Kind, sources: seq<string>, sourceValues: set<string>, outputs: set<string>, ghost kinds: seq<Kind>)
    returns (names: map<string, string>, outputs': set<string>, ghost numbers: seq<nat>)
    requires Distinct(sources) && OutputsOf(outputs, kinds) && kind !in kinds
    ensures Names(kind, sourceValues, sources, numbers, names)
    ensures OutputsOf(outputs', kinds + [kind])
  {
    hide Pseudonym, OutputsOf, OutputsBelow, FirstFree;
    names, outputs', numbers := map[], outputs, [];
    OtherKindsBelow(outputs, kinds, kind);
    OutputsWiden(outputs, kinds, kind);
    var index: nat := 1;
    for i := 0 to |sources|
      invariant |numbers| == i && Numbering(kind, sourceValues, numbers)
      invariant index == if i == 0 then 1 else numbers[i - 1] + 1
      invariant OutputsBelow(outputs', kind, index) && OutputsOf(outputs', kinds + [kind])
      invariant names.Keys == set s | s in sources[..i]
      invariant forall j | 0 <= j < i :: names[sources[j]] == Pseudonym(numbers[j], kind)
    {
      var n := FindFree(kind, sourceValues + outputs', index);
      FreeIgnoresOutputs(kind, sourceValues, outputs', index, n);
      FreeFrom(kind, sourceValues, index, n);
      BelowNext(outputs', kind, index, n);
      OutputsGrow(outputs', kinds + [kind], kind, n);
      OutputsAgain(outputs' + {Pseudonym(n, kind)}, kinds, kind);
      assert sources[..i + 1] == sources[..i] + [sources[i]];
      names := names[sources[i] := Pseudonym(n, kind)];
      outputs' := outputs' + {Pseudonym(n, kind)};
      NumberingNext(kind, sourceValues, numbers, n);
      numbers := numbers + [n];
      index := n + 1;
    }
    assert sources[..|sources|] == sources;
  }

  lemma NumberingNext(kind: Kind, taken: set<string>, numbers: seq<nat>, n: nat)
    requires Numbering(kind, taken, numbers)
    requires FirstFree(kind, taken, if numbers == [] then 1 else numbers[|numbers| - 1] + 1, n)
    ensures Numbering(kind, taken, numbers + [n])
  {
    hide FirstFree;
    var all := numbers + [n];
    forall i | 0 <= i < |all| ensures FirstFree(kind, taken, if i == 0 then 1 else all[i - 1] + 1, all[i]) {
      if i < |numbers| {
        assert FirstFree(kind, taken, if i == 0 then 1 else numbers[i - 1] + 1, numbers[i]);
      }
    }
  }

  lemma FreeFrom(kind: Kind, taken: set<string>, index: nat, n: nat)
    requires FirstFree(kind, taken, index, n)
    ensures index <= n
  {
  }

  lemma SealedKeys(requests: Requests, values: map<Kind, map<string, string>>, kind: Kind)
    requires IsSealed(requests, values)
    ensures kind in values ==> forall v :: v in values[kind] <==> v in SourcesOf(requests, kind)
    ensures kind !in values ==> SourcesOf(requests, kind) == []
  {
    hide Pseudonym;
    if kind in values {
      var numbers :| Names(kind, AllSources(requests), SourcesOf(requests, kind), numbers, values[kind]);
    }
  }

  function Position(s: seq<string>, value: string): (i: nat)
    requires value in s
    ensures i < |s| && s[i] == value
  {
    if s[0] == value then 0 else 1 + Position(s[1..], value)
  }
}
