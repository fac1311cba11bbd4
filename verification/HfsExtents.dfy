/** Gathering a file from its extents and scattering it back. */
module HfsExtents {
  import opened Bytes
  import opened HfsVolume

  /** Where byte `i` of the catalog file lies in the image. */
  function Physical(extents: seq<Extent>, i: nat): nat
    requires i < TotalLength(extents)
  {
    var front := extents[..|extents| - 1];
    if i < TotalLength(front) then Physical(front, i)
    else extents[|extents| - 1].physical + (i - TotalLength(front))
  }

  ghost predicate InExtent(e: Extent, q: nat)
  {
    e.physical <= q < e.physical + e.length
  }

  ghost predicate InExtents(extents: seq<Extent>, q: nat)
  {
    exists e :: e in extents && InExtent(e, q)
  }

  ghost predicate Disjoint(extents: seq<Extent>)
  {
    forall a, b | 0 <= a < b < |extents| ::
      || extents[a].physical + extents[a].length <= extents[b].physical
      || extents[b].physical + extents[b].length <= extents[a].physical
  }

  lemma {:induction false} PhysicalOwner(extents: seq<Extent>, i: nat) returns (owner: nat)
    requires i < TotalLength(extents)
    ensures owner < |extents| && InExtent(extents[owner], Physical(extents, i))
    decreases |extents|
  {
    var front := extents[..|extents| - 1];
    if i < TotalLength(front) {
      owner := PhysicalOwner(front, i);
    } else {
      owner := |extents| - 1;
    }
  }

  lemma TotalLengthAppend(extents: seq<Extent>, extent: Extent)
    ensures TotalLength(extents + [extent]) == TotalLength(extents) + extent.length
  {
    FrontAndLast(extents, extent);
  }

  lemma WithinAppend(extents: seq<Extent>, extent: Extent, size: nat)
    ensures ExtentsWithin(extents + [extent], size) <==> ExtentsWithin(extents, size) && extent.physical + extent.length <= size
  {
    assert (extents + [extent])[|extents|] == extent;
    forall e | e in extents ensures e in extents + [extent] {
    }
  }

  lemma GatherAppend(s: seq<byte>, extents: seq<Extent>, extent: Extent)
    requires ExtentsWithin(extents, |s|) && ExtentsWithin(extents + [extent], |s|) && extent.physical + extent.length <= |s|
    ensures Gather(s, extents + [extent]) == Gather(s, extents) + s[extent.physical..extent.physical + extent.length]
  {
    hide ExtentsWithin, TotalLength;
    FrontAndLast(extents, extent);
  }

  /** Another extent at the end. */
  lemma AppendExtent(s: seq<byte>, extents: seq<Extent>, extent: Extent)
    requires ExtentsWithin(extents, |s|) && extent.physical + extent.length <= |s|
    ensures ExtentsWithin(extents + [extent], |s|)
    ensures TotalLength(extents + [extent]) == TotalLength(extents) + extent.length
    ensures Gather(s, extents + [extent]) == Gather(s, extents) + s[extent.physical..extent.physical + extent.length]
  {
    hide ExtentsWithin, TotalLength, Gather;
    WithinAppend(extents, extent, |s|);
    TotalLengthAppend(extents, extent);
    GatherAppend(s, extents, extent);
  }

  lemma {:induction false} GatherAt(s: seq<byte>, extents: seq<Extent>, i: nat)
    requires ExtentsWithin(extents, |s|) && i < TotalLength(extents)
    ensures Physical(extents, i) < |s|
    ensures Gather(s, extents)[i] == s[Physical(extents, i)]
    decreases |extents|
  {
    var front, last := extents[..|extents| - 1], extents[|extents| - 1];
    assert extents == front + [last];
    WithinAppend(front, last, |s|);
    AppendExtent(s, front, last);
    hide ExtentsWithin, Gather;
    if i < TotalLength(front) {
      GatherAt(s, front, i);
    }
  }

  lemma ScatterNothing(s: seq<byte>, c: seq<byte>, q: nat)
    ensures TotalLength([]) == 0 && ExtentsWithin([], |s|) && Scatter(s, [], c) == s && !InExtents([], q)
  {
  }

  lemma InExtentRange(e: Extent, q: nat)
    requires InExtent(e, q)
    ensures e.physical <= q < e.physical + e.length
  {
  }

  lemma ScatterAppend(s: seq<byte>, extents: seq<Extent>, extent: Extent, c: seq<byte>)
    requires ExtentsWithin(extents, |s|) && ExtentsWithin(extents + [extent], |s|) && extent.physical + extent.length <= |s|
    requires TotalLength(extents + [extent]) <= |c| && TotalLength(extents + [extent]) == TotalLength(extents) + extent.length
    ensures var at := TotalLength(extents);
            Scatter(s, extents + [extent], c) == Overwrite(Scatter(s, extents, c), extent.physical, c[at..at + extent.length])
  {
    hide *;
    FrontAndLast(extents, extent);
    ScatterUnfold(s, extents + [extent], c);
  }

  lemma FrontAndLast(front: seq<Extent>, last: Extent)
    ensures var all := front + [last]; all[..|all| - 1] == front && all[|all| - 1] == last
  {
  }

  lemma ScatterUnfold(s: seq<byte>, extents: seq<Extent>, c: seq<byte>)
    requires extents != [] && ExtentsWithin(extents, |s|) && TotalLength(extents) <= |c|
    requires var front, last := extents[..|extents| - 1], extents[|extents| - 1];
             && ExtentsWithin(front, |s|) && last.physical + last.length <= |s|
             && TotalLength(extents) == TotalLength(front) + last.length
    ensures var front, last := extents[..|extents| - 1], extents[|extents| - 1];
            var at := TotalLength(front);
            Scatter(s, extents, c) == Overwrite(Scatter(s, front, c), last.physical, c[at..at + last.length])
  {
    hide ExtentsWithin, TotalLength, Overwrite;
  }

  /** What the last extent contributes to a scattered byte. */
  lemma ScatterLast(s: seq<byte>, extents: seq<Extent>, c: seq<byte>, q: nat)
    requires extents != [] && ExtentsWithin(extents, |s|) && TotalLength(extents) <= |c| && q < |s|
    ensures var front, last := extents[..|extents| - 1], extents[|extents| - 1];
            && ExtentsWithin(front, |s|)
            && (InExtents(extents, q) <==> InExtents(front, q) || InExtent(last, q))
            && TotalLength(extents) == TotalLength(front) + last.length
            && Scatter(s, extents, c)[q]
               == if InExtent(last, q) then c[TotalLength(front) + (q - last.physical)] else Scatter(s, front, c)[q]
  {
    hide InExtents, Overwrite;
    InExtentsLast(extents, q);
    var front, last := extents[..|extents| - 1], extents[|extents| - 1];
    assert last in extents && ExtentsWithin(front, |s|);
    var before, inner := TotalLength(front), Scatter(s, front, c);
    assert Scatter(s, extents, c) == Overwrite(inner, last.physical, c[before..before + last.length]);
  }

  lemma InExtentsLast(extents: seq<Extent>, q: nat)
    requires extents != []
    ensures var front, last := extents[..|extents| - 1], extents[|extents| - 1];
            InExtents(extents, q) <==> InExtents(front, q) || InExtent(last, q)
  {
    assert extents == extents[..|extents| - 1] + [extents[|extents| - 1]];
  }

  lemma PhysicalLast(extents: seq<Extent>, i: nat)
    requires extents != [] && i < TotalLength(extents)
    ensures var front := extents[..|extents| - 1];
            Physical(extents, i) == if i < TotalLength(front) then Physical(front, i)
                                    else extents[|extents| - 1].physical + (i - TotalLength(front))
  {
  }

  /** A scattered byte is untouched and outside every extent, or comes from the file. */
  lemma {:induction false} ScatterSource(s: seq<byte>, extents: seq<Extent>, c: seq<byte>, q: nat)
    returns (i: int)
    requires ExtentsWithin(extents, |s|) && TotalLength(extents) <= |c| && q < |s|
    ensures i == -1 ==> Scatter(s, extents, c)[q] == s[q] && !InExtents(extents, q)
    ensures i != -1 ==> 0 <= i < TotalLength(extents) && Physical(extents, i) == q
    ensures i != -1 ==> Scatter(s, extents, c)[q] == c[i]
    decreases |extents|
  {
    hide *;
    if extents == [] {
      i := -1;
      ScatterNothing(s, c, q);
    } else {
      var front, last := extents[..|extents| - 1], extents[|extents| - 1];
      ScatterLast(s, extents, c, q);
      if InExtent(last, q) {
        InExtentRange(last, q);
        i := TotalLength(front) + (q - last.physical);
        PhysicalLast(extents, i);
      } else {
        i := ScatterSource(s, front, c, q);
        if i != -1 {
          PhysicalLast(extents, i);
        }
      }
    }
  }

  /** Disjoint extents never map two file bytes to one image byte. */
  lemma {:induction false} PhysicalInjective(extents: seq<Extent>, i: nat, j: nat)
    requires Disjoint(extents) && i < j < TotalLength(extents)
    ensures Physical(extents, i) != Physical(extents, j)
    decreases |extents|
  {
    var front, last := extents[..|extents| - 1], extents[|extents| - 1];
    if j < TotalLength(front) {
      PhysicalInjective(front, i, j);
    } else if i < TotalLength(front) {
      var owner := PhysicalOwner(front, i);
      assert extents[owner] == front[owner];
      assert InExtent(last, Physical(extents, j));
    }
  }

  lemma ScatterAt(s: seq<byte>, extents: seq<Extent>, c: seq<byte>, i: nat)
    requires ExtentsWithin(extents, |s|) && TotalLength(extents) == |c| && i < |c|
    requires Disjoint(extents)
    ensures Physical(extents, i) < |s|
    ensures Scatter(s, extents, c)[Physical(extents, i)] == c[i]
  {
    GatherAt(s, extents, i);
    var owner := PhysicalOwner(extents, i);
    var j := ScatterSource(s, extents, c, Physical(extents, i));
    assert InExtents(extents, Physical(extents, i));
    if j < i {
      PhysicalInjective(extents, j, i);
    } else if i < j {
      PhysicalInjective(extents, i, j);
    }
  }

  /** Over disjoint extents, gathering returns exactly what was scattered. */
  lemma GatherAfterScatter(s: seq<byte>, extents: seq<Extent>, c: seq<byte>)
    requires ExtentsWithin(extents, |s|) && TotalLength(extents) == |c|
    requires Disjoint(extents)
    ensures Gather(Scatter(s, extents, c), extents) == c
  {
    var r := Scatter(s, extents, c);
    forall i | 0 <= i < |c| ensures Gather(r, extents)[i] == c[i] {
      GatherAt(r, extents, i);
      ScatterAt(s, extents, c, i);
    }
  }

  /** Scattering what was gathered changes nothing, whether or not the extents overlap. */
  lemma ScatterAfterGather(s: seq<byte>, extents: seq<Extent>)
    requires ExtentsWithin(extents, |s|)
    ensures Scatter(s, extents, Gather(s, extents)) == s
  {
    var c := Gather(s, extents);
    forall q | 0 <= q < |s| ensures Scatter(s, extents, c)[q] == s[q] {
      var i := ScatterSource(s, extents, c, q);
      if i != -1 {
        GatherAt(s, extents, i);
      }
    }
  }

  /** Images that agree outside the extents become equal once the same file is scattered. */
  lemma ScatterCongruent(s: seq<byte>, t: seq<byte>, extents: seq<Extent>, c: seq<byte>)
    requires |s| == |t| && ExtentsWithin(extents, |s|) && TotalLength(extents) == |c|
    requires forall q | 0 <= q < |s| && !InExtents(extents, q) :: s[q] == t[q]
    ensures Scatter(s, extents, c) == Scatter(t, extents, c)
    decreases |extents|
  {
    forall q | 0 <= q < |s| ensures Scatter(s, extents, c)[q] == Scatter(t, extents, c)[q] {
      ScatterTwice(s, t, extents, c, q);
    }
  }

  lemma {:induction false} ScatterTwice(s: seq<byte>, t: seq<byte>, extents: seq<Extent>, c: seq<byte>, q: nat)
    requires |s| == |t| && ExtentsWithin(extents, |s|) && TotalLength(extents) <= |c| && q < |s|
    requires InExtents(extents, q) || s[q] == t[q]
    ensures Scatter(s, extents, c)[q] == Scatter(t, extents, c)[q]
    decreases |extents|
  {
    if extents != [] {
      hide Scatter;
      var front, last := extents[..|extents| - 1], extents[|extents| - 1];
      ScatterLast(s, extents, c, q);
      ScatterLast(t, extents, c, q);
      if !InExtent(last, q) {
        ScatterTwice(s, t, front, c, q);
      }
    }
  }
}
