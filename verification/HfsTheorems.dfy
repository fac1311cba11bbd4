/**
  What normalising an HFS+ image promises: which bytes may change, that two builds of the same
  content become byte-identical, and that a second run changes nothing.
 */
module HfsTheorems {
  import opened Results
  import opened Bytes
  import opened HfsVolume
  import opened HfsExtents
  import opened HfsCatalog

  // ---------------------------------------------------------------- which bytes may change

  /** Image byte `q` holds a date byte of a file or folder record. */
  ghost predicate IsDateByte(extents: seq<Extent>, stamped: seq<nat>, q: nat)
  {
    exists i: nat :: i < TotalLength(extents) && Physical(extents, i) == q && InFields(stamped, i)
  }

  /** Image byte `q` holds build-dependent metadata. */
  ghost predicate IsVolatile(p: nat, a: nat, extents: seq<Extent>, stamped: seq<nat>, q: nat)
  {
    IsHeaderField(q - p) || IsHeaderField(q - a) || IsDateByte(extents, stamped, q)
  }

  lemma StampCatalogFrame(c: seq<byte>, logicalSize: nat)
    requires 512 <= |c| && logicalSize <= |c| && StampCatalog(c, logicalSize).Ok?
    ensures var w := StampCatalog(c, logicalSize).value;
            && |w.catalog| == |c| && |w.stamped| > 0
            && (forall k | 0 <= k < |c| && w.catalog[k] != c[k] ::
                  && InFields(w.stamped, k)
                  && exists n :: NodeWithin(n, |c|) && n.size == NodeSize(c) && InLeafBody(c, n, k))
  {
    hide InFields, WalkNodes, NodesWithin;
    NodesFit(0, NodeSize(c), TotalNodes(c), |c|);
    WalkNodesFrame(Walk(c, 0, []), 0, NodeSize(c), TotalNodes(c));
  }

  lemma VolumeFrame(s: seq<byte>, p: nat, q: nat)
    requires IsPrimary(s, p) && NormalizeVolume(s, p).Ok? && q < |s|
    ensures var run := NormalizeVolume(s, p).value;
            && run.primary == p && run.alternate == AlternateOffset(s, p)
            && (run.image[q] != s[q] ==> IsVolatile(p, run.alternate, run.extents, run.stamped, q))
  {
    hide InFields, StampCatalog, ReadCatalog, Scatter, Gather, U32;
    var headed := StampHeaders(s, p);
    var file := ReadCatalog(headed, p, BlockSize(s, p), TotalBlocks(s, p)).value;
    var c := Gather(headed, file.extents);
    var w := StampCatalog(c, file.logicalSize).value;
    StampCatalogFrame(c, file.logicalSize);
    var i := ScatterSource(headed, file.extents, w.catalog, q);
    if i != -1 {
      GatherAt(headed, file.extents, i);
    }
  }

  /** A successful run worked on the only header pair of the image. */
  lemma NormalizeIsVolume(s: seq<byte>)
    ensures Normalize(s).Ok? ==>
              var p := Normalize(s).value.primary;
              && Primaries(s) == [p] && IsPrimary(s, p) && Normalize(s) == NormalizeVolume(s, p)
    ensures forall p | Primaries(s) == [p] :: IsPrimary(s, p) && Normalize(s) == NormalizeVolume(s, p)
  {
    PrimariesFromExact(s, 0);
    hide PrimariesFrom, IsPrimary, StampHeaders, StampCatalog, ReadCatalog, Scatter, Gather;
  }

  /**
    Frame, for every image on which normalisation succeeds: the length stays, and a changed byte
    is a header date, a volume identifier, or the image of a stamped record's date.
   */
  lemma NormalizeFrame(s: seq<byte>, q: nat)
    requires Normalize(s).Ok? && q < |s|
    ensures var run := Normalize(s).value;
            && |run.image| == |s|
            && IsPrimary(s, run.primary) && Primaries(s) == [run.primary]
            && run.alternate == AlternateOffset(s, run.primary)
            && (run.image[q] != s[q] ==> IsVolatile(run.primary, run.alternate, run.extents, run.stamped, q))
  {
    hide Normalize, NormalizeVolume, Primaries, IsPrimary, IsVolatile;
    NormalizeIsVolume(s);
    VolumeFrame(s, Normalize(s).value.primary, q);
  }

  // ---------------------------------------------------------------- well-formed volumes

  /** The catalog's records do not overlap one another. */
  ghost predicate CatalogSpaced(c: seq<byte>, logicalSize: nat)
    requires 512 <= |c| && logicalSize <= |c|
  {
    && IsHeaderNode(c)
    && IsTreeShape(c, logicalSize)
    && NodesWithin(0, NodeSize(c), TotalNodes(c), |c|)
    && SpacedNodes(c, 0, NodeSize(c), TotalNodes(c))
  }

  ghost function CatalogOffsets(c: seq<byte>, logicalSize: nat): seq<nat>
    requires 512 <= |c| && logicalSize <= |c| && CatalogSpaced(c, logicalSize)
  {
    AllOffsets(c, 0, NodeSize(c), TotalNodes(c))
  }

  /** Neither the primary header with its extent table nor the alternate lies in an extent. */
  ghost predicate HeadersApart(p: nat, a: nat, extents: seq<Extent>)
  {
    forall q | p <= q < p + 352 || a <= q < a + 112 :: !InExtents(extents, q)
  }

  /** What the normaliser does not check: extents, headers and catalog records do not overlap. */
  ghost predicate WellFormedVolume(s: seq<byte>, p: nat)
  {
    && IsPrimary(s, p)
    && var read := ReadCatalog(s, p, BlockSize(s, p), TotalBlocks(s, p));
    && read.Ok?
    && Disjoint(read.value.extents)
    && HeadersApart(p, AlternateOffset(s, p), read.value.extents)
    && CatalogSpaced(Gather(s, read.value.extents), read.value.logicalSize)
  }

  ghost function VolumeExtents(s: seq<byte>, p: nat): seq<Extent>
    requires WellFormedVolume(s, p)
  {
    ReadCatalog(s, p, BlockSize(s, p), TotalBlocks(s, p)).value.extents
  }

  /** The catalog positions of the data of all file and folder records, before any stamping. */
  ghost function VolumeOffsets(s: seq<byte>, p: nat): seq<nat>
    requires WellFormedVolume(s, p)
  {
    var file := ReadCatalog(s, p, BlockSize(s, p), TotalBlocks(s, p)).value;
    CatalogOffsets(Gather(s, file.extents), file.logicalSize)
  }

  /** Two images hold the same content: they agree on every byte that is not build-dependent. */
  ghost predicate SameContent(s: seq<byte>, t: seq<byte>, p: nat)
    requires WellFormedVolume(s, p)
  {
    && |s| == |t|
    && forall q | 0 <= q < |s| && !IsVolatile(p, AlternateOffset(s, p), VolumeExtents(s, p), VolumeOffsets(s, p), q) ::
         s[q] == t[q]
  }

  // ---------------------------------------------------------------- the catalog

  lemma CatalogOffsetsWithin(c: seq<byte>, logicalSize: nat, k: int)
    requires 512 <= |c| && logicalSize <= |c| && CatalogSpaced(c, logicalSize)
    requires InFields(CatalogOffsets(c, logicalSize), k)
    ensures 512 < k < |c|
  {
    var nodeSize, nodes := NodeSize(c), TotalNodes(c);
    assert !IsLeaf(c, Node(0, nodeSize));
    assert NodeOffsets(c, Node(0, nodeSize)) == [];
    hide InFields, NodeOffsets, SpacedNode;
    var rest := AllOffsets(c, nodeSize, nodeSize, nodes - 1);
    assert [] + rest == rest;
    AllOffsetsWithin(c, nodeSize, nodeSize, nodes - 1, k);
  }

  lemma StampCatalogTwoPhase(c: seq<byte>, logicalSize: nat)
    requires 512 <= |c| && logicalSize <= |c| && CatalogSpaced(c, logicalSize)
    ensures var offsets := CatalogOffsets(c, logicalSize);
            var leaves := LeafCount(c, 0, NodeSize(c), TotalNodes(c));
            StampCatalog(c, logicalSize)
            == if leaves == U32(c, 20) && |offsets| > 0 then Ok(Walk(StampAll(c, offsets), leaves, offsets))
               else Err(IncompleteLeaves)
  {
    hide WalkNodes, SpacedNodes, AllOffsets, LeafCount, StampAll, NodesWithin, IsTreeShape, IsHeaderNode, U32, U16;
    WalkNodesTwoPhase(Walk(c, 0, []), 0, NodeSize(c), TotalNodes(c));
    assert [] + CatalogOffsets(c, logicalSize) == CatalogOffsets(c, logicalSize);
  }

  /** Catalogs that differ in date bytes only are stamped to the same bytes, or refused alike. */
  lemma StampCatalogCongruent(c1: seq<byte>, c2: seq<byte>, logicalSize: nat)
    requires |c1| == |c2| && 512 <= |c1| && logicalSize <= |c1| && CatalogSpaced(c1, logicalSize)
    requires forall k | 0 <= k < |c1| && !InFields(CatalogOffsets(c1, logicalSize), k) :: c1[k] == c2[k]
    ensures StampCatalog(c2, logicalSize) == StampCatalog(c1, logicalSize)
  {
    SpacedSurvives(c1, c2, logicalSize);
    hide *;
    StampAllCongruent(c1, c2, CatalogOffsets(c1, logicalSize));
    StampCatalogTwoPhase(c1, logicalSize);
    StampCatalogTwoPhase(c2, logicalSize);
  }

  lemma SpacedSurvives(c1: seq<byte>, c2: seq<byte>, logicalSize: nat)
    requires |c1| == |c2| && 512 <= |c1| && logicalSize <= |c1| && CatalogSpaced(c1, logicalSize)
    requires forall k | 0 <= k < |c1| && !InFields(CatalogOffsets(c1, logicalSize), k) :: c1[k] == c2[k]
    ensures NodesWithin(0, NodeSize(c1), TotalNodes(c1), |c1|)
    ensures NodeSize(c2) == NodeSize(c1) && TotalNodes(c2) == TotalNodes(c1) && U32(c2, 20) == U32(c1, 20)
    ensures CatalogSpaced(c2, logicalSize) && CatalogOffsets(c2, logicalSize) == CatalogOffsets(c1, logicalSize)
    ensures LeafCount(c2, 0, NodeSize(c1), TotalNodes(c1)) == LeafCount(c1, 0, NodeSize(c1), TotalNodes(c1))
  {
    hide InFields, SpacedNodes, AllOffsets, LeafCount, NodesWithin, NodeSize, TotalNodes, U32, BitAnd, IsHeaderNode;
    forall k | 0 <= k < 40 ensures c1[k] == c2[k] {
      if InFields(CatalogOffsets(c1, logicalSize), k) {
        CatalogOffsetsWithin(c1, logicalSize, k);
      }
    }
    CatalogHeaderCongruent(c1, c2);
    SpacedNodesCongruent(c1, c2, 0, NodeSize(c1), TotalNodes(c1));
  }

  lemma CatalogHeaderCongruent(c1: seq<byte>, c2: seq<byte>)
    requires |c1| == |c2| && 512 <= |c1| && forall k | 0 <= k < 40 :: c1[k] == c2[k]
    ensures NodeSize(c2) == NodeSize(c1) && TotalNodes(c2) == TotalNodes(c1)
    ensures IsHeaderNode(c2) == IsHeaderNode(c1) && U32(c2, 20) == U32(c1, 20)
  {
  }

  // ---------------------------------------------------------------- headers and extents

  lemma CandidateCongruent(s: seq<byte>, t: seq<byte>, o: nat)
    requires |s| == |t| && IsCandidate(s, o)
    requires forall k | o <= k < o + 4 || o + 40 <= k < o + 52 :: s[k] == t[k]
    ensures IsCandidate(t, o) && BlockSize(t, o) == BlockSize(s, o) && TotalBlocks(t, o) == TotalBlocks(s, o)
  {
    hide BitAnd;
    assert U32(t, o + 40) == U32(s, o + 40);
    assert U32(t, o + 44) == U32(s, o + 44);
    assert U32(t, o + 48) == U32(s, o + 48);
  }

  lemma ReadExtentCongruent(s: seq<byte>, t: seq<byte>, p: nat, blockSize: nat, totalBlocks: nat, room: int, k: nat)
    requires |s| == |t| && k < 8 && 1024 <= p
    requires forall q | p + 288 <= q < p + 352 && q < |s| :: s[q] == t[q]
    ensures ReadExtent(t, p, blockSize, totalBlocks, room, k) == ReadExtent(s, p, blockSize, totalBlocks, room, k)
  {
    if p + 296 + 8 * k <= |s| {
      assert U32(t, p + 288 + 8 * k) == U32(s, p + 288 + 8 * k);
      assert U32(t, p + 292 + 8 * k) == U32(s, p + 292 + 8 * k);
    }
    hide U32;
  }

  lemma {:induction false} ReadExtentsCongruent(s: seq<byte>, t: seq<byte>, p: nat, blockSize: nat, totalBlocks: nat,
                                                capacity: nat, k: nat, acc: seq<Extent>)
    requires |s| == |t| && k <= 8 && 1024 <= p && ExtentsWithin(acc, |s|)
    requires forall q | p + 288 <= q < p + 352 && q < |s| :: s[q] == t[q]
    ensures ReadExtents(t, p, blockSize, totalBlocks, capacity, k, acc)
            == ReadExtents(s, p, blockSize, totalBlocks, capacity, k, acc)
    decreases 8 - k
  {
    hide ReadExtent, TotalLength;
    if k < 8 {
      var room := capacity - TotalLength(acc);
      ReadExtentCongruent(s, t, p, blockSize, totalBlocks, room, k);
      var read := ReadExtent(s, p, blockSize, totalBlocks, room, k);
      if read.Ok? {
        var acc' := if read.value.Some? then acc + [read.value.value] else acc;
        ReadExtentsCongruent(s, t, p, blockSize, totalBlocks, capacity, k + 1, acc');
      }
    }
  }

  lemma ReadCatalogCongruent(s: seq<byte>, t: seq<byte>, p: nat, blockSize: nat, totalBlocks: nat)
    requires |s| == |t|
    requires forall q | p + 272 <= q < p + 352 && q < |s| :: s[q] == t[q]
    ensures ReadCatalog(t, p, blockSize, totalBlocks) == ReadCatalog(s, p, blockSize, totalBlocks)
  {
    hide ReadExtents;
    if 1024 <= p && p + 288 <= |s| {
      assert U64(t, p + 272) == U64(s, p + 272);
      assert U32(t, p + 284) == U32(s, p + 284);
      hide U64, U32;
      ReadExtentsCongruent(s, t, p, blockSize, totalBlocks, U32(s, p + 284) * blockSize, 0, []);
    }
  }

  lemma CandidateBlocks(s: seq<byte>, o: nat) returns (quotient: nat)
    requires IsCandidate(s, o)
    ensures o + 112 <= |s| && BlockSize(s, o) == 512 * quotient
  {
    hide U32, BitAnd;
    quotient := PowerOfTwoMultiple(BlockSize(s, o));
  }

  /** The two headers coincide or lie at least 512 bytes apart. */
  lemma HeaderGap(s: seq<byte>, p: nat)
    requires IsPrimary(s, p)
    ensures var a := AlternateOffset(s, p); a == p || a + 512 <= p || p + 512 <= a
  {
    hide BlockSize, TotalBlocks, IsCandidate;
    var quotient := CandidateBlocks(s, p);
    var blocks := TotalBlocks(s, p);
    assert (512 * quotient) * blocks == 512 * (quotient * blocks);
  }

  // ---------------------------------------------------------------- determinism

  lemma DateByteInExtents(extents: seq<Extent>, stamped: seq<nat>, q: nat)
    requires IsDateByte(extents, stamped, q)
    ensures InExtents(extents, q)
  {
    var i: nat :| i < TotalLength(extents) && Physical(extents, i) == q && InFields(stamped, i);
    var owner := PhysicalOwner(extents, i);
  }

  /** Content determines the header fields that the scan compares. */
  lemma PrimarySurvives(s: seq<byte>, t: seq<byte>, p: nat)
    requires WellFormedVolume(s, p) && SameContent(s, t, p)
    ensures IsPrimary(t, p)
    ensures BlockSize(t, p) == BlockSize(s, p) && TotalBlocks(t, p) == TotalBlocks(s, p)
    ensures AlternateOffset(t, p) == AlternateOffset(s, p)
    ensures forall q | p + 272 <= q < p + 352 && q < |s| :: s[q] == t[q]
  {
    HeaderGap(s, p);
    var a := AlternateOffset(s, p);
    var extents, offsets := VolumeExtents(s, p), VolumeOffsets(s, p);
    hide WellFormedVolume, VolumeExtents, VolumeOffsets, IsDateByte, BlockSize, TotalBlocks, IsCandidate;
    assert HeadersApart(p, a, extents) by {
      ApartFromWellFormed(s, p);
    }
    forall q | 0 <= q < |s| && (p <= q < p + 4 || p + 40 <= q < p + 52 || a <= q < a + 4 || a + 40 <= q < a + 52
                                || p + 272 <= q < p + 352)
      ensures s[q] == t[q]
    {
      if IsDateByte(extents, offsets, q) {
        DateByteInExtents(extents, offsets, q);
      }
    }
    assert p + 112 <= |s| && a + 112 <= |s| by { CandidateWithin(s, p); CandidateWithin(s, a); }
    CandidateCongruent(s, t, p);
    CandidateCongruent(s, t, a);
  }

  lemma CandidateWithin(s: seq<byte>, o: nat)
    requires IsCandidate(s, o)
    ensures o + 112 <= |s|
  {
  }

  lemma ApartFromWellFormed(s: seq<byte>, p: nat)
    requires WellFormedVolume(s, p)
    ensures p + 112 <= |s| && AlternateOffset(s, p) >= 0
    ensures HeadersApart(p, AlternateOffset(s, p), VolumeExtents(s, p)) && Disjoint(VolumeExtents(s, p))
    ensures ExtentsWithin(VolumeExtents(s, p), |s|) && IsPrimary(s, p)
  {
  }

  /** Stamping the headers leaves the geometry and the catalog as they were. */
  lemma HeadedVolume(s: seq<byte>, p: nat)
    requires WellFormedVolume(s, p)
    ensures var headed := StampHeaders(s, p);
            && ReadCatalog(headed, p, BlockSize(s, p), TotalBlocks(s, p))
               == ReadCatalog(s, p, BlockSize(s, p), TotalBlocks(s, p))
            && Gather(headed, VolumeExtents(s, p)) == Gather(s, VolumeExtents(s, p))
  {
    HeaderGap(s, p);
    var a, headed, extents := AlternateOffset(s, p), StampHeaders(s, p), VolumeExtents(s, p);
    ReadCatalogCongruent(s, headed, p, BlockSize(s, p), TotalBlocks(s, p));
    ApartFromWellFormed(s, p);
    hide ReadCatalog, IsPrimary, IsCandidate, CatalogSpaced;
    forall i | 0 <= i < TotalLength(extents) ensures Gather(headed, extents)[i] == Gather(s, extents)[i] {
      GatherAt(s, extents, i);
      GatherAt(headed, extents, i);
      var owner := PhysicalOwner(extents, i);
      assert InExtents(extents, Physical(extents, i));
    }
    assert Gather(headed, extents) == Gather(s, extents);
  }

  lemma HeadedAgree(s: seq<byte>, t: seq<byte>, p: nat, q: nat)
    requires WellFormedVolume(s, p) && SameContent(s, t, p) && IsPrimary(t, p)
    requires AlternateOffset(t, p) == AlternateOffset(s, p)
    requires q < |s| && !IsDateByte(VolumeExtents(s, p), VolumeOffsets(s, p), q)
    ensures StampHeaders(s, p)[q] == StampHeaders(t, p)[q]
  {
    hide WellFormedVolume, VolumeExtents, VolumeOffsets, IsDateByte, IsPrimary, AlternateOffset;
  }

  /** Gathered from two images of the same content, the catalogs differ in date bytes only. */
  lemma GatheredAgree(s: seq<byte>, t: seq<byte>, p: nat, i: nat)
    requires WellFormedVolume(s, p) && SameContent(s, t, p) && IsPrimary(t, p)
    requires AlternateOffset(t, p) == AlternateOffset(s, p)
    requires i < TotalLength(VolumeExtents(s, p)) && !InFields(VolumeOffsets(s, p), i)
    ensures Gather(StampHeaders(t, p), VolumeExtents(s, p))[i] == Gather(StampHeaders(s, p), VolumeExtents(s, p))[i]
  {
    hide *;
    var extents, offsets := VolumeExtents(s, p), VolumeOffsets(s, p);
    ApartFromWellFormed(s, p);
    HeadedLength(s, p);
    HeadedLength(t, p);
    SameContentLength(s, t, p);
    GatherAt(StampHeaders(s, p), extents, i);
    GatherAt(StampHeaders(t, p), extents, i);
    NoDateAt(extents, offsets, i);
    HeadedAgree(s, t, p, Physical(extents, i));
  }

  lemma SameContentLength(s: seq<byte>, t: seq<byte>, p: nat)
    requires WellFormedVolume(s, p) && SameContent(s, t, p)
    ensures |s| == |t|
  {
  }

  lemma HeadedLength(s: seq<byte>, p: nat)
    requires IsPrimary(s, p)
    ensures |StampHeaders(s, p)| == |s|
  {
    hide IsPrimary, AlternateOffset;
  }

  /** Over disjoint extents a catalog byte outside the dates lies at no date byte of the image. */
  lemma NoDateAt(extents: seq<Extent>, offsets: seq<nat>, i: nat)
    requires Disjoint(extents) && i < TotalLength(extents) && !InFields(offsets, i)
    ensures !IsDateByte(extents, offsets, Physical(extents, i))
  {
    hide InFields, Disjoint, TotalLength, Physical;
    forall j: nat | j < TotalLength(extents) && Physical(extents, j) == Physical(extents, i) ensures j == i {
      if j < i {
        PhysicalInjective(extents, j, i);
      } else if i < j {
        PhysicalInjective(extents, i, j);
      }
    }
  }

  /** The volume step gives the same answer for two images of the same content. */
  lemma NormalizeVolumeCongruent(s: seq<byte>, t: seq<byte>, p: nat)
    requires WellFormedVolume(s, p) && SameContent(s, t, p)
    ensures IsPrimary(t, p) && NormalizeVolume(t, p) == NormalizeVolume(s, p)
  {
    PrimarySurvives(s, t, p);
    HeadedVolume(s, p);
    var hs, ht := StampHeaders(s, p), StampHeaders(t, p);
    var extents, offsets := VolumeExtents(s, p), VolumeOffsets(s, p);
    ApartFromWellFormed(s, p);
    forall q | 0 <= q < |s| && !InExtents(extents, q) ensures hs[q] == ht[q] {
      if IsDateByte(extents, offsets, q) {
        DateByteInExtents(extents, offsets, q);
      }
      HeadedAgree(s, t, p, q);
    }
    var size := ReadCatalog(s, p, BlockSize(s, p), TotalBlocks(s, p)).value.logicalSize;
    var cs, ct := Gather(hs, extents), Gather(ht, extents);
    forall k | 0 <= k < |cs| && !InFields(CatalogOffsets(cs, size), k) ensures cs[k] == ct[k] {
      GatheredAgree(s, t, p, k);
    }
    StampCatalogCongruent(cs, ct, size);
    assert ReadCatalog(ht, p, BlockSize(s, p), TotalBlocks(s, p)) == ReadCatalog(hs, p, BlockSize(s, p), TotalBlocks(s, p))
    by {
      forall q | p + 272 <= q < p + 352 && q < |s| ensures hs[q] == ht[q] {
        assert !InExtents(extents, q);
      }
      ReadCatalogCongruent(hs, ht, p, BlockSize(s, p), TotalBlocks(s, p));
    }
    if StampCatalog(cs, size).Ok? {
      ScatterCongruent(hs, ht, extents, StampCatalog(cs, size).value.catalog);
    }
  }

  /**
    Determinism: an image with the same content as a well-formed one is normalised to the same
    bytes (or refused for the same reason) exactly when its volatile bytes do not make the scan
    see another number of header pairs, in which case it is refused.
   */
  lemma NormalizeDeterministic(s: seq<byte>, t: seq<byte>, p: nat)
    requires Primaries(s) == [p] && WellFormedVolume(s, p) && SameContent(s, t, p)
    ensures Normalize(t) == if |Primaries(t)| == 1 then Normalize(s) else Err(NoHeaderPair)
  {
    hide WellFormedVolume, SameContent, Normalize, NormalizeVolume, IsPrimary, PrimariesFrom;
    NormalizeVolumeCongruent(s, t, p);
    NormalizeIsVolume(s);
    NormalizeIsVolume(t);
    PrimariesFromExact(t, 0);
    PrimaryIndex(t, p);
    assert p in Primaries(t);
    if |Primaries(t)| == 1 {
      assert Primaries(t) == [p];
    } else {
      NoSinglePair(t);
    }
  }

  lemma NoSinglePair(t: seq<byte>)
    requires |Primaries(t)| != 1
    ensures Normalize(t) == Err(NoHeaderPair)
  {
    hide PrimariesFrom, NormalizeVolume;
  }

  lemma PrimaryIndex(t: seq<byte>, p: nat)
    requires IsPrimary(t, p)
    ensures p < |t|
  {
  }
}
