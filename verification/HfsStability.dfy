/**
  What a normalised image holds, and when normalising it again changes nothing.
 */
module HfsStability {
  import opened Results
  import opened Bytes
  import opened HfsVolume
  import opened HfsExtents
  import opened HfsCatalog
  import opened HfsTheorems

  // ---------------------------------------------------------------- the stamped values

  /** Records of a well-formed catalog are far enough apart that no stamp overwrites another. */
  ghost predicate Spread(offsets: seq<nat>)
  {
    forall i, j | 0 <= i < j < |offsets| :: offsets[i] + 72 <= offsets[j]
  }

  ghost predicate Between(offsets: seq<nat>, lo: int, hi: int)
  {
    forall d | d in offsets :: lo < d && d + 88 <= hi
  }

  lemma SpreadConcat(a: seq<nat>, b: seq<nat>, lo: int, mid: int, hi: int)
    requires Spread(a) && Spread(b) && Between(a, lo, mid) && Between(b, mid, hi) && lo <= mid <= hi
    ensures Spread(a + b) && Between(a + b, lo, hi)
  {
    var all := a + b;
    forall i, j | 0 <= i < j < |all| ensures all[i] + 72 <= all[j] {
      if i < |a| && |a| <= j {
        assert a[i] in a && b[j - |a|] in b;
      }
    }
  }

  lemma {:induction false} OffsetsSpread(c: seq<byte>, n: Node, table: nat, count: nat, r: nat, previous: nat, floor: nat)
    requires NodeWithin(n, |c|)
    requires r <= count && table + (count + 1) * 2 == n.start + n.size && floor <= table
    requires Spaced(c, n, table, count, r, previous, floor)
    ensures var offsets := Offsets(c, n, table, count, r, previous, floor);
            Spread(offsets) && Between(offsets, floor, table)
    decreases count - r
  {
    hide ReadRecord;
    if r < count {
      var record := ReadRecord(c, n, table, r, previous).value;
      OffsetsSpread(c, n, table, count, r + 1, record.key - n.start, record.End());
      var rest := Offsets(c, n, table, count, r + 1, record.key - n.start, record.End());
      SpreadConcat(Stamps(record), rest, floor, record.End(), table);
    }
  }

  lemma {:induction false} AllOffsetsSpread(c: seq<byte>, start: nat, nodeSize: nat, nodes: nat)
    requires NodesWithin(start, nodeSize, nodes, |c|) && start <= |c|
    requires SpacedNodes(c, start, nodeSize, nodes)
    ensures var offsets := AllOffsets(c, start, nodeSize, nodes);
            Spread(offsets) && Between(offsets, start, |c|)
    decreases nodes
  {
    hide Spaced, Offsets;
    if nodes > 0 {
      var n := Node(start, nodeSize);
      if IsLeaf(c, n) {
        OffsetsSpread(c, n, TableStart(c, n), RecordCount(c, n), 0, 13, n.start + 14);
      }
      AllOffsetsSpread(c, start + nodeSize, nodeSize, nodes - 1);
      var rest := AllOffsets(c, start + nodeSize, nodeSize, nodes - 1);
      hide RecordCount, IsLeaf;
      SpreadConcat(NodeOffsets(c, n), rest, start, start + nodeSize, |c|);
    }
  }

  /** Every stamped byte holds the value its own record prescribes. */
  lemma {:induction false} StampAllValue(c: seq<byte>, offsets: seq<nat>, d: nat, k: nat)
    requires Spread(offsets) && d in offsets && IsRecordField(k - d) && k < |c|
    ensures StampAll(c, offsets)[k] == RecordByte(k - d)
    decreases |offsets|
  {
    var rest := offsets[1..];
    if d == offsets[0] {
      forall e | e in rest ensures !IsRecordField(k - e) {
        var j :| 0 <= j < |rest| && rest[j] == e;
        assert offsets[0] + 72 <= offsets[j + 1];
      }
      StampAllFrame(StampRecord(c, d), rest, k);
    } else {
      assert d in rest;
      StampAllValue(StampRecord(c, offsets[0]), rest, d, k);
    }
  }

  /** On a well-formed volume the run stamps exactly the records of the untouched catalog. */
  lemma RunOnWellFormed(s: seq<byte>, p: nat)
    requires Primaries(s) == [p] && WellFormedVolume(s, p) && Normalize(s).Ok?
    ensures var run := Normalize(s).value;
            && run.primary == p && run.alternate == AlternateOffset(s, p) && IsPrimary(s, p)
            && run.extents == VolumeExtents(s, p) && run.stamped == VolumeOffsets(s, p)
            && run.image == Scatter(StampHeaders(s, p), run.extents,
                                    StampAll(Gather(s, run.extents), run.stamped))
  {
    NormalizeIsVolume(s);
    HeadedVolume(s, p);
    var file := ReadCatalog(s, p, BlockSize(s, p), TotalBlocks(s, p)).value;
    StampCatalogTwoPhase(Gather(s, file.extents), file.logicalSize);
    hide Primaries, Normalize, ReadCatalog, IsPrimary, Gather, StampCatalog, StampAll, CatalogSpaced, BlockSize, TotalBlocks;
  }

  /** Normalising keeps the content. */
  lemma RunKeepsContent(s: seq<byte>, p: nat)
    requires Primaries(s) == [p] && WellFormedVolume(s, p) && Normalize(s).Ok?
    ensures SameContent(s, Normalize(s).value.image, p)
  {
    RunOnWellFormed(s, p);
    hide Primaries, Normalize, IsVolatile, WellFormedVolume, VolumeExtents, VolumeOffsets;
    var run := Normalize(s).value;
    forall q | 0 <= q < |s| && !IsVolatile(p, AlternateOffset(s, p), VolumeExtents(s, p), VolumeOffsets(s, p), q)
      ensures s[q] == run.image[q]
    {
      NormalizeFrame(s, q);
    }
  }

  /**
    A second run finds what the first one left: it succeeds with the very same image exactly
    when the first one's stamps left one header pair, and is refused otherwise.
   */
  lemma NormalizeIdempotent(s: seq<byte>, p: nat)
    requires Primaries(s) == [p] && WellFormedVolume(s, p) && Normalize(s).Ok?
    ensures var image := Normalize(s).value.image;
            Normalize(image) == if |Primaries(image)| == 1 then Normalize(s) else Err(NoHeaderPair)
  {
    RunKeepsContent(s, p);
    NormalizeDeterministic(s, Normalize(s).value.image, p);
  }

  /** Byte `i` of the normalised catalog, seen in the image. */
  lemma ImageOfCatalog(s: seq<byte>, p: nat, i: nat)
    requires Primaries(s) == [p] && WellFormedVolume(s, p) && Normalize(s).Ok?
    requires i < TotalLength(VolumeExtents(s, p))
    ensures var run := Normalize(s).value;
            && run.extents == VolumeExtents(s, p) && run.stamped == VolumeOffsets(s, p)
            && Physical(run.extents, i) < |s|
            && ExtentsWithin(run.extents, |s|)
            && run.image[Physical(run.extents, i)] == StampAll(Gather(s, run.extents), run.stamped)[i]
  {
    RunOnWellFormed(s, p);
    ApartFromWellFormed(s, p);
    hide Primaries, Normalize, WellFormedVolume, VolumeExtents, VolumeOffsets, StampAll, Gather, Scatter, StampHeaders, IsPrimary;
    var run := Normalize(s).value;
    ScatterAt(StampHeaders(s, p), run.extents, StampAll(Gather(s, run.extents), run.stamped), i);
  }

  /** Every date byte of every file and folder record holds its stamp. */
  lemma DateByteValue(s: seq<byte>, p: nat, d: nat, j: nat)
    requires Primaries(s) == [p] && WellFormedVolume(s, p) && Normalize(s).Ok?
    requires d in VolumeOffsets(s, p) && IsRecordField(j)
    ensures var extents := VolumeExtents(s, p);
            && Normalize(s).value.extents == extents
            && d + j < TotalLength(extents)
            && Physical(extents, d + j) < |s|
            && Normalize(s).value.image[Physical(extents, d + j)] == RecordByte(j)
  {
    hide *;
    SpreadOffsets(s, p);
    FieldWithin(VolumeOffsets(s, p), TotalLength(VolumeExtents(s, p)), d, j);
    ApartFromWellFormed(s, p);
    var extents, offsets := VolumeExtents(s, p), VolumeOffsets(s, p);
    ImageOfCatalog(s, p, d + j);
    StampAllValue(Gather(s, extents), offsets, d, d + j);
  }

  lemma FieldWithin(offsets: seq<nat>, size: nat, d: nat, j: nat)
    requires Between(offsets, 0, size) && d in offsets && IsRecordField(j)
    ensures d + j < size
  {
  }

  /**
    In the normalised image every file and folder record carries 2020-01-01T00:00:00Z in its five
    HFS+ dates, counted from 1904, and in its Finder date, counted from 1970.
   */
  lemma NormalizedDates(s: seq<byte>, p: nat, d: nat, o: nat)
    requires Primaries(s) == [p] && WellFormedVolume(s, p) && Normalize(s).Ok?
    requires d in VolumeOffsets(s, p) && o in {12, 16, 20, 24, 28, 68}
    ensures var run := Normalize(s).value;
            && ExtentsWithin(run.extents, |run.image|)
            && d + o + 4 <= TotalLength(run.extents)
            && U32(Gather(run.image, run.extents), d + o)
               == if o == 68 then 1577836800 else 1577836800 + 2082844800
  {
    hide *;
    ApartFromWellFormed(s, p);
    RunOnWellFormed(s, p);
    var run := Normalize(s).value;
    var c := Gather(run.image, run.extents);
    forall i | d + o <= i < d + o + 4 ensures IsRecordField(i - d) && i < |c| && c[i] == RecordByte(i - d) {
      FieldRange(o, i - d);
      DateByteValue(s, p, d, i - d);
      GatherAt(run.image, run.extents, i);
    }
    FieldRange(o, o + 3);
    DateByteValue(s, p, d, o + 3);
    DateWord(c, d, o);
  }

  lemma FieldRange(o: nat, j: int)
    requires o in {12, 16, 20, 24, 28, 68} && o <= j < o + 4
    ensures IsRecordField(j)
  {
  }

  lemma DateWord(c: seq<byte>, d: nat, o: nat)
    requires o in {12, 16, 20, 24, 28, 68} && d + o + 4 <= |c|
    requires forall i | d + o <= i < d + o + 4 :: c[i] == RecordByte(i - d)
    ensures U32(c, d + o) == if o == 68 then 1577836800 else 1577836800 + 2082844800
  {
    assert c[d + o] == RecordByte(o) && c[d + o + 1] == RecordByte(o + 1);
    assert c[d + o + 2] == RecordByte(o + 2) && c[d + o + 3] == RecordByte(o + 3);
  }

  lemma SpreadOffsets(s: seq<byte>, p: nat)
    requires WellFormedVolume(s, p)
    ensures Spread(VolumeOffsets(s, p)) && Between(VolumeOffsets(s, p), 0, TotalLength(VolumeExtents(s, p)))
  {
    var file := ReadCatalog(s, p, BlockSize(s, p), TotalBlocks(s, p)).value;
    var c := Gather(s, file.extents);
    hide ReadCatalog, Gather, AllOffsets, SpacedNodes, NodeSize, TotalNodes, IsPrimary, BlockSize, TotalBlocks;
    AllOffsetsSpread(c, 0, NodeSize(c), TotalNodes(c));
  }

  /** Every date and volume-identifier byte of both headers holds its stamp. */
  lemma NormalizedHeaders(s: seq<byte>, p: nat, o: nat, j: nat)
    requires Primaries(s) == [p] && WellFormedVolume(s, p) && Normalize(s).Ok?
    requires (o == p || o == AlternateOffset(s, p)) && IsHeaderField(j)
    ensures o + j < |s| && Normalize(s).value.image[o + j] == HeaderByte(j)
  {
    hide *;
    RunOnWellFormed(s, p);
    HeadedValue(s, p, o, j);
    ApartFromWellFormed(s, p);
    var run := Normalize(s).value;
    var catalog := StampAll(Gather(s, run.extents), run.stamped);
    var i := ScatterSource(StampHeaders(s, p), run.extents, catalog, o + j);
    if i != -1 {
      var owner := PhysicalOwner(run.extents, i);
      HeaderOutside(p, run.alternate, run.extents, o, j, owner);
    }
  }

  lemma HeaderOutside(p: nat, a: nat, extents: seq<Extent>, o: nat, j: nat, owner: nat)
    requires HeadersApart(p, a, extents) && (o == p || o == a) && IsHeaderField(j) && owner < |extents|
    ensures !InExtent(extents[owner], o + j)
  {
    assert extents[owner] in extents;
    assert !InExtents(extents, o + j);
  }

  lemma HeadedValue(s: seq<byte>, p: nat, o: nat, j: nat)
    requires IsPrimary(s, p) && (o == p || o == AlternateOffset(s, p)) && IsHeaderField(j)
    ensures o + j < |s| && StampHeaders(s, p)[o + j] == HeaderByte(j)
  {
    hide IsCandidate, BlockSize, TotalBlocks, HeaderByte;
    HeaderGap(s, p);
    CandidateWithin(s, p);
    CandidateWithin(s, AlternateOffset(s, p));
  }

  // ---------------------------------------------------------------- when the header pair stays unique

  /** No record's last date is split over two extents. */
  ghost predicate DatesUnsplit(extents: seq<Extent>, offsets: seq<nat>)
  {
    forall d | d in offsets ::
      && d + 71 < TotalLength(extents)
      && Physical(extents, d + 70) + 1 == Physical(extents, d + 71)
  }

  lemma {:induction false} SinglePrimary(t: seq<byte>, p: nat, o: nat)
    requires o <= |t| && IsPrimary(t, p) && p < |t|
    requires forall q | IsPrimary(t, q) :: q == p
    ensures PrimariesFrom(t, o) == if o <= p then [p] else []
    decreases |t| - o
  {
    hide IsPrimary;
    if o < |t| {
      SinglePrimary(t, p, o + 1);
    }
  }

  lemma {:induction false} StampBytes(j: nat)
    ensures IsHeaderField(j) ==> HeaderByte(j) !in {0x48, 0x2b, 0x00, 0x04}
    ensures IsRecordField(j) ==> RecordByte(j) !in {0x48, 0x2b, 0x04}
    ensures IsRecordField(j) && RecordByte(j) == 0 ==> j == 71
  {
  }

  lemma FieldOwner(offsets: seq<nat>, i: nat) returns (d: nat)
    requires InFields(offsets, i)
    ensures d in offsets && d <= i && IsRecordField(i - d)
  {
    d :| d in offsets && IsRecordField(i - d);
  }

  lemma HeaderFieldRange(j: int)
    requires IsHeaderField(j)
    ensures j >= 0
  {
  }

  lemma DateByteIndex(p: nat, a: nat, extents: seq<Extent>, offsets: seq<nat>, q: nat) returns (i: nat)
    requires IsVolatile(p, a, extents, offsets, q) && !IsHeaderField(q - p) && !IsHeaderField(q - a)
    ensures i < TotalLength(extents) && Physical(extents, i) == q && InFields(offsets, i)
  {
    i :| i < TotalLength(extents) && Physical(extents, i) == q && InFields(offsets, i);
  }

  /** A volatile byte of a normalised image holds a stamp; only a record's last one is zero. */
  lemma VolatileValue(s: seq<byte>, p: nat, q: nat) returns (d: int)
    requires Primaries(s) == [p] && WellFormedVolume(s, p) && Normalize(s).Ok? && q < |s|
    requires IsVolatile(p, AlternateOffset(s, p), VolumeExtents(s, p), VolumeOffsets(s, p), q)
    ensures Normalize(s).value.image[q] !in {0x48, 0x2b, 0x04}
    ensures Normalize(s).value.image[q] == 0 ==>
              && d >= 0 && d in VolumeOffsets(s, p)
              && d + 71 < TotalLength(VolumeExtents(s, p))
              && Physical(VolumeExtents(s, p), d + 71) == q
  {
    hide *;
    ApartFromWellFormed(s, p);
    var a, extents, offsets := AlternateOffset(s, p), VolumeExtents(s, p), VolumeOffsets(s, p);
    d := -1;
    if IsHeaderField(q - p) {
      HeaderFieldRange(q - p);
      NormalizedHeaders(s, p, p, q - p);
      StampBytes(q - p);
    } else if IsHeaderField(q - a) {
      HeaderFieldRange(q - a);
      NormalizedHeaders(s, p, a, q - a);
      StampBytes(q - a);
    } else {
      var i := DateByteIndex(p, a, extents, offsets, q);
      d := FieldOwner(offsets, i);
      DateByteValue(s, p, d, i - d);
      StampBytes(i - d);
    }
  }

  /** Image byte `x` is no build-dependent metadata. */
  ghost predicate IsContent(s: seq<byte>, p: nat, x: nat)
    requires WellFormedVolume(s, p)
  {
    x < |s| && !IsVolatile(p, AlternateOffset(s, p), VolumeExtents(s, p), VolumeOffsets(s, p), x)
  }

  /** Image byte `x` is the last byte of some record's Finder date. */
  ghost predicate IsDateEnd(s: seq<byte>, p: nat, x: nat)
    requires WellFormedVolume(s, p)
  {
    exists d | d in VolumeOffsets(s, p) ::
      d + 71 < TotalLength(VolumeExtents(s, p)) && Physical(VolumeExtents(s, p), d + 71) == x
  }

  /** The image lacks a header signature at `o` only by a byte that ends a Finder date, and so becomes zero. */
  ghost predicate IsCompleted(s: seq<byte>, p: nat, o: nat)
    requires WellFormedVolume(s, p)
  {
    && o + 4 <= |s| && s[o] == 0x48 && s[o + 1] == 0x2b && s[o + 3] == 4
    && IsContent(s, p, o) && IsContent(s, p, o + 1) && IsContent(s, p, o + 3) && IsDateEnd(s, p, o + 2)
  }

  lemma DateEndIsZero(s: seq<byte>, p: nat, x: nat)
    requires Primaries(s) == [p] && WellFormedVolume(s, p) && Normalize(s).Ok? && IsDateEnd(s, p, x)
    ensures x < |s| && |Normalize(s).value.image| == |s| && Normalize(s).value.image[x] == 0
  {
    hide *;
    var d := DateEndOwner(s, p, x);
    LastDateByte();
    DateByteValue(s, p, d, 71);
    RunKeepsContent(s, p);
    SameLength(s, Normalize(s).value.image, p);
  }

  lemma DateEndOwner(s: seq<byte>, p: nat, x: nat) returns (d: nat)
    requires WellFormedVolume(s, p) && IsDateEnd(s, p, x)
    ensures d in VolumeOffsets(s, p) && d + 71 < TotalLength(VolumeExtents(s, p)) && Physical(VolumeExtents(s, p), d + 71) == x
  {
    hide WellFormedVolume, VolumeExtents, VolumeOffsets, TotalLength, Physical;
    d :| d in VolumeOffsets(s, p) && d + 71 < TotalLength(VolumeExtents(s, p)) && Physical(VolumeExtents(s, p), d + 71) == x;
  }

  lemma ContentByte(s: seq<byte>, t: seq<byte>, p: nat, x: nat)
    requires WellFormedVolume(s, p) && SameContent(s, t, p) && IsContent(s, p, x)
    ensures x < |s| == |t| && s[x] == t[x]
  {
    hide WellFormedVolume, IsVolatile, VolumeExtents, VolumeOffsets;
  }

  lemma SameLength(s: seq<byte>, t: seq<byte>, p: nat)
    requires WellFormedVolume(s, p) && SameContent(s, t, p)
    ensures |s| == |t|
  {
  }

  /** The signature at `q` is content and stays. */
  ghost predicate IsKept(s: seq<byte>, p: nat, q: nat)
    requires WellFormedVolume(s, p)
  {
    IsSignature(s, q) && forall x | q <= x < q + 4 :: IsContent(s, p, x)
  }

  /** The header signatures of the result, told from the image before the run. */
  lemma SignaturesExactly(s: seq<byte>, p: nat, q: nat)
    requires Primaries(s) == [p] && WellFormedVolume(s, p) && Normalize(s).Ok?
    ensures IsSignature(Normalize(s).value.image, q) <==> IsCompleted(s, p, q) || IsKept(s, p, q)
  {
    hide *;
    if IsSignature(Normalize(s).value.image, q) {
      StampedSignature(s, p, q);
    }
    if IsCompleted(s, p, q) {
      CompletedSignature(s, p, q);
    }
    if IsKept(s, p, q) {
      KeptSignature(s, p, q);
    }
  }

  lemma CompletedSignature(s: seq<byte>, p: nat, q: nat)
    requires Primaries(s) == [p] && WellFormedVolume(s, p) && Normalize(s).Ok? && IsCompleted(s, p, q)
    ensures IsSignature(Normalize(s).value.image, q)
  {
    hide Primaries, Normalize, WellFormedVolume, SameContent, IsContent, IsDateEnd;
    var image := Normalize(s).value.image;
    RunKeepsContent(s, p);
    ContentByte(s, image, p, q);
    ContentByte(s, image, p, q + 1);
    DateEndIsZero(s, p, q + 2);
    ContentByte(s, image, p, q + 3);
  }

  lemma KeptSignature(s: seq<byte>, p: nat, q: nat)
    requires Primaries(s) == [p] && WellFormedVolume(s, p) && Normalize(s).Ok? && IsKept(s, p, q)
    ensures IsSignature(Normalize(s).value.image, q)
  {
    hide Primaries, Normalize, WellFormedVolume, SameContent, IsContent;
    var image := Normalize(s).value.image;
    RunKeepsContent(s, p);
    forall x | q <= x < q + 4 ensures x < |image| && s[x] == image[x] {
      ContentByte(s, image, p, x);
    }
  }

  lemma StampedSignature(s: seq<byte>, p: nat, q: nat)
    requires Primaries(s) == [p] && WellFormedVolume(s, p) && Normalize(s).Ok?
    requires IsSignature(Normalize(s).value.image, q)
    ensures IsCompleted(s, p, q) || IsKept(s, p, q)
  {
    hide Primaries, Normalize, WellFormedVolume, SameContent, IsContent, IsDateEnd;
    var image := Normalize(s).value.image;
    RunKeepsContent(s, p);
    SameLength(s, image, p);
    forall x | q <= x < q + 4
      ensures if IsContent(s, p, x) then s[x] == image[x] else x == q + 2 && IsDateEnd(s, p, x)
    {
      if IsContent(s, p, x) {
        ContentByte(s, image, p, x);
      } else {
        ZeroIsDateEnd(s, p, x);
      }
    }
  }

  lemma ZeroIsDateEnd(s: seq<byte>, p: nat, x: nat)
    requires Primaries(s) == [p] && WellFormedVolume(s, p) && Normalize(s).Ok? && x < |s| && !IsContent(s, p, x)
    ensures |Normalize(s).value.image| == |s| && Normalize(s).value.image[x] !in {0x48, 0x2b, 0x04}
    ensures Normalize(s).value.image[x] == 0 ==> IsDateEnd(s, p, x)
  {
    hide Primaries, Normalize, WellFormedVolume, VolumeExtents, VolumeOffsets, IsVolatile;
    RunKeepsContent(s, p);
    var d := VolatileValue(s, p, x);
  }

  lemma LastDateByte()
    ensures IsRecordField(70) && RecordByte(70) != 0x2b && IsRecordField(71) && RecordByte(71) == 0
  {
  }

  /** The catalog position of a date byte of the image, and the record it belongs to. */
  ghost function DatePosition(extents: seq<Extent>, offsets: seq<nat>, x: nat): (r: (nat, nat))
    requires IsDateByte(extents, offsets, x)
    ensures r.0 < TotalLength(extents) && Physical(extents, r.0) == x
    ensures r.1 in offsets && r.1 <= r.0 && IsRecordField(r.0 - r.1)
  {
    var i: nat, d :| i < TotalLength(extents) && Physical(extents, i) == x && d in offsets && IsRecordField(i - d);
    (i, d)
  }

  /** The stamp of a date byte of the image. */
  ghost function DateByteOf(extents: seq<Extent>, offsets: seq<nat>, x: nat): byte
    requires IsDateByte(extents, offsets, x)
  {
    var position := DatePosition(extents, offsets, x);
    RecordByte(position.0 - position.1)
  }

  /** What byte `x` is worth once its build-dependent part is fixed: a stamp, or the byte as it is. */
  ghost function Settled(s: seq<byte>, p: nat, x: nat): byte
    requires WellFormedVolume(s, p) && x < |s|
  {
    if IsHeaderField(x - p) then HeaderByte(x - p)
    else if IsHeaderField(x - AlternateOffset(s, p)) then HeaderByte(x - AlternateOffset(s, p))
    else if IsDateByte(VolumeExtents(s, p), VolumeOffsets(s, p), x) then DateByteOf(VolumeExtents(s, p), VolumeOffsets(s, p), x)
    else s[x]
  }

  ghost function SettledWord(s: seq<byte>, p: nat, x: nat): nat
    requires WellFormedVolume(s, p) && x + 4 <= |s|
  {
    U32([Settled(s, p, x), Settled(s, p, x + 1), Settled(s, p, x + 2), Settled(s, p, x + 3)], 0)
  }

  /** A signature that stays or is completed, followed by a plausible header. */
  ghost predicate IsSettledHeader(s: seq<byte>, p: nat, o: nat)
    requires WellFormedVolume(s, p)
  {
    && (IsCompleted(s, p, o) || IsKept(s, p, o)) && o + 112 <= |s|
    && var blockSize, totalBlocks := SettledWord(s, p, o + 40), SettledWord(s, p, o + 44);
    && blockSize >= 512 && BitAnd(blockSize, blockSize - 1) == 0
    && 0 < totalBlocks && SettledWord(s, p, o + 48) <= totalBlocks
  }

  /** Where the alternate of a header at `q` belongs. */
  ghost function SettledAlternate(s: seq<byte>, p: nat, q: nat): int
    requires WellFormedVolume(s, p) && q + 112 <= |s|
  {
    q + SettledWord(s, p, q + 40) * SettledWord(s, p, q + 44) - 2048
  }

  /** A header with its alternate. */
  ghost predicate IsSettledPair(s: seq<byte>, p: nat, q: nat)
    requires WellFormedVolume(s, p)
  {
    && IsSettledHeader(s, p, q)
    && var a := SettledAlternate(s, p, q);
    && 0 <= a && IsSettledHeader(s, p, a)
    && SettledWord(s, p, a + 40) == SettledWord(s, p, q + 40) && SettledWord(s, p, a + 44) == SettledWord(s, p, q + 44)
  }

  /** A header with its alternate of which one lacks its signature only by the end of a Finder date. */
  ghost predicate CompletesHeader(s: seq<byte>, p: nat, q: nat)
    requires WellFormedVolume(s, p)
  {
    IsSettledPair(s, p, q) && (IsCompleted(s, p, q) || IsCompleted(s, p, SettledAlternate(s, p, q)))
  }

  lemma SettledDate(s: seq<byte>, p: nat, x: nat)
    requires Primaries(s) == [p] && WellFormedVolume(s, p) && Normalize(s).Ok? && x < |s|
    requires IsDateByte(VolumeExtents(s, p), VolumeOffsets(s, p), x)
    ensures |Normalize(s).value.image| == |s|
    ensures Normalize(s).value.image[x] == DateByteOf(VolumeExtents(s, p), VolumeOffsets(s, p), x)
  {
    hide Primaries, Normalize, WellFormedVolume, VolumeExtents, VolumeOffsets, TotalLength, Physical, RecordByte, IsRecordField,
         DatePosition, IsDateByte;
    var position := DatePosition(VolumeExtents(s, p), VolumeOffsets(s, p), x);
    DateByteValue(s, p, position.1, position.0 - position.1);
  }

  /** Every byte of the result is worth what the image before the run says. */
  lemma SettledExactly(s: seq<byte>, p: nat, x: nat)
    requires Primaries(s) == [p] && WellFormedVolume(s, p) && Normalize(s).Ok? && x < |s|
    ensures |Normalize(s).value.image| == |s| && Normalize(s).value.image[x] == Settled(s, p, x)
  {
    hide Primaries, Normalize, WellFormedVolume, VolumeExtents, VolumeOffsets, SameContent, IsDateByte, DateByteOf, HeaderByte,
         AlternateOffset, IsHeaderField;
    ApartFromWellFormed(s, p);
    RunKeepsContent(s, p);
    SameLength(s, Normalize(s).value.image, p);
    var a := AlternateOffset(s, p);
    if IsHeaderField(x - p) {
      HeaderFieldRange(x - p);
      NormalizedHeaders(s, p, p, x - p);
    } else if IsHeaderField(x - a) {
      HeaderFieldRange(x - a);
      NormalizedHeaders(s, p, a, x - a);
    } else if IsDateByte(VolumeExtents(s, p), VolumeOffsets(s, p), x) {
      SettledDate(s, p, x);
    } else {
      ContentByte(s, Normalize(s).value.image, p, x);
    }
  }

  lemma SettledWordExactly(s: seq<byte>, p: nat, x: nat)
    requires Primaries(s) == [p] && WellFormedVolume(s, p) && Normalize(s).Ok? && x + 4 <= |s|
    ensures |Normalize(s).value.image| == |s| && U32(Normalize(s).value.image, x) == SettledWord(s, p, x)
  {
    hide Primaries, Normalize, WellFormedVolume, Settled;
    SettledExactly(s, p, x);
    SettledExactly(s, p, x + 1);
    SettledExactly(s, p, x + 2);
    SettledExactly(s, p, x + 3);
  }

  lemma SettledHeaderExactly(s: seq<byte>, p: nat, o: nat)
    requires Primaries(s) == [p] && WellFormedVolume(s, p) && Normalize(s).Ok?
    ensures |Normalize(s).value.image| == |s|
    ensures IsCandidate(Normalize(s).value.image, o) <==> IsSettledHeader(s, p, o)
    ensures o + 112 <= |s| ==> AlternateOffset(Normalize(s).value.image, o) == SettledAlternate(s, p, o)
    ensures o + 112 <= |s| ==> BlockSize(Normalize(s).value.image, o) == SettledWord(s, p, o + 40)
                               && TotalBlocks(Normalize(s).value.image, o) == SettledWord(s, p, o + 44)
  {
    hide Primaries, Normalize, WellFormedVolume, SettledWord, IsCompleted, IsKept, IsSignature, U32, BitAnd, SameContent;
    RunKeepsContent(s, p);
    SameLength(s, Normalize(s).value.image, p);
    SignaturesExactly(s, p, o);
    if o + 112 <= |s| {
      SettledWordExactly(s, p, o + 40);
      SettledWordExactly(s, p, o + 44);
      SettledWordExactly(s, p, o + 48);
    }
  }

  /** The headers of the result that have their alternate, told from the image before the run. */
  lemma SettledPairExactly(s: seq<byte>, p: nat, q: nat)
    requires Primaries(s) == [p] && WellFormedVolume(s, p) && Normalize(s).Ok?
    ensures IsPrimary(Normalize(s).value.image, q) <==> IsSettledPair(s, p, q)
  {
    hide Primaries, Normalize, WellFormedVolume, SettledWord, IsCandidate, IsSettledHeader, AlternateOffset, SettledAlternate,
         BlockSize, TotalBlocks;
    SettledHeaderExactly(s, p, q);
    if IsSettledHeader(s, p, q) {
      SettledWithin(s, p, q);
      var a := SettledAlternate(s, p, q);
      if a >= 0 {
        SettledHeaderExactly(s, p, a);
        if IsSettledHeader(s, p, a) {
          SettledWithin(s, p, a);
        }
      }
    }
  }

  lemma SettledWithin(s: seq<byte>, p: nat, o: nat)
    requires WellFormedVolume(s, p) && IsSettledHeader(s, p, o)
    ensures o + 112 <= |s|
  {
    hide WellFormedVolume, SettledWord, IsCompleted, IsKept, BitAnd;
  }

  /** Neither header of the pair can be completed: no catalog byte lies in them. */
  lemma PairIsComplete(s: seq<byte>, p: nat, o: nat)
    requires WellFormedVolume(s, p) && (o == p || o == AlternateOffset(s, p))
    ensures !IsCompleted(s, p, o)
  {
    hide *;
    ApartFromWellFormed(s, p);
    if IsCompleted(s, p, o) {
      var extents, i := DateEndIn(s, p, o);
      var owner := PhysicalOwner(extents, i);
      OutsideExtents(p, AlternateOffset(s, p), extents, o, owner);
    }
  }

  lemma DateEndIn(s: seq<byte>, p: nat, o: nat) returns (extents: seq<Extent>, i: nat)
    requires WellFormedVolume(s, p) && IsCompleted(s, p, o)
    ensures extents == VolumeExtents(s, p) && i < TotalLength(extents) && Physical(extents, i) == o + 2
  {
    hide WellFormedVolume, VolumeExtents, VolumeOffsets, IsContent;
    extents := VolumeExtents(s, p);
    var d := DateEndOwner(s, p, o + 2);
    i := d + 71;
  }

  lemma OutsideExtents(p: nat, a: int, extents: seq<Extent>, o: nat, owner: nat)
    requires a >= 0 && HeadersApart(p, a, extents) && (o == p || o == a) && owner < |extents|
    ensures !InExtent(extents[owner], o + 2)
  {
    assert extents[owner] in extents;
    assert !InExtents(extents, o + 2);
  }

  ghost predicate OnlyPairSigned(s: seq<byte>, p: nat)
    requires p + 112 <= |s|
  {
    forall q | IsSignature(s, q) :: q == p || q == AlternateOffset(s, p)
  }

  /** In an image whose only signatures are its pair, another primary of the result is one that stamping completes. */
  lemma OtherPrimaries(s: seq<byte>, p: nat, q: nat)
    requires Primaries(s) == [p] && WellFormedVolume(s, p) && Normalize(s).Ok? && OnlyPairSigned(s, p)
    ensures IsPrimary(Normalize(s).value.image, q) && q != p <==> CompletesHeader(s, p, q)
  {
    hide *;
    SettledPairExactly(s, p, q);
    if CompletesHeader(s, p, q) {
      CompletedIsOther(s, p, q);
    } else if IsPrimary(Normalize(s).value.image, q) && q != p {
      OtherIsCompleted(s, p, q);
    }
  }

  lemma CompletedIsOther(s: seq<byte>, p: nat, q: nat)
    requires Primaries(s) == [p] && WellFormedVolume(s, p) && Normalize(s).Ok? && CompletesHeader(s, p, q)
    ensures IsSettledPair(s, p, q) && q != p
  {
    hide Primaries, Normalize, WellFormedVolume, IsCompleted, IsKept, SettledWord, AlternateOffset, SettledAlternate, SameContent;
    RunKeepsContent(s, p);
    PrimarySurvives(s, Normalize(s).value.image, p);
    SettledHeaderExactly(s, p, q);
    PairIsComplete(s, p, p);
    PairIsComplete(s, p, AlternateOffset(s, p));
  }

  lemma OtherIsCompleted(s: seq<byte>, p: nat, q: nat)
    requires Primaries(s) == [p] && WellFormedVolume(s, p) && Normalize(s).Ok? && OnlyPairSigned(s, p)
    requires IsPrimary(Normalize(s).value.image, q) && q != p
    ensures CompletesHeader(s, p, q)
  {
    var image := Normalize(s).value.image;
    SettledPairExactly(s, p, q);
    SettledHeaderExactly(s, p, q);
    RunKeepsContent(s, p);
    PrimarySurvives(s, image, p);
    hide Primaries, Normalize, WellFormedVolume, SameContent, IsCompleted, IsContent, SettledWord, IsSettledHeader, SettledAlternate;
    SignaturesExactly(s, p, q);
    SignaturesExactly(s, p, AlternateOffset(image, q));
    if !IsCompleted(s, p, q) && !IsCompleted(s, p, AlternateOffset(image, q)) {
      SameGeometry(image, p, q);
    }
  }

  /**
    Idempotence, exactly: on an image whose only header signatures are its pair, normalising twice
    equals normalising once if and only if no other header with its alternate lacks only the end of
    a Finder date.
   */
  lemma NormalizeTwiceExactly(s: seq<byte>, p: nat)
    requires Primaries(s) == [p] && WellFormedVolume(s, p) && Normalize(s).Ok? && OnlyPairSigned(s, p)
    ensures Normalize(Normalize(s).value.image) == Normalize(s) <==> !exists q :: CompletesHeader(s, p, q)
  {
    var image := Normalize(s).value.image;
    RunKeepsContent(s, p);
    PrimarySurvives(s, image, p);
    NormalizeIdempotent(s, p);
    hide Primaries, Normalize, WellFormedVolume, SameContent, CompletesHeader, OnlyPairSigned, IsPrimary;
    forall q ensures IsPrimary(image, q) && q != p <==> CompletesHeader(s, p, q) {
      OtherPrimaries(s, p, q);
    }
    SinglePrimaryExactly(image, p);
  }

  /** In particular it does if no place lacks a signature only by the end of a Finder date. */
  lemma NormalizeTwiceUncompleted(s: seq<byte>, p: nat)
    requires Primaries(s) == [p] && WellFormedVolume(s, p) && Normalize(s).Ok? && OnlyPairSigned(s, p)
    requires forall o :: !IsCompleted(s, p, o)
    ensures Normalize(Normalize(s).value.image) == Normalize(s)
  {
    hide *;
    NormalizeTwiceExactly(s, p);
    forall q ensures !CompletesHeader(s, p, q) {
      if CompletesHeader(s, p, q) {
        var o := CompletedPlace(s, p, q);
      }
    }
  }

  lemma CompletedPlace(s: seq<byte>, p: nat, q: nat) returns (o: nat)
    requires WellFormedVolume(s, p) && CompletesHeader(s, p, q)
    ensures IsCompleted(s, p, o)
  {
    hide WellFormedVolume, IsCompleted, SettledWord, IsSettledHeader, SettledAlternate;
    SettledWithin(s, p, q);
    o := if IsCompleted(s, p, q) then q else SettledAlternate(s, p, q);
  }

  lemma SinglePrimaryExactly(t: seq<byte>, p: nat)
    requires IsPrimary(t, p)
    ensures |Primaries(t)| == 1 <==> forall q | IsPrimary(t, q) :: q == p
  {
    PrimariesFromExact(t, 0);
    PrimaryIndex(t, p);
    hide IsPrimary;
    if forall q | IsPrimary(t, q) :: q == p {
      SinglePrimary(t, p, 0);
    }
    if |Primaries(t)| == 1 {
      assert p in Primaries(t);
      forall q | IsPrimary(t, q) ensures q == p {
        PrimaryIndex(t, q);
        assert q in Primaries(t);
      }
    }
  }

  /** A date within one extent completes nothing, so an image without split dates can be normalised twice. */
  lemma NormalizeTwice(s: seq<byte>, p: nat)
    requires Primaries(s) == [p] && WellFormedVolume(s, p) && Normalize(s).Ok? && OnlyPairSigned(s, p)
    requires DatesUnsplit(VolumeExtents(s, p), VolumeOffsets(s, p))
    ensures Normalize(Normalize(s).value.image) == Normalize(s)
  {
    hide Primaries, Normalize, WellFormedVolume, OnlyPairSigned, DatesUnsplit, VolumeExtents, VolumeOffsets, IsCompleted;
    forall o ensures !IsCompleted(s, p, o) {
      UnsplitCompletesNothing(s, p, o);
    }
    NormalizeTwiceUncompleted(s, p);
  }

  lemma UnsplitCompletesNothing(s: seq<byte>, p: nat, o: nat)
    requires Primaries(s) == [p] && WellFormedVolume(s, p) && Normalize(s).Ok?
    requires DatesUnsplit(VolumeExtents(s, p), VolumeOffsets(s, p))
    ensures !IsCompleted(s, p, o)
  {
    hide Primaries, Normalize, WellFormedVolume, VolumeExtents, VolumeOffsets, IsVolatile, TotalLength, Physical, IsContent;
    if IsCompleted(s, p, o) {
      var d := DateEndOwner(s, p, o + 2);
      LastDateByte();
      FieldIsVolatile(s, p, d, 70);
    }
  }

  lemma FieldIsVolatile(s: seq<byte>, p: nat, d: nat, j: nat)
    requires WellFormedVolume(s, p) && d in VolumeOffsets(s, p) && IsRecordField(j) && d + j < TotalLength(VolumeExtents(s, p))
    ensures !IsContent(s, p, Physical(VolumeExtents(s, p), d + j))
  {
    hide WellFormedVolume, VolumeExtents, VolumeOffsets;
    assert InFields(VolumeOffsets(s, p), d + j);
  }

  /** The alternate of a pair is no primary unless it is its own alternate. */
  lemma SameGeometry(t: seq<byte>, p: nat, q: nat)
    requires IsPrimary(t, p) && IsPrimary(t, q)
    requires var a := AlternateOffset(t, p);
             (q == p || q == a) && (AlternateOffset(t, q) == p || AlternateOffset(t, q) == a)
    ensures q == p
  {
    hide IsCandidate, BlockSize, TotalBlocks;
    HeaderGap(t, p);
  }
}
