/**
  A small well-formed image on which a second normalisation is refused. Its one folder record has a
  Finder date that is split over two extents: the date's last byte, zero once stamped, completes a
  header signature whose own fields make it its own alternate.
 */
module HfsExample {
  import opened Results
  import opened Bytes
  import opened HfsVolume
  import opened HfsExtents
  import opened HfsCatalog
  import opened HfsTheorems
  import opened HfsStability

  const PRIMARY: nat := 1024
  const ALTERNATE: nat := 4096
  /** Where the signature appears: two bytes before the second extent. */
  const COMPLETED: nat := 3582

  /** Both headers: signature, block size 512, ten blocks. */
  function HeaderMark(j: int): byte
  {
    if j == 0 then 0x48 else if j == 1 then 0x2b else if j == 3 then 4
    else if j == 42 then 2 else if j == 47 then 10 else 0
  }

  /** The primary's catalog fields: 2048 bytes in four blocks, three from block 3 and one at block 7. */
  function ForkMark(j: int): byte
  {
    if j == 278 then 8 else if j == 287 then 4
    else if j == 291 then 3 else if j == 295 then 3
    else if j == 299 then 7 else if j == 303 then 1 else 0
  }

  /** The catalog: a header node, and a leaf with one folder record whose data starts at 1465. */
  function CatalogMark(i: int): byte
  {
    if i == 8 then 1 else if i == 11 then 3 else if i == 23 then 1 else if i == 32 then 4 else if i == 39 then 2
    else if i == 1032 then 0xff else if i == 1035 then 1 else if i == 1039 then 1 else if i == 1040 then 0xa8
    else if i == 1466 then 1 else if i == 1536 then 1 else if i == 1537 then 4
    else if i == 1576 then 2 else if i == 1581 then 4 else if i == 2047 then 15 else 0
  }

  function Mark(q: int): byte
  {
    if 1024 <= q < 1136 then HeaderMark(q - 1024)
    else if 1136 <= q < 1376 then ForkMark(q - 1024)
    else if 1536 <= q < 3072 then CatalogMark(q - 1536)
    else if q == 3582 then 0x48 else if q == 3583 then 0x2b
    else if 3584 <= q < 4096 then CatalogMark(q - 2048)
    else if 4096 <= q < 4208 then HeaderMark(q - 4096)
    else 0
  }

  function Image(): seq<byte>
  {
    seq(5120, q requires 0 <= q < 5120 => Mark(q))
  }

  ghost predicate IsImage(s: seq<byte>)
  {
    |s| == 5120 && forall q | 0 <= q < 5120 :: s[q] == Mark(q)
  }

  ghost predicate IsCatalog(c: seq<byte>)
  {
    |c| == 2048 && forall i | 0 <= i < 2048 :: c[i] == CatalogMark(i)
  }

  // ---------------------------------------------------------------- headers

  lemma Bits512()
    ensures BitAnd(512, 511) == 0 && BitAnd(1024, 1023) == 0
  {
    assert BitAnd(1, 0) == 0;
    assert BitAnd(2, 1) == 0;
    assert BitAnd(4, 3) == 0;
    assert BitAnd(8, 7) == 0;
    assert BitAnd(16, 15) == 0;
    assert BitAnd(32, 31) == 0;
    assert BitAnd(64, 63) == 0;
    assert BitAnd(128, 127) == 0;
    assert BitAnd(256, 255) == 0;
  }

  lemma ImageSize(s: seq<byte>)
    requires IsImage(s)
    ensures |s| == 5120
  {
  }

  lemma HeaderAt(s: seq<byte>, o: nat)
    requires IsImage(s) && (o == PRIMARY || o == ALTERNATE)
    ensures IsCandidate(s, o) && BlockSize(s, o) == 512 && TotalBlocks(s, o) == 10
  {
    Bits512();
    hide BitAnd;
    assert U32(s, o + 40) == 512;
    assert U32(s, o + 44) == 10;
    assert U32(s, o + 48) == 0;
  }

  /** The only signatures are those of the pair. */
  lemma OnlyThePair(s: seq<byte>, q: nat)
    requires IsImage(s) && IsSignature(s, q)
    ensures q == PRIMARY || q == ALTERNATE
  {
    assert Mark(q) == 0x48 && Mark(q + 2) == 0;
    assert q == 1024 || q == 3582 || q == 4096;
  }

  lemma ImageHasOnePair(s: seq<byte>)
    requires IsImage(s)
    ensures IsPrimary(s, PRIMARY) && AlternateOffset(s, PRIMARY) == ALTERNATE
    ensures Primaries(s) == [PRIMARY]
  {
    hide IsCandidate, BlockSize, TotalBlocks, IsImage, IsSignature;
    ImageSize(s);
    HeaderAt(s, PRIMARY);
    HeaderAt(s, ALTERNATE);
    forall q | IsPrimary(s, q) ensures q == PRIMARY {
      CandidateIsSigned(s, q);
      OnlyThePair(s, q);
      BeyondTheEnd(s, 7168);
    }
    SinglePrimary(s, PRIMARY, 0);
  }

  lemma BeyondTheEnd(s: seq<byte>, q: nat)
    ensures q + 112 > |s| ==> !IsCandidate(s, q)
  {
  }

  lemma CandidateIsSigned(s: seq<byte>, q: nat)
    requires IsCandidate(s, q)
    ensures IsSignature(s, q)
  {
  }

  // ---------------------------------------------------------------- the catalog

  const EXTENTS: seq<Extent> := [Extent(1536, 1536), Extent(3584, 512)]

  lemma ExtentFields(s: seq<byte>, k: nat)
    requires IsImage(s) && k < 8
    ensures U32(s, 1312 + 8 * k) == if k == 0 then 3 else if k == 1 then 7 else 0
    ensures U32(s, 1316 + 8 * k) == if k == 0 then 3 else if k == 1 then 1 else 0
  {
  }

  lemma ReadsExtent(s: seq<byte>, k: nat, room: int)
    requires IsImage(s) && k < 8 && room >= if k == 0 then 1536 else if k == 1 then 512 else 0
    ensures ReadExtent(s, PRIMARY, 512, 10, room, k) == Ok(if k < 2 then Some(EXTENTS[k]) else None)
  {
    hide IsImage, U32;
    ImageSize(s);
    ExtentFields(s, k);
  }

  lemma ExtentLengths()
    ensures TotalLength([]) == 0 && TotalLength(EXTENTS[..1]) == 1536 && TotalLength(EXTENTS) == 2048
    ensures ExtentsWithin([], 5120) && ExtentsWithin(EXTENTS[..1], 5120) && ExtentsWithin(EXTENTS, 5120)
  {
    assert EXTENTS[..1][..0] == [];
  }

  lemma {:induction false} NoMoreExtents(s: seq<byte>, k: nat)
    requires IsImage(s) && 2 <= k <= 8
    ensures ExtentsWithin(EXTENTS, |s|) && ReadExtents(s, PRIMARY, 512, 10, 2048, k, EXTENTS) == Ok(EXTENTS)
    decreases 8 - k
  {
    hide IsImage, ReadExtent, TotalLength, ExtentsWithin;
    ImageSize(s);
    ExtentLengths();
    if k < 8 {
      ReadsExtent(s, k, 0);
      NoMoreExtents(s, k + 1);
    }
  }

  /** One more extent of the image. */
  lemma NextExtent(s: seq<byte>, k: nat, acc: seq<Extent>, all: seq<Extent>)
    requires IsImage(s) && k < 2 && ExtentsWithin(acc, |s|) && ExtentsWithin(all, |s|) && all == acc + [EXTENTS[k]]
    requires 2048 - TotalLength(acc) >= EXTENTS[k].length
    ensures ReadExtents(s, PRIMARY, 512, 10, 2048, k, acc) == ReadExtents(s, PRIMARY, 512, 10, 2048, k + 1, all)
  {
    hide IsImage, ReadExtent, ReadExtents, TotalLength, ExtentsWithin;
    ReadsExtent(s, k, 2048 - TotalLength(acc));
    ReadExtentsNext(s, PRIMARY, 512, 10, 2048, k, acc, EXTENTS[k]);
  }

  lemma ReadExtentsNext(s: seq<byte>, p: nat, blockSize: nat, totalBlocks: nat, capacity: nat, k: nat, acc: seq<Extent>, extent: Extent)
    requires k < 8 && 1024 <= p && ExtentsWithin(acc, |s|) && ExtentsWithin(acc + [extent], |s|)
    requires ReadExtent(s, p, blockSize, totalBlocks, capacity - TotalLength(acc), k) == Ok(Some(extent))
    ensures ReadExtents(s, p, blockSize, totalBlocks, capacity, k, acc)
            == ReadExtents(s, p, blockSize, totalBlocks, capacity, k + 1, acc + [extent])
  {
    hide ReadExtent, TotalLength, ExtentsWithin;
  }

  lemma ImageExtents(s: seq<byte>)
    requires IsImage(s)
    ensures ExtentsWithin([], |s|) && ReadExtents(s, PRIMARY, 512, 10, 2048, 0, []) == Ok(EXTENTS)
  {
    hide IsImage, ReadExtents, TotalLength, ExtentsWithin;
    ImageSize(s);
    ExtentLengths();
    assert [] + [EXTENTS[0]] == EXTENTS[..1] && EXTENTS[..1] + [EXTENTS[1]] == EXTENTS;
    NextExtent(s, 0, [], EXTENTS[..1]);
    NextExtent(s, 1, EXTENTS[..1], EXTENTS);
    NoMoreExtents(s, 2);
  }

  lemma CatalogSizes(s: seq<byte>)
    requires IsImage(s)
    ensures U64(s, 1296) == 2048 && U32(s, 1308) == 4
  {
  }

  lemma ImageCatalog(s: seq<byte>)
    requires IsImage(s)
    ensures ReadCatalog(s, PRIMARY, 512, 10) == Ok(CatalogFile(2048, EXTENTS))
  {
    hide IsImage, ReadExtents, U32, U64, ExtentsWithin, TotalLength;
    ImageSize(s);
    ImageExtents(s);
    CatalogSizes(s);
  }

  /** The catalog file, byte by byte. */
  lemma CatalogBytes(s: seq<byte>)
    requires IsImage(s)
    ensures ExtentsWithin(EXTENTS, |s|) && IsCatalog(Gather(s, EXTENTS))
  {
    ExtentLengths();
    hide CatalogMark;
    GatheredTwice(s, EXTENTS[0], EXTENTS[1]);
    assert EXTENTS == [EXTENTS[0], EXTENTS[1]];
  }

  lemma GatheredTwice(s: seq<byte>, a: Extent, b: Extent)
    requires a.physical + a.length <= |s| && b.physical + b.length <= |s|
    ensures ExtentsWithin([a, b], |s|)
    ensures Gather(s, [a, b]) == s[a.physical..a.physical + a.length] + s[b.physical..b.physical + b.length]
  {
    hide ExtentsWithin, Gather, TotalLength;
    NothingGathered(s);
    AppendExtent(s, [], a);
    assert [] + [a] == [a];
    AppendExtent(s, [a], b);
    assert [a] + [b] == [a, b];
    assert [] + s[a.physical..a.physical + a.length] == s[a.physical..a.physical + a.length];
  }

  lemma NothingGathered(s: seq<byte>)
    ensures ExtentsWithin([], |s|) && Gather(s, []) == []
  {
  }

  const LEAF: Node := Node(1024, 1024)

  lemma CatalogSize(c: seq<byte>)
    requires IsCatalog(c)
    ensures |c| == 2048
  {
  }

  lemma CatalogFields(c: seq<byte>)
    requires IsCatalog(c)
    ensures && c[8] == 1 && U16(c, 10) == 3 && NodeSize(c) == 1024 && TotalNodes(c) == 2 && U32(c, 20) == 1
            && c[1032] == 0xff && RecordCount(c, LEAF) == 1 && TableStart(c, LEAF) == 2044
  {
  }

  /** The one record: its key starts at 1039, its data at 1465, and it is a folder. */
  lemma CatalogRecord(c: seq<byte>)
    requires IsCatalog(c)
    ensures ReadRecord(c, LEAF, 2044, 0, 13) == Ok(Record(1039, 1465, 1))
  {
    assert U16(c, 2046) == 15 && U16(c, 1039) == 424 && U16(c, 1465) == 1;
  }

  lemma CatalogLeaf(c: seq<byte>)
    requires IsCatalog(c)
    ensures SpacedNode(c, LEAF) && NodeOffsets(c, LEAF) == [1465] && IsLeaf(c, LEAF) && RecordCount(c, LEAF) == 1
  {
    hide IsCatalog, ReadRecord, RecordCount, TableStart;
    CatalogSize(c);
    CatalogFields(c);
    CatalogRecord(c);
    assert Spaced(c, LEAF, 2044, 1, 1, 15, 1553);
    assert Spaced(c, LEAF, 2044, 1, 0, 13, 1038);
    assert Offsets(c, LEAF, 2044, 1, 1, 15, 1553) == [];
    assert Offsets(c, LEAF, 2044, 1, 0, 13, 1038) == [1465] + [];
  }

  lemma CatalogIsSpaced(c: seq<byte>)
    requires IsCatalog(c)
    ensures |c| == 2048 && CatalogSpaced(c, 2048) && CatalogOffsets(c, 2048) == [1465]
    ensures NodesWithin(0, 1024, 2, 2048) && LeafCount(c, 0, 1024, 2) == 1
  {
    hide IsCatalog, SpacedNode, NodeOffsets, RecordCount, BitAnd, U16, U32, NodeSize, TotalNodes;
    CatalogSize(c);
    CatalogFields(c);
    CatalogLeaf(c);
    Bits512();
    assert NodesWithin(2048, 1024, 0, 2048);
    assert NodesWithin(1024, 1024, 1, 2048);
    HeaderNodeHasNone(c);
    assert SpacedNodes(c, 2048, 1024, 0);
    assert SpacedNodes(c, 1024, 1024, 1);
    assert SpacedNodes(c, 0, 1024, 2);
    assert AllOffsets(c, 2048, 1024, 0) == [];
    assert AllOffsets(c, 1024, 1024, 1) == [1465] + [];
    assert AllOffsets(c, 0, 1024, 2) == [] + [1465];
    assert LeafCount(c, 2048, 1024, 0) == 0;
    assert LeafCount(c, 1024, 1024, 1) == 1;
  }

  lemma HeaderNodeHasNone(c: seq<byte>)
    requires |c| == 2048 && c[8] == 1
    ensures SpacedNode(c, Node(0, 1024)) && NodeOffsets(c, Node(0, 1024)) == [] && !IsLeaf(c, Node(0, 1024))
  {
  }

  // ---------------------------------------------------------------- the first run

  lemma Apart()
    ensures HeadersApart(PRIMARY, ALTERNATE, EXTENTS) && Disjoint(EXTENTS)
  {
  }

  /** The image satisfies every condition of the theorems about normalising. */
  lemma ImageIsWellFormed(s: seq<byte>)
    requires IsImage(s)
    ensures Primaries(s) == [PRIMARY] && WellFormedVolume(s, PRIMARY)
    ensures VolumeExtents(s, PRIMARY) == EXTENTS && VolumeOffsets(s, PRIMARY) == [1465]
    ensures ExtentsWithin(EXTENTS, |s|) && IsCatalog(Gather(s, EXTENTS))
  {
    hide IsImage, IsCatalog, IsPrimary, ReadCatalog, Gather, CatalogSpaced, CatalogOffsets, AlternateOffset, BlockSize, TotalBlocks,
         HeadersApart, Disjoint, Primaries, ExtentsWithin, LeafCount, NodesWithin, IsCandidate, TotalLength;
    ImageHasOnePair(s);
    HeaderAt(s, PRIMARY);
    ImageCatalog(s);
    CatalogBytes(s);
    CatalogIsSpaced(Gather(s, EXTENTS));
    Apart();
  }

  lemma FirstRunSucceeds(s: seq<byte>)
    requires IsImage(s)
    ensures Normalize(s).Ok?
  {
    hide IsImage, IsCatalog, IsPrimary, ReadCatalog, Gather, CatalogSpaced, CatalogOffsets, AlternateOffset, BlockSize, TotalBlocks,
         StampCatalog, WellFormedVolume, VolumeExtents, StampHeaders, Scatter, Normalize, LeafCount, U32, NodeSize, TotalNodes, StampAll,
         Primaries, ExtentsWithin, NodesWithin, IsCandidate, TotalLength;
    ImageHasOnePair(s);
    HeaderAt(s, PRIMARY);
    ImageIsWellFormed(s);
    ImageCatalog(s);
    HeadedVolume(s, PRIMARY);
    var c := Gather(s, EXTENTS);
    CatalogFields(c);
    CatalogIsSpaced(c);
    StampCatalogTwoPhase(c, 2048);
    NormalizeIsVolume(s);
  }

  // ---------------------------------------------------------------- the second run

  lemma {:induction false} ExamplePhysical(i: nat)
    requires i < 2048
    ensures TotalLength(EXTENTS) == 2048 && Physical(EXTENTS, i) == if i < 1536 then 1536 + i else 2048 + i
  {
    ExtentLengths();
    assert EXTENTS[..1][..0] == [];
  }

  /** A byte of the second extent, after the run. */
  lemma StampedByte(s: seq<byte>, i: nat)
    requires IsImage(s) && 1536 <= i < 1700
    ensures Normalize(s).Ok? && Normalize(s).value.image[2048 + i] == if i == 1536 then 0 else CatalogMark(i)
  {
    hide IsImage, Primaries, WellFormedVolume, VolumeExtents, VolumeOffsets, Normalize, Gather, Scatter, StampHeaders, ExtentsWithin,
         TotalLength, Physical, CatalogMark;
    FirstRunSucceeds(s);
    ImageIsWellFormed(s);
    RunOnWellFormed(s, PRIMARY);
    ImageSize(s);
    ExamplePhysical(i);
    var c := Gather(s, EXTENTS);
    CatalogSize(c);
    var d := StampAll(c, [1465]);
    assert [1465][1..] == [];
    assert d == StampRecord(c, 1465);
    Apart();
    ScatterAt(StampHeaders(s, PRIMARY), EXTENTS, d, i);
    CatalogAt(c, i);
  }

  lemma CatalogAt(c: seq<byte>, i: nat)
    requires IsCatalog(c) && i < 2048
    ensures c[i] == CatalogMark(i)
  {
  }

  /** The two bytes before the second extent are neither header nor catalog. */
  lemma BytesBefore(s: seq<byte>, q: nat)
    requires IsImage(s) && (q == 3582 || q == 3583)
    ensures Normalize(s).Ok? && |Normalize(s).value.image| == 5120 && Normalize(s).value.image[q] == Mark(q)
  {
    hide IsImage, Primaries, WellFormedVolume, VolumeExtents, VolumeOffsets, Normalize, Gather, Scatter, StampHeaders, ExtentsWithin,
         TotalLength, Physical, Mark, IsPrimary, IsDateByte;
    FirstRunSucceeds(s);
    ImageIsWellFormed(s);
    ImageHasOnePair(s);
    RunOnWellFormed(s, PRIMARY);
    ImageSize(s);
    NormalizeFrame(s, q);
    ByteAt(s, q);
    OutsideExtents(q);
    NotADate([1465], q);
  }

  lemma ByteAt(s: seq<byte>, q: nat)
    requires IsImage(s) && q < 5120
    ensures s[q] == Mark(q)
  {
  }

  lemma OutsideExtents(q: nat)
    requires q == 3582 || q == 3583
    ensures !InExtents(EXTENTS, q)
  {
  }

  lemma NotADate(offsets: seq<nat>, q: nat)
    requires !InExtents(EXTENTS, q)
    ensures !IsDateByte(EXTENTS, offsets, q)
  {
    hide InExtents, IsDateByte;
    if IsDateByte(EXTENTS, offsets, q) {
      DateByteInExtents(EXTENTS, offsets, q);
    }
  }

  lemma CompletedFields(s: seq<byte>)
    requires IsImage(s)
    ensures Normalize(s).Ok? && |Normalize(s).value.image| == 5120
    ensures var t := Normalize(s).value.image;
            && IsSignature(t, COMPLETED)
            && U32(t, COMPLETED + 40) == 512 && U32(t, COMPLETED + 44) == 4 && U32(t, COMPLETED + 48) == 0
  {
    hide IsImage, Normalize;
    BytesBefore(s, 3582);
    BytesBefore(s, 3583);
    var t := Normalize(s).value.image;
    forall q | 3584 <= q < 3748 ensures t[q] == if q == 3584 then 0 else CatalogMark(q - 2048) {
      StampedByte(s, q - 2048);
    }
  }

  /** The completed signature heads a header that is its own alternate. */
  lemma CompletedIsPrimary(t: seq<byte>)
    requires |t| == 5120 && IsSignature(t, COMPLETED)
    requires U32(t, COMPLETED + 40) == 512 && U32(t, COMPLETED + 44) == 4 && U32(t, COMPLETED + 48) == 0
    ensures IsPrimary(t, COMPLETED)
  {
    hide U32, BitAnd, IsSignature;
    Bits512();
  }

  /**
    On this image, whose only header signatures are its pair and whose extents, headers and records
    are all apart, the first normalisation succeeds and the second is refused.
   */
  lemma SecondRunIsRefused()
    ensures var s := Image();
            && Primaries(s) == [PRIMARY] && WellFormedVolume(s, PRIMARY)
            && (forall q | IsSignature(s, q) :: q == PRIMARY || q == AlternateOffset(s, PRIMARY))
            && Normalize(s).Ok? && Normalize(Normalize(s).value.image) == Err(NoHeaderPair)
  {
    var s := Image();
    assert IsImage(s);
    hide Image, IsImage, Normalize, Primaries, WellFormedVolume, IsPrimary, AlternateOffset, IsSignature, SameContent, U32;
    ImageHasOnePair(s);
    ImageIsWellFormed(s);
    forall q | IsSignature(s, q) ensures q == PRIMARY || q == AlternateOffset(s, PRIMARY) {
      OnlyThePair(s, q);
    }
    CompletedFields(s);
    var t := Normalize(s).value.image;
    CompletedIsPrimary(t);
    RunKeepsContent(s, PRIMARY);
    PrimarySurvives(s, t, PRIMARY);
    TwoPrimaries(t, PRIMARY, COMPLETED);
    NoSinglePair(t);
  }

  lemma TwoPrimaries(t: seq<byte>, p: nat, q: nat)
    requires IsPrimary(t, p) && IsPrimary(t, q) && p < q < |t|
    ensures |Primaries(t)| != 1
  {
    hide PrimariesFrom, IsPrimary;
    PrimariesFromExact(t, 0);
    assert p in Primaries(t) && q in Primaries(t);
  }
}
