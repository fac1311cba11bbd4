/**
  The HFS+ volume metadata normaliser, as a function from one disk image to another.
  Field offsets follow Apple Technical Note TN1150, "HFS Plus Volume Format", sections
  "Volume Header", "B-Trees" and "Catalog File".  The walk over the catalog stamps as it
  goes, so a later read sees what an earlier record's stamps wrote.
 */
module HfsVolume {
  import opened Results
  import opened Bytes

  datatype HfsError =
    | NoHeaderPair | OutOfRange | VolumeStart | CatalogSize | PartialExtent | BadExtent
    | ExtentOutsideImage | OverflowExtents | BadHeaderNode | BadTreeShape | BadLeaf
    | BadRecordOffset | BadRecordKey | TruncatedRecord | BadRecordType | IncompleteLeaves

  /** 2020-01-01T00:00:00Z counted from 1904, as HFS+ dates are. */
  const HFS_DATE: seq<byte> := [0xda, 0x31, 0x91, 0x80]
  /** The same instant counted from 1970. */
  const BSD_DATE: seq<byte> := [0x5e, 0x0b, 0xe1, 0x00]
  /** The first eight bytes of SHA-256("Mish Finder DMG HFS volume v2"). */
  const VOLUME_ID: seq<byte> := [0xb5, 0xf9, 0xfd, 0x13, 0x3c, 0xf3, 0xe7, 0x8c]
  const MAX_SAFE_INTEGER: nat := 0x1f_ffff_ffff_ffff

  // ---------------------------------------------------------------- volume headers

  predicate IsSignature(s: seq<byte>, o: nat)
  {
    o + 4 <= |s| && s[o] == 0x48 && s[o + 1] == 0x2b && s[o + 2] == 0 && s[o + 3] == 4
  }

  function BlockSize(s: seq<byte>, o: nat): nat
    requires o + 112 <= |s|
  {
    U32(s, o + 40)
  }

  function TotalBlocks(s: seq<byte>, o: nat): nat
    requires o + 112 <= |s|
  {
    U32(s, o + 44)
  }

  /** A signature followed by a plausible header. */
  predicate IsCandidate(s: seq<byte>, o: nat)
  {
    && IsSignature(s, o)
    && o + 112 <= |s|
    && BlockSize(s, o) >= 512
    && BitAnd(BlockSize(s, o), BlockSize(s, o) - 1) == 0
    && TotalBlocks(s, o) > 0
    && U32(s, o + 48) <= TotalBlocks(s, o)
  }

  function AlternateOffset(s: seq<byte>, o: nat): int
    requires o + 112 <= |s|
  {
    o + BlockSize(s, o) * TotalBlocks(s, o) - 2048
  }

  /** A candidate whose alternate header sits 1024 bytes before the end of its volume. */
  predicate IsPrimary(s: seq<byte>, o: nat)
  {
    && IsCandidate(s, o)
    && var a := AlternateOffset(s, o);
    && 0 <= a
    && IsCandidate(s, a)
    && BlockSize(s, a) == BlockSize(s, o)
    && TotalBlocks(s, a) == TotalBlocks(s, o)
  }

  /** The offsets at or after `o` of all headers that have their alternate, in order. */
  function PrimariesFrom(s: seq<byte>, o: nat): seq<nat>
    requires o <= |s|
    decreases |s| - o
  {
    if o == |s| then []
    else (if IsPrimary(s, o) then [o] else []) + PrimariesFrom(s, o + 1)
  }

  function Primaries(s: seq<byte>): seq<nat>
  {
    PrimariesFrom(s, 0)
  }

  /** Whether header byte `j` belongs to a date or to the volume identifier. */
  predicate IsHeaderField(j: int)
  {
    16 <= j < 32 || 104 <= j < 112
  }

  function HeaderByte(j: int): byte
    requires IsHeaderField(j)
  {
    if j < 32 then HFS_DATE[(j - 16) % 4] else VOLUME_ID[j - 104]
  }

  function StampHeader(s: seq<byte>, o: nat): (r: seq<byte>)
    ensures |r| == |s|
    ensures forall k | 0 <= k < |s| :: r[k] == if IsHeaderField(k - o) then HeaderByte(k - o) else s[k]
  {
    seq(|s|, k requires 0 <= k < |s| => if IsHeaderField(k - o) then HeaderByte(k - o) else s[k])
  }

  // ---------------------------------------------------------------- catalog extents

  datatype Extent = Extent(physical: nat, length: nat)

  datatype CatalogFile = CatalogFile(logicalSize: nat, extents: seq<Extent>)

  function TotalLength(extents: seq<Extent>): nat
  {
    if extents == [] then 0
    else TotalLength(extents[..|extents| - 1]) + extents[|extents| - 1].length
  }

  predicate ExtentsWithin(extents: seq<Extent>, size: nat)
  {
    forall e | e in extents :: e.physical + e.length <= size
  }

  /**
    Extent record `k` of the header at `p`: nothing when it is empty, else a run of blocks that
    lies within the volume, within the image, and within what is left of the catalog.
   */
  function ReadExtent(s: seq<byte>, p: nat, blockSize: nat, totalBlocks: nat, room: int, k: nat)
    : (r: Result<Option<Extent>, HfsError>)
    requires 1024 <= p
    ensures r.Ok? && r.value.Some? ==>
              r.value.value.physical + r.value.value.length <= |s| && r.value.value.length <= room
  {
    if p + 296 + 8 * k > |s| then Err(OutOfRange)
    else
      var startBlock := U32(s, p + 288 + 8 * k);
      var blockCount := U32(s, p + 292 + 8 * k);
      if blockCount == 0 then
        if startBlock == 0 then Ok(None) else Err(PartialExtent)
      else if !(startBlock < totalBlocks && blockCount <= totalBlocks - startBlock
                && blockCount * blockSize <= room) then Err(BadExtent)
      else
        var extent := Extent(p - 1024 + startBlock * blockSize, blockCount * blockSize);
        if extent.physical + extent.length > |s| then Err(ExtentOutsideImage) else Ok(Some(extent))
  }

  /** Reads extent records `k` to 7 of the header at `p`, keeping those already read. */
  function ReadExtents(s: seq<byte>, p: nat, blockSize: nat, totalBlocks: nat, capacity: nat,
                       k: nat, acc: seq<Extent>): (r: Result<seq<Extent>, HfsError>)
    requires k <= 8 && 1024 <= p
    requires ExtentsWithin(acc, |s|)
    ensures r.Ok? ==> ExtentsWithin(r.value, |s|) && TotalLength(r.value) == capacity
    decreases 8 - k
  {
    if k == 8 then
      if TotalLength(acc) == capacity && |acc| > 0 then Ok(acc) else Err(OverflowExtents)
    else
      match ReadExtent(s, p, blockSize, totalBlocks, capacity - TotalLength(acc), k)
      case Err(e) => Err(e)
      case Ok(None) => ReadExtents(s, p, blockSize, totalBlocks, capacity, k + 1, acc)
      case Ok(Some(extent)) => ReadExtents(s, p, blockSize, totalBlocks, capacity, k + 1, acc + [extent])
  }

  function ReadCatalog(s: seq<byte>, p: nat, blockSize: nat, totalBlocks: nat)
    : (r: Result<CatalogFile, HfsError>)
    ensures r.Ok? ==> ExtentsWithin(r.value.extents, |s|)
    ensures r.Ok? ==> 0 < r.value.logicalSize <= TotalLength(r.value.extents)
    ensures r.Ok? && blockSize >= 512 ==> TotalLength(r.value.extents) >= 512
  {
    if p < 1024 then Err(VolumeStart)
    else if p + 288 > |s| then Err(OutOfRange)
    else
      var logicalSize := U64(s, p + 272);
      var blocks := U32(s, p + 284);
      var capacity := blocks * blockSize;
      if !(logicalSize <= MAX_SAFE_INTEGER && 0 < logicalSize <= capacity) then Err(CatalogSize)
      else
        assert blocks >= 1;
        assert blockSize >= 512 ==> blocks * blockSize >= 512;
        match ReadExtents(s, p, blockSize, totalBlocks, capacity, 0, [])
        case Err(e) => Err(e)
        case Ok(extents) => Ok(CatalogFile(logicalSize, extents))
  }

  /** The catalog file: its extents, one after the other. */
  function Gather(s: seq<byte>, extents: seq<Extent>): (c: seq<byte>)
    requires ExtentsWithin(extents, |s|)
    ensures |c| == TotalLength(extents)
  {
    if extents == [] then []
    else
      var last := extents[|extents| - 1];
      Gather(s, extents[..|extents| - 1]) + s[last.physical..last.physical + last.length]
  }

  /** Writes `data` over the bytes of `s` from `at`. */
  function Overwrite(s: seq<byte>, at: nat, data: seq<byte>): (r: seq<byte>)
    requires at + |data| <= |s|
    ensures |r| == |s|
    ensures forall k | 0 <= k < |s| :: r[k] == if at <= k < at + |data| then data[k - at] else s[k]
  {
    s[..at] + data + s[at + |data|..]
  }

  /** Writes a catalog file back into its extents, in order. */
  function Scatter(s: seq<byte>, extents: seq<Extent>, c: seq<byte>): (r: seq<byte>)
    requires ExtentsWithin(extents, |s|) && TotalLength(extents) <= |c|
    ensures |r| == |s|
  {
    if extents == [] then s
    else
      var last := extents[|extents| - 1];
      var before := TotalLength(extents[..|extents| - 1]);
      Overwrite(Scatter(s, extents[..|extents| - 1], c), last.physical, c[before..before + last.length])
  }

  // ---------------------------------------------------------------- the catalog B-tree

  /** Whether byte `j` of a file or folder record belongs to one of its dates. */
  predicate IsRecordField(j: int)
  {
    12 <= j < 32 || 68 <= j < 72
  }

  function RecordByte(j: int): byte
    requires IsRecordField(j)
  {
    if j < 32 then HFS_DATE[(j - 12) % 4] else BSD_DATE[j - 68]
  }

  /** Stamps the dates of the file or folder record whose data starts at `d`. */
  function StampRecord(c: seq<byte>, d: nat): (r: seq<byte>)
    ensures |r| == |c|
    ensures forall k | 0 <= k < |c| :: r[k] == if IsRecordField(k - d) then RecordByte(k - d) else c[k]
  {
    seq(|c|, k requires 0 <= k < |c| => if IsRecordField(k - d) then RecordByte(k - d) else c[k])
  }

  /** A node of the catalog B-tree, as a range of the catalog file. */
  datatype Node = Node(start: nat, size: nat)

  predicate NodeWithin(n: Node, size: nat)
  {
    n.size >= 512 && n.start + n.size <= size
  }

  predicate IsLeaf(c: seq<byte>, n: Node)
    requires NodeWithin(n, |c|)
  {
    c[n.start + 8] == 0xff
  }

  function RecordCount(c: seq<byte>, n: Node): nat
    requires NodeWithin(n, |c|)
  {
    U16(c, n.start + 10)
  }

  /** Where the table of record offsets begins, growing down from the end of the node. */
  function TableStart(c: seq<byte>, n: Node): int
    requires NodeWithin(n, |c|)
  {
    n.start + n.size - (RecordCount(c, n) + 1) * 2
  }

  /** What one catalog record says: where its key and its data start, and its type. */
  datatype Record = Record(key: nat, data: nat, kind: nat) {
    predicate IsStamped() { kind == 1 || kind == 2 }

    /** One past the last byte that the walk may read or write for this record. */
    function End(): nat {
      data + (if kind == 1 then 88 else if kind == 2 then 248 else 2)
    }
  }

  /**
    Reads record `r` of a leaf: its offset must exceed the previous one and every part of it
    must end before the offset table.
   */
  function ReadRecord(c: seq<byte>, n: Node, table: nat, r: nat, previous: nat)
    : (result: Result<Record, HfsError>)
    requires NodeWithin(n, |c|)
    requires table + (r + 1) * 2 < n.start + n.size
    ensures result.Ok? ==>
              && n.start + previous < result.value.key < result.value.data
              && result.value.End() <= table
              && result.value.kind in {1, 2, 3, 4}
  {
    var offset := U16(c, n.start + n.size - (r + 1) * 2);
    var key := n.start + offset;
    if !(offset > previous && key + 4 <= table) then Err(BadRecordOffset)
    else
      var keyLength := U16(c, key);
      var data := key + ((keyLength + 3) - (keyLength + 3) % 2);
      if data + 2 > table then Err(BadRecordKey)
      else
        var record := Record(key, data, U16(c, data));
        if record.IsStamped() then
          if record.End() <= table then Ok(record) else Err(TruncatedRecord)
        else if record.kind == 3 || record.kind == 4 then Ok(record)
        else Err(BadRecordType)
  }

  /** The state of the walk: the catalog so far, records seen, data offsets stamped. */
  datatype Walk = Walk(catalog: seq<byte>, leafRecords: nat, stamped: seq<nat>)

  /** One record's effect on the walk. */
  function Visit(w: Walk, record: Record): Walk
  {
    if record.IsStamped()
    then Walk(StampRecord(w.catalog, record.data), w.leafRecords + 1, w.stamped + [record.data])
    else w.(leafRecords := w.leafRecords + 1)
  }

  /** Walks records `r` to `count - 1` of one leaf. */
  function WalkRecords(w: Walk, n: Node, table: nat, count: nat, r: nat, previous: nat)
    : (result: Result<Walk, HfsError>)
    requires NodeWithin(n, |w.catalog|)
    requires r <= count && table + (count + 1) * 2 == n.start + n.size
    ensures result.Ok? ==> |result.value.catalog| == |w.catalog|
    decreases count - r
  {
    if r == count then Ok(w)
    else
      match ReadRecord(w.catalog, n, table, r, previous)
      case Err(e) => Err(e)
      case Ok(record) => WalkRecords(Visit(w, record), n, table, count, r + 1, record.key - n.start)
  }

  /** Walks one node: nothing happens unless it is a leaf. */
  function WalkNode(w: Walk, n: Node): (result: Result<Walk, HfsError>)
    requires NodeWithin(n, |w.catalog|)
    ensures result.Ok? ==> |result.value.catalog| == |w.catalog|
  {
    if !IsLeaf(w.catalog, n) then Ok(w)
    else
      var count, table := RecordCount(w.catalog, n), TableStart(w.catalog, n);
      if !(count > 0 && table >= n.start + 14) then Err(BadLeaf)
      else WalkRecords(w, n, table, count, 0, 13)
  }

  /** Whether `nodes` consecutive nodes from byte `start` fit into `size` bytes. */
  predicate NodesWithin(start: nat, nodeSize: nat, nodes: nat, size: nat)
    decreases nodes
  {
    nodes > 0 ==> NodeWithin(Node(start, nodeSize), size) && NodesWithin(start + nodeSize, nodeSize, nodes - 1, size)
  }

  lemma {:induction false} NodesFit(start: nat, nodeSize: nat, nodes: nat, size: nat)
    requires nodeSize >= 512 && start + nodes * nodeSize <= size
    ensures NodesWithin(start, nodeSize, nodes, size)
    decreases nodes
  {
    if nodes > 0 {
      assert nodes * nodeSize == nodeSize + (nodes - 1) * nodeSize;
      assert (nodes - 1) * nodeSize >= 0;
      NodesFit(start + nodeSize, nodeSize, nodes - 1, size);
    }
  }

  /** Walks `nodes` consecutive nodes from byte `start`. */
  function WalkNodes(w: Walk, start: nat, nodeSize: nat, nodes: nat): (result: Result<Walk, HfsError>)
    requires NodesWithin(start, nodeSize, nodes, |w.catalog|)
    ensures result.Ok? ==> |result.value.catalog| == |w.catalog|
    decreases nodes
  {
    if nodes == 0 then Ok(w)
    else
      match WalkNode(w, Node(start, nodeSize))
      case Err(e) => Err(e)
      case Ok(w') => WalkNodes(w', start + nodeSize, nodeSize, nodes - 1)
  }

  /** The header node's view of the tree. */
  function NodeSize(c: seq<byte>): nat
    requires |c| >= 512
  {
    U16(c, 32)
  }

  function TotalNodes(c: seq<byte>): nat
    requires |c| >= 512
  {
    U32(c, 36)
  }

  predicate IsHeaderNode(c: seq<byte>)
    requires |c| >= 512
  {
    c[8] == 1 && U16(c, 10) >= 3
  }

  predicate IsTreeShape(c: seq<byte>, logicalSize: nat)
    requires |c| >= 512
  {
    && NodeSize(c) >= 512
    && BitAnd(NodeSize(c), NodeSize(c) - 1) == 0
    && TotalNodes(c) > 0
    && TotalNodes(c) * NodeSize(c) <= logicalSize
  }

  /** Stamps the dates of every file and folder record in the catalog. */
  function StampCatalog(c: seq<byte>, logicalSize: nat): (result: Result<Walk, HfsError>)
    requires 512 <= |c| && logicalSize <= |c|
    ensures result.Ok? ==> |result.value.catalog| == |c|
  {
    if !IsHeaderNode(c) then Err(BadHeaderNode)
    else if !IsTreeShape(c, logicalSize) then Err(BadTreeShape)
    else
      NodesFit(0, NodeSize(c), TotalNodes(c), |c|);
      match WalkNodes(Walk(c, 0, []), 0, NodeSize(c), TotalNodes(c))
      case Err(e) => Err(e)
      case Ok(w) =>
        if w.leafRecords == U32(c, 20) && |w.stamped| > 0 then Ok(w) else Err(IncompleteLeaves)
  }

  // ---------------------------------------------------------------- the whole image

  /** The outcome of a run: the new image, and what was stamped where. */
  datatype Run = Run(image: seq<byte>, primary: nat, alternate: nat, extents: seq<Extent>, stamped: seq<nat>)

  function StampHeaders(s: seq<byte>, p: nat): (r: seq<byte>)
    requires IsPrimary(s, p)
    ensures |r| == |s|
  {
    StampHeader(StampHeader(s, p), AlternateOffset(s, p))
  }

  function NormalizeVolume(s: seq<byte>, p: nat): (result: Result<Run, HfsError>)
    requires IsPrimary(s, p)
    ensures result.Ok? ==> |result.value.image| == |s|
  {
    var headed := StampHeaders(s, p);
    match ReadCatalog(headed, p, BlockSize(s, p), TotalBlocks(s, p))
    case Err(e) => Err(e)
    case Ok(file) =>
      match StampCatalog(Gather(headed, file.extents), file.logicalSize)
      case Err(e) => Err(e)
      case Ok(w) =>
        Ok(Run(Scatter(headed, file.extents, w.catalog), p, AlternateOffset(s, p), file.extents, w.stamped))
  }

  lemma {:induction false} PrimariesFromExact(s: seq<byte>, o: nat)
    requires o <= |s|
    ensures forall p :: p in PrimariesFrom(s, o) <==> o <= p < |s| && IsPrimary(s, p)
    decreases |s| - o
  {
    if o < |s| {
      PrimariesFromExact(s, o + 1);
    }
  }

  /** Normalises an image that holds exactly one pair of volume headers. */
  function Normalize(s: seq<byte>): (result: Result<Run, HfsError>)
    ensures result.Ok? ==> |result.value.image| == |s|
  {
    var primaries := Primaries(s);
    PrimariesFromExact(s, 0);
    if |primaries| != 1 then Err(NoHeaderPair) else NormalizeVolume(s, primaries[0])
  }
}
