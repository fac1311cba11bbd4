/** The normaliser as the release script runs it: loops over byte buffers, stamping in place. */
module HfsNormalizer {
  import opened Results
  import opened Bytes
  import opened HfsVolume
  import opened HfsExtents

  /** Copies `data` into the buffer at `at`. */
  method Copy(buffer: array<byte>, at: nat, data: seq<byte>)
    requires at + |data| <= buffer.Length
    modifies buffer
    ensures buffer[..] == Overwrite(old(buffer[..]), at, data)
  {
    for k := 0 to |data|
      invariant forall j | 0 <= j < buffer.Length ::
                  buffer[j] == if at <= j < at + k then data[j - at] else old(buffer[j])
    {
      buffer[at + k] := data[k];
    }
  }

  /** The next signature at or after `from`, or -1. */
  ghost predicate NoSignatures(s: seq<byte>, lo: nat, hi: nat)
  {
    forall o | lo <= o < hi :: !IsSignature(s, o)
  }

  ghost predicate NoCandidates(s: seq<byte>, lo: nat, hi: nat)
  {
    forall o | lo <= o < hi :: !IsCandidate(s, o)
  }

  /** The scanned prefix: up to the next signature, or everything. */
  ghost function Bound(s: seq<byte>, offset: int): nat
    requires offset >= -1
  {
    if offset == -1 then |s| else offset
  }

  method IndexOfSignature(bytes: array<byte>, from: nat) returns (offset: int)
    ensures offset == -1 || (from <= offset && IsSignature(bytes[..], offset))
    ensures NoSignatures(bytes[..], from, Bound(bytes[..], offset))
  {
    offset := from;
    while offset + 4 <= bytes.Length
      invariant from <= offset && NoSignatures(bytes[..], from, offset)
    {
      if bytes[offset] == 0x48 && bytes[offset + 1] == 0x2b && bytes[offset + 2] == 0 && bytes[offset + 3] == 4 {
        return;
      }
      offset := offset + 1;
    }
    offset := -1;
  }

  method ReadUInt16(buffer: array<byte>, at: nat) returns (value: nat)
    requires at + 2 <= buffer.Length
    ensures value == U16(buffer[..], at)
  {
    value := buffer[at] as int * 0x100 + buffer[at + 1] as int;
  }

  method ReadUInt32(buffer: array<byte>, at: nat) returns (value: nat)
    requires at + 4 <= buffer.Length
    ensures value == U32(buffer[..], at)
  {
    var high := ReadUInt16(buffer, at);
    var low := ReadUInt16(buffer, at + 2);
    value := high * 0x1_0000 + low;
  }

  datatype Candidate = Candidate(blockSize: nat, offset: nat, totalBlocks: nat)

  ghost function CandidateAt(s: seq<byte>, o: nat): Candidate
    requires IsCandidate(s, o)
  {
    Candidate(BlockSize(s, o), o, TotalBlocks(s, o))
  }

  /** All candidates at offsets below `bound`, in order of their offsets. */
  ghost predicate IsCandidateList(s: seq<byte>, candidates: seq<Candidate>, bound: nat)
  {
    && (forall i | 0 <= i < |candidates| ::
          && candidates[i].offset < bound
          && IsCandidate(s, candidates[i].offset)
          && candidates[i] == CandidateAt(s, candidates[i].offset))
    && (forall i, j | 0 <= i < j < |candidates| :: candidates[i].offset < candidates[j].offset)
    && (forall o | 0 <= o < bound && IsCandidate(s, o) :: CandidateAt(s, o) in candidates)
  }

  /** A signature cannot overlap the next one. */
  lemma NoOverlap(s: seq<byte>, o: nat, q: nat)
    requires IsSignature(s, o) && o < q < o + 4
    ensures !IsSignature(s, q)
  {
  }

  lemma NoCandidate(s: seq<byte>, o: nat)
    requires !IsSignature(s, o)
    ensures !IsCandidate(s, o)
  {
  }

  /** Reads the header fields behind a signature. */
  method ReadCandidate(bytes: array<byte>, offset: nat) returns (r: Option<Candidate>)
    requires IsSignature(bytes[..], offset)
    ensures r.Some? <==> IsCandidate(bytes[..], offset)
    ensures r.Some? ==> r.value == CandidateAt(bytes[..], offset)
  {
    if offset + 112 > bytes.Length {
      return None;
    }
    hide U32, BitAnd;
    var blockSize := ReadUInt32(bytes, offset + 40);
    var totalBlocks := ReadUInt32(bytes, offset + 44);
    var freeBlocks := ReadUInt32(bytes, offset + 48);
    if blockSize >= 512 && BitAnd(blockSize, blockSize - 1) == 0 && totalBlocks > 0 && freeBlocks <= totalBlocks {
      return Some(Candidate(blockSize, offset, totalBlocks));
    }
    return None;
  }

  /** Between two neighbouring signatures there is no candidate. */
  lemma NoCandidateBetween(s: seq<byte>, here: nat, hi: nat)
    requires IsSignature(s, here) && NoSignatures(s, here + 4, hi)
    ensures NoCandidates(s, here + 1, hi)
  {
    hide IsSignature, IsCandidate;
    forall o | here < o < hi ensures !IsCandidate(s, o) {
      if o < here + 4 {
        NoOverlap(s, here, o);
      }
      NoCandidate(s, o);
    }
  }

  lemma NoCandidateBefore(s: seq<byte>, hi: nat)
    requires NoSignatures(s, 0, hi)
    ensures NoCandidates(s, 0, hi) && IsCandidateList(s, [], 0)
  {
    hide IsSignature, IsCandidate;
    forall o | 0 <= o < hi ensures !IsCandidate(s, o) {
      NoCandidate(s, o);
    }
  }

  /** Scans the buffer for plausible headers, resuming after each signature. */
  method FindCandidates(bytes: array<byte>) returns (candidates: seq<Candidate>)
    ensures IsCandidateList(bytes[..], candidates, bytes.Length)
  {
    hide IsCandidate, CandidateAt, IsSignature, IsCandidateList, NoSignatures, NoCandidates;
    candidates := [];
    ghost var s := bytes[..];
    var offset := IndexOfSignature(bytes, 0);
    SignatureWithin(s, offset);
    NoCandidateBefore(s, Bound(s, offset));
    Skip(s, candidates, 0, Bound(s, offset));
    while offset != -1
      invariant offset >= -1 && Bound(s, offset) <= |s|
      invariant offset != -1 ==> IsSignature(s, offset)
      invariant IsCandidateList(s, candidates, Bound(s, offset))
      decreases offset != -1, |s| - offset
    {
      var here := offset;
      var candidate := ReadCandidate(bytes, here);
      if candidate.Some? {
        candidates := Extend(s, candidates, candidate.value, here);
      } else {
        SkipOne(s, candidates, here);
      }
      offset := IndexOfSignature(bytes, here + 4);
      SignatureWithin(s, offset);
      SignatureWithin(s, here);
      NoCandidateBetween(s, here, Bound(s, offset));
      Skip(s, candidates, here + 1, Bound(s, offset));
    }
  }

  lemma SkipOne(s: seq<byte>, candidates: seq<Candidate>, here: nat)
    requires IsCandidateList(s, candidates, here) && !IsCandidate(s, here)
    ensures IsCandidateList(s, candidates, here + 1)
  {
    hide IsCandidate, IsCandidateList;
    Skip(s, candidates, here, here + 1);
  }

  lemma SignatureWithin(s: seq<byte>, offset: int)
    requires offset >= 0 ==> IsSignature(s, offset)
    ensures offset + 4 <= |s| || offset < 0
  {
  }

  /** Appends a candidate found at the current bound. */
  method Extend(ghost s: seq<byte>, candidates: seq<Candidate>, next: Candidate, ghost bound: nat)
    returns (r: seq<Candidate>)
    requires IsCandidateList(s, candidates, bound)
    requires IsCandidate(s, bound) && next == CandidateAt(s, bound)
    ensures IsCandidateList(s, r, bound + 1)
  {
    hide IsCandidate;
    r := candidates + [next];
    forall o | 0 <= o < bound + 1 && IsCandidate(s, o) ensures CandidateAt(s, o) in r {
      if o == bound {
        assert r[|candidates|] == next;
      }
    }
  }

  /** Moves the bound past offsets that hold no candidate. */
  lemma Skip(s: seq<byte>, candidates: seq<Candidate>, from: nat, to: nat)
    requires IsCandidateList(s, candidates, from) && from <= to
    requires NoCandidates(s, from, to)
    ensures IsCandidateList(s, candidates, to)
  {
    hide IsCandidate;
  }

  // ---------------------------------------------------------------- pairing headers

  datatype Pair = Pair(primary: Candidate, alternate: Candidate)

  ghost predicate IsPairOf(s: seq<byte>, pair: Pair)
  {
    && IsPrimary(s, pair.primary.offset)
    && pair.primary == CandidateAt(s, pair.primary.offset)
    && pair.alternate.offset == AlternateOffset(s, pair.primary.offset)
  }

  /** The first candidate that can be the alternate of `primary`. */
  method FindAlternate(ghost s: seq<byte>, candidates: seq<Candidate>, primary: Candidate)
    returns (alternate: Option<Candidate>)
    requires IsCandidateList(s, candidates, |s|) && primary in candidates
    ensures alternate.Some? <==> IsPrimary(s, primary.offset)
    ensures alternate.Some? ==> IsPairOf(s, Pair(primary, alternate.value))
  {
    var alternateOffset := primary.offset + primary.blockSize * primary.totalBlocks - 2048;
    hide U32, BitAnd, IsSignature;
    for i := 0 to |candidates|
      invariant forall j | 0 <= j < i :: !(candidates[j].offset == alternateOffset
                                           && candidates[j].blockSize == primary.blockSize
                                           && candidates[j].totalBlocks == primary.totalBlocks)
    {
      var candidate := candidates[i];
      if candidate.offset == alternateOffset && candidate.blockSize == primary.blockSize
         && candidate.totalBlocks == primary.totalBlocks {
        return Some(candidate);
      }
    }
    return None;
  }

  ghost function PrimaryOffsets(pairs: seq<Pair>): seq<nat>
  {
    seq(|pairs|, i requires 0 <= i < |pairs| => pairs[i].primary.offset)
  }

  lemma {:induction false} SkipPrimaries(s: seq<byte>, from: nat, bound: nat)
    requires from <= bound <= |s| && forall o | from <= o < bound :: !IsPrimary(s, o)
    ensures PrimariesFrom(s, from) == PrimariesFrom(s, bound)
    decreases |s| - from
  {
    if from < bound {
      SkipPrimaries(s, from + 1, bound);
      PrimariesStep(s, from);
    }
  }

  ghost function NextOffset(s: seq<byte>, candidates: seq<Candidate>, i: nat): nat
    requires i <= |candidates|
  {
    if i < |candidates| then candidates[i].offset else |s|
  }

  lemma PrimaryIsListed(s: seq<byte>, candidates: seq<Candidate>, o: nat) returns (j: nat)
    requires IsCandidateList(s, candidates, |s|) && IsPrimary(s, o) && o < |s|
    ensures j < |candidates| && candidates[j].offset == o
  {
    hide U32, BitAnd, IsSignature;
    j :| 0 <= j < |candidates| && candidates[j] == CandidateAt(s, o);
  }

  /** Between two neighbours of the candidate list there is no primary header. */
  lemma NextPrimaries(s: seq<byte>, candidates: seq<Candidate>, i: nat, from: nat)
    requires IsCandidateList(s, candidates, |s|) && i <= |candidates|
    requires from <= NextOffset(s, candidates, i)
    requires forall j | 0 <= j < i :: candidates[j].offset < from
    ensures NextOffset(s, candidates, i) <= |s|
    ensures PrimariesFrom(s, from) == PrimariesFrom(s, NextOffset(s, candidates, i))
  {
    hide IsPrimary, IsCandidate, CandidateAt, PrimariesFrom;
    forall o: nat | o < |s| && IsPrimary(s, o) ensures o < from || NextOffset(s, candidates, i) <= o {
      var j := PrimaryIsListed(s, candidates, o);
    }
    SkipPrimaries(s, from, NextOffset(s, candidates, i));
  }

  /** Pairs every candidate with its alternate, dropping those that have none. */
  method FindPairs(ghost s: seq<byte>, candidates: seq<Candidate>) returns (pairs: seq<Pair>)
    requires IsCandidateList(s, candidates, |s|)
    ensures PrimaryOffsets(pairs) == Primaries(s)
    ensures forall pair | pair in pairs :: IsPairOf(s, pair)
  {
    pairs := [];
    hide IsPrimary, IsCandidate, CandidateAt, PrimariesFrom;
    NextPrimaries(s, candidates, 0, 0);
    for i := 0 to |candidates|
      invariant NextOffset(s, candidates, i) <= |s|
      invariant PrimaryOffsets(pairs) + PrimariesFrom(s, NextOffset(s, candidates, i)) == Primaries(s)
      invariant forall pair | pair in pairs :: IsPairOf(s, pair)
    {
      var primary := candidates[i];
      var alternate := FindAlternate(s, candidates, primary);
      NextPrimaries(s, candidates, i + 1, primary.offset + 1);
      PrimariesStep(s, primary.offset);
      if alternate.Some? {
        ghost var was := PrimaryOffsets(pairs);
        pairs := pairs + [Pair(primary, alternate.value)];
        assert PrimaryOffsets(pairs) == was + [primary.offset];
      }
    }
    NoMorePrimaries(s);
  }

  lemma PrimariesStep(s: seq<byte>, o: nat)
    requires o < |s|
    ensures PrimariesFrom(s, o) == (if IsPrimary(s, o) then [o] else []) + PrimariesFrom(s, o + 1)
  {
    hide IsPrimary;
  }

  lemma NoMorePrimaries(s: seq<byte>)
    ensures PrimariesFrom(s, |s|) == []
  {
  }

  // ---------------------------------------------------------------- stamping headers

  /** Overwrites the dates and the volume identifier of one header. */
  method StampHeaderBytes(bytes: array<byte>, offset: nat)
    requires offset + 112 <= bytes.Length
    modifies bytes
    ensures bytes[..] == StampHeader(old(bytes[..]), offset)
  {
    var dateOffsets := [16, 20, 24, 28];
    for i := 0 to 4
      invariant forall k | 0 <= k < bytes.Length ::
                  bytes[k] == if 16 <= k - offset < 16 + 4 * i then HFS_DATE[(k - offset - 16) % 4] else old(bytes[k])
    {
      assert dateOffsets[i] == 16 + 4 * i;
      Copy(bytes, offset + dateOffsets[i], HFS_DATE);
    }
    Copy(bytes, offset + 104, VOLUME_ID);
  }

  // ---------------------------------------------------------------- gathering and scattering

  lemma OverwritePrefix(s: seq<byte>, at: nat, data: seq<byte>)
    requires at + |data| <= |s|
    ensures Overwrite(s, at, data)[..at + |data|] == s[..at] + data
  {
  }

  /** Extent record `k` of the header at `p`, or the reason why it is refused. */
  method ReadExtentRecord(bytes: array<byte>, p: nat, blockSize: nat, totalBlocks: nat, room: int, k: nat)
    returns (r: Result<Option<Extent>, HfsError>)
    requires 1024 <= p
    ensures r == ReadExtent(bytes[..], p, blockSize, totalBlocks, room, k)
  {
    hide U32;
    if p + 296 + 8 * k > bytes.Length {
      return Err(OutOfRange);
    }
    var startBlock := ReadUInt32(bytes, p + 288 + 8 * k);
    var blockCount := ReadUInt32(bytes, p + 292 + 8 * k);
    if blockCount == 0 {
      return if startBlock == 0 then Ok(None) else Err(PartialExtent);
    }
    if !(startBlock < totalBlocks && blockCount <= totalBlocks - startBlock && blockCount * blockSize <= room) {
      return Err(BadExtent);
    }
    var extent := Extent(p - 1024 + startBlock * blockSize, blockCount * blockSize);
    return if extent.physical + extent.length > bytes.Length then Err(ExtentOutsideImage) else Ok(Some(extent));
  }

  /** Copies one more extent behind those already gathered. */
  method AppendToCatalog(bytes: array<byte>, catalog: array<byte>, catalogOffset: nat, e: Extent,
                         ghost extents: seq<Extent>)
    requires catalog != bytes && ExtentsWithin(extents, bytes.Length) && catalogOffset == TotalLength(extents)
    requires e.physical + e.length <= bytes.Length && catalogOffset + e.length <= catalog.Length
    requires catalog[..][..catalogOffset] == Gather(bytes[..], extents)
    modifies catalog
    ensures bytes[..] == old(bytes[..])
    ensures ExtentsWithin(extents + [e], bytes.Length)
    ensures TotalLength(extents + [e]) == catalogOffset + e.length
    ensures catalog[..][..catalogOffset + e.length] == Gather(bytes[..], extents + [e])
  {
    hide *;
    AppendExtent(bytes[..], extents, e);
    var data := bytes[e.physical..e.physical + e.length];
    assert data == bytes[..][e.physical..e.physical + e.length];
    OverwritePrefix(catalog[..], catalogOffset, data);
    Copy(catalog, catalogOffset, data);
  }

  /** One step of reading the extent table. */
  lemma ReadExtentsStep(s: seq<byte>, p: nat, blockSize: nat, totalBlocks: nat, capacity: nat, k: nat, acc: seq<Extent>)
    requires k <= 8 && 1024 <= p && ExtentsWithin(acc, |s|)
    ensures k == 8 ==> ReadExtents(s, p, blockSize, totalBlocks, capacity, k, acc)
                       == if TotalLength(acc) == capacity && |acc| > 0 then Ok(acc) else Err(OverflowExtents)
    ensures k < 8 ==>
              var read := ReadExtent(s, p, blockSize, totalBlocks, capacity - TotalLength(acc), k);
              && (read.Err? ==> ReadExtents(s, p, blockSize, totalBlocks, capacity, k, acc) == Err(read.error))
              && (read.Ok? ==>
                    var acc' := if read.value.Some? then acc + [read.value.value] else acc;
                    && ExtentsWithin(acc', |s|)
                    && ReadExtents(s, p, blockSize, totalBlocks, capacity, k, acc)
                       == ReadExtents(s, p, blockSize, totalBlocks, capacity, k + 1, acc'))
  {
    hide ReadExtent, TotalLength;
  }

  /** The first `catalogOffset` bytes of the catalog buffer hold the extents read so far. */
  ghost predicate Gathered(c: seq<byte>, catalogOffset: nat, s: seq<byte>, extents: seq<Extent>)
  {
    && ExtentsWithin(extents, |s|)
    && catalogOffset == TotalLength(extents) <= |c|
    && c[..catalogOffset] == Gather(s, extents)
  }

  /** Reads extent record `k` and copies the extent behind those already gathered. */
  method GatherNext(bytes: array<byte>, p: nat, blockSize: nat, totalBlocks: nat, catalog: array<byte>,
                    k: nat, catalogOffset: nat, extents: seq<Extent>)
    returns (r: Result<seq<Extent>, HfsError>, catalogOffset': nat)
    requires 1024 <= p && catalog != bytes && k < 8
    requires Gathered(catalog[..], catalogOffset, bytes[..], extents)
    modifies catalog
    ensures bytes[..] == old(bytes[..])
    ensures var spec := ReadExtents(bytes[..], p, blockSize, totalBlocks, catalog.Length, k, extents);
            && (r.Err? ==> spec == Err(r.error))
            && (r.Ok? ==>
                  && Gathered(catalog[..], catalogOffset', bytes[..], r.value)
                  && spec == ReadExtents(bytes[..], p, blockSize, totalBlocks, catalog.Length, k + 1, r.value))
  {
    hide ReadExtent, ReadExtents, Gather, TotalLength, ExtentsWithin;
    ReadExtentsStep(bytes[..], p, blockSize, totalBlocks, catalog.Length, k, extents);
    catalogOffset' := catalogOffset;
    var extent := ReadExtentRecord(bytes, p, blockSize, totalBlocks, catalog.Length - catalogOffset, k);
    if extent.Err? {
      r := Err(extent.error);
    } else if extent.value.Some? {
      var e := extent.value.value;
      AppendToCatalog(bytes, catalog, catalogOffset, e, extents);
      r := Ok(extents + [e]);
      catalogOffset' := catalogOffset + e.length;
    } else {
      r := Ok(extents);
    }
  }

  /** Reads the eight extents and copies each into the catalog buffer. */
  method GatherExtents(bytes: array<byte>, p: nat, blockSize: nat, totalBlocks: nat, catalog: array<byte>)
    returns (r: Result<seq<Extent>, HfsError>)
    requires 1024 <= p && catalog != bytes
    modifies catalog
    ensures bytes[..] == old(bytes[..])
    ensures r == ReadExtents(bytes[..], p, blockSize, totalBlocks, catalog.Length, 0, [])
    ensures r.Ok? ==> catalog[..] == Gather(bytes[..], r.value)
  {
    ghost var s := bytes[..];
    ghost var spec := ReadExtents(s, p, blockSize, totalBlocks, catalog.Length, 0, []);
    var catalogOffset: nat := 0;
    r := Ok([]);
    assert Gathered(catalog[..], catalogOffset, s, []);
    hide ReadExtents, Gather, TotalLength, ExtentsWithin, Gathered;
    for k := 0 to 8
      invariant bytes[..] == s && r.Ok?
      invariant Gathered(catalog[..], catalogOffset, s, r.value) && ExtentsWithin(r.value, |s|)
      invariant spec == ReadExtents(s, p, blockSize, totalBlocks, catalog.Length, k, r.value)
    {
      r, catalogOffset := GatherNext(bytes, p, blockSize, totalBlocks, catalog, k, catalogOffset, r.value);
      if r.Err? {
        return;
      }
      GatheredLength(catalog[..], catalogOffset, s, r.value);
    }
    GatheredLength(catalog[..], catalogOffset, s, r.value);
    ReadExtentsStep(s, p, blockSize, totalBlocks, catalog.Length, 8, r.value);
    if !(catalogOffset == catalog.Length && |r.value| > 0) {
      r := Err(OverflowExtents);
    }
  }

  lemma GatheredLength(c: seq<byte>, catalogOffset: nat, s: seq<byte>, extents: seq<Extent>)
    requires Gathered(c, catalogOffset, s, extents)
    ensures ExtentsWithin(extents, |s|) && catalogOffset == TotalLength(extents)
    ensures catalogOffset == |c| ==> c == Gather(s, extents)
  {
  }

  lemma ScatterStep(s: seq<byte>, extents: seq<Extent>, c: seq<byte>, k: nat)
    requires k < |extents| && ExtentsWithin(extents, |s|) && TotalLength(extents[..k + 1]) <= |c|
    ensures TotalLength(extents[..k + 1]) == TotalLength(extents[..k]) + extents[k].length
    ensures ExtentsWithin(extents[..k], |s|) && ExtentsWithin(extents[..k + 1], |s|)
    ensures extents[k].physical + extents[k].length <= |s|
    ensures var at := TotalLength(extents[..k]);
            Scatter(s, extents[..k + 1], c)
            == Overwrite(Scatter(s, extents[..k], c), extents[k].physical, c[at..at + extents[k].length])
  {
    hide ExtentsWithin, TotalLength, Scatter, Overwrite;
    var front, last := extents[..k], extents[k];
    assert extents[..k + 1] == front + [last];
    PrefixWithin(extents, k + 1, |s|);
    WithinAppend(front, last, |s|);
    TotalLengthAppend(front, last);
    ScatterAppend(s, front, last, c);
  }

  lemma PrefixWithin(extents: seq<Extent>, k: nat, size: nat)
    requires k <= |extents| && ExtentsWithin(extents, size)
    ensures ExtentsWithin(extents[..k], size)
  {
    forall e | e in extents[..k] ensures e in extents {
    }
  }

  lemma {:induction false} PrefixLength(extents: seq<Extent>, k: nat)
    requires k <= |extents|
    ensures TotalLength(extents[..k]) <= TotalLength(extents)
    decreases |extents|
  {
    if k < |extents| {
      PrefixLength(extents[..|extents| - 1], k);
      assert extents[..|extents| - 1][..k] == extents[..k];
    } else {
      assert extents[..k] == extents;
    }
  }

  /** Copies the catalog back into the image, extent by extent. */
  method ScatterExtents(bytes: array<byte>, extents: seq<Extent>, catalog: array<byte>)
    requires catalog != bytes && ExtentsWithin(extents, bytes.Length) && TotalLength(extents) == catalog.Length
    modifies bytes
    ensures bytes[..] == Scatter(old(bytes[..]), extents, catalog[..])
  {
    hide *;
    ghost var s, c := bytes[..], catalog[..];
    var catalogOffset := 0;
    assert extents[..0] == [];
    ScatterNothing(s, c, 0);
    for k := 0 to |extents|
      invariant catalog[..] == c
      invariant catalogOffset == TotalLength(extents[..k]) <= |c| && ExtentsWithin(extents[..k], |s|)
      invariant bytes[..] == Scatter(s, extents[..k], c)
    {
      PrefixLength(extents, k + 1);
      ScatterStep(s, extents, c, k);
      var extent := extents[k];
      var data := catalog[catalogOffset..catalogOffset + extent.length];
      assert data == c[catalogOffset..catalogOffset + extent.length];
      Copy(bytes, extent.physical, data);
      catalogOffset := catalogOffset + extent.length;
    }
    assert extents[..|extents|] == extents;
  }

  // ---------------------------------------------------------------- walking the catalog

  /** Overwrites the six dates of one file or folder record. */
  method StampRecordBytes(catalog: array<byte>, data: nat)
    requires data + 72 <= catalog.Length
    modifies catalog
    ensures catalog[..] == StampRecord(old(catalog[..]), data)
  {
    var dateOffsets := [12, 16, 20, 24, 28];
    for i := 0 to 5
      invariant forall k | 0 <= k < catalog.Length ::
                  catalog[k] == if 12 <= k - data < 12 + 4 * i then HFS_DATE[(k - data - 12) % 4] else old(catalog[k])
    {
      assert dateOffsets[i] == 12 + 4 * i;
      Copy(catalog, data + dateOffsets[i], HFS_DATE);
    }
    Copy(catalog, data + 68, BSD_DATE);
  }

  /** Reads one record of a leaf. */
  method ReadLeafRecord(catalog: array<byte>, n: Node, table: nat, r: nat, previous: nat)
    returns (result: Result<Record, HfsError>)
    requires NodeWithin(n, catalog.Length)
    requires table + (r + 1) * 2 < n.start + n.size
    ensures result == ReadRecord(catalog[..], n, table, r, previous)
  {
    hide U16;
    var offset := ReadUInt16(catalog, n.start + n.size - (r + 1) * 2);
    var key := n.start + offset;
    if !(offset > previous && key + 4 <= table) {
      return Err(BadRecordOffset);
    }
    var keyLength := ReadUInt16(catalog, key);
    var data := key + ((keyLength + 3) - (keyLength + 3) % 2);
    if data + 2 > table {
      return Err(BadRecordKey);
    }
    var kind := ReadUInt16(catalog, data);
    if kind == 1 || kind == 2 {
      var size := if kind == 1 then 88 else 248;
      if data + size > table {
        return Err(TruncatedRecord);
      }
    } else if kind != 3 && kind != 4 {
      return Err(BadRecordType);
    }
    return Ok(Record(key, data, kind));
  }

  /** The counters and the log of the walk, beside the catalog buffer itself. */
  datatype Progress = Progress(leafRecords: nat, normalizedRecords: nat, stamped: seq<nat>)

  /** The buffer and the progress together hold the state `w` of the walk. */
  ghost predicate Holds(c: seq<byte>, progress: Progress, w: Walk)
  {
    && w == Walk(c, progress.leafRecords, progress.stamped)
    && progress.normalizedRecords == |progress.stamped|
  }

  ghost predicate Refines(c: seq<byte>, r: Result<Progress, HfsError>, spec: Result<Walk, HfsError>)
  {
    match spec
    case Err(e) => r == Err(e)
    case Ok(w) => r.Ok? && Holds(c, r.value, w)
  }

  method WalkRecordBytes(catalog: array<byte>, record: Record, progress: Progress, ghost w: Walk)
    returns (next: Progress)
    requires record.End() <= catalog.Length
    requires Holds(catalog[..], progress, w)
    modifies catalog
    ensures Holds(catalog[..], next, Visit(w, record))
  {
    hide StampRecord;
    next := progress;
    if record.kind == 1 || record.kind == 2 {
      StampRecordBytes(catalog, record.data);
      next := next.(normalizedRecords := next.normalizedRecords + 1, stamped := next.stamped + [record.data]);
    }
    next := next.(leafRecords := next.leafRecords + 1);
  }

  lemma WalkRecordsStep(w: Walk, n: Node, table: nat, count: nat, r: nat, previous: nat)
    requires NodeWithin(n, |w.catalog|)
    requires r <= count && table + (count + 1) * 2 == n.start + n.size
    ensures r == count ==> WalkRecords(w, n, table, count, r, previous) == Ok(w)
    ensures r < count ==>
              var read := ReadRecord(w.catalog, n, table, r, previous);
              && (read.Err? ==> WalkRecords(w, n, table, count, r, previous) == Err(read.error))
              && (read.Ok? ==>
                    && |Visit(w, read.value).catalog| == |w.catalog|
                    && WalkRecords(w, n, table, count, r, previous)
                       == WalkRecords(Visit(w, read.value), n, table, count, r + 1, read.value.key - n.start))
  {
    hide ReadRecord, StampRecord;
  }

  /** Reads record `r` of a leaf and stamps it. */
  method WalkNextRecord(catalog: array<byte>, n: Node, table: nat, count: nat, r: nat, previous: nat,
                        progress: Progress, ghost w: Walk)
    returns (next: Result<Progress, HfsError>, previous': nat, ghost w': Walk)
    requires NodeWithin(n, catalog.Length) && table + (count + 1) * 2 == n.start + n.size && r < count
    requires Holds(catalog[..], progress, w)
    modifies catalog
    ensures next.Err? ==> WalkRecords(w, n, table, count, r, previous) == Err(next.error)
    ensures next.Ok? ==>
              && Holds(catalog[..], next.value, w')
              && WalkRecords(w, n, table, count, r, previous) == WalkRecords(w', n, table, count, r + 1, previous')
  {
    hide ReadRecord, WalkRecords, Visit;
    WalkRecordsStep(w, n, table, count, r, previous);
    previous', w' := previous, w;
    var read := ReadLeafRecord(catalog, n, table, r, previous);
    if read.Err? {
      next := Err(read.error);
      return;
    }
    previous' := read.value.key - n.start;
    var now := WalkRecordBytes(catalog, read.value, progress, w);
    next, w' := Ok(now), Visit(w, read.value);
  }

  /** Walks the records of one leaf. */
  method WalkRecordsBytes(catalog: array<byte>, n: Node, table: nat, count: nat, progress: Progress, ghost w: Walk)
    returns (r: Result<Progress, HfsError>)
    requires NodeWithin(n, catalog.Length) && table + (count + 1) * 2 == n.start + n.size
    requires Holds(catalog[..], progress, w)
    modifies catalog
    ensures Refines(catalog[..], r, WalkRecords(w, n, table, count, 0, 13))
  {
    r := Ok(progress);
    ghost var at := w;
    var previousRecordOffset: nat := 13;
    ghost var spec := WalkRecords(w, n, table, count, 0, 13);
    hide WalkRecords;
    for record := 0 to count
      invariant r.Ok? && Holds(catalog[..], r.value, at)
      invariant spec == WalkRecords(at, n, table, count, record, previousRecordOffset)
    {
      r, previousRecordOffset, at := WalkNextRecord(catalog, n, table, count, record, previousRecordOffset, r.value, at);
      if r.Err? {
        return;
      }
    }
    WalkRecordsStep(at, n, table, count, count, previousRecordOffset);
  }

  /** Walks one node. */
  method WalkNodeBytes(catalog: array<byte>, n: Node, progress: Progress, ghost w: Walk)
    returns (r: Result<Progress, HfsError>)
    requires NodeWithin(n, catalog.Length)
    requires Holds(catalog[..], progress, w)
    modifies catalog
    ensures Refines(catalog[..], r, WalkNode(w, n))
  {
    hide WalkRecords, U16;
    if catalog[n.start + 8] != 0xff {
      return Ok(progress);
    }
    var count := ReadUInt16(catalog, n.start + 10);
    var table := n.start + n.size - (count + 1) * 2;
    if !(count > 0 && table >= n.start + 14) {
      return Err(BadLeaf);
    }
    r := WalkRecordsBytes(catalog, n, table, count, progress, w);
  }

  /** Walks all nodes, from the first byte of the catalog on. */
  method WalkNodesBytes(catalog: array<byte>, nodeSize: nat, totalNodes: nat)
    returns (r: Result<Progress, HfsError>)
    requires NodesWithin(0, nodeSize, totalNodes, catalog.Length)
    modifies catalog
    ensures Refines(catalog[..], r, WalkNodes(Walk(old(catalog[..]), 0, []), 0, nodeSize, totalNodes))
  {
    ghost var w := Walk(catalog[..], 0, []);
    ghost var at := w;
    var now := Progress(0, 0, []);
    var nodeOffset: nat := 0;
    hide WalkNode, Refines;
    for node := 0 to totalNodes
      invariant Holds(catalog[..], now, at)
      invariant NodesWithin(nodeOffset, nodeSize, totalNodes - node, catalog.Length)
      invariant WalkNodes(w, 0, nodeSize, totalNodes) == WalkNodes(at, nodeOffset, nodeSize, totalNodes - node)
    {
      var visited := WalkNodeBytes(catalog, Node(nodeOffset, nodeSize), now, at);
      RefinesCases(catalog[..], visited, WalkNode(at, Node(nodeOffset, nodeSize)));
      if visited.Err? {
        RefinesError(catalog[..], visited.error, WalkNodes(w, 0, nodeSize, totalNodes));
        return Err(visited.error);
      }
      now := visited.value;
      at := WalkNode(at, Node(nodeOffset, nodeSize)).value;
      nodeOffset := nodeOffset + nodeSize;
    }
    RefinesValue(catalog[..], now, at);
    return Ok(now);
  }

  lemma RefinesCases(c: seq<byte>, r: Result<Progress, HfsError>, spec: Result<Walk, HfsError>)
    requires Refines(c, r, spec)
    ensures r.Err? ==> spec == Err(r.error)
    ensures r.Ok? ==> spec.Ok? && Holds(c, r.value, spec.value)
  {
  }

  lemma RefinesError(c: seq<byte>, error: HfsError, spec: Result<Walk, HfsError>)
    requires spec == Err(error)
    ensures Refines(c, Err(error), spec)
  {
  }

  lemma RefinesValue(c: seq<byte>, progress: Progress, w: Walk)
    requires Holds(c, progress, w)
    ensures Refines(c, Ok(progress), Ok(w))
  {
  }

  /** Checks the tree's header node, walks it, and checks the inventory. */
  method StampCatalogBytes(catalog: array<byte>, logicalSize: nat) returns (r: Result<Progress, HfsError>)
    requires 512 <= catalog.Length && logicalSize <= catalog.Length
    modifies catalog
    ensures Refines(catalog[..], r, StampCatalog(old(catalog[..]), logicalSize))
  {
    hide WalkNodes, NodesWithin, U16, U32, BitAnd, Refines;
    ghost var c := catalog[..];
    ghost var spec := StampCatalog(c, logicalSize);
    var headerRecords := ReadUInt16(catalog, 10);
    if !(catalog[8] == 1 && headerRecords >= 3) {
      RefinesError(catalog[..], BadHeaderNode, spec);
      return Err(BadHeaderNode);
    }
    var expectedLeafRecords := ReadUInt32(catalog, 20);
    var nodeSize := ReadUInt16(catalog, 32);
    var totalNodes := ReadUInt32(catalog, 36);
    if !(nodeSize >= 512 && BitAnd(nodeSize, nodeSize - 1) == 0 && totalNodes > 0
         && totalNodes * nodeSize <= logicalSize) {
      RefinesError(catalog[..], BadTreeShape, spec);
      return Err(BadTreeShape);
    }
    NodesFit(0, nodeSize, totalNodes, catalog.Length);
    var walked := WalkNodesBytes(catalog, nodeSize, totalNodes);
    RefinesCases(catalog[..], walked, WalkNodes(Walk(c, 0, []), 0, nodeSize, totalNodes));
    if walked.Err? {
      RefinesError(catalog[..], walked.error, spec);
      return walked;
    }
    if !(walked.value.leafRecords == expectedLeafRecords && walked.value.normalizedRecords > 0) {
      RefinesError(catalog[..], IncompleteLeaves, spec);
      return Err(IncompleteLeaves);
    }
    RefinesValue(catalog[..], walked.value, spec.value);
    return walked;
  }

  // ---------------------------------------------------------------- the whole run

  method ReadUInt64(buffer: array<byte>, at: nat) returns (value: nat)
    requires at + 8 <= buffer.Length
    ensures value == U64(buffer[..], at)
  {
    hide U32;
    var high := ReadUInt32(buffer, at);
    var low := ReadUInt32(buffer, at + 4);
    value := high * 0x1_0000_0000 + low;
  }

  ghost function ImageOf(run: Result<Run, HfsError>): Result<seq<byte>, HfsError>
  {
    match run
    case Ok(value) => Ok(value.image)
    case Err(e) => Err(e)
  }

  /** Stamps the catalog of the volume whose headers are already stamped. */
  method NormalizeCatalog(bytes: array<byte>, p: nat, blockSize: nat, totalBlocks: nat)
    returns (r: Result<seq<byte>, HfsError>)
    requires blockSize >= 512
    modifies bytes
    ensures var file := ReadCatalog(old(bytes[..]), p, blockSize, totalBlocks);
            r == if file.Err? then Err(file.error)
                 else
                   var walk := StampCatalog(Gather(old(bytes[..]), file.value.extents), file.value.logicalSize);
                   if walk.Err? then Err(walk.error)
                   else Ok(Scatter(old(bytes[..]), file.value.extents, walk.value.catalog))
  {
    ghost var s := bytes[..];
    hide U64, U32, ReadExtents, StampCatalog, Gather, Scatter, TotalLength;
    if p < 1024 {
      return Err(VolumeStart);
    }
    if p + 288 > bytes.Length {
      return Err(OutOfRange);
    }
    var logicalSize := ReadUInt64(bytes, p + 272);
    var blocks := ReadUInt32(bytes, p + 284);
    var capacity := blocks * blockSize;
    if !(logicalSize <= MAX_SAFE_INTEGER && 0 < logicalSize <= capacity) {
      return Err(CatalogSize);
    }
    var catalog := new byte[capacity];
    var extents := GatherExtents(bytes, p, blockSize, totalBlocks, catalog);
    if extents.Err? {
      return Err(extents.error);
    }
    ghost var file := ReadCatalog(s, p, blockSize, totalBlocks);
    assert file == Ok(CatalogFile(logicalSize, extents.value));
    hide *;
    var walked := StampCatalogBytes(catalog, logicalSize);
    RefinesCases(catalog[..], walked, StampCatalog(Gather(s, extents.value), logicalSize));
    if walked.Err? {
      return Err(walked.error);
    }
    HoldsCatalog(catalog[..], walked.value, StampCatalog(Gather(s, extents.value), logicalSize).value);
    ScatterExtents(bytes, extents.value, catalog);
    return Ok(bytes[..]);
  }

  lemma HoldsCatalog(c: seq<byte>, progress: Progress, w: Walk)
    requires Holds(c, progress, w)
    ensures w.catalog == c
  {
  }

  /**
    Normalises an image: read into a buffer, stamped in place, and returned to be written back.
    Refused images are never written.
   */
  method NormalizeHfsMetadata(image: seq<byte>) returns (r: Result<seq<byte>, HfsError>)
    ensures r == ImageOf(Normalize(image))
  {
    var bytes := new byte[|image|](i requires 0 <= i < |image| => image[i]);
    assert bytes[..] == image;
    var candidates := FindCandidates(bytes);
    var pairs := FindPairs(image, candidates);
    assert |pairs| == |Primaries(image)|;
    hide *;
    if |pairs| != 1 {
      RefusePairs(image);
      return Err(NoHeaderPair);
    }
    var pair := pairs[0];
    assert pair in pairs;
    SinglePair(image, pairs);
    ghost var headed := StampHeaders(image, pair.primary.offset);
    StampHeaderBytes(bytes, pair.primary.offset);
    StampHeaderBytes(bytes, pair.alternate.offset);
    HeadedBytes(image, pair);
    r := NormalizeCatalog(bytes, pair.primary.offset, pair.primary.blockSize, pair.primary.totalBlocks);
    RunOfVolume(image, pair.primary.offset);
  }

  lemma RefusePairs(s: seq<byte>)
    requires |Primaries(s)| != 1
    ensures ImageOf(Normalize(s)) == Err(NoHeaderPair)
  {
    hide Primaries, NormalizeVolume;
  }

  lemma SinglePair(s: seq<byte>, pairs: seq<Pair>)
    requires |pairs| == 1 && PrimaryOffsets(pairs) == Primaries(s) && IsPairOf(s, pairs[0])
    ensures var p := pairs[0].primary.offset;
            && Primaries(s) == [p] && IsPrimary(s, p)
            && p + 112 <= |s| && pairs[0].alternate.offset + 112 <= |s|
            && pairs[0].primary.blockSize == BlockSize(s, p) >= 512
            && pairs[0].primary.totalBlocks == TotalBlocks(s, p)
  {
    hide U32, BitAnd, IsSignature, PrimariesFrom;
  }

  lemma HeadedBytes(s: seq<byte>, pair: Pair)
    requires IsPairOf(s, pair)
    ensures StampHeaders(s, pair.primary.offset)
            == StampHeader(StampHeader(s, pair.primary.offset), pair.alternate.offset)
  {
    hide IsCandidate, StampHeader;
  }

  lemma RunOfVolume(s: seq<byte>, p: nat)
    requires Primaries(s) == [p] && IsPrimary(s, p) && p + 112 <= |s| && BlockSize(s, p) >= 512
    ensures var headed := StampHeaders(s, p);
            var file := ReadCatalog(headed, p, BlockSize(s, p), TotalBlocks(s, p));
            ImageOf(Normalize(s))
            == if file.Err? then Err(file.error)
               else
                 var walk := StampCatalog(Gather(headed, file.value.extents), file.value.logicalSize);
                 if walk.Err? then Err(walk.error)
                 else Ok(Scatter(headed, file.value.extents, walk.value.catalog))
  {
    hide Primaries, StampHeaders, ReadCatalog, StampCatalog, Gather, Scatter, IsPrimary, BlockSize, TotalBlocks;
  }
}
