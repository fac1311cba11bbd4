/**
  What the in-place walk over the catalog does.  On every catalog it writes date fields of
  stamped records only; on a catalog whose records do not overlap it equals reading the whole
  layout first and stamping afterwards, and depends on no date byte.
 */
module HfsCatalog {
  import opened Results
  import opened Bytes
  import opened HfsVolume

  /** Whether byte `k` is a date byte of one of the records whose data starts in `stamped`. */
  ghost predicate InFields(stamped: seq<nat>, k: int)
  {
    exists d :: d in stamped && IsRecordField(k - d)
  }

  lemma InFieldsConcat(a: seq<nat>, b: seq<nat>, k: int)
    ensures InFields(a + b, k) <==> InFields(a, k) || InFields(b, k)
  {
    assert forall d :: d in a + b <==> d in a || d in b;
  }

  // ---------------------------------------------------------------- frame, for every catalog

  lemma InFieldsPrefix(a: seq<nat>, b: seq<nat>, k: int)
    requires a <= b && InFields(a, k)
    ensures InFields(b, k)
  {
    var d :| d in a && IsRecordField(k - d);
    assert d in b;
  }

  lemma VisitFrame(w: Walk, record: Record, k: nat)
    requires k < |w.catalog| && Visit(w, record).catalog[k] != w.catalog[k]
    ensures InFields(Visit(w, record).stamped, k) && record.data + 12 <= k < record.data + 72
    ensures record.IsStamped()
  {
    assert record.data in w.stamped + [record.data];
  }

  lemma VisitGrows(w: Walk, record: Record)
    ensures w.stamped <= Visit(w, record).stamped && |Visit(w, record).catalog| == |w.catalog|
  {
  }

  /** One leaf: writes stay between the node descriptor and the offset table. */
  lemma {:induction false} WalkRecordsFrame(w: Walk, n: Node, table: nat, count: nat, r: nat, previous: nat, k: nat)
    requires NodeWithin(n, |w.catalog|) && previous >= 13
    requires r <= count && table + (count + 1) * 2 == n.start + n.size
    requires WalkRecords(w, n, table, count, r, previous).Ok?
    requires k < |w.catalog|
    ensures var w' := WalkRecords(w, n, table, count, r, previous).value;
            && w.stamped <= w'.stamped
            && (w'.catalog[k] != w.catalog[k] ==> InFields(w'.stamped, k) && n.start + 14 <= k < table)
    decreases count - r
  {
    hide ReadRecord, Visit, StampRecord, InFields, IsRecordField;
    if r < count {
      var record := ReadRecord(w.catalog, n, table, r, previous).value;
      var next := Visit(w, record);
      VisitGrows(w, record);
      WalkRecordsFrame(next, n, table, count, r + 1, record.key - n.start, k);
      if next.catalog[k] != w.catalog[k] {
        VisitFrame(w, record, k);
        InFieldsPrefix(next.stamped, WalkRecords(w, n, table, count, r, previous).value.stamped, k);
      }
    }
  }

  /** Byte `k` lies in a leaf, after its descriptor and before its offset table. */
  ghost predicate InLeafBody(c: seq<byte>, n: Node, k: int)
    requires NodeWithin(n, |c|)
  {
    IsLeaf(c, n) && n.start + 14 <= k < TableStart(c, n)
  }

  lemma WalkNodeFrame(w: Walk, n: Node)
    requires NodeWithin(n, |w.catalog|) && WalkNode(w, n).Ok?
    ensures var w' := WalkNode(w, n).value;
            && w.stamped <= w'.stamped
            && (forall k | 0 <= k < |w.catalog| && w'.catalog[k] != w.catalog[k] ::
                  InFields(w'.stamped, k) && InLeafBody(w.catalog, n, k))
  {
    if IsLeaf(w.catalog, n) {
      forall k | 0 <= k < |w.catalog| {
        WalkRecordsFrame(w, n, TableStart(w.catalog, n), RecordCount(w.catalog, n), 0, 13, k);
      }
    }
  }

  lemma {:induction false} WalkNodesFrame(w: Walk, start: nat, nodeSize: nat, nodes: nat)
    requires NodesWithin(start, nodeSize, nodes, |w.catalog|)
    requires WalkNodes(w, start, nodeSize, nodes).Ok?
    ensures var w' := WalkNodes(w, start, nodeSize, nodes).value;
            && w.stamped <= w'.stamped
            && (forall k | 0 <= k < |w.catalog| && w'.catalog[k] != w.catalog[k] ::
                  && InFields(w'.stamped, k)
                  && exists n :: NodeWithin(n, |w.catalog|) && n.size == nodeSize && n.start >= start
                                 && InLeafBody(w.catalog, n, k))
    decreases nodes
  {
    hide WalkNode, InFields, IsRecordField;
    if nodes > 0 {
      var n := Node(start, nodeSize);
      var next := WalkNode(w, n).value;
      WalkNodeFrame(w, n);
      WalkNodesFrame(next, start + nodeSize, nodeSize, nodes - 1);
      var w' := WalkNodes(w, start, nodeSize, nodes).value;
      forall k | 0 <= k < |w.catalog| && w'.catalog[k] != w.catalog[k]
        ensures InFields(w'.stamped, k)
        ensures exists m :: NodeWithin(m, |w.catalog|) && m.size == nodeSize && m.start >= start
                            && InLeafBody(w.catalog, m, k)
      {
        if w'.catalog[k] == next.catalog[k] {
          assert InLeafBody(w.catalog, n, k);
          InFieldsPrefix(next.stamped, w'.stamped, k);
        } else {
          var m :| NodeWithin(m, |w.catalog|) && m.size == nodeSize && m.start >= start + nodeSize
                   && InLeafBody(next.catalog, m, k);
          assert forall j | start + nodeSize <= j < |w.catalog| :: next.catalog[j] == w.catalog[j];
          assert InLeafBody(w.catalog, m, k);
        }
      }
    }
  }

  // ---------------------------------------------------------------- two phases, when records do not overlap

  /** Stamps a list of records, one after the other. */
  function StampAll(c: seq<byte>, stamped: seq<nat>): (r: seq<byte>)
    ensures |r| == |c|
    decreases |stamped|
  {
    if stamped == [] then c else StampAll(StampRecord(c, stamped[0]), stamped[1..])
  }

  lemma {:induction false} StampAllConcat(c: seq<byte>, a: seq<nat>, b: seq<nat>)
    ensures StampAll(c, a + b) == StampAll(StampAll(c, a), b)
    decreases |a|
  {
    if a == [] {
      assert a + b == b;
    } else {
      assert (a + b)[1..] == a[1..] + b;
      StampAllConcat(StampRecord(c, a[0]), a[1..], b);
    }
  }

  lemma {:induction false} StampAllFrame(c: seq<byte>, stamped: seq<nat>, k: nat)
    requires k < |c| && !InFields(stamped, k)
    ensures StampAll(c, stamped)[k] == c[k]
    decreases |stamped|
  {
    if stamped != [] {
      assert stamped == [stamped[0]] + stamped[1..];
      InFieldsConcat([stamped[0]], stamped[1..], k);
      assert stamped[0] in [stamped[0]];
      StampAllFrame(StampRecord(c, stamped[0]), stamped[1..], k);
    }
  }

  /** Catalogs that differ in date fields only become equal. */
  lemma {:induction false} StampAllCongruent(c1: seq<byte>, c2: seq<byte>, stamped: seq<nat>)
    requires |c1| == |c2|
    requires forall k | 0 <= k < |c1| && !InFields(stamped, k) :: c1[k] == c2[k]
    ensures StampAll(c1, stamped) == StampAll(c2, stamped)
    decreases |stamped|
  {
    if stamped == [] {
      assert c1 == c2;
    } else {
      assert stamped == [stamped[0]] + stamped[1..];
      var s1, s2 := StampRecord(c1, stamped[0]), StampRecord(c2, stamped[0]);
      forall k | 0 <= k < |c1| && !InFields(stamped[1..], k) ensures s1[k] == s2[k] {
        if !IsRecordField(k - stamped[0]) {
          InFieldsConcat([stamped[0]], stamped[1..], k);
        }
      }
      StampAllCongruent(s1, s2, stamped[1..]);
    }
  }

  /**
    Records `r` to `count - 1` of a leaf are all valid in the catalog as it stands, and each one
    starts at or after `floor`, where the record before it ends.
   */
  ghost predicate Spaced(c: seq<byte>, n: Node, table: nat, count: nat, r: nat, previous: nat, floor: nat)
    requires NodeWithin(n, |c|)
    requires r <= count && table + (count + 1) * 2 == n.start + n.size
    decreases count - r
  {
    r == count ||
    (var read := ReadRecord(c, n, table, r, previous);
     && read.Ok?
     && floor <= read.value.key
     && Spaced(c, n, table, count, r + 1, read.value.key - n.start, read.value.End()))
  }

  function Stamps(record: Record): seq<nat>
  {
    if record.IsStamped() then [record.data] else []
  }

  lemma StampsWithin(record: Record, k: int)
    ensures InFields(Stamps(record), k) ==> record.data + 12 <= k < record.End()
  {
  }

  /** The data offsets of the file and folder records among them. */
  ghost function Offsets(c: seq<byte>, n: Node, table: nat, count: nat, r: nat, previous: nat, floor: nat): seq<nat>
    requires NodeWithin(n, |c|)
    requires r <= count && table + (count + 1) * 2 == n.start + n.size
    requires Spaced(c, n, table, count, r, previous, floor)
    decreases count - r
  {
    if r == count then []
    else
      var record := ReadRecord(c, n, table, r, previous).value;
      Stamps(record) + Offsets(c, n, table, count, r + 1, record.key - n.start, record.End())
  }

  lemma OffsetsNext(c: seq<byte>, n: Node, table: nat, count: nat, r: nat, previous: nat, floor: nat)
    requires NodeWithin(n, |c|)
    requires r < count && table + (count + 1) * 2 == n.start + n.size
    requires Spaced(c, n, table, count, r, previous, floor)
    ensures table + (r + 1) * 2 < n.start + n.size
    ensures var read := ReadRecord(c, n, table, r, previous);
            && read.Ok? && n.start < read.value.key && floor <= read.value.key < read.value.data && read.value.End() <= table
            && Spaced(c, n, table, count, r + 1, read.value.key - n.start, read.value.End())
            && Offsets(c, n, table, count, r, previous, floor)
               == Stamps(read.value) + Offsets(c, n, table, count, r + 1, read.value.key - n.start, read.value.End())
  {
    hide ReadRecord, Stamps;
  }

  lemma NoOffsets(c: seq<byte>, n: Node, table: nat, count: nat, previous: nat, floor: nat, k: int)
    requires NodeWithin(n, |c|) && table + (count + 1) * 2 == n.start + n.size
    requires Spaced(c, n, table, count, count, previous, floor)
    ensures !InFields(Offsets(c, n, table, count, count, previous, floor), k)
  {
  }

  lemma {:induction false} OffsetsWithin(c: seq<byte>, n: Node, table: nat, count: nat, r: nat, previous: nat,
                                         floor: nat, k: int)
    requires NodeWithin(n, |c|)
    requires r <= count && table + (count + 1) * 2 == n.start + n.size
    requires Spaced(c, n, table, count, r, previous, floor)
    requires InFields(Offsets(c, n, table, count, r, previous, floor), k)
    ensures floor + 12 < k < table
    decreases count - r
  {
    hide ReadRecord, InFields, Stamps, Offsets, Spaced;
    if r == count {
      NoOffsets(c, n, table, count, previous, floor, k);
    } else {
      OffsetsNext(c, n, table, count, r, previous, floor);
      var record := ReadRecord(c, n, table, r, previous).value;
      var rest := Offsets(c, n, table, count, r + 1, record.key - n.start, record.End());
      InFieldsConcat(Stamps(record), rest, k);
      StampsWithin(record, k);
      if InFields(rest, k) {
        OffsetsWithin(c, n, table, count, r + 1, record.key - n.start, record.End(), k);
      }
    }
  }

  /** Reading the layout of a leaf looks at no date byte of its records. */
  lemma {:induction false} SpacedCongruent(c1: seq<byte>, c2: seq<byte>, n: Node, table: nat, count: nat, r: nat,
                                           previous: nat, floor: nat)
    requires |c1| == |c2| && NodeWithin(n, |c1|)
    requires r <= count && table + (count + 1) * 2 == n.start + n.size && floor <= table
    requires Spaced(c1, n, table, count, r, previous, floor)
    requires forall k | floor <= k < n.start + n.size
                        && !InFields(Offsets(c1, n, table, count, r, previous, floor), k) :: c1[k] == c2[k]
    ensures Spaced(c2, n, table, count, r, previous, floor)
    ensures Offsets(c2, n, table, count, r, previous, floor) == Offsets(c1, n, table, count, r, previous, floor)
    decreases count - r
  {
    hide ReadRecord, InFields, IsRecordField;
    if r < count {
      var record := ReadRecord(c1, n, table, r, previous).value;
      var rest := Offsets(c1, n, table, count, r + 1, record.key - n.start, record.End());
      forall k | floor <= k < n.start + n.size && (k < record.data + 2 || k >= table)
        ensures c1[k] == c2[k]
      {
        InFieldsConcat(Stamps(record), rest, k);
        StampsWithin(record, k);
        if InFields(rest, k) {
          OffsetsWithin(c1, n, table, count, r + 1, record.key - n.start, record.End(), k);
        }
      }
      ReadRecordCongruent(c1, c2, n, table, r, previous);
      forall k | record.End() <= k < n.start + n.size && !InFields(rest, k) ensures c1[k] == c2[k] {
        InFieldsConcat(Stamps(record), rest, k);
        StampsWithin(record, k);
      }
      SpacedCongruent(c1, c2, n, table, count, r + 1, record.key - n.start, record.End());
    }
  }

  lemma ReadRecordCongruent(c1: seq<byte>, c2: seq<byte>, n: Node, table: nat, r: nat, previous: nat)
    requires |c1| == |c2| && NodeWithin(n, |c1|)
    requires table + (r + 1) * 2 < n.start + n.size
    requires ReadRecord(c1, n, table, r, previous).Ok?
    requires var record := ReadRecord(c1, n, table, r, previous).value;
             && (forall k | record.key <= k < record.data + 2 :: c1[k] == c2[k])
             && (forall k | table <= k < n.start + n.size :: c1[k] == c2[k])
    ensures ReadRecord(c2, n, table, r, previous) == ReadRecord(c1, n, table, r, previous)
  {
    var entry := n.start + n.size - (r + 1) * 2;
    assert U16(c2, entry) == U16(c1, entry);
    var record := ReadRecord(c1, n, table, r, previous).value;
    assert U16(c2, record.key) == U16(c1, record.key);
    assert U16(c2, record.data) == U16(c1, record.data);
  }

  /** Visiting one record and stamping the rest is stamping all of them. */
  lemma VisitThenStamp(w: Walk, record: Record, rest: seq<nat>)
    ensures var next := Visit(w, record);
            && StampAll(next.catalog, rest) == StampAll(w.catalog, Stamps(record) + rest)
            && next.stamped + rest == w.stamped + (Stamps(record) + rest)
            && next.leafRecords == w.leafRecords + 1
            && |next.catalog| == |w.catalog|
            && (forall k | record.End() <= k < |w.catalog| :: next.catalog[k] == w.catalog[k])
  {
    var next := Visit(w, record);
    if record.IsStamped() {
      assert ([record.data] + rest)[1..] == rest;
      assert w.stamped + ([record.data] + rest) == next.stamped + rest;
    } else {
      assert [] + rest == rest;
    }
  }

  /** On non-overlapping records the in-place walk equals reading first and stamping afterwards. */
  lemma {:induction false} WalkRecordsTwoPhase(w: Walk, n: Node, table: nat, count: nat, r: nat, previous: nat,
                                               floor: nat)
    requires NodeWithin(n, |w.catalog|)
    requires r <= count && table + (count + 1) * 2 == n.start + n.size
    requires Spaced(w.catalog, n, table, count, r, previous, floor)
    ensures var offsets := Offsets(w.catalog, n, table, count, r, previous, floor);
            WalkRecords(w, n, table, count, r, previous)
            == Ok(Walk(StampAll(w.catalog, offsets), w.leafRecords + count - r, w.stamped + offsets))
    decreases count - r
  {
    hide ReadRecord, Visit, StampRecord, InFields, Stamps;
    if r == count {
      assert w.stamped + [] == w.stamped;
    } else {
      hide StampAll;
      var record := ReadRecord(w.catalog, n, table, r, previous).value;
      var next, after := Visit(w, record), record.key - n.start;
      var rest := Offsets(w.catalog, n, table, count, r + 1, after, record.End());
      VisitThenStamp(w, record, rest);
      SpacedCongruent(w.catalog, next.catalog, n, table, count, r + 1, after, record.End());
      WalkRecordsTwoPhase(next, n, table, count, r + 1, after, record.End());
    }
  }

  // ---------------------------------------------------------------- all nodes

  ghost predicate SpacedNode(c: seq<byte>, n: Node)
    requires NodeWithin(n, |c|)
  {
    IsLeaf(c, n) ==>
      && RecordCount(c, n) > 0
      && TableStart(c, n) >= n.start + 14
      && Spaced(c, n, TableStart(c, n), RecordCount(c, n), 0, 13, n.start + 14)
  }

  ghost function NodeOffsets(c: seq<byte>, n: Node): seq<nat>
    requires NodeWithin(n, |c|) && SpacedNode(c, n)
  {
    if IsLeaf(c, n) then Offsets(c, n, TableStart(c, n), RecordCount(c, n), 0, 13, n.start + 14) else []
  }

  ghost predicate SpacedNodes(c: seq<byte>, start: nat, nodeSize: nat, nodes: nat)
    requires NodesWithin(start, nodeSize, nodes, |c|)
    decreases nodes
  {
    nodes == 0 ||
    (SpacedNode(c, Node(start, nodeSize)) && SpacedNodes(c, start + nodeSize, nodeSize, nodes - 1))
  }

  /** The data offsets of all file and folder records, as the unmodified catalog gives them. */
  ghost function AllOffsets(c: seq<byte>, start: nat, nodeSize: nat, nodes: nat): seq<nat>
    requires NodesWithin(start, nodeSize, nodes, |c|)
    requires SpacedNodes(c, start, nodeSize, nodes)
    decreases nodes
  {
    if nodes == 0 then []
    else
      NodeOffsets(c, Node(start, nodeSize)) + AllOffsets(c, start + nodeSize, nodeSize, nodes - 1)
  }

  ghost function LeafCount(c: seq<byte>, start: nat, nodeSize: nat, nodes: nat): nat
    requires NodesWithin(start, nodeSize, nodes, |c|)
    decreases nodes
  {
    if nodes == 0 then 0
    else
      var n := Node(start, nodeSize);
      (if IsLeaf(c, n) then RecordCount(c, n) else 0) + LeafCount(c, start + nodeSize, nodeSize, nodes - 1)
  }

  lemma NodeOffsetsWithin(c: seq<byte>, n: Node, k: int)
    requires NodeWithin(n, |c|) && SpacedNode(c, n) && InFields(NodeOffsets(c, n), k)
    ensures IsLeaf(c, n) && n.start + 26 < k < TableStart(c, n)
  {
    OffsetsWithin(c, n, TableStart(c, n), RecordCount(c, n), 0, 13, n.start + 14, k);
  }

  lemma {:induction false} AllOffsetsWithin(c: seq<byte>, start: nat, nodeSize: nat, nodes: nat, k: int)
    requires NodesWithin(start, nodeSize, nodes, |c|)
    requires SpacedNodes(c, start, nodeSize, nodes)
    requires InFields(AllOffsets(c, start, nodeSize, nodes), k)
    ensures start + 26 < k < |c|
    decreases nodes
  {
    hide SpacedNode, NodeOffsets;
    if nodes > 0 {
      hide InFields;
      var n := Node(start, nodeSize);
      var rest := AllOffsets(c, start + nodeSize, nodeSize, nodes - 1);
      InFieldsConcat(NodeOffsets(c, n), rest, k);
      if InFields(rest, k) {
        AllOffsetsWithin(c, start + nodeSize, nodeSize, nodes - 1, k);
      } else {
        NodeOffsetsWithin(c, n, k);
      }
    }
  }

  lemma SpacedNodeCongruent(c1: seq<byte>, c2: seq<byte>, n: Node)
    requires |c1| == |c2| && NodeWithin(n, |c1|) && SpacedNode(c1, n)
    requires forall k | n.start <= k < n.start + n.size && !InFields(NodeOffsets(c1, n), k) :: c1[k] == c2[k]
    ensures SpacedNode(c2, n) && NodeOffsets(c2, n) == NodeOffsets(c1, n)
    ensures IsLeaf(c2, n) == IsLeaf(c1, n) && RecordCount(c2, n) == RecordCount(c1, n)
  {
    hide InFields, Spaced, Offsets;
    forall k | n.start <= k < n.start + 14 ensures c1[k] == c2[k] {
      if InFields(NodeOffsets(c1, n), k) {
        NodeOffsetsWithin(c1, n, k);
      }
    }
    if IsLeaf(c1, n) {
      SpacedCongruent(c1, c2, n, TableStart(c1, n), RecordCount(c1, n), 0, 13, n.start + 14);
    }
  }

  /** Reading the layout of the whole tree looks at no date byte of its records. */
  lemma {:induction false} SpacedNodesCongruent(c1: seq<byte>, c2: seq<byte>, start: nat, nodeSize: nat, nodes: nat)
    requires |c1| == |c2| && NodesWithin(start, nodeSize, nodes, |c1|)
    requires SpacedNodes(c1, start, nodeSize, nodes)
    requires forall k | start <= k < |c1|
                        && !InFields(AllOffsets(c1, start, nodeSize, nodes), k) :: c1[k] == c2[k]
    ensures SpacedNodes(c2, start, nodeSize, nodes)
    ensures AllOffsets(c2, start, nodeSize, nodes) == AllOffsets(c1, start, nodeSize, nodes)
    ensures LeafCount(c2, start, nodeSize, nodes) == LeafCount(c1, start, nodeSize, nodes)
    decreases nodes
  {
    hide InFields, SpacedNode, NodeOffsets, IsLeaf, RecordCount;
    if nodes > 0 {
      var n := Node(start, nodeSize);
      var rest := AllOffsets(c1, start + nodeSize, nodeSize, nodes - 1);
      forall k | start <= k < start + nodeSize && !InFields(NodeOffsets(c1, n), k) ensures c1[k] == c2[k] {
        InFieldsConcat(NodeOffsets(c1, n), rest, k);
        if InFields(rest, k) {
          AllOffsetsWithin(c1, start + nodeSize, nodeSize, nodes - 1, k);
        }
      }
      SpacedNodeCongruent(c1, c2, n);
      forall k | start + nodeSize <= k < |c1| && !InFields(rest, k) ensures c1[k] == c2[k] {
        InFieldsConcat(NodeOffsets(c1, n), rest, k);
        if InFields(NodeOffsets(c1, n), k) {
          NodeOffsetsWithin(c1, n, k);
        }
      }
      SpacedNodesCongruent(c1, c2, start + nodeSize, nodeSize, nodes - 1);
    }
  }

  lemma WalkNodeTwoPhase(w: Walk, n: Node)
    requires NodeWithin(n, |w.catalog|) && SpacedNode(w.catalog, n)
    ensures var offsets := NodeOffsets(w.catalog, n);
            WalkNode(w, n)
            == Ok(Walk(StampAll(w.catalog, offsets),
                       w.leafRecords + (if IsLeaf(w.catalog, n) then RecordCount(w.catalog, n) else 0),
                       w.stamped + offsets))
  {
    hide WalkRecords, Spaced, Offsets;
    if IsLeaf(w.catalog, n) {
      WalkRecordsTwoPhase(w, n, TableStart(w.catalog, n), RecordCount(w.catalog, n), 0, 13, n.start + 14);
    } else {
      assert w.stamped + [] == w.stamped;
    }
  }

  /** The same for the whole tree. */
  lemma {:induction false} WalkNodesTwoPhase(w: Walk, start: nat, nodeSize: nat, nodes: nat)
    requires NodesWithin(start, nodeSize, nodes, |w.catalog|)
    requires SpacedNodes(w.catalog, start, nodeSize, nodes)
    ensures var offsets := AllOffsets(w.catalog, start, nodeSize, nodes);
            WalkNodes(w, start, nodeSize, nodes)
            == Ok(Walk(StampAll(w.catalog, offsets),
                       w.leafRecords + LeafCount(w.catalog, start, nodeSize, nodes),
                       w.stamped + offsets))
    decreases nodes
  {
    hide WalkNode, SpacedNode, NodeOffsets, IsLeaf, RecordCount, InFields;
    if nodes == 0 {
      assert w.stamped + [] == w.stamped;
    } else {
      hide StampAll;
      var n := Node(start, nodeSize);
      var here := NodeOffsets(w.catalog, n);
      WalkNodeTwoPhase(w, n);
      var next := WalkNode(w, n).value;
      forall k | start + nodeSize <= k < |w.catalog| ensures next.catalog[k] == w.catalog[k] {
        if InFields(here, k) {
          NodeOffsetsWithin(w.catalog, n, k);
        }
        StampAllFrame(w.catalog, here, k);
      }
      SpacedNodesCongruent(w.catalog, next.catalog, start + nodeSize, nodeSize, nodes - 1);
      WalkNodesTwoPhase(next, start + nodeSize, nodeSize, nodes - 1);
      var rest := AllOffsets(w.catalog, start + nodeSize, nodeSize, nodes - 1);
      StampAllConcat(w.catalog, here, rest);
      assert w.stamped + (here + rest) == next.stamped + rest;
    }
  }
}
