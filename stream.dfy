/** The first half of the skin-weight remapper: the scan of every vertex's
    four weight slots (vertex order, slots 0..3, zero weights skipped), the
    joint list it yields in first-encounter order, and the per-joint
    (vertexId, weight) lists keyed by node index. */
module SkinStream {
  import opened Scene

  /** One non-zero slot, resolved to the node its bone refers to. */
  datatype Entry = Entry(vertex: nat, node: nat, weight: real)

  /** An entry of a joint's list (`AssimpVertexWeight`). */
  datatype Influence = Influence(vertexId: nat, weight: real)

  predicate ValidWeights(vws: seq<VertexWeight>, boneTable: seq<nat>)
  {
    forall i :: 0 <= i < |vws| ==> WellFormedWeight(vws[i], |boneTable|)
  }

  /** The entries contributed by slots 0..k-1 of vertex j. */
  function SlotEntries(j: nat, vw: VertexWeight, boneTable: seq<nat>, k: nat): (r: seq<Entry>)
    requires k <= 4 && WellFormedWeight(vw, |boneTable|)
    ensures |r| <= k
    ensures forall e :: e in r ==> e.vertex == j && e.weight != 0.0 && e.node in boneTable
  {
    if k == 0 then []
    else
      var rest := SlotEntries(j, vw, boneTable, k - 1);
      if vw.weights[k - 1] == 0.0 then rest
      else rest + [Entry(j, boneTable[vw.indices[k - 1]], vw.weights[k - 1])]
  }

  /** Every non-zero slot of every vertex, scanning vertices in order and each
      vertex's slots 0..3. */
  function Stream(vws: seq<VertexWeight>, boneTable: seq<nat>): (r: seq<Entry>)
    requires ValidWeights(vws, boneTable)
    ensures forall e :: e in r ==> e.vertex < |vws| && e.weight != 0.0 && e.node in boneTable
  {
    if |vws| == 0 then []
    else Stream(vws[..|vws| - 1], boneTable) + SlotEntries(|vws| - 1, vws[|vws| - 1], boneTable, 4)
  }

  /** The node indices met in the stream, each kept at its first occurrence. */
  function JointOrder(s: seq<Entry>): seq<nat>
  {
    if |s| == 0 then []
    else
      var d := JointOrder(s[..|s| - 1]);
      if s[|s| - 1].node in d then d else d + [s[|s| - 1].node]
  }

  predicate NoDup(s: seq<nat>)
  {
    forall i, j :: 0 <= i < j < |s| ==> s[i] != s[j]
  }

  predicate Occurs(s: seq<Entry>, n: nat)
  {
    exists i :: 0 <= i < |s| && s[i].node == n
  }

  /** Position of the first entry of the stream that refers to node n. */
  function FirstIndex(s: seq<Entry>, n: nat): (i: nat)
    requires Occurs(s, n)
    ensures i < |s| && s[i].node == n
    ensures forall h :: 0 <= h < i ==> s[h].node != n
  {
    if s[0].node == n then 0
    else
      assert Occurs(s[1..], n) by {
        var w :| 0 <= w < |s| && s[w].node == n;
        assert s[1..][w - 1].node == n;
      }
      FirstIndex(s[1..], n) + 1
  }

  /** The list of node n: its entries' (vertex, weight), in stream order. */
  function GroupOf(s: seq<Entry>, n: nat): (r: seq<Influence>)
    ensures |r| <= |s|
  {
    if |s| == 0 then []
    else
      var e := s[|s| - 1];
      GroupOf(s[..|s| - 1], n) + (if e.node == n then [Influence(e.vertex, e.weight)] else [])
  }

  /** `boneMap.Values.ToList()`: one list per joint, in joint order. */
  function BoneLists(s: seq<Entry>): (r: seq<seq<Influence>>)
    ensures |r| == |JointOrder(s)|
  {
    var order := JointOrder(s);
    seq(|order|, j requires 0 <= j < |order| => GroupOf(s, order[j]))
  }

  // ---------------------------------------------------------------------
  // Properties of the joint list.

  lemma {:induction false} JointOrderMembers(s: seq<Entry>)
    ensures forall n :: n in JointOrder(s) <==> Occurs(s, n)
  {
    if |s| > 0 {
      var p := s[..|s| - 1];
      JointOrderMembers(p);
      forall n | Occurs(s, n) ensures n in JointOrder(s) {
        var w :| 0 <= w < |s| && s[w].node == n;
        if w < |s| - 1 {
          assert p[w].node == n;
        }
      }
      forall n | n in JointOrder(s) ensures Occurs(s, n) {
        if n in JointOrder(p) {
          var w :| 0 <= w < |p| && p[w].node == n;
          assert s[w].node == n;
        } else {
          assert s[|s| - 1].node == n;
        }
      }
    }
  }

  /** The joint list holds no node twice. */
  lemma {:induction false} JointOrderNoDup(s: seq<Entry>)
    ensures NoDup(JointOrder(s))
  {
    if |s| > 0 {
      JointOrderNoDup(s[..|s| - 1]);
    }
  }

  /** The joint list is ordered by first encounter in the slot stream. */
  lemma {:induction false} JointOrderByFirstEncounter(s: seq<Entry>)
    ensures forall n :: n in JointOrder(s) ==> Occurs(s, n)
    ensures forall i, j :: 0 <= i < j < |JointOrder(s)| ==>
      FirstIndex(s, JointOrder(s)[i]) < FirstIndex(s, JointOrder(s)[j])
  {
    JointOrderMembers(s);
    if |s| > 0 {
      var p := s[..|s| - 1];
      var d := JointOrder(p);
      JointOrderByFirstEncounter(p);
      JointOrderMembers(p);
      // An entry of the prefix keeps the same first position in s.
      forall n | Occurs(p, n) ensures FirstIndex(s, n) == FirstIndex(p, n) {
        var i := FirstIndex(p, n);
        assert s[i].node == n;
        var f := FirstIndex(s, n);
        assert f <= i;
        assert p[f].node == n;
      }
      var x := s[|s| - 1].node;
      if x !in d {
        assert !Occurs(p, x);
        forall h | 0 <= h < |s| - 1 ensures s[h].node != x {
          assert s[h] == p[h];
        }
        assert FirstIndex(s, x) == |s| - 1;
        forall i | 0 <= i < |d| ensures FirstIndex(s, d[i]) < |s| - 1 {
          assert d[i] in d;
        }
      }
    }
  }

  /** How the joint list and the lists grow by one entry. */
  lemma AppendEntry(s: seq<Entry>, e: Entry)
    ensures JointOrder(s + [e]) == if e.node in JointOrder(s) then JointOrder(s) else JointOrder(s) + [e.node]
    ensures forall n :: (GroupOf(s + [e], n)
      == GroupOf(s, n) + (if e.node == n then [Influence(e.vertex, e.weight)] else []))
  {
    assert (s + [e])[..|s|] == s;
  }

  /** A node that the stream never names has an empty list. */
  lemma {:induction false} GroupOfAbsent(s: seq<Entry>, n: nat)
    requires n !in JointOrder(s)
    ensures GroupOf(s, n) == []
  {
    if |s| > 0 {
      GroupOfAbsent(s[..|s| - 1], n);
    }
  }

  /** Slot k of vertex i extends the entries scanned before it by at most one. */
  lemma SlotStep(vws: seq<VertexWeight>, boneTable: seq<nat>, i: nat, k: nat)
    requires ValidWeights(vws, boneTable) && i < |vws| && k < 4
    ensures vws[..i + 1][..i] == vws[..i]
    ensures var before := Stream(vws[..i], boneTable) + SlotEntries(i, vws[i], boneTable, k);
      Stream(vws[..i], boneTable) + SlotEntries(i, vws[i], boneTable, k + 1)
      == if vws[i].weights[k] == 0.0 then before
         else before + [Entry(i, boneTable[vws[i].indices[k]], vws[i].weights[k])]
  {
    assert vws[..i + 1][..i] == vws[..i];
  }

  // ---------------------------------------------------------------------
  // The dictionary scan (GMDConverter.cs:607-640) and the joint-node scan
  // (793-817, repeated verbatim at 853-879).

  /** The dictionary and its insertion order agree with the entries scanned so far. */
  ghost predicate BoneMapOf(order: seq<nat>, boneMap: map<nat, seq<Influence>>, done: seq<Entry>)
  {
    && order == JointOrder(done)
    && (forall n :: n in boneMap <==> n in order)
    && (forall n :: n in boneMap ==> boneMap[n] == GroupOf(done, n))
  }

  /** One non-zero slot added to the dictionary: a new key is appended to the
      insertion order with a one-element list, a known key's list grows. */
  lemma BoneMapStep(order: seq<nat>, boneMap: map<nat, seq<Influence>>, done: seq<Entry>, e: Entry)
    requires BoneMapOf(order, boneMap, done)
    ensures e.node !in boneMap ==>
      BoneMapOf(order + [e.node], boneMap[e.node := [Influence(e.vertex, e.weight)]], done + [e])
    ensures e.node in boneMap ==>
      BoneMapOf(order, boneMap[e.node := boneMap[e.node] + [Influence(e.vertex, e.weight)]], done + [e])
  {
    AppendEntry(done, e);
    if e.node !in boneMap {
      GroupOfAbsent(done, e.node);
    }
  }

  /** Builds `boneMap`: node index to that joint's (vertexId, weight) list.
      `order` is the dictionary's insertion order, in which `Values` enumerates. */
  method BuildBoneMap(vws: seq<VertexWeight>, boneTable: seq<nat>)
    returns (order: seq<nat>, boneMap: map<nat, seq<Influence>>)
    requires ValidWeights(vws, boneTable)
    ensures order == JointOrder(Stream(vws, boneTable))
    ensures boneMap.Keys == set n | n in order
    ensures forall n :: n in boneMap ==> boneMap[n] == GroupOf(Stream(vws, boneTable), n)
  {
    order, boneMap := [], map[];
    ghost var done: seq<Entry> := [];
    for j := 0 to |vws|
      invariant done == Stream(vws[..j], boneTable)
      invariant BoneMapOf(order, boneMap, done)
    {
      var vertexWeight := vws[j];
      for k := 0 to 4
        invariant done == Stream(vws[..j], boneTable) + SlotEntries(j, vertexWeight, boneTable, k)
        invariant BoneMapOf(order, boneMap, done)
      {
        SlotStep(vws, boneTable, j, k);
        var boneWeight := vertexWeight.weights[k];
        if boneWeight == 0.0 {
          continue;
        }
        var nodeIndex := boneTable[vertexWeight.indices[k]];
        ghost var e := Entry(j, nodeIndex, boneWeight);
        BoneMapStep(order, boneMap, done, e);
        if nodeIndex !in boneMap {
          boneMap := boneMap[nodeIndex := [Influence(j, boneWeight)]];
          order := order + [nodeIndex];
        } else {
          boneMap := boneMap[nodeIndex := boneMap[nodeIndex] + [Influence(j, boneWeight)]];
        }
        done := done + [e];
      }
      assert vws[..j + 1][..j] == vws[..j];
    }
    assert vws[..|vws|] == vws;
    assert boneMap.Keys == set n | n in order;
  }

  /** The joint-node list of a skin controller: a `List<Node>` grown with every
      new node met in the slot scan. */
  method ScanJointNodes(vws: seq<VertexWeight>, boneTable: seq<nat>) returns (joints: seq<nat>)
    requires ValidWeights(vws, boneTable)
    ensures joints == JointOrder(Stream(vws, boneTable))
  {
    joints := [];
    ghost var done: seq<Entry> := [];
    for i := 0 to |vws|
      invariant done == Stream(vws[..i], boneTable)
      invariant joints == JointOrder(done)
    {
      var vertexWeight := vws[i];
      for j := 0 to 4
        invariant done == Stream(vws[..i], boneTable) + SlotEntries(i, vertexWeight, boneTable, j)
        invariant joints == JointOrder(done)
      {
        SlotStep(vws, boneTable, i, j);
        var boneWeight := vertexWeight.weights[j];
        if boneWeight == 0.0 {
          continue;
        }
        var boneNode := boneTable[vertexWeight.indices[j]];
        AppendEntry(done, Entry(i, boneNode, boneWeight));
        if boneNode !in joints {
          joints := joints + [boneNode];
        }
        done := done + [Entry(i, boneNode, boneWeight)];
      }
      assert vws[..i + 1][..i] == vws[..i];
    }
    assert vws[..|vws|] == vws;
  }

  // ---------------------------------------------------------------------
  // How many entries each vertex contributes (the `vcount` expression at
  // GMDConverter.cs:680).

  /** `Weights.Count(y => y != 0)`: the non-zero slots of a weight record. */
  function NonZeroSlots(weights: seq<real>): nat
  {
    if |weights| == 0 then 0
    else NonZeroSlots(weights[..|weights| - 1]) + (if weights[|weights| - 1] != 0.0 then 1 else 0)
  }

  /** Number of entries of the stream on vertex v. */
  function EntryCount(s: seq<Entry>, v: nat): nat
  {
    if |s| == 0 then 0
    else EntryCount(s[..|s| - 1], v) + (if s[|s| - 1].vertex == v then 1 else 0)
  }

  lemma {:induction false} EntryCountConcat(a: seq<Entry>, b: seq<Entry>, v: nat)
    ensures EntryCount(a + b, v) == EntryCount(a, v) + EntryCount(b, v)
  {
    if |b| > 0 {
      EntryCountConcat(a, b[..|b| - 1], v);
      assert (a + b)[..|a + b| - 1] == a + b[..|b| - 1];
    } else {
      assert a + b == a;
    }
  }

  lemma {:induction false} SlotEntriesCount(j: nat, vw: VertexWeight, boneTable: seq<nat>, k: nat, v: nat)
    requires k <= 4 && WellFormedWeight(vw, |boneTable|)
    ensures EntryCount(SlotEntries(j, vw, boneTable, k), v) == if j == v then NonZeroSlots(vw.weights[..k]) else 0
  {
    if k > 0 {
      SlotEntriesCount(j, vw, boneTable, k - 1, v);
      var rest := SlotEntries(j, vw, boneTable, k - 1);
      assert vw.weights[..k][..k - 1] == vw.weights[..k - 1];
      if vw.weights[k - 1] != 0.0 {
        EntryCountConcat(rest, [Entry(j, boneTable[vw.indices[k - 1]], vw.weights[k - 1])], v);
      }
    }
  }

  /** Vertex v has as many entries in the stream as it has non-zero slots;
      a vertex outside the weight list has none. */
  lemma {:induction false} StreamCount(vws: seq<VertexWeight>, boneTable: seq<nat>, v: nat)
    requires ValidWeights(vws, boneTable)
    ensures EntryCount(Stream(vws, boneTable), v) == if v < |vws| then NonZeroSlots(vws[v].weights) else 0
  {
    if |vws| > 0 {
      var m := |vws| - 1;
      var p := vws[..m];
      assert ValidWeights(p, boneTable);
      StreamCount(p, boneTable, v);
      EntryCountConcat(Stream(p, boneTable), SlotEntries(m, vws[m], boneTable, 4), v);
      SlotEntriesCount(m, vws[m], boneTable, 4, v);
      assert vws[m].weights[..4] == vws[m].weights;
    }
  }
}
