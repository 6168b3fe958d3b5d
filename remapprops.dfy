/** What the `<vertex_weights>` arrays built by the remapper mean: the weight
    indices are a permutation of the flat weights, every pair names a joint
    that really holds its vertex with that weight, and a vertex's influence
    count is its number of non-zero weight slots. */
module SkinRemapProperties {
  import opened Scene
  import opened SkinStream
  import opened SkinRemap

  // ---------------------------------------------------------------------
  // Visits and the flat weights.

  lemma {:induction false} FlatVisitsLength(bones: seq<seq<Influence>>)
    ensures |FlatWeights(bones)| == |Visits(bones)|
  {
    if |bones| > 0 {
      FlatVisitsLength(bones[..|bones| - 1]);
    }
  }

  /** Visit g is the k-th influence of joint j, and entry g of the flat
      weights is that influence's weight. */
  lemma {:induction false} VisitSource(bones: seq<seq<Influence>>, g: nat) returns (j: nat, k: nat)
    requires g < |Visits(bones)|
    ensures j < |bones| && k < |bones[j]|
    ensures Visits(bones)[g] == Visit(j, bones[j][k].vertexId)
    ensures g < |FlatWeights(bones)| && FlatWeights(bones)[g] == bones[j][k].weight
  {
    assert |bones| > 0;
    var m := |bones| - 1;
    var p := bones[..m];
    FlatVisitsLength(p);
    if g < |Visits(p)| {
      j, k := VisitSource(p, g);
    } else {
      j, k := m, g - |Visits(p)|;
    }
  }

  /** Joint ordinals in the visit order are below the number of joints and
      never decrease. */
  lemma {:induction false} VisitsJointOrder(bones: seq<seq<Influence>>)
    ensures forall g :: 0 <= g < |Visits(bones)| ==> Visits(bones)[g].joint < |bones|
    ensures forall g, h :: 0 <= g <= h < |Visits(bones)| ==> Visits(bones)[g].joint <= Visits(bones)[h].joint
  {
    if |bones| > 0 {
      VisitsJointOrder(bones[..|bones| - 1]);
    }
  }

  lemma VisitsVertices(bones: seq<seq<Influence>>, n: nat)
    requires VerticesBelow(bones, n)
    ensures forall g :: 0 <= g < |Visits(bones)| ==> Visits(bones)[g].vertex < n
  {
    forall g | 0 <= g < |Visits(bones)| ensures Visits(bones)[g].vertex < n {
      var j, k := VisitSource(bones, g);
    }
  }

  // ---------------------------------------------------------------------
  // Blocks.

  /** A block holds exactly the visits on its vertex, each paired with its
      position in the visit order. */
  lemma {:induction false} BlockMembers(vs: seq<Visit>, v: nat)
    ensures forall x :: x in Block(vs, v) ==> x.weightIndex < |vs| && vs[x.weightIndex] == Visit(x.joint, v)
    ensures forall g :: 0 <= g < |vs| && vs[g].vertex == v ==> Pair(vs[g].joint, g) in Block(vs, v)
  {
    if |vs| > 0 {
      var p := vs[..|vs| - 1];
      BlockMembers(p, v);
      forall g | 0 <= g < |vs| && vs[g].vertex == v ensures Pair(vs[g].joint, g) in Block(vs, v) {
        if g < |p| {
          assert p[g] == vs[g];
        }
      }
    }
  }

  /** Within a block the weight indices strictly increase. */
  lemma {:induction false} BlockIncreasing(vs: seq<Visit>, v: nat)
    ensures forall a, b :: 0 <= a < b < |Block(vs, v)| ==> Block(vs, v)[a].weightIndex < Block(vs, v)[b].weightIndex
  {
    if |vs| > 0 {
      var p := vs[..|vs| - 1];
      BlockIncreasing(p, v);
      BlockMembers(p, v);
      var bp := Block(p, v);
      forall a | 0 <= a < |bp| ensures bp[a].weightIndex < |p| {
        assert bp[a] in bp;
      }
    }
  }

  predicate Distinct(ps: seq<Pair>)
  {
    forall a, b :: 0 <= a < b < |ps| ==> ps[a] != ps[b]
  }

  lemma {:induction false} ConcatMembers(bs: seq<seq<Pair>>)
    ensures forall x :: x in Concat(bs) <==> exists v :: 0 <= v < |bs| && x in bs[v]
  {
    if |bs| > 0 {
      var m := |bs| - 1;
      ConcatMembers(bs[..m]);
      forall x | x in Concat(bs) ensures exists v :: 0 <= v < |bs| && x in bs[v] {
        if x in Concat(bs[..m]) {
          var v :| 0 <= v < m && x in bs[..m][v];
          assert x in bs[v];
        } else {
          assert x in bs[m];
        }
      }
      forall x | (exists v :: 0 <= v < |bs| && x in bs[v]) ensures x in Concat(bs) {
        var v :| 0 <= v < |bs| && x in bs[v];
        if v < m {
          assert x in bs[..m][v];
        }
      }
    }
  }

  lemma {:induction false} ConcatDistinct(bs: seq<seq<Pair>>)
    requires forall v :: 0 <= v < |bs| ==> Distinct(bs[v])
    requires forall v, w, x :: 0 <= v < w < |bs| && x in bs[v] ==> x !in bs[w]
    ensures Distinct(Concat(bs))
  {
    if |bs| > 0 {
      var m := |bs| - 1;
      var c := Concat(bs[..m]);
      ConcatDistinct(bs[..m]);
      ConcatMembers(bs[..m]);
      var r := Concat(bs);
      forall a, b | 0 <= a < b < |r| ensures r[a] != r[b] {
        if b >= |c| && a < |c| {
          assert r[a] in c;
          var v :| 0 <= v < m && r[a] in bs[..m][v];
          assert r[b] in bs[m];
        }
      }
    }
  }

  lemma {:induction false} SumIncrement(s: seq<nat>, i: nat)
    requires i < |s|
    ensures Sum(s[i := s[i] + 1]) == Sum(s) + 1
  {
    var m := |s| - 1;
    assert s[i := s[i] + 1][..m] == if i < m then s[..m][i := s[i] + 1] else s[..m];
    if i < m {
      SumIncrement(s[..m], i);
    }
  }

  /** When every visit's vertex is below n, the counts of vertices 0..n-1
      add up to the number of visits. */
  lemma {:induction false} CountsSum(vs: seq<Visit>, n: nat)
    requires forall g :: 0 <= g < |vs| ==> vs[g].vertex < n
    ensures Sum(Counts(vs, n)) == |vs|
  {
    if |vs| == 0 {
      assert Counts(vs, n) == seq(n, v => 0);
      ZeroSum(n);
    } else {
      var p := vs[..|vs| - 1];
      var x := vs[|vs| - 1];
      CountsSum(p, n);
      assert p + [x] == vs;
      AppendVisit(p, x);
      assert Counts(vs, n) == Counts(p, n)[x.vertex := Counts(p, n)[x.vertex] + 1];
      SumIncrement(Counts(p, n), x.vertex);
    }
  }

  lemma {:induction false} ZeroSum(n: nat)
    ensures Sum(seq(n, v => 0)) == 0
  {
    if n > 0 {
      ZeroSum(n - 1);
      assert seq(n, v => 0)[..n - 1] == seq(n - 1, v => 0);
    }
  }

  // ---------------------------------------------------------------------
  // The v array.

  /** The weight-index halves of the pairs. */
  function WeightIndices(ps: seq<Pair>): seq<nat>
  {
    seq(|ps|, i requires 0 <= i < |ps| => ps[i].weightIndex)
  }

  /** The weight indices of the `v` array are a permutation of the flat
      weights' positions, and every joint ordinal is below the joint count. */
  lemma WeightIndexPermutation(bones: seq<seq<Influence>>, n: nat)
    requires VerticesBelow(bones, n)
    ensures |VPairs(bones, n)| == |FlatWeights(bones)|
    ensures forall i :: 0 <= i < |VPairs(bones, n)| ==>
      VPairs(bones, n)[i].joint < |bones| && VPairs(bones, n)[i].weightIndex < |FlatWeights(bones)|
    ensures forall a, b :: 0 <= a < b < |VPairs(bones, n)| ==>
      VPairs(bones, n)[a].weightIndex != VPairs(bones, n)[b].weightIndex
    ensures forall g :: 0 <= g < |FlatWeights(bones)| ==> g in WeightIndices(VPairs(bones, n))
  {
    var vs := Visits(bones);
    var bs := Blocks(bones, n);
    var ps := VPairs(bones, n);
    FlatVisitsLength(bones);
    VisitsVertices(bones, n);
    VisitsJointOrder(bones);
    BlocksLengths(bones, n);
    CountsSum(vs, n);
    ConcatMembers(bs);
    // Members: each pair comes from some block.
    forall i | 0 <= i < |ps| ensures ps[i].weightIndex < |vs| && vs[ps[i].weightIndex].joint == ps[i].joint {
      assert ps[i] in Concat(bs);
      var v :| 0 <= v < n && ps[i] in bs[v];
      BlockMembers(vs, v);
    }
    // Distinct pairs, hence distinct weight indices.
    forall v | 0 <= v < n ensures Distinct(bs[v]) {
      BlockIncreasing(vs, v);
    }
    forall v, w, x | 0 <= v < w < n && x in bs[v] ensures x !in bs[w] {
      BlockMembers(vs, v);
      BlockMembers(vs, w);
    }
    ConcatDistinct(bs);
    forall a, b | 0 <= a < b < |ps| ensures ps[a].weightIndex != ps[b].weightIndex {
      assert ps[a] != ps[b];
    }
    // Every visit lands in its vertex's block.
    forall g | 0 <= g < |vs| ensures g in WeightIndices(ps) {
      var v := vs[g].vertex;
      BlockMembers(vs, v);
      assert Pair(vs[g].joint, g) in bs[v];
      assert Pair(vs[g].joint, g) in ps;
      var i :| 0 <= i < |ps| && ps[i] == Pair(vs[g].joint, g);
      assert WeightIndices(ps)[i] == g;
    }
  }

  /** Pair l of vertex v's block names a joint whose list holds v, with the
      weight stored at the pair's weight index. */
  lemma PairMeaning(bones: seq<seq<Influence>>, n: nat, v: nat, l: nat)
    requires VerticesBelow(bones, n) && v < n && l < Influences(bones, n)[v]
    ensures Offsets(Influences(bones, n))[v] + l < |VPairs(bones, n)|
    ensures var p := VPairs(bones, n)[Offsets(Influences(bones, n))[v] + l];
      && p.joint < |bones| && p.weightIndex < |FlatWeights(bones)|
      && exists k :: 0 <= k < |bones[p.joint]| && bones[p.joint][k] == Influence(v, FlatWeights(bones)[p.weightIndex])
  {
    var vs := Visits(bones);
    var bs := Blocks(bones, n);
    BlocksLengths(bones, n);
    ConcatAt(bs, v, l);
    var p := bs[v][l];
    assert Offsets(Influences(bones, n))[v] == Sum(Lengths(bs)[..v]);
    BlockMembers(vs, v);
    assert p in Block(vs, v);
    var j, k := VisitSource(bones, p.weightIndex);
    assert bones[j][k] == Influence(v, FlatWeights(bones)[p.weightIndex]);
  }

  /** The pairs of a block follow the joint order (and the visit order), not
      the weight values. */
  lemma BlockOrder(bones: seq<seq<Influence>>, n: nat, v: nat, a: nat, b: nat)
    requires VerticesBelow(bones, n) && v < n && a < b < Influences(bones, n)[v]
    ensures Offsets(Influences(bones, n))[v] + b < |VPairs(bones, n)|
    ensures var o := Offsets(Influences(bones, n))[v];
      && VPairs(bones, n)[o + a].joint <= VPairs(bones, n)[o + b].joint
      && VPairs(bones, n)[o + a].weightIndex < VPairs(bones, n)[o + b].weightIndex
  {
    var vs := Visits(bones);
    var bs := Blocks(bones, n);
    BlocksLengths(bones, n);
    var o := Offsets(Influences(bones, n))[v];
    assert o == Sum(Lengths(bs)[..v]);
    var blk := Block(vs, v);
    assert bs[v] == blk;
    ConcatAt(bs, v, a);
    ConcatAt(bs, v, b);
    var x, y := blk[a], blk[b];
    assert VPairs(bones, n)[o + a] == x && VPairs(bones, n)[o + b] == y;
    BlockIncreasing(vs, v);
    assert x.weightIndex < y.weightIndex;
    BlockMembers(vs, v);
    assert x in blk && y in blk;
    assert vs[x.weightIndex].joint == x.joint && vs[y.weightIndex].joint == y.joint;
    VisitsJointOrder(bones);
  }

  // ---------------------------------------------------------------------
  // Influence counts are the vcount.

  lemma {:induction false} CountConcat(a: seq<Visit>, b: seq<Visit>, v: nat)
    ensures Count(a + b, v) == Count(a, v) + Count(b, v)
  {
    if |b| > 0 {
      CountConcat(a, b[..|b| - 1], v);
      assert (a + b)[..|a + b| - 1] == a + b[..|b| - 1];
    } else {
      assert a + b == a;
    }
  }

  /** Appending one influence to one joint's list adds one visit. */
  lemma {:induction false} VisitsGrow(bones: seq<seq<Influence>>, idx: nat, x: Influence, v: nat)
    requires idx < |bones|
    ensures Count(Visits(bones[idx := bones[idx] + [x]]), v)
         == Count(Visits(bones), v) + (if x.vertexId == v then 1 else 0)
  {
    var m := |bones| - 1;
    var b2 := bones[idx := bones[idx] + [x]];
    var p := bones[..m];
    if idx == m {
      assert b2[..m] == p;
      assert JointVisits(m, bones[m] + [x]) == JointVisits(m, bones[m]) + [Visit(m, x.vertexId)];
      CountConcat(Visits(p), JointVisits(m, bones[m]) + [Visit(m, x.vertexId)], v);
      CountConcat(JointVisits(m, bones[m]), [Visit(m, x.vertexId)], v);
      CountConcat(Visits(p), JointVisits(m, bones[m]), v);
    } else {
      assert b2[..m] == p[idx := p[idx] + [x]];
      VisitsGrow(p, idx, x, v);
      CountConcat(Visits(b2[..m]), JointVisits(m, bones[m]), v);
      CountConcat(Visits(p), JointVisits(m, bones[m]), v);
    }
  }

  /** Adding a new joint with a one-influence list adds one visit. */
  lemma VisitsAddJoint(bones: seq<seq<Influence>>, x: Influence, v: nat)
    ensures Count(Visits(bones + [[x]]), v) == Count(Visits(bones), v) + (if x.vertexId == v then 1 else 0)
  {
    assert (bones + [[x]])[..|bones|] == bones;
    CountConcat(Visits(bones), JointVisits(|bones|, [x]), v);
  }

  function IndexOf(s: seq<nat>, n: nat): (i: nat)
    requires n in s
    ensures i < |s| && s[i] == n
  {
    if s[0] == n then 0 else 1 + IndexOf(s[1..], n)
  }

  /** How the per-joint lists grow with one more stream entry. */
  lemma BoneListsAppend(s: seq<Entry>, e: Entry)
    ensures var x := Influence(e.vertex, e.weight);
      BoneLists(s + [e]) == if e.node in JointOrder(s) then BoneLists(s)[IndexOf(JointOrder(s), e.node) := BoneLists(s)[IndexOf(JointOrder(s), e.node)] + [x]]
                            else BoneLists(s) + [[x]]
  {
    var x := Influence(e.vertex, e.weight);
    var order := JointOrder(s);
    AppendEntry(s, e);
    JointOrderNoDup(s);
    if e.node in order {
      var idx := IndexOf(order, e.node);
      var r := BoneLists(s)[idx := BoneLists(s)[idx] + [x]];
      forall j | 0 <= j < |order| ensures BoneLists(s + [e])[j] == r[j] {
        if j != idx {
          assert order[j] != order[idx];
        }
      }
    } else {
      GroupOfAbsent(s, e.node);
      var r := BoneLists(s) + [[x]];
      forall j | 0 <= j < |order| + 1 ensures BoneLists(s + [e])[j] == r[j] {
        if j < |order| {
          assert order[j] != e.node;
        }
      }
    }
  }

  /** Grouping the stream by joint keeps every vertex's number of entries. */
  lemma {:induction false} BoneListsCount(s: seq<Entry>, v: nat)
    ensures Count(Visits(BoneLists(s)), v) == EntryCount(s, v)
  {
    if |s| == 0 {
      assert BoneLists(s) == [];
    } else {
      var p := s[..|s| - 1];
      var e := s[|s| - 1];
      assert p + [e] == s;
      BoneListsCount(p, v);
      BoneListsAppend(p, e);
      var x := Influence(e.vertex, e.weight);
      if e.node in JointOrder(p) {
        VisitsGrow(BoneLists(p), IndexOf(JointOrder(p), e.node), x, v);
      } else {
        VisitsAddJoint(BoneLists(p), x, v);
      }
    }
  }

  /** Every influence of the per-joint lists names a vertex of the weight list. */
  lemma BoneListsVertices(vws: seq<VertexWeight>, boneTable: seq<nat>, n: nat)
    requires ValidWeights(vws, boneTable) && |vws| <= n
    ensures VerticesBelow(BoneLists(Stream(vws, boneTable)), n)
  {
    var s: seq<Entry> := Stream(vws, boneTable);
    var bones: seq<seq<Influence>> := BoneLists(s);
    forall j, k | 0 <= j < |bones| && 0 <= k < |bones[j]| ensures bones[j][k].vertexId < n {
      var g := VisitIndex(bones, j, k);
      BoneListsCount(s, bones[j][k].vertexId);
      StreamCount(vws, boneTable, bones[j][k].vertexId);
      CountPositive(Visits(bones), g);
    }
  }

  /** Position of the k-th influence of joint j in the visit order. */
  lemma {:induction false} VisitIndex(bones: seq<seq<Influence>>, j: nat, k: nat) returns (g: nat)
    requires j < |bones| && k < |bones[j]|
    ensures g < |Visits(bones)| && Visits(bones)[g] == Visit(j, bones[j][k].vertexId)
  {
    var m := |bones| - 1;
    if j < m {
      g := VisitIndex(bones[..m], j, k);
    } else {
      g := |Visits(bones[..m])| + k;
    }
  }

  lemma {:induction false} CountPositive(vs: seq<Visit>, g: nat)
    requires g < |vs|
    ensures Count(vs, vs[g].vertex) > 0
  {
    if g < |vs| - 1 {
      CountPositive(vs[..|vs| - 1], g);
    }
  }

  /** For every vertex of the weight list, its influence count is its number
      of non-zero slots, i.e. the `vcount` entry written at line 680;
      vertices beyond the weight list have no influence. */
  lemma InfluencesAreVCount(vws: seq<VertexWeight>, boneTable: seq<nat>, n: nat, v: nat)
    requires ValidWeights(vws, boneTable) && |vws| <= n && v < n
    ensures Influences(BoneLists(Stream(vws, boneTable)), n)[v]
         == if v < |vws| then NonZeroSlots(vws[v].weights) else 0
  {
    BoneListsCount(Stream(vws, boneTable), v);
    StreamCount(vws, boneTable, v);
  }
}
