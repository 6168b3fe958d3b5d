/** The second half of the skin-weight remapper: from the per-joint lists to
    the `<vertex_weights>` encoding of COLLADA 1.4.1 (Core Elements Reference,
    `vertex_weights`): per-vertex influence counts, their prefix offsets, and
    the interleaved (joint ordinal, weight index) array built in a buffer of
    sentinels. */
module SkinRemap {
  import opened SkinStream

  /** One step of the remap loops: joint ordinal `joint` meets an influence on
      `vertex`. A visit's position in the visit order is its weight index. */
  datatype Visit = Visit(joint: nat, vertex: nat)

  /** One (joint ordinal, weight index) pair of the `v` array. */
  datatype Pair = Pair(joint: nat, weightIndex: nat)

  function JointVisits(j: nat, list: seq<Influence>): seq<Visit>
  {
    seq(|list|, k requires 0 <= k < |list| => Visit(j, list[k].vertexId))
  }

  /** Every (joint, influence) in the order of the loops at lines 691-697 and
      709-725: joint by joint, each joint's list in order. */
  function Visits(bones: seq<seq<Influence>>): seq<Visit>
  {
    if |bones| == 0 then []
    else Visits(bones[..|bones| - 1]) + JointVisits(|bones| - 1, bones[|bones| - 1])
  }

  function Weights(list: seq<Influence>): seq<real>
  {
    seq(|list|, k requires 0 <= k < |list| => list[k].weight)
  }

  /** The skin's weights `float_array`: every joint's weights, joint by joint. */
  function FlatWeights(bones: seq<seq<Influence>>): seq<real>
  {
    if |bones| == 0 then []
    else FlatWeights(bones[..|bones| - 1]) + Weights(bones[|bones| - 1])
  }

  /** Number of visits on vertex v. */
  function Count(vs: seq<Visit>, v: nat): nat
  {
    if |vs| == 0 then 0
    else Count(vs[..|vs| - 1], v) + (if vs[|vs| - 1].vertex == v then 1 else 0)
  }

  /** The pairs of vertex v's block: one per visit on v, in visit order. */
  function Block(vs: seq<Visit>, v: nat): (r: seq<Pair>)
    ensures |r| == Count(vs, v)
  {
    if |vs| == 0 then []
    else
      var x := vs[|vs| - 1];
      Block(vs[..|vs| - 1], v) + (if x.vertex == v then [Pair(x.joint, |vs| - 1)] else [])
  }

  function Sum(s: seq<nat>): nat
  {
    if |s| == 0 then 0 else Sum(s[..|s| - 1]) + s[|s| - 1]
  }

  function Concat(bs: seq<seq<Pair>>): seq<Pair>
  {
    if |bs| == 0 then [] else Concat(bs[..|bs| - 1]) + bs[|bs| - 1]
  }

  function Lengths(bs: seq<seq<Pair>>): seq<nat>
  {
    seq(|bs|, i requires 0 <= i < |bs| => |bs[i]|)
  }

  /** Visits per vertex, for vertices 0..n-1. */
  function Counts(vs: seq<Visit>, n: nat): seq<nat>
  {
    seq(n, v requires 0 <= v < n => Count(vs, v))
  }

  /** `influences`: for each of the n vertices, how many joint lists hold it. */
  function Influences(bones: seq<seq<Influence>>, n: nat): seq<nat>
  {
    Counts(Visits(bones), n)
  }

  /** `accumInfluences`: the prefix sums of the influence counts. */
  function Offsets(s: seq<nat>): seq<nat>
  {
    seq(|s|, i requires 0 <= i < |s| => Sum(s[..i]))
  }

  function Blocks(bones: seq<seq<Influence>>, n: nat): seq<seq<Pair>>
  {
    var vs := Visits(bones);
    seq(n, v requires 0 <= v < n => Block(vs, v))
  }

  /** The `v` array as pairs: the blocks of vertices 0..n-1, one after another. */
  function VPairs(bones: seq<seq<Influence>>, n: nat): seq<Pair>
  {
    Concat(Blocks(bones, n))
  }

  /** Pairs written out as `joint weightIndex joint weightIndex ...`. */
  function Interleave(ps: seq<Pair>): (r: seq<int>)
    ensures |r| == 2 * |ps|
    ensures forall i :: 0 <= i < |ps| ==> r[2 * i] == ps[i].joint && r[2 * i + 1] == ps[i].weightIndex
  {
    if |ps| == 0 then []
    else Interleave(ps[..|ps| - 1]) + [ps[|ps| - 1].joint, ps[|ps| - 1].weightIndex]
  }

  /** Every influence names one of the mesh's n vertices. */
  predicate VerticesBelow(bones: seq<seq<Influence>>, n: nat)
  {
    forall j, k :: 0 <= j < |bones| && 0 <= k < |bones[j]| ==> bones[j][k].vertexId < n
  }

  // ---------------------------------------------------------------------
  // Helper facts about the visit order.

  lemma AppendVisit(vs: seq<Visit>, x: Visit)
    ensures forall v :: Count(vs + [x], v) == Count(vs, v) + (if x.vertex == v then 1 else 0)
    ensures forall v :: (Block(vs + [x], v)
      == Block(vs, v) + (if x.vertex == v then [Pair(x.joint, |vs|)] else []))
  {
    assert (vs + [x])[..|vs|] == vs;
  }

  lemma {:induction false} CountPrefix(vs: seq<Visit>, ws: seq<Visit>, v: nat)
    requires vs <= ws
    ensures Count(vs, v) <= Count(ws, v)
  {
    if |ws| > |vs| {
      var p := ws[..|ws| - 1];
      assert vs <= p by { assert p[..|vs|] == ws[..|vs|]; }
      CountPrefix(vs, p, v);
    } else {
      assert vs == ws;
    }
  }

  lemma VisitsStep(bones: seq<seq<Influence>>, j: nat)
    requires j < |bones|
    ensures Visits(bones[..j + 1]) == Visits(bones[..j]) + JointVisits(j, bones[j])
  {
    assert bones[..j + 1][..j] == bones[..j];
  }

  lemma {:induction false} VisitsPrefix(bones: seq<seq<Influence>>, j: nat)
    requires j <= |bones|
    ensures Visits(bones[..j]) <= Visits(bones)
  {
    if j < |bones| {
      var p := bones[..|bones| - 1];
      assert p[..j] == bones[..j];
      VisitsPrefix(p, j);
    } else {
      assert bones[..j] == bones;
    }
  }

  /** The visit made at (j, k) extends the visits made before it, and the
      result is still a prefix of the whole visit order. */
  lemma NextVisit(bones: seq<seq<Influence>>, j: nat, k: nat)
    requires j < |bones| && k < |bones[j]|
    ensures JointVisits(j, bones[j][..k + 1]) == JointVisits(j, bones[j][..k]) + [Visit(j, bones[j][k].vertexId)]
    ensures Visits(bones[..j]) + JointVisits(j, bones[j][..k + 1]) <= Visits(bones)
  {
    VisitsStep(bones, j);
    VisitsPrefix(bones, j + 1);
    var full := JointVisits(j, bones[j]);
    assert JointVisits(j, bones[j][..k + 1]) == full[..k + 1];
  }

  /** The visit at (j, k) finds its vertex's block not yet full. */
  lemma VisitFits(bones: seq<seq<Influence>>, j: nat, k: nat, done: seq<Visit>)
    requires j < |bones| && k < |bones[j]|
    requires done == Visits(bones[..j]) + JointVisits(j, bones[j][..k])
    ensures done + [Visit(j, bones[j][k].vertexId)] == Visits(bones[..j]) + JointVisits(j, bones[j][..k + 1])
    ensures Count(done, bones[j][k].vertexId) < Count(Visits(bones), bones[j][k].vertexId)
  {
    var x := Visit(j, bones[j][k].vertexId);
    NextVisit(bones, j, k);
    AppendVisit(done, x);
    CountPrefix(done + [x], Visits(bones), x.vertex);
  }

  // ---------------------------------------------------------------------
  // The influence counts (lines 690-697).

  method CountInfluences(bones: seq<seq<Influence>>, n: nat) returns (influences: seq<nat>)
    requires VerticesBelow(bones, n)
    ensures influences == Influences(bones, n)
  {
    var counts := new nat[n](_ => 0);
    ghost var done: seq<Visit> := [];
    for j := 0 to |bones|
      invariant done == Visits(bones[..j])
      invariant forall v :: 0 <= v < n ==> counts[v] == Count(done, v)
    {
      ghost var prefix := done;
      for k := 0 to |bones[j]|
        invariant done == prefix + JointVisits(j, bones[j][..k])
        invariant forall v :: 0 <= v < n ==> counts[v] == Count(done, v)
      {
        var vertexId := bones[j][k].vertexId;
        AppendVisit(done, Visit(j, vertexId));
        NextVisit(bones, j, k);
        counts[vertexId] := counts[vertexId] + 1;
        done := done + [Visit(j, vertexId)];
      }
      VisitsStep(bones, j);
      assert bones[j][..|bones[j]|] == bones[j];
    }
    assert bones[..|bones|] == bones;
    influences := counts[..];
  }

  // ---------------------------------------------------------------------
  // The flat weights (lines 923-931).

  method SkinWeightValues(bones: seq<seq<Influence>>) returns (values: seq<real>)
    ensures values == FlatWeights(bones)
  {
    values := [];
    for i := 0 to |bones|
      invariant values == FlatWeights(bones[..i])
    {
      ghost var prefix := values;
      for j := 0 to |bones[i]|
        invariant values == prefix + Weights(bones[i][..j])
      {
        assert Weights(bones[i][..j + 1]) == Weights(bones[i][..j]) + [bones[i][j].weight];
        values := values + [bones[i][j].weight];
      }
      assert bones[i][..|bones[i]|] == bones[i];
      assert bones[..i + 1][..i] == bones[..i];
    }
    assert bones[..|bones|] == bones;
  }

  // ---------------------------------------------------------------------
  // The prefix offsets (lines 699-705).

  method AccumulateInfluences(influences: seq<nat>) returns (offsets: seq<nat>, total: nat)
    ensures offsets == Offsets(influences)
    ensures total == Sum(influences)
  {
    total := 0;
    offsets := [];
    for j := 0 to |influences|
      invariant |offsets| == j
      invariant forall i :: 0 <= i < j ==> offsets[i] == Sum(influences[..i])
      invariant total == Sum(influences[..j])
    {
      offsets := offsets + [total];
      assert influences[..j + 1][..j] == influences[..j];
      total := total + influences[j];
    }
    assert influences[..|influences|] == influences;
  }

  lemma {:induction false} SumPrefixMono(s: seq<nat>, i: nat, j: nat)
    requires i <= j <= |s|
    ensures Sum(s[..i]) <= Sum(s[..j])
  {
    if i < j {
      SumPrefixMono(s, i, j - 1);
      assert s[..j][..j - 1] == s[..j - 1];
    }
  }

  /** The reserved ranges [offset, offset + count) of the vertices lie one
      after another inside [0, total). */
  ghost predicate Layout(influences: seq<nat>, offsets: seq<nat>, total: nat)
  {
    && |offsets| == |influences|
    && (forall v :: 0 <= v < |influences| ==> offsets[v] + influences[v] <= total)
    && (forall v, w :: 0 <= v < w < |influences| ==> offsets[v] + influences[v] <= offsets[w])
  }

  lemma OffsetsLayout(s: seq<nat>)
    ensures Layout(s, Offsets(s), Sum(s))
  {
    var off := Offsets(s);
    forall v | 0 <= v < |s| ensures off[v] + s[v] == Sum(s[..v + 1]) {
      assert s[..v + 1][..v] == s[..v];
    }
    forall v | 0 <= v < |s| ensures off[v] + s[v] <= Sum(s) {
      SumPrefixMono(s, v + 1, |s|);
      assert s[..|s|] == s;
    }
    forall v, w | 0 <= v < w < |s| ensures off[v] + s[v] <= off[w] {
      SumPrefixMono(s, v + 1, w);
    }
  }

  // ---------------------------------------------------------------------
  // The sentinel buffer (lines 707-725).

  /** Joint slot l of vertex v's block in the buffer. */
  function JointAt(a: seq<int>, offsets: seq<nat>, v: nat, l: nat): int
    requires v < |offsets| && 2 * (offsets[v] + l) < |a|
  {
    a[2 * (offsets[v] + l)]
  }

  /** Weight-index slot l of vertex v's block in the buffer. */
  function WeightIndexAt(a: seq<int>, offsets: seq<nat>, v: nat, l: nat): int
    requires v < |offsets| && 2 * (offsets[v] + l) + 1 < |a|
  {
    a[2 * (offsets[v] + l) + 1]
  }

  /** After the visits `done`, each vertex's block starts with the pairs of
      those visits, in visit order, and the rest of the block still holds the
      sentinel -1. */
  ghost predicate Filled(a: seq<int>, done: seq<Visit>, influences: seq<nat>, offsets: seq<nat>)
    requires |offsets| == |influences|
  {
    forall v, l :: 0 <= v < |influences| && 0 <= l < influences[v] ==> SlotFilled(a, done, offsets, v, l)
  }

  /** Slot l of vertex v holds the l-th pair of the block if there is one, and
      the sentinel otherwise. */
  ghost predicate SlotFilled(a: seq<int>, done: seq<Visit>, offsets: seq<nat>, v: nat, l: nat)
    requires v < |offsets|
  {
    && 2 * (offsets[v] + l) + 1 < |a|
    && (if l < Count(done, v)
        then JointAt(a, offsets, v, l) == Block(done, v)[l].joint
          && WeightIndexAt(a, offsets, v, l) == Block(done, v)[l].weightIndex
        else JointAt(a, offsets, v, l) == -1)
  }

  /** Slot l of vertex v after the visit (joint, vertex) is written into the
      first free slot c of its own vertex. */
  lemma FillSlot(a: seq<int>, b: seq<int>, done: seq<Visit>, joint: nat, vertex: nat, c: nat, w: nat,
                 influences: seq<nat>, offsets: seq<nat>, total: nat, v: nat, l: nat)
    requires Layout(influences, offsets, total) && |a| == 2 * total
    requires Filled(a, done, influences, offsets)
    requires vertex < |influences| && c == Count(done, vertex) && c < influences[vertex] && w == |done|
    requires b == a[2 * (offsets[vertex] + c) := joint][2 * (offsets[vertex] + c) + 1 := w]
    requires v < |influences| && l < influences[v]
    ensures SlotFilled(b, done + [Visit(joint, vertex)], offsets, v, l)
  {
    AppendVisit(done, Visit(joint, vertex));
    assert SlotFilled(a, done, offsets, v, l);
    if v < vertex {
      assert offsets[v] + influences[v] <= offsets[vertex];
    } else if v > vertex {
      assert offsets[vertex] + influences[vertex] <= offsets[v];
    }
  }

  /** The search for the first free slot of a vertex stops at the slot after
      the pairs already written, and writing the visit there extends the
      vertex's block. */
  lemma FillStep(a: seq<int>, done: seq<Visit>, joint: nat, vertex: nat, c: nat, w: nat,
                 influences: seq<nat>, offsets: seq<nat>, total: nat)
    returns (b: seq<int>)
    requires Layout(influences, offsets, total) && |a| == 2 * total
    requires Filled(a, done, influences, offsets)
    requires vertex < |influences| && c == Count(done, vertex) && c < influences[vertex] && w == |done|
    ensures JointAt(a, offsets, vertex, c) == -1
    ensures forall l :: 0 <= l < c ==> JointAt(a, offsets, vertex, l) != -1
    ensures b == a[2 * (offsets[vertex] + c) := joint][2 * (offsets[vertex] + c) + 1 := w]
    ensures Filled(b, done + [Visit(joint, vertex)], influences, offsets)
  {
    b := a[2 * (offsets[vertex] + c) := joint][2 * (offsets[vertex] + c) + 1 := w];
    var d := done + [Visit(joint, vertex)];
    forall v, l | 0 <= v < |influences| && 0 <= l < influences[v]
      ensures SlotFilled(b, d, offsets, v, l)
    {
      FillSlot(a, b, done, joint, vertex, c, w, influences, offsets, total, v, l);
    }
    assert SlotFilled(a, done, offsets, vertex, c);
    forall l | 0 <= l < c ensures JointAt(a, offsets, vertex, l) != -1 {
      assert SlotFilled(a, done, offsets, vertex, l);
    }
  }

  lemma BlocksLengths(bones: seq<seq<Influence>>, n: nat)
    ensures Lengths(Blocks(bones, n)) == Influences(bones, n)
    ensures |VPairs(bones, n)| == Sum(Influences(bones, n))
  {
    ConcatLength(Blocks(bones, n));
  }

  lemma FilledSlot(s: seq<int>, done: seq<Visit>, influences: seq<nat>, offsets: seq<nat>, v: nat, l: nat)
    requires |offsets| == |influences| && Filled(s, done, influences, offsets)
    requires v < |influences| && l < influences[v] && l < Count(done, v)
    ensures 2 * (offsets[v] + l) + 1 < |s|
    ensures s[2 * (offsets[v] + l)] == Block(done, v)[l].joint
    ensures s[2 * (offsets[v] + l) + 1] == Block(done, v)[l].weightIndex
  {
    assert SlotFilled(s, done, offsets, v, l);
  }

  /** Entries 2p and 2p + 1 of a full buffer are those of the interleaved `v` array. */
  lemma FilledAt(s: seq<int>, bones: seq<seq<Influence>>, n: nat,
                 influences: seq<nat>, offsets: seq<nat>, total: nat, p: nat)
    requires influences == Influences(bones, n) && offsets == Offsets(influences)
    requires total == Sum(influences) && |s| == 2 * total
    requires Filled(s, Visits(bones), influences, offsets)
    requires p < total
    ensures |VPairs(bones, n)| == total
    ensures s[2 * p] == VPairs(bones, n)[p].joint
    ensures s[2 * p + 1] == VPairs(bones, n)[p].weightIndex
  {
    var bs := Blocks(bones, n);
    BlocksLengths(bones, n);
    var v, l := Locate(bs, p);
    ConcatAt(bs, v, l);
    assert p == offsets[v] + l;
    FilledSlot(s, Visits(bones), influences, offsets, v, l);
  }

  /** A buffer holding every visit is the interleaved `v` array. */
  lemma FilledIsInterleaved(s: seq<int>, bones: seq<seq<Influence>>, n: nat,
                            influences: seq<nat>, offsets: seq<nat>, total: nat)
    requires influences == Influences(bones, n) && offsets == Offsets(influences)
    requires total == Sum(influences) && |s| == 2 * total
    requires Filled(s, Visits(bones), influences, offsets)
    ensures s == Interleave(VPairs(bones, n))
  {
    var ps := VPairs(bones, n);
    var r := Interleave(ps);
    BlocksLengths(bones, n);
    forall i | 0 <= i < |s| ensures s[i] == r[i] {
      FilledAt(s, bones, n, influences, offsets, total, i / 2);
    }
  }

  lemma {:induction false} ConcatLength(bs: seq<seq<Pair>>)
    ensures |Concat(bs)| == Sum(Lengths(bs))
  {
    if |bs| > 0 {
      ConcatLength(bs[..|bs| - 1]);
      assert Lengths(bs[..|bs| - 1]) == Lengths(bs)[..|bs| - 1];
    }
  }

  /** Element l of block v sits at the block's offset plus l. */
  lemma {:induction false} ConcatAt(bs: seq<seq<Pair>>, v: nat, l: nat)
    requires v < |bs| && l < |bs[v]|
    ensures Sum(Lengths(bs)[..v]) + l < |Concat(bs)|
    ensures Concat(bs)[Sum(Lengths(bs)[..v]) + l] == bs[v][l]
  {
    var m := |bs| - 1;
    var p := bs[..m];
    ConcatLength(p);
    assert Lengths(bs)[..m] == Lengths(p);
    if v < m {
      ConcatAt(p, v, l);
      assert Lengths(bs)[..v] == Lengths(p)[..v];
    }
  }

  /** Every position of a concatenation lies in some block. */
  lemma {:induction false} Locate(bs: seq<seq<Pair>>, p: nat) returns (v: nat, l: nat)
    requires p < |Concat(bs)|
    ensures v < |bs| && l < |bs[v]| && p == Sum(Lengths(bs)[..v]) + l
  {
    var m := |bs| - 1;
    var q := bs[..m];
    ConcatLength(q);
    assert Lengths(bs)[..m] == Lengths(q);
    if p < |Concat(q)| {
      v, l := Locate(q, p);
      assert Lengths(bs)[..v] == Lengths(q)[..v];
    } else {
      v, l := m, p - |Concat(q)|;
    }
  }

  /** The search of lines 713-722: walks vertex v's block of `count` slots
      and writes (joint, weightIndex) into the first one still holding -1. */
  method PlacePair(a: array<int>, offsets: seq<nat>, v: nat, count: nat, joint: nat, weightIndex: nat, ghost c: nat)
    requires v < |offsets| && c < count && 2 * (offsets[v] + count) <= a.Length
    requires forall l :: 0 <= l < c ==> JointAt(a[..], offsets, v, l) != -1
    requires JointAt(a[..], offsets, v, c) == -1
    modifies a
    ensures a[..] == old(a[..])[2 * (offsets[v] + c) := joint][2 * (offsets[v] + c) + 1 := weightIndex]
  {
    for l := 0 to count
      invariant l <= c
      invariant a[..] == old(a[..])
    {
      if a[2 * (offsets[v] + l)] == -1 {
        assert JointAt(old(a[..]), offsets, v, l) == -1;
        a[2 * (offsets[v] + l)] := joint;
        a[2 * (offsets[v] + l) + 1] := weightIndex;
        break;
      }
      assert JointAt(old(a[..]), offsets, v, l) != -1;
    }
  }

  /** Fills the sentinel buffer: for each joint's influences in order, the
      pair (joint ordinal, running weight index) goes into the first slot of
      the vertex's block that still holds -1. */
  method FillJointWeightIndices(bones: seq<seq<Influence>>, n: nat,
                                influences: seq<nat>, offsets: seq<nat>, total: nat)
    returns (v: seq<int>, weightIndex: nat)
    requires VerticesBelow(bones, n)
    requires influences == Influences(bones, n) && offsets == Offsets(influences)
    requires total == Sum(influences)
    ensures weightIndex == |Visits(bones)|
    ensures v == Interleave(VPairs(bones, n))
  {
    OffsetsLayout(influences);
    ghost var all := Visits(bones);
    var jointWeightIndices := new int[2 * total](_ => -1);
    weightIndex := 0;
    ghost var done: seq<Visit> := [];
    for j := 0 to |bones|
      invariant done == Visits(bones[..j])
      invariant weightIndex == |done|
      invariant Filled(jointWeightIndices[..], done, influences, offsets)
    {
      for k := 0 to |bones[j]|
        invariant done == Visits(bones[..j]) + JointVisits(j, bones[j][..k])
        invariant weightIndex == |done|
        invariant Filled(jointWeightIndices[..], done, influences, offsets)
      {
        var vertexId := bones[j][k].vertexId;
        ghost var x := Visit(j, vertexId);
        VisitFits(bones, j, k, done);
        ghost var c := Count(done, vertexId);
        ghost var before := jointWeightIndices[..];
        ghost var after := FillStep(before, done, j, vertexId, c, weightIndex, influences, offsets, total);
        PlacePair(jointWeightIndices, offsets, vertexId, influences[vertexId], j, weightIndex, c);
        weightIndex := weightIndex + 1;
        done := done + [x];
      }
      VisitsStep(bones, j);
      assert bones[j][..|bones[j]|] == bones[j];
    }
    assert bones[..|bones|] == bones;
    FilledIsInterleaved(jointWeightIndices[..], bones, n, influences, offsets, total);
    v := jointWeightIndices[..];
  }
}
