/** The skin and morph controllers of the controller library
    (`CreateLibraryControllersXmlElement`): what one controller holds, the
    skin controller assembled from the remapper's pieces, and the morph
    controller built from the surviving morph targets. */
module Controllers {
  import opened Scene
  import opened Matrices
  import opened Ids
  import opened SkinStream
  import opened SkinRemap
  import opened SkinRemapProperties
  import opened Morph
  import Geometry

  /** A `<controller>` element, reduced to the values it carries.
      For a skin: the joint names of its Name_array and the nodes whose bind
      poses follow (the inverse matrices themselves are float arithmetic and
      are not modelled), the bind-poses array's value count, the weights
      float_array, the `vertex_weights` count, `vcount` and `v`. */
  datatype Controller =
    | SkinController(
        id: string,
        source: string,
        bindShape: seq<real>,
        joints: seq<string>,
        bindPoseNodes: seq<nat>,
        bindPoseCount: nat,
        weights: seq<real>,
        vertexCount: nat,
        vcount: seq<nat>,
        v: seq<int>)
    | MorphController(
        id: string,
        source: string,
        targets: seq<string>,
        targetWeights: seq<string>)

  /** Every bone refers to a node of the flat node list (`GetNode` succeeds),
      and a node's `index` is its position in that list. */
  predicate BonesResolve(model: Model)
  {
    && (forall b :: b in model.bones ==> b < |model.nodes|)
    && (forall i :: 0 <= i < |model.nodes| ==> model.nodes[i].index == i)
  }

  /** What the loader guarantees of a mesh's weights: four slots per vertex,
      every weighted slot names a bone, and no more weight records than
      vertices (the `influences` list is sized by the vertex count). */
  predicate Skinnable(model: Model, mesh: Mesh)
  {
    ValidWeights(mesh.vertexWeights, model.bones) && |mesh.vertexWeights| <= mesh.vertexCount
  }

  /** The `source` of a skin: the base geometry in blender mode, otherwise
      the mesh's morph controller when it has morph targets. */
  function SkinSource(blenderMode: bool, mesh: Mesh, meshId: string): string
  {
    if blenderMode then "#" + meshId
    else if mesh.hasMorphTargets then "#" + meshId + "-morph"
    else "#" + meshId
  }

  /** `vcount`: the non-zero slots of each weight record. */
  function VCount(vws: seq<VertexWeight>): (r: seq<nat>)
    ensures |r| == |vws|
  {
    seq(|vws|, i requires 0 <= i < |vws| => NonZeroSlots(vws[i].weights))
  }

  /** The names of the given nodes (`joints.Select(x => x.Name)`). */
  function NodeNames(nodes: seq<Node>, indices: seq<nat>): (r: seq<string>)
    requires forall i :: 0 <= i < |indices| ==> indices[i] < |nodes|
    ensures |r| == |indices|
  {
    seq(|indices|, i requires 0 <= i < |indices| => nodes[indices[i]].name)
  }

  /** Every joint of the slot scan is a node of the model. */
  lemma JointsResolve(model: Model, mesh: Mesh)
    requires BonesResolve(model) && Skinnable(model, mesh)
    ensures forall i :: 0 <= i < |JointOrder(Stream(mesh.vertexWeights, model.bones))| ==>
      JointOrder(Stream(mesh.vertexWeights, model.bones))[i] < |model.nodes|
  {
    var s := Stream(mesh.vertexWeights, model.bones);
    JointOrderMembers(s);
    forall i | 0 <= i < |JointOrder(s)| ensures JointOrder(s)[i] < |model.nodes| {
      assert JointOrder(s)[i] in JointOrder(s);
      var w :| 0 <= w < |s| && s[w].node == JointOrder(s)[i];
      assert s[w] in s;
    }
  }

  /** The skin controller of mesh `meshId` (lines 570-737). */
  function SkinOf(model: Model, blenderMode: bool, mesh: Mesh, meshId: string): Controller
    requires BonesResolve(model) && Skinnable(model, mesh)
  {
    var s := Stream(mesh.vertexWeights, model.bones);
    var order := JointOrder(s);
    var bones := BoneLists(s);
    JointsResolve(model, mesh);
    SkinController(
      meshId + "-skin",
      SkinSource(blenderMode, mesh, meshId),
      GenerateMatrixArray(Identity()),
      NodeNames(model.nodes, order),
      order,
      16 * |order|,
      FlatWeights(bones),
      mesh.vertexCount,
      VCount(mesh.vertexWeights),
      Interleave(VPairs(bones, mesh.vertexCount)))
  }

  /** The morph controller of mesh `meshId` (lines 739-773). */
  function MorphOf(mesh: Mesh, meshId: string): Controller
  {
    var survivors := Survivors(mesh.morphTargets);
    MorphController(meshId + "-morph", "#" + meshId, TargetIds(meshId, survivors), ZeroWeights(|survivors|))
  }

  // ---------------------------------------------------------------------
  // The loops that build one controller.

  /** The skin-controller body of the first loop of
      `CreateLibraryControllersXmlElement`, for a mesh with vertex weights. */
  method CreateSkinController(model: Model, blenderMode: bool, mesh: Mesh, i: nat) returns (c: Controller)
    requires BonesResolve(model) && Skinnable(model, mesh)
    ensures c == SkinOf(model, blenderMode, mesh, MeshId(i))
  {
    var meshId := MeshId(i);
    var vws := mesh.vertexWeights;
    var joints := ScanJointNodes(vws, model.bones);
    var bindPosesNodes := ScanJointNodes(vws, model.bones);
    JointsResolve(model, mesh);
    var jointNames := NodeNames(model.nodes, joints);
    var values, v := RemapWeights(vws, model.bones, mesh.vertexCount);
    var vcount := VCount(vws);
    var source := SkinSource(blenderMode, mesh, meshId);
    c := SkinController(meshId + "-skin", source, GenerateMatrixArray(Identity()), jointNames,
                        bindPosesNodes, |bindPosesNodes| * 16, values, mesh.vertexCount, vcount, v);
    ghost var expected := SkinOf(model, blenderMode, mesh, meshId);
    assert c.id == expected.id && c.source == expected.source && c.bindShape == expected.bindShape;
    assert c.joints == expected.joints && c.bindPoseNodes == expected.bindPoseNodes;
    assert c.bindPoseCount == expected.bindPoseCount && c.vertexCount == expected.vertexCount;
    assert c.weights == expected.weights && c.vcount == expected.vcount && c.v == expected.v;
  }

  /** The weight remapper of a skin: the per-joint lists from the dictionary
      (lines 606-640), then the weights array (914-931) and the `v` array
      (690-727). */
  method RemapWeights(vws: seq<VertexWeight>, boneTable: seq<nat>, vertexCount: nat)
    returns (values: seq<real>, v: seq<int>)
    requires ValidWeights(vws, boneTable) && |vws| <= vertexCount
    ensures values == FlatWeights(BoneLists(Stream(vws, boneTable)))
    ensures v == Interleave(VPairs(BoneLists(Stream(vws, boneTable)), vertexCount))
  {
    var order, boneMap := BuildBoneMap(vws, boneTable);
    var bones := seq(|order|, j requires 0 <= j < |order| => boneMap[order[j]]);
    assert bones == BoneLists(Stream(vws, boneTable));
    values := SkinWeightValues(bones);
    BoneListsVertices(vws, boneTable, vertexCount);
    var influences := CountInfluences(bones, vertexCount);
    var accumInfluences, jointWeightIndicesLength := AccumulateInfluences(influences);
    var weightIndex;
    v, weightIndex := FillJointWeightIndices(bones, vertexCount, influences, accumInfluences, jointWeightIndicesLength);
  }

  /** The morph-controller body of the second loop, for a mesh with morph targets. */
  method CreateMorphController(mesh: Mesh, i: nat) returns (c: Controller)
    ensures c == MorphOf(mesh, MeshId(i))
  {
    var meshId := MeshId(i);
    var morphTargetNames := MorphTargetNames(mesh.morphTargets, meshId);
    var morphTargetCount := MorphTargetCount(mesh.morphTargets);
    c := MorphController(meshId + "-morph", "#" + meshId, morphTargetNames, ZeroWeights(morphTargetCount));
  }

  // ---------------------------------------------------------------------
  // What a skin controller means.

  /** The skin reads the morph controller exactly when it is not written for
      blender and the mesh has morph targets; otherwise it reads the base
      geometry. */
  lemma SkinSourceChoice(blenderMode: bool, mesh: Mesh, meshId: string)
    ensures SkinSource(blenderMode, mesh, meshId) == "#" + meshId + "-morph" <==> !blenderMode && mesh.hasMorphTargets
    ensures SkinSource(blenderMode, mesh, meshId) == "#" + meshId <==> blenderMode || !mesh.hasMorphTargets
  {
  }

  /** The joint list: one entry per node that some weighted slot refers to,
      no node twice, names taken from those nodes, and one 16-value bind pose
      per joint. */
  lemma SkinJoints(model: Model, blenderMode: bool, mesh: Mesh, meshId: string)
    requires BonesResolve(model) && Skinnable(model, mesh)
    ensures var c := SkinOf(model, blenderMode, mesh, meshId);
      && |c.joints| == |c.bindPoseNodes|
      && c.bindPoseCount == 16 * |c.joints|
      && NoDup(c.bindPoseNodes)
      && (forall j :: 0 <= j < |c.joints| ==>
            c.bindPoseNodes[j] < |model.nodes| && c.joints[j] == model.nodes[c.bindPoseNodes[j]].name)
      && (forall n: nat :: n in c.bindPoseNodes <==> WeightedNode(mesh.vertexWeights, model.bones, n))
  {
    var vws := mesh.vertexWeights;
    var s := Stream(vws, model.bones);
    JointsResolve(model, mesh);
    JointOrderNoDup(s);
    JointOrderMembers(s);
    forall n: nat ensures Occurs(s, n) <==> WeightedNode(vws, model.bones, n) {
      if Occurs(s, n) {
        var w :| 0 <= w < |s| && s[w].node == n;
        var k := StreamEntrySlot(vws, model.bones, s[w]);
        assert WeightedSlot(vws, model.bones, s[w].vertex, k, n);
      }
      if WeightedNode(vws, model.bones, n) {
        var v, k :| 0 <= v < |vws| && 0 <= k < 4 && WeightedSlot(vws, model.bones, v, k, n);
        SlotInStream(vws, model.bones, v, k);
        var e := Entry(v, n, vws[v].weights[k]);
        var w :| 0 <= w < |s| && s[w] == e;
        assert s[w].node == n;
      }
    }
  }

  /** Slot k of vertex v carries a weight and its bone refers to node n. */
  predicate WeightedSlot(vws: seq<VertexWeight>, boneTable: seq<nat>, v: nat, k: nat, n: nat)
  {
    && v < |vws| && k < 4 && |vws[v].weights| == 4 && |vws[v].indices| == 4
    && vws[v].weights[k] != 0.0
    && vws[v].indices[k] < |boneTable| && boneTable[vws[v].indices[k]] == n
  }

  /** Some weighted slot of some vertex refers to node n. */
  predicate WeightedNode(vws: seq<VertexWeight>, boneTable: seq<nat>, n: nat)
  {
    exists v, k :: 0 <= v < |vws| && 0 <= k < 4 && WeightedSlot(vws, boneTable, v, k, n)
  }

  /** Every entry of the slot stream comes from one weighted slot. */
  lemma {:induction false} StreamEntrySlot(vws: seq<VertexWeight>, boneTable: seq<nat>, e: Entry) returns (k: nat)
    requires ValidWeights(vws, boneTable) && e in Stream(vws, boneTable)
    ensures WeightedSlot(vws, boneTable, e.vertex, k, e.node) && vws[e.vertex].weights[k] == e.weight
  {
    var m := |vws| - 1;
    var p := vws[..m];
    assert ValidWeights(p, boneTable);
    if e in Stream(p, boneTable) {
      k := StreamEntrySlot(p, boneTable, e);
      assert p[e.vertex] == vws[e.vertex];
    } else {
      k := SlotEntrySlot(m, vws[m], boneTable, 4, e);
    }
  }

  lemma {:induction false} SlotEntrySlot(j: nat, vw: VertexWeight, boneTable: seq<nat>, k: nat, e: Entry) returns (h: nat)
    requires k <= 4 && WellFormedWeight(vw, |boneTable|) && e in SlotEntries(j, vw, boneTable, k)
    ensures h < k && e.vertex == j && vw.weights[h] == e.weight && vw.weights[h] != 0.0
    ensures boneTable[vw.indices[h]] == e.node
  {
    if e in SlotEntries(j, vw, boneTable, k - 1) {
      h := SlotEntrySlot(j, vw, boneTable, k - 1, e);
    } else {
      h := k - 1;
    }
  }

  /** Every weighted slot puts its entry into the slot stream. */
  lemma {:induction false} SlotInStream(vws: seq<VertexWeight>, boneTable: seq<nat>, v: nat, k: nat)
    requires ValidWeights(vws, boneTable) && v < |vws| && k < 4 && vws[v].weights[k] != 0.0
    ensures Entry(v, boneTable[vws[v].indices[k]], vws[v].weights[k]) in Stream(vws, boneTable)
  {
    var m := |vws| - 1;
    var p := vws[..m];
    assert ValidWeights(p, boneTable);
    if v < m {
      SlotInStream(p, boneTable, v, k);
      assert p[v] == vws[v];
    } else {
      SlotInEntries(v, vws[v], boneTable, 4, k);
    }
  }

  lemma {:induction false} SlotInEntries(j: nat, vw: VertexWeight, boneTable: seq<nat>, k: nat, h: nat)
    requires k <= 4 && WellFormedWeight(vw, |boneTable|) && h < k && vw.weights[h] != 0.0
    ensures Entry(j, boneTable[vw.indices[h]], vw.weights[h]) in SlotEntries(j, vw, boneTable, k)
  {
    if h < k - 1 {
      SlotInEntries(j, vw, boneTable, k - 1, h);
    }
  }

  /** An influence on a joint's list comes from an entry of the stream on that joint. */
  lemma {:induction false} GroupMember(s: seq<Entry>, n: nat, x: Influence)
    requires x in GroupOf(s, n)
    ensures Entry(x.vertexId, n, x.weight) in s
  {
    var p := s[..|s| - 1];
    if x in GroupOf(p, n) {
      GroupMember(p, n, x);
    } else {
      assert s[|s| - 1] == Entry(x.vertexId, n, x.weight);
    }
  }

  /** Zeros appended to a list do not change its sum. */
  lemma {:induction false} SumZeroPadded(a: seq<nat>, b: seq<nat>)
    requires |a| <= |b| && b[..|a|] == a
    requires forall i :: |a| <= i < |b| ==> b[i] == 0
    ensures Sum(a) == Sum(b)
  {
    if |b| > |a| {
      var p := b[..|b| - 1];
      assert p[..|a|] == a;
      SumZeroPadded(a, p);
    } else {
      assert a == b;
    }
  }

  /** The influence counts of the vertices with weight records are their `vcount`. */
  lemma InfluencesPrefix(model: Model, mesh: Mesh, v: nat)
    requires Skinnable(model, mesh) && v <= |mesh.vertexWeights|
    ensures var bones := BoneLists(Stream(mesh.vertexWeights, model.bones));
      Influences(bones, mesh.vertexCount)[..v] == VCount(mesh.vertexWeights)[..v]
  {
    var vws := mesh.vertexWeights;
    var bones := BoneLists(Stream(vws, model.bones));
    forall u | 0 <= u < v ensures Influences(bones, mesh.vertexCount)[u] == VCount(vws)[u] {
      InfluencesAreVCount(vws, model.bones, mesh.vertexCount, u);
    }
  }

  /** The `vcount`, `weights` and `v` arrays agree in size: as many weights
      as influences counted by `vcount`, one (joint, weight) pair per weight,
      and a `vertex_weights` count that covers every weight record. */
  lemma SkinWeightsSized(model: Model, blenderMode: bool, mesh: Mesh, meshId: string)
    requires BonesResolve(model) && Skinnable(model, mesh)
    ensures var c := SkinOf(model, blenderMode, mesh, meshId);
      && |c.vcount| == |mesh.vertexWeights| <= c.vertexCount
      && Sum(c.vcount) == |c.weights|
      && |c.v| == 2 * |c.weights|
  {
    var vws := mesh.vertexWeights;
    var n := mesh.vertexCount;
    var bones := BoneLists(Stream(vws, model.bones));
    BoneListsVertices(vws, model.bones, n);
    WeightIndexPermutation(bones, n);
    BlocksLengths(bones, n);
    var infl := Influences(bones, n);
    InfluencesPrefix(model, mesh, |vws|);
    forall i | |vws| <= i < |infl| ensures infl[i] == 0 {
      InfluencesAreVCount(vws, model.bones, n, i);
    }
    assert VCount(vws)[..|vws|] == VCount(vws);
    SumZeroPadded(VCount(vws), infl);
  }

  /** Every pair of `v` names a joint of the joint list and a weight of the
      weights array, and no weight is named twice. */
  lemma SkinPairsInRange(model: Model, blenderMode: bool, mesh: Mesh, meshId: string)
    requires BonesResolve(model) && Skinnable(model, mesh)
    ensures var c := SkinOf(model, blenderMode, mesh, meshId);
      && (forall i :: 0 <= i < |c.v| / 2 ==>
            0 <= c.v[2 * i] < |c.joints| && 0 <= c.v[2 * i + 1] < |c.weights|)
      && (forall a, b :: 0 <= a < b < |c.v| / 2 ==> c.v[2 * a + 1] != c.v[2 * b + 1])
  {
    var bones := BoneLists(Stream(mesh.vertexWeights, model.bones));
    var ps := VPairs(bones, mesh.vertexCount);
    var c := SkinOf(model, blenderMode, mesh, meshId);
    BoneListsVertices(mesh.vertexWeights, model.bones, mesh.vertexCount);
    WeightIndexPermutation(bones, mesh.vertexCount);
    assert c.v == Interleave(ps) && c.weights == FlatWeights(bones) && |c.joints| == |bones|;
    assert |c.v| / 2 == |ps|;
    forall i | 0 <= i < |c.v| / 2
      ensures 0 <= c.v[2 * i] < |c.joints| && 0 <= c.v[2 * i + 1] < |c.weights|
    {
      assert c.v[2 * i] == ps[i].joint && c.v[2 * i + 1] == ps[i].weightIndex;
    }
    forall a, b | 0 <= a < b < |c.v| / 2 ensures c.v[2 * a + 1] != c.v[2 * b + 1] {
      assert c.v[2 * a + 1] == ps[a].weightIndex && c.v[2 * b + 1] == ps[b].weightIndex;
    }
  }

  /** Every weight of the weights array is named by some pair of `v`. */
  lemma SkinWeightUsed(model: Model, blenderMode: bool, mesh: Mesh, meshId: string, g: nat) returns (i: nat)
    requires BonesResolve(model) && Skinnable(model, mesh)
    requires g < |SkinOf(model, blenderMode, mesh, meshId).weights|
    ensures var c := SkinOf(model, blenderMode, mesh, meshId);
      2 * i + 1 < |c.v| && c.v[2 * i + 1] == g
  {
    var bones := BoneLists(Stream(mesh.vertexWeights, model.bones));
    var ps := VPairs(bones, mesh.vertexCount);
    BoneListsVertices(mesh.vertexWeights, model.bones, mesh.vertexCount);
    WeightIndexPermutation(bones, mesh.vertexCount);
    assert g in WeightIndices(ps);
    i :| 0 <= i < |ps| && WeightIndices(ps)[i] == g;
  }

  /** Pair l of vertex v of the remapped pairs comes from one of v's
      weighted slots: its joint is the node that slot's bone refers to and
      its weight index holds the slot's weight. */
  lemma VertexPairSlot(vws: seq<VertexWeight>, boneTable: seq<nat>, n: nat, v: nat, l: nat) returns (k: nat)
    requires ValidWeights(vws, boneTable) && |vws| <= n
    requires v < |vws| && l < VCount(vws)[v]
    ensures var s := Stream(vws, boneTable);
      var ps := VPairs(BoneLists(s), n);
      var p := Sum(VCount(vws)[..v]) + l;
      && p < |ps|
      && ps[p].joint < |JointOrder(s)| && ps[p].weightIndex < |FlatWeights(BoneLists(s))|
      && WeightedSlot(vws, boneTable, v, k, JointOrder(s)[ps[p].joint])
      && vws[v].weights[k] == FlatWeights(BoneLists(s))[ps[p].weightIndex]
  {
    var s := Stream(vws, boneTable);
    var order := JointOrder(s);
    var bones := BoneLists(s);
    BoneListsVertices(vws, boneTable, n);
    InfluencesAreVCount(vws, boneTable, n, v);
    var infl := Influences(bones, n);
    forall u | 0 <= u < v ensures infl[u] == VCount(vws)[u] {
      InfluencesAreVCount(vws, boneTable, n, u);
    }
    assert infl[..v] == VCount(vws)[..v];
    assert Offsets(infl)[v] == Sum(infl[..v]);
    PairMeaning(bones, n, v, l);
    var pair := VPairs(bones, n)[Sum(VCount(vws)[..v]) + l];
    var w := FlatWeights(bones)[pair.weightIndex];
    var h :| 0 <= h < |bones[pair.joint]| && bones[pair.joint][h] == Influence(v, w);
    assert Influence(v, w) in GroupOf(s, order[pair.joint]);
    GroupMember(s, order[pair.joint], Influence(v, w));
    k := StreamEntrySlot(vws, boneTable, Entry(v, order[pair.joint], w));
  }

  /** Pair l of vertex v of a skin (vertex v's pairs start after the `vcount`
      of the vertices before it) is one of v's weighted slots: it names the
      joint that slot's bone refers to and the weight the slot carries. This
      is the meaning of `<vertex_weights>` in COLLADA. */
  lemma SkinVertexInfluence(model: Model, blenderMode: bool, mesh: Mesh, meshId: string, v: nat, l: nat)
    returns (k: nat)
    requires BonesResolve(model) && Skinnable(model, mesh)
    requires v < |mesh.vertexWeights| && l < VCount(mesh.vertexWeights)[v]
    ensures var c := SkinOf(model, blenderMode, mesh, meshId);
      var p := Sum(c.vcount[..v]) + l;
      && 2 * p + 1 < |c.v|
      && 0 <= c.v[2 * p] < |c.bindPoseNodes| && 0 <= c.v[2 * p + 1] < |c.weights|
      && WeightedSlot(mesh.vertexWeights, model.bones, v, k, c.bindPoseNodes[c.v[2 * p]])
      && mesh.vertexWeights[v].weights[k] == c.weights[c.v[2 * p + 1]]
  {
    var vws := mesh.vertexWeights;
    var ps := VPairs(BoneLists(Stream(vws, model.bones)), mesh.vertexCount);
    k := VertexPairSlot(vws, model.bones, mesh.vertexCount, v, l);
    var p := Sum(VCount(vws)[..v]) + l;
    assert Interleave(ps)[2 * p] == ps[p].joint && Interleave(ps)[2 * p + 1] == ps[p].weightIndex;
  }

  // ---------------------------------------------------------------------
  // What a morph controller means.

  /** The morph controller morphs the base geometry into exactly the morph
      geometries written for the mesh, in the same order, each with weight 0. */
  lemma MorphControllerTargets(mesh: Mesh, meshId: string)
    requires mesh.hasMorphTargets
    ensures var c := MorphOf(mesh, meshId);
      && c.source == "#" + meshId
      && c.targets == Geometry.GeometryIds(Geometry.MorphGeometries(mesh, meshId, Survivors(mesh.morphTargets)))
      && |c.targetWeights| == |c.targets|
      && (forall i :: 0 <= i < |c.targetWeights| ==> c.targetWeights[i] == "0")
      && (forall j: nat :: MorphTargetId(meshId, j) in c.targets <==>
            j < |mesh.morphTargets| && !IsDegenerate(mesh.morphTargets[j]))
  {
    var survivors := Survivors(mesh.morphTargets);
    var geometries := Geometry.MorphGeometries(mesh, meshId, survivors);
    forall k | 0 <= k < |survivors| ensures geometries[k].id == TargetIds(meshId, survivors)[k] {
      Geometry.MorphGeometriesAt(mesh, meshId, survivors, k);
    }
    forall j: nat ensures MorphTargetId(meshId, j) in MorphOf(mesh, meshId).targets <==>
      j < |mesh.morphTargets| && !IsDegenerate(mesh.morphTargets[j])
    {
      if j < |mesh.morphTargets| {
        if IsDegenerate(mesh.morphTargets[j]) {
          DegenerateTargetDropped(mesh.morphTargets, meshId, j);
        } else {
          SurvivorNamed(mesh.morphTargets, meshId, j);
        }
      } else {
        var ids := TargetIds(meshId, Survivors(mesh.morphTargets));
        if MorphTargetId(meshId, j) in ids {
          var i :| 0 <= i < |ids| && ids[i] == MorphTargetId(meshId, j);
          MorphTargetIdInjective(meshId, Survivors(mesh.morphTargets)[i], j);
        }
      }
    }
  }

  // ---------------------------------------------------------------------
  // The controller library: all skin controllers, then all morph controllers.

  /** Every mesh of the list meets the loader's guarantees. */
  predicate AllSkinnable(model: Model, meshes: seq<Mesh>)
  {
    forall i :: 0 <= i < |meshes| && meshes[i].hasVertexWeights ==> Skinnable(model, meshes[i])
  }

  predicate HasFlag(mesh: Mesh, skin: bool)
  {
    if skin then mesh.hasVertexWeights else mesh.hasMorphTargets
  }

  /** Positions in the mesh list of the meshes with vertex weights (`skin`)
      or with morph targets (not `skin`), in increasing order. */
  function Flagged(meshes: seq<Mesh>, skin: bool): (r: seq<nat>)
    ensures |r| <= |meshes|
    ensures forall p :: 0 <= p < |r| ==> r[p] < |meshes| && HasFlag(meshes[r[p]], skin)
  {
    if |meshes| == 0 then []
    else
      var m := |meshes| - 1;
      var rest := Flagged(meshes[..m], skin);
      if HasFlag(meshes[m], skin) then rest + [m] else rest
  }

  /** The first loop (lines 564-737): one skin per mesh with vertex weights, in mesh order. */
  function SkinControllers(model: Model, blenderMode: bool, meshes: seq<Mesh>): seq<Controller>
    requires BonesResolve(model) && AllSkinnable(model, meshes)
  {
    seq(|Flagged(meshes, true)|, p requires 0 <= p < |Flagged(meshes, true)| => NthSkin(model, blenderMode, meshes, p))
  }

  /** The skin of the p-th mesh with vertex weights. */
  function NthSkin(model: Model, blenderMode: bool, meshes: seq<Mesh>, p: nat): Controller
    requires BonesResolve(model) && AllSkinnable(model, meshes)
    requires p < |Flagged(meshes, true)|
  {
    var i := Flagged(meshes, true)[p];
    SkinOf(model, blenderMode, meshes[i], MeshId(i))
  }

  /** The second loop (lines 739-773): one morph controller per mesh with morph targets, in mesh order. */
  function MorphControllers(meshes: seq<Mesh>): seq<Controller>
  {
    seq(|Flagged(meshes, false)|, p requires 0 <= p < |Flagged(meshes, false)| => NthMorph(meshes, p))
  }

  /** The morph controller of the p-th mesh with morph targets. */
  function NthMorph(meshes: seq<Mesh>, p: nat): Controller
    requires p < |Flagged(meshes, false)|
  {
    var i := Flagged(meshes, false)[p];
    MorphOf(meshes[i], MeshId(i))
  }

  function LibraryControllers(model: Model, blenderMode: bool, meshes: seq<Mesh>): seq<Controller>
    requires BonesResolve(model) && AllSkinnable(model, meshes)
  {
    SkinControllers(model, blenderMode, meshes) + MorphControllers(meshes)
  }

  /** Some mesh has both vertex weights and morph targets (lines 558-561). */
  predicate NeedsBlenderOutput(meshes: seq<Mesh>)
  {
    exists i :: 0 <= i < |meshes| && meshes[i].hasVertexWeights && meshes[i].hasMorphTargets
  }

  lemma {:induction false} FlaggedIncreasing(meshes: seq<Mesh>, skin: bool)
    ensures forall a, b :: 0 <= a < b < |Flagged(meshes, skin)| ==> Flagged(meshes, skin)[a] < Flagged(meshes, skin)[b]
  {
    if |meshes| > 0 {
      FlaggedIncreasing(meshes[..|meshes| - 1], skin);
    }
  }

  lemma {:induction false} FlaggedMembers(meshes: seq<Mesh>, skin: bool)
    ensures forall i: nat :: i in Flagged(meshes, skin) <==> i < |meshes| && HasFlag(meshes[i], skin)
  {
    if |meshes| > 0 {
      var p := meshes[..|meshes| - 1];
      FlaggedMembers(p, skin);
      forall i: nat | i < |p| ensures p[i] == meshes[i] { }
    }
  }

  /** Ids made of different mesh ids and the same suffix differ. */
  lemma MeshIdSuffixInjective(a: int, b: int, suffix: string)
    requires a != b
    ensures MeshId(a) + suffix != MeshId(b) + suffix
  {
    var x, y := MeshId(a) + suffix, MeshId(b) + suffix;
    if x == y {
      assert MeshId(a) == x[..|x| - |suffix|] && MeshId(b) == y[..|y| - |suffix|];
      MeshIdInjective(a, b);
    }
  }

  /** A flagged mesh has its position in the flagged list. */
  lemma {:induction false} FlaggedPosition(meshes: seq<Mesh>, skin: bool, i: nat) returns (q: nat)
    requires i < |meshes| && HasFlag(meshes[i], skin)
    ensures q < |Flagged(meshes, skin)| && Flagged(meshes, skin)[q] == i
  {
    var m := |meshes| - 1;
    var rest := Flagged(meshes[..m], skin);
    if i == m {
      q := |rest|;
    } else {
      q := FlaggedPosition(meshes[..m], skin, i);
      assert Flagged(meshes, skin)[..|rest|] == rest;
    }
  }

  /** A mesh with vertex weights has its skin in the first part of the library. */
  lemma SkinOfMesh(model: Model, blenderMode: bool, meshes: seq<Mesh>, i: nat) returns (p: nat)
    requires BonesResolve(model) && AllSkinnable(model, meshes)
    requires i < |meshes| && meshes[i].hasVertexWeights
    ensures p < |SkinControllers(model, blenderMode, meshes)|
    ensures SkinControllers(model, blenderMode, meshes)[p] == SkinOf(model, blenderMode, meshes[i], MeshId(i))
  {
    p := FlaggedPosition(meshes, true, i);
    assert SkinControllers(model, blenderMode, meshes)[p] == NthSkin(model, blenderMode, meshes, p);
  }

  /** A mesh with morph targets has its morph controller in the second part of the library. */
  lemma MorphOfMesh(meshes: seq<Mesh>, i: nat) returns (p: nat)
    requires i < |meshes| && meshes[i].hasMorphTargets
    ensures p < |MorphControllers(meshes)|
    ensures MorphControllers(meshes)[p] == MorphOf(meshes[i], MeshId(i))
  {
    p := FlaggedPosition(meshes, false, i);
    assert MorphControllers(meshes)[p] == NthMorph(meshes, p);
  }

  /** A mesh with vertex weights has its skin in the library. */
  lemma SkinInLibrary(model: Model, blenderMode: bool, meshes: seq<Mesh>, i: nat) returns (p: nat)
    requires BonesResolve(model) && AllSkinnable(model, meshes)
    requires i < |meshes| && meshes[i].hasVertexWeights
    ensures p < |LibraryControllers(model, blenderMode, meshes)|
    ensures LibraryControllers(model, blenderMode, meshes)[p] == SkinOf(model, blenderMode, meshes[i], MeshId(i))
  {
    p := SkinOfMesh(model, blenderMode, meshes, i);
    ConcatLeft(SkinControllers(model, blenderMode, meshes), MorphControllers(meshes), p);
  }

  /** Entry p of the first part of the controller library is the skin of a
      mesh with vertex weights, and is named `meshId<i>-skin` after it. */
  lemma LibrarySkinId(model: Model, blenderMode: bool, meshes: seq<Mesh>, p: nat) returns (i: nat)
    requires BonesResolve(model) && AllSkinnable(model, meshes)
    requires p < |SkinControllers(model, blenderMode, meshes)|
    ensures i < |meshes| && meshes[i].hasVertexWeights
    ensures p < |LibraryControllers(model, blenderMode, meshes)|
    ensures LibraryControllers(model, blenderMode, meshes)[p].id == MeshId(i) + "-skin"
  {
    i := Flagged(meshes, true)[p];
    SkinIdAt(model, blenderMode, meshes, p);
    ConcatLeft(SkinControllers(model, blenderMode, meshes), MorphControllers(meshes), p);
  }

  /** Entry q of the second part of the controller library, after the
      skins, is the morph controller of a mesh with morph targets, and is
      named `meshId<i>-morph` after it. */
  lemma LibraryMorphId(model: Model, blenderMode: bool, meshes: seq<Mesh>, q: nat) returns (i: nat)
    requires BonesResolve(model) && AllSkinnable(model, meshes)
    requires q < |MorphControllers(meshes)|
    ensures i < |meshes| && meshes[i].hasMorphTargets
    ensures var p := |SkinControllers(model, blenderMode, meshes)| + q;
      p < |LibraryControllers(model, blenderMode, meshes)| &&
      LibraryControllers(model, blenderMode, meshes)[p].id == MeshId(i) + "-morph"
  {
    var skins := SkinControllers(model, blenderMode, meshes);
    i := Flagged(meshes, false)[q];
    MorphIdAt(meshes, q);
    ConcatRight(skins, MorphControllers(meshes), |skins| + q);
  }

  /** The id a mesh's skin carries. */
  lemma SkinIdOf(model: Model, blenderMode: bool, mesh: Mesh, meshId: string)
    requires BonesResolve(model) && Skinnable(model, mesh)
    ensures SkinOf(model, blenderMode, mesh, meshId).id == meshId + "-skin"
  {
  }

  /** The id a mesh's morph controller carries. */
  lemma MorphIdOf(mesh: Mesh, meshId: string)
    ensures MorphOf(mesh, meshId).id == meshId + "-morph"
  {
  }

  /** A mesh with morph targets has its morph controller in the library. */
  lemma MorphInLibrary(model: Model, blenderMode: bool, meshes: seq<Mesh>, i: nat) returns (p: nat)
    requires BonesResolve(model) && AllSkinnable(model, meshes)
    requires i < |meshes| && meshes[i].hasMorphTargets
    ensures p < |LibraryControllers(model, blenderMode, meshes)|
    ensures LibraryControllers(model, blenderMode, meshes)[p] == MorphOf(meshes[i], MeshId(i))
  {
    var skins: seq<Controller> := SkinControllers(model, blenderMode, meshes);
    var q := MorphOfMesh(meshes, i);
    p := |skins| + q;
    ConcatRight(skins, MorphControllers(meshes), p);
  }

  /** Every target a morph controller names is a geometry of the geometry
      library: target k of mesh number i is the geometry of its k-th
      surviving morph target. */
  lemma MorphTargetsInLibrary(meshes: seq<Mesh>, i: nat, k: nat) returns (g: nat)
    requires i < |meshes| && meshes[i].hasMorphTargets
    requires k < |MorphOf(meshes[i], MeshId(i)).targets|
    ensures g < |Geometry.LibraryGeometries(meshes)|
    ensures Geometry.LibraryGeometries(meshes)[g].id == MorphOf(meshes[i], MeshId(i)).targets[k]
    ensures Geometry.LibraryGeometries(meshes)[g].morphTarget == Some(Survivors(meshes[i].morphTargets)[k])
  {
    var targets := meshes[i].morphTargets;
    var j := Survivors(targets)[k];
    SurvivorsMembers(targets);
    assert j in Survivors(targets);
    g := Geometry.MorphGeometryExists(meshes, i, j);
  }

  /** Skin p carries the id of the p-th mesh with vertex weights. */
  lemma SkinIdAt(model: Model, blenderMode: bool, meshes: seq<Mesh>, p: nat)
    requires BonesResolve(model) && AllSkinnable(model, meshes)
    requires p < |SkinControllers(model, blenderMode, meshes)|
    ensures SkinControllers(model, blenderMode, meshes)[p].id == MeshId(Flagged(meshes, true)[p]) + "-skin"
  {
    assert SkinControllers(model, blenderMode, meshes)[p] == NthSkin(model, blenderMode, meshes, p);
  }

  /** Morph controller p carries the id of the p-th mesh with morph targets. */
  lemma MorphIdAt(meshes: seq<Mesh>, p: nat)
    requires p < |MorphControllers(meshes)|
    ensures MorphControllers(meshes)[p].id == MeshId(Flagged(meshes, false)[p]) + "-morph"
  {
    assert MorphControllers(meshes)[p] == NthMorph(meshes, p);
  }

  /** The first loop one mesh further: a mesh with vertex weights appends its skin. */
  lemma SkinControllersStep(model: Model, blenderMode: bool, meshes: seq<Mesh>, i: nat)
    requires BonesResolve(model) && AllSkinnable(model, meshes) && i < |meshes|
    ensures AllSkinnable(model, meshes[..i]) && AllSkinnable(model, meshes[..i + 1])
    ensures SkinControllers(model, blenderMode, meshes[..i + 1]) ==
      SkinControllers(model, blenderMode, meshes[..i]) +
      (if meshes[i].hasVertexWeights then [SkinOf(model, blenderMode, meshes[i], MeshId(i))] else [])
  {
    var pre, next := meshes[..i], meshes[..i + 1];
    assert next[..i] == pre;
    assert forall j :: 0 <= j < i ==> pre[j] == meshes[j];
    assert forall j :: 0 <= j <= i ==> next[j] == meshes[j];
    var fp, fn := Flagged(pre, true), Flagged(next, true);
    var lhs := SkinControllers(model, blenderMode, next);
    var rhs := SkinControllers(model, blenderMode, pre) +
      (if meshes[i].hasVertexWeights then [SkinOf(model, blenderMode, meshes[i], MeshId(i))] else []);
    assert |lhs| == |rhs|;
    forall p | 0 <= p < |lhs|
      ensures lhs[p] == rhs[p]
    {
      assert lhs[p] == NthSkin(model, blenderMode, next, p);
      if p < |fp| {
        assert rhs[p] == NthSkin(model, blenderMode, pre, p);
        assert fn[p] == fp[p];
      }
    }
  }

  /** The second loop one mesh further: a mesh with morph targets appends its morph controller. */
  lemma MorphControllersStep(meshes: seq<Mesh>, i: nat)
    requires i < |meshes|
    ensures MorphControllers(meshes[..i + 1]) ==
      MorphControllers(meshes[..i]) + (if meshes[i].hasMorphTargets then [MorphOf(meshes[i], MeshId(i))] else [])
  {
    var pre, next := meshes[..i], meshes[..i + 1];
    assert next[..i] == pre;
    var fp, fn := Flagged(pre, false), Flagged(next, false);
    var lhs := MorphControllers(next);
    var rhs := MorphControllers(pre) + (if meshes[i].hasMorphTargets then [MorphOf(meshes[i], MeshId(i))] else []);
    assert |lhs| == |rhs|;
    forall p | 0 <= p < |lhs|
      ensures lhs[p] == rhs[p]
    {
      assert lhs[p] == NthMorph(next, p);
      if p < |fp| {
        assert rhs[p] == NthMorph(pre, p);
        assert fn[p] == fp[p];
      }
    }
  }

  /** No two skins share an id. */
  lemma SkinIdsDistinct(model: Model, blenderMode: bool, meshes: seq<Mesh>, a: nat, b: nat)
    requires BonesResolve(model) && AllSkinnable(model, meshes)
    requires a < b < |SkinControllers(model, blenderMode, meshes)|
    ensures SkinControllers(model, blenderMode, meshes)[a].id != SkinControllers(model, blenderMode, meshes)[b].id
  {
    var fs := Flagged(meshes, true);
    SkinIdAt(model, blenderMode, meshes, a);
    SkinIdAt(model, blenderMode, meshes, b);
    FlaggedIncreasing(meshes, true);
    MeshIdSuffixInjective(fs[a], fs[b], "-skin");
  }

  /** No two morph controllers share an id. */
  lemma MorphIdsDistinct(meshes: seq<Mesh>, a: nat, b: nat)
    requires a < b < |MorphControllers(meshes)|
    ensures MorphControllers(meshes)[a].id != MorphControllers(meshes)[b].id
  {
    var fm := Flagged(meshes, false);
    MorphIdAt(meshes, a);
    MorphIdAt(meshes, b);
    FlaggedIncreasing(meshes, false);
    MeshIdSuffixInjective(fm[a], fm[b], "-morph");
  }

  /** No skin shares its id with a morph controller. */
  lemma SkinMorphIdsDistinct(model: Model, blenderMode: bool, meshes: seq<Mesh>, a: nat, b: nat)
    requires BonesResolve(model) && AllSkinnable(model, meshes)
    requires a < |SkinControllers(model, blenderMode, meshes)| && b < |MorphControllers(meshes)|
    ensures SkinControllers(model, blenderMode, meshes)[a].id != MorphControllers(meshes)[b].id
  {
    SkinIdAt(model, blenderMode, meshes, a);
    MorphIdAt(meshes, b);
    SkinMorphIdsDiffer(Flagged(meshes, true)[a], Flagged(meshes, false)[b]);
  }

  lemma ConcatLeft<T>(a: seq<T>, b: seq<T>, p: nat)
    requires p < |a|
    ensures (a + b)[p] == a[p]
  {
  }

  lemma ConcatRight<T>(a: seq<T>, b: seq<T>, p: nat)
    requires |a| <= p < |a| + |b|
    ensures (a + b)[p] == b[p - |a|]
  {
  }

  lemma SkinMorphIdsDiffer(a: int, b: int)
    ensures MeshId(a) + "-skin" != MeshId(b) + "-morph"
  {
    var x, y := MeshId(a) + "-skin", MeshId(b) + "-morph";
    assert x[|x| - 1] == 'n' && y[|y| - 1] == 'h';
  }

  // ---------------------------------------------------------------------
  // A worked skin: two vertices, vertex 0 weighted 0.5 on bone A and 0.5 on
  // bone B, vertex 1 weighted 1.0 on bone B.

  function ExampleModel(): Model
  {
    var a := Node(0, "A", Identity(), Identity(), [], []);
    var b := Node(1, "B", Identity(), Identity(), [], []);
    Model([a, b], Node(2, "root", Identity(), Identity(), [], [a, b]), [0, 1], [])
  }

  function ExampleMesh(): Mesh
  {
    Mesh(0, true, false, 2, [], [], None,
         [VertexWeight([0, 1, 0, 0], [0.5, 0.5, 0.0, 0.0]), VertexWeight([1, 0, 0, 0], [1.0, 0.0, 0.0, 0.0])],
         [], [], "skin")
  }

  /** The fields of a skin that carry its weights, named. */
  lemma SkinFields(model: Model, blenderMode: bool, mesh: Mesh, meshId: string)
    requires BonesResolve(model) && Skinnable(model, mesh)
    ensures var c := SkinOf(model, blenderMode, mesh, meshId);
      var s := Stream(mesh.vertexWeights, model.bones);
      && c.vcount == VCount(mesh.vertexWeights)
      && c.weights == FlatWeights(BoneLists(s))
      && c.v == Interleave(VPairs(BoneLists(s), mesh.vertexCount))
  {
  }

  /** A weight record counts its non-zero slots. */
  lemma FourSlots(w: seq<real>)
    requires |w| == 4
    ensures NonZeroSlots(w) ==
      (if w[0] != 0.0 then 1 else 0) + (if w[1] != 0.0 then 1 else 0) +
      (if w[2] != 0.0 then 1 else 0) + (if w[3] != 0.0 then 1 else 0)
  {
    var w1, w2, w3 := w[..1], w[..2], w[..3];
    assert w1[..0] == [] && w2[..1] == w1 && w3[..2] == w2 && w[..3] == w3;
    assert NonZeroSlots(w1) == (if w[0] != 0.0 then 1 else 0);
    assert NonZeroSlots(w2) == NonZeroSlots(w1) + (if w[1] != 0.0 then 1 else 0);
    assert NonZeroSlots(w3) == NonZeroSlots(w2) + (if w[2] != 0.0 then 1 else 0);
  }

  /** The worked model and mesh meet the loader's guarantees. */
  lemma ExampleSkinnable()
    ensures BonesResolve(ExampleModel()) && Skinnable(ExampleModel(), ExampleMesh())
  {
    var vws := ExampleMesh().vertexWeights;
    assert WellFormedWeight(vws[0], 2) && WellFormedWeight(vws[1], 2);
  }

  /** Vertex 0's slots yield (A, 0.5) and (B, 0.5); vertex 1's yield (B, 1.0). */
  lemma ExampleSlots()
    ensures var vws := ExampleMesh().vertexWeights;
      && WellFormedWeight(vws[0], 2) && WellFormedWeight(vws[1], 2)
      && SlotEntries(0, vws[0], [0, 1], 4) == [Entry(0, 0, 0.5), Entry(0, 1, 0.5)]
      && SlotEntries(1, vws[1], [0, 1], 4) == [Entry(1, 1, 1.0)]
  {
    var vws := ExampleMesh().vertexWeights;
    var w0, w1 := vws[0], vws[1];
    assert WellFormedWeight(w0, 2) && WellFormedWeight(w1, 2);
    assert SlotEntries(0, w0, [0, 1], 1) == [Entry(0, 0, 0.5)];
    assert SlotEntries(0, w0, [0, 1], 2) == [Entry(0, 0, 0.5), Entry(0, 1, 0.5)];
    assert SlotEntries(0, w0, [0, 1], 3) == [Entry(0, 0, 0.5), Entry(0, 1, 0.5)];
    assert SlotEntries(1, w1, [0, 1], 1) == [Entry(1, 1, 1.0)];
  }

  /** The scan meets (vertex 0, A, 0.5), (vertex 0, B, 0.5), (vertex 1, B, 1.0). */
  lemma ExampleStream()
    ensures BonesResolve(ExampleModel()) && Skinnable(ExampleModel(), ExampleMesh())
    ensures Stream(ExampleMesh().vertexWeights, ExampleModel().bones) ==
      [Entry(0, 0, 0.5), Entry(0, 1, 0.5), Entry(1, 1, 1.0)]
  {
    ExampleSkinnable();
    ExampleSlots();
    var vws := ExampleMesh().vertexWeights;
    assert ExampleModel().bones == [0, 1];
    assert vws[..1] == [vws[0]];
    assert Stream(vws[..1], [0, 1]) == [Entry(0, 0, 0.5), Entry(0, 1, 0.5)];
  }

  /** Vertex 0 has two weighted slots, vertex 1 one. */
  lemma ExampleVCount()
    ensures VCount(ExampleMesh().vertexWeights) == [2, 1]
  {
    var vws := ExampleMesh().vertexWeights;
    FourSlots(vws[0].weights);
    FourSlots(vws[1].weights);
  }

  /** Joint A's list holds vertex 0; joint B's holds vertex 0, then vertex 1. */
  lemma ExampleBoneLists()
    ensures var s := [Entry(0, 0, 0.5), Entry(0, 1, 0.5), Entry(1, 1, 1.0)];
      && JointOrder(s) == [0, 1]
      && BoneLists(s) == [[Influence(0, 0.5)], [Influence(0, 0.5), Influence(1, 1.0)]]
  {
    var s := [Entry(0, 0, 0.5), Entry(0, 1, 0.5), Entry(1, 1, 1.0)];
    assert s[..2][..1] == [Entry(0, 0, 0.5)];
    assert JointOrder(s[..2][..1]) == [0];
    assert JointOrder(s[..2]) == [0, 1];
    assert JointOrder(s) == [0, 1];
    assert GroupOf(s[..2], 0) == [Influence(0, 0.5)];
    assert GroupOf(s[..2], 1) == [Influence(0, 0.5)];
    assert GroupOf(s, 0) == [Influence(0, 0.5)];
    assert GroupOf(s, 1) == [Influence(0, 0.5), Influence(1, 1.0)];
  }

  /** The visits go joint A on vertex 0, then joint B on vertices 0 and 1. */
  lemma ExampleVisits()
    ensures var bones := [[Influence(0, 0.5)], [Influence(0, 0.5), Influence(1, 1.0)]];
      && FlatWeights(bones) == [0.5, 0.5, 1.0]
      && Visits(bones) == [Visit(0, 0), Visit(1, 0), Visit(1, 1)]
  {
    var bones := [[Influence(0, 0.5)], [Influence(0, 0.5), Influence(1, 1.0)]];
    assert bones[..1] == [[Influence(0, 0.5)]];
    assert FlatWeights(bones[..1]) == [0.5];
    assert Visits(bones[..1]) == [Visit(0, 0)];
  }

  /** Vertex 0's block holds (A, 0) and (B, 1), vertex 1's holds (B, 2). */
  lemma ExampleBlocks()
    ensures var bones := [[Influence(0, 0.5)], [Influence(0, 0.5), Influence(1, 1.0)]];
      Blocks(bones, 2) == [[Pair(0, 0), Pair(1, 1)], [Pair(1, 2)]]
  {
    var bones := [[Influence(0, 0.5)], [Influence(0, 0.5), Influence(1, 1.0)]];
    ExampleVisits();
    var vs := Visits(bones);
    assert vs[..2][..1] == [Visit(0, 0)];
    assert Block(vs[..2], 0) == [Pair(0, 0), Pair(1, 1)];
    assert Block(vs, 0) == [Pair(0, 0), Pair(1, 1)];
    assert Block(vs[..2], 1) == [];
    assert Block(vs, 1) == [Pair(1, 2)];
  }

  /** The remapper lays out vertex 0's pairs (A, 0), (B, 1), then vertex 1's (B, 2). */
  lemma ExamplePairs()
    ensures var bones := [[Influence(0, 0.5)], [Influence(0, 0.5), Influence(1, 1.0)]];
      VPairs(bones, 2) == [Pair(0, 0), Pair(1, 1), Pair(1, 2)]
  {
    ExampleBlocks();
    var blocks := [[Pair(0, 0), Pair(1, 1)], [Pair(1, 2)]];
    assert blocks[..1] == [[Pair(0, 0), Pair(1, 1)]];
    assert Concat(blocks[..1]) == [Pair(0, 0), Pair(1, 1)];
  }

  /** Those pairs written out. */
  lemma ExampleInterleave()
    ensures Interleave([Pair(0, 0), Pair(1, 1), Pair(1, 2)]) == [0, 0, 1, 1, 1, 2]
  {
    var iv := Interleave([Pair(0, 0), Pair(1, 1), Pair(1, 2)]);
    assert iv[0] == 0 && iv[1] == 0 && iv[2] == 1 && iv[3] == 1 && iv[4] == 1 && iv[5] == 2;
  }

  /** The skin of the worked mesh: joints A and B, `vcount` "2 1", weights
      0.5 0.5 1.0 in joint order, and `v` "0 0 1 1 1 2". */
  lemma WorkedSkinExample()
    ensures BonesResolve(ExampleModel()) && Skinnable(ExampleModel(), ExampleMesh())
    ensures var c := SkinOf(ExampleModel(), false, ExampleMesh(), "meshId0");
      && c.joints == ["A", "B"]
      && c.vcount == [2, 1]
      && c.weights == [0.5, 0.5, 1.0]
      && c.v == [0, 0, 1, 1, 1, 2]
  {
    ExampleJoints();
    ExampleWeightFields();
  }

  /** The joints: the names of the bones' nodes, in first-encounter order. */
  lemma ExampleJoints()
    ensures BonesResolve(ExampleModel()) && Skinnable(ExampleModel(), ExampleMesh())
    ensures SkinOf(ExampleModel(), false, ExampleMesh(), "meshId0").joints == ["A", "B"]
  {
    ExampleStream();
    ExampleBoneLists();
    assert NodeNames(ExampleModel().nodes, [0, 1]) == ["A", "B"];
  }

  /** The weight fields: one count per vertex, the weights joint by joint,
      and the (joint, weight) pairs vertex by vertex. */
  lemma ExampleWeightFields()
    ensures BonesResolve(ExampleModel()) && Skinnable(ExampleModel(), ExampleMesh())
    ensures var c := SkinOf(ExampleModel(), false, ExampleMesh(), "meshId0");
      c.vcount == [2, 1] && c.weights == [0.5, 0.5, 1.0] && c.v == [0, 0, 1, 1, 1, 2]
  {
    ExampleStream();
    ExampleVCount();
    ExampleBoneLists();
    ExampleVisits();
    ExamplePairs();
    ExampleInterleave();
    SkinFields(ExampleModel(), false, ExampleMesh(), "meshId0");
  }
}
