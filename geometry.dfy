/** The geometry library: the converter's mesh list (every node's meshes, node
    by node), one base geometry per mesh and one geometry per surviving morph
    target, each with its polygon list and source accessors. */
module Geometry {
  import opened Scene
  import opened Ids
  import opened Morph
  import SkinRemap

  /** `this.meshes`: the meshes of `Model.Nodes`, node by node, each node's in
      attachment order. A mesh's position in this list is its number. */
  function AllMeshes(nodes: seq<Node>): seq<Mesh>
  {
    if |nodes| == 0 then [] else AllMeshes(nodes[..|nodes| - 1]) + MeshesOf(nodes[|nodes| - 1].attachments)
  }

  /** Builds the mesh list with `AddRange`, node by node. */
  method CollectMeshes(nodes: seq<Node>) returns (meshes: seq<Mesh>)
    ensures meshes == AllMeshes(nodes)
  {
    meshes := [];
    for i := 0 to |nodes|
      invariant meshes == AllMeshes(nodes[..i])
    {
      assert nodes[..i + 1][..i] == nodes[..i];
      meshes := meshes + MeshesOf(nodes[i].attachments);
    }
    assert nodes[..|nodes|] == nodes;
  }

  /** Every mesh of the list sits on some node of `Model.Nodes`, so the
      converter's `Nodes.First(x => x.Meshes.Contains(mesh))` always finds one,
      and every mesh a node carries is in the list. */
  lemma {:induction false} AllMeshesMembers(nodes: seq<Node>, m: Mesh)
    ensures m in AllMeshes(nodes) <==> exists k :: 0 <= k < |nodes| && m in MeshesOf(nodes[k].attachments)
  {
    if |nodes| > 0 {
      var p := nodes[..|nodes| - 1];
      AllMeshesMembers(p, m);
      if m in AllMeshes(p) {
        var k :| 0 <= k < |p| && m in MeshesOf(p[k].attachments);
        assert nodes[k] == p[k];
      }
      if exists k :: 0 <= k < |nodes| && m in MeshesOf(nodes[k].attachments) {
        var k :| 0 <= k < |nodes| && m in MeshesOf(nodes[k].attachments);
        if k < |p| {
          assert p[k] == nodes[k];
        }
      }
    }
  }

  /** A float source's accessor: how many values, read with what stride, and
      the element count `values.Count() / stride`. */
  datatype Accessor = Accessor(valueCount: nat, stride: nat, count: nat)

  function AccessorOf(valueCount: nat, stride: nat): Accessor
    requires stride > 0
  {
    Accessor(valueCount, stride, valueCount / stride)
  }

  /** `Triangles.Select(x => {A, B, C}).SelectMany(...)`: every triangle's
      corners, in order. */
  function FlattenTriangles(ts: seq<Triangle>): (p: seq<nat>)
    ensures |p| == 3 * |ts|
  {
    if |ts| == 0 then [] else FlattenTriangles(ts[..|ts| - 1]) + [ts[|ts| - 1].a, ts[|ts| - 1].b, ts[|ts| - 1].c]
  }

  /** `Enumerable.Repeat(n, count)`. */
  function Repeat<T>(x: T, count: nat): (r: seq<T>)
    ensures |r| == count && forall i :: 0 <= i < count ==> r[i] == x
  {
    seq(count, _ => x)
  }

  /** A geometry: its id, the morph target whose offsets are added to the
      positions (none for the base geometry), its accessors (positions and
      normals of stride 3, texture coordinates of stride 2 when the mesh has
      them) and its polygon list. */
  datatype GeometryEntry = GeometryEntry(
    id: string,
    morphTarget: Option<nat>,
    positions: Accessor,
    normals: Accessor,
    tex0: Option<Accessor>,
    polylistCount: nat,
    vcount: seq<nat>,
    p: seq<nat>)

  /** `CreateGeometryXmlElement`. The polygon count is the mesh's triangle count. */
  function CreateGeometry(mesh: Mesh, morphTarget: Option<nat>, id: string): GeometryEntry
  {
    GeometryEntry(
      id, morphTarget,
      AccessorOf(3 * |mesh.vertices|, 3),
      AccessorOf(3 * |mesh.normals|, 3),
      if mesh.texCoords.Some? then Some(AccessorOf(2 * |mesh.texCoords.value|, 2)) else None,
      |mesh.triangles|,
      Repeat<nat>(3, |mesh.triangles|),
      FlattenTriangles(mesh.triangles))
  }

  /** The geometries of the morph targets with the given indices. */
  function MorphGeometries(mesh: Mesh, meshId: string, indices: seq<nat>): (r: seq<GeometryEntry>)
    ensures |r| == |indices|
  {
    if |indices| == 0 then []
    else
      var j := indices[|indices| - 1];
      MorphGeometries(mesh, meshId, indices[..|indices| - 1]) + [CreateGeometry(mesh, Some(j), MorphTargetId(meshId, j))]
  }

  /** The geometries of mesh number i: its base geometry, then one per
      surviving morph target when the mesh is flagged as having morph targets. */
  function MeshGeometries(mesh: Mesh, i: nat): seq<GeometryEntry>
  {
    [CreateGeometry(mesh, None, MeshId(i))] +
    (if mesh.hasMorphTargets then MorphGeometries(mesh, MeshId(i), Survivors(mesh.morphTargets)) else [])
  }

  /** The ids of a run of geometries, in order. */
  function GeometryIds(gs: seq<GeometryEntry>): (r: seq<string>)
    ensures |r| == |gs| && forall k :: 0 <= k < |gs| ==> r[k] == gs[k].id
  {
    seq(|gs|, k requires 0 <= k < |gs| => gs[k].id)
  }

  function LibraryGeometries(meshes: seq<Mesh>): seq<GeometryEntry>
  {
    if |meshes| == 0 then []
    else LibraryGeometries(meshes[..|meshes| - 1]) + MeshGeometries(meshes[|meshes| - 1], |meshes| - 1)
  }

  lemma MorphGeometriesAppend(mesh: Mesh, meshId: string, indices: seq<nat>, j: nat)
    ensures MorphGeometries(mesh, meshId, indices + [j]) ==
      MorphGeometries(mesh, meshId, indices) + [CreateGeometry(mesh, Some(j), MorphTargetId(meshId, j))]
  {
    assert (indices + [j])[..|indices|] == indices;
  }

  /** Geometry k of the morph geometries is that of the k-th index. */
  lemma {:induction false} MorphGeometriesAt(mesh: Mesh, meshId: string, indices: seq<nat>, k: nat)
    requires k < |indices|
    ensures MorphGeometries(mesh, meshId, indices)[k] == CreateGeometry(mesh, Some(indices[k]), MorphTargetId(meshId, indices[k]))
  {
    if k < |indices| - 1 {
      MorphGeometriesAt(mesh, meshId, indices[..|indices| - 1], k);
    }
  }

  /** The morph-target loop of one mesh: one geometry per target, all-zero
      targets skipped. */
  method AppendMorphGeometries(geometries: seq<GeometryEntry>, mesh: Mesh, meshId: string)
    returns (r: seq<GeometryEntry>)
    ensures r == geometries + MorphGeometries(mesh, meshId, Survivors(mesh.morphTargets))
  {
    r := geometries;
    var targets := mesh.morphTargets;
    assert Survivors(targets[..0]) == [];
    AppendNothing(geometries);
    for j := 0 to |targets|
      invariant r == geometries + MorphGeometries(mesh, meshId, Survivors(targets[..j]))
    {
      MorphLoopStep(geometries, mesh, meshId, j);
      if IsDegenerate(targets[j]) {
        continue;
      }
      var target: Option<nat> := Some(j);
      r := r + [CreateGeometry(mesh, target, MorphTargetId(meshId, j))];
    }
    assert targets[..|targets|] == targets;
  }

  /** One turn of the morph-target loop, after the geometries already listed. */
  lemma MorphLoopStep(geometries: seq<GeometryEntry>, mesh: Mesh, meshId: string, j: nat)
    requires j < |mesh.morphTargets|
    ensures var ts := mesh.morphTargets;
      geometries + MorphGeometries(mesh, meshId, Survivors(ts[..j + 1])) ==
        var before := geometries + MorphGeometries(mesh, meshId, Survivors(ts[..j]));
        if IsDegenerate(ts[j]) then before
        else before + [CreateGeometry(mesh, Some(j), MorphTargetId(meshId, j))]
  {
    var ts := mesh.morphTargets;
    SurvivorsStep(ts, j);
    if !IsDegenerate(ts[j]) {
      var before := MorphGeometries(mesh, meshId, Survivors(ts[..j]));
      var g := CreateGeometry(mesh, Some(j), MorphTargetId(meshId, j));
      MorphGeometriesAppend(mesh, meshId, Survivors(ts[..j]), j);
      AppendAssoc(geometries, before, [g]);
    }
  }

  lemma AppendNothing<T>(a: seq<T>)
    ensures a + [] == a
  {
  }

  lemma AppendAssoc<T>(a: seq<T>, b: seq<T>, c: seq<T>)
    ensures (a + b) + c == a + (b + c)
  {
  }

  /** The geometries of one mesh: the base geometry, then its morph targets
      when the mesh is flagged as having them. */
  method AppendMeshGeometries(geometries: seq<GeometryEntry>, mesh: Mesh, i: nat)
    returns (r: seq<GeometryEntry>)
    ensures r == geometries + MeshGeometries(mesh, i)
  {
    var meshId := MeshId(i);
    r := geometries + [CreateGeometry(mesh, None, meshId)];
    if mesh.hasMorphTargets {
      r := AppendMorphGeometries(r, mesh, meshId);
    }
  }

  /** `CreateLibraryGeometriesXmlElement` after the mesh list is built. */
  method CreateLibraryGeometries(meshes: seq<Mesh>) returns (geometries: seq<GeometryEntry>)
    ensures geometries == LibraryGeometries(meshes)
  {
    geometries := [];
    for i := 0 to |meshes|
      invariant geometries == LibraryGeometries(meshes[..i])
    {
      assert meshes[..i + 1][..i] == meshes[..i];
      geometries := AppendMeshGeometries(geometries, meshes[i], i);
    }
    assert meshes[..|meshes|] == meshes;
  }

  // ---------------------------------------------------------------------
  // Properties.

  lemma {:induction false} SumRepeatThree(n: nat)
    ensures SkinRemap.Sum(Repeat<nat>(3, n)) == 3 * n
  {
    if n > 0 {
      var r := Repeat<nat>(3, n);
      assert r[..n - 1] == Repeat<nat>(3, n - 1);
      assert SkinRemap.Sum(r) == SkinRemap.Sum(r[..n - 1]) + r[n - 1];
      SumRepeatThree(n - 1);
      assert SkinRemap.Sum(r) == 3 * n;
    }
  }

  /** The polygon list is consistent: one `3` per triangle, as many indices
      as the vcount entries add up to, and index 3t+c is corner c of triangle t. */
  lemma {:induction false} PolylistConsistent(ts: seq<Triangle>)
    ensures SkinRemap.Sum(Repeat<nat>(3, |ts|)) == |FlattenTriangles(ts)|
    ensures forall t :: 0 <= t < |ts| ==>
      FlattenTriangles(ts)[3 * t] == ts[t].a && FlattenTriangles(ts)[3 * t + 1] == ts[t].b &&
      FlattenTriangles(ts)[3 * t + 2] == ts[t].c
  {
    if |ts| > 0 {
      var p := ts[..|ts| - 1];
      PolylistConsistent(p);
      SumRepeatThree(|ts|);
      forall t | 0 <= t < |ts| ensures
        FlattenTriangles(ts)[3 * t] == ts[t].a && FlattenTriangles(ts)[3 * t + 1] == ts[t].b &&
        FlattenTriangles(ts)[3 * t + 2] == ts[t].c
      {
        if t < |p| {
          assert ts[t] == p[t];
        }
      }
    }
  }

  /** Accessor counts are element counts: positions and normals count
      vectors, texture coordinates count coordinate pairs. */
  lemma AccessorCountsElements(mesh: Mesh, morphTarget: Option<nat>, id: string)
    ensures var g := CreateGeometry(mesh, morphTarget, id);
      && g.positions.count == |mesh.vertices|
      && g.normals.count == |mesh.normals|
      && (g.tex0.Some? <==> mesh.texCoords.Some?)
      && (g.tex0.Some? ==> g.tex0.value.count == |mesh.texCoords.value|)
  {
  }

  /** The geometries of the first i meshes open the library. */
  lemma {:induction false} LibraryPrefix(meshes: seq<Mesh>, i: nat)
    requires i <= |meshes|
    ensures LibraryGeometries(meshes[..i]) <= LibraryGeometries(meshes)
  {
    if i < |meshes| {
      var p := meshes[..|meshes| - 1];
      assert meshes[..i] == p[..i];
      LibraryPrefix(p, i);
    } else {
      assert meshes[..i] == meshes;
    }
  }

  /** The library opens with the geometries of the meshes before number i,
      followed by those of mesh number i. */
  lemma MeshGeometriesAt(meshes: seq<Mesh>, i: nat)
    requires i < |meshes|
    ensures LibraryGeometries(meshes[..i]) + MeshGeometries(meshes[i], i) <= LibraryGeometries(meshes)
  {
    LibraryPrefix(meshes, i + 1);
    LibraryStep(meshes, i);
  }

  lemma LibraryStep(meshes: seq<Mesh>, i: nat)
    requires i < |meshes|
    ensures LibraryGeometries(meshes[..i + 1]) == LibraryGeometries(meshes[..i]) + MeshGeometries(meshes[i], i)
  {
    assert meshes[..i + 1][..i] == meshes[..i];
  }

  /** Every geometry an instance refers to exists: mesh number i has a base
      geometry with id `meshId<i>` in the library. */
  lemma BaseGeometryExists(meshes: seq<Mesh>, i: nat) returns (g: nat)
    requires i < |meshes|
    ensures g < |LibraryGeometries(meshes)|
    ensures LibraryGeometries(meshes)[g] == CreateGeometry(meshes[i], None, MeshId(i))
  {
    MeshGeometriesAt(meshes, i);
    var front := LibraryGeometries(meshes[..i]);
    g := |front|;
    assert (front + MeshGeometries(meshes[i], i))[g] == LibraryGeometries(meshes)[g];
  }

  /** Every morph target a morph controller names exists as a geometry: when
      mesh number i is flagged as having morph targets, each of its targets
      that is not all-zero has a geometry with id `meshId<i>_morphId<j>`. */
  lemma MorphGeometryExists(meshes: seq<Mesh>, i: nat, j: nat) returns (g: nat)
    requires i < |meshes| && meshes[i].hasMorphTargets
    requires j < |meshes[i].morphTargets| && !IsDegenerate(meshes[i].morphTargets[j])
    ensures g < |LibraryGeometries(meshes)|
    ensures LibraryGeometries(meshes)[g] == CreateGeometry(meshes[i], Some(j), MorphTargetId(MeshId(i), j))
  {
    MeshGeometriesAt(meshes, i);
    var front := LibraryGeometries(meshes[..i]);
    var m := meshes[i];
    SurvivorsMembers(m.morphTargets);
    var s := Survivors(m.morphTargets);
    var k :| 0 <= k < |s| && s[k] == j;
    var own := MeshGeometries(m, i);
    MorphGeometriesAt(m, MeshId(i), s, k);
    assert own[1 + k] == CreateGeometry(m, Some(j), MorphTargetId(MeshId(i), j));
    g := |front| + 1 + k;
    assert (front + own)[g] == LibraryGeometries(meshes)[g];
  }
}
