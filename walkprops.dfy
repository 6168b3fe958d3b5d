/** Properties of the visual-scene walk: where instances point, what
    relocation produces, which nodes the walk keeps, and when the first pass
    raises the "Blender output is necessary" flag. */
module SceneWalkProperties {
  import opened Scene
  import opened Matrices
  import opened Ids
  import opened Geometry
  import opened SkinRemap
  import opened Controllers
  import opened SceneWalk

  // ---------------------------------------------------------------------
  // Instances resolve.

  /** A controller instance of a listed mesh is produced exactly when the mesh
      has vertex weights or morph targets, and its url names a controller of
      the library: the mesh's skin when it has vertex weights (the skin wins
      when it has both), else its morph controller. Only a skin instance
      names the skeleton root. */
  lemma ControllerInstanceResolves(model: Model, blenderMode: bool, meshes: seq<Mesh>, mesh: Mesh) returns (p: nat)
    requires BonesResolve(model) && AllSkinnable(model, meshes)
    requires mesh in meshes
    ensures InstanceControllerOf(meshes, mesh).Ok? <==> mesh.hasVertexWeights || mesh.hasMorphTargets
    ensures InstanceControllerOf(meshes, mesh).Ok? ==>
      && p < |LibraryControllers(model, blenderMode, meshes)|
      && InstanceControllerOf(meshes, mesh).value.url == "#" + LibraryControllers(model, blenderMode, meshes)[p].id
      && (InstanceControllerOf(meshes, mesh).value.skeleton.Some? <==> mesh.hasVertexWeights)
    ensures mesh.hasVertexWeights ==>
      LibraryControllers(model, blenderMode, meshes)[p] == SkinOf(model, blenderMode, mesh, MeshId(IndexOf(meshes, mesh)))
    ensures !mesh.hasVertexWeights && mesh.hasMorphTargets ==>
      LibraryControllers(model, blenderMode, meshes)[p] == MorphOf(mesh, MeshId(IndexOf(meshes, mesh)))
  {
    if mesh.hasVertexWeights {
      p := SkinInstanceResolves(model, blenderMode, meshes, mesh);
    } else if mesh.hasMorphTargets {
      p := MorphInstanceResolves(model, blenderMode, meshes, mesh);
    } else {
      p := 0;
    }
  }

  lemma SkinInstanceResolves(model: Model, blenderMode: bool, meshes: seq<Mesh>, mesh: Mesh) returns (p: nat)
    requires BonesResolve(model) && AllSkinnable(model, meshes)
    requires mesh in meshes && mesh.hasVertexWeights
    ensures p < |LibraryControllers(model, blenderMode, meshes)|
    ensures InstanceControllerOf(meshes, mesh).Ok?
    ensures InstanceControllerOf(meshes, mesh).value.url == "#" + LibraryControllers(model, blenderMode, meshes)[p].id
    ensures LibraryControllers(model, blenderMode, meshes)[p] == SkinOf(model, blenderMode, mesh, MeshId(IndexOf(meshes, mesh)))
  {
    var i := IndexOf(meshes, mesh);
    p := SkinInLibrary(model, blenderMode, meshes, i);
    SkinIdOf(model, blenderMode, mesh, MeshId(i));
  }

  lemma MorphInstanceResolves(model: Model, blenderMode: bool, meshes: seq<Mesh>, mesh: Mesh) returns (p: nat)
    requires BonesResolve(model) && AllSkinnable(model, meshes)
    requires mesh in meshes && !mesh.hasVertexWeights && mesh.hasMorphTargets
    ensures p < |LibraryControllers(model, blenderMode, meshes)|
    ensures InstanceControllerOf(meshes, mesh).Ok?
    ensures InstanceControllerOf(meshes, mesh).value.url == "#" + LibraryControllers(model, blenderMode, meshes)[p].id
    ensures LibraryControllers(model, blenderMode, meshes)[p] == MorphOf(mesh, MeshId(IndexOf(meshes, mesh)))
  {
    var i := IndexOf(meshes, mesh);
    p := MorphInLibrary(model, blenderMode, meshes, i);
    MorphIdOf(mesh, MeshId(i));
  }

  /** A geometry instance of a listed mesh names the mesh's base geometry in
      the geometry library. */
  lemma GeometryInstanceResolves(meshes: seq<Mesh>, mesh: Mesh) returns (g: nat)
    requires mesh in meshes
    ensures g < |LibraryGeometries(meshes)|
    ensures InstanceGeometryOf(meshes, mesh).url == "#" + LibraryGeometries(meshes)[g].id
    ensures LibraryGeometries(meshes)[g] == CreateGeometry(mesh, None, MeshId(IndexOf(meshes, mesh)))
  {
    g := BaseGeometryExists(meshes, IndexOf(meshes, mesh));
  }

  // ---------------------------------------------------------------------
  // Relocation.

  /** Relocation refuses exactly a mesh with vertex weights, a mesh with
      morph targets, and a mesh missing from the list, checked in that order;
      otherwise it appends one controller and one root node and keeps the
      flag. */
  lemma RelocateOutcome(ctx: Context, st: WalkState, mesh: Mesh, parent: Node, node: Node)
    ensures Relocate(ctx, st, mesh, parent, node).Err? <==>
      mesh.hasVertexWeights || mesh.hasMorphTargets || mesh !in ctx.meshes
    ensures mesh.hasVertexWeights ==> Relocate(ctx, st, mesh, parent, node) == Err(JointMeshHasVertexWeights)
    ensures !mesh.hasVertexWeights && mesh.hasMorphTargets ==>
      Relocate(ctx, st, mesh, parent, node) == Err(JointMeshHasMorphTargets)
    ensures Relocate(ctx, st, mesh, parent, node).Ok? ==>
      var st' := Relocate(ctx, st, mesh, parent, node).value;
      var i := LastIndexOf(ctx.meshes, mesh);
      && 0 <= i && ctx.meshes[i] == mesh
      && st'.blenderOutputNecessary == st.blenderOutputNecessary
      && st'.controllers == st.controllers + [RelocatedSkin(mesh, MeshId(i), parent, node)]
      && st'.scene == st.scene + [RelocatedNode(mesh, MeshId(i), node)]
  {
  }

  lemma {:induction false} SumOfOnes(n: nat)
    ensures Sum(Repeat<nat>(1, n)) == n
  {
    if n > 0 {
      assert Repeat<nat>(1, n)[..n - 1] == Repeat<nat>(1, n - 1);
      SumOfOnes(n - 1);
    }
  }

  /** The relocated skin satisfies the shape every skin of the library has:
      one count per vertex summing to the weights, one (joint, weight) pair
      per weight, every pair in range and no weight used twice. Its one joint
      is the parent, every weight is 1, and its source is the mesh's base
      geometry, which the geometry library holds. */
  lemma RelocatedSkinWellFormed(meshes: seq<Mesh>, i: nat, parent: Node, node: Node) returns (g: nat)
    requires i < |meshes|
    ensures var c := RelocatedSkin(meshes[i], MeshId(i), parent, node);
      && c.joints == [parent.name] && c.bindPoseNodes == [node.index]
      && |c.vcount| == c.vertexCount == meshes[i].vertexCount
      && Sum(c.vcount) == |c.weights|
      && |c.v| == 2 * |c.weights|
      && (forall k :: 0 <= k < |c.v| / 2 ==> 0 <= c.v[2 * k] < |c.joints| && 0 <= c.v[2 * k + 1] < |c.weights|)
      && (forall a, b :: 0 <= a < b < |c.v| / 2 ==> c.v[2 * a + 1] != c.v[2 * b + 1])
      && (forall k :: 0 <= k < |c.weights| ==> c.weights[k] == 1.0)
      && (forall k :: 0 <= k < |c.vcount| ==> c.vcount[k] == 1)
      && |c.weights| == meshes[i].vertexCount
      && (forall k :: 0 <= k < meshes[i].vertexCount ==> c.v[2 * k] == 0 && c.v[2 * k + 1] == k)
    ensures g < |LibraryGeometries(meshes)|
    ensures RelocatedSkin(meshes[i], MeshId(i), parent, node).source == "#" + LibraryGeometries(meshes)[g].id
  {
    SumOfOnes(meshes[i].vertexCount);
    g := BaseGeometryExists(meshes, i);
  }

  // ---------------------------------------------------------------------
  // The attachment loop.

  predicate HasMesh(node: Node)
  {
    exists i :: 0 <= i < |node.attachments| && node.attachments[i].MeshAttachment?
  }

  /** The mesh instance of the standard pass. */
  function InstanceOf(meshes: seq<Mesh>, mesh: Mesh): Instance
  {
    if mesh.hasMorphTargets || mesh.hasVertexWeights then InstanceControllerOf(meshes, mesh).value
    else InstanceGeometryOf(meshes, mesh)
  }

  function InstancesOf(meshes: seq<Mesh>, ms: seq<Mesh>): (r: seq<Instance>)
    ensures |r| == |ms|
  {
    seq(|ms|, j requires 0 <= j < |ms| => InstanceOf(meshes, ms[j]))
  }

  /** In the standard pass the attachment loop never fails and never skips:
      the node gets one instance per mesh attachment, in order, nothing is
      relocated, and the flag is raised exactly when the parent is a joint
      and one of these attachments is a mesh. */
  lemma {:induction false} StandardAttachments(ctx: Context, st: WalkState, parentIsJoint: bool, parent: Node, node: Node, k: nat)
    requires !ctx.blenderMode && k <= |node.attachments|
    ensures var r := Attachments(ctx, st, parentIsJoint, parent, node, k);
      && r.Ok?
      && r.value.0.controllers == st.controllers && r.value.0.scene == st.scene
      && !r.value.2
      && r.value.1 == InstancesOf(ctx.meshes, MeshesOf(node.attachments[..k]))
      && (r.value.0.blenderOutputNecessary <==>
            st.blenderOutputNecessary || (parentIsJoint && exists i :: 0 <= i < k && node.attachments[i].MeshAttachment?))
  {
    if k > 0 {
      StandardAttachments(ctx, st, parentIsJoint, parent, node, k - 1);
      InstancesStep(ctx.meshes, node.attachments, k);
      var before := Attachments(ctx, st, parentIsJoint, parent, node, k - 1).value;
      var a := node.attachments[k - 1];
      assert Attachments(ctx, st, parentIsJoint, parent, node, k) ==
        AttachmentStep(ctx, before.0, parentIsJoint, parent, node, a, before.1, before.2);
      StandardStep(ctx, before.0, parentIsJoint, parent, node, a, before.1);
      MeshAmong(node.attachments, k);
    }
  }

  /** A mesh among the first k attachments is one among the first k - 1 or the k-th. */
  lemma MeshAmong(atts: seq<Attachment>, k: nat)
    requires 0 < k <= |atts|
    ensures (exists i :: 0 <= i < k && atts[i].MeshAttachment?) <==>
      (exists i :: 0 <= i < k - 1 && atts[i].MeshAttachment?) || atts[k - 1].MeshAttachment?
  {
  }

  /** One turn of the attachment loop in the standard pass. */
  lemma StandardStep(ctx: Context, st: WalkState, parentIsJoint: bool, parent: Node, node: Node,
                     a: Attachment, instances: seq<Instance>)
    requires !ctx.blenderMode
    ensures AttachmentStep(ctx, st, parentIsJoint, parent, node, a, instances, false) ==
      Ok((if a.MeshAttachment? && parentIsJoint then st.(blenderOutputNecessary := true) else st,
          instances + (if a.MeshAttachment? then [InstanceOf(ctx.meshes, a.mesh)] else []),
          false))
  {
    if !a.MeshAttachment? {
      assert instances + [] == instances;
    }
  }

  /** One more attachment adds the instance of its mesh, if it is one. */
  lemma InstancesStep(meshes: seq<Mesh>, atts: seq<Attachment>, k: nat)
    requires 0 < k <= |atts|
    ensures InstancesOf(meshes, MeshesOf(atts[..k])) ==
      InstancesOf(meshes, MeshesOf(atts[..k - 1])) + (if atts[k - 1].MeshAttachment? then [InstanceOf(meshes, atts[k - 1].mesh)] else [])
  {
    var prefix := atts[..k];
    assert prefix[..k - 1] == atts[..k - 1];
    var ms := MeshesOf(atts[..k - 1]);
    if atts[k - 1].MeshAttachment? {
      assert MeshesOf(prefix) == ms + [atts[k - 1].mesh];
      assert InstancesOf(meshes, ms + [atts[k - 1].mesh]) == InstancesOf(meshes, ms) + [InstanceOf(meshes, atts[k - 1].mesh)];
    } else {
      assert MeshesOf(prefix) == ms;
    }
  }

  /** In either pass, a node is skipped exactly when the pass is the Blender
      one, its parent is a joint and it carries a mesh. */
  lemma {:induction false} AttachmentsSkip(ctx: Context, st: WalkState, parentIsJoint: bool, parent: Node, node: Node, k: nat)
    requires k <= |node.attachments|
    ensures var r := Attachments(ctx, st, parentIsJoint, parent, node, k);
      r.Ok? ==> (r.value.2 <==> ctx.blenderMode && parentIsJoint && exists i :: 0 <= i < k && node.attachments[i].MeshAttachment?)
  {
    if k > 0 {
      AttachmentsSkip(ctx, st, parentIsJoint, parent, node, k - 1);
    }
  }

  /** An exception ends the attachment loop: later attachments change nothing. */
  lemma {:induction false} AttachmentsErrStays(ctx: Context, st: WalkState, parentIsJoint: bool, parent: Node, node: Node, k: nat, j: nat)
    requires k <= j <= |node.attachments|
    requires Attachments(ctx, st, parentIsJoint, parent, node, k).Err?
    ensures Attachments(ctx, st, parentIsJoint, parent, node, j) == Attachments(ctx, st, parentIsJoint, parent, node, k)
    decreases j
  {
    if k < j {
      AttachmentsErrStays(ctx, st, parentIsJoint, parent, node, k, j - 1);
    }
  }

  // ---------------------------------------------------------------------
  // The walk.

  /** Some kept node among the first k children of `parent` (or below them)
      carries a mesh while its parent is a joint. */
  predicate MeshUnderJoint(model: Model, parent: Node, k: nat)
    requires k <= |parent.children|
    decreases parent, k
  {
    && k > 0
    && (|| MeshUnderJoint(model, parent, k - 1)
        || (IsJoint(model, parent) && HasMesh(parent.children[k - 1]))
        || MeshUnderJoint(model, parent.children[k - 1], |parent.children[k - 1].children|))
  }

  /** The standard pass never fails, keeps exactly the nodes that are not
      pruned, leaves the controller library as it was, and raises the flag
      exactly when some mesh hangs directly below a joint. */
  lemma {:induction false} StandardWalkChildren(ctx: Context, st: WalkState, toRoot: bool, parent: Node, k: nat)
    requires !ctx.blenderMode && k <= |parent.children|
    ensures var r := WalkChildren(ctx, st, toRoot, parent, k);
      && r.Ok?
      && r.value.0.controllers == st.controllers
      && (r.value.0.blenderOutputNecessary <==> st.blenderOutputNecessary || MeshUnderJoint(ctx.model, parent, k))
    decreases parent, 1, k
  {
    if k > 0 {
      StandardWalkChildren(ctx, st, toRoot, parent, k - 1);
      var st1 := WalkChildren(ctx, st, toRoot, parent, k - 1).value.0;
      StandardWalkNode(ctx, st1, IsJoint(ctx.model, parent), parent, parent.children[k - 1]);
    }
  }

  lemma {:induction false} StandardWalkNode(ctx: Context, st: WalkState, parentIsJoint: bool, parent: Node, node: Node)
    requires !ctx.blenderMode
    ensures var r := WalkNode(ctx, st, parentIsJoint, parent, node);
      && r.Ok?
      && (r.value.1.Some? <==> !Pruned(ctx, node))
      && (r.value.1.Some? ==> r.value.1.value.instances == InstancesOf(ctx.meshes, MeshesOf(node.attachments)))
      && r.value.0.controllers == st.controllers
      && (r.value.0.blenderOutputNecessary <==>
            || st.blenderOutputNecessary
            || (parentIsJoint && HasMesh(node))
            || MeshUnderJoint(ctx.model, node, |node.children|))
    decreases node, 2, 0
  {
    if !Pruned(ctx, node) {
      var n := |node.attachments|;
      StandardAttachments(ctx, st, parentIsJoint, parent, node, n);
      assert node.attachments[..n] == node.attachments;
      var st1 := Attachments(ctx, st, parentIsJoint, parent, node, n).value.0;
      StandardWalkChildren(ctx, st1, false, node, |node.children|);
    }
  }

  /** An exception ends the walk over the children: later children change nothing. */
  lemma {:induction false} WalkChildrenErrStays(ctx: Context, st: WalkState, toRoot: bool, parent: Node, k: nat, j: nat)
    requires k <= j <= |parent.children|
    requires WalkChildren(ctx, st, toRoot, parent, k).Err?
    ensures WalkChildren(ctx, st, toRoot, parent, j) == WalkChildren(ctx, st, toRoot, parent, k)
    decreases j
  {
    if k < j {
      WalkChildrenErrStays(ctx, st, toRoot, parent, k, j - 1);
    }
  }

  /** A node the walk emits in place is an unpruned node that was not
      relocated; it carries the node's name, is typed JOINT exactly when a
      bone refers to the node, and holds the node's local transform. */
  lemma KeptNode(ctx: Context, st: WalkState, parentIsJoint: bool, parent: Node, node: Node)
    ensures var r := WalkNode(ctx, st, parentIsJoint, parent, node);
      r.Ok? && r.value.1.Some? ==>
        var e := r.value.1.value;
        && !Pruned(ctx, node)
        && !(ctx.blenderMode && parentIsJoint && HasMesh(node))
        && e.name == node.name
        && (e.nodeType == JOINT <==> IsJoint(ctx.model, node))
        && e.matrix == GenerateMatrixArray(node.localTransform)
  {
    AttachmentsSkip(ctx, st, parentIsJoint, parent, node, |node.attachments|);
  }

  /** A mesh the Blender pass can relocate: a plain mesh of the mesh list. */
  predicate Relocatable(meshes: seq<Mesh>, mesh: Mesh)
  {
    !mesh.hasVertexWeights && !mesh.hasMorphTargets && mesh in meshes
  }

  /** The skins a run of relocated meshes adds, mesh by mesh. */
  function RelocatedSkins(meshes: seq<Mesh>, ms: seq<Mesh>, parent: Node, node: Node): (r: seq<Controller>)
    ensures |r| == |ms|
  {
    seq(|ms|, j requires 0 <= j < |ms| => RelocatedSkin(ms[j], MeshId(LastIndexOf(meshes, ms[j])), parent, node))
  }

  /** The root nodes a run of relocated meshes adds, mesh by mesh. */
  function RelocatedNodes(meshes: seq<Mesh>, ms: seq<Mesh>, node: Node): (r: seq<SceneNode>)
    ensures |r| == |ms|
  {
    seq(|ms|, j requires 0 <= j < |ms| => RelocatedNode(ms[j], MeshId(LastIndexOf(meshes, ms[j])), node))
  }

  /** Relocating a run of meshes succeeds exactly when every one of them is
      relocatable; it then appends their skins and root nodes in order, and
      raises the flag when there was at least one. */
  lemma {:induction false} RelocateAllOutcome(ctx: Context, st: WalkState, ms: seq<Mesh>, parent: Node, node: Node)
    ensures var r := RelocateAll(ctx, st, ms, parent, node);
      && (r.Ok? <==> forall j :: 0 <= j < |ms| ==> Relocatable(ctx.meshes, ms[j]))
      && (r.Ok? ==>
            && r.value.controllers == st.controllers + RelocatedSkins(ctx.meshes, ms, parent, node)
            && r.value.scene == st.scene + RelocatedNodes(ctx.meshes, ms, node)
            && r.value.blenderOutputNecessary == (st.blenderOutputNecessary || |ms| > 0))
  {
    if |ms| > 0 {
      var m := |ms| - 1;
      var front := ms[..m];
      RelocateAllOutcome(ctx, st, front, parent, node);
      assert ms == front + [ms[m]];
      var r := RelocateAll(ctx, st, front, parent, node);
      if r.Ok? {
        RelocateAllStep(ctx, r.value, front, ms[m], parent, node);
        var r2 := RelocateAll(ctx, st, ms, parent, node);
        assert r2 == Relocate(ctx, r.value.(blenderOutputNecessary := true), ms[m], parent, node);
        if r2.Ok? {
          forall j | 0 <= j < |ms| ensures Relocatable(ctx.meshes, ms[j]) {
            if j < m {
              assert ms[j] == front[j];
            }
          }
        }
      } else {
        var j :| 0 <= j < m && !Relocatable(ctx.meshes, front[j]);
        assert ms[j] == front[j];
      }
    }
  }

  /** One more relocated mesh appends its skin and its root node. */
  lemma RelocateAllStep(ctx: Context, st: WalkState, front: seq<Mesh>, mesh: Mesh, parent: Node, node: Node)
    ensures var r := Relocate(ctx, st.(blenderOutputNecessary := true), mesh, parent, node);
      var id := MeshId(LastIndexOf(ctx.meshes, mesh));
      && (r.Ok? <==> Relocatable(ctx.meshes, mesh))
      && (r.Ok? ==>
            && r.value.controllers == st.controllers + [RelocatedSkin(mesh, id, parent, node)]
            && r.value.scene == st.scene + [RelocatedNode(mesh, id, node)]
            && r.value.blenderOutputNecessary)
    ensures RelocatedSkins(ctx.meshes, front + [mesh], parent, node) ==
      RelocatedSkins(ctx.meshes, front, parent, node) + [RelocatedSkin(mesh, MeshId(LastIndexOf(ctx.meshes, mesh)), parent, node)]
    ensures RelocatedNodes(ctx.meshes, front + [mesh], node) ==
      RelocatedNodes(ctx.meshes, front, node) + [RelocatedNode(mesh, MeshId(LastIndexOf(ctx.meshes, mesh)), node)]
  {
    RelocateOutcome(ctx, st.(blenderOutputNecessary := true), mesh, parent, node);
  }

  /** `RelocateAll` over one more mesh relocates that mesh after the others. */
  lemma RelocateAllSnoc(ctx: Context, st: WalkState, front: seq<Mesh>, mesh: Mesh, parent: Node, node: Node)
    ensures RelocateAll(ctx, st, front + [mesh], parent, node) ==
      match RelocateAll(ctx, st, front, parent, node)
      case Err(e) => Err(e)
      case Ok(st1) => Relocate(ctx, st1.(blenderOutputNecessary := true), mesh, parent, node)
  {
    var ms := front + [mesh];
    assert ms[..|ms| - 1] == front;
  }

  /** In the Blender pass below a joint, a mesh attachment is relocated and
      sets the skip decision. */
  lemma MeshAttachmentStep(ctx: Context, st1: WalkState, parent: Node, node: Node, a: Attachment, skip: bool)
    requires ctx.blenderMode && a.MeshAttachment?
    ensures var r := AttachmentStep(ctx, st1, true, parent, node, a, [], skip);
      var q := Relocate(ctx, st1.(blenderOutputNecessary := true), a.mesh, parent, node);
      && (r.Ok? <==> q.Ok?)
      && (r.Err? ==> r.error == q.error)
      && (r.Ok? ==> r.value.0 == q.value && r.value.1 == [] && r.value.2)
  {
  }

  /** In the Blender pass, the attachment loop of a node below a joint
      relocates the node's meshes, collects no instance, and skips the node
      once it has met a mesh. */
  lemma {:induction false} BlenderAttachments(ctx: Context, st: WalkState, parent: Node, node: Node, k: nat)
    requires ctx.blenderMode && k <= |node.attachments|
    ensures var ms := MeshesOf(node.attachments[..k]);
      var r := Attachments(ctx, st, true, parent, node, k);
      var q := RelocateAll(ctx, st, ms, parent, node);
      && (r.Ok? <==> q.Ok?)
      && (r.Err? ==> r.error == q.error)
      && (r.Ok? ==> r.value.0 == q.value && r.value.1 == [] && r.value.2 == (|ms| > 0))
  {
    if k > 0 {
      BlenderAttachments(ctx, st, parent, node, k - 1);
      var atts := node.attachments;
      assert atts[..k][..k - 1] == atts[..k - 1];
      var front := MeshesOf(atts[..k - 1]);
      if atts[k - 1].MeshAttachment? {
        var ms := front + [atts[k - 1].mesh];
        assert MeshesOf(atts[..k]) == ms;
        RelocateAllSnoc(ctx, st, front, atts[k - 1].mesh, parent, node);
        var prev := Attachments(ctx, st, true, parent, node, k - 1);
        if prev.Ok? {
          MeshAttachmentStep(ctx, prev.value.0, parent, node, atts[k - 1], prev.value.2);
        }
      } else {
        assert MeshesOf(atts[..k]) == front;
      }
    }
  }

  /** In the Blender pass, a node carrying meshes below a joint leaves the
      tree altogether, children included: its meshes are re-emitted at the
      root of the visual scene, each with its one-joint skin, in attachment
      order; the walk fails exactly when one of them cannot be relocated. */
  lemma RelocatedAtRoot(ctx: Context, st: WalkState, parent: Node, node: Node)
    requires ctx.blenderMode && HasMesh(node)
    ensures var ms := MeshesOf(node.attachments);
      var r := WalkNode(ctx, st, true, parent, node);
      && (r.Ok? <==> forall j :: 0 <= j < |ms| ==> Relocatable(ctx.meshes, ms[j]))
      && (r.Ok? ==> r.value == (WalkState(st.controllers + RelocatedSkins(ctx.meshes, ms, parent, node),
                                          st.scene + RelocatedNodes(ctx.meshes, ms, node),
                                          true),
                                None))
  {
    var atts := node.attachments;
    var n := |atts|;
    assert atts[..n] == atts;
    var ms := MeshesOf(atts);
    var i :| 0 <= i < n && atts[i].MeshAttachment?;
    assert atts[i] == MeshAttachment(atts[i].mesh);
    assert atts[i].mesh in ms;
    assert !Pruned(ctx, node);
    BlenderAttachments(ctx, st, parent, node, n);
    RelocateAllOutcome(ctx, st, ms, parent, node);
  }
}
