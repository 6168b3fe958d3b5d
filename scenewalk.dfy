/** The visual scene (`RecurseNodeChildren`, `HandleJointMeshAttachment`,
    `CreateInstanceControllerXmlElement`, `CreateInstanceGeometryXmlElement`),
    stated as functions of the walk's input and of the state it threads: the
    controller library, the nodes appended at the root of the visual scene,
    and the "Blender output is necessary" flag. */
module SceneWalk {
  import opened Scene
  import opened Matrices
  import opened Ids
  import opened Geometry
  import opened Controllers

  /** The exceptions the walk can throw. */
  datatype Error =
    | JointMeshHasVertexWeights
    | JointMeshHasMorphTargets
    | JointMeshNotInMeshList
    | InstanceOfPlainMesh

  datatype Result<T> = Ok(value: T) | Err(error: Error)

  /** The `type` attribute of a `<node>`. */
  datatype NodeType = NODE | JOINT

  /** How a node instantiates a mesh: through a controller (with the skeleton
      root `#root` for a skin) or as plain geometry. Both bind the mesh's
      material, and bind texture channel 0 when the mesh has one. */
  datatype Instance =
    | InstanceController(url: string, skeleton: Option<string>, material: string, bindsTexCoords: bool)
    | InstanceGeometry(url: string, material: string, bindsTexCoords: bool)

  /** A `<node>` of the visual scene: its name (used for id, sid and name),
      type, local transform in serialisation order, instances and children. */
  datatype SceneNode = SceneNode(
    name: string,
    nodeType: NodeType,
    matrix: seq<real>,
    instances: seq<Instance>,
    children: seq<SceneNode>)

  /** What stays fixed during one walk: the model, the options, the pass and
      the mesh list built by the geometry library. */
  datatype Context = Context(model: Model, options: Options, blenderMode: bool, meshes: seq<Mesh>)

  /** What the walk changes: the controller library (relocation appends to
      it), the nodes at the root of the visual scene, and the flag. */
  datatype WalkState = WalkState(controllers: seq<Controller>, scene: seq<SceneNode>, blenderOutputNecessary: bool)

  // ---------------------------------------------------------------------
  // Mesh lookups.

  /** `List.IndexOf`: the first position of the mesh, -1 when it is absent. */
  function IndexOf(meshes: seq<Mesh>, mesh: Mesh): (i: int)
    ensures -1 <= i < |meshes|
    ensures i == -1 <==> mesh !in meshes
    ensures 0 <= i ==> meshes[i] == mesh && forall j :: 0 <= j < i ==> meshes[j] != mesh
  {
    if |meshes| == 0 then -1
    else if meshes[0] == mesh then 0
    else
      var r := IndexOf(meshes[1..], mesh);
      if r == -1 then -1 else r + 1
  }

  /** The position the search of `HandleJointMeshAttachment` settles on: it
      does not stop at a match, so the last one wins; -1 when there is none. */
  function LastIndexOf(meshes: seq<Mesh>, mesh: Mesh): (i: int)
    ensures -1 <= i < |meshes|
    ensures i == -1 <==> mesh !in meshes
    ensures 0 <= i ==> meshes[i] == mesh && forall j :: i < j < |meshes| ==> meshes[j] != mesh
  {
    if |meshes| == 0 then -1
    else if meshes[|meshes| - 1] == mesh then |meshes| - 1
    else LastIndexOf(meshes[..|meshes| - 1], mesh)
  }

  /** The search loop of `HandleJointMeshAttachment` (1191-1198). */
  method FindMeshIndex(meshes: seq<Mesh>, mesh: Mesh) returns (meshIndex: int)
    ensures meshIndex == LastIndexOf(meshes, mesh)
  {
    meshIndex := -1;
    for i := 0 to |meshes|
      invariant meshIndex == LastIndexOf(meshes[..i], mesh)
    {
      assert meshes[..i + 1][..i] == meshes[..i];
      if mesh == meshes[i] {
        meshIndex := i;
      }
    }
    assert meshes[..|meshes|] == meshes;
  }

  // ---------------------------------------------------------------------
  // Instances.

  /** `CreateInstanceControllerXmlElement`: the skin when the mesh has vertex
      weights, else its morph controller; a mesh with neither is an error. */
  function InstanceControllerOf(meshes: seq<Mesh>, mesh: Mesh): Result<Instance>
  {
    var meshId := MeshId(IndexOf(meshes, mesh));
    var material := "#" + mesh.materialName;
    if mesh.hasVertexWeights then
      Ok(InstanceController("#" + (meshId + "-skin"), Some("#root"), material, mesh.texCoords.Some?))
    else if mesh.hasMorphTargets then
      Ok(InstanceController("#" + (meshId + "-morph"), None, material, mesh.texCoords.Some?))
    else Err(InstanceOfPlainMesh)
  }

  /** `CreateInstanceGeometryXmlElement`: the mesh's base geometry. */
  function InstanceGeometryOf(meshes: seq<Mesh>, mesh: Mesh): Instance
  {
    InstanceGeometry("#" + MeshId(IndexOf(meshes, mesh)), "#" + mesh.materialName, mesh.texCoords.Some?)
  }

  // ---------------------------------------------------------------------
  // Relocation of a mesh attached under a joint.

  /** `v` of the relocated skin: the pair (joint 0, weight i) for every vertex i. */
  function OneJointPairs(n: nat): (v: seq<int>)
    ensures |v| == 2 * n
    ensures forall i :: 0 <= i < n ==> v[2 * i] == 0 && v[2 * i + 1] == i
  {
    if n == 0 then [] else OneJointPairs(n - 1) + [0, n - 1]
  }

  /** The loop that writes that `v` (1268-1272). */
  method JointMeshAttachmentPairs(vertexCount: nat) returns (v: seq<int>)
    ensures v == OneJointPairs(vertexCount)
  {
    v := [];
    for i := 0 to vertexCount
      invariant v == OneJointPairs(i)
    {
      v := v + [0, i];
    }
  }

  /** The one-joint skin of a relocated mesh (1207-1282): the skin reads the
      base geometry, its bind shape is the attachment node's world transform,
      its one joint is the parent, its one bind pose is derived from the
      attachment node, and every vertex has weight 1 on joint 0. */
  function RelocatedSkin(mesh: Mesh, meshId: string, parent: Node, node: Node): Controller
  {
    var n := mesh.vertexCount;
    SkinController(
      meshId + "-skin", "#" + meshId, GenerateMatrixArray(node.worldTransform),
      [parent.name], [node.index], 16,
      Repeat(1.0, n), n, Repeat<nat>(1, n), OneJointPairs(n))
  }

  /** The node re-emitted at the root of the visual scene (1286-1334). */
  function RelocatedNode(mesh: Mesh, meshId: string, node: Node): SceneNode
  {
    SceneNode(node.name, NODE, GenerateMatrixArray(node.localTransform),
              [InstanceController("#" + (meshId + "-skin"), Some("#root"), "#" + mesh.materialName, mesh.texCoords.Some?)],
              [])
  }

  /** `HandleJointMeshAttachment`: refuses a mesh with vertex weights or
      morph targets, or one missing from the mesh list; otherwise appends the
      one-joint skin to the controllers and the node to the scene root. */
  function Relocate(ctx: Context, st: WalkState, mesh: Mesh, parent: Node, node: Node): Result<WalkState>
  {
    if mesh.hasVertexWeights then Err(JointMeshHasVertexWeights)
    else if mesh.hasMorphTargets then Err(JointMeshHasMorphTargets)
    else
      var i := LastIndexOf(ctx.meshes, mesh);
      if i < 0 then Err(JointMeshNotInMeshList)
      else
        var meshId := MeshId(i);
        Ok(st.(controllers := st.controllers + [RelocatedSkin(mesh, meshId, parent, node)],
               scene := st.scene + [RelocatedNode(mesh, meshId, node)]))
  }

  /** The attachment loop of a node below a joint in the Blender pass, over
      the node's meshes: each mesh raises the flag and is relocated, and the
      first refusal ends the loop. */
  function RelocateAll(ctx: Context, st: WalkState, ms: seq<Mesh>, parent: Node, node: Node): Result<WalkState>
  {
    if |ms| == 0 then Ok(st)
    else
      match RelocateAll(ctx, st, ms[..|ms| - 1], parent, node)
      case Err(e) => Err(e)
      case Ok(st1) => Relocate(ctx, st1.(blenderOutputNecessary := true), ms[|ms| - 1], parent, node)
  }

  // ---------------------------------------------------------------------
  // The walk.

  /** A node the walk drops (1092): empty-node pruning is on, and the node has
      no attachment, no child, and no bone refers to it. */
  predicate Pruned(ctx: Context, node: Node)
  {
    ctx.options.ignoreEmptyNodes && |node.attachments| == 0 && |node.children| == 0 && !IsJoint(ctx.model, node)
  }

  function NodeTypeOf(model: Model, node: Node): NodeType
  {
    if IsJoint(model, node) then JOINT else NODE
  }

  /** One turn of the attachment loop (1121-1162), after `instances` were
      collected and with the skip decision so far. */
  function AttachmentStep(ctx: Context, st: WalkState, parentIsJoint: bool, parent: Node, node: Node,
                          a: Attachment, instances: seq<Instance>, skip: bool): Result<(WalkState, seq<Instance>, bool)>
  {
    if !a.MeshAttachment? then Ok((st, instances, skip))
    else
      var mesh := a.mesh;
      var st1 := if parentIsJoint then st.(blenderOutputNecessary := true) else st;
      if parentIsJoint && ctx.blenderMode then
        match Relocate(ctx, st1, mesh, parent, node)
        case Err(e) => Err(e)
        case Ok(st2) => Ok((st2, instances, true))
      else if mesh.hasMorphTargets || mesh.hasVertexWeights then
        Ok((st1, instances + [InstanceControllerOf(ctx.meshes, mesh).value], skip))
      else Ok((st1, instances + [InstanceGeometryOf(ctx.meshes, mesh)], skip))
  }

  /** The attachment loop over the first k attachments of `node`. */
  function Attachments(ctx: Context, st: WalkState, parentIsJoint: bool, parent: Node, node: Node, k: nat)
    : Result<(WalkState, seq<Instance>, bool)>
    requires k <= |node.attachments|
  {
    if k == 0 then Ok((st, [], false))
    else
      match Attachments(ctx, st, parentIsJoint, parent, node, k - 1)
      case Err(e) => Err(e)
      case Ok((st1, instances, skip)) =>
        AttachmentStep(ctx, st1, parentIsJoint, parent, node, node.attachments[k - 1], instances, skip)
  }

  /** `RecurseNodeChildren` over the first k children of `parent`. A kept
      child goes straight into the scene root when `toRoot` (the visual scene
      element itself is the parent element), and into the returned list
      otherwise. */
  function WalkChildren(ctx: Context, st: WalkState, toRoot: bool, parent: Node, k: nat)
    : Result<(WalkState, seq<SceneNode>)>
    requires k <= |parent.children|
    decreases parent, 1, k
  {
    if k == 0 then Ok((st, []))
    else
      match WalkChildren(ctx, st, toRoot, parent, k - 1)
      case Err(e) => Err(e)
      case Ok((st1, out)) =>
        match WalkNode(ctx, st1, IsJoint(ctx.model, parent), parent, parent.children[k - 1])
        case Err(e) => Err(e)
        case Ok((st2, element)) =>
          if element.None? then Ok((st2, out))
          else if toRoot then Ok((st2.(scene := st2.scene + [element.value]), out))
          else Ok((st2, out + [element.value]))
  }

  /** One child of the walk: dropped when pruned, dropped after relocation,
      otherwise a `<node>` holding its instances and its own walked children. */
  function WalkNode(ctx: Context, st: WalkState, parentIsJoint: bool, parent: Node, node: Node)
    : Result<(WalkState, Option<SceneNode>)>
    decreases node, 2, 0
  {
    if Pruned(ctx, node) then Ok((st, None))
    else
      match Attachments(ctx, st, parentIsJoint, parent, node, |node.attachments|)
      case Err(e) => Err(e)
      case Ok((st1, instances, skip)) =>
        if skip then Ok((st1, None))
        else
          match WalkChildren(ctx, st1, false, node, |node.children|)
          case Err(e) => Err(e)
          case Ok((st2, kids)) =>
            Ok((st2, Some(SceneNode(node.name, NodeTypeOf(ctx.model, node),
                                    GenerateMatrixArray(node.localTransform), instances, kids))))
  }
}
