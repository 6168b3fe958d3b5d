/** The in-memory scene graph handed to the converter by the model loader.
    Floats are modelled as reals: the converter only ever tests them against
    zero and copies them, so no rounding behaviour is involved. */
module Scene {
  import opened Matrices

  datatype Option<T> = None | Some(value: T)

  /** GMD vertex weight record: four (bone index, weight) slots. */
  datatype VertexWeight = VertexWeight(indices: seq<nat>, weights: seq<real>)

  /** Four slots, and every slot that carries a weight names an existing bone
      (the loader guarantees it; the converter indexes `Bones` with it). */
  predicate WellFormedWeight(vw: VertexWeight, boneCount: nat)
  {
    && |vw.indices| == 4
    && |vw.weights| == 4
    && forall k :: 0 <= k < 4 && vw.weights[k] != 0.0 ==> vw.indices[k] < boneCount
  }

  /** A 3D offset; the zero test is the only operation the converter applies to it. */
  datatype Vec3 = Vec3(x: real, y: real, z: real)

  /** A morph target: one offset per base vertex. */
  datatype MorphTarget = MorphTarget(offsets: seq<Vec3>)

  datatype Triangle = Triangle(a: nat, b: nat, c: nat)

  datatype TexCoord = TexCoord(u: real, v: real)

  /** A mesh. `handle` stands for the object's identity: the converter compares
      meshes by reference (`List.IndexOf`, `==`, `Contains`). */
  datatype Mesh = Mesh(
    handle: nat,
    hasVertexWeights: bool,
    hasMorphTargets: bool,
    vertexCount: nat,
    vertices: seq<Vec3>,
    normals: seq<Vec3>,
    texCoords: Option<seq<TexCoord>>,
    vertexWeights: seq<VertexWeight>,
    morphTargets: seq<MorphTarget>,
    triangles: seq<Triangle>,
    materialName: string)

  datatype Attachment = MeshAttachment(mesh: Mesh) | MorphAttachment | OtherAttachment

  /** A node of the scene tree. `index` is its position in the model's flat node
      list, through which bones refer to it; node identity is that index. */
  datatype Node = Node(
    index: nat,
    name: string,
    localTransform: Matrix4x4<real>,
    worldTransform: Matrix4x4<real>,
    attachments: seq<Attachment>,
    children: seq<Node>)

  /** The model pack: the flat node list (`Model.Nodes`, in the loader's
      order), the root of the node tree, for every bone the index of the node
      it refers to (`Bone.NodeIndex`), and the materials. */
  datatype Model = Model(nodes: seq<Node>, root: Node, bones: seq<nat>, materials: seq<Material>)

  /** The texture-map kinds a material can carry, in the converter's fixed order. */
  datatype TextureKind = Diffuse | Normal | Specular | Reflection | Highlight | Glow | Night | Detail | Shadow

  /** A material: its name and the set of `Has...Map` flags it carries. */
  datatype Material = Material(name: string, maps: set<TextureKind>)

  /** The two switches of the converter's options record. */
  datatype Options = Options(blenderOutput: bool, ignoreEmptyNodes: bool)

  /** The meshes a node carries (`Node.Meshes`), in attachment order. */
  function MeshesOf(attachments: seq<Attachment>): (r: seq<Mesh>)
    ensures |r| <= |attachments|
    ensures forall m :: m in r <==> MeshAttachment(m) in attachments
  {
    if |attachments| == 0 then []
    else
      var rest := MeshesOf(attachments[..|attachments| - 1]);
      var last := attachments[|attachments| - 1];
      assert attachments == attachments[..|attachments| - 1] + [last];
      if last.MeshAttachment? then rest + [last.mesh] else rest
  }

  /** A node is a joint when some bone refers to it. */
  predicate IsJoint(model: Model, node: Node)
  {
    node.index in model.bones
  }

  /** A morph target is degenerate when every offset is the zero vector. */
  predicate IsDegenerate(t: MorphTarget)
  {
    forall i :: 0 <= i < |t.offsets| ==> t.offsets[i] == Vec3(0.0, 0.0, 0.0)
  }
}
