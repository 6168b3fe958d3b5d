/** The converter object (`GMDConverter`): one pass builds every library of a
    COLLADA document from the model and saves it; `Export` runs the standard
    pass and, when Blender output is enabled and the first pass found it
    necessary, a second pass in Blender mode saved beside the first. */
module Convert {
  import opened Scene
  import opened Matrices
  import opened Materials
  import opened Geometry
  import opened Controllers
  import opened SceneWalk
  import opened SceneWalkProperties

  /** The output path, as its directory, file name without extension, and
      extension. */
  datatype OutputPath = OutputPath(directory: string, fileName: string, extension: string)

  /** Where a pass saves: the output path itself, or with `_blender` added to
      the file name in Blender mode. */
  function SavePath(output: OutputPath, blenderMode: bool): string
  {
    output.directory + "/" + output.fileName + (if blenderMode then "_blender" else "") + output.extension
  }

  /** A saved document: its path and the contents of its libraries. */
  datatype Document = Document(
    path: string,
    images: seq<string>,
    effects: seq<Effect>,
    materials: seq<MaterialEntry>,
    geometries: seq<GeometryEntry>,
    controllers: seq<Controller>,
    visualScene: seq<SceneNode>)

  /** What the loader guarantees of a model: bones name nodes of the flat
      node list, and every mesh's vertex weights are well formed. */
  predicate Loadable(model: Model)
  {
    BonesResolve(model) && AllSkinnable(model, AllMeshes(model.nodes))
  }

  /** One pass (`GenerateXml`): the document it saves and the flag after it,
      or the exception that ends it. */
  function Generate(model: Model, options: Options, output: OutputPath, blenderMode: bool, necessary: bool)
    : Result<(Document, bool)>
    requires Loadable(model)
  {
    var meshes := AllMeshes(model.nodes);
    var ctx := Context(model, options, blenderMode, meshes);
    var st := WalkState(LibraryControllers(model, blenderMode, meshes), [], necessary || NeedsBlenderOutput(meshes));
    match WalkChildren(ctx, st, true, model.root, |model.root.children|)
    case Err(e) => Err(e)
    case Ok((st', _)) =>
      Ok((Document(SavePath(output, blenderMode),
                   LibraryImages(model.materials), LibraryEffects(model.materials), LibraryMaterials(model.materials),
                   LibraryGeometries(meshes), st'.controllers, st'.scene),
          st'.blenderOutputNecessary))
  }

  /** The state `Export` leaves: the saved documents, whether it switched to
      Blender mode, and the exception that ended it, if any. */
  datatype Outcome = Outcome(saved: seq<Document>, blenderMode: bool, error: Option<Error>)

  function ExportOutcome(model: Model, options: Options, output: OutputPath): Outcome
    requires Loadable(model)
  {
    match Generate(model, options, output, false, false)
    case Err(e) => Outcome([], false, Some(e))
    case Ok((first, necessary)) =>
      if options.blenderOutput && necessary then
        match Generate(model, options, output, true, necessary)
        case Err(e) => Outcome([first], true, Some(e))
        case Ok((second, _)) => Outcome([first, second], true, None)
      else Outcome([first], false, None)
  }

  /** A mesh under a joint of the tree, or one with both vertex weights and
      morph targets: what makes the first pass ask for Blender output. */
  predicate BlenderOutputNeeded(model: Model)
  {
    NeedsBlenderOutput(AllMeshes(model.nodes)) || MeshUnderJoint(model, model.root, |model.root.children|)
  }

  /** The standard pass never fails; it raises the flag exactly when the
      model needs Blender output, and its controllers are the library's. */
  lemma StandardPass(model: Model, options: Options, output: OutputPath)
    requires Loadable(model)
    ensures Generate(model, options, output, false, false).Ok?
    ensures Generate(model, options, output, false, false).value.1 == BlenderOutputNeeded(model)
    ensures Generate(model, options, output, false, false).value.0.controllers ==
      LibraryControllers(model, false, AllMeshes(model.nodes))
  {
    var meshes := AllMeshes(model.nodes);
    var st := WalkState(LibraryControllers(model, false, meshes), [], NeedsBlenderOutput(meshes));
    StandardWalkChildren(Context(model, options, false, meshes), st, true, model.root, |model.root.children|);
  }

  /** `Export` saves the standard document first, always; it switches to
      Blender mode exactly when Blender output is enabled and the model needs
      it; without the switch nothing can fail; with it the second document
      goes to the `_blender` path, unless the second pass throws. */
  lemma ExportPasses(model: Model, options: Options, output: OutputPath)
    requires Loadable(model)
    ensures var r := ExportOutcome(model, options, output);
      && |r.saved| >= 1
      && r.saved[0] == Generate(model, options, output, false, false).value.0
      && r.saved[0].path == SavePath(output, false)
      && (r.blenderMode <==> options.blenderOutput && BlenderOutputNeeded(model))
      && (!r.blenderMode ==> |r.saved| == 1 && r.error.None?)
      && (r.error.None? && r.blenderMode ==> |r.saved| == 2 && r.saved[1].path == SavePath(output, true))
      && (r.error.Some? ==> |r.saved| == 1)
  {
    StandardPass(model, options, output);
  }

  /** The two documents of an export go to different files. */
  lemma {:induction false} SavePathsDiffer(output: OutputPath)
    ensures SavePath(output, true) != SavePath(output, false)
  {
    assert |SavePath(output, true)| == |SavePath(output, false)| + 8;
  }

  class GMDConverter {
    const model: Model
    const options: Options
    const output: OutputPath

    /** Whether the current pass is the Blender one. */
    var blenderMode: bool
    /** Raised during a pass when Blender output turns out to be necessary. */
    var blenderOutputNecessary: bool
    /** The mesh list of the current pass, in node order. */
    var meshes: seq<Mesh>
    /** The controller library and the nodes at the root of the visual scene
        of the document being built. */
    var libraryControllers: seq<Controller>
    var visualScene: seq<SceneNode>
    /** The documents saved so far. */
    var saved: seq<Document>

    constructor (model: Model, options: Options, output: OutputPath)
      ensures this.model == model && this.options == options && this.output == output
      ensures !blenderMode && !blenderOutputNecessary && saved == []
    {
      this.model := model;
      this.options := options;
      this.output := output;
      blenderMode := false;
      blenderOutputNecessary := false;
      meshes := [];
      libraryControllers := [];
      visualScene := [];
      saved := [];
    }

    function CurrentContext(): Context
      reads this
    {
      Context(model, options, blenderMode, meshes)
    }

    function CurrentState(): WalkState
      reads this
    {
      WalkState(libraryControllers, visualScene, blenderOutputNecessary)
    }

    /** The bone search of `RecurseNodeChildren` (1064-1090): whether some
        bone refers to the node. */
    method FindBone(node: Node) returns (isJoint: bool)
      ensures isJoint <==> node.index in model.bones
    {
      var bones := model.bones;
      isJoint := false;
      var k := 0;
      while k < |bones|
        invariant 0 <= k <= |bones|
        invariant node.index !in bones[..k]
      {
        if bones[k] == node.index {
          isJoint := true;
          break;
        }
        k := k + 1;
      }
      assert isJoint || bones[..k] == bones;
    }

    /** `HandleJointMeshAttachment` (1174-1335). */
    method HandleJointMeshAttachment(mesh: Mesh, parent: Node, node: Node) returns (error: Option<Error>)
      modifies this`libraryControllers, this`visualScene
      ensures var spec := Relocate(CurrentContext(), old(CurrentState()), mesh, parent, node);
        && (error.None? <==> spec.Ok?)
        && (spec.Ok? ==> CurrentState() == spec.value)
        && (spec.Err? ==> error == Some(spec.error) && CurrentState() == old(CurrentState()))
    {
      if mesh.hasVertexWeights {
        return Some(JointMeshHasVertexWeights);
      }
      if mesh.hasMorphTargets {
        return Some(JointMeshHasMorphTargets);
      }
      var meshIndex := FindMeshIndex(meshes, mesh);
      if meshIndex < 0 {
        return Some(JointMeshNotInMeshList);
      }
      var meshId := Ids.MeshId(meshIndex);
      var n := mesh.vertexCount;
      var v := JointMeshAttachmentPairs(n);
      var skin := SkinController(
        meshId + "-skin", "#" + meshId, GenerateMatrixArray(node.worldTransform),
        [parent.name], [node.index], 16,
        Repeat(1.0, n), n, Repeat<nat>(1, n), v);
      libraryControllers := libraryControllers + [skin];
      var element := SceneNode(
        node.name, NODE, GenerateMatrixArray(node.localTransform),
        [InstanceController("#" + (meshId + "-skin"), Some("#root"), "#" + mesh.materialName, mesh.texCoords.Some?)],
        []);
      visualScene := visualScene + [element];
      return None;
    }

    /** The attachment loop of `RecurseNodeChildren` (1117-1164): the node's
        instances and whether the node is skipped. */
    method VisitAttachments(parentIsJoint: bool, parent: Node, node: Node) returns (r: Result<(seq<Instance>, bool)>)
      modifies this`libraryControllers, this`visualScene, this`blenderOutputNecessary
      ensures var spec := Attachments(CurrentContext(), old(CurrentState()), parentIsJoint, parent, node, |node.attachments|);
        && (r.Ok? <==> spec.Ok?)
        && (r.Ok? ==> r.value == (spec.value.1, spec.value.2) && CurrentState() == spec.value.0)
        && (r.Err? ==> r.error == spec.error)
    {
      ghost var st0 := CurrentState();
      var instances: seq<Instance> := [];
      var skipNode := false;
      for i := 0 to |node.attachments|
        invariant Attachments(CurrentContext(), st0, parentIsJoint, parent, node, i) == Ok((CurrentState(), instances, skipNode))
      {
        var attachment := node.attachments[i];
        if attachment.MeshAttachment? {
          var mesh := attachment.mesh;
          if parentIsJoint {
            blenderOutputNecessary := true;
            if blenderMode {
              var error := HandleJointMeshAttachment(mesh, parent, node);
              if error.Some? {
                AttachmentsErrStays(CurrentContext(), st0, parentIsJoint, parent, node, i + 1, |node.attachments|);
                return Err(error.value);
              }
              skipNode := true;
              continue;
            }
          }
          if mesh.hasMorphTargets || mesh.hasVertexWeights {
            instances := instances + [InstanceControllerOf(meshes, mesh).value];
          } else {
            instances := instances + [InstanceGeometryOf(meshes, mesh)];
          }
        }
      }
      return Ok((instances, skipNode));
    }

    /** `RecurseNodeChildren` (1060-1172): walks the children of `parent`;
        kept nodes go into the visual scene root when `toRoot`, and are
        returned otherwise. */
    method RecurseNodeChildren(toRoot: bool, parent: Node) returns (r: Result<seq<SceneNode>>)
      modifies this`libraryControllers, this`visualScene, this`blenderOutputNecessary
      ensures var spec := WalkChildren(CurrentContext(), old(CurrentState()), toRoot, parent, |parent.children|);
        && (r.Ok? <==> spec.Ok?)
        && (r.Ok? ==> r.value == spec.value.1 && CurrentState() == spec.value.0)
        && (r.Err? ==> r.error == spec.error)
      decreases parent, 1
    {
      ghost var st0 := CurrentState();
      var parentIsJoint := FindBone(parent);
      var children: seq<SceneNode> := [];
      for k := 0 to |parent.children|
        invariant WalkChildren(CurrentContext(), st0, toRoot, parent, k) == Ok((CurrentState(), children))
      {
        var visited := VisitChild(parentIsJoint, parent, parent.children[k]);
        if visited.Err? {
          WalkChildrenErrStays(CurrentContext(), st0, toRoot, parent, k + 1, |parent.children|);
          return Err(visited.error);
        }
        if visited.value.Some? {
          if toRoot {
            visualScene := visualScene + [visited.value.value];
          } else {
            children := children + [visited.value.value];
          }
        }
      }
      return Ok(children);
    }

    /** One turn of the loop of `RecurseNodeChildren` (1079-1170): the node
        is pruned, or skipped after relocation, or becomes a `<node>` with its
        instances and its walked children. */
    method VisitChild(parentIsJoint: bool, parent: Node, node: Node) returns (r: Result<Option<SceneNode>>)
      modifies this`libraryControllers, this`visualScene, this`blenderOutputNecessary
      ensures var spec := WalkNode(CurrentContext(), old(CurrentState()), parentIsJoint, parent, node);
        && (r.Ok? <==> spec.Ok?)
        && (r.Ok? ==> r.value == spec.value.1 && CurrentState() == spec.value.0)
        && (r.Err? ==> r.error == spec.error)
      decreases node, 2
    {
      ghost var ctx := CurrentContext();
      var nodeIsJoint := FindBone(node);
      assert nodeIsJoint == IsJoint(model, node) && (Pruned(ctx, node) <==> options.ignoreEmptyNodes && |node.attachments| == 0 && |node.children| == 0 && !nodeIsJoint);
      if options.ignoreEmptyNodes && |node.attachments| == 0 && |node.children| == 0 && !nodeIsJoint {
        return Ok(None);
      }
      var visited := VisitAttachments(parentIsJoint, parent, node);
      if visited.Err? {
        return Err(visited.error);
      }
      var (instances, skipNode) := visited.value;
      if skipNode {
        return Ok(None);
      }
      ghost var st1 := CurrentState();
      var kids := RecurseNodeChildren(false, node);
      if kids.Err? {
        return Err(kids.error);
      }
      var nodeType := if nodeIsJoint then JOINT else NODE;
      return Ok(Some(SceneNode(node.name, nodeType, GenerateMatrixArray(node.localTransform), instances, kids.value)));
    }

    /** `CreateLibraryControllersXmlElement` (555-782): raises the flag when
        some mesh has both vertex weights and morph targets, then builds the
        skins and the morph controllers. */
    method CreateLibraryControllers()
      requires BonesResolve(model) && AllSkinnable(model, meshes)
      modifies this`libraryControllers, this`blenderOutputNecessary
      ensures libraryControllers == LibraryControllers(model, blenderMode, meshes)
      ensures blenderOutputNecessary == (old(blenderOutputNecessary) || NeedsBlenderOutput(meshes))
    {
      if NeedsBlenderOutput(meshes) {
        blenderOutputNecessary := true;
      }
      CreateSkinControllers();
      AppendMorphControllers();
    }

    /** The first loop of `CreateLibraryControllersXmlElement` (564-737):
        one skin per mesh with vertex weights, in mesh order. */
    method CreateSkinControllers()
      requires BonesResolve(model) && AllSkinnable(model, meshes)
      modifies this`libraryControllers
      ensures libraryControllers == SkinControllers(model, blenderMode, meshes)
    {
      libraryControllers := [];
      for i := 0 to |meshes|
        invariant AllSkinnable(model, meshes[..i])
        invariant libraryControllers == SkinControllers(model, blenderMode, meshes[..i])
      {
        SkinControllersStep(model, blenderMode, meshes, i);
        if meshes[i].hasVertexWeights {
          var c := CreateSkinController(model, blenderMode, meshes[i], i);
          libraryControllers := libraryControllers + [c];
        }
      }
      assert meshes[..|meshes|] == meshes;
    }

    /** The second loop (740-779): one morph controller per mesh with morph
        targets, in mesh order, after the skins. */
    method AppendMorphControllers()
      modifies this`libraryControllers
      ensures libraryControllers == old(libraryControllers) + MorphControllers(meshes)
    {
      ghost var skins := libraryControllers;
      for i := 0 to |meshes|
        invariant libraryControllers == skins + MorphControllers(meshes[..i])
      {
        MorphControllersStep(meshes, i);
        if meshes[i].hasMorphTargets {
          var c := CreateMorphController(meshes[i], i);
          libraryControllers := libraryControllers + [c];
        }
      }
      assert meshes[..|meshes|] == meshes;
    }

    /** `GenerateXml` (76-109): builds one document from the model and saves it. */
    method GenerateXml() returns (error: Option<Error>)
      requires Loadable(model)
      modifies this`meshes, this`libraryControllers, this`visualScene, this`blenderOutputNecessary, this`saved
      ensures var spec := Generate(model, options, output, blenderMode, old(blenderOutputNecessary));
        && (error.None? <==> spec.Ok?)
        && (spec.Ok? ==> saved == old(saved) + [spec.value.0] && blenderOutputNecessary == spec.value.1)
        && (spec.Err? ==> error == Some(spec.error) && saved == old(saved))
    {
      var images := CreateLibraryImages(model.materials);
      var effects := CreateLibraryEffects(model.materials);
      var materialEntries := CreateLibraryMaterials(model.materials);
      meshes := CollectMeshes(model.nodes);
      var geometries := CreateLibraryGeometries(meshes);
      CreateLibraryControllers();
      visualScene := [];
      ghost var spec := Generate(model, options, output, blenderMode, old(blenderOutputNecessary));
      ghost var walk := WalkChildren(CurrentContext(), CurrentState(), true, model.root, |model.root.children|);
      assert spec.Ok? <==> walk.Ok?;
      var walked := RecurseNodeChildren(true, model.root);
      if walked.Err? {
        assert spec.error == walk.error;
        return Some(walked.error);
      }
      var document := Document(SavePath(output, blenderMode), images, effects, materialEntries,
                               geometries, libraryControllers, visualScene);
      saved := saved + [document];
      return None;
    }

    /** `Export` (54-74): the standard pass, then the Blender pass when it is
        enabled and found necessary. */
    method Export() returns (error: Option<Error>)
      requires Loadable(model)
      requires !blenderMode && !blenderOutputNecessary && saved == []
      modifies this
      ensures var spec := ExportOutcome(model, options, output);
        saved == spec.saved && blenderMode == spec.blenderMode && error == spec.error
    {
      error := GenerateXml();
      if error.Some? {
        return;
      }
      if options.blenderOutput {
        if blenderOutputNecessary {
          blenderMode := true;
          error := GenerateXml();
        }
      }
    }
  }
}
