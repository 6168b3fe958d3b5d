# GMDTool converter core, modelled in Dafny

GMDTool converts a Yakuza GMD model pack into a COLLADA 1.4.1 document.
Its converter (`GMDConverter`) walks the model's scene graph and writes the
following libraries:

- images, effects and materials, built from each material's texture flags;
- geometries: one per mesh, plus one per surviving morph target;
- controllers: a skin per mesh with vertex weights, a morph controller per
  mesh with morph targets;
- a visual scene.

`Export` runs a standard pass. A second pass in "Blender mode" follows when
Blender compatibility output is enabled and the first pass found it
necessary. Blender mode differs from the standard pass in two ways:

- a mesh hung below a joint is relocated to the root of the scene with a
  synthetic one-joint skin;
- skins read the base geometry instead of the morph controller.

This project models the converter on values. XML elements become datatypes,
strings and sequences. Float data is `real`, and only the zero test and the
ordering of values matter.

- `Scene` holds the model the converter reads:
  - nodes with a flat index;
  - attachments, meshes with flags, weights, morph targets and triangles;
  - bones, given as node indices;
  - materials.
- `Ids` holds decimal rendering of integers and the `meshId<i>` ids. They are proved injective.
- `Matrices` covers `GenerateMatrixArray`: the column-major serialisation of a 4x4 matrix, over any element type.
- `Materials` covers:
  - image ids in the fixed texture-kind order;
  - effect surface and sampler params;
  - the Phong texture-or-colour choice;
  - material entries.
- `Geometry` covers:
  - the mesh list, in node order;
  - the geometry library, including the morph-target skip;
  - polylist `vcount`/`p`;
  - accessor counts.
- `SkinStream` covers the first-encounter scan of weighted slots, which the
  bone map, the joint list and the bind-pose node list all follow.
- `SkinRemap` and `SkinRemapProperties` cover the weight remapper:
  - the flat weights;
  - influence counts and offsets;
  - the sentinel-buffer fill of `v`, done in place on an `array`.
- `Morph` covers surviving morph targets, their ids and their zero weights.
- `Controllers` covers the skin and morph controllers and the controller library.
- `SceneWalk` and `SceneWalkProperties` cover:
  - the recursive walk of the visual scene;
  - relocation of meshes below joints;
  - instance selection.
- `Convert` covers the `GMDConverter` class:
  - fields `blenderMode`, `blenderOutputNecessary` and `meshes`;
  - the controller library and the visual-scene root;
  - the documents saved so far.

  Its methods update these fields in place. Each method is proved equal to a
  specification function of the old state, and the properties are lemmas
  about those functions.

Assumptions stated in the model:

- Node identity is the node's index into the flat node list, and `GetNode` is
  injective (`Controllers.BonesResolve`).
- A `Dictionary` enumerates in insertion order. The remapper's joint
  ordinals (from `boneMap.Values`) and the emitted joint names (from a
  separate `List<Node>`) are therefore one first-encounter sequence of node
  indices.
- A mesh is identified by a handle, standing for C# reference equality.
- A missing bone list (`bones == null`) is the empty list.

Source behaviour modelled as written:

- The `break` inside the attachment `switch` of `RecurseNodeChildren` leaves
  only the switch. Later attachments of a relocated node are still visited.
- The mesh search of `HandleJointMeshAttachment` does not stop at a match,
  so it keeps the LAST position of the mesh. The instance builders use
  `IndexOf`, which gives the first position.
- Relocation fires when the PARENT of the node is a joint.
- The instance choice tests the `HasMorphTargets` flag, not the number of
  surviving targets.

## Model

| member | source | states |
|---|---|---|
| Scene.MeshesOf | GMDTool/Convert/GMDConverter.cs:386-389 | a node's meshes are exactly its mesh attachments |
| Ids.NatToStringInjective | GMDTool/Convert/GMDConverter.cs:394 | the decimal rendering of a natural number is injective, so distinct mesh indices give distinct ids |
| Ids.IntToStringInjective | GMDTool/Convert/GMDConverter.cs:394 | the decimal rendering of an integer, including the sign, is injective |
| Ids.PrefixedIdInjective | GMDTool/Convert/GMDConverter.cs:394 | a fixed prefix followed by a rendered integer determines the integer |
| Ids.MeshIdInjective | GMDTool/Convert/GMDConverter.cs:394 | `meshId<i>` determines i |
| Matrices.GenerateMatrixArray | GMDTool/Convert/GMDConverter.cs:1561-1570 | 16 values; the entry at row r, column c sits at position 4c+r (column-major order M11 M21 M31 M41 M12 …) |
| Matrices.FromColumnMajor | GMDTool/Convert/GMDConverter.cs:1561-1570 | reads a 16-value column-major array back into a matrix, entry by entry |
| Matrices.ColumnMajorRoundTrip | GMDTool/Convert/GMDConverter.cs:1561-1570 | reading back the serialised array gives the original matrix |
| Matrices.EntriesDetermine | GMDTool/Convert/GMDConverter.cs:1561-1570 | two matrices with the same 16 entries are equal |
| Matrices.SerialisationOfTranspose | GMDTool/Convert/GMDConverter.cs:1561-1570 | the column-major serialisation of a matrix is the row-major reading of its transpose: entry (r, c) at 4r+c of the transposed reading |
| Materials.ImageIdsExactlyFlagged | GMDTool/Convert/GMDConverter.cs:151-197 | a material has an image `<name>-<kind>-image` exactly when its map flag for that kind is set |
| Materials.ImageIdsInKindOrder | GMDTool/Convert/GMDConverter.cs:151-189 | a material's images follow the fixed kind order (diffuse, normal, specular, reflection, highlight, glow, night, detail, shadow) and are distinct |
| Materials.PresentMembers | GMDTool/Convert/GMDConverter.cs:151-189 | the flagged kinds are exactly the kinds whose flag is set |
| Materials.PresentOrdered | GMDTool/Convert/GMDConverter.cs:151-189 | the flagged kinds keep the fixed kind order |
| Materials.KindOrderSorted | GMDTool/Convert/GMDConverter.cs:151-189 | the kind order visits every kind once, in a strictly increasing rank |
| Materials.KindNameInjective | GMDTool/Convert/GMDConverter.cs:153-187 | distinct kinds have distinct names |
| Materials.TextureIdInjective | GMDTool/Convert/GMDConverter.cs:197 | the texture id of a material determines the kind |
| Materials.ParamsForAt | GMDTool/Convert/GMDConverter.cs:227-271 | effect params come as one surface and one sampler per flagged kind, in order |
| Materials.ParamsWired | GMDTool/Convert/GMDConverter.cs:324-357 | params alternate surface, sampler; every surface reads its kind's image and every sampler reads the surface declared just before it |
| Materials.EffectSurfacesHaveImages | GMDTool/Convert/GMDConverter.cs:227-271 | every surface of an effect refers to an image of the image library (with lines 324-340) |
| Materials.SamplerDeclared | GMDTool/Convert/GMDConverter.cs:227-271 | every flagged kind has its sampler, wired to its surface, among the effect's params (with lines 342-357) |
| Materials.PhongTextureChoice | GMDTool/Convert/GMDConverter.cs:284-313 | emission, diffuse and specular use a texture exactly when the glow, diffuse or specular map is present; a texture child names its kind's sampler |
| Materials.MaterialsResolveEffects | GMDTool/Convert/GMDConverter.cs:359-378 | material i of the material library is named after its material and its effect url is `#` + the id of effect i of the effect library; that url names effect j exactly when material j has the same name (with lines 207-217) |
| Materials.LibraryImagesMembers | GMDTool/Convert/GMDConverter.cs:147-192 | the image library holds every flagged image of every material |
| Materials.LibraryImagesSources | GMDTool/Convert/GMDConverter.cs:147-192 | conversely, every image in the image library is the image of some map a material holds |
| Materials.CreateLibraryImages | GMDTool/Convert/GMDConverter.cs:147-192 | the loop over materials builds the image library |
| Materials.CreateLibraryEffects | GMDTool/Convert/GMDConverter.cs:207-217 | the loop over materials builds one effect per material |
| Materials.CreateLibraryMaterials | GMDTool/Convert/GMDConverter.cs:359-378 | the loop over materials builds one material entry per material |
| Geometry.CollectMeshes | GMDTool/Convert/GMDConverter.cs:384-389 | the mesh list concatenates every node's meshes in node order |
| Geometry.AllMeshesMembers | GMDTool/Convert/GMDConverter.cs:384-389 | a mesh is in the list exactly when some node has it attached |
| Geometry.CreateLibraryGeometries | GMDTool/Convert/GMDConverter.cs:391-414 | the geometry loop builds, for each mesh, its base geometry and then one geometry per surviving morph target |
| Geometry.AppendMorphGeometries | GMDTool/Convert/GMDConverter.cs:398-412 | the morph loop skips all-zero targets and names the others `<meshId>_morphId<j>` |
| Geometry.FlattenTriangles | GMDTool/Convert/GMDConverter.cs:494 | the flattened triangle list has three indices per triangle |
| Geometry.PolylistConsistent | GMDTool/Convert/GMDConverter.cs:489-496 | `vcount` (3 repeated per triangle) sums to the length of `p`, and triangle t occupies positions 3t..3t+2 |
| Geometry.SumRepeatThree | GMDTool/Convert/GMDConverter.cs:490 | a `vcount` of n threes sums to 3n |
| Geometry.AccessorCountsElements | GMDTool/Convert/GMDConverter.cs:506-522 | each accessor's count is the number of values divided by the stride, which is the element count |
| Geometry.LibraryStep | GMDTool/Convert/GMDConverter.cs:391-414 | one more mesh appends exactly that mesh's geometries |
| Geometry.BaseGeometryExists | GMDTool/Convert/GMDConverter.cs:394-396 | every listed mesh has its base geometry `meshId<i>` in the library |
| Geometry.MorphGeometryExists | GMDTool/Convert/GMDConverter.cs:398-412 | every surviving morph target of a morphed mesh has its geometry in the library |
| SkinStream.BuildBoneMap | GMDTool/Convert/GMDConverter.cs:607-640 | the bone-map loop lists joints in first-encounter order, keyed by exactly those nodes, each holding that node's (vertex, weight) influences in scan order |
| SkinStream.ScanJointNodes | GMDTool/Convert/GMDConverter.cs:793-817 | the joint scan (and the identical bind-pose node scan, 853-879) yields the first-encounter joint order |
| SkinStream.JointOrderMembers | GMDTool/Convert/GMDConverter.cs:793-817 | a node is a joint exactly when some non-zero slot refers to it |
| SkinStream.JointOrderNoDup | GMDTool/Convert/GMDConverter.cs:812 | no node is listed twice |
| SkinStream.JointOrderByFirstEncounter | GMDTool/Convert/GMDConverter.cs:793-817 | joints appear in the order of their first weighted slot |
| SkinStream.Stream | GMDTool/Convert/GMDConverter.cs:609-622 | the scanned slots carry a valid vertex, a non-zero weight and a bone's node |
| SkinStream.FirstIndex | GMDTool/Convert/GMDConverter.cs:624 | the position where a node is first encountered |
| SkinStream.StreamCount | GMDTool/Convert/GMDConverter.cs:609-622 | the scan holds as many entries for vertex v as v has non-zero slots (with line 680) |
| SkinStream.EntryCountConcat | GMDTool/Convert/GMDConverter.cs:609-622 | counting entries per vertex distributes over concatenation |
| SkinStream.SlotEntriesCount | GMDTool/Convert/GMDConverter.cs:613-622 | one weight record contributes exactly its non-zero slots |
| SkinRemap.SkinWeightValues | GMDTool/Convert/GMDConverter.cs:923-931 | the weights float_array concatenates each joint's weights in joint order |
| SkinRemap.CountInfluences | GMDTool/Convert/GMDConverter.cs:690-697 | `influences[v]` counts the influences naming vertex v |
| SkinRemap.AccumulateInfluences | GMDTool/Convert/GMDConverter.cs:699-705 | `accumInfluences` holds the prefix sums of `influences`, and the total is their sum |
| SkinRemap.OffsetsLayout | GMDTool/Convert/GMDConverter.cs:699-705 | each vertex's block starts at the previous block's end and the blocks fill the total |
| SkinRemap.PlacePair | GMDTool/Convert/GMDConverter.cs:713-722 | the slot search writes the pair into the first free (-1) slot of the vertex's block, changing nothing else |
| SkinRemap.FillJointWeightIndices | GMDTool/Convert/GMDConverter.cs:707-725 | the sentinel-buffer fill yields the interleaved (joint, weight-index) pairs of every vertex block, so no -1 remains, and the final weight index equals the number of weights |
| SkinRemap.FilledIsInterleaved | GMDTool/Convert/GMDConverter.cs:707-725 | a buffer filled by every visit is the interleaving of the vertex blocks |
| SkinRemap.FillStep | GMDTool/Convert/GMDConverter.cs:713-722 | placing one visit keeps every earlier block slot filled and fills the next one |
| SkinRemap.Interleave | GMDTool/Convert/GMDConverter.cs:718-719 | `v` has two entries per pair: joint at 2i, weight index at 2i+1 |
| SkinRemap.ConcatAt | GMDTool/Convert/GMDConverter.cs:707-725 | pair l of block v sits at position offset(v)+l of the concatenation |
| SkinRemap.Locate | GMDTool/Convert/GMDConverter.cs:707-725 | every position of the concatenation lies in exactly one block |
| SkinRemapProperties.FlatVisitsLength | GMDTool/Convert/GMDConverter.cs:709-725 | the fill visits as many influences as there are weights (with lines 925-931) |
| SkinRemapProperties.VisitSource | GMDTool/Convert/GMDConverter.cs:709-725 | visit g is influence k of joint j, and weight g is that influence's weight (with lines 925-931) |
| SkinRemapProperties.VisitsJointOrder | GMDTool/Convert/GMDConverter.cs:709-712 | visits go joint by joint, every joint below the joint count |
| SkinRemapProperties.BlockMembers | GMDTool/Convert/GMDConverter.cs:707-725 | a vertex's block holds exactly the (joint, weight index) pairs of the visits naming that vertex |
| SkinRemapProperties.BlockIncreasing | GMDTool/Convert/GMDConverter.cs:707-725 | within a block, weight indices increase |
| SkinRemapProperties.ConcatDistinct | GMDTool/Convert/GMDConverter.cs:707-725 | no pair occurs twice in `v` |
| SkinRemapProperties.CountsSum | GMDTool/Convert/GMDConverter.cs:690-705 | the influence counts sum to the number of visits |
| SkinRemapProperties.WeightIndexPermutation | GMDTool/Convert/GMDConverter.cs:707-725 | the weight indices of `v` are a permutation of 0..total-1 and every joint ordinal is below the joint count |
| SkinRemapProperties.PairMeaning | GMDTool/Convert/GMDConverter.cs:709-725 | pair l of vertex v names a joint holding an influence on v whose weight is the one the pair indexes (with lines 925-931) |
| SkinRemapProperties.BlockOrder | GMDTool/Convert/GMDConverter.cs:709-725 | pairs inside a vertex block follow joint-list order, not weight order |
| SkinRemapProperties.BoneListsCount | GMDTool/Convert/GMDConverter.cs:607-640 | the bone lists hold as many influences on v as the scan has entries for v (with lines 690-697) |
| SkinRemapProperties.BoneListsVertices | GMDTool/Convert/GMDConverter.cs:607-640 | every influence of the bone lists names a vertex below the vertex count |
| SkinRemapProperties.InfluencesAreVCount | GMDTool/Convert/GMDConverter.cs:680 | `influences[v]` equals the emitted `vcount` of v (0 past the weight records) (with lines 690-697) |
| Controllers.CreateSkinController | GMDTool/Convert/GMDConverter.cs:570-737 | builds the skin of a weighted mesh as the specification of that skin states |
| Controllers.RemapWeights | GMDTool/Convert/GMDConverter.cs:606-727 | the remapper's methods, run in sequence, yield the flat weights and `v` of the bone lists (with lines 923-931) |
| Controllers.CreateMorphController | GMDTool/Convert/GMDConverter.cs:739-773 | builds the morph controller from the base geometry and the surviving targets |
| Controllers.SkinSourceChoice | GMDTool/Convert/GMDConverter.cs:582-598 | skin source is `#meshId-morph` iff standard pass and the mesh has morph targets, else `#meshId` |
| Controllers.SkinJoints | GMDTool/Convert/GMDConverter.cs:784-879 | joint names match the bind-pose nodes one to one, no node twice, 16 bind-pose values per joint, and the joints are exactly the nodes with a weighted slot |
| Controllers.SkinWeightsSized | GMDTool/Convert/GMDConverter.cs:663 | `vcount` has one entry per weight record, sums to the number of weights, and `v` holds one pair per weight (with lines 680, 690-705, 923-931) |
| Controllers.SkinPairsInRange | GMDTool/Convert/GMDConverter.cs:707-725 | every pair names an existing joint and an existing weight, and no weight is named twice |
| Controllers.SkinWeightUsed | GMDTool/Convert/GMDConverter.cs:707-725 | every weight is named by some pair (with lines 923-931) |
| Controllers.SkinVertexInfluence | GMDTool/Convert/GMDConverter.cs:606-727 | pair l of vertex v is one of v's weighted slots: the joint its bone refers to, and the weight it carries |
| Controllers.MorphControllerTargets | GMDTool/Convert/GMDConverter.cs:739-773 | a morph controller reads the base geometry; its targets are the ids of the morph geometries built for the surviving targets, in order, each with weight 0; target j is named iff it exists and is not all zero (with lines 959-1043) |
| Controllers.MorphTargetsInLibrary | GMDTool/Convert/GMDConverter.cs:739-773 | every target a morph controller in the library names is the id of a geometry in the geometry library, the one built for that surviving target (with lines 398-412) |
| Controllers.FlaggedMembers | GMDTool/Convert/GMDConverter.cs:564-573 | the controller loops emit exactly for meshes with the flag (with lines 740-748) |
| Controllers.FlaggedIncreasing | GMDTool/Convert/GMDConverter.cs:564 | controllers come in mesh order (with line 740) |
| Controllers.SkinInLibrary | GMDTool/Convert/GMDConverter.cs:564-737 | every weighted mesh has its skin in the library |
| Controllers.MorphInLibrary | GMDTool/Convert/GMDConverter.cs:740-779 | every morphed mesh has its morph controller in the library |
| Controllers.SkinControllersStep | GMDTool/Convert/GMDConverter.cs:564-737 | one more mesh appends its skin exactly when it has vertex weights |
| Controllers.MorphControllersStep | GMDTool/Convert/GMDConverter.cs:740-779 | one more mesh appends its morph controller exactly when it has morph targets |
| Controllers.LibrarySkinId | GMDTool/Convert/GMDConverter.cs:564-577 | entry p of the skin part of the controller library belongs to a mesh i with vertex weights and is named `meshId<i>-skin` |
| Controllers.LibraryMorphId | GMDTool/Convert/GMDConverter.cs:740-751 | entry q after the skins in the controller library belongs to a mesh i with morph targets and is named `meshId<i>-morph` |
| Controllers.WorkedSkinExample | GMDTool/Convert/GMDConverter.cs:606-727 | for bones A, B and weight records (A 0.5, B 0.5) and (B 1.0), the skin has joints [A, B], vcount [2, 1], weights [0.5, 0.5, 1.0] and v [0, 0, 1, 1, 1, 2] |
| Controllers.SkinIdsDistinct | GMDTool/Convert/GMDConverter.cs:577 | skin ids are distinct |
| Controllers.MorphIdsDistinct | GMDTool/Convert/GMDConverter.cs:751 | morph controller ids are distinct |
| Controllers.SkinMorphIdsDistinct | GMDTool/Convert/GMDConverter.cs:577 | no skin shares an id with a morph controller (with line 751) |
| Morph.MorphTargetNames | GMDTool/Convert/GMDConverter.cs:966-981 | the IDREF list names the surviving targets by their original index |
| Morph.MorphTargetCount | GMDTool/Convert/GMDConverter.cs:1009-1017 | the weight count is the number of surviving targets |
| Morph.SurvivorsMembers | GMDTool/Convert/GMDConverter.cs:966-971 | a target survives exactly when not all its vertices are zero |
| Morph.SurvivorsIncreasing | GMDTool/Convert/GMDConverter.cs:966 | survivors keep their original order |
| Morph.DegenerateTargetDropped | GMDTool/Convert/GMDConverter.cs:968-971 | an all-zero target is never named |
| Morph.SurvivorNamed | GMDTool/Convert/GMDConverter.cs:966-975 | every surviving target is named, with its original index |
| Morph.TargetIdsDistinct | GMDTool/Convert/GMDConverter.cs:966-981 | target names are distinct |
| Morph.MorphTargetIdInjective | GMDTool/Convert/GMDConverter.cs:409 | `<meshId>_morphId<j>` determines j |
| SceneWalk.IndexOf | GMDTool/Convert/GMDConverter.cs:1442 | the first position of the mesh, -1 exactly when it is absent (with line 1497) |
| SceneWalk.LastIndexOf | GMDTool/Convert/GMDConverter.cs:1191-1198 | the last position of the mesh, -1 exactly when it is absent |
| SceneWalk.FindMeshIndex | GMDTool/Convert/GMDConverter.cs:1191-1198 | the search loop, which does not stop at a match, settles on the last position |
| SceneWalk.OneJointPairs | GMDTool/Convert/GMDConverter.cs:1268-1272 | `v` of a relocated skin is the pair (0, i) for each vertex i |
| SceneWalk.JointMeshAttachmentPairs | GMDTool/Convert/GMDConverter.cs:1268-1272 | the loop writes exactly those pairs |
| SceneWalkProperties.ControllerInstanceResolves | GMDTool/Convert/GMDConverter.cs:1440-1466 | a controller instance exists iff the mesh has weights or morph targets; its url names the mesh's skin (weights win) or else its morph controller in the library; only a skin names the skeleton `#root` |
| SceneWalkProperties.GeometryInstanceResolves | GMDTool/Convert/GMDConverter.cs:1495-1501 | a geometry instance names the mesh's base geometry in the library |
| SceneWalkProperties.RelocateOutcome | GMDTool/Convert/GMDConverter.cs:1174-1335 | relocation fails exactly for a mesh with weights, with morph targets, or missing from the list (in that order); otherwise it appends one skin and one root node and nothing else |
| SceneWalkProperties.RelocatedSkinWellFormed | GMDTool/Convert/GMDConverter.cs:1207-1282 | the relocated skin's sole joint is the parent; there is one weight per vertex, each 1; `vcount` is all 1 and sums to the weights; `v` is the pair (0, k) for each vertex k, so it is in range and names each weight once; its source is the base geometry (with lines 1337-1438) |
| SceneWalkProperties.RelocateAllOutcome | GMDTool/Convert/GMDConverter.cs:1174-1335 | relocating a list of meshes succeeds iff each has no weights, no morph targets and is in the mesh list; then it appends one skin and one root node per mesh, in order, and raises the flag when the list is not empty (with lines 1130-1142) |
| SceneWalkProperties.BlenderAttachments | GMDTool/Convert/GMDConverter.cs:1119-1162 | in Blender mode below a joint, the attachment loop relocates every mesh it meets (the `break` leaves only the `switch`), emits no instance, and skips the node iff it met a mesh |
| SceneWalkProperties.SumOfOnes | GMDTool/Convert/GMDConverter.cs:1260 | a `vcount` of n ones sums to n |
| SceneWalkProperties.StandardAttachments | GMDTool/Convert/GMDConverter.cs:1117-1162 | in the standard pass the attachment loop never fails or skips, yields one instance per mesh in order, and raises the flag iff the parent is a joint and a mesh is attached |
| SceneWalkProperties.AttachmentsSkip | GMDTool/Convert/GMDConverter.cs:1119 | a node is skipped iff Blender mode, its parent is a joint and it carries a mesh (with lines 1136-1142) |
| SceneWalkProperties.AttachmentsErrStays | GMDTool/Convert/GMDConverter.cs:1121-1162 | an exception ends the attachment loop |
| SceneWalkProperties.StandardWalkChildren | GMDTool/Convert/GMDConverter.cs:1060-1172 | the standard walk never fails, leaves the controllers alone and raises the flag iff a mesh hangs below a joint |
| SceneWalkProperties.StandardWalkNode | GMDTool/Convert/GMDConverter.cs:1077-1170 | in the standard pass a node is emitted iff it is not pruned, and an emitted node holds one instance per mesh attachment, in order (with lines 1121-1162) |
| SceneWalkProperties.WalkChildrenErrStays | GMDTool/Convert/GMDConverter.cs:1077-1170 | an exception ends the walk |
| SceneWalkProperties.KeptNode | GMDTool/Convert/GMDConverter.cs:1092-1110 | an emitted node is unpruned and unrelocated, keeps its name and local transform, and is JOINT iff some bone refers to it (with lines 1165-1170) |
| SceneWalkProperties.RelocatedAtRoot | GMDTool/Convert/GMDConverter.cs:1130-1142 | in Blender mode a node carrying meshes below a joint succeeds iff each of its meshes is relocatable; then the node and its subtree are dropped, one skin and one root node per mesh are appended in order, and the flag is raised (with lines 1164-1170) |
| Convert.StandardPass | GMDTool/Convert/GMDConverter.cs:76-109 | the standard pass never fails, raises the flag iff some mesh has both weights and morph targets or hangs below a joint, and its controllers are the library's (with lines 559-562, 1134) |
| Convert.ExportPasses | GMDTool/Convert/GMDConverter.cs:54-74 | the standard document is saved first; a second pass runs iff the option is on and the flag is set, and saves to the `_blender` path |
| Convert.SavePathsDiffer | GMDTool/Convert/GMDConverter.cs:97-107 | the Blender document never overwrites the standard one |
| Convert.GMDConverter.constructor | GMDTool/Convert/GMDConverter.cs:26-29 | starts outside Blender mode with the flag down and nothing saved (with lines 41-52) |
| Convert.GMDConverter.FindBone | GMDTool/Convert/GMDConverter.cs:1064-1090 | the bone search finds a bone exactly when one refers to the node |
| Convert.GMDConverter.HandleJointMeshAttachment | GMDTool/Convert/GMDConverter.cs:1174-1335 | updates the controller library and the scene root as relocation specifies, or returns its exception and leaves both unchanged |
| Convert.GMDConverter.VisitAttachments | GMDTool/Convert/GMDConverter.cs:1117-1164 | the attachment loop's instances, skip decision and state are those of the attachment fold |
| Convert.GMDConverter.RecurseNodeChildren | GMDTool/Convert/GMDConverter.cs:1060-1172 | the recursive walk's output and state are those of the walk specification |
| Convert.GMDConverter.VisitChild | GMDTool/Convert/GMDConverter.cs:1079-1170 | one child is pruned, skipped after relocation, or emitted with its instances and walked children |
| Convert.GMDConverter.CreateLibraryControllers | GMDTool/Convert/GMDConverter.cs:555-782 | raises the flag when some mesh has both weights and morph targets, then builds all skins followed by all morph controllers |
| Convert.GMDConverter.CreateSkinControllers | GMDTool/Convert/GMDConverter.cs:564-737 | the library holds one skin per mesh with vertex weights, in mesh order, each equal to the skin specified for that mesh |
| Convert.GMDConverter.AppendMorphControllers | GMDTool/Convert/GMDConverter.cs:740-779 | after the skins, the library gains one morph controller per mesh with morph targets, in mesh order |
| Convert.GMDConverter.GenerateXml | GMDTool/Convert/GMDConverter.cs:76-109 | saves the document of one pass and leaves the flag as the pass specifies, or returns the pass's exception without saving |
| Convert.GMDConverter.Export | GMDTool/Convert/GMDConverter.cs:54-74 | the saved documents, the final mode and the exception are those of the two-pass outcome |

## Left out

- The XML DOM, `XmlDocument.Save`, the XML declaration and the namespace
  strings. Each library is a sequence of values. The `<asset>` element
  (timestamps from the clock) and the `<scene>` element pointing at
  `#RootNode` are not modelled.
- Float arithmetic:
  - the inverse bind matrices (884-885, 1379-1380);
  - the addition of morph positions to base positions (433-436);
  - the UV `1 - y` flip (446);
  - colours, and the formatting of floats and matrices as text.

  A skin records which nodes its bind poses come from, not the matrices.
  For a relocated skin that node is the attachment node itself, as the
  source passes it. Weights are `real` and only their zero test matters.
- Texture export to disk, the loading of the model pack, console output,
  and the `Path` calls. The save path is a plain concatenation of
  directory, file name, an optional `_blender` suffix and extension.
- GMDTool/Program.cs (command-line parsing, exception messages) is not
  part of this model. The options record is reduced to its two booleans.
- `Morph` attachments and other attachment types are ignored, as in the
  source.
- GenerateMatrixString (GMDTool/Convert/GMDConverter.cs:1552-1559) writes the
  same 16 values in the same column-major order as `GenerateMatrixArray`, so
  the model uses `GenerateMatrixArray` for both; the text formatting of the
  floats is not modelled.
- The `meshNode` lookup (`Nodes.First(...)`, 569 and 1220) feeds only bind-pose
  arithmetic and is not modelled.
- Texture `init_from` paths, the names and params of sources, and the
  `<bind_material>` symbol are not modelled. An instance records only its
  url, skeleton, material target and whether it binds texture channel 0.
- Assumptions rather than proofs:
  - insertion-order enumeration of the bone `Dictionary`;
  - that `GetNode` is injective and that a node's index is its position;
  - the loader's guarantees on weight records (four slots, each weighted
    slot naming a bone, no more records than vertices), stated as `Loadable`
    and asked only of meshes flagged with vertex weights, the only ones whose
    records the skin code reads.
- SceneWalkProperties.KeptNode, SceneWalkProperties.AttachmentsSkip and
  SceneWalkProperties.RelocatedAtRoot: in a Blender pass they describe an
  emitted node's own fields, the skip decision and the relocation of the
  meshes below a joint; the instances of a node kept in a Blender pass are
  stated only through `VisitAttachments` and the `Attachments` fold
  (for the standard pass, `StandardWalkNode` states them).
