# Studio viewer: floor-material pass and parallax camera

A Dafny model of the two pieces of logic in the studio viewer component of the
4reddstuido site (`src/components/ui/StudioViewer.tsx`):

- **The floor-material pass** of the `Model` component. Once the studio asset is
  decoded, the pass traverses the scene graph. For every mesh it lower-cases the
  name and calls the mesh floor-like when the name contains one of `floor`,
  `plane`, `zemin`, `parke` or `ground` and does not contain `mirror`. It gives the
  material of every floor-like mesh that has one the floor finish: colour
  `0x888888`, roughness 0.8, metalness 0.1, environment-map intensity 0.2, and
  the dirty flag `needsUpdate`. Nothing else is written.
- **The camera controller.** On mount it places the camera at (30, 2, -10) and
  aims it at (38, 1.6, -20). Every frame it aims the camera at
  (38 + 15·mx, 1.6 + 5·my, -20), where (mx, my) is the normalised pointer.

## Layout

| file | module | contents |
|---|---|---|
| `names.dfy` | `FloorNames` | ASCII lower-casing, substring search, the floor-like test, and its case-insensitive characterisation |
| `name_scenarios.dfy` | `FloorNameScenarios` | the concrete names `Floor_Parquet`, `Mirror_Floor`, `MIRROR_FLOOR` and `Wall_01` |
| `materials.dfy` | `Materials` | the material record, `setHex` colour channels, and the floor finish |
| `scene.dfy` | `Scene` | scene-graph nodes and the pre-order visit of `Object3D.traverse` |
| `floor_pass.dfy` | `FloorPass` | the traverse callback and the pass as methods on a material store, and the specification function `Rewrite` with its lemmas |
| `camera.dfy` | `CameraControl` | the parallax target function, and the camera and controller classes |

### How the state is modelled

- Three.js materials are objects that meshes share by reference, and the pass
  changes them in place. Here they are an `array<Material>`, the material store,
  and a mesh holds the index of its material's slot. Two meshes that share a
  material hold the same index.
- Scene nodes are datatype values. The pass reads a node's kind, name and
  children and never writes them, so names and structure cannot change.
- `Traverse` is a recursive method. It runs the callback `RetintIfFloor` on a
  node and then on each child's subtree, as `Object3D.traverse` does. Its
  `ensures` ties the new store to `Rewrite(old store, Visits(root))`. The lemmas
  about `Rewrite` state which slots change, to what value, and what stays the
  same. They also prove idempotence and that the visiting order does not matter.
- The camera is a class with a `position` and the `target` it was last aimed
  at. The controller is a class holding the camera, its two constant vectors and
  the scratch vector `vec`, which it reuses every frame. `Mount` is the only
  method that writes the position. `Tick` writes only `vec` and the target.

### Mirrors and shared materials

The comment at `StudioViewer.tsx:86` says mirrors are excluded from the pass.
The test on line 87 looks only at the mesh's own name, and lines 94-105 then
write to the mesh's material object, which several meshes may share. So when a
mirror mesh shares its material with a floor mesh, the mirror's material is
rewritten too. The model follows the code. `FloorPass.MirrorSlotKept` states the guarantee that
does hold: a material used only by mirror meshes is left unchanged.
`FloorPass.SharedMaterialRetinted` shows the shared case.

## Model

| member | source | states |
|---|---|---|
| `FloorNames.LowerChar` | src/components/ui/StudioViewer.tsx:82 | lower-casing one character yields no upper-case letter, maps 'A'..'Z' to 'a'..'z', and keeps every other character |
| `FloorNames.Lower` | src/components/ui/StudioViewer.tsx:82 | `toLowerCase` keeps the length, turns every upper-case letter into its own lower-case letter, leaves no upper-case letter, and keeps every other character |
| `FloorNames.Contains` | src/components/ui/StudioViewer.tsx:87 | `includes` is true exactly when the word occurs at some position of the text |
| `FloorNames.ContainsAny` | src/components/ui/StudioViewer.tsx:87 | the alternation pattern matches exactly when one of its alternatives occurs in the name |
| `FloorNames.IsFloorLike` | src/components/ui/StudioViewer.tsx:87 | the test holds exactly when one of the five keywords starts at some position of the lower-cased name and "mirror" starts at none |
| `FloorNames.ContainsLowerIff` | src/components/ui/StudioViewer.tsx:82-87 | searching the lower-cased name for a lower-case word finds it exactly when the word occurs in the original name in some mix of cases |
| `FloorNames.FloorLikeIff` | src/components/ui/StudioViewer.tsx:82-87 | a mesh is floor-like exactly when its name contains one of the five keywords in some case and does not contain "mirror" in any case |
| `FloorNames.MirrorNeverFloorLike` | src/components/ui/StudioViewer.tsx:86-87 | a name containing "mirror" in any case is never floor-like, whatever else it contains |
| `FloorNames.KeywordMakesFloorLike` | src/components/ui/StudioViewer.tsx:84-87 | a name containing a floor keyword in any case, and "mirror" in no case, is floor-like |
| `FloorNameScenarios.FloorParquetIsFloorLike` | src/components/ui/StudioViewer.tsx:84-87 | "Floor_Parquet" is floor-like |
| `FloorNameScenarios.MirrorFloorIsExcluded` | src/components/ui/StudioViewer.tsx:86-87 | "Mirror_Floor" matches the floor pattern but is excluded |
| `FloorNameScenarios.UpperCaseMirrorIsExcluded` | src/components/ui/StudioViewer.tsx:82-87 | "MIRROR_FLOOR" is excluded too, because the test runs on the lower-cased name |
| `FloorNameScenarios.WallIsNotFloorLike` | src/components/ui/StudioViewer.tsx:87 | "Wall_01" matches none of the keywords |
| `Materials.FromHex` | src/components/ui/StudioViewer.tsx:94 | the blue channel that `setHex` stores is the low byte of the hexadecimal colour |
| `Materials.ToHex` | src/components/ui/StudioViewer.tsx:94 | joining three channels gives a 24-bit colour value |
| `Materials.HexRoundTrip` | src/components/ui/StudioViewer.tsx:94 | a 24-bit colour value survives being split into channels and joined again |
| `Materials.RgbRoundTrip` | src/components/ui/StudioViewer.tsx:94 | three channels survive being joined into a colour value and split again |
| `Materials.Retint` | src/components/ui/StudioViewer.tsx:94-105 | the floor finish has channels (0x88, 0x88, 0x88), roughness 0.8, metalness 0.1, environment-map intensity 0.2, and the dirty flag set |
| `Materials.RetintConstant` | src/components/ui/StudioViewer.tsx:94-105 | the floor finish does not depend on the material it replaces, so applying it twice is applying it once |
| `Scene.Visits` | src/components/ui/StudioViewer.tsx:79 | the traversal hands the root to the callback first |
| `Scene.InTreeIff` | src/components/ui/StudioViewer.tsx:79 | the traversal visits a node exactly when it is the root or lies in the subtree of one of its children |
| `FloorPass.FloorSlot` | src/components/ui/StudioViewer.tsx:80-90 | the callback writes a material exactly when the node is a mesh, has a material, and its lower-cased name is floor-like; that material is the mesh's own |
| `FloorPass.Touch` | src/components/ui/StudioViewer.tsx:80-107 | one visit keeps the store's size, gives the floor finish to the slot the callback writes, and keeps every other slot |
| `FloorPass.Rewrite` | src/components/ui/StudioViewer.tsx:79-107 | after the visits, a slot that a floor-like mesh refers to holds the floor finish, and every other slot is unchanged; the store keeps its size |
| `FloorPass.RewriteAppend` | src/components/ui/StudioViewer.tsx:79 | visiting one node list and then another is the same as visiting their concatenation |
| `FloorPass.RewriteIdempotent` | src/components/ui/StudioViewer.tsx:94-105 | running the pass twice on the same scene gives the same materials as running it once |
| `FloorPass.RewriteOrderIrrelevant` | src/components/ui/StudioViewer.tsx:79 | any permutation of the visiting order gives the same materials |
| `FloorPass.FloorMeshRetinted` | src/components/ui/StudioViewer.tsx:79-105 | every floor-like mesh anywhere in the scene tree that has a material ends with colour 0x888888, roughness 0.8, metalness 0.1, environment-map intensity 0.2 and the dirty flag set |
| `FloorPass.UnmatchedSlotKept` | src/components/ui/StudioViewer.tsx:79-90 | a material that no floor-like mesh of the scene tree refers to is left exactly as it was; this covers non-mesh nodes, meshes whose names do not match, and meshes without a material |
| `FloorPass.MirrorSlotKept` | src/components/ui/StudioViewer.tsx:86-87 | a material used only by meshes with "mirror" in the name, in any case, is left unchanged even when those names contain "floor" |
| `FloorPass.SharedMaterialRetinted` | src/components/ui/StudioViewer.tsx:87-105 | a mirror mesh that shares its material with a floor mesh sees that material rewritten |
| `FloorPass.RetintIfFloor` | src/components/ui/StudioViewer.tsx:79-107 | the traverse callback writes the floor finish into the material of a floor-like mesh that has one, and changes nothing otherwise |
| `FloorPass.Traverse` | src/components/ui/StudioViewer.tsx:79-109 | the traversal leaves the store equal to `Rewrite` of the old store over the visits of the subtree |
| `FloorPass.ApplyFloorMaterials` | src/components/ui/StudioViewer.tsx:77-111 | without a scene, nothing changes; with one, each slot holds the floor finish if a floor-like mesh refers to it, and is unchanged otherwise |
| `CameraControl.ParallaxTarget` | src/components/ui/StudioViewer.tsx:56-63 | the per-frame target stays at depth -20; for a pointer in [-1, 1]² its x lies in [23, 53] and its y in [-3.4, 6.6]; it equals the base target exactly when the pointer is centred |
| `CameraControl.ParallaxTargetExplicit` | src/components/ui/StudioViewer.tsx:56-63 | the target is (38 + 15·mx, 1.6 + 5·my, -20) |
| `CameraControl.PointerForTarget` | src/components/ui/StudioViewer.tsx:56-60 | the target determines the pointer position it was computed from |
| `CameraControl.TargetForPointer` | src/components/ui/StudioViewer.tsx:56-60 | every point at depth -20 is the target of some pointer position |
| `CameraControl.CornerTarget` | src/components/ui/StudioViewer.tsx:56-63 | pointer (1, -1) aims at (53, -3.4, -20) |
| `CameraControl.TargetBoxExact` | src/components/ui/StudioViewer.tsx:56-63 | every point of the box [23, 53] × [-3.4, 6.6] at depth -20 is the target of a pointer inside the viewport |
| `CameraControl.Camera.LookAt` | src/components/ui/StudioViewer.tsx:64 | aiming the camera sets its target and leaves its position alone |
| `CameraControl.Controller.constructor` | src/components/ui/StudioViewer.tsx:30-42 | the controller holds the camera it was given and a zero scratch vector; its constant vectors are the fixed position (30, 2, -10) and the base target (38, 1.6, -20) |
| `CameraControl.Controller.Mount` | src/components/ui/StudioViewer.tsx:45-48 | mounting puts the camera at (30, 2, -10) and aims it at (38, 1.6, -20) |
| `CameraControl.Controller.Tick` | src/components/ui/StudioViewer.tsx:50-65 | each frame aims the camera at the parallax target of the current pointer alone, and leaves the position unchanged |
| `CameraControl.Controller.RunFrames` | src/components/ui/StudioViewer.tsx:50-65 | over any sequence of frames the position never moves, and the camera faces the last frame's target |
| `CameraControl.MountThenRender` | src/components/ui/StudioViewer.tsx:45-65 | after mounting and any number of frames, the camera is still at (30, 2, -10) |

## Left out

- The loading overlay `Loader` (lines 8-28): it only displays the loader's progress value, rounded.
- Asset fetching and decoding by `useGLTF`, and the `Suspense` fallback (lines 75, 159-162): asynchronous I/O done by a library. The decoded scene is an input tree, and `if (scene)` becomes an `Option`.
- The `Canvas` configuration, tone mapping, colour space, background colour and lighting rig (lines 128-165): they are fixed settings handed to the renderer, with no logic.
- Re-running the effects when React gives a new `scene` or `camera`: each run is one call of `ApplyFloorMaterials` or `Mount`.
- `camera.lookAt` orientation maths inside three.js: the camera records the point it is aimed at and nothing more.
- IEEE floating point: positions, targets and material scalars are reals. The claims are linear identities and bounds.
- Arrays of materials on one mesh: the code treats `mesh.material` as a single material, so a mesh holds at most one material reference.
- Materials without the standard-material attributes: every material has all five fields. In the source, a floor-like mesh whose material has no `color`, or whose `material` is an array (line 89 only casts it), makes line 94 throw a `TypeError`, and the traversal stops partway. The model has no such failure.
- Material attributes the pass does not touch, such as texture maps: they are not modelled, and the pass never writes them.
- `FloorNames.Lower`: models `toLowerCase` for ASCII letters only. Unicode case mapping, such as Turkish dotted I, is not modelled.
- `FloorNames.LowerChar`: the same ASCII-only restriction, for one character; a non-ASCII capital is kept as it is.
- `Materials.FromHex`: stores 8-bit sRGB channels. It does not model three.js's conversion into linear floating-point channels.
- `Materials.Retint`: `needsUpdate` is a boolean flag. In three.js, setting it bumps a material version counter, which rises again on a second run.
- The pure wrappers `HeroSection.tsx` and `page.tsx`: they only present the viewer.
