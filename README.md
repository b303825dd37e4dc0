# Cloth simulation bookkeeping, modelled in Dafny

This project models the integer bookkeeping around a cloth simulation that
runs on the GPU (build/app.js), and the CPU variant of the same cloth
(js/index.js). The floating-point physics is not modelled. What is modelled:

- **Topology** (`Topology`): `populateConstraints` walks an indexed triangle
  list. It records each vertex's face pairs and a symmetric adjacency list,
  and it pushes one distance constraint per undirected edge.
  `populateColors` then edge-colours the constraints first-fit into per-vertex
  colour slots. `calculate` runs the two in order.
- **Packing** (`Packing`): `createConstraintsTexture` and `createFacesTexture`
  write vertex indices as little-endian byte pairs into RGBA byte textures.
  An empty slot gets the sentinel `length + 1`. The shaders decode
  `r * 255 + g * 255 * 256` and reject the sentinel.
- **Picking** (`Picking`): the pointer state `interacting` / `psel`, the mouse
  handlers, and the nearest-vertex pick of `updating` (GPU) and `updateMouse`
  (CPU).
- **Pass pipeline** (`Pipeline`): the render passes `integrate`,
  `solveConstraints`, `mouseOffset` and `computeVertexNormals`, the rotation
  of the ping-pong render targets between them, the fixed pass order of
  `update`, and which texture slot each pass consumes.
- **CPU variant** (`CpuCloth`): `createParticles` (the same edge extraction)
  and the order in which `simulate` visits particles and constraints.

Vertex indices are `nat`. A render target is an abstract buffer identity. A
pass is recorded by its kind, the targets it samples and the target it renders
into; the log of passes is ghost state of the `RenderTargets` class. Distances
from the pointer to the vertices are a given `seq<real>`, and whether the
pointer ray meets the sphere or mesh is a given `bool`. The module-level
arrays `faces`, `constraints` and `colors`, and the local `adjacency`, are
values built by methods and returned as out-parameters.

## Model

| member | source | states |
|---|---|---|
| Topology.AddEdge | build/app.js:71-77 | a guarded insertion adds `[u, v]` only when `u` is not yet a neighbour of `v`; adjacency stays exactly the edges of the constraint list, and no edge is listed twice |
| Topology.InsertEdgeKeeps | build/app.js:71-77 | a guarded insertion adds exactly the edge {u, v} to the listed edges and keeps the list duplicate-free and in range |
| Topology.AddTriangleEdges | build/app.js:71-91 | one triangle's three insertions, in the order `[a, b]`, `[a, c]`, `[b, c]`, add exactly its three undirected edges |
| Topology.ConstraintListEdges | build/app.js:59-92 | the constraint list stands for exactly the mesh's undirected edges, each once, whatever the triangle order or winding |
| Topology.PushFaces | build/app.js:67-69 | each triangle appends `[b, c]` at `a`, `[c, a]` at `b`, `[a, b]` at `c`, and changes no other vertex's list |
| Topology.TriangleAddsOneFacePerCorner | build/app.js:67-69 | a non-degenerate triangle adds exactly one face pair to each of its corners and none elsewhere |
| Topology.FacesAreRotations | build/app.js:67-69 | every face pair recorded at `v` closes a mesh triangle with `v`, keeping its winding |
| Topology.AdjacencySymmetric | build/app.js:73-74 | adjacency built from undirected edges is symmetric: `v` is in `adj[u]` iff `u` is in `adj[v]` |
| Topology.PopulateConstraints | build/app.js:54-93 | face lists per vertex, a symmetric adjacency that is exactly the mesh edges, and a duplicate-free constraint list covering exactly those edges, in push order |
| Topology.FirstFreeSlot | build/app.js:102-113 | the inner loop ends at a slot free at both endpoints, and every smaller slot is taken at one of them |
| Topology.AssignExtends | build/app.js:108-109 | the two assignments fill slot `k` at both endpoints, each naming the other, and overwrite nothing |
| Topology.ColoringStep | build/app.js:98-115 | one colouring step keeps the invariants: every coloured constraint held at both ends, slots symmetric, every slot filled by a constraint, no two touching constraints share a colour, first fit |
| Topology.PopulateColors | build/app.js:95-116 | every constraint sits in one slot at both endpoints; slots are symmetric; no vertex has two constraints of one colour; each colour is the smallest not taken by an earlier touching constraint |
| Topology.Calculate | build/app.js:28-41 | preprocessing yields the face lists, the constraint list of the mesh edges, and a proper first-fit colouring of it in which every filled slot was filled by a constraint |
| Topology.SlotNamesConstraint | build/app.js:95-116 | a filled colour slot `k` of vertex `v` belongs to a constraint at `v` coloured `k` and names its other endpoint, so the slots hold only edges of the constraint list |
| Packing.DecodeEncode | build/app.js:553-554 | the stored byte pair (`idx % 256`, then `~~(idx / 256)` wrapped by the `Uint8Array`) decodes to `idx` modulo 65536 |
| Packing.RoundTrip | build/app.js:230 | below 65536 the shader decode gives back the stored index |
| Packing.Resolution | build/app.js:430 | the texture side is the least `r` with `r * r >= n` |
| Packing.StoreIndex | build/app.js:553-554 | the two stores fill exactly one channel of one texel with the index's byte pair and leave every other byte unchanged |
| Packing.CreateConstraintsTexture | build/app.js:538-570 | texel `i` holds colour slots `k` and `k + 1` of vertex `i`, sentinel `length + 1` when empty, zero past the vertices; the shader decode gives back the slot's neighbour or nothing |
| Packing.CreateFacesTexture | build/app.js:572-604 | texel `i` holds the two corners of face slot `k` of vertex `i`, or the sentinel; the normal shader decodes the face or nothing |
| Packing.ConstraintsTextureDecodes | build/app.js:241 | the constraint shader relaxes toward the slot's neighbour when the slot is filled, and zeroes the correction on the sentinel |
| Packing.FacesTextureDecodes | build/app.js:331-339 | the normal shader adds the face when the slot is filled and skips the sentinel |
| Packing.MeshFacesBelow | build/app.js:67-69 | every face pair pushed for the triangles of an `n`-vertex mesh names vertices below `n`, which the faces-texture decode lemmas require |
| Picking.Nearest | build/app.js:156-164 | the scan from `Infinity` finds nothing on no vertices, and otherwise the first index of strictly smallest distance |
| Picking.NearestIndex | js/index.js:205-214 | the loop finds that same index |
| Picking.Dragging | build/app.js:174 | `(interacting && psel)` is true only when interacting with a defined pick other than 0; index 0 is never dragging |
| Picking.Pick | build/app.js:148-164 | no change unless interacting and the ray hits; an existing pick is kept; a new pick is the nearest vertex |
| Picking.PickKept | build/app.js:155 | picking again within the same press changes nothing |
| Picking.Picker.constructor | build/app.js:125-127 | the pointer state starts with `interacting` false and no pick |
| Picking.Picker.OnMouseDown | build/app.js:181-185 | the left button sets `interacting`; other buttons change nothing |
| Picking.Picker.OnMouseUp | js/index.js:297-302 | releasing the left button clears `interacting` and the pick; other buttons change nothing |
| Picking.Picker.Updating | build/app.js:146-175 | the pick is updated as `Pick` says, and the result is true exactly when dragging; false when not interacting |
| Picking.Picker.UpdateMouse | js/index.js:195-228 | the same pick update; nothing changes when not interacting |
| Pipeline.RenderTargets.constructor | build/app.js:449-454 | the six render targets, each created separately and so all different, take their roles; no pass is issued yet |
| Pipeline.RenderTargets.Integrate | build/app.js:606-626 | renders from original, previous and position into target, then rotates previous, position and target |
| Pipeline.RenderTargets.SolveConstraints | build/app.js:628-648 | pass `offset` samples constraint texture `offset / 2`, channel `offset % 2`, and swaps position and target |
| Pipeline.RenderTargets.MouseOffset | build/app.js:650-666 | renders the mouse pass keyed by `psel` from position into target, then swaps the two |
| Pipeline.RenderTargets.ComputeVertexNormals | build/app.js:668-684 | pass `id` samples face texture `id`, resets only when `id == 0`, and swaps the normal targets |
| Pipeline.RenderTargets.Iterate | build/app.js:692-698 | one iteration: a mouse pass exactly when `updating()` is true and `i + 5 < steps`, then the eight constraint passes; every pass samples the rest positions `originalRT` and renders into position or target, never `previousRT`; `previousRT` is untouched, and position and target end swapped exactly when the mouse pass ran |
| Pipeline.RenderTargets.SolveAllConstraints | build/app.js:694-698 | the eight constraint passes in order, each sampling what the previous one wrote and the rest positions `originalRT`, and rendering into position or target, never `previousRT`; after the eight swaps every position handle is back where it was |
| Pipeline.RenderTargets.ComputeAllNormals | build/app.js:701-705 | the six normal passes in order, each sampling what the previous one wrote and the current `positionRT`, and rendering only into the two normal buffers; after the six swaps `normalsRT` and `ntargetRT` are back where they started, so the texture bound once for display (build/app.js:879) holds the new normals |
| Pipeline.RenderTargets.Solve | build/app.js:690-699 | the 60 iterations, each with the same drag target; every pass samples `originalRT` and renders into position or target, never `previousRT`; `previousRT` is untouched, and position and target end swapped exactly when there is a drag target (55 mouse passes, an odd number) |
| Pipeline.RenderTargets.Advance | build/app.js:686-699 | `integrate` and the 60 iterations: every pass samples `originalRT` and renders into a position buffer other than the frame's starting one, which ends as `previousRT`; position and target end as the old previous and target when dragging, the old target and previous otherwise |
| Pipeline.RenderTargets.Update | build/app.js:686-706 | the frame's passes are integrate, 60 iterations, six normal passes; no pass renders into a target it samples; each pass samples the previous pass's output; the solver passes sample `originalRT` and render only into position buffers other than the frame's starting one, and the normal passes that follow sample the final `positionRT` and render only into the normal buffers; the handles stay six distinct buffers; `previousRT` ends as the frame's starting position, which the next `integrate` samples, and position and target end as the old previous and target when dragging, the old target and previous otherwise; `normalsRT` and `ntargetRT` end as they started |
| Pipeline.FrameSpares | build/app.js:606-706 | no pass of a frame renders into the rest positions `originalRT` or into the frame's starting positions, which the next `integrate` samples as `previousRT` |
| Pipeline.IterationsLength | build/app.js:690-699 | the iterations issue 8 constraint passes each, plus one mouse pass per iteration with `i + 5 < steps` while dragging |
| Pipeline.FrameLength | build/app.js:686-706 | a frame is `7 + 8 * steps` passes plus its mouse passes |
| Pipeline.FrameLengthAtSixty | build/app.js:416 | with 60 steps: 487 passes, or 542 while dragging |
| Pipeline.MouseOnlyForDragTarget | build/app.js:692 | every mouse pass of a frame is keyed by the picked vertex `psel` (the shader then moves every vertex near it) |
| Pipeline.SweepConsumesSlots | build/app.js:630-631 | constraint pass `j` consumes colour slot `j`: slots 0 to 7, once each, none from 8 on |
| Pipeline.ConstraintPassReadsSlot | build/app.js:464-468 | pass `j`, reading the textures `createConstraintsTexture(2 * i)` packed, sees colour slot `j` of every vertex |
| Pipeline.NormalPassReadsFace | build/app.js:470-474 | normal pass `id` sees face slot `id` of every vertex |
| Pipeline.ColouredConstraintRelaxed | build/app.js:694-697 | a constraint in colour slot `k < 8` is relaxed from both endpoints by pass `k`, each end reading the other |
| Pipeline.PrepareTextures | build/app.js:464-474 | four constraint textures packing slots `2t`, `2t + 1`, and six face textures |
| CpuCloth.CreateParticles | js/index.js:132-166 | symmetric `adj` lists that are exactly the mesh edges, and the same constraint list, in the same order, as the GPU preprocessor |
| CpuCloth.Simulate | js/index.js:230-271 | advance every particle, then 8 iterations of: drag when `interacting && psel`, constraints `len - 1` down to 0, then 0 up to `len - 1` |
| CpuCloth.RelaxedTwice | js/index.js:261-269 | each iteration relaxes constraint `c` exactly twice, at sweep positions `len - 1 - c` and `len + c` |
| CpuCloth.SimulateLength | js/index.js:244-270 | `particles + 8 * 2 * len` operations, plus one drag per iteration while dragging |
| CpuCloth.DragsOnlyPick | js/index.js:248 | the drag step runs only when `interacting && psel` holds and is keyed by `psel`, so a pick of 0 never drags; which particles near the pick move is float work and not modelled |
| CpuCloth.UpdateCloth | js/index.js:181-185 | the pick is updated first, then the solver runs with it |

The functions these rows build on model their source lines directly, and each
has the lemma named here as its partner:
- `Packing.Lo` and `Packing.Hi` are the two byte stores of build/app.js:553-554 (`DecodeEncode`, `RoundTrip`).
- `Packing.Decode` is the shader decode of build/app.js:230 and 331-334 (`DecodeEncode`, `RoundTrip`).
- `Packing.ConstraintPartner` is the `idx > length` test of build/app.js:241 (`ConstraintsTextureDecodes`).
- `Packing.FaceContributionAt` is the face gate of build/app.js:331-339 (`FacesTextureDecodes`).
- `Topology.Assign` is the two slot assignments of build/app.js:108-109 (`AssignExtends`).

## Left out

- Floating-point work: Verlet integration, constraint relaxation, the drag projection, cross-product normals, `getUV`, `satisfyConstraints`, forces, and the pull and integrate steps. Each pass or operation is recorded by kind only.
- Ray casts and distances: `intersectSphere`, `intersectPlane`, `raycaster.intersectObject` and `distanceTo` are inputs (`hit`, `dist`). `mouse3d` and `particles[i].distance` are not modelled.
- Scene and geometry setup: icosahedron creation, `mergeVertices`, `populateVertices`, materials, lighting, resize handling and the animation loop. The mesh arrives as a triangle list.
- WebGL plumbing: render-target creation, `copyTexture`, `renderer.render`, and `clock.getDelta` with its clamp. Render targets are abstract identities, and textures are byte sequences. `createURenderTarget` (build/app.js:489-493) has no return statement, so the constraint and face render targets built with it are undefined. Reading `constraintsRT[tID].texture` (build/app.js:639) or `facesRT[id].texture` (build/app.js:676) then throws a TypeError, so as written every frame stops at the first `solveConstraints`; the `Pipeline` schedule is the intended one, not the one that runs. The model reads the packed byte textures directly.
- Sampler normalisation: the shader sees each byte divided by 255 and multiplies by 255. The model decodes the integer byte pair directly.
- Packing.RoundTrip: holds only for indices below 65536. The decode lemmas require `length + 1 < 65536`; above that the stored high byte wraps and the sentinel can alias a real vertex.
- Topology.PopulateColors: the colour chosen for each constraint is returned as a ghost sequence. The source keeps it only inside `colors`.
- Colour slots from 8 on and face slots from 6 on are packed by no texture. The model states which slots the passes consume but does not model the colours that are dropped.
- CpuCloth.CreateParticles: `adj` is a list per vertex, not a field of a `Particle` object, and the rest length `dist * dist` of each constraint is not kept.
- The per-particle drag radius test `particles[i].distance < 15` in `simulate` is float: a drag is recorded as one operation keyed by the picked particle, and which particles it moves is not modelled.
- `onMouseMove` only stores float pointer coordinates and is not modelled.
