# Boat hydrodynamics on a triangulated hull — a Dafny model

This project models the force computation of a Unity boat simulation. A hull is a triangle mesh. Every physics step cuts each hull triangle at the water surface into fully submerged pieces. Hydrodynamic forces are then computed per piece, following the "water interaction" method:

- buoyancy;
- viscous water resistance;
- pressure drag;
- slamming.

It applies each piece's force to the rigid body at the piece's centre of pressure.

Two pipelines are modelled, one file per source class.

- **The refined pipeline** (namespace `WaterInteraction`):
  - `TriangleData.cs` holds the `VertexInfo`, `TriangleInfo` and `TriangleBuffer` records. Its constructors are in `triangle_data.dfy`; the records are in `interaction_types.dfy`, which also sorts three vertices by height.
  - `WaterInteractionUtils.cs` holds the centre, velocity, area and force formulas (`interaction_utils.dfy`).
  - `TriangleBuilder.cs` holds the per-step triangle cutting:
    - the pure description of one triangle's pieces is in `triangle_cutting.dfy`;
    - the `TriangleBuilder` class with its buffers is in `triangle_builder.dfy`.
  - `CurveLookUpTable.cs` holds the arc-length lookup table (`curve_lookup_table.dfy`).
  - `WaterInteraction.cs` holds the force loop (`water_interaction.dfy`).
- **The legacy pipeline**:
  - `WaterPhysicsMath.cs` (`legacy_math.dfy`);
  - `MeshData.cs` (`mesh_data.dfy`);
  - `HullMeshModifier.cs`:
    - the pure description of one triangle's outcome and of the whole pass is in `hull_cutting.dfy`;
    - the class is in `hull_mesh_modifier.dfy`.
- **Also modelled**:
  - `WaterPatch.cs` (`water_patch.dfy`): flat water at height 0;
  - `BoatEngine.cs` (`boat_engine.dfy`): clamped throttle and engine force.

How the model is built:

- **Floats** are `real`.
- **Transcendental functions and IEEE division** are fields of a `Numerics` record passed as a parameter: `sqrt`, `sin`, `log10`, `pow`, `Vector3.Angle`, and a `divide` that is unspecified at zero. The predicates `SqrtLaws`, `DivideLaws`, `LogLaws`, `PowLaws` and `TrigLaws` state the few facts the proofs use. So every theorem holds for any implementation of those functions that meets its law.
- **The Unity collaborators** one step reads are bundled in `Context`:
  - the water's signed distance function;
  - the rigid body's velocity, angular velocity, centre of mass and mass;
  - `Transform.TransformPoint`;
  - gravity.
- **`AddForceAtPosition` calls** are recorded in a sequence `applied`, so that what a step applies can be stated.
- **Classes and loops.** Classes whose fields the source mutates are Dafny classes. Their loops are proved against recursive specification functions: `AllPieces`, `StepBuffers`, `Forces`, `Generate`, `ArcLengths`, `MeshArea`. The specification functions' properties are proved as separate lemmas.

Where the code departs from what its comments and the water-interaction method intend, the model follows the code:

- **Skipped counter.** The legacy `GenerateSubmergedTriangles` does not advance `triangleCounter` for a triangle entirely above water. From then on, pieces are attributed to the wrong original triangle (`HullCutting.SkippedCounterShiftsIndices`).
- **Strict tests.** Its strict `> 0` / `< 0` tests leave a triangle with a vertex exactly on the water untreated (`HullCutting.StrictTests`).
- **Original area never set.** `CalculateOriginalTrianglesArea` is private and never called, so in the source `originalArea` stays 0. The method is modelled and proved on its own.
- **Unguarded cosine.** The legacy cosine divides by the speed without a guard (`MeshData.StillTriangleCosineUndefined`).
- **Type-1 centre.** Both pipelines compute the centre of a piece as the code does (`InteractionUtils.GetTriangleCenterAsWritten`), with the type-1 parameter taken from the apex. The corrected centre (`InteractionUtils.GetTriangleCenter`) is defined beside it with its properties proved (see Findings).
- **Lookup table too small.** `CreateLookUpTable` throws for a table size below 2. The model returns `false` there.

## Model

| member | source | states |
|---|---|---|
| `WaterPatch.GetWaveYPos` | Assets/Scripts/WaterPatch.cs:24-36 | the wave height is 0 everywhere and at every time (the sine wave is commented out) |
| `WaterPatch.DistanceToWater` | Assets/Scripts/WaterPatch.cs:38-45 | the distance to the water is the height of the point above the flat surface |
| `WaterPatch.FlatWaterIsFlat` | Assets/Scripts/WaterPatch.cs:38-45 | a context using the patch's distance sees every point at its height `y` |
| `WaterPatch.DistanceIgnoresTimeAndPlane` | Assets/Scripts/WaterPatch.cs:38-45 | two points at the same height are equally far from the water, at any two times |
| `WaterPatch.DistanceSign` | Assets/Scripts/WaterPatch.cs:38-45 | a point is above the water iff its distance is positive, and on it iff its distance is 0 |
| `UnityMath.Clamp` | Assets/Scripts/BoatEngine.cs:34 | `Mathf.Clamp` stays within `[min, max]` when that range is non-empty, and leaves a value already inside unchanged |
| `UnityMath.Clamp01` | Assets/Scripts/WaterInteraction/WaterInteractionUtils.cs:111 | `Mathf.Clamp01` lies in `[0, 1]` and is the identity there |
| `UnityMath.Rem` | Assets/Scripts/WaterInteraction/TriangleBuilder.cs:167 | C#'s `%` agrees with the mathematical remainder for non-negative operands and truncates toward zero for negative ones |
| `InteractionTypes.CompareTo` | Assets/Scripts/WaterInteraction/TriangleData.cs:12-15 | the comparison orders vertices by descending height: negative iff higher, zero iff level, positive iff lower |
| `InteractionTypes.CompareToAntisymmetric` | Assets/Scripts/WaterInteraction/TriangleData.cs:12-15 | swapping the arguments negates the comparison |
| `InteractionTypes.SwapIfGreaterOrders` | Assets/Scripts/WaterInteraction/TriangleBuilder.cs:96 | one compare-exchange of the sort keeps the multiset, orders the two slots by height and touches no other slot |
| `InteractionTypes.SortByHeightSorts` | Assets/Scripts/WaterInteraction/TriangleBuilder.cs:96 | sorting three vertices yields them in descending height and is a permutation of the input |
| `InteractionTypes.SortVertices` | Assets/Scripts/WaterInteraction/TriangleBuilder.cs:96 | the in-place sort of the three-element array leaves exactly the sorted sequence in it |
| `InteractionTypes.SortKeepsSlots` | Assets/Scripts/WaterInteraction/TriangleBuilder.cs:89-96 | sorting keeps the clockwise slots 0, 1, 2 a permutation, so the cutting code can rely on them |
| `TriangleData.NewTriangleBuffer` | Assets/Scripts/WaterInteraction/TriangleData.cs:54-60 | a new buffer has no submerged area, the rigid-body velocity at the triangle's centroid, and the triangle's area as its original area |
| `TriangleData.NewTriangleInfo` | Assets/Scripts/WaterInteraction/TriangleData.cs:27-45 | a new record's centre is the centre of pressure as the source computes it, its height the water distance re-queried at that centre, its velocity the rigid-body velocity there, its area the area of its three corners, its normal the normalised cross product of its edges, and its cosine the guarded cosine between that velocity and that normal |
| `TriangleData.NewTriangleBufferArea` | Assets/Scripts/WaterInteraction/TriangleData.cs:54-60 | the original area stored in a new buffer is non-negative |
| `TriangleData.PieceNormalFacts` | Assets/Scripts/WaterInteraction/TriangleData.cs:38 | the piece normal is a unit vector (or zero for a degenerate piece) perpendicular to both edges from the first vertex |
| `TriangleData.VelocityCosineBounds` | Assets/Scripts/WaterInteraction/TriangleData.cs:39-43 | the velocity–normal cosine lies in `[-1, 1]` and is 0 below the speed guard |
| `TriangleData.TriangleInfoFacts` | Assets/Scripts/WaterInteraction/TriangleData.cs:27-45 | a new `TriangleInfo` has a unit (or zero) normal orthogonal to its edges, a cosine in `[-1, 1]` that is 0 for a still piece, and a non-negative area |
| `TriangleData.CosineIsProjection` | Assets/Scripts/WaterInteraction/TriangleData.cs:38-43 | at or above the 0.0001 speed guard the stored cosine times the speed is the projection dot(v, n) of the velocity on the normal |
| `TriangleData.SubmergedCentreBelowFlatWater` | Assets/Scripts/WaterInteraction/TriangleData.cs:33-37 | on flat water, the centre the source computes for a piece whose vertices are all submerged is itself submerged, so its re-queried height is not positive; the level pair may differ by the cutting tolerance, as the fast-path pieces do |
| `InteractionUtils.CenterParameterBounds` | Assets/Scripts/WaterInteraction/WaterInteractionUtils.cs:13-32 | for a submerged piece, the type-0 parameter lies in `[2/3, 3/4]` and the type-1 parameter in `[1/3, 1/2]` |
| `InteractionUtils.Type0IsPressureCentre` | Assets/Scripts/WaterInteraction/WaterInteractionUtils.cs:13-22 | the type-0 parameter is the centre of hydrostatic pressure along the median, measured from the apex |
| `InteractionUtils.Type1IsPressureCentreFromBase` | Assets/Scripts/WaterInteraction/WaterInteractionUtils.cs:23-32 | the type-1 parameter is the centre of pressure measured from the base midpoint, not from the apex |
| `InteractionUtils.LevelPieceCentreIsCentroid` | Assets/Scripts/WaterInteraction/WaterInteractionUtils.cs:7-37 | with the corrected type-1 branch, a piece lying at one depth gets its centroid as centre, as uniform pressure demands |
| `InteractionUtils.LevelType1CentreAsWritten` | Assets/Scripts/WaterInteraction/WaterInteractionUtils.cs:23-32 | as written, the type-1 centre of a level piece lies a third of the way from the apex to the base midpoint, where the centroid lies two thirds of the way, so the two differ whenever the apex is not the base midpoint |
| `InteractionUtils.CenterAsWrittenCounterexample` | Assets/Scripts/WaterInteraction/WaterInteractionUtils.cs:23-32 | a horizontal piece one unit under flat water, corners (0, −1, 0), (6, −1, 0), (3, −1, 3): its type-1 centre as written is (3, −1, 2), its centroid (3, −1, 1) |
| `InteractionUtils.GetTriangleCenterAsWritten` | Assets/Scripts/WaterInteraction/WaterInteractionUtils.cs:7-37 | as written, the type-0 centre lies at parameter t along the median from the apex `vi1`, the type-1 centre at parameter t along the median from the apex `vi3`, and any other type at the centroid; each is stated as barycentric weights on the three corners |
| `InteractionUtils.GetTriangleCenter` | Assets/Scripts/WaterInteraction/WaterInteractionUtils.cs:23-32 | the corrected type-1 centre measures the parameter from the base midpoint toward `vi3` (weights (1 − t)/2, (1 − t)/2, t); every other type agrees with the centre as written |
| `InteractionUtils.CenterInsidePiece` | Assets/Scripts/WaterInteraction/WaterInteractionUtils.cs:7-37 | the centre the source computes for a submerged piece is a convex combination of its vertices: type 0 with weights 1 − t, t/2, t/2, type 1 with weights t/2, t/2, 1 − t (the parameter taken from the apex `vi3`), otherwise the centroid; it needs only the heights the formula reads, so it covers fast-path pieces whose level pair differs by the cutting tolerance |
| `InteractionUtils.CorrectedCenterInsidePiece` | Assets/Scripts/WaterInteraction/WaterInteractionUtils.cs:7-37 | the corrected centre of a submerged piece lies inside the piece too, under the same hypothesis on the heights the formula reads |
| `InteractionUtils.VelocityWithoutRotation` | Assets/Scripts/WaterInteraction/WaterInteractionUtils.cs:39-44 | without rotation, every point moves with the body's velocity |
| `InteractionUtils.VelocityFieldIsRigid` | Assets/Scripts/WaterInteraction/WaterInteractionUtils.cs:39-44 | the velocity field is rigid: two points' relative velocity is orthogonal to their separation |
| `InteractionUtils.GetTriangleVelocity` | Assets/Scripts/WaterInteraction/WaterInteractionUtils.cs:39-44 | a point's velocity differs from the body's by a vector orthogonal both to the angular velocity and to the point's offset from the centre of mass |
| `InteractionUtils.AreaNonNegative` | Assets/Scripts/WaterInteraction/WaterInteractionUtils.cs:46-51 | the triangle area is non-negative and 0 when two of the corners it measures from coincide |
| `InteractionUtils.GetTriangleArea` | Assets/Scripts/WaterInteraction/WaterInteractionUtils.cs:46-51 | the area is at most half the product of the two sides it measures from, since a sine is at most 1 |
| `InteractionUtils.BuoyancyDirection` | Assets/Scripts/WaterInteraction/WaterInteractionUtils.cs:53-62 | buoyancy on a downward-facing piece is vertical, up when the centre is submerged and down when it is above |
| `InteractionUtils.BuoyancyForce` | Assets/Scripts/WaterInteraction/WaterInteractionUtils.cs:53-62 | buoyancy has no horizontal component, and vanishes at depth 0, for a piece of zero area, or for a vertical piece |
| `InteractionUtils.ViscosityCoefficientPositive` | Assets/Scripts/WaterInteraction/WaterInteractionUtils.cs:64-77 | the ITTC-style resistance coefficient is positive away from its pole |
| `InteractionUtils.CalculateViscosityCoefficient` | Assets/Scripts/WaterInteraction/WaterInteractionUtils.cs:64-77 | the coefficient times the square of (log Rn − 2), with log Rn = log v + log L − log ν, is 0.075: the ITTC 1957 friction line |
| `InteractionUtils.TangentialOrthogonal` | Assets/Scripts/WaterInteraction/WaterInteractionUtils.cs:79-88 | the tangential flow direction lies in the piece's plane and does not point along the velocity |
| `InteractionUtils.ViscousForceTangentialAndResisting` | Assets/Scripts/WaterInteraction/WaterInteractionUtils.cs:79-88 | viscous resistance lies in the piece's plane and never pushes along the velocity |
| `InteractionUtils.ViscousWaterResistance` | Assets/Scripts/WaterInteraction/WaterInteractionUtils.cs:79-88 | viscous resistance vanishes for zero density, zero coefficient, zero area, or a still piece |
| `InteractionUtils.PressureDragScalarSign` | Assets/Scripts/WaterInteraction/WaterInteractionUtils.cs:90-99 | the drag magnitude pushes against the normal for a piece moving out of its face and along it otherwise |
| `InteractionUtils.PressureDragAlongNormal` | Assets/Scripts/WaterInteraction/WaterInteractionUtils.cs:90-99 | pressure drag is parallel to the normal, pushing in against a piece that moves outward and out against one that moves inward |
| `InteractionUtils.PressureDragForce` | Assets/Scripts/WaterInteraction/WaterInteractionUtils.cs:90-99 | pressure drag is parallel to the piece's normal, and vanishes for a still piece |
| `InteractionUtils.SlammingOpposesMotion` | Assets/Scripts/WaterInteraction/WaterInteractionUtils.cs:101-114 | slamming is zero for a piece moving away from its face and never pushes along the piece's velocity |
| `InteractionUtils.SlammingForce` | Assets/Scripts/WaterInteraction/WaterInteractionUtils.cs:101-114 | slamming is parallel to the piece's velocity |
| `InteractionUtils.SteadyBufferNoSlamming` | Assets/Scripts/WaterInteraction/WaterInteractionUtils.cs:101-114 | a triangle whose buffer did not change between steps receives no slamming force |
| `InteractionUtils.SteadyBufferNoAcceleration` | Assets/Scripts/WaterInteraction/WaterInteractionUtils.cs:106-111 | an unchanged buffer gives zero swept-volume acceleration and a zero ratio |
| `InteractionUtils.SteadySweptVolume` | Assets/Scripts/WaterInteraction/WaterInteractionUtils.cs:106-108 | an unchanged buffer sweeps no volume |
| `InteractionUtils.ZeroAccelerationRatio` | Assets/Scripts/WaterInteraction/WaterInteractionUtils.cs:111 | zero acceleration clamps to a zero ratio |
| `InteractionUtils.ZeroRatioNoSlamming` | Assets/Scripts/WaterInteraction/WaterInteractionUtils.cs:111-113 | a zero ratio raised to the ramp-up power yields no slamming force |
| `InteractionUtils.FirstStepAcceleration` | Assets/Scripts/WaterInteraction/WaterInteractionUtils.cs:106-108 | against the default previous buffer, the acceleration is the current swept volume over original area times step |
| `TriangleCutting.StateCountsVerticesAbove` | Assets/Scripts/WaterInteraction/TriangleBuilder.cs:99-109 | for sorted vertices, the four states are exactly 3, 2, 1 and 0 vertices above the water |
| `TriangleCutting.StateCountsIfSorted` | Assets/Scripts/WaterInteraction/TriangleBuilder.cs:99-109 | when the vertices are sorted, the state is above, two-above, one-above or submerged exactly when 3, 2, 1 or 0 of them are above the water |
| `TriangleCutting.HorizontalPieces` | Assets/Scripts/WaterInteraction/TriangleBuilder.cs:243-301 | a submerged triangle becomes one piece iff two adjacent heights are within epsilon, otherwise two pieces cut at the middle height |
| `TriangleCutting.TwoAbovePieces` | Assets/Scripts/WaterInteraction/TriangleBuilder.cs:147-184 | the submerged corner of a two-above triangle yields one or two horizontal pieces |
| `TriangleCutting.OneAboveTriangles` | Assets/Scripts/WaterInteraction/TriangleBuilder.cs:208-238 | the submerged quadrilateral of a one-above triangle is split into two triangles |
| `TriangleCutting.SortedHorizontalPieces` | Assets/Scripts/WaterInteraction/TriangleBuilder.cs:208-238 | each half of the quadrilateral, once sorted, is cut into one or two horizontal pieces |
| `TriangleCutting.OneAbovePieces` | Assets/Scripts/WaterInteraction/TriangleBuilder.cs:186-241 | a one-above triangle yields two to four pieces |
| `TriangleCutting.TrianglePieces` | Assets/Scripts/WaterInteraction/TriangleBuilder.cs:121-143 | a triangle yields at most four pieces, selected by its state |
| `TriangleCutting.PieceCountPerState` | Assets/Scripts/WaterInteraction/TriangleBuilder.cs:121-143 | no pieces iff above water; one or two when submerged or two-above; two to four when one-above |
| `TriangleCutting.LevelParameterInside` | Assets/Scripts/WaterInteraction/TriangleBuilder.cs:272-279 | when the heights are at least epsilon apart, the horizontal cut falls strictly inside the long edge |
| `TriangleCutting.WaterlineParameterRange` | Assets/Scripts/WaterInteraction/TriangleBuilder.cs:149-165 | the waterline cut parameter lies in `[0, 1)` along an edge that crosses the water |
| `TriangleCutting.WaterlineCutOnSurface` | Assets/Scripts/WaterInteraction/TriangleBuilder.cs:149-165 | on flat water, the waterline cut lies exactly on the surface |
| `TriangleCutting.LevelCutAtMidHeight` | Assets/Scripts/WaterInteraction/TriangleBuilder.cs:272-279 | on flat water, the horizontal cut lies at the middle vertex's height |
| `TriangleCutting.TwoAboveOnFlatWaterIsOnePiece` | Assets/Scripts/WaterInteraction/TriangleBuilder.cs:147-184 | on flat water, a two-above triangle leaves one piece, because both cuts lie on the surface |
| `TriangleCutting.CyclicSlots` | Assets/Scripts/WaterInteraction/TriangleBuilder.cs:167 | the `(x + 1) % 3` test decides which of the two cyclic orders three slots are in |
| `TriangleCutting.HorizontalKeepsOrientation` | Assets/Scripts/WaterInteraction/TriangleBuilder.cs:281-300 | every horizontal piece keeps the original clockwise winding |
| `TriangleCutting.TwoAboveCutsInheritSlots` | Assets/Scripts/WaterInteraction/TriangleBuilder.cs:149-165 | each waterline cut takes the slot of the vertex above water that it replaces |
| `TriangleCutting.OneAboveSlots` | Assets/Scripts/WaterInteraction/TriangleBuilder.cs:208-238 | the two one-above triangles relabel their vertices with the original triangle's slots |
| `TriangleCutting.TrianglePiecesOriented` | Assets/Scripts/WaterInteraction/TriangleBuilder.cs:121-143 | every piece of a triangle keeps the hull's clockwise winding |
| `TriangleBuilder.RawVertices` | Assets/Scripts/WaterInteraction/TriangleBuilder.cs:89-95 | the three vertices read for a triangle carry slots 0, 1, 2 |
| `TriangleBuilder.StepBuffersGrow` | Assets/Scripts/WaterInteraction/TriangleBuilder.cs:115-143 | the buffers after k + 1 triangles are those after k plus the new triangle's buffer |
| `TriangleBuilder.AllPiecesStep` | Assets/Scripts/WaterInteraction/TriangleBuilder.cs:115-143 | one more triangle appends its pieces to the piece list and its index once per piece to the index list |
| `TriangleBuilder.SumTriangleAreas` | Assets/Scripts/WaterInteraction/TriangleBuilder.cs:69-76 | the loop sums the world-space areas of all mesh triangles |
| `TriangleBuilder.TriangleArea` | Assets/Scripts/WaterInteraction/TriangleBuilder.cs:72-75 | one term of the sum is the area of the triangle's transformed corners |
| `TriangleBuilder.TriangleBuilder.OnEnable` | Assets/Scripts/WaterInteraction/TriangleBuilder.cs:55-77 | enabling stores the mesh, allocates zeroed buffers (one per triangle), empties the lists, stamps the time and sets `TotalArea` to the mesh area |
| `TriangleBuilder.TriangleBuilder.Initialize` | Assets/Scripts/WaterInteraction/TriangleBuilder.cs:79-85 | restamps the time and empties both lists |
| `TriangleBuilder.TriangleBuilder.SetSortedTriangleVertices` | Assets/Scripts/WaterInteraction/TriangleBuilder.cs:87-97 | fills `currentVertices` with a descending-height permutation of the triangle's vertices, slots kept |
| `TriangleBuilder.TriangleBuilder.AddPiece` | Assets/Scripts/WaterInteraction/TriangleBuilder.cs:255-257 | appends one piece and its triangle index, returning its area |
| `TriangleBuilder.TriangleBuilder.AddTwoPieces` | Assets/Scripts/WaterInteraction/TriangleBuilder.cs:281-300 | appends two pieces and two copies of the index, returning their summed area |
| `TriangleBuilder.TriangleBuilder.CuttingAlgorithmHorizontal` | Assets/Scripts/WaterInteraction/TriangleBuilder.cs:243-301 | appends exactly the horizontal pieces with their index and returns their total area |
| `TriangleBuilder.TriangleBuilder.CutVertex` | Assets/Scripts/WaterInteraction/TriangleBuilder.cs:149-165 | builds the cut vertex with its height re-queried from the water |
| `TriangleBuilder.TriangleBuilder.CuttingAlgorithmTwoAbove` | Assets/Scripts/WaterInteraction/TriangleBuilder.cs:147-184 | appends exactly the two-above pieces with their index and returns their total area |
| `TriangleBuilder.TriangleBuilder.SortAndCutHorizontal` | Assets/Scripts/WaterInteraction/TriangleBuilder.cs:208-238 | sorts one half of the quadrilateral and appends its horizontal pieces |
| `TriangleBuilder.TriangleBuilder.CuttingAlgorithmOneAbove` | Assets/Scripts/WaterInteraction/TriangleBuilder.cs:186-241 | appends exactly the one-above pieces with their index and returns their total area |
| `TriangleBuilder.TriangleBuilder.CreateTriangleData` | Assets/Scripts/WaterInteraction/TriangleBuilder.cs:111-145 | after a step, the piece list holds every triangle's pieces in order, the index list names each piece's triangle, the previous buffers are the old current ones, and the current buffers are this step's; every buffer of a triangle not fully submerged stores the summed area of the pieces whose index names it |
| `TriangleBuilder.TriangleBuilder.Turn` | Assets/Scripts/WaterInteraction/TriangleBuilder.cs:115-143 | one loop iteration extends the lists and the two buffer arrays by exactly one triangle |
| `TriangleBuilder.TriangleBuilder.ProcessTriangle` | Assets/Scripts/WaterInteraction/TriangleBuilder.cs:117-143 | one triangle shifts its buffer to previous, writes its new buffer, and appends its pieces |
| `TriangleBuilder.TriangleBuilder.CutSortedTriangle` | Assets/Scripts/WaterInteraction/TriangleBuilder.cs:121-143 | the state switch appends the triangle's pieces and yields the area to store |
| `TriangleBuilder.AllPiecesLockstep` | Assets/Scripts/WaterInteraction/TriangleBuilder.cs:115-143 | pieces and indices have equal length, indices are sorted and in range, and each piece came from the triangle its index names |
| `TriangleBuilder.EveryPieceOriented` | Assets/Scripts/WaterInteraction/TriangleBuilder.cs:115-143 | every piece produced for a mesh triangle keeps its winding |
| `TriangleBuilder.OwnedAreaOfConcat` | Assets/Scripts/WaterInteraction/TriangleBuilder.cs:115-143 | in a list built from k runs of pieces, run i labelled i, the pieces labelled i add up to run i's area, and to 0 for a label outside the runs |
| `TriangleBuilder.StoredAreaIsOwnedArea` | Assets/Scripts/WaterInteraction/TriangleBuilder.cs:115-143 | after a step, triangle i's buffer stores the summed area of the pieces whose index is i, or its original area when it is fully submerged |
| `TriangleBuilder.StoredAreasAreOwnedAreas` | Assets/Scripts/WaterInteraction/TriangleBuilder.cs:115-143 | the same for every buffer of the step at once |
| `TriangleBuilder.TriangleBuilder.SetTriangleState` | Assets/Scripts/WaterInteraction/TriangleBuilder.cs:99-109 | for sorted current vertices, the state returned is above, two-above, one-above or submerged exactly when 3, 2, 1 or 0 of them are above the water |
| `TriangleBuilder.MeshAreaNonNegative` | Assets/Scripts/WaterInteraction/TriangleBuilder.cs:69-76 | the total area is non-negative |
| `CurveLookUpTable.ArcLengths` | Assets/Scripts/WaterInteraction/CurveLookUpTable.cs:25-35 | the buffer holds one cumulative arc length per sample |
| `CurveLookUpTable.ArcLength` | Assets/Scripts/WaterInteraction/CurveLookUpTable.cs:25-35 | the arc length up to a sample is non-negative and at least the last chord |
| `CurveLookUpTable.ArcLengthsAt` | Assets/Scripts/WaterInteraction/CurveLookUpTable.cs:34 | entry k of the buffer is the arc length of the curve up to sample k |
| `CurveLookUpTable.LogsOfAt` | Assets/Scripts/WaterInteraction/CurveLookUpTable.cs:38-41 | entry k of the table is the base-10 log of buffer entry k + 1 |
| `CurveLookUpTable.ChordAtLeastStep` | Assets/Scripts/WaterInteraction/CurveLookUpTable.cs:29-34 | each chord of the curve is at least as long as the horizontal sample step |
| `CurveLookUpTable.ArcLengthAtLeastX` | Assets/Scripts/WaterInteraction/CurveLookUpTable.cs:25-35 | the arc length up to sample k is at least its x coordinate, so entries past the first are positive |
| `CurveLookUpTable.ArcLengthMonotone` | Assets/Scripts/WaterInteraction/CurveLookUpTable.cs:25-35 | the arc lengths never decrease |
| `CurveLookUpTable.TableEntriesGrow` | Assets/Scripts/WaterInteraction/CurveLookUpTable.cs:37-42 | the table, with its last entry repeated, never decreases |
| `CurveLookUpTable.LookUp` | Assets/Scripts/WaterInteraction/CurveLookUpTable.cs:16-20 | a key in `[0, 1]` reads the entry at the floor of key times (size − 1); the result is none exactly when the computed index is outside the table (the index exception) |
| `CurveLookUpTable.KeyScalesToIndex` | Assets/Scripts/WaterInteraction/CurveLookUpTable.cs:18-19 | dividing by the step width is multiplying by size − 1, and a key in `[0, 1]` yields an index in range |
| `CurveLookUpTable.CurveLookUpTable.constructor` | Assets/Scripts/WaterInteraction/CurveLookUpTable.cs:10-14 | the table starts with the default size 101 and empty lists |
| `CurveLookUpTable.CurveLookUpTable.CreateLookUpTable` | Assets/Scripts/WaterInteraction/CurveLookUpTable.cs:22-43 | builds the buffer and table iff the size is at least 2; otherwise it stops with the buffer `[0]` and an empty table |
| `CurveLookUpTable.CurveLookUpTable.FillArcLengths` | Assets/Scripts/WaterInteraction/CurveLookUpTable.cs:25-35 | the first loop leaves exactly the cumulative arc lengths in the buffer |
| `CurveLookUpTable.CurveLookUpTable.AppendArcLength` | Assets/Scripts/WaterInteraction/CurveLookUpTable.cs:29-34 | one iteration appends the next cumulative arc length |
| `CurveLookUpTable.CurveLookUpTable.NextArcLength` | Assets/Scripts/WaterInteraction/CurveLookUpTable.cs:29-34 | previous length plus the chord is the next arc length |
| `CurveLookUpTable.CurveLookUpTable.FillLogs` | Assets/Scripts/WaterInteraction/CurveLookUpTable.cs:37-41 | the second loop stores the log of every buffer entry after the first |
| `CurveLookUpTable.CurveLookUpTable.BuiltBufferGrows` | Assets/Scripts/WaterInteraction/CurveLookUpTable.cs:25-35 | a built buffer starts at 0, never decreases and dominates the sample x coordinates |
| `CurveLookUpTable.CurveLookUpTable.BuiltTableGrows` | Assets/Scripts/WaterInteraction/CurveLookUpTable.cs:22-43 | a built lookup table never decreases, so a larger key never reads a smaller entry |
| `WaterInteraction.ZRangeBounds` | Assets/Scripts/WaterInteraction/WaterInteraction.cs:86-95 | every submerged centre's z lies between the computed minimum and maximum |
| `WaterInteraction.ZRangeAttained` | Assets/Scripts/WaterInteraction/WaterInteraction.cs:86-95 | for a non-empty list inside the float range, the minimum and maximum are attained by some centre |
| `WaterInteraction.ZRange` | Assets/Scripts/WaterInteraction/WaterInteraction.cs:86-95 | the minimum never exceeds the float maximum it starts from, nor the maximum the float minimum, and with at least one piece the first centre's z lies between them |
| `WaterInteraction.LookUpKeyInUnit` | Assets/Scripts/WaterInteraction/WaterInteraction.cs:106 | the lookup key lies in `[0, 1]` when the centres span a proper z range |
| `WaterInteraction.LookUpKey` | Assets/Scripts/WaterInteraction/WaterInteraction.cs:106 | over a proper z range, the key is 0 at the minimum and 1 at the maximum |
| `WaterInteraction.NetForce` | Assets/Scripts/WaterInteraction/WaterInteraction.cs:117-125 | with every toggle off the net force is zero, with all on it is the sum of the four, and buoyancy alone gives buoyancy |
| `WaterInteraction.NetForceIsToggledSum` | Assets/Scripts/WaterInteraction/WaterInteraction.cs:117-125 | for each of the 16 toggle settings the net force is the sum of exactly the components whose toggle is on |
| `WaterInteraction.PieceNetForce` | Assets/Scripts/WaterInteraction/WaterInteraction.cs:117-125 | with every toggle off a piece's net force is zero; with buoyancy alone it is the buoyancy, which has no horizontal component |
| `WaterInteraction.PieceNetForceIsToggledSum` | Assets/Scripts/WaterInteraction/WaterInteraction.cs:107-125 | a piece's net force is the sum of exactly those of its buoyancy, viscous, pressure-drag and slamming forces whose toggle is on, for every toggle setting |
| `WaterInteraction.PieceForce` | Assets/Scripts/WaterInteraction/WaterInteraction.cs:102-127 | a piece above water is skipped, and an applied force acts at the centre of a piece that is not above water |
| `WaterInteraction.ForcesNext` | Assets/Scripts/WaterInteraction/WaterInteraction.cs:100-133 | the loop's outcome grows by one piece: unchanged when skipped, one more force when applied, stopped when the lookup throws |
| `WaterInteraction.ForcesStopAtFailure` | Assets/Scripts/WaterInteraction/WaterInteraction.cs:107 | once a lookup has thrown, later pieces change nothing |
| `WaterInteraction.ForcesAtSubmergedCentres` | Assets/Scripts/WaterInteraction/WaterInteraction.cs:100-133 | at most one force per piece is applied, each at the centre of a piece that is not above water |
| `WaterInteraction.TogglesOffApplyNothing` | Assets/Scripts/WaterInteraction/WaterInteraction.cs:117-127 | with every toggle off, every applied force is zero |
| `WaterInteraction.ForcesComplete` | Assets/Scripts/WaterInteraction/WaterInteraction.cs:100-133 | when every submerged piece's lookup succeeds, the loop completes |
| `WaterInteraction.Forces` | Assets/Scripts/WaterInteraction/WaterInteraction.cs:100-133 | the loop applies at most one force per piece |
| `WaterInteraction.ForcesCompleteUnlessLookUpFails` | Assets/Scripts/WaterInteraction/WaterInteraction.cs:100-133 | the loop completes iff no piece's lookup throws |
| `WaterInteraction.WaterInteraction.constructor` | Assets/Scripts/WaterInteraction/WaterInteraction.cs:12-44 | the component starts with the uncached area −1 and no applied forces |
| `WaterInteraction.WaterInteraction.GetTotalArea` | Assets/Scripts/WaterInteraction/WaterInteraction.cs:44-53 | the property caches the builder's total area on its first read (while the cache is negative) and returns the cache afterwards |
| `WaterInteraction.WaterInteraction.CentreRange` | Assets/Scripts/WaterInteraction/WaterInteraction.cs:86-95 | the first loop computes the z range of the submerged centres |
| `WaterInteraction.WaterInteraction.CalculateForce` | Assets/Scripts/WaterInteraction/WaterInteraction.cs:84-134 | the forces applied are exactly those the loop specification gives, in order; the run completes unless a lookup throws; the area cache is set at most once |
| `WaterInteraction.WaterInteraction.ForceTurn` | Assets/Scripts/WaterInteraction/WaterInteraction.cs:101-132 | one iteration extends the applied forces by the piece's outcome, or stops at a failed lookup |
| `WaterInteraction.WaterInteraction.ApplyPieceForce` | Assets/Scripts/WaterInteraction/WaterInteraction.cs:106-127 | a submerged piece's forces are computed and applied at its centre, or the lookup fails and nothing is applied |
| `WaterInteraction.WaterInteraction.FixedUpdate` | Assets/Scripts/WaterInteraction/WaterInteraction.cs:76-82 | a physics step rebuilds the pieces; with none it applies nothing; otherwise it applies the loop's forces |
| `WaterPhysicsMath.ReynoldsNumberLog` | Assets/Scripts/WaterPhysicsMath.cs:58-78 | the Reynolds number is v·L·10⁶, and its log is the sum of the logs of velocity and length less the log of the viscosity |
| `WaterPhysicsMath.ReynoldsNumber` | Assets/Scripts/WaterPhysicsMath.cs:68-72 | the Reynolds number is v·L·10⁶, the viscosity being 10⁻⁶ |
| `WaterPhysicsMath.ResistanceCoefficient` | Assets/Scripts/WaterPhysicsMath.cs:58-78 | the coefficient times the square of (log Rn − 2) is 0.075: the ITTC 1957 friction line |
| `WaterPhysicsMath.ResistanceCoefficientFacts` | Assets/Scripts/WaterPhysicsMath.cs:58-78 | the legacy coefficient is positive, ignores the density argument, and equals the refined coefficient computed on logs |
| `WaterPhysicsMath.BuoyancyIsVertical` | Assets/Scripts/WaterPhysicsMath.cs:80-100 | legacy buoyancy is vertical, up when the centre is submerged and down when it is above |
| `WaterPhysicsMath.BuoyancyForce` | Assets/Scripts/WaterPhysicsMath.cs:80-100 | legacy buoyancy has no horizontal component, and vanishes at depth 0, for zero area, or for a vertical piece |
| `WaterPhysicsMath.ViscousForceIsTangential` | Assets/Scripts/WaterPhysicsMath.cs:102-118 | legacy viscous resistance lies in the piece's plane and does not push along its velocity |
| `WaterPhysicsMath.ViscousWaterResistance` | Assets/Scripts/WaterPhysicsMath.cs:102-118 | legacy viscous resistance vanishes for zero density, zero coefficient, zero area, or a still piece |
| `WaterPhysicsMath.PressureDragOnRawSpeed` | Assets/Scripts/WaterPhysicsMath.cs:120-159 | legacy pressure drag is the refined formula with reference speed 1 (raw speed); it is normal to the piece and signed by the cosine |
| `WaterPhysicsMath.PressureDragForce` | Assets/Scripts/WaterPhysicsMath.cs:120-159 | legacy pressure drag is parallel to the normal, and vanishes for a still piece |
| `WaterPhysicsMath.SlammingShareInUnit` | Assets/Scripts/WaterPhysicsMath.cs:196-202 | the slamming share is the clamped acceleration ratio squared, so it lies in `[0, 1]` |
| `WaterPhysicsMath.SlammingAcceleration` | Assets/Scripts/WaterPhysicsMath.cs:172-179 | the acceleration times original area times step is the change of swept volume, current minus previous |
| `WaterPhysicsMath.SlammingForce` | Assets/Scripts/WaterPhysicsMath.cs:161-219 | no slamming for a piece moving out of the water or without an original area |
| `WaterPhysicsMath.SlammingOpposesVelocity` | Assets/Scripts/WaterPhysicsMath.cs:161-219 | legacy slamming never pushes along the piece's velocity |
| `WaterPhysicsMath.SlammingForceOpposes` | Assets/Scripts/WaterPhysicsMath.cs:208-215 | the reversed, non-negatively scaled stopping force opposes the velocity |
| `WaterPhysicsMath.StoppingForceAlongVelocity` | Assets/Scripts/WaterPhysicsMath.cs:196 | the stopping force points along the velocity |
| `WaterPhysicsMath.StoppingForce` | Assets/Scripts/WaterPhysicsMath.cs:190-196 | the stopping force is parallel to the velocity, and vanishes for zero area or zero boat mass |
| `MeshData.NewTriangleData` | Assets/Scripts/MeshData.cs:29-47 | the record keeps its three corners, its centre is the centre as written, its distance the water re-queried there, its velocity the rigid-body velocity there, its normal the normalised cross product, its cosine the unguarded quotient dot(v, n) / abs(v), and its area that of its corners |
| `MeshData.TriangleDataFacts` | Assets/Scripts/MeshData.cs:29-47 | unit (or zero) normal orthogonal to the edges, non-negative area, centroid for type 2, the centre as written inside the piece (fast-path pieces included), cosine in `[-1, 1]` for a moving piece |
| `MeshData.UnguardedCosineIsProjection` | Assets/Scripts/MeshData.cs:42-45 | for a moving triangle the stored cosine times the speed is the projection dot(v, n) of the velocity on the normal |
| `MeshData.StillTriangleCosineUndefined` | Assets/Scripts/MeshData.cs:45 | for a still triangle the legacy cosine is 0/0, where the refined constructor yields 0 |
| `HullCutting.LeftSlot` | Assets/Scripts/HullMeshModifier.cs:157-170 | the left neighbour of a slot is the slot two ahead, modulo 3 |
| `HullCutting.RightSlot` | Assets/Scripts/HullMeshModifier.cs:157-170 | the right neighbour of a slot is the next slot, modulo 3 |
| `HullCutting.LeftAndRightSlots` | Assets/Scripts/HullMeshModifier.cs:157-170 | the left and right neighbours are the other two vertices, in the winding order |
| `HullCutting.Renumbered` | Assets/Scripts/HullMeshModifier.cs:260-280 | the temporary lists carry slots 0, 1, 2 |
| `HullCutting.WaterlinePointIsCut` | Assets/Scripts/HullMeshModifier.cs:237-252 | the legacy waterline point is the refined waterline cut, with slot 0 |
| `HullCutting.HorizontalPieces` | Assets/Scripts/HullMeshModifier.cs:142-209 | a submerged triangle becomes one or two pieces |
| `HullCutting.HorizontalPieceCount` | Assets/Scripts/HullMeshModifier.cs:173-192 | one piece iff two heights are within the tolerance; with two pieces, the cut falls inside the long edge |
| `HullCutting.SortedHorizontalPieces` | Assets/Scripts/HullMeshModifier.cs:114-115 | sorting then cutting yields one or two pieces |
| `HullCutting.OneAboveTriangles` | Assets/Scripts/HullMeshModifier.cs:260-280 | the submerged quadrilateral is split into two triangles |
| `HullCutting.OneAbovePieces` | Assets/Scripts/HullMeshModifier.cs:211-281 | a one-above triangle yields two to four pieces |
| `HullCutting.OneAboveParts` | Assets/Scripts/HullMeshModifier.cs:211-281 | the cap above water, the submerged area of the two halves, and their pieces |
| `HullCutting.OneAboveCutsOnSurface` | Assets/Scripts/HullMeshModifier.cs:237-252 | on flat water, both waterline points lie on the surface |
| `HullCutting.TwoAboveTriangle` | Assets/Scripts/HullMeshModifier.cs:344-353 | the submerged corner forms one triangle |
| `HullCutting.TwoAbovePieces` | Assets/Scripts/HullMeshModifier.cs:283-354 | a two-above triangle yields one or two pieces |
| `HullCutting.TwoAboveSlots` | Assets/Scripts/HullMeshModifier.cs:292-320 | the high and middle vertices are chosen so the submerged corner keeps the winding |
| `HullCutting.Apply` | Assets/Scripts/HullMeshModifier.cs:105-135 | the area update changes only the current record's submerged area: unchanged, set to a value, or set to the original area |
| `HullCutting.Outcomes` | Assets/Scripts/HullMeshModifier.cs:94-138 | one outcome per mesh triangle, computed from its raw vertices |
| `HullCutting.Generate` | Assets/Scripts/HullMeshModifier.cs:94-138 | the pass keeps the counter at most the triangle count and the record count fixed, and pairs every piece with one index |
| `HullCutting.GenerateStep` | Assets/Scripts/HullMeshModifier.cs:94-138 | one triangle appends its pieces, stamps them with the counter, applies its area update and advances the counter if counted |
| `HullCutting.ListsAdvance` | Assets/Scripts/HullMeshModifier.cs:94-138 | the loop's state after k + 1 triangles is its state after k extended by triangle k's outcome |
| `HullCutting.Rotated` | Assets/Scripts/HullMeshModifier.cs:62-65 | each record's previous submerged area becomes its current one, and nothing else changes |
| `HullCutting.StrictTests` | Assets/Scripts/HullMeshModifier.cs:105-138 | the counter advances iff not all vertices are above; the area is left unchanged iff some vertex lies exactly on the water, and then nothing is added |
| `HullCutting.AboveOutcome` | Assets/Scripts/HullMeshModifier.cs:105-111 | a triangle all above water goes to the above list, zeroes its area and does not advance the counter |
| `HullCutting.BelowOutcome` | Assets/Scripts/HullMeshModifier.cs:118-124 | a triangle all below water adds one or two pieces, stores its original area and advances the counter |
| `HullCutting.SortKeepsBelow` | Assets/Scripts/HullMeshModifier.cs:114-115 | sorting keeps all vertices below water |
| `HullCutting.OutcomesCountTheirPieces` | Assets/Scripts/HullMeshModifier.cs:94-138 | a triangle that adds submerged pieces always advances the counter |
| `HullCutting.GenerateCounter` | Assets/Scripts/HullMeshModifier.cs:138 | the counter is the number of triangles seen minus those skipped |
| `HullCutting.CountedUnlessAbove` | Assets/Scripts/HullMeshModifier.cs:105-138 | a triangle is counted iff it is not all above water |
| `HullCutting.SkippedAreAbove` | Assets/Scripts/HullMeshModifier.cs:105-111 | the skipped triangles are exactly the ones all above water |
| `HullCutting.SkippedMatchAbove` | Assets/Scripts/HullMeshModifier.cs:105-111 | any outcome list counted like the source skips exactly the triangles above water |
| `HullCutting.GenerateIndices` | Assets/Scripts/HullMeshModifier.cs:94-138 | the recorded indices are sorted and each is below the counter |
| `HullCutting.GenerateTouchesOnlySubmergedArea` | Assets/Scripts/HullMeshModifier.cs:94-138 | the pass changes only the submerged area of each record |
| `HullCutting.SkippedCounterShiftsIndices` | Assets/Scripts/HullMeshModifier.cs:105-138 | after a triangle above water, the next triangle's pieces carry index 0 and overwrite record 0, leaving its own record untouched |
| `HullCutting.ShiftedPass` | Assets/Scripts/HullMeshModifier.cs:94-138 | any skipped triangle followed by a counted one shifts indices and records back by one |
| `HullCutting.WithOriginalAreas` | Assets/Scripts/HullMeshModifier.cs:394-418 | the original-area pass keeps the number of records |
| `HullCutting.WithOriginalAreasSets` | Assets/Scripts/HullMeshModifier.cs:394-418 | records for the first k triangles get their original area; nothing else changes |
| `HullCutting.OriginalAreaSumNonNegative` | Assets/Scripts/HullMeshModifier.cs:394-418 | the accumulated boat area is non-negative |
| `HullCutting.OriginalAreaNonNegative` | Assets/Scripts/HullMeshModifier.cs:394-418 | each original area is non-negative |
| `HullMeshModifier.SortAndReverse` | Assets/Scripts/HullMeshModifier.cs:114-115 | sorting ascending and reversing gives the descending-height sort |
| `HullMeshModifier.HullMeshModifier.constructor` | Assets/Scripts/HullMeshModifier.cs:37-54 | the modifier stores the hull, creates one default slamming record per triangle and starts with empty lists and zero area |
| `HullMeshModifier.HullMeshModifier.CalculateVertexData` | Assets/Scripts/HullMeshModifier.cs:56-82 | a step rotates the records' areas, samples every vertex, clears the lists and runs the pass from the rotated records |
| `HullMeshModifier.HullMeshModifier.GenerateSubmergedTriangles` | Assets/Scripts/HullMeshModifier.cs:84-140 | appends exactly the pass's pieces, above-water triangles and indices, and leaves its records |
| `HullMeshModifier.HullMeshModifier.TriangleLoop` | Assets/Scripts/HullMeshModifier.cs:94-139 | the loop leaves the state of the pass over all triangles |
| `HullMeshModifier.HullMeshModifier.Turn` | Assets/Scripts/HullMeshModifier.cs:96-138 | one loop iteration extends the pass by one triangle |
| `HullMeshModifier.HullMeshModifier.ProcessTriangle` | Assets/Scripts/HullMeshModifier.cs:96-138 | one triangle adds its outcome's pieces and indices, applies its area update and returns the next counter |
| `HullMeshModifier.HullMeshModifier.ReadTriangle` | Assets/Scripts/HullMeshModifier.cs:96-102 | the triangle's three sampled vertices are read in slot order |
| `HullMeshModifier.HullMeshModifier.ProcessSorted` | Assets/Scripts/HullMeshModifier.cs:114-135 | a sorted triangle dispatches to the cut for its case |
| `HullMeshModifier.HullMeshModifier.AddSubmerged` | Assets/Scripts/HullMeshModifier.cs:175-176 | appends one piece and its index |
| `HullMeshModifier.HullMeshModifier.CutSubmergedTriangleToHorizontal` | Assets/Scripts/HullMeshModifier.cs:142-209 | appends exactly the horizontal pieces with their index |
| `HullMeshModifier.HullMeshModifier.WaterlineVertex` | Assets/Scripts/HullMeshModifier.cs:237-252 | builds the waterline point with its re-queried distance |
| `HullMeshModifier.HullMeshModifier.SortAndCut` | Assets/Scripts/HullMeshModifier.cs:260-280 | renumbers and cuts one temporary triangle |
| `HullMeshModifier.HullMeshModifier.CutTriangleOneAboveWater` | Assets/Scripts/HullMeshModifier.cs:211-281 | adds the cap above water and the submerged pieces, and stores the submerged area |
| `HullMeshModifier.HullMeshModifier.OneAboveVertices` | Assets/Scripts/HullMeshModifier.cs:221-255 | computes the apex, the two lower vertices and the two waterline points |
| `HullMeshModifier.HullMeshModifier.CutTriangleTwoAboveWater` | Assets/Scripts/HullMeshModifier.cs:283-354 | adds the submerged corner's pieces and stores its area |
| `HullMeshModifier.HullMeshModifier.CalculateOriginalTrianglesArea` | Assets/Scripts/HullMeshModifier.cs:394-418 | stores each triangle's original area in its record and adds all of them to the boat area |
| `HullMeshModifier.HullMeshModifier.StoreOriginalArea` | Assets/Scripts/HullMeshModifier.cs:400-416 | one iteration stores one triangle's area |
| `BoatEngine.NextAcceleration` | Assets/Scripts/BoatEngine.cs:30-44 | forward input keeps the acceleration in `[0, max]`, backward in `[-maxBack, 0]`, none resets it to 0, and an unclamped step adds or subtracts the power |
| `BoatEngine.ForwardStep` | Assets/Scripts/BoatEngine.cs:32-35 | one forward step from a saturated sum is the saturated next sum |
| `BoatEngine.BackwardStep` | Assets/Scripts/BoatEngine.cs:36-39 | one backward step from a saturated sum is the saturated next sum |
| `BoatEngine.HeldForward` | Assets/Scripts/BoatEngine.cs:32-35 | holding forward for k frames from rest reaches min(k presses of power, max) |
| `BoatEngine.HeldBackward` | Assets/Scripts/BoatEngine.cs:36-39 | holding backward for k frames from rest reaches −min(k presses of power, maxBack) |
| `BoatEngine.HeldForwardSaturates` | Assets/Scripts/BoatEngine.cs:32-35 | holding forward for k frames from rest gives min(k·power, max) |
| `BoatEngine.HeldBackwardSaturates` | Assets/Scripts/BoatEngine.cs:36-39 | holding backward for k frames from rest gives −min(k·power, maxBack) |
| `BoatEngine.ForwardFromReverse` | Assets/Scripts/BoatEngine.cs:32-35 | forward input while reversing lands in `[0, min(power, max)]` |
| `BoatEngine.EngineForce` | Assets/Scripts/BoatEngine.cs:52-56 | the engine force acts at the engine's position and vanishes at zero acceleration |
| `BoatEngine.EngineForceOpposesUp` | Assets/Scripts/BoatEngine.cs:54 | the force is the acceleration along the engine's down axis |
| `BoatEngine.BoatEngine.Update` | Assets/Scripts/BoatEngine.cs:25-28 | a frame updates the acceleration from the input and keeps it within the limits |
| `BoatEngine.BoatEngine.UpdateUserInput` | Assets/Scripts/BoatEngine.cs:30-44 | the acceleration becomes the clamped update, within the limits |
| `BoatEngine.BoatEngine.FixedUpdate` | Assets/Scripts/BoatEngine.cs:46-50 | records the body's speed (non-negative) and applies the engine force |
| `BoatEngine.BoatEngine.AddForce` | Assets/Scripts/BoatEngine.cs:52-56 | applies exactly one engine force at the engine's position |

## Left out

- Unity lifecycle glue is not modelled: `MonoBehaviour` messages, `GetComponent` and the lazily cached `Rigidbody`/`Mesh` getters (`WaterInteraction.cs:55-74`, `BoatEngine.cs:14-23`). Each operation receives the body state as a parameter instead.
- IEEE floats are modelled as reals: rounding, NaN, infinities and the `float.MaxValue`/`float.MinValue` seeds are replaced by exact arithmetic. `WaterInteraction.ZRangeAttained` assumes the centres lie strictly inside the float range.
- `sqrt`, `sin`, `log10`, `pow`, `Vector3.Angle` and float division are parameters constrained by the `Numerics` laws, not computed.
- `Array.Sort` and `List.Sort` followed by `Reverse` are modelled by one fixed compare-exchange network. The proofs use only that the result is a descending permutation. The order of vertices of equal height may differ from .NET's introsort.
- The legacy `VertexData` class is modelled as a value. Its aliasing writes to the shared `vertexDataList` entries (`HullMeshModifier.cs:261-263`, `272-274`, `345-347`) are not observable afterwards, because every triangle rewrites all three entries.
- The legacy `Time.time` and `timeSinceStart` are one parameter, since they are equal within a step.
- `ForceMode.Acceleration` in `BoatEngine.AddForce` is not recorded: the model records the force and its point only.
- `Input.GetAxis("Vertical")` is a parameter of `BoatEngine.BoatEngine.Update`.
- The legacy `DebugPhysics` tuning values are a parameter.
- Not modelled:
  - `DisplayMesh` and `CalculateUnderWaterLength` (`HullMeshModifier.cs:356-429`): mesh display and a debug length;
  - `Debug.DrawRay`;
  - `ThirdPersonCam.cs` and `InstantiatePrefabOnSky.cs`;
  - the legacy `Assets/Scripts/WaterInteraction.cs` component, which only wires the legacy classes to Unity.
- The moving-wave functions that the wave height would call are commented out in `WaterPatch.cs`; they are not part of this model, and the wave height is the constant 0 the code returns.
- Several members are parts of one source method, split so that each loop body is its own method. None of them adds behaviour:
  - `TriangleBuilder.TriangleBuilder.Turn`, `ProcessTriangle`, `CutSortedTriangle`, `AddPiece`, `AddTwoPieces`, `CutVertex`, `SortAndCutHorizontal`;
  - `TriangleBuilder.TriangleArea`;
  - `CurveLookUpTable.CurveLookUpTable.FillArcLengths`, `AppendArcLength`, `NextArcLength`, `FillLogs`;
  - `WaterInteraction.WaterInteraction.CentreRange`, `ForceTurn`, `ApplyPieceForce`;
  - `HullMeshModifier.HullMeshModifier.TriangleLoop`, `Turn`, `ProcessTriangle`, `ReadTriangle`, `ProcessSorted`, `AddSubmerged`, `WaterlineVertex`, `SortAndCut`, `OneAboveVertices`, `StoreOriginalArea`.

## Findings

| source | as written | input that shows it | evidently intended | confidence | as-written member | corrected member |
|---|---|---|---|---|---|---|
| Assets/Scripts/WaterInteraction/WaterInteractionUtils.cs:23-32 | the type-1 centre parameter `(2 z0 + h) / (6 z0 + 2 h)` is the centre of pressure measured from the base midpoint `(v1 + v2) / 2`, but it is applied from the apex `v3` | a horizontal piece one unit under flat water with corners (0,−1,0), (6,−1,0), (3,−1,3), apex (3,−1,3): the parameter is 1/3 and the centre lands at (3,−1,2) instead of the centroid (3,−1,1); the same formula is at WaterPhysicsMath.cs:25-35 | measure the parameter from the base midpoint toward the apex, which gives the centroid for a piece under uniform pressure | high, not executed | `InteractionUtils.CenterAsWrittenCounterexample` | `InteractionUtils.LevelPieceCentreIsCentroid` |
