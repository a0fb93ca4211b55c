# A verified model of the tamashii light-optimisation core

This project models, in Dafny, the parts of the tamashii rendering engine and its interactive
adjoint light tracing application that can be stated without a GPU. Every real-valued quantity
is a Dafny `real`. Each core source file becomes one module: pure code becomes functions and
lemmas, and code that updates state becomes classes and methods proved against specification
functions.

- **Light parameters** (`LightParams`): a 12-flag mask per light, the flat index
  `light * MAX_PARAMS + param`, and the reduce/expand codec between the full parameter vector and
  the vector of active entries. Lights come in `ref_light_index` order, then emissive meshes.
  Expanding a reduced vector gives back every active entry, and the reduced length is the number
  of set flags.
- **Optimiser** (`OptimSpec`, `LightTraceOpti`):
  - the wrapper's `operator()`, with best-so-far tracking and history;
  - gradient descent and Adam, proved to follow the iterates of specification functions;
  - the forward and central finite-difference checks, which perturb one entry and restore it, and
    which recover the slopes of an affine objective;
  - the optimiser's history, the gradient sanitising, the vertex-area clamp and `clampToColor`.
- **Penalties and objective** (`Constraint`, `Objective`): the AABB penalty on light positions,
  the intensity penalty, and the simple and multichannel weighted least-squares objectives with
  their derivatives. For the simple objective (`weightedResidualNormAndDerivative`) the
  derivative is proved to be the exact gradient of the value, and with positive weights and
  areas the value is zero exactly at the target. For the multichannel objective the model
  proves that the value is non-negative, that it and its derivative vanish at the target, and
  that with positive weights it is zero only there. It also proves the chain rule in pieces:
  moving one entry of x changes only its own channel, and that channel's residual changes by
  the single-channel gradient identity at the tinted step.
- **Engine data structures**:
  - the event ring buffer and key state machine (`Input`);
  - the render command FIFO and its frame counter (`RenderCmd`);
  - the export-settings bitmask and `save_scene`'s extension dispatch (`ExportSettings`);
  - the update-flag algebra (`SceneUpdate`);
  - bounding boxes and mesh primitives (`SceneModel`);
  - keyframe search and the node tree (`SceneGraph`);
  - image formats (`ImageAsset`) and material flags (`MaterialAsset`);
  - custom properties (`AssetModel`);
  - the scene's reference lists and their renumbering (`RenderScene`);
  - surface, spot and IES lights (`SceneLight`);
  - the interactive camera (`CameraControl`);
  - the rasterizer's render-state stack (`RenderStateStack`);
  - the bit and rounding helpers of `public.hpp` (`PublicUtil`).
- **Parsers and serialisers**:
  - the glTF exporter's buffer accounting, index width, image deduplication and the enum and
    MIME mappings (`GltfExport`);
  - the glTF importer's mappings and index loading (`GltfImport`);
  - the PBRT word splitter (`PbrtTokenizer`);
  - PLY fan triangulation (`PlyImport`);
  - Quake 3 BSP Bézier tessellation, face winding and lightmap loading (`BspImport`).
- **Device selection** (`DevicePhysical`): the extension checks, the queue-family choice and the
  memory-type search of rvk's physical device.

Two notes on the camera (`CameraControl`):
- `updateAngles` keeps the pitch within [-90, 90] only when the old pitch is in [-180, 180].
- `drag` limits each pitch change to 90 degrees but never clamps the pitch to [-90, 90].
  Repeated drags can take the pitch beyond 180, and from there `updateAngles` leaves it outside
  the range (`UpdatedPitchAfterLongDrag`).

Some behaviour of the optimiser code, stated as the model takes it:
- **Codec.** `reduceVectorToActiveParams` and `expandVectorToFullParams` index their vectors
  without checks, so the model requires every slot they touch to be in range.
- **Stopping rule.** The gradient-descent and Adam loops run while the squared gradient norm
  exceeds the squared tolerance and `mIters <= mMaxIters`. They take at most `maxIters + 1`
  steps, and `maxIters = 0` still takes one step.
- **History.** `addCurrentStateToHistory` stores the parameter vector of each improving
  evaluation.
- **Finite-difference checks.** Each run uses the single step size `mStepSize`, in a forward
  and a central variant.
- **Adam.** Bias correction multiplies the step by `sqrt(1 - beta2^t) / (1 - beta1^t)`, and
  epsilon is added to the uncorrected `sqrt(v)`.

## Model

| member | source | states |
|---|---|---|
| PublicUtil.InBoundsCount | include/tamashii/public.hpp:31 | inBounds is inclusive at both ends: exactly high - low + 1 values pass it (none when high < low) |
| PublicUtil.IsBitSetAsOr | include/tamashii/public.hpp:33 | isBitSet(v, b) holds exactly when OR-ing b into v changes nothing |
| PublicUtil.IsBitSetImpliesAny | include/tamashii/public.hpp:33-35 | a non-empty mask that isBitSet accepts is also accepted by isAnyBitSet; the empty mask never passes isAnyBitSet |
| PublicUtil.Negate | include/tamashii/public.hpp:38 | unsigned negation -m in a word: a value of the word that adds to m to give 0 modulo 2^width |
| PublicUtil.BitAndAllOnes | include/tamashii/public.hpp:38 | AND with the all-ones word leaves every value of the word unchanged |
| PublicUtil.BitAndClearsLow | include/tamashii/public.hpp:38 | AND with -2^k clears exactly the low k bits: the result is x - x mod 2^k |
| PublicUtil.RoundUpToMultipleOfPow2 | include/tamashii/public.hpp:38 | for a power-of-two multiple m and a round-up that fits the word, rountUpToMultipleOf returns the least multiple of m that is at least n |
| ExportSettings.Default | include/tamashii/core/io/io.hpp:114-115 | the default settings: glTF with every flag off, encoded as 0x1 |
| ExportSettings.Decode | include/tamashii/core/io/io.hpp:117-119 | the constructor from a word keeps only the low nibble as the format |
| ExportSettings.DecodeEncode | include/tamashii/core/io/io.hpp:117-129 | settings whose format fits the low nibble survive encode then decode unchanged |
| ExportSettings.EncodeDecode | include/tamashii/core/io/io.hpp:117-129 | decode then encode keeps exactly the ten used bits of the word |
| ExportSettings.EncodedLayout | include/tamashii/core/io/io.hpp:120-129 | encode puts the format in bits 0..3 and nothing above bit 9 |
| ExportSettings.FlagBits | include/tamashii/core/io/io.hpp:123-128 | each of the six flags sets its own bit 4..9 |
| ExportSettings.FilenameStart | include/tamashii/core/io/io.hpp:133 | the file name of a path starts just after its last '/' |
| ExportSettings.LastDot | include/tamashii/core/io/io.hpp:133 | the position of the last '.', or -1 when there is none |
| ExportSettings.Extension | include/tamashii/core/io/io.hpp:133 | path::extension: empty or a '.' followed by no '.' or '/', and always a suffix of the path |
| ExportSettings.Lowered | include/tamashii/core/io/io.hpp:134 | the std::transform with ::tolower: same length, every character lowered |
| ExportSettings.SaveScene | include/tamashii/core/io/io.hpp:131-140 | save_scene succeeds only through the glTF writer, and fails for every extension other than .gltf and .glb |
| ExportSettings.ExtensionOfFile | include/tamashii/core/io/io.hpp:133 | the extension of "dir/stem.ext" is ".ext", whatever the directory |
| ExportSettings.FilenameOf | include/tamashii/core/io/io.hpp:133 | the file name of "dir/name" starts right after the separating '/' |
| ExportSettings.DotOf | include/tamashii/core/io/io.hpp:133 | the last dot of "stem.ext" is the one before ext |
| ExportSettings.LoweredExtensionOfFile | include/tamashii/core/io/io.hpp:133-134 | the lowered extension of "dir/stem.ext" is "." followed by the lowered ext |
| ExportSettings.SaveSceneIgnoresCase | include/tamashii/core/io/io.hpp:133-136 | ".GLB", ".Gltf" and every other spelling of the two extensions reach the glTF writer |
| SceneUpdate.Nothing | include/tamashii/core/scene/render_scene.hpp:95 | the value-initialised info requests no part |
| SceneUpdate.Or | include/tamashii/core/scene/render_scene.hpp:93-104 | operator\|: a part is requested iff either side requests it |
| SceneUpdate.And | include/tamashii/core/scene/render_scene.hpp:105-116 | operator&: a part is requested iff both sides request it |
| SceneUpdate.AnyAllByPart | include/tamashii/core/scene/render_scene.hpp:91-92 | any() is "some part requested", all() is "every part requested" |
| SceneUpdate.SamePartsSameInfo | include/tamashii/core/scene/render_scene.hpp:81-89 | two infos that request the same parts are the same info |
| SceneUpdate.OrAndAny | include/tamashii/core/scene/render_scene.hpp:91-116 | (a\|b).any() iff a.any() or b.any(); (a&b).any() needs both; (a&b).all() iff both all() |
| SceneUpdate.IdentityIdempotence | include/tamashii/core/scene/render_scene.hpp:93-116 | `{}` is the identity of \| and & is idempotent |
| SceneUpdate.Commutative | include/tamashii/core/scene/render_scene.hpp:93-116 | both operators commute |
| SceneUpdate.AllImpliesAny | include/tamashii/core/scene/render_scene.hpp:91-92 | all() implies any() |
| LightParams.Name | src/implementations/interactive_adjoint_light_tracing/parameter.cpp:59-66 | name succeeds exactly for 0 <= param < MAX_PARAMS, with that parameter's non-empty name; every other index is the "Unknown optimization parameter name" error |
| LightParams.ParameterIndex | src/implementations/interactive_adjoint_light_tracing/parameter.cpp:77-79 | the slot of an in-range parameter lies in its light's block [light * MAX_PARAMS, (light + 1) * MAX_PARAMS) |
| LightParams.ParameterIndexDecodes | src/implementations/interactive_adjoint_light_tracing/parameter.cpp:77-79 | the flat index l*MAX_PARAMS+p gives back l by division and p by remainder when p < MAX_PARAMS |
| LightParams.ParameterIndexInjective | src/implementations/interactive_adjoint_light_tracing/parameter.cpp:77-79 | two in-range (light, param) pairs with the same flat index are the same pair |
| LightParams.ParameterIndexOrdered | src/implementations/interactive_adjoint_light_tracing/parameter.cpp:77-79 | flat indices follow the (light, param) order |
| LightParams.LightOptParams.constructor | src/implementations/interactive_adjoint_light_tracing/parameter.cpp:20-23 | a new mask optimises nothing |
| LightParams.LightOptParams.Reset | src/implementations/interactive_adjoint_light_tracing/parameter.cpp:25-30 | every one of the MAX_PARAMS flags is false afterwards |
| LightParams.LightOptParams.SetDefault | src/implementations/interactive_adjoint_light_tracing/parameter.cpp:32-36 | setDefault is reset: every flag false |
| LightParams.LightOptParams.SetAll | src/implementations/interactive_adjoint_light_tracing/parameter.cpp:38-43 | every flag true afterwards |
| LightParams.LightOptParams.SetRotations | src/implementations/interactive_adjoint_light_tracing/parameter.cpp:45-50 | the three rotation flags are set and every other flag keeps its value |
| LightParams.LightOptParams.SetPositions | src/implementations/interactive_adjoint_light_tracing/parameter.cpp:52-57 | the three position flags are set and every other flag keeps its value |
| LightParams.ConeActiveParams | src/implementations/interactive_adjoint_light_tracing/parameter.cpp:139-145 | the inner flag is kept; the edge flag survives only together with the inner one |
| LightParams.CountTrue | src/implementations/interactive_adjoint_light_tracing/parameter.cpp:72 | the number of set flags is at most the number of flags |
| LightParams.GetActiveParameterCount | src/implementations/interactive_adjoint_light_tracing/parameter.cpp:68-75 | the loops count exactly the set flags of all entries, at most MAX_PARAMS per entry |
| LightParams.LightOrder | src/implementations/interactive_adjoint_light_tracing/parameter.cpp:85-91 | the first loop of orderByIndex: each key maps to a light entry whose ref_light_index is that key |
| LightParams.MeshCount | src/implementations/interactive_adjoint_light_tracing/parameter.cpp:94-100 | the models counter never exceeds the entries seen |
| LightParams.AddMeshes | src/implementations/interactive_adjoint_light_tracing/parameter.cpp:93-100 | the second loop keeps every light key and adds mesh keys only in [lights, lights + meshes) |
| LightParams.KeySlots | src/implementations/interactive_adjoint_light_tracing/parameter.cpp:103-106 | the slots of one key's set flags: as many as set flags, inside that key's MAX_PARAMS block, ascending |
| LightParams.WalkUpTo | src/implementations/interactive_adjoint_light_tracing/parameter.cpp:103-107 | the walk over keys in ascending order visits ascending slots, all below bound*MAX_PARAMS |
| LightParams.MaxLightIndex | src/implementations/interactive_adjoint_light_tracing/parameter.cpp:85-91 | a bound on every ref_light_index of the map |
| LightParams.LightOrderSize | src/implementations/interactive_adjoint_light_tracing/parameter.cpp:85-93 | lights = orderByIndex.size() counts at most the non-mesh entries |
| LightParams.OrderMapFacts | src/implementations/interactive_adjoint_light_tracing/parameter.cpp:85-100 | every value of orderByIndex is an entry and every key is below the walk's bound |
| LightParams.AddMeshesValues | src/implementations/interactive_adjoint_light_tracing/parameter.cpp:93-100 | mesh keys point at entries and stay below the bound |
| LightParams.MeshCountMonotone | src/implementations/interactive_adjoint_light_tracing/parameter.cpp:94-99 | the mesh counter only grows |
| LightParams.ActiveCountIsSum | src/implementations/interactive_adjoint_light_tracing/parameter.cpp:68-75 | the active count is the sum of the per-entry set-flag counts |
| LightParams.SumOverDistinct | src/implementations/interactive_adjoint_light_tracing/parameter.cpp:102-107 | visiting distinct entries reads at most all their flags, and all of them when every entry is visited |
| LightParams.VisitOrderFacts | src/implementations/interactive_adjoint_light_tracing/parameter.cpp:103 | the visited entries are the values of the keys below the bound, one per key |
| LightParams.VisitOrderDistinct | src/implementations/interactive_adjoint_light_tracing/parameter.cpp:103 | an injective order map visits no entry twice |
| LightParams.WalkLength | src/implementations/interactive_adjoint_light_tracing/parameter.cpp:103-107 | the walk has one slot per set flag of the visited entries |
| LightParams.LightOrderInjective | src/implementations/interactive_adjoint_light_tracing/parameter.cpp:85-91 | no two light keys point at the same entry |
| LightParams.AddMeshesInjective | src/implementations/interactive_adjoint_light_tracing/parameter.cpp:93-100 | adding meshes keeps the map injective and its values entries |
| LightParams.OrderMapInjective | src/implementations/interactive_adjoint_light_tracing/parameter.cpp:85-100 | orderByIndex never maps two keys to the same entry |
| LightParams.WalkWithinActive | src/implementations/interactive_adjoint_light_tracing/parameter.cpp:81-107 | the walk writes at most getActiveParameterCount values, so the reduced vector is never overrun |
| LightParams.LightCount | src/implementations/interactive_adjoint_light_tracing/parameter.cpp:86-91 | the number of light entries is at most the number of entries |
| LightParams.LightOrderKeys | src/implementations/interactive_adjoint_light_tracing/parameter.cpp:85-93 | with distinct ref_light_index values, orderByIndex holds one key per light |
| LightParams.AddMeshesKeys | src/implementations/interactive_adjoint_light_tracing/parameter.cpp:95-100 | mesh keys lie below lights + meshes |
| LightParams.AddMeshesSize | src/implementations/interactive_adjoint_light_tracing/parameter.cpp:95-100 | the second loop adds one key per mesh entry |
| LightParams.CountsPartition | src/implementations/interactive_adjoint_light_tracing/parameter.cpp:86-99 | in a map of lights and meshes, lights + meshes is the number of entries |
| LightParams.OrderMapSize | src/implementations/interactive_adjoint_light_tracing/parameter.cpp:85-100 | for well-indexed lights no key is overwritten: one key per entry, every key below the number of entries |
| LightParams.WalkSlotsBelow | src/implementations/interactive_adjoint_light_tracing/parameter.cpp:103-106 | the walk's slots stay below MAX_PARAMS times the key bound |
| LightParams.VisitsEveryEntry | src/implementations/interactive_adjoint_light_tracing/parameter.cpp:103 | for a well-indexed map each entry is visited exactly once |
| LightParams.WalkComplete | src/implementations/interactive_adjoint_light_tracing/parameter.cpp:102-107 | for a well-indexed map the walk visits every set flag once, inside the full vector of MAX_PARAMS * size entries |
| LightParams.KeySlotsMembers | src/implementations/interactive_adjoint_light_tracing/parameter.cpp:104-105 | a slot belongs to a key's walk iff it is that key's slot of a set flag |
| LightParams.ActiveSlotSplit | src/implementations/interactive_adjoint_light_tracing/parameter.cpp:103-106 | the set-flag slots below a bound split into those of smaller keys and those of the last key |
| LightParams.WalkMembers | src/implementations/interactive_adjoint_light_tracing/parameter.cpp:103-106 | the walk's slots are exactly the set-flag slots of the visited keys |
| LightParams.WalkIsActiveSlots | src/implementations/interactive_adjoint_light_tracing/parameter.cpp:103-106 | a slot is read or written iff it is key*MAX_PARAMS + k for a key of orderByIndex and a set flag k |
| LightParams.Gather | src/implementations/interactive_adjoint_light_tracing/parameter.cpp:105 | the j-th gathered value is the value at the j-th slot |
| LightParams.Scatter | src/implementations/interactive_adjoint_light_tracing/parameter.cpp:111-134 | scattering yields a vector of the full size |
| LightParams.ScatterAt | src/implementations/interactive_adjoint_light_tracing/parameter.cpp:111-134 | to distinct slots, scattering puts v[j] at slot j and zeros everywhere else |
| LightParams.Reduce | src/implementations/interactive_adjoint_light_tracing/parameter.cpp:81-108 | the reduced vector has getActiveParameterCount entries |
| LightParams.Expand | src/implementations/interactive_adjoint_light_tracing/parameter.cpp:110-137 | the expanded vector has MAX_PARAMS entries per map entry |
| LightParams.ReduceReads | src/implementations/interactive_adjoint_light_tracing/parameter.cpp:102-107 | the j-th reduced value is the full vector's value at the j-th visited slot; the rest stay zero |
| LightParams.ExpandWrites | src/implementations/interactive_adjoint_light_tracing/parameter.cpp:129-136 | expand writes the j-th value at the j-th visited slot and zero elsewhere |
| LightParams.ReduceExpand | src/implementations/interactive_adjoint_light_tracing/parameter.cpp:81-137 | expanding an active vector and reducing it again gives it back |
| LightParams.ExpandReduce | src/implementations/interactive_adjoint_light_tracing/parameter.cpp:81-137 | reducing a full vector and expanding it again keeps the active slots and zeroes the others |
| LightParams.BuildOrderMap | src/implementations/interactive_adjoint_light_tracing/parameter.cpp:85-100 | the two loops build exactly orderByIndex |
| LightParams.WalkUpToPrefix | src/implementations/interactive_adjoint_light_tracing/parameter.cpp:103-107 | the walk up to a smaller bound is a prefix of the walk up to a larger one |
| LightParams.WalkSoFarPrefix | src/implementations/interactive_adjoint_light_tracing/parameter.cpp:103-106 | each intermediate state of the nested loops is a prefix of the whole walk |
| LightParams.KeySlotsPrefix | src/implementations/interactive_adjoint_light_tracing/parameter.cpp:104-105 | the slots of the first k flags are a prefix of all the key's slots |
| LightParams.WalkSoFarStep | src/implementations/interactive_adjoint_light_tracing/parameter.cpp:104-105 | one more flag adds that flag's slot exactly when the flag is set |
| LightParams.WalkNextSlot | src/implementations/interactive_adjoint_light_tracing/parameter.cpp:104-105 | a set flag's slot is the next slot of the whole walk, distinct from all before it |
| LightParams.ReduceVectorToActiveParams | src/implementations/interactive_adjoint_light_tracing/parameter.cpp:81-108 | the method returns Reduce of the inputs |
| LightParams.ReduceWalk | src/implementations/interactive_adjoint_light_tracing/parameter.cpp:102-107 | the outer loop gathers the walk of all keys below the bound |
| LightParams.ReduceKey | src/implementations/interactive_adjoint_light_tracing/parameter.cpp:104-106 | the inner loop gathers one key's set flags and advances j by their number |
| LightParams.ExpandVectorToFullParams | src/implementations/interactive_adjoint_light_tracing/parameter.cpp:110-137 | the method returns Expand of the inputs |
| LightParams.ScatteredIsScatter | src/implementations/interactive_adjoint_light_tracing/parameter.cpp:129-136 | the loop state after the whole walk is the scattered vector |
| LightParams.ExpandWalk | src/implementations/interactive_adjoint_light_tracing/parameter.cpp:129-136 | the outer loop scatters the walk of all keys below the bound |
| LightParams.ExpandKey | src/implementations/interactive_adjoint_light_tracing/parameter.cpp:131-135 | the inner loop writes one key's set flags and advances j by their number |
| OptimSpec.Dp | src/implementations/interactive_adjoint_light_tracing/LBFGSppWrapper.hpp:21-34 | the gradient handed to the optimiser is the simulator's gradient while the run is on and all zeros once it has been stopped, always of the parameter vector's size |
| OptimSpec.StoppedRunHalts | src/implementations/interactive_adjoint_light_tracing/LBFGSppWrapper.hpp:32 | once the run flag is down no descent loop takes another step |
| OptimSpec.Track | src/implementations/interactive_adjoint_light_tracing/LBFGSppWrapper.hpp:26-31 | an evaluation replaces the best record exactly when its objective is strictly smaller |
| OptimSpec.TrackedStart | src/implementations/interactive_adjoint_light_tracing/LBFGSppWrapper.hpp:16-18 | a fresh wrapper (DBL_MAX, empty vectors) with an empty history is consistent |
| OptimSpec.TrackedMinimum | src/implementations/interactive_adjoint_light_tracing/LBFGSppWrapper.hpp:26-31 | the record's objective is the least of the history and equals that of its last entry |
| OptimSpec.TrackedStep | src/implementations/interactive_adjoint_light_tracing/LBFGSppWrapper.hpp:26-31 | one evaluation keeps the history strictly decreasing and the record at or below the new point's objective |
| OptimSpec.GDStep | src/implementations/interactive_adjoint_light_tracing/LBFGSppWrapper.hpp:96 | params -= step * dp, entry by entry, keeping the size |
| OptimSpec.GDPoint | src/implementations/interactive_adjoint_light_tracing/LBFGSppWrapper.hpp:92-98 | the k-th gradient-descent iterate keeps the starting vector's size |
| OptimSpec.GDTrajectoryStart | src/implementations/interactive_adjoint_light_tracing/LBFGSppWrapper.hpp:92 | the starting point is iterate 0 and its objective bounds the record |
| OptimSpec.GDTrajectoryStep | src/implementations/interactive_adjoint_light_tracing/LBFGSppWrapper.hpp:94-97 | an iterate that passes the stopping test is followed by the next iterate |
| OptimSpec.AtMostAlongGDFirst | src/implementations/interactive_adjoint_light_tracing/LBFGSppWrapper.hpp:26-98 | a record bounded along the run is at most the starting point's objective |
| OptimSpec.AtMostAlongGDStep | src/implementations/interactive_adjoint_light_tracing/LBFGSppWrapper.hpp:26-97 | one more evaluation keeps the record at or below every iterate so far |
| OptimSpec.GDFixedPoint | src/implementations/interactive_adjoint_light_tracing/LBFGSppWrapper.hpp:94-97 | a point with zero gradient stays put for every later step |
| OptimSpec.AdamStart | src/implementations/interactive_adjoint_light_tracing/LBFGSppWrapper.hpp:118-124 | zero first and second moments of the parameter size, powers beta1 and beta2 |
| OptimSpec.SquaresNonNegative | src/implementations/interactive_adjoint_light_tracing/LBFGSppWrapper.hpp:130 | the squared gradient entries are never negative |
| OptimSpec.SecondMoment | src/implementations/interactive_adjoint_light_tracing/LBFGSppWrapper.hpp:130 | v = beta2 v + (1 - beta2) dp^2 is never negative when v is not |
| OptimSpec.AdamUpdate | src/implementations/interactive_adjoint_light_tracing/LBFGSppWrapper.hpp:129-135 | one Adam update keeps the moments non-negative, the sizes matching and the powers in (0, beta] |
| OptimSpec.AdamZeroGradient | src/implementations/interactive_adjoint_light_tracing/LBFGSppWrapper.hpp:129-135 | a zero gradient with a zero first moment leaves the iterate unchanged |
| OptimSpec.AdamPoint | src/implementations/interactive_adjoint_light_tracing/LBFGSppWrapper.hpp:121-137 | every Adam state along the run satisfies the state invariant |
| OptimSpec.AdamTrajectoryStart | src/implementations/interactive_adjoint_light_tracing/LBFGSppWrapper.hpp:121-124 | the starting state is state 0 and its objective bounds the record |
| OptimSpec.AdamTrajectoryStep | src/implementations/interactive_adjoint_light_tracing/LBFGSppWrapper.hpp:126-136 | a state whose gradient passes the stopping test is followed by the next state |
| OptimSpec.AtMostAlongAdamFirst | src/implementations/interactive_adjoint_light_tracing/LBFGSppWrapper.hpp:26-31 | a record bounded along the Adam run is at most the starting objective |
| OptimSpec.AtMostAlongAdamStep | src/implementations/interactive_adjoint_light_tracing/LBFGSppWrapper.hpp:26-31 | one more evaluation keeps the record at or below every Adam iterate so far |
| OptimSpec.ForwardFD | src/implementations/interactive_adjoint_light_tracing/LBFGSppWrapper.hpp:168-180 | one entry per component: (phi(p + h e_k) - phi(p)) / h |
| OptimSpec.CentralFD | src/implementations/interactive_adjoint_light_tracing/LBFGSppWrapper.hpp:206-223 | one entry per component: (phi(p + h e_k) - phi(p - h e_k)) / 2h |
| OptimSpec.ForwardEstimate | src/implementations/interactive_adjoint_light_tracing/LBFGSppWrapper.hpp:180 | (dpFd - phi) / h entry by entry |
| OptimSpec.ForwardEstimateIsFD | src/implementations/interactive_adjoint_light_tracing/LBFGSppWrapper.hpp:168-180 | the probes followed by the final array operation give the forward estimate |
| OptimSpec.CentralEstimate | src/implementations/interactive_adjoint_light_tracing/LBFGSppWrapper.hpp:223 | (dpFd - dpBd) / 2h entry by entry |
| OptimSpec.CentralEstimateIsFD | src/implementations/interactive_adjoint_light_tracing/LBFGSppWrapper.hpp:206-223 | the probes in both directions followed by the final operation give the central estimate |
| OptimSpec.DotSet | src/implementations/interactive_adjoint_light_tracing/LBFGSppWrapper.hpp:171 | moving one component of x changes a . x by a[k] times the change |
| OptimSpec.ForwardQuotient | src/implementations/interactive_adjoint_light_tracing/LBFGSppWrapper.hpp:180 | the forward quotient of an exact linear change returns its slope |
| OptimSpec.CentralQuotient | src/implementations/interactive_adjoint_light_tracing/LBFGSppWrapper.hpp:223 | the central quotient of an exact linear change returns its slope |
| OptimSpec.AffineMove | src/implementations/interactive_adjoint_light_tracing/LBFGSppWrapper.hpp:171-173 | where phi equals c + a . x at p and at the moved point (as it does everywhere for an affine objective), moving p[k] by h moves phi by a[k] h |
| OptimSpec.AffineMoveDown | src/implementations/interactive_adjoint_light_tracing/LBFGSppWrapper.hpp:215-216 | where phi equals c + a . x at p and at p with p[k] lowered by h, it moves by -a[k] h |
| OptimSpec.AffineSlopes | src/implementations/interactive_adjoint_light_tracing/LBFGSppWrapper.hpp:168-220 | every axis probe of an affine objective moves it by plus or minus a[k] h |
| OptimSpec.ForwardFDRecoversSlopes | src/implementations/interactive_adjoint_light_tracing/LBFGSppWrapper.hpp:168-180 | with exact axis slopes the forward estimate is the slope vector |
| OptimSpec.CentralFDRecoversSlopes | src/implementations/interactive_adjoint_light_tracing/LBFGSppWrapper.hpp:206-223 | with exact axis slopes the central estimate is the slope vector |
| OptimSpec.FDExactForAffine | src/implementations/interactive_adjoint_light_tracing/LBFGSppWrapper.hpp:145-152 | both checks are exact for an affine objective, so a correct gradient gives difference zero |
| OptimSpec.CleanEntry | src/implementations/interactive_adjoint_light_tracing/light_trace_opti.cpp:1291 | a non-finite gradient entry becomes 0, a finite one is kept |
| OptimSpec.SanitizeObjective | src/implementations/interactive_adjoint_light_tracing/light_trace_opti.cpp:1290 | a non-finite phi or constraint value is replaced by (DBL_MAX, 0); finite values pass through |
| OptimSpec.ClampToColor | src/implementations/interactive_adjoint_light_tracing/light_trace_opti.cpp:2013-2018 | the byte is within [0, 255], 0 at or below 0, 255 at or above 1, and floor(255 c) in between |
| OptimSpec.ClampToColorMonotone | src/implementations/interactive_adjoint_light_tracing/light_trace_opti.cpp:2013-2018 | brighter input never gives a darker byte |
| LightTraceOpti.LightTraceOptimizer.constructor | src/implementations/interactive_adjoint_light_tracing/light_trace_opti.hpp:80 | a new optimiser has an empty history with index -1 and is not running |
| LightTraceOpti.LightTraceOptimizer.AddCurrentStateToHistory | src/implementations/interactive_adjoint_light_tracing/light_trace_opti.cpp:1301-1305 | the entry is appended and the index moves onto it |
| LightTraceOpti.LightTraceOptimizer.GetHistorySize | src/implementations/interactive_adjoint_light_tracing/light_trace_opti.cpp:1307-1310 | the number of entries, one more than the current index |
| LightTraceOpti.LightTraceOptimizer.ClearHistory | src/implementations/interactive_adjoint_light_tracing/light_trace_opti.cpp:1322-1327 | index -1 and no entries; parameters and run flag unchanged |
| LightTraceOpti.LightTraceOptimizer.ExportHistory | src/implementations/interactive_adjoint_light_tracing/light_trace_opti.cpp:1329-1334 | returns the old entries and leaves the history empty |
| LightTraceOpti.LightTraceOptimizer.SetOptimizationRunning | src/implementations/interactive_adjoint_light_tracing/light_trace_opti.cpp:1070-1073 | sets the run flag and nothing else |
| LightTraceOpti.LightTraceOptimizer.Optimize | src/implementations/interactive_adjoint_light_tracing/light_trace_opti.cpp:941-1068 | no lights: (0, 0) and nothing changes; otherwise the history is cleared and rebuilt strictly decreasing, GD and Adam leave the best parameters with a best value at most the starting objective, the checks return (phi, phi) and restore the parameters, and the flag is lowered |
| LightTraceOpti.LightTraceOptimizer.Descend | src/implementations/interactive_adjoint_light_tracing/light_trace_opti.cpp:978-995 | the GD or Adam branch: the returned best is the last history entry with its objective, or DBL_MAX with no improvement |
| LightTraceOpti.LightTraceOptimizer.Check | src/implementations/interactive_adjoint_light_tracing/light_trace_opti.cpp:996-1021 | the finite-difference branch returns (phi(p), phi(p)) and leaves the parameters as they were |
| LightTraceOpti.OptimWrapper.constructor | src/implementations/interactive_adjoint_light_tracing/LBFGSppWrapper.hpp:16-86 | best value DBL_MAX, empty vectors, zero counters, tolerance 1e-6 |
| LightTraceOpti.OptimWrapper.Evaluate | src/implementations/interactive_adjoint_light_tracing/LBFGSppWrapper.hpp:21-34 | one forward and backward pass: objective and gradient at p, one more evaluation, the record and history updated exactly on strict improvement, the gradient zeroed once stopped |
| LightTraceOpti.OptimWrapper.GDStart | src/implementations/interactive_adjoint_light_tracing/LBFGSppWrapper.hpp:89-92 | counters reset and the start evaluated: iterate 0 of the run |
| LightTraceOpti.OptimWrapper.GDIterate | src/implementations/interactive_adjoint_light_tracing/LBFGSppWrapper.hpp:95-97 | one loop pass advances to the next iterate and keeps the record at or below all iterates |
| LightTraceOpti.OptimWrapper.RunGradientDescent | src/implementations/interactive_adjoint_light_tracing/LBFGSppWrapper.hpp:87-102 | the loop stops at the first iterate passing the stopping test or after maxIters + 1 steps; lastPhi is the objective of that iterate; the record is at or below every iterate; the best parameters are returned |
| LightTraceOpti.OptimWrapper.AdamBegin | src/implementations/interactive_adjoint_light_tracing/LBFGSppWrapper.hpp:118-124 | counters reset, zero moments, the start evaluated: state 0 of the run |
| LightTraceOpti.OptimWrapper.AdamIterate | src/implementations/interactive_adjoint_light_tracing/LBFGSppWrapper.hpp:127-136 | one loop pass advances to the next Adam state and keeps the record at or below all iterates |
| LightTraceOpti.OptimWrapper.RunAdam | src/implementations/interactive_adjoint_light_tracing/LBFGSppWrapper.hpp:116-141 | as gradient descent, for the Adam iterates |
| LightTraceOpti.OptimWrapper.EvaluateWith | src/implementations/interactive_adjoint_light_tracing/LBFGSppWrapper.hpp:170-176 | one probe: the objective at p with component k set to w, and the parameters restored |
| LightTraceOpti.OptimWrapper.ForwardProbes | src/implementations/interactive_adjoint_light_tracing/LBFGSppWrapper.hpp:168-177 | one evaluation per component, fd[k] = phi(p + h e_k), parameters restored |
| LightTraceOpti.OptimWrapper.ForwardProbeStep | src/implementations/interactive_adjoint_light_tracing/LBFGSppWrapper.hpp:169-176 | one pass probes the next component upward, appends phi(p + h e_k) and restores the parameters; one more evaluation and one more iteration |
| LightTraceOpti.OptimWrapper.RunForwardCheck | src/implementations/interactive_adjoint_light_tracing/LBFGSppWrapper.hpp:161-187 | the record holds the forward estimate, the supplied gradient and the norm of their difference; the result is (phi(p), phi(p)); parameters unchanged |
| LightTraceOpti.OptimWrapper.EvaluateBothWays | src/implementations/interactive_adjoint_light_tracing/LBFGSppWrapper.hpp:208-219 | the objectives at p + h e_k and p - h e_k, parameters restored |
| LightTraceOpti.OptimWrapper.CentralProbes | src/implementations/interactive_adjoint_light_tracing/LBFGSppWrapper.hpp:206-220 | the collected probes give the central estimate, two evaluations per component |
| LightTraceOpti.OptimWrapper.CentralProbeStep | src/implementations/interactive_adjoint_light_tracing/LBFGSppWrapper.hpp:207-219 | one pass probes the next component up and down, appends both values in component order and restores the parameters; two more evaluations |
| LightTraceOpti.OptimWrapper.RunCentralCheck | src/implementations/interactive_adjoint_light_tracing/LBFGSppWrapper.hpp:198-230 | as the forward check, with the central estimate |
| LightTraceOpti.SanitizeGradient | src/implementations/interactive_adjoint_light_tracing/light_trace_opti.cpp:1291 | every entry finite afterwards: non-finite entries zero, finite ones unchanged |
| LightTraceOpti.ClampVertexAreas | src/implementations/interactive_adjoint_light_tracing/light_trace_opti.cpp:693 | every area at least FLT_EPSILON; areas below it raised to it, the rest unchanged |
| Constraint.AxisOffset | src/implementations/interactive_adjoint_light_tracing/constraint.hpp:47-54 | the offset along one axis is zero exactly inside [lo, hi], negative exactly below, positive exactly above |
| Constraint.Offset | src/implementations/interactive_adjoint_light_tracing/constraint.hpp:45-54 | the box offset d has three entries |
| Constraint.OffsetNormZeroIffInside | src/implementations/interactive_adjoint_light_tracing/constraint.hpp:45-56 | the squared norm of d is non-negative and zero exactly when the position is inside the box |
| Numeric.ScaledSign | src/implementations/interactive_adjoint_light_tracing/constraint.hpp:56-78 | a non-negative quantity scaled by a non-negative factor stays non-negative, and by a positive factor is zero only when it was |
| Constraint.LightPenaltyNonNegative | src/implementations/interactive_adjoint_light_tracing/constraint.hpp:17-78 | each light's penalty is non-negative for a non-negative factor |
| Constraint.LightPenaltyZeroIff | src/implementations/interactive_adjoint_light_tracing/constraint.hpp:17-56 | for a positive factor a light's AABB penalty is zero iff the light is inside the box |
| Constraint.PenaltyNonNegative | src/implementations/interactive_adjoint_light_tracing/constraint.hpp:39-92 | the summed penalty is non-negative for a non-negative factor |
| Constraint.AabbPenaltyZeroIff | src/implementations/interactive_adjoint_light_tracing/constraint.hpp:17-60 | for a positive factor the AABB penalty is zero iff every light is inside the box |
| Constraint.AabbTouchesOnlyPositions | src/implementations/interactive_adjoint_light_tracing/constraint.hpp:57 | the AABB gradient is zero outside the POS_X..POS_Z entries of each block |
| Constraint.IntensityTouchesOnlyIntensity | src/implementations/interactive_adjoint_light_tracing/constraint.hpp:88 | the intensity gradient is zero outside the INTENSITY entry of each block |
| Constraint.BlockSlot | src/implementations/interactive_adjoint_light_tracing/constraint.hpp:23-57 | inside the block of index x, the slot is the entry index modulo MAX_PARAMS |
| Constraint.SegmentInBlock | src/implementations/interactive_adjoint_light_tracing/constraint.hpp:57-88 | a light's gradient segment lies inside its own MAX_PARAMS block |
| Constraint.SegmentEntry | src/implementations/interactive_adjoint_light_tracing/constraint.hpp:41-90 | with distinct ref_light_index values, the gradient at a light's segment is exactly that light's pf * d (or pf * intensity) |
| Constraint.NoEarlierSegment | src/implementations/interactive_adjoint_light_tracing/constraint.hpp:41-58 | with distinct indices no other light writes into a light's block |
| Constraint.OtherSegment | src/implementations/interactive_adjoint_light_tracing/constraint.hpp:57-88 | a light adds nothing to the block of a light with another index |
| Constraint.Insert | src/implementations/interactive_adjoint_light_tracing/constraint.hpp:15 | set insertion by identity: the identities grow by the new one, nothing is lost, and a light already held changes nothing |
| Constraint.Erase | src/implementations/interactive_adjoint_light_tracing/constraint.hpp:16 | set erasure by identity: the identity is gone, nothing is added, and erasing an absent light changes nothing |
| Constraint.InsertIdempotent | src/implementations/interactive_adjoint_light_tracing/constraint.hpp:15 | adding the same light twice is adding it once |
| Constraint.LightConstraint.InAABB | src/implementations/interactive_adjoint_light_tracing/constraint.hpp:11-35 | a box constraint starts with factor 1, active, with no lights |
| Constraint.LightConstraint.IntensityPenalty | src/implementations/interactive_adjoint_light_tracing/constraint.hpp:11-68 | an intensity penalty starts with the given factor, active, with no lights |
| Constraint.LightConstraint.SetPenaltyFactor | src/implementations/interactive_adjoint_light_tracing/constraint.hpp:13 | stores the factor |
| Constraint.LightConstraint.SetActive | src/implementations/interactive_adjoint_light_tracing/constraint.hpp:14 | stores the flag |
| Constraint.LightConstraint.AddLight | src/implementations/interactive_adjoint_light_tracing/constraint.hpp:15 | the light set becomes Insert of the old one |
| Constraint.LightConstraint.RemoveLight | src/implementations/interactive_adjoint_light_tracing/constraint.hpp:16 | the light set becomes Erase of the old one |
| Constraint.LightConstraint.EvalAndAddToGradient | src/implementations/interactive_adjoint_light_tracing/constraint.hpp:37-93 | inactive: 0 and the gradient untouched; active: the summed penalty, and every gradient entry grows by the lights' contributions |
| Constraint.LightConstraint.AddAll | src/implementations/interactive_adjoint_light_tracing/constraint.hpp:41-90 | the loop accumulates the penalty of every light and adds every light's segment |
| Constraint.AddToSegment | src/implementations/interactive_adjoint_light_tracing/constraint.hpp:57-88 | segment(start, \|v\|) += v: entries in the segment grow by v, all others are unchanged |
| Objective.ResidualDerivative | src/implementations/interactive_adjoint_light_tracing/objectivefunction.cpp:11 | one derivative entry per vertex |
| Objective.WeightedResidualNormAndDerivative | src/implementations/interactive_adjoint_light_tracing/objectivefunction.cpp:7-13 | the value and a derivative of the size of x |
| Objective.TermSign | src/implementations/interactive_adjoint_light_tracing/objectivefunction.cpp:10 | one vertex term is non-negative for non-negative weight and area, and zero exactly at the target when both are positive |
| Objective.WeightedSquaresNonNegative | src/implementations/interactive_adjoint_light_tracing/objectivefunction.cpp:10 | the weighted sum of squares is non-negative for non-negative weights and areas |
| Objective.ResidualNormNonNegative | src/implementations/interactive_adjoint_light_tracing/objectivefunction.cpp:10 | O = 0.5 (x - t)^T W A (x - t) is non-negative for non-negative weights and areas |
| Objective.WeightedSquaresZero | src/implementations/interactive_adjoint_light_tracing/objectivefunction.cpp:10 | for positive weights and areas the partial sum is zero iff those vertices sit on the target |
| Objective.ResidualNormZeroIff | src/implementations/interactive_adjoint_light_tracing/objectivefunction.cpp:10-11 | for positive weights and areas O is zero iff x equals the target, and then the derivative is zero |
| Objective.DerivativeZeroAtTarget | src/implementations/interactive_adjoint_light_tracing/objectivefunction.cpp:11 | at the target the derivative vanishes |
| Objective.WeightedSquaresMove | src/implementations/interactive_adjoint_light_tracing/objectivefunction.cpp:10 | moving one vertex changes only its own term |
| Objective.DerivativeIsGradient | src/implementations/interactive_adjoint_light_tracing/objectivefunction.cpp:10-11 | moving x_j by h changes O by h dx_j + 0.5 h^2 w_j a_j: the derivative written is the exact gradient of the value returned |
| Objective.TermShift | src/implementations/interactive_adjoint_light_tracing/objectivefunction.cpp:10-11 | one vertex term changes by 2 h dx_j + h^2 w_j a_j |
| Objective.ChannelEntry | src/implementations/interactive_adjoint_light_tracing/objectivefunction.cpp:28 | the tinted channel entryData has one value per row |
| Objective.ChannelGradient | src/implementations/interactive_adjoint_light_tracing/objectivefunction.cpp:29-30 | a channel's derivative column has one value per row |
| Objective.MultiPhiNonNegative | src/implementations/interactive_adjoint_light_tracing/objectivefunction.cpp:27-31 | with non-negative vertex, area and channel weights the multichannel objective is non-negative |
| Objective.MultiPhiZeroAtTarget | src/implementations/interactive_adjoint_light_tracing/objectivefunction.cpp:27-31 | when every tinted channel equals its target column the objective and every derivative entry are zero |
| Objective.WeightedSquaresZeroAtTarget | src/implementations/interactive_adjoint_light_tracing/objectivefunction.cpp:10 | the sum of squares vanishes at the target, whatever the weights |
| Objective.ChannelGradients | src/implementations/interactive_adjoint_light_tracing/objectivefunction.cpp:25-31 | dMap has one column per channel and one row per vertex |
| Objective.RowMajor | src/implementations/interactive_adjoint_light_tracing/objectivefunction.cpp:33-35 | the row-major copy has rows * cols entries |
| Objective.RowMajorIndex | src/implementations/interactive_adjoint_light_tracing/objectivefunction.cpp:34 | index r * cols + k decodes to row r, column k |
| Objective.RowMajorAt | src/implementations/interactive_adjoint_light_tracing/objectivefunction.cpp:33-35 | entry r * cols + k of the output is dMap(r, k) |
| Objective.Evaluate | src/implementations/interactive_adjoint_light_tracing/objectivefunction.cpp:15-37 | the base objective returns 0 with a zero derivative; the simple one returns weightedResidualNormAndDerivative with dx of the target's size; the multichannel one returns the weighted channel sum with dMap written row-major |
| Objective.EvaluateMultiChannel | src/implementations/interactive_adjoint_light_tracing/objectivefunction.cpp:21-37 | the channel loop accumulates the weighted channel objectives and builds dMap column by column |
| Objective.MultiPhiZeroIff | src/implementations/interactive_adjoint_light_tracing/objectivefunction.cpp:27-31 | with positive vertex weights, areas and channel weights, the multichannel value over the first n channels is zero iff each of those tinted channels equals its target column |
| Objective.XAtMoved | src/implementations/interactive_adjoint_light_tracing/objectivefunction.cpp:23 | moving entry r * cols + k of x moves xMap(r, k) by h and leaves every other entry of xMap |
| Objective.ChannelEntryMoved | src/implementations/interactive_adjoint_light_tracing/objectivefunction.cpp:23-28 | moving x at r * cols + k moves entry r of channel k's entryData by its tint times h and leaves the rest of that channel |
| Objective.ChannelEntryUnmoved | src/implementations/interactive_adjoint_light_tracing/objectivefunction.cpp:23-29 | the same move leaves the residual of every other channel unchanged |
| Objective.ChannelResidualMoved | src/implementations/interactive_adjoint_light_tracing/objectivefunction.cpp:28-29 | when channel k's tinted entry r moves by c h, its residual changes by (c h) d_r + 0.5 (c h)^2 w_r a_r, with d the derivative written for that channel: the single-channel gradient identity at the tinted step |
| Input.KeyStepPressed | src/core/common/input.cpp:130-135 | a key event sets down to the event's state; pressed is raised exactly on an up-to-down change and released exactly on a down-to-up change; raised flags stay raised; a fresh key is never both |
| Input.Process | src/core/common/input.cpp:118-147 | a callback that takes the event leaves the input state unchanged; only key events change the keys; key indices stay within LAST_KEY |
| Input.Drain | src/core/common/input.cpp:69-77 | processing the events in order keeps one entry per key |
| Input.FrameStart | src/core/common/input.cpp:61-66 | every pressed and released flag is cleared and every down flag kept |
| Input.DrainUntouchedKey | src/core/common/input.cpp:118-135 | a key that no unhandled key event names keeps its state through the frame |
| Input.FrameWithoutKeyEvents | src/core/common/input.cpp:58-78 | after a frame without events for a key, that key is neither pressed nor released and keeps its down state |
| Input.LeadingEvents | src/core/common/input.cpp:69-77 | the loop processes exactly the events before the first NONE |
| Input.Taken | src/core/common/input.cpp:71 | the loop removes the leading events and the NONE that stopped it, never more than are queued |
| Input.Pushed | src/core/common/input.cpp:41-48 | queueing appends the event and keeps at most MAX_QUED_EVENTS, dropping the oldest when full |
| Input.Newest | include/tamashii/core/common/input.hpp:168-170 | the queue window holds at most MAX_QUED_EVENTS events |
| Input.PushedKeepsNewest | src/core/common/input.cpp:37-56 | the queue always holds the newest MAX_QUED_EVENTS events queued so far |
| Input.Ring | src/core/common/input.cpp:41-48 | the ring between tail and head has head - tail events |
| Input.RingPush | src/core/common/input.cpp:41-48 | writing at head & MASK and advancing head (and tail when full) is Pushed on the ring's contents |
| Input.InputSystem.State | include/tamashii/core/common/input.hpp:133-137 | the state has one key entry per key code |
| Input.InputSystem.constructor | include/tamashii/core/common/input.hpp:126-137 | every key up with no flags, and all mouse vectors zero |
| Input.InputSystem.WasPressed | src/core/common/input.cpp:6-10 | true only for a valid key index whose pressed flag is set |
| Input.InputSystem.IsDown | src/core/common/input.cpp:11-15 | true only for a valid key index that is down |
| Input.InputSystem.WasReleased | src/core/common/input.cpp:16-20 | true only for a valid key index whose released flag is set |
| Input.KeyGuardAsWrittenAdmitsLastKey | src/core/common/input.cpp:8 | the range check as written admits LAST_KEY, which is not an index of mKeys |
| Input.KeyGuardExact | src/core/common/input.cpp:8 | the corrected range check admits exactly the indices of mKeys, which is the written check without LAST_KEY |
| Input.EventSystem.Contents | include/tamashii/core/common/input.hpp:170-172 | the queued events, head - tail of them, all well formed |
| Input.EventSystem.constructor | include/tamashii/core/common/input.hpp:170-175 | an empty queue and no callbacks |
| Input.EventSystem.QueueEvent | src/core/common/input.cpp:37-56 | the queue's contents become Pushed of the old contents |
| Input.EventSystem.GetEvent | src/core/common/input.cpp:107-116 | an empty queue gives Event{} and stays empty; otherwise the oldest event is removed and returned |
| Input.EventSystem.ClearEventQueue | src/core/common/input.cpp:80-83 | the queue is empty afterwards |
| Input.EventSystem.SetCallback | src/core/common/input.cpp:97-105 | a new (type, input) pair gets the callback; a registered pair keeps its old one (map insert); other types are unchanged |
| Input.EventSystem.ProcessEvent | src/core/common/input.cpp:118-147 | the input state becomes Process of the old state |
| Input.EventSystem.Reset | src/core/common/input.cpp:85-95 | every key reset, relative mouse and wheel zero, absolute position kept |
| Input.EventSystem.StartFrame | src/core/common/input.cpp:60-66 | the input state becomes FrameStart of the old one |
| Input.EventSystem.EventLoop | src/core/common/input.cpp:58-78 | the events before the first NONE are processed in order after the frame start, and they and the NONE leave the queue |
| Input.EventSystem.DrainStep | src/core/common/input.cpp:70-77 | one pass takes the next event: a NONE or an empty queue stops with exactly the leading events and the NONE taken and the input state untouched; any other event is processed and extends the drained prefix by one |
| RenderCmd.EndFrames | src/core/scene/render_cmd_system.cpp:17-23 | the number of END_FRAME commands is at most the list's length |
| RenderCmd.EndFramesAppend | src/core/scene/render_cmd_system.cpp:144-148 | appending a command raises the count by one exactly for END_FRAME |
| RenderCmd.EndFramesFront | src/core/scene/render_cmd_system.cpp:97-100 | removing the front command lowers the count by one exactly for END_FRAME |
| RenderCmd.EndFrameCounted | src/core/scene/render_cmd_system.cpp:17-23 | raising the wrapped frame counter by one matches the END_FRAME count of the list with END_FRAME appended |
| RenderCmd.RenderCmdSystem.constructor | src/core/scene/render_cmd_system.cpp:8 | an empty queue and no frames in flight |
| RenderCmd.RenderCmdSystem.AddCmd | src/core/scene/render_cmd_system.cpp:144-148 | the command goes to the back of the queue and the frame counter stays consistent |
| RenderCmd.RenderCmdSystem.AddEndFrameCmd | src/core/scene/render_cmd_system.cpp:17-23 | END_FRAME goes to the back and the 32-bit frame counter is raised by one |
| RenderCmd.RenderCmdSystem.NextCmd | src/core/scene/render_cmd_system.cpp:88-92 | true iff a command is queued |
| RenderCmd.RenderCmdSystem.PopNextCmd | src/core/scene/render_cmd_system.cpp:94-103 | the front command is removed and returned; an empty queue gives RCmd_s{EMPTY} and stays empty |
| RenderCmd.RenderCmdSystem.DeleteCmd | src/core/scene/render_cmd_system.cpp:105-137 | deleting END_FRAME lowers the 32-bit frame counter by one; every other command leaves it |
| SceneModel.SetPoint | src/core/scene/model.cpp:49-53 | the grown box holds the point and the old box, and is the least such box |
| SceneModel.Merge | src/core/scene/model.cpp:67-70 | the merge holds both boxes and is the least box that does |
| SceneModel.SetBox | src/core/scene/model.cpp:43-47 | growing a box by another is their merge |
| SceneModel.MergeContains | src/core/scene/model.cpp:37-42 | a point inside either box is inside their merge |
| SceneModel.GetPoint | src/core/scene/model.cpp:88-101 | index 0 is min, 7 is max, 8 and above the origin; every corner of a non-empty box is inside it, with each coordinate taken from min or max |
| SceneModel.BoundContains | src/core/scene/model.cpp:58-63 | the box grown point by point holds the start box and every point |
| SceneModel.BoundLeast | src/core/scene/model.cpp:58-63 | the grown box is the least box holding the start and every point |
| SceneModel.DefaultGrowsToPoint | include/tamashii/core/scene/model.hpp:25-26 | from the intended empty default, one finite point gives exactly that point's box |
| SceneModel.DefaultAsWrittenOvershoots | include/tamashii/core/scene/model.hpp:25-26 | from the default as written (max = FLT_MIN), the point (-1,-1,-1) gives max FLT_MIN, not its own box |
| SceneModel.Corners | src/core/scene/model.cpp:58-60 | the eight corners are getPoint(0..7) |
| SceneModel.Transform | src/core/scene/model.cpp:55-65 | the result is the default grown by the eight transformed corners, so it holds each of them |
| SceneModel.IdentityTransform | src/core/scene/model.cpp:55-65 | with the identity matrix a finite non-empty box is transformed into itself |
| SceneModel.PrimitiveCountOf | src/core/scene/model.cpp:321-340 | points: the count; lines: count / 2; triangles: count / 3; unknown: 0; over indices when present, vertices otherwise |
| SceneModel.Mesh.constructor | src/core/scene/model.cpp:251 | a new mesh has unknown topology, no data and every has-flag false |
| SceneModel.Mesh.TriangleIndices | src/core/scene/model.cpp:405-414 | the three vertex indices of triangle i: the index list's entries 3i..3i+2 when there are indices, else 3i..3i+2 themselves; valid indices stay below the vertex count |
| SceneModel.Mesh.Clear | src/core/scene/model.cpp:450-463 | unknown topology, no indices or vertices, every has-flag false, the empty box |
| SceneModel.Mesh.GetCustomData | src/core/scene/model.cpp:297-302 | the entry when the key is present, null otherwise |
| SceneModel.Mesh.AddCustomData | src/core/scene/model.cpp:291-295 | emplace: a new key gets an empty entry, an existing one keeps its data; the entry is returned |
| SceneModel.Mesh.DeleteCustomData | src/core/scene/model.cpp:304-307 | the key is erased, nothing else |
| SceneModel.TrianglesBelowCount | src/core/scene/model.cpp:321-340 | every triangle numbered below getPrimitiveCount has its three indices within the mesh |
| SceneGraph.DefaultHasNoLocalTransform | src/core/scene/scene_graph.cpp:6-10 | a fresh TRS has no static component and no animation, so a fresh node has no local transform |
| SceneGraph.SetTranslationAnimation | src/core/scene/scene_graph.cpp:412-418 | the translation animation runs iff the mode is not NONE and there are time steps; the translation channel takes the given mode, times and steps; the node animates iff that or another animation runs; the rotation and scale channels and the static parts stay |
| SceneGraph.SetRotationAnimation | src/core/scene/scene_graph.cpp:420-426 | as SetTranslationAnimation, for the rotation; the translation and scale channels stay |
| SceneGraph.SetScaleAnimation | src/core/scene/scene_graph.cpp:428-434 | as SetTranslationAnimation, for the scale; the translation and rotation channels stay |
| SceneGraph.FirstAfter | src/core/scene/scene_graph.cpp:58-67 | the first time step after t: every earlier one is at most t |
| SceneGraph.LinearSearch | src/core/scene/scene_graph.cpp:54-67 | previous is the last step before the first one after t (0 if none), next that first step after t or size()-1, which wraps for an empty list |
| SceneGraph.StepSearch | src/core/scene/scene_graph.cpp:76-86 | the STEP search finds the same previous index, which is a valid index for a non-empty list |
| SceneGraph.FirstAfterIsFirst | src/core/scene/scene_graph.cpp:58-67 | an index whose step is after t and all of whose predecessors are not is FirstAfter |
| SceneGraph.SortedSearch | src/core/scene/scene_graph.cpp:52-86 | on sorted steps with t not before the first, previous is the last step at or before t, and LINEAR brackets t between previous and next |
| SceneGraph.Node.constructor | src/core/scene/scene_graph.cpp:285-288 | a named node with the identity TRS, no children and nothing attached |
| SceneGraph.Node.PreOrder | src/core/scene/scene_graph.cpp:490-494 | the pre-order starts with the node itself and holds only nodes of its tree |
| SceneGraph.Node.ChildrenFrom | src/core/scene/scene_graph.cpp:493 | the children's pre-orders hold only nodes below this one |
| SceneGraph.Node.AddChildNode | src/core/scene/scene_graph.cpp:295-299 | one new empty child with the given name is appended and returned; the node's own fields are unchanged |
| SceneGraph.Node.Visit | src/core/scene/scene_graph.cpp:490-494 | the function is applied to the node and then recursively to each child: the pre-order |
| SceneGraph.Node.SetTranslationAnimationOf | src/core/scene/scene_graph.cpp:412-418 | the node's TRS becomes SetTranslationAnimation of the old one |
| ImageAsset.TextureFormatToBytes | src/core/scene/image.cpp:103-145 | the byte count of a pixel is channels times channel bytes, zero only for UNKNOWN, at most 32 |
| ImageAsset.ToSrgb | src/core/scene/image.cpp:76-90 | setSRGB(true) turns the two 8-bit linear formats into sRGB and keeps every other format, never changing the pixel size |
| ImageAsset.ToUnorm | src/core/scene/image.cpp:91-100 | setSRGB(false) leaves no sRGB format and keeps every non-sRGB one, never changing the pixel size |
| ImageAsset.SrgbRoundTrip | src/core/scene/image.cpp:76-101 | switching to sRGB and back restores a non-sRGB format, and back and forth restores an sRGB one |
| ImageAsset.ImageSize | src/core/scene/image.cpp:25 | the 32-bit product width * height * bytes, equal to the true product when that fits |
| ImageAsset.Image.constructor | src/core/scene/image.cpp:5-7 | width and height all ones, size -1, UNKNOWN format, no mipmaps, no data |
| ImageAsset.Image.PixelSizeInBytes | src/core/scene/image.cpp:71-74 | channels times channel bytes of the current format |
| ImageAsset.Image.Init | src/core/scene/image.cpp:19-29 | an initialised image (non-empty data) is an error that changes nothing; otherwise the size, format and 32-bit byte count are stored and that many bytes copied |
| ImageAsset.Image.SetSrgb | src/core/scene/image.cpp:76-101 | the format becomes ToSrgb or ToUnorm of the old one |
| MaterialAsset.Material.constructor | src/core/scene/material.cpp:5-30 | OPAQUE, alpha discard 0.5, no culling, black emission with strength 1, no textures: not a light |
| MaterialAsset.Material.SetCullBackface | src/core/scene/material.cpp:36-37 | stores the flag |
| MaterialAsset.Material.SetBlendMode | src/core/scene/material.cpp:39-40 | stores the mode |
| MaterialAsset.Material.SetEmissionStrength | src/core/scene/material.cpp:126-127 | stores the strength; the material is a light iff the strength and the emission colour are non-zero |
| MaterialAsset.Material.SetEmissionFactor | src/core/scene/material.cpp:129-130 | stores the colour; the material is a light iff the strength and the colour are non-zero |
| MaterialAsset.Material.SetTexture | src/core/scene/material.cpp:87-88 | a texture fills its slot, null empties it; the other slots stay |
| MaterialAsset.Material.RawData | src/core/scene/material.cpp:273-343 | alphaDiscard iff MASK; each slot reports its texture's coordinate set or -1 when empty; the unsupported slots report -1; isEmissive iff isLight; double-sided iff not culling |
| MaterialAsset.TexCoordMinusOneIffEmpty | src/core/scene/material.cpp:302-319 | with textures that name a coordinate set, a slot reports -1 iff it is empty |
| GltfExport.RoundUp4 | src/core/io/exporter/gltf.cpp:25-26 | the buffer alignment: the least multiple of 4 not below n, less than 4 above it |
| GltfExport.RountUpToMultipleOfIsRoundUp4 | src/core/io/exporter/gltf.cpp:25 | the uint64 bit trick (n + 3) & -4 equals the least multiple of 4 not below n whenever n + 3 does not wrap |
| GltfExport.IndexWidth | src/core/io/exporter/gltf.cpp:395-400 | the index width is 1, 2 or 4 bytes, the narrowest whose largest value is not below the vertex count; 2 and 4 only when the narrower width is too small |
| GltfExport.IndexWidthModulus | src/core/io/exporter/gltf.cpp:399-400 | the largest value of each index width is 256^width - 1 |
| GltfExport.LittleEndianRoundTrip | src/core/io/exporter/gltf.cpp:402-413 | writing a value below 256^n as n little-endian bytes and reading them back gives the value |
| GltfExport.EncodeIndex | src/core/io/exporter/gltf.cpp:404-412 | one stored index takes exactly the index width in bytes |
| GltfExport.EncodeIndices | src/core/io/exporter/gltf.cpp:402-413 | the index data takes index count times width bytes |
| GltfExport.EncodeIndicesAt | src/core/io/exporter/gltf.cpp:402-413 | index i occupies bytes i*width up to (i+1)*width of the index data, and nothing else does |
| GltfExport.DecodeEncodedIndex | src/core/io/exporter/gltf.cpp:395-422 | every index that fits the chosen width is read back unchanged from its place in the buffer |
| GltfExport.CalcBufferSizeAppend | src/core/io/exporter/gltf.cpp:317-343 | the buffer size of the meshes is the sum of each mesh's indices, attributes and custom data, each rounded up to 4 bytes |
| GltfExport.CustomBytesAppend | src/core/io/exporter/gltf.cpp:337-340 | each custom data entry adds its byte count rounded up to 4 |
| GltfExport.CalcBufferSizeStep | src/core/io/exporter/gltf.cpp:320-343 | one more mesh adds that mesh's size, and a prefix of the meshes never needs more than all of them |
| GltfExport.CalcBufferSizePrefix | src/core/io/exporter/gltf.cpp:320-343 | the size set aside for a prefix of the meshes is at most the size for all of them |
| GltfExport.CustomBytesPrefix | src/core/io/exporter/gltf.cpp:337-340 | the size of a prefix of the custom data entries is at most the size of all of them |
| GltfExport.CustomBytesStep | src/core/io/exporter/gltf.cpp:337-340 | one more custom data entry adds its rounded size, within the total |
| GltfExport.SaveUV1sAsWritten | src/core/io/exporter/gltf.cpp:493-505 | the second texture coordinate set as exported: every entry is the vertex's first set |
| GltfExport.SaveUV1s | src/core/io/exporter/gltf.cpp:493-505 | the second texture coordinate set as intended: every entry is the vertex's second set |
| GltfExport.SaveUV1sAsWrittenLosesSecondSet | src/core/io/exporter/gltf.cpp:497-498 | a vertex whose two sets differ is exported with the wrong TEXCOORD_1 |
| GltfExport.Decimal | src/core/io/exporter/gltf.cpp:105 | std::to_string of an appendix is never empty |
| GltfExport.DecimalInjective | src/core/io/exporter/gltf.cpp:105 | different appendices give different decimal strings |
| GltfExport.OutFilepathInjective | src/core/io/exporter/gltf.cpp:99-106 | different appendices give different output paths, so the search for a free name tries a new path each time |
| GltfExport.PathsCount | src/core/io/exporter/gltf.cpp:103-107 | the paths for appendices 0 to n-1 are n distinct paths |
| GltfExport.UsedBound | src/core/io/exporter/gltf.cpp:103-107 | if the first n paths are all taken, the used list has at least n entries: the search ends within the list's length |
| GltfExport.FreeAppendix | src/core/io/exporter/gltf.cpp:103-107 | the returned appendix names a path not in the used list, every smaller appendix names a used path, and it is at most the list's length |
| GltfExport.ToLower | src/core/io/exporter/gltf.cpp:981 | lower-casing keeps the length |
| GltfExport.FilenameToMimeType | src/core/io/exporter/gltf.cpp:978-987 | a MIME type is returned exactly for the extensions .png, .jpg, .bmp and .gif in any case, "" otherwise |
| GltfExport.MimeTypeIgnoresCase | src/core/io/exporter/gltf.cpp:978-987 | the MIME type of an extension equals that of its lower-cased form; ".PNG" is image/png |
| GltfExport.TopologyToMode | src/core/io/exporter/gltf.cpp:1024-1036 | a glTF primitive mode in {0,1,3,4,5,6}, and -1 exactly for UNKNOWN |
| GltfExport.WrapToGltf | src/core/io/exporter/gltf.cpp:989-997 | a glTF wrap code, REPEAT (10497) exactly for REPEAT and for the unsupported border mode |
| GltfExport.FilterToGltf | src/core/io/exporter/gltf.cpp:998-1011 | without mipmaps NEAREST or LINEAR (9728/9729); with mipmaps one of the four mipmap filters 9984-9987 |
| GltfExport.BlendModeName | src/core/io/exporter/gltf.cpp:1012-1021 | one of the glTF alpha modes OPAQUE, MASK, BLEND |
| GltfExport.InterpolationName | src/core/io/exporter/gltf.cpp:1038-1049 | the interpolation name is empty exactly for NONE |
| GltfExport.ExportNamesDistinct | src/core/io/exporter/gltf.cpp:1012-1036 | distinct topologies, blend modes and interpolations are exported under distinct codes and names |
| GltfExport.FormatToGltfImage | src/core/io/exporter/gltf.cpp:943-977 | bits and component count are set exactly for the 8- and 16-bit formats: bits = 8 x bytes per channel, components = channel count |
| GltfExport.Exporter.constructor | src/core/io/exporter/gltf.cpp:864-868 | a buffer of calcBufferSize bytes with the pointer at 0 and no views, accessors or images |
| GltfExport.Exporter.GetAccessor | src/core/io/exporter/gltf.cpp:376-394 | appends a view at the old pointer of the given length and an accessor on it, returns its index, advances the pointer by the rounded length and keeps the buffer invariant |
| GltfExport.Exporter.SaveIndices | src/core/io/exporter/gltf.cpp:395-422 | one accessor of index-count elements, component type UNSIGNED_BYTE, UNSIGNED_SHORT or UNSIGNED_INT by the index width; the pointer advances by the rounded index bytes |
| GltfExport.Exporter.SaveAttribute | src/core/io/exporter/gltf.cpp:423-505 | the pointer advances by the rounded attribute size if the mesh has the attribute, not at all otherwise |
| GltfExport.Exporter.SaveVertexAttributes | src/core/io/exporter/gltf.cpp:528-546 | the six attributes advance the pointer by exactly the attribute bytes calcBufferSize counted |
| GltfExport.Exporter.SaveCustomData | src/core/io/exporter/gltf.cpp:547-550 | the custom data entries advance the pointer by exactly the custom bytes calcBufferSize counted |
| GltfExport.Exporter.ExportMesh | src/core/io/exporter/gltf.cpp:520-555 | one mesh advances the pointer by exactly the size calcBufferSize set aside for it |
| GltfExport.Exporter.ExportMeshes | src/core/io/exporter/gltf.cpp:901-911 | exporting all meshes ends with the pointer exactly at the buffer size: the assertion at line 911 holds and no write passes the end |
| GltfExport.Exporter.ExportImage | src/core/io/exporter/gltf.cpp:92-124 | the first unused path of stem.ext, stem_1.ext, ... is recorded as used, and an image with that name and the extension's MIME type is appended at the returned index |
| GltfImport.ModeToTopology | src/core/io/importer/gltf.cpp:1092-1103 | a known topology exactly for the glTF modes 0, 1, 3, 4, 5, 6; UNKNOWN for every other mode |
| GltfImport.TopologyRoundTrip | src/core/io/importer/gltf.cpp:1092-1103 | every topology survives export and import, UNKNOWN included; every mode the importer knows is exported back unchanged |
| GltfImport.MimeTypeToExtension | src/core/io/importer/gltf.cpp:1021-1028 | a non-empty extension exactly for image/png, image/jpeg, image/bmp and image/gif |
| GltfImport.MimeTypeRoundTrip | src/core/io/importer/gltf.cpp:1021-1028 | an extension with a MIME type comes back lower-cased; a known MIME type survives the way back through the exporter |
| GltfImport.ImageToTextureFormat | src/core/io/importer/gltf.cpp:1030-1036 | a known format exactly for 8 or 16 bits with 3 or 4 components, and then a linear format with those bits and components |
| GltfImport.FormatRoundTrip | src/core/io/importer/gltf.cpp:1030-1036 | an exported format comes back as its linear variant exactly when it has 3 or 4 channels of 8 or 16 bits; every other format comes back UNKNOWN |
| GltfImport.WrapFromGltf | src/core/io/importer/gltf.cpp:1038-1046 | never the border mode; REPEAT for every code other than the clamp and mirror codes |
| GltfImport.WrapRoundTrip | src/core/io/importer/gltf.cpp:1038-1046 | every wrap mode survives export and import except CLAMP_TO_BORDER, which becomes REPEAT |
| GltfImport.FilterFromGltf | src/core/io/importer/gltf.cpp:1047-1060 | NEAREST exactly for the codes 9728, 9984 and 9986 |
| GltfImport.MipmapFilterFromGltf | src/core/io/importer/gltf.cpp:1062-1075 | NEAREST exactly for the codes 9728, 9729, 9984 and 9985 |
| GltfImport.HasMipmaps | src/core/io/importer/gltf.cpp:1076-1089 | mipmaps exactly for the codes 9984 to 9987 |
| GltfImport.FilterRoundTrip | src/core/io/importer/gltf.cpp:1047-1089 | with mipmaps, the filter, the mipmap filter and the mipmap flag survive export and import; without mipmaps the filter survives and no mipmaps are reported |
| GltfImport.ComponentWidth | src/core/io/importer/gltf.cpp:259-260 | a positive width exactly for the three unsigned index component types |
| GltfImport.IndexAt | src/core/io/importer/gltf.cpp:266-277 | the index read at a byte position fits its component type |
| GltfImport.LoadIndices | src/core/io/importer/gltf.cpp:252-281 | accessor -1 leaves the mesh alone; otherwise the mesh gets exactly count indices, index i read at byte i x stride, and is marked as indexed |
| GltfImport.IndicesRoundTrip | src/core/io/importer/gltf.cpp:252-281 | indices the exporter saved at its index width for a vertex count are read back unchanged |
| PbrtTokenizer.FirstNotIn | src/core/io/importer/pbrt.cpp:23 | find_first_not_of: every character from the start position up to the result is a separator, and the character at the result is not; the length of the line when there is none |
| PbrtTokenizer.FirstIn | src/core/io/importer/pbrt.cpp:25-30 | find_first_of: no character from the start position up to the result is in the set, and the character at the result is; the length of the line when there is none |
| PbrtTokenizer.FindFirstNotOf | src/core/io/importer/pbrt.cpp:23 | the scanning loop finds the position FirstNotIn describes |
| PbrtTokenizer.FindFirstOf | src/core/io/importer/pbrt.cpp:30 | the scanning loop finds the position FirstIn describes |
| PbrtTokenizer.GetNextWord | src/core/io/importer/pbrt.cpp:17-39 | the word and the rest of the line are those of the specification NextWord: leading separators skipped, cut at the next terminator, the line continued after it |
| PbrtTokenizer.NextWordEmpty | src/core/io/importer/pbrt.cpp:23-29 | the word is empty exactly when the line holds only separators, and then the line is left as it was |
| PbrtTokenizer.NextWordToken | src/core/io/importer/pbrt.cpp:23-38 | a non-empty word is the part of the line after the separators up to a terminator; it holds no space unless it follows the line's first quote; the rest is a strictly shorter suffix of the line |
| PbrtTokenizer.Words | src/core/io/importer/pbrt.cpp:17-39 | repeated calls end: the words of a line up to the first empty one, none of them empty |
| PbrtTokenizer.QuotedWordKeepsSpace | src/core/io/importer/pbrt.cpp:25-28 | a word right after the first double quote runs to the closing quote, its space included; the next word ends at a space |
| PlyImport.FanTriangles | src/core/io/importer/ply.cpp:20-24 | the first n fan triangles of a face take 3n indices |
| PlyImport.FaceTriangles | src/core/io/importer/ply.cpp:15 | a face of k indices gives k - 2 triangles, 3(k - 2) indices |
| PlyImport.Fan | src/core/io/importer/ply.cpp:19-25 | the faces of a buffer give 3(ipf - 2) indices per face |
| PlyImport.FanTriangleAt | src/core/io/importer/ply.cpp:21-23 | triangle i of a face is its first index followed by indices i + 1 and i + 2 |
| PlyImport.AsIndices | src/core/io/importer/ply.cpp:21-23 | every buffer entry is pushed as its uint32_t conversion |
| PlyImport.FanTrianglesFromFace | src/core/io/importer/ply.cpp:20-24 | no index is invented: every index of a face's fan is one of the face's own indices |
| PlyImport.FanFromInput | src/core/io/importer/ply.cpp:12-26 | every index setIndices appends is one of the buffer's indices |
| PlyImport.SetIndices | src/core/io/importer/ply.cpp:12-26 | the mesh's index list becomes its old contents followed by the fan triangles of every face, in buffer order |
| PlyImport.PushFace | src/core/io/importer/ply.cpp:20-24 | the inner loop appends exactly the fan triangles of the face at the offset |
| PlyImport.FanStep | src/core/io/importer/ply.cpp:19 | the next face is the next ipf entries of the buffer, and its triangles extend the fan |
| PlyImport.QuadFan | src/core/io/importer/ply.cpp:15-24 | a quad (f0, f1, f2, f3) becomes the triangles (f0, f1, f2) and (f0, f2, f3) |
| BspImport.Add | src/core/io/importer/bsp.cpp:190-198 | the sum of two vertices has a zero colour; the four attributes are added component-wise |
| BspImport.Mul | src/core/io/importer/bsp.cpp:200-208 | the scaled vertex has a zero colour; the four attributes are scaled |
| BspImport.Bezier | src/core/io/importer/bsp.cpp:246-248 | the quadratic Bezier combination of three vertices has a zero colour |
| BspImport.BezierEnds | src/core/io/importer/bsp.cpp:246-248 | the curve starts at its first control vertex (a = 0) and ends at its last (a = 1) in every attribute |
| BspImport.BezierAttributes | src/core/io/importer/bsp.cpp:190-208 | the curve depends only on the control vertices' attributes, not on their colours |
| BspImport.PatchCorners | src/core/io/importer/bsp.cpp:239-269 | the patch's four corners are its four corner control vertices |
| BspImport.FirstRowOfPatch | src/core/io/importer/bsp.cpp:244-249 | the first vertex loop, a curve through v11, v21, v31, computes the patch row at parameter 0 |
| BspImport.RowOf | src/core/io/importer/bsp.cpp:262-268 | a row of n grid entries has n entries |
| BspImport.GridOf | src/core/io/importer/bsp.cpp:244-269 | a grid of the given rows of L + 1 entries has rows x (L + 1) entries |
| BspImport.GridAt | src/core/io/importer/bsp.cpp:244-271 | vertex j of grid row i is the patch at (i / L, j / L) |
| BspImport.GridOfAt | src/core/io/importer/bsp.cpp:244-271 | entry i(L + 1) + j of the flattened grid is entry (i, j) |
| BspImport.RowOfAt | src/core/io/importer/bsp.cpp:262-268 | entry j of a row is the row's value at j |
| BspImport.QuadRow | src/core/io/importer/bsp.cpp:276-285 | a row of n grid cells gives 6n indices |
| BspImport.Triangles | src/core/io/importer/bsp.cpp:273-286 | L rows of L cells give 6 L^2 indices |
| BspImport.QuadInGrid | src/core/io/importer/bsp.cpp:278-284 | every index of a cell's two triangles lies in [offset, offset + (L + 1)^2) |
| BspImport.QuadRowInGrid | src/core/io/importer/bsp.cpp:276-285 | every index of a cell row lies in the patch's vertex range |
| BspImport.TrianglesInGrid | src/core/io/importer/bsp.cpp:273-286 | every index tesselate emits names one of the vertices it appended |
| BspImport.PatchVertices | src/core/io/importer/bsp.cpp:244-269 | the two vertex loops compute the (L + 1) x (L + 1) patch grid, row by row |
| BspImport.FirstGridRow | src/core/io/importer/bsp.cpp:244-249 | the first vertex loop computes grid row 0 |
| BspImport.GridRow | src/core/io/importer/bsp.cpp:253-268 | one pass of the second vertex loop computes grid row i |
| BspImport.BspMesh.constructor | src/core/io/importer/bsp.cpp:574 | an empty mesh |
| BspImport.BspMesh.Tesselate | src/core/io/importer/bsp.cpp:239-287 | the vertex list gains the patch grid and the index list gains its 6 L^2 triangle indices, numbered from the old vertex count |
| BspImport.BspMesh.AddPatchIndices | src/core/io/importer/bsp.cpp:273-286 | the index loops append the triangles of all L x L cells, cell row by cell row |
| BspImport.BspMesh.AddCellRow | src/core/io/importer/bsp.cpp:276-285 | the inner index loop appends the two triangles of each cell of one row |
| BspImport.BspMesh.AddMeshFace | src/core/io/importer/bsp.cpp:562-566 | the index list gains the face's mesh vertices triple by triple with the second and third swapped |
| BspImport.SwapWinding | src/core/io/importer/bsp.cpp:562-566 | swapping the winding keeps the length |
| BspImport.SwapWindingAppend | src/core/io/importer/bsp.cpp:562-566 | swapping the winding of two runs of triangles is swapping each |
| BspImport.SwapWindingStep | src/core/io/importer/bsp.cpp:562-566 | one loop step appends (a, c, b) for the triple (a, b, c) |
| BspImport.SwapWindingInvolution | src/core/io/importer/bsp.cpp:562-566 | swapping the winding twice restores the triangles |
| BspImport.SwapWindingPermutes | src/core/io/importer/bsp.cpp:562-566 | no index is gained or lost: the result is a permutation of the face's indices |
| BspImport.PixelOfPrefix | src/core/io/importer/bsp.cpp:181-184 | a pixel written earlier is not changed by later pixels |
| BspImport.LoadLightMap | src/core/io/importer/bsp.cpp:174-188 | a fresh 128 x 128 RGBA map where every pixel holds the three file bytes of that pixel and an alpha of 255 |
| DevicePhysical.Score | src/rvk/src/parts/device_physical.cpp:77-83 | the uint8_t score stays below 256: one point per capability and per supported surface, wrapping at 256 |
| DevicePhysical.BestIsUnique | src/rvk/src/parts/device_physical.cpp:91-104 | the family to pick (compatible, lowest score, earliest among equals) is unique |
| DevicePhysical.BestExists | src/rvk/src/parts/device_physical.cpp:67-107 | whenever some family is compatible, a family to pick exists |
| DevicePhysical.FirstWithScore | src/rvk/src/parts/device_physical.cpp:94-103 | the earliest compatible family with a given score, at or before a family that has it |
| DevicePhysical.FirstSuitableSpec | src/rvk/src/parts/device_physical.cpp:145-163 | -1 exactly when no memory type is allowed by the type bits and has the requested properties; otherwise the first such type |
| DevicePhysical.PhysicalDevice.constructor | src/rvk/include/rvk/parts/device_physical.hpp:79-114 | the device holds the queried extensions, queue families and memory types |
| DevicePhysical.PhysicalDevice.IsExtensionAvailable | src/rvk/src/parts/device_physical.cpp:16-22 | true exactly when some reported extension has the name |
| DevicePhysical.PhysicalDevice.AreExtensionsAvailable | src/rvk/src/parts/device_physical.cpp:24-40 | true exactly when every requested extension is reported |
| DevicePhysical.PhysicalDevice.CheckQueueFamily | src/rvk/src/parts/device_physical.cpp:47-65 | true exactly when the family presents to every surface and has every requested capability |
| DevicePhysical.PhysicalDevice.SurveyFamily | src/rvk/src/parts/device_physical.cpp:77-88 | reports a missing surface entry exactly when there is one; otherwise the family's score and whether it is compatible |
| DevicePhysical.PhysicalDevice.GetQueueFamilyIndex | src/rvk/src/parts/device_physical.cpp:67-107 | -1 exactly when a family lacks a surface entry or none is compatible; otherwise the compatible family of lowest score, the earliest among equals |
| DevicePhysical.PhysicalDevice.FindMemoryTypeIndex | src/rvk/src/parts/device_physical.cpp:145-163 | the loop returns the first suitable memory type, -1 if none |
| DevicePhysical.PhysicalDevice.CreateLogicalDevice | src/rvk/src/parts/device_physical.cpp:218-229 | the device is created exactly when every request names an existing family and asks for no more queues than it offers |
| SceneRefs.Find | src/core/scene/render_scene.cpp:233-234 | std::find: -1 exactly when the element is absent; otherwise a position holding it with no earlier occurrence |
| SceneRefs.EraseFirstSpec | src/core/scene/render_scene.cpp:236 | erasing from a list without duplicates removes exactly the element (one entry fewer if present, the list unchanged if not) and keeps the list free of duplicates |
| SceneRefs.ModelAsset.constructor | src/core/scene/render_scene.cpp:214 | a model with the given meshes, each with its material handle |
| SceneRefs.LightAsset.constructor | src/core/scene/render_scene.cpp:182 | a light that is or is not an IES light |
| SceneRefs.RefModel.constructor | src/core/scene/render_scene.cpp:209-211 | a reference to the model with the given index |
| SceneRefs.RefLight.constructor | src/core/scene/render_scene.cpp:167-169 | a reference to the light with the given index |
| SceneRefs.ModelUsesZero | src/core/scene/render_scene.cpp:242-244 | the use count is zero exactly when no remaining reference instances the model |
| SceneRefs.LightUsesZero | src/core/scene/render_scene.cpp:269-271 | the use count is zero exactly when no remaining reference instances the light |
| SceneRefs.WithMaterials | src/core/scene/render_scene.cpp:194-197 | adding materials never shortens the list |
| SceneRefs.WithMaterialsSpec | src/core/scene/render_scene.cpp:194-197 | after adding materials the list has no duplicates, keeps its old contents in front, and holds exactly the old and the added handles |
| SceneRefs.MeshMaterials | src/core/scene/render_scene.cpp:214-215 | the material handles of the meshes, in mesh order |
| SceneRefs.ReindexModels | src/core/scene/render_scene.cpp:238 | every remaining model reference's index becomes its position |
| SceneRefs.ReindexLights | src/core/scene/render_scene.cpp:265 | every remaining light reference's index becomes its position |
| SceneRefs.CountModelUses | src/core/scene/render_scene.cpp:241-243 | the counting loop returns the number of references that instance the model |
| SceneRefs.CountLightUses | src/core/scene/render_scene.cpp:268-270 | the counting loop returns the number of references that instance the light |
| SceneRefs.RenderScene.constructor | src/core/scene/render_scene.cpp:20 | an empty scene with no selection and no pending update requests |
| SceneRefs.RenderScene.AddMaterial | src/core/scene/render_scene.cpp:194-197 | the handle is appended unless the list holds it already; afterwards the list holds it |
| SceneRefs.RenderScene.AddModelRef | src/core/scene/render_scene.cpp:199-229 | the model and a fresh reference indexed after the existing ones are appended, the reference is selected and recorded as new, each mesh's material is added without duplicates, and materials, geometry and instances are requested; lights are untouched |
| SceneRefs.RenderScene.AddLightRef | src/core/scene/render_scene.cpp:157-192 | the light and a fresh reference indexed after the existing ones are appended, selected and recorded as new; lights are requested, and images and textures too for an IES light; models untouched |
| SceneRefs.RenderScene.RemoveModel | src/core/scene/render_scene.cpp:231-256 | a reference not in the scene changes nothing; otherwise it is erased and recorded, the rest are renumbered 0..n-1, the model is erased and recorded only when no reference uses it any more, and instances, geometry and (for a light-emitting mesh) lights are requested |
| SceneRefs.RenderScene.EraseModelRef | src/core/scene/render_scene.cpp:236-238 | the reference is erased and recorded as removed, and the remaining references are renumbered by position |
| SceneRefs.RenderScene.ReleaseModel | src/core/scene/render_scene.cpp:241-250 | the model is erased and recorded as removed exactly when no remaining reference uses it and it is in the list |
| SceneRefs.RenderScene.MarkModelRemoved | src/core/scene/render_scene.cpp:252-254 | instances and geometry are requested; lights are requested iff they already were or some mesh of the model emits light |
| SceneRefs.RenderScene.RemoveLight | src/core/scene/render_scene.cpp:258-281 | a reference not in the scene changes nothing; otherwise it is erased and recorded, the rest are renumbered 0..n-1, the light is erased and recorded only when no reference uses it any more, and lights are requested |
| SceneRefs.RenderScene.EraseLightRef | src/core/scene/render_scene.cpp:263-265 | the reference is erased and recorded as removed, and the remaining references are renumbered by position |
| SceneRefs.RenderScene.ReleaseLight | src/core/scene/render_scene.cpp:268-277 | the light is erased and recorded as removed exactly when no remaining reference uses it and it is in the list |
| SceneRefs.RenderScene.RequestImageUpdate | src/core/scene/render_scene.cpp:283-284 | only the image request is set |
| SceneRefs.RenderScene.RequestTextureUpdate | src/core/scene/render_scene.cpp:286-287 | only the texture request is set |
| SceneRefs.RenderScene.RequestMaterialUpdate | src/core/scene/render_scene.cpp:289-290 | only the material request is set |
| SceneRefs.RenderScene.RequestModelInstanceUpdate | src/core/scene/render_scene.cpp:292-293 | only the model instance request is set |
| SceneRefs.RenderScene.RequestModelGeometryUpdate | src/core/scene/render_scene.cpp:295-296 | only the model geometry request is set |
| SceneRefs.RenderScene.RequestLightUpdate | src/core/scene/render_scene.cpp:298-299 | only the light request is set |
| AssetModel.EmptyData | src/core/scene/asset.cpp:5 | Value{} is EMPTY with every payload zero or empty |
| AssetModel.Value.constructor | src/core/scene/asset.cpp:5 | a new value is EMPTY with every payload zero or empty |
| AssetModel.Value.OfInt | src/core/scene/asset.cpp:6 | an INT value holding the integer, every other payload zero |
| AssetModel.Value.OfBool | src/core/scene/asset.cpp:7 | a BOOL value holding the flag, every other payload zero |
| AssetModel.Value.OfFloat | src/core/scene/asset.cpp:8 | a FLOAT value holding the number, every other payload zero |
| AssetModel.Value.OfString | src/core/scene/asset.cpp:9 | a STRING value holding the string, every other payload zero |
| AssetModel.Value.OfBinary | src/core/scene/asset.cpp:10 | a BINARY value holding the bytes, every other payload zero |
| AssetModel.Value.OfArray | src/core/scene/asset.cpp:11 | an ARRAY value holding the elements, every other payload zero |
| AssetModel.Value.OfMap | src/core/scene/asset.cpp:12 | a MAP value holding the map, every other payload zero |
| AssetModel.Value.SetInt | src/core/scene/asset.cpp:62-63 | the value becomes INT with the new integer; every other payload keeps its old contents |
| AssetModel.Value.SetBool | src/core/scene/asset.cpp:65-66 | the value becomes BOOL with the new flag; every other payload keeps its old contents |
| AssetModel.Value.SetFloat | src/core/scene/asset.cpp:68-69 | the value becomes FLOAT with the new number; every other payload keeps its old contents |
| AssetModel.Value.SetString | src/core/scene/asset.cpp:71-72 | the value becomes STRING with the new string; every other payload keeps its old contents |
| AssetModel.Value.SetBinary | src/core/scene/asset.cpp:74-75 | the value becomes BINARY with the new bytes; every other payload keeps its old contents |
| AssetModel.Value.SetArray | src/core/scene/asset.cpp:77-78 | the value becomes ARRAY with the new elements; every other payload keeps its old contents |
| AssetModel.Value.SetMap | src/core/scene/asset.cpp:80-81 | the value becomes MAP with the new map; every other payload keeps its old contents |
| AssetModel.Lookup | src/core/scene/asset.cpp:100-104 | the stored value for a present key, Value{} (EMPTY) for a missing one |
| AssetModel.Asset.constructor | src/core/scene/asset.cpp:83-84 | an asset of the given type, name and identifier, with no file path and no custom properties |
| AssetModel.Asset.GetCustomProperty | src/core/scene/asset.cpp:100-104 | a copy of the stored value for a present key, Value{} for a missing one |
| AssetModel.Asset.SetName | src/core/scene/asset.cpp:109-110 | the name is replaced |
| AssetModel.Asset.SetFilepath | src/core/scene/asset.cpp:112-113 | the file path is replaced |
| AssetModel.Asset.AddCustomProperty | src/core/scene/asset.cpp:115-118 | the value is stored under the key, replacing any earlier one; every other key keeps its value |
| SceneLight.ShapeDimensions | src/core/scene/light.cpp:193-210 | setShape's dimensions: unit width and height, depth 1 exactly for a 3D shape and 0 otherwise |
| SceneLight.Flattened | src/core/scene/light.cpp:217-221 | setDimensions keeps width and height; the depth is kept for a 3D shape and cleared for a flat one |
| SceneLight.FlattenedIdempotent | src/core/scene/light.cpp:193-221 | clearing the depth twice is clearing it once, and the dimensions setShape assigns are already in the form setDimensions keeps |
| SceneLight.ShapeTypeFaithful | src/core/scene/light.cpp:163-175 | every shape is written as a surface type and never as point, spot, directional or IES; different shapes get different types; the types with volume are exactly the 3D shapes; the hyperrectangular types are exactly square, rectangle, cube and cuboid |
| SceneLight.SurfaceLight.constructor | include/tamashii/core/scene/light.hpp:167 | the default surface light is a one-sided square of dimensions (1, 1, 1) |
| SceneLight.SurfaceLight.SetShape | src/core/scene/light.cpp:193-210 | the new shape with setShape's dimensions; afterwards a flat light has no depth |
| SceneLight.SurfaceLight.SetDimensions | src/core/scene/light.cpp:217-221 | the given dimensions with the depth cleared for a flat shape; afterwards a flat light has no depth |
| SceneLight.SurfaceLight.SetDoubleSided | src/core/scene/light.cpp:235-238 | the double-sided flag is replaced |
| SceneLight.SpotLight.constructor | src/core/scene/light.cpp:86-88 | the cone angles as given, with no range and no radius |
| SceneLight.SpotLight.SetCone | src/core/scene/light.cpp:135-139 | both cone angles are stored as given, unchecked |
| SceneLight.FirstOr0 | src/core/scene/light.cpp:267-270 | the first angle of the list, 0 for an empty list |
| SceneLight.LastOr0 | src/core/scene/light.cpp:272-275 | the last angle of the list, 0 for an empty list |
| SceneLight.AngleRangeCovers | src/core/scene/light.cpp:267-285 | for an ascending angle list the range read from its ends holds every angle of the list, and its minimum is at most its maximum |
| SceneLight.IESLight.constructor | src/core/scene/light.cpp:240 | no radius and no angles |
| SceneLight.IESLight.SetVerticalAngles | src/core/scene/light.cpp:287-290 | the vertical angle list is replaced, and the vertical range is read from its ends |
| SceneLight.IESLight.SetHorizontalAngles | src/core/scene/light.cpp:292-295 | the horizontal angle list is replaced, and the horizontal range is read from its ends |
| RenderStateStack.Step | src/rvk/src/parts/pipeline_rasterize.cpp:132-143 | a push copies the global state onto the stack; a pop on an empty stack changes nothing, otherwise restores the top entry and removes it; a set changes only the global state |
| RenderStateStack.RunKeepsStack | src/rvk/src/parts/pipeline_rasterize.cpp:132-143 | without an unmatched pop the old stack stays at the bottom, and the stack grows by the pushes minus the pops |
| RenderStateStack.PushBalancedPopRestores | src/rvk/src/parts/pipeline_rasterize.cpp:132-143 | a push, any balanced sequence of operations and a pop restore both the global state and the stack exactly |
| RenderStateStack.RunAfter | src/rvk/src/parts/pipeline_rasterize.cpp:132-143 | running two sequences one after the other is running their concatenation |
| RenderStateStack.RenderStates.constructor | src/rvk/src/parts/pipeline_rasterize.cpp:5-6 | the initial global state and an empty stack |
| RenderStateStack.RenderStates.PushRenderState | src/rvk/src/parts/pipeline_rasterize.cpp:132-135 | the global state is appended to the stack, which grows by one; nothing else changes |
| RenderStateStack.RenderStates.PopRenderState | src/rvk/src/parts/pipeline_rasterize.cpp:137-143 | on an empty stack nothing changes; otherwise the top entry becomes the global state and is removed |
| CameraControl.ClampPitch | src/core/scene/ref_entities.cpp:114-115 | the pitch ends within [-90, 90] and a pitch already there is kept |
| CameraControl.LimitStepBounds | src/core/scene/ref_entities.cpp:117-118 | the step limit moves the pitch by at most 90 degrees, towards the requested value and never past it, and leaves a smaller step alone |
| CameraControl.UpdatedPitchRange | src/core/scene/ref_entities.cpp:110-118 | updateAngles never moves the pitch by more than 90 degrees, and keeps it within [-90, 90] whenever it starts within [-180, 180] |
| CameraControl.UpdatedPitchAfterLongDrag | src/core/scene/ref_entities.cpp:114-118 | the limit is applied after the clamp, so a pitch of 300 left by a drag comes back only to 210 |
| CameraControl.SmoothOne | src/core/scene/ref_entities.cpp:95-107 | with one entry of smoothing the smoothed delta is the newest entry of the ring buffer |
| CameraControl.ZoomDirection | src/core/scene/ref_entities.cpp:214-221 | the zoom stays at least 0.1; a positive wheel step never zooms out and a negative one never zooms in |
| CameraControl.CameraController.constructor | src/core/scene/ref_entities.cpp:81-84 | angles zero, the camera at (0, 0, 40) orbiting the origin at zoom 40, speed 100, an empty smoothing history of 16 entries |
| CameraControl.CameraController.UpdateAngles | src/core/scene/ref_entities.cpp:87-131 | a zero delta changes nothing; otherwise the delta is recorded, the yaw turns by the scaled smoothed delta, the pitch is clamped and step-limited, the frame follows the angles, the position stays and the pivot follows the frame |
| CameraControl.CameraController.LimitPitch | src/core/scene/ref_entities.cpp:114-118 | the pitch becomes the clamped and step-limited value |
| CameraControl.CameraController.RecordDelta | src/core/scene/ref_entities.cpp:91-93 | the delta is written at the write counter modulo 16; every other entry stays |
| CameraControl.CameraController.SmoothedDelta | src/core/scene/ref_entities.cpp:95-107 | with the smoothing usage of 1, the smoothed delta is the entry just written |
| CameraControl.CameraController.UpdateSpeed | src/core/scene/ref_entities.cpp:175-182 | a zero step changes nothing; otherwise the speed grows by the step times 10 and is held at 20 or more |
| CameraControl.CameraController.Drag | src/core/scene/ref_entities.cpp:185-203 | a zero delta changes nothing; otherwise pitch and yaw follow the delta, the pitch step is limited to 90 without a clamp, and the camera is placed on the orbit around the unchanged pivot |
| CameraControl.CameraController.UpdateCenter | src/core/scene/ref_entities.cpp:205-212 | a zero delta changes nothing; otherwise the pivot pans along the right and up axes by zoom/1000 per unit and the camera moves with it, keeping its offset |
| CameraControl.CameraController.UpdateZoom | src/core/scene/ref_entities.cpp:214-221 | a zero step changes nothing; otherwise the zoom shrinks by a fifth per unit step, never below 0.1, and the camera moves along its backward axis to the new distance from the pivot |

## Left out

- Floating point: `float` and `double` are modelled as exact reals, so rounding, overflow to infinity and NaN are not modelled. Where the source tests for non-finite values (gradient sanitising, the objective check), a datatype marks them explicitly.
- GPU and driver work is outside the model. This covers the forward and backward light-tracing passes (a function parameter here), Vulkan buffers, descriptors, pipelines and the logical device creation. The square root used by Adam is a parameter with its defining property.
- File and stream I/O is outside the model. The readers and writers (tinygltf, tinyply, the `std::ifstream` of the BSP importer) are replaced by byte sequences or parameters. Threads, the input mutex, the `mReady` atomic and the optimiser thread are also left out.
- L-BFGS, CMA-ES and the finite-difference check that runs Adam are library wrappers or stochastic. `LightTraceOpti.LightTraceOptimizer.Optimize` returns None for them.
- `LightTraceOpti.LightTraceOptimizer.Optimize` does not model these parts of `optimize`: resizing the radiance and gradient buffers, reading the parameters back from the lights (`lightsToParameterVector`), the final forward pass, timing and logging. The parameter vector is a field the method starts from.
- `LightParams.ParameterIndex`: the index is an unbounded natural. The source computes `light * MAX_PARAMS + param` in `uint32_t`, which wraps once the light index passes (2^32 - 1 - param) / 12; the model does not capture that wrap.
- `LightTraceOpti.LightTraceOptimizer.Optimize`: `maxIters` is a `nat`. The source passes an `int` that becomes unsigned, so a negative count would wrap to a huge one.
- `LightTraceOpti.LightTraceOptimizer.Optimize`: the finite-difference runs require a nonzero step. With a zero step the source divides by zero and produces infinities.
- The loop bound `mIters <= mMaxIters` could never fail for `mMaxIters == UINT_MAX`. The model has unbounded integers and does not model that case.
- `Objective.Evaluate`: the base objective's derivative is zero with the size of x. The source zeroes `aDx` at whatever size the caller gave it.
- `Objective.ChannelResidualMoved`: the multichannel chain rule is proved in pieces (`ChannelEntryMoved`, `ChannelEntryUnmoved`, `ChannelResidualMoved`, with `MultiPhi` the channel-weighted sum). The single statement that the value moves by h times the aDx entry plus the quadratic term is not stated as one lemma, because its proof exceeds the verifier's resource limit.
- `ConsistentMassMultiChannelObjectiveFunction` and `buildConsistentMassMatrix` are not modelled. They are sparse-matrix numerics over the mesh (objectivefunction.cpp:40-80).
- `Objective.Evaluate`: the sizes of the weights, areas, targets and x must agree (`Fits`). The source relies on Eigen's size assertions for this.
- `Constraint.LightConstraint`: the lights of a constraint are values with an identity, and their order is insertion order. The source keeps a `std::set` of pointers ordered by address; the penalty is a sum, so the order does not change it.
- The `IALT_USE_QUADRATIC_INTENSITY_OPT` branch of the intensity penalty is a compile-time alternative and is not modelled.
- The ACTION events of `processEvent` only call into the engine, and are not modelled beyond being passed on.
- `Input.EventSystem.ProcessEvent`: a key event must name an existing key (`WellFormed`), and so must every event `QueueEvent` accepts. The source indexes `mKeys` with it unchecked.
- The signed overflow of the ring buffer's head and tail counters is not modelled.
- `PlyImport.SetIndices` requires at least three indices per face and a buffer of whole faces. The source checks neither: fewer than three wraps the triangle count, and a partial face reads past the buffer. tinyply's buffer typing (the index type) is not modelled.
- `BspImport.BspMesh.Tesselate` requires a level above zero. At level 0 the source divides 0 by 0 in float.
- `BspImport.BspMesh.AddMeshFace` requires a count that is a multiple of three and lies within the mesh vertices, as the file format promises. The source does not check this.
- `BspImport.LoadLightMap` loads one light map from a byte sequence. The count `size / (128*128*3)` and the seek to the lump offset are not modelled.
- `DevicePhysical.TypeBit`: `1 << i` is written as repeated doubling, and a device is assumed to report at most 32 memory types, the Vulkan limit.
- `getQueueFamilyIndex` returns -1 as soon as a family has no entry for a requested surface, as the source does. Creating the logical device beyond these checks is not modelled.
- The scene graph's matrices, the cubic-spline and linear interpolation arithmetic, and IES interpolation are floating-point geometry and are not modelled. Only the keyframe search is.
- Nodes are not owned through `std::unique_ptr`; a node's children are references in a sequence.
- `SceneRefs.RenderScene`: the scene graph node creation, model matrices, transforms and the `refMeshes` lists are not modelled. The IES candela texture and image that `addLightRef` pushes onto `mTextures` and `mImages` are left out too, and selection is modelled as an optional reference.
- A custom property's int payload is an unbounded integer and its float payload a real. An asset's UUID is a constructor parameter, not drawn from a generator.
- `ImageAsset.Image.Init` requires the byte size to stay below 2^31, because the source's `int` size field would go negative. It also requires the source buffer to hold that many bytes, because the source copies it unchecked.
- `SceneModel.Mesh.Clear` and `SceneModel.Transform` start from the intended empty box, not from the written default (see Findings).
- The camera's `updatePosition` (movement speed 650, acceleration 10, frame time, normalisation), `setModelMatrix` and `updateMatrix` are matrix and float geometry and are not modelled. The camera's axes come from an `Orientation` function parameter.
- The camera's `size_t` history counter is unbounded here, so its wrap after 2^64 frames is not modelled.
- `getRawData` of the point, spot, directional and IES lights, and the colour, intensity and direction setters, are not modelled. They copy fields, apart from the spot light's cosines of the cone angles. Only the surface light's shape type is.
- `MaterialAsset.Material.RawData`: of the factors `getRawData` copies into `Material_s`, only the alpha cut-off and the emission factor and strength are modelled. The copies of the base colour, metallic, roughness, occlusion strength, normal scale, specular colour and factor, index of refraction, transmission, attenuation and light factors, and the clearcoat and sheen factors it sets to zero, are not.
- `SceneLight.SpotLight.constructor` takes both angles explicitly; the source's defaults are 0 and pi/4.
- `RenderStateStack`: the contents of `render_state_s` are a type parameter, and `createPipeline`, which copies the global state into a pipeline, is not modelled.
- `GltfExport`: the bytes written for vertex attributes and custom data are not modelled, only the buffer pointer and the sizes. The animation, node, camera, light, material and texture export, and the animation bytes in `calcBufferSize`, are not modelled either.
- `GltfExport.CalcBufferSize` counts 4-byte indices for a mesh with more than 2^32 - 1 vertices. In that case the source's `calcBufferSize` adds nothing for the indices.
- The image name and file-path defaults and the filesystem path normalisation of `exportImage` are not modelled. The tinygltf write and the static index directories are not modelled either.
- `GltfImport`: everything outside the enum and MIME mappings and `loadIndices` is not modelled. The byte stride and offset of the index accessor are parameters.
- `GltfImport.LoadIndices` requires scalar unsigned indices that lie within the buffer. The source asserts the first and reads the buffer unchecked.
- The PBRT importer's scene parsing beyond `getNextWord` is not modelled.

## Findings

| source | as written | input that shows it | evidently intended | confidence | as-written member | corrected member |
|---|---|---|---|---|---|---|
| src/core/common/input.cpp:8-18 | `wasPressed`, `isDown` and `wasReleased` guard the key with `inBounds(NONE, LAST_KEY, input)`, which includes `LAST_KEY` | `input = LAST_KEY` passes the guard and indexes `mKeys[LAST_KEY]`, one past its end | admit only `0 <= input < LAST_KEY` | high; not executed | Input.KeyGuardAsWrittenAdmitsLastKey | Input.KeyGuardExact |
| include/tamashii/core/scene/model.hpp:25-26 | the default box has `max = FLT_MIN`, the smallest positive float, instead of the lowest float | growing the default box by the point (-1, -1, -1) gives max (FLT_MIN, FLT_MIN, FLT_MIN), not (-1, -1, -1) | an empty box with `max = -FLT_MAX`, so one point gives its own box | high; not executed | SceneModel.DefaultAsWrittenOvershoots | SceneModel.DefaultGrowsToPoint |
| src/core/io/exporter/gltf.cpp:493-505 | `saveUV1s` copies `texture_coordinates_0` into the TEXCOORD_1 data | a vertex with first set (0, 0) and second set (1, 1) is exported with TEXCOORD_1 = (0, 0) | copy `texture_coordinates_1` | high; not executed | GltfExport.SaveUV1sAsWritten | GltfExport.SaveUV1s |
