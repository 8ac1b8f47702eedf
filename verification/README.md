# Marching-cubes terrain chunk, modelled in Dafny

This project models the core of a Unity terrain chunk (`Chunk`) and its
density-field job (`PointJob`).

A chunk owns a cubic grid of edge `size` and three resources:
- a native points array of `size^3` samples;
- a GPU points buffer of the same count;
- a GPU append buffer of `5 * size^3` triangles.

A build proceeds in these steps:
1. The job evaluates the sealed density field. Each flat index is mapped to a local coordinate by `to3D`, and `GetNoise` forces `-1` where a coordinate is at most 1 or at least one below the extent. Elsewhere it returns the height bias plus the noise remapped to `[0, amplitude]`.
2. The field is uploaded and the triangle counter is reset.
3. The `MarchingCube` kernel is dispatched on `ceil(size / 8)` thread groups per axis.
4. The counter is read back, followed by that many triangles.
5. The triangles become an unindexed mesh: three fresh vertices per triangle, with the identity index list.

`Start` allocates everything and builds. `Update` moves the noise origin with W, A, S and D and rebuilds. The two setters change one parameter each and rebuild. `OnDestroy` releases the resources.

The modules follow the source:

| file | module | models |
|---|---|---|
| `vectors.dfy` | `Vectors` | `Vector3`/`float3` and `int3` |
| `numerics.dfy` | `Numerics` | C# float `%`, `Mathf.CeilToInt`, 32-bit `int` wrap-around |
| `point_job.dfy` | `PointJobs` | `PointJob.Execute`, `GetNoise`, `to3D`, the scheduled job |
| `mesh_assembly.dfy` | `MeshAssembly` | the vertex/index loop of `Build` |
| `append_buffer.dfy` | `AppendBuffers` | the append buffer protocol: `SetCounterValue`, appends, `GetBufferCount`, `GetData` |
| `chunk.dfy` | `Chunks` | `Start`, `Build`, `Update`, `SetFrequency`, `SetAmplitude`, `OnDestroy` |

Modelling conventions:
- **Floats.** `float` is an exact `real`.
- **Remainder.** C#'s float `%` is the remainder of the quotient truncated toward zero (`Numerics.Rem`). Its sign, its bound and the whole quotient it leaves determine it. For a non-negative dividend and a positive divisor it equals the floored remainder `a - m * floor(a / m)` (`Numerics.FMod`).
- **Integers.** C# `int` products are unbounded integers followed by an explicit 32-bit wrap (`Numerics.Wrap32`).
- **Exceptions.** An engine call that throws becomes `Threw(chunk, fault)`. The chunk keeps the state it had reached when the exception left the method.
- **Noise and kernel.** The noise function and the compute kernel are function-valued parameters.
- **Parallel loops.** The job and the `Parallel.For` loop are sequential loops. Lemmas show that their iterations commute.

Where the code departs from what it evidently intends, the model follows the code:
- **`to3D` uses float division** for `y` and `z` (`Assets/Scripts/Compute/PointJob.cs:51-52`), so they are not whole numbers in general. On a grid of edge 8, index 9 lands at `(1, 1.125, 0.140625)`. The integer row-major triple is the floor of each component (`LocalYFloorIsRowMajor`, `LocalZFloorIsRowMajor`). The map stays injective because `z` alone determines the index.
- **The seal is thin on the high side.** `GetNoise` seals `x <= 1` and `x >= size - 1`, so two whole layers at the low face but only one at the high face. Because `y` and `z` carry fractions, their low test seals the first layer and only the points of the second layer whose coordinate is exactly 1. On a grid of edge 8, indices 222, 243 and 203 are the row-major cells `(6, 3, 3)`, `(3, 6, 3)` and `(3, 1, 3)`. Each lies next to a face, yet none of them is sealed (`SealIsOneSided`).
- **No capacity check.** The code never checks the triangle count against the buffer. A count past the capacity surfaces as the exception of the `GetData` readback (`ReadbackOutOfRange`). Such a count comes from a kernel that appends more than five triangles per point.
- **A build is not atomic.** A build that throws leaves the new field and the new counter behind.
- **`OnDestroy` can leak the points buffer.** It releases the GPU buffers only under `isBufferInitialized`. That flag is set after both buffers exist, so an edge whose triangle capacity overflows leaves the points buffer live. Edge 755 is the smallest: its cube fits an `int`, but five times it does not.

## Model

| member | source | states |
|---|---|---|
| Numerics.Rem | Assets/Scripts/Compute/PointJob.cs:50-51 | the float remainder has the sign of the dividend, is smaller than the divisor in magnitude, and differs from the dividend by a whole multiple of the divisor; these three facts fix it for every sign of either operand. For a non-negative dividend and a positive divisor it is the floored remainder |
| Numerics.Wrap32 | Assets/Scripts/Chunk.cs:61 | an unchecked `int` result lies in the 32-bit range, differs from the exact value by a multiple of 2^32, and equals it when the exact value fits |
| Numerics.CeilToInt | Assets/Scripts/Chunk.cs:124 | `CeilToInt(x)` is the least integer not below `x` |
| PointJobs.LocalX | Assets/Scripts/Compute/PointJob.cs:50 | `x` is a whole number, in `[0, size.x)` for a non-negative index and a positive extent |
| PointJobs.IntegralRemainder | Assets/Scripts/Compute/PointJob.cs:50 | the float remainder of two whole numbers is a whole number, for every sign |
| PointJobs.LocalY | Assets/Scripts/Compute/PointJob.cs:51 | `y` lies in `[0, size.y)` for a non-negative index and positive extents |
| PointJobs.LocalZ | Assets/Scripts/Compute/PointJob.cs:52 | `z` times the layer size `size.x * size.y` is the index |
| PointJobs.To3DInGrid | Assets/Scripts/Compute/PointJob.cs:48-55 | every index below `size.x * size.y * size.z` maps inside the grid box on all three axes |
| PointJobs.LocalZStrictlyIncreasing | Assets/Scripts/Compute/PointJob.cs:52 | `z` grows strictly with the index |
| PointJobs.To3DInjective | Assets/Scripts/Compute/PointJob.cs:48-55 | two different indices never map to the same local position |
| PointJobs.LocalXIsRowMajor | Assets/Scripts/Compute/PointJob.cs:50 | `x` is `i mod size.x` |
| PointJobs.LocalYFloorIsRowMajor | Assets/Scripts/Compute/PointJob.cs:51 | the floor of `y` is `(i div size.x) mod size.y` |
| PointJobs.LocalZFloorIsRowMajor | Assets/Scripts/Compute/PointJob.cs:52 | the floor of `z` is `i div (size.x * size.y)` |
| PointJobs.To3DKeepsFractions | Assets/Scripts/Compute/PointJob.cs:51-52 | on a grid of edge 8, index 9 maps to `(1, 1.125, 0.140625)`, whose `y` is not a whole number |
| PointJobs.SealIsOneSided | Assets/Scripts/Compute/PointJob.cs:38-39 | on a grid of edge 8, indices 222, 243 and 203 map to `(6, 3.75, 3.46875)`, `(3, 6.375, 3.796875)` and `(3, 1.375, 3.171875)`, and none of them is on the border, although their row-major cells lie next to a face |
| PointJobs.GetNoise | Assets/Scripts/Compute/PointJob.cs:36-46 | the density is `-1` on the border; inside, with noise in `[-1, 1]` and a non-negative amplitude, it lies between `-worldPos.y` and `-worldPos.y + amplitude` |
| PointJobs.BorderIgnoresNoise | Assets/Scripts/Compute/PointJob.cs:38-39 | on the border the density is `-1` whatever the noise, frequency, amplitude and world position |
| PointJobs.InteriorDensity | Assets/Scripts/Compute/PointJob.cs:41-45 | inside, the density is `-worldPos.y + amplitude * (snoise(worldPos * frequency) + 1) / 2` |
| PointJobs.InteriorFollowsNoise | Assets/Scripts/Compute/PointJob.cs:38-45 | inside, with a nonzero amplitude, different noise values give different densities, so the border is the only place the noise is ignored |
| PointJobs.Remap | Assets/Scripts/Compute/PointJob.cs:42-43 | noise in `[-1, 1]` is carried into `[0, amplitude]` for a non-negative amplitude |
| PointJobs.RemapStrict | Assets/Scripts/Compute/PointJob.cs:42-43 | the remap is strictly increasing for a positive amplitude and strictly decreasing for a negative one |
| PointJobs.RemapInjective | Assets/Scripts/Compute/PointJob.cs:42-43 | with a nonzero amplitude, different noise values remap to different values |
| PointJobs.Execute | Assets/Scripts/Compute/PointJob.cs:24-34 | one work item stores `to3D(index)` and its density at `index` and leaves every other entry unchanged |
| PointJobs.ExecuteCommutes | Assets/Scripts/Compute/PointJob.cs:24-34 | work items on different indices commute |
| PointJobs.RunPointJob | Assets/Scripts/Chunk.cs:103-112 | the scheduled job overwrites every entry with the sample of its own index; the result depends only on the job, the noise and the length |
| PointJobs.FieldIsSealed | Assets/Scripts/Compute/PointJob.cs:26-38 | every stored sample whose position is on the border holds `-1` |
| MeshAssembly.FlattenCorners | Assets/Scripts/Chunk.cs:136-141 | in the flattened vertex list, slots `3i`, `3i+1`, `3i+2` hold the corners `a`, `b`, `c` of triangle `i` |
| MeshAssembly.CornersDetermineVertices | Assets/Scripts/Chunk.cs:136-141 | any array of `3N` vertices with the slot rule is the flattened list |
| MeshAssembly.FillTriangle | Assets/Scripts/Chunk.cs:137-145 | one loop iteration writes only the three slots of its triangle |
| MeshAssembly.FillCommutes | Assets/Scripts/Chunk.cs:136-146 | iterations on different triangles commute, so any parallel schedule gives the same arrays |
| MeshAssembly.AssembleMesh | Assets/Scripts/Chunk.cs:133-146 | both arrays have `3N` entries; vertices follow the slot rule and equal the flattened list; `indices[j] == j` |
| MeshAssembly.RenderedAssembly | Assets/Scripts/Chunk.cs:148-151 | the mesh, read as a triangle list through its indices, draws exactly the read-back triangles in order |
| MeshAssembly.IotaInjective | Assets/Scripts/Chunk.cs:143-145 | no two index slots name the same vertex |
| AppendBuffers.Append | Assets/Scripts/Chunk.cs:65 | an append writes at the counter when that slot exists, touches no other slot, and always advances the counter |
| AppendBuffers.ResetCounter | Assets/Scripts/Chunk.cs:115 | `SetCounterValue(0)` zeroes the counter and leaves every slot as it was |
| AppendBuffers.AppendAll | Assets/Scripts/Chunk.cs:126 | a dispatch advances the counter by one per append, whether or not the append fits, and never changes the capacity |
| AppendBuffers.Readback | Assets/Scripts/Chunk.cs:130-131 | the copy succeeds exactly when the count is within the capacity, and it returns the first `count` slots |
| AppendBuffers.AppendAllFills | Assets/Scripts/Chunk.cs:126 | appends that fit land one after another from the counter on, and earlier slots keep their contents |
| AppendBuffers.ReadbackAfterReset | Assets/Scripts/Chunk.cs:91-131 | reset, dispatch, the count read back by `GetBufferCount` and the copy return exactly this dispatch's triangles, whatever the buffer held before, exactly when they fit |
| Chunks.GroupsCoverGrid | Assets/Scripts/Chunk.cs:124-126 | for `size >= 1`, `th` groups of 8 cover the edge with less than one group to spare: `8*(th-1) < size <= 8*th` and `th == (size+7) div 8` |
| Chunks.Build | Assets/Scripts/Chunk.cs:101-161 | without the points array it throws and changes nothing; otherwise the field is the job's result and is uploaded, the counter holds this dispatch's count, and the mesh is built from exactly this dispatch's triangles when they fit the buffer and the vertex count fits an `int`; otherwise the matching fault is raised and the old mesh is kept |
| Chunks.RebuiltMeshDrawsEmitted | Assets/Scripts/Chunk.cs:128-151 | after a successful build the mesh draws exactly the triangles the kernel appended |
| Chunks.RebuildIsDeterministic | Assets/Scripts/Chunk.cs:101-131 | two builds with the same parameters and sizes give the same field, counter, outcome and mesh, whatever the old contents. The same mesh relies on the kernel's fixed append order; on a GPU, whose order varies between thread groups, only the field, the count and the multiset of triangles would repeat |
| Chunks.PointsAmount | Assets/Scripts/Chunk.cs:61 | for edges 1 to 754 the point count is `size^3` and five times it fits an `int`; for edges in `[-1290, 0]` it is not positive |
| Chunks.TriangleCapacity | Assets/Scripts/Chunk.cs:65 | the capacity is five times the point count whenever that fits an `int` |
| Chunks.Allocate | Assets/Scripts/Chunk.cs:52-70 | after allocation the flag is set exactly when the triangle buffer exists; success leaves the flag set and the points array live; failure is a buffer-count fault with no points array |
| Chunks.AllocateSizes | Assets/Scripts/Chunk.cs:61-70 | for edges 1 to 754 allocation succeeds with `size^3` points, `5 * size^3` triangle slots and a zero counter; edges in `[-1290, 0]` throw at the first buffer |
| Chunks.Start | Assets/Scripts/Chunk.cs:52-73 | a failed allocation is the outcome; otherwise the first build runs on the allocated chunk; for edges 1 to 754 the flag is set, the points array is live and the sizes are `size^3` and `5 * size^3`, whatever the build does |
| Chunks.ConformantKernelFits | Assets/Scripts/Chunk.cs:61-65 | a kernel with at most five triangles per point fits the buffer `Start` sizes; up to edge 523 the vertex count also fits an `int` |
| Chunks.Direction | Assets/Scripts/Chunk.cs:77-82 | `dir.x` is 1 under D, else -1 under A, else 0; `dir.z` is -1 under S, else 1 under W, else 0; `dir.y` is 0; the direction is nonzero exactly when a key is held |
| Chunks.Update | Assets/Scripts/Chunk.cs:75-89 | with no key held the chunk is unchanged; otherwise only the noise origin changes, by exactly the direction, and the chunk is rebuilt |
| Chunks.SetFrequency | Assets/Scripts/Chunk.cs:174-178 | only the frequency changes, then the chunk is rebuilt |
| Chunks.SetAmplitude | Assets/Scripts/Chunk.cs:180-184 | only the amplitude changes, then the chunk is rebuilt |
| Chunks.OnDestroy | Assets/Scripts/Chunk.cs:163-172 | the GPU buffers are released when the flag is set and untouched otherwise; the points array is never left live; the call throws exactly when the points array was not live |
| Chunks.StartedChunkReleasesAll | Assets/Scripts/Chunk.cs:163-172 | a chunk with a live points array has all three resources disposed by `OnDestroy` |
| Chunks.OversizedChunkLeaksPointsBuffer | Assets/Scripts/Chunk.cs:61-72 | at edge 755 the triangle buffer throws before the flag is set, and `OnDestroy` leaves the points buffer live |

## Left out

- **Floating point.** IEEE-754 single-precision rounding and Burst float behaviour are not modelled. Every float is an exact real.
- **Noise.** `noise.snoise` is an arbitrary function `Vec3 -> real`. Its range `[-1, 1]` is a hypothesis of the lemmas that need it.
- **The kernel.** The `MarchingCube` compute shader is an arbitrary function. It fixes one append order; the GPU's nondeterministic order across thread groups is not modelled. The five-triangles-per-point bound is a hypothesis (`ConformantKernelFits`).
- **GPU append overflow.** Appends past the capacity are dropped while the counter still advances. This is one platform behaviour; others are undefined.
- **Initial buffer contents.** Fresh GPU buffers start as zeros in the model, where real GPU memory is uninitialised. The readback lemma holds whatever the old slots contain.
- **Scheduling.** Job scheduling, the `processorCount` batch size and `Parallel.For` are sequential loops. The commutation lemmas (`ExecuteCommutes`, `FillCommutes`) justify this.
- **Unity calls.** These have no effect on the modelled state and are omitted:
  - `GetComponent`;
  - the mesh filter and collider assignments;
  - `FindKernel`, `SetFloat`, `SetInts` and `SetBuffer`;
  - `RecalculateNormals`;
  - the one-element count buffer that `GetBufferCount` allocates and disposes.
  - `Input.GetKey` becomes the booleans of `Keys`.
- **Engine limits.** Buffer strides, memory exhaustion, and the 16-bit index format of a default Unity mesh (about 65 thousand vertices) are not modelled.
- **Native array disposal.** Disposing an unallocated or already disposed points array is modelled as throwing, as it does with the collection safety checks on. Without them there is no exception.
- **Negative edges.** An edge whose cube wraps to a positive count (for example -1291) is allocated and built as the code does. The lemmas about `to3D` state their ranges only for positive extents.
- **`CameraRotationControll.cs`** is not part of this model: it is camera and mouse handling with no state shared with the chunk.
