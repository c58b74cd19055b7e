# bevy_voxel_plot in Dafny

This is a model of the per-frame core of `bevy_voxel_plot`, an instanced voxel
renderer for the Bevy engine, together with the ASCII point-cloud loader of its
bunny example. It covers:

- extracting each entity's `InstanceMaterialData` into the render world;
- `prepare_instance_buffers`: each entity's instances are sorted back to front
  by squared distance to the camera and installed as one `InstanceBuffer`;
- `queue_custom`: one `Transparent3d` phase item per (view with a phase,
  entity whose mesh resolves);
- `CustomPipeline::specialize`: the mesh-pipeline descriptor with depth,
  blending, shaders and the per-instance vertex layout overridden;
- `DrawMeshInstanced::render`: the bind and draw commands recorded into a
  render pass, or a skip;
- `load_pcd_file` and the opacity sort and truncation of `voxel_plot_setup`.

Engine objects (entities, meshes, buffers, the render pass) are abstract
values. `f32` is `real`. Integer casts and `u32` additions are written out with
their 32-bit behaviour.

Modules:

- `Wrappers`: `Option` and `Result`.
- `StableSort`: a stable descending sort by a real key.
  - `SortDesc` is the reference definition, a functional insertion sort.
  - `SortDescInPlace` sorts an array in place and is proved equal to it.
  - Stability is stated as: for every key value, the subsequence of elements with
    that key is unchanged.
- `VoxelPlot`: the shared data model.
  - `InstanceData`, instance extraction, squared distance.
  - Entities, meshes and vertex layouts.
  - The `u32` casts.
- `BufferPreparation`: a `RenderWorld` class whose map of instance buffers is
  updated in place.
- `Queueing`: a `TransparentPhases` class whose map of per-view phases is
  extended by two nested loops. `QueuePhases` is the specification function.
- `Specialization`: the descriptor transformation.
- `DrawCommand`: a `TrackedRenderPass` class holding the sequence of recorded
  commands.
- `PointCloud`: the bunny example's line reader and setup.

Parameters stand in for the foreign calls:

- the engine's mesh-pipeline specialization (`CustomPipeline.meshPipeline`);
- the cached specializer (`QueueContext.specialize`);
- the rangefinder (`QueueContext.distance`);
- float parsing (`parse: string -> Option<real>`).

The camera position is an `Option<Vec3>` argument, and a file is its sequence of
lines.

Where the code panics, the model returns an explicit outcome instead:

- the `unwrap` of a failed specialization in `queue_custom`;
- `fragment.as_mut().unwrap()` and `targets[0]` in `specialize`.

## Model

| member | source | states |
|---|---|---|
| `VoxelPlot.ExtractComponent` | src/bevy_voxel_plot.rs:52-56 | Extraction always yields `Some`, a copy with the same instances element by element. |
| `VoxelPlot.Position` | src/bevy_voxel_plot.rs:180-181 | Definition: an instance's position is the x, y, z of `pos_scale`. |
| `VoxelPlot.DistanceSquared` | src/bevy_voxel_plot.rs:180-183 | The squared distance is never negative and is zero from a point to itself. |
| `VoxelPlot.AsU32` | src/bevy_voxel_plot.rs:336 | `n as u32` equals `n` below 2^32 and is congruent to `n` modulo 2^32 otherwise. |
| `VoxelPlot.AsI32` | src/bevy_voxel_plot.rs:335 | `v as i32` lies in the `i32` range and is `v` or `v - 2^32` (two's complement). |
| `VoxelPlot.WrappingAddU32` | src/bevy_voxel_plot.rs:334 | `start + count` on `u32`: the exact sum when it fits, otherwise the sum less 2^32. |
| `VoxelPlot.VertexFormatSize` | src/bevy_voxel_plot.rs:261 | `VertexFormat::Float32x4.size()` is 16 bytes. |
| `VoxelPlot.Lookup` | src/bevy_voxel_plot.rs:125 | A `get`: `Some` exactly when the key is present, holding the mapped value. |
| `StableSort.SortedDesc` | src/bevy_voxel_plot.rs:185-187 | Definition: keys never increase along the sequence, the order the `b`-before-`a` comparator asks for. |
| `StableSort.KeyFilter` | src/bevy_voxel_plot.rs:179-188 | The elements with key `k`: no longer than the input, and every element kept has key `k`. Contents and order are in the two lemmas below. |
| `StableSort.KeyFilterAppend` | src/bevy_voxel_plot.rs:179-188 | Filtering a concatenation filters each part in turn, so the filter keeps the input's order. |
| `StableSort.KeyFilterContents` | src/bevy_voxel_plot.rs:179-188 | The filter keeps each element with key `k` exactly as often as it occurs in the input, and nothing else. |
| `StableSort.Insert` | src/bevy_voxel_plot.rs:179-188 | One insertion step adds exactly one element to the multiset. |
| `StableSort.InsertKeepsSorted` | src/bevy_voxel_plot.rs:179-188 | Inserting into a descending sequence keeps it descending. |
| `StableSort.InsertKeepsTies` | src/bevy_voxel_plot.rs:179-188 | Inserting keeps the order of equal-key elements and puts the new one after its ties. |
| `StableSort.SortDesc` | src/bevy_voxel_plot.rs:179-188 | The sort is a permutation of its input (same multiset, same length). |
| `StableSort.SortDescIsSorted` | src/bevy_voxel_plot.rs:185-187 | The result is in non-increasing key order (`b` compared with `a`). |
| `StableSort.SortDescIsStable` | src/bevy_voxel_plot.rs:179 | `sort_by` is stable: for every key value, the elements with that key keep their input order. |
| `StableSort.SortDescOfSorted` | src/bevy_voxel_plot.rs:179-188 | An already descending input is returned unchanged. |
| `StableSort.SortDescAppendLast` | src/bevy_voxel_plot.rs:179-188 | Appending an element whose key is no greater than the last key, to a sequence the sort leaves unchanged, gives a sequence the sort also leaves unchanged. |
| `StableSort.SortDescOfConstantKey` | examples/bevy_pointcloud_bunny.rs:76-80 | If every element has the same key, sorting changes nothing. |
| `StableSort.PrefixOfSortedIsSorted` | examples/bevy_pointcloud_bunny.rs:83-86 | A prefix of a descending sequence is descending. |
| `StableSort.Truncate` | examples/bevy_pointcloud_bunny.rs:83-86 | `truncate(n)` returns a prefix of at most `n` elements: exactly `n` when longer, the input itself when short enough. |
| `StableSort.SortDescInPlace` | src/bevy_voxel_plot.rs:179-188 | The in-place sort leaves the array holding `SortDesc` of its old contents. |
| `StableSort.InsertInPlace` | src/bevy_voxel_plot.rs:179-188 | One in-place insertion step turns prefix `a[..i+1]` into `Insert` of the old prefix and leaves the rest alone. |
| `StableSort.SortStep` | src/bevy_voxel_plot.rs:179-188 | One insertion step extends the sorted prefix by one element of the original. |
| `StableSort.InsertAt` | src/bevy_voxel_plot.rs:179-188 | The insertion position is after the last element whose key is at least the new key. |
| `BufferPreparation.DistanceKey` | src/bevy_voxel_plot.rs:179-188 | Definition: the sort key of the comparator, squared distance from the camera to the instance's position. |
| `BufferPreparation.PreparedBuffer` | src/bevy_voxel_plot.rs:171-199 | An empty list gets no buffer. Otherwise the buffer holds as many instances as the list, and `length` counts them. |
| `BufferPreparation.PreparedBufferIsBackToFront` | src/bevy_voxel_plot.rs:171-199 | The buffer is a permutation of the instances, farthest from the camera first, ties in input order, and `length` is their number. |
| `BufferPreparation.SortBackToFront` | src/bevy_voxel_plot.rs:171-188 | The cloned and sorted vector is `SortDesc` of the list by distance key. The input list is untouched. |
| `BufferPreparation.RenderWorld.PrepareInstanceBuffers` | src/bevy_voxel_plot.rs:159-201 | Instance data is unchanged. Without a camera, every buffer is unchanged. With one, each entity's buffer is `PreparedBuffer` of its list (removed when empty). Entities without instance data keep their buffer. |
| `BufferPreparation.ThreeInstancesScenario` | src/bevy_voxel_plot.rs:179-199 | Three points at x = 0, 1, 2 seen from x = 10 are already farthest-first; the buffer keeps that order and has length 3. |
| `Queueing.Resolves` | src/bevy_voxel_plot.rs:125-131 | Definition: both lookups of the inner loop succeed, the mesh-queue data by main entity and then the GPU mesh by asset id. |
| `Queueing.PipelineKey` | src/bevy_voxel_plot.rs:120-134 | The key combines the view's MSAA sample count, its HDR flag and the mesh's primitive topology. |
| `Queueing.EntityOutcome` | src/bevy_voxel_plot.rs:125-146 | An entity contributes exactly when both lookups resolve. It panics exactly when specialization fails, with that error. Otherwise its item's entity, pipeline, `draw_custom`, distance, `batch_range 0..1`, `extra_index None` and `indexed false` are stated. |
| `Queueing.EntityFails` | src/bevy_voxel_plot.rs:135-137 | Definition: the entity resolves and its specialization fails, so the `unwrap` panics. |
| `Queueing.Resolved` | src/bevy_voxel_plot.rs:125-131 | The resolving entities: every element resolves and comes from the query, and every resolving entity of the query is included. |
| `Queueing.ViewItems` | src/bevy_voxel_plot.rs:124-147 | Definition of the inner loop over the entity query: the items it adds in order, or the first specialization error. The lemmas below state what it yields. |
| `Queueing.QueuePhases` | src/bevy_voxel_plot.rs:114-148 | Queueing never adds or removes a phase. |
| `Queueing.ViewItemsMatchResolved` | src/bevy_voxel_plot.rs:124-147 | For one view, without a panic, there is exactly one item per resolving entity, in query order. The view's inner loop succeeds exactly when every resolving entity specializes. |
| `Queueing.ViewItemsFailIff` | src/bevy_voxel_plot.rs:135-137 | The inner loop panics exactly when some entity fails to specialize. |
| `Queueing.ViewItemsFailurePersists` | src/bevy_voxel_plot.rs:124-137 | A panic on a prefix of the entities is a panic of the whole loop. |
| `Queueing.QueuePhasesFailurePersists` | src/bevy_voxel_plot.rs:114-137 | A panic on a prefix of the views is a panic of the whole system. |
| `Queueing.QueuePanicsIff` | src/bevy_voxel_plot.rs:114-137 | The system panics exactly when a view that has a phase meets an entity whose specialization fails. |
| `Queueing.QueuedPerView` | src/bevy_voxel_plot.rs:114-148 | With distinct views, each view that has a phase gets its own items appended. A phase no view names is unchanged, and views without a phase are skipped. |
| `Queueing.TransparentPhases.QueueCustom` | src/bevy_voxel_plot.rs:101-149 | The nested loops panic exactly when `QueuePhases` fails. Otherwise they leave the phases equal to `QueuePhases` of the old phases. |
| `Specialization.DefaultStencil` | src/bevy_voxel_plot.rs:238 | `StencilState::default()`: both faces always pass and keep, and both masks are 0. |
| `Specialization.DefaultDepthBias` | src/bevy_voxel_plot.rs:240 | `DepthBiasState::default()` has no bias. |
| `Specialization.OverlayDepth` | src/bevy_voxel_plot.rs:235-241 | Depth is `Depth32Float` with compare `Always`, no depth write, default stencil and bias. |
| `Specialization.BlendedTarget` | src/bevy_voxel_plot.rs:243-247 | Target 0 is `Rgba8UnormSrgb` with `ALPHA_BLENDING` and `ColorWrites::ALL`. |
| `Specialization.InstanceLayout` | src/bevy_voxel_plot.rs:250-265 | The appended layout: stride 32 = `size_of::<InstanceData>()`, per-instance step, two `Float32x4` attributes at the `pos_scale` and `color` offsets 0 and 16 (contiguous, filling the stride), locations 3 and 4. |
| `Specialization.Specialize` | src/bevy_voxel_plot.rs:226-269 | A base error is passed on unchanged. A missing fragment stage or an empty target list panics. Otherwise every field of the modelled descriptor is stated: overridden depth, target 0 and both shaders; base buffers plus exactly the instance layout; all other fields (label, layouts, push constants, primitive, multisample, workgroup-memory flag) and targets as in the base. |
| `DrawCommand.InstanceRange` | src/bevy_voxel_plot.rs:336 | `0..length as u32` starts at 0 and ends at `length` when that fits in 32 bits. |
| `DrawCommand.IndexRange` | src/bevy_voxel_plot.rs:334 | The index range starts at the slice start and ends at start + count when that fits in 32 bits. |
| `DrawCommand.ResourcesPresent` | src/bevy_voxel_plot.rs:302-316 | Definition: the mesh-queue data, the GPU mesh, the instance buffer and the vertex slice are all present. |
| `DrawCommand.TrackedRenderPass.SetVertexBuffer` | src/bevy_voxel_plot.rs:318-319 | Appends exactly one vertex-buffer binding to the recorded commands. |
| `DrawCommand.TrackedRenderPass.SetIndexBuffer` | src/bevy_voxel_plot.rs:332 | Appends exactly one index-buffer binding, with its offset and format. |
| `DrawCommand.TrackedRenderPass.DrawIndexed` | src/bevy_voxel_plot.rs:333-337 | Appends exactly one indexed draw with its index range, base vertex and instance range. |
| `DrawCommand.TrackedRenderPass.Draw` | src/bevy_voxel_plot.rs:340 | Appends exactly one non-indexed draw with its vertex range and instance range. |
| `DrawCommand.TrackedRenderPass.Render` | src/bevy_voxel_plot.rs:293-344 | `render` never fails and only appends commands. A missing queue data, mesh, instance buffer or vertex slice gives `Skip` with nothing recorded. A missing index slice of an indexed mesh gives `Skip` after the two binds, with no draw. Otherwise it binds slot 0 and slot 1, then records one draw: indexed over `start..start+count` with base vertex `start as i32`, or non-indexed over the vertex range, both over instances `0..length`. |
| `DrawCommand.PreparedBufferDrawsEveryInstance` | src/bevy_voxel_plot.rs:196-199 | A prepared buffer of n > 0 instances (n < 2^32) is drawn over instances `0..n`. |
| `PointCloud.IsWhitespace` | examples/bevy_pointcloud_bunny.rs:33 | Definition: `char::is_whitespace`, the Unicode `White_Space` characters. |
| `PointCloud.TrimStart` | examples/bevy_pointcloud_bunny.rs:33 | Definition of `str::trim_start`; `TrimStartSpec` states what it removes. |
| `PointCloud.TrimEnd` | examples/bevy_pointcloud_bunny.rs:33 | Definition of `str::trim_end`; `TrimEndSpec` states what it removes. |
| `PointCloud.Trim` | examples/bevy_pointcloud_bunny.rs:33 | Definition of `str::trim`, both ends; `TrimSpec` and `TrimEmptyIffBlank` state its properties. |
| `PointCloud.TrimStartSpec` | examples/bevy_pointcloud_bunny.rs:33 | `trim_start` removes exactly the leading whitespace. |
| `PointCloud.TrimEndSpec` | examples/bevy_pointcloud_bunny.rs:33 | `trim_end` removes exactly the trailing whitespace. |
| `PointCloud.TrimSpec` | examples/bevy_pointcloud_bunny.rs:37 | The trimmed line neither starts nor ends with whitespace. |
| `PointCloud.TrimEmptyIffBlank` | examples/bevy_pointcloud_bunny.rs:33 | `line.trim().is_empty()` holds exactly when the line is all whitespace. |
| `PointCloud.TokenLength` | examples/bevy_pointcloud_bunny.rs:43 | A token's length is within the line and positive when the line starts with a non-space. |
| `PointCloud.TokenLengthSpec` | examples/bevy_pointcloud_bunny.rs:43 | A token is a maximal run of non-whitespace characters. |
| `PointCloud.SplitWhitespace` | examples/bevy_pointcloud_bunny.rs:43 | Definition of `str::split_whitespace`; the lemmas below state which tokens it yields. |
| `PointCloud.TokensAreWords` | examples/bevy_pointcloud_bunny.rs:43 | Every token of `split_whitespace` is non-empty and contains no whitespace. |
| `PointCloud.NonWhitespaceAppend` | examples/bevy_pointcloud_bunny.rs:43 | Dropping whitespace distributes over concatenation. |
| `PointCloud.NonWhitespaceOfToken` | examples/bevy_pointcloud_bunny.rs:43 | Dropping whitespace from a token prefix keeps it whole. |
| `PointCloud.SplitWhitespaceKeepsText` | examples/bevy_pointcloud_bunny.rs:43 | The tokens, joined, are the line's non-whitespace characters in order. |
| `PointCloud.NoTokensIffBlank` | examples/bevy_pointcloud_bunny.rs:43 | A line has no tokens exactly when it is all whitespace. |
| `PointCloud.IsTokenStart` | examples/bevy_pointcloud_bunny.rs:43 | Definition: a non-whitespace character at the front of the line or right after whitespace. |
| `PointCloud.TokenStarts` | examples/bevy_pointcloud_bunny.rs:43-44 | Definition: the number of token starts among the first `n` positions, counted left to right. |
| `PointCloud.TokenAt` | examples/bevy_pointcloud_bunny.rs:43 | Definition: the run of non-whitespace characters beginning at a position. |
| `PointCloud.TokenStartsSplit` | examples/bevy_pointcloud_bunny.rs:43 | Cutting a line where no token is split adds the token-start counts of the two parts. |
| `PointCloud.TokenStartsInFirstToken` | examples/bevy_pointcloud_bunny.rs:43 | Inside the first token only its first position is a token start. |
| `PointCloud.SplitWhitespaceCountsStarts` | examples/bevy_pointcloud_bunny.rs:43-44 | `split_whitespace` yields exactly one token per token start, so `parts.len()` counts the maximal runs. |
| `PointCloud.SplitWhitespaceTokenAt` | examples/bevy_pointcloud_bunny.rs:43 | The tokens are the maximal non-whitespace runs in line order: the token numbered by the starts before position `p` is the run at `p`. |
| `PointCloud.IsSkippedLine` | examples/bevy_pointcloud_bunny.rs:33-35 | Definition: an untrimmed `#` line, or a line blank after trimming. |
| `PointCloud.IsMarkerLine` | examples/bevy_pointcloud_bunny.rs:37-40 | Definition: a line not skipped whose trimmed text is `DATA ascii`. |
| `PointCloud.DataStartedAt` | examples/bevy_pointcloud_bunny.rs:28-39 | Definition: `in_data` holds at line `i` when some earlier line is a `DATA ascii` line. |
| `PointCloud.Accepts` | examples/bevy_pointcloud_bunny.rs:33-46 | Definition: in the data section, not skipped, not a marker, and at least three tokens. |
| `PointCloud.IsAcceptedLine` | examples/bevy_pointcloud_bunny.rs:30-46 | Definition: line `i` is accepted given the `in_data` state the lines before it produce. |
| `PointCloud.ParseOr0` | examples/bevy_pointcloud_bunny.rs:48-50 | `parse().unwrap_or(0.0)`: the parsed value, or 0 when parsing fails. |
| `PointCloud.LineInstance` | examples/bevy_pointcloud_bunny.rs:48-55 | A data line's instance takes x, y, z from its first three tokens, ignores the rest, and has scale 1.0 and the constant colour. |
| `PointCloud.ParsedInstances` | examples/bevy_pointcloud_bunny.rs:30-58 | Reference definition of the reader's output, line by line; `LoadPcdFile` is proved equal to it and the lemmas below state its properties. |
| `PointCloud.AcceptedLines` | examples/bevy_pointcloud_bunny.rs:30-58 | The accepted line indices are strictly increasing, and each one is a line the reader turns into an instance. |
| `PointCloud.AcceptedLinesComplete` | examples/bevy_pointcloud_bunny.rs:30-58 | Every line the reader turns into an instance is listed. |
| `PointCloud.AcceptedInPrefix` | examples/bevy_pointcloud_bunny.rs:30-42 | Whether a line is accepted depends only on the lines up to it. |
| `PointCloud.ParsedInstancesPerLine` | examples/bevy_pointcloud_bunny.rs:42-57 | Exactly one instance per accepted line, in file order, made from that line's tokens (at least three). |
| `PointCloud.NoMarkerNoInstances` | examples/bevy_pointcloud_bunny.rs:37-42 | Without a `DATA ascii` line, nothing is read. |
| `PointCloud.NothingUpToFirstMarker` | examples/bevy_pointcloud_bunny.rs:33-42 | Nothing is read from the lines up to and including the first `DATA ascii` line. |
| `PointCloud.ParsedInstancesAreUniform` | examples/bevy_pointcloud_bunny.rs:52-55 | Every instance read has scale 1.0 and the colour `srgba(1, 1, 1, 0.01)` in linear space. |
| `PointCloud.DataStartedStep` | examples/bevy_pointcloud_bunny.rs:37-40 | `in_data` holds after a line exactly when it held before or the line is `DATA ascii`. |
| `PointCloud.PrefixStep` | examples/bevy_pointcloud_bunny.rs:42-57 | Reading one more line appends that line's instance when it is accepted. |
| `PointCloud.LoadPcdFile` | examples/bevy_pointcloud_bunny.rs:23-67 | The `in_data` loop returns exactly `ParsedInstances` of the lines, with cube size 0.02 in each dimension. |
| `PointCloud.Alpha` | examples/bevy_pointcloud_bunny.rs:77-78 | Definition: the sort key, the colour's alpha `color[3]`. |
| `PointCloud.VoxelPlotSetup` | examples/bevy_pointcloud_bunny.rs:73-86 | The setup keeps `Truncate(SortDesc(parsed, alpha), 2_000_000)`. |
| `PointCloud.SetupKeepsMostOpaque` | examples/bevy_pointcloud_bunny.rs:76-86 | At most `MAX_INSTANCES` kept, a prefix of the sorted list, drawn from the input (the whole input when short enough). They are in non-increasing alpha, and none is less opaque than any dropped. |
| `PointCloud.SetupKeepsFileOrder` | examples/bevy_pointcloud_bunny.rs:52-86 | Points read from a file all share one alpha, so the setup keeps the first `MAX_INSTANCES` of them in file order. |

## Left out

- Plugin registration, system scheduling and `ExtractComponentPlugin` (src/bevy_voxel_plot.rs:63-87) are engine plumbing, not logic of this crate.
- `Commands` deferral is not modelled: the inserts and removes of `prepare_instance_buffers` take effect at once.
- `CustomPipeline::from_world` is left out: it only clones the engine's mesh pipeline and the shader handle.
- GPU buffer creation, the `bytemuck` byte cast and `BufferUsages` are left out. A buffer is modelled as its sorted contents and a length.
- The WGSL shader and `load_internal_asset!` are left out.
- The engine's mesh-pipeline specialization and the `SpecializedMeshPipelines` / `PipelineCache` caching are left out. They are foreign code, given as a function parameter that is deterministic for a key and layout.
- The pipeline descriptor's handles are abstract: bind group layouts are ids, shader definitions are strings, and the texture, vertex and blend enumerations list only the variants used here and a few others.
- `MeshPipelineKey` is a record of its three inputs, not the engine's bit encoding.
- The rangefinder's `distance_translation` is foreign code, given as a parameter.
- `f32` arithmetic, NaN and the `partial_cmp(..).unwrap_or(Equal)` fallback are left out: coordinates and distances are exact reals.
- Float parsing is a parameter. The sRGB-to-linear conversion is left out, because its only input here is 1.0, which maps to 1.0.
- The choice of the first extracted view as the camera depends on query iteration order. The camera is an arbitrary `Option<Vec3>` argument.
- Query iteration order in `queue_custom` is given by the caller as sequences of views and entities.
- File opening, line splitting and their `expect` panics (examples/bevy_pointcloud_bunny.rs:24-31) are left out: the file is given as its lines.
- The `println!` of the opacity threshold (examples/bevy_pointcloud_bunny.rs:88-91) and the entity spawn that follows are left out.
- `SetItemPipeline`, `SetMeshViewBindGroup` and `SetMeshBindGroup` of `DrawCustom` are engine commands recorded before `DrawMeshInstanced`, and are left out.
- `Queueing.TransparentPhases.QueueCustom`: says only that a panic happens. It does not describe the phases when the system panics, since in the program the panic ends the frame.
- `VoxelPlot.DistanceSquared`: states non-negativity and zero for equal points, but not the converse (zero only for equal points).
- `StableSort.SortDesc`: is an insertion sort, where Rust's `sort_by` is a merge sort. Both are stable sorts by the same comparison, so their results are equal. The model does not show their complexity.
- `WrappingAddU32` models `start + count` with release-build wrap-around. A debug build panics on that overflow instead.
- examples/bevy_egui.rs, examples/bevy_pan_orbit_camera.rs and examples/simple_cubes.rs are left out. They are app setup, camera and GUI code and float colour maps; their sort-and-truncate repeats the bunny example's.
