/**
 * The draw command (`DrawMeshInstanced::render`): for one phase item it looks
 * up the mesh-queue data, the GPU mesh, the entity's instance buffer and the
 * mesh's vertex slice, skipping the item when any is missing; otherwise it
 * binds the mesh vertices at slot 0 and the instances at slot 1 and records one
 * instanced draw, indexed or not as the mesh says.
 */
module DrawCommand {
  import Wrappers
  import opened VoxelPlot
  import opened BufferPreparation

  /** A command recorded into a render pass. */
  datatype PassCommand =
    | SetVertexBuffer(slot: nat, buffer: GpuBuffer)
    | SetIndexBuffer(buffer: GpuBuffer, offset: nat, format: IndexFormat)
    | DrawIndexed(indices: Range, baseVertex: int, instances: Range)
    | Draw(vertices: Range, instances: Range)

  datatype RenderCommandResult = Success | Skip | Failure(reason: string)

  /** Where the mesh allocator placed a mesh's vertices or indices: a slab and an element range in it. */
  datatype MeshBufferSlice = MeshBufferSlice(buffer: GpuBuffer, range: Range)

  /** The engine's `MeshAllocator`, as the vertex-slice and index-slice lookups see it. */
  datatype MeshAllocator = MeshAllocator(
    vertexSlices: map<MeshAssetId, MeshBufferSlice>,
    indexSlices: map<MeshAssetId, MeshBufferSlice>)

  predicate IsDraw(c: PassCommand) {
    c.DrawIndexed? || c.Draw?
  }

  /** `0..length as u32`: the instances a draw covers, `length` truncated to 32 bits. */
  function InstanceRange(length: nat): (r: Range)
    ensures r.start == 0
    ensures length < U32Modulus ==> r.end == length
  {
    Range(0, AsU32(length))
  }

  /** `start..start + count` on `u32`, as wrapping addition. */
  function IndexRange(slice: MeshBufferSlice, count: U32): (r: Range)
    ensures r.start == slice.range.start
    ensures slice.range.start + count < U32Modulus ==> r.end == slice.range.start + count
  {
    Range(slice.range.start, WrappingAddU32(slice.range.start, count))
  }

  /** All four lookups before any command is recorded succeed. */
  predicate ResourcesPresent(mainEntity: MainEntity, instanceBuffer: Wrappers.Option<InstanceBuffer>,
                             meshes: map<MeshAssetId, RenderMesh>, renderMeshInstances: map<MainEntity, MeshQueueData>,
                             allocator: MeshAllocator) {
    && mainEntity in renderMeshInstances
    && renderMeshInstances[mainEntity].meshAssetId in meshes
    && instanceBuffer.Some?
    && renderMeshInstances[mainEntity].meshAssetId in allocator.vertexSlices
  }

  /** The render pass of one view, as the sequence of commands recorded so far. */
  class TrackedRenderPass {
    var commands: seq<PassCommand>

    constructor ()
      ensures commands == []
    {
      commands := [];
    }

    method SetVertexBuffer(slot: nat, buffer: GpuBuffer)
      modifies this
      ensures commands == old(commands) + [PassCommand.SetVertexBuffer(slot, buffer)]
    {
      commands := commands + [PassCommand.SetVertexBuffer(slot, buffer)];
    }

    method SetIndexBuffer(buffer: GpuBuffer, offset: nat, format: IndexFormat)
      modifies this
      ensures commands == old(commands) + [PassCommand.SetIndexBuffer(buffer, offset, format)]
    {
      commands := commands + [PassCommand.SetIndexBuffer(buffer, offset, format)];
    }

    method DrawIndexed(indices: Range, baseVertex: int, instances: Range)
      modifies this
      ensures commands == old(commands) + [PassCommand.DrawIndexed(indices, baseVertex, instances)]
    {
      commands := commands + [PassCommand.DrawIndexed(indices, baseVertex, instances)];
    }

    method Draw(vertices: Range, instances: Range)
      modifies this
      ensures commands == old(commands) + [PassCommand.Draw(vertices, instances)]
    {
      commands := commands + [PassCommand.Draw(vertices, instances)];
    }

    /**
     * `render` for the phase item of `mainEntity`, whose `InstanceBuffer` is
     * `instanceBuffer`. It never fails. It skips without recording anything when
     * one of the four lookups fails; for an indexed mesh whose index slice is
     * missing it skips after the two vertex buffers are already bound, and
     * records no draw. On success it records the two bindings and one draw
     * covering the instances `0..length`.
     */
    method Render(mainEntity: MainEntity, instanceBuffer: Wrappers.Option<InstanceBuffer>,
                  meshes: map<MeshAssetId, RenderMesh>, renderMeshInstances: map<MainEntity, MeshQueueData>,
                  allocator: MeshAllocator) returns (result: RenderCommandResult)
      modifies this
      ensures !result.Failure?
      ensures |old(commands)| <= |commands| && commands[..|old(commands)|] == old(commands)
      ensures result == Skip ==> forall k :: |old(commands)| <= k < |commands| ==> !IsDraw(commands[k])
      ensures result == Success ==>
        && instanceBuffer.Some? && |commands| > |old(commands)|
        && IsDraw(commands[|commands| - 1])
        && commands[|commands| - 1].instances == InstanceRange(instanceBuffer.value.length)
        && forall k :: |old(commands)| <= k < |commands| - 1 ==> !IsDraw(commands[k])
      ensures !ResourcesPresent(mainEntity, instanceBuffer, meshes, renderMeshInstances, allocator) ==>
        result == Skip && commands == old(commands)
      ensures ResourcesPresent(mainEntity, instanceBuffer, meshes, renderMeshInstances, allocator) ==>
        var meshId := renderMeshInstances[mainEntity].meshAssetId;
        var vertexSlice := allocator.vertexSlices[meshId];
        var buffer := instanceBuffer.value;
        var binds := [PassCommand.SetVertexBuffer(0, vertexSlice.buffer), PassCommand.SetVertexBuffer(1, buffer.buffer)];
        match meshes[meshId].bufferInfo
        case Indexed(format, count) =>
          if meshId !in allocator.indexSlices then
            result == Skip && commands == old(commands) + binds
          else
            var indexSlice := allocator.indexSlices[meshId];
            && result == Success
            && commands == old(commands) + binds +
                 [PassCommand.SetIndexBuffer(indexSlice.buffer, 0, format),
                  PassCommand.DrawIndexed(IndexRange(indexSlice, count), AsI32(vertexSlice.range.start), InstanceRange(buffer.length))]
        case NonIndexed =>
          && result == Success
          && commands == old(commands) + binds + [PassCommand.Draw(vertexSlice.range, InstanceRange(buffer.length))]
    {
      var queueData := Lookup(renderMeshInstances, mainEntity);
      if queueData.None? {
        return Skip;
      }
      var gpuMesh := Lookup(meshes, queueData.value.meshAssetId);
      if gpuMesh.None? {
        return Skip;
      }
      if instanceBuffer.None? {
        return Skip;
      }
      var buffer := instanceBuffer.value;
      var vertexSlice := Lookup(allocator.vertexSlices, queueData.value.meshAssetId);
      if vertexSlice.None? {
        return Skip;
      }

      SetVertexBuffer(0, vertexSlice.value.buffer);
      SetVertexBuffer(1, buffer.buffer);

      match gpuMesh.value.bufferInfo {
        case Indexed(format, count) =>
          var indexSlice := Lookup(allocator.indexSlices, queueData.value.meshAssetId);
          if indexSlice.None? {
            return Skip;
          }
          SetIndexBuffer(indexSlice.value.buffer, 0, format);
          DrawIndexed(IndexRange(indexSlice.value, count), AsI32(vertexSlice.value.range.start), InstanceRange(buffer.length));
        case NonIndexed =>
          Draw(vertexSlice.value.range, InstanceRange(buffer.length));
      }
      return Success;
    }
  }

  /**
   * The instance buffer prepared for a non-empty list of fewer than 2^32
   * instances is drawn with the instance range `0..n`, `n` the number of
   * instances: every instance is drawn once, in buffer order.
   */
  lemma PreparedBufferDrawsEveryInstance(cameraPosition: Vec3, instances: seq<InstanceData>)
    requires 0 < |instances| < U32Modulus
    ensures var b := PreparedBuffer(cameraPosition, instances);
      b.Some? && InstanceRange(b.value.length) == Range(0, |instances|)
  {
  }
}
