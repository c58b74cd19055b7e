/**
 * The plain data of the instanced voxel renderer (src/bevy_voxel_plot.rs):
 * the per-instance record, the per-entity instance collection and its
 * extraction into the render world, the per-entity GPU instance buffer, and
 * the engine values the render systems read (entities, meshes, vertex layouts).
 * Engine objects are abstract values; `f32` is modelled by `real`.
 */
module VoxelPlot {
  import opened Wrappers

  /** A point or vector in world space (glam `Vec3`). */
  datatype Vec3 = Vec3(x: real, y: real, z: real)

  /** Four packed 32-bit floats (`[f32; 4]`). */
  datatype Vec4 = Vec4(x: real, y: real, z: real, w: real)

  /**
   * One instance: `posScale` holds the position in x, y, z and the uniform
   * scale in w; `color` is RGBA, with the alpha in w.
   */
  datatype InstanceData = InstanceData(posScale: Vec4, color: Vec4)

  /** The component holding an entity's instances. */
  datatype InstanceMaterialData = InstanceMaterialData(instances: seq<InstanceData>)

  /** Size in bytes of a `Float32x4` vertex attribute. */
  const Float32x4Size: nat := 16

  /** `size_of::<InstanceData>()`: two `[f32; 4]` arrays, `#[repr(C)]`, with no padding. */
  const InstanceDataSize: nat := 2 * Float32x4Size

  /** Byte offsets of the two fields of `InstanceData` under `#[repr(C)]`. */
  const PosScaleOffset: nat := 0
  const ColorOffset: nat := Float32x4Size

  /**
   * `InstanceMaterialData::extract_component`: the render world receives its
   * own copy of the instance list, always present and element for element
   * equal to the main world's.
   */
  function ExtractComponent(item: InstanceMaterialData): (r: Option<InstanceMaterialData>)
    ensures r.Some?
    ensures |r.value.instances| == |item.instances|
    ensures forall i :: 0 <= i < |item.instances| ==> r.value.instances[i] == item.instances[i]
  {
    Some(InstanceMaterialData(item.instances))
  }

  /** The position part of an instance. */
  function Position(instance: InstanceData): Vec3 {
    Vec3(instance.posScale.x, instance.posScale.y, instance.posScale.z)
  }

  /**
   * glam's `distance_squared`: the squared Euclidean distance, exact on reals;
   * never negative, and zero from a point to itself.
   */
  function DistanceSquared(a: Vec3, b: Vec3): (d: real)
    ensures d >= 0.0
    ensures a == b ==> d == 0.0
  {
    var dx, dy, dz := b.x - a.x, b.y - a.y, b.z - a.z;
    SquareNonNegative(dx);
    SquareNonNegative(dy);
    SquareNonNegative(dz);
    dx * dx + dy * dy + dz * dz
  }

  lemma ProductOfPositives(a: real, b: real)
    requires a > 0.0 && b > 0.0
    ensures a * b > 0.0
  {
  }

  lemma SquareNonNegative(r: real)
    ensures r * r >= 0.0
  {
    if r < 0.0 {
      ProductOfPositives(-r, -r);
      assert r * r == (-r) * (-r);
    } else if r > 0.0 {
      ProductOfPositives(r, r);
    }
  }

  /** Identifier of a render-world entity. */
  datatype Entity = Entity(index: nat)

  /** Identifier of the main-world entity a render-world entity mirrors. */
  datatype MainEntity = MainEntity(index: nat)

  /** Identifier of a mesh asset. */
  datatype MeshAssetId = MeshAssetId(index: nat)

  /** A GPU buffer: one made from sorted instance data, or a slab owned by the engine's mesh allocator. */
  datatype GpuBuffer =
    | InstanceVertexBuffer(contents: seq<InstanceData>)
    | AllocatorBuffer(slab: nat)

  /** The per-entity component `InstanceBuffer`: the GPU buffer and the number of instances in it. */
  datatype InstanceBuffer = InstanceBuffer(buffer: GpuBuffer, length: nat)

  /** `Option`-valued map lookup, as `Query::get` and `HashMap::get` return. */
  function Lookup<K, V>(m: map<K, V>, k: K): (r: Option<V>)
    ensures r.Some? <==> k in m
    ensures r.Some? ==> r.value == m[k]
  {
    if k in m then Some(m[k]) else None
  }

  /** A half-open `u32` range `start..end` (`Range<u32>`). */
  datatype Range = Range(start: U32, end: U32)

  const U32Modulus: int := 0x1_0000_0000

  /** The values of a Rust `u32`. */
  type U32 = x: int | 0 <= x < 0x1_0000_0000

  /** `n as u32`: keeps the low 32 bits of `n`. */
  function AsU32(n: nat): (r: U32)
    ensures n < U32Modulus ==> r == n
    ensures (n - r) % U32Modulus == 0
  {
    n % U32Modulus
  }

  /** `v as i32` for a `u32` value: the two's-complement reading of the same 32 bits. */
  function AsI32(v: U32): (r: int)
    ensures -0x8000_0000 <= r < 0x8000_0000
    ensures r == v || r == v - U32Modulus
  {
    if v < 0x8000_0000 then v else v - U32Modulus
  }

  /** `a + b` on `u32` with wrap-around on overflow. */
  function WrappingAddU32(a: U32, b: U32): (r: U32)
    ensures a + b < U32Modulus ==> r == a + b
    ensures a + b >= U32Modulus ==> r == a + b - U32Modulus
  {
    (a + b) % U32Modulus
  }

  datatype PrimitiveTopology = PointList | LineList | LineStrip | TriangleList | TriangleStrip

  datatype VertexFormat = Float32x2 | Float32x3 | Float32x4 | Uint32 | Sint32x4

  /** `VertexFormat::size()` in bytes. */
  function VertexFormatSize(f: VertexFormat): (n: nat)
    ensures f == Float32x4 ==> n == Float32x4Size
  {
    match f
    case Float32x2 => 8
    case Float32x3 => 12
    case Float32x4 => 16
    case Uint32 => 4
    case Sint32x4 => 16
  }

  datatype VertexStepMode = StepVertex | StepInstance

  datatype VertexAttribute = VertexAttribute(format: VertexFormat, offset: nat, shaderLocation: nat)

  /** One vertex buffer slot of a pipeline. */
  datatype VertexBufferLayout = VertexBufferLayout(arrayStride: nat, stepMode: VertexStepMode, attributes: seq<VertexAttribute>)

  /** A mesh's vertex layout (`MeshVertexBufferLayoutRef`): its attribute ids and its buffer layout. */
  datatype MeshVertexBufferLayout = MeshVertexBufferLayout(attributeIds: seq<nat>, layout: VertexBufferLayout)

  datatype IndexFormat = Uint16Index | Uint32Index

  /** `RenderMeshBufferInfo`: how the mesh is drawn. */
  datatype RenderMeshBufferInfo = Indexed(indexFormat: IndexFormat, count: U32) | NonIndexed

  /** The prepared GPU mesh (`RenderMesh`) as these systems see it. */
  datatype RenderMesh = RenderMesh(primitiveTopology: PrimitiveTopology, layout: MeshVertexBufferLayout, bufferInfo: RenderMeshBufferInfo)

  /**
   * `MeshPipelineKey` as the queueing system builds it: MSAA sample count, HDR
   * and primitive topology (the engine packs these into bit fields).
   */
  datatype MeshPipelineKey = MeshPipelineKey(msaaSamples: nat, hdr: bool, primitiveTopology: PrimitiveTopology)

  /** An error of the engine's mesh-pipeline specialization (`SpecializedMeshPipelineError`). */
  datatype PipelineError = PipelineError(reason: string)

  /** `RenderMeshQueueData`: the mesh asset an entity draws and its world translation. */
  datatype MeshQueueData = MeshQueueData(meshAssetId: MeshAssetId, translation: Vec3)
}
