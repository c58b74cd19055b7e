/**
 * Pipeline specialization (`CustomPipeline::specialize`): the engine's mesh
 * pipeline descriptor for a key and mesh layout, with depth testing turned
 * off, alpha blending on the first colour target, both shader stages pointed
 * at the instancing shader and a per-instance vertex buffer appended.
 */
module Specialization {
  import opened Wrappers
  import opened VoxelPlot

  /** A shader asset handle. */
  datatype ShaderHandle = ShaderHandle(uuid: string)

  /** `SHADER_HANDLE`: the weak handle under which the instancing shader is loaded. */
  const InstancingShader: ShaderHandle := ShaderHandle("123e4567-e89b-12d3-a456-426614174000")

  datatype TextureFormat = Rgba8UnormSrgb | Bgra8UnormSrgb | Rgba16Float | Depth32Float | Depth24Plus | Depth24PlusStencil8

  datatype CompareFunction = Never | Less | Equal | LessEqual | Greater | NotEqual | GreaterEqual | Always

  datatype StencilOperation = Keep | Zero | Replace | Invert | IncrementClamp | DecrementClamp | IncrementWrap | DecrementWrap

  datatype StencilFaceState = StencilFaceState(compare: CompareFunction, failOp: StencilOperation, depthFailOp: StencilOperation, passOp: StencilOperation)

  datatype StencilState = StencilState(front: StencilFaceState, back: StencilFaceState, readMask: U32, writeMask: U32)

  /** `StencilState::default()`: both faces ignore the stencil, both masks are zero. */
  function DefaultStencil(): (s: StencilState)
    ensures s.front == s.back
    ensures s.front.compare == Always && s.front.failOp == Keep && s.front.depthFailOp == Keep && s.front.passOp == Keep
    ensures s.readMask == 0 && s.writeMask == 0
  {
    StencilState(StencilFaceState(Always, Keep, Keep, Keep), StencilFaceState(Always, Keep, Keep, Keep), 0, 0)
  }

  datatype DepthBiasState = DepthBiasState(constant: int, slopeScale: real, clamp: real)

  /** `DepthBiasState::default()`: no bias. */
  function DefaultDepthBias(): (b: DepthBiasState)
    ensures b.constant == 0 && b.slopeScale == 0.0 && b.clamp == 0.0
  {
    DepthBiasState(0, 0.0, 0.0)
  }

  datatype DepthStencilState = DepthStencilState(
    format: TextureFormat,
    depthWriteEnabled: bool,
    depthCompare: CompareFunction,
    stencil: StencilState,
    bias: DepthBiasState)

  datatype BlendFactor = ZeroFactor | One | SrcAlpha | OneMinusSrcAlpha | DstAlpha | OneMinusDstAlpha

  datatype BlendOperation = Add | Subtract | ReverseSubtract | Min | Max

  datatype BlendComponent = BlendComponent(srcFactor: BlendFactor, dstFactor: BlendFactor, operation: BlendOperation)

  datatype BlendState = BlendState(color: BlendComponent, alpha: BlendComponent)

  /**
   * `BlendState::ALPHA_BLENDING`: colour is mixed by the source alpha, and
   * alpha is composited "over".
   */
  const AlphaBlending: BlendState :=
    BlendState(BlendComponent(SrcAlpha, OneMinusSrcAlpha, Add), BlendComponent(One, OneMinusSrcAlpha, Add))

  /** `ColorWrites::ALL`: the red, green, blue and alpha bits (1, 2, 4, 8). */
  const ColorWritesAll: nat := 1 + 2 + 4 + 8

  datatype ColorTargetState = ColorTargetState(format: TextureFormat, blend: Option<BlendState>, writeMask: nat)

  datatype FragmentState = FragmentState(shader: ShaderHandle, shaderDefs: seq<string>, entryPoint: string, targets: seq<Option<ColorTargetState>>)

  datatype VertexState = VertexState(shader: ShaderHandle, shaderDefs: seq<string>, entryPoint: string, buffers: seq<VertexBufferLayout>)

  datatype FrontFace = Ccw | Cw

  datatype Face = Front | Back

  datatype PolygonMode = Fill | Line | Point

  datatype PrimitiveState = PrimitiveState(
    topology: PrimitiveTopology,
    stripIndexFormat: Option<IndexFormat>,
    frontFace: FrontFace,
    cullMode: Option<Face>,
    unclippedDepth: bool,
    polygonMode: PolygonMode,
    conservative: bool)

  datatype MultisampleState = MultisampleState(count: nat, mask: nat, alphaToCoverageEnabled: bool)

  /** A push-constant block: the shader stages that see it and its byte range. */
  datatype PushConstantRange = PushConstantRange(stages: nat, range: Range)

  datatype RenderPipelineDescriptor = RenderPipelineDescriptor(
    debugLabel: Option<string>,
    bindGroupLayouts: seq<nat>,
    pushConstantRanges: seq<PushConstantRange>,
    vertex: VertexState,
    primitive: PrimitiveState,
    depthStencil: Option<DepthStencilState>,
    multisample: MultisampleState,
    fragment: Option<FragmentState>,
    zeroInitializeWorkgroupMemory: bool)

  /**
   * The `CustomPipeline` resource: the instancing shader and the engine's mesh
   * pipeline, of which only its specialization is used.
   */
  datatype CustomPipeline = CustomPipeline(
    shader: ShaderHandle,
    meshPipeline: (MeshPipelineKey, MeshVertexBufferLayout) -> Result<RenderPipelineDescriptor, PipelineError>)

  /** Why the specialization panics: `fragment.as_mut().unwrap()` on `None`, or `targets[0]` on no targets. */
  datatype PanicReason = FragmentMissing | NoColorTarget

  datatype SpecializeOutcome =
    | Specialized(descriptor: RenderPipelineDescriptor)
    | BaseFailed(error: PipelineError)
    | Panicked(reason: PanicReason)

  /** The depth state the pipeline forces: no depth test and no depth write. */
  function OverlayDepth(): (d: DepthStencilState)
    ensures d.format == Depth32Float && d.depthCompare == Always && !d.depthWriteEnabled
    ensures d.stencil == DefaultStencil() && d.bias == DefaultDepthBias()
  {
    DepthStencilState(Depth32Float, false, Always, DefaultStencil(), DefaultDepthBias())
  }

  /** The colour target the pipeline installs in slot 0. */
  function BlendedTarget(): (t: ColorTargetState)
    ensures t.format == Rgba8UnormSrgb && t.blend == Some(AlphaBlending) && t.writeMask == ColorWritesAll
  {
    ColorTargetState(Rgba8UnormSrgb, Some(AlphaBlending), ColorWritesAll)
  }

  /**
   * The per-instance vertex buffer layout the pipeline appends. It describes
   * `InstanceData` exactly: the stride is the size of the record, the buffer
   * advances once per instance, and its two `Float32x4` attributes sit at the
   * byte offsets of `pos_scale` and `color`, fill the stride without
   * overlapping, and are read at shader locations 3 and 4.
   */
  function InstanceLayout(): (l: VertexBufferLayout)
    ensures l.arrayStride == InstanceDataSize == 32
    ensures l.stepMode == StepInstance
    ensures |l.attributes| == 2
    ensures l.attributes[0].format == Float32x4 && l.attributes[1].format == Float32x4
    ensures l.attributes[0].offset == PosScaleOffset && l.attributes[1].offset == ColorOffset
    ensures l.attributes[0].offset + VertexFormatSize(l.attributes[0].format) == l.attributes[1].offset
    ensures l.attributes[1].offset + VertexFormatSize(l.attributes[1].format) == l.arrayStride
    ensures l.attributes[0].shaderLocation == 3 && l.attributes[1].shaderLocation == 4
  {
    VertexBufferLayout(
      InstanceDataSize,
      StepInstance,
      [VertexAttribute(Float32x4, 0, 3), VertexAttribute(Float32x4, VertexFormatSize(Float32x4), 4)])
  }

  /**
   * `specialize`: asks the mesh pipeline for its descriptor (passing on its
   * error), then overrides the depth state, colour target 0 and both shaders,
   * and appends the instance layout. Everything else is the base descriptor's.
   */
  method Specialize(pipeline: CustomPipeline, key: MeshPipelineKey, layout: MeshVertexBufferLayout) returns (r: SpecializeOutcome)
    ensures pipeline.meshPipeline(key, layout).Failure? ==> r == BaseFailed(pipeline.meshPipeline(key, layout).error)
    ensures pipeline.meshPipeline(key, layout).Success? ==>
      var base := pipeline.meshPipeline(key, layout).value;
      && (base.fragment.None? ==> r == Panicked(FragmentMissing))
      && (base.fragment.Some? && |base.fragment.value.targets| == 0 ==> r == Panicked(NoColorTarget))
      && (base.fragment.Some? && |base.fragment.value.targets| > 0 ==>
            && r.Specialized?
            && var d := r.descriptor;
            && d.debugLabel == base.debugLabel && d.bindGroupLayouts == base.bindGroupLayouts
            && d.pushConstantRanges == base.pushConstantRanges
            && d.zeroInitializeWorkgroupMemory == base.zeroInitializeWorkgroupMemory
            && d.primitive == base.primitive && d.multisample == base.multisample
            && d.depthStencil == Some(OverlayDepth())
            && d.vertex.shader == pipeline.shader
            && d.vertex.shaderDefs == base.vertex.shaderDefs && d.vertex.entryPoint == base.vertex.entryPoint
            && d.vertex.buffers == base.vertex.buffers + [InstanceLayout()]
            && d.fragment.Some?
            && d.fragment.value.shader == pipeline.shader
            && d.fragment.value.shaderDefs == base.fragment.value.shaderDefs
            && d.fragment.value.entryPoint == base.fragment.value.entryPoint
            && |d.fragment.value.targets| == |base.fragment.value.targets|
            && d.fragment.value.targets[0] == Some(BlendedTarget())
            && d.fragment.value.targets[1..] == base.fragment.value.targets[1..])
  {
    var base := pipeline.meshPipeline(key, layout);
    if base.Failure? {
      return BaseFailed(base.error);
    }
    var descriptor := base.value;
    descriptor := descriptor.(depthStencil := Some(OverlayDepth()));
    if descriptor.fragment.None? {
      return Panicked(FragmentMissing);
    }
    var fragment := descriptor.fragment.value;
    if |fragment.targets| == 0 {
      return Panicked(NoColorTarget);
    }
    fragment := fragment.(targets := fragment.targets[0 := Some(BlendedTarget())]);
    descriptor := descriptor.(fragment := Some(fragment));
    descriptor := descriptor.(vertex := descriptor.vertex.(shader := pipeline.shader));
    descriptor := descriptor.(vertex := descriptor.vertex.(buffers := descriptor.vertex.buffers + [InstanceLayout()]));
    descriptor := descriptor.(fragment := Some(descriptor.fragment.value.(shader := pipeline.shader)));
    return Specialized(descriptor);
  }
}
