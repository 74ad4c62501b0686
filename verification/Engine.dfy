/**
 * The parts of the Unity engine and its Universal Render Pipeline that the
 * low-resolution feature talks to, reduced to what the feature can observe:
 * opaque handles and materials, texture descriptors, render-queue ranges, and
 * a command buffer recorded as a sequence of abstract commands.
 */
module Engine {
  import opened Wrappers

  /** An RTHandle: an opaque reference to a render target. */
  datatype RT = RT(id: nat)

  /** A CommandBuffer handed to the pass by the pipeline. */
  datatype CommandBuffer = CommandBuffer(id: nat)

  /** The exceptions the feature can raise. */
  datatype Fault =
    | ArgumentNull      // thrown explicitly by OnCameraCleanup
    | NullReference     // a member called through a null field

  datatype CameraType = Game | SceneView | Preview | VR | Reflection

  datatype GraphicsFormat = FormatNone | R16G16B16A16SFloat | OtherFormat(code: nat)

  datatype FilterMode = Point | Bilinear | Trilinear

  datatype WrapMode = Repeat | Clamp | Mirror | MirrorOnce

  /**
   * A RenderTextureDescriptor. The feature reads and writes only the five
   * named fields; `rest` stands for every other field, which it copies through.
   */
  datatype Descriptor = Descriptor(
    width: int,
    height: int,
    graphicsFormat: GraphicsFormat,
    depthBufferBits: int,
    msaaSamples: int,
    rest: nat)

  /** What the pipeline tells a pass about the camera being rendered. */
  datatype CameraData = CameraData(
    cameraType: CameraType,
    colorTarget: RT,           // renderer.cameraColorTargetHandle
    depthTarget: RT,           // renderer.cameraDepthTargetHandle
    targetDescriptor: Descriptor)

  /** A request to RenderingUtils.ReAllocateIfNeeded, recorded and not interpreted. */
  datatype AllocRequest = AllocRequest(
    desc: Descriptor,
    filter: FilterMode,
    wrap: WrapMode,
    isShadowMap: bool,
    anisoLevel: int,
    mipMapBias: int,
    name: string)

  /** A RenderQueueRange: the inclusive interval of render-queue values a draw accepts. */
  datatype RenderQueueRange = RenderQueueRange(lowerBound: int, upperBound: int)

  /** The highest queue Unity counts as opaque, and the highest queue of all. */
  const OpaqueQueueMax := 2500
  const QueueMax := 5000

  /** RenderQueueRange.all and RenderQueueRange.transparent. */
  const AllQueues := RenderQueueRange(0, QueueMax)
  const TransparentQueues := RenderQueueRange(OpaqueQueueMax + 1, QueueMax)

  predicate InRange(r: RenderQueueRange, queue: int) {
    r.lowerBound <= queue <= r.upperBound
  }

  /** A Material: the shader it was made from and its enabled keywords. */
  datatype Material = Material(shader: string, keywords: set<string>)

  /** `new Material(shader)`: a material starts with no keyword enabled. */
  function NewMaterial(shader: string): (m: Material)
    ensures m.shader == shader && m.keywords == {}
  {
    Material(shader, {})
  }

  function EnableKeyword(m: Material, keyword: string): (r: Material)
    ensures keyword in r.keywords
    ensures r.shader == m.shader
    ensures forall k :: k != keyword ==> (k in r.keywords <==> k in m.keywords)
  {
    m.(keywords := m.keywords + {keyword})
  }

  function DisableKeyword(m: Material, keyword: string): (r: Material)
    ensures keyword !in r.keywords
    ensures r.shader == m.shader
    ensures forall k :: k != keyword ==> (k in r.keywords <==> k in m.keywords)
  {
    m.(keywords := m.keywords - {keyword})
  }

  /** Float constants the feature passes to the engine, kept as tags. */
  datatype ClearColor = TransparentBlack                 // Color.clear
  datatype ScaleBias = FullSourceNoBias                  // Vector4(1, 1, 0, 0)
  datatype ViewportScale = VectorOne                     // Vector2.one

  /**
   * One recorded command. `None` in a target position is a null RTHandle
   * passed to the engine.
   */
  datatype Command =
    | SetTargets(color: Option<RT>, depth: Option<RT>)     // cmd.SetRenderTarget(color, depth)
    | SetColorTarget(target: Option<RT>)                   // cmd.SetRenderTarget(color)
    | ClearTarget(clearDepth: bool, clearColor: bool, background: ClearColor)
    | BlitDepth(source: RT, scaleBias: ScaleBias, depthMaterial: Material, depthPass: int)
    | DrawFiltered(queueRange: RenderQueueRange, layerMask: int)
    | Composite(lowRes: Option<RT>, viewport: ViewportScale, blitMaterial: Material, blitPass: int)

  /** The command writes pixels into whatever targets are bound. */
  predicate Draws(c: Command) {
    c.ClearTarget? || c.BlitDepth? || c.DrawFiltered? || c.Composite?
  }

  /**
   * The handles a command buffer has bound: the colour handle and the handle
   * bound separately as depth (`None` when none was given).
   */
  datatype Binding = Binding(color: Option<RT>, depth: Option<RT>)

  /**
   * The binding after `c` runs with `b` bound. Binding a colour target alone
   * binds no separate depth handle; whatever depth surface the colour texture
   * itself carries is not tracked.
   */
  function Bind(b: Binding, c: Command): Binding {
    match c
    case SetTargets(color, depth) => Binding(color, depth)
    case SetColorTarget(color) => Binding(color, None)
    case _ => b
  }

  /** `r[i]` is the binding in effect while `trace[i]` runs, starting from `b`. */
  function Bindings(trace: seq<Command>, b: Binding): (r: seq<Binding>)
    ensures |r| == |trace|
    decreases |trace|
  {
    if |trace| == 0 then [] else [b] + Bindings(trace[1..], Bind(b, trace[0]))
  }

  /** The binding left in effect once the whole trace has run. */
  function Final(trace: seq<Command>, b: Binding): Binding
    decreases |trace|
  {
    if |trace| == 0 then b else Final(trace[1..], Bind(b, trace[0]))
  }

  /** Bindings is the step-by-step replay of Bind: each command sees what its predecessor left. */
  lemma {:induction false} BindingsReplay(trace: seq<Command>, b: Binding)
    ensures |trace| > 0 ==> Bindings(trace, b)[0] == b
    ensures forall i :: 0 < i < |trace| ==>
      Bindings(trace, b)[i] == Bind(Bindings(trace, b)[i - 1], trace[i - 1])
    ensures |trace| > 0 ==>
      Final(trace, b) == Bind(Bindings(trace, b)[|trace| - 1], trace[|trace| - 1])
    decreases |trace|
  {
    if |trace| > 0 {
      var rest := Bindings(trace[1..], Bind(b, trace[0]));
      BindingsReplay(trace[1..], Bind(b, trace[0]));
      assert Bindings(trace, b) == [b] + rest;
      forall i | 1 < i < |trace|
        ensures Bindings(trace, b)[i] == Bind(Bindings(trace, b)[i - 1], trace[i - 1])
      {
        assert trace[1..][i - 2] == trace[i - 1];
      }
    }
  }

  /** Euclidean division of a non-negative dividend brackets it between consecutive multiples. */
  lemma NatDivBounds(a: int, b: int)
    requires a >= 0 && b > 0
    ensures 0 <= a / b && (a / b) * b <= a < (a / b) * b + b
  {
    assert a == b * (a / b) + a % b;
  }

  /** C#'s `/` on int: the quotient truncated toward zero. */
  function TruncDiv(a: int, b: int): (q: int)
    requires b > 0
    ensures a >= 0 ==> 0 <= q && q * b <= a < q * b + b
    ensures a < 0 ==> q <= 0 && q * b - b < a <= q * b
  {
    if a >= 0 then NatDivBounds(a, b); a / b
    else NatDivBounds(-a, b); -((-a) / b)
  }
}
