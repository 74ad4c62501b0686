/**
 * LowResolutionRenderFeature: owns the settings, the pass and the two
 * render-target handles. Besides the feature's own operations, this module
 * replays a whole session of pipeline callbacks and proves what holds across it.
 */
module LowResolutionFeature {
  import opened Wrappers
  import opened Engine
  import opened Config
  import LowResolutionPass

  type Pass = LowResolutionPass.Pass

  /** Both targets are allocated under this one name. */
  const RenderTargetName := "_LowResolutionTransparent"

  datatype Feature = Feature(
    settings: Settings,
    pass: Option<Pass>,
    colorHandle: Option<RT>,
    depthHandle: Option<RT>)

  /** A freshly deserialised feature: nothing constructed or allocated yet. */
  function Fresh(s: Settings): Feature {
    Feature(s, None, None, None)
  }

  /** Materials owned through the feature's pass. */
  function LiveMaterials(f: Feature): (n: nat)
    ensures n <= 2
  {
    if f.pass.None? then 0 else LowResolutionPass.Live(f.pass.value)
  }

  /** Constructs the pass only when there is none. */
  function Create(f: Feature): (r: Feature)
    ensures r.pass.Some?
    ensures f.pass.Some? ==> r == f
    ensures f.pass.None? ==> r == f.(pass := Some(LowResolutionPass.NewPass(f.settings)))
  {
    if f.pass.None? then f.(pass := Some(LowResolutionPass.NewPass(f.settings))) else f
  }

  /**
   * The two descriptors requested from the camera's: both divide width and
   * height by the factor (C# integer division, no lower clamp). The depth
   * descriptor is copied before depthBufferBits is zeroed, so it keeps the
   * camera's depth bits; it has one sample and no colour format. The colour
   * descriptor uses four 16-bit float channels, no depth bits, and the
   * camera's sample count.
   */
  function LowResolutionDescriptors(cam: Descriptor, d: DownSampling): (r: (Descriptor, Descriptor))
    ensures var (depth, color) := r;
      && depth.width == color.width == TruncDiv(cam.width, Factor(d))
      && depth.height == color.height == TruncDiv(cam.height, Factor(d))
      && color.graphicsFormat == R16G16B16A16SFloat && color.depthBufferBits == 0
      && color.msaaSamples == cam.msaaSamples
      && depth.graphicsFormat == FormatNone && depth.depthBufferBits == cam.depthBufferBits
      && depth.msaaSamples == 1
      && depth.rest == color.rest == cam.rest
    ensures var (depth, color) := r;
      cam.width >= 0 ==> depth.width * Factor(d) <= cam.width < (depth.width + 1) * Factor(d)
    ensures var (depth, color) := r;
      cam.height >= 0 ==> depth.height * Factor(d) <= cam.height < (depth.height + 1) * Factor(d)
  {
    var k := Factor(d);
    var desc := cam.(width := TruncDiv(cam.width, k), height := TruncDiv(cam.height, k),
                     graphicsFormat := R16G16B16A16SFloat);
    var depthDesc := desc.(msaaSamples := 1, graphicsFormat := FormatNone);
    (depthDesc, desc.(depthBufferBits := 0))
  }

  /** What SetupRenderPasses leaves behind: the new state, the requests it made, and whether it threw. */
  datatype SetupOutcome = SetupOutcome(feature: Feature, requests: seq<AllocRequest>, fault: Option<Fault>)

  /**
   * SetupRenderPasses: requests the depth target (Point filter), then the
   * colour target (Bilinear), both clamped; the handles the allocator leaves
   * behind are `depthAllocated` and `colorAllocated`. It then hands both to
   * the pass, which throws if no pass was created — after the requests.
   */
  function SetupRenderPasses(f: Feature, cam: CameraData, depthAllocated: RT, colorAllocated: RT): (r: SetupOutcome)
    ensures |r.requests| == 2
    ensures var (depthDesc, colorDesc) := LowResolutionDescriptors(cam.targetDescriptor, f.settings.downsampling);
      && r.requests[0] == AllocRequest(depthDesc, Point, Clamp, false, 1, 0, RenderTargetName)
      && r.requests[1] == AllocRequest(colorDesc, Bilinear, Clamp, false, 1, 0, RenderTargetName)
    ensures r.requests[0].desc.width == r.requests[1].desc.width
    ensures r.requests[0].desc.height == r.requests[1].desc.height
    ensures r.feature.colorHandle == Some(colorAllocated) && r.feature.depthHandle == Some(depthAllocated)
    ensures r.fault.Some? <==> f.pass.None?
    ensures r.fault.Some? ==> r.fault.value == NullReference && r.feature.pass.None?
    ensures f.pass.Some? ==>
      r.feature.pass == Some(LowResolutionPass.Setup(f.pass.value, Some(colorAllocated), Some(depthAllocated)))
    ensures r.feature.settings == f.settings
  {
    var descs := LowResolutionDescriptors(cam.targetDescriptor, f.settings.downsampling);
    var depthDesc := descs.0;
    var colorDesc := descs.1;
    var requests := [ AllocRequest(depthDesc, Point, Clamp, false, 1, 0, RenderTargetName),
                      AllocRequest(colorDesc, Bilinear, Clamp, false, 1, 0, RenderTargetName) ];
    var withHandles := f.(colorHandle := Some(colorAllocated), depthHandle := Some(depthAllocated));
    if f.pass.None? then SetupOutcome(withHandles, requests, Some(NullReference))
    else
      var p := LowResolutionPass.Setup(f.pass.value, Some(colorAllocated), Some(depthAllocated));
      SetupOutcome(withHandles.(pass := Some(p)), requests, None)
  }

  /** What Dispose leaves behind: the new state, destroyed materials, released handles, and whether it threw. */
  datatype DisposeOutcome = DisposeOutcome(
    feature: Feature,
    destroyed: seq<Material>,
    released: seq<RT>,
    fault: Option<Fault>)

  /**
   * Dispose: disposes the pass (throwing at once if there is none), drops it,
   * releases the colour handle then the depth handle where present, and nulls both.
   */
  function Dispose(f: Feature): (r: DisposeOutcome)
    ensures r.fault.Some? <==> f.pass.None?
    ensures r.fault.Some? ==>
      r.fault.value == NullReference && r.feature == f && r.destroyed == [] && r.released == []
    ensures r.fault.None? ==> r.feature == Fresh(f.settings)
    ensures r.fault.None? ==> |r.destroyed| == LiveMaterials(f)
    ensures r.fault.None? ==> forall m :: m in r.destroyed <==>
      Some(m) == f.pass.value.copyDepth || Some(m) == f.pass.value.blitMaterial
    ensures r.fault.None? ==>
      forall h :: h in r.released <==> Some(h) == f.colorHandle || Some(h) == f.depthHandle
    ensures r.fault.None? ==>
      |r.released| == |Present(f.colorHandle)| + |Present(f.depthHandle)|
    ensures r.fault.None? && f.colorHandle.Some? ==> r.released[0] == f.colorHandle.value
  {
    if f.pass.None? then DisposeOutcome(f, [], [], Some(NullReference))
    else
      var d := LowResolutionPass.Dispose(f.pass.value);
      var released := Present(f.colorHandle) + Present(f.depthHandle);
      assert forall h :: h in released <==> Some(h) == f.colorHandle || Some(h) == f.depthHandle;
      DisposeOutcome(Feature(f.settings, None, None, None), d.destroyed, released, None)
  }

  // ---------------------------------------------------------------- sessions

  /** A callback the pipeline (or the inspector) makes on the feature. */
  datatype Event =
    | OnCreate
    | OnEditSettings(newSettings: Settings)
    | OnSetupFrame(camera: CameraData, depthAllocated: RT, colorAllocated: RT)
    | OnRenderCamera(camera: CameraData)
    | OnCameraCleanup(cmd: Option<CommandBuffer>)
    | OnDispose

  /** Everything a session hands to the engine, in order. */
  datatype Log = Log(
    created: seq<string>,
    destroyed: seq<Material>,
    released: seq<RT>,
    requests: seq<AllocRequest>,
    commands: seq<Command>,
    faults: seq<Fault>)

  const EmptyLog := Log([], [], [], [], [], [])

  function Concat(a: Log, b: Log): Log {
    Log(a.created + b.created, a.destroyed + b.destroyed, a.released + b.released,
        a.requests + b.requests, a.commands + b.commands, a.faults + b.faults)
  }

  /** One callback. A pass the feature never created is a null reference when called. */
  function Step(f: Feature, e: Event): (Feature, Log) {
    match e
    case OnCreate => (Create(f), EmptyLog)
    case OnEditSettings(s) => (f.(settings := s), EmptyLog)
    case OnSetupFrame(cam, d, c) =>
      var o := SetupRenderPasses(f, cam, d, c);
      (o.feature, EmptyLog.(requests := o.requests, faults := Present(o.fault)))
    case OnRenderCamera(cam) =>
      if f.pass.None? then (f, EmptyLog.(faults := [NullReference]))
      else
        var x := LowResolutionPass.Execute(f.pass.value, f.settings, cam);
        (f.(pass := Some(x.pass)), EmptyLog.(created := x.created, commands := x.commands))
    case OnCameraCleanup(cmd) =>
      if f.pass.None? then (f, EmptyLog.(faults := [NullReference]))
      else
        (match LowResolutionPass.OnCameraCleanup(f.pass.value, cmd)
         case Success(p) => (f.(pass := Some(p)), EmptyLog)
         case Failure(err) => (f, EmptyLog.(faults := [err])))
    case OnDispose =>
      var o := Dispose(f);
      (o.feature, EmptyLog.(destroyed := o.destroyed, released := o.released, faults := Present(o.fault)))
  }

  /** A whole session of callbacks. */
  function Run(f: Feature, events: seq<Event>): (Feature, Log)
    decreases |events|
  {
    if |events| == 0 then (f, EmptyLog)
    else
      var (f1, log1) := Step(f, events[0]);
      var (f2, log2) := Run(f1, events[1..]);
      (f2, Concat(log1, log2))
  }

  /** One callback keeps the material ledger: created + owned before == destroyed + owned after. */
  lemma StepLedger(f: Feature, e: Event)
    ensures var (f1, log) := Step(f, e);
      |log.created| + LiveMaterials(f) == |log.destroyed| + LiveMaterials(f1)
  {
  }

  /**
   * No material is ever leaked: across any session, every material
   * constructed is either destroyed or still owned by the pass at the end.
   */
  lemma {:induction false} NoMaterialLeak(f: Feature, events: seq<Event>)
    ensures var (g, log) := Run(f, events);
      |log.created| + LiveMaterials(f) == |log.destroyed| + LiveMaterials(g)
    decreases |events|
  {
    if |events| > 0 {
      StepLedger(f, events[0]);
      var (f1, _) := Step(f, events[0]);
      NoMaterialLeak(f1, events[1..]);
    }
  }

  predicate NoDispose(events: seq<Event>) {
    forall i :: 0 <= i < |events| ==> !events[i].OnDispose?
  }

  /** Between disposals at most two materials are constructed, however many cameras render. */
  lemma {:induction false} AtMostTwoMaterialsUntilDispose(f: Feature, events: seq<Event>)
    requires NoDispose(events)
    ensures var (g, log) := Run(f, events);
      log.destroyed == [] && |log.created| + LiveMaterials(f) <= 2
    decreases |events|
  {
    if |events| > 0 {
      var (f1, log1) := Step(f, events[0]);
      StepLedger(f, events[0]);
      assert NoDispose(events[1..]) by {
        forall i | 0 <= i < |events[1..]| ensures !events[1..][i].OnDispose? {
          assert events[1..][i] == events[i + 1];
        }
      }
      AtMostTwoMaterialsUntilDispose(f1, events[1..]);
      NoMaterialLeak(f1, events[1..]);
    }
  }

  predicate DrawsWithMask(commands: seq<Command>, mask: int) {
    forall i :: 0 <= i < |commands| && commands[i].DrawFiltered? ==> commands[i].layerMask == mask
  }

  lemma DrawsWithMaskConcat(a: seq<Command>, b: seq<Command>, mask: int)
    requires DrawsWithMask(a, mask) && DrawsWithMask(b, mask)
    ensures DrawsWithMask(a + b, mask)
  {
    forall i | 0 <= i < |a + b| && (a + b)[i].DrawFiltered?
      ensures (a + b)[i].layerMask == mask
    {
      if i >= |a| { assert (a + b)[i] == b[i - |a|]; }
    }
  }

  /**
   * Once the pass exists, the layer mask it was constructed with is the one
   * every filtered draw uses until the feature is disposed, whatever the
   * settings are edited to in between.
   */
  lemma {:induction false} LayerMaskFixedAtConstruction(f: Feature, events: seq<Event>)
    requires f.pass.Some? && NoDispose(events)
    ensures var (g, log) := Run(f, events);
      && g.pass.Some?
      && g.pass.value.filtering.layerMask == f.pass.value.filtering.layerMask
      && DrawsWithMask(log.commands, f.pass.value.filtering.layerMask)
    decreases |events|
  {
    var mask := f.pass.value.filtering.layerMask;
    if |events| > 0 {
      var (f1, log1) := Step(f, events[0]);
      assert f1.pass.Some? && f1.pass.value.filtering.layerMask == mask;
      assert DrawsWithMask(log1.commands, mask);
      assert NoDispose(events[1..]) by {
        forall i | 0 <= i < |events[1..]| ensures !events[1..][i].OnDispose? {
          assert events[1..][i] == events[i + 1];
        }
      }
      LayerMaskFixedAtConstruction(f1, events[1..]);
      var (g, log2) := Run(f1, events[1..]);
      DrawsWithMaskConcat(log1.commands, log2.commands, mask);
    }
  }

  /** Create is idempotent: a second call changes nothing. */
  lemma CreateIdempotent(f: Feature)
    ensures Create(Create(f)) == Create(f)
  {
  }

  /** Dispose then Create starts again from the clean lazy-initialisation state. */
  lemma DisposeThenCreateIsClean(f: Feature)
    requires f.pass.Some?
    ensures var g := Create(Dispose(f).feature);
      && g.pass == Some(LowResolutionPass.NewPass(f.settings))
      && g.colorHandle.None? && g.depthHandle.None?
      && LiveMaterials(g) == 0
  {
  }

  /** A 1920x1080 camera at Half resolution gets two 960x540 targets. */
  lemma FullHdHalf(cam: Descriptor)
    requires cam.width == 1920 && cam.height == 1080
    ensures var (depth, color) := LowResolutionDescriptors(cam, Half);
      depth.width == color.width == 960 && depth.height == color.height == 540
  {
  }

  /** A feature with the default settings draws transparent queues only, on layer mask 0. */
  lemma DefaultsDrawTransparentOnly(cam: CameraData)
    ensures var p := Create(Fresh(DefaultSettings)).pass.value;
      var x := LowResolutionPass.Execute(p, DefaultSettings, cam);
      && p.renderPassEvent == BeforeRenderingTransparents
      && forall c :: c in x.commands && c.DrawFiltered? ==>
           c.layerMask == 0 && forall q :: 0 <= q <= OpaqueQueueMax ==> !InRange(c.queueRange, q)
  {
  }

  /** Nothing clamps the size: a one-pixel-wide camera gets zero-wide targets. */
  lemma NoLowerClamp(cam: Descriptor, d: DownSampling)
    requires cam.width == 1
    ensures LowResolutionDescriptors(cam, d).0.width == 0 && LowResolutionDescriptors(cam, d).1.width == 0
  {
  }
}
