# Low-resolution render feature, modelled in Dafny

This project models `LowResolutionRenderFeature`, a Universal Render Pipeline renderer
feature. The feature draws a filtered subset of the scene into a pair of render targets
at half or quarter resolution. It then composites that buffer back onto the camera's
colour target. The model treats the feature and its `LowResolutionRenderPass` as
immutable records with `Option` fields standing in for nullable references. Every
callback is a pure function that returns the new state. `Execute` also returns the
command buffer it records, as a `seq<Command>`.

Modules:

- `Wrappers`: `Option` (a nullable reference) and `Result` (a call that may throw).
- `Engine`: the engine-side vocabulary. It holds opaque `RT` handles and materials with
  keyword sets, `RenderTextureDescriptor` reduced to the fields the feature touches,
  render-queue ranges, and the abstract commands. It also defines the command-buffer
  binding semantics (`Bind`, `Bindings`, `Final`), which say where each recorded draw
  lands, and C#'s truncating integer division (`TruncDiv`).
- `Config`: `DOWN_SAMPLING` and the `Settings` object.
- `LowResolutionPass`: the pass's constructor, `GetRenderQueueRange`, `Setup`,
  `Execute`, `OnCameraCleanup` and `Dispose`, with lemmas about the traces.
- `LowResolutionFeature`: `Create`, the descriptor computation of `SetupRenderPasses`,
  and `Dispose`. It also replays whole sessions of callbacks (`Step`, `Run`) and proves
  that materials never leak and that the layer mask stays fixed.

Notable behaviours of the code:

- There is no persisted global on/off flag.
- There is no main-camera check. Only `cameraType == Game` selects the low-resolution
  path, and every other camera type takes the pass-through path.
- There is no override and restore of a screen-size shader parameter.
- The downsampled size is not clamped to at least 1 (`NoLowerClamp`).
- The depth target is requested with graphics format `None`. It does not share the
  colour format.
- Before compositing, the code binds the camera colour target alone. The camera depth
  handle is not rebound, before the composite or after it (`GameCameraTargets`).
- There is no null-material guard. The case where the shader lookup fails is not
  modelled (see "## Left out").

Two null dereferences in this file are modelled as a `NullReference` fault: feature
`Dispose` and `SetupRenderPasses` call through the pass field when `Create` has not run.
`AddRenderPasses` would enqueue that null pass, and the pipeline would then call into it.
In `Step`, the `NullReference` fault for rendering or cleaning up a camera with no pass
stands in for that engine-side call. The explicit `ArgumentNullException` in
`OnCameraCleanup` is the `ArgumentNull` fault.

## Model

| member | source | states |
|---|---|---|
| Config.Factor | Runtime/LowResolutionRenderFeature.cs:16-20 | The downsampling factor is 2 for Half and 4 for Quarter, and nothing else. |
| Engine.TruncDiv | Runtime/LowResolutionRenderFeature.cs:171-172 | C# integer division: for a non-negative size the quotient q satisfies q*k <= size < q*k + k, and negative sizes round toward zero. |
| LowResolutionPass.GetRenderQueueRange | Runtime/LowResolutionRenderFeature.cs:59-65 | A queue in 0..5000 is drawn iff it is a transparent queue (above 2500) or opaque objects are requested as well. |
| LowResolutionPass.NewPass | Runtime/LowResolutionRenderFeature.cs:49-57 | The constructor freezes the layer mask and the pass event from the settings and starts with no targets and no materials. |
| LowResolutionPass.Setup | Runtime/LowResolutionRenderFeature.cs:68-72 | Setup stores exactly the two given handles and changes nothing else. |
| LowResolutionPass.ApplyBlur | Runtime/LowResolutionRenderFeature.cs:80-83 | BLUR_OUTPUT is enabled iff blur is set, and every other keyword is left as it was. |
| LowResolutionPass.Execute | Runtime/LowResolutionRenderFeature.cs:74-137 | Execute creates exactly the materials that were absent and keeps existing ones. Afterwards BLUR_OUTPUT is on iff BlurComposite. The queue range follows the current settings, while the layer mask and targets are unchanged. |
| LowResolutionPass.GameCameraTrace | Runtime/LowResolutionRenderFeature.cs:87-132 | A Game camera records exactly six commands: bind the low-res pair, clear to transparent black, copy depth with the unit scale-bias, draw filtered, bind the camera colour only, composite. |
| LowResolutionPass.OtherCameraTrace | Runtime/LowResolutionRenderFeature.cs:100-115 | Any other camera records only a bind of its native colour and depth and the filtered draw, with no clear, depth copy or composite. |
| LowResolutionPass.LowResolutionPathIffGame | Runtime/LowResolutionRenderFeature.cs:87-118 | A composite, and likewise a clear, appears in the trace iff the camera is a Game camera. |
| LowResolutionPass.GameCameraTargets | Runtime/LowResolutionRenderFeature.cs:93-131 | Whatever was bound before, a Game camera's clear, depth copy and draw land in the low-res pair. The composite lands in the camera colour target bound alone, which is what stays bound: the camera depth handle is not rebound. |
| LowResolutionPass.OtherCameraTargets | Runtime/LowResolutionRenderFeature.cs:103-115 | Any other camera's draw lands in its own colour and depth targets, which stay bound. |
| LowResolutionPass.SecondExecuteCreatesNothing | Runtime/LowResolutionRenderFeature.cs:77-78 | A second Execute creates no material and keeps the first Execute's materials. |
| LowResolutionPass.ExecuteSettles | Runtime/LowResolutionRenderFeature.cs:77-85 | Under unchanged settings a further Execute leaves the pass state exactly as it was. |
| LowResolutionPass.FilteringFollowsLatestSettings | Runtime/LowResolutionRenderFeature.cs:54-85 | After settings change between calls, the draw uses the latest settings' queue range and the constructor's layer mask. |
| LowResolutionPass.OnCameraCleanup | Runtime/LowResolutionRenderFeature.cs:139-145 | A null command buffer throws ArgumentNull. Otherwise both handles are cleared and the materials and filtering are untouched. |
| LowResolutionPass.CleanupUndoesSetup | Runtime/LowResolutionRenderFeature.cs:139-145 | Cleanup after Setup returns a pass that had no targets to its prior state. |
| LowResolutionPass.Dispose | Runtime/LowResolutionRenderFeature.cs:147-152 | Dispose destroys exactly the materials present, nulls both material fields and changes nothing else. |
| LowResolutionFeature.Create | Runtime/LowResolutionRenderFeature.cs:155-159 | A pass is constructed from the settings only when none exists, and an existing feature is returned unchanged. |
| LowResolutionFeature.CreateIdempotent | Runtime/LowResolutionRenderFeature.cs:155-159 | Calling Create twice is the same as calling it once. |
| LowResolutionFeature.LowResolutionDescriptors | Runtime/LowResolutionRenderFeature.cs:168-182 | Both descriptors get the camera size divided by the factor, truncated and unclamped. Colour has four 16-bit float channels and no depth bits. Depth has format None, one sample and the camera's depth bits. |
| LowResolutionFeature.SetupRenderPasses | Runtime/LowResolutionRenderFeature.cs:166-187 | The depth target is requested first (Point, Clamp), then colour (Bilinear, Clamp), with equal sizes. The handles are stored and handed to the pass, and the call throws NullReference iff no pass exists. |
| LowResolutionFeature.Dispose | Runtime/LowResolutionRenderFeature.cs:189-197 | With no pass it throws before changing anything. Otherwise it destroys exactly the pass's own copyDepth and blit materials, drops the pass, releases each handle iff present (colour first) and nulls both. |
| LowResolutionFeature.NoMaterialLeak | Runtime/LowResolutionRenderFeature.cs:77-152 | Over any session, materials created plus those owned at the start equal materials destroyed plus those owned at the end. |
| LowResolutionFeature.AtMostTwoMaterialsUntilDispose | Runtime/LowResolutionRenderFeature.cs:76-78 | In a session without Dispose, nothing is destroyed and at most two materials are ever created, however many cameras render. |
| LowResolutionFeature.LayerMaskFixedAtConstruction | Runtime/LowResolutionRenderFeature.cs:54-85 | Once the pass exists and until Dispose, every filtered draw uses the constructor's layer mask, whatever the settings are edited to. |
| LowResolutionFeature.DisposeThenCreateIsClean | Runtime/LowResolutionRenderFeature.cs:189-197 | Dispose followed by Create gives a fresh pass with no handles and no materials. |
| LowResolutionFeature.FullHdHalf | Runtime/LowResolutionRenderFeature.cs:170-172 | A 1920x1080 camera at Half resolution gets two 960x540 targets. |
| LowResolutionFeature.DefaultsDrawTransparentOnly | Runtime/LowResolutionRenderFeature.cs:25-29 | With the default settings, the pass runs before transparents and every filtered draw uses layer mask 0 and excludes opaque queues. |
| LowResolutionFeature.NoLowerClamp | Runtime/LowResolutionRenderFeature.cs:170-172 | A one-pixel-wide camera gets zero-wide targets at either factor. |

## Left out

- GPU execution and the engine's internals are not modelled. This covers
  `CommandBufferPool`, `context.ExecuteCommandBuffer`, `context.CreateRendererList` and
  `Blitter`'s shader work. A blit or draw is one abstract command.
- The begin and end samples that `ProfilingScope` records are left out of the traces.
  They bracket the whole trace and carry no logic.
- `AddRenderPasses` is not modelled. It only enqueues the pass with the scheduler.
- The internals of `RenderingUtils.ReAllocateIfNeeded` are not modelled. The model
  records the descriptor, filter, wrap mode and name that are requested. The handle the
  allocator leaves in each field is a parameter of `SetupRenderPasses`, and nothing is
  claimed about when reallocation happens.
- `Shader.Find` is not modelled, and the model assumes it finds both shaders. When it
  returns null, the engine's `Material` constructor throws and `Execute` records nothing.
  A created material is a token holding its shader name.
- Sorting criteria (`CommonTransparent`), the shader tag list and
  `PerObjectData.None` are not recorded. They are constant configuration handed to
  the engine.
- Float constants (`Color.clear`, the scale-bias `(1,1,0,0)`, `Vector2.one`) are tags,
  not numbers.
- The base class's `ResetTarget` and `profilingSampler` are not modelled, and neither
  are the side effects of Unity's descriptor property setters. One such side effect is
  that setting `depthBufferBits` also updates the depth-stencil format.
- LowResolutionPass.GameCameraTargets: a binding records only the handles passed to
  `SetRenderTarget`. Whether the camera colour texture carries its own depth surface,
  which the one-argument overload would then bind, is decided outside this file and not
  tracked. The lemma promises only that no separate depth handle, and in particular not
  the camera depth handle, is bound.
- LowResolutionPass.Execute: the `Settings` object that the feature and the pass share
  by reference is passed to `Execute` as the feature's current settings value. The
  model does not cover the engine replacing that object during deserialisation.
