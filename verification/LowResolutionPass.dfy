/**
 * LowResolutionRenderPass: the per-camera pass. Its state is a record of the
 * fields the class keeps; each operation returns the new state, and Execute
 * also returns the commands it records and the materials it constructs.
 */
module LowResolutionPass {
  import opened Wrappers
  import opened Engine
  import opened Config

  const CopyDepthShader := "LowResolution/CopyDownsampleDepth"
  const CompositeShader := "LowResolution/CompositeLowResolution"
  const BlurKeyword := "BLUR_OUTPUT"

  /** FilteringSettings: the queue range and layer mask of the filtered draw. */
  datatype Filtering = Filtering(queueRange: RenderQueueRange, layerMask: int)

  datatype Pass = Pass(
    renderPassEvent: int,
    filtering: Filtering,
    colorRT: Option<RT>,
    depthRT: Option<RT>,
    copyDepth: Option<Material>,
    blitMaterial: Option<Material>)

  /** What one Execute produces: the new state, the shaders of the materials it constructed, the commands. */
  datatype Execution = Execution(pass: Pass, created: seq<string>, commands: seq<Command>)

  /** What Dispose produces: the new state and the materials it destroyed, in order. */
  datatype Disposal = Disposal(pass: Pass, destroyed: seq<Material>)

  /** The number of materials the pass currently owns. */
  function Live(p: Pass): (n: nat)
    ensures n <= 2
    ensures n == 0 <==> p.copyDepth.None? && p.blitMaterial.None?
  {
    |Present(p.copyDepth)| + |Present(p.blitMaterial)|
  }

  /** Transparent queues only, unless opaque objects are wanted as well. */
  function GetRenderQueueRange(opaqueAsWell: bool): (r: RenderQueueRange)
    ensures r.upperBound == QueueMax
    ensures forall queue :: 0 <= queue <= QueueMax ==>
      (InRange(r, queue) <==> opaqueAsWell || queue > OpaqueQueueMax)
  {
    if opaqueAsWell then AllQueues else TransparentQueues
  }

  /** The constructor: the layer mask is frozen here; no target and no material yet. */
  function NewPass(s: Settings): (p: Pass)
    ensures p.renderPassEvent == s.renderPassEvent
    ensures p.filtering.layerMask == s.layerMask
    ensures p.filtering.queueRange == GetRenderQueueRange(s.applyToOpaque)
    ensures p.colorRT.None? && p.depthRT.None?
    ensures Live(p) == 0
  {
    Pass(s.renderPassEvent, Filtering(GetRenderQueueRange(s.applyToOpaque), s.layerMask),
         None, None, None, None)
  }

  /** Stores exactly the two handles and nothing else. */
  function Setup(p: Pass, colorRT: Option<RT>, depthRT: Option<RT>): (r: Pass)
    ensures r.colorRT == colorRT && r.depthRT == depthRT
    ensures r.(colorRT := p.colorRT, depthRT := p.depthRT) == p
  {
    p.(colorRT := colorRT, depthRT := depthRT)
  }

  /** The blit material with BLUR_OUTPUT switched to match the setting. */
  function ApplyBlur(m: Material, blur: bool): (r: Material)
    ensures BlurKeyword in r.keywords <==> blur
    ensures r.shader == m.shader
    ensures forall k :: k != BlurKeyword ==> (k in r.keywords <==> k in m.keywords)
  {
    if blur then EnableKeyword(m, BlurKeyword) else DisableKeyword(m, BlurKeyword)
  }

  /** The commands recorded for a Game camera. */
  function GameTrace(p: Pass, cam: CameraData, copyDepth: Material, blit: Material, f: Filtering): seq<Command> {
    [ SetTargets(p.colorRT, p.depthRT),
      ClearTarget(true, true, TransparentBlack),
      BlitDepth(cam.depthTarget, FullSourceNoBias, copyDepth, 0),
      DrawFiltered(f.queueRange, f.layerMask),
      SetColorTarget(Some(cam.colorTarget)),
      Composite(p.colorRT, VectorOne, blit, 0) ]
  }

  /** The commands recorded for any other camera: its own targets, then the draw. */
  function OtherTrace(cam: CameraData, f: Filtering): seq<Command> {
    [ SetTargets(Some(cam.colorTarget), Some(cam.depthTarget)),
      DrawFiltered(f.queueRange, f.layerMask) ]
  }

  /**
   * Execute: creates each material only if absent, sets BLUR_OUTPUT from the
   * current settings, recomputes the queue range from the current settings
   * (the layer mask stays the constructor's), and records the commands for
   * the camera's type.
   */
  function Execute(p: Pass, s: Settings, cam: CameraData): (r: Execution)
    ensures r.pass.copyDepth.Some? && r.pass.blitMaterial.Some?
    ensures Live(r.pass) == 2
    ensures |r.created| + Live(p) == 2
    ensures (CopyDepthShader in r.created <==> p.copyDepth.None?)
    ensures (CompositeShader in r.created <==> p.blitMaterial.None?)
    ensures p.copyDepth.Some? ==> r.pass.copyDepth == p.copyDepth
    ensures p.blitMaterial.Some? ==> r.pass.blitMaterial.value.shader == p.blitMaterial.value.shader
    ensures r.pass.copyDepth.value.shader == CopyDepthShader || p.copyDepth.Some?
    ensures r.pass.blitMaterial.value.shader == CompositeShader || p.blitMaterial.Some?
    ensures BlurKeyword in r.pass.blitMaterial.value.keywords <==> s.blurComposite
    ensures forall k :: k != BlurKeyword ==>
      (k in r.pass.blitMaterial.value.keywords <==>
       p.blitMaterial.Some? && k in p.blitMaterial.value.keywords)
    ensures r.pass.filtering.queueRange == GetRenderQueueRange(s.applyToOpaque)
    ensures r.pass.filtering.layerMask == p.filtering.layerMask
    ensures r.pass.colorRT == p.colorRT && r.pass.depthRT == p.depthRT
    ensures r.pass.renderPassEvent == p.renderPassEvent
  {
    var copyDepth := if p.copyDepth.None? then NewMaterial(CopyDepthShader) else p.copyDepth.value;
    var blit0 := if p.blitMaterial.None? then NewMaterial(CompositeShader) else p.blitMaterial.value;
    var created := (if p.copyDepth.None? then [CopyDepthShader] else [])
                 + (if p.blitMaterial.None? then [CompositeShader] else []);
    var blit := ApplyBlur(blit0, s.blurComposite);
    var filtering := p.filtering.(queueRange := GetRenderQueueRange(s.applyToOpaque));
    var commands := if cam.cameraType == Game then GameTrace(p, cam, copyDepth, blit, filtering)
                    else OtherTrace(cam, filtering);
    Execution(p.(copyDepth := Some(copyDepth), blitMaterial := Some(blit), filtering := filtering),
              created, commands)
  }

  /** Forgets both handles (without releasing them); a null command buffer throws. */
  function OnCameraCleanup(p: Pass, cmd: Option<CommandBuffer>): (r: Result<Pass, Fault>)
    ensures r.Failure? <==> cmd.None?
    ensures r.Failure? ==> r.error == ArgumentNull
    ensures r.Success? ==> r.value.colorRT.None? && r.value.depthRT.None?
    ensures r.Success? ==> r.value.copyDepth == p.copyDepth && r.value.blitMaterial == p.blitMaterial
    ensures r.Success? ==> r.value.filtering == p.filtering && r.value.renderPassEvent == p.renderPassEvent
  {
    if cmd.None? then Failure(ArgumentNull)
    else Success(p.(colorRT := None, depthRT := None))
  }

  /** Destroys whichever materials exist (destroying null is a no-op) and nulls both fields. */
  function Dispose(p: Pass): (r: Disposal)
    ensures r.pass.copyDepth.None? && r.pass.blitMaterial.None?
    ensures |r.destroyed| == Live(p)
    ensures forall m :: m in r.destroyed <==> Some(m) == p.copyDepth || Some(m) == p.blitMaterial
    ensures r.pass.filtering == p.filtering && r.pass.renderPassEvent == p.renderPassEvent
    ensures r.pass.colorRT == p.colorRT && r.pass.depthRT == p.depthRT
  {
    Disposal(p.(copyDepth := None, blitMaterial := None),
             Present(p.copyDepth) + Present(p.blitMaterial))
  }

  // ---------------------------------------------------------------- properties

  /**
   * A Game camera records exactly: bind the low-resolution pair, clear both to
   * transparent black, copy the camera depth with the unit scale-bias, the
   * filtered draw, bind the camera colour target alone, composite.
   */
  lemma GameCameraTrace(p: Pass, s: Settings, cam: CameraData)
    requires cam.cameraType == Game
    ensures var r := Execute(p, s, cam);
      r.commands ==
        [ SetTargets(p.colorRT, p.depthRT),
          ClearTarget(true, true, TransparentBlack),
          BlitDepth(cam.depthTarget, FullSourceNoBias, r.pass.copyDepth.value, 0),
          DrawFiltered(GetRenderQueueRange(s.applyToOpaque), p.filtering.layerMask),
          SetColorTarget(Some(cam.colorTarget)),
          Composite(p.colorRT, VectorOne, r.pass.blitMaterial.value, 0) ]
  {
  }

  /** Any other camera records only a bind of its own targets and the filtered draw. */
  lemma OtherCameraTrace(p: Pass, s: Settings, cam: CameraData)
    requires cam.cameraType != Game
    ensures var r := Execute(p, s, cam);
      && r.commands == [ SetTargets(Some(cam.colorTarget), Some(cam.depthTarget)),
                         DrawFiltered(GetRenderQueueRange(s.applyToOpaque), p.filtering.layerMask) ]
      && forall c :: c in r.commands ==> !c.ClearTarget? && !c.BlitDepth? && !c.Composite?
  {
  }

  /** A clear, depth copy or composite is recorded exactly for Game cameras. */
  lemma LowResolutionPathIffGame(p: Pass, s: Settings, cam: CameraData)
    ensures var r := Execute(p, s, cam);
      (exists i :: 0 <= i < |r.commands| && r.commands[i].Composite?) <==> cam.cameraType == Game
    ensures var r := Execute(p, s, cam);
      (exists i :: 0 <= i < |r.commands| && r.commands[i].ClearTarget?) <==> cam.cameraType == Game
  {
    var r := Execute(p, s, cam);
    if cam.cameraType == Game {
      assert r.commands[5].Composite? && r.commands[1].ClearTarget?;
    }
  }

  /**
   * Where a Game camera's commands land, whatever was bound before: the clear,
   * the depth copy and the filtered draw go to the pass's low-resolution pair,
   * the composite goes to the camera colour target bound alone, and that is
   * also what stays bound afterwards: the camera depth handle is not rebound.
   */
  lemma {:induction false} GameCameraTargets(p: Pass, s: Settings, cam: CameraData, before: Binding)
    requires cam.cameraType == Game
    ensures var tr := Execute(p, s, cam).commands;
      var bs := Bindings(tr, before);
      && (forall i :: 0 <= i < 4 && Draws(tr[i]) ==> bs[i] == Binding(p.colorRT, p.depthRT))
      && bs[5] == Binding(Some(cam.colorTarget), None)
      && Final(tr, before) == Binding(Some(cam.colorTarget), None)
  {
    var tr := Execute(p, s, cam).commands;
    var bs := Bindings(tr, before);
    BindingsReplay(tr, before);
    assert bs[1] == Binding(p.colorRT, p.depthRT);
    assert bs[2] == bs[1] && bs[3] == bs[2];
    assert bs[5] == Bind(bs[4], tr[4]);
  }

  /** Any other camera draws into its own colour and depth targets, which stay bound. */
  lemma {:induction false} OtherCameraTargets(p: Pass, s: Settings, cam: CameraData, before: Binding)
    requires cam.cameraType != Game
    ensures var tr := Execute(p, s, cam).commands;
      && Bindings(tr, before)[1] == Binding(Some(cam.colorTarget), Some(cam.depthTarget))
      && Final(tr, before) == Binding(Some(cam.colorTarget), Some(cam.depthTarget))
  {
    var tr := Execute(p, s, cam).commands;
    BindingsReplay(tr, before);
  }

  /** Materials are created only when absent: a second Execute creates none and keeps the first's. */
  lemma SecondExecuteCreatesNothing(p: Pass, s1: Settings, cam1: CameraData, s2: Settings, cam2: CameraData)
    ensures var first := Execute(p, s1, cam1);
      var second := Execute(first.pass, s2, cam2);
      && second.created == []
      && second.pass.copyDepth == first.pass.copyDepth
      && second.pass.blitMaterial.value.shader == first.pass.blitMaterial.value.shader
  {
  }

  /** Executing again under the same settings leaves the pass state as it was. */
  lemma ExecuteSettles(p: Pass, s: Settings, cam1: CameraData, cam2: CameraData)
    ensures var p1 := Execute(p, s, cam1).pass;
      Execute(p1, s, cam2).pass == p1
  {
    var p1 := Execute(p, s, cam1).pass;
    var m := p1.blitMaterial.value;
    assert ApplyBlur(m, s.blurComposite).keywords == m.keywords;
  }

  /** The queue range follows the settings of the latest Execute; the layer mask never follows them. */
  lemma FilteringFollowsLatestSettings(p: Pass, s1: Settings, s2: Settings, cam1: CameraData, cam2: CameraData)
    ensures var second := Execute(Execute(p, s1, cam1).pass, s2, cam2);
      && second.pass.filtering.queueRange == GetRenderQueueRange(s2.applyToOpaque)
      && second.pass.filtering.layerMask == p.filtering.layerMask
      && forall c :: c in second.commands && c.DrawFiltered? ==>
           c.queueRange == GetRenderQueueRange(s2.applyToOpaque) && c.layerMask == p.filtering.layerMask
  {
  }

  /** Setup then OnCameraCleanup returns a target-less pass to its prior state. */
  lemma CleanupUndoesSetup(p: Pass, colorRT: Option<RT>, depthRT: Option<RT>, cmd: CommandBuffer)
    requires p.colorRT.None? && p.depthRT.None?
    ensures OnCameraCleanup(Setup(p, colorRT, depthRT), Some(cmd)) == Success(p)
  {
  }
}
