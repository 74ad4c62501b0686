/** The feature's serialised settings. */
module Config {

  /** DOWN_SAMPLING, whose underlying integer is the factor both dimensions are divided by. */
  datatype DownSampling = Half | Quarter

  function Factor(d: DownSampling): (f: int)
    ensures f == 2 || f == 4
    ensures f == 2 <==> d == Half
  {
    match d
    case Half => 2
    case Quarter => 4
  }

  /** RenderPassEvent.BeforeRenderingTransparents. */
  const BeforeRenderingTransparents := 450

  /**
   * The Settings object. It is a reference shared by the feature and its pass,
   * so an edit made through the feature is seen by the pass's next Execute.
   */
  datatype Settings = Settings(
    renderPassEvent: int,
    downsampling: DownSampling,
    layerMask: int,
    applyToOpaque: bool,
    blurComposite: bool)

  const DefaultSettings := Settings(BeforeRenderingTransparents, Half, 0, false, false)
}
