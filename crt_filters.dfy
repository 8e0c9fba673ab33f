/** `crtFilters`: the CRT pipeline. Each of the seven stages is built unless its
    option is `false`, always in the same order: rounded corners, scanlines, phosphor
    mask, bloom, curvature, vignette, colour adjustment. */
module CrtFilters {
  import opened Pixi
  import RoundedCorners
  import Scanlines
  import PhosphorMask
  import Bloom
  import Curvature
  import Vignette
  import ColorAdjustment

  /** One key of `CrtFilterPipelineOptions`: `false` switches the stage off,
      `undefined` (or a missing key) keeps the wrapper's defaults, and an options
      record is handed to the wrapper. */
  datatype StageConfig<O> = Disabled | Default | Override(options: O)

  /** `CrtFilterPipelineOptions` */
  datatype PipelineOptions = PipelineOptions(
    roundedCorners: StageConfig<RoundedCorners.Options>,
    scanlines: StageConfig<Scanlines.Options>,
    phosphorMask: StageConfig<PhosphorMask.Options>,
    bloom: StageConfig<Bloom.Options>,
    curvature: StageConfig<Curvature.Options>,
    vignette: StageConfig<Vignette.Options>,
    colorAdjustment: StageConfig<ColorAdjustment.Options>)

  /** The shader sources the wrappers import: the shared vertex shader and one
      fragment shader per stage. */
  datatype ShaderSources = ShaderSources(
    vertex: string,
    roundedCorners: string,
    scanlines: string,
    phosphorMask: string,
    bloom: string,
    curvature: string,
    vignette: string,
    colorAdjustment: string)

  datatype Stage =
    | RoundedCornersStage
    | ScanlinesStage
    | PhosphorMaskStage
    | BloomStage
    | CurvatureStage
    | VignetteStage
    | ColorAdjustmentStage

  /** The fixed order of the pipeline. */
  const StageOrder: seq<Stage> := [
    RoundedCornersStage, ScanlinesStage, PhosphorMaskStage, BloomStage,
    CurvatureStage, VignetteStage, ColorAdjustmentStage]

  /** A stage's place in `StageOrder`. */
  function Rank(stage: Stage): (r: nat)
    ensures r < |StageOrder| && StageOrder[r] == stage
  {
    match stage
    case RoundedCornersStage => 0
    case ScanlinesStage => 1
    case PhosphorMaskStage => 2
    case BloomStage => 3
    case CurvatureStage => 4
    case VignetteStage => 5
    case ColorAdjustmentStage => 6
  }

  /** An element of the returned `Filter[]`. */
  datatype Filter =
    | RoundedCornersFilter(roundedCorners: RoundedCorners.RoundedCornersFilter)
    | ScanlinesFilter(scanlines: Scanlines.ScanlinesFilter)
    | PhosphorMaskFilter(phosphorMask: PhosphorMask.PhosphorMaskFilter)
    | BloomFilter(bloom: Bloom.BloomFilter)
    | CurvatureFilter(curvature: Curvature.CurvatureFilter)
    | VignetteFilter(vignette: Vignette.VignetteFilter)
    | ColorAdjustmentFilter(colorAdjustment: ColorAdjustment.ColorAdjustmentFilter)

  function StageOf(f: Filter): Stage
  {
    match f
    case RoundedCornersFilter(_) => RoundedCornersStage
    case ScanlinesFilter(_) => ScanlinesStage
    case PhosphorMaskFilter(_) => PhosphorMaskStage
    case BloomFilter(_) => BloomStage
    case CurvatureFilter(_) => CurvatureStage
    case VignetteFilter(_) => VignetteStage
    case ColorAdjustmentFilter(_) => ColorAdjustmentStage
  }

  function Stages(filters: seq<Filter>): seq<Stage>
  {
    seq(|filters|, i requires 0 <= i < |filters| => StageOf(filters[i]))
  }

  /** The stage's option is not literally `false`. */
  predicate Enabled(options: PipelineOptions, stage: Stage)
  {
    match stage
    case RoundedCornersStage => !options.roundedCorners.Disabled?
    case ScanlinesStage => !options.scanlines.Disabled?
    case PhosphorMaskStage => !options.phosphorMask.Disabled?
    case BloomStage => !options.bloom.Disabled?
    case CurvatureStage => !options.curvature.Disabled?
    case VignetteStage => !options.vignette.Disabled?
    case ColorAdjustmentStage => !options.colorAdjustment.Disabled?
  }

  /** The enabled stages of `stages`, in their order. */
  function Select(stages: seq<Stage>, options: PipelineOptions): seq<Stage>
  {
    if stages == [] then []
    else (if Enabled(options, stages[0]) then [stages[0]] else []) + Select(stages[1..], options)
  }

  /** The stages the pipeline is made of. */
  function PipelineStages(options: PipelineOptions): seq<Stage>
  {
    Select(StageOrder, options)
  }

  /** The number of options that are literally `false`. */
  function DisabledCount(options: PipelineOptions): nat
  {
    Off(options.roundedCorners) + Off(options.scanlines) + Off(options.phosphorMask) + Off(options.bloom) +
    Off(options.curvature) + Off(options.vignette) + Off(options.colorAdjustment)
  }

  /** 1 when the option is literally `false`. */
  function Off<O>(config: StageConfig<O>): nat
  {
    if config.Disabled? then 1 else 0
  }

  /** What the wrapper's constructor receives: the options record as it is given,
      or `{}` through the parameter's default when the key is `undefined`. */
  function Argument<O>(config: StageConfig<O>, empty: O): O
  {
    match config
    case Override(o) => o
    case _ => empty
  }

  /** `f` is the filter its stage builds from `options`, over `sources`. */
  predicate Configured(f: Filter, options: PipelineOptions, sources: ShaderSources)
  {
    match f
    case RoundedCornersFilter(x) =>
      x == RoundedCorners.New(Argument(options.roundedCorners, RoundedCorners.NoOptions), sources.vertex, sources.roundedCorners)
    case ScanlinesFilter(x) =>
      var s := Scanlines.Effective(Argument(options.scanlines, Scanlines.NoOptions));
      && x.uniforms == Scanlines.UniformsOf(s)
      && x.glProgram == GlProgram(sources.vertex, sources.scanlines, Scanlines.ProgramName)
      && x.Valid()
    case PhosphorMaskFilter(x) =>
      var s := PhosphorMask.Effective(Argument(options.phosphorMask, PhosphorMask.NoOptions));
      var processed := PhosphorMask.ProcessedFragment(sources.phosphorMask, s.numSamples);
      && x.uniforms == PhosphorMask.UniformsOf(s)
      && x.glProgram == GlProgram(sources.vertex, processed.text, PhosphorMask.ProgramName)
      && x.warnings == processed.warnings
      && x.Valid()
    case BloomFilter(x) =>
      var s := Bloom.Effective(Argument(options.bloom, Bloom.NoOptions));
      && x.uniforms == Bloom.UniformsOf(s)
      && x.glProgram == GlProgram(sources.vertex, sources.bloom, Bloom.ProgramName)
      && x.Valid()
    case CurvatureFilter(x) =>
      var s := Curvature.Effective(Argument(options.curvature, Curvature.NoOptions));
      var processed := Curvature.ProcessedFragment(sources.curvature, s.multisampling);
      && x.uniforms == Curvature.UniformsOf(s)
      && x.glProgram == GlProgram(sources.vertex, processed.text, Curvature.ProgramName)
      && x.warnings == processed.warnings
      && x.Valid()
    case VignetteFilter(x) =>
      x == Vignette.New(Argument(options.vignette, Vignette.NoOptions), sources.vertex, sources.vignette)
    case ColorAdjustmentFilter(x) =>
      x == ColorAdjustment.New(Argument(options.colorAdjustment, ColorAdjustment.NoOptions), sources.vertex, sources.colorAdjustment)
  }

  /** Every filter of `filters` is configured from `options`. */
  ghost predicate AllConfigured(filters: seq<Filter>, options: PipelineOptions, sources: ShaderSources)
  {
    filters == [] ||
    (AllConfigured(filters[..|filters| - 1], options, sources) && Configured(filters[|filters| - 1], options, sources))
  }

  lemma {:induction false} AllConfiguredEach(filters: seq<Filter>, options: PipelineOptions, sources: ShaderSources)
    requires AllConfigured(filters, options, sources)
    ensures forall i | 0 <= i < |filters| :: Configured(filters[i], options, sources)
  {
    if filters != [] {
      var init := filters[..|filters| - 1];
      AllConfiguredEach(init, options, sources);
      forall i | 0 <= i < |filters| ensures Configured(filters[i], options, sources) {
        if i < |init| {
          assert filters[i] == init[i];
        }
      }
    }
  }

  /** `filters` is what the first `n` stages of the fixed order contribute. */
  ghost predicate Assembled(filters: seq<Filter>, options: PipelineOptions, sources: ShaderSources, n: nat)
    requires n <= |StageOrder|
  {
    Stages(filters) == Select(StageOrder[..n], options) && AllConfigured(filters, options, sources)
  }

  /** `crtFilters(options)`: the seven stages, each pushed unless its option is
      `false`, in the fixed order. Every input is accepted. */
  method CrtFilters(options: PipelineOptions, sources: ShaderSources) returns (filters: seq<Filter>)
    ensures Stages(filters) == PipelineStages(options)
    ensures forall i | 0 <= i < |filters| :: Configured(filters[i], options, sources)
  {
    filters := [];
    assert StageOrder[..0] == [];
    // Rounded corners first, to clip the input.
    filters := PushUnlessDisabled(filters, options, sources, RoundedCornersStage);
    // Scanlines and phosphor mask work on the flat image.
    filters := PushUnlessDisabled(filters, options, sources, ScanlinesStage);
    filters := PushUnlessDisabled(filters, options, sources, PhosphorMaskStage);
    filters := PushUnlessDisabled(filters, options, sources, BloomStage);
    // Curvature bends everything before it, scanlines included.
    filters := PushUnlessDisabled(filters, options, sources, CurvatureStage);
    filters := PushUnlessDisabled(filters, options, sources, VignetteStage);
    // Colour adjustment last.
    filters := PushUnlessDisabled(filters, options, sources, ColorAdjustmentStage);
    WholeOrder(options);
    AllConfiguredEach(filters, options, sources);
  }

  /** One `if (options.x !== false) filters.push(new X(options.x))` of the pipeline. */
  method PushUnlessDisabled(filters: seq<Filter>, options: PipelineOptions, sources: ShaderSources, stage: Stage)
    returns (r: seq<Filter>)
    requires Assembled(filters, options, sources, Rank(stage))
    ensures Assembled(r, options, sources, Rank(stage) + 1)
    ensures r == filters || (|r| == |filters| + 1 && r[..|filters|] == filters)
  {
    if Enabled(options, stage) {
      var f := Construct(options, sources, stage);
      Push(filters, f, options, sources);
      r := filters + [f];
    } else {
      Skip(filters, options, sources, stage);
      r := filters;
    }
  }

  /** `new X(options.x)` for the wrapper of `stage`. */
  method Construct(options: PipelineOptions, sources: ShaderSources, stage: Stage) returns (f: Filter)
    ensures StageOf(f) == stage && Configured(f, options, sources)
  {
    match stage
    case RoundedCornersStage =>
      f := RoundedCornersFilter(RoundedCorners.New(Argument(options.roundedCorners, RoundedCorners.NoOptions), sources.vertex, sources.roundedCorners));
    case ScanlinesStage =>
      var x := new Scanlines.ScanlinesFilter(Argument(options.scanlines, Scanlines.NoOptions), sources.vertex, sources.scanlines);
      f := ScanlinesFilter(x);
    case PhosphorMaskStage =>
      var x := new PhosphorMask.PhosphorMaskFilter(Argument(options.phosphorMask, PhosphorMask.NoOptions), sources.vertex, sources.phosphorMask);
      f := PhosphorMaskFilter(x);
    case BloomStage =>
      var x := new Bloom.BloomFilter(Argument(options.bloom, Bloom.NoOptions), sources.vertex, sources.bloom);
      f := BloomFilter(x);
    case CurvatureStage =>
      var x := new Curvature.CurvatureFilter(Argument(options.curvature, Curvature.NoOptions), sources.vertex, sources.curvature);
      f := CurvatureFilter(x);
    case VignetteStage =>
      f := VignetteFilter(Vignette.New(Argument(options.vignette, Vignette.NoOptions), sources.vertex, sources.vignette));
    case ColorAdjustmentStage =>
      f := ColorAdjustmentFilter(ColorAdjustment.New(Argument(options.colorAdjustment, ColorAdjustment.NoOptions), sources.vertex, sources.colorAdjustment));
  }

  /** An enabled stage pushes its filter. */
  lemma Push(filters: seq<Filter>, f: Filter, options: PipelineOptions, sources: ShaderSources)
    requires Assembled(filters, options, sources, Rank(StageOf(f)))
    requires Enabled(options, StageOf(f)) && Configured(f, options, sources)
    ensures Assembled(filters + [f], options, sources, Rank(StageOf(f)) + 1)
  {
    SelectStep(options, Rank(StageOf(f)));
    assert Stages(filters + [f]) == Stages(filters) + [StageOf(f)];
    assert (filters + [f])[..|filters|] == filters;
  }

  /** A disabled stage adds nothing. */
  lemma Skip(filters: seq<Filter>, options: PipelineOptions, sources: ShaderSources, stage: Stage)
    requires Assembled(filters, options, sources, Rank(stage)) && !Enabled(options, stage)
    ensures Assembled(filters, options, sources, Rank(stage) + 1)
  {
    SelectStep(options, Rank(stage));
  }

  // ---------------------------------------------------------------------------
  // Properties of the selection

  lemma {:induction false} SelectAppend(stages: seq<Stage>, stage: Stage, options: PipelineOptions)
    ensures Select(stages + [stage], options) ==
            Select(stages, options) + (if Enabled(options, stage) then [stage] else [])
  {
    if stages == [] {
      assert stages + [stage] == [stage];
    } else {
      assert (stages + [stage])[1..] == stages[1..] + [stage];
      SelectAppend(stages[1..], stage, options);
    }
  }

  /** One more stage of the fixed order. */
  lemma SelectStep(options: PipelineOptions, n: nat)
    requires n < |StageOrder|
    ensures Select(StageOrder[..n + 1], options) ==
            Select(StageOrder[..n], options) + (if Enabled(options, StageOrder[n]) then [StageOrder[n]] else [])
  {
    assert StageOrder[..n + 1] == StageOrder[..n] + [StageOrder[n]];
    SelectAppend(StageOrder[..n], StageOrder[n], options);
  }

  lemma {:induction false} SelectMembers(stages: seq<Stage>, options: PipelineOptions, stage: Stage)
    ensures stage in Select(stages, options) <==> stage in stages && Enabled(options, stage)
  {
    if stages != [] {
      SelectMembers(stages[1..], options, stage);
      assert stages == [stages[0]] + stages[1..];
    }
  }

  /** Every stage of the pipeline comes strictly after the ones before it. */
  ghost predicate InOrder(stages: seq<Stage>)
  {
    forall i, j | 0 <= i < j < |stages| :: Rank(stages[i]) < Rank(stages[j])
  }

  lemma {:induction false} SelectKeepsOrder(stages: seq<Stage>, options: PipelineOptions)
    requires InOrder(stages)
    ensures InOrder(Select(stages, options))
  {
    if stages != [] {
      var rest := Select(stages[1..], options);
      SelectKeepsOrder(stages[1..], options);
      forall j | 0 <= j < |rest| ensures Rank(stages[0]) < Rank(rest[j]) {
        SelectMembers(stages[1..], options, rest[j]);
        var k :| 0 <= k < |stages[1..]| && stages[1..][k] == rest[j];
        assert stages[k + 1] == rest[j];
      }
    }
  }

  lemma {:induction false} SelectLength(stages: seq<Stage>, options: PipelineOptions)
    ensures |Select(stages, options)| + |Select(stages, Inverted(options))| == |stages|
  {
    if stages != [] {
      SelectLength(stages[1..], options);
    }
  }

  /** The same pipeline with every stage's `false` switched: the disabled stages. */
  function Inverted(options: PipelineOptions): PipelineOptions
  {
    PipelineOptions(
      Flip(options.roundedCorners), Flip(options.scanlines), Flip(options.phosphorMask),
      Flip(options.bloom), Flip(options.curvature), Flip(options.vignette), Flip(options.colorAdjustment))
  }

  function Flip<O>(config: StageConfig<O>): StageConfig<O>
  {
    if config.Disabled? then Default else Disabled
  }

  /** A stage is in the pipeline exactly when its option is not `false`; `undefined`
      includes it. */
  lemma StageIncludedIffEnabled(options: PipelineOptions, stage: Stage)
    ensures stage in PipelineStages(options) <==> Enabled(options, stage)
  {
    SelectMembers(StageOrder, options, stage);
    assert StageOrder[Rank(stage)] == stage;
  }

  /** The stages keep the fixed order, so none appears twice. */
  lemma StagesInFixedOrder(options: PipelineOptions)
    ensures forall i, j | 0 <= i < j < |PipelineStages(options)| ::
              Rank(PipelineStages(options)[i]) < Rank(PipelineStages(options)[j])
    ensures forall i, j | 0 <= i < j < |PipelineStages(options)| ::
              PipelineStages(options)[i] != PipelineStages(options)[j]
  {
    FixedOrderInOrder();
    SelectKeepsOrder(StageOrder, options);
  }

  lemma FixedOrderInOrder()
    ensures InOrder(StageOrder)
  {
    forall i | 0 <= i < |StageOrder| ensures Rank(StageOrder[i]) == i {
    }
  }

  /** The disabled stages, counted along the fixed order. */
  lemma DisabledStages(options: PipelineOptions)
    ensures |Select(StageOrder, Inverted(options))| == DisabledCount(options)
  {
    DisabledAlongOrder(options);
    WholeOrder(Inverted(options));
  }

  lemma DisabledAlongOrder(options: PipelineOptions)
    ensures |Select(StageOrder[..7], Inverted(options))| == DisabledCount(options)
  {
    assert StageOrder[..0] == [];
    DisabledStep(options, 0);
    DisabledStep(options, 1);
    DisabledStep(options, 2);
    DisabledStep(options, 3);
    DisabledStep(options, 4);
    DisabledStep(options, 5);
    DisabledStep(options, 6);
    OffAlongOrder(options);
  }

  lemma OffAlongOrder(options: PipelineOptions)
    ensures OffAt(options, 0) == Off(options.roundedCorners)
    ensures OffAt(options, 1) == Off(options.scanlines)
    ensures OffAt(options, 2) == Off(options.phosphorMask)
    ensures OffAt(options, 3) == Off(options.bloom)
    ensures OffAt(options, 4) == Off(options.curvature)
    ensures OffAt(options, 5) == Off(options.vignette)
    ensures OffAt(options, 6) == Off(options.colorAdjustment)
  {
  }

  /** `Off` of the option of the `n`-th stage. */
  function OffAt(options: PipelineOptions, n: nat): nat
    requires n < |StageOrder|
  {
    if Enabled(options, StageOrder[n]) then 0 else 1
  }

  lemma DisabledStep(options: PipelineOptions, n: nat)
    requires n < |StageOrder|
    ensures |Select(StageOrder[..n + 1], Inverted(options))| ==
            |Select(StageOrder[..n], Inverted(options))| + OffAt(options, n)
  {
    SelectStep(Inverted(options), n);
  }

  lemma WholeOrder(options: PipelineOptions)
    ensures Select(StageOrder[..7], options) == Select(StageOrder, options)
  {
    assert StageOrder[..7] == StageOrder;
  }

  /** The pipeline has one filter per option that is not `false`. */
  lemma PipelineLength(options: PipelineOptions)
    ensures |PipelineStages(options)| == 7 - DisabledCount(options)
  {
    SelectLength(StageOrder, options);
    DisabledStages(options);
  }

  /** Every option `false`: no filter at all. */
  lemma AllDisabledIsEmpty()
    ensures PipelineStages(PipelineOptions(Disabled, Disabled, Disabled, Disabled, Disabled, Disabled, Disabled)) == []
  {
    PipelineLength(PipelineOptions(Disabled, Disabled, Disabled, Disabled, Disabled, Disabled, Disabled));
  }

  /** Every option `undefined`: all seven stages, in the fixed order. */
  lemma AllDefaultIsFullPipeline()
    ensures PipelineStages(PipelineOptions(Default, Default, Default, Default, Default, Default, Default)) == StageOrder
  {
    var options := PipelineOptions(Default, Default, Default, Default, Default, Default, Default);
    AllDefaultAlongOrder();
    WholeOrder(options);
  }

  lemma AllDefaultAlongOrder()
    ensures Select(StageOrder[..7], PipelineOptions(Default, Default, Default, Default, Default, Default, Default)) == StageOrder
  {
    var options := PipelineOptions(Default, Default, Default, Default, Default, Default, Default);
    assert StageOrder[..0] == [];
    SelectStep(options, 0);
    SelectStep(options, 1);
    SelectStep(options, 2);
    SelectStep(options, 3);
    SelectStep(options, 4);
    SelectStep(options, 5);
    SelectStep(options, 6);
  }
}
