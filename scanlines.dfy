/** `ScanlinesFilter`: two scalar uniforms merged over defaults, and an `apply` that
    records the input's size before it renders. */
module Scanlines {
  import opened Optional
  import opened Pixi

  /** `ScanlinesFilterUniforms`, every key optional. */
  datatype Options = Options(pixelHeight: Option<real>, gapBrightness: Option<real>)

  /** `{}`, the constructor's default argument. */
  const NoOptions := Options(None, None)

  /** `Required<ScanlinesFilterUniforms>`. */
  datatype Settings = Settings(pixelHeight: real, gapBrightness: real)

  /** `defaultScanlinesUniforms`. */
  const Defaults := Settings(4.0, 0.7)

  /** `{ ...defaultScanlinesUniforms, ...uniforms }` */
  function Effective(options: Options): Settings
  {
    Settings(Spread(Defaults.pixelHeight, options.pixelHeight), Spread(Defaults.gapBrightness, options.gapBrightness))
  }

  /** Options that supply every key. */
  function Supplied(s: Settings): Options
  {
    Options(Some(s.pixelHeight), Some(s.gapBrightness))
  }

  /** The scalar uniforms of the `scanlinesUniforms` group; `uResolution` is the filter's buffer. */
  datatype Uniforms = Uniforms(uPixelHeight: real, uGapBrightness: real)

  function UniformsOf(s: Settings): Uniforms
  {
    Uniforms(s.pixelHeight, s.gapBrightness)
  }

  const ProgramName := "scanlines-filter"

  class ScanlinesFilter {
    const uniforms: Uniforms
    const glProgram: GlProgram
    /** `uniforms.uResolution`, the `vec2<f32>` written by `apply`. */
    const uResolution: array<real>

    /** `uResolution` stays the two-element buffer the constructor made. */
    predicate Valid()
    {
      uResolution.Length == 2
    }

    /** The fragment source is compiled as it is, without substitution. */
    constructor (options: Options, vertex: string, fragment: string)
      ensures uniforms == UniformsOf(Effective(options))
      ensures glProgram == GlProgram(vertex, fragment, ProgramName)
      ensures fresh(uResolution) && uResolution[..] == [0.0, 0.0]
      ensures Valid()
    {
      var settings := Effective(options);
      var buffer := NewResolution();
      glProgram := GlProgram(vertex, fragment, ProgramName);
      uniforms := UniformsOf(settings);
      uResolution := buffer;
    }

    /** Stores the input frame's width and height, then delegates with the same
        arguments; the delegated call sees the new resolution. */
    method Apply(filterSystem: FilterSystem, input: Texture, output: Texture, clearMode: bool)
      returns (call: EngineApply)
      requires Valid()
      modifies uResolution
      ensures uResolution[..] == Resolution(input)
      ensures call == EngineApply(glProgram, filterSystem, input, output, clearMode, Resolution(input))
    {
      uResolution[0] := input.frame.width as real;
      uResolution[1] := input.frame.height as real;
      call := EngineApply(glProgram, filterSystem, input, output, clearMode, uResolution[..]);
    }
  }

  /** With no options every setting is its default. */
  lemma DefaultSettings()
    ensures Effective(NoOptions) == Settings(4.0, 0.7)
  {
  }

  /** Each supplied key wins and each absent key falls back, independently. */
  lemma SuppliedKeysOverride(options: Options)
    ensures Effective(options).pixelHeight == if options.pixelHeight.Some? then options.pixelHeight.value else 4.0
    ensures Effective(options).gapBrightness == if options.gapBrightness.Some? then options.gapBrightness.value else 0.7
  {
  }

  /** Supplying every key reproduces exactly the settings supplied. */
  lemma SuppliedRoundTrip(s: Settings)
    ensures Effective(Supplied(s)) == s
  {
  }

  /** Every setting reaches its own uniform: settings with equal uniforms are equal. */
  lemma UniformsDetermineSettings(s: Settings, t: Settings)
    ensures UniformsOf(s) == UniformsOf(t) <==> s == t
  {
  }
}
