/** `BloomFilter`: four scalar uniforms merged over defaults, and an `apply` that
    records the input's size before it renders. */
module Bloom {
  import opened Optional
  import opened Pixi

  /** `BloomFilterUniforms`, every key optional. */
  datatype Options = Options(radius: Option<real>, cutoff: Option<real>, intensity: Option<real>, edgeBlur: Option<real>)

  /** `{}`, the constructor's default argument. */
  const NoOptions := Options(None, None, None, None)

  /** `Required<BloomFilterUniforms>`. */
  datatype Settings = Settings(radius: real, cutoff: real, intensity: real, edgeBlur: real)

  /** `defaultBloomUniforms`. */
  const Defaults := Settings(3.0, 0.88, 0.14, 1.5)

  /** `{ ...defaultBloomUniforms, ...uniforms }` */
  function Effective(options: Options): Settings
  {
    Settings(
      Spread(Defaults.radius, options.radius),
      Spread(Defaults.cutoff, options.cutoff),
      Spread(Defaults.intensity, options.intensity),
      Spread(Defaults.edgeBlur, options.edgeBlur))
  }

  /** Options that supply every key. */
  function Supplied(s: Settings): Options
  {
    Options(Some(s.radius), Some(s.cutoff), Some(s.intensity), Some(s.edgeBlur))
  }

  /** The scalar uniforms of the `bloomUniforms` group; `uResolution` is the filter's buffer. */
  datatype Uniforms = Uniforms(uRadius: real, uCutoff: real, uIntensity: real, uEdgeBlur: real)

  function UniformsOf(s: Settings): Uniforms
  {
    Uniforms(s.radius, s.cutoff, s.intensity, s.edgeBlur)
  }

  const ProgramName := "bloom-filter"

  class BloomFilter {
    const uniforms: Uniforms
    const glProgram: GlProgram
    /** `uniforms.uResolution`, the `vec2<f32>` written by `apply`. */
    const uResolution: array<real>

    /** `uResolution` stays the two-element buffer the constructor made. */
    predicate Valid()
    {
      uResolution.Length == 2
    }

    /** The fragment source is compiled as it is, without substitution. */
    constructor (options: Options, vertex: string, fragment: string)
      ensures uniforms == UniformsOf(Effective(options))
      ensures glProgram == GlProgram(vertex, fragment, ProgramName)
      ensures fresh(uResolution) && uResolution[..] == [0.0, 0.0]
      ensures Valid()
    {
      var settings := Effective(options);
      var buffer := NewResolution();
      glProgram := GlProgram(vertex, fragment, ProgramName);
      uniforms := UniformsOf(settings);
      uResolution := buffer;
    }

    /** Stores the input frame's width and height, then delegates with the same
        arguments; the delegated call sees the new resolution. */
    method Apply(filterSystem: FilterSystem, input: Texture, output: Texture, clearMode: bool)
      returns (call: EngineApply)
      requires Valid()
      modifies uResolution
      ensures uResolution[..] == Resolution(input)
      ensures call == EngineApply(glProgram, filterSystem, input, output, clearMode, Resolution(input))
    {
      uResolution[0] := input.frame.width as real;
      uResolution[1] := input.frame.height as real;
      call := EngineApply(glProgram, filterSystem, input, output, clearMode, uResolution[..]);
    }
  }

  /** With no options every setting is its default. */
  lemma DefaultSettings()
    ensures Effective(NoOptions) == Settings(3.0, 0.88, 0.14, 1.5)
  {
  }

  /** Each supplied key wins and each absent key falls back, independently. */
  lemma SuppliedKeysOverride(options: Options)
    ensures Effective(options).radius == if options.radius.Some? then options.radius.value else 3.0
    ensures Effective(options).cutoff == if options.cutoff.Some? then options.cutoff.value else 0.88
    ensures Effective(options).intensity == if options.intensity.Some? then options.intensity.value else 0.14
    ensures Effective(options).edgeBlur == if options.edgeBlur.Some? then options.edgeBlur.value else 1.5
  {
  }

  /** Supplying every key reproduces exactly the settings supplied. */
  lemma SuppliedRoundTrip(s: Settings)
    ensures Effective(Supplied(s)) == s
  {
  }

  /** Every setting reaches its own uniform: settings with equal uniforms are equal. */
  lemma UniformsDetermineSettings(s: Settings, t: Settings)
    ensures UniformsOf(s) == UniformsOf(t) <==> s == t
  {
  }
}
