/** `VignetteFilter`: three uniforms merged over defaults. The filter has no `apply`
    of its own, so nothing changes it after construction; it is a value. */
module Vignette {
  import opened Optional
  import opened Pixi

  /** `VignetteFilterUniforms`, every key optional. */
  datatype Options = Options(intensity: Option<real>, radius: Option<real>, softness: Option<real>)

  /** `{}`, the constructor's default argument. */
  const NoOptions := Options(None, None, None)

  /** `Required<VignetteFilterUniforms>`. */
  datatype Settings = Settings(intensity: real, radius: real, softness: real)

  /** `defaultVignetteUniforms`. */
  const Defaults := Settings(0.4, 0.8, 0.5)

  /** `{ ...defaultVignetteUniforms, ...uniforms }` */
  function Effective(options: Options): Settings
  {
    Settings(
      Spread(Defaults.intensity, options.intensity),
      Spread(Defaults.radius, options.radius),
      Spread(Defaults.softness, options.softness))
  }

  /** Options that supply every key. */
  function Supplied(s: Settings): Options
  {
    Options(Some(s.intensity), Some(s.radius), Some(s.softness))
  }

  /** The `vignetteUniforms` group; there is no resolution uniform. */
  datatype Uniforms = Uniforms(uIntensity: real, uRadius: real, uSoftness: real)

  function UniformsOf(s: Settings): Uniforms
  {
    Uniforms(s.intensity, s.radius, s.softness)
  }

  const ProgramName := "vignette-filter"

  /** A constructed `VignetteFilter`. */
  datatype VignetteFilter = VignetteFilter(uniforms: Uniforms, glProgram: GlProgram)

  /** `new VignetteFilter(options)`, compiling the fragment source as it is. */
  function New(options: Options, vertex: string, fragment: string): VignetteFilter
  {
    VignetteFilter(UniformsOf(Effective(options)), GlProgram(vertex, fragment, ProgramName))
  }

  /** With no options every uniform is its default. */
  lemma DefaultFilter(vertex: string, fragment: string)
    ensures New(NoOptions, vertex, fragment).uniforms == Uniforms(0.4, 0.8, 0.5)
  {
  }

  /** Each supplied key wins and each absent key falls back, independently: supplying
      only intensity and radius leaves the softness at 0.5. */
  lemma SuppliedKeysOverride(options: Options, vertex: string, fragment: string)
    ensures var u := New(options, vertex, fragment).uniforms;
            && u.uIntensity == (if options.intensity.Some? then options.intensity.value else 0.4)
            && u.uRadius == (if options.radius.Some? then options.radius.value else 0.8)
            && u.uSoftness == (if options.softness.Some? then options.softness.value else 0.5)
  {
  }

  /** Supplying every key reproduces exactly the settings supplied. */
  lemma SuppliedRoundTrip(s: Settings)
    ensures Effective(Supplied(s)) == s
  {
  }

  /** The fragment source reaches the program unmodified, under the filter's name. */
  lemma FragmentUnmodified(options: Options, vertex: string, fragment: string)
    ensures New(options, vertex, fragment).glProgram == GlProgram(vertex, fragment, "vignette-filter")
  {
  }

  /** Every setting reaches its own uniform: settings with equal uniforms are equal. */
  lemma UniformsDetermineSettings(s: Settings, t: Settings)
    ensures UniformsOf(s) == UniformsOf(t) <==> s == t
  {
  }
}
