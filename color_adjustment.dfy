/** `ColorAdjustmentFilter`: three uniforms merged over defaults. The filter has no
    `apply` of its own, so nothing changes it after construction; it is a value. */
module ColorAdjustment {
  import opened Optional
  import opened Pixi

  /** `ColorAdjustmentFilterUniforms`, every key optional. */
  datatype Options = Options(gamma: Option<real>, saturation: Option<real>, brightness: Option<real>)

  /** `{}`, the constructor's default argument. */
  const NoOptions := Options(None, None, None)

  /** `Required<ColorAdjustmentFilterUniforms>`. */
  datatype Settings = Settings(gamma: real, saturation: real, brightness: real)

  /** `defaultColorAdjustmentUniforms`: every adjustment neutral. */
  const Defaults := Settings(1.0, 1.0, 1.0)

  /** `{ ...defaultColorAdjustmentUniforms, ...uniforms }` */
  function Effective(options: Options): Settings
  {
    Settings(
      Spread(Defaults.gamma, options.gamma),
      Spread(Defaults.saturation, options.saturation),
      Spread(Defaults.brightness, options.brightness))
  }

  /** Options that supply every key. */
  function Supplied(s: Settings): Options
  {
    Options(Some(s.gamma), Some(s.saturation), Some(s.brightness))
  }

  /** The `colorAdjustmentUniforms` group; there is no resolution uniform. */
  datatype Uniforms = Uniforms(uGamma: real, uSaturation: real, uBrightness: real)

  function UniformsOf(s: Settings): Uniforms
  {
    Uniforms(s.gamma, s.saturation, s.brightness)
  }

  const ProgramName := "color-adjustment-filter"

  /** A constructed `ColorAdjustmentFilter`. */
  datatype ColorAdjustmentFilter = ColorAdjustmentFilter(uniforms: Uniforms, glProgram: GlProgram)

  /** `new ColorAdjustmentFilter(options)`, compiling the fragment source as it is. */
  function New(options: Options, vertex: string, fragment: string): ColorAdjustmentFilter
  {
    ColorAdjustmentFilter(UniformsOf(Effective(options)), GlProgram(vertex, fragment, ProgramName))
  }

  /** With no options every uniform is neutral, 1.0. */
  lemma DefaultFilter(vertex: string, fragment: string)
    ensures New(NoOptions, vertex, fragment).uniforms == Uniforms(1.0, 1.0, 1.0)
  {
  }

  /** Each supplied key wins and each absent key falls back, independently. */
  lemma SuppliedKeysOverride(options: Options, vertex: string, fragment: string)
    ensures var u := New(options, vertex, fragment).uniforms;
            && u.uGamma == (if options.gamma.Some? then options.gamma.value else 1.0)
            && u.uSaturation == (if options.saturation.Some? then options.saturation.value else 1.0)
            && u.uBrightness == (if options.brightness.Some? then options.brightness.value else 1.0)
  {
  }

  /** Supplying every key reproduces exactly the settings supplied. */
  lemma SuppliedRoundTrip(s: Settings)
    ensures Effective(Supplied(s)) == s
  {
  }

  /** The fragment source reaches the program unmodified, under the filter's name. */
  lemma FragmentUnmodified(options: Options, vertex: string, fragment: string)
    ensures New(options, vertex, fragment).glProgram == GlProgram(vertex, fragment, "color-adjustment-filter")
  {
  }

  /** Every setting reaches its own uniform: settings with equal uniforms are equal. */
  lemma UniformsDetermineSettings(s: Settings, t: Settings)
    ensures UniformsOf(s) == UniformsOf(t) <==> s == t
  {
  }
}
