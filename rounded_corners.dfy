/** `RoundedCornersFilter`: one uniform merged over its default. The filter has no
    `apply` of its own, so nothing changes it after construction; it is a value. */
module RoundedCorners {
  import opened Optional
  import opened Pixi

  /** `RoundedCornersFilterUniforms`, every key optional. */
  datatype Options = Options(cornerRadius: Option<real>)

  /** `{}`, the constructor's default argument. */
  const NoOptions := Options(None)

  /** `Required<RoundedCornersFilterUniforms>`. */
  datatype Settings = Settings(cornerRadius: real)

  /** `defaultRoundedCornersUniforms`. */
  const Defaults := Settings(0.025)

  /** `{ ...defaultRoundedCornersUniforms, ...uniforms }` */
  function Effective(options: Options): Settings
  {
    Settings(Spread(Defaults.cornerRadius, options.cornerRadius))
  }

  /** The `roundedCornersUniforms` group. */
  datatype Uniforms = Uniforms(uCornerRadius: real)

  const ProgramName := "rounded-corners-filter"

  /** A constructed `RoundedCornersFilter`. */
  datatype RoundedCornersFilter = RoundedCornersFilter(uniforms: Uniforms, glProgram: GlProgram)

  /** `new RoundedCornersFilter(options)`, compiling the fragment source as it is. */
  function New(options: Options, vertex: string, fragment: string): RoundedCornersFilter
  {
    RoundedCornersFilter(Uniforms(Effective(options).cornerRadius), GlProgram(vertex, fragment, ProgramName))
  }

  /** With no options the radius is its default, 0.025. */
  lemma DefaultFilter(vertex: string, fragment: string)
    ensures New(NoOptions, vertex, fragment).uniforms == Uniforms(0.025)
  {
  }

  /** A supplied radius is used as it is; an absent one falls back to 0.025. */
  lemma SuppliedRadiusOverrides(options: Options, vertex: string, fragment: string)
    ensures New(options, vertex, fragment).uniforms.uCornerRadius ==
            if options.cornerRadius.Some? then options.cornerRadius.value else 0.025
  {
  }

  /** The fragment source reaches the program unmodified, under the filter's name. */
  lemma FragmentUnmodified(options: Options, vertex: string, fragment: string)
    ensures New(options, vertex, fragment).glProgram == GlProgram(vertex, fragment, "rounded-corners-filter")
  {
  }

  /** Two filters over the same sources are the same filter exactly when their
      effective radii agree. */
  lemma FilterDeterminedByRadius(a: Options, b: Options, vertex: string, fragment: string)
    ensures New(a, vertex, fragment) == New(b, vertex, fragment) <==> Effective(a) == Effective(b)
  {
  }
}
