/** `CurvatureFilter`: two scalar uniforms merged over defaults, the multisampling
    switch baked into the fragment source as `{{MULTISAMPLE}}`, and an `apply` that
    records the input's size before it renders. */
module Curvature {
  import opened Optional
  import opened Pixi
  import opened Placeholders

  /** `CurvatureFilterOptions`, every key optional. */
  datatype Options = Options(curvatureX: Option<real>, curvatureY: Option<real>, multisampling: Option<bool>)

  /** `{}`, the constructor's default argument. */
  const NoOptions := Options(None, None, None)

  /** `Required<CurvatureFilterOptions>`. */
  datatype Settings = Settings(curvatureX: real, curvatureY: real, multisampling: bool)

  /** `defaultCurvatureOptions`. */
  const Defaults := Settings(0.15, 0.15, true)

  /** `{ ...defaultCurvatureOptions, ...options }` */
  function Effective(options: Options): Settings
  {
    Settings(
      Spread(Defaults.curvatureX, options.curvatureX),
      Spread(Defaults.curvatureY, options.curvatureY),
      Spread(Defaults.multisampling, options.multisampling))
  }

  /** Options that supply every key. */
  function Supplied(s: Settings): Options
  {
    Options(Some(s.curvatureX), Some(s.curvatureY), Some(s.multisampling))
  }

  /** The scalar uniforms of the `curvatureUniforms` group; `uResolution` is the
      filter's buffer. The multisampling switch is not among them. */
  datatype Uniforms = Uniforms(uCurvatureX: real, uCurvatureY: real)

  function UniformsOf(s: Settings): Uniforms
  {
    Uniforms(s.curvatureX, s.curvatureY)
  }

  const MultisamplePlaceholder := "MULTISAMPLE"

  /** `replacePlaceholders(fragment, { MULTISAMPLE: multisampling })` */
  function ProcessedFragment(fragment: string, multisampling: bool): Substitution
  {
    Replace(fragment, map[MultisamplePlaceholder := BoolValue(multisampling)])
  }

  const ProgramName := "curvature-filter"

  class CurvatureFilter {
    const uniforms: Uniforms
    const glProgram: GlProgram
    /** What the substitution reported while the filter was built. */
    const warnings: seq<Warning>
    /** `uniforms.uResolution`, the `vec2<f32>` written by `apply`. */
    const uResolution: array<real>

    /** `uResolution` stays the two-element buffer the constructor made. */
    predicate Valid()
    {
      uResolution.Length == 2
    }

    /** The program compiles the fragment with the effective multisampling switch substituted. */
    constructor (options: Options, vertex: string, fragment: string)
      ensures uniforms == UniformsOf(Effective(options))
      ensures var processed := ProcessedFragment(fragment, Effective(options).multisampling);
              glProgram == GlProgram(vertex, processed.text, ProgramName) && warnings == processed.warnings
      ensures fresh(uResolution) && uResolution[..] == [0.0, 0.0]
      ensures Valid()
    {
      var settings := Effective(options);
      var processed := ProcessedFragment(fragment, settings.multisampling);
      var buffer := NewResolution();
      glProgram := GlProgram(vertex, processed.text, ProgramName);
      warnings := processed.warnings;
      uniforms := UniformsOf(settings);
      uResolution := buffer;
    }

    /** Stores the input frame's width and height, then delegates with the same
        arguments; the delegated call sees the new resolution. */
    method Apply(filterSystem: FilterSystem, input: Texture, output: Texture, clearMode: bool)
      returns (call: EngineApply)
      requires Valid()
      modifies uResolution
      ensures uResolution[..] == Resolution(input)
      ensures call == EngineApply(glProgram, filterSystem, input, output, clearMode, Resolution(input))
    {
      uResolution[0] := input.frame.width as real;
      uResolution[1] := input.frame.height as real;
      call := EngineApply(glProgram, filterSystem, input, output, clearMode, uResolution[..]);
    }
  }

  /** With no options every setting is its default. */
  lemma DefaultSettings()
    ensures Effective(NoOptions) == Settings(0.15, 0.15, true)
  {
  }

  /** Each supplied key wins and each absent key falls back, independently. */
  lemma SuppliedKeysOverride(options: Options)
    ensures Effective(options).curvatureX == if options.curvatureX.Some? then options.curvatureX.value else 0.15
    ensures Effective(options).curvatureY == if options.curvatureY.Some? then options.curvatureY.value else 0.15
    ensures Effective(options).multisampling == if options.multisampling.Some? then options.multisampling.value else true
  {
  }

  /** Supplying every key reproduces exactly the settings supplied. */
  lemma SuppliedRoundTrip(s: Settings)
    ensures Effective(Supplied(s)) == s
  {
  }

  /** The multisampling switch is structural: it never reaches the uniforms, while
      both curvatures do. */
  lemma UniformsIgnoreMultisampling(s: Settings, t: Settings)
    ensures UniformsOf(s) == UniformsOf(t) <==> s.(multisampling := t.multisampling) == t
  {
  }

  /** `{{MULTISAMPLE}}` becomes "1" with multisampling on and "0" with it off,
      wherever it stands in the shader; the text on either side is substituted on
      its own and kept around it. */
  lemma MultisampleInShader(prefix: string, suffix: string, multisampling: bool)
    ensures var before, after := ProcessedFragment(prefix, multisampling), ProcessedFragment(suffix, multisampling);
            ProcessedFragment(prefix + Placeholder(MultisamplePlaceholder) + suffix, multisampling) ==
            Substitution(before.text + (if multisampling then "1" else "0") + after.text, before.warnings + after.warnings)
  {
    NameFromChars(MultisamplePlaceholder);
    KnownPlaceholderInContext(prefix, MultisamplePlaceholder, suffix, map[MultisamplePlaceholder := BoolValue(multisampling)]);
  }

  /** When the shader uses the placeholder, the two settings compile to different
      fragment sources. */
  lemma MultisamplingReachesShader(fragment: string)
    requires Token(MultisamplePlaceholder) in Tokenize(fragment)
    ensures ProcessedFragment(fragment, true).text != ProcessedFragment(fragment, false).text
  {
    DistinctRenderingsDistinctText(fragment, map[], MultisamplePlaceholder, BoolValue(true), BoolValue(false));
  }

  /** A fragment that uses no other placeholder compiles without a warning. */
  lemma NoWarningForMultisample(fragment: string, multisampling: bool)
    requires forall name | Token(name) in Tokenize(fragment) :: name == MultisamplePlaceholder
    ensures ProcessedFragment(fragment, multisampling).warnings == []
  {
    var values := map[MultisamplePlaceholder := BoolValue(multisampling)];
    var w := ProcessedFragment(fragment, multisampling).warnings;
    if w != [] {
      ReplaceWarnings(fragment, values, w[0].name);
      assert false;
    }
  }
}
