/** `PhosphorMaskFilter`: three scalar uniforms merged over defaults, a sample count
    baked into the fragment source as `{{NUM_SAMPLES}}`, and an `apply` that records
    the input's size before it renders. */
module PhosphorMask {
  import opened Optional
  import opened Pixi
  import opened Placeholders
  import Decimal

  /** `PhosphorMaskFilterOptions`, every key optional. */
  datatype Options = Options(
    pixelWidth: Option<real>,
    maskBrightness: Option<real>,
    numSamples: Option<nat>,
    transitionWidth: Option<real>)

  /** `{}`, the constructor's default argument. */
  const NoOptions := Options(None, None, None, None)

  /** `Required<PhosphorMaskFilterOptions>`. */
  datatype Settings = Settings(pixelWidth: real, maskBrightness: real, numSamples: nat, transitionWidth: real)

  /** `defaultPhosphorMaskOptions`. */
  const Defaults := Settings(4.0, 0.7, 4, 0.3)

  /** `{ ...defaultPhosphorMaskOptions, ...options }` */
  function Effective(options: Options): Settings
  {
    Settings(
      Spread(Defaults.pixelWidth, options.pixelWidth),
      Spread(Defaults.maskBrightness, options.maskBrightness),
      Spread(Defaults.numSamples, options.numSamples),
      Spread(Defaults.transitionWidth, options.transitionWidth))
  }

  /** Options that supply every key. */
  function Supplied(s: Settings): Options
  {
    Options(Some(s.pixelWidth), Some(s.maskBrightness), Some(s.numSamples), Some(s.transitionWidth))
  }

  /** The scalar uniforms of the `phosphorMaskUniforms` group; `uResolution` is the
      filter's buffer. The sample count is not among them. */
  datatype Uniforms = Uniforms(uPixelWidth: real, uMaskBrightness: real, uTransitionWidth: real)

  function UniformsOf(s: Settings): Uniforms
  {
    Uniforms(s.pixelWidth, s.maskBrightness, s.transitionWidth)
  }

  const SamplesPlaceholder := "NUM_SAMPLES"

  /** `replacePlaceholders(fragment, { NUM_SAMPLES: numSamples })` */
  function ProcessedFragment(fragment: string, numSamples: nat): Substitution
  {
    Replace(fragment, map[SamplesPlaceholder := NumberValue(numSamples)])
  }

  const ProgramName := "phosphor-mask-filter"

  class PhosphorMaskFilter {
    const uniforms: Uniforms
    const glProgram: GlProgram
    /** What the substitution reported while the filter was built. */
    const warnings: seq<Warning>
    /** `uniforms.uResolution`, the `vec2<f32>` written by `apply`. */
    const uResolution: array<real>

    /** `uResolution` stays the two-element buffer the constructor made. */
    predicate Valid()
    {
      uResolution.Length == 2
    }

    /** The program compiles the fragment with the effective sample count substituted. */
    constructor (options: Options, vertex: string, fragment: string)
      ensures uniforms == UniformsOf(Effective(options))
      ensures var processed := ProcessedFragment(fragment, Effective(options).numSamples);
              glProgram == GlProgram(vertex, processed.text, ProgramName) && warnings == processed.warnings
      ensures fresh(uResolution) && uResolution[..] == [0.0, 0.0]
      ensures Valid()
    {
      var settings := Effective(options);
      var processed := ProcessedFragment(fragment, settings.numSamples);
      var buffer := NewResolution();
      glProgram := GlProgram(vertex, processed.text, ProgramName);
      warnings := processed.warnings;
      uniforms := UniformsOf(settings);
      uResolution := buffer;
    }

    /** Stores the input frame's width and height, then delegates with the same
        arguments; the delegated call sees the new resolution. */
    method Apply(filterSystem: FilterSystem, input: Texture, output: Texture, clearMode: bool)
      returns (call: EngineApply)
      requires Valid()
      modifies uResolution
      ensures uResolution[..] == Resolution(input)
      ensures call == EngineApply(glProgram, filterSystem, input, output, clearMode, Resolution(input))
    {
      uResolution[0] := input.frame.width as real;
      uResolution[1] := input.frame.height as real;
      call := EngineApply(glProgram, filterSystem, input, output, clearMode, uResolution[..]);
    }
  }

  /** With no options every setting is its default. */
  lemma DefaultSettings()
    ensures Effective(NoOptions) == Settings(4.0, 0.7, 4, 0.3)
  {
  }

  /** Each supplied key wins and each absent key falls back, independently. */
  lemma SuppliedKeysOverride(options: Options)
    ensures Effective(options).pixelWidth == if options.pixelWidth.Some? then options.pixelWidth.value else 4.0
    ensures Effective(options).maskBrightness == if options.maskBrightness.Some? then options.maskBrightness.value else 0.7
    ensures Effective(options).numSamples == if options.numSamples.Some? then options.numSamples.value else 4
    ensures Effective(options).transitionWidth == if options.transitionWidth.Some? then options.transitionWidth.value else 0.3
  {
  }

  /** Supplying every key reproduces exactly the settings supplied. */
  lemma SuppliedRoundTrip(s: Settings)
    ensures Effective(Supplied(s)) == s
  {
  }

  /** The sample count is structural: it never reaches the uniforms, while every
      other setting does. */
  lemma UniformsIgnoreSampleCount(s: Settings, t: Settings)
    ensures UniformsOf(s) == UniformsOf(t) <==> s.(numSamples := t.numSamples) == t
  {
  }

  /** `{{NUM_SAMPLES}}` becomes the decimal text of the sample count, which reads
      back as that count, wherever it stands in the shader; the text on either side
      is substituted on its own and kept around it. */
  lemma SampleCountInShader(prefix: string, suffix: string, numSamples: nat)
    ensures var before, after := ProcessedFragment(prefix, numSamples), ProcessedFragment(suffix, numSamples);
            ProcessedFragment(prefix + Placeholder(SamplesPlaceholder) + suffix, numSamples) ==
            Substitution(before.text + Decimal.DecimalText(numSamples) + after.text, before.warnings + after.warnings)
    ensures Decimal.DecimalValue(Decimal.DecimalText(numSamples)) == numSamples
  {
    NameFromChars(SamplesPlaceholder);
    KnownPlaceholderInContext(prefix, SamplesPlaceholder, suffix, map[SamplesPlaceholder := NumberValue(numSamples)]);
    Decimal.DecimalRoundTrip(numSamples);
  }

  /** When the shader uses the placeholder, different sample counts compile to
      different fragment sources. */
  lemma SampleCountReachesShader(fragment: string, a: nat, b: nat)
    requires Token(SamplesPlaceholder) in Tokenize(fragment) && a != b
    ensures ProcessedFragment(fragment, a).text != ProcessedFragment(fragment, b).text
  {
    Decimal.DecimalTextInjective(a, b);
    DistinctRenderingsDistinctText(fragment, map[], SamplesPlaceholder, NumberValue(a), NumberValue(b));
  }

  /** A fragment that uses no other placeholder compiles without a warning. */
  lemma NoWarningForSampleCount(fragment: string, numSamples: nat)
    requires forall name | Token(name) in Tokenize(fragment) :: name == SamplesPlaceholder
    ensures ProcessedFragment(fragment, numSamples).warnings == []
  {
    var values := map[SamplesPlaceholder := NumberValue(numSamples)];
    var w := ProcessedFragment(fragment, numSamples).warnings;
    if w != [] {
      ReplaceWarnings(fragment, values, w[0].name);
      assert false;
    }
  }
}
