# CRT shader parameterisation, in Dafny

A model of the layer of `jims_shaders` that turns options into shader programs and
uniforms, with proofs of what that layer promises. The layer has three parts:

- **Placeholder substitution** (`replacePlaceholders`). The shader text is scanned
  left to right for `{{NAME}}` with `NAME` a `\w+` word. The matches never overlap,
  and the replacement text is never rescanned. A name in the value map becomes its
  rendering: `"1"`/`"0"` for a boolean, and `String(value)` otherwise. An unknown
  match is left as it was, and a warning is emitted for it.
  - `Placeholders` models the scan as `Tokenize` (literal characters and matched
    tokens), the callback as `Rewrite`, and the call as `Replace`. `Replace`
    returns the text together with the warnings in emission order.
  - `Decimal` gives `String(n)` for the naturals substituted here, together with
    the parser that reads it back.
  - `Rescan` studies a second pass over the output.
- **Seven filter wrappers.** Each constructor merges the options over its defaults
  (`{...defaults, ...options}`, modelled per key by `Optional.Spread`) and maps the
  result onto its uniforms.
  - Rounded corners, vignette and colour adjustment never change after
    construction, so they are values: a datatype and a `New` function.
  - Scanlines, phosphor mask, bloom and curvature own a two-element `uResolution`
    buffer, which `apply` overwrites in place before it delegates to the engine.
    They are classes with an `array<real>` field and an `Apply` method.
  - Phosphor mask and curvature also substitute a structural option into their
    fragment shader: `{{NUM_SAMPLES}}` and `{{MULTISAMPLE}}` respectively.
- **The pipeline composer** (`crtFilters`). It grows a list by seven guarded pushes
  in a fixed order. A stage is skipped only when its option is literally `false`.
  - `CrtFilters.CrtFilters` keeps the seven guarded pushes, one
    `PushUnlessDisabled` call per stage in source order.
  - It is proved against the specification function `PipelineStages`, the enabled
    stages of `StageOrder`, and against `Configured`, which says how each stage's
    filter is built from its option.

The pixi.js engine is opaque (`Pixi`). A compiled program is the record of what
`GlProgram.from` receives. A delegated `super.apply` is the record of its arguments,
plus the resolution buffer as it stands at that moment.

**A second substitution pass.** Even when no value contains `{{`, a second pass is
not always a no-op. `"{{{{N}}}}"` with `N = 4` gives `"{{4}}"` on the first pass.
If `4` is not a key, the second pass reports it as a missing placeholder
(`Rescan.NestedPlaceholderRescanned`). If `4` is a key, say with value `5`, the
second pass changes the text to `"5"` (`Rescan.NestedPlaceholderTextChanges`).
Idempotence does hold under two conditions, and `Rescan.ReplaceIdempotent` proves it:

- no rendering contains `{`;
- every known placeholder starts the text or follows a separator, meaning a
  character that is neither a word character nor a brace.

The source makes no such promise, so this is stated here and not as a defect.

## Model

| member | source | states |
|---|---|---|
| Decimal.DecimalText | src/utils/replacePlaceholders.ts:16 | `String(n)` of a natural is a non-empty digit string with no leading zero except for 0 itself |
| Decimal.DecimalRoundTrip | src/utils/replacePlaceholders.ts:16 | reading the decimal text of `n` back gives `n` |
| Decimal.DecimalTextInjective | src/utils/replacePlaceholders.ts:16 | different numbers have different decimal texts |
| Optional.Spread | src/filters/ScanlinesFilter.ts:31 | definition: one key of `{...defaults, ...options}`, where a key present in the options wins and an absent key takes the default |
| Placeholders.IsWordChar | src/utils/replacePlaceholders.ts:9 | definition: `\w`, an ASCII letter, a digit or `_` |
| Placeholders.IsName | src/utils/replacePlaceholders.ts:9 | definition: `\w+`, a non-empty run of word characters |
| Placeholders.IsPlaceholder | src/utils/replacePlaceholders.ts:9 | definition: a whole match of `/\{\{(\w+)\}\}/`, two opening braces, a `\w+` name and two closing braces |
| Placeholders.NameFromChars | src/utils/replacePlaceholders.ts:9 | a non-empty text whose every character is `\w` matches `\w+` |
| Placeholders.WordRun | src/utils/replacePlaceholders.ts:9 | the greedy `\w+` run is a prefix of word characters that stops at the end of the text or at a non-word character |
| Placeholders.WordRunOfName | src/utils/replacePlaceholders.ts:9 | the greedy run over a name followed by a non-word character is exactly that name |
| Placeholders.PlaceholderPrefixLength | src/utils/replacePlaceholders.ts:9 | any `{{\w+}}` prefix of a text is four characters longer than the greedy word run after `{{` |
| Placeholders.MatchAt | src/utils/replacePlaceholders.ts:9 | one regex attempt: a returned length delimits a `{{\w+}}` prefix, and whenever such a prefix exists it is the one returned (at most one exists) |
| Placeholders.MatchAtFindsPlaceholder | src/utils/replacePlaceholders.ts:9 | an attempt at the start of a text succeeds exactly when some prefix of it is a placeholder |
| Placeholders.PlaceholderHead | src/utils/replacePlaceholders.ts:9 | a text whose first `k` characters match is the matched placeholder followed by the rest |
| Placeholders.AllWordCharsIndex | src/utils/replacePlaceholders.ts:9 | each character of a `\w` run is a word character |
| Placeholders.Tokenize | src/utils/replacePlaceholders.ts:9 | the global scan cuts the text into pieces that concatenate back to exactly the text |
| Placeholders.TokenizeCanonical | src/utils/replacePlaceholders.ts:9 | the scan's cutting is leftmost-first: every token is a `\w+` name, and a character is left literal only where no placeholder starts |
| Placeholders.TokenizeUnique | src/utils/replacePlaceholders.ts:9 | any canonical cutting of a text equals the scan's, so the scan is the one the regex's global flag defines |
| Placeholders.CanonicalTokensAreNames | src/utils/replacePlaceholders.ts:9 | every token of a canonical cutting has a `\w+` name |
| Placeholders.TokenizeLiteralPrefix | src/utils/replacePlaceholders.ts:9 | a prefix with no opening brace is scanned as literal characters, and the scan of the rest is unaffected |
| Placeholders.TokenizePlaceholderPrefix | src/utils/replacePlaceholders.ts:9 | a text starting with `{{name}}` is scanned as that token, followed by the scan of the rest |
| Placeholders.NoOpenBraceInside | src/utils/replacePlaceholders.ts:9 | past its two opening braces a match holds no `{` |
| Placeholders.MatchWithinPrefix | src/utils/replacePlaceholders.ts:9 | a match at the start of `p + t`, with `t` opening with `{{`, ends within `p` |
| Placeholders.MatchStopsBeforeBraces | src/utils/replacePlaceholders.ts:9 | a regex attempt on a non-empty text gives the same answer when `{{` follows it, because no `\w+` name can run into `{` |
| Placeholders.FirstPiece | src/utils/replacePlaceholders.ts:9 | the first piece the scan cuts from a non-empty text is the same when `{{` text follows it |
| Placeholders.SplitStep | src/utils/replacePlaceholders.ts:9 | the scan splits before `{{` for a text once it does for the text left after its first piece |
| Placeholders.TokenizeSplit | src/utils/replacePlaceholders.ts:9 | a text cut just before `{{` is scanned as its two parts, one after the other |
| Placeholders.ReplaceSplit | src/utils/replacePlaceholders.ts:9-23 | substituting a text cut just before `{{` concatenates the two parts' texts and their warnings, in order |
| Placeholders.SplitAtPlaceholder | src/utils/replacePlaceholders.ts:9-23 | substituting a text cut just before a placeholder gives the text before it, then the placeholder and the rest, with warnings in the same order |
| Placeholders.Render | src/utils/replacePlaceholders.ts:12-16 | definition: a boolean becomes "1" or "0", a number its `String()` decimal text, a string itself |
| Placeholders.Rewrite | src/utils/replacePlaceholders.ts:9-22 | definition of the callback: a literal character is copied, a known name becomes its rendering, an unknown match is returned as matched |
| Placeholders.RewriteAll | src/utils/replacePlaceholders.ts:9-23 | definition: the callback's results for the scanned pieces, joined in order, as `replace` joins them |
| Placeholders.MissingNames | src/utils/replacePlaceholders.ts:19-21 | definition: one warning per matched name missing from the map, in scan order |
| Placeholders.Warning.Message | src/utils/replacePlaceholders.ts:19-21 | definition: the `console.warn` text, `Shader placeholder {{name}} not found in values map` |
| Placeholders.MessageQuotesPlaceholder | src/utils/replacePlaceholders.ts:19-21 | the warning text quotes `{{name}}` between its fixed lead and tail, so the name can be read back from it |
| Placeholders.MessageInjective | src/utils/replacePlaceholders.ts:19-21 | different missing names give different warning texts |
| Placeholders.Replace | src/utils/replacePlaceholders.ts:5-24 | definition: the scan's pieces rewritten and concatenated, with the warnings of the same scan |
| Placeholders.RewriteAllConcat | src/utils/replacePlaceholders.ts:9-23 | rewriting and warning distribute over concatenated segment lists |
| Placeholders.RewriteAllAppend | src/utils/replacePlaceholders.ts:9-23 | the rewritten text of concatenated segments is the concatenation of the rewritten texts |
| Placeholders.MissingNamesAppend | src/utils/replacePlaceholders.ts:18-22 | the warnings of concatenated segments are the concatenation of the warnings, in order |
| Placeholders.RewriteLiterals | src/utils/replacePlaceholders.ts:9 | literal characters are copied unchanged and warn nothing |
| Placeholders.ReplaceLiteralPrefix | src/utils/replacePlaceholders.ts:9 | text outside matches is preserved: a brace-free prefix passes through in front of the substituted rest |
| Placeholders.ReplacePlaceholderPrefix | src/utils/replacePlaceholders.ts:9-23 | a leading `{{name}}` becomes its rendering if known, otherwise stays and adds one warning in front of the rest's warnings; the rest is substituted independently |
| Placeholders.NoPlaceholderUnchanged | src/utils/replacePlaceholders.ts:9 | text containing no `{{\w+}}` anywhere is returned unchanged, with no warning |
| Placeholders.NonNameBracesUntouched | src/utils/replacePlaceholders.ts:9 | `{{text}}` whose text contains no brace and is not a `\w+` name (including `{{}}`) is no placeholder and passes through unchanged, with no warning |
| Placeholders.ReplaceWithoutOpenBrace | src/utils/replacePlaceholders.ts:9 | text without `{` is returned unchanged, with no warning |
| Placeholders.KnownPlaceholderReplaced | src/utils/replacePlaceholders.ts:10-16 | a known name becomes its rendering with no warning: `true` gives "1", `false` gives "0", a number gives decimal text that reads back as the number |
| Placeholders.UnknownPlaceholderKept | src/utils/replacePlaceholders.ts:18-22 | an unknown name is kept verbatim, with exactly one warning naming it |
| Placeholders.KnownPlaceholderInContext | src/utils/replacePlaceholders.ts:9-16 | a known placeholder anywhere in a text becomes its rendering; the texts on either side are substituted on their own and kept around it, and their warnings are concatenated in order |
| Placeholders.UnknownPlaceholderInContext | src/utils/replacePlaceholders.ts:9-22 | an unknown placeholder anywhere in a text is kept as it is, between the substituted texts on either side, and its one warning comes between their warnings |
| Placeholders.RepeatedPlaceholderReplaced | src/utils/replacePlaceholders.ts:9-16 | the global flag replaces every occurrence: `{{A}}x{{A}}` becomes `r`, then the substituted `x`, then `r`, with only the warnings of `x` |
| Placeholders.MissingNamesExactly | src/utils/replacePlaceholders.ts:18-22 | a warning names `n` exactly when a token `n` occurs and the map lacks `n` |
| Placeholders.ReplaceWarnings | src/utils/replacePlaceholders.ts:10-22 | a substitution warns about `n` exactly when `{{n}}` is matched in the source and `n` is not in the map, and warned names are `\w+` names |
| Placeholders.RewriteAllLengthDifference | src/utils/replacePlaceholders.ts:9-16 | changing the value of one name in any map changes the output length by the difference of the renderings, once per occurrence |
| Placeholders.RewriteAllDistinct | src/utils/replacePlaceholders.ts:9-16 | when a token occurs, giving its name two values with different renderings, in any map, gives different rewritten texts |
| Placeholders.DistinctRenderingsDistinctText | src/utils/replacePlaceholders.ts:9-16 | a placeholder that occurs in the source reaches the output: whatever the other values, two values for it with different renderings give different texts |
| Rescan.LeadingRun | src/utils/replacePlaceholders.ts:9 | the run of braces and word characters a regex attempt can see is a prefix of the text |
| Rescan.LeadingRunCovers | src/utils/replacePlaceholders.ts:9 | a prefix made of run characters lies within the leading run |
| Rescan.PlaceholderInLeadingRun | src/utils/replacePlaceholders.ts:9 | a placeholder prefix lies within the leading run |
| Rescan.MatchAtOfLeadingRun | src/utils/replacePlaceholders.ts:9 | a regex attempt gives the same answer on the leading run as on the whole text |
| Rescan.LeadingRunOfRunPrefix | src/utils/replacePlaceholders.ts:9 | a prefix of run characters is carried into the leading run |
| Rescan.IsolatedSuffix | src/utils/replacePlaceholders.ts:9 | isolation of known placeholders holds for every suffix |
| Rescan.ReplaceLiteralHead | src/utils/replacePlaceholders.ts:9 | a first character that starts no placeholder is copied in front of the substituted rest |
| Rescan.NoKnownAfterRunChar | src/utils/replacePlaceholders.ts:9 | under isolation, no known placeholder starts right after a run character |
| Rescan.PlaceholderRunChars | src/utils/replacePlaceholders.ts:9 | every character of `{{name}}` is a run character |
| Rescan.HeadAfterUnknown | src/utils/replacePlaceholders.ts:18-22 | given that substituting the rest keeps its leading run, a kept unknown placeholder in front of it leaves the output's leading run as in the input |
| Rescan.HeadAfterLiteral | src/utils/replacePlaceholders.ts:9 | when the head character starts no match, and (if the head is a brace or word character) substituting the rest keeps its leading run, the output's leading run is as in the input |
| Rescan.HeadPreserved | src/utils/replacePlaceholders.ts:9-23 | when known placeholders are isolated (each starts the text or follows a separator) and none starts the text, substitution leaves its leading run unchanged |
| Rescan.IdempotentAfterToken | src/utils/replacePlaceholders.ts:9-23 | with brace-free renderings, idempotence carries over from the rest to a text that starts with a placeholder |
| Rescan.IdempotentAfterLiteral | src/utils/replacePlaceholders.ts:9-23 | when the head character starts no match and, if the head is a brace or word character, substituting the rest keeps its leading run, idempotence carries over from the rest to the text with that head |
| Rescan.SameHeadSameMatch | src/utils/replacePlaceholders.ts:9 | texts with the same leading run after a common character give the same regex attempt |
| Rescan.ReplaceIdempotent | src/utils/replacePlaceholders.ts:9-23 | with brace-free renderings and isolated known placeholders, substituting the output again gives the same text and the same warnings |
| Rescan.KeepBrace | src/utils/replacePlaceholders.ts:9 | a `{` in front of `{{` starts no match and is copied in front of the substituted rest |
| Rescan.InnerPass | src/utils/replacePlaceholders.ts:9-16 | the inner `{{N}}}}` of `{{{{N}}}}` becomes the rendering followed by `}}`, with no warning |
| Rescan.NestedFirstPass | src/utils/replacePlaceholders.ts:9-23 | the first pass over `{{{{N}}}}` keeps the outer braces, fills in the inner placeholder and warns nothing |
| Rescan.NestedPlaceholderRescanned | src/utils/replacePlaceholders.ts:9-23 | `{{{{N}}}}` becomes `{{r}}` with no warning, and a second pass warns that `r` is missing: the second pass is not a no-op |
| Rescan.NestedPlaceholderTextChanges | src/utils/replacePlaceholders.ts:9-23 | when the name the first pass builds is also a key with a brace-free rendering, the second pass replaces it, so the text changes |
| Pixi.Resolution | src/filters/ScanlinesFilter.ts:65-66 | definition: the input frame's width, then its height |
| Pixi.NewResolution | src/filters/ScanlinesFilter.ts:47 | `new Float32Array(2)` is a fresh buffer of two zeros |
| RoundedCorners.Defaults | src/filters/RoundedCornersFilter.ts:11-14 | definition: the `default*` record of the wrapper, value for value |
| RoundedCorners.ProgramName | src/filters/RoundedCornersFilter.ts:27 | definition: the `name` the program is compiled under |
| RoundedCorners.Effective | src/filters/RoundedCornersFilter.ts:11-22 | definition: the radius merged over its default |
| RoundedCorners.New | src/filters/RoundedCornersFilter.ts:21-43 | definition: `uCornerRadius` is the merged radius, and the program is the vertex and fragment sources under "rounded-corners-filter" |
| RoundedCorners.DefaultFilter | src/filters/RoundedCornersFilter.ts:11-22 | with no options the only uniform, `uCornerRadius`, is 0.025 |
| RoundedCorners.SuppliedRadiusOverrides | src/filters/RoundedCornersFilter.ts:22-38 | a supplied radius is used verbatim, an absent one falls back to 0.025 |
| RoundedCorners.FragmentUnmodified | src/filters/RoundedCornersFilter.ts:24-28 | the fragment source reaches the program unmodified, under "rounded-corners-filter" |
| RoundedCorners.FilterDeterminedByRadius | src/filters/RoundedCornersFilter.ts:21-42 | two filters over the same sources are equal exactly when their effective radii are |
| Scanlines.Defaults | src/filters/ScanlinesFilter.ts:18-21 | definition: the `default*` record of the wrapper, value for value |
| Scanlines.ProgramName | src/filters/ScanlinesFilter.ts:36 | definition: the `name` the program is compiled under |
| Scanlines.Effective | src/filters/ScanlinesFilter.ts:18-31 | definition: every key merged over its default, independently |
| Scanlines.UniformsOf | src/filters/ScanlinesFilter.ts:42-51 | definition: each setting placed in its own uniform |
| Scanlines.ScanlinesFilter.constructor | src/filters/ScanlinesFilter.ts:30-57 | the uniforms are the merged settings, the fragment is compiled unmodified, and `uResolution` is a fresh zeroed pair |
| Scanlines.ScanlinesFilter.Apply | src/filters/ScanlinesFilter.ts:59-68 | the buffer becomes the frame's width and height, and the delegated call gets the same arguments, `clearMode` included, and sees the new resolution |
| Scanlines.DefaultSettings | src/filters/ScanlinesFilter.ts:18-31 | with no options: pixelHeight 4, gapBrightness 0.7 |
| Scanlines.SuppliedKeysOverride | src/filters/ScanlinesFilter.ts:31 | each supplied key wins and each absent key keeps its default, independently |
| Scanlines.SuppliedRoundTrip | src/filters/ScanlinesFilter.ts:31 | supplying every key yields exactly those settings |
| Scanlines.UniformsDetermineSettings | src/filters/ScanlinesFilter.ts:42-51 | equal uniforms iff equal settings: no setting is lost on the way to the uniforms |
| PhosphorMask.Defaults | src/filters/PhosphorMaskFilter.ts:26-31 | definition: the `default*` record of the wrapper, value for value |
| PhosphorMask.ProgramName | src/filters/PhosphorMaskFilter.ts:52 | definition: the `name` the program is compiled under |
| PhosphorMask.SamplesPlaceholder | src/filters/PhosphorMaskFilter.ts:46 | definition: the key `NUM_SAMPLES` of the substitution map |
| PhosphorMask.Effective | src/filters/PhosphorMaskFilter.ts:26-42 | definition: every key merged over its default, independently |
| PhosphorMask.UniformsOf | src/filters/PhosphorMaskFilter.ts:58-72 | definition: pixel width, mask brightness and transition width each placed in its own uniform; the sample count has no uniform |
| PhosphorMask.ProcessedFragment | src/filters/PhosphorMaskFilter.ts:45-47 | definition: the fragment substituted with the one value `NUM_SAMPLES`, a number |
| PhosphorMask.PhosphorMaskFilter.constructor | src/filters/PhosphorMaskFilter.ts:41-77 | the uniforms are the merged settings, the program's fragment is the source with `NUM_SAMPLES` substituted, its warnings are kept, and `uResolution` is a fresh zeroed pair |
| PhosphorMask.PhosphorMaskFilter.Apply | src/filters/PhosphorMaskFilter.ts:79-88 | the buffer becomes the frame's width and height, then the call is delegated with the same `clearMode` |
| PhosphorMask.DefaultSettings | src/filters/PhosphorMaskFilter.ts:26-42 | with no options: pixelWidth 4, maskBrightness 0.7, numSamples 4, transitionWidth 0.3 |
| PhosphorMask.SuppliedKeysOverride | src/filters/PhosphorMaskFilter.ts:42 | each supplied key wins and each absent key keeps its default, independently |
| PhosphorMask.SuppliedRoundTrip | src/filters/PhosphorMaskFilter.ts:42 | supplying every key yields exactly those settings |
| PhosphorMask.UniformsIgnoreSampleCount | src/filters/PhosphorMaskFilter.ts:34-72 | the uniforms are equal exactly when all settings except numSamples are: the sample count is structural |
| PhosphorMask.SampleCountInShader | src/filters/PhosphorMaskFilter.ts:45-47 | anywhere in the shader, `{{NUM_SAMPLES}}` becomes the decimal text of the sample count (which reads back as the count); the text on either side is substituted on its own and kept around it, with its warnings in order |
| PhosphorMask.SampleCountReachesShader | src/filters/PhosphorMaskFilter.ts:45-47 | when the shader uses the placeholder, different sample counts give different fragment sources |
| PhosphorMask.NoWarningForSampleCount | src/filters/PhosphorMaskFilter.ts:45-47 | a shader using no other placeholder compiles without a warning |
| Bloom.Defaults | src/filters/BloomFilter.ts:19-24 | definition: the `default*` record of the wrapper, value for value |
| Bloom.ProgramName | src/filters/BloomFilter.ts:41 | definition: the `name` the program is compiled under |
| Bloom.Effective | src/filters/BloomFilter.ts:19-36 | definition: every key merged over its default, independently |
| Bloom.UniformsOf | src/filters/BloomFilter.ts:47-64 | definition: each setting placed in its own uniform |
| Bloom.BloomFilter.constructor | src/filters/BloomFilter.ts:35-70 | the four uniforms are the merged settings, the fragment is compiled unmodified under "bloom-filter", and `uResolution` is a fresh zeroed pair |
| Bloom.BloomFilter.Apply | src/filters/BloomFilter.ts:72-81 | width goes to `uResolution[0]` and height to `uResolution[1]` before the delegation, which forwards `clearMode` unchanged |
| Bloom.DefaultSettings | src/filters/BloomFilter.ts:19-36 | with no options: radius 3.0, cutoff 0.88, intensity 0.14, edgeBlur 1.5 |
| Bloom.SuppliedKeysOverride | src/filters/BloomFilter.ts:36 | each supplied key wins and each absent key keeps its default, independently |
| Bloom.SuppliedRoundTrip | src/filters/BloomFilter.ts:36 | supplying every key yields exactly those settings |
| Bloom.UniformsDetermineSettings | src/filters/BloomFilter.ts:47-63 | equal uniforms iff equal settings: no setting is lost on the way to the uniforms |
| Curvature.Defaults | src/filters/CurvatureFilter.ts:21-25 | definition: the `default*` record of the wrapper, value for value |
| Curvature.ProgramName | src/filters/CurvatureFilter.ts:45 | definition: the `name` the program is compiled under |
| Curvature.MultisamplePlaceholder | src/filters/CurvatureFilter.ts:39 | definition: the key `MULTISAMPLE` of the substitution map |
| Curvature.Effective | src/filters/CurvatureFilter.ts:21-35 | definition: every key merged over its default, independently |
| Curvature.UniformsOf | src/filters/CurvatureFilter.ts:51-61 | definition: the two curvatures each placed in their own uniform; multisampling has no uniform |
| Curvature.ProcessedFragment | src/filters/CurvatureFilter.ts:38-40 | definition: the fragment substituted with the one value `MULTISAMPLE`, a boolean |
| Curvature.CurvatureFilter.constructor | src/filters/CurvatureFilter.ts:34-66 | the uniforms are the merged curvatures, the program's fragment is the source with `MULTISAMPLE` substituted, its warnings are kept, and `uResolution` is a fresh zeroed pair |
| Curvature.CurvatureFilter.Apply | src/filters/CurvatureFilter.ts:68-77 | the buffer becomes the frame's width and height, then the call is delegated with the same `clearMode` |
| Curvature.DefaultSettings | src/filters/CurvatureFilter.ts:21-35 | with no options: curvatureX 0.15, curvatureY 0.15, multisampling on |
| Curvature.SuppliedKeysOverride | src/filters/CurvatureFilter.ts:35 | each supplied key wins and each absent key keeps its default, independently |
| Curvature.SuppliedRoundTrip | src/filters/CurvatureFilter.ts:35 | supplying every key yields exactly those settings |
| Curvature.UniformsIgnoreMultisampling | src/filters/CurvatureFilter.ts:28-61 | the uniforms are equal exactly when both curvatures are: multisampling is structural |
| Curvature.MultisampleInShader | src/filters/CurvatureFilter.ts:38-40 | anywhere in the shader, `{{MULTISAMPLE}}` becomes "1" with multisampling on and "0" with it off; the text on either side is substituted on its own and kept around it, with its warnings in order |
| Curvature.MultisamplingReachesShader | src/filters/CurvatureFilter.ts:38-40 | when the shader uses the placeholder, the two settings give different fragment sources |
| Curvature.NoWarningForMultisample | src/filters/CurvatureFilter.ts:38-40 | a shader using no other placeholder compiles without a warning |
| Vignette.Defaults | src/filters/VignetteFilter.ts:15-19 | definition: the `default*` record of the wrapper, value for value |
| Vignette.ProgramName | src/filters/VignetteFilter.ts:34 | definition: the `name` the program is compiled under |
| Vignette.Effective | src/filters/VignetteFilter.ts:15-29 | definition: every key merged over its default, independently |
| Vignette.UniformsOf | src/filters/VignetteFilter.ts:40-53 | definition: each setting placed in its own uniform |
| Vignette.New | src/filters/VignetteFilter.ts:28-58 | definition: the uniforms of the merged settings, and the program of the vertex and fragment sources under "vignette-filter" |
| Vignette.DefaultFilter | src/filters/VignetteFilter.ts:15-29 | with no options the uniforms are intensity 0.4, radius 0.8, softness 0.5 |
| Vignette.SuppliedKeysOverride | src/filters/VignetteFilter.ts:29-53 | each uniform is its supplied key, or its default when the key is absent, independently |
| Vignette.SuppliedRoundTrip | src/filters/VignetteFilter.ts:29 | supplying every key yields exactly those settings |
| Vignette.FragmentUnmodified | src/filters/VignetteFilter.ts:31-35 | the fragment source reaches the program unmodified, under "vignette-filter" |
| Vignette.UniformsDetermineSettings | src/filters/VignetteFilter.ts:40-53 | equal uniforms iff equal settings: no setting is lost on the way to the uniforms |
| ColorAdjustment.Defaults | src/filters/ColorAdjustmentFilter.ts:15-20 | definition: the `default*` record of the wrapper, value for value |
| ColorAdjustment.ProgramName | src/filters/ColorAdjustmentFilter.ts:35 | definition: the `name` the program is compiled under |
| ColorAdjustment.Effective | src/filters/ColorAdjustmentFilter.ts:15-30 | definition: every key merged over its default, independently |
| ColorAdjustment.UniformsOf | src/filters/ColorAdjustmentFilter.ts:41-55 | definition: each setting placed in its own uniform |
| ColorAdjustment.New | src/filters/ColorAdjustmentFilter.ts:29-59 | definition: the uniforms of the merged settings, and the program of the vertex and fragment sources under "color-adjustment-filter" |
| ColorAdjustment.DefaultFilter | src/filters/ColorAdjustmentFilter.ts:15-30 | with no options gamma, saturation and brightness are all 1.0 |
| ColorAdjustment.SuppliedKeysOverride | src/filters/ColorAdjustmentFilter.ts:30-55 | each uniform is its supplied key, or its default when the key is absent, independently |
| ColorAdjustment.SuppliedRoundTrip | src/filters/ColorAdjustmentFilter.ts:30 | supplying every key yields exactly those settings |
| ColorAdjustment.FragmentUnmodified | src/filters/ColorAdjustmentFilter.ts:32-36 | the fragment source reaches the program unmodified, under "color-adjustment-filter" |
| ColorAdjustment.UniformsDetermineSettings | src/filters/ColorAdjustmentFilter.ts:41-55 | equal uniforms iff equal settings: no setting is lost on the way to the uniforms |
| CrtFilters.StageOrder | src/filters/crtFilters.ts:47-79 | definition: the seven stages in push order, rounded corners first and colour adjustment last |
| CrtFilters.Enabled | src/filters/crtFilters.ts:48-77 | definition: the `!== false` guard, so `undefined` and an options record both enable the stage |
| CrtFilters.Rank | src/filters/crtFilters.ts:47-79 | every stage has a position in the fixed order |
| CrtFilters.Select | src/filters/crtFilters.ts:47-79 | definition: the stages of a list whose option is not `false`, in the list's order |
| CrtFilters.PipelineStages | src/filters/crtFilters.ts:45-81 | definition: the enabled stages of the fixed order, which is the specification `CrtFilters.CrtFilters` is proved against |
| CrtFilters.Argument | src/filters/crtFilters.ts:36-49 | definition: the wrapper receives the stage's options record, or `{}` through its parameter default when the key is `undefined` |
| CrtFilters.Configured | src/filters/crtFilters.ts:48-79 | definition: a filter is its stage's wrapper constructed from that stage's argument and shader sources |
| CrtFilters.CrtFilters | src/filters/crtFilters.ts:36-82 | the result lists exactly the enabled stages in the fixed order, and each filter is its stage's wrapper built from that stage's option; every input is accepted |
| CrtFilters.PushUnlessDisabled | src/filters/crtFilters.ts:48-50 | one guarded push: the list gains this stage's filter exactly when its option is not `false`, and is otherwise unchanged |
| CrtFilters.Construct | src/filters/crtFilters.ts:49-78 | the wrapper gets the stage's option as it is, or `{}` for `undefined` |
| CrtFilters.AllConfiguredEach | src/filters/crtFilters.ts:45-81 | a list built filter by filter has every element configured |
| CrtFilters.Push | src/filters/crtFilters.ts:48-79 | pushing an enabled stage's filter extends the assembled prefix by one stage |
| CrtFilters.Skip | src/filters/crtFilters.ts:48-79 | a disabled stage extends the assembled prefix without a filter |
| CrtFilters.SelectAppend | src/filters/crtFilters.ts:48-79 | selection over one more stage appends that stage exactly when it is enabled |
| CrtFilters.SelectStep | src/filters/crtFilters.ts:48-79 | the selected stages grow by stage `n` of the fixed order exactly when it is enabled |
| CrtFilters.SelectMembers | src/filters/crtFilters.ts:48-79 | a stage is selected iff it is listed and enabled |
| CrtFilters.SelectKeepsOrder | src/filters/crtFilters.ts:47-79 | selection keeps stages in strictly increasing order |
| CrtFilters.SelectLength | src/filters/crtFilters.ts:45-81 | the enabled and the disabled stages together account for every listed stage |
| CrtFilters.StageIncludedIffEnabled | src/filters/crtFilters.ts:48-79 | a stage is in the pipeline exactly when its option is not `false`; `undefined` includes it |
| CrtFilters.StagesInFixedOrder | src/filters/crtFilters.ts:47-79 | the pipeline is a subsequence of the fixed order, so no stage appears twice |
| CrtFilters.FixedOrderInOrder | src/filters/crtFilters.ts:47-79 | the fixed order itself is strictly increasing |
| CrtFilters.DisabledStages | src/filters/crtFilters.ts:48-79 | the disabled stages number exactly the options set to `false` |
| CrtFilters.DisabledAlongOrder | src/filters/crtFilters.ts:48-79 | counted over the seven stages of the fixed order, the disabled stages number the options set to `false` |
| CrtFilters.DisabledStep | src/filters/crtFilters.ts:48-79 | each further stage adds one disabled stage exactly when its option is `false` |
| CrtFilters.OffAlongOrder | src/filters/crtFilters.ts:48-79 | position `k` of the fixed order is governed by the `k`-th option |
| CrtFilters.WholeOrder | src/filters/crtFilters.ts:47-79 | the seven positions cover the whole fixed order |
| CrtFilters.PipelineLength | src/filters/crtFilters.ts:45-81 | the pipeline's length is 7 minus the number of options set to `false` |
| CrtFilters.AllDisabledIsEmpty | src/filters/crtFilters.ts:45-81 | all seven options `false` gives no filter |
| CrtFilters.AllDefaultIsFullPipeline | src/filters/crtFilters.ts:45-81 | all seven options `undefined` gives all seven stages in the fixed order |
| CrtFilters.AllDefaultAlongOrder | src/filters/crtFilters.ts:45-81 | with every option `undefined`, each of the seven positions contributes its stage |

## Left out

- The GLSL sources (`*.frag?raw`) and `defaultVertex` are not part of this model. Every constructor takes them as `vertex`/`fragment` parameters, and the composer takes them as `ShaderSources`.
- `GlProgram.from`, the `Filter` base constructor and `super.apply` are pixi.js internals. A program is the record of its inputs, and a delegation is the record of its arguments (`Pixi.EngineApply`). What the engine renders is not modelled.
- Float uniforms are `real`: they are only copied, never computed with. The f32 rounding of `Float32Array` is not modelled. Frame sizes are naturals stored as reals.
- `Decimal.DecimalText`: `String(n)` switches to exponent form (`"1e+21"`) from 10^21 on, and a JavaScript number is exact only up to 2^53. The model renders every natural in plain decimal. A sample count that large is far outside what a shader loop can use.
- `Placeholders.Render`: numbers are naturals rendered in decimal. JavaScript's `String(number)` for negative, fractional or exponent-form numbers is not modelled, because the filters substitute only `numSamples`.
- `console.warn` is output. `Replace` returns the warnings as a list in emission order instead.
- `Placeholders.Replace`: `placeholder in values` also finds keys on `Object.prototype` (such as `constructor`). The map here has only its own keys.
- `{...defaults, ...options}` also copies a key explicitly set to `undefined` over the default. Options here tell "absent" (`None`) from a value and do not represent an explicit `undefined`.
- The `uniforms` records are `const` fields, because no code in these files writes them after construction. That `Apply` leaves them unchanged therefore holds by construction, not by a stated contract.
- `Scanlines.ScanlinesFilter.Apply`, `PhosphorMask.PhosphorMaskFilter.Apply`, `Bloom.BloomFilter.Apply`, `Curvature.CurvatureFilter.Apply`: that two calls with the same input leave the same state follows from the postcondition, which does not depend on the old buffer. No separate lemma states it.
- `CrtFilters.CrtFilters`: the postcondition does not restate that each class-based filter's `uResolution` buffer is fresh and zeroed. The constructors state this themselves.
- `CrtFilters.Configured`: for the four class-based filters it fixes the uniforms, the program, the warnings and `Valid()`, but not the contents of the `uResolution` buffer.
- `Rescan.ReplaceIdempotent`: proved under isolation of known placeholders as well as brace-free renderings, because with brace-free renderings alone it is false (`Rescan.NestedPlaceholderRescanned`).
