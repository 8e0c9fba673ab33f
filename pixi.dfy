/** The parts of pixi.js the filters touch, kept opaque: textures and their frames,
    the filter system, a compiled program, and the call a filter's `apply` hands on
    to `Filter.prototype.apply`. */
module Pixi {

  /** `texture.frame`: the region of the texture that is drawn, in pixels. */
  datatype Frame = Frame(width: nat, height: nat)

  /** A `Texture` or `RenderTexture`, identified by `id`. */
  datatype Texture = Texture(id: nat, frame: Frame)

  /** The renderer's `FilterSystem`, identified by `id`. */
  datatype FilterSystem = FilterSystem(id: nat)

  /** What `GlProgram.from({ vertex, fragment, name })` is given. */
  datatype GlProgram = GlProgram(vertex: string, fragment: string, name: string)

  /** One delegation to `super.apply(filterSystem, input, output, clearMode)`, with
      the resolution buffer as it stands at that moment. */
  datatype EngineApply = EngineApply(
    program: GlProgram,
    filterSystem: FilterSystem,
    input: Texture,
    output: Texture,
    clearMode: bool,
    resolution: seq<real>)

  /** `[input.frame.width, input.frame.height]`, as the `vec2<f32>` uniform holds them. */
  function Resolution(input: Texture): seq<real>
  {
    [input.frame.width as real, input.frame.height as real]
  }

  /** `new Float32Array(2)`: a fresh buffer of two zeros. */
  method NewResolution() returns (buffer: array<real>)
    ensures fresh(buffer) && buffer[..] == [0.0, 0.0]
  {
    buffer := new real[2];
    buffer[0], buffer[1] := 0.0, 0.0;
  }
}
