/** `enhance`: the per-image pipeline of the upscaler at the level of shapes and
    decisions. It reads the height and width, picks the sample range (8 or 16 bit),
    classifies the colour mode, runs the network pass (pre-process, tiled or direct
    inference, post-process) on the colour planes and, for RGBA, on the alpha plane or
    a plain resize of it, and finally resizes to `outscale` when that differs from the
    network scale.

    The network is taken to upscale its input by exactly `scale`; sample values,
    colour conversions and interpolation are outside the model. */
module Enhance {
  import opened Errors
  import opened Padding
  import opened Upscaler
  import Backend
  import Stitch

  datatype Mode = L | RGB | RGBA

  /** An input image: its numpy shape, (h, w) or (h, w, c), and its samples. */
  datatype Image = Image(shape: seq<nat>, samples: seq<int>)

  /** What `enhance` returns, as shapes: the output shape, the colour mode, the range the
      samples were normalised by (and are quantised back to), and for an RGBA image the
      extent of the upscaled alpha plane that is merged in as the fourth channel. */
  datatype Enhanced = Enhanced(shape: seq<nat>, mode: Mode, maxRange: nat, alpha: Option<(nat, nat)>)

  /** The alpha upsampler that runs the alpha plane through the network. */
  const NetworkAlpha: string := "realesrgan"

  /** `np.max` of a non-empty sample sequence. */
  function SeqMax(s: seq<int>): (m: int)
    requires |s| > 0
    ensures forall i :: 0 <= i < |s| ==> s[i] <= m
    ensures exists i :: 0 <= i < |s| && s[i] == m
  {
    if |s| == 1 then s[0]
    else
      var rest := SeqMax(s[1..]);
      assert forall i :: 1 <= i < |s| ==> s[i] == s[1..][i - 1];
      if s[0] >= rest then s[0] else rest
  }

  /** The normalisation range: 65535 when some sample exceeds 256 (a 16-bit image),
      255 otherwise; an image without samples has no maximum. */
  function MaxRange(samples: seq<int>): (r: Result<nat>)
    ensures r.Err? <==> |samples| == 0
    ensures r.Err? ==> r.error == EmptyImage
    ensures r.Ok? ==> r.value == 65535 || r.value == 255
    ensures r.Ok? ==> (r.value == 65535 <==> exists i :: 0 <= i < |samples| && samples[i] > 256)
  {
    if |samples| == 0 then Err(EmptyImage)
    else if SeqMax(samples) > 256 then Ok(65535)
    else Ok(255)
  }

  /** The colour mode of an image of rank two or more: a two-dimensional array is
      grayscale, a fourth channel makes it RGBA, and everything else is treated as RGB. */
  function ColourMode(shape: seq<nat>): (m: Mode)
    requires |shape| >= 2
    ensures m == L <==> |shape| == 2
    ensures m == RGBA <==> |shape| > 2 && shape[2] == 4
  {
    if |shape| == 2 then L
    else if shape[2] == 4 then RGBA
    else RGB
  }

  /** The channel dimension of the output: none for grayscale, which is collapsed back to
      one plane, three for RGB, and four once the alpha plane is merged back. */
  function Channels(m: Mode): seq<nat> {
    match m
    case L => []
    case RGB => [3]
    case RGBA => [4]
  }

  /** Whether `enhance` takes the tiled path rather than direct inference. */
  predicate Tiled(u: Upscaler) {
    u.tileSize > 0
  }

  /** One network pass over an `h` x `w` image: the pre-processing dispatch, padding,
      tiled inference (refused by onnx and triton) or direct inference, removal of the
      padding, and the output-conversion dispatch. The result is the output extent. */
  function NetworkPass(u: Upscaler, h: nat, w: nat): (r: Result<(nat, nat)>)
    ensures r.Ok? <==> Valid(u) && (Tiled(u) ==> Backend.SupportsTiling(Backend.Parse(u.backend).value))
    ensures !Valid(u) ==> r == Err(UnknownBackend(u.backend))
    ensures Valid(u) && Tiled(u) && !Backend.SupportsTiling(Backend.Parse(u.backend).value) ==>
              r == Err(TilingUnsupported(u.backend))
    ensures r.Ok? ==> r.value == (h * u.scale, w * u.scale)
  {
    var kind :- Backend.Parse(u.backend);
    var padded := PreProcess(h, w, u.prePad, u.scale);
    var _ :- if Tiled(u) then Backend.CheckTiling(kind) else Process(u);
    // The output conversion dispatches on the backend name once more; the name was
    // accepted above, so that dispatch succeeds.
    var out := PostProcess(padded.height * u.scale, padded.width * u.scale, padded.state, u.scale);
    PaddingRoundTrip(h, w, u.prePad, u.scale);
    Ok(out)
  }

  /** The tiled network pass through `tile_process`: pre-process, tile and stitch the
      padded image, then post-process the stitched canvas. It agrees with `NetworkPass`,
      both on the errors and on the extent. */
  method TiledNetworkPass(u: Upscaler, h: nat, w: nat, net: Stitch.TileNet) returns (r: Result<(nat, nat)>)
    requires Tiled(u)
    ensures r == NetworkPass(u, h, w)
  {
    var kind :- Backend.Parse(u.backend);
    var padded := PreProcess(h, w, u.prePad, u.scale);
    var tiled :- Stitch.TileProcess(kind, padded.height, padded.width, u.tileSize, u.tilePad, u.scale, net);
    PaddingRoundTrip(h, w, u.prePad, u.scale);
    r := Ok(PostProcess(tiled.canvas.height, tiled.canvas.width, padded.state, u.scale));
  }

  /** Python's `int()` of a float: truncation toward zero. */
  function Trunc(x: real): (r: int)
    ensures x >= 0.0 ==> r as real <= x < r as real + 1.0
    ensures x < 0.0 ==> r as real - 1.0 < x <= r as real
  {
    if x >= 0.0 then x.Floor else -((-x).Floor)
  }

  /** The final resize happens when `outscale` is set and differs from the network scale. */
  predicate Rescales(u: Upscaler) {
    u.outscale.Some? && u.outscale.value != u.scale as real
  }

  /** The target extent (height, width) of the final resize: `int()` of the input extent
      times `outscale`. */
  function Target(u: Upscaler, h: nat, w: nat): (int, int)
    requires u.outscale.Some?
  {
    (Trunc(h as real * u.outscale.value), Trunc(w as real * u.outscale.value))
  }

  /** The final resize is possible when both sides of its target are positive. */
  predicate ResizeFits(u: Upscaler, h: nat, w: nat) {
    !Rescales(u) || (Target(u, h, w).0 > 0 && Target(u, h, w).1 > 0)
  }

  /** cv2 refuses an array without pixels. When the network output has none (scale 0),
      the grayscale conversion of an L image, the alpha resize or conversion and the
      BGRA conversion of an RGBA image, and the final resize all raise; only an RGB
      image kept at the network scale comes back, itself without pixels. */
  predicate RejectsEmpty(u: Upscaler, m: Mode, oh: nat, ow: nat) {
    (oh == 0 || ow == 0) && (m != RGB || Rescales(u))
  }

  /** The end of `enhance` once the network pass has given an `h * scale` x `w * scale`
      output: cv2's refusal of an output without pixels, then the optional resize to
      the truncated `outscale` target. */
  function FinalResize(u: Upscaler, h: nat, w: nat, mode: Mode, maxRange: nat, alpha: Option<(nat, nat)>)
    : (r: Result<Enhanced>)
    ensures r.Err? <==> RejectsEmpty(u, mode, h * u.scale, w * u.scale) || !ResizeFits(u, h, w)
    ensures RejectsEmpty(u, mode, h * u.scale, w * u.scale) ==> r == Err(EmptyOutput)
    ensures !RejectsEmpty(u, mode, h * u.scale, w * u.scale) && !ResizeFits(u, h, w) ==> r == Err(EmptyResize)
    ensures r.Ok? ==>
              && r.value.mode == mode && r.value.maxRange == maxRange && r.value.alpha == alpha
              && |r.value.shape| == 2 + |Channels(mode)| && r.value.shape[2..] == Channels(mode)
    ensures r.Ok? && !Rescales(u) ==> r.value.shape[0] == h * u.scale && r.value.shape[1] == w * u.scale
    ensures r.Ok? && Rescales(u) ==>
              r.value.shape[0] == Target(u, h, w).0 && r.value.shape[1] == Target(u, h, w).1
  {
    if RejectsEmpty(u, mode, h * u.scale, w * u.scale) then Err(EmptyOutput)
    else if !Rescales(u) then Ok(Enhanced([h * u.scale, w * u.scale] + Channels(mode), mode, maxRange, alpha))
    else
      var (th, tw) := Target(u, h, w);
      if th <= 0 || tw <= 0 then Err(EmptyResize)
      else Ok(Enhanced([th, tw] + Channels(mode), mode, maxRange, alpha))
  }

  /** `enhance(img, alpha_upsampler)` on shapes. */
  function Enhance(u: Upscaler, img: Image, alphaUpsampler: string): (r: Result<Enhanced>)
    ensures |img.shape| < 2 ==> r == Err(BadShape)
    ensures |img.shape| >= 2 && |img.samples| == 0 ==> r == Err(EmptyImage)
    ensures |img.shape| >= 2 && |img.samples| > 0 && !Valid(u) ==> r == Err(UnknownBackend(u.backend))
    ensures (&& |img.shape| >= 2 && |img.samples| > 0 && Valid(u) && Tiled(u)
             && !Backend.SupportsTiling(Backend.Parse(u.backend).value)) ==> r == Err(TilingUnsupported(u.backend))
    ensures r.Ok? <==>
              && |img.shape| >= 2 && |img.samples| > 0
              && Valid(u)
              && (Tiled(u) ==> Backend.SupportsTiling(Backend.Parse(u.backend).value))
              && !RejectsEmpty(u, ColourMode(img.shape), img.shape[0] * u.scale, img.shape[1] * u.scale)
              && ResizeFits(u, img.shape[0], img.shape[1])
    ensures (&& |img.shape| >= 2 && |img.samples| > 0 && Valid(u)
             && (Tiled(u) ==> Backend.SupportsTiling(Backend.Parse(u.backend).value))
             && RejectsEmpty(u, ColourMode(img.shape), img.shape[0] * u.scale, img.shape[1] * u.scale))
              ==> r == Err(EmptyOutput)
    ensures (&& |img.shape| >= 2 && |img.samples| > 0 && Valid(u)
             && (Tiled(u) ==> Backend.SupportsTiling(Backend.Parse(u.backend).value))
             && !RejectsEmpty(u, ColourMode(img.shape), img.shape[0] * u.scale, img.shape[1] * u.scale)
             && !ResizeFits(u, img.shape[0], img.shape[1])) ==> r == Err(EmptyResize)
    ensures r.Ok? ==>
              && (r.value.mode == L <==> |img.shape| == 2)
              && (r.value.mode == RGBA <==> |img.shape| > 2 && img.shape[2] == 4)
              && (r.value.maxRange == 65535 || r.value.maxRange == 255)
              && (r.value.maxRange == 65535 <==> exists i :: 0 <= i < |img.samples| && img.samples[i] > 256)
              && |r.value.shape| == 2 + |Channels(r.value.mode)|
              && r.value.shape[2..] == Channels(r.value.mode)
              && (r.value.alpha.Some? <==> r.value.mode == RGBA)
              && (r.value.alpha.Some? ==> r.value.alpha.value == (img.shape[0] * u.scale, img.shape[1] * u.scale))
    ensures r.Ok? && !Rescales(u) ==>
              r.value.shape[0] == img.shape[0] * u.scale && r.value.shape[1] == img.shape[1] * u.scale
    ensures r.Ok? && Rescales(u) ==>
              && r.value.shape[0] == Target(u, img.shape[0], img.shape[1]).0
              && r.value.shape[1] == Target(u, img.shape[0], img.shape[1]).1
  {
    if |img.shape| < 2 then Err(BadShape)
    else
      var h, w := img.shape[0], img.shape[1];
      var maxRange :- MaxRange(img.samples);
      var mode := ColourMode(img.shape);
      var (oh, ow) :- NetworkPass(u, h, w);
      // The alpha plane goes either through the same network pass as the colour planes,
      // which has just succeeded on an image of the same extent, or through a plain
      // resize to h * scale x w * scale.
      var alpha: Option<(nat, nat)> :=
        if mode != RGBA then None
        else if alphaUpsampler == NetworkAlpha then Some((oh, ow))
        else Some((h * u.scale, w * u.scale));
      FinalResize(u, h, w, mode, maxRange, alpha)
  }

  /** The alpha upsampler changes nothing in the result's shape: the network pass and
      the plain resize both give the alpha plane `scale` times the input extent, the
      extent of the upscaled colour planes it is merged into. */
  lemma AlphaUpsamplerIrrelevant(u: Upscaler, img: Image, alphaUpsampler: string)
    ensures Enhance(u, img, alphaUpsampler) == Enhance(u, img, NetworkAlpha)
  {
  }

  /** An upscaler that was constructed successfully enhances every image of rank two or
      more with samples and a feasible final resize, except that tiling on onnx or
      triton is refused and that, at scale 0, only an RGB image kept at the network
      scale survives the empty network output. */
  lemma ConstructedEnhances(cfg: Config, load: Loader, img: Image, alphaUpsampler: string)
    requires Construct(cfg, load).Ok?
    requires |img.shape| >= 2 && |img.samples| > 0
    requires ResizeFits(Construct(cfg, load).value, img.shape[0], img.shape[1])
    ensures var u := Construct(cfg, load).value;
            var r := Enhance(u, img, alphaUpsampler);
            var refused := cfg.tile > 0 && (cfg.backend == "onnx" || cfg.backend == "triton");
            var empty := RejectsEmpty(u, ColourMode(img.shape), img.shape[0] * cfg.scale, img.shape[1] * cfg.scale);
            && (r.Err? <==> refused || empty)
            && (r.Err? ==> r.error == if refused then TilingUnsupported(cfg.backend) else EmptyOutput)
  {
  }

  /** At scale 0 the network output has no pixels: grayscale and RGBA images, and every
      image that is resized to `outscale`, fail on it, while an RGB image kept at the
      network scale comes back with extent 0 x 0. */
  lemma ScaleZeroOutput(u: Upscaler, img: Image, alphaUpsampler: string)
    requires u.scale == 0
    requires |img.shape| >= 2 && |img.samples| > 0
    requires Valid(u) && (Tiled(u) ==> Backend.SupportsTiling(Backend.Parse(u.backend).value))
    ensures var r := Enhance(u, img, alphaUpsampler);
            && (ColourMode(img.shape) != RGB || Rescales(u) ==> r == Err(EmptyOutput))
            && (ColourMode(img.shape) == RGB && !Rescales(u) ==> r.Ok? && r.value.shape == [0, 0, 3])
  {
  }
}
