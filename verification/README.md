# Real-ESRGAN upscaler core, modelled in Dafny

This project models the decision logic and the geometry of `RealESRGANer`, the
helper class that runs a Real-ESRGAN super-resolution network over an image:

- **Backend dispatch** (`Backend`): the four backends (torch, onnx, triton,
  huggingface) selected by name, the `ValueError` for an unknown name at construction
  and at every dispatch site, and the `NotImplementedError` that onnx and triton raise
  for tiled inference.
- **Padding** (`Padding`): the pre-pad and the alignment pad (`mod_scale` 2 for a x2
  network, 4 for a x1 network) added on the bottom and right by `pre_process` and
  `pre_process_numpy`, and their removal, scaled, by `post_process`, including Python's
  slice semantics for the crop bounds.
- **Tiling** (`Tiling`, `Stitch`): the grid of `tile_size` tiles, each tile's input,
  padded, output and crop rectangles, the row-major visiting order and progress index,
  and `tile_process` itself as a loop that pastes each crop into a zero canvas. The
  network is an abstract function from a padded rectangle to its raw output.
- **Weights** (`Dni`, `Upscaler`): deep network interpolation of two checkpoints
  (`w0 * a + w1 * b` over one parameter group), the choice of `params_ema` over
  `params`, and the constructor's checks on `model_path` and `dni_weight`.
- **`enhance`** (`Enhance`): bit depth (65535 when a sample exceeds 256, else 255),
  colour mode (L, RGB, RGBA), the network pass, the alpha plane (network or resize),
  the final `outscale` resize and the shape of what is returned.

Exceptions become constructors of `Errors.Error` carried in a `Result`; the order in
which the source would raise them is kept. Images are reduced to their shapes, plus the
sample sequence where a decision reads samples; the output canvas of tiling is a plane
of reals indexed by (row, column).

## Model

| member | source | states |
|---|---|---|
| `Backend.Parse` | realesrgan/utils.py:384-393 | a backend name is accepted exactly when it is one of the four known names, names the backend it selects, and is otherwise rejected with the unknown-backend error carrying the name |
| `Backend.CheckTiling` | realesrgan/utils.py:263-266 | tiled inference is refused exactly for onnx and triton, with the error naming the backend |
| `Padding.ModScale` | realesrgan/utils.py:214-217 | an alignment divisor exists only for scales 1 and 2, and divisor times scale is always 4 |
| `Padding.ModPad` | realesrgan/utils.py:218-224 | the alignment pad is below the divisor, makes the extent a multiple of it, is zero exactly for an already aligned extent, and no smaller pad aligns it |
| `Padding.PreProcess` | realesrgan/utils.py:166-227 | the padded extent is the input plus pre-pad plus alignment pad, aligned to the divisor when there is one and unpadded for alignment otherwise |
| `Padding.SliceLen` | realesrgan/utils.py:341-355 | a Python `0:stop` slice keeps `stop` elements for an in-range stop, counts a negative stop from the end, keeps everything for a stop past the end and nothing for a stop before the start |
| `Padding.PostProcess` | realesrgan/utils.py:337-356 | post-processing never grows the output extent and leaves it alone when nothing was padded; `Padding.PaddingRoundTrip` states what it restores |
| `Padding.PostProcessPlane` | realesrgan/utils.py:337-356 | post-processing a plane keeps exactly the extent the two crops leave and only crops from the bottom and right: every kept sample is the network's sample at the same position |
| `Padding.PlaneRoundTrip` | realesrgan/utils.py:337-356 | post-processing the exact upscale of a pre-processed image gives a plane of exactly the input extent times the scale with the top-left origin kept |
| `Padding.AxisRoundTrip` | realesrgan/utils.py:344-355 | on one axis, removing the scaled alignment pad and then the scaled pre-pad from the upscaled padded extent leaves exactly the input extent times the scale |
| `Padding.PaddingRoundTrip` | realesrgan/utils.py:337-356 | for every image extent, pre-pad and scale, pre-processing followed by an exact upscale and post-processing gives exactly the input extent times the scale |
| `Tiling.AxisAt` | realesrgan/utils.py:282-325 | one tile's input, padded, output and crop intervals along an axis; their meaning (clamping, containment, crop fit) is stated by `Tiling.AxisTileFits` |
| `Tiling.TileCount` | realesrgan/utils.py:275-276 | the tile count is the least number of tiles that covers the extent, and zero only for an empty extent |
| `Tiling.AxisTileFits` | realesrgan/utils.py:282-325 | along an axis every tile's padded interval is clamped to the image, contains the non-empty input interval and extends it by exactly the tile pad except at an image edge; its output interval lies in the upscaled axis and its crop lies in the raw output and has the output interval's length |
| `Tiling.Grid` | realesrgan/utils.py:279-280 | the loop visits tiles_y times tiles_x tiles |
| `Tiling.GridAt` | realesrgan/utils.py:279-299 | the k-th visited tile is in grid row k / tiles_x and column k % tiles_x, inside the grid, with progress index k + 1 |
| `Tiling.GridRowMajor` | realesrgan/utils.py:279-280 | tiles are visited row by row, left to right inside a row |
| `Tiling.AxisOwner` | realesrgan/utils.py:282-288 | along an axis, a pixel lies in the input interval of tile i exactly when i is the pixel divided by the tile size |
| `Tiling.AxisOutputOwner` | realesrgan/utils.py:316-319 | along an axis, an output pixel lies in the output interval of tile i exactly when i is the pixel divided by the scale and then by the tile size |
| `Tiling.GridInputPartition` | realesrgan/utils.py:279-299 | every image pixel lies in the input rectangle of exactly one tile: no gaps, no overlaps |
| `Tiling.GridOutputPartition` | realesrgan/utils.py:316-319 | every pixel of the upscaled canvas lies in the output rectangle of exactly one tile: no gaps, no overlaps |
| `Tiling.GridTilesFit` | realesrgan/utils.py:282-335 | every tile's padded rectangle holds its input rectangle and lies in the image, its output rectangle lies in the canvas, and its crop lies in the raw output and matches the output rectangle in size |
| `Stitch.Paste` | realesrgan/utils.py:327-335 | the slice assignment of one tile keeps the canvas extent, writes the tile's raw output inside its output rectangle and changes nothing outside it |
| `Stitch.StitchAll` | realesrgan/utils.py:268-274 | pasting any sequence of tiles keeps the extent of the canvas allocated up front |
| `Stitch.StitchOwned` | realesrgan/utils.py:327-335 | a canvas pixel covered by exactly one pasted tile holds that tile's raw-output sample, whatever the paste order |
| `Stitch.OutputOwner` | realesrgan/utils.py:316-319 | every canvas pixel has an owning tile inside the grid |
| `Stitch.GridVisit` | realesrgan/utils.py:279-299 | the tile built at loop position (y, x) is tile y * tiles_x + x of the grid |
| `Stitch.TiledPixel` | realesrgan/utils.py:268-335 | in the stitched canvas every pixel holds the raw output of its one owning tile, read at a position inside that tile's crop |
| `Stitch.TileProcess` | realesrgan/utils.py:256-335 | tiling fails exactly on onnx and triton, before any tile; otherwise the canvas is scale times the input, the visited tiles are the whole grid in row-major order with indices 1..n, and every canvas pixel holds its owning tile's raw output |
| `Stitch.TiledMatchesDirect` | realesrgan/utils.py:316-335 | for a network that looks at no neighbours, the tiled canvas equals the direct output at every pixel: the crop offsets put each tile's samples back in place |
| `Dni.Blend` | realesrgan/utils.py:154-164 | interpolation succeeds exactly when the group exists in the first checkpoint and, unless it is empty, two weights exist and the second checkpoint has the group and all its parameters; it fails with the first missing lookup; on success every parameter of the group is w0 * a + w1 * b and everything else is unchanged |
| `Dni.BlendExample` | realesrgan/utils.py:162-163 | weights 0.3 and 0.7 on parameters 1.0 and 2.0 give 1.7 |
| `Dni.BlendFirstOnly` | realesrgan/utils.py:162-163 | weights (1, 0) return the first checkpoint unchanged |
| `Dni.BlendSymmetric` | realesrgan/utils.py:162-163 | swapping the checkpoints together with the weights blends the same values |
| `Dni.StateKey` | realesrgan/utils.py:105-109 | `params_ema` is chosen exactly when the checkpoint has it, `params` otherwise |
| `Dni.LoadStateDict` | realesrgan/utils.py:105-110 | the loaded group is `params_ema` when present, else `params`, else a `KeyError` for `params` |
| `Dni.LoadDniAsWritten` | realesrgan/utils.py:92-110 | as written: loading succeeds exactly when the `params` blend does, fails with its error (a `KeyError` for `params` when the first checkpoint lacks that group, even if it has `params_ema`), loads the first checkpoint's `params_ema` untouched by the interpolation whenever it exists, and otherwise the blend w0 * a + w1 * b over `params` |
| `Dni.DniIgnoredWithEma` | realesrgan/utils.py:92-110 | on two checkpoints with `params_ema`, the as-written loading gives 1.0 where the interpolation gives 1.5 |
| `Dni.LoadDni` | realesrgan/utils.py:92-110 | interpolation into the group that is loaded: the loaded parameters are exactly w0 * a + w1 * b over that group |
| `Upscaler.TorchWeights` | realesrgan/utils.py:87-110 | a path list without weights, of a different length than the weights, or of fewer than two entries fails with the matching error; two or more paths load the first two checkpoints through the interpolation as written (`Dni.LoadDniAsWritten`); one path loads its preferred group |
| `Upscaler.TorchWeightsCorrected` | realesrgan/utils.py:87-110 | with the interpolation written into the loaded group, two or more paths load exactly w0 * a + w1 * b over the first checkpoint's preferred group, and succeed exactly when that group exists in the first checkpoint and is empty or has all its parameters in the second; every other case is as in `Upscaler.TorchWeights` |
| `Upscaler.CorrectionOnlyForEma` | realesrgan/utils.py:92-110 | for a first checkpoint without `params_ema` the corrected and the as-written loading agree on every input |
| `Upscaler.Construct` | realesrgan/utils.py:59-152 | construction fails on an unknown backend with that error, and otherwise exactly when the torch weights fail, with their error (the length `AssertionError` among them); a constructed upscaler keeps the configuration, and holds weights exactly on torch, the ones loaded from the checkpoints |
| `Upscaler.Process` | realesrgan/utils.py:229-254 | direct inference dispatches exactly for one of the four known backend names, to the backend of that name, and raises the unknown-backend error carrying the name otherwise |
| `Upscaler.ConstructedDispatches` | realesrgan/utils.py:151-152 | a constructed upscaler never reaches the unknown-backend branch of a dispatch site |
| `Enhance.SeqMax` | realesrgan/utils.py:363 | the maximum bounds every sample and is one of them |
| `Enhance.MaxRange` | realesrgan/utils.py:363-368 | the range is 65535 exactly when some sample exceeds 256, 255 otherwise, and an image without samples is an error |
| `Enhance.ColourMode` | realesrgan/utils.py:369-381 | a rank-two image is L, a fourth channel makes RGBA, everything else is RGB |
| `Enhance.NetworkPass` | realesrgan/utils.py:383-413 | a pass fails on an unknown backend and on tiling with onnx or triton and otherwise returns exactly the input extent times the scale |
| `Enhance.Trunc` | realesrgan/utils.py:472-473 | Python's `int()` on a float truncates toward zero |
| `Enhance.TiledNetworkPass` | realesrgan/utils.py:383-400 | the tiled pass run through `tile_process` on the pre-processed extent and then post-processed agrees with the network pass, on the errors and on the extent |
| `Enhance.FinalResize` | realesrgan/utils.py:412-478 | after the network pass, an output without pixels fails for an L or RGBA image or a rescale, a resize target with a side of zero or less fails, and otherwise the mode, range and alpha are kept and the extent is the network's or the truncated target |
| `Enhance.Enhance` | realesrgan/utils.py:359-478 | errors in the source's order (rank below two, no samples, backend, tiling, a network output without pixels for an L or RGBA image or a rescale, empty resize target); on success the mode follows the shape, the range is 65535 or 255 and 65535 exactly when a sample exceeds 256, the output has the mode's channels, the alpha plane matches the upscaled colour planes, and the extent is scale times the input or the truncated `outscale` target |
| `Enhance.AlphaUpsamplerIrrelevant` | realesrgan/utils.py:415-460 | the choice of alpha upsampler does not change the result's shape |
| `Enhance.ConstructedEnhances` | realesrgan/utils.py:359-478 | a constructed upscaler enhances every image of rank two with samples and a feasible resize, failing exactly for tiling on onnx or triton and for a network output without pixels that cv2 must convert or resize, each with its own error |
| `Enhance.ScaleZeroOutput` | realesrgan/utils.py:412-470 | at scale 0 the empty network output makes grayscale and RGBA images and every rescale fail with the cv2 error, and an RGB image kept at the network scale comes back with extent 0 x 0 |

Points of the code that the model follows closely:

- The final resize target is `int()` of the input extent times `outscale`, which
  truncates toward zero; `Enhance.Trunc` models it.
- A missing parameter group raises a plain `KeyError` (`Errors.MissingKey`).
- Interpolation does not require equal key sets: the second checkpoint may carry extra
  parameters, which are ignored, and only a parameter of the first checkpoint missing
  from the second fails (`Errors.MissingParam`). Only the first two weights and paths
  are used, and the length check compares the path list with the weight list.

## Findings

| source | as written | input that shows it | evidently intended | confidence | as-written member | corrected member |
|---|---|---|---|---|---|---|
| realesrgan/utils.py:92-110 | `dni` blends the `params` group, but the loader then prefers `params_ema` whenever the first checkpoint has it, so the blend is discarded | two checkpoints, each with `params` and `params_ema` holding w = 1.0 and w = 2.0, weights [0.5, 0.5]: the loaded w is 1.0 | the loaded weights are the interpolation, w = 1.5 | not executed; medium (checkpoints with only `params` are unaffected) | `Dni.LoadDniAsWritten` | `Dni.LoadDni` |

`Dni.DniIgnoredWithEma` proves both values for that input. `Upscaler.TorchWeights`, and
through it `Upscaler.Construct`, keep the behaviour as written;
`Upscaler.TorchWeightsCorrected` is the same loading with the corrected `Dni.LoadDni`.

## Left out

- The network itself, the onnx and triton sessions, the huggingface model download and
  the checkpoint file reads: the tile network is an abstract function, the whole-image
  network is taken to upscale by exactly `scale`, and checkpoint reading is a `Loader`
  parameter.
- Sample values: reflect padding, colour conversions, clamping, quantisation with
  rounding, and the linear and Lanczos interpolation of the resizes. Only shapes and
  the decisions that read samples (the maximum) are modelled.
- `Enhance.MaxRange`: samples are integers, while the source compares the image after
  its conversion to float32 with 256; the two agree for every integer image.
- `Dni.Blend`: a parameter tensor is one exact real, while the source multiplies and
  adds float tensors elementwise, with float rounding.
- `Padding.PreProcess`: on the torch and huggingface paths, `F.pad` in reflect mode
  (realesrgan/utils.py:211 and 225) raises when a pad is not smaller than the extent it
  pads; that error for tiny images is not modelled. The `np.pad` of the onnx and triton
  paths (realesrgan/utils.py:176-180 and 194-198) reflects repeatedly and does not fail
  on a non-empty axis, as in the model.
- `Stitch.TileProcess`: a tile whose inference raises `RuntimeError` is reported, and
  the previous tile's raw output is cropped at this tile's offsets and pasted, or the
  assignment raises when that output is too small for the crop (a `NameError` on the
  first tile); the model assumes every tile's inference succeeds.
- `Tiling.TileCount`: `math.ceil` of a float quotient is modelled as the exact integer
  ceiling; the two differ only for extents beyond float precision.
- `Enhance.Enhance`: `cv2.cvtColor` rejecting a channel count other than 3 or 4 and
  the squeeze of a unit-sized output axis are not modelled; a three-dimensional image
  with any channel count other than 4 is treated as RGB.
- `Enhance.Enhance`: the `outscale` target is computed on exact reals, while the source
  multiplies double-precision floats before `int()`; where the float product falls
  just below or above an integer (100 * 0.57 is 56.99999999999999 in floats) the two
  targets can differ by one.
- `Enhance.Enhance`: an image whose sample count does not match its shape is not
  ruled out; the shape and the samples are independent inputs.
- Device selection, half precision (the `half` argument is not part of the model), `strict=True` key matching in `load_state_dict`,
  and the progress and error messages printed to the console.
- Negative `tile`, `tile_pad` or `pre_pad` values: the model takes them as natural
  numbers.
- The threaded reader and writer helpers outside the upscaler class (prefetching input
  images and saving outputs) are not part of this model.
