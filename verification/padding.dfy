/** The padding bookkeeping around inference (`pre_process`, `pre_process_numpy`,
    `post_process`): a pre-pad of `prePad` rows and columns on the bottom and right
    edges, an alignment pad that makes height and width multiples of a scale-dependent
    divisor, and their removal, scaled, from the upscaled output.

    Both pre-processing variants (torch tensor and numpy array) do the same
    arithmetic; only shapes are modelled, the reflected sample values are not. */
module Padding {
  import opened Errors
  import opened Geometry
  import Arith

  /** The alignment divisor `mod_scale`: 2 for a x2 network, 4 for a x1 network (which
      unshuffles its input by 4), and none for any other scale. */
  function ModScale(scale: nat): (r: Option<nat>)
    ensures r.Some? <==> scale == 1 || scale == 2
    ensures r.Some? ==> r.value > 0 && r.value * scale == 4
  {
    if scale == 2 then Some(2)
    else if scale == 1 then Some(4)
    else None
  }

  /** `dim + k` is a multiple of `m`. */
  predicate AlignedAfter(dim: nat, k: nat, m: nat)
    requires m > 0
  {
    (dim + k) % m == 0
  }

  /** The rows (or columns) added so that `dim` becomes a multiple of `m`: the least
      non-negative amount that does it. */
  function ModPad(dim: nat, m: nat): (r: nat)
    requires m > 0
    ensures r < m
    ensures AlignedAfter(dim, r, m)
    ensures r == 0 <==> dim % m == 0
    ensures forall k :: 0 <= k < r ==> !AlignedAfter(dim, k, m)
  {
    ModPadIsLeast(dim, m);
    if dim % m != 0 then m - dim % m else 0
  }

  lemma ModPadIsLeast(dim: nat, m: nat)
    requires m > 0
    ensures dim % m != 0 ==> AlignedAfter(dim, m - dim % m, m)
    ensures dim % m != 0 ==> forall k :: 0 <= k < m - dim % m ==> !AlignedAfter(dim, k, m)
  {
    var q := dim / m;
    var rem := dim % m;
    assert dim == q * m + rem;
    if rem != 0 {
      Arith.DivModUnique(q + 1, m, 0);
      assert dim + (m - rem) == (q + 1) * m + 0;
      forall k | 0 <= k < m - rem
        ensures !AlignedAfter(dim, k, m)
      {
        Arith.DivModUnique(q, m, rem + k);
        assert dim + k == q * m + (rem + k);
      }
    }
  }

  /** The padding recorded by pre-processing and consumed by post-processing. Without
      an alignment divisor no alignment pad is applied and the counts are zero. */
  datatype PaddingState = PaddingState(prePad: nat, modScale: Option<nat>, modPadH: nat, modPadW: nat)

  /** The recorded padding together with the padded height and width. */
  datatype Padded = Padded(state: PaddingState, height: nat, width: nat)

  /** Pre-processing of an `h` x `w` image: pre-pad, then alignment pad, both on the
      bottom and right only, so the image keeps its top-left origin. */
  function PreProcess(h: nat, w: nat, prePad: nat, scale: nat): (r: Padded)
    ensures r.state.prePad == prePad && r.state.modScale == ModScale(scale)
    ensures r.height == h + prePad + r.state.modPadH
    ensures r.width == w + prePad + r.state.modPadW
    ensures r.state.modScale.None? ==> r.state.modPadH == 0 && r.state.modPadW == 0
    ensures r.state.modScale.Some? ==>
              var m := r.state.modScale.value;
              && AlignedAfter(r.height, 0, m) && AlignedAfter(r.width, 0, m)
              && r.state.modPadH < m && r.state.modPadW < m
  {
    // a zero pre-pad is skipped by the source; adding zero rows is the same shape
    var h1 := if prePad != 0 then h + prePad else h;
    var w1 := if prePad != 0 then w + prePad else w;
    match ModScale(scale)
    case None => Padded(PaddingState(prePad, None, 0, 0), h1, w1)
    case Some(m) =>
      var padH := ModPad(h1, m);
      var padW := ModPad(w1, m);
      Padded(PaddingState(prePad, Some(m), padH, padW), h1 + padH, w1 + padW)
  }

  /** The length of the Python slice `x[0:stop]` of a sequence of length `n`: a negative
      stop counts from the end, and the result is cut to what exists. */
  function SliceLen(n: nat, stop: int): (r: nat)
    ensures r <= n
    ensures 0 <= stop <= n ==> r == stop
    ensures stop < 0 && n + stop >= 0 ==> r == n + stop
    ensures stop > n ==> r == n
    ensures n + stop < 0 ==> r == 0
  {
    if stop >= 0 then Min(stop, n)
    else Max(n + stop, 0)
  }

  /** `post_process` on the output extent: first drop the alignment pad times the scale,
      then the pre-pad times the scale, each from the bottom and right. */
  function PostProcess(outH: nat, outW: nat, st: PaddingState, scale: nat): (r: (nat, nat))
    ensures r.0 <= outH && r.1 <= outW
    ensures st.modScale.None? && st.prePad == 0 ==> r == (outH, outW)
  {
    var (h1, w1) :=
      if st.modScale.Some? then
        (SliceLen(outH, outH - st.modPadH * scale), SliceLen(outW, outW - st.modPadW * scale))
      else (outH, outW);
    if st.prePad != 0 then
      (SliceLen(h1, h1 - st.prePad * scale), SliceLen(w1, w1 - st.prePad * scale))
    else (h1, w1)
  }

  /** Post-processing of an output plane: a crop from the bottom and right, so every
      kept sample sits where the network wrote it. */
  function PostProcessPlane(out: Plane, st: PaddingState, scale: nat): (r: Plane)
    ensures (r.height, r.width) == PostProcess(out.height, out.width, st, scale)
    ensures r.height <= out.height && r.width <= out.width
    ensures forall y, x :: r.at(y, x) == out.at(y, x)
  {
    var (h, w) := PostProcess(out.height, out.width, st, scale);
    Plane(h, w, out.at)
  }

  /** Post-processing the exact upscale of a pre-processed image gives back a plane of
      exactly the input extent times the scale, anchored at the same top-left origin. */
  lemma {:induction false} PlaneRoundTrip(h: nat, w: nat, prePad: nat, scale: nat, out: Plane)
    requires out.height == PreProcess(h, w, prePad, scale).height * scale
    requires out.width == PreProcess(h, w, prePad, scale).width * scale
    ensures PostProcessPlane(out, PreProcess(h, w, prePad, scale).state, scale) == Plane(h * scale, w * scale, out.at)
  {
    PaddingRoundTrip(h, w, prePad, scale);
  }

  /** Removing exactly `pad * k` from an extent of `(d + pad) * k` leaves `d * k`. */
  lemma StripScaled(d: nat, pad: nat, k: nat)
    ensures SliceLen((d + pad) * k, (d + pad) * k - pad * k) == d * k
  {
    assert (d + pad) * k - pad * k == d * k;
    assert d * k <= (d + pad) * k by {
      Arith.MulMono(d, d + pad, k);
    }
  }

  /** Round trip on one axis: an extent padded by `pre` and then `mod`, upscaled by the
      network, shrinks back to `d * scale` in post-processing. */
  lemma {:induction false} AxisRoundTrip(d: nat, pre: nat, modPad: nat, aligned: bool, scale: nat)
    requires !aligned ==> modPad == 0
    ensures
      var n := (d + pre + modPad) * scale;
      var n1 := if aligned then SliceLen(n, n - modPad * scale) else n;
      var n2 := if pre != 0 then SliceLen(n1, n1 - pre * scale) else n1;
      n1 == (d + pre) * scale && n2 == d * scale
  {
    StripScaled(d + pre, modPad, scale);
    StripScaled(d, pre, scale);
  }

  /** Shape round trip of pre- and post-processing: for every image extent, pre-pad,
      scale and network that upscales its input exactly by `scale`, the post-processed
      output is exactly the input extent times the scale. */
  lemma {:induction false} PaddingRoundTrip(h: nat, w: nat, prePad: nat, scale: nat)
    ensures
      var p := PreProcess(h, w, prePad, scale);
      PostProcess(p.height * scale, p.width * scale, p.state, scale) == (h * scale, w * scale)
  {
    var p := PreProcess(h, w, prePad, scale);
    assert p.height == h + prePad + p.state.modPadH;
    assert p.width == w + prePad + p.state.modPadW;
    AxisRoundTrip(h, prePad, p.state.modPadH, p.state.modScale.Some?, scale);
    AxisRoundTrip(w, prePad, p.state.modPadW, p.state.modScale.Some?, scale);
  }
}
