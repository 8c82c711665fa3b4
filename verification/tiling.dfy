/** Tile geometry of `tile_process`: the grid of `size` x `size` tiles over an image,
    each tile's input rectangle, its padded rectangle clamped to the image, the
    rectangle it fills in the upscaled output and the crop taken from the network's
    raw output for it. */
module Tiling {
  import opened Geometry
  import Arith

  /** `ceil(dim / size)`: the least number of tiles of edge `size` that covers `dim`. */
  function TileCount(dim: nat, size: nat): (r: nat)
    requires size > 0
    ensures dim <= r * size
    ensures r == 0 || (r - 1) * size < dim
    ensures r == 0 <==> dim == 0
  {
    var r := (dim + size - 1) / size;
    Arith.DivCharacterised(dim + size - 1, size, r);
    r
  }

  /** One tile's intervals along one axis: the unpadded input interval, the padded input
      interval, the output interval it fills, and the crop inside the raw tile output. */
  datatype AxisTile = AxisTile(input: Span, padded: Span, output: Span, crop: Span)

  /** The intervals of the tile in position `i` along an axis of length `dim`: the input
      interval starts at i * size and is cut at the image edge, the padded interval grows
      it by `pad` on each side clamped to the image, the output interval is the input
      interval upscaled, and the crop skips the upscaled low-side padding. */
  function AxisAt(i: nat, size: nat, pad: nat, dim: nat, scale: nat): AxisTile {
    var input := Span(i * size, Min(i * size + size, dim));
    var padded := Span(Max(input.lo - pad, 0), Min(input.hi + pad, dim));
    var cropLo := (input.lo - padded.lo) * scale;
    AxisTile(input, padded, input.Scaled(scale), Span(cropLo, cropLo + input.Len() * scale))
  }

  /** The padded interval of an existing tile is clamped to the image and contains the
      tile's non-empty input interval; it extends each side by at most `pad`, and by less
      only where it meets the image edge. The crop lies inside the raw network output for
      the padded interval and is as long as the output interval it is copied into, which
      lies inside the upscaled axis. */
  lemma AxisTileFits(i: nat, size: nat, pad: nat, dim: nat, scale: nat)
    requires size > 0 && i < TileCount(dim, size)
    ensures var a := AxisAt(i, size, pad, dim, scale);
            && 0 <= a.padded.lo <= a.input.lo < a.input.hi <= a.padded.hi <= dim
            && a.input.Len() <= size
            && a.input.lo - a.padded.lo <= pad && a.padded.hi - a.input.hi <= pad
            && (a.padded.lo == 0 || a.input.lo - a.padded.lo == pad)
            && (a.padded.hi == dim || a.padded.hi - a.input.hi == pad)
            && 0 <= a.output.lo && a.output.hi <= dim * scale
            && a.output.Len() == a.input.Len() * scale
            && a.crop.Len() == a.output.Len()
            && 0 <= a.crop.lo && a.crop.hi <= a.padded.Len() * scale
  {
    var a := AxisAt(i, size, pad, dim, scale);
    var n := TileCount(dim, size);
    Arith.MulMono(i, n - 1, size);
    assert 0 <= a.padded.lo <= a.input.lo < a.input.hi <= a.padded.hi <= dim;
    ScaledIntervals(a.input.lo, a.input.hi, a.padded.lo, a.padded.hi, dim, scale);
  }

  /** The scaled facts behind `AxisTileFits`, for any nested intervals
      [plo, phi) containing [lo, hi) inside [0, dim). */
  lemma ScaledIntervals(lo: int, hi: int, plo: int, phi: int, dim: int, scale: nat)
    requires 0 <= plo <= lo <= hi <= phi <= dim
    ensures 0 <= lo * scale && hi * scale <= dim * scale
    ensures hi * scale - lo * scale == (hi - lo) * scale
    ensures 0 <= (lo - plo) * scale
    ensures (lo - plo) * scale + (hi - lo) * scale <= (phi - plo) * scale
  {
    Arith.MulMono(0, lo, scale);
    Arith.MulMono(hi, dim, scale);
    Arith.MulSub(hi, lo, scale);
    Arith.MulMono(0, lo - plo, scale);
    Arith.MulMono(hi - plo, phi - plo, scale);
    Arith.MulSub(hi - plo, lo - plo, scale);
  }

  /** The descriptor of one tile: its grid position, its 1-based progress index, and its
      intervals along the height (`rows`) and width (`cols`) axes. */
  datatype Tile = Tile(row: nat, col: nat, index: nat, rows: AxisTile, cols: AxisTile) {

    function Input(): Rect {
      Rect(rows.input, cols.input)
    }

    function Padded(): Rect {
      Rect(rows.padded, cols.padded)
    }

    function Output(): Rect {
      Rect(rows.output, cols.output)
    }

    function Crop(): Rect {
      Rect(rows.crop, cols.crop)
    }
  }

  /** The tile in grid row `row` and column `col` of an `h` x `w` image cut into
      `tilesX` tiles per row. */
  function TileAt(row: nat, col: nat, tilesX: nat, h: nat, w: nat, size: nat, pad: nat, scale: nat): Tile {
    Tile(row, col, row * tilesX + col + 1, AxisAt(row, size, pad, h, scale), AxisAt(col, size, pad, w, scale))
  }

  /** The tiles of an `h` x `w` image in the order `tile_process` visits them: row by
      row, and left to right inside a row. */
  function Grid(h: nat, w: nat, size: nat, pad: nat, scale: nat): (g: seq<Tile>)
    requires size > 0
    ensures |g| == TileCount(h, size) * TileCount(w, size)
  {
    var tx := TileCount(w, size);
    var ty := TileCount(h, size);
    seq(ty * tx, k requires 0 <= k < ty * tx => SlotTile(k, tx, h, w, size, pad, scale))
  }

  /** The `k`-th tile visited, counting from 0. */
  function SlotTile(k: nat, tx: nat, h: nat, w: nat, size: nat, pad: nat, scale: nat): Tile
    requires tx > 0
  {
    TileAt(k / tx, k % tx, tx, h, w, size, pad, scale)
  }

  lemma GridSlot(k: nat, tx: nat, ty: nat)
    requires k < ty * tx
    ensures tx > 0 && k / tx < ty && k % tx < tx && (k / tx) * tx + k % tx == k
  {
    Arith.ScaledUpper(ty, k, tx);
  }

  /** Tile `k` of the grid sits in grid row k / tilesX and column k % tilesX, both inside
      the grid, and is reported as tile number k + 1 of tilesX * tilesY. */
  lemma GridAt(h: nat, w: nat, size: nat, pad: nat, scale: nat, k: nat)
    requires size > 0 && k < |Grid(h, w, size, pad, scale)|
    ensures var tx, ty := TileCount(w, size), TileCount(h, size);
            var t := Grid(h, w, size, pad, scale)[k];
            && t.row == k / tx && t.col == k % tx
            && t.row < ty && t.col < tx
            && t.index == k + 1
            && t.rows == AxisAt(t.row, size, pad, h, scale)
            && t.cols == AxisAt(t.col, size, pad, w, scale)
  {
    var tx, ty := TileCount(w, size), TileCount(h, size);
    GridSlot(k, tx, ty);
  }

  /** The grid is in row-major order: an earlier tile sits in an earlier row, or in the
      same row further left. */
  lemma {:induction false} GridRowMajor(h: nat, w: nat, size: nat, pad: nat, scale: nat, k1: nat, k2: nat)
    requires size > 0
    requires k1 < k2 < |Grid(h, w, size, pad, scale)|
    ensures var g := Grid(h, w, size, pad, scale);
            g[k1].row < g[k2].row || (g[k1].row == g[k2].row && g[k1].col < g[k2].col)
  {
    var tx := TileCount(w, size);
    GridAt(h, w, size, pad, scale, k1);
    GridAt(h, w, size, pad, scale, k2);
    var g := Grid(h, w, size, pad, scale);
    var r1, c1, r2, c2 := g[k1].row, g[k1].col, g[k2].row, g[k2].col;
    assert k1 == r1 * tx + c1 && k2 == r2 * tx + c2 && c1 < tx && c2 < tx;
    RowMajorOrder(r1, c1, r2, c2, tx);
  }

  lemma RowMajorOrder(r1: nat, c1: nat, r2: nat, c2: nat, tx: nat)
    requires c1 < tx && c2 < tx && r1 * tx + c1 < r2 * tx + c2
    ensures r1 < r2 || (r1 == r2 && c1 < c2)
  {
    if r1 > r2 {
      Arith.MulMono(r2 + 1, r1, tx);
    }
  }

  /** Along one axis the tile input intervals partition [0, dim): pixel `p` lies in the
      interval of tile `i` exactly when i == p / size. */
  lemma AxisOwner(p: int, i: nat, size: nat, pad: nat, dim: nat, scale: nat)
    requires size > 0 && 0 <= p < dim
    ensures AxisAt(i, size, pad, dim, scale).input.Contains(p) <==> i == p / size
  {
    Arith.DivCharacterised(p, size, i);
  }

  /** The tile owning pixel `p` exists. */
  lemma OwnerBound(p: int, size: nat, dim: nat)
    requires size > 0 && 0 <= p < dim
    ensures 0 <= p / size < TileCount(dim, size)
  {
    Arith.ScaledUpper(TileCount(dim, size), p, size);
  }

  /** Along one axis the tile output intervals partition [0, dim * scale): output pixel
      `q` lies in the output interval of tile `i` exactly when i == (q / scale) / size. */
  lemma AxisOutputOwner(q: int, i: nat, size: nat, pad: nat, dim: nat, scale: nat)
    requires size > 0 && scale > 0 && 0 <= q < dim * scale
    ensures AxisAt(i, size, pad, dim, scale).output.Contains(q) <==> i == (q / scale) / size
  {
    var a := AxisAt(i, size, pad, dim, scale);
    Arith.ScaledLower(a.input.lo, q, scale);
    Arith.ScaledUpper(a.input.hi, q, scale);
    Arith.ScaledUpper(dim, q, scale);
    AxisOwner(q / scale, i, size, pad, dim, scale);
  }

  /** The tile owning output pixel `q` exists. */
  lemma OutputOwnerBound(q: int, size: nat, dim: nat, scale: nat)
    requires size > 0 && scale > 0 && 0 <= q < dim * scale
    ensures 0 <= q / scale < dim && 0 <= q / scale / size < TileCount(dim, size)
  {
    Arith.ScaledUpper(dim, q, scale);
    OwnerBound(q / scale, size, dim);
  }

  /** The grid position k of the tile in row `row` and column `col`. */
  lemma RowMajorIndex(row: nat, col: nat, tx: nat, ty: nat)
    requires row < ty && col < tx
    ensures 0 <= row * tx + col < ty * tx
    ensures (row * tx + col) / tx == row && (row * tx + col) % tx == col
  {
    Arith.MulMono(0, row, tx);
    Arith.MulMono(row, ty - 1, tx);
    Arith.DivModUnique(row, tx, col);
  }

  /** The tile input rectangles partition the image: pixel (y, x) lies in the input
      rectangle of exactly one tile, the one in grid row y / size and column x / size. */
  lemma {:induction false} GridInputPartition(h: nat, w: nat, size: nat, pad: nat, scale: nat, y: int, x: int)
    requires size > 0 && 0 <= y < h && 0 <= x < w
    ensures var g := Grid(h, w, size, pad, scale);
            var owner := (y / size) * TileCount(w, size) + x / size;
            && 0 <= owner < |g|
            && forall k :: 0 <= k < |g| ==> (g[k].Input().Contains(y, x) <==> k == owner)
  {
    var tx, ty := TileCount(w, size), TileCount(h, size);
    var g := Grid(h, w, size, pad, scale);
    var owner := (y / size) * tx + x / size;
    OwnerBound(y, size, h);
    OwnerBound(x, size, w);
    RowMajorIndex(y / size, x / size, tx, ty);
    forall k | 0 <= k < |g|
      ensures g[k].Input().Contains(y, x) <==> k == owner
    {
      GridAt(h, w, size, pad, scale, k);
      AxisOwner(y, k / tx, size, pad, h, scale);
      AxisOwner(x, k % tx, size, pad, w, scale);
      assert k == (k / tx) * tx + k % tx;
    }
  }

  /** The tile output rectangles partition the output canvas of (h * scale) x
      (w * scale): output pixel (y, x) lies in the output rectangle of exactly one tile,
      the one whose input rectangle holds the source pixel (y / scale, x / scale). */
  lemma {:induction false} GridOutputPartition(h: nat, w: nat, size: nat, pad: nat, scale: nat, y: int, x: int)
    requires size > 0 && scale > 0 && 0 <= y < h * scale && 0 <= x < w * scale
    ensures var g := Grid(h, w, size, pad, scale);
            var owner := (y / scale / size) * TileCount(w, size) + x / scale / size;
            && 0 <= owner < |g|
            && forall k :: 0 <= k < |g| ==> (g[k].Output().Contains(y, x) <==> k == owner)
  {
    var tx, ty := TileCount(w, size), TileCount(h, size);
    var g := Grid(h, w, size, pad, scale);
    OutputOwnerBound(y, size, h, scale);
    OutputOwnerBound(x, size, w, scale);
    var oy, ox := y / scale / size, x / scale / size;
    var owner := oy * tx + ox;
    RowMajorIndex(oy, ox, tx, ty);
    forall k | 0 <= k < |g|
      ensures g[k].Output().Contains(y, x) <==> k == owner
    {
      GridAt(h, w, size, pad, scale, k);
      var t := g[k];
      TileOutputOwner(t, h, w, size, pad, scale, y, x);
      assert k == t.row * tx + t.col;
    }
  }

  lemma TileOutputOwner(t: Tile, h: nat, w: nat, size: nat, pad: nat, scale: nat, y: int, x: int)
    requires size > 0 && scale > 0 && 0 <= y < h * scale && 0 <= x < w * scale
    requires t.rows == AxisAt(t.row, size, pad, h, scale) && t.cols == AxisAt(t.col, size, pad, w, scale)
    ensures t.Output().Contains(y, x) <==> t.row == y / scale / size && t.col == x / scale / size
  {
    AxisOutputOwner(y, t.row, size, pad, h, scale);
    AxisOutputOwner(x, t.col, size, pad, w, scale);
  }

  /** Every tile stays inside the image: its padded rectangle contains its input
      rectangle and lies in the image, its output rectangle lies in the output canvas,
      and its crop lies in the raw network output for the padded rectangle and has the
      size of the output rectangle it is copied into. */
  lemma GridTilesFit(h: nat, w: nat, size: nat, pad: nat, scale: nat, k: nat)
    requires size > 0 && k < |Grid(h, w, size, pad, scale)|
    ensures var t := Grid(h, w, size, pad, scale)[k];
            && t.Input().Within(t.Padded())
            && t.Padded().Within(Frame(h, w))
            && t.Output().Within(Frame(h * scale, w * scale))
            && t.Crop().Within(Frame(t.rows.padded.Len() * scale, t.cols.padded.Len() * scale))
            && t.rows.crop.Len() == t.rows.output.Len()
            && t.cols.crop.Len() == t.cols.output.Len()
  {
    GridAt(h, w, size, pad, scale, k);
    var t := Grid(h, w, size, pad, scale)[k];
    AxisTileFits(t.row, size, pad, h, scale);
    AxisTileFits(t.col, size, pad, w, scale);
  }
}
