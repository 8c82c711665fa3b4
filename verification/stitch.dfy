/** `tile_process`: run the network over each padded tile of the pre-processed image, in
    row-major order, and copy the crop of each raw tile output into the tile's rectangle
    of an output canvas allocated as zeros.

    The network stays abstract. A `TileNet` maps the padded rectangle of a tile to the
    raw network output for the crop of the image at that rectangle; that output is
    indexed from its own top-left corner and spans the rectangle's height and width
    times the scale. */
module Stitch {
  import opened Errors
  import opened Geometry
  import opened Tiling
  import Backend
  import Arith

  type TileNet = Rect -> ((int, int) -> real)

  /** The raw-output sample that tile `t` copies to output pixel (y, x): the pixel's
      offset inside the tile's output rectangle, shifted by the crop's start. */
  function RawAt(t: Tile, net: TileNet, y: int, x: int): real {
    net(t.Padded())(y - t.rows.output.lo + t.rows.crop.lo, x - t.cols.output.lo + t.cols.crop.lo)
  }

  /** The slice assignment of tile `t`'s crop into its output rectangle of the canvas. */
  function Paste(canvas: Plane, t: Tile, net: TileNet): (r: Plane)
    ensures r.height == canvas.height && r.width == canvas.width
    ensures forall y, x :: !t.Output().Contains(y, x) ==> r.at(y, x) == canvas.at(y, x)
    ensures forall y, x :: t.Output().Contains(y, x) ==> r.at(y, x) == RawAt(t, net, y, x)
  {
    Plane(canvas.height, canvas.width,
          (y: int, x: int) => if t.Output().Contains(y, x) then RawAt(t, net, y, x) else canvas.at(y, x))
  }

  /** The canvas after pasting `tiles` in order onto `base`; pasting never changes the
      extent of the canvas. */
  function StitchAll(tiles: seq<Tile>, base: Plane, net: TileNet): (r: Plane)
    ensures r.height == base.height && r.width == base.width
    decreases |tiles|
  {
    if |tiles| == 0 then base
    else Paste(StitchAll(tiles[..|tiles| - 1], base, net), tiles[|tiles| - 1], net)
  }

  /** A pixel covered by exactly one of the pasted tiles ends up holding that tile's
      raw-output sample, whatever the order of the pastes. */
  lemma {:induction false} StitchOwned(tiles: seq<Tile>, base: Plane, net: TileNet, i: nat, y: int, x: int)
    requires i < |tiles| && tiles[i].Output().Contains(y, x)
    requires forall j :: 0 <= j < |tiles| && j != i ==> !tiles[j].Output().Contains(y, x)
    ensures StitchAll(tiles, base, net).at(y, x) == RawAt(tiles[i], net, y, x)
    decreases |tiles|
  {
    var n := |tiles| - 1;
    if i < n {
      var prefix := tiles[..n];
      assert forall j :: 0 <= j < |prefix| && j != i ==> !prefix[j].Output().Contains(y, x) by {
        forall j | 0 <= j < |prefix| && j != i
          ensures !prefix[j].Output().Contains(y, x)
        {
          assert prefix[j] == tiles[j];
        }
      }
      StitchOwned(prefix, base, net, i, y, x);
    }
  }

  /** The position in the grid of the tile whose output rectangle holds pixel (y, x) of
      the (h * scale) x (w * scale) output canvas; such a tile exists. */
  function OutputOwner(h: nat, w: nat, size: nat, scale: nat, y: int, x: int): (k: nat)
    requires size > 0 && scale > 0 && 0 <= y < h * scale && 0 <= x < w * scale
    ensures k < TileCount(h, size) * TileCount(w, size)
  {
    OutputOwnerBound(y, size, h, scale);
    OutputOwnerBound(x, size, w, scale);
    RowMajorIndex(y / scale / size, x / scale / size, TileCount(w, size), TileCount(h, size));
    (y / scale / size) * TileCount(w, size) + x / scale / size
  }

  /** The tiled output: every pixel of the (h * scale) x (w * scale) canvas holds the raw
      output of the one tile covering it, read at a position inside the crop of that
      tile, which lies inside the raw output of the tile's padded rectangle. */
  lemma {:induction false} TiledPixel(h: nat, w: nat, size: nat, pad: nat, scale: nat, net: TileNet, y: int, x: int)
    requires size > 0 && scale > 0 && 0 <= y < h * scale && 0 <= x < w * scale
    ensures var g := Grid(h, w, size, pad, scale);
            var k := OutputOwner(h, w, size, scale, y, x);
            && 0 <= k < |g|
            && StitchAll(g, Zeros(h * scale, w * scale), net).at(y, x) == RawAt(g[k], net, y, x)
            && g[k].Crop().Contains(y - g[k].rows.output.lo + g[k].rows.crop.lo, x - g[k].cols.output.lo + g[k].cols.crop.lo)
  {
    var g := Grid(h, w, size, pad, scale);
    var k := OutputOwner(h, w, size, scale, y, x);
    GridOutputPartition(h, w, size, pad, scale, y, x);
    assert forall j :: 0 <= j < |g| && j != k ==> !g[j].Output().Contains(y, x);
    StitchOwned(g, Zeros(h * scale, w * scale), net, k, y, x);
    GridTilesFit(h, w, size, pad, scale, k);
  }

  /** The tile visited in grid row `y` and column `x` is tile y * tilesX + x of the grid. */
  lemma GridVisit(h: nat, w: nat, size: nat, pad: nat, scale: nat, y: nat, x: nat)
    requires size > 0 && y < TileCount(h, size) && x < TileCount(w, size)
    ensures var tx := TileCount(w, size);
            var g := Grid(h, w, size, pad, scale);
            && y * tx + x < |g|
            && g[y * tx + x] == Tile(y, x, y * tx + x + 1, AxisAt(y, size, pad, h, scale), AxisAt(x, size, pad, w, scale))
  {
    var tx, ty := TileCount(w, size), TileCount(h, size);
    RowMajorIndex(y, x, tx, ty);
    GridAt(h, w, size, pad, scale, y * tx + x);
  }

  /** What `tile_process` leaves behind: the output canvas and the tiles in the order
      they were pasted (the order of the progress messages). */
  datatype Tiled = Tiled(canvas: Plane, tiles: seq<Tile>)

  /** `tile_process` on an `height` x `width` pre-processed image with tile edge `size`
      (the tiled path is taken only when it is positive) and tile padding `pad`. */
  method TileProcess(kind: Backend.Kind, height: nat, width: nat, size: nat, pad: nat, scale: nat, net: TileNet)
    returns (res: Result<Tiled>)
    requires size > 0
    ensures res.Err? <==> !Backend.SupportsTiling(kind)
    ensures res.Err? ==> res.error == TilingUnsupported(Backend.Name(kind))
    ensures res.Ok? ==>
              && res.value.canvas.height == height * scale
              && res.value.canvas.width == width * scale
              && |res.value.tiles| == TileCount(height, size) * TileCount(width, size)
              && (forall k :: 0 <= k < |res.value.tiles| ==> res.value.tiles[k].index == k + 1)
              && res.value.tiles == Grid(height, width, size, pad, scale)
    ensures res.Ok? && scale > 0 ==>
              forall y, x :: 0 <= y < height * scale && 0 <= x < width * scale ==>
                res.value.canvas.at(y, x) == RawAt(res.value.tiles[OutputOwner(height, width, size, scale, y, x)], net, y, x)
  {
    if kind == Backend.Onnx || kind == Backend.Triton {
      return Err(TilingUnsupported(Backend.Name(kind)));
    }
    var tilesX := TileCount(width, size);
    var tilesY := TileCount(height, size);
    ghost var g := Grid(height, width, size, pad, scale);
    ghost var zero := Zeros(height * scale, width * scale);
    var canvas := Zeros(height * scale, width * scale);
    var tiles: seq<Tile> := [];
    var y := 0;
    while y < tilesY
      invariant 0 <= y <= tilesY
      invariant |tiles| == y * tilesX && |tiles| <= |g| && tiles == g[..|tiles|]
      invariant canvas == StitchAll(tiles, zero, net)
    {
      var x := 0;
      Arith.MulMono(y, tilesY, tilesX);
      while x < tilesX
        invariant 0 <= x <= tilesX
        invariant |tiles| == y * tilesX + x && |tiles| <= |g| && tiles == g[..|tiles|]
        invariant canvas == StitchAll(tiles, zero, net)
      {
        var t := Tile(y, x, y * tilesX + x + 1, AxisAt(y, size, pad, height, scale), AxisAt(x, size, pad, width, scale));
        GridVisit(height, width, size, pad, scale, y, x);
        assert (tiles + [t])[..|tiles|] == tiles;
        canvas := Paste(canvas, t, net);
        tiles := tiles + [t];
        x := x + 1;
      }
      Arith.MulSub(y + 1, 1, tilesX);
      Arith.MulMono(y + 1, tilesY, tilesX);
      y := y + 1;
    }
    assert tiles == g;
    forall k | 0 <= k < |tiles|
      ensures tiles[k].index == k + 1
    {
      GridAt(height, width, size, pad, scale, k);
    }
    if scale > 0 {
      forall y, x | 0 <= y < height * scale && 0 <= x < width * scale
        ensures canvas.at(y, x) == RawAt(tiles[OutputOwner(height, width, size, scale, y, x)], net, y, x)
      {
        TiledPixel(height, width, size, pad, scale, net, y, x);
      }
    }
    return Ok(Tiled(canvas, tiles));
  }

  /** The network of a model that looks at no neighbouring pixels: its raw output on any
      rectangle is the direct whole-image output shifted to the rectangle's corner. */
  function ShiftedNet(direct: (int, int) -> real, scale: nat): TileNet {
    (r: Rect) => (u: int, v: int) => direct(r.rows.lo * scale + u, r.cols.lo * scale + v)
  }

  /** For such a network the tiled output equals the direct output at every pixel of the
      output canvas: the crop offsets put each tile's samples back where they belong. */
  lemma TiledMatchesDirect(h: nat, w: nat, size: nat, pad: nat, scale: nat, direct: (int, int) -> real, y: int, x: int)
    requires size > 0 && scale > 0 && 0 <= y < h * scale && 0 <= x < w * scale
    ensures StitchAll(Grid(h, w, size, pad, scale), Zeros(h * scale, w * scale), ShiftedNet(direct, scale)).at(y, x)
            == direct(y, x)
  {
    var g := Grid(h, w, size, pad, scale);
    var k := OutputOwner(h, w, size, scale, y, x);
    TiledPixel(h, w, size, pad, scale, ShiftedNet(direct, scale), y, x);
    GridAt(h, w, size, pad, scale, k);
    var t := g[k];
    Arith.MulSub(t.rows.input.lo, t.rows.padded.lo, scale);
    Arith.MulSub(t.cols.input.lo, t.cols.padded.lo, scale);
  }
}
