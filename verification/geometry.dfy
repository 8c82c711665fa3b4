/** Pixel geometry shared by the padding, tiling and stitching models: half-open
    intervals, axis-aligned rectangles and abstract image planes. */
module Geometry {

  function Min(a: int, b: int): int {
    if a <= b then a else b
  }

  function Max(a: int, b: int): int {
    if a >= b then a else b
  }

  /** The half-open interval [lo, hi) of pixel coordinates on one axis. */
  datatype Span = Span(lo: int, hi: int) {

    function Len(): int {
      hi - lo
    }

    predicate Contains(p: int) {
      lo <= p < hi
    }

    /** This interval lies inside `outer`. */
    predicate Within(outer: Span) {
      outer.lo <= lo && hi <= outer.hi
    }

    /** The interval of output coordinates an upscaling by `k` maps this one to. */
    function Scaled(k: nat): Span {
      Span(lo * k, hi * k)
    }
  }

  /** A rectangle: a row interval (height axis) times a column interval (width axis). */
  datatype Rect = Rect(rows: Span, cols: Span) {

    predicate Contains(y: int, x: int) {
      rows.Contains(y) && cols.Contains(x)
    }

    predicate Within(outer: Rect) {
      rows.Within(outer.rows) && cols.Within(outer.cols)
    }
  }

  /** The rectangle [0, height) x [0, width). */
  function Frame(height: int, width: int): Rect {
    Rect(Span(0, height), Span(0, width))
  }

  /** One image channel: its extent and its samples, indexed (row, column) from the
      top-left corner. Samples outside the extent carry no meaning. */
  datatype Plane = Plane(height: nat, width: nat, at: (int, int) -> real)

  /** The all-black plane the tiled output is allocated as. */
  function Zeros(height: nat, width: nat): Plane {
    Plane(height, width, (y: int, x: int) => 0.0)
  }
}

/** Integer facts about multiplication and floor division by a positive divisor that
    the tiling and padding proofs use. */
module Arith {

  lemma MulMono(a: int, b: int, k: nat)
    requires a <= b
    ensures a * k <= b * k
  {
  }

  lemma MulSub(a: int, b: int, k: int)
    ensures (a - b) * k == a * k - b * k
  {
  }

  /** `q` is the floor quotient of `a` by `n` exactly when q*n <= a < (q+1)*n. */
  lemma DivCharacterised(a: int, n: int, q: int)
    requires n > 0
    ensures q * n <= a < q * n + n <==> q == a / n
  {
    var d := a / n;
    assert d * n <= a < d * n + n;
    if q * n <= a < q * n + n {
      if q < d {
        MulMono(q + 1, d, n);
        assert false;
      } else if q > d {
        MulMono(d + 1, q, n);
        assert false;
      }
    }
  }

  /** Quotient and remainder of q*n + r for 0 <= r < n. */
  lemma DivModUnique(q: int, n: int, r: int)
    requires n > 0 && 0 <= r < n
    ensures (q * n + r) / n == q && (q * n + r) % n == r
  {
    DivCharacterised(q * n + r, n, q);
  }

  /** a*k <= b exactly when a <= b / k. */
  lemma ScaledLower(a: int, b: int, k: int)
    requires k > 0
    ensures a * k <= b <==> a <= b / k
  {
    var d := b / k;
    assert d * k <= b < d * k + k;
    if a <= d {
      MulMono(a, d, k);
    } else {
      MulMono(d + 1, a, k);
    }
  }

  /** b < a*k exactly when b / k < a. */
  lemma ScaledUpper(a: int, b: int, k: int)
    requires k > 0
    ensures b < a * k <==> b / k < a
  {
    ScaledLower(a, b, k);
  }
}
