/** Coarse tiles in world pixels: every pixel of a coarse tile is the repeated 2x2 average of the square of z0 pixels it
    covers, wherever that lies in the grid. */
module PyramidWorld {
  import opened Common
  import opened Pixels
  import opened Downsample
  import opened PyramidTiles

  /** The z0 pixel in world column gx and row gy: each z0 tile has 512 of either. */
  function WorldPixel(hist: History, gx: int, gy: int, T: TimeMs): Pixel {
    PyramidTiles.Content(Z0At(hist, Tile(0, gx / 512, gy / 512), T))[gy % 512 * 512 + gx % 512]
  }

  function Pow2(k: nat): (n: nat)
    ensures n >= 1
  {
    if k == 0 then 1 else 2 * Pow2(k - 1)
  }

  /** The k-fold 2x2 average of the square of z0 pixels with sides of 2^k that starts at column gx and row gy. */
  function SquareAverage(hist: History, k: nat, gx: int, gy: int, T: TimeMs): Pixel {
    if k == 0 then WorldPixel(hist, gx, gy, T)
    else
      var half := Pow2(k - 1);
      Average4(SquareAverage(hist, k - 1, gx, gy, T), SquareAverage(hist, k - 1, gx + half, gy, T),
               SquareAverage(hist, k - 1, gx, gy + half, T), SquareAverage(hist, k - 1, gx + half, gy + half, T))
  }

  /** Tile c shows at T, in each pixel, the average of the square it covers. */
  ghost predicate ShowsWorld(im: Image, hist: History, c: Tile, T: TimeMs) {
    forall row, col :: 0 <= row < 512 && 0 <= col < 512 ==> ShowsPixel(im, hist, c, T, row, col)
  }

  ghost predicate ShowsPixel(im: Image, hist: History, c: Tile, T: TimeMs, row: int, col: int)
    requires 0 <= row < 512 && 0 <= col < 512
  {
    im[row * 512 + col] == SquareAverage(hist, c.k, (512 * c.x + col) * Pow2(c.k), (512 * c.y + row) * Pow2(c.k), T)
  }

  /** The recursive average is the world's, pixel by pixel. */
  lemma {:induction false} AverageIsWorld(hist: History, c: Tile, T: TimeMs)
    ensures ShowsWorld(Average(hist, c, T), hist, c, T)
    decreases c.k
  {
    hide Average, SquareAverage;
    forall row, col | 0 <= row < 512 && 0 <= col < 512
      ensures ShowsPixel(Average(hist, c, T), hist, c, T, row, col)
    {
      if c.k == 0 {
        BasePixel(hist, c, T, row, col);
      } else {
        var i := row / 256 * 2 + col / 256;
        AverageIsWorld(hist, Child(c, i), T);
        CoarsePixel(hist, c, T, row, col, i);
      }
    }
  }

  lemma BasePixel(hist: History, c: Tile, T: TimeMs, row: int, col: int)
    requires c.k == 0 && 0 <= row < 512 && 0 <= col < 512
    ensures Average(hist, c, T)[row * 512 + col]
            == SquareAverage(hist, 0, (512 * c.x + col) * Pow2(0), (512 * c.y + row) * Pow2(0), T)
  {
    hide Z0At, PyramidTiles.Content;
    Divides(512 * c.x + col, 512, c.x, col);
    Divides(512 * c.y + row, 512, c.y, row);
    assert c == Tile(0, c.x, c.y);
  }

  /** A pixel covers four of its quadrant's child. */
  lemma CoarsePixel(hist: History, c: Tile, T: TimeMs, row: int, col: int, i: nat)
    requires c.k > 0 && 0 <= row < 512 && 0 <= col < 512 && i == row / 256 * 2 + col / 256
    requires i < 4 && ShowsWorld(Average(hist, Child(c, i), T), hist, Child(c, i), T)
    ensures Average(hist, c, T)[row * 512 + col]
            == SquareAverage(hist, c.k, (512 * c.x + col) * Pow2(c.k), (512 * c.y + row) * Pow2(c.k), T)
  {
    hide Average, SquareAverage, Average4, Parent, ShowsWorld, Pow2;
    var kid, r, l := Child(c, i), row % 256, col % 256;
    AverageUnfold(hist, c, T);
    var kids := [Some(Average(hist, Child(c, 0), T)), Some(Average(hist, Child(c, 1), T)),
                 Some(Average(hist, Child(c, 2), T)), Some(Average(hist, Child(c, 3), T))];
    QuadrantPixel(kids, i, r, l);
    assert i / 2 * HALF + r == row && i % 2 * HALF + l == col && At(row, col) == row * 512 + col;
    assert Downsample.Content(kids[i]) == Average(hist, kid, T);
    KidPixel(hist, c, T, i, row, col, 0, 0);
    KidPixel(hist, c, T, i, row, col, 0, 1);
    KidPixel(hist, c, T, i, row, col, 1, 0);
    KidPixel(hist, c, T, i, row, col, 1, 1);
    SquareUnfold(hist, c.k, (512 * c.x + col) * Pow2(c.k), (512 * c.y + row) * Pow2(c.k), T);
    assert At(2 * r, 2 * l) == 2 * r * 512 + 2 * l && At(2 * r + 1, 2 * l) == (2 * r + 1) * 512 + 2 * l;
  }

  lemma SquareUnfold(hist: History, k: nat, gx: int, gy: int, T: TimeMs)
    requires k > 0
    ensures var half := Pow2(k - 1);
            SquareAverage(hist, k, gx, gy, T)
            == Average4(SquareAverage(hist, k - 1, gx, gy, T), SquareAverage(hist, k - 1, gx + half, gy, T),
                        SquareAverage(hist, k - 1, gx, gy + half, T),
                        SquareAverage(hist, k - 1, gx + half, gy + half, T))
  {
    hide Average4;
  }

  /** One of the child's four pixels, in the world. */
  lemma KidPixel(hist: History, c: Tile, T: TimeMs, i: nat, row: int, col: int, dr: int, dc: int)
    requires c.k > 0 && 0 <= row < 512 && 0 <= col < 512 && i == row / 256 * 2 + col / 256 && i < 4
    requires 0 <= dr < 2 && 0 <= dc < 2
    requires ShowsWorld(Average(hist, Child(c, i), T), hist, Child(c, i), T)
    ensures var half := Pow2(c.k - 1);
            Average(hist, Child(c, i), T)[(2 * (row % 256) + dr) * 512 + 2 * (col % 256) + dc]
            == SquareAverage(hist, c.k - 1, (512 * c.x + col) * Pow2(c.k) + dc * half,
                             (512 * c.y + row) * Pow2(c.k) + dr * half, T)
  {
    hide Average, SquareAverage;
    var kid, half := Child(c, i), Pow2(c.k - 1);
    var r, l := 2 * (row % 256) + dr, 2 * (col % 256) + dc;
    assert Pow2(c.k) == 2 * half;
    assert 512 * kid.x + l == 2 * (512 * c.x + col) + dc;
    assert 512 * kid.y + r == 2 * (512 * c.y + row) + dr;
    Doubled(512 * c.x + col, dc, half);
    Doubled(512 * c.y + row, dr, half);
    assert ShowsPixel(Average(hist, kid, T), hist, kid, T, r, l);
  }

  lemma Doubled(a: int, d: int, half: int)
    ensures (2 * a + d) * half == a * (2 * half) + d * half
  {
  }
}
