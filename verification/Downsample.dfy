/** Building a parent tile's image from its four children, in place and channel-packed. */
module Downsample {
  import opened Common
  import opened Pixels

  /** The index of pixel (row, column). */
  function At(r: int, c: int): int { r * TILE_SIZE + c }

  predicate Cell(r: int, c: int) { 0 <= r < TILE_SIZE && 0 <= c < TILE_SIZE }

  lemma AtBounds(r: int, c: int)
    requires Cell(r, c)
    ensures 0 <= At(r, c) < PIXELS
  {
  }

  lemma AtOnce(r: int, c: int, r': int, c': int)
    requires Cell(r, c) && Cell(r', c') && At(r, c) == At(r', c')
    ensures r == r' && c == c'
  {
  }

  lemma AtAll(i: int)
    requires 0 <= i < PIXELS
    ensures Cell(i / TILE_SIZE, i % TILE_SIZE) && At(i / TILE_SIZE, i % TILE_SIZE) == i
  {
  }

  /** The average of the 2x2 block of child that pixel (r, c) of its quadrant covers. */
  function Block(child: Image, r: int, c: int): Pixel
    requires 0 <= r < HALF && 0 <= c < HALF
  {
    Average4(child[At(2 * r, 2 * c)], child[At(2 * r, 2 * c) + 1], child[At(2 * r + 1, 2 * c)],
        child[At(2 * r + 1, 2 * c) + 1])
  }

  /** Pixel (r, c) of the parent of `kids` (top left, top right, bottom left, bottom right). */
  function ParentPixel(kids: seq<Option<Image>>, r: int, c: int): Pixel
    requires |kids| == 4 && Cell(r, c)
  {
    var kid := kids[r / HALF * 2 + c / HALF];
    if kid.None? then 0 else Block(kid.value, r % HALF, c % HALF)
  }

  /** The parent image: every pixel the rounded average of its 2x2 block, uncharted where a child is missing. */
  function Parent(kids: seq<Option<Image>>): Image
    requires |kids| == 4
  {
    seq(PIXELS, i requires 0 <= i < PIXELS => ParentAt(kids, i))
  }

  function ParentAt(kids: seq<Option<Image>>, i: int): Pixel
    requires |kids| == 4 && 0 <= i < PIXELS
  {
    AtAll(i);
    ParentPixel(kids, i / TILE_SIZE, i % TILE_SIZE)
  }

  /** A missing child and an uncharted one are the same. */
  lemma MissingIsUncharted(kids: seq<Option<Image>>, kids': seq<Option<Image>>)
    requires |kids| == 4 && |kids'| == 4
    requires forall q :: 0 <= q < 4 ==> Content(kids[q]) == Content(kids'[q])
    ensures Parent(kids) == Parent(kids')
  {
    hide ParentPixel, Block;
    forall i | 0 <= i < PIXELS
        ensures Parent(kids)[i] == Parent(kids')[i]
    {
      AtAll(i);
      PixelOf(kids, i / TILE_SIZE, i % TILE_SIZE);
      PixelOf(kids', i / TILE_SIZE, i % TILE_SIZE);
    }
  }

  /** What a parent shows of a child: every 2x2 block averaged, row by row. */
  function Halved(child: Image): seq<Pixel> {
    seq(HALF * HALF, i requires 0 <= i < HALF * HALF => HalfAt(child, i))
  }

  function HalfAt(child: Image, i: int): Pixel
    requires 0 <= i < HALF * HALF
  {
    Block(child, i / HALF, i % HALF)
  }

  lemma HalvedAt(child: Image, r: int, c: int)
    requires 0 <= r < HALF && 0 <= c < HALF
    ensures Halved(child)[r * HALF + c] == Block(child, r, c)
  {
    hide Block;
    assert HalfAt(child, r * HALF + c) == Block(child, r, c);
  }

  /** Pixel (r, c) of quadrant q of a parent. */
  lemma QuadrantPixel(kids: seq<Option<Image>>, q: int, r: int, c: int)
    requires |kids| == 4 && 0 <= q < 4 && 0 <= r < HALF && 0 <= c < HALF
    ensures Cell(q / 2 * HALF + r, q % 2 * HALF + c) && 0 <= At(q / 2 * HALF + r, q % 2 * HALF + c) < PIXELS
    ensures Parent(kids)[At(q / 2 * HALF + r, q % 2 * HALF + c)] == Block(Content(kids[q]), r, c)
  {
    hide Block, ParentPixel;
    var y, x := q / 2 * HALF + r, q % 2 * HALF + c;
    Quadrant(y, x, q);
    PixelOf(kids, y, x);
    assert ParentAt(kids, At(y, x)) == ParentPixel(kids, y, x);
  }

  /** Two parents are the same picture if and only if each child shows the same in both once halved. */
  lemma ParentSame(kids: seq<Option<Image>>, kids': seq<Option<Image>>)
    requires |kids| == 4 && |kids'| == 4
    ensures Parent(kids) == Parent(kids') <==> forall q :: 0 <= q < 4 ==>
              Halved(Content(kids[q])) == Halved(Content(kids'[q]))
  {
    hide Block, ParentPixel, Parent, Halved, Content;
    if Parent(kids) == Parent(kids') {
      forall q | 0 <= q < 4 ensures Halved(Content(kids[q])) == Halved(Content(kids'[q])) {
        QuadrantSame(kids, kids', q);
      }
    }
    if forall q :: 0 <= q < 4 ==> Halved(Content(kids[q])) == Halved(Content(kids'[q])) {
      forall i | 0 <= i < PIXELS ensures Parent(kids)[i] == Parent(kids')[i] { PixelSame(kids, kids', i); }
    }
  }

  lemma QuadrantSame(kids: seq<Option<Image>>, kids': seq<Option<Image>>, q: int)
    requires |kids| == 4 && |kids'| == 4 && 0 <= q < 4 && Parent(kids) == Parent(kids')
    ensures Halved(Content(kids[q])) == Halved(Content(kids'[q]))
  {
    hide Block, ParentPixel, Parent, Content;
    forall i | 0 <= i < HALF * HALF
      ensures HalfAt(Content(kids[q]), i) == HalfAt(Content(kids'[q]), i)
    {
      QuadrantPixel(kids, q, i / HALF, i % HALF);
      QuadrantPixel(kids', q, i / HALF, i % HALF);
    }
  }

  lemma PixelSame(kids: seq<Option<Image>>, kids': seq<Option<Image>>, i: int)
    requires |kids| == 4 && |kids'| == 4 && 0 <= i < PIXELS
    requires forall q :: 0 <= q < 4 ==> Halved(Content(kids[q])) == Halved(Content(kids'[q]))
    ensures Parent(kids)[i] == Parent(kids')[i]
  {
    hide Block, ParentPixel, Halved, Content;
    AtAll(i);
    var y, x := i / TILE_SIZE, i % TILE_SIZE;
    var q := y / HALF * 2 + x / HALF;
    Quadrant(y, x, q);
    PixelOf(kids, y, x);
    PixelOf(kids', y, x);
    HalvedAt(Content(kids[q]), y % HALF, x % HALF);
    HalvedAt(Content(kids'[q]), y % HALF, x % HALF);
  }

  function Content(kid: Option<Image>): Image { if kid.Some? then kid.value else UNCHARTED }

  lemma PixelOf(kids: seq<Option<Image>>, r: int, c: int)
    requires |kids| == 4 && Cell(r, c)
    ensures ParentPixel(kids, r, c) == Block(Content(kids[r / HALF * 2 + c / HALF]), r % HALF, c % HALF)
  {
    hide Average4;
    AverageOfUncharted();
    var q, y, x := r / HALF * 2 + c / HALF, r % HALF, c % HALF;
    if kids[q].None? {
      AtBounds(2 * y, 2 * x);
      AtBounds(2 * y + 1, 2 * x);
    }
  }

  lemma AverageOfUncharted()
    ensures Average4(0, 0, 0, 0) == 0
  {
    MeanOfZero(0);
  }

  lemma MeanOfZero(z: Pixel)
    requires z == 0
    ensures Average4(z, z, z, z) == 0
  {
    assert Red(z) == 0 && Green(z) == 0 && Blue(z) == 0;
    assert Mean(0, 0, 0, 0) == 0;
  }

  lemma UnchartedParent()
    ensures Parent([None, None, None, None]) == UNCHARTED
  {
    hide ParentAt;
    forall i | 0 <= i < PIXELS ensures ParentAt([None, None, None, None], i) == 0 { UnchartedAt(i); }
  }

  lemma UnchartedAt(i: int)
    requires 0 <= i < PIXELS
    ensures ParentAt([None, None, None, None], i) == 0
  {
    hide Block;
    AtAll(i);
    Quadrant(i / TILE_SIZE, i % TILE_SIZE, 0);
  }

  /** Cell (r, c) lies in the part of the quadrant at (oy, ox) that is done: the rows before y. */
  predicate Done(r: int, c: int, ox: int, oy: int, y: int) {
    ox <= c < ox + HALF && oy <= r < oy + y
  }

  /** Writes the 2x2 average of child into the quadrant of out whose first pixel is (oy, ox). */
  method DownsampleInto(out: array<Pixel>, child: Image, ox: int, oy: int)
    requires out.Length == PIXELS && ox in {0, HALF} && oy in {0, HALF}
    modifies out
    ensures forall r, c :: Cell(r, c) ==>
              out[At(r, c)] == if Done(r, c, ox, oy, HALF) then Block(child, r - oy, c - ox) else old(out[At(r, c)])
  {
    var y := 0;
    while y < HALF
      invariant 0 <= y <= HALF
      invariant forall r, c :: Cell(r, c) ==>
                  out[At(r, c)] == if Done(r, c, ox, oy, y) then Block(child, r - oy, c - ox) else old(out[At(r, c)])
    {
      DownsampleRow(out, child, ox, oy, y);
      y := y + 1;
    }
  }

  /** One row of it. */
  method DownsampleRow(out: array<Pixel>, child: Image, ox: int, oy: int, y: int)
    requires out.Length == PIXELS && ox in {0, HALF} && oy in {0, HALF} && 0 <= y < HALF
    modifies out
    ensures forall r, c :: Cell(r, c) ==>
              out[At(r, c)] == if r == oy + y && ox <= c < ox + HALF then Block(child, r - oy, c - ox)
                  else old(out[At(r, c)])
  {
    hide Block, PackedAverage, Average4;
    var x := 0;
    while x < HALF
      invariant 0 <= x <= HALF
      invariant forall r, c :: Cell(r, c) ==>
                  out[At(r, c)] == if r == oy + y && ox <= c < ox + x then Block(child, r - oy, c - ox)
                      else old(out[At(r, c)])
    {
      var i := At(2 * y, 2 * x);
      BlockPacked(child, y, x);
      var v := PackedAverage(child[i], child[i + 1], child[i + TILE_SIZE], child[i + TILE_SIZE + 1]);
      WriteCell(out, oy + y, ox + x, v);
      x := x + 1;
    }
  }

  /** The packed average of a block's four pixels is the pixel that covers it. */
  lemma BlockPacked(child: Image, y: int, x: int)
    requires 0 <= y < HALF && 0 <= x < HALF
    ensures var i := At(2 * y, 2 * x);
            && 0 <= i && i + TILE_SIZE + 1 < PIXELS
            && Block(child, y, x)
               == PackedAverage(child[i], child[i + 1], child[i + TILE_SIZE], child[i + TILE_SIZE + 1])
  {
    hide PackedAverage, Average4;
    var i := At(2 * y, 2 * x);
    PackedIsAverage(child[i], child[i + 1], child[i + TILE_SIZE], child[i + TILE_SIZE + 1]);
    assert At(2 * y + 1, 2 * x) == i + TILE_SIZE;
  }

  method WriteCell(out: array<Pixel>, r: int, c: int, v: Pixel)
    requires out.Length == PIXELS && Cell(r, c)
    modifies out
    ensures forall r', c' :: Cell(r', c') ==> out[At(r', c')] == if r' == r && c' == c then v else old(out[At(r', c')])
  {
    out[At(r, c)] := v;
    forall r', c' | Cell(r', c') && At(r', c') == At(r, c)
      ensures r' == r && c' == c
    {
      AtOnce(r', c', r, c);
    }
  }

  /** Pixel (r, c) of the parent while the quadrants from q on are still blank. */
  function PartPixel(kids: seq<Option<Image>>, q: int, r: int, c: int): Pixel
    requires |kids| == 4 && Cell(r, c)
  {
    if r / HALF * 2 + c / HALF < q then ParentPixel(kids, r, c) else 0
  }

  /** The image of a tile from its four children. */
  method BuildParent(kids: seq<Option<Image>>) returns (im: Image)
    requires |kids| == 4
    ensures im == Parent(kids)
  {
    hide ParentPixel;
    var out := new Pixel[PIXELS](_ => 0);
    var q := 0;
    while q < 4
      invariant 0 <= q <= 4
      invariant forall r, c :: Cell(r, c) ==> out[At(r, c)] == PartPixel(kids, q, r, c)
    {
      BuildQuadrant(out, kids, q);
      q := q + 1;
    }
    im := out[..];
    ParentFromCells(kids, im);
  }

  lemma ParentFromCells(kids: seq<Option<Image>>, im: Image)
    requires |kids| == 4 && forall r, c :: Cell(r, c) ==> im[At(r, c)] == PartPixel(kids, 4, r, c)
    ensures im == Parent(kids)
  {
    hide ParentPixel;
    forall i | 0 <= i < PIXELS
      ensures im[i] == Parent(kids)[i]
    {
      AtAll(i);
      assert im[At(i / TILE_SIZE, i % TILE_SIZE)] == PartPixel(kids, 4, i / TILE_SIZE, i % TILE_SIZE);
    }
  }

  method BuildQuadrant(out: array<Pixel>, kids: seq<Option<Image>>, q: int)
    requires out.Length == PIXELS && |kids| == 4 && 0 <= q < 4
    requires forall r, c :: Cell(r, c) ==> out[At(r, c)] == PartPixel(kids, q, r, c)
    modifies out
    ensures forall r, c :: Cell(r, c) ==> out[At(r, c)] == PartPixel(kids, q + 1, r, c)
  {
    if kids[q].Some? {
      DownsampleInto(out, kids[q].value, q % 2 * HALF, q / 2 * HALF);
    }
    forall r, c | Cell(r, c)
      ensures out[At(r, c)] == PartPixel(kids, q + 1, r, c)
    {
      hide Block;
      Quadrant(r, c, q);
    }
  }

  /** Quadrant q holds the cells whose rows and columns lie in its halves. */
  lemma Quadrant(r: int, c: int, q: int)
    requires Cell(r, c) && 0 <= q < 4
    ensures r / HALF * 2 + c / HALF == q <==> Done(r, c, q % 2 * HALF, q / 2 * HALF, HALF)
    ensures r / HALF * 2 + c / HALF == q ==> r % HALF == r - q / 2 * HALF && c % HALF == c - q % 2 * HALF
    ensures 0 <= r / HALF * 2 + c / HALF < 4
  {
  }
}
