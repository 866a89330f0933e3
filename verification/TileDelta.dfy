/** Deltas between tile images: what is written for the step from one image to the next, and that
    applying it to the first gives the second. */
module TileDelta {
  import opened Common
  import opened Pixels
  import opened DeltaCodec

  // --- pixels by block ---

  /** The image index of pixel p of block b. */
  function Index(b: nat, p: Pos): (i: nat)
    requires b < BLOCKS
    ensures i < PIXELS
  {
    (b / 16 * 32 + p / 32) * TILE_SIZE + b % 16 * 32 + p % 32
  }

  function BlockOf(i: nat): (b: nat)
    requires i < PIXELS
    ensures b < BLOCKS
  {
    var row, col := i / TILE_SIZE, i % TILE_SIZE;
    assert row / 32 < 16 && col / 32 < 16;
    row / 32 * 16 + col / 32
  }

  function PosOf(i: nat): Pos
    requires i < PIXELS
  {
    i / TILE_SIZE % 32 * 32 + i % TILE_SIZE % 32
  }

  lemma IndexBack(i: nat)
    requires i < PIXELS
    ensures Index(BlockOf(i), PosOf(i)) == i
  {
    var row, col := i / TILE_SIZE, i % TILE_SIZE;
    Divides(BlockOf(i), 16, row / 32, col / 32);
    Divides(PosOf(i), 32, row % 32, col % 32);
  }

  lemma BlockOfIndex(b: nat, p: Pos)
    requires b < BLOCKS
    ensures BlockOf(Index(b, p)) == b && PosOf(Index(b, p)) == p
  {
    var row, col := b / 16 * 32 + p / 32, b % 16 * 32 + p % 32;
    Divides(Index(b, p), TILE_SIZE, row, col);
    Divides(row, 32, b / 16, p / 32);
    Divides(col, 32, b % 16, p % 32);
  }

  /** The positions of block b, from p on, where the images differ. */
  function DiffFrom(prev: Image, next: Image, b: nat, p: nat): (r: seq<Pos>)
    requires b < BLOCKS && p <= BLOCK_PIXELS
    ensures Ascending(r, p)
    decreases BLOCK_PIXELS - p
  {
    if p == BLOCK_PIXELS then []
    else
      var rest := DiffFrom(prev, next, b, p + 1);
      AscendingFrom(rest, p + 1, p);
      if prev[Index(b, p)] != next[Index(b, p)] then
        assert ([p] + rest)[1..] == rest;
        [p] + rest
      else rest
  }

  lemma {:induction false} DiffHas(prev: Image, next: Image, b: nat, p: nat, q: Pos)
    requires b < BLOCKS && p <= BLOCK_PIXELS
    ensures q in DiffFrom(prev, next, b, p) <==> p <= q && prev[Index(b, q)] != next[Index(b, q)]
    decreases BLOCK_PIXELS - p
  {
    if p < BLOCK_PIXELS { DiffHas(prev, next, b, p + 1, q); }
  }

  lemma {:induction false} FullIsAll(pos: seq<Pos>, from: nat)
    requires from <= BLOCK_PIXELS && Ascending(pos, from)
    ensures |pos| <= BLOCK_PIXELS - from
    ensures |pos| == BLOCK_PIXELS - from ==> pos == AllFrom(from)
    decreases pos
  {
    if pos != [] {
      FullIsAll(pos[1..], pos[0] as nat + 1);
      assert pos == [pos[0]] + pos[1..];
    }
  }

  lemma {:induction false} AllHas(p: nat, q: Pos)
    requires p <= BLOCK_PIXELS
    ensures q in AllFrom(p) <==> p <= q
    ensures Ascending(AllFrom(p), p) && |AllFrom(p)| == BLOCK_PIXELS - p
    decreases BLOCK_PIXELS - p
  {
    if p < BLOCK_PIXELS {
      AllHas(p + 1, q);
      assert AllFrom(p)[1..] == AllFrom(p + 1);
    }
  }

  // --- applying ---

  /** Writes colour k to position k of block b, in order. */
  function Paint(im: Image, b: nat, pos: seq<Pos>, colors: seq<Pixel>): Image
    requires b < BLOCKS && |pos| == |colors|
  {
    if pos == [] then im
    else
      var n := |pos| - 1;
      Paint(im, b, pos[..n], colors[..n])[Index(b, pos[n]) := colors[n]]
  }

  /** The pixels of image `of` at positions of block b. */
  function ColorsAt(of: Image, b: nat, pos: seq<Pos>): (r: seq<Pixel>)
    requires b < BLOCKS
    ensures |r| == |pos| && forall k :: 0 <= k < |pos| ==> r[k] == of[Index(b, pos[k])]
  {
    seq(|pos|, k requires 0 <= k < |pos| => of[Index(b, pos[k])])
  }

  /** Painting image `of`'s own colours copies exactly the positions painted. */
  lemma {:induction false} PaintCopies(im: Image, of: Image, b: nat, pos: seq<Pos>, i: nat)
    requires b < BLOCKS && i < PIXELS
    ensures Paint(im, b, pos, ColorsAt(of, b, pos))[i] == if BlockOf(i) == b && PosOf(i) in pos then of[i] else im[i]
  {
    if pos != [] {
      var n := |pos| - 1;
      assert ColorsAt(of, b, pos)[..n] == ColorsAt(of, b, pos[..n]);
      PaintCopies(im, of, b, pos[..n], i);
      assert pos == pos[..n] + [pos[n]];
      BlockOfIndex(b, pos[n]);
      IndexBack(i);
    }
  }

  /** The colours values stand for: themselves, or entries of a palette. */
  function Colors(vals: seq<nat>, pal: Option<seq<Pixel>>): (r: Option<seq<Pixel>>)
    ensures r.Some? ==> |r.value| == |vals|
  {
    if vals == [] then Some([])
    else
      var n := |vals| - 1;
      var init, v := Colors(vals[..n], pal), vals[n];
      if init.None? || (pal.Some? && v >= |pal.value|) || (pal.None? && v >= 0x1_0000) then None
      else
        var c: Pixel := if pal.Some? then pal.value[v] else v;
        Some(init.value + [c])
  }

  function ApplyChange(im: Image, c: Change, pal: Option<seq<Pixel>>): Option<Image> {
    var colors := Colors(c.vals, pal);
    if c.block >= BLOCKS || |c.pos| != |c.vals| || colors.None? then None
        else Some(Paint(im, c.block, c.pos, colors.value))
  }

  function ApplyChanges(im: Image, cs: seq<Change>, pal: Option<seq<Pixel>>): Option<Image>
    decreases cs
  {
    if cs == [] then Some(im)
    else
      var im1 := ApplyChange(im, cs[0], pal);
      if im1.None? then None else ApplyChanges(im1.value, cs[1..], pal)
  }

  /** The image an encoded delta turns im into; None when it does not decode. */
  function Apply(im: Image, raw: seq<Byte>, wide: bool, pal: Option<seq<Pixel>>): Option<Image> {
    var cs := Read(raw, -1, wide);
    if cs.None? then None else ApplyChanges(im, cs.value, pal)
  }

  // --- deltas of coarse tiles: RGB565 values ---

  function CoarseChange(prev: Image, next: Image, b: nat): Change
    requires b < BLOCKS
  {
    var pos := DiffFrom(prev, next, b, 0);
    Change(b, pos, ColorsAt(next, b, pos))
  }

  lemma {:induction false} FitsWide(vals: seq<Pixel>)
    ensures Fits(vals, true)
  {
    if vals != [] { FitsWide(vals[1..]); }
  }

  lemma CoarseEncodable(prev: Image, next: Image, b: nat)
    requires b < BLOCKS && DiffFrom(prev, next, b, 0) != []
    ensures Encodable(CoarseChange(prev, next, b), true)
  {
    FullIsAll(DiffFrom(prev, next, b, 0), 0);
    FitsWide(ColorsAt(next, b, DiffFrom(prev, next, b, 0)));
  }

  /** The changed blocks from number b on. */
  function CoarseDelta(prev: Image, next: Image, b: nat): (r: seq<Change>)
    requires b <= BLOCKS
    ensures Ordered(r, b as int - 1, true)
    decreases BLOCKS - b
  {
    if b == BLOCKS then []
    else
      var rest := CoarseDelta(prev, next, b + 1);
      OrderedFrom(rest, b, b as int - 1, true);
      if DiffFrom(prev, next, b, 0) == [] then rest
      else
        CoarseEncodable(prev, next, b);
        assert ([CoarseChange(prev, next, b)] + rest)[1..] == rest;
        [CoarseChange(prev, next, b)] + rest
  }

  lemma OrderedFrom(cs: seq<Change>, last: int, last': int, wide: bool)
    requires Ordered(cs, last, wide) && last' <= last
    ensures Ordered(cs, last', wide)
  {
  }

  /** im shows next in the blocks below b and prev in the others. */
  ghost predicate Half(im: Image, prev: Image, next: Image, b: nat) {
    forall i :: 0 <= i < PIXELS ==> im[i] == if BlockOf(i) < b then next[i] else prev[i]
  }

  lemma {:induction false} DirectColors(colors: seq<Pixel>)
    ensures Colors(colors, None) == Some(colors)
  {
    if colors != [] {
      DirectColors(colors[..|colors| - 1]);
      assert colors == colors[..|colors| - 1] + [colors[|colors| - 1]];
    }
  }

  /** Painting next's own colours over at least the positions of block b that differ moves on by a block. */
  lemma PaintBlock(im: Image, prev: Image, next: Image, b: nat, pos: seq<Pos>)
    requires b < BLOCKS && Half(im, prev, next, b)
    requires forall q: Pos :: prev[Index(b, q)] != next[Index(b, q)] ==> q in pos
    ensures Half(Paint(im, b, pos, ColorsAt(next, b, pos)), prev, next, b + 1)
  {
    forall i | 0 <= i < PIXELS
      ensures Paint(im, b, pos, ColorsAt(next, b, pos))[i] == if BlockOf(i) < b + 1 then next[i] else prev[i]
    {
      PaintCopies(im, next, b, pos, i);
      IndexBack(i);
    }
  }

  lemma AllBlocks(im: Image, prev: Image, next: Image)
    requires Half(im, prev, next, BLOCKS)
    ensures im == next
  {
    forall i | 0 <= i < PIXELS ensures im[i] == next[i] {}
  }

  lemma ApplyFirst(im: Image, im1: Image, c: Change, cs: seq<Change>, pal: Option<seq<Pixel>>)
    requires ApplyChange(im, c, pal) == Some(im1)
    ensures ApplyChanges(im, [c] + cs, pal) == ApplyChanges(im1, cs, pal)
  {
    assert ([c] + cs)[1..] == cs;
  }

  /** Block b painted over im: next shows below b + 1. */
  function CoarsePainted(im: Image, prev: Image, next: Image, b: nat): Image
    requires b < BLOCKS
  {
    Paint(im, b, DiffFrom(prev, next, b, 0), ColorsAt(next, b, DiffFrom(prev, next, b, 0)))
  }

  lemma CoarseMoves(im: Image, prev: Image, next: Image, b: nat)
    requires b < BLOCKS && Half(im, prev, next, b)
    ensures Half(CoarsePainted(im, prev, next, b), prev, next, b + 1)
  {
    var pos := DiffFrom(prev, next, b, 0);
    forall q: Pos ensures q in pos <==> prev[Index(b, q)] != next[Index(b, q)] { DiffHas(prev, next, b, 0, q); }
    PaintBlock(im, prev, next, b, pos);
  }

  lemma CoarseStep(im: Image, prev: Image, next: Image, b: nat)
    requires b < BLOCKS
    ensures ApplyChanges(im, CoarseDelta(prev, next, b), None)
            == ApplyChanges(CoarsePainted(im, prev, next, b), CoarseDelta(prev, next, b + 1), None)
  {
    hide Paint, ColorsAt, DiffFrom;
    var pos := DiffFrom(prev, next, b, 0);
    if pos == [] {
      PaintNothing(im, b, ColorsAt(next, b, pos));
    } else {
      DirectColors(ColorsAt(next, b, pos));
      ApplyFirst(im, CoarsePainted(im, prev, next, b), CoarseChange(prev, next, b), CoarseDelta(prev, next, b + 1),
          None);
    }
  }

  lemma PaintNothing(im: Image, b: nat, colors: seq<Pixel>)
    requires b < BLOCKS && |colors| == 0
    ensures Paint(im, b, [], colors) == im
  {
  }

  lemma {:induction false} CoarseApplies(im: Image, prev: Image, next: Image, b: nat)
    requires b <= BLOCKS && Half(im, prev, next, b)
    ensures ApplyChanges(im, CoarseDelta(prev, next, b), None) == Some(next)
    decreases BLOCKS - b
  {
    hide Half, CoarsePainted;
    if b == BLOCKS {
      AllBlocks(im, prev, next);
    } else {
      CoarseMoves(im, prev, next, b);
      CoarseStep(im, prev, next, b);
      CoarseApplies(CoarsePainted(im, prev, next, b), prev, next, b + 1);
    }
  }

  function EncodeCoarse(prev: Image, next: Image): seq<Byte> { Put(CoarseDelta(prev, next, 0), -1, true) }

  /** A coarse delta applied to the image it starts from gives the image it was made for. */
  lemma CoarseRoundTrip(prev: Image, next: Image)
    ensures Apply(prev, EncodeCoarse(prev, next), true, None) == Some(next)
  {
    DeltaBack(CoarseDelta(prev, next, 0), -1, true);
    CoarseApplies(prev, prev, next, 0);
  }

  // --- deltas of z0 tiles: palette indices ---

  /** The index of the first entry of pal that is c. */
  function IndexIn(pal: seq<Pixel>, c: Pixel): (k: nat)
    requires c in pal
    ensures k < |pal| && pal[k] == c
  {
    if pal[0] == c then 0 else 1 + IndexIn(pal[1..], c)
  }

  function Indices(pal: seq<Pixel>, colors: seq<Pixel>): (r: seq<nat>)
    requires forall c <- colors :: c in pal
    ensures |r| == |colors| && forall k :: 0 <= k < |colors| ==> r[k] == IndexIn(pal, colors[k])
  {
    seq(|colors|, k requires 0 <= k < |colors| => IndexIn(pal, colors[k]))
  }

  /** A chunk's change: every pixel when more than half of them differ, else those that differ. */
  function ChunkPositions(prev: Image, next: Image, b: nat): (r: seq<Pos>)
    requires b < BLOCKS
    ensures Ascending(r, 0)
  {
    var pos := DiffFrom(prev, next, b, 0);
    AllHas(0, 0);
    if |pos| > BLOCK_PIXELS / 2 then ALL else pos
  }

  /** The palette holds every colour of next, at indices that fit the width: two bytes, or one. */
  predicate Coded(next: Image, pal: seq<Pixel>, wide: bool) {
    forall c <- next :: c in pal && IndexIn(pal, c) < if wide then 0x1_0000 else 0x100
  }

  function ChunkChange(prev: Image, next: Image, b: nat, pal: seq<Pixel>, ghost wide: bool): Change
    requires b < BLOCKS && Coded(next, pal, wide)
  {
    var pos := ChunkPositions(prev, next, b);
    Change(b, pos, Indices(pal, ColorsAt(next, b, pos)))
  }

  lemma {:induction false} FitsIndices(vals: seq<nat>, wide: bool)
    requires forall k :: 0 <= k < |vals| ==> vals[k] < if wide then 0x1_0000 else 0x100
    ensures Fits(vals, wide)
  {
    if vals != [] { FitsIndices(vals[1..], wide); }
  }

  lemma ChunkEncodable(prev: Image, next: Image, b: nat, pal: seq<Pixel>, wide: bool)
    requires b < BLOCKS && Coded(next, pal, wide)
    requires DiffFrom(prev, next, b, 0) != []
    ensures Encodable(ChunkChange(prev, next, b, pal, wide), wide)
  {
    var pos := ChunkPositions(prev, next, b);
    AllHas(0, 0);
    FullIsAll(pos, 0);
    FitsIndices(Indices(pal, ColorsAt(next, b, pos)), wide);
  }

  function ChunkDelta(prev: Image, next: Image, b: nat, pal: seq<Pixel>, wide: bool): (r: seq<Change>)
    requires b <= BLOCKS && Coded(next, pal, wide)
    ensures Ordered(r, b as int - 1, wide)
    decreases BLOCKS - b
  {
    if b == BLOCKS then []
    else
      var rest := ChunkDelta(prev, next, b + 1, pal, wide);
      OrderedFrom(rest, b, b as int - 1, wide);
      if DiffFrom(prev, next, b, 0) == [] then rest
      else
        ChunkEncodable(prev, next, b, pal, wide);
        assert ([ChunkChange(prev, next, b, pal, wide)] + rest)[1..] == rest;
        [ChunkChange(prev, next, b, pal, wide)] + rest
  }

  /** Indices into a palette read the same colours from any later extension of it. */
  lemma {:induction false} PaletteColors(pal: seq<Pixel>, later: seq<Pixel>, colors: seq<Pixel>)
    requires pal <= later && forall c <- colors :: c in pal
    ensures Colors(Indices(pal, colors), Some(later)) == Some(colors)
  {
    if colors != [] {
      var n := |colors| - 1;
      PaletteColors(pal, later, colors[..n]);
      assert Indices(pal, colors)[..n] == Indices(pal, colors[..n]);
      assert colors == colors[..n] + [colors[n]];
    }
  }

  /** Block b painted over im, all of it or what differs. */
  function ChunkPainted(im: Image, prev: Image, next: Image, b: nat): Image
    requires b < BLOCKS
  {
    if DiffFrom(prev, next, b, 0) == [] then im
    else Paint(im, b, ChunkPositions(prev, next, b), ColorsAt(next, b, ChunkPositions(prev, next, b)))
  }

  lemma ChunkMoves(im: Image, prev: Image, next: Image, b: nat)
    requires b < BLOCKS && Half(im, prev, next, b)
    ensures Half(ChunkPainted(im, prev, next, b), prev, next, b + 1)
  {
    hide Half, Paint, ColorsAt;
    var diff, pos := DiffFrom(prev, next, b, 0), ChunkPositions(prev, next, b);
    forall q: Pos ensures prev[Index(b, q)] != next[Index(b, q)] ==> q in diff && q in pos {
      DiffHas(prev, next, b, 0, q);
      AllHas(0, q);
    }
    PaintBlock(im, prev, next, b, pos);
    if diff == [] {
      PaintBlock(im, prev, next, b, []);
      PaintNothing(im, b, ColorsAt(next, b, []));
    }
  }

  lemma ChunkStep(im: Image, prev: Image, next: Image, b: nat, pal: seq<Pixel>, wide: bool, later: seq<Pixel>)
    requires b < BLOCKS && pal <= later && Coded(next, pal, wide)
    ensures ApplyChanges(im, ChunkDelta(prev, next, b, pal, wide), Some(later))
            == ApplyChanges(ChunkPainted(im, prev, next, b), ChunkDelta(prev, next, b + 1, pal, wide), Some(later))
  {
    hide Paint, DiffFrom, ChunkPositions, ApplyChanges;
    if DiffFrom(prev, next, b, 0) != [] {
      var pos := ChunkPositions(prev, next, b);
      PaletteColors(pal, later, ColorsAt(next, b, pos));
      assert ApplyChange(im, ChunkChange(prev, next, b, pal, wide), Some(later))
               == Some(ChunkPainted(im, prev, next, b));
      ApplyFirst(im, ChunkPainted(im, prev, next, b), ChunkChange(prev, next, b, pal, wide),
                 ChunkDelta(prev, next, b + 1, pal, wide), Some(later));
    }
  }

  lemma {:induction false} ChunksApply(im: Image, prev: Image, next: Image, b: nat, pal: seq<Pixel>, wide: bool,
                                       later: seq<Pixel>)
    requires b <= BLOCKS && Half(im, prev, next, b) && pal <= later && Coded(next, pal, wide)
    ensures ApplyChanges(im, ChunkDelta(prev, next, b, pal, wide), Some(later)) == Some(next)
    decreases BLOCKS - b
  {
    hide Half, ChunkPainted, Coded, ChunkDelta, ApplyChanges;
    if b == BLOCKS {
      ChunksEnd(im, prev, next, pal, wide, later);
    } else {
      ChunkMoves(im, prev, next, b);
      ChunkStep(im, prev, next, b, pal, wide, later);
      ChunksApply(ChunkPainted(im, prev, next, b), prev, next, b + 1, pal, wide, later);
    }
  }

  lemma ChunksEnd(im: Image, prev: Image, next: Image, pal: seq<Pixel>, wide: bool, later: seq<Pixel>)
    requires Half(im, prev, next, BLOCKS) && Coded(next, pal, wide)
    ensures ApplyChanges(im, ChunkDelta(prev, next, BLOCKS, pal, wide), Some(later)) == Some(next)
  {
    AllBlocks(im, prev, next);
  }

  function EncodeChunks(prev: Image, next: Image, pal: seq<Pixel>, wide: bool): seq<Byte>
    requires Coded(next, pal, wide)
  {
    Put(ChunkDelta(prev, next, 0, pal, wide), -1, wide)
  }

  /** A z0 delta applied to the image it starts from, through the palette it was made with or any later
      extension of it, gives the image it was made for. */
  lemma ChunkRoundTrip(prev: Image, next: Image, pal: seq<Pixel>, wide: bool, later: seq<Pixel>)
    requires Coded(next, pal, wide) && pal <= later
    ensures Apply(prev, EncodeChunks(prev, next, pal, wide), wide, Some(later)) == Some(next)
  {
    DeltaBack(ChunkDelta(prev, next, 0, pal, wide), -1, wide);
    ChunksApply(prev, prev, next, 0, pal, wide, later);
  }
}
