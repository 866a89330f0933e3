/** The loops that write a coarse delta and apply a delta to an image in place. */
module TileCodec {
  import opened Common
  import opened Pixels
  import opened DeltaCodec
  import opened TileDelta

  // --- encoding ---

  lemma DiffStep(prev: Image, next: Image, b: nat, p: nat, pos: seq<Pos>)
    requires b < BLOCKS && p < BLOCK_PIXELS
    ensures var here := if prev[Index(b, p)] != next[Index(b, p)] then [p] else [];
            pos + DiffFrom(prev, next, b, p) == pos + here + DiffFrom(prev, next, b, p + 1)
  {
  }

  lemma DiffEnd(prev: Image, next: Image, b: nat)
    requires b < BLOCKS
    ensures DiffFrom(prev, next, b, BLOCK_PIXELS) == []
  {
  }

  lemma ColorsStep(next: Image, b: nat, p: nat, pos: seq<Pos>)
    requires b < BLOCKS && p < BLOCK_PIXELS
    ensures ColorsAt(next, b, pos + [p]) == ColorsAt(next, b, pos) + [next[Index(b, p)]]
  {
  }

  /** The positions of block b where the images differ, in order, with next's values there. */
  method DiffBlock(prev: Image, next: Image, b: nat) returns (pos: seq<Pos>, vals: seq<Pixel>)
    requires b < BLOCKS
    ensures pos == DiffFrom(prev, next, b, 0) && vals == ColorsAt(next, b, pos)
  {
    hide ColorsAt, Index, DiffFrom, Ascending;
    pos, vals := [], [];
    var p := 0;
    while p < BLOCK_PIXELS
      invariant 0 <= p <= BLOCK_PIXELS
      invariant DiffFrom(prev, next, b, 0) == pos + DiffFrom(prev, next, b, p)
      invariant vals == ColorsAt(next, b, pos)
    {
      var i := Index(b, p);
      DiffStep(prev, next, b, p, pos);
      if prev[i] != next[i] {
        ColorsStep(next, b, p, pos);
        pos := pos + [p];
        vals := vals + [next[i]];
      }
      p := p + 1;
    }
    DiffEnd(prev, next, b);
  }

  /** The gaps of pos from index i on, the previous position being prev. */
  function GapsFrom(pos: seq<Pos>, i: nat, prev: int): seq<Byte>
    requires i <= |pos| && prev >= -1 && Ascending(pos[i..], prev + 1)
  {
    Gaps(pos[i..], prev + 1)
  }

  lemma GapStep(pos: seq<Pos>, i: nat, prev: int)
    requires i < |pos| && prev >= -1 && Ascending(pos[i..], prev + 1)
    ensures pos[i] > prev && Ascending(pos[i + 1..], pos[i] as nat + 1)
    ensures GapsFrom(pos, i, prev) == PutUvarint(pos[i] - prev - 1) + GapsFrom(pos, i + 1, pos[i])
  {
    hide PutUvarint;
    assert pos[i..][1..] == pos[i + 1..];
  }

  method AppendGaps(pos: seq<Pos>) returns (out: seq<Byte>)
    requires Ascending(pos, 0)
    ensures out == Gaps(pos, 0)
  {
    hide PutUvarint, Gaps, GapsFrom, Ascending;
    out := [];
    var prev: int := -1;
    var i := 0;
    AllGaps(pos);
    while i < |pos|
      invariant 0 <= i <= |pos| && prev >= -1 && Ascending(pos[i..], prev + 1)
      invariant Gaps(pos, 0) == out + GapsFrom(pos, i, prev)
    {
      GapStep(pos, i, prev);
      out := out + PutUvarint(pos[i] - prev - 1);
      prev := pos[i];
      i := i + 1;
    }
    NoGaps(pos, prev);
  }

  lemma AllGaps(pos: seq<Pos>)
    requires Ascending(pos, 0)
    ensures pos[0..] == pos && Gaps(pos, 0) == GapsFrom(pos, 0, -1)
  {
    hide Gaps;
    assert pos[0..] == pos;
  }

  lemma NoGaps(pos: seq<Pos>, prev: int)
    requires prev >= -1 && Ascending(pos[|pos|..], prev + 1)
    ensures GapsFrom(pos, |pos|, prev) == []
  {
  }

  method AppendBitmap(pos: seq<Pos>) returns (out: seq<Byte>)
    ensures out == ToBitmap(pos)
  {
    var bm := new Byte[BITMAP_BYTES](_ => 0);
    assert bm[..] == NO_BITS;
    var i := 0;
    while i < |pos|
      invariant 0 <= i <= |pos| && bm[..] == ToBitmap(pos[..i])
    {
      assert pos[..i + 1][..i] == pos[..i];
      SetByte(bm[pos[i] / 8], pos[i] % 8);
      bm[pos[i] / 8] := SetBit(bm[pos[i] / 8], pos[i] % 8);
      i := i + 1;
    }
    assert pos[..i] == pos;
    out := bm[..];
  }

  method AppendValues(vals: seq<nat>, wide: bool) returns (out: seq<Byte>)
    ensures out == PutValues(vals, wide)
  {
    out := [];
    var i := 0;
    while i < |vals|
      invariant 0 <= i <= |vals| && PutValues(vals, wide) == out + PutValues(vals[i..], wide)
    {
      assert vals[i..][1..] == vals[i + 1..];
      out := out + PutValue(vals[i], wide);
      i := i + 1;
    }
  }

  method AppendPositions(pos: seq<Pos>) returns (out: seq<Byte>)
    requires Ascending(pos, 0)
    ensures out == PutPositions(pos)
  {
    if |pos| == BLOCK_PIXELS {
      out := [];
    } else if |pos| <= 128 {
      out := AppendGaps(pos);
    } else {
      out := AppendBitmap(pos);
    }
  }

  lemma PutLast(cs: seq<Change>, last: int, last': int, wide: bool)
    requires Ordered(cs, last, wide) && Ordered(cs, last', wide)
    ensures Put(cs, last, wide) == Put(cs, last', wide)
  {
  }

  /** How many pixels the blocks from b on change. */
  function Changed(prev: Image, next: Image, b: nat): nat
    requires b <= BLOCKS
    decreases BLOCKS - b
  {
    if b == BLOCKS then 0 else |DiffFrom(prev, next, b, 0)| + Changed(prev, next, b + 1)
  }

  function BlockBytes(prev: Image, next: Image, b: nat): seq<Byte>
    requires b < BLOCKS
  {
    if DiffFrom(prev, next, b, 0) == [] then [] else PutBlock(CoarseChange(prev, next, b), true)
  }

  /** The bytes of block b, if it changed. */
  method AppendBlock(prev: Image, next: Image, b: nat) returns (out: seq<Byte>, n: nat)
    requires b < BLOCKS
    ensures n == |DiffFrom(prev, next, b, 0)| && out == BlockBytes(prev, next, b)
  {
    hide DiffFrom, ColorsAt, PutPositions, PutValues, PutUvarint;
    var pos, vals := DiffBlock(prev, next, b);
    n := |pos|;
    if n == 0 {
      return [], 0;
    }
    var positions := AppendPositions(pos);
    var values := AppendValues(vals, true);
    out := PutUvarint(b) + (PutUvarint(n) + (positions + values));
  }

  /** The bytes of the blocks from b on. */
  function BytesFrom(prev: Image, next: Image, b: nat): seq<Byte>
    requires b <= BLOCKS
  {
    Put(CoarseDelta(prev, next, b), b as int - 1, true)
  }

  /** The delta from prev to next and the number of pixels it changes. */
  method AppendDelta(prev: Image, next: Image) returns (dst: seq<Byte>, changed: nat)
    ensures dst == EncodeCoarse(prev, next) && changed == Changed(prev, next, 0)
  {
    hide Put, CoarseDelta, BlockBytes, BytesFrom, EncodeCoarse, Changed, DiffFrom;
    dst, changed := [], 0;
    var b := 0;
    WholeDelta(prev, next);
    while b < BLOCKS
      invariant 0 <= b <= BLOCKS
      invariant EncodeCoarse(prev, next) == dst + BytesFrom(prev, next, b)
      invariant Changed(prev, next, 0) == changed + Changed(prev, next, b)
    {
      var block, n := AppendBlock(prev, next, b);
      AppendStep(prev, next, b);
      dst := dst + block;
      changed := changed + n;
      b := b + 1;
    }
    PutNothing(prev, next);
  }

  lemma WholeDelta(prev: Image, next: Image)
    ensures EncodeCoarse(prev, next) == BytesFrom(prev, next, 0)
  {
  }

  lemma PutNothing(prev: Image, next: Image)
    ensures BytesFrom(prev, next, BLOCKS) == [] && Changed(prev, next, BLOCKS) == 0
  {
  }

  lemma AppendStep(prev: Image, next: Image, b: nat)
    requires b < BLOCKS
    ensures BytesFrom(prev, next, b) == BlockBytes(prev, next, b) + BytesFrom(prev, next, b + 1)
    ensures Changed(prev, next, b) == |DiffFrom(prev, next, b, 0)| + Changed(prev, next, b + 1)
  {
    hide PutBlock, DiffFrom, ColorsAt;
    var rest := CoarseDelta(prev, next, b + 1);
    if DiffFrom(prev, next, b, 0) == [] {
      OrderedFrom(rest, b, b as int - 1, true);
      PutLast(rest, b, b as int - 1, true);
    } else {
      assert ([CoarseChange(prev, next, b)] + rest)[1..] == rest;
      PutLast(rest, b, CoarseChange(prev, next, b).block, true);
    }
  }

  // --- applying ---

  /** What a reader that has pos already, from `used` bytes, ends with when the rest reads as r. */
  function After(pos: seq<Pos>, used: nat, r: Option<(seq<Pos>, nat)>): Option<(seq<Pos>, nat)> {
    if r.None? then None else Some((pos + r.value.0, used + r.value.1))
  }

  /** Reading one more gap after pos. */
  lemma NextGap(b: seq<Byte>, used: nat, n: nat, from: nat, pos: seq<Pos>)
    requires n > 0 && used <= |b|
    ensures var g := Uvarint(b[used..], 0);
            if g.None? || from + g.value.0 >= BLOCK_PIXELS then After(pos, used, ReadGaps(b[used..], n, from)) == None
            else var p := from + g.value.0; var k := g.value.1;
              used + k <= |b| && b[used..][k..] == b[used + k..]
              && After(pos, used, ReadGaps(b[used..], n, from))
                  == After(pos + [p], used + k, ReadGaps(b[used + k..], n - 1, p + 1))
  {
    hide Uvarint, Ascending;
    var g := Uvarint(b[used..], 0);
    if g.Some? && from + g.value.0 < BLOCK_PIXELS {
      var p, k := from + g.value.0, g.value.1;
      assert b[used..][k..] == b[used + k..];
      var rest := ReadGaps(b[used + k..], n - 1, p + 1);
      if rest.Some? {
        assert pos + ([p] + rest.value.0) == pos + [p] + rest.value.0;
      }
    }
  }

  lemma GapsDone(b: seq<Byte>, used: nat, from: nat, pos: seq<Pos>)
    requires used <= |b|
    ensures After(pos, used, ReadGaps(b[used..], 0, from)) == Some((pos, used))
  {
    assert pos + [] == pos;
  }

  method ScanGaps(b: seq<Byte>, n: nat) returns (r: Option<(seq<Pos>, nat)>)
    ensures r == ReadGaps(b, n, 0)
  {
    hide Uvarint, ReadGaps, Ascending, After;
    var pos: seq<Pos>, used: nat := [], 0;
    var p: int := -1;
    var i := 0;
    StartGaps(b, n);
    while i < n
      invariant 0 <= i <= n && used <= |b| && -1 <= p < BLOCK_PIXELS
      invariant ReadGaps(b, n, 0) == After(pos, used, ReadGaps(b[used..], n - i, p + 1))
    {
      NextGap(b, used, n - i, p + 1, pos);
      var g := Uvarint(b[used..], 0);
      if g.None? || p + 1 + g.value.0 >= BLOCK_PIXELS {
        return None;
      }
      p := p + 1 + g.value.0;
      pos, used := pos + [p], used + g.value.1;
      i := i + 1;
    }
    GapsDone(b, used, p + 1, pos);
    r := Some((pos, used));
  }

  lemma StartGaps(b: seq<Byte>, n: nat)
    ensures ReadGaps(b, n, 0) == After([], 0, ReadGaps(b[0..], n, 0))
  {
    hide ReadGaps;
    assert b[0..] == b;
    var r := ReadGaps(b, n, 0);
    assert r.Some? ==> [] + r.value.0 == r.value.0;
  }

  lemma BitmapStep(bm: Bitmap, p: Pos, pos: seq<Pos>)
    ensures pos + FromBitmap(bm, p) == (if InBitmap(bm, p) then pos + [p] else pos) + FromBitmap(bm, p as nat + 1)
  {
    hide InBitmap;
  }

  lemma BitmapEnd(bm: Bitmap)
    ensures FromBitmap(bm, BLOCK_PIXELS) == []
  {
  }

  /** The positions of a bitmap that has exactly n. */
  method ScanBitmap(bm: Bitmap, n: nat) returns (r: Option<seq<Pos>>)
    ensures r == if |FromBitmap(bm, 0)| == n then Some(FromBitmap(bm, 0)) else None
  {
    hide FromBitmap, InBitmap, Ascending;
    var pos: seq<Pos> := [];
    var p := 0;
    while p < BLOCK_PIXELS
      invariant 0 <= p <= BLOCK_PIXELS && |pos| <= n
      invariant FromBitmap(bm, 0) == pos + FromBitmap(bm, p)
    {
      BitmapStep(bm, p, pos);
      if InBitmap(bm, p) {
        if |pos| == n {
          return None;
        }
        pos := pos + [p];
      }
      p := p + 1;
    }
    BitmapEnd(bm);
    assert pos + [] == pos;
    r := if |pos| == n then Some(pos) else None;
  }

  method ScanPositions(b: seq<Byte>, n: nat) returns (r: Option<(seq<Pos>, nat)>)
    ensures r == ReadPositions(b, n)
  {
    hide ReadGaps, FromBitmap, ALL, Ascending;
    if n == BLOCK_PIXELS {
      r := Some((ALL, 0));
    } else if n <= 128 {
      r := ScanGaps(b, n);
    } else if |b| < BITMAP_BYTES {
      r := None;
    } else {
      var pos := ScanBitmap(b[..BITMAP_BYTES], n);
      r := if pos.None? then None else Some((pos.value, BITMAP_BYTES));
    }
  }

  lemma {:induction false} ValueAt(b: seq<Byte>, n: nat, i: nat)
    requires |b| >= 2 * n && i < n
    ensures Values(b, n, true)[i] == Value(b[2 * i..], true) < 0x1_0000
  {
    if i > 0 {
      ValueAt(b[2..], n - 1, i - 1);
      assert b[2..][2 * (i - 1)..] == b[2 * i..];
    }
  }

  lemma {:induction false} WideColors(vals: seq<nat>)
    requires forall i :: 0 <= i < |vals| ==> vals[i] < 0x1_0000
    ensures Colors(vals, None).Some? && |Colors(vals, None).value| == |vals|
    ensures forall i :: 0 <= i < |vals| ==> Colors(vals, None).value[i] == vals[i]
  {
    if vals != [] {
      WideColors(vals[..|vals| - 1]);
    }
  }

  /** The colours of the n values at the start of b. */
  function WideAt(b: seq<Byte>, n: nat): (r: seq<Pixel>)
    requires |b| >= 2 * n
    ensures |r| == n && Colors(Values(b, n, true), None) == Some(r)
  {
    forall i | 0 <= i < n ensures Values(b, n, true)[i] < 0x1_0000 { ValueAt(b, n, i); }
    WideColors(Values(b, n, true));
    Colors(Values(b, n, true), None).value
  }

  lemma WideIs(b: seq<Byte>, n: nat, i: nat)
    requires |b| >= 2 * n && i < n
    ensures WideAt(b, n)[i] == Value(b[2 * i..], true)
  {
    forall i | 0 <= i < n ensures Values(b, n, true)[i] < 0x1_0000 { ValueAt(b, n, i); }
    WideColors(Values(b, n, true));
    ValueAt(b, n, i);
  }

  lemma PaintStep(im: Image, b: nat, pos: seq<Pos>, colors: seq<Pixel>, i: nat)
    requires b < BLOCKS && |pos| == |colors| && i < |pos|
    ensures Paint(im, b, pos[..i + 1], colors[..i + 1])
              == Paint(im, b, pos[..i], colors[..i])[Index(b, pos[i]) := colors[i]]
  {
    assert pos[..i + 1][..i] == pos[..i] && colors[..i + 1][..i] == colors[..i];
  }

  /** Writes the values at the start of raw to the positions of block b. */
  method WriteValues(im: array<Pixel>, b: nat, pos: seq<Pos>, raw: seq<Byte>)
    requires im.Length == PIXELS && b < BLOCKS && |raw| >= 2 * |pos|
    modifies im
    ensures im[..] == Paint(old(im[..]), b, pos, WideAt(raw, |pos|))
  {
    hide Paint, WideAt, Index;
    ghost var colors := WideAt(raw, |pos|);
    var i := 0;
    PaintEmpty(im[..], b, pos, colors);
    while i < |pos|
      invariant 0 <= i <= |pos|
      invariant im[..] == Paint(old(im[..]), b, pos[..i], colors[..i])
    {
      WideIs(raw, |pos|, i);
      PaintStep(old(im[..]), b, pos, colors, i);
      im[Index(b, pos[i])] := Value(raw[2 * i..], true);
      i := i + 1;
    }
    assert pos[..i] == pos && colors[..i] == colors;
  }

  lemma PaintEmpty(im: Image, b: nat, pos: seq<Pos>, colors: seq<Pixel>)
    requires b < BLOCKS && |pos| == |colors|
    ensures Paint(im, b, pos[..0], colors[..0]) == im
  {
  }

  /** Decoding and applying block by block, block numbers above `last`. */
  function ApplyFrom(im: Image, raw: seq<Byte>, last: int): Option<Image>
    decreases |raw|
  {
    if raw == [] then Some(im)
    else
      var c := ReadBlock(raw, last, true);
      if c.None? then None
      else
        var im1 := ApplyChange(im, c.value.0, None);
        if im1.None? then None else ApplyFrom(im1.value, raw[c.value.1..], c.value.0.block)
  }

  /** A block that reads always applies: its values are 16 bits wide. */
  lemma BlockApplies(im: Image, raw: seq<Byte>, last: int)
    requires ReadBlock(raw, last, true).Some?
    ensures ApplyChange(im, ReadBlock(raw, last, true).value.0, None).Some?
  {
    hide Uvarint, ReadPositions, Values, Paint;
    var block := Uvarint(raw, 0).value;
    var b1 := raw[block.1..];
    var n := Uvarint(b1, 0).value;
    var b2 := b1[n.1..];
    PositionsCount(b2, n.0);
    var used := ReadPositions(b2, n.0).value.1;
    var _ := WideAt(b2[used..], n.0);
  }

  lemma PositionsCount(b: seq<Byte>, n: nat)
    requires ReadPositions(b, n).Some?
    ensures |ReadPositions(b, n).value.0| == n
  {
    AllHas(0, 0);
  }

  /** Applying block by block is decoding everything and then applying it. */
  lemma {:induction false} ApplyInterleaved(im: Image, raw: seq<Byte>, last: int)
    ensures ApplyFrom(im, raw, last) == var cs := Read(raw, last, true); if cs.None? then None
              else ApplyChanges(im, cs.value, None)
    decreases |raw|
  {
    hide ReadBlock, ApplyChange;
    if raw != [] {
      var c := ReadBlock(raw, last, true);
      if c.Some? {
        BlockApplies(im, raw, last);
        var im1 := ApplyChange(im, c.value.0, None).value;
        ApplyInterleaved(im1, raw[c.value.1..], c.value.0.block);
        var rest := Read(raw[c.value.1..], c.value.0.block, true);
        if rest.Some? {
          ApplyFirst(im, im1, c.value.0, rest.value, None);
        }
      }
    }
  }

  method ScanPixels(b: seq<Byte>, n: nat) returns (r: Option<(seq<Pos>, nat)>)
    ensures r.Some? <==> ReadPixels(b, n, true).Some?
    ensures r.Some? ==> r.value.1 + 2 * n <= |b|
                        && ReadPixels(b, n, true).value == (r.value.0, Values(b[r.value.1..], n, true),
                            r.value.1 + 2 * n)
  {
    hide ReadPositions, Values;
    r := ScanPositions(b, n);
    if r.Some? && |b| - r.value.1 < 2 * n {
      r := None;
    }
  }

  /** Applies an encoded delta to an image in place; on an error the blocks before it are already applied. */
  method ApplyDelta(raw: seq<Byte>, im: array<Pixel>) returns (ok: bool)
    requires im.Length == PIXELS
    modifies im
    ensures ok <==> Apply(old(im[..]), raw, true, None).Some?
    ensures ok ==> im[..] == Apply(old(im[..]), raw, true, None).value
  {
    hide ReadBlock, ApplyFrom, Apply, ApplyChange, Paint, Values, WideAt, ReadPixels, Uvarint, ReadPositions;
    StartApply(im[..], raw);
    var rest, last := raw, -1;
    while |rest| > 0
      invariant -1 <= last < BLOCKS
      invariant Apply(old(im[..]), raw, true, None) == ApplyFrom(im[..], rest, last)
      decreases |rest|
    {
      var b := Uvarint(rest, 0);
      if b.None? || b.value.0 >= BLOCKS || b.value.0 <= last {
        NoBlock(im[..], rest, last);
        return false;
      }
      var rest1 := rest[b.value.1..];
      var n := Uvarint(rest1, 0);
      if n.None? || n.value.0 < 1 || n.value.0 > BLOCK_PIXELS {
        NoBlock(im[..], rest, last);
        return false;
      }
      var rest2 := rest1[n.value.1..];
      var pos := ScanPixels(rest2, n.value.0);
      if pos.None? {
        NoBlock(im[..], rest, last);
        return false;
      }
      OneBlock(im[..], rest, last, pos.value.0, pos.value.1);
      WriteValues(im, b.value.0, pos.value.0, rest2[pos.value.1..]);
      rest := rest2[pos.value.1 + 2 * n.value.0..];
      last := b.value.0;
    }
    NoBlock(im[..], rest, last);
    ok := true;
  }

  lemma StartApply(im: Image, raw: seq<Byte>)
    ensures Apply(im, raw, true, None) == ApplyFrom(im, raw, -1)
  {
    ApplyInterleaved(im, raw, -1);
  }

  /** Nothing is left, or what is left does not start with a block. */
  lemma NoBlock(im: Image, raw: seq<Byte>, last: int)
    ensures raw == [] ==> ApplyFrom(im, raw, last) == Some(im)
    ensures raw != [] && ReadBlock(raw, last, true).None? ==> ApplyFrom(im, raw, last) == None
    ensures var b := Uvarint(raw, 0);
            b.None? || b.value.0 >= BLOCKS || b.value.0 <= last
            || (var n := Uvarint(raw[b.value.1..], 0);
                n.None? || n.value.0 < 1 || n.value.0 > BLOCK_PIXELS
                || ReadPixels(raw[b.value.1..][n.value.1..], n.value.0, true).None?)
            ==> ReadBlock(raw, last, true).None?
  {
    hide ReadPixels, ApplyChange;
  }

  /** The block number and pixel count that start raw, and what follows them; None if they do not read. */
  function Header(raw: seq<Byte>): (r: Option<(nat, nat, seq<Byte>)>)
    ensures r.Some? ==> |r.value.2| <= |raw|
  {
    var b := Uvarint(raw, 0);
    if b.None? then None
    else
      var n := Uvarint(raw[b.value.1..], 0);
      if n.None? then None else Some((b.value.0, n.value.0, raw[b.value.1..][n.value.1..]))
  }

  lemma HeaderBlock(raw: seq<Byte>, last: int, pos: seq<Pos>, used: nat)
    requires Header(raw).Some? && last < Header(raw).value.0 < BLOCKS && 1 <= Header(raw).value.1 <= BLOCK_PIXELS
    requires var (b, n, body) := Header(raw).value;
             used + 2 * n <= |body| && ReadPixels(body, n, true)
                 == Some((pos, Values(body[used..], n, true), used + 2 * n))
    ensures var (b, n, body) := Header(raw).value;
            var c := ReadBlock(raw, last, true);
            |pos| == n && c.Some? && c.value.0 == Change(b, pos, Values(body[used..], n, true))
                && raw[c.value.1..] == body[used + 2 * n..]
  {
    hide Uvarint, Values, ReadPositions;
    var (b, n, body) := Header(raw).value;
    PositionsCount(body, n);
  }

  lemma OneBlock(im: Image, raw: seq<Byte>, last: int, pos: seq<Pos>, used: nat)
    requires Header(raw).Some? && last < Header(raw).value.0 < BLOCKS && 1 <= Header(raw).value.1 <= BLOCK_PIXELS
    requires var (b, n, body) := Header(raw).value;
             used + 2 * n <= |body| && ReadPixels(body, n, true)
                 == Some((pos, Values(body[used..], n, true), used + 2 * n))
    ensures var (b, n, body) := Header(raw).value;
            |pos| == n && ApplyFrom(im, raw, last) == ApplyFrom(Paint(im, b, pos, WideAt(body[used..], n)),
                body[used + 2 * n..], b)
  {
    hide ReadBlock, Values, Paint, WideAt, ReadPixels, Header;
    HeaderBlock(raw, last, pos, used);
    var (b, n, body) := Header(raw).value;
    var colors := WideAt(body[used..], n);
  }
}
