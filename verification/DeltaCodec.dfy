/** The byte form of tile deltas, shared by z0 tiles (values are palette indices of one or two bytes)
    and coarse tiles (values are RGB565 words): per changed 32 x 32 block its number, the count of
    values, their positions in one of three forms, and the values. Decoding undoes encoding. */
module DeltaCodec {
  import opened Common

  type Byte = b: int | 0 <= b < 256

  const BLOCK_PIXELS := 1024
  const BLOCKS := 256

  // --- variable-length integers ---

  function PutUvarint(n: nat): (r: seq<Byte>)
    ensures |r| >= 1
  {
    if n < 128 then [n] else [n % 128 + 128] + PutUvarint(n / 128)
  }

  /** The integer at the start of b, whose byte number i this is, and its length; None when b ends in it
      or it does not fit 64 bits. */
  function Uvarint(b: seq<Byte>, i: nat): (r: Option<(nat, nat)>)
    ensures r.Some? ==> 1 <= r.value.1 <= |b|
  {
    if b == [] || i >= 10 then None
    else if b[0] < 128 then
      if i == 9 && b[0] > 1 then None else Some((b[0], 1))
    else
      var rest := Uvarint(b[1..], i + 1);
      if rest.None? then None else Some((b[0] - 128 + 128 * rest.value.0, 1 + rest.value.1))
  }

  /** The integers that fit from byte number i on. */
  function Limit(i: nat): nat
    requires i <= 9
    decreases 9 - i
  {
    if i == 9 then 2 else 128 * Limit(i + 1)
  }

  lemma {:induction false} UvarintBack(n: nat, i: nat, rest: seq<Byte>)
    requires i <= 9 && n < Limit(i)
    ensures Uvarint(PutUvarint(n) + rest, i) == Some((n, |PutUvarint(n)|))
    decreases n
  {
    var b := PutUvarint(n) + rest;
    if n >= 128 {
      assert b[1..] == PutUvarint(n / 128) + rest;
      UvarintBack(n / 128, i + 1, rest);
    }
  }

  lemma LimitBig()
    ensures Limit(0) >= 128 * 128 * 128
  {
    LimitPositive(3);
    assert Limit(1) == 128 * Limit(2) && Limit(2) == 128 * Limit(3);
  }

  lemma {:induction false} LimitPositive(i: nat)
    requires i <= 9
    ensures Limit(i) >= 1
    decreases 9 - i
  {
    if i < 9 { LimitPositive(i + 1); }
  }

  // --- bits ---

  predicate Bit(b: nat, k: nat) { if k == 0 then b % 2 == 1 else Bit(b / 2, k - 1) }

  /** b with bit k set. */
  function SetBit(b: nat, k: nat): nat {
    if k == 0 then b / 2 * 2 + 1 else b % 2 + 2 * SetBit(b / 2, k - 1)
  }

  function Pow2(k: nat): nat { if k == 0 then 1 else 2 * Pow2(k - 1) }

  lemma SetBitSmall(b: nat, k: nat, n: nat)
    requires b < Pow2(n) && k < n
    ensures SetBit(b, k) < Pow2(n)
  {
  }

  lemma {:induction false} SetBitBit(b: nat, k: nat, j: nat)
    ensures Bit(SetBit(b, k), j) <==> j == k || Bit(b, j)
  {
    if k > 0 && j > 0 {
      SetBitBit(b / 2, k - 1, j - 1);
      assert SetBit(b, k) / 2 == SetBit(b / 2, k - 1);
    } else if k == 0 && j > 0 {
      assert SetBit(b, k) / 2 == b / 2;
    }
  }

  const BITMAP_BYTES := 128

  type Bitmap = bm: seq<Byte> | |bm| == BITMAP_BYTES witness seq(BITMAP_BYTES, _ => 0)

  predicate InBitmap(bm: Bitmap, p: Pos) {
    Bit(bm[p / 8], p % 8)
  }

  function SetIn(bm: Bitmap, p: Pos): Bitmap {
    SetByte(bm[p / 8], p % 8);
    bm[p / 8 := SetBit(bm[p / 8], p % 8)]
  }

  lemma SetByte(b: Byte, k: nat)
    requires k < 8
    ensures SetBit(b, k) < 256
  {
    assert Pow2(4) == 16 && Pow2(8) == 16 * Pow2(4);
    SetBitSmall(b, k, 8);
  }

  lemma SetInBits(bm: Bitmap, p: Pos, q: Pos)
    ensures InBitmap(SetIn(bm, p), q) <==> q == p || InBitmap(bm, q)
  {
    if p / 8 == q / 8 {
      SetBitBit(bm[p / 8], p % 8, q % 8);
    }
  }

  // --- positions ---

  type Pos = p: nat | p < BLOCK_PIXELS

  /** Strictly increasing positions, none below `from`. */
  predicate Ascending(pos: seq<Pos>, from: nat) {
    pos == [] || (from <= pos[0] && Ascending(pos[1..], pos[0] as nat + 1))
  }

  function Gaps(pos: seq<Pos>, from: nat): seq<Byte>
    requires Ascending(pos, from)
  {
    if pos == [] then [] else PutUvarint(pos[0] - from) + Gaps(pos[1..], pos[0] as nat + 1)
  }

  /** n positions coded as gaps, the first counted from `from`, and how many bytes they take. */
  function ReadGaps(b: seq<Byte>, n: nat, from: nat): (r: Option<(seq<Pos>, nat)>)
    ensures r.Some? ==> r.value.1 <= |b| && |r.value.0| == n && Ascending(r.value.0, from)
    decreases n
  {
    if n == 0 then Some(([], 0))
    else
      var g := Uvarint(b, 0);
      if g.None? || from + g.value.0 >= BLOCK_PIXELS then None
      else
        var p: Pos := from + g.value.0;
        var rest := ReadGaps(b[g.value.1..], n - 1, p + 1);
        if rest.None? then None
        else
          assert ([p] + rest.value.0)[1..] == rest.value.0;
          Some(([p] + rest.value.0, g.value.1 + rest.value.1))
  }

  lemma GapBack(gap: nat, rest: seq<Byte>)
    requires gap < BLOCK_PIXELS
    ensures Uvarint(PutUvarint(gap) + rest, 0) == Some((gap, |PutUvarint(gap)|))
    ensures (PutUvarint(gap) + rest)[|PutUvarint(gap)|..] == rest
  {
    LimitBig();
    UvarintBack(gap, 0, rest);
  }

  lemma AscendingGap(pos: seq<Pos>, from: nat)
    requires Ascending(pos, from) && pos != []
    ensures 0 <= pos[0] - from < BLOCK_PIXELS && Ascending(pos[1..], pos[0] as nat + 1)
  {
  }

  lemma ReadFirstGap(b: seq<Byte>, n: nat, from: nat, gap: nat, k: nat, pos: seq<Pos>, used: nat)
    requires n > 0 && k <= |b| && from + gap < BLOCK_PIXELS
    requires Uvarint(b, 0) == Some((gap, k)) && ReadGaps(b[k..], n - 1, from + gap + 1) == Some((pos, used))
    ensures ReadGaps(b, n, from) == Some(([from + gap] + pos, k + used))
  {
  }

  lemma FirstGap(pos: seq<Pos>, from: nat, rest: seq<Byte>)
    requires Ascending(pos, from) && pos != []
    ensures var tail := Gaps(pos[1..], pos[0] as nat + 1);
            Gaps(pos, from) + rest == PutUvarint(pos[0] - from) + (tail + rest)
                && |Gaps(pos, from)| == |PutUvarint(pos[0] - from)| + |tail|
  {
  }

  lemma {:induction false} GapsBack(pos: seq<Pos>, from: nat, rest: seq<Byte>)
    requires Ascending(pos, from)
    ensures ReadGaps(Gaps(pos, from) + rest, |pos|, from) == Some((pos, |Gaps(pos, from)|))
    decreases pos
  {
    if pos == [] {
      assert Gaps(pos, from) + rest == rest;
    } else {
      AscendingGap(pos, from);
      GapsBack(pos[1..], pos[0] as nat + 1, rest);
      PrependGap(pos, from, rest);
    }
  }

  lemma PrependGap(pos: seq<Pos>, from: nat, rest: seq<Byte>)
    requires Ascending(pos, from) && pos != [] && Ascending(pos[1..], pos[0] as nat + 1)
    requires var tail := Gaps(pos[1..], pos[0] as nat + 1);
             ReadGaps(tail + rest, |pos| - 1, pos[0] as nat + 1) == Some((pos[1..], |tail|))
    ensures ReadGaps(Gaps(pos, from) + rest, |pos|, from) == Some((pos, |Gaps(pos, from)|))
  {
    hide PutUvarint, Uvarint, ReadGaps, Gaps, Ascending;
    var gap, tail := pos[0] - from, Gaps(pos[1..], pos[0] as nat + 1);
    assert 0 <= gap < BLOCK_PIXELS by { AscendingGap(pos, from); }
    FirstGap(pos, from, rest);
    GapBack(gap, tail + rest);
    ReadFirstGap(Gaps(pos, from) + rest, |pos|, from, gap, |PutUvarint(gap)|, pos[1..], |tail|);
    assert [from + gap] + pos[1..] == pos;
  }

  const NO_BITS: Bitmap := Zeros()

  function Zeros(): Bitmap { seq(BITMAP_BYTES, i => 0) }

  function ToBitmap(pos: seq<Pos>): Bitmap {
    if pos == [] then NO_BITS else SetIn(ToBitmap(pos[..|pos| - 1]), pos[|pos| - 1])
  }

  lemma {:induction false} ToBitmapBits(pos: seq<Pos>, q: Pos)
    ensures InBitmap(ToBitmap(pos), q) <==> q in pos
  {
    if pos == [] {
      ZeroBits(q % 8);
    } else {
      ToBitmapBits(pos[..|pos| - 1], q);
      SetInBits(ToBitmap(pos[..|pos| - 1]), pos[|pos| - 1], q);
      assert pos == pos[..|pos| - 1] + [pos[|pos| - 1]];
    }
  }

  lemma ZeroBits(k: nat)
    ensures !Bit(0, k)
  {
  }

  /** The positions from `from` on whose bits are set, in order. */
  function FromBitmap(bm: Bitmap, from: nat): (r: seq<Pos>)
    requires from <= BLOCK_PIXELS
    ensures Ascending(r, from)
    decreases BLOCK_PIXELS - from
  {
    if from == BLOCK_PIXELS then []
    else
      var rest := FromBitmap(bm, from + 1);
      AscendingFrom(rest, from + 1, from);
      if InBitmap(bm, from) then
        assert ([from] + rest)[1..] == rest;
        [from] + rest
      else rest
  }

  lemma AscendingFrom(pos: seq<Pos>, from: nat, from': nat)
    requires Ascending(pos, from) && from' <= from
    ensures Ascending(pos, from')
  {
  }

  lemma {:induction false} AscendingBounds(pos: seq<Pos>, from: nat, p: Pos)
    requires Ascending(pos, from) && p in pos
    ensures from <= p && (p == from ==> pos[0] == p)
  {
    if p != pos[0] {
      AscendingBounds(pos[1..], pos[0] + 1, p);
    }
  }

  /** A bitmap with exactly the bits of pos gives pos back. */
  lemma {:induction false} SameBits(pos: seq<Pos>, bm: Bitmap, from: nat)
    requires from <= BLOCK_PIXELS && Ascending(pos, from)
    requires forall q: Pos :: from <= q ==> (InBitmap(bm, q) <==> q in pos)
    ensures FromBitmap(bm, from) == pos
    decreases BLOCK_PIXELS - from
  {
    if from < BLOCK_PIXELS {
      if from in pos {
        AscendingBounds(pos, from, from);
        var rest := pos[1..];
        assert pos == [from] + rest;
        forall q: Pos | from + 1 <= q
          ensures InBitmap(bm, q) <==> q in rest
        {
        }
        SameBits(rest, bm, from + 1);
      } else {
        if pos != [] { assert pos[0] in pos; }
        SameBits(pos, bm, from + 1);
      }
    }
  }

  lemma BitmapBack(pos: seq<Pos>)
    requires Ascending(pos, 0)
    ensures FromBitmap(ToBitmap(pos), 0) == pos
  {
    forall q: Pos
      ensures InBitmap(ToBitmap(pos), q) <==> q in pos
    {
      ToBitmapBits(pos, q);
    }
    SameBits(pos, ToBitmap(pos), 0);
  }

  function AllFrom(p: nat): seq<Pos>
    requires p <= BLOCK_PIXELS
    decreases BLOCK_PIXELS - p
  {
    if p == BLOCK_PIXELS then [] else [p] + AllFrom(p + 1)
  }

  const ALL: seq<Pos> := AllFrom(0)

  // --- values: one or two bytes, little-endian ---

  function PutValue(v: nat, wide: bool): seq<Byte> {
    if wide then [v % 256, v / 256 % 256] else [v % 256]
  }

  function PutValues(vals: seq<nat>, wide: bool): (r: seq<Byte>)
    ensures |r| == |vals| * Width(wide)
  {
    if vals == [] then [] else PutValue(vals[0], wide) + PutValues(vals[1..], wide)
  }

  function Width(wide: bool): nat { if wide then 2 else 1 }

  function Value(b: seq<Byte>, wide: bool): nat
    requires |b| >= Width(wide)
  {
    if wide then b[0] as nat + 256 * b[1] as nat else b[0]
  }

  function Values(b: seq<Byte>, n: nat, wide: bool): (r: seq<nat>)
    requires |b| >= n * Width(wide)
    ensures |r| == n
  {
    if n == 0 then [] else [Value(b, wide)] + Values(b[Width(wide)..], n - 1, wide)
  }

  predicate Fits(vals: seq<nat>, wide: bool) {
    vals == [] || (vals[0] < (if wide then 0x1_0000 else 0x100) && Fits(vals[1..], wide))
  }

  lemma {:induction false} ValuesBack(vals: seq<nat>, wide: bool, rest: seq<Byte>)
    requires Fits(vals, wide)
    ensures Values(PutValues(vals, wide) + rest, |vals|, wide) == vals
  {
    if vals != [] {
      var tail := PutValues(vals[1..], wide) + rest;
      assert PutValues(vals, wide) + rest == PutValue(vals[0], wide) + tail;
      ValuesBack(vals[1..], wide, rest);
    }
  }

  // --- one block ---

  /** The changed pixels of a block: positions (all of them when there are 1024) and their values. */
  datatype Change = Change(block: nat, pos: seq<Pos>, vals: seq<nat>)

  predicate Encodable(c: Change, wide: bool) {
    && c.block < BLOCKS && 1 <= |c.vals| <= BLOCK_PIXELS && |c.pos| == |c.vals|
    && Ascending(c.pos, 0) && Fits(c.vals, wide) && (|c.vals| == BLOCK_PIXELS ==> c.pos == ALL)
  }

  function PutPositions(pos: seq<Pos>): seq<Byte>
    requires Ascending(pos, 0)
  {
    if |pos| == BLOCK_PIXELS then [] else if |pos| <= 128 then Gaps(pos, 0) else ToBitmap(pos)
  }

  function PutBlock(c: Change, wide: bool): seq<Byte>
    requires Ascending(c.pos, 0)
  {
    PutUvarint(c.block) + (PutUvarint(|c.vals|) + (PutPositions(c.pos) + PutValues(c.vals, wide)))
  }

  /** n positions at the start of b and how many bytes they take. */
  function ReadPositions(b: seq<Byte>, n: nat): (r: Option<(seq<Pos>, nat)>)
    ensures r.Some? ==> r.value.1 <= |b|
  {
    if n == BLOCK_PIXELS then Some((ALL, 0))
    else if n <= 128 then ReadGaps(b, n, 0)
    else if |b| < BITMAP_BYTES then None
    else
      var pos := FromBitmap(b[..BITMAP_BYTES], 0);
      if |pos| != n then None else Some((pos, BITMAP_BYTES))
  }

  lemma PositionsBack(pos: seq<Pos>, rest: seq<Byte>)
    requires Ascending(pos, 0) && (|pos| == BLOCK_PIXELS ==> pos == ALL)
    ensures ReadPositions(PutPositions(pos) + rest, |pos|) == Some((pos, |PutPositions(pos)|))
  {
    hide ALL;
    if |pos| == BLOCK_PIXELS {
    } else if |pos| <= 128 {
      GapsBack(pos, 0, rest);
    } else {
      BitmapBack(pos);
      assert (ToBitmap(pos) + rest)[..BITMAP_BYTES] == ToBitmap(pos);
    }
  }

  /** n positions and n values at the start of b, and how many bytes they take. */
  function ReadPixels(b: seq<Byte>, n: nat, wide: bool): (r: Option<(seq<Pos>, seq<nat>, nat)>)
    ensures r.Some? ==> r.value.2 <= |b|
  {
    var pos := ReadPositions(b, n);
    if pos.None? || |b| - pos.value.1 < n * Width(wide) then None
    else Some((pos.value.0, Values(b[pos.value.1..], n, wide), pos.value.1 + n * Width(wide)))
  }

  /** The block at the start of b, which must follow block `last`, and how many bytes it takes. */
  function ReadBlock(b: seq<Byte>, last: int, wide: bool): (r: Option<(Change, nat)>)
    ensures r.Some? ==> 1 <= r.value.1 <= |b|
  {
    var block := Uvarint(b, 0);
    if block.None? || block.value.0 >= BLOCKS || block.value.0 <= last then None
    else
      var b1 := b[block.value.1..];
      var n := Uvarint(b1, 0);
      if n.None? || n.value.0 < 1 || n.value.0 > BLOCK_PIXELS then None
      else
        var px := ReadPixels(b1[n.value.1..], n.value.0, wide);
        if px.None? then None
        else Some((Change(block.value.0, px.value.0, px.value.1), block.value.1 + n.value.1 + px.value.2))
  }

  lemma SmallBack(n: nat, rest: seq<Byte>)
    requires n <= BLOCK_PIXELS
    ensures Uvarint(PutUvarint(n) + rest, 0) == Some((n, |PutUvarint(n)|))
    ensures (PutUvarint(n) + rest)[|PutUvarint(n)|..] == rest
  {
    LimitBig();
    UvarintBack(n, 0, rest);
  }

  lemma PixelsBack(pos: seq<Pos>, vals: seq<nat>, wide: bool, rest: seq<Byte>)
    requires Ascending(pos, 0) && |pos| == |vals| && Fits(vals, wide) && (|pos| == BLOCK_PIXELS ==> pos == ALL)
    ensures ReadPixels(PutPositions(pos) + PutValues(vals, wide) + rest, |vals|, wide)
            == Some((pos, vals, |PutPositions(pos)| + |PutValues(vals, wide)|))
  {
    hide PutPositions, ReadPositions, PutValues, Values, ALL;
    var b3 := PutValues(vals, wide) + rest;
    assert PutPositions(pos) + PutValues(vals, wide) + rest == PutPositions(pos) + b3;
    PositionsBack(pos, b3);
    ValuesBack(vals, wide, rest);
  }

  lemma BlockBack(c: Change, last: int, wide: bool, rest: seq<Byte>)
    requires Encodable(c, wide) && last < c.block
    ensures ReadBlock(PutBlock(c, wide) + rest, last, wide) == Some((c, |PutBlock(c, wide)|))
  {
    hide PutUvarint, Uvarint, PutPositions, ReadPixels, PutValues, ALL;
    var b3 := PutValues(c.vals, wide) + rest;
    var b2 := PutPositions(c.pos) + b3;
    var b1 := PutUvarint(|c.vals|) + b2;
    assert PutBlock(c, wide) + rest == PutUvarint(c.block) + b1;
    SmallBack(c.block, b1);
    SmallBack(|c.vals|, b2);
    PixelsBack(c.pos, c.vals, wide, rest);
    assert b2 == PutPositions(c.pos) + PutValues(c.vals, wide) + rest;
  }

  // --- a whole delta ---

  /** The changes of a delta come in increasing block order. */
  predicate Ordered(cs: seq<Change>, last: int, wide: bool) {
    cs == [] || (Encodable(cs[0], wide) && last < cs[0].block && Ordered(cs[1..], cs[0].block, wide))
  }

  function Put(cs: seq<Change>, last: int, wide: bool): seq<Byte>
    requires Ordered(cs, last, wide)
    decreases cs
  {
    if cs == [] then [] else PutBlock(cs[0], wide) + Put(cs[1..], cs[0].block, wide)
  }

  function Read(b: seq<Byte>, last: int, wide: bool): Option<seq<Change>>
    decreases |b|
  {
    if b == [] then Some([])
    else
      var c := ReadBlock(b, last, wide);
      if c.None? then None
      else
        var rest := Read(b[c.value.1..], c.value.0.block, wide);
        if rest.None? then None else Some([c.value.0] + rest.value)
  }

  lemma ReadFirstBlock(b: seq<Byte>, last: int, wide: bool, c: Change, k: nat, cs: seq<Change>)
    requires b != [] && k <= |b| && ReadBlock(b, last, wide) == Some((c, k)) && Read(b[k..], c.block, wide) == Some(cs)
    ensures Read(b, last, wide) == Some([c] + cs)
  {
  }

  lemma PrependBlock(cs: seq<Change>, last: int, wide: bool)
    requires cs != [] && Ordered(cs, last, wide)
    requires Read(Put(cs[1..], cs[0].block, wide), cs[0].block, wide) == Some(cs[1..])
    ensures Read(Put(cs, last, wide), last, wide) == Some(cs)
  {
    hide PutBlock, ReadBlock, Read;
    var c, rest := cs[0], Put(cs[1..], cs[0].block, wide);
    assert Put(cs, last, wide) == PutBlock(c, wide) + rest;
    BlockBack(c, last, wide, rest);
    assert (PutBlock(c, wide) + rest)[|PutBlock(c, wide)|..] == rest;
    ReadFirstBlock(PutBlock(c, wide) + rest, last, wide, c, |PutBlock(c, wide)|, cs[1..]);
    assert [c] + cs[1..] == cs;
  }

  /** Decoding an encoded delta gives its changes and uses every byte. */
  lemma {:induction false} DeltaBack(cs: seq<Change>, last: int, wide: bool)
    requires Ordered(cs, last, wide)
    ensures Read(Put(cs, last, wide), last, wide) == Some(cs)
    decreases cs
  {
    if cs != [] {
      DeltaBack(cs[1..], cs[0].block, wide);
      PrependBlock(cs, last, wide);
    }
  }
}
