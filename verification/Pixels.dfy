/** RGB565 pixels and the 2x2 average that builds a coarse tile from its four children: the plain
    form, one channel at a time, and the packed form, which sums all channels in one 32-bit word. */
module Pixels {
  import opened Common

  /** A 16-bit word; bits 11..15 red, 5..10 green, 0..4 blue. */
  type Pixel = v: int | 0 <= v < 0x1_0000

  const TILE_SIZE := 512
  const HALF := 256
  const PIXELS := 262_144

  /** A tile image, row-major; 0 is an uncharted pixel. */
  type Image = im: seq<Pixel> | |im| == PIXELS witness seq(PIXELS, _ => 0)

  const UNCHARTED: Image := Blank()

  function Blank(): Image { seq(PIXELS, i => 0) }

  /** A word of 32 bits: what does not fit is lost. */
  function Word(x: int): int { x % 0x1_0000_0000 }

  // --- the plain average ---

  function Red(v: Pixel): int { v / 2048 }

  function Green(v: Pixel): int { v / 32 % 64 }

  function Blue(v: Pixel): int { v % 32 }

  /** The average of four channel values, rounded half up. */
  function Mean(a: int, b: int, c: int, d: int): int { (a + b + c + d + 2) / 4 }

  /** That is the nearest whole value, the greater one of two. */
  lemma MeanIsRounded(a: int, b: int, c: int, d: int)
    ensures 2 * (a + b + c + d) - 4 <= 8 * Mean(a, b, c, d) <= 2 * (a + b + c + d) + 4
    ensures 8 * Mean(a, b, c, d) > 2 * (a + b + c + d) - 4
  {
  }

  function Average4(a: Pixel, b: Pixel, c: Pixel, d: Pixel): Pixel {
    MeanBounds(a, b, c, d);
    Mean(Red(a), Red(b), Red(c), Red(d)) * 2048 + Mean(Green(a), Green(b), Green(c), Green(d)) * 32
    + Mean(Blue(a), Blue(b), Blue(c), Blue(d))
  }

  lemma MeanBounds(a: Pixel, b: Pixel, c: Pixel, d: Pixel)
    ensures 0 <= Mean(Red(a), Red(b), Red(c), Red(d)) <= 31
    ensures 0 <= Mean(Green(a), Green(b), Green(c), Green(d)) <= 63
    ensures 0 <= Mean(Blue(a), Blue(b), Blue(c), Blue(d)) <= 31
  {
  }

  /** Division by d leaves quotient q and remainder r. */
  lemma Divides(x: int, d: int, q: int, r: int)
    requires 0 <= r < d && x == q * d + r
    ensures x / d == q && x % d == r
  {
    var k := q - x / d;
    assert k * d == x % d - r;
    assert k >= 1 ==> k * d >= d;
    assert k <= -1 ==> k * d <= -d;
  }

  // --- the packed average ---

  /** x & 0xF81F: the red and blue bits. */
  function RedBlueBits(x: int): int { x / 2048 % 32 * 2048 + x % 32 }

  /** x & 0x07E0: the green bits. */
  function GreenBits(x: int): int { x / 32 % 64 * 32 }

  /** Green moves 16 bits up, so four pixels add up without carries between the channels. */
  function Spread(v: Pixel): int { Word(RedBlueBits(v) + GreenBits(v) * 0x1_0000) }

  /** The "+2" of rounding half up in each channel. */
  const ROUND := 2 + 2 * 2048 + 2 * 2_097_152

  function PackedAverage(a: Pixel, b: Pixel, c: Pixel, d: Pixel): int {
    var s := Word(Spread(a) + Spread(b) + Spread(c) + Spread(d) + ROUND);
    RedBlueBits(s / 4) + GreenBits(s / 262_144)
  }

  lemma SpreadColumns(v: Pixel)
    ensures Spread(v) == Red(v) * 2048 + Green(v) * 2_097_152 + Blue(v)
    ensures 0 <= Red(v) <= 31 && 0 <= Green(v) <= 63 && 0 <= Blue(v) <= 31
  {
  }

  /** The columns of the packed sum are read back one by one: none reaches the next. */
  lemma ReadColumns(r: int, g: int, b: int)
    requires 0 <= r <= 126 && 0 <= g <= 254 && 0 <= b <= 126
    ensures var s := r * 2048 + g * 2_097_152 + b;
            0 <= s < 0x1_0000_0000 && RedBlueBits(s / 4) == r / 4 * 2048 + b / 4 && GreenBits(s / 262_144) == g / 4 * 32
  {
    var s := r * 2048 + g * 2_097_152 + b;
    var rq, rr, gq, gr, bq, br := r / 4, r % 4, g / 4, g % 4, b / 4, b % 4;
    Divides(s, 4, 512 * r + 524_288 * g + bq, br);
    Divides(s / 4, 2048, rq + 256 * g, 512 * rr + bq);
    Divides(rq + 256 * g, 32, 8 * g, rq);
    Divides(s / 4, 32, 16 * r + 16_384 * g, bq);
    Divides(s, 262_144, 8 * g, r * 2048 + b);
    Divides(8 * g, 32, gq, 8 * gr);
    Divides(gq, 64, 0, gq);
  }

  /** The packed average is the plain one. */
  lemma PackedIsAverage(a: Pixel, b: Pixel, c: Pixel, d: Pixel)
    ensures PackedAverage(a, b, c, d) == Average4(a, b, c, d)
  {
    SpreadColumns(a);
    SpreadColumns(b);
    SpreadColumns(c);
    SpreadColumns(d);
    hide RedBlueBits, GreenBits, Spread, Word;
    PackedColumns(Red(a) + Red(b) + Red(c) + Red(d) + 2, Green(a) + Green(b) + Green(c) + Green(d) + 2,
                  Blue(a) + Blue(b) + Blue(c) + Blue(d) + 2, Spread(a) + Spread(b) + Spread(c) + Spread(d) + ROUND);
  }

  lemma PackedColumns(r: int, g: int, b: int, sum: int)
    requires 0 <= r <= 126 && 0 <= g <= 254 && 0 <= b <= 126
    requires sum == r * 2048 + g * 2_097_152 + b
    ensures RedBlueBits(Word(sum) / 4) + GreenBits(Word(sum) / 262_144) == r / 4 * 2048 + g / 4 * 32 + b / 4
  {
    hide RedBlueBits, GreenBits;
    ReadColumns(r, g, b);
    assert Word(sum) == sum;
  }
}
