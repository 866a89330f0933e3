/** The overlay interval log: its records, the intervals they tell, and the index of each tile's records. */
module OverlayLog {
  import opened Common

  const GRID_ORIGIN := -256.0
  const TILE_SPAN := 512.0
  const MAX_COORD := 2048

  datatype Tile = Tile(x: int, y: int)

  predicate ValidTile(t: Tile) { -MAX_COORD <= t.x <= MAX_COORD && -MAX_COORD <= t.y <= MAX_COORD }

  function TileAt(x: real, y: real): Tile {
    Tile(((x - GRID_ORIGIN) / TILE_SPAN).Floor, ((y - GRID_ORIGIN) / TILE_SPAN).Floor)
  }

  datatype Kind = Tag | Recipe | Rail | Unknown

  datatype Key = Key(kind: Kind, name: string)

  /** All of an interval but its times. `bytes` is the length of its encoding. */
  datatype Content = Content(key: Key, x: real, y: real, text: seq<string>, bytes: nat)

  function ContentTile(c: Content): Tile { TileAt(c.x, c.y) }

  /** End 0 means still open. */
  datatype Interval = Interval(content: Content, start: TimeMs, end: TimeMs)

  datatype Rec = Open(ord: nat, start: TimeMs, content: Content) | End(ord: nat, t: TimeMs)

  type Log = seq<Rec>

  function UvarintLen(n: nat): (r: nat)
    ensures r > 0
  {
    if n < 128 then 1 else 1 + UvarintLen(n / 128)
  }

  function VarintLen(n: int): (r: nat)
    ensures r > 0
  {
    UvarintLen(if n >= 0 then 2 * n else -2 * n - 1)
  }

  function Pow128(n: nat): (p: int)
    ensures p >= 1
  {
    if n == 0 then 1 else 128 * Pow128(n - 1)
  }

  /** An unsigned number takes as many bytes as it has groups of seven bits. */
  lemma {:induction false} UvarintLenIs(n: nat)
    ensures var k := UvarintLen(n); n < Pow128(k) && (k > 1 ==> n >= Pow128(k - 1))
    decreases n
  {
    if n >= 128 { UvarintLenIs(n / 128); }
  }

  /** A signed one as many as it has with its sign. */
  lemma VarintLenIs(n: int)
    ensures var k := VarintLen(n);
            && -Pow128(k) <= 2 * n < Pow128(k)
            && (k > 1 ==> !(-Pow128(k - 1) <= 2 * n < Pow128(k - 1)))
  {
    UvarintLenIs(if n >= 0 then 2 * n else -2 * n - 1);
  }

  /** The length of the record's frame in the log: length, checksum and payload. */
  function Len(r: Rec): (n: nat)
    ensures n > 8
  {
    match r
    case Open(ord, start, c) => 9 + UvarintLen(ord) + VarintLen(start) + c.bytes
    case End(ord, t) => 9 + UvarintLen(ord) + VarintLen(t)
  }

  /** Where record i starts; at |log| the log's size. */
  function Off(log: Log, i: nat): nat
    requires i <= |log|
  {
    if i == 0 then 0 else Off(log, i - 1) + Len(log[i - 1])
  }

  function Size(log: Log): nat { Off(log, |log|) }

  lemma {:induction false} OffPrefix(log: Log, more: Log, i: nat)
    requires i <= |log|
    ensures Off(log + more, i) == Off(log, i)
  {
    if i > 0 {
      OffPrefix(log, more, i - 1);
      assert (log + more)[i - 1] == log[i - 1];
    }
  }

  lemma {:induction false} OffGrows(log: Log, i: nat, j: nat)
    requires i < j <= |log|
    ensures Off(log, i) < Off(log, j)
  {
    if i < j - 1 {
      OffGrows(log, i, j - 1);
    }
  }

  // --- what a log tells ---

  /** The intervals of the log by ordinal. */
  function Intervals(log: Log): seq<Interval> {
    if log == [] then [] else
      var p := Intervals(log[..|log| - 1]);
      match log[|log| - 1]
      case Open(ord, start, c) => p + [Interval(c, start, 0)]
      case End(ord, t) => if ord < |p| then p[ord := p[ord].(end := t)] else p
  }

  /** The ordinal of each key's open interval. */
  function Current(log: Log): map<Key, nat> {
    if log == [] then map[] else
      var p := Current(log[..|log| - 1]);
      match log[|log| - 1]
      case Open(ord, start, c) => p[c.key := ord]
      case End(ord, t) => var ivs := Intervals(log[..|log| - 1]); if ord < |ivs| then p - {ivs[ord].content.key} else p
  }

  /** The record may follow the log: an open one has the next ordinal, a valid tile and a key that is not open, an
      end one ends an open interval. */
  predicate Follows(log: Log, r: Rec) {
    match r
    case Open(ord, start, c) => ord == |Intervals(log)| && ValidTile(ContentTile(c)) && c.key !in Current(log)
    case End(ord, t) =>
      ord < |Intervals(log)| && Intervals(log)[ord].content.key in Current(log)
          && Current(log)[Intervals(log)[ord].content.key] == ord
  }

  predicate Good(log: Log) { log == [] || (Good(log[..|log| - 1]) && Follows(log[..|log| - 1], log[|log| - 1])) }

  lemma Extend(log: Log, r: Rec)
    ensures (log + [r])[..|log|] == log && (log + [r])[|log|] == r
    ensures Good(log + [r]) <==> Good(log) && Follows(log, r)
  {
    assert (log + [r])[..|log + [r]| - 1] == log;
  }

  /** Each open interval is on record under its key. */
  lemma {:induction false} CurrentOk(log: Log)
    requires Good(log)
    ensures forall k <- Current(log) ::
            Current(log)[k] < |Intervals(log)|
            && Intervals(log)[Current(log)[k]].content.key == k
                                        && Intervals(log)[Current(log)[k]].end == 0
  {
    if log != [] {
      CurrentOk(log[..|log| - 1]);
    }
  }

  /** Any prefix of a good log is good: in particular it has at most one open interval for a key. */
  lemma {:induction false} PrefixGood(log: Log, n: nat)
    requires Good(log) && n <= |log|
    ensures Good(log[..n])
  {
    if n < |log| {
      PrefixGood(log[..|log| - 1], n);
      assert log[..|log| - 1][..n] == log[..n];
    } else {
      assert log[..n] == log;
    }
  }

  // --- tiles ---

  /** The tile of a record that follows the log: an end record's is the tile of the interval it ends. */
  function RecTile(log: Log, r: Rec): Tile
    requires Follows(log, r)
  {
    if r.Open? then ContentTile(r.content) else ContentTile(Intervals(log)[r.ord].content)
  }

  datatype Loc = Loc(off: nat, len: nat)

  /** The tile's records, by their place in the log. */
  function TileRecs(log: Log, tile: Tile): seq<nat>
    requires Good(log)
  {
    if log == [] then [] else
      var p := log[..|log| - 1];
      TileRecs(p, tile) + if RecTile(p, log[|log| - 1]) == tile then [|log| - 1] else []
  }

  function Locs(log: Log, tile: Tile): seq<Loc>
    requires Good(log)
  {
    if log == [] then [] else
      var p := log[..|log| - 1];
      Locs(p, tile) + if RecTile(p, log[|log| - 1]) == tile then [Loc(Size(p), Len(log[|log| - 1]))] else []
  }

  lemma {:induction false} LocsAre(log: Log, tile: Tile)
    requires Good(log)
    ensures |Locs(log, tile)| == |TileRecs(log, tile)|
    ensures forall k: nat :: k < |Locs(log, tile)| ==>
              TileRecs(log, tile)[k] < |log|
              && Locs(log, tile)[k] == Loc(Off(log, TileRecs(log, tile)[k]), Len(log[TileRecs(log, tile)[k]]))
    ensures forall j: nat, k: nat :: j < k < |Locs(log, tile)| ==> TileRecs(log, tile)[j] < TileRecs(log, tile)[k]
  {
    if log != [] {
      var p, r := log[..|log| - 1], log[|log| - 1];
      LocsAre(p, tile);
      assert log == p + [r];
      forall i: nat | i <= |p| ensures Off(log, i) == Off(p, i) { OffPrefix(p, [r], i); }
    }
  }

  lemma LocsExtend(log: Log, r: Rec, tile: Tile)
    requires Good(log) && Follows(log, r)
    ensures Good(log + [r]) && Locs(log + [r], tile) == Locs(log, tile) + if RecTile(log, r)
              == tile then [Loc(Size(log), Len(r))] else []
  {
    Extend(log, r);
  }

  /** The intervals in the tile. */
  function InTile(ivs: seq<Interval>, tile: Tile): seq<Interval> {
    if ivs == [] then [] else
      InTile(ivs[..|ivs| - 1], tile) + if ContentTile(ivs[|ivs| - 1].content) == tile then [ivs[|ivs| - 1]] else []
  }

  lemma InTileMore(ivs: seq<Interval>, iv: Interval, tile: Tile)
    ensures InTile(ivs + [iv], tile) == InTile(ivs, tile) + if ContentTile(iv.content) == tile then [iv] else []
  {
    assert (ivs + [iv])[..|ivs|] == ivs;
  }

  /** Changing the times of one interval changes its place in its tile, and no other tile. */
  lemma {:induction false} InTileChange(ivs: seq<Interval>, i: nat, iv: Interval, tile: Tile)
    requires i < |ivs| && iv.content == ivs[i].content
    ensures |InTile(ivs[..i], tile)| <= |InTile(ivs, tile)| == |InTile(ivs[i := iv], tile)|
    ensures ContentTile(iv.content) != tile ==> InTile(ivs[i := iv], tile) == InTile(ivs, tile)
    ensures ContentTile(iv.content) == tile ==>
              |InTile(ivs[..i], tile)| < |InTile(ivs, tile)|
                  && InTile(ivs[i := iv], tile) == InTile(ivs, tile)[|InTile(ivs[..i], tile)| := iv]
              && InTile(ivs, tile)[|InTile(ivs[..i], tile)|] == ivs[i]
  {
    var n := |ivs| - 1;
    if i == n {
      assert ivs[i := iv][..n] == ivs[..n];
    } else {
      InTileChange(ivs[..n], i, iv, tile);
      assert ivs[i := iv][..n] == ivs[..n][i := iv] && ivs[..n][..i] == ivs[..i];
    }
  }

  /** A record of another tile changes nothing in this one. */
  lemma OtherTile(log: Log, r: Rec, tile: Tile)
    requires Good(log) && Follows(log, r) && RecTile(log, r) != tile
    ensures InTile(Intervals(log + [r]), tile) == InTile(Intervals(log), tile)
  {
    Extend(log, r);
    if r.Open? {
      InTileMore(Intervals(log), Interval(r.content, r.start, 0), tile);
    } else {
      InTileChange(Intervals(log), r.ord, Intervals(log)[r.ord].(end := r.t), tile);
    }
  }

  /** The tile's record count tells its intervals: as long as it stays the same, so do they. */
  lemma {:induction false} VersionTells(log: Log, more: Log, tile: Tile)
    requires Good(log) && Good(log + more)
    ensures |Locs(log, tile)| <= |Locs(log + more, tile)|
    ensures |Locs(log, tile)| == |Locs(log + more, tile)| ==>
              InTile(Intervals(log), tile) == InTile(Intervals(log + more), tile)
    decreases |more|
  {
    if more == [] {
      assert log + more == log;
    } else {
      var m, r := more[..|more| - 1], more[|more| - 1];
      assert log + more == (log + m) + [r];
      Extend(log + m, r);
      VersionTells(log, m, tile);
      LocsExtend(log + m, r, tile);
      if RecTile(log + m, r) != tile {
        OtherTile(log + m, r, tile);
      }
    }
  }
}
