/** The pyramid of one datastore as a value: its tiles, dirty marks and horizon, what always holds of them,
    and what each step keeps. */
module PyramidState {
  import opened Common
  import opened Pixels
  import opened Downsample
  import opened CoarseSeries
  import opened PyramidTiles

  datatype Dir = Dir(hist: History, horizon: TimeMs, tiles: map<Tile, CTile>, dirty: set<Tile>, z0seen: map<Tile,
                     TimeMs>)

  /** What the configuration fixes: the coarsest level, the version spacing of each level, the longest chain. */
  datatype Config = Config(levels: nat, intervals: seq<TimeMs>, limit: nat, ratio: real)

  ghost predicate ConfigOk(cf: Config) {
    && cf.levels >= 1 && |cf.intervals| >= 1
    && (forall i :: 0 <= i < |cf.intervals| ==> cf.intervals[i] > 0)
    && (forall i :: 0 < i < |cf.intervals| ==> cf.intervals[i] % cf.intervals[i - 1] == 0)
  }

  /** Each z0 version the builder has seen is marked on every ancestor. */
  ghost predicate Marked(d: Dir, levels: nat) {
    forall z, k :: z in d.z0seen && z.k == 0 && 1 <= k <= levels ==>
      Ancestor(z, k) in d.tiles && d.tiles[Ancestor(z, k)].descT >= d.z0seen[z]
  }

  ghost predicate TilesOk(d: Dir, cf: Config) {
    forall c <- d.tiles :: 1 <= c.k <= cf.levels && TileOk(d.hist, d.horizon, cf.limit, c, d.tiles[c])
  }

  /** A tile without a dirty mark has nothing waiting; `open` are the tiles built but not committed yet. */
  ghost predicate ClearOk(d: Dir, open: set<Tile>) {
    forall c <- d.tiles :: c !in d.dirty ==>
        Settled(d.tiles[c])
        && (c in open || d.tiles[c].n == d.tiles[c].books.count)
  }

  ghost predicate HistoryOk(hist: History) {
    forall z <- hist :: z.k == 0 && InOrder(hist[z])
  }

  ghost predicate DirOk(d: Dir, cf: Config, open: set<Tile>) {
    && d.horizon > NEVER && HistoryOk(d.hist) && d.dirty <= d.tiles.Keys
    && TilesOk(d, cf) && Marked(d, cf.levels) && ClearOk(d, open)
  }

  /** The builder has seen every z0 version. */
  ghost predicate Covered(d: Dir) {
    forall z <- d.hist :: d.hist[z] != [] ==> z in d.z0seen && d.z0seen[z] >= d.hist[z][|d.hist[z]| - 1].t
  }

  // --- a tile without a dirty mark is current ---

  /** Nothing was committed inside a tile the pyramid does not know. */
  lemma UnknownIsEmpty(d: Dir, cf: Config, c: Tile, T: TimeMs)
    requires DirOk(d, cf, {}) && Covered(d) && 1 <= c.k <= cf.levels && c !in d.tiles
    ensures Average(d.hist, c, T) == UNCHARTED
  {
    hide Average, TileOk;
    forall z | Under(z, c)
      ensures Z0At(d.hist, z, T) == Z0At(map[], z, T)
    {
      if z in d.hist && d.hist[z] != [] { assert false; }
    }
    AverageSame(d.hist, map[], c, T, T);
    AverageOfNothing(c, T);
  }

  /** Nothing changed under a settled tile after the time it is good at. */
  lemma SettledStays(d: Dir, cf: Config, c: Tile, T: TimeMs)
    requires DirOk(d, cf, {}) && Covered(d) && c in d.tiles && d.tiles[c].descT <= GoodAt(d.tiles[c]) <= T
    ensures Average(d.hist, c, T) == Average(d.hist, c, GoodAt(d.tiles[c]))
  {
    hide Average, TileOk, Sound;
    var good := GoodAt(d.tiles[c]);
    forall z | Under(z, c)
      ensures Z0At(d.hist, z, good) == Z0At(d.hist, z, T)
    {
      if z in d.hist && d.hist[z] != [] {
        assert Ancestor(z, c.k) in d.tiles;
        var h := d.hist[z];
        assert h[|h| - 1].t <= good;
        NewestSame(h, good, T);
      }
    }
    AverageSame(d.hist, d.hist, c, good, T);
  }

  lemma ClearCurrent(d: Dir, cf: Config, c: Tile)
    requires DirOk(d, cf, {}) && Covered(d) && 1 <= c.k <= cf.levels && c !in d.dirty
    ensures Current(d.hist, d.horizon, d.tiles, c)
  {
    hide Average, Sound;
    if c !in d.tiles {
      UnknownIsEmpty(d, cf, c, d.horizon);
    } else {
      var ct := d.tiles[c];
      assert TileOk(d.hist, d.horizon, cf.limit, c, ct);
      assert GoodAt(ct) <= d.horizon by { TileFacts(d.hist, d.horizon, cf.limit, c, ct); }
      SettledStays(d, cf, c, d.horizon);
      if ct.n == 0 {
        NothingUnder(d, cf, c);
      }
    }
  }

  /** A settled tile without versions has nothing under it. */
  lemma NothingUnder(d: Dir, cf: Config, c: Tile)
    requires DirOk(d, cf, {}) && Covered(d) && c in d.tiles && d.tiles[c].descT <= NEVER
    ensures Average(d.hist, c, d.horizon) == UNCHARTED
  {
    hide Average, TileOk;
    forall z | Under(z, c)
      ensures Z0At(d.hist, z, d.horizon) == Z0At(map[], z, d.horizon)
    {
      if z in d.hist && d.hist[z] != [] { assert false; }
    }
    AverageSame(d.hist, map[], c, d.horizon, d.horizon);
    AverageOfNothing(c, d.horizon);
  }

  // --- building ---

  /** The children of c as a build reads them. */
  function Kid(d: Dir, c: Tile, i: nat, T: TimeMs): Option<Image>
    requires c.k >= 1 && i < 4
  {
    var child := Child(c, i);
    if c.k == 1 then Z0At(d.hist, child, T)
    else if child in d.tiles && 0 < d.tiles[child].n <= |d.tiles[child].log| then Some(Version(d.tiles[child].log,
        d.tiles[child].n))
    else None
  }

  function Kids(d: Dir, c: Tile, T: TimeMs): (r: seq<Option<Image>>)
    requires c.k >= 1
    ensures |r| == 4
  {
    [Kid(d, c, 0, T), Kid(d, c, 1, T), Kid(d, c, 2, T), Kid(d, c, 3, T)]
  }

  /** Every coarse child of c is current. */
  ghost predicate KidsCurrent(d: Dir, c: Tile) {
    c.k > 1 ==> forall i :: 0 <= i < 4 ==> Current(d.hist, d.horizon, d.tiles, Child(c, i))
  }

  /** From current children a build makes the tile's average. */
  lemma KidsAverage(d: Dir, c: Tile)
    requires c.k >= 1 && KidsCurrent(d, c)
    ensures Parent(Kids(d, c, d.horizon)) == Average(d.hist, c, d.horizon)
  {
    hide Parent, Z0At, Version;
    forall i | 0 <= i < 4
      ensures PyramidTiles.Content(Kids(d, c, d.horizon)[i]) == Average(d.hist, Child(c, i), d.horizon)
    {
      if c.k > 1 {
        assert Current(d.hist, d.horizon, d.tiles, Child(c, i));
        KidShown(d, c, i);
      }
    }
    AverageOfKids(d.hist, c, d.horizon, Kids(d, c, d.horizon));
  }

  lemma KidShown(d: Dir, c: Tile, i: nat)
    requires c.k > 1 && i < 4
    ensures PyramidTiles.Content(Kid(d, c, i, d.horizon)) == Shown(d.tiles, Child(c, i))
  {
  }

  /** The state after building tile c. */
  function AfterBuild(d: Dir, c: Tile, b: Built): Dir {
    d.(tiles := d.tiles[c := b.ct], dirty := if b.clear then d.dirty - {c} else d.dirty)
  }

  lemma AfterBuildOk(d: Dir, cf: Config, open: set<Tile>, c: Tile, b: Built)
    requires DirOk(d, cf, open) && c in d.dirty && TileOk(d.hist, d.horizon, cf.limit, c, b.ct)
    requires b.ct.descT == d.tiles[c].descT
    requires b.clear ==> Settled(b.ct) && (b.entry || b.ct.books.count == b.ct.n)
    ensures DirOk(AfterBuild(d, c, b), cf, if b.entry then open + {c} else open)
  {
    hide TileOk, Ancestor;
  }

  /** Publishing: after a sync every appended record is durable and the known ones are visible. */
  function Published(ct: CTile): CTile { ct.(n := ct.books.count, synced := |ct.log|) }

  /** The tile after its level's commit. */
  function Committed(ct: CTile, synced: bool): CTile {
    if synced && ct.books.count != ct.n then Published(ct) else ct
  }

  function AfterCommit(d: Dir, c: Tile, synced: bool): Dir
    requires c in d.tiles
  {
    if d.tiles[c].books.count == d.tiles[c].n then d
    else if synced then d.(tiles := d.tiles[c := Published(d.tiles[c])])
    else d.(dirty := d.dirty + {c})
  }

  lemma PublishedOk(hist: History, top: TimeMs, limit: nat, c: Tile, ct: CTile)
    requires TileOk(hist, top, limit, c, ct)
    ensures TileOk(hist, top, limit, c, Published(ct))
  {
    hide Sound, Average, Version, BooksOf;
  }

  lemma AfterCommitOk(d: Dir, cf: Config, open: set<Tile>, c: Tile, synced: bool)
    requires DirOk(d, cf, open) && c in d.tiles
    ensures DirOk(AfterCommit(d, c, synced), cf, open - {c})
    ensures var d' := AfterCommit(d, c, synced);
            synced ==> d'.tiles[c].n == d'.tiles[c].books.count && d'.dirty == d.dirty
  {
    hide Ancestor, TileOk;
    PublishedOk(d.hist, d.horizon, cf.limit, c, d.tiles[c]);
  }

  // --- marking ---

  /** A z0 change at t marks the ancestor at one level. */
  function MarkOne(d: Dir, a: Tile, t: TimeMs): Dir {
    var ct := if a in d.tiles then d.tiles[a] else NewTile();
    var ct' := if t > ct.descT then ct.(descT := t) else ct;
    var dirty := ct'.books.count == 0 || ct'.descT > GoodAt(ct');
    d.(tiles := d.tiles[a := ct'], dirty := if dirty then d.dirty + {a} else d.dirty)
  }

  lemma NewTileOk(hist: History, top: TimeMs, limit: nat, c: Tile)
    requires top > NEVER
    ensures TileOk(hist, top, limit, c, NewTile())
  {
  }

  lemma ChangeOk(hist: History, top: TimeMs, limit: nat, c: Tile, ct: CTile, t: TimeMs)
    requires TileOk(hist, top, limit, c, ct)
    ensures TileOk(hist, top, limit, c, ct.(descT := t)) && GoodAt(ct.(descT := t)) == GoodAt(ct)
  {
    hide Sound, Average, Version, BooksOf;
  }

  /** Marking one ancestor of z at level k keeps everything, and the marks of the levels below k. */
  lemma MarkOneOk(d: Dir, cf: Config, z: Tile, k: nat, t: TimeMs)
    requires DirOk(d, cf, {}) && z.k == 0 && 1 <= k <= cf.levels
    ensures var d' := MarkOne(d, Ancestor(z, k), t);
            && DirOk(d', cf, {}) && Ancestor(z, k) in d'.tiles && d'.tiles[Ancestor(z, k)].descT >= t
            && (forall c <- d.tiles :: c in d'.tiles && d'.tiles[c].descT >= d.tiles[c].descT)
  {
    hide Ancestor, TileOk;
    var a := Ancestor(z, k);
    NewTileOk(d.hist, d.horizon, cf.limit, a);
    var ct := if a in d.tiles then d.tiles[a] else NewTile();
    if t > ct.descT { ChangeOk(d.hist, d.horizon, cf.limit, a, ct, t); }
  }

  /** Once every ancestor of z is marked, z counts as seen. */
  lemma SeenOk(d: Dir, cf: Config, z: Tile, t: TimeMs)
    requires DirOk(d, cf, {}) && z.k == 0
    requires forall k :: 1 <= k <= cf.levels ==> Ancestor(z, k) in d.tiles && d.tiles[Ancestor(z, k)].descT >= t
    ensures DirOk(d.(z0seen := d.z0seen[z := t]), cf, {})
  {
    hide Ancestor, TileOk;
  }

  // --- the terrain store ---

  /** A z0 version committed for a time after the horizon changes no average up to the horizon. */
  lemma CommitOk(d: Dir, cf: Config, z: Tile, v: Stamp)
    requires DirOk(d, cf, {}) && z.k == 0 && v.t > d.horizon
    requires z in d.hist && d.hist[z] != [] ==> d.hist[z][|d.hist[z]| - 1].t <= v.t
    ensures DirOk(d.(hist := d.hist[z := (if z in d.hist then d.hist[z] else []) + [v]]), cf, {})
  {
    var hist' := d.hist[z := (if z in d.hist then d.hist[z] else []) + [v]];
    hide Average, Ancestor, TileOk, HistoryOk, Marked, ClearOk;
    CommitHistory(d.hist, z, v, d.horizon);
    SameMarks(d, d.(hist := hist'), cf);
    forall c <- d.tiles
      ensures TileOk(hist', d.horizon, cf.limit, c, d.tiles[c])
    {
      TileAfterCommit(d.hist, hist', z, v, d.horizon, cf.limit, c, d.tiles[c]);
    }
  }

  lemma CommitHistory(hist: History, z: Tile, v: Stamp, horizon: TimeMs)
    requires HistoryOk(hist) && z.k == 0 && v.t > horizon > NEVER
    requires z in hist && hist[z] != [] ==> hist[z][|hist[z]| - 1].t <= v.t
    ensures HistoryOk(hist[z := (if z in hist then hist[z] else []) + [v]])
  {
    var h := (if z in hist then hist[z] else []) + [v];
    assert InOrder(h);
  }

  /** Marks and dirty tiles do not look at the history. */
  lemma SameMarks(d: Dir, d': Dir, cf: Config)
    requires d' == d.(hist := d'.hist, horizon := d'.horizon)
    ensures Marked(d, cf.levels) ==> Marked(d', cf.levels)
    ensures ClearOk(d, {}) ==> ClearOk(d', {})
  {
    hide Ancestor, Settled;
  }

  lemma TileAfterCommit(hist: History, hist': History, z: Tile, v: Stamp, top: TimeMs, limit: nat, c: Tile, ct: CTile)
    requires hist' == hist[z := (if z in hist then hist[z] else []) + [v]] && v.t > top
    requires TileOk(hist, top, limit, c, ct) && top > NEVER
    ensures TileOk(hist', top, limit, c, ct)
  {
    hide Average, Sound, Version, BooksOf;
    forall T | T <= top
      ensures Average(hist, c, T) == Average(hist', c, T)
    {
      AverageBefore(hist, hist', z, v, c, T);
    }
    assert GoodAt(ct) <= top by { TileFacts(hist, top, limit, c, ct); }
  }

  lemma NewestBefore(h: seq<Stamp>, v: Stamp, T: TimeMs)
    requires v.t > T
    ensures Newest(h + [v], T) == Newest(h, T)
  {
    assert (h + [v])[..|h|] == h;
  }

  lemma AverageBefore(hist: History, hist': History, z: Tile, v: Stamp, c: Tile, T: TimeMs)
    requires hist' == hist[z := (if z in hist then hist[z] else []) + [v]] && v.t > T
    ensures Average(hist, c, T) == Average(hist', c, T)
  {
    hide Average;
    forall y | Under(y, c)
      ensures Z0At(hist, y, T) == Z0At(hist', y, T)
    {
      if y == z { NewestBefore(if z in hist then hist[z] else [], v, T); }
    }
    AverageSame(hist, hist', c, T, T);
  }

  lemma HorizonOk(d: Dir, cf: Config, horizon: TimeMs)
    requires DirOk(d, cf, {}) && horizon >= d.horizon
    ensures DirOk(d.(horizon := horizon), cf, {})
  {
    hide Average, Ancestor, Sound, Version, BooksOf;
  }

  // --- restart ---

  /** A tile reopened with the first k records of its series: what is in the file is published. */
  function Reopened(ct: CTile, k: nat): CTile
    requires k <= |ct.log|
  {
    var log := ct.log[..k];
    var books := BooksOf(log, k);
    CTile(log, k, k, books.last, NEVER, books, false)
  }

  lemma ReopenedOk(hist: History, top: TimeMs, limit: nat, c: Tile, ct: CTile, k: nat)
    requires TileOk(hist, top, limit, c, ct) && k <= |ct.log|
    ensures TileOk(hist, top, limit, c, Reopened(ct, k)) && Settled(Reopened(ct, k))
  {
    hide Average, Replay, SinceBase, DeltaBytes, BaseBytes;
    var log := ct.log[..k];
    PrefixSound(ct.log, k, limit);
    forall i | 0 <= i < k
      ensures Version(log, i + 1) == Average(hist, c, log[i].t)
    {
      assert Version(ct.log, i + 1) == Average(hist, c, ct.log[i].t);
    }
  }
}
