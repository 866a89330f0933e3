/** What readers of coarse tiles may rely on over a run: published versions stay, and answers below a time
    are final exactly when no record waiting for publication is effective before it. */
module PyramidAnswers {
  import opened Common
  import opened Pixels
  import opened CoarseSeries
  import opened PyramidTiles
  import opened PyramidState
  import opened PyramidPass

  /** Some record is not published yet. */
  predicate Staged(ct: CTile) { ct.n < |ct.log| }

  ghost predicate FinalTile(ct: CTile, t: TimeMs) { forall i :: ct.n <= i < |ct.log| ==> ct.log[i].t >= t }

  /** No unpublished record is effective before t. */
  ghost predicate Final(tiles: map<Tile, CTile>, t: TimeMs) { forall c <- tiles :: FinalTile(tiles[c], t) }

  /** The version a reader is told at t. */
  function AnswerAt(tiles: map<Tile, CTile>, c: Tile, t: TimeMs): nat {
    if c in tiles && tiles[c].n <= |tiles[c].log| then CountAt(tiles[c].log, tiles[c].n, t) else 0
  }

  /** ct' still has ct's published records, and publishes further ones only from t0 on. */
  ghost predicate KeepsTile(ct: CTile, ct': CTile, t0: TimeMs) {
    && ct.n <= |ct.log| && ct.n <= ct'.n <= |ct'.log| && ct.log[..ct.n] == ct'.log[..ct.n]
    && forall i :: ct.n <= i < ct'.n ==> ct'.log[i].t >= t0
  }

  ghost predicate Keeps(tiles: map<Tile, CTile>, tiles': map<Tile, CTile>, t0: TimeMs) {
    && (forall c <- tiles :: c !in tiles' ==> tiles[c].n == 0)
    && (forall c <- tiles' :: KeepsTile(if c in tiles then tiles[c] else NewTile(), tiles'[c], t0))
  }

  lemma {:induction false} CountPrefix(log: Log, log': Log, n: nat, t: TimeMs)
    requires n <= |log| && n <= |log'| && log[..n] == log'[..n]
    ensures CountAt(log, n, t) == CountAt(log', n, t)
    decreases n
  {
    if n > 0 {
      assert log[n - 1] == log[..n][n - 1] == log'[..n][n - 1];
      assert log[..n - 1] == log[..n][..n - 1] == log'[..n][..n - 1] == log'[..n - 1];
      CountPrefix(log, log', n - 1, t);
    }
  }

  lemma {:induction false} CountLater(log: Log, n: nat, n': nat, t: TimeMs)
    requires n <= n' <= |log| && forall i :: n <= i < n' ==> log[i].t > t
    ensures CountAt(log, n', t) == CountAt(log, n, t)
    decreases n'
  {
    if n < n' { CountLater(log, n, n' - 1, t); }
  }

  /** Below t0 every answer stays: the version told, and the content of every version up to it. */
  lemma AnswersKept(tiles: map<Tile, CTile>, tiles': map<Tile, CTile>, t0: TimeMs, c: Tile, t: TimeMs)
    requires Keeps(tiles, tiles', t0) && t < t0
    requires forall x <- tiles :: tiles[x].n <= |tiles[x].log|
    ensures AnswerAt(tiles', c, t) == AnswerAt(tiles, c, t)
    ensures c in tiles && c in tiles' ==>
              forall v :: 0 <= v <= tiles[c].n ==>
                  v <= |tiles'[c].log|
                  && Version(tiles'[c].log, v) == Version(tiles[c].log, v)
  {
    hide Replay;
    if c in tiles' {
      var ct, ct' := if c in tiles then tiles[c] else NewTile(), tiles'[c];
      assert KeepsTile(ct, ct', t0);
      CountLater(ct'.log, ct.n, ct'.n, t);
      CountPrefix(ct.log, ct'.log, ct.n, t);
      forall v | 0 <= v <= ct.n
        ensures Version(ct'.log, v) == Version(ct.log, v)
      {
        assert ct.log == ct.log[..ct.n] + ct.log[ct.n..] && ct'.log == ct.log[..ct.n] + ct'.log[ct.n..];
        ContentPrefix(ct.log[..ct.n], ct.log[ct.n..], v);
        ContentPrefix(ct.log[..ct.n], ct'.log[ct.n..], v);
      }
    }
  }

  lemma KeepsTileTrans(a: CTile, b: CTile, c: CTile, t0: TimeMs)
    requires KeepsTile(a, b, t0) && KeepsTile(b, c, t0)
    ensures KeepsTile(a, c, t0)
  {
    assert c.log[..a.n] == c.log[..b.n][..a.n];
    assert b.log[..a.n] == b.log[..b.n][..a.n];
    forall i | a.n <= i < c.n ensures c.log[i].t >= t0 {
      if i < b.n { assert c.log[i] == c.log[..b.n][i] == b.log[..b.n][i] == b.log[i]; }
    }
  }

  lemma KeepsTrans(a: map<Tile, CTile>, b: map<Tile, CTile>, c: map<Tile, CTile>, t0: TimeMs)
    requires Keeps(a, b, t0) && Keeps(b, c, t0) && (forall x <- b :: x !in c ==> b[x].n == 0)
    ensures Keeps(a, c, t0)
  {
    hide KeepsTile;
    forall x <- c
      ensures KeepsTile(if x in a then a[x] else NewTile(), c[x], t0)
    {
      if x in b {
        KeepsTileTrans(if x in a then a[x] else NewTile(), b[x], c[x], t0);
      } else {
        FreshKeeps(a, b, x, c[x], t0);
      }
    }
    forall x <- a | x !in c ensures a[x].n == 0 {
      if x in b { PublishedGrow(a[x], b[x], t0); }
    }
  }

  lemma PublishedGrow(ct: CTile, ct': CTile, t0: TimeMs)
    requires KeepsTile(ct, ct', t0)
    ensures ct.n <= ct'.n
  {
  }

  /** A tile that was dropped had nothing published, so it starts as a new one. */
  lemma FreshKeeps(a: map<Tile, CTile>, b: map<Tile, CTile>, x: Tile, ct: CTile, t0: TimeMs)
    requires Keeps(a, b, t0) && x !in b && KeepsTile(NewTile(), ct, t0)
    ensures KeepsTile(if x in a then a[x] else NewTile(), ct, t0)
  {
    if x in a { assert a[x].n == 0; }
  }

  lemma KeepsSelf(tiles: map<Tile, CTile>, t0: TimeMs)
    requires forall c <- tiles :: tiles[c].n <= |tiles[c].log|
    ensures Keeps(tiles, tiles, t0)
  {
  }

  lemma LaterKeeps(ct: CTile, ct': CTile, T: TimeMs, t0: TimeMs)
    requires Later(ct, ct', T) && FinalTile(ct, t0) && t0 <= T && ct.n <= |ct.log| && ct'.n <= |ct'.log|
    ensures KeepsTile(ct, ct', t0) && FinalTile(ct', t0)
  {
    assert ct'.log[..ct.n] == ct.log[..ct.n];
  }

  /** Builds at T >= t0 keep what was final below t0, and keep it final. */
  lemma AdvancedKeeps(d: Dir, d': Dir, cf: Config, todo: set<Tile>, t0: TimeMs)
    requires Advanced(d, d', todo) && TilesOk(d, cf) && TilesOk(d', cf) && Final(d.tiles, t0) && t0 <= d.horizon
    ensures Keeps(d.tiles, d'.tiles, t0) && Final(d'.tiles, t0)
  {
    hide TilesOk, Later, KeepsTile, FinalTile;
    forall c <- d.tiles
      ensures KeepsTile(d.tiles[c], d'.tiles[c], t0) && FinalTile(d'.tiles[c], t0)
    {
      LogBounds(d, cf, c);
      LogBounds(d', cf, c);
      assert FinalTile(d.tiles[c], t0);
      LaterSelf(d.tiles[c], d.horizon);
      LaterKeeps(d.tiles[c], d'.tiles[c], d.horizon, t0);
    }
  }

  lemma LaterSelf(ct: CTile, T: TimeMs)
    ensures Later(ct, ct, T)
  {
  }

  lemma LogBounds(d: Dir, cf: Config, c: Tile)
    requires TilesOk(d, cf) && c in d.tiles
    ensures d.tiles[c].n <= d.tiles[c].synced <= |d.tiles[c].log|
            && d.tiles[c].n <= d.tiles[c].books.count <= |d.tiles[c].log|
    ensures !d.tiles[c].suspect ==> d.tiles[c].books.count == |d.tiles[c].log|
    ensures forall i, j :: 0 <= i < j < |d.tiles[c].log| ==> d.tiles[c].log[i].t < d.tiles[c].log[j].t
  {
    hide Average, Version, BooksOf, CoarseSeries.Content;
    assert TileOk(d.hist, d.horizon, cf.limit, c, d.tiles[c]);
  }

  lemma MarksKeep(tiles: map<Tile, CTile>, tiles': map<Tile, CTile>, t0: TimeMs)
    requires Marks(tiles, tiles') && Final(tiles, t0) && forall c <- tiles :: tiles[c].n <= |tiles[c].log|
    ensures Keeps(tiles, tiles', t0) && Final(tiles', t0)
  {
    forall c <- tiles'
      ensures KeepsTile(if c in tiles then tiles[c] else NewTile(), tiles'[c], t0) && FinalTile(tiles'[c], t0)
    {
      if c in tiles { assert FinalTile(tiles[c], t0); }
    }
  }

  /** Reopening with at least the synced records publishes what was staged, and keeps what was published. */
  lemma ReopenedKeeps(ct: CTile, k: nat, t0: TimeMs)
    requires ct.n <= ct.synced <= k <= |ct.log| && FinalTile(ct, t0)
    ensures KeepsTile(ct, Reopened(ct, k), t0) && FinalTile(Reopened(ct, k), t0)
  {
    assert ct.log[..k][..ct.n] == ct.log[..ct.n];
  }

  // --- when a pass makes answers final ---

  /** After a successful pass at T, answers below T are final if and only if every tile left with unpublished
      records was taken up by the pass or holds none from before T. */
  lemma PassFinal(d0: Dir, d: Dir, cf: Config, prev: TimeMs, force: bool, done: set<Tile>)
    requires ConfigOk(cf) && PassInv(d0, d, cf, prev, force, cf.levels + 1, done, true) && TilesOk(d0, cf)
    ensures Final(d.tiles, d.horizon) <==>
            forall c <- d0.tiles :: Staged(d0.tiles[c]) && c !in done ==> d0.tiles[c].log[d0.tiles[c].n].t >= d.horizon
  {
    hide TilesOk, Due, LevelCurrent, Marked, ClearOk, HistoryOk, Covered;
    forall c <- d0.tiles
      ensures FinalTile(d.tiles[c], d.horizon) <==>
                c in done || (Staged(d0.tiles[c]) ==> d0.tiles[c].log[d0.tiles[c].n].t >= d.horizon)
    {
      LogBounds(d, cf, c);
      LogBounds(d0, cf, c);
    }
  }

  /** Which tiles with unpublished records a pass takes up: those of due levels, and off schedule only a tile
      in doubt none of whose records the builder knows of, once its children are clear. */
  lemma StagedTaken(d0: Dir, d: Dir, cf: Config, prev: TimeMs, force: bool, done: set<Tile>, c: Tile)
    requires ConfigOk(cf) && PassInv(d0, d, cf, prev, force, cf.levels + 1, done, true)
    requires DirOk(d0, cf, {}) && c in d0.tiles && Staged(d0.tiles[c])
    ensures c in done <==> Due(cf, c.k, prev, d.horizon, force) || (d0.tiles[c].books.count == 0 && KidsClear(d, c))
    ensures d0.tiles[c].books.count == 0 ==> d0.tiles[c].suspect
  {
    hide TileOk, Due, LevelCurrent, Marked, HistoryOk, Covered, Later, KidsClear;
    LogBounds(d0, cf, c);
  }

  // --- an update as a whole: marks, then a pass ---

  lemma NothingChanges(d: Dir, cf: Config)
    requires DirOk(d, cf, {})
    ensures forall t0 :: Final(d.tiles, t0) ==> Keeps(d.tiles, d.tiles, t0)
  {
    hide Final, Marked, HistoryOk, ClearOk, TilesOk;
    forall c <- d.tiles ensures d.tiles[c].n <= |d.tiles[c].log| { LogBounds(d, cf, c); }
    forall t0 | Final(d.tiles, t0) ensures Keeps(d.tiles, d.tiles, t0) { KeepsSelf(d.tiles, t0); }
  }

  /** What an update promises, seen from the state before its marks. */
  ghost predicate UpdateFinal(old_: map<Tile, CTile>, d: Dir, cf: Config, prev: TimeMs, force: bool, done: set<Tile>)
    requires ConfigOk(cf) && forall c <- old_ :: c.k >= 1
  {
    && (Final(d.tiles, d.horizon) <==> forall c <- old_ :: Staged(old_[c]) && c !in done ==>
        old_[c].log[old_[c].n].t >= d.horizon)
    && (forall c <- old_ :: Staged(old_[c]) ==>
          (c in done <==> Due(cf, c.k, prev, d.horizon, force) || (old_[c].books.count == 0 && KidsClear(d, c))))
  }

  lemma UpdateKeeps(a: Dir, d0: Dir, d: Dir, cf: Config, prev: TimeMs, force: bool, done: set<Tile>, ok: bool)
    requires ConfigOk(cf) && DirOk(a, cf, {}) && DirOk(d0, cf, {}) && Marks(a.tiles, d0.tiles)
             && a.horizon == d0.horizon == d.horizon
    requires PassInv(d0, d, cf, prev, force, cf.levels + 1, done, ok)
    ensures forall t0 :: t0 <= d.horizon && Final(a.tiles, t0) ==> Keeps(a.tiles, d.tiles, t0) && Final(d.tiles, t0)
    ensures forall c <- a.tiles :: c.k >= 1
    ensures ok ==> UpdateFinal(a.tiles, d, cf, prev, force, done)
  {
    hide TilesOk, Marked, HistoryOk, ClearOk, Due, LevelCurrent, Covered, Advanced, Keeps, Final, Staged, Scheduled,
      UpTo, FinalTile;
    DirtyLevels(a, cf);
    forall c <- a.tiles ensures a.tiles[c].n <= |a.tiles[c].log| { LogBounds(a, cf, c); }
    forall t0 | t0 <= d.horizon && Final(a.tiles, t0)
      ensures Keeps(a.tiles, d.tiles, t0) && Final(d.tiles, t0)
    {
      MarksKeep(a.tiles, d0.tiles, t0);
      AdvancedKeeps(d0, d, cf, done, t0);
      KeepsTrans(a.tiles, d0.tiles, d.tiles, t0);
    }
    if ok {
      PassFinal(d0, d, cf, prev, force, done);
      MarkedFinal(a, d0, d, cf, prev, force, done);
    }
  }

  /** Marking changes no series, so the condition reads the same before it. */
  lemma MarkedFinal(a: Dir, d0: Dir, d: Dir, cf: Config, prev: TimeMs, force: bool, done: set<Tile>)
    requires ConfigOk(cf) && DirOk(d0, cf, {}) && Marks(a.tiles, d0.tiles) && (forall c <- a.tiles :: c.k >= 1)
    requires PassInv(d0, d, cf, prev, force, cf.levels + 1, done, true)
    requires Final(d.tiles, d.horizon) <==>
             forall c <- d0.tiles :: Staged(d0.tiles[c]) && c !in done ==> d0.tiles[c].log[d0.tiles[c].n].t >= d.horizon
    ensures UpdateFinal(a.tiles, d, cf, prev, force, done)
  {
    hide DirOk, PassInv, Final, Due, KidsClear;
    forall c <- a.tiles | Staged(a.tiles[c])
      ensures c in done <==> Due(cf, c.k, prev, d.horizon, force) || (a.tiles[c].books.count == 0 && KidsClear(d, c))
    {
      SameStaged(a.tiles, d0.tiles, c);
      StagedTaken(d0, d, cf, prev, force, done, c);
    }
    forall c <- a.tiles ensures a.tiles[c].log == d0.tiles[c].log && a.tiles[c].n == d0.tiles[c].n {
      SameStaged(a.tiles, d0.tiles, c);
    }
  }

  lemma SameStaged(a: map<Tile, CTile>, b: map<Tile, CTile>, c: Tile)
    requires Marks(a, b) && c in a
    ensures c in b && a[c].log == b[c].log && a[c].n == b[c].n && a[c].suspect == b[c].suspect
            && a[c].books == b[c].books
  {
    assert b[c].(descT := a[c].descT) == a[c];
  }

  // --- restart ---

  function AllReopened(tiles: map<Tile, CTile>, kept: Tile -> nat): map<Tile, CTile>
    requires forall c <- tiles :: kept(c) <= |tiles[c].log|
  {
    map c | c in tiles && kept(c) > 0 :: Reopened(tiles[c], kept(c))
  }

  lemma LogBoundsOf(d: Dir, cf: Config, c: Tile)
    requires DirOk(d, cf, {}) && c in d.tiles
    ensures d.tiles[c].n <= |d.tiles[c].log| && forall i, j :: 0 <= i < j < |d.tiles[c].log| ==>
              d.tiles[c].log[i].t < d.tiles[c].log[j].t
  {
    hide TilesOk, Marked, HistoryOk, ClearOk;
    LogBounds(d, cf, c);
  }

  lemma RestartOk(d: Dir, cf: Config, kept: Tile -> nat)
    requires DirOk(d, cf, {}) && forall c <- d.tiles :: d.tiles[c].synced <= kept(c) <= |d.tiles[c].log|
    ensures var tiles' := AllReopened(d.tiles, kept);
            && d.horizon > NEVER && DirOk(Dir(d.hist, d.horizon, tiles', {}, map[]), cf, {})
            && (forall t0 :: Final(d.tiles, t0) ==> Keeps(d.tiles, tiles', t0) && Final(tiles', t0))
            && (forall c <- tiles' ::
                0 < tiles'[c].n == |tiles'[c].log|
                && NEVER < tiles'[c].log[tiles'[c].n - 1].t <= d.horizon)
  {
    hide TileOk, Marked, HistoryOk, KeepsTile, FinalTile, Reopened, Settled;
    var tiles' := AllReopened(d.tiles, kept);
    forall c <- tiles'
      ensures 1 <= c.k <= cf.levels && TileOk(d.hist, d.horizon, cf.limit, c, tiles'[c]) && Settled(tiles'[c])
      ensures 0 < tiles'[c].n == |tiles'[c].log| == tiles'[c].books.count
              && NEVER < tiles'[c].log[tiles'[c].n - 1].t <= d.horizon
    {
      ReopenedOk(d.hist, d.horizon, cf.limit, c, d.tiles[c], kept(c));
      ReopenedFacts(d.hist, d.horizon, cf.limit, c, d.tiles[c], kept(c));
    }
    assert Marked(Dir(d.hist, d.horizon, tiles', {}, map[]), cf.levels) by {
      NothingSeen(Dir(d.hist, d.horizon, tiles', {}, map[]), cf.levels);
    }
    forall t0 | Final(d.tiles, t0)
      ensures Keeps(d.tiles, tiles', t0) && Final(tiles', t0)
    {
      RestartKeeps(d, cf, kept, t0);
    }
  }

  lemma NothingSeen(d: Dir, levels: nat)
    requires d.z0seen == map[]
    ensures Marked(d, levels)
  {
  }

  lemma ReopenedFacts(hist: History, top: TimeMs, limit: nat, c: Tile, ct: CTile, k: nat)
    requires TileOk(hist, top, limit, c, ct) && 0 < k <= |ct.log|
    ensures var r := Reopened(ct, k);
            0 < r.n == |r.log| == r.books.count && NEVER < r.log[r.n - 1].t <= top
  {
    hide Average, Sound, Version;
  }

  lemma RestartKeeps(d: Dir, cf: Config, kept: Tile -> nat, t0: TimeMs)
    requires TilesOk(d, cf) && Final(d.tiles, t0) && forall c <- d.tiles ::
               d.tiles[c].synced <= kept(c) <= |d.tiles[c].log|
    ensures Keeps(d.tiles, AllReopened(d.tiles, kept), t0) && Final(AllReopened(d.tiles, kept), t0)
  {
    hide TilesOk, KeepsTile, FinalTile, Reopened;
    forall c <- d.tiles
      ensures d.tiles[c].n <= kept(c) && KeepsTile(d.tiles[c], Reopened(d.tiles[c], kept(c)), t0)
              && FinalTile(Reopened(d.tiles[c], kept(c)), t0)
    {
      LogBounds(d, cf, c);
      assert FinalTile(d.tiles[c], t0);
      ReopenedKeeps(d.tiles[c], kept(c), t0);
    }
  }

  lemma RestartFinal(tiles: map<Tile, CTile>, t: TimeMs)
    requires forall c <- tiles :: tiles[c].n == |tiles[c].log|
    ensures Final(tiles, t)
  {
  }
}
