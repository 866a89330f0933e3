/** Build passes of a pyramid: which levels are due, what a pass keeps and what it brings up to date. */
module PyramidPass {
  import opened Common
  import opened Pixels
  import opened Downsample
  import opened CoarseSeries
  import opened PyramidTiles
  import opened PyramidState

  // --- the schedule ---

  /** The version spacing of level k; the last one repeats. */
  function Interval(cf: Config, k: nat): (iv: TimeMs)
    requires ConfigOk(cf) && k >= 1
    ensures iv > 0
  {
    if k - 1 < |cf.intervals| then cf.intervals[k - 1] else cf.intervals[|cf.intervals| - 1]
  }

  /** A multiple of level k's interval lies in (prev, T]. */
  predicate Due(cf: Config, k: nat, prev: TimeMs, T: TimeMs, force: bool)
    requires ConfigOk(cf) && k >= 1
  {
    force || T / Interval(cf, k) > prev / Interval(cf, k)
  }

  lemma ProductMonotone(a: int, b: int, d: int)
    requires d > 0 && a <= b
    ensures a * d <= b * d
  {
  }

  lemma FloorIs(x: int, d: int, q: int)
    requires d > 0
    ensures q <= x / d <==> q * d <= x
  {
    var f := x / d;
    assert x == f * d + x % d;
    if q <= f {
      ProductMonotone(q, f, d);
    } else {
      ProductMonotone(f + 1, q, d);
      assert (f + 1) * d == f * d + d;
    }
  }

  lemma MultipleCrossed(iv: int, m: int, prev: int, T: int)
    requires iv > 0 && m > 0 && m * iv > 0 && T / (m * iv) > prev / (m * iv)
    ensures T / iv > prev / iv
  {
    var q := T / (m * iv);
    FloorIs(T, m * iv, q);
    FloorIs(prev, m * iv, q);
    assert q * (m * iv) == (q * m) * iv;
    FloorIs(T, iv, q * m);
    FloorIs(prev, iv, q * m);
  }

  lemma QuotientPositive(a: int, b: int)
    requires a > 0 && b > 0 && a % b == 0
    ensures a / b > 0 && a == a / b * b
  {
  }

  /** When a level is due so is every finer one: its interval divides. */
  lemma DueDown(cf: Config, k: nat, prev: TimeMs, T: TimeMs, force: bool)
    requires ConfigOk(cf) && k >= 1 && Due(cf, k + 1, prev, T, force)
    ensures Due(cf, k, prev, T, force)
  {
    var iv := Interval(cf, k);
    if !force && k < |cf.intervals| {
      var m := cf.intervals[k] / iv;
      QuotientPositive(cf.intervals[k], iv);
      MultipleCrossed(iv, m, prev, T);
    }
  }

  // --- what a pass does to a tile ---

  /** ct' is ct some builds at T later: nothing appended or published is lost, and what is new is effective at T. */
  ghost predicate Later(ct: CTile, ct': CTile, T: TimeMs) {
    && ct.n <= ct'.n && ct.synced <= ct'.synced && ct.descT == ct'.descT && ct.log <= ct'.log
    && forall i :: |ct.log| <= i < |ct'.log| ==> ct'.log[i].t == T
  }

  /** The tile is published up to a version that is right at T. */
  predicate UpTo(ct: CTile, T: TimeMs) {
    !ct.suspect && 0 < ct.n == ct.books.count && GoodAt(ct) == T
  }

  lemma DoneIsCurrent(d: Dir, cf: Config, c: Tile)
    requires TilesOk(d, cf) && c in d.tiles && UpTo(d.tiles[c], d.horizon)
    ensures Current(d.hist, d.horizon, d.tiles, c)
  {
    hide Average, Sound, Version;
  }

  lemma KidsFrame(d: Dir, d': Dir, c: Tile)
    requires KidsCurrent(d, c) && d'.hist == d.hist && d'.horizon == d.horizon && d'.tiles.Keys == d.tiles.Keys
    requires forall x <- d.tiles :: x.k != c.k ==> d'.tiles[x] == d.tiles[x]
    ensures KidsCurrent(d', c)
  {
    hide Average, Version;
    if c.k > 1 {
      forall i | 0 <= i < 4 ensures Current(d'.hist, d'.horizon, d'.tiles, Child(c, i)) {
        assert Current(d.hist, d.horizon, d.tiles, Child(c, i));
      }
    }
  }

  /** A pass that started at d0 is at d before level k, having taken `done`; when nothing failed, every due
      finer level is current. */
  ghost predicate PassInv(d0: Dir, d: Dir, cf: Config, prev: TimeMs, force: bool, k: nat, done: set<Tile>, ok: bool)
    requires ConfigOk(cf)
  {
    && DirOk(d, cf, {}) && Covered(d) && Advanced(d0, d, done)
    && d0.dirty <= d0.tiles.Keys && d.tiles.Keys == d0.tiles.Keys && (forall c <- d0.tiles :: 1 <= c.k <= cf.levels)
    && done <= Scheduled(d0, cf, prev, force) && (forall c <- done :: c in d.tiles)
    && (ok ==>
         && (forall c <- done :: c.k < k && UpTo(d.tiles[c], d.horizon))
         && (forall c <- d0.dirty :: c.k < k && Due(cf, c.k, prev, d.horizon, force) ==> c in done)
         && (forall j :: 1 <= j < k && j <= cf.levels && Due(cf, j, prev, d.horizon, force) ==> LevelCurrent(d, j))
         && TakenOff(d0, d, cf, prev, force, k, done))
  }

  /** Every coarse child of c is unknown, or clean with everything published. */
  predicate KidsClear(d: Dir, c: Tile) { c.k >= 1 && (c.k == 1 || forall i :: 0 <= i < 4 ==> ChildClear(d, c, i)) }

  /** Which tiles of finer levels than k were taken off schedule: those without a version whose children are
      clear once their level is done. */
  ghost predicate TakenOff(d0: Dir, d: Dir, cf: Config, prev: TimeMs, force: bool, k: nat, done: set<Tile>)
    requires ConfigOk(cf)
  {
    forall c <- d0.dirty :: c in d0.tiles && 1 <= c.k < k && !Due(cf, c.k, prev, d.horizon, force) ==>
      (c in done <==> d0.tiles[c].books.count == 0 && KidsClear(d, c))
  }

  /** Level k, not due, keeps that: what it builds leaves the finer levels alone. */
  lemma TakenOn(d0: Dir, d1: Dir, d: Dir, cf: Config, prev: TimeMs, force: bool, k: nat, done: set<Tile>,
                todo: set<Tile>)
    requires ConfigOk(cf) && k >= 1 && d0.dirty <= d0.tiles.Keys && (forall c <- d0.tiles :: c.k >= 1)
    requires TakenOff(d0, d1, cf, prev, force, k, done) && Advanced(d1, d, todo) && d1.horizon == d0.horizon
    requires (forall c <- todo :: c.k == k) && (forall c <- done :: c.k < k)
    requires !Due(cf, k, prev, d.horizon, force) ==>
               forall c <- d0.dirty :: c.k == k ==> (c in todo <==>
                   c in Scheduled(d0, cf, prev, force) && KidsClear(d1, c))
    ensures TakenOff(d0, d, cf, prev, force, k + 1, done + todo)
  {
    hide Due, Later;
    forall c: Tile | 1 <= c.k <= k
      ensures KidsClear(d, c) <==> KidsClear(d1, c)
    {
      if c.k > 1 {
        forall i | 0 <= i < 4 ensures ChildClear(d, c, i) <==> ChildClear(d1, c, i) { assert Child(c, i).k < k; }
      }
    }
  }

  lemma PassStart(d: Dir, cf: Config, prev: TimeMs, force: bool)
    requires ConfigOk(cf) && DirOk(d, cf, {}) && Covered(d)
    ensures PassInv(d, d, cf, prev, force, 1, {}, true)
    ensures d.dirty <= d.tiles.Keys && forall c <- d.tiles :: 1 <= c.k <= cf.levels
  {
    hide DirOk, Covered, Due, LevelCurrent;
    DirtyLevels(d, cf);
  }

  lemma PassStops(d0: Dir, d: Dir, cf: Config, prev: TimeMs, force: bool, k: nat, done: set<Tile>, ok: bool)
    requires ConfigOk(cf) && PassInv(d0, d, cf, prev, force, k, done, ok) && (ok ==> k == cf.levels + 1)
    ensures PassInv(d0, d, cf, prev, force, cf.levels + 1, done, ok) && DirOk(d, cf, {}) && d.horizon == d0.horizon
  {
    hide DirOk, Covered, Due, LevelCurrent, UpTo, TakenOff, Later;
  }

  lemma NothingTaken(d0: Dir, d: Dir, cf: Config, prev: TimeMs, force: bool, done: set<Tile>, ok: bool)
    requires ConfigOk(cf) && PassInv(d0, d, cf, prev, force, cf.levels + 1, done, ok)
    ensures Scheduled(d0, cf, prev, force) == {} ==> d == d0 && done == {}
  {
    hide DirOk, Covered, Later, LevelCurrent, Due, UpTo;
  }

  lemma NothingDirty(d: Dir, cf: Config, prev: TimeMs, force: bool)
    requires ConfigOk(cf) && DirOk(d, cf, {}) && Covered(d) && d.dirty == {}
    ensures PassInv(d, d, cf, prev, force, cf.levels + 1, {}, true)
  {
    hide TileOk, Marked, HistoryOk, Due, Current;
    AdvancedSelf(d, {});
    forall j | 1 <= j <= cf.levels
      ensures LevelCurrent(d, j)
    {
      forall c: Tile | c.k == j ensures Current(d.hist, d.horizon, d.tiles, c) { ClearCurrent(d, cf, c); }
    }
  }

  /** A child that is unknown, or clean with everything published. */
  predicate ChildClear(d: Dir, c: Tile, i: nat)
    requires c.k > 0 && i < 4
  {
    var child := Child(c, i);
    child in d.tiles ==> child !in d.dirty && d.tiles[child].books.count == d.tiles[child].n
  }

  lemma ClearChild(d: Dir, cf: Config, c: Tile, i: nat)
    requires DirOk(d, cf, {}) && Covered(d) && 1 < c.k <= cf.levels && i < 4 && ChildClear(d, c, i)
    ensures Current(d.hist, d.horizon, d.tiles, Child(c, i))
  {
    hide Current, TilesOk, Marked, ClearOk, HistoryOk, Covered;
    ClearCurrent(d, cf, Child(c, i));
  }

  /** The dirty tiles a pass takes up: those of due levels and those without a version. */
  function Scheduled(d: Dir, cf: Config, prev: TimeMs, force: bool): set<Tile>
    requires ConfigOk(cf) && d.dirty <= d.tiles.Keys && forall c <- d.tiles :: c.k >= 1
  {
    set c | c in d.dirty && (Due(cf, c.k, prev, d.horizon, force) || d.tiles[c].books.count == 0)
  }

  /** No dirty tile is taken up by a pass. */
  ghost predicate NothingDue(d: Dir, cf: Config, prev: TimeMs, force: bool)
    requires ConfigOk(cf)
  {
    forall c <- d.dirty :: c in d.tiles && c.k >= 1 ==>
        !Due(cf, c.k, prev, d.horizon, force) && d.tiles[c].books.count > 0
  }

  lemma NothingScheduled(d: Dir, cf: Config, prev: TimeMs, force: bool)
    requires ConfigOk(cf) && d.dirty <= d.tiles.Keys && forall c <- d.tiles :: c.k >= 1
    ensures NothingDue(d, cf, prev, force) <==> Scheduled(d, cf, prev, force) == {}
  {
    if Scheduled(d, cf, prev, force) == {} {
      forall c <- d.dirty ensures !Due(cf, c.k, prev, d.horizon, force) && d.tiles[c].books.count > 0 {
        assert c !in Scheduled(d, cf, prev, force);
      }
    }
  }

  /** Every tile of level j is current. */
  ghost predicate LevelCurrent(d: Dir, j: nat) {
    forall c: Tile :: c.k == j ==> Current(d.hist, d.horizon, d.tiles, c)
  }

  lemma DirtyLevels(d: Dir, cf: Config)
    requires DirOk(d, cf, {})
    ensures d.dirty <= d.tiles.Keys && forall c <- d.tiles :: 1 <= c.k <= cf.levels
  {
    hide TileOk;
  }

  /** At a due level the children were just brought up to date: their level is due too. */
  lemma DueKids(d: Dir, cf: Config, k: nat, prev: TimeMs, force: bool, todo: set<Tile>)
    requires ConfigOk(cf) && 1 <= k <= cf.levels && Due(cf, k, prev, d.horizon, force) && forall c <- todo :: c.k == k
    requires forall j :: 1 <= j < k && j <= cf.levels && Due(cf, j, prev, d.horizon, force) ==> LevelCurrent(d, j)
    ensures forall c <- todo :: KidsCurrent(d, c)
  {
    hide Due, Current;
    if k > 1 {
      DueDown(cf, k - 1, prev, d.horizon, force);
      assert LevelCurrent(d, k - 1);
    }
  }

  lemma StillDirty(d: Dir, d': Dir, done: set<Tile>, todo: set<Tile>)
    requires Advanced(d, d', done) && todo <= d.dirty && todo !! done
    ensures todo <= d'.dirty
  {
  }

  lemma AdvancedFacts(d: Dir, d': Dir, todo: set<Tile>)
    requires Advanced(d, d', todo)
    ensures (Covered(d) ==> Covered(d')) && d'.tiles.Keys == d.tiles.Keys && d'.horizon == d.horizon
    ensures forall c <- d.tiles :: c !in todo ==> d'.tiles[c] == d.tiles[c]
  {
  }

  lemma AdvancedOn(d: Dir, d1: Dir, d2: Dir, done: set<Tile>, todo: set<Tile>)
    requires Advanced(d, d1, done) && Advanced(d1, d2, todo) && done !! todo
    ensures Advanced(d, d2, done + todo)
  {
    hide Later;
  }

  /** Building level k leaves the finer levels as they are. */
  lemma LevelsKept(d: Dir, d': Dir, cf: Config, k: nat, prev: TimeMs, force: bool, todo: set<Tile>)
    requires ConfigOk(cf) && Advanced(d, d', todo) && forall c <- todo :: c.k == k
    requires forall j :: 1 <= j < k && j <= cf.levels && Due(cf, j, prev, d.horizon, force) ==> LevelCurrent(d, j)
    ensures forall j :: 1 <= j < k && j <= cf.levels && Due(cf, j, prev, d.horizon, force) ==> LevelCurrent(d', j)
  {
    hide Due, Average, Version;
    forall j | 1 <= j < k && j <= cf.levels && Due(cf, j, prev, d.horizon, force)
      ensures LevelCurrent(d', j)
    {
      assert LevelCurrent(d, j);
      forall c: Tile | c.k == j ensures Current(d'.hist, d'.horizon, d'.tiles, c) {
        assert Current(d.hist, d.horizon, d.tiles, c);
      }
    }
  }

  /** A due level is current once its dirty tiles are built and published. */
  lemma LevelDone(d: Dir, d': Dir, cf: Config, k: nat, todo: set<Tile>, done: set<Tile>)
    requires DirOk(d', cf, {}) && Covered(d') && 1 <= k <= cf.levels && Advanced(d, d', done)
    requires forall c <- d.dirty :: c.k == k ==> c in todo
    requires forall c <- todo :: c in d'.tiles && UpTo(d'.tiles[c], d'.horizon)
    ensures LevelCurrent(d', k)
  {
    hide Current, TileOk, Marked, ClearOk, HistoryOk, Covered, UpTo;
    forall c: Tile | c.k == k
      ensures Current(d'.hist, d'.horizon, d'.tiles, c)
    {
      if c in todo {
        DoneIsCurrent(d', cf, c);
      } else {
        ClearCurrent(d', cf, c);
      }
    }
  }

  /** A pass at d1 before level k, then that level's builds. */
  lemma LevelAdds(d0: Dir, d1: Dir, d: Dir, cf: Config, prev: TimeMs, force: bool, k: nat, done: set<Tile>,
                  todo: set<Tile>, ok: bool)
    requires ConfigOk(cf) && 1 <= k <= cf.levels && PassInv(d0, d1, cf, prev, force, k, done, true)
    requires DirOk(d, cf, {}) && Advanced(d1, d, todo) && todo <= Scheduled(d0, cf, prev, force) && forall c <- todo ::
               c.k == k
    requires ok ==> forall c <- todo :: c in d.tiles ==> UpTo(d.tiles[c], d.horizon)
    requires Due(cf, k, prev, d.horizon, force) ==> forall c <- d0.dirty :: c.k == k ==> c in todo
    requires !Due(cf, k, prev, d.horizon, force) ==>
               forall c <- d0.dirty :: c.k == k ==> (c in todo <==>
                   c in Scheduled(d0, cf, prev, force) && KidsClear(d1, c))
    ensures PassInv(d0, d, cf, prev, force, k + 1, done + todo, ok)
  {
    hide DirOk, Covered, Due, LevelCurrent, Advanced, ConfigOk, UpTo, KidsClear, TakenOff;
    AdvancedFacts(d0, d1, done);
    AdvancedFacts(d1, d, todo);
    AdvancedOn(d0, d1, d, done, todo);
    if ok {
      LevelsKept(d1, d, cf, k, prev, force, todo);
      TakenOn(d0, d1, d, cf, prev, force, k, done, todo);
      if Due(cf, k, prev, d.horizon, force) {
        LevelDone(d0, d, cf, k, todo, done + todo);
      }
    }
  }

  /** From d to d' the scheduled tiles only moved on, and nothing else changed. */
  ghost predicate Advanced(d: Dir, d': Dir, todo: set<Tile>) {
    && d'.hist == d.hist && d'.horizon == d.horizon && d'.z0seen == d.z0seen && d'.tiles.Keys == d.tiles.Keys
    && (forall x <- d.tiles :: if x in todo then Later(d.tiles[x], d'.tiles[x], d.horizon)
        else d'.tiles[x] == d.tiles[x])
    && d.dirty - todo <= d'.dirty <= d.dirty
  }

  lemma AdvancedSelf(d: Dir, todo: set<Tile>)
    ensures Advanced(d, d, todo)
  {
  }

  /** Built at T: published as far as it goes unless the level's commit still has to. */
  predicate Ready(ct: CTile, T: TimeMs, entry: bool) {
    !ct.suspect && ct.books.count > 0 && GoodAt(ct) == T && (entry || ct.books.count == ct.n)
  }

  lemma DirtyKnown(d: Dir, cf: Config)
    requires DirOk(d, cf, {})
    ensures d.dirty <= d.tiles.Keys
  {
  }

  lemma CountBounds(d: Dir, cf: Config, open: set<Tile>, c: Tile)
    requires DirOk(d, cf, open) && c in d.tiles
    ensures d.tiles[c].n <= d.tiles[c].books.count <= |d.tiles[c].log| && d.tiles[c].synced <= |d.tiles[c].log|
  {
    hide Average, Sound, Version, BooksOf;
  }

  lemma PublishedLater(ct: CTile, built: CTile, T: TimeMs)
    requires Later(ct, built, T) && built.n <= built.books.count && built.synced <= |built.log|
    ensures Later(ct, Published(built), T)
  {
  }

  /** z's ancestors below level k carry the change at t. */
  ghost predicate MarkedBelow(tiles: map<Tile, CTile>, z: Tile, k: nat, t: TimeMs) {
    z.k == 0 && forall j :: 1 <= j < k ==> Ancestor(z, j) in tiles && tiles[Ancestor(z, j)].descT >= t
  }

  lemma NoneMarked(tiles: map<Tile, CTile>, z: Tile, t: TimeMs)
    requires z.k == 0
    ensures MarkedBelow(tiles, z, 1, t)
  {
  }

  lemma MarksSelf(tiles: map<Tile, CTile>)
    ensures Marks(tiles, tiles)
  {
  }

  lemma MarksOne(tiles: map<Tile, CTile>, d: Dir, a: Tile, t: TimeMs)
    requires Marks(tiles, d.tiles)
    ensures Marks(tiles, MarkOne(d, a, t).tiles)
  {
  }

  lemma MarkStep(d: Dir, cf: Config, z: Tile, k: nat, t: TimeMs, tiles: map<Tile, CTile>)
    requires DirOk(d, cf, {}) && 1 <= k <= cf.levels && MarkedBelow(d.tiles, z, k, t) && Marks(tiles, d.tiles)
    ensures var d' := MarkOne(d, Ancestor(z, k), t);
            && DirOk(d', cf, {}) && MarkedBelow(d'.tiles, z, k + 1, t) && Marks(tiles, d'.tiles) && d.dirty <= d'.dirty
            && d'.z0seen == d.z0seen && d'.hist == d.hist && d'.horizon == d.horizon
            && MarkOne(d.(z0seen := d.z0seen[z := t]), Ancestor(z, k), t) == d'.(z0seen := d.z0seen[z := t])
  {
    hide DirOk, Marks;
    MarkOneOk(d, cf, z, k, t);
    MarksOne(tiles, d, Ancestor(z, k), t);
  }

  lemma AllMarked(d: Dir, cf: Config, z: Tile, t: TimeMs)
    requires DirOk(d, cf, {}) && MarkedBelow(d.tiles, z, cf.levels + 1, t)
    ensures DirOk(d.(z0seen := d.z0seen[z := t]), cf, {})
  {
    hide DirOk, Ancestor;
    SeenOk(d, cf, z, t);
  }

  lemma KidsRead(d: Dir, c: Tile, kids: seq<Option<Image>>)
    requires c.k >= 1 && |kids| == 4 && forall i :: 0 <= i < 4 ==> kids[i] == Kid(d, c, i, d.horizon)
    ensures kids == Kids(d, c, d.horizon)
  {
    hide Kid;
  }

  /** Marking adds tiles and raises change times; it touches no series. */
  ghost predicate Marks(tiles: map<Tile, CTile>, tiles': map<Tile, CTile>) {
    && (forall c <- tiles ::
        c in tiles' && tiles'[c].descT >= tiles[c].descT
        && tiles'[c].(descT := tiles[c].descT) == tiles[c])
    && (forall c <- tiles' :: c !in tiles ==> tiles'[c].log == [] && tiles'[c].n == 0 && !tiles'[c].suspect)
  }

  /** New tiles and newer changes come from z at t. */
  ghost predicate MarksFrom(tiles: map<Tile, CTile>, tiles': map<Tile, CTile>, z: Tile, t: TimeMs) {
    forall c <- tiles' :: (c in tiles || Under(z, c))
      && tiles'[c].descT <= Max(if c in tiles then tiles[c].descT else NEVER, t)
  }

  /** Marked dirty are only tiles over z without a version, or with content newer than what they were built for. */
  ghost predicate DirtyFrom(dirty: set<Tile>, dirty': set<Tile>, tiles': map<Tile, CTile>, z: Tile) {
    forall c <- dirty' :: c in dirty
      || (Under(z, c) && c in tiles'
          && (tiles'[c].books.count == 0 || tiles'[c].descT > Max(tiles'[c].books.last, tiles'[c].cleanT)))
  }

  lemma NoneDirty(dirty: set<Tile>, tiles: map<Tile, CTile>, z: Tile)
    ensures DirtyFrom(dirty, dirty, tiles, z)
  {
  }

  lemma DirtyFromOne(dirty: set<Tile>, d: Dir, z: Tile, k: nat, t: TimeMs)
    requires DirtyFrom(dirty, d.dirty, d.tiles, z) && z.k == 0 && k >= 1
    ensures var d' := MarkOne(d, Ancestor(z, k), t); DirtyFrom(dirty, d'.dirty, d'.tiles, z)
  {
    hide Ancestor;
    assert Under(z, Ancestor(z, k));
  }

  /** New tiles have versions under them, and newer changes are not after T. */
  ghost predicate MarksUpTo(tiles: map<Tile, CTile>, tiles': map<Tile, CTile>, hist: History, T: TimeMs) {
    forall c <- tiles' :: (c in tiles || exists z <- hist :: hist[z] != [] && Under(z, c))
      && tiles'[c].descT <= Max(if c in tiles then tiles[c].descT else NEVER, T)
  }

  lemma MarksKnown(tiles: map<Tile, CTile>, tiles': map<Tile, CTile>)
    requires Marks(tiles, tiles')
    ensures forall c <- tiles :: c in tiles'
  {
  }

  lemma MarksFromSelf(tiles: map<Tile, CTile>, z: Tile, t: TimeMs)
    ensures MarksFrom(tiles, tiles, z, t)
  {
  }

  lemma MarksFromOne(tiles: map<Tile, CTile>, d: Dir, z: Tile, k: nat, t: TimeMs)
    requires MarksFrom(tiles, d.tiles, z, t) && z.k == 0 && k >= 1 && forall c <- tiles :: c in d.tiles
    ensures MarksFrom(tiles, MarkOne(d, Ancestor(z, k), t).tiles, z, t)
  {
    hide Ancestor;
    var a := Ancestor(z, k);
    assert Under(z, a);
    forall c <- MarkOne(d, a, t).tiles
      ensures c in tiles || Under(z, c)
      ensures MarkOne(d, a, t).tiles[c].descT <= Max(if c in tiles then tiles[c].descT else NEVER, t)
    {
      if c in d.tiles { assert d.tiles[c].descT <= Max(if c in tiles then tiles[c].descT else NEVER, t); }
    }
  }

  lemma MarksUpToSelf(tiles: map<Tile, CTile>, hist: History, T: TimeMs)
    ensures MarksUpTo(tiles, tiles, hist, T)
  {
  }

  lemma MarksUpToOn(a: map<Tile, CTile>, b: map<Tile, CTile>, c: map<Tile, CTile>, hist: History, z: Tile, T: TimeMs)
    requires MarksUpTo(a, b, hist, T) && z in hist && hist[z] != [] && MarksFrom(b, c, z, hist[z][|hist[z]| - 1].t)
    requires hist[z][|hist[z]| - 1].t <= T && forall x <- a :: x in b
    ensures MarksUpTo(a, c, hist, T)
  {
    hide Under;
    forall x <- c
      ensures (x in a || exists y <- hist :: hist[y] != [] && Under(y, x))
              && c[x].descT <= Max(if x in a then a[x].descT else NEVER, T)
    {
      if x in b {
        assert x in a || exists y <- hist :: hist[y] != [] && Under(y, x);
      } else {
        assert Under(z, x);
      }
    }
  }

  lemma MarksTrans(a: map<Tile, CTile>, b: map<Tile, CTile>, c: map<Tile, CTile>)
    requires Marks(a, b) && Marks(b, c)
    ensures Marks(a, c)
  {
    forall x <- a ensures c[x].(descT := a[x].descT) == a[x] {
      assert c[x].(descT := b[x].descT) == b[x];
    }
  }

  lemma Z0Level(d: Dir, cf: Config, z: Tile)
    requires DirOk(d, cf, {}) && z in d.hist
    ensures z.k == 0
  {
  }

  /** The build time a pass at T starts from; a first pass, or one without progress, is due only at an exact
      multiple. */
  function Before(builtT: TimeMs, T: TimeMs): TimeMs {
    if builtT == NEVER || builtT >= T then T - 1 else builtT
  }

  /** Nothing goes wrong in any build, and every sync succeeds. */
  ghost predicate AllWell(fates: Tile -> Fate, syncs: Tile -> bool) { forall c :: Well(fates(c)) && syncs(c) }

  /** Everything taken was built as it should. */
  ghost predicate TookAll(d0: Dir, d: Dir, done: set<Tile>) {
    forall c <- done :: c in d0.tiles && c in d.tiles
      && Took(d0.hist, d0.horizon, c, d0.tiles[c], d.tiles[c], c in d.dirty)
  }

  lemma NothingTook(d: Dir)
    ensures TookAll(d, d, {})
  {
  }

  lemma TookSame(hist: History, T: TimeMs, c: Tile, ct: CTile, ct1: CTile, ct2: CTile, dirty: bool, dirty': bool)
    requires Took(hist, T, c, ct, ct1, dirty) && ct2.log == ct1.log && dirty' == dirty
    ensures Took(hist, T, c, ct, ct2, dirty')
  {
  }

  /** A level more, whose tiles were not taken yet. */
  lemma TookMore(d0: Dir, d1: Dir, d: Dir, done: set<Tile>, todo: set<Tile>)
    requires TookAll(d0, d1, done) && Advanced(d0, d1, done) && Advanced(d1, d, todo) && done !! todo
    requires forall x <- todo :: x in d1.tiles && x in d.tiles
               && Took(d.hist, d.horizon, x, d1.tiles[x], d.tiles[x], x in d.dirty)
    ensures TookAll(d0, d, done + todo)
  {
    hide Took, Later;
    forall c <- done
      ensures c in d.tiles && Took(d0.hist, d0.horizon, c, d0.tiles[c], d.tiles[c], c in d.dirty)
    {
      assert c in d1.dirty <==> c in d.dirty;
    }
  }

  /** What a pass takes is scheduled, and brought up to its time when nothing failed. */
  lemma PassDone(d0: Dir, d: Dir, cf: Config, prev: TimeMs, force: bool, done: set<Tile>, ok: bool)
    requires ConfigOk(cf) && PassInv(d0, d, cf, prev, force, cf.levels + 1, done, ok)
    ensures Advanced(d0, d, done) && d.horizon == d0.horizon
    ensures forall c <- done ::
              (ok ==> c in d.tiles && UpTo(d.tiles[c], d.horizon))
              && (c in d0.tiles && c.k >= 1 && d0.tiles[c].books.count > 0 ==> Due(cf, c.k, prev, d0.horizon, force))
  {
    hide DirOk, Covered, Due, LevelCurrent, UpTo, TakenOff, Later;
  }

  lemma PassLevels(d0: Dir, d: Dir, cf: Config, prev: TimeMs, force: bool, done: set<Tile>)
    requires ConfigOk(cf) && PassInv(d0, d, cf, prev, force, cf.levels + 1, done, true)
    ensures Covered(d) && forall j :: 1 <= j <= cf.levels && Due(cf, j, prev, d.horizon, force) ==> LevelCurrent(d, j)
  {
    hide DirOk, Covered, Advanced, Due, LevelCurrent, Scheduled, UpTo;
  }
}
