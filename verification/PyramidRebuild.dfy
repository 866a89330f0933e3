/** Building the coarse levels from a whole z0 history: the versions an offline rebuild writes, and those of a live
    server that committed every window, are the same. */
module PyramidRebuild {
  import opened Common
  import opened Pixels
  import opened Downsample
  import opened CoarseSeries
  import opened PyramidTiles
  import opened PyramidState
  import opened PyramidPass
  import opened PyramidAnswers
  import opened PyramidLatest
  import opened Pyramid

  // --- when a tile gets versions ---

  /** Some z0 version inside c is effective at T. */
  ghost predicate Begun(full: History, c: Tile, T: TimeMs) {
    exists z <- full :: full[z] != [] && full[z][0].t <= T && Under(z, c)
  }

  lemma BegunLater(full: History, c: Tile, T: TimeMs, T': TimeMs)
    requires Begun(full, c, T) && T <= T'
    ensures Begun(full, c, T')
  {
    hide Under;
  }

  /** What a build at T adds to a tile's versions: the first one as soon as there is content, and later ones when the
      level is due and the content changed. */
  function Next(s: seq<TimeMs>, T: TimeMs, begun: bool, due: bool, differs: bool): seq<TimeMs> {
    if s == [] then (if begun then [T] else []) else if s[|s| - 1] < T && due && differs then s + [T] else s
  }

  ghost predicate Differs(full: History, c: Tile, s: seq<TimeMs>, T: TimeMs) {
    s != [] && Average(full, c, T) != Average(full, c, s[|s| - 1])
  }

  /** The times of c's versions up to T on the plain schedule: at every multiple of its level's interval at which its
      content changed. */
  ghost function Times(full: History, cf: Config, c: Tile, T: TimeMs): (s: seq<TimeMs>)
    requires ConfigOk(cf) && c.k >= 1
    ensures forall i :: 0 <= i < |s| ==> s[i] <= T
    decreases if T > NEVER then T - NEVER else 0
  {
    if T <= NEVER then []
    else
      var s := Times(full, cf, c, T - 1);
      Next(s, T, Begun(full, c, T), T % Interval(cf, c.k) == 0, Differs(full, c, s, T))
  }

  /** With a flush at the end, when every level is due. */
  ghost function Flushed(full: History, cf: Config, c: Tile, H: TimeMs): seq<TimeMs>
    requires ConfigOk(cf) && c.k >= 1
  {
    var s := Times(full, cf, c, H - 1);
    Next(s, H, Begun(full, c, H), true, Differs(full, c, s, H))
  }

  lemma {:induction false} TimesBegun(full: History, cf: Config, c: Tile, T: TimeMs)
    requires ConfigOk(cf) && c.k >= 1 && !Begun(full, c, NEVER)
    ensures T >= NEVER ==> (Times(full, cf, c, T) != [] <==> Begun(full, c, T))
    decreases if T > NEVER then T - NEVER else 0
  {
    hide Begun, Differs;
    if T > NEVER {
      TimesBegun(full, cf, c, T - 1);
      if Begun(full, c, T - 1) { BegunLater(full, c, T - 1, T); }
    }
  }

  /** No z0 version inside c became effective after a and up to b. */
  ghost predicate NoneBetween(full: History, c: Tile, a: TimeMs, b: TimeMs) {
    forall z <- full :: Under(z, c) ==> forall i :: 0 <= i < |full[z]| ==> !(a < full[z][i].t <= b)
  }

  lemma SameContent(full: History, c: Tile, a: TimeMs, b: TimeMs)
    requires NoneBetween(full, c, a, b) && a <= b
    ensures Average(full, c, a) == Average(full, c, b)
  {
    hide Average, Under;
    forall z | Under(z, c) ensures Z0At(full, z, a) == Z0At(full, z, b) {
      if z in full { NewestSame(full[z], a, b); }
    }
    AverageSame(full, full, c, a, b);
  }

  /** At a multiple of its interval a tile's newest version shows its content. */
  lemma {:induction false} LastAt(full: History, cf: Config, c: Tile, m: TimeMs, T: TimeMs)
    requires ConfigOk(cf) && c.k >= 1 && NEVER < m <= T && m % Interval(cf, c.k) == 0
    requires var s := Times(full, cf, c, T); s != [] && s[|s| - 1] <= m
    ensures var s := Times(full, cf, c, T); Average(full, c, m) == Average(full, c, s[|s| - 1])
    decreases T - m
  {
    hide Average, Begun, Interval;
    if m < T { LastAt(full, cf, c, m, T - 1); }
  }

  // --- the instants of a rebuild ---

  function Ceil(t: TimeMs, iv: TimeMs): (b: TimeMs)
    requires iv > 0
    ensures b % iv == 0 && t <= b < t + iv
    ensures forall x :: x % iv == 0 && x >= t ==> x >= b
  {
    CeilIs(t, iv);
    if t % iv == 0 then t else t - t % iv + iv
  }

  lemma CeilIs(t: TimeMs, iv: TimeMs)
    requires iv > 0
    ensures var b := if t % iv == 0 then t else t - t % iv + iv;
            b % iv == 0 && t <= b < t + iv && forall x :: x % iv == 0 && x >= t ==> x >= b
  {
    var q := t / iv;
    var b := if t % iv == 0 then t else t - t % iv + iv;
    assert t == iv * q + t % iv;
    assert b == iv * (if t % iv == 0 then q else q + 1);
    MultipleMod(iv, if t % iv == 0 then q else q + 1);
    forall x | x % iv == 0 && x >= t ensures x >= b {
      assert x == iv * (x / iv);
      if x < b { NoMultiple(iv, if t % iv == 0 then q else q + 1, x / iv); }
    }
  }

  lemma MultipleMod(iv: int, n: int)
    requires iv > 0
    ensures iv * n % iv == 0
  {
    Divides(iv * n, iv, n, 0);
  }

  /** A smaller multiple is smaller by at least one interval. */
  lemma NoMultiple(iv: int, n: int, m: int)
    requires iv > 0 && iv * m < iv * n
    ensures iv * m <= iv * n - iv
  {
    if m >= n { ProductMonotone(n, m, iv); }
    ProductMonotone(m, n - 1, iv);
  }

  /** The passes contain, up to `upto`, every time content begins at, and for every change the first multiple of each
      level's interval from it on. */
  ghost predicate Planned(full: History, cf: Config, passes: set<TimeMs>, upto: TimeMs)
    requires ConfigOk(cf)
  {
    forall z <- full, i :: 0 <= i < |full[z]| ==> PlannedAt(cf, passes, upto, full[z][i].t, i == 0)
  }

  ghost predicate PlannedAt(cf: Config, passes: set<TimeMs>, upto: TimeMs, t: TimeMs, first: bool)
    requires ConfigOk(cf)
  {
    && (first && t <= upto ==> t in passes)
    && forall k :: 1 <= k <= cf.levels && Ceil(t, Interval(cf, k)) <= upto ==> Ceil(t, Interval(cf, k)) in passes
  }

  /** At a time that is no pass the schedule changes nothing. */
  lemma StaysAt(full: History, cf: Config, passes: set<TimeMs>, c: Tile, T: TimeMs, t: TimeMs)
    requires ConfigOk(cf) && HistoryOk(full) && 1 <= c.k <= cf.levels && NEVER < T < t
    requires Planned(full, cf, passes, t) && forall x <- passes :: !(T < x <= t)
    requires Times(full, cf, c, t - 1) == Times(full, cf, c, T)
    ensures Times(full, cf, c, t) == Times(full, cf, c, T)
  {
    hide Average, Begun, Interval, Planned, Differs, Times, HistoryOk;
    var s := Times(full, cf, c, T);
    NotBegun(full, c);
    if Begun(full, c, t - 1) { BegunLater(full, c, t - 1, t); }
    TimesIs(full, cf, c, t);
    TimesBegun(full, cf, c, t - 1);
    if Begun(full, c, t) {
      if s == [] {
        FirstPlanned(full, cf, passes, c, t);
      } else {
        NoDifference(full, cf, passes, c, T, t);
      }
    }
  }

  lemma TimesIs(full: History, cf: Config, c: Tile, T: TimeMs)
    requires ConfigOk(cf) && c.k >= 1 && T > NEVER
    ensures var s := Times(full, cf, c, T - 1);
            Times(full, cf, c, T)
            == Next(s, T, Begun(full, c, T), T % Interval(cf, c.k) == 0, Differs(full, c, s, T))
  {
    hide Begun, Differs, Next, Interval;
  }

  lemma NotBegun(full: History, c: Tile)
    requires HistoryOk(full)
    ensures !Begun(full, c, NEVER)
  {
  }

  lemma FirstPlanned(full: History, cf: Config, passes: set<TimeMs>, c: Tile, t: TimeMs)
    requires ConfigOk(cf) && Planned(full, cf, passes, t) && Begun(full, c, t) && !Begun(full, c, t - 1)
    ensures t in passes
  {
    hide Under;
    var z :| z in full && full[z] != [] && full[z][0].t <= t && Under(z, c);
    assert PlannedAt(cf, passes, t, full[z][0].t, 0 == 0);
  }

  lemma NoDifference(full: History, cf: Config, passes: set<TimeMs>, c: Tile, T: TimeMs, t: TimeMs)
    requires ConfigOk(cf) && 1 <= c.k <= cf.levels && NEVER < T < t && Times(full, cf, c, T) != []
    requires Planned(full, cf, passes, t) && forall x <- passes :: !(T < x <= t)
    ensures t % Interval(cf, c.k) == 0 ==> !Differs(full, c, Times(full, cf, c, T), t)
  {
    hide Average, Under, Times, Interval;
    var iv := Interval(cf, c.k);
    var s := Times(full, cf, c, T);
    var l := s[|s| - 1];
    if t % iv == 0 {
      var m := T - T % iv;
      MultipleMod(iv, T / iv);
      assert m == iv * (T / iv) && m % iv == 0;
      forall z <- full, i | Under(z, c) && 0 <= i < |full[z]|
        ensures !(m < full[z][i].t <= t)
      {
        var u := full[z][i].t;
        if m < u <= t {
          assert PlannedAt(cf, passes, t, u, i == 0);
          assert Ceil(u, iv) <= T;
          BelowFloor(Ceil(u, iv), T, iv);
        }
      }
      if l <= m {
        SameContent(full, c, m, t);
        TimesAfter(full, cf, c, T);
        LastAt(full, cf, c, m, T);
      } else {
        SameContent(full, c, l, t);
      }
    }
  }

  lemma TimesAfter(full: History, cf: Config, c: Tile, T: TimeMs)
    requires ConfigOk(cf) && c.k >= 1
    ensures forall i :: 0 <= i < |Times(full, cf, c, T)| ==> NEVER < Times(full, cf, c, T)[i] <= T
    decreases if T > NEVER then T - NEVER else 0
  {
    hide Average, Begun, Interval;
    if T > NEVER { TimesAfter(full, cf, c, T - 1); }
  }

  lemma BelowFloor(x: TimeMs, T: TimeMs, iv: TimeMs)
    requires iv > 0 && x % iv == 0 && x <= T
    ensures x <= T - T % iv
  {
    assert x == iv * (x / iv) && T - T % iv == iv * (T / iv);
    if x > T - T % iv { NoMultiple(iv, x / iv, T / iv); }
  }

  /** From one pass to the next the schedule changes nothing. */
  lemma {:induction false} GapSame(full: History, cf: Config, passes: set<TimeMs>, c: Tile, T: TimeMs, t: TimeMs)
    requires ConfigOk(cf) && HistoryOk(full) && 1 <= c.k <= cf.levels && NEVER < T <= t
    requires Planned(full, cf, passes, t) && forall x <- passes :: !(T < x <= t)
    ensures Times(full, cf, c, t) == Times(full, cf, c, T)
    decreases t - T
  {
    hide Times, Interval;
    if T < t {
      PlannedLess(full, cf, passes, t);
      GapSame(full, cf, passes, c, T, t - 1);
      StaysAt(full, cf, passes, c, T, t);
    }
  }

  lemma PlannedLess(full: History, cf: Config, passes: set<TimeMs>, t: TimeMs)
    requires ConfigOk(cf) && Planned(full, cf, passes, t)
    ensures Planned(full, cf, passes, t - 1)
  {
    hide Interval, Ceil;
    forall z <- full, i | 0 <= i < |full[z]| ensures PlannedAt(cf, passes, t - 1, full[z][i].t, i == 0) {
      assert PlannedAt(cf, passes, t, full[z][i].t, i == 0);
    }
  }

  // --- one pass ---

  /** The versions effective by T. */
  function Upto(h: seq<Stamp>, T: TimeMs): seq<Stamp> {
    if h == [] || h[|h| - 1].t <= T then h else Upto(h[..|h| - 1], T)
  }

  /** The history as a builder at T sees it: the tiles with versions by then. */
  function Until(full: History, T: TimeMs): History {
    map z | z in full && Upto(full[z], T) != [] :: Upto(full[z], T)
  }

  lemma {:induction false} UptoIs(h: seq<Stamp>, T: TimeMs)
    requires InOrder(h)
    ensures Upto(h, T) <= h && (forall i :: 0 <= i < |h| ==> (i < |Upto(h, T)| <==> h[i].t <= T))
    decreases |h|
  {
    if h != [] && h[|h| - 1].t > T {
      var n := |h| - 1;
      assert InOrder(h[..n]);
      UptoIs(h[..n], T);
    }
  }

  lemma {:induction false} NewestUpto(h: seq<Stamp>, T: TimeMs, t: TimeMs)
    requires InOrder(h) && t <= T
    ensures Newest(Upto(h, T), t) == Newest(h, t)
    decreases |h|
  {
    if h != [] && h[|h| - 1].t > T {
      var n := |h| - 1;
      assert InOrder(h[..n]);
      NewestUpto(h[..n], T, t);
    }
  }

  /** Up to T it is the same history. */
  lemma UntilSame(full: History, T: TimeMs, c: Tile, t: TimeMs)
    requires HistoryOk(full) && t <= T
    ensures Average(Until(full, T), c, t) == Average(full, c, t)
  {
    hide Average, Under;
    forall z | Under(z, c) ensures Z0At(Until(full, T), z, t) == Z0At(full, z, t) {
      if z in full { NewestUpto(full[z], T, t); }
    }
    AverageSame(Until(full, T), full, c, t, t);
  }

  lemma UntilOk(full: History, T: TimeMs)
    requires HistoryOk(full)
    ensures HistoryOk(Until(full, T)) && AllBefore(Until(full, T), T)
    ensures forall z <- Until(full, T) :: z in full && Until(full, T)[z] != [] && full[z] != []
              && Until(full, T)[z][0] == full[z][0] && full[z][0].t <= T
    ensures forall z <- full :: full[z] != [] && full[z][0].t <= T ==> z in Until(full, T)
  {
    forall z <- full ensures Upto(full[z], T) <= full[z] && InOrder(Upto(full[z], T)) {
      UptoIs(full[z], T);
    }
    forall z <- full | full[z] != [] && full[z][0].t <= T ensures Upto(full[z], T) != [] { UptoIs(full[z], T); }
    forall z <- Until(full, T), i | 0 <= i < |Until(full, T)[z]| ensures Until(full, T)[z][i].t <= T {
      UptoIs(full[z], T);
    }
  }

  function TimesOf(log: Log): (s: seq<TimeMs>)
    ensures |s| == |log| && forall i :: 0 <= i < |s| ==> s[i] == log[i].t
  {
    seq(|log|, i requires 0 <= i < |log| => log[i].t)
  }

  /** The times of c's versions. */
  function LogTimes(tiles: map<Tile, CTile>, c: Tile): seq<TimeMs> { if c in tiles then TimesOf(tiles[c].log) else [] }

  /** Everything that was appended is published, and nothing is in doubt. */
  predicate Whole(ct: CTile) { !ct.suspect && ct.n == ct.books.count == |ct.log| }

  /** The builder after a pass at T of a run in which nothing failed. */
  ghost predicate Caught(d: Dir, cf: Config, full: History, T: TimeMs) {
    && DirOk(d, cf, {}) && d.hist == Until(full, T) && d.horizon == T && NEVER < T
    && (forall c: Tile :: 1 <= c.k <= cf.levels ==> (c in d.tiles <==> Begun(full, c, T)))
    && forall c <- d.tiles :: Whole(d.tiles[c]) && d.tiles[c].log != [] && d.tiles[c].descT <= T
  }

  /** A pass at T' from d: marks lead to d0, builds to d'. */
  ghost predicate PassFrom(d: Dir, d0: Dir, d': Dir, cf: Config, full: History, T': TimeMs, prev: TimeMs, force: bool,
                           done: set<Tile>)
    requires ConfigOk(cf)
  {
    && DirOk(d0, cf, {}) && Covered(d0) && d0.hist == Until(full, T') && d0.horizon == T'
    && Marks(d.tiles, d0.tiles) && MarksUpTo(d.tiles, d0.tiles, Until(full, T'), T')
    && PassInv(d0, d', cf, prev, force, cf.levels + 1, done, true) && TookAll(d0, d', done)
  }

  /** After the marks exactly the tiles with content are known. */
  lemma KnownTiles(d: Dir, d0: Dir, cf: Config, full: History, T: TimeMs, T': TimeMs, c: Tile)
    requires HistoryOk(full) && Caught(d, cf, full, T) && T <= T' && 1 <= c.k <= cf.levels
    requires DirOk(d0, cf, {}) && Covered(d0) && d0.hist == Until(full, T')
             && Marks(d.tiles, d0.tiles) && MarksUpTo(d.tiles, d0.tiles, Until(full, T'), T')
    ensures c in d0.tiles <==> Begun(full, c, T')
    ensures c in d0.tiles && c !in d.tiles ==> d0.tiles[c].descT > NEVER
  {
    hide TilesOk, ClearOk, Until, Under, Whole;
    UntilOk(full, T');
    if Begun(full, c, T') {
      var z :| z in full && full[z] != [] && full[z][0].t <= T' && Under(z, c);
      assert z in d0.hist && z in d0.z0seen;
      AncestorOf(z, c);
      assert Ancestor(z, c.k) in d0.tiles;
      LastLate(d0.hist, z);
    }
    if c in d0.tiles {
      if c in d.tiles {
        BegunLater(full, c, T, T');
      } else {
        var z :| z in Until(full, T') && Until(full, T')[z] != [] && Under(z, c);
      }
    }
  }

  lemma AncestorOf(z: Tile, c: Tile)
    requires Under(z, c)
    ensures z.k == 0 && Ancestor(z, c.k) == c
  {
  }

  lemma LastLate(hist: History, z: Tile)
    requires HistoryOk(hist) && z in hist && hist[z] != []
    ensures hist[z][|hist[z]| - 1].t > NEVER
  {
  }

  /** A tile that was marked for the first time has no version, and is dirty. */
  lemma NewIs(d: Dir, d0: Dir, cf: Config, full: History, T: TimeMs, T': TimeMs, c: Tile)
    requires HistoryOk(full) && Caught(d, cf, full, T) && T <= T' && 1 <= c.k <= cf.levels
    requires DirOk(d0, cf, {}) && Covered(d0) && d0.hist == Until(full, T')
             && Marks(d.tiles, d0.tiles) && MarksUpTo(d.tiles, d0.tiles, Until(full, T'), T')
    requires c in d0.tiles && c !in d.tiles
    ensures d0.tiles[c].log == [] && d0.tiles[c].books.count == 0 && !d0.tiles[c].suspect && c in d0.dirty
  {
    hide Average, Version, Marked, HistoryOk, Covered, Until, MarksUpTo;
    KnownTiles(d, d0, cf, full, T, T', c);
    assert TileOk(d0.hist, d0.horizon, cf.limit, c, d0.tiles[c]);
  }

  /** It is taken: its children are new too, and were taken before it. */
  lemma {:induction false} NewTaken(d: Dir, d0: Dir, d': Dir, cf: Config, full: History, T: TimeMs, T': TimeMs,
                                    prev: TimeMs, force: bool, done: set<Tile>, c: Tile)
    requires ConfigOk(cf) && HistoryOk(full) && Caught(d, cf, full, T) && T <= T' && 1 <= c.k <= cf.levels
    requires PassFrom(d, d0, d', cf, full, T', prev, force, done) && c in d0.tiles && c !in d.tiles
    ensures c in done
    decreases c.k, 0
  {
    hide DirOk, Covered, Marks, MarksUpTo, Took, Until, Due, LevelCurrent, Advanced, UpTo, KidsClear, Caught;
    NewIs(d, d0, cf, full, T, T', c);
    PassFacts(d0, d', cf, prev, force, done);
    if !Due(cf, c.k, prev, T', force) {
      assert KidsClear(d', c) by {
        if c.k > 1 {
          forall i | 0 <= i < 4 ensures ChildClear(d', c, i) {
            if Child(c, i) in d'.tiles { NewKid(d, d0, d', cf, full, T, T', prev, force, done, c, i); }
          }
        }
        KidsAre(d', c);
      }
    }
  }

  lemma KidsAre(d: Dir, c: Tile)
    requires c.k >= 1 && (c.k > 1 ==> forall i :: 0 <= i < 4 ==> ChildClear(d, c, i))
    ensures KidsClear(d, c)
  {
    hide ChildClear;
  }

  lemma PassFacts(d0: Dir, d': Dir, cf: Config, prev: TimeMs, force: bool, done: set<Tile>)
    requires ConfigOk(cf) && PassInv(d0, d', cf, prev, force, cf.levels + 1, done, true)
    ensures d'.hist == d0.hist && d'.horizon == d0.horizon && d'.tiles.Keys == d0.tiles.Keys && done <= d0.tiles.Keys
    ensures forall c <- d0.tiles :: 1 <= c.k <= cf.levels && (c !in done ==> d'.tiles[c] == d0.tiles[c])
    ensures forall c <- d0.dirty :: c in d0.tiles && (Due(cf, c.k, prev, d0.horizon, force) ==> c in done)
    ensures forall c <- d0.dirty :: c in d0.tiles && !Due(cf, c.k, prev, d0.horizon, force) ==>
              (c in done <==> d0.tiles[c].books.count == 0 && KidsClear(d', c))
    ensures forall c <- done :: UpTo(d'.tiles[c], d0.horizon) && Later(d0.tiles[c], d'.tiles[c], d0.horizon)
    ensures forall c <- done :: d0.tiles[c].books.count > 0 ==> Due(cf, c.k, prev, d0.horizon, force)
    ensures forall j :: 1 <= j <= cf.levels && Due(cf, j, prev, d0.horizon, force) ==> LevelCurrent(d', j)
    ensures DirOk(d', cf, {})
  {
    hide DirOk, Covered, Due, LevelCurrent, UpTo, KidsClear, Later;
    PassDone(d0, d', cf, prev, force, done, true);
    forall c <- d0.tiles ensures c !in done ==> d'.tiles[c] == d0.tiles[c] {}
  }

  lemma NewKid(d: Dir, d0: Dir, d': Dir, cf: Config, full: History, T: TimeMs, T': TimeMs, prev: TimeMs, force: bool,
               done: set<Tile>, c: Tile, i: nat)
    requires ConfigOk(cf) && HistoryOk(full) && Caught(d, cf, full, T) && T <= T' && 1 < c.k <= cf.levels && i < 4
    requires PassFrom(d, d0, d', cf, full, T', prev, force, done) && c in d0.tiles && c !in d.tiles
    requires Child(c, i) in d'.tiles
    ensures ChildClear(d', c, i)
    decreases c.k - 1, 1
  {
    hide DirOk, Covered, Marks, MarksUpTo, Until, Due, LevelCurrent, Later, KidsClear;
    var x := Child(c, i);
    PassFacts(d0, d', cf, prev, force, done);
    if x in d.tiles {
      BegunUp(full, c, i, T);
      assert false;
    }
    NewTaken(d, d0, d', cf, full, T, T', prev, force, done, x);
    NewIs(d, d0, cf, full, T, T', x);
    MarkedEarly(d, d0, cf, full, T, T', x);
    assert Took(d0.hist, d0.horizon, x, d0.tiles[x], d'.tiles[x], x in d'.dirty);
  }

  lemma MarkedEarly(d: Dir, d0: Dir, cf: Config, full: History, T: TimeMs, T': TimeMs, c: Tile)
    requires Caught(d, cf, full, T) && T <= T' && MarksUpTo(d.tiles, d0.tiles, Until(full, T'), T')
    requires c in d0.tiles
    ensures d0.tiles[c].descT <= T'
  {
    hide Until, Whole, Begun;
  }

  lemma BegunUp(full: History, c: Tile, i: nat, T: TimeMs)
    requires c.k > 0 && i < 4 && Begun(full, Child(c, i), T)
    ensures Begun(full, c, T)
  {
    hide Under, Child;
    var z :| z in full && full[z] != [] && full[z][0].t <= T && Under(z, Child(c, i));
    UnderChild(z, c, i);
  }

  /** What the pass does to one tile. */
  lemma TileCatches(d: Dir, d0: Dir, d': Dir, cf: Config, full: History, T: TimeMs, T': TimeMs, prev: TimeMs,
                    force: bool, done: set<Tile>, c: Tile)
    requires ConfigOk(cf) && HistoryOk(full) && Caught(d, cf, full, T) && T <= T' && 1 <= c.k <= cf.levels
    requires PassFrom(d, d0, d', cf, full, T', prev, force, done) && c in d0.tiles
    ensures var s := LogTimes(d.tiles, c);
            LogTimes(d'.tiles, c) == Next(s, T', true, Due(cf, c.k, prev, T', force), Differs(full, c, s, T'))
    ensures Whole(d'.tiles[c]) && d'.tiles[c].log != [] && d'.tiles[c].descT <= T'
  {
    hide DirOk, Covered, Marks, MarksUpTo, Until, Due, LevelCurrent, Later, KidsClear, Took, UpTo, Version, Average;
    PassFacts(d0, d', cf, prev, force, done);
    MarkedEarly(d, d0, cf, full, T, T', c);
    if c !in d.tiles {
      NewTaken(d, d0, d', cf, full, T, T', prev, force, done, c);
      NewIs(d, d0, cf, full, T, T', c);
      TookNew(d0, d', cf, T', c, done);
    } else {
      OldIs(d, d0, cf, full, T, c);
      OldCatches(d, d0, d', cf, full, T, T', prev, force, done, c);
    }
  }

  lemma TookNew(d0: Dir, d': Dir, cf: Config, T': TimeMs, c: Tile, done: set<Tile>)
    requires TookAll(d0, d', done) && c in done && d0.horizon == T' && DirOk(d', cf, {})
    requires c in d0.tiles && c in d'.tiles && d0.tiles[c].log == [] && d0.tiles[c].books.count == 0
             && !d0.tiles[c].suspect
    requires UpTo(d'.tiles[c], T') && Later(d0.tiles[c], d'.tiles[c], T')
    ensures TimesOf(d'.tiles[c].log) == [T'] && Whole(d'.tiles[c]) && d'.tiles[c].descT == d0.tiles[c].descT
  {
    hide Average, Sound, Version, BooksOf, Marked, ClearOk, HistoryOk;
    assert Took(d0.hist, d0.horizon, c, d0.tiles[c], d'.tiles[c], c in d'.dirty);
    assert TileOk(d'.hist, d'.horizon, cf.limit, c, d'.tiles[c]);
  }

  /** A tile known before only has a newer change. */
  lemma OldIs(d: Dir, d0: Dir, cf: Config, full: History, T: TimeMs, c: Tile)
    requires Caught(d, cf, full, T) && Marks(d.tiles, d0.tiles) && c in d.tiles
    ensures c in d0.tiles && d0.tiles[c].log == d.tiles[c].log != [] && Whole(d0.tiles[c])
  {
    hide DirOk, Begun, Until;
    assert d0.tiles[c].(descT := d.tiles[c].descT) == d.tiles[c];
  }

  lemma OldCatches(d: Dir, d0: Dir, d': Dir, cf: Config, full: History, T: TimeMs, T': TimeMs, prev: TimeMs,
                   force: bool, done: set<Tile>, c: Tile)
    requires ConfigOk(cf) && HistoryOk(full) && Caught(d, cf, full, T) && T <= T' && 1 <= c.k <= cf.levels
    requires PassFrom(d, d0, d', cf, full, T', prev, force, done) && c in d0.tiles && c in d.tiles
    requires d0.tiles[c].log == d.tiles[c].log != [] && Whole(d0.tiles[c]) && d0.tiles[c].descT <= T'
    ensures var s := LogTimes(d.tiles, c);
            LogTimes(d'.tiles, c) == Next(s, T', true, Due(cf, c.k, prev, T', force), Differs(full, c, s, T'))
    ensures Whole(d'.tiles[c]) && d'.tiles[c].log != [] && d'.tiles[c].descT <= T'
  {
    hide DirOk, Covered, Marks, MarksUpTo, Until, Due, LevelCurrent, Later, KidsClear, Took, UpTo, Version, Average,
      PassInv, TookAll, Caught, HistoryOk, ConfigOk;
    PassFacts(d0, d', cf, prev, force, done);
    LastShows(d, cf, full, T, T', c);
    if c in done {
      TookOld(d0, d', cf, T', c, done);
    } else {
      StaysOld(d0, d', cf, full, T', prev, force, done, c);
    }
  }

  /** A tile with a version that was not taken stays, and when its level is due it shows its content. */
  lemma StaysOld(d0: Dir, d': Dir, cf: Config, full: History, T': TimeMs, prev: TimeMs, force: bool, done: set<Tile>,
                 c: Tile)
    requires ConfigOk(cf) && HistoryOk(full) && d0.hist == Until(full, T') && d0.horizon == T'
    requires PassInv(d0, d', cf, prev, force, cf.levels + 1, done, true)
    requires c in d0.tiles && c !in done && Whole(d0.tiles[c]) && d0.tiles[c].log != []
    ensures 1 <= c.k <= cf.levels && c in d'.tiles && d'.tiles[c] == d0.tiles[c]
    ensures Due(cf, c.k, prev, T', force) ==>
              Version(d0.tiles[c].log, |d0.tiles[c].log|) == Average(full, c, T')
  {
    hide PassInv, Average, Version, Due, Until, LevelCurrent, HistoryOk;
    PassFacts(d0, d', cf, prev, force, done);
    if Due(cf, c.k, prev, T', force) {
      assert LevelCurrent(d', c.k);
      CurrentShows(d', cf, full, T', c);
    }
  }

  /** The newest version shows the content of its time. */
  lemma LastShows(d: Dir, cf: Config, full: History, T: TimeMs, T': TimeMs, c: Tile)
    requires HistoryOk(full) && Caught(d, cf, full, T) && T <= T' && c in d.tiles && d.tiles[c].log != []
    ensures var log := d.tiles[c].log;
            var last := log[|log| - 1].t;
            && last <= T && Version(log, |log|) == Average(full, c, last)
            && Average(Until(full, T'), c, T') == Average(full, c, T')
  {
    hide Average, Sound, Version, BooksOf, Marked, ClearOk, HistoryOk, Until, Begun;
    var log := d.tiles[c].log;
    assert TileOk(d.hist, d.horizon, cf.limit, c, d.tiles[c]);
    assert Version(log, |log| - 1 + 1) == Average(d.hist, c, log[|log| - 1].t);
    UntilSame(full, T, c, log[|log| - 1].t);
    UntilSame(full, T', c, T');
  }

  lemma CurrentShows(d': Dir, cf: Config, full: History, T': TimeMs, c: Tile)
    requires HistoryOk(full) && d'.hist == Until(full, T') && d'.horizon == T' && LevelCurrent(d', c.k)
    requires c in d'.tiles && Whole(d'.tiles[c])
    ensures Version(d'.tiles[c].log, |d'.tiles[c].log|) == Average(full, c, T')
  {
    hide Average, Version, Until;
    assert Current(d'.hist, d'.horizon, d'.tiles, c);
    UntilSame(full, T', c, T');
  }

  /** A tile that was taken: built at T' already, or built now. */
  lemma TookOld(d0: Dir, d': Dir, cf: Config, T': TimeMs, c: Tile, done: set<Tile>)
    requires TookAll(d0, d', done) && c in done && d0.horizon == T' && d'.horizon == T' && DirOk(d', cf, {})
    requires c in d0.tiles && c in d'.tiles && Whole(d0.tiles[c]) && d0.tiles[c].log != []
    requires UpTo(d'.tiles[c], T') && Later(d0.tiles[c], d'.tiles[c], T')
    requires d0.tiles[c].log[|d0.tiles[c].log| - 1].t <= T'
    ensures var s, log := TimesOf(d0.tiles[c].log), d0.tiles[c].log;
            TimesOf(d'.tiles[c].log)
            == if log[|log| - 1].t < T' && Version(log, |log|) != Average(d0.hist, c, T') then s + [T'] else s
    ensures Whole(d'.tiles[c]) && d'.tiles[c].descT == d0.tiles[c].descT
  {
    hide Average, Version, BooksOf, Marked, ClearOk, HistoryOk;
    var log, log' := d0.tiles[c].log, d'.tiles[c].log;
    assert Took(d0.hist, d0.horizon, c, d0.tiles[c], d'.tiles[c], c in d'.dirty);
    assert TileOk(d'.hist, d'.horizon, cf.limit, c, d'.tiles[c]);
    if log[|log| - 1].t == T' { NoMore(log, log', cf.limit, T'); }
  }

  /** Versions are effective at different times. */
  lemma NoMore(log: Log, log': Log, limit: nat, T: TimeMs)
    requires Sound(log', limit) && log <= log' && log != [] && log[|log| - 1].t == T
    requires forall i :: |log| <= i < |log'| ==> log'[i].t == T
    ensures log' == log
  {
    hide Sound;
    if |log'| > |log| { Rises(log', limit, |log|); }
  }

  lemma Rises(log: Log, limit: nat, n: nat)
    requires Sound(log, limit) && 0 < n < |log|
    ensures log[n - 1].t < log[n].t
  {
    hide CoarseSeries.Content, SinceBase;
  }

  /** A pass of a run in which nothing failed leaves the builder at its time, each tile's versions those of the
      schedule. */
  lemma PassCatches(d: Dir, d0: Dir, d': Dir, cf: Config, full: History, T: TimeMs, T': TimeMs, prev: TimeMs,
                    force: bool, done: set<Tile>)
    requires ConfigOk(cf) && HistoryOk(full) && Caught(d, cf, full, T) && T <= T'
    requires PassFrom(d, d0, d', cf, full, T', prev, force, done)
    ensures Caught(d', cf, full, T')
    ensures forall c: Tile :: 1 <= c.k <= cf.levels ==>
              var s := LogTimes(d.tiles, c);
              LogTimes(d'.tiles, c)
              == Next(s, T', Begun(full, c, T'), Due(cf, c.k, prev, T', force), Differs(full, c, s, T'))
  {
    hide DirOk, Covered, Marks, MarksUpTo, Until, Due, Begun, Differs, TookAll, PassInv, Whole, TimesOf;
    PassFacts(d0, d', cf, prev, force, done);
    forall c: Tile | 1 <= c.k <= cf.levels
      ensures c in d'.tiles <==> Begun(full, c, T')
      ensures c in d'.tiles ==> Whole(d'.tiles[c]) && d'.tiles[c].log != [] && d'.tiles[c].descT <= T'
      ensures var s := LogTimes(d.tiles, c);
              LogTimes(d'.tiles, c)
              == Next(s, T', Begun(full, c, T'), Due(cf, c.k, prev, T', force), Differs(full, c, s, T'))
    {
      KnownTiles(d, d0, cf, full, T, T', c);
      if c in d0.tiles {
        TileCatches(d, d0, d', cf, full, T, T', prev, force, done, c);
      } else if c in d.tiles {
        BegunLater(full, c, T, T');
      }
    }
  }
}
