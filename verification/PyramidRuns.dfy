/** Whole runs of a pyramid: what was final stays, through commits, builds that fail anywhere, and crashes; when the
    newest content served is the newest; and the runs after which BuiltUpTo promises too much and a cached image is
    served too long. */
module PyramidRuns {
  import opened Common
  import opened Pixels
  import opened Downsample
  import opened CoarseSeries
  import opened PyramidTiles
  import opened PyramidState
  import opened PyramidPass
  import opened PyramidAnswers
  import opened PyramidLatest
  import opened Pyramid

  datatype Op =
    | TerrainCommit(z: Tile, v: Stamp)
    | RaiseHorizon(to: TimeMs)
    | Update(force: bool, fates: Tile -> Fate, syncs: Tile -> bool)
    | Restart(kept: Tile -> nat)
    | ReadLatest(c: Tile)
    | Drop(keys: set<LiveKey>)

  /** What the z0 store and the file system can do next: commit after the horizon in time order, never move
      the horizon back, never lose a synced record. */
  predicate Possible(d: Dir, op: Op) {
    match op
    case TerrainCommit(z, v) =>
      z.k == 0 && v.t > d.horizon && (z in d.hist && d.hist[z] != [] ==> d.hist[z][|d.hist[z]| - 1].t <= v.t)
    case RaiseHorizon(to) => to >= d.horizon
    case Update(_, _, _) => true
    case Restart(kept) => forall c <- d.tiles :: d.tiles[c].synced <= kept(c) <= |d.tiles[c].log|
    case ReadLatest(c) => c in d.tiles && c.k >= 1
    case Drop(_) => true
  }

  /** The pyramid at one moment of a run. */
  datatype Moment = Moment(d: Dir, builtT: TimeMs)

  ghost function Now(p: Pyramid): Moment
    reads p
  {
    Moment(p.D(), p.builtT)
  }

  /** The levels that were due show their averages. */
  ghost predicate DueCurrent(cf: Config, m: Moment, d: Dir, force: bool)
    requires ConfigOk(cf)
  {
    var prev := PyramidPass.Before(m.builtT, m.d.horizon);
    forall j :: 1 <= j <= cf.levels && Due(cf, j, prev, m.d.horizon, force) ==> LevelCurrent(d, j)
  }

  /** What an operation does: a commit or a horizon touches no tile, an update that succeeds marks every z0 version and
      moves BuiltUpTo to the horizon, a restart leaves what was kept of each series, reading and dropping nothing. */
  ghost predicate Does(cf: Config, m: Moment, m': Moment, op: Op, ok: bool)
    requires ConfigOk(cf)
  {
    if !Possible(m.d, op) then m' == m
    else
      match op
      case TerrainCommit(z, v) =>
        m' == m.(d := m.d.(hist := m.d.hist[z := (if z in m.d.hist then m.d.hist[z] else []) + [v]]))
      case RaiseHorizon(to) => m' == m.(d := m.d.(horizon := to))
      case Update(force, fates, syncs) =>
        && m'.d.hist == m.d.hist && m'.d.horizon == m.d.horizon && (AllWell(fates, syncs) ==> ok)
        && (if ok && m.d.hist != map[] && m.d.horizon != 0
            then m'.builtT == m.d.horizon && Covered(m'.d) && DueCurrent(cf, m, m'.d, force)
            else m'.builtT == m.builtT)
        && forall t0 :: t0 <= m.d.horizon && Final(m.d.tiles, t0) ==>
             Keeps(m.d.tiles, m'.d.tiles, t0) && Final(m'.d.tiles, t0)
      case Restart(kept) =>
        && m'.d.hist == m.d.hist && m'.d.horizon == m.d.horizon
        && m'.d.tiles == AllReopened(m.d.tiles, kept) && Final(m'.d.tiles, m'.builtT)
      case _ => m' == m
  }

  /** Runs every possible operation of ops in turn. At every moment answers below a time t0 that was final are as they
      were. */
  method Run(p: Pyramid, ops: seq<Op>, ghost t0: TimeMs) returns (oks: seq<bool>, ghost trace: seq<Moment>)
    requires p.Valid() && Final(p.tiles, t0) && t0 <= p.horizon
    modifies p
    ensures p.Valid() && |trace| == |ops| + 1 && |oks| == |ops|
    ensures trace[0] == old(Now(p)) && trace[|ops|] == Now(p)
    ensures forall i :: 0 <= i < |ops| ==> Does(p.cf, trace[i], trace[i + 1], ops[i], oks[i])
    ensures forall i :: 0 <= i <= |ops| ==> Final(trace[i].d.tiles, t0) && Keeps(old(p.tiles), trace[i].d.tiles, t0)
    ensures forall i, c, t :: 0 <= i <= |ops| && t < t0 ==>
              AnswerAt(trace[i].d.tiles, c, t) == AnswerAt(old(p.tiles), c, t)
  {
    hide DirOk, ConfigOk, Keeps, Final, Reopened, Does;
    PublishedBounds(p.D(), p.cf);
    KeepsSelf(p.tiles, t0);
    oks, trace := [], [Now(p)];
    for i := 0 to |ops|
      invariant p.Valid() && |trace| == i + 1 && |oks| == i && trace[0] == old(Now(p)) && trace[i] == Now(p)
      invariant t0 <= p.horizon
      invariant forall j :: 0 <= j < i ==> Does(p.cf, trace[j], trace[j + 1], ops[j], oks[j])
      invariant forall j :: 0 <= j <= i ==> Final(trace[j].d.tiles, t0) && Keeps(old(p.tiles), trace[j].d.tiles, t0)
    {
      ghost var before := p.tiles;
      var ok := Step(p, ops[i], t0);
      KeepsOn(old(p.tiles), before, p.D(), p.cf, t0);
      oks, trace := oks + [ok], trace + [Now(p)];
    }
    forall i, c, t | 0 <= i <= |ops| && t < t0
      ensures AnswerAt(trace[i].d.tiles, c, t) == AnswerAt(old(p.tiles), c, t)
    {
      AnswersKept(old(p.tiles), trace[i].d.tiles, t0, c, t);
    }
  }

  lemma PublishedBounds(d: Dir, cf: Config)
    requires DirOk(d, cf, {})
    ensures forall c <- d.tiles :: d.tiles[c].n <= |d.tiles[c].log|
  {
    hide TilesOk, Marked, HistoryOk, ClearOk;
    forall c <- d.tiles ensures d.tiles[c].n <= |d.tiles[c].log| { LogBounds(d, cf, c); }
  }

  lemma KeepsOn(a: map<Tile, CTile>, b: map<Tile, CTile>, d: Dir, cf: Config, t0: TimeMs)
    requires Keeps(a, b, t0) && Keeps(b, d.tiles, t0)
    ensures Keeps(a, d.tiles, t0)
  {
    hide KeepsTile;
    KeepsTrans(a, b, d.tiles, t0);
  }

  /** One operation, if it is possible. */
  method Step(p: Pyramid, op: Op, ghost t0: TimeMs) returns (ok: bool)
    requires p.Valid() && Final(p.tiles, t0) && t0 <= p.horizon
    modifies p
    ensures p.Valid() && p.horizon >= old(p.horizon) && Does(p.cf, old(Now(p)), Now(p), op, ok)
    ensures Final(p.tiles, t0) && Keeps(old(p.tiles), p.tiles, t0)
  {
    hide DirOk, ConfigOk, Keeps, Final, Reopened, Due, LevelCurrent, Staged, AllReopened, AllWell, Covered, PassInv,
      Marks, MarksUpTo, TookAll, CacheOk;
    PublishedBounds(p.D(), p.cf);
    KeepsSelf(p.tiles, t0);
    ok := Possible(p.D(), op);
    if !ok {
      return;
    }
    match op {
      case TerrainCommit(z, v) => p.TerrainCommit(z, v);
      case RaiseHorizon(to) => p.RaiseHorizon(to);
      case Update(force, fates, syncs) =>
        ghost var done, marked;
        ok, done, marked := p.Update(force, fates, syncs);
      case Restart(kept) => p.Restart(kept);
      case ReadLatest(c) => var im := p.ReadLatest(c);
      case Drop(keys) => p.Drop(keys);
    }
  }

  /** What a reader gets as the newest content of c after any run, when every change is marked: with a version waiting
      for its sync, the newest if and only if the version before looks the same; of a pending tile, if and only if each
      child's content that it is served from, halved, looks like the newest content known of the child, whether that
      is read now or was read when an image still cached was computed. An image cached when everything was marked up to
      the horizon is the newest if and only if it was computed while each child, halved, looked so. */
  method ReadAfter(p: Pyramid, ops: seq<Op>, c: Tile, ghost T: TimeMs)
    returns (im: Image, ghost live: Live, ghost shots: map<Tile, Shot>, oks: seq<bool>, ghost trace: seq<Moment>)
    requires p.Valid() && c.k >= 1
    modifies p
    ensures |trace| == |ops| + 1 && |oks| == |ops| && trace[0] == old(Now(p)) && trace[|ops|] == Now(p)
    ensures forall i :: 0 <= i < |ops| ==> Does(p.cf, trace[i], trace[i + 1], ops[i], oks[i])
    ensures p.Valid() && Counted(p.D()) && Made(live, shots)
    ensures c in p.tiles && Covered(p.D()) && AllBefore(p.hist, T) && T >= p.horizon ==>
              var ct, newest := p.tiles[c], Average(p.hist, c, T);
              if Pending(ct) then
                && (im == newest <==> forall i: nat :: i < 4 ==>
                      Halved(Seen(p.D(), live, shots, c, i)) == Halved(Downsample.Content(KnownKid(p.D(), c, i))))
                && (c.k == 1 && c !in live ==> im == newest)
                && (c in live && Covered(shots[c].d) && ct.descT <= shots[c].d.horizon ==>
                      (im == newest <==> forall i: nat :: i < 4 ==>
                         Halved(Downsample.Content(LatestKid(shots[c].d, shots[c].live, c, i)))
                         == Halved(Downsample.Content(KnownKid(shots[c].d, c, i)))))
              else if Shadowed(ct) then
                ct.books.count <= |ct.log|
                && (im == newest <==> Version(ct.log, ct.n) == Version(ct.log, ct.books.count))
              else im == newest
  {
    hide DirOk, ConfigOk, Keeps, CacheOk, Covered, AllBefore, Pending, Shadowed, Latest, LatestKid, KnownKid, Halved,
      Downsample.Content, Average, Version, Seen, Does;
    FinalBelow(p.D(), p.cf);
    oks, trace := Run(p, ops, NEVER);
    CountedIs(p.D(), p.cf);
    MadeIs(p.D(), p.cf, p.liveSeq, p.seqs, p.cache, p.shots);
    live, shots := p.Live(), CachedShots(p.seqs, p.shots);
    if c !in p.tiles {
      return UNCHARTED, live, shots, oks, trace;
    }
    TileLevel(p.D(), p.cf, c);
    im := p.ReadLatest(c);
    if Covered(p.D()) && AllBefore(p.hist, T) && T >= p.horizon {
      if Pending(p.tiles[c]) {
        PendingLatest(p.D(), live, shots, p.cf, c, T);
        if c in live && Covered(shots[c].d) && p.tiles[c].descT <= shots[c].d.horizon {
          CachedSince(p.D(), p.cf, p.seqs, live, shots, c, T);
        }
      } else {
        SettledLatest(p.D(), p.cf, c, T);
        LatestIs(p.D(), live, c);
      }
    }
  }

  lemma FinalBelow(d: Dir, cf: Config)
    requires DirOk(d, cf, {})
    ensures Final(d.tiles, NEVER) && NEVER <= d.horizon
  {
    hide Average, Sound, Version, BooksOf, Marked, ClearOk, HistoryOk;
    forall c <- d.tiles ensures FinalTile(d.tiles[c], NEVER) {
      assert TileOk(d.hist, d.horizon, cf.limit, c, d.tiles[c]);
    }
  }

  lemma TileLevel(d: Dir, cf: Config, c: Tile)
    requires DirOk(d, cf, {}) && c in d.tiles
    ensures 1 <= c.k <= cf.levels
  {
    hide TileOk, Marked, ClearOk, HistoryOk;
  }

  lemma CachedSince(d: Dir, cf: Config, seqs: Seqs, live: Live, shots: map<Tile, Shot>, c: Tile, T: TimeMs)
    requires DirOk(d, cf, {}) && Counted(d) && Covered(d) && AllBefore(d.hist, T) && 1 <= c.k <= cf.levels
             && T >= d.horizon
    requires c in d.tiles && Pending(d.tiles[c]) && Made(live, shots) && c in live && c in seqs
    requires ShotOk(d, cf, seqs, LiveKey(c, seqs[c]), live[c], shots[c])
    requires Covered(shots[c].d) && d.tiles[c].descT <= shots[c].d.horizon
    ensures Latest(d, live, c) == Average(d.hist, c, T) <==>
            forall i: nat :: i < 4 ==>
              Halved(Downsample.Content(LatestKid(shots[c].d, shots[c].live, c, i)))
              == Halved(Downsample.Content(KnownKid(shots[c].d, c, i)))
  {
    hide DirOk, Covered, AllBefore, Pending, Latest, LatestKid, KnownKid, Halved, Downsample.Content, Average, Quiet,
      Grown, Walk;
    var was := shots[c].d;
    QuietSince(was.hist, d.hist, c, was.horizon, d.tiles[c].descT);
    BeforeToo(was.hist, d.hist, was.horizon, T);
    CachedLatest(d, live, shots, cf, c, T);
  }

  lemma BeforeToo(hist: History, hist': History, horizon: TimeMs, T: TimeMs)
    requires Grown(hist, hist', horizon) && AllBefore(hist', T)
    ensures AllBefore(hist, T)
  {
    forall z <- hist, i | 0 <= i < |hist[z]| ensures hist[z][i].t <= T { assert hist'[z][i] == hist[z][i]; }
  }

  // --- a run after which BuiltUpTo is too late ---

  const ONE_LEVEL := Config(1, [10], 0, 0.0)
  const SPOT := Tile(0, 0, 0)
  const ABOVE := Tile(1, 0, 0)
  const SMOOTH: Fate := Fate(false, true, true, true, true, Done, 0, 0)

  /** One z0 version at 12, before its first build. */
  function Start(im: Image): Dir {
    MarkOne(Dir(map[SPOT := [Stamp(12, im)]], 12, map[], {}, map[]), ABOVE, 12).(z0seen := map[SPOT := 12])
  }

  const MARKED_TILE: CTile := NewTile().(descT := 12)

  function FirstBuild(im: Image): Built {
    Build(MARKED_TILE, 12, Average(map[SPOT := [Stamp(12, im)]], ABOVE, 12), SMOOTH, 0, 0.0)
  }

  /** Its first build at 12 succeeds and its sync fails. */
  function FailedSync(im: Image): Dir {
    AfterCommit(AfterBuild(Start(im), ABOVE, FirstBuild(im)), ABOVE, false)
  }

  lemma FirstBuildIs(im: Image)
    ensures var b := FirstBuild(im);
            && b.ok && b.entry && b.clear && !b.ct.suspect && b.ct.n == 0 && b.ct.synced == 0
            && b.ct.books.count == 1 && |b.ct.log| == 1 && b.ct.log[0].t == 12
  {
    hide Average, NextRec;
    NextRecTime([], 12, Average(map[SPOT := [Stamp(12, im)]], ABOVE, 12), SMOOTH, 0, 0.0);
  }

  lemma StartIs(im: Image)
    ensures Start(im).tiles == map[ABOVE := MARKED_TILE] && Start(im).dirty == {ABOVE}
  {
  }

  lemma FailedSyncIs(im: Image)
    ensures FailedSync(im) == Start(im).(tiles := map[ABOVE := FirstBuild(im).ct], dirty := {ABOVE})
  {
    hide FirstBuild, Start;
    StartIs(im);
    FirstBuildIs(im);
    assert AfterBuild(Start(im), ABOVE, FirstBuild(im)).tiles == map[ABOVE := FirstBuild(im).ct];
  }

  /** The same once the horizon has moved on. */
  function Late(im: Image): Dir { FailedSync(im).(horizon := 13) }

  function Committed(im: Image): Dir { Dir(map[SPOT := [Stamp(12, im)]], 12, map[], {}, map[]) }

  lemma CommittedOk(im: Image)
    ensures DirOk(Committed(im), ONE_LEVEL, {})
  {
    hide TileOk;
    assert InOrder([Stamp(12, im)]);
  }

  /** The builder comes into that state: the marks, the build and the failed sync are steps it takes. */
  lemma FailedSyncOk(im: Image)
    ensures DirOk(FailedSync(im), ONE_LEVEL, {}) && DirOk(Late(im), ONE_LEVEL, {}) && Covered(Late(im))
  {
    hide DirOk, TileOk, FirstBuild, Average;
    CommittedOk(im);
    MarkOneOk(Committed(im), ONE_LEVEL, SPOT, 1, 12);
    StartIs(im);
    SeenOk(MarkOne(Committed(im), ABOVE, 12), ONE_LEVEL, SPOT, 12);
    FirstBuildKept(im);
    AfterBuildOk(Start(im), ONE_LEVEL, {}, ABOVE, FirstBuild(im));
    AfterCommitOk(AfterBuild(Start(im), ABOVE, FirstBuild(im)), ONE_LEVEL, {ABOVE}, ABOVE, false);
    assert {ABOVE} - {ABOVE} == {};
    FailedSyncIs(im);
    HorizonOk(FailedSync(im), ONE_LEVEL, 13);
  }

  lemma FirstBuildKept(im: Image)
    ensures var b := FirstBuild(im);
            && TileOk(Start(im).hist, 12, 0, ABOVE, b.ct) && b.ct.descT == 12 && Settled(b.ct) && b.entry && b.clear
  {
    hide Average, TileOk, Build;
    var next := Average(map[SPOT := [Stamp(12, im)]], ABOVE, 12);
    NewTileOk(Start(im).hist, 12, 0, ABOVE);
    ChangeOk(Start(im).hist, 12, 0, ABOVE, NewTile(), 12);
    BuildOk(Start(im).hist, 12, 0, 0.0, ABOVE, MARKED_TILE, SMOOTH);
    BuildFrame(MARKED_TILE, 12, next, SMOOTH, 0, 0.0);
    FirstBuildIs(im);
  }

  /** The level is not due at 13, so an update leaves the record of 12 unpublished and succeeds, and BuiltUpTo
      answers 13; a restart then publishes the record, and the version at 12, below 13, goes from 0 to 1. */
  method BuiltUpToTooLate(p: Pyramid, im: Image, fates: Tile -> Fate, syncs: Tile -> bool) returns (built: TimeMs,
                          before: nat, after: nat)
    requires p.cf == ONE_LEVEL && p.D() == Late(im) && p.builtT == NEVER
    requires p.liveSeq == 1 && p.seqs == map[ABOVE := 1] && p.cache == map[] && p.shots == map[]
    modifies p
    ensures old(p.Valid()) && p.Valid()
    ensures built == 13 && before == 0 && after == 1 && after == AnswerAt(p.tiles, ABOVE, 12)
  {
    hide DirOk, Final, Keeps, FailedSync, FirstBuild, LevelCurrent, Reopened, Covered, Well, PassInv, Marks, MarksUpTo,
      TookAll, Advanced, UpTo, AllBefore, KidsClear;
    FailedSyncOk(im);
    FailedSyncIs(im);
    StartIs(im);
    FirstBuildIs(im);
    assert SPOT in p.hist && ABOVE in p.tiles;
    assert Interval(ONE_LEVEL, 1) == 10;
    assert !Due(ONE_LEVEL, ABOVE.k, Before(NEVER, 13), 13, false);
    assert NothingDue(p.D(), ONE_LEVEL, Before(NEVER, 13), false);
    ghost var done, marked;
    var ok;
    ok, done, marked := p.Update(false, fates, syncs);
    built := p.builtT;
    before := p.VersionAt(ABOVE, 12);
    p.Restart(c => 1);
    FirstPublished(p.tiles, FirstBuild(im).ct);
    after := p.VersionAt(ABOVE, 12);
  }

  lemma FirstPublished(tiles: map<Tile, CTile>, ct: CTile)
    requires ABOVE in tiles && |ct.log| == 1 && ct.log[0].t == 12 && tiles[ABOVE] == Reopened(ct, 1)
    ensures AnswerAt(tiles, ABOVE, 12) == 1
  {
    assert ct.log[..1] == ct.log;
  }

  // --- a run after which a cached image is served too long ---

  const TWO_LEVELS := Config(2, [15, 60], 0, 0.0)

  /** The z0 tile at 5, and with its change at 10. */
  function First(z: Tile, x: Image): History { map[z := [Stamp(5, x)]] }

  function Second(z: Tile, x: Image, y: Image): History { map[z := [Stamp(5, x), Stamp(10, y)]] }

  /** Marks both coarse tiles above z. */
  function MarkBoth(d: Dir, z: Tile, t: TimeMs): Dir
    requires z.k == 0
  {
    MarkOne(MarkOne(d, Ancestor(z, 1), t), Ancestor(z, 2), t).(z0seen := d.z0seen[z := t])
  }

  /** A build of c, and its level's commit. */
  function BuildThen(d: Dir, c: Tile, synced: bool): Dir
    requires c in d.tiles && d.tiles[c].books.count <= |d.tiles[c].log|
  {
    AfterCommit(AfterBuild(d, c, BuildOf(d, c)), c, synced)
  }

  function BuildOf(d: Dir, c: Tile): Built
    requires c in d.tiles && d.tiles[c].books.count <= |d.tiles[c].log|
  {
    Build(d.tiles[c], d.horizon, Average(d.hist, c, d.horizon), SMOOTH, 0, 0.0)
  }

  lemma BuildThenOk(d: Dir, c: Tile, synced: bool)
    requires DirOk(d, TWO_LEVELS, {}) && c in d.dirty && c in d.tiles && KidsCurrent(d, c)
    ensures d.tiles[c].books.count <= |d.tiles[c].log| && DirOk(BuildThen(d, c, synced), TWO_LEVELS, {})
  {
    hide Average, TileOk, Build, Marked, ClearOk, HistoryOk;
    assert TileOk(d.hist, d.horizon, 0, c, d.tiles[c]);
    TileFacts(d.hist, d.horizon, 0, c, d.tiles[c]);
    BuildOk(d.hist, d.horizon, 0, 0.0, c, d.tiles[c], SMOOTH);
    BuildFrame(d.tiles[c], d.horizon, Average(d.hist, c, d.horizon), SMOOTH, 0, 0.0);
    var b := BuildOf(d, c);
    AfterBuildOk(d, TWO_LEVELS, {}, c, b);
    var open := if b.entry then {} + {c} else {};
    AfterCommitOk(AfterBuild(d, c, b), TWO_LEVELS, open, c, synced);
    assert open - {c} == {};
  }

  /** The tile in a series of snapshots: n versions published, the newest change, the last build that found no
      change. */
  predicate Is(ct: CTile, times: seq<TimeMs>, n: nat, descT: TimeMs, cleanT: TimeMs) {
    && |ct.log| == |times| == ct.books.count && (forall i :: 0 <= i < |times| ==> ct.log[i].t == times[i])
    && ct.n == n && ct.descT == descT && ct.cleanT == cleanT && !ct.suspect
    && ct.books.last == if times == [] then NEVER else times[|times| - 1]
  }

  /** A build that finds a change appends a version; one that finds none says so. */
  lemma BuildIs(ct: CTile, T: TimeMs, next: Image, times: seq<TimeMs>, n: nat, descT: TimeMs, cleanT: TimeMs)
    requires Is(ct, times, n, descT, cleanT) && n <= |times| && ct.books == BooksOf(ct.log, |ct.log|)
    requires descT <= T && (times != [] ==> times[|times| - 1] < T) && T > NEVER
    ensures var b := Build(ct, T, next, SMOOTH, 0, 0.0);
            && b.ok && b.clear
            && if times != [] && Version(ct.log, |times|) == next then Is(b.ct, times, n, descT, T)
               else Is(b.ct, times + [T], n, descT, cleanT)
  {
    hide Version, NextRec, CoarseSeries.Content;
    NextRecTime(ct.log, T, next, SMOOTH, 0, 0.0);
  }

  /** The same with its level's commit. */
  lemma BuildThenIs(d: Dir, c: Tile, synced: bool, times: seq<TimeMs>, n: nat, descT: TimeMs, cleanT: TimeMs)
    requires DirOk(d, TWO_LEVELS, {}) && c in d.dirty && c in d.tiles && KidsCurrent(d, c)
    requires Is(d.tiles[c], times, n, descT, cleanT) && descT <= d.horizon && n <= |times|
             && (times != [] ==> times[|times| - 1] < d.horizon)
    ensures d.tiles[c].books.count <= |d.tiles[c].log| == |times| && DirOk(BuildThen(d, c, synced), TWO_LEVELS, {})
    ensures var d', same := BuildThen(d, c, synced),
              times != [] && Version(d.tiles[c].log, |times|) == Average(d.hist, c, d.horizon);
            var times', cleanT' := if same then times else times + [d.horizon], if same then d.horizon else cleanT;
            && c in d'.tiles && d' == d.(tiles := d.tiles[c := d'.tiles[c]], dirty := d'.dirty)
            && Is(d'.tiles[c], times', if synced then |times'| else n, descT, cleanT')
            && d'.dirty == if synced || n == |times'| then d.dirty - {c} else d.dirty
  {
    hide DirOk, Average, Version, Build, Is;
    BuildThenOk(d, c, synced);
    IsCount(d.tiles[c], times, n, descT, cleanT);
    BooksAre(d, c);
    BuildIs(d.tiles[c], d.horizon, Average(d.hist, c, d.horizon), times, n, descT, cleanT);
    var same := times != [] && Version(d.tiles[c].log, |times|) == Average(d.hist, c, d.horizon);
    var times', cleanT' := if same then times else times + [d.horizon], if same then d.horizon else cleanT;
    PublishedIs(BuildOf(d, c).ct, times', n, descT, cleanT');
  }

  lemma BooksAre(d: Dir, c: Tile)
    requires DirOk(d, TWO_LEVELS, {}) && c in d.tiles && !d.tiles[c].suspect
    ensures d.tiles[c].books == BooksOf(d.tiles[c].log, |d.tiles[c].log|) && d.horizon > NEVER
  {
    hide Average, Sound, Version, BooksOf, Marked, ClearOk, HistoryOk;
    assert TileOk(d.hist, d.horizon, 0, c, d.tiles[c]);
  }

  lemma IsCount(ct: CTile, times: seq<TimeMs>, n: nat, descT: TimeMs, cleanT: TimeMs)
    requires Is(ct, times, n, descT, cleanT)
    ensures |ct.log| == |times| == ct.books.count && !ct.suspect
  {
  }

  lemma PublishedIs(ct: CTile, times: seq<TimeMs>, n: nat, descT: TimeMs, cleanT: TimeMs)
    requires Is(ct, times, n, descT, cleanT)
    ensures Is(Published(ct), times, |times|, descT, cleanT) && ct.n == n && ct.books.count == |times|
  {
  }

  lemma BothMarked(d: Dir, cf: Config, z: Tile, t: TimeMs)
    requires DirOk(d, cf, {}) && cf.levels == 2 && z.k == 0 && d.hist.Keys == {z} && d.hist[z] != []
    requires t == d.hist[z][|d.hist[z]| - 1].t
    ensures var d' := MarkBoth(d, z, t);
            && DirOk(d', cf, {}) && Covered(d') && d'.hist == d.hist && d'.horizon == d.horizon
  {
    hide DirOk, MarkOne, Ancestor;
    MarkOneOk(d, cf, z, 1, t);
    var d1 := MarkOne(d, Ancestor(z, 1), t);
    MarkOneOk(d1, cf, z, 2, t);
    Unmarked(d, Ancestor(z, 1), t);
    Unmarked(d1, Ancestor(z, 2), t);
    SeenOk(MarkOne(d1, Ancestor(z, 2), t), cf, z, t);
  }

  lemma Unmarked(d: Dir, a: Tile, t: TimeMs)
    ensures var d' := MarkOne(d, a, t); d'.hist == d.hist && d'.horizon == d.horizon && d'.z0seen == d.z0seen
  {
  }

  /** A mark newer than all a tile knows: the tile as before, with its new change and dirty. */
  lemma MarkIs(d: Dir, a: Tile, t: TimeMs, times: seq<TimeMs>, n: nat, descT: TimeMs)
    requires if a in d.tiles then Is(d.tiles[a], times, n, descT, NEVER) else times == [] && n == 0 && descT == NEVER
    requires t > descT && t > NEVER && (times != [] ==> times[|times| - 1] < t)
    ensures var d' := MarkOne(d, a, t);
            && a in d'.tiles && d' == d.(tiles := d.tiles[a := d'.tiles[a]], dirty := d.dirty + {a})
            && Is(d'.tiles[a], times, n, t, NEVER)
  {
  }

  lemma BothAre(d: Dir, z: Tile, a: Tile, b: Tile, t: TimeMs, times: seq<TimeMs>, n: nat, descT: TimeMs)
    requires z.k == 0 && a == Ancestor(z, 1) && b == Ancestor(z, 2)
    requires t > descT && t > NEVER && (times != [] ==> times[|times| - 1] < t)
    requires if times == [] then d.tiles.Keys == {} && n == 0 && descT == NEVER
             else d.tiles.Keys == {a, b} && Is(d.tiles[a], times, n, descT, NEVER)
                  && Is(d.tiles[b], times, n, descT, NEVER)
    ensures var d' := MarkBoth(d, z, t);
            && d'.tiles.Keys == {a, b} && d'.dirty == d.dirty + {a, b}
            && Is(d'.tiles[a], times, n, t, NEVER) && Is(d'.tiles[b], times, n, t, NEVER)
  {
    hide MarkOne, Ancestor, Is;
    MarkIs(d, a, t, times, n, descT);
    MarkIs(MarkOne(d, a, t), b, t, times, n, descT);
  }

  lemma NothingOk(z: Tile, x: Image)
    requires z.k == 0
    ensures DirOk(Dir(First(z, x), 5, map[], {}, map[]), TWO_LEVELS, {})
  {
    assert InOrder([Stamp(5, x)]);
  }

  /** The children of a coarse tile that are not marked are current. */
  lemma KidsClean(d: Dir, c: Tile)
    requires DirOk(d, TWO_LEVELS, {}) && Covered(d) && 1 <= c.k <= 2
    requires c.k > 1 ==> forall i :: 0 <= i < 4 ==> Child(c, i) !in d.dirty
    ensures KidsCurrent(d, c)
  {
    hide DirOk, Covered, Current;
    if c.k > 1 {
      forall i | 0 <= i < 4 ensures Current(d.hist, d.horizon, d.tiles, Child(c, i)) {
        ClearCurrent(d, TWO_LEVELS, Child(c, i));
      }
    }
  }

  /** A build and commit change neither the history nor what was seen of it. */
  lemma StillCovered(d: Dir, d': Dir)
    requires Covered(d) && d'.hist == d.hist && d'.z0seen == d.z0seen
    ensures Covered(d')
  {
  }

  /** The z0 tile is committed at 5 and marked. */
  lemma FirstMarks(z: Tile, a: Tile, b: Tile, x: Image) returns (d: Dir)
    requires z.k == 0 && a == Ancestor(z, 1) && b == Ancestor(z, 2)
    ensures DirOk(d, TWO_LEVELS, {}) && Covered(d) && d.hist == First(z, x) && d.horizon == 5
    ensures d.tiles.Keys == {a, b} == d.dirty && Is(d.tiles[a], [], 0, 5, NEVER) && Is(d.tiles[b], [], 0, 5, NEVER)
  {
    hide DirOk, Covered, MarkBoth, Is, Ancestor;
    NothingOk(z, x);
    var d0 := Dir(First(z, x), 5, map[], {}, map[]);
    BothMarked(d0, TWO_LEVELS, z, 5);
    BothAre(d0, z, a, b, 5, [], 0, NEVER);
    d := MarkBoth(d0, z, 5);
  }

  /** Both tiles are built and published at 5. */
  lemma FirstVersions(z: Tile, a: Tile, b: Tile, x: Image) returns (d: Dir)
    requires z.k == 0 && a == Ancestor(z, 1) && b == Ancestor(z, 2)
    ensures DirOk(d, TWO_LEVELS, {}) && Covered(d) && d.hist == First(z, x) && d.horizon == 5 && d.dirty == {}
    ensures d.tiles.Keys == {a, b} && Is(d.tiles[a], [5], 1, 5, NEVER) && Is(d.tiles[b], [5], 1, 5, NEVER)
  {
    hide DirOk, Covered, BuildThen, KidsCurrent, Is, Average, Version, Ancestor;
    var d0 := FirstMarks(z, a, b, x);
    KidsClean(d0, a);
    BuildThenIs(d0, a, true, [], 0, 5, NEVER);
    var d1 := BuildThen(d0, a, true);
    StillCovered(d0, d1);
    KidsClean(d1, b);
    BuildThenIs(d1, b, true, [], 0, 5, NEVER);
    d := BuildThen(d1, b, true);
    StillCovered(d1, d);
    assert [] + [5] == [5];
  }

  lemma VersionIs(d: Dir, c: Tile, times: seq<TimeMs>, n: nat, descT: TimeMs, cleanT: TimeMs, v: nat)
    requires DirOk(d, TWO_LEVELS, {}) && c in d.tiles && Is(d.tiles[c], times, n, descT, cleanT) && 1 <= v <= |times|
    ensures v <= |d.tiles[c].log| && Version(d.tiles[c].log, v) == Average(d.hist, c, times[v - 1])
  {
    hide Average, Sound, Version, BooksOf, Marked, ClearOk, HistoryOk;
    assert TileOk(d.hist, d.horizon, 0, c, d.tiles[c]);
    assert Version(d.tiles[c].log, v - 1 + 1) == Average(d.hist, c, d.tiles[c].log[v - 1].t);
  }

  /** The change at 10 is committed and marked; the horizon is at 15. */
  lemma SecondMarks(z: Tile, a: Tile, b: Tile, x: Image, y: Image) returns (d: Dir)
    requires z.k == 0 && a == Ancestor(z, 1) && b == Ancestor(z, 2)
    ensures DirOk(d, TWO_LEVELS, {}) && Covered(d) && d.hist == Second(z, x, y) && d.horizon == 15
    ensures d.tiles.Keys == {a, b} == d.dirty && Is(d.tiles[a], [5], 1, 10, NEVER) && Is(d.tiles[b], [5], 1, 10, NEVER)
  {
    hide DirOk, Covered, MarkBoth, Is, Ancestor;
    var d0 := FirstVersions(z, a, b, x);
    CommitOk(d0, TWO_LEVELS, z, Stamp(10, y));
    assert d0.hist[z] + [Stamp(10, y)] == [Stamp(5, x), Stamp(10, y)];
    var d1 := d0.(hist := Second(z, x, y));
    assert d1.hist == d0.hist[z := d0.hist[z] + [Stamp(10, y)]];
    HorizonOk(d1, TWO_LEVELS, 15);
    var d2 := d1.(horizon := 15);
    BothMarked(d2, TWO_LEVELS, z, 10);
    BothAre(d2, z, a, b, 10, [5], 1, 5);
    d := MarkBoth(d2, z, 10);
  }

  lemma SameLater(z: Tile, x: Image, y: Image, c: Tile, t: TimeMs, t': TimeMs)
    requires 10 <= t && 10 <= t'
    ensures Average(Second(z, x, y), c, t) == Average(Second(z, x, y), c, t')
  {
    hide Average;
    forall s | Under(s, c) ensures Z0At(Second(z, x, y), s, t) == Z0At(Second(z, x, y), s, t') {
      if s == z { NewestSame(Second(z, x, y)[z], t, t'); }
    }
    AverageSame(Second(z, x, y), Second(z, x, y), c, t, t');
  }

  /** The tile above the spot is built at 15 and again at 16, and neither sync succeeds: its version of 15 waits, and
      nothing says that it is behind. */
  lemma ShadowedState(z: Tile, a: Tile, b: Tile, x: Image, y: Image) returns (d: Dir)
    requires z.k == 0 && a == Ancestor(z, 1) && b == Ancestor(z, 2)
    requires Average(Second(z, x, y), a, 5) != Average(Second(z, x, y), a, 15)
    ensures DirOk(d, TWO_LEVELS, {}) && ShadowedBelow(d, z, a, b, x, y)
  {
    hide DirOk, Covered, BuildThen, KidsCurrent, Is, Average, Version, Ancestor, Second;
    var d0 := SecondMarks(z, a, b, x, y);
    KidsClean(d0, a);
    VersionIs(d0, a, [5], 1, 10, NEVER, 1);
    BuildThenIs(d0, a, false, [5], 1, 10, NEVER);
    var d1 := BuildThen(d0, a, false);
    assert [5] + [15] == [5, 15];
    HorizonOk(d1, TWO_LEVELS, 16);
    var d2 := d1.(horizon := 16);
    StillCovered(d0, d2);
    KidsClean(d2, a);
    VersionIs(d2, a, [5, 15], 1, 10, NEVER, 2);
    SameLater(z, x, y, a, 15, 16);
    BuildThenIs(d2, a, false, [5, 15], 1, 10, NEVER);
    d := BuildThen(d2, a, false);
    StillCovered(d2, d);
  }

  ghost predicate ShadowedBelow(d: Dir, z: Tile, a: Tile, b: Tile, x: Image, y: Image) {
    && Covered(d) && d.hist == Second(z, x, y) && d.horizon == 16 && d.tiles.Keys == {a, b} == d.dirty
    && Is(d.tiles[a], [5, 15], 1, 10, 16) && Is(d.tiles[b], [5], 1, 10, NEVER)
  }

  /** A pyramid that comes into this state answers a reader of the tile two levels up, and caches what it answered. An
      update at 17 then syncs and publishes the version of 15. The tile above it is not due, so its change keeps its
      live sequence: the old image is served on, although nothing is shadowed any more, and it is not the newest
      content if the two versions, halved, look different. */
  method CachedTooLong(p: Pyramid, z: Tile, a: Tile, b: Tile, x: Image, y: Image, fates: Tile -> Fate,
                       syncs: Tile -> bool)
    returns (before: Image, after: Image)
    requires z.k == 0 && a == Ancestor(z, 1) && b == Ancestor(z, 2) && AllWell(fates, syncs)
    requires p.cf == TWO_LEVELS && p.Valid() && ShadowedBelow(p.D(), z, a, b, x, y) && p.builtT == 5
             && b !in p.Live()
    requires Halved(Average(p.hist, a, 5)) != Halved(Average(p.hist, a, 15))
    modifies p
    ensures p.Valid() && Counted(p.D()) && Covered(p.D()) && ClearBelow(p.D(), map[], b)
    ensures after == before && after != Average(p.hist, b, p.horizon)
  {
    hide DirOk, ConfigOk, CacheOk, Covered, Average, Version, Ancestor, Second, Halved, Latest, LatestKid, AllWell,
      Walk, ClearBelow, Filled, Is, Pending;
    CountedIs(p.D(), p.cf);
    Behind(p.tiles[b], [5], 1, 10, NEVER);
    HasSpot(z, x, y);
    LatestIs(p.D(), p.Live(), b);
    OldBelow(p.D(), p.Live(), z, a, b, x, y);
    before := p.ReadLatest(b);
    ghost var d := p.D();
    p.RaiseHorizon(17);
    StillCovered(d, p.D());
    UpdateLower(p, a, b, fates, syncs);
    LatestIs(p.D(), p.Live(), b);
    after := p.ReadLatest(b);
    SameLater(z, x, y, b, 16, 17);
  }

  /** The update at 17 takes the level of a, not that of b. */
  method UpdateLower(p: Pyramid, a: Tile, b: Tile, fates: Tile -> Fate, syncs: Tile -> bool)
    requires p.cf == TWO_LEVELS && p.Valid() && Covered(p.D()) && p.builtT == 5 && p.horizon == 17 && p.hist != map[]
    requires p.tiles.Keys == {a, b} && a.k == 1 && b.k == 2 && AllWell(fates, syncs)
    requires Is(p.tiles[a], [5, 15], 1, 10, 16) && Is(p.tiles[b], [5], 1, 10, NEVER)
    modifies p`tiles, p`dirty, p`z0seen, p`builtT, p`liveSeq, p`seqs
    ensures p.Valid() && Counted(p.D()) && Covered(p.D()) && p.seqs == old(p.seqs)
    ensures p.tiles.Keys == {a, b} && p.tiles[b] == old(p.tiles[b]) && Pending(p.tiles[b])
            && ClearBelow(p.D(), map[], b)
  {
    hide DirOk, ConfigOk, CacheOk, Covered, Final, Keeps, Advanced, LevelCurrent, AllWell, NothingDue, Due, UpTo;
    Schedule();
    ghost var d := p.D();
    ghost var done, marked;
    var ok;
    ok, done, marked := p.Update(false, fates, syncs);
    CountedIs(p.D(), p.cf);
    PublishedNow(d, p.D(), a, b, done);
  }

  lemma HasSpot(z: Tile, x: Image, y: Image)
    ensures Second(z, x, y) != map[]
  {
    assert z in Second(z, x, y);
  }

  lemma Behind(ct: CTile, times: seq<TimeMs>, n: nat, descT: TimeMs, cleanT: TimeMs)
    requires Is(ct, times, n, descT, cleanT) && 0 < n <= |times| && descT > Max(times[n - 1], cleanT)
    requires NEVER < descT
    ensures Pending(ct)
  {
  }

  lemma Schedule()
    ensures ConfigOk(TWO_LEVELS) && Before(5, 17) == 5
    ensures Due(TWO_LEVELS, 1, 5, 17, false) && !Due(TWO_LEVELS, 2, 5, 17, false)
  {
  }

  lemma WhichChild(z: Tile, a: Tile, b: Tile) returns (i: nat)
    requires z.k == 0 && a == Ancestor(z, 1) && b == Ancestor(z, 2)
    ensures i < 4 && b.k == 2 && Child(b, i) == a
  {
    assert b == Up(a) by { AncestorUp(z, 1); }
    i := a.x % 2 + 2 * (a.y % 2);
  }

  /** The tile above serves the old version of the shadowed one, which is not how it looks at 16. */
  lemma OldBelow(d: Dir, live: Live, z: Tile, a: Tile, b: Tile, x: Image, y: Image)
    requires z.k == 0 && a == Ancestor(z, 1) && b == Ancestor(z, 2)
    requires DirOk(d, TWO_LEVELS, {}) && Counted(d) && ShadowedBelow(d, z, a, b, x, y)
    requires Halved(Average(d.hist, a, 5)) != Halved(Average(d.hist, a, 15))
    ensures Walk(d, live, b) != Average(d.hist, b, 16)
  {
    hide DirOk, Covered, Average, Ancestor, Second, Halved, Parent, Version;
    var i := WhichChild(z, a, b);
    VersionIs(d, a, [5, 15], 1, 10, 16, 1);
    SameLater(z, x, y, a, 15, 16);
    LatestIs(d, live, a);
    assert !Pending(d.tiles[a]);
    assert Content(LatestKid(d, live, b, i)) == Average(d.hist, a, 5);
    AverageUnfold(d.hist, b, 16);
    var kids :=
      [LatestKid(d, live, b, 0), LatestKid(d, live, b, 1), LatestKid(d, live, b, 2), LatestKid(d, live, b, 3)];
    var avgs := [Some(Average(d.hist, Child(b, 0), 16)), Some(Average(d.hist, Child(b, 1), 16)),
                 Some(Average(d.hist, Child(b, 2), 16)), Some(Average(d.hist, Child(b, 3), 16))];
    ParentSame(kids, avgs);
    assert kids[i] == LatestKid(d, live, b, i) && avgs[i] == Some(Average(d.hist, a, 16));
  }

  function Content(im: Option<Image>): Image { Downsample.Content(im) }

  /** After the update the tile above the spot is published, and the one above it is as before. */
  lemma PublishedNow(d: Dir, d': Dir, a: Tile, b: Tile, done: set<Tile>)
    requires d.tiles.Keys == {a, b} && a.k == 1 && b.k == 2 && Counted(d') && Advanced(d, d', done)
    requires Is(d.tiles[a], [5, 15], 1, 10, 16) && Is(d.tiles[b], [5], 1, 10, NEVER) && d.horizon == 17
    requires a in done && b !in done && UpTo(d'.tiles[a], 17)
    ensures d'.tiles.Keys == {a, b} && d'.tiles[b] == d.tiles[b]
            && Pending(d'.tiles[b]) && ClearBelow(d', map[], b)
    ensures d'.hist == d.hist && d'.horizon == d.horizon && d'.z0seen == d.z0seen
  {
    assert !Shadowed(d'.tiles[a]);
    assert d'.tiles[a].descT == 10;
    forall i | 0 <= i < 4 ensures ClearBelow(d', map[], Child(b, i)) {
      if Child(b, i) in d'.tiles { assert Child(b, i) == a; }
    }
  }

  function Plain(v: Pixel): Image { seq(PIXELS, i => v) }

  lemma FourSame(v: Pixel)
    requires v == 0 || v == 0xFFFF
    ensures Average4(v, v, v, v) == v
  {
    hide Average4;
    assert v == 0xFFFF ==> Red(v) == 31 && Green(v) == 63 && Blue(v) == 31;
    FourOf(v);
  }

  lemma FourOf(v: Pixel)
    ensures Average4(v, v, v, v) == Red(v) * 2048 + Green(v) * 32 + Blue(v)
  {
    hide Red, Green, Blue;
    assert forall x: int :: Mean(x, x, x, x) == (4 * x + 2) / 4 == x;
  }

  lemma PlainBlock(im: Image, v: Pixel, r: int, c: int)
    requires 0 <= r < HALF && 0 <= c < HALF && (v == 0 || v == 0xFFFF)
    requires im[At(2 * r, 2 * c)] == im[At(2 * r, 2 * c) + 1] == v
             && im[At(2 * r + 1, 2 * c)] == im[At(2 * r + 1, 2 * c) + 1] == v
    ensures Block(im, r, c) == v
  {
    hide Average4;
    FourSame(v);
  }

  /** A plain tile in the first quadrant shows in the first pixel. */
  lemma PlainShows(hist: History, z: Tile, a: Tile, T: TimeMs, v: Pixel)
    requires a.k == 1 && z == Child(a, 0) && Content(Z0At(hist, z, T)) == Plain(v) && (v == 0 || v == 0xFFFF)
    ensures Halved(Average(hist, a, T))[0] == v
  {
    hide Average, Block, Parent, Z0At;
    AverageUnfold(hist, a, T);
    assert Average(hist, z, T) == Plain(v) by { AverageOfSpot(hist, z, T); }
    var kids := [Some(Average(hist, Child(a, 0), T)), Some(Average(hist, Child(a, 1), T)),
                 Some(Average(hist, Child(a, 2), T)), Some(Average(hist, Child(a, 3), T))];
    forall r, c | 0 <= r < 2 && 0 <= c < 2
      ensures Parent(kids)[At(r, c)] == v
    {
      QuadrantPixel(kids, 0, r, c);
      PlainBlock(Plain(v), v, r, c);
    }
    assert At(0, 1) == At(0, 0) + 1 && At(1, 1) == At(1, 0) + 1;
    PlainBlock(Parent(kids), v, 0, 0);
    HalvedAt(Average(hist, a, T), 0, 0);
  }

  lemma AverageOfSpot(hist: History, z: Tile, T: TimeMs)
    requires z.k == 0
    ensures Average(hist, z, T) == Content(Z0At(hist, z, T))
  {
  }

  /** An uncharted tile that turns white: the state exists, and its two versions look different. */
  lemma WhiteSpot(z: Tile, a: Tile, b: Tile) returns (d: Dir)
    requires z.k == 0 && a == Ancestor(z, 1) && b == Ancestor(z, 2) && z == Child(a, 0)
    ensures DirOk(d, TWO_LEVELS, {}) && ShadowedBelow(d, z, a, b, Plain(0), Plain(0xFFFF))
    ensures Halved(Average(d.hist, a, 5)) != Halved(Average(d.hist, a, 15))
  {
    hide DirOk, Average, Plain, Ancestor, Halved, ShadowedBelow;
    var x, y := Plain(0), Plain(0xFFFF);
    SpotAt(z, x, y);
    PlainShows(Second(z, x, y), z, a, 5, 0);
    PlainShows(Second(z, x, y), z, a, 15, 0xFFFF);
    d := ShadowedState(z, a, b, x, y);
    HistOf(d, z, a, b, x, y);
  }

  lemma HistOf(d: Dir, z: Tile, a: Tile, b: Tile, x: Image, y: Image)
    requires ShadowedBelow(d, z, a, b, x, y)
    ensures d.hist == Second(z, x, y)
  {
  }

  lemma SpotAt(z: Tile, x: Image, y: Image)
    ensures Content(Z0At(Second(z, x, y), z, 5)) == x && Content(Z0At(Second(z, x, y), z, 15)) == y
  {
    var h := [Stamp(5, x), Stamp(10, y)];
    assert h[..1] == [Stamp(5, x)];
    assert Newest(h, 15) == Some(y) && Newest(h, 5) == Newest([Stamp(5, x)], 5) == Some(x);
  }
}
