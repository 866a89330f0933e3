/** What a client reaches from the objects a publisher stored: every version a final timeline names, and the one at
    its day's end, over any number of rounds. */
module PublishReach {
  import opened Common
  import opened Timelines
  import opened PublishPlan

  ghost predicate ReachSpan(have: set<Key>, ds: int, z: int, xy: Xy, s: Span) {
    forall v: nat :: s.lo <= v <= s.hi ==> Reach(have, ds, z, xy, v)
  }

  lemma ReachSpanMore(have: set<Key>, more: set<Key>, ds: int, z: int, xy: Xy, s: Span)
    requires ReachSpan(have, ds, z, xy, s) && have <= more
    ensures ReachSpan(more, ds, z, xy, s)
  {
    hide Reach;
    forall v: nat | s.lo <= v <= s.hi ensures Reach(more, ds, z, xy, v) { ReachMore(have, more, ds, z, xy, v); }
  }

  /** The last version of a z0 tile's day that must be served is the one at the day's end, whence the next day goes on
      by deltas. Every coarse version is a full tile, and there it is the last one named. */
  function LastServed(times: Times, z: int, day: int): nat {
    if z == 0 then Upto(times, day) else LastNamed(times, day)
  }

  /** Per tile of a day the versions from the one at its start to the last one that must be served. */
  function EndsOf(src: Source, k: Key): map<Xy, Span>
    requires k.Timeline?
  {
    if Level(k.ds, k.z) !in src.tiles then map[]
    else
      var tiles := src.tiles[Level(k.ds, k.z)];
      map xy | xy in tiles && Listed(tiles[xy], k.day) :: Span(From(tiles[xy], k.day),
          LastServed(tiles[xy], k.z, k.day))
  }

  /** The objects serve these versions of the timeline's tiles. */
  ghost predicate Serves(have: set<Key>, k: Key, ends: map<Xy, Span>)
    requires k.Timeline?
  {
    forall xy <- ends :: ReachSpan(have, k.ds, k.z, xy, ends[xy])
  }

  lemma ServesMore(have: set<Key>, more: set<Key>, k: Key, ends: map<Xy, Span>)
    requires k.Timeline? && Serves(have, k, ends) && have <= more
    ensures Serves(more, k, ends)
  {
    hide ReachSpan;
    forall xy <- ends ensures ReachSpan(more, k.ds, k.z, xy, ends[xy]) {
      ReachSpanMore(have, more, k.ds, k.z, xy, ends[xy]);
    }
  }

  /** What a final timeline names is served. */
  lemma NamedServed(src: Source, have: set<Key>, k: Key, xy: Xy, v: nat)
    requires SourceOk(src) && InCatalog(src, k) && k.Timeline? && Serves(have, k, EndsOf(src, k))
    requires DayOf(src, k).Found? && xy in DayOf(src, k).value.tiles && Names(DayOf(src, k).value.tiles[xy], v)
    ensures Reach(have, k.ds, k.z, xy, v)
  {
    hide Reach, Names;
    var times := src.tiles[Level(k.ds, k.z)][xy];
    var _ := LevelTimes(src, k, xy);
    NamesAre(times, k.day, v);
    CountGrows(times, End(k.day) - 1, End(k.day));
    assert ReachSpan(have, k.ds, k.z, xy, EndsOf(src, k)[xy]);
  }

  /** The datastore of an index, and what is known of a tile's times. */
  lemma LevelTimes(src: Source, k: Key, xy: Xy) returns (d: Datastore)
    requires SourceOk(src) && k.Timeline? && InCatalog(src, k) && Level(k.ds, k.z) in src.tiles
             && xy in src.tiles[Level(k.ds, k.z)]
    ensures d in src.datastores && d.id == k.ds && k.z in d.levels && k.day in DaysOf(src, d) && k.z <= 0 && d.last != 0
    ensures Increasing(src.tiles[Level(k.ds, k.z)][xy])
    ensures k.z == 0 ==>
              Covers(src.tiles[Level(k.ds, k.z)][xy], DayOfTime(d.first), DayOfTime(d.last + d.window))
    ensures DayOfTime(d.first) <= DayOfTime(d.last + d.window)
  {
    d :| d in src.datastores && d.id == k.ds && k.z in d.levels && k.day in DaysOf(src, d);
    assert DatastoreOk(src, d);
  }

  /** Every day of the level that is held is served, and those that are not were answered. */
  ghost predicate LevelServed(src: Source, held: set<Key>, base: set<Key>, ds: int, z: int, days: seq<int>) {
    forall p <- days :: var k := Timeline(ds, z, p);
      if k in held then Serves(base, k, EndsOf(src, k)) else !DayOf(src, k).Failed?
  }

  /** The first version of a z0 tile's span is exported in full, or was reached before: the day before the first one
      read ended with it, and is held. */
  lemma {:induction false} StartReached(src: Source, held: set<Key>, base: set<Key>, d: Datastore, z: int, day: int,
                                        xy: Xy, s: Span)
    requires SourceOk(src) && d in src.datastores && z == 0 && z in d.levels && day in DaysOf(src, d)
    requires LevelServed(src, held, base, d.id, z, DaysOf(src, d)) && SpanOf(src, held, DaysOf(src, d), d.id, z, xy, s)
    requires Unread(src, held, d.id, z, day, xy) && EntryOf(src, d.id, z, day, xy).v0 == s.lo
    ensures s.lo <= 1 || Reach(base, d.id, z, xy, s.lo)
    decreases day - DayOfTime(d.first)
  {
    hide Reach, DaysListed, Within;
    var k := Timeline(d.id, z, day);
    var times := src.tiles[Level(d.id, z)][xy];
    var d' := LevelTimes(src, k, xy);
    NamesAre(times, day, 0);
    if s.lo > 1 {
      var p := DayBefore(times, DayOfTime(d.first), DayOfTime(d.last + d.window), src.today, day);
      CountGrows(times, Start(p), End(p));
      if Timeline(d.id, z, p) in held {
        assert EndsOf(src, Timeline(d.id, z, p))[xy] == Span(From(times, p), Upto(times, p));
        assert ReachSpan(base, d.id, z, xy, Span(From(times, p), Upto(times, p)));
      } else {
        assert !DayOf(src, Timeline(d.id, z, p)).Failed?;
        assert Unread(src, held, d.id, z, p, xy);
        NamesAre(times, p, 0);
        WithinLo(s, EntryOf(src, d.id, z, p, xy));
        StartReached(src, held, base, d, z, p, xy, s);
      }
    }
  }

  lemma WithinLo(s: Span, t: TileDay)
    requires Within(s, t)
    ensures s.lo <= t.v0 <= s.hi
  {
  }

  /** A round that reads a day plans whatever its versions, at z0 up to the one at its end, need besides what served
      the days held. */
  lemma PlannedReach(src: Source, held: set<Key>, base: set<Key>, every: nat, items: seq<Item>, k: Key, xy: Xy, v: nat)
    requires every > 0 && SourceOk(src) && AllPlanned(src, held, every, items, {})
    requires forall x :: InCatalog(src, x) ==> Covered(src, held, items, x)
    requires forall x <- held :: x.Timeline? && InCatalog(src, x) ==> Serves(base, x, EndsOf(src, x))
    requires k.Timeline? && k in Keys(items) && k !in held && xy in EndsOf(src, k)
    requires EndsOf(src, k)[xy].lo <= v <= EndsOf(src, k)[xy].hi
    ensures Reach(base + DataKeys(items), k.ds, k.z, xy, v)
  {
    hide Reach, TilePlanned, DaysOf, DataKeys, Keys, Covered;
    var s, d := TileSpan(src, held, DataKeys(items), every, items, k, xy);
    if k.z < 0 {
      CoarsePlanned(src, base, DataKeys(items), every, k, xy, s, v);
      return;
    }
    ZeroLevel(src, d, k.z);
    CatalogLevel(src, held, base, items, d, k.z);
    var e :| e in DaysOf(src, d) && Unread(src, held, k.ds, k.z, e, xy) && EntryOf(src, k.ds, k.z, e, xy).v0 == s.lo;
    StartReached(src, held, base, d, k.z, e, xy, s);
    SpanReached(src, held, base, every, items, d, k, xy, s, v);
  }

  lemma ZeroLevel(src: Source, d: Datastore, z: int)
    requires SourceOk(src) && d in src.datastores && z in d.levels
    ensures z <= 0
  {
    assert DatastoreOk(src, d);
  }

  /** A coarse version the day names is in the tile's span, and every version there is planned as a full tile. */
  lemma CoarsePlanned(src: Source, base: set<Key>, keys: set<Key>, every: nat, k: Key, xy: Xy, s: Span, v: nat)
    requires every > 0 && SourceOk(src) && InCatalog(src, k) && k.Timeline? && k.z < 0 && xy in EndsOf(src, k)
    requires DayOf(src, k).Found? && xy in DayOf(src, k).value.tiles && Within(s, DayOf(src, k).value.tiles[xy])
    requires TilePlanned(keys, every, k.ds, k.z, xy, s) && EndsOf(src, k)[xy].lo <= v <= EndsOf(src, k)[xy].hi
    ensures Reach(base + keys, k.ds, k.z, xy, v)
  {
    hide Names;
    var times := src.tiles[Level(k.ds, k.z)][xy];
    var _ := LevelTimes(src, k, xy);
    NamesAre(times, k.day, v);
    assert Names(TileAt(times, k.day), v) ==> v <= s.hi by { NamedWithin(s, TileAt(times, k.day), v); }
    assert FullVersion(every, k.z, v, s.hi);
  }

  lemma NamedWithin(s: Span, t: TileDay, v: nat)
    requires Within(s, t) && Names(t, v)
    ensures v <= s.hi
  {
  }

  lemma TileSpan(src: Source, held: set<Key>, keys: set<Key>, every: nat, items: seq<Item>, k: Key,
                 xy: Xy) returns (s: Span, d: Datastore)
    requires every > 0 && k.Timeline? && AllPlanned(src, held, every, items, {}) && keys == DataKeys(items)
    requires k in Keys(items) && xy in EndsOf(src, k)
    ensures d in src.datastores && d.id == k.ds && k.z in d.levels && k.day in DaysOf(src, d) && DayOf(src, k).Found?
            && xy in DayOf(src, k).value.tiles
    ensures SpanOf(src, held, DaysOf(src, d), k.ds, k.z, xy, s) && TilePlanned(keys, every, k.ds, k.z, xy, s)
    ensures Within(s, DayOf(src, k).value.tiles[xy])
  {
    hide SpanOf, TilePlanned, DaysOf, Within, DataKeys, Keys;
    assert IndexPlanned(src, held, keys, every, k);
    var t := DayOf(src, k).value.tiles[xy];
    assert TileSpanned(src, held, keys, every, k, xy, t);
    s, d :| d in src.datastores && d.id == k.ds && k.z in d.levels && k.day in DaysOf(src, d)
      && SpanOf(src, held, DaysOf(src, d), k.ds, k.z, xy, s) && TilePlanned(keys, every, k.ds, k.z, xy, s)
          && Within(s, t);
  }

  lemma CatalogLevel(src: Source, held: set<Key>, base: set<Key>, items: seq<Item>, d: Datastore, z: int)
    requires d in src.datastores && z in d.levels && forall x :: InCatalog(src, x) ==> Covered(src, held, items, x)
    requires forall x <- held :: x.Timeline? && InCatalog(src, x) ==> Serves(base, x, EndsOf(src, x))
    ensures LevelServed(src, held, base, d.id, z, DaysOf(src, d))
  {
    hide DaysOf, Serves, EndsOf, DayOf, Keys;
    forall p <- DaysOf(src, d)
      ensures var k := Timeline(d.id, z, p); if k in held then Serves(base, k, EndsOf(src, k))
                else !DayOf(src, k).Failed?
    {
      assert InCatalog(src, Timeline(d.id, z, p));
    }
  }

  /** From the span's first version on every version is reached; the one at the day's end is in the span, or starts
      a day that is held. */
  lemma SpanReached(src: Source, held: set<Key>, base: set<Key>, every: nat, items: seq<Item>, d: Datastore, k: Key,
                    xy: Xy, s: Span, v: nat)
    requires every > 0 && SourceOk(src) && k.Timeline? && d in src.datastores && d.id == k.ds && k.z == 0
             && k.z in d.levels && k.day in DaysOf(src, d)
    requires LevelServed(src, held, base, d.id, k.z, DaysOf(src, d))
             && SpanOf(src, held, DaysOf(src, d), d.id, k.z, xy, s)
    requires TilePlanned(DataKeys(items), every, k.ds, k.z, xy, s) && (s.lo <= 1 || Reach(base, k.ds, k.z, xy, s.lo))
    requires k !in held && DayOf(src, k).Found? && xy in DayOf(src, k).value.tiles && xy in EndsOf(src, k)
    requires EndsOf(src, k)[xy].lo <= v <= EndsOf(src, k)[xy].hi
    ensures Reach(base + DataKeys(items), k.ds, k.z, xy, v)
  {
    hide Reach, TilePlanned, DataKeys, DaysListed;
    var have := base + DataKeys(items);
    var times := src.tiles[Level(k.ds, k.z)][xy];
    var d' := LevelTimes(src, k, xy);
    assert k == Timeline(k.ds, k.z, k.day) && Unread(src, held, k.ds, k.z, k.day, xy);
    NamesAre(times, k.day, v);
    NamesAre(times, k.day, LastNamed(times, k.day));
    if s.lo > 1 { ReachMore(base, have, k.ds, k.z, xy, s.lo); }
    TileMore(DataKeys(items), have, every, k.ds, k.z, xy, s);
    if v <= s.hi {
      ReachAll(have, every, k.ds, k.z, xy, s, v);
    } else {
      CountGrows(times, Start(k.day), End(k.day) - 1);
      EndStartsNext(src, held, base, d, k, xy, s, times);
      ReachMore(base, have, k.ds, k.z, xy, v);
    }
  }

  lemma EndStartsNext(src: Source, held: set<Key>, base: set<Key>, d: Datastore, k: Key, xy: Xy, s: Span, times: Times)
    requires SourceOk(src) && k.Timeline? && k.z == 0 && d in src.datastores && d.id == k.ds && k.z in d.levels
             && k.day in DaysOf(src, d) && d.last != 0
    requires Level(k.ds, k.z) in src.tiles && xy in src.tiles[Level(k.ds, k.z)]
             && times == src.tiles[Level(k.ds, k.z)][xy] && Level(k.ds, k.z) in src.bounds
    requires Increasing(times) && Covers(times, DayOfTime(d.first), DayOfTime(d.last + d.window))
             && Listed(times, k.day)
    requires LevelServed(src, held, base, d.id, k.z, DaysOf(src, d))
             && SpanOf(src, held, DaysOf(src, d), d.id, k.z, xy, s)
    requires LastNamed(times, k.day) != Upto(times, k.day)
    ensures Upto(times, k.day) <= LastNamed(times, k.day) + 1
    ensures Upto(times, k.day) <= s.hi || Reach(base, k.ds, k.z, xy, Upto(times, k.day))
  {
    hide Reach, DaysListed;
    OneMore(times, End(k.day));
    DayAfter(times, DayOfTime(d.first), DayOfTime(d.last + d.window), src.today, k.day);
    var next := Timeline(k.ds, k.z, k.day + 1);
    CountGrows(times, Start(k.day + 1), End(k.day + 1));
    if next in held {
      assert EndsOf(src, next)[xy] == Span(From(times, k.day + 1), Upto(times, k.day + 1));
      assert ReachSpan(base, k.ds, k.z, xy, EndsOf(src, next)[xy]);
    } else {
      assert !DayOf(src, next).Failed?;
      NamesAre(times, k.day + 1, 0);
      assert Unread(src, held, k.ds, k.z, k.day + 1, xy);
      assert Within(s, EntryOf(src, k.ds, k.z, k.day + 1, xy));
    }
  }

  // --- what an index needs ---

  /** The newest version at or below v with a full tile. */
  function FullBelow(have: set<Key>, ds: int, z: int, xy: Xy, v: nat): (b: nat)
    ensures b <= v
  {
    if v == 0 || Tile(ds, z, xy.x, xy.y, v) in have then v else FullBelow(have, ds, z, xy, v - 1)
  }

  /** The object is a tile or a delta of one of the versions, or of the chain below the first. */
  predicate Wanted(have: set<Key>, k: Key, ends: map<Xy, Span>, x: Key)
    requires k.Timeline?
  {
    match x
    case Tile(ds, z, tx, ty, v) => ds == k.ds && z == k.z && Xy(tx, ty) in ends
        && FullBelow(have, ds, z, Xy(tx, ty), ends[Xy(tx, ty)].lo) <= v <= ends[Xy(tx, ty)].hi
    case Delta(ds, tx, ty, v) => ds == k.ds && k.z == 0 && Xy(tx, ty) in ends
        && FullBelow(have, ds, 0, Xy(tx, ty), ends[Xy(tx, ty)].lo) <= v < ends[Xy(tx, ty)].hi
    case _ => false
  }

  /** The windows and keyframes a day index names. */
  function FilesOf(src: Source, k: Key): set<Key>
    requires k.DayIndex?
  {
    if !MoversOf(src, k).Found? then {}
    else
      var m := MoversOf(src, k).value;
      (set t | t in m.windows :: Window(k.surface, t)) + (set t | t in m.keyframes :: Keyframe(k.surface, t))
  }

  /** What a final index stands for: versions of tiles, or files of movers. */
  datatype Named = Versions(ends: map<Xy, Span>) | Files(keys: set<Key>)

  function NamedOf(src: Source, k: Key): Named
    requires IsIndex(k)
  {
    if k.Timeline? then Versions(EndsOf(src, k)) else Files(FilesOf(src, k))
  }

  /** A client gets all of it from the objects. */
  ghost predicate Provides(have: set<Key>, k: Key, n: Named) {
    match n
    case Versions(ends) => k.Timeline? && Serves(have, k, ends)
    case Files(keys) => k.DayIndex? && keys <= have
  }

  lemma ProvidesMore(have: set<Key>, more: set<Key>, k: Key, n: Named)
    requires Provides(have, k, n) && have <= more
    ensures Provides(more, k, n)
  {
    hide Serves;
    if n.Versions? { ServesMore(have, more, k, n.ends); }
  }

  /** What a final index needs: of what is held or planned, the objects a client reads for it. */
  function NeedsOf(src: Source, have: set<Key>, k: Key): (n: set<Key>)
    ensures n <= have
  {
    if k.Timeline? then set x | x in have && Wanted(have, k, EndsOf(src, k), x)
    else if k.DayIndex? then have * FilesOf(src, k)
    else {}
  }

  /** A day index names its windows and keyframes. */
  lemma FilesAre(src: Source, k: Key, x: Key)
    requires k.DayIndex?
    ensures x in NamedOf(src, k).keys <==>
            && k in src.indexes && src.indexes[k].Found?
            && ((x.Window? && x.surface == k.surface && x.t in src.indexes[k].value.windows)
                || (x.Keyframe? && x.surface == k.surface && x.t in src.indexes[k].value.keyframes))
  {
  }

  /** Of each tile that has a version before the day's end a timeline stands for those from the one at the day's start:
      at z0 to the one at its end, of a coarse tile to the last one before it. */
  lemma EndsAre(src: Source, k: Key, xy: Xy)
    requires k.Timeline? && Level(k.ds, k.z) in src.tiles && xy in src.tiles[Level(k.ds, k.z)]
    requires Increasing(src.tiles[Level(k.ds, k.z)][xy])
    ensures var times, ends := src.tiles[Level(k.ds, k.z)][xy], NamedOf(src, k).ends;
            var start, end := k.day * 86_400_000, (k.day + 1) * 86_400_000;
            && (xy in ends <==> times != [] && times[0] < end)
            && (xy in ends ==> forall i: nat :: i < |times| ==>
                  && (times[i] <= start <==> i < ends[xy].lo)
                  && (times[i] < (if k.z == 0 then end + 1 else end) <==> i < ends[xy].hi))
  {
    var times := src.tiles[Level(k.ds, k.z)][xy];
    CountIs(times, Start(k.day));
    CountIs(times, End(k.day));
    CountIs(times, End(k.day) - 1);
  }

  lemma {:induction false} NoneFull(have: set<Key>, ds: int, z: int, xy: Xy, v: nat, u: nat)
    requires FullBelow(have, ds, z, xy, v) < u <= v
    ensures Tile(ds, z, xy.x, xy.y, u) !in have
  {
    if u < v { NoneFull(have, ds, z, xy, v - 1, u); }
  }

  /** What a final index needs is there, and is one of the files it names, or a full tile or delta of a version it
      stands for, or of one below the first that no full tile above it makes needless. */
  lemma NeedsAre(src: Source, have: set<Key>, k: Key, x: Key)
    requires x in NeedsOf(src, have, k)
    ensures x in have && (k.DayIndex? || k.Timeline?)
    ensures k.DayIndex? ==> x in NamedOf(src, k).keys
    ensures k.Timeline? ==>
              && ((x.Tile? && x.z == k.z) || (x.Delta? && k.z == 0)) && x.ds == k.ds
              && Xy(x.x, x.y) in NamedOf(src, k).ends
              && var s := NamedOf(src, k).ends[Xy(x.x, x.y)];
                 (if x.Tile? then x.v else x.v + 1) <= s.hi
                 && forall u: nat :: x.v < u <= s.lo ==> Tile(k.ds, k.z, x.x, x.y, u) !in have
  {
    hide EndsOf;
    if k.Timeline? {
      var xy := Xy(x.x, x.y);
      var s := EndsOf(src, k)[xy];
      forall u: nat | x.v < u <= s.lo ensures Tile(k.ds, k.z, x.x, x.y, u) !in have {
        NoneFull(have, k.ds, k.z, xy, s.lo, u);
      }
    }
  }

  /** A day index that is planned has all its files planned. */
  lemma FilesPlanned(src: Source, held: set<Key>, keys: set<Key>, every: nat, k: Key)
    requires every > 0 && k.DayIndex? && IndexPlanned(src, held, keys, every, k)
    ensures FilesOf(src, k) <= keys
  {
    var m := MoversOf(src, k).value;
    forall x | x in FilesOf(src, k) ensures x in keys {
      if x.Window? {
        var i: nat :| i < |m.windows| && m.windows[i] == x.t;
      } else {
        var i: nat :| i < |m.keyframes| && m.keyframes[i] == x.t;
      }
    }
  }

  /** It serves the timeline as well as everything does. */
  lemma NeedsServe(src: Source, have: set<Key>, k: Key)
    requires k.Timeline? && Serves(have, k, EndsOf(src, k))
    ensures Serves(NeedsOf(src, have, k), k, EndsOf(src, k))
  {
    hide Reach, FullBelow;
    var ends := EndsOf(src, k);
    forall xy <- ends, v: nat | ends[xy].lo <= v <= ends[xy].hi
      ensures Reach(NeedsOf(src, have, k), k.ds, k.z, xy, v)
    {
      var b := FullBelow(have, k.ds, k.z, xy, ends[xy].lo);
      assert xy == Xy(xy.x, xy.y);
      assert ReachSpan(have, k.ds, k.z, xy, ends[xy]);
      ChainKept(have, NeedsOf(src, have, k), k.ds, k.z, xy, ends[xy], v);
    }
  }

  /** A chain stays among the versions from the newest full one below its start. */
  lemma {:induction false} ChainKept(have: set<Key>, n: set<Key>, ds: int, z: int, xy: Xy, s: Span, v: nat)
    requires Reach(have, ds, z, xy, v) && FullBelow(have, ds, z, xy, s.lo) <= v <= s.hi
    requires forall u: nat :: FullBelow(have, ds, z, xy, s.lo) <= u <= s.hi && Tile(ds, z, xy.x, xy.y, u) in have ==>
               Tile(ds, z, xy.x, xy.y, u) in n
    requires z == 0 ==> forall u: nat ::
               FullBelow(have, ds, z, xy, s.lo) <= u < s.hi && Delta(ds, xy.x, xy.y, u) in have ==>
                 Delta(ds, xy.x, xy.y, u) in n
    ensures Reach(n, ds, z, xy, v)
    decreases v
  {
    if Tile(ds, z, xy.x, xy.y, v) !in have {
      FullIs(have, ds, z, xy, s.lo);
      ChainKept(have, n, ds, z, xy, s, v - 1);
    }
  }

  lemma {:induction false} FullIs(have: set<Key>, ds: int, z: int, xy: Xy, v: nat)
    ensures var b := FullBelow(have, ds, z, xy, v); b == 0 || Tile(ds, z, xy.x, xy.y, b) in have
    decreases v
  {
    if v > 0 && Tile(ds, z, xy.x, xy.y, v) !in have { FullIs(have, ds, z, xy, v - 1); }
  }

  // --- over rounds ---

  /** What is final in a timeline the source answers the same in every later round. */
  ghost predicate SameFinals(src: Source, finals: map<Key, Named>) {
    forall k <- finals :: k.Timeline? && InCatalog(src, k) ==> finals[k] == Versions(EndsOf(src, k))
  }

  /** New versions of a level come from this time on: a z0 window that ends at the bound is closed, while a coarse
      build may still be at it. */
  function NewFrom(z: int, bound: TimeMs): TimeMs { if z == 0 then bound + 1 else bound }

  /** The source some time later: more versions, all effective after what was final, and what is final grows. */
  ghost predicate LaterSource(src: Source, src': Source) {
    forall l <- src.tiles :: l in src.bounds ==>
      && l in src'.tiles && l in src'.bounds && src.bounds[l] <= src'.bounds[l]
      && (forall xy <- src.tiles[l] ::
            xy in src'.tiles[l] && Later(src.tiles[l][xy], src'.tiles[l][xy], NewFrom(l.z, src.bounds[l])))
      && (forall xy <- src'.tiles[l] :: xy !in src.tiles[l] ==>
            forall t <- src'.tiles[l][xy] :: t >= NewFrom(l.z, src.bounds[l]))
  }

  /** A final timeline's versions are the same from then on. */
  lemma FinalEnds(src: Source, src': Source, k: Key)
    requires k.Timeline? && DayOf(src, k).Found? && DayOf(src, k).value.final && LaterSource(src, src')
    ensures EndsOf(src', k) == EndsOf(src, k)
  {
    hide From, Upto, LastNamed;
    var l := Level(k.ds, k.z);
    forall xy | xy in src'.tiles[l]
      ensures xy in EndsOf(src', k) <==> xy in EndsOf(src, k)
      ensures xy in EndsOf(src, k) ==> EndsOf(src', k)[xy] == EndsOf(src, k)[xy]
    {
      var times' := src'.tiles[l][xy];
      if xy in src.tiles[l] {
        FinalStays(src.tiles[l][xy], times', NewFrom(k.z, src.bounds[l]), k.day);
      } else if times' != [] {
        assert times'[0] in times';
      }
    }
  }
}
