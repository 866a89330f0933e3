/** What a publishing round stores: the timelines and day indexes read, and the tile versions, deltas, windows and
    keyframes they name. */
module PublishPlan {
  import opened Common
  import opened Timelines

  /** An object of the export. Assets never change once stored; pages may. */
  datatype Key =
    | Tile(ds: int, z: int, x: int, y: int, v: nat)
    | Delta(ds: int, x: int, y: int, v: nat)
    | Timeline(ds: int, z: int, day: int)
    | Window(surface: int, t: TimeMs)
    | Keyframe(surface: int, t: TimeMs)
    | DayIndex(surface: int, day: int)
    | Palette(ds: int, version: nat)
    | Asset(name: string)
    | Page(name: string)

  predicate IsIndex(k: Key) { k.Timeline? || k.DayIndex? }

  predicate IsData(k: Key) { !IsIndex(k) && !k.Page? }

  const PHASE_DATA := 0
  const PHASE_INDEXES := 1
  const PHASE_MUTABLE := 2
  const PHASES := 5

  datatype Item = Item(key: Key, immut: bool, phase: nat, skipEmpty: bool)

  function DataItem(k: Key): Item { Item(k, true, PHASE_DATA, false) }

  function IndexItem(k: Key, final: bool): Item {
    Item(k, final, if final then PHASE_INDEXES else PHASE_MUTABLE, false)
  }

  /** Immutable data comes first, final indexes next, and what may change after them. */
  predicate ItemOk(it: Item) {
    && it.phase < PHASES && it.immut == (it.phase <= PHASE_INDEXES)
    && (it.phase == PHASE_DATA <==> IsData(it.key)) && (it.phase == PHASE_INDEXES ==> IsIndex(it.key))
    && (it.skipEmpty ==> !it.immut)
  }

  /** A round's items: no final index the state holds is planned again, and no index is planned both ways. */
  ghost predicate ItemsOk(items: seq<Item>, held: set<Key>) {
    && (forall i: nat :: i < |items| ==> ItemOk(items[i]) && (IsIndex(items[i].key) ==> items[i].key !in held))
    && (forall i: nat, j: nat :: i < |items| && j < |items| && items[i].key == items[j].key ==>
        items[i].immut == items[j].immut)
  }

  function DataKeys(items: seq<Item>): set<Key> {
    set i: nat | i < |items| && items[i].phase == PHASE_DATA :: items[i].key
  }

  function Keys(items: seq<Item>): set<Key> { set i: nat | i < |items| :: items[i].key }

  function IndexKeys(items: seq<Item>): set<Key> {
    set i: nat | i < |items| && items[i].phase == PHASE_INDEXES :: items[i].key
  }

  // --- what is read ---

  datatype Movers = Movers(final: bool, windows: seq<TimeMs>, keyframes: seq<TimeMs>)

  datatype Read<T> = Found(value: T) | NotFound | Failed

  /** The versions of a tile a round enumerates. */
  datatype Span = Span(lo: nat, hi: nat)

  function MaxOf(points: seq<nat>, m: nat): (r: nat)
    ensures r >= m && forall i: nat :: i < |points| ==> points[i] <= r
  {
    if points == [] then m else
      var p := MaxOf(points[..|points| - 1], m);
      if points[|points| - 1] > p then points[|points| - 1] else p
  }

  predicate Within(s: Span, t: TileDay) {
    s.lo <= t.v0 <= s.hi && forall i: nat :: i < |t.points| ==> t.points[i] <= s.hi
  }

  function Widen(vers: map<Xy, Span>, xy: Xy, t: TileDay): (s: Span)
    ensures Within(s, t) && (s.lo == t.v0 || (xy in vers && s.lo == vers[xy].lo))
    ensures (xy in vers ==> s.lo <= vers[xy].lo && vers[xy].hi <= s.hi)
  {
    var s := if xy in vers then vers[xy] else Span(t.v0, t.v0);
    Span(if t.v0 < s.lo then t.v0 else s.lo, MaxOf(t.points, if t.v0 > s.hi then t.v0 else s.hi))
  }

  /** Every tile of the day has its versions in the spans. */
  ghost predicate Spanned(vers: map<Xy, Span>, d: Day) {
    forall xy <- d.tiles :: xy in vers && Within(vers[xy], d.tiles[xy])
  }

  /** Spans only widen. */
  ghost predicate Wider(a: map<Xy, Span>, b: map<Xy, Span>) {
    forall xy <- a :: xy in b && b[xy].lo <= a[xy].lo && a[xy].hi <= b[xy].hi
  }

  method AddDay(vers0: map<Xy, Span>, d: Day) returns (vers: map<Xy, Span>)
    ensures Wider(vers0, vers) && Spanned(vers, d)
    ensures forall xy <- vers ::
            (xy in vers0 && vers[xy].lo == vers0[xy].lo)
            || (xy in d.tiles && d.tiles[xy].v0 == vers[xy].lo)
  {
    vers := vers0;
    var rest := d.tiles.Keys;
    while rest != {}
      invariant rest <= d.tiles.Keys && Wider(vers0, vers)
      invariant forall xy <- d.tiles :: xy in rest || (xy in vers && Within(vers[xy], d.tiles[xy]))
      invariant forall xy <- vers ::
                (xy in vers0 && vers[xy].lo == vers0[xy].lo)
                || (xy in d.tiles && d.tiles[xy].v0 == vers[xy].lo)
      decreases rest
    {
      var xy :| xy in rest;
      vers := vers[xy := Widen(vers, xy, d.tiles[xy])];
      rest := rest - {xy};
    }
  }

  // --- tiles ---

  /** Version v, of a tile whose newest is `latest`, is exported as a full tile. */
  predicate FullVersion(every: nat, z: int, v: nat, latest: nat)
    requires every > 0
  {
    z < 0 || every == 1 || v <= 1 || v == latest || v % every == 0
  }

  /** The keys planned for one tile. */
  ghost predicate TilePlanned(keys: set<Key>, every: nat, ds: int, z: int, xy: Xy, s: Span)
    requires every > 0
  {
    && (forall v: nat :: s.lo <= v <= s.hi && FullVersion(every, z, v, s.hi) ==> Tile(ds, z, xy.x, xy.y, v) in keys)
    && (z == 0 ==> forall v: nat :: s.lo <= v < s.hi && v >= 1 ==> Delta(ds, xy.x, xy.y, v) in keys)
  }

  /** A client gets version v from the objects: as a full tile, or from the version before through its delta. */
  ghost predicate Reach(have: set<Key>, ds: int, z: int, xy: Xy, v: nat) {
    Tile(ds, z, xy.x, xy.y, v) in have || (z == 0 && v > 1 && Delta(ds, xy.x, xy.y, v - 1) in have
        && Reach(have, ds, z, xy, v - 1))
  }

  lemma {:induction false} ReachMore(have: set<Key>, more: set<Key>, ds: int, z: int, xy: Xy, v: nat)
    requires Reach(have, ds, z, xy, v) && have <= more
    ensures Reach(more, ds, z, xy, v)
  {
    if Tile(ds, z, xy.x, xy.y, v) !in have {
      ReachMore(have, more, ds, z, xy, v - 1);
    }
  }

  /** Of a tile planned from version lo on, every version is reached if the first one is: it is when it is exported as
      a full tile, or was reached before. */
  lemma {:induction false} ReachAll(have: set<Key>, every: nat, ds: int, z: int, xy: Xy, s: Span, v: nat)
    requires every > 0 && z <= 0 && s.lo <= v <= s.hi && TilePlanned(have, every, ds, z, xy, s)
    requires FullVersion(every, z, s.lo, s.hi) || Reach(have, ds, z, xy, s.lo)
    ensures Reach(have, ds, z, xy, v)
  {
    if !FullVersion(every, z, v, s.hi) && v > s.lo {
      ReachAll(have, every, ds, z, xy, s, v - 1);
    }
  }

  /** A version of the span stored in full: each coarse one, and at z0 the first, the last, and every so many. */
  predicate Full(k: Key, every: nat, ds: int, z: int, xy: Xy, s: Span)
    requires every > 0
  {
    && k.Tile? && k.ds == ds && k.z == z && k.x == xy.x && k.y == xy.y && s.lo <= k.v <= s.hi
    && (z < 0 || k.v in {0, 1, s.hi} || k.v % every == 0)
  }

  /** The step from a version of the span to the next. */
  predicate Step(k: Key, ds: int, z: int, xy: Xy, s: Span) {
    k.Delta? && z == 0 && k.ds == ds && k.x == xy.x && k.y == xy.y && 1 <= k.v && s.lo <= k.v && k.v + 1 <= s.hi
  }

  /** At z0 fewer than `every` deltas lead to a version from one stored in full, or from where the span starts. */
  lemma FewDeltas(keys: set<Key>, every: nat, ds: int, xy: Xy, s: Span, v: nat) returns (u: nat)
    requires every > 0 && s.lo <= v <= s.hi && TilePlanned(keys, every, ds, 0, xy, s)
    ensures s.lo <= u <= v && v - u < every && (u == s.lo || Tile(ds, 0, xy.x, xy.y, u) in keys)
    ensures forall w: nat :: u <= w < v && w >= 1 ==> Delta(ds, xy.x, xy.y, w) in keys
  {
    u := if v - v % every < s.lo then s.lo else v - v % every;
    if u != s.lo { Multiple(v, every); }
  }

  lemma Multiple(v: nat, every: nat)
    requires every > 0
    ensures (v - v % every) % every == 0
  {
    var u := v - v % every;
    assert u == v / every * every;
    assert u / every == v / every && u == u / every * every + u % every;
  }

  method PlanTile(items0: seq<Item>, every: nat, ds: int, z: int, xy: Xy, s: Span) returns (items: seq<Item>)
    requires every > 0
    ensures TilePlanned(DataKeys(items), every, ds, z, xy, s)
    ensures forall k :: k in DataKeys(items) <==> k in DataKeys(items0) || Full(k, every, ds, z, xy, s)
                                                  || Step(k, ds, z, xy, s)
    ensures Onto(items0, items)
  {
    hide DataKeys;
    items := PlanFull(items0, every, ds, z, xy, s);
    if z == 0 {
      items := PlanSteps(items, ds, xy, s);
    }
    forall v: nat | s.lo <= v <= s.hi && FullVersion(every, z, v, s.hi) ensures Tile(ds, z, xy.x, xy.y, v) in
        DataKeys(items) {
      assert Full(Tile(ds, z, xy.x, xy.y, v), every, ds, z, xy, s);
    }
    forall v: nat | z == 0 && s.lo <= v < s.hi && v >= 1 ensures Delta(ds, xy.x, xy.y, v) in DataKeys(items) {
      assert Step(Delta(ds, xy.x, xy.y, v), ds, z, xy, s);
    }
  }

  /** Only data items were added. */
  predicate Onto(items0: seq<Item>, items: seq<Item>) {
    items0 <= items
    && forall i: nat :: |items0| <= i < |items| ==> ItemOk(items[i]) && items[i].phase == PHASE_DATA
  }

  method PlanFull(items0: seq<Item>, every: nat, ds: int, z: int, xy: Xy, s: Span) returns (items: seq<Item>)
    requires every > 0
    ensures forall k :: k in DataKeys(items) <==> k in DataKeys(items0) || Full(k, every, ds, z, xy, s)
    ensures Onto(items0, items)
  {
    hide DataKeys;
    items := items0;
    var v := s.lo;
    while v <= s.hi
      invariant v >= s.lo && Onto(items0, items)
      invariant forall k :: k in DataKeys(items) <==>
                  k in DataKeys(items0) || (Full(k, every, ds, z, xy, s) && k.v < v)
      decreases s.hi + 1 - v
    {
      if FullVersion(every, z, v, s.hi) {
        items := AddData(items, Tile(ds, z, xy.x, xy.y, v));
      }
      v := v + 1;
    }
  }

  method PlanSteps(items0: seq<Item>, ds: int, xy: Xy, s: Span) returns (items: seq<Item>)
    ensures forall k :: k in DataKeys(items) <==> k in DataKeys(items0) || Step(k, ds, 0, xy, s)
    ensures Onto(items0, items)
  {
    hide DataKeys;
    items := items0;
    var v := if s.lo > 1 then s.lo else 1;
    while v < s.hi
      invariant v >= 1 && v >= s.lo && Onto(items0, items)
      invariant forall k :: k in DataKeys(items) <==> k in DataKeys(items0) || (Step(k, ds, 0, xy, s) && k.v < v)
      decreases s.hi - v
    {
      items := AddData(items, Delta(ds, xy.x, xy.y, v));
      v := v + 1;
    }
  }

  method AddData(items: seq<Item>, k: Key) returns (out: seq<Item>)
    requires IsData(k)
    ensures out == items + [DataItem(k)] && DataKeys(out) == DataKeys(items) + {k}
  {
    out := items + [DataItem(k)];
    DataMore(items, DataItem(k));
  }

  lemma DataMore(items: seq<Item>, it: Item)
    ensures DataKeys(items + [it]) == DataKeys(items) + if it.phase == PHASE_DATA then {it.key} else {}
  {
    var more := items + [it];
    assert more[|items|] == it;
    forall k | k in DataKeys(items) ensures k in DataKeys(more) {
      var i: nat :| i < |items| && items[i].phase == PHASE_DATA && items[i].key == k;
      assert more[i] == items[i];
    }
  }

  // --- planning ---

  datatype Level = Level(ds: int, z: int)

  datatype Datastore = Datastore(id: int, levels: seq<int>, first: TimeMs, last: TimeMs, window: TimeMs, palette: nat)

  datatype Surface = Surface(id: int, days: seq<int>)

  /** What the source has: its catalog and today's number; per level when each version of each tile became effective,
      and the time up to which that is final; the timelines it fails to answer; and what it answers for day indexes. */
  datatype Source = Source(datastores: seq<Datastore>, surfaces: seq<Surface>, today: int, tiles: map<Level, map<Xy,
                           Times>>,
                           bounds: map<Level, TimeMs>, failing: set<Key>, indexes: map<Key, Read<Movers>>,
                               assets: seq<string>, pages: seq<Item>)

  /** The days of a datastore that a round asks for. */
  function DaysOf(src: Source, d: Datastore): seq<int> {
    if d.last == 0 then [] else DaysListed(DayOfTime(d.first), DayOfTime(d.last + d.window), src.today)
  }

  /** They are the UTC days from the first version's to the last one's, and today when it is later. */
  lemma DaysAre(src: Source, d: Datastore, day: int)
    ensures var lo, hi := d.first / 86_400_000, (d.last + d.window) / 86_400_000;
            day in DaysOf(src, d) <==> d.last != 0 && (lo <= day <= hi || (day == src.today && hi < day))
  {
    var lo, hi := DayOfTime(d.first), DayOfTime(d.last + d.window);
    if lo <= day <= hi { assert DayRange(lo, hi)[day - lo] == day; }
  }

  function DayAt(tiles: map<Xy, Times>, bound: TimeMs, day: int): Day {
    Day(bound >= End(day), map xy | xy in tiles && Listed(tiles[xy], day) :: TileAt(tiles[xy], day))
  }

  function DayOf(src: Source, k: Key): Read<Day> {
    if !k.Timeline? || Level(k.ds, k.z) !in src.tiles || Level(k.ds, k.z) !in src.bounds then NotFound
    else if k in src.failing then Failed
    else Found(DayAt(src.tiles[Level(k.ds, k.z)], src.bounds[Level(k.ds, k.z)], k.day))
  }

  /** A day of a level is answered unless the source fails to, is final once no version can come before its end, and
      lists the tiles whose first version came before that. */
  lemma DayIs(src: Source, ds: int, z: int, day: int)
    requires Level(ds, z) in src.tiles && Level(ds, z) in src.bounds
    ensures var r, end := DayOf(src, Timeline(ds, z, day)), (day + 1) * 86_400_000;
            var tiles := src.tiles[Level(ds, z)];
            && (r.Failed? <==> Timeline(ds, z, day) in src.failing) && !r.NotFound?
            && (r.Found? ==>
                  && (r.value.final <==> src.bounds[Level(ds, z)] >= end)
                  && forall xy :: xy in r.value.tiles <==> xy in tiles && tiles[xy] != [] && tiles[xy][0] < end)
  {
  }

  function MoversOf(src: Source, k: Key): Read<Movers> { if k in src.indexes then src.indexes[k] else NotFound }

  /** A catalog: each datastore once, with levels from 0 down and a span of days that holds the time of every z0
      version. Coarse versions may come later. */
  ghost predicate SourceOk(src: Source) {
    && (forall a <- src.datastores, b <- src.datastores :: a.id == b.id ==> a == b)
    && (forall d <- src.datastores :: DatastoreOk(src, d))
    && (forall i: nat :: i < |src.pages| ==> PageOk(src.pages[i]))
  }

  ghost predicate DatastoreOk(src: Source, d: Datastore) {
    && (d.last != 0 ==> 0 <= d.first <= d.last + d.window)
    && forall z <- d.levels :: z <= 0 && (Level(d.id, z) in src.tiles ==> forall xy <- src.tiles[Level(d.id, z)] ::
         && Increasing(src.tiles[Level(d.id, z)][xy])
         && (z == 0 ==> Covers(src.tiles[Level(d.id, z)][xy], DayOfTime(d.first), DayOfTime(d.last + d.window))))
  }

  predicate PageOk(it: Item) { it.key.Page? && PHASE_MUTABLE <= it.phase < PHASES && !it.immut }

  /** An index the catalog has. */
  predicate InCatalog(src: Source, k: Key) {
    match k
    case Timeline(ds, z, day) => exists d <- src.datastores :: d.id == ds && z in d.levels && day in DaysOf(src, d)
    case DayIndex(surface, day) => exists s <- src.surfaces :: s.id == surface && day in s.days
    case _ => false
  }

  /** The source calls the index final. */
  predicate Final(src: Source, k: Key) {
    if k.Timeline? then DayOf(src, k).Found? && DayOf(src, k).value.final
        else MoversOf(src, k).Found? && MoversOf(src, k).value.final
  }

  lemma FinalIs(src: Source, k: Key)
    ensures k.DayIndex? ==>
              (Final(src, k) <==> k in src.indexes && src.indexes[k].Found? && src.indexes[k].value.final)
    ensures k.Timeline? ==>
              (Final(src, k) <==>
               && Level(k.ds, k.z) in src.tiles && k !in src.failing && Level(k.ds, k.z) in src.bounds
               && src.bounds[Level(k.ds, k.z)] >= (k.day + 1) * 86_400_000)
  {
  }

  ghost predicate PlanOk(src: Source, items: seq<Item>, held: set<Key>) {
    forall i: nat :: i < |items| ==>
        ItemOk(items[i])
        && (IsIndex(items[i].key) ==> items[i].key !in held && items[i].immut == Final(src, items[i].key))
  }

  lemma PlanIsItems(src: Source, items: seq<Item>, held: set<Key>)
    requires PlanOk(src, items, held)
    ensures ItemsOk(items, held)
  {}

  /** The index is held, or what the source answers for it is planned. */
  ghost predicate Covered(src: Source, held: set<Key>, items: seq<Item>, k: Key) {
    k in held ||
    if k.Timeline? then !DayOf(src, k).Failed? && (DayOf(src, k).Found? ==> k in Keys(items))
    else !MoversOf(src, k).Failed? && (MoversOf(src, k).Found? ==> k in Keys(items))
  }

  lemma CoveredMore(src: Source, held: set<Key>, items: seq<Item>, more: seq<Item>, k: Key)
    requires Covered(src, held, items, k) && items <= more
    ensures Covered(src, held, more, k)
  {
    AllKeysMore(items, more);
  }

  lemma AllKeysMore(items: seq<Item>, more: seq<Item>)
    requires items <= more
    ensures Keys(items) <= Keys(more)
  {
    forall k | k in Keys(items) ensures k in Keys(more) {
      var i: nat :| i < |items| && items[i].key == k;
      assert more[i] == items[i];
    }
  }

  /** A planned index that the source calls final is stored as one. */
  lemma FinalPlanned(src: Source, held: set<Key>, items: seq<Item>, k: Key)
    requires PlanOk(src, items, held) && k in Keys(items) && IsIndex(k) && Final(src, k)
    ensures k in IndexKeys(items)
  {
    var i: nat :| i < |items| && items[i].key == k;
    assert ItemOk(items[i]);
  }

  /** A timeline of the day is read in the round, and the tile is on it. */
  predicate Unread(src: Source, held: set<Key>, ds: int, z: int, day: int, xy: Xy) {
    var k := Timeline(ds, z, day);
    k !in held && DayOf(src, k).Found? && xy in DayOf(src, k).value.tiles
  }

  function EntryOf(src: Source, ds: int, z: int, day: int, xy: Xy): TileDay
    requires DayOf(src, Timeline(ds, z, day)).Found? && xy in DayOf(src, Timeline(ds, z, day)).value.tiles
  {
    DayOf(src, Timeline(ds, z, day)).value.tiles[xy]
  }

  /** The span of a tile starts where a day that was read does, and holds every version such a day names. */
  ghost predicate SpanOf(src: Source, held: set<Key>, days: seq<int>, ds: int, z: int, xy: Xy, s: Span) {
    && (exists day <- days :: Unread(src, held, ds, z, day, xy) && EntryOf(src, ds, z, day, xy).v0 == s.lo)
    && forall day <- days :: Unread(src, held, ds, z, day, xy) ==> Within(s, EntryOf(src, ds, z, day, xy))
  }

  /** All tiles of the day are planned, over the versions it and the other days read name. */
  ghost predicate DayPlanned(src: Source, held: set<Key>, keys: set<Key>, every: nat, k: Key, d: Day)
    requires every > 0 && k.Timeline?
  {
    forall xy <- d.tiles :: TileSpanned(src, held, keys, every, k, xy, d.tiles[xy])
  }

  ghost predicate TileSpanned(src: Source, held: set<Key>, keys: set<Key>, every: nat, k: Key, xy: Xy, t: TileDay)
    requires every > 0 && k.Timeline?
  {
    exists s: Span, d <- src.datastores :: d.id == k.ds && k.z in d.levels && k.day in DaysOf(src, d)
      && SpanOf(src, held, DaysOf(src, d), k.ds, k.z, xy, s) && TilePlanned(keys, every, k.ds, k.z, xy, s)
          && Within(s, t)
  }

  ghost predicate MoversPlanned(keys: set<Key>, surface: int, m: Movers) {
    && (forall i: nat :: i < |m.windows| ==> Window(surface, m.windows[i]) in keys)
    && (forall i: nat :: i < |m.keyframes| ==> Keyframe(surface, m.keyframes[i]) in keys)
  }

  /** What an index names is planned with it. */
  ghost predicate IndexPlanned(src: Source, held: set<Key>, keys: set<Key>, every: nat, k: Key)
    requires every > 0
  {
    match k
    case Timeline(ds, z, day) => DayOf(src, k).Found? && DayPlanned(src, held, keys, every, k, DayOf(src, k).value)
    case DayIndex(surface, day) => MoversOf(src, k).Found? && MoversPlanned(keys, surface, MoversOf(src, k).value)
    case _ => true
  }

  /** So it is for every index of the items, final or not, but those of `part`. */
  ghost predicate AllPlanned(src: Source, held: set<Key>, every: nat, items: seq<Item>, part: set<Key>)
    requires every > 0
  {
    forall k <- Keys(items) :: k in part || IndexPlanned(src, held, DataKeys(items), every, k)
  }

  lemma TileMore(keys: set<Key>, keys': set<Key>, every: nat, ds: int, z: int, xy: Xy, s: Span)
    requires every > 0 && TilePlanned(keys, every, ds, z, xy, s) && keys <= keys'
    ensures TilePlanned(keys', every, ds, z, xy, s)
  {}

  lemma SpannedMore(src: Source, held: set<Key>, keys: set<Key>, keys': set<Key>, every: nat, k: Key, xy: Xy,
                    t: TileDay)
    requires every > 0 && k.Timeline? && TileSpanned(src, held, keys, every, k, xy, t) && keys <= keys'
    ensures TileSpanned(src, held, keys', every, k, xy, t)
  {
    hide SpanOf, TilePlanned;
    var s: Span, d :| d in src.datastores && d.id == k.ds && k.z in d.levels && k.day in DaysOf(src, d)
      && SpanOf(src, held, DaysOf(src, d), k.ds, k.z, xy, s) && TilePlanned(keys, every, k.ds, k.z, xy, s)
          && Within(s, t);
    TileMore(keys, keys', every, k.ds, k.z, xy, s);
  }

  lemma PlannedMore(src: Source, held: set<Key>, keys: set<Key>, keys': set<Key>, every: nat, k: Key)
    requires every > 0 && IndexPlanned(src, held, keys, every, k) && keys <= keys'
    ensures IndexPlanned(src, held, keys', every, k)
  {
    hide TileSpanned, DayOf;
    if k.Timeline? {
      var d := DayOf(src, k).value;
      forall xy <- d.tiles ensures TileSpanned(src, held, keys', every, k, xy, d.tiles[xy]) {
        SpannedMore(src, held, keys, keys', every, k, xy, d.tiles[xy]);
      }
    }
  }

  lemma OneKeyMore(items: seq<Item>, it: Item)
    ensures Keys(items + [it]) == Keys(items) + {it.key}
  {
    var more := items + [it];
    assert more[|items|] == it;
    forall k | k in Keys(items) ensures k in Keys(more) {
      var i: nat :| i < |items| && items[i].key == k;
      assert more[i] == items[i];
    }
  }

  /** One item more: what was planned stays, and an index joins the ones whose data is still to come. */
  lemma AllMore(src: Source, held: set<Key>, every: nat, items: seq<Item>, part: set<Key>, it: Item)
    requires every > 0 && PlanOk(src, items, held) && AllPlanned(src, held, every, items, part)
    requires ItemOk(it) && (IsIndex(it.key) ==> it.key !in held && it.immut == Final(src, it.key))
    ensures PlanOk(src, items + [it], held) && AllPlanned(src, held, every, items + [it],
              if IsIndex(it.key) then part + {it.key} else part)
    ensures DataKeys(items + [it]) == DataKeys(items) + (if it.phase == PHASE_DATA then {it.key} else {})
            && Keys(items + [it]) == Keys(items) + {it.key}
  {
    hide IndexPlanned, DataKeys, Keys, DayOf, Final;
    OneKeyMore(items, it);
    DataMore(items, it);
    forall k | k in Keys(items) && k !in part ensures IndexPlanned(src, held, DataKeys(items + [it]), every, k) {
      PlannedMore(src, held, DataKeys(items), DataKeys(items + [it]), every, k);
    }
    if !IsIndex(it.key) { assert IndexPlanned(src, held, DataKeys(items + [it]), every, it.key) by {
      NotIndex(src, held, DataKeys(items + [it]), every, it.key); }
    }
  }

  lemma NotIndex(src: Source, held: set<Key>, keys: set<Key>, every: nat, k: Key)
    requires every > 0 && !IsIndex(k)
    ensures IndexPlanned(src, held, keys, every, k)
  {
    hide DayOf;
  }

  /** Data items more. */
  lemma {:induction false} AllMoreData(src: Source, held: set<Key>, every: nat, items: seq<Item>, part: set<Key>,
                                       more: seq<Item>)
    requires every > 0 && PlanOk(src, items, held) && AllPlanned(src, held, every, items, part)
    requires forall i: nat :: i < |more| ==> ItemOk(more[i]) && more[i].phase == PHASE_DATA
    ensures PlanOk(src, items + more, held) && AllPlanned(src, held, every, items + more, part)
            && DataKeys(items) <= DataKeys(items + more)
    decreases |more|
  {
    hide IndexPlanned, DataKeys, Keys, AllPlanned, PlanOk, Final;
    if more == [] {
      assert items + more == items;
    } else {
      var n := |more| - 1;
      AllMoreData(src, held, every, items, part, more[..n]);
      AllMore(src, held, every, items + more[..n], part, more[n]);
      assert items + more == items + more[..n] + [more[n]];
    }
  }

  /** The tiles of a level. */
  method PlanTiles(items0: seq<Item>, every: nat, ds: int, z: int, vers: map<Xy, Span>) returns (items: seq<Item>)
    requires every > 0
    ensures Onto(items0, items)
    ensures forall xy <- vers :: TilePlanned(DataKeys(items), every, ds, z, xy, vers[xy])
  {
    hide DataKeys, ItemOk, TilePlanned;
    items := items0;
    var rest := vers.Keys;
    while rest != {}
      invariant rest <= vers.Keys && Onto(items0, items)
      invariant forall xy <- vers :: xy in rest || TilePlanned(DataKeys(items), every, ds, z, xy, vers[xy])
      decreases rest
    {
      var xy :| xy in rest;
      var was := items;
      items := PlanTile(items, every, ds, z, xy, vers[xy]);
      KeysMore(was, items);
      forall o | o in vers && o !in rest ensures TilePlanned(DataKeys(items), every, ds, z, o, vers[o]) {
        TileMore(DataKeys(was), DataKeys(items), every, ds, z, o, vers[o]);
      }
      rest := rest - {xy};
    }
  }

  lemma KeysMore(items: seq<Item>, more: seq<Item>)
    requires items <= more
    ensures DataKeys(items) <= DataKeys(more)
  {
    forall k | k in DataKeys(items) ensures k in DataKeys(more) {
      var i: nat :| i < |items| && items[i].phase == PHASE_DATA && items[i].key == k;
      assert more[i] == items[i];
    }
  }

  /** What is known of a level after some of its days were read: the spans are those of these days. */
  ghost predicate LevelOk(src: Source, held: set<Key>, ds: int, z: int, days: seq<int>, vers: map<Xy, Span>) {
    && (forall day <- days, xy: Xy :: Unread(src, held, ds, z, day, xy) ==> xy in vers)
    && (forall xy <- vers :: SpanOf(src, held, days, ds, z, xy, vers[xy]))
  }

  /** A day that is held, or not there, adds nothing. */
  lemma LevelSkip(src: Source, held: set<Key>, ds: int, z: int, days: seq<int>, day: int, vers: map<Xy, Span>)
    requires LevelOk(src, held, ds, z, days, vers)
             && (Timeline(ds, z, day) in held || !DayOf(src, Timeline(ds, z, day)).Found?)
    ensures LevelOk(src, held, ds, z, days + [day], vers)
  {
    hide DayOf;
    forall xy <- vers ensures SpanOf(src, held, days + [day], ds, z, xy, vers[xy]) {
      var e :| e in days && Unread(src, held, ds, z, e, xy) && EntryOf(src, ds, z, e, xy).v0 == vers[xy].lo;
      assert e in days + [day];
    }
  }

  lemma LevelMore(src: Source, held: set<Key>, ds: int, z: int, days: seq<int>, day: int, vers: map<Xy, Span>,
                  vers': map<Xy, Span>)
    requires var k := Timeline(ds, z, day);
             && k !in held && DayOf(src, k).Found? && LevelOk(src, held, ds, z, days, vers)
             && Wider(vers, vers') && Spanned(vers', DayOf(src, k).value)
             && forall xy <- vers' :: (xy in vers && vers'[xy].lo == vers[xy].lo)
                 || (xy in DayOf(src, k).value.tiles && DayOf(src, k).value.tiles[xy].v0 == vers'[xy].lo)
    requires forall xy <- vers' :: xy in vers || xy in DayOf(src, Timeline(ds, z, day)).value.tiles
    ensures LevelOk(src, held, ds, z, days + [day], vers')
  {
    hide DayOf;
    var more := days + [day];
    assert more[|days|] == day;
    forall e | e in days ensures e in more {}
    forall xy <- vers' ensures SpanOf(src, held, more, ds, z, xy, vers'[xy]) {
      if xy in vers && vers'[xy].lo == vers[xy].lo {
        var e :| e in days && Unread(src, held, ds, z, e, xy) && EntryOf(src, ds, z, e, xy).v0 == vers[xy].lo;
        assert e in more;
      } else {
        assert Unread(src, held, ds, z, day, xy) && EntryOf(src, ds, z, day, xy).v0 == vers'[xy].lo;
      }
      forall e | e in more && Unread(src, held, ds, z, e, xy) ensures Within(vers'[xy], EntryOf(src, ds, z, e, xy)) {
        if e != day { assert e in days && Within(vers[xy], EntryOf(src, ds, z, e, xy)); }
      }
    }
  }

  /** The level's indexes are those of its days. */
  ghost predicate LevelKeys(src: Source, held: set<Key>, d: Datastore, z: int, part: set<Key>) {
    forall k <- part :: k.Timeline? && k.ds == d.id && k.z == z && k.day in DaysOf(src, d) && k !in held
        && DayOf(src, k).Found?
  }

  lemma LevelPlanned(src: Source, held: set<Key>, every: nat, items: seq<Item>, d: Datastore, z: int, vers: map<Xy,
                     Span>, part: set<Key>)
    requires every > 0 && d in src.datastores && z in d.levels && LevelOk(src, held, d.id, z, DaysOf(src, d), vers)
    requires LevelKeys(src, held, d, z, part) && AllPlanned(src, held, every, items, part)
    requires forall xy <- vers :: TilePlanned(DataKeys(items), every, d.id, z, xy, vers[xy])
    ensures AllPlanned(src, held, every, items, {})
  {
    hide TilePlanned, SpanOf, DaysOf, DataKeys, Keys;
    forall k | k in Keys(items) && k in part ensures IndexPlanned(src, held, DataKeys(items), every, k) {
      TimelinePlanned(src, held, DataKeys(items), every, d, k, vers);
    }
  }

  lemma TimelinePlanned(src: Source, held: set<Key>, keys: set<Key>, every: nat, d: Datastore, k: Key, vers: map<Xy,
                        Span>)
    requires every > 0 && k.Timeline? && d in src.datastores && d.id == k.ds && k.z in d.levels
             && k.day in DaysOf(src, d)
    requires LevelOk(src, held, d.id, k.z, DaysOf(src, d), vers) && k !in held && DayOf(src, k).Found?
    requires forall xy <- vers :: TilePlanned(keys, every, d.id, k.z, xy, vers[xy])
    ensures IndexPlanned(src, held, keys, every, k)
  {
    hide TilePlanned, DaysOf, DayOf;
    var day := DayOf(src, k).value;
    assert k == Timeline(k.ds, k.z, k.day);
    forall xy <- day.tiles ensures TileSpanned(src, held, keys, every, k, xy, day.tiles[xy]) {
      assert Unread(src, held, d.id, k.z, k.day, xy);
      assert SpanOf(src, held, DaysOf(src, d), k.ds, k.z, xy, vers[xy])
             && Within(vers[xy], EntryOf(src, d.id, k.z, k.day, xy));
    }
  }

  lemma LevelStart(src: Source, held: set<Key>, d: Datastore, z: int, days: seq<int>)
    ensures LevelOk(src, held, d.id, z, days[..0], map[]) && LevelKeys(src, held, d, z, {})
  {}

  /** Every day of the list is covered on the level. */
  ghost predicate DaysCovered(src: Source, held: set<Key>, items: seq<Item>, ds: int, z: int, days: seq<int>) {
    forall day <- days :: Covered(src, held, items, Timeline(ds, z, day))
  }

  lemma DaysMore(src: Source, held: set<Key>, items: seq<Item>, more: seq<Item>, ds: int, z: int, days: seq<int>)
    requires DaysCovered(src, held, items, ds, z, days) && items <= more
    ensures DaysCovered(src, held, more, ds, z, days)
  {
    hide Covered;
    forall day <- days ensures Covered(src, held, more, Timeline(ds, z, day)) {
      CoveredMore(src, held, items, more, Timeline(ds, z, day));
    }
  }

  lemma DayCovered(src: Source, held: set<Key>, items: seq<Item>, ds: int, z: int, days: seq<int>, day: int)
    requires DaysCovered(src, held, items, ds, z, days) && Covered(src, held, items, Timeline(ds, z, day))
    ensures DaysCovered(src, held, items, ds, z, days + [day])
  {
    hide Covered;
  }

  /** One day of a level that is not held: its timeline, and the versions it names. */
  method PlanDay(src: Source, held: set<Key>, every: nat, items0: seq<Item>, vers0: map<Xy, Span>, k: Key, day: Day,
                 ghost d: Datastore,
                 ghost days: seq<int>, ghost part: set<Key>)
    returns (items: seq<Item>, vers: map<Xy, Span>)
    requires every > 0 && PlanOk(src, items0, held) && AllPlanned(src, held, every, items0, part)
    requires k.Timeline? && k !in held && DayOf(src, k) == Found(day) && k.ds == d.id && k.day in DaysOf(src, d)
    requires LevelOk(src, held, k.ds, k.z, days, vers0) && LevelKeys(src, held, d, k.z, part)
    ensures items0 <= items && PlanOk(src, items, held) && AllPlanned(src, held, every, items, part + {k})
            && k in Keys(items)
    ensures LevelOk(src, held, k.ds, k.z, days + [k.day], vers) && LevelKeys(src, held, d, k.z, part + {k})
  {
    hide PlanOk, AllPlanned, LevelOk, DataKeys, DaysOf, DayOf, Keys, Wider, Spanned;
    var it := IndexItem(k, day.final);
    AllMore(src, held, every, items0, part, it);
    items := items0 + [it];
    vers := AddDay(vers0, day);
    LevelMore(src, held, k.ds, k.z, days, k.day, vers0, vers);
  }

  /** A level of a datastore: the timelines the state does not hold as final, and the tiles they name. */
  method PlanLevel(src: Source, held: set<Key>, every: nat, items0: seq<Item>, d: Datastore, days: seq<int>,
                   z: int) returns (out: Option<seq<Item>>)
    requires every > 0 && PlanOk(src, items0, held) && AllPlanned(src, held, every, items0, {})
    requires d in src.datastores && z in d.levels && days == DaysOf(src, d)
    ensures out.Some? ==>
            items0 <= out.value && PlanOk(src, out.value, held)
            && AllPlanned(src, held, every, out.value, {})
                          && DaysCovered(src, held, out.value, d.id, z, days)
  {
    hide PlanOk, AllPlanned, LevelOk, LevelKeys, DataKeys, DaysOf, DayOf, Keys, DaysCovered, TilePlanned;
    var items := items0;
    var vers: map<Xy, Span> := map[];
    ghost var part: set<Key> := {};
    LevelStart(src, held, d, z, days);
    NoneCovered(src, held, items, d.id, z, days);
    for n := 0 to |days|
      invariant items0 <= items && PlanOk(src, items, held) && AllPlanned(src, held, every, items, part)
      invariant LevelOk(src, held, d.id, z, days[..n], vers) && LevelKeys(src, held, d, z, part)
      invariant DaysCovered(src, held, items, d.id, z, days[..n])
    {
      var k := Timeline(d.id, z, days[n]);
      assert days[..n + 1] == days[..n] + [days[n]];
      var was := items;
      if k in held {
        LevelSkip(src, held, d.id, z, days[..n], days[n], vers);
      } else {
        match DayOf(src, k)
        case NotFound =>
          LevelSkip(src, held, d.id, z, days[..n], days[n], vers);
        case Failed =>
          return None;
        case Found(day) =>
          items, vers := PlanDay(src, held, every, items, vers, k, day, d, days[..n], part);
          part := part + {k};
      }
      DaysMore(src, held, was, items, d.id, z, days[..n]);
      DayCovered(src, held, items, d.id, z, days[..n], days[n]);
    }
    assert days[..|days|] == days;
    var was := items;
    items := PlanTiles(items, every, d.id, z, vers);
    var more := items[|was|..];
    assert items == was + more;
    AllMoreData(src, held, every, was, part, more);
    LevelPlanned(src, held, every, items, d, z, vers, part);
    DaysMore(src, held, was, items, d.id, z, days);
    return Some(items);
  }

  lemma NoneCovered(src: Source, held: set<Key>, items: seq<Item>, ds: int, z: int, days: seq<int>)
    ensures DaysCovered(src, held, items, ds, z, days[..0])
  {}

  /** A datastore with data has its palette planned. */
  ghost predicate PaletteIn(items: seq<Item>, d: Datastore) {
    d.palette > 0 && d.levels != [] && d.last != 0 ==> Palette(d.id, d.palette) in DataKeys(items)
  }

  /** So have the datastores before number n, and the icon files are planned. */
  ghost predicate PalettesIn(src: Source, items: seq<Item>, n: nat) {
    && (forall i: nat :: i < |src.assets| ==> Asset(src.assets[i]) in DataKeys(items))
    && (forall i: nat :: i < n <= |src.datastores| ==> PaletteIn(items, src.datastores[i]))
  }

  lemma PalettesMore(src: Source, items: seq<Item>, more: seq<Item>, n: nat)
    requires PalettesIn(src, items, n) && items <= more
    ensures PalettesIn(src, more, n)
  {
    hide DataKeys;
    KeysMore(items, more);
  }

  /** A datastore: its palette, and its levels over the days from its first update to its last, and today. */
  method PlanDatastore(src: Source, held: set<Key>, every: nat, items0: seq<Item>,
                       d: Datastore) returns (out: Option<seq<Item>>)
    requires every > 0 && PlanOk(src, items0, held) && AllPlanned(src, held, every, items0, {}) && d in src.datastores
             && DatastoreOk(src, d)
    ensures out.Some? ==>
            items0 <= out.value && PlanOk(src, out.value, held)
            && AllPlanned(src, held, every, out.value, {}) && PaletteIn(out.value, d)
                          && forall z <- d.levels :: DaysCovered(src, held, out.value, d.id, z, DaysOf(src, d))
  {
    hide PlanOk, AllPlanned, DaysCovered, DayRange, DataKeys, Keys, DayOf;
    var items := items0;
    if d.levels == [] || d.last == 0 {
      NothingCovered(src, held, items, d);
      return Some(items);
    }
    var days := UtcDays(d.first, d.last + d.window);
    LastOfRange(DayOfTime(d.first), DayOfTime(d.last + d.window));
    if days[|days| - 1] < src.today {
      days := days + [src.today];
    }
    assert days == DaysOf(src, d);
    if d.palette > 0 {
      var it := DataItem(Palette(d.id, d.palette));
      AllMore(src, held, every, items, {}, it);
      items := items + [it];
    }
    ghost var start := items;
    for n := 0 to |d.levels|
      invariant items0 <= items && start <= items && PlanOk(src, items, held)
                && AllPlanned(src, held, every, items, {})
      invariant forall m: nat :: m < n ==> DaysCovered(src, held, items, d.id, d.levels[m], days)
    {
      var level := PlanLevel(src, held, every, items, d, days, d.levels[n]);
      if level.None? {
        return None;
      }
      forall m: nat | m < n ensures DaysCovered(src, held, level.value, d.id, d.levels[m], days) {
        DaysMore(src, held, items, level.value, d.id, d.levels[m], days);
      }
      items := level.value;
    }
    KeysMore(start, items);
    return Some(items);
  }

  lemma NothingCovered(src: Source, held: set<Key>, items: seq<Item>, d: Datastore)
    requires d.levels == [] || d.last == 0
    ensures forall z <- d.levels :: DaysCovered(src, held, items, d.id, z, DaysOf(src, d))
  {}

  lemma LastOfRange(lo: int, hi: int)
    requires lo <= hi
    ensures DayRange(lo, hi) != [] && DayRange(lo, hi)[|DayRange(lo, hi)| - 1] == hi
  {}

  method AddAll(src: Source, held: set<Key>, every: nat, items0: seq<Item>, ghost part: set<Key>,
                keys: seq<Key>) returns (items: seq<Item>)
    requires every > 0 && PlanOk(src, items0, held) && AllPlanned(src, held, every, items0, part) && forall i: nat ::
               i < |keys| ==> IsData(keys[i])
    ensures items0 <= items && PlanOk(src, items, held) && AllPlanned(src, held, every, items, part) && forall i: nat ::
              i < |keys| ==> keys[i] in DataKeys(items)
    ensures DataKeys(items0) <= DataKeys(items)
  {
    hide PlanOk, AllPlanned, DataKeys, Keys, Final;
    items := items0;
    for n := 0 to |keys|
      invariant items0 <= items && PlanOk(src, items, held) && AllPlanned(src, held, every, items, part)
      invariant DataKeys(items0) <= DataKeys(items) && forall i: nat :: i < n ==> keys[i] in DataKeys(items)
    {
      AllMore(src, held, every, items, part, DataItem(keys[n]));
      items := items + [DataItem(keys[n])];
    }
  }

  /** The days of a surface are covered. */
  ghost predicate MoversCovered(src: Source, held: set<Key>, items: seq<Item>, surface: int, days: seq<int>) {
    forall day <- days :: Covered(src, held, items, DayIndex(surface, day))
  }

  lemma MoversMore(src: Source, held: set<Key>, items: seq<Item>, more: seq<Item>, surface: int, days: seq<int>)
    requires MoversCovered(src, held, items, surface, days) && items <= more
    ensures MoversCovered(src, held, more, surface, days)
  {
    hide Covered;
    forall day <- days ensures Covered(src, held, more, DayIndex(surface, day)) {
      CoveredMore(src, held, items, more, DayIndex(surface, day));
    }
  }

  lemma OneMoreCovered(src: Source, held: set<Key>, items: seq<Item>, surface: int, days: seq<int>, day: int)
    requires MoversCovered(src, held, items, surface, days) && Covered(src, held, items, DayIndex(surface, day))
    ensures MoversCovered(src, held, items, surface, days + [day])
  {
    hide Covered;
  }

  /** A surface's movers: the windows and keyframes of each day the state does not hold as final, then the day. */
  method PlanMovers(src: Source, held: set<Key>, every: nat, items0: seq<Item>,
                    s: Surface) returns (out: Option<seq<Item>>)
    requires every > 0 && PlanOk(src, items0, held) && AllPlanned(src, held, every, items0, {})
    ensures out.Some? ==>
            items0 <= out.value && PlanOk(src, out.value, held)
            && AllPlanned(src, held, every, out.value, {})
                          && MoversCovered(src, held, out.value, s.id, s.days)
  {
    hide PlanOk, AllPlanned, DataKeys, Keys, MoversCovered;
    var items := items0;
    NoMovers(src, held, items, s);
    for n := 0 to |s.days|
      invariant items0 <= items && PlanOk(src, items, held) && AllPlanned(src, held, every, items, {})
      invariant MoversCovered(src, held, items, s.id, s.days[..n])
    {
      var k := DayIndex(s.id, s.days[n]);
      assert s.days[..n + 1] == s.days[..n] + [s.days[n]];
      var was := items;
      if k !in held {
        match MoversOf(src, k)
        case NotFound =>
        case Failed =>
          return None;
        case Found(m) =>
          items := PlanMoversDay(src, held, every, items, k, m);
      }
      MoversMore(src, held, was, items, s.id, s.days[..n]);
      OneMoreCovered(src, held, items, s.id, s.days[..n], s.days[n]);
    }
    assert s.days[..|s.days|] == s.days;
    return Some(items);
  }

  lemma NoMovers(src: Source, held: set<Key>, items: seq<Item>, s: Surface)
    ensures MoversCovered(src, held, items, s.id, s.days[..0])
  {}

  method PlanMoversDay(src: Source, held: set<Key>, every: nat, items0: seq<Item>, k: Key,
                       m: Movers) returns (items: seq<Item>)
    requires every > 0 && PlanOk(src, items0, held) && AllPlanned(src, held, every, items0, {})
    requires k.DayIndex? && k !in held && MoversOf(src, k) == Found(m)
    ensures items0 <= items && PlanOk(src, items, held) && AllPlanned(src, held, every, items, {}) && k in Keys(items)
  {
    hide PlanOk, AllPlanned, DataKeys, Keys;
    var windows := seq(|m.windows|, i requires 0 <= i < |m.windows| => Window(k.surface, m.windows[i]));
    var keyframes := seq(|m.keyframes|, i requires 0 <= i < |m.keyframes| => Keyframe(k.surface, m.keyframes[i]));
    items := AddAll(src, held, every, items0, {}, windows);
    forall i: nat | i < |m.windows| ensures Window(k.surface, m.windows[i]) in DataKeys(items) {
      assert windows[i] in DataKeys(items);
    }
    items := AddAll(src, held, every, items, {}, keyframes);
    forall i: nat | i < |m.keyframes| ensures Keyframe(k.surface, m.keyframes[i]) in DataKeys(items) {
      assert keyframes[i] in DataKeys(items);
    }
    var it := IndexItem(k, m.final);
    AllMore(src, held, every, items, {}, it);
    items := items + [it];
    MoversDone(src, held, every, items, k);
  }

  lemma MoversDone(src: Source, held: set<Key>, every: nat, items: seq<Item>, k: Key)
    requires every > 0 && k.DayIndex? && MoversOf(src, k).Found?
             && MoversPlanned(DataKeys(items), k.surface, MoversOf(src, k).value)
    requires AllPlanned(src, held, every, items, {} + {k}) || AllPlanned(src, held, every, items, {})
    ensures AllPlanned(src, held, every, items, {})
  {
    hide DataKeys, Keys, DayOf;
  }

  /** Every index of the datastores before number n, or of the surfaces before number m, is covered. */
  ghost predicate StoresCovered(src: Source, held: set<Key>, items: seq<Item>, n: nat) {
    forall i: nat :: i < n <= |src.datastores| ==>
      forall z <- src.datastores[i].levels :: DaysCovered(src, held, items, src.datastores[i].id, z,
          DaysOf(src, src.datastores[i]))
  }

  ghost predicate SurfacesCovered(src: Source, held: set<Key>, items: seq<Item>, m: nat) {
    forall i: nat :: i < m <= |src.surfaces| ==> MoversCovered(src, held, items, src.surfaces[i].id,
        src.surfaces[i].days)
  }

  lemma PlanMore(src: Source, held: set<Key>, items: seq<Item>, more: seq<Item>, n: nat, m: nat)
    requires StoresCovered(src, held, items, n) && SurfacesCovered(src, held, items, m) && items <= more
    ensures StoresCovered(src, held, more, n) && SurfacesCovered(src, held, more, m)
  {
    hide DaysCovered, MoversCovered, DaysOf;
    forall i: nat, z | i < n <= |src.datastores| && z in src.datastores[i].levels
      ensures DaysCovered(src, held, more, src.datastores[i].id, z, DaysOf(src, src.datastores[i]))
    {
      DaysMore(src, held, items, more, src.datastores[i].id, z, DaysOf(src, src.datastores[i]));
    }
    forall i: nat | i < m <= |src.surfaces| ensures MoversCovered(src, held, more, src.surfaces[i].id,
        src.surfaces[i].days) {
      MoversMore(src, held, items, more, src.surfaces[i].id, src.surfaces[i].days);
    }
  }

  lemma CatalogCovered(src: Source, held: set<Key>, items: seq<Item>)
    requires StoresCovered(src, held, items, |src.datastores|) && SurfacesCovered(src, held, items, |src.surfaces|)
    ensures forall k :: InCatalog(src, k) ==> Covered(src, held, items, k)
  {
    hide DaysOf, Covered;
    forall k | InCatalog(src, k) ensures Covered(src, held, items, k) {
      if k.Timeline? {
        var d :| d in src.datastores && d.id == k.ds && k.z in d.levels && k.day in DaysOf(src, d);
        var i: nat :| i < |src.datastores| && src.datastores[i] == d;
        assert DaysCovered(src, held, items, d.id, k.z, DaysOf(src, d));
      } else {
        var s :| s in src.surfaces && s.id == k.surface && k.day in s.days;
        var i: nat :| i < |src.surfaces| && src.surfaces[i] == s;
        assert MoversCovered(src, held, items, s.id, s.days);
      }
    }
  }

  /** A round's plan: every index of the catalog that is not held is planned, as final when it is, and what it names is
      planned with it. It fails when the source does. */
  method Plan(src: Source, held: set<Key>, every: nat) returns (out: Option<seq<Item>>)
    requires every > 0 && SourceOk(src)
    ensures out.Some? ==>
            ItemsOk(out.value, held) && AllPlanned(src, held, every, out.value, {})
            && PlanOk(src, out.value, held)
                          && forall k :: InCatalog(src, k) ==> Covered(src, held, out.value, k)
    ensures out.Some? ==> PalettesIn(src, out.value, |src.datastores|) && forall page <- src.pages :: page in out.value
  {
    hide PlanOk, AllPlanned, DataKeys, Keys, DaysOf, DaysCovered, MoversCovered, InCatalog, Covered, ItemsOk, PaletteIn;
    PlanStart(src, held, every);
    var assets := seq(|src.assets|, i requires 0 <= i < |src.assets| => Asset(src.assets[i]));
    var items := AddAll(src, held, every, [], {}, assets);
    forall i: nat | i < |src.assets| ensures Asset(src.assets[i]) in DataKeys(items) {
      assert assets[i] in DataKeys(items);
    }
    for n := 0 to |src.datastores|
      invariant PlanOk(src, items, held) && AllPlanned(src, held, every, items, {})
      invariant StoresCovered(src, held, items, n) && SurfacesCovered(src, held, items, 0) && PalettesIn(src, items, n)
    {
      var more := PlanDatastore(src, held, every, items, src.datastores[n]);
      if more.None? {
        return None;
      }
      PlanMore(src, held, items, more.value, n, 0);
      PalettesMore(src, items, more.value, n);
      items := more.value;
    }
    for n := 0 to |src.surfaces|
      invariant PlanOk(src, items, held) && AllPlanned(src, held, every, items, {})
      invariant StoresCovered(src, held, items, |src.datastores|) && SurfacesCovered(src, held, items, n)
      invariant PalettesIn(src, items, |src.datastores|)
    {
      var more := PlanMovers(src, held, every, items, src.surfaces[n]);
      if more.None? {
        return None;
      }
      PlanMore(src, held, items, more.value, |src.datastores|, n);
      PalettesMore(src, items, more.value, |src.datastores|);
      items := more.value;
    }
    for n := 0 to |src.pages|
      invariant PlanOk(src, items, held) && AllPlanned(src, held, every, items, {})
      invariant StoresCovered(src, held, items, |src.datastores|) && SurfacesCovered(src, held, items, |src.surfaces|)
      invariant PalettesIn(src, items, |src.datastores|) && forall i: nat :: i < n ==> src.pages[i] in items
    {
      AllMore(src, held, every, items, {}, src.pages[n]);
      PalettesMore(src, items, items + [src.pages[n]], |src.datastores|);
      PlanMore(src, held, items, items + [src.pages[n]], |src.datastores|, |src.surfaces|);
      items := items + [src.pages[n]];
    }
    PlanIsItems(src, items, held);
    CatalogCovered(src, held, items);
    return Some(items);
  }

  lemma PlanStart(src: Source, held: set<Key>, every: nat)
    requires every > 0
    ensures PlanOk(src, [], held) && AllPlanned(src, held, every, [], {})
  {}
}
