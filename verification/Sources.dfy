/** What the server knows of each source of data: how far its data was applied, how long it holds its maps, and
    that a commit does not pass the data of a source that holds the map. */
module Sources {
  import opened Common

  type Src = int
  type MapKey = int

  /** A source and one of its maps. */
  datatype Feed = Feed(src: Src, mapKey: MapKey)

  /** One source: when it was last heard from, per map the newest time applied (or first registered) and when it
      last had data, whether it ended, and how many envelopes were heard. */
  datatype Source = Source(seen: int, maps: map<MapKey, TimeMs>, mapSeen: map<MapKey, int>, ended: bool, heard: nat)

  type Table = map<Src, Source>

  /** How long a source that is not heard from stays in the table: seven days. */
  const FORGET := 7 * 24 * HOUR

  function MapSeen(e: Source, mk: MapKey): int { if mk in e.mapSeen then e.mapSeen[mk] else e.seen }

  /** The source holds the map at wall time `now`. */
  predicate Live(m: Table, f: Feed, now: int, hold: int) {
    f.src in m && !m[f.src].ended && f.mapKey in m[f.src].maps && now - MapSeen(m[f.src], f.mapKey) <= hold
  }

  /** The source did not end, and had data for the map, or counts as heard from, no longer than the hold ago. */
  ghost predicate KeepsMap(m: Table, s: Src, mk: MapKey, now: int, hold: int) {
    && s in m && !m[s].ended && mk in m[s].maps
    && (if mk in m[s].mapSeen then m[s].mapSeen[mk] + hold >= now else m[s].seen + hold >= now)
  }

  predicate Registered(m: Table, f: Feed) { f.src in m && f.mapKey in m[f.src].maps }

  /** The newest time applied for the feed. */
  function W(m: Table, f: Feed): TimeMs
    requires Registered(m, f)
  {
    m[f.src].maps[f.mapKey]
  }

  /** No feed is forgotten and none goes back. */
  ghost predicate Grows(m: Table, m': Table) {
    forall f: Feed :: Registered(m, f) ==> Registered(m', f) && W(m, f) <= W(m', f)
  }

  /** From m, the table took the newest times of the feeds in `done`, and nothing else changed. */
  ghost predicate Took(m: Table, m': Table, w: map<Feed, TimeMs>, done: set<Feed>)
    requires done <= w.Keys
  {
    && (forall f <- done :: Registered(m', f))
    && (forall f: Feed :: Registered(m, f) ==> Registered(m', f))
    && (forall f: Feed :: Registered(m', f) ==>
          if f in done && (!Registered(m, f) || w[f] > W(m, f)) then W(m', f) == w[f]
              else Registered(m, f) && W(m', f) == W(m, f))
    && (forall s <- m ::
        s in m' && m'[s].ended == m[s].ended && m'[s].heard == m[s].heard && m'[s].seen == m[s].seen
        && m'[s].mapSeen == m[s].mapSeen)
    && (forall s <- m' :: s !in m ==> !m'[s].ended && m'[s].heard == 0 && m'[s].seen == 0 && m'[s].mapSeen == map[])
  }

  class Sources {
    const hold: int
    const start: int
    var m: Table
    var unknown: map<MapKey, TimeMs>

    /** Opens the table saved before: every source counts as heard from at the start, and the ones not heard from
        for a week are forgotten. */
    constructor (saved: Table, hold: int, start: int)
      ensures this.hold == hold && this.start == start && unknown == map[]
      ensures forall s <- m :: s in saved && start - saved[s].seen <= 604_800_000
      ensures forall f: Feed :: Registered(saved, f) && start - saved[f.src].seen <= 604_800_000 ==>
                Registered(m, f) && W(m, f) == W(saved, f) && (hold >= 0 && !saved[f.src].ended ==>
                    Live(m, f, start, hold))
    {
      this.hold, this.start, unknown := hold, start, map[];
      m := map s | s in saved && start - saved[s].seen <= FORGET ::
          saved[s].(seen := start, mapSeen := map[], heard := 0);
    }

    function Get(src: Src): Source
      reads this
    {
      if src in m then m[src] else Source(0, map[], map[], false, 0)
    }

    /** Holds each map that no source on record feeds at the newest data time in the database. */
    method HoldUnknown(newest: map<MapKey, TimeMs>)
      modifies this`unknown
      ensures forall mk :: mk in unknown <==> mk in old(unknown) || (mk in newest && forall s <- m :: mk !in m[s].maps)
      ensures forall mk <- unknown :: unknown[mk] == if mk in newest
              && (forall s <- m :: mk !in m[s].maps) then newest[mk] else old(unknown)[mk]
    {
      unknown := map mk | mk in unknown.Keys + newest.Keys && (mk in unknown || forall s <- m :: mk !in m[s].maps) ::
        if mk in newest && (forall s <- m :: mk !in m[s].maps) then newest[mk] else unknown[mk];
    }

    /** An envelope of src was read. */
    method Heard(src: Src, now: int)
      modifies this`m
      ensures Grows(old(m), m) && src in m && !m[src].ended && m[src].heard == old(Get(src)).heard + 1
      ensures forall s <- old(m) :: s in m && (s != src ==> m[s] == old(m)[s])
    {
      var e := Get(src);
      m := m[src := e.(seen := now, ended := false, heard := e.heard + 1)];
    }

    /** Data of src for the map was read: the source holds the map from now on, a new map at t. */
    method Seen(src: Src, mk: MapKey, t: TimeMs, now: int)
      modifies this
      ensures Grows(old(m), m) && Registered(m, Feed(src, mk))
              && Live(m, Feed(src, mk), now, if hold < 0 then 0 else hold)
      ensures W(m, Feed(src, mk)) == if Registered(old(m), Feed(src, mk)) then W(old(m), Feed(src, mk)) else t
      ensures m[src].heard == old(Get(src)).heard + 1 && unknown == old(unknown) - {mk}
      ensures forall f: Feed :: Registered(m, f) && f != Feed(src, mk) ==>
                Registered(old(m), f) && W(m, f) == W(old(m), f)
    {
      var e := Get(src);
      var maps := if mk in e.maps then e.maps else e.maps[mk := t];
      m := m[src := Source(now, maps, e.mapSeen[mk := now], false, e.heard + 1)];
      unknown := unknown - {mk};
    }

    /** The stores took a batch with these newest times. */
    method Applied(w: map<Feed, TimeMs>)
      modifies this`m
      ensures Took(old(m), m, w, w.Keys) && Grows(old(m), m) && forall f <- w :: Registered(m, f) && W(m, f) >= w[f]
    {
      var rest := w.Keys;
      var t := m;
      while rest != {}
        invariant rest <= w.Keys && Took(m, t, w, w.Keys - rest)
        decreases rest
      {
        var f :| f in rest;
        var e := if f.src in t then t[f.src] else Source(0, map[], map[], false, 0);
        if f.mapKey !in e.maps || w[f] > e.maps[f.mapKey] {
          t := t[f.src := e.(maps := e.maps[f.mapKey := w[f]])];
        }
        assert w.Keys - rest + {f} == w.Keys - (rest - {f});
        rest := rest - {f};
      }
      m := t;
    }

    /** An ended envelope of src was applied. `heard` is the count when it was read: an end that newer envelopes
        were read after is past. */
    method End(src: Src, heard: nat)
      modifies this
      ensures src in old(m) && old(m)[src].heard == heard ==>
                src in m && m == old(m)[src := old(m)[src].(ended := true)]
      ensures !(src in old(m) && old(m)[src].heard == heard) ==> m == old(m)
      ensures unknown == if src in old(m) && old(m)[src].heard == heard then old(unknown) - old(m)[src].maps.Keys
                else old(unknown)
      ensures Grows(old(m), m)
    {
      if src in m && m[src].heard == heard {
        m := m[src := m[src].(ended := true)];
        unknown := unknown - m[src].maps.Keys;
      }
    }

    /** Per map the lowest time of those holding it. */
    method Holds(now: int) returns (out: map<MapKey, TimeMs>)
      modifies this`unknown
      ensures m == old(m) && (hold <= 0 ==> out == map[] && unknown == old(unknown))
      ensures hold > 0 ==> unknown == if now - start > hold then map[] else old(unknown)
      ensures hold > 0 ==> forall s: Src, mk: MapKey :: KeepsMap(m, s, mk, now, hold) ==>
                mk in out && out[mk] <= m[s].maps[mk]
      ensures hold > 0 && now - start <= hold ==> forall mk <- old(unknown) :: mk in out && out[mk] <= old(unknown)[mk]
      ensures forall mk <- out ::
              (mk in old(unknown) && out[mk] == old(unknown)[mk])
              || exists s: Src :: KeepsMap(m, s, mk, now, hold) && out[mk] == m[s].maps[mk]
    {
      if hold <= 0 {
        return map[];
      }
      if now - start > hold {
        unknown := map[];
      }
      out := unknown;
      var feeds := set s, mk | s in m && mk in m[s].maps :: Feed(s, mk);
      while feeds != {}
        invariant forall f <- feeds :: Registered(m, f)
        invariant forall f: Feed :: Live(m, f, now, hold) ==>
                    f in feeds || (f.mapKey in out && out[f.mapKey] <= W(m, f))
        invariant forall mk <- unknown :: mk in out && out[mk] <= unknown[mk]
        invariant forall mk <- out ::
                  (mk in old(unknown) && out[mk] == old(unknown)[mk])
                  || exists s: Src :: Live(m, Feed(s, mk), now, hold) && out[mk] == W(m, Feed(s, mk))
        decreases feeds
      {
        var f :| f in feeds;
        if Live(m, f, now, hold) && (f.mapKey !in out || W(m, f) < out[f.mapKey]) {
          out := out[f.mapKey := W(m, f)];
          assert f == Feed(f.src, f.mapKey);
        }
        feeds := feeds - {f};
      }
      forall s: Src, mk: MapKey ensures KeepsMap(m, s, mk, now, hold) <==> Live(m, Feed(s, mk), now, hold) {}
    }

    /** The table is saved: sources not heard from for a week are forgotten. A source with no more than a week's
        hold, whose maps had no data after it was last heard from, is forgotten only once it holds nothing. */
    method Save(now: int)
      modifies this`m
      ensures forall s <- m :: s in old(m) && m[s] == old(m)[s]
      ensures forall s <- old(m) :: s in m <==> now - old(m)[s].seen <= 604_800_000
      ensures forall f: Feed ::
              hold <= FORGET && Live(old(m), f, now, hold)
              && MapSeen(old(m)[f.src], f.mapKey) <= old(m)[f.src].seen ==>
                Live(m, f, now, hold)
    {
      m := map s | s in m && now - m[s].seen <= FORGET :: m[s];
    }
  }

  // --- commits ---

  /** The horizon leaves data of the map from t on, less the grace, alone. */
  predicate Behind(horizon: map<MapKey, TimeMs>, mk: MapKey, t: TimeMs, grace: TimeMs) {
    mk in horizon ==> horizon[mk] <= t - grace
  }

  /** The commit loop beside the source table: a commit reads the holds first and moves the maps' horizons after,
      and anything may happen to the sources in between. */
  class CommitLoop {
    const sources: Sources
    const grace: TimeMs
    var horizon: map<MapKey, TimeMs>
    var holds: map<MapKey, TimeMs>
    var committing: bool

    /** The feeds whose data the running commit will not pass. */
    ghost var covered: set<Feed>
    /** The feeds whose data no commit has passed. */
    ghost var safe: set<Feed>
    /** The maps held for sources not known yet, that no commit has passed since. */
    ghost var waiting: set<MapKey>

    ghost predicate FeedsOk()
      reads this, sources
    {
      && (forall f <- safe :: Registered(sources.m, f) && Behind(horizon, f.mapKey, W(sources.m, f), grace))
      && (forall f <- covered :: Registered(sources.m, f) && f.mapKey in holds && holds[f.mapKey] <= W(sources.m, f))
    }

    ghost predicate WaitingOk()
      reads this, sources
    {
      forall mk <- waiting :: mk in sources.unknown ==>
        Behind(horizon, mk, sources.unknown[mk], grace)
            && (committing ==> mk in holds && holds[mk] <= sources.unknown[mk])
    }

    ghost predicate Valid()
      reads this, sources
    {
      grace >= 0 && FeedsOk() && WaitingOk()
    }

    constructor (sources: Sources, grace: TimeMs, horizon: map<MapKey, TimeMs>)
      requires grace >= 0
      ensures Valid() && safe == {} && waiting == {} && !committing && this.horizon == horizon
              && this.sources == sources && this.grace == grace
    {
      this.sources, this.grace, this.horizon, holds, committing := sources, grace, horizon, map[], false;
      covered, safe, waiting := {}, {}, {};
    }

    /** After the stores opened: a map no source feeds waits at its newest data, unless its horizon is past that. */
    method HoldUnknown(newest: map<MapKey, TimeMs>)
      requires Valid() && !committing && sources.hold > 0
      modifies this`waiting, sources
      ensures Valid() && safe == old(safe) && sources.m == old(sources.m)
      ensures forall mk <- newest ::
              (forall s <- sources.m :: mk !in sources.m[s].maps)
              && Behind(horizon, mk, newest[mk], grace) ==>
                mk in waiting && mk in sources.unknown && sources.unknown[mk] == newest[mk]
    {
      sources.HoldUnknown(newest);
      waiting := set mk | mk in sources.unknown && Behind(horizon, mk, sources.unknown[mk], grace);
    }

    /** Data at t registers its feed. From then on it is safe unless the horizon is past it already, and so is the
        first data of a source the map waited for: whatever a running commit read before, nothing passes it. */
    method Seen(f: Feed, t: TimeMs, now: int)
      requires Valid()
      modifies this`safe, this`covered, sources
      ensures Valid() && old(safe) <= safe && Registered(sources.m, f)
      ensures !Registered(old(sources.m), f) && Behind(horizon, f.mapKey, t, grace) ==> f in safe
      ensures !Registered(old(sources.m), f) && f.mapKey in waiting && f.mapKey in old(sources.unknown)
              && t >= old(sources.unknown)[f.mapKey] ==>
                f in safe && (committing ==> f in covered)
    {
      ghost var first := !Registered(sources.m, f);
      sources.Seen(f.src, f.mapKey, t, now);
      if first && Behind(horizon, f.mapKey, t, grace) {
        safe := safe + {f};
      }
      if first && f.mapKey in holds && holds[f.mapKey] <= t {
        covered := covered + {f};
      }
    }

    method Heard(src: Src, now: int)
      requires Valid()
      modifies sources
      ensures Valid() && sources.unknown == old(sources.unknown)
    {
      sources.Heard(src, now);
    }

    method Applied(w: map<Feed, TimeMs>)
      requires Valid()
      modifies sources
      ensures Valid() && sources.unknown == old(sources.unknown)
    {
      sources.Applied(w);
    }

    /** A source that ends gives up the holds kept for its maps; what is safe, covered or waiting stays so. */
    method End(src: Src, heard: nat)
      requires Valid()
      modifies sources
      ensures Valid() && sources.m.Keys == old(sources.m.Keys)
      ensures var ends := src in old(sources.m) && old(sources.m)[src].heard == heard;
              && sources.m == (if ends then old(sources.m)[src := old(sources.m)[src].(ended := true)]
                  else old(sources.m))
              && sources.unknown == (if ends then old(sources.unknown) - old(sources.m)[src].maps.Keys
                  else old(sources.unknown))
      ensures horizon == old(horizon) && holds == old(holds) && committing == old(committing)
      ensures safe == old(safe) && covered == old(covered) && waiting == old(waiting)
      ensures forall f <- safe :: Registered(sources.m, f) && W(sources.m, f) == W(old(sources.m), f)
    {
      sources.End(src, heard);
    }

    /** A commit begins: the holds are read. It will pass no feed that holds its map now. */
    method ReadHolds(now: int)
      requires Valid() && !committing
      modifies this`holds, this`covered, this`committing, this`waiting, sources
      ensures Valid() && committing && sources.m == old(sources.m)
      ensures safe == old(safe) && (sources.hold > 0 ==> waiting == old(waiting))
      ensures sources.hold > 0 ==> forall f: Feed :: f in covered <==>
                KeepsMap(sources.m, f.src, f.mapKey, now, sources.hold)
      ensures forall mk <- sources.unknown ::
              mk in old(sources.unknown)
              && sources.unknown[mk] == old(sources.unknown)[mk]
    {
      waiting := if sources.hold > 0 then waiting else {};
      holds := sources.Holds(now);
      committing := true;
      covered := if sources.hold > 0 then set s, mk | s in sources.m && mk in sources.m[s].maps
          && Live(sources.m, Feed(s, mk), now, sources.hold) :: Feed(s, mk)
                 else {};
      forall f: Feed ensures f in covered <==> sources.hold > 0 && Live(sources.m, f, now, sources.hold) {
        assert f == Feed(f.src, f.mapKey);
      }
    }

    /** The commit's target for a map: the grace before now, or before the map's hold when that is earlier. */
    function Target(mk: MapKey, now: TimeMs): (t: TimeMs)
      reads this
      ensures t + grace <= now && (t + grace == now || (mk in holds && t + grace == holds[mk]))
      ensures mk in holds ==> t + grace <= holds[mk]
    {
      if mk in holds && holds[mk] - grace < now - grace then holds[mk] - grace else now - grace
    }

    /** The store closes the map's windows that end at or before the target; its horizon only moves forward. */
    method CommitMap(mk: MapKey, now: TimeMs, windowStart: TimeMs)
      requires Valid() && committing && windowStart <= Target(mk, now)
      modifies this`horizon, this`safe
      ensures Valid()
      ensures forall f <- old(safe) :: f.mapKey != mk || f in covered ==> f in safe
      ensures forall f <- covered :: f.mapKey == mk && Behind(old(horizon), mk, W(sources.m, f), grace) ==> f in safe
      ensures mk in horizon && horizon[mk] >= windowStart && (mk in old(horizon) ==> horizon[mk] >= old(horizon)[mk])
      ensures forall x <- old(horizon) :: x in horizon && (x != mk ==> horizon[x] == old(horizon)[x])
    {
      horizon := horizon[mk := if mk in horizon && horizon[mk] > windowStart then horizon[mk] else windowStart];
      safe := set f | f in safe + covered && Behind(horizon, f.mapKey, W(sources.m, f), grace);
    }

    /** The commit ends: the table is saved. Only sources silent for a week are no longer followed. */
    method EndCommit(now: int)
      requires Valid() && committing
      modifies this`safe, this`covered, this`committing, sources
      ensures Valid() && !committing
      ensures safe <= old(safe)
      ensures forall f <- old(safe) :: f in safe <==> now - old(sources.m)[f.src].seen <= 604_800_000
      ensures forall s <- sources.m :: s in old(sources.m) && sources.m[s] == old(sources.m)[s]
    {
      sources.Save(now);
      safe := set f | f in safe && f.src in sources.m;
      covered, committing := {}, false;
    }

    /** The next data of a safe feed whose data comes in order is not late: it is the whole grace ahead. */
    lemma NotLate(f: Feed, t: TimeMs)
      requires Valid() && f in safe && t >= W(sources.m, f)
      ensures f.mapKey in horizon ==> t >= horizon[f.mapKey] + grace
    {
      assert Behind(horizon, f.mapKey, W(sources.m, f), grace);
    }
  }
}
