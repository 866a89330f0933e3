/** The coarse levels of one datastore: marking, scheduled build passes, publication after a sync,
    restart, and what readers may rely on. */
module Pyramid {
  import opened Common
  import opened Pixels
  import opened Downsample
  import opened CoarseSeries
  import opened PyramidTiles
  import opened PyramidWorld
  import opened PyramidState
  import opened PyramidPass
  import opened PyramidAnswers
  import opened PyramidLatest

  class Pyramid {
    const cf: Config

    /** The z0 store: its history and committed horizon. */
    var hist: History
    var horizon: TimeMs

    var tiles: map<Tile, CTile>
    var dirty: set<Tile>
    var z0seen: map<Tile, TimeMs>
    var builtT: TimeMs

    /** The last live sequence given out, that of each tile, and the images cached under them. */
    var liveSeq: nat
    var seqs: Seqs
    var cache: Cache

    /** When each cached image was computed. */
    ghost var shots: map<LiveKey, Shot>

    function D(): Dir
      reads this
    {
      Dir(hist, horizon, tiles, dirty, z0seen)
    }

    ghost predicate Valid()
      reads this
    {
      ConfigOk(cf) && DirOk(D(), cf, {}) && builtT <= horizon && CacheOk(D(), cf, liveSeq, seqs, cache, shots)
    }

    /** The images cached under the tiles' present sequences. */
    function Live(): Live
      reads this
    {
      Cached(seqs, cache)
    }

    constructor (cf: Config, horizon: TimeMs)
      requires ConfigOk(cf) && horizon > NEVER
      ensures Valid() && this.cf == cf && D() == Dir(map[], horizon, map[], {}, map[]) && builtT == NEVER
      ensures cache == map[] && liveSeq == 0
    {
      this.cf, this.horizon := cf, horizon;
      hist, tiles, dirty, z0seen, builtT := map[], map[], {}, map[], NEVER;
      liveSeq, seqs, cache, shots := 0, map[], map[], map[];
    }

    /** The z0 store commits a version; it is effective after the horizon. */
    method TerrainCommit(z: Tile, v: Stamp)
      requires Valid() && z.k == 0 && v.t > horizon
      requires z in hist && hist[z] != [] ==> hist[z][|hist[z]| - 1].t <= v.t
      modifies this`hist
      ensures Valid() && hist == old(hist)[z := (if z in old(hist) then old(hist)[z] else []) + [v]]
    {
      hide DirOk, ConfigOk;
      CommitOk(D(), cf, z, v);
      ghost var d := D();
      hist := hist[z := (if z in hist then hist[z] else []) + [v]];
      GrownOne(d.hist, z, v, horizon);
      CacheKept(d, D(), cf, liveSeq, seqs, cache, shots);
    }

    method RaiseHorizon(to: TimeMs)
      requires Valid() && to >= horizon
      modifies this`horizon
      ensures Valid() && horizon == to
    {
      hide DirOk, ConfigOk;
      HorizonOk(D(), cf, to);
      GrownSelf(hist, horizon);
      CacheKept(D(), D().(horizon := to), cf, liveSeq, seqs, cache, shots);
      horizon := to;
    }

    /** Marks every coarse ancestor of z, which has versions up to lastT. */
    method Propagate(z: Tile, lastT: TimeMs)
      requires Valid() && z.k == 0
      modifies this`tiles, this`dirty, this`z0seen, this`liveSeq, this`seqs
      ensures Valid() && z in z0seen && z0seen[z] >= lastT
      ensures forall y <- old(z0seen) :: y in z0seen && z0seen[y] >= old(z0seen)[y]
      ensures Marks(old(tiles), tiles) && MarksFrom(old(tiles), tiles, z, lastT) && old(dirty) <= dirty
              && DirtyFrom(old(dirty), dirty, tiles, z)
      ensures z in old(z0seen) && old(z0seen)[z] >= lastT ==>
                D() == old(D()) && liveSeq == old(liveSeq) && seqs == old(seqs)
    {
      hide DirOk, Ancestor, MarkOne, Marks, MarksFrom, MarkedBelow, ConfigOk, CacheOk, SeqsAfter, SeqAfter, DirtyFrom;
      NoneDirty(dirty, tiles, z);
      MarksSelf(tiles);
      MarksFromSelf(tiles, z, lastT);
      NoneMarked(tiles, z, lastT);
      if z in z0seen && z0seen[z] >= lastT {
        return;
      }
      ghost var seen := z0seen;
      z0seen := z0seen[z := lastT];
      CacheSeen(D().(z0seen := seen), D(), cf, liveSeq, seqs, cache, shots);
      for k := 1 to cf.levels + 1
        invariant z0seen == seen[z := lastT] && DirOk(D().(z0seen := seen), cf, {})
        invariant MarkedBelow(tiles, z, k, lastT)
        invariant Marks(old(tiles), tiles) && MarksFrom(old(tiles), tiles, z, lastT) && old(dirty) <= dirty
        invariant CacheOk(D(), cf, liveSeq, seqs, cache, shots) && DirtyFrom(old(dirty), dirty, tiles, z)
      {
        DirtyFromOne(old(dirty), D(), z, k, lastT);
        MarkStep(D().(z0seen := seen), cf, z, k, lastT, old(tiles));
        MarksKnown(old(tiles), tiles);
        MarksFromOne(old(tiles), D(), z, k, lastT);
        CacheMarked(D(), cf, liveSeq, seqs, cache, shots, Ancestor(z, k), lastT);
        MarkAncestor(Ancestor(z, k), lastT);
      }
      AllMarked(D().(z0seen := seen), cf, z, lastT);
    }

    /** Marks one ancestor: its newest z0 change, which gives it a new live sequence, and its dirty mark when that is
        newer than its versions. */
    method MarkAncestor(a: Tile, t: TimeMs)
      modifies this`tiles, this`dirty, this`liveSeq, this`seqs
      ensures D() == MarkOne(old(D()), a, t)
      ensures liveSeq == SeqAfter(old(D()), old(liveSeq), a, t)
              && seqs == SeqsAfter(old(D()), old(liveSeq), old(seqs), a, t)
    {
      var ct := if a in tiles then tiles[a] else NewTile();
      seqs := seqs[a := if a in seqs then seqs[a] else 0];
      if t > ct.descT {
        ct := ct.(descT := t);
        liveSeq := liveSeq + 1;
        seqs := seqs[a := liveSeq];
      }
      tiles := tiles[a := ct];
      if ct.books.count == 0 || ct.descT > GoodAt(ct) {
        dirty := dirty + {a};
      }
    }

    /** Reads child i of c for a build. */
    method ReadKid(c: Tile, i: nat) returns (im: Option<Image>)
      requires TilesOk(D(), cf) && c.k >= 1 && i < 4
      ensures im == Kid(D(), c, i, horizon)
    {
      hide Average;
      var child := Child(c, i);
      if c.k == 1 {
        im := Z0At(hist, child, horizon);
      } else if child in tiles && tiles[child].n > 0 {
        assert TileOk(hist, horizon, cf.limit, child, tiles[child]);
        var read := CoarseSeries.Read(tiles[child].log, cf.limit, tiles[child].n);
        im := Some(read);
      } else {
        im := None;
      }
    }

    /** Computes tile c at the horizon and appends a version if its content changed. */
    method BuildTile(c: Tile, f: Fate, ghost open: set<Tile>) returns (ok: bool, entry: bool)
      requires DirOk(D(), cf, open) && c in dirty && KidsCurrent(D(), c)
      modifies this`tiles, this`dirty
      ensures DirOk(D(), cf, if entry then open + {c} else open)
      ensures tiles.Keys == old(tiles.Keys) && (forall x <- tiles :: x != c ==> tiles[x] == old(tiles)[x])
      ensures old(dirty) - {c} <= dirty <= old(dirty)
      ensures Later(old(tiles)[c], tiles[c], horizon) && tiles[c].n == old(tiles)[c].n
      ensures ok ==> !tiles[c].suspect && tiles[c].books.count > 0 && GoodAt(tiles[c]) == horizon
                     && (entry || tiles[c].books.count == tiles[c].n)
      ensures Well(f) ==> ok
      ensures ok ==> Took(hist, horizon, c, old(tiles)[c], tiles[c], c in dirty)
    {
      hide Average, TileOk, Build, Parent, Kids, Well, Took;
      assert TileOk(hist, horizon, cf.limit, c, tiles[c]);
      TileFacts(hist, horizon, cf.limit, c, tiles[c]);
      var k0 := ReadKid(c, 0);
      var k1 := ReadKid(c, 1);
      var k2 := ReadKid(c, 2);
      var k3 := ReadKid(c, 3);
      var next := BuildParent([k0, k1, k2, k3]);
      KidsRead(D(), c, [k0, k1, k2, k3]);
      KidsAverage(D(), c);
      BuildOk(hist, horizon, cf.limit, cf.ratio, c, tiles[c], f);
      BuildFrame(tiles[c], horizon, next, f, cf.limit, cf.ratio);
      if Well(f) { WellBuilt(tiles[c], horizon, next, f, cf.limit, cf.ratio); }
      BuildTook(hist, horizon, cf.limit, cf.ratio, c, tiles[c], f);
      var b := Build(tiles[c], horizon, next, f, cf.limit, cf.ratio);
      AfterBuildOk(D(), cf, open, c, b);
      tiles := tiles[c := b.ct];
      if b.clear {
        dirty := dirty - {c};
      }
      ok, entry := b.ok, b.entry;
    }

    /** Syncs and publishes the tiles a level touched; a tile whose sync fails is dirty again. */
    method CommitLevel(entries: set<Tile>, syncs: Tile -> bool) returns (ok: bool)
      requires DirOk(D(), cf, entries) && entries <= tiles.Keys
      modifies this`tiles, this`dirty
      ensures DirOk(D(), cf, {}) && tiles.Keys == old(tiles.Keys)
      ensures forall x <- tiles :: x !in entries ==> tiles[x] == old(tiles)[x]
      ensures forall x <- entries :: tiles[x] == Committed(old(tiles)[x], syncs(x))
      ensures dirty == old(dirty) + set x | x in entries && old(Unpublished(x)) && !syncs(x)
      ensures ok <==> forall x <- entries :: old(Unpublished(x)) ==> syncs(x)
    {
      hide DirOk;
      ok := true;
      var rest := entries;
      while rest != {}
        invariant rest <= entries && DirOk(D(), cf, rest) && tiles.Keys == old(tiles.Keys)
        invariant forall x <- tiles :: x !in entries || x in rest ==> tiles[x] == old(tiles)[x]
        invariant forall x <- entries - rest :: tiles[x] == Committed(old(tiles)[x], syncs(x))
        invariant dirty == old(dirty) + set x | x in entries - rest && old(Unpublished(x)) && !syncs(x)
        invariant ok <==> forall x <- entries - rest :: old(Unpublished(x)) ==> syncs(x)
        decreases rest
      {
        var c :| c in rest;
        AfterCommitOk(D(), cf, rest, c, syncs(c));
        if tiles[c].books.count != tiles[c].n {
          if syncs(c) {
            tiles := tiles[c := Published(tiles[c])];
          } else {
            dirty := dirty + {c};
            ok := false;
          }
        }
        rest := rest - {c};
      }
    }

    /** The tile has records waiting for their publication. */
    predicate Unpublished(c: Tile)
      requires c in tiles
      reads this
    {
      tiles[c].books.count != tiles[c].n
    }

    /** Builds `todo`, the scheduled tiles of level k, in any order until one fails; `entries` are those the level's
        commit must look at. */
    method BuildAll(todo: set<Tile>, ghost k: nat, fates: Tile -> Fate) returns (ok: bool, entries: set<Tile>)
      requires DirOk(D(), cf, {}) && todo <= dirty
      requires forall c <- todo :: c.k == k && KidsCurrent(D(), c)
      modifies this`tiles, this`dirty
      ensures entries <= todo <= tiles.Keys && DirOk(D(), cf, entries) && Advanced(old(D()), D(), todo)
      ensures forall x <- todo :: tiles[x].n == old(tiles)[x].n
      ensures ok ==> forall x <- todo :: Ready(tiles[x], horizon, x in entries)
      ensures (forall c <- todo :: Well(fates(c))) ==> ok
      ensures ok ==> forall x <- todo :: Took(hist, horizon, x, old(tiles)[x], tiles[x], x in dirty)
    {
      hide DirOk, KidsCurrent, Later, Up, Child, Average, Well, Took;
      ok, entries := true, {};
      var rest := todo;
      AdvancedSelf(D(), todo);
      DirtyKnown(D(), cf);
      while rest != {} && ok
        invariant rest <= todo <= tiles.Keys == old(tiles.Keys) && entries <= todo - rest && rest <= dirty
        invariant DirOk(D(), cf, entries) && Advanced(old(D()), D(), todo)
        invariant forall x <- rest :: tiles[x] == old(tiles)[x]
        invariant forall x <- todo :: tiles[x].n == old(tiles)[x].n
        invariant ok ==> forall x <- todo - rest :: Ready(tiles[x], horizon, x in entries)
        invariant (forall c <- todo :: Well(fates(c))) ==> ok
        invariant ok ==> forall x <- todo - rest :: Took(hist, horizon, x, old(tiles)[x], tiles[x], x in dirty)
        decreases rest
      {
        var c :| c in rest;
        KidsFrame(old(D()), D(), c);
        var entry;
        ok, entry := BuildTile(c, fates(c), entries);
        if entry {
          entries := entries + {c};
        }
        rest := rest - {c};
      }
    }

    /** Builds `todo`, the scheduled tiles of level k, then syncs and publishes what was built. */
    method BuildLevel(todo: set<Tile>, ghost k: nat, fates: Tile -> Fate, syncs: Tile -> bool) returns (ok: bool)
      requires DirOk(D(), cf, {}) && todo <= dirty
      requires forall c <- todo :: c.k == k && KidsCurrent(D(), c)
      modifies this`tiles, this`dirty
      ensures DirOk(D(), cf, {}) && Advanced(old(D()), D(), todo)
      ensures ok ==> forall c <- todo :: UpTo(tiles[c], horizon)
      ensures (forall c <- todo :: Well(fates(c)) && syncs(c)) ==> ok
      ensures ok ==> forall x <- todo :: Took(hist, horizon, x, old(tiles)[x], tiles[x], x in dirty)
    {
      hide DirOk, KidsCurrent, Later, Up, Child, Average, Well, Took;
      var entries;
      ok, entries := BuildAll(todo, k, fates);
      label afterBuild:
      var committed := CommitLevel(entries, syncs);
      forall c <- todo
        ensures Later(old(tiles)[c], tiles[c], horizon)
      {
        CountBounds(old@afterBuild(D()), cf, entries, c);
        PublishedLater(old(tiles)[c], old@afterBuild(tiles)[c], horizon);
      }
      forall x <- todo | ok && committed
        ensures Took(hist, horizon, x, old(tiles)[x], tiles[x], x in dirty)
      {
        TookSame(hist, horizon, x, old(tiles)[x], old@afterBuild(tiles)[x], tiles[x], old@afterBuild(x in dirty),
          x in dirty);
      }
      ok := ok && committed;
    }

    /** Whether every coarse child of a new tile is built and published. */
    method ChildrenCurrent(c: Tile) returns (yes: bool)
      requires DirOk(D(), cf, {}) && Covered(D()) && 1 <= c.k <= cf.levels
      ensures yes ==> KidsCurrent(D(), c)
      ensures yes <==> KidsClear(D(), c)
    {
      hide DirOk, Covered, Current;
      if c.k == 1 {
        return true;
      }
      for i := 0 to 4
        invariant forall j :: 0 <= j < i ==> ChildClear(D(), c, j) && Current(hist, horizon, tiles, Child(c, j))
      {
        var child := Child(c, i);
        if child in tiles && (child in dirty || tiles[child].books.count != tiles[child].n) {
          assert !ChildClear(D(), c, i);
          return false;
        }
        ClearChild(D(), cf, c, i);
      }
      yes := true;
    }

    /** The tiles of `todo` whose children are current. */
    method WithCurrentChildren(todo: set<Tile>) returns (kept: set<Tile>)
      requires DirOk(D(), cf, {}) && Covered(D()) && forall c <- todo :: 1 <= c.k <= cf.levels
      ensures kept <= todo && forall c <- kept :: KidsCurrent(D(), c)
      ensures forall c <- todo :: c in kept <==> KidsClear(D(), c)
    {
      hide DirOk, Covered, KidsCurrent, KidsClear;
      kept := {};
      var rest := todo;
      while rest != {}
        invariant rest <= todo && kept <= todo - rest && forall c <- kept :: KidsCurrent(D(), c)
        invariant forall c <- todo - rest :: c in kept <==> KidsClear(D(), c)
        decreases rest
      {
        var c :| c in rest;
        var yes := ChildrenCurrent(c);
        if yes {
          kept := kept + {c};
        }
        rest := rest - {c};
      }
    }

    /** Which of the scheduled tiles of level k are built: all of a due level's, else those whose children are
        current. */
    method LevelTodo(k: nat, prev: TimeMs, force: bool, level: set<Tile>) returns (todo: set<Tile>)
      requires ConfigOk(cf) && 1 <= k <= cf.levels && DirOk(D(), cf, {}) && Covered(D()) && forall c <- level ::
                 c.k == k
      requires forall j :: 1 <= j < k && j <= cf.levels && Due(cf, j, prev, horizon, force) ==> LevelCurrent(D(), j)
      ensures todo <= level && (Due(cf, k, prev, horizon, force) ==> todo == level)
      ensures !Due(cf, k, prev, horizon, force) ==> forall c <- level :: c in todo <==> KidsClear(D(), c)
      ensures forall c <- todo :: KidsCurrent(D(), c)
    {
      hide DirOk, Covered, Due, LevelCurrent, KidsCurrent, KidsClear;
      todo := level;
      if !Due(cf, k, prev, horizon, force) {
        todo := WithCurrentChildren(level);
      } else {
        DueKids(D(), cf, k, prev, force, level);
      }
    }

    /** Level k of a pass that took `done` on the finer levels. */
    method PassLevel(k: nat, prev: TimeMs, force: bool, scheduled: set<Tile>, fates: Tile -> Fate, syncs: Tile -> bool,
                     ghost d0: Dir, ghost done: set<Tile>)
      returns (ok: bool, ghost todo: set<Tile>)
      requires ConfigOk(cf) && 1 <= k <= cf.levels && PassInv(d0, D(), cf, prev, force, k, done, true)
      requires scheduled == Scheduled(d0, cf, prev, force) && TookAll(d0, D(), done)
      modifies this`tiles, this`dirty
      ensures PassInv(d0, D(), cf, prev, force, k + 1, done + todo, ok)
      ensures scheduled == {} || AllWell(fates, syncs) ==> ok
      ensures ok ==> TookAll(d0, D(), done + todo)
    {
      hide Took, TookAll, Well, DirOk, Covered, Due, LevelCurrent, KidsCurrent, Advanced, ConfigOk, KidsClear, TakenOff;
      ghost var d1 := D();
      AdvancedFacts(d0, d1, done);
      var level := set c | c in scheduled && c.k == k;
      StillDirty(d0, d1, done, level);
      level := LevelTodo(k, prev, force, level);
      todo := level;
      ok := BuildLevel(level, k, fates, syncs);
      LevelAdds(d0, d1, D(), cf, prev, force, k, done, todo, ok);
      if ok { TookMore(d0, d1, D(), done, todo); }
    }

    /** Builds, at the horizon, every dirty tile of every due level and every dirty tile without a version
        whose children are current, level by level until one fails; `done` are the tiles taken. */
    method Pass(prev: TimeMs, force: bool, fates: Tile -> Fate, syncs: Tile -> bool) returns (ok: bool,
                ghost done: set<Tile>)
      requires Valid() && Covered(D())
      modifies this`tiles, this`dirty
      ensures Valid() && PassInv(old(D()), D(), cf, prev, force, cf.levels + 1, done, ok)
      ensures NothingDue(old(D()), cf, prev, force) ==> ok && D() == old(D()) && done == {}
      ensures AllWell(fates, syncs) ==> ok
      ensures ok ==> TookAll(old(D()), D(), done)
    {
      hide DirOk, Covered, ConfigOk, NothingDue, PassInv, AllWell, CacheOk, TookAll;
      NothingTook(D());
      ghost var d0 := D();
      PassStart(d0, cf, prev, force);
      var scheduled := Scheduled(D(), cf, prev, force);
      NothingScheduled(D(), cf, prev, force);
      ok, done := true, {};
      if dirty == {} {
        NothingDirty(D(), cf, prev, force);
        return;
      }
      var k := 1;
      while k <= cf.levels && ok
        invariant 1 <= k <= cf.levels + 1 && PassInv(d0, D(), cf, prev, force, k, done, ok)
        invariant scheduled == {} || AllWell(fates, syncs) ==> ok
        invariant ok ==> TookAll(d0, D(), done)
        decreases cf.levels + 1 - k
      {
        ghost var todo;
        ok, todo := PassLevel(k, prev, force, scheduled, fates, syncs, d0, done);
        done := done + todo;
        k := k + 1;
      }
      PassStops(d0, D(), cf, prev, force, k, done, ok);
      NothingTaken(d0, D(), cf, prev, force, done, ok);
      PassCache(d0, D(), cf, prev, force, done, ok, liveSeq, seqs, cache, shots);
    }

    /** Marks what the z0 store committed, then builds the levels due at the horizon (all of them with
        `force`); builtT moves to the horizon when everything succeeded. */
    method Update(force: bool, fates: Tile -> Fate, syncs: Tile -> bool) returns (ok: bool, ghost done: set<Tile>,
                  ghost d0: Dir)
      requires Valid()
      modifies this`tiles, this`dirty, this`z0seen, this`builtT, this`liveSeq, this`seqs
      ensures Valid()
      ensures forall t0 :: t0 <= horizon && Final(old(tiles), t0) ==> Keeps(old(tiles), tiles, t0) && Final(tiles, t0)
      ensures !ok || hist == map[] || horizon == 0 ==> builtT == old(builtT)
      ensures hist == map[] || horizon == 0 ==> ok && D() == old(D())
      ensures ok && hist != map[] && horizon != 0 ==>
                && builtT == horizon && Covered(D())
                && (forall j :: 1 <= j <= cf.levels && Due(cf, j, Before(old(builtT), horizon), horizon, force) ==>
                    LevelCurrent(D(), j))
                && (Final(tiles, builtT) <==>
                    forall c <- old(tiles) :: Staged(old(tiles)[c]) && c !in done ==>
                        old(tiles)[c].log[old(tiles)[c].n].t >= horizon)
                && (forall c <- old(tiles) :: Staged(old(tiles)[c]) ==>
                      (c in done <==>
                       Due(cf, c.k, Before(old(builtT), horizon), horizon, force)
                       || (old(tiles)[c].books.count == 0 && KidsClear(D(), c))))
      ensures old(Covered(D())) && NothingDue(old(D()), cf, Before(old(builtT), horizon), force) ==>
                ok && D() == old(D())
      ensures AllWell(fates, syncs) ==> ok
      ensures hist != map[] && horizon != 0 ==>
                DirOk(d0, cf, {}) && Covered(d0) && d0.hist == hist && d0.horizon == horizon
                && Marks(old(tiles), d0.tiles)
                && (AllBefore(hist, horizon) ==> MarksUpTo(old(tiles), d0.tiles, hist, horizon))
                && PassInv(d0, D(), cf, Before(old(builtT), horizon), force, cf.levels + 1, done, ok)
                && (ok ==> TookAll(d0, D(), done))
      ensures old(Covered(D())) ==>
                Advanced(old(D()), D(), done) && liveSeq == old(liveSeq) && seqs == old(seqs)
                && forall c <- done ::
                     (ok ==> c in tiles && UpTo(tiles[c], horizon))
                     && (c in old(tiles) && c.k >= 1 && old(tiles)[c].books.count > 0 ==>
                           Due(cf, c.k, Before(old(builtT), horizon), horizon, force))
    {
      hide Covered, NothingDue, DirOk, Due, LevelCurrent, Keeps, Final, FinalTile, PassInv, Staged, ConfigOk, Marks,
        KidsClear, CacheOk, AllWell, Advanced, UpTo, TookAll, MarksUpTo, AllBefore;
      done, d0 := {}, D();
      if hist == map[] || horizon == 0 {
        NothingChanges(D(), cf);
        AdvancedSelf(D(), {});
        return true, {}, d0;
      }
      MarkAll();
      var prev := Before(builtT, horizon);
      d0 := D();
      ok, done := Pass(prev, force, fates, syncs);
      if ok {
        builtT := Max(builtT, horizon);
        PassLevels(d0, D(), cf, prev, force, done);
      }
      UpdateKeeps(old(D()), d0, D(), cf, prev, force, done, ok);
      PassDone(d0, D(), cf, prev, force, done, ok);
    }

    /** Propagates one z0 tile that has versions; `tiles0` are the tiles when marking began. */
    method MarkTile(z: Tile, ghost tiles0: map<Tile, CTile>)
      requires Valid() && Marks(tiles0, tiles) && z in hist && hist[z] != []
      requires AllBefore(hist, horizon) ==> MarksUpTo(tiles0, tiles, hist, horizon)
      modifies this`tiles, this`dirty, this`z0seen, this`liveSeq, this`seqs
      ensures Valid() && Marks(tiles0, tiles) && z in z0seen && z0seen[z] >= hist[z][|hist[z]| - 1].t
      ensures forall y <- old(z0seen) :: y in z0seen && z0seen[y] >= old(z0seen)[y]
      ensures AllBefore(hist, horizon) ==> MarksUpTo(tiles0, tiles, hist, horizon)
      ensures z in old(z0seen) && old(z0seen)[z] >= hist[z][|hist[z]| - 1].t ==>
                D() == old(D()) && liveSeq == old(liveSeq) && seqs == old(seqs)
    {
      hide DirOk, Marks, MarksUpTo, MarksFrom, ConfigOk, CacheOk;
      ghost var before := tiles;
      Z0Level(D(), cf, z);
      Propagate(z, hist[z][|hist[z]| - 1].t);
      MarksKnown(tiles0, before);
      MarksTrans(tiles0, before, tiles);
      if AllBefore(hist, horizon) { MarksUpToOn(tiles0, before, tiles, hist, z, horizon); }
    }

    /** Propagates every z0 tile that has versions. */
    method MarkAll()
      requires Valid()
      modifies this`tiles, this`dirty, this`z0seen, this`liveSeq, this`seqs
      ensures Valid() && Covered(D()) && Marks(old(tiles), tiles)
      ensures AllBefore(hist, horizon) ==> MarksUpTo(old(tiles), tiles, hist, horizon)
      ensures old(Covered(D())) ==> D() == old(D()) && liveSeq == old(liveSeq) && seqs == old(seqs)
    {
      hide DirOk, Marks, MarksUpTo, MarksFrom, ConfigOk, CacheOk;
      MarksSelf(tiles);
      MarksUpToSelf(tiles, hist, horizon);
      var rest := hist.Keys;
      while rest != {}
        invariant rest <= hist.Keys && Valid() && Marks(old(tiles), tiles)
        invariant AllBefore(hist, horizon) ==> MarksUpTo(old(tiles), tiles, hist, horizon)
        invariant old(Covered(D())) ==> D() == old(D()) && liveSeq == old(liveSeq) && seqs == old(seqs)
        invariant forall z <- hist :: z !in rest && hist[z] != [] ==>
                    z in z0seen && z0seen[z] >= hist[z][|hist[z]| - 1].t
        decreases rest
      {
        var z :| z in rest;
        if hist[z] != [] {
          MarkTile(z, old(tiles));
        }
        rest := rest - {z};
      }
    }

    /** Reopens the pyramid after a stop or a crash that left the first kept(c) records of every series,
        the synced ones at least. */
    method Restart(kept: Tile -> nat)
      requires Valid() && forall c <- tiles :: tiles[c].synced <= kept(c) <= |tiles[c].log|
      modifies this`tiles, this`dirty, this`z0seen, this`builtT, this`liveSeq, this`seqs, this`cache, this`shots
      ensures Valid() && cache == map[]
      ensures tiles == AllReopened(old(tiles), kept)
      ensures Final(tiles, builtT) && (forall c <- tiles :: tiles[c].log[tiles[c].n - 1].t <= builtT)
      ensures forall t0 :: Final(old(tiles), t0) ==> Keeps(old(tiles), tiles, t0) && Final(tiles, t0)
    {
      hide DirOk, ConfigOk, KeepsTile, FinalTile, Reopened, Final, Keeps, CacheOk, AllReopened;
      RestartOk(D(), cf, kept);
      Load(kept);
      NothingCached(D(), cf, seqs);
      builtT := NewestBuilt();
      RestartFinal(tiles, builtT);
    }

    /** Memory from the series files alone: their records are published, nothing is marked, seen or cached. */
    method Load(kept: Tile -> nat)
      requires forall c <- tiles :: kept(c) <= |tiles[c].log|
      modifies this`tiles, this`dirty, this`z0seen, this`liveSeq, this`seqs, this`cache, this`shots
      ensures D() == Dir(hist, horizon, AllReopened(old(tiles), kept), {}, map[])
      ensures liveSeq == 0 && seqs == (map c | c in tiles :: 0) && cache == map[] && shots == map[]
    {
      tiles, dirty, z0seen := AllReopened(tiles, kept), {}, map[];
      liveSeq, seqs, cache, shots := 0, map c | c in tiles :: 0, map[], map[];
    }

    /** When the newest published version became effective. */
    method NewestBuilt() returns (newest: TimeMs)
      requires horizon > NEVER && forall c <- tiles ::
                 0 < tiles[c].n <= |tiles[c].log| && tiles[c].log[tiles[c].n - 1].t <= horizon
      ensures newest <= horizon && forall c <- tiles :: tiles[c].log[tiles[c].n - 1].t <= newest
    {
      newest := NEVER;
      var rest := tiles.Keys;
      while rest != {}
        invariant rest <= tiles.Keys && newest <= horizon
        invariant forall c <- tiles :: c !in rest ==> tiles[c].log[tiles[c].n - 1].t <= newest
        decreases rest
      {
        var c :| c in rest;
        newest := Max(newest, tiles[c].log[tiles[c].n - 1].t);
        rest := rest - {c};
      }
    }

    /** The version of a coarse tile at t. */
    method VersionAt(c: Tile, t: TimeMs) returns (v: nat)
      requires Valid()
      ensures v == AnswerAt(tiles, c, t)
    {
      hide DirOk, ConfigOk;
      if c !in tiles || tiles[c].n == 0 {
        return 0;
      }
      LogBoundsOf(D(), cf, c);
      v := PublishedAt(tiles[c].log, tiles[c].n, t);
    }

    /** The newest content of a tile. What is computed for a pending tile is cached under its live sequence, and from
        then on served as it is. */
    method ReadLatest(c: Tile) returns (im: Image)
      requires Valid() && c in tiles && c.k >= 1
      modifies this`cache, this`shots
      ensures Valid() && Counted(D()) && im == Latest(D(), old(Live()), c)
      ensures Filled(D(), old(Live()), Live()) && forall k <- cache :: k in old(cache) || k.tile.k <= c.k
      ensures Pending(tiles[c]) ==> c in Live() && Live()[c] == im
      decreases c.k, 2
    {
      hide DirOk, ConfigOk, CacheOk, Latest, Pending, Filled;
      CountedIs(D(), cf);
      LatestIs(D(), Live(), c);
      CacheBounds(D(), cf, liveSeq, seqs, cache, shots);
      FilledSelf(D(), Live());
      var ct := tiles[c];
      if !Pending(ct) {
        im := Newest(c);
        return;
      }
      if LiveKey(c, seqs[c]) in cache {
        return cache[LiveKey(c, seqs[c])];
      }
      im := WalkKids(c);
      CacheMore(D(), cf, liveSeq, seqs, cache, shots, c, old(Live()));
      cache := cache[LiveKey(c, seqs[c]) := im];
      shots := shots[LiveKey(c, seqs[c]) := Shot(D(), old(Live()))];
    }

    /** The newest published version's content. */
    method Newest(c: Tile) returns (im: Image)
      requires Valid() && c in tiles && tiles[c].n <= |tiles[c].log|
      ensures im == Version(tiles[c].log, tiles[c].n)
    {
      hide ConfigOk, CacheOk;
      if tiles[c].n == 0 {
        return UNCHARTED;
      }
      LogSound(D(), cf, c);
      im := CoarseSeries.Read(tiles[c].log, cf.limit, tiles[c].n);
    }

    /** The average of the children's newest content, which is cached on the way. */
    method WalkKids(c: Tile) returns (im: Image)
      requires Valid() && Counted(D()) && c in tiles && c.k >= 1
      modifies this`cache, this`shots
      ensures Valid() && im == Walk(D(), old(Live()), c) && Filled(D(), old(Live()), Live())
      ensures forall k <- cache :: k in old(cache) || k.tile.k < c.k
      decreases c.k, 1
    {
      hide DirOk, ConfigOk, CacheOk, Filled, Latest, LatestKid;
      FilledSelf(D(), Live());
      var k0 := ReadLiveKid(c, 0, old(Live()));
      var k1 := ReadLiveKid(c, 1, old(Live()));
      var k2 := ReadLiveKid(c, 2, old(Live()));
      var k3 := ReadLiveKid(c, 3, old(Live()));
      im := BuildParent([k0, k1, k2, k3]);
    }

    method ReadLiveKid(c: Tile, i: nat, ghost live: Live) returns (im: Option<Image>)
      requires Valid() && Counted(D()) && c in tiles && c.k >= 1 && i < 4 && Filled(D(), live, Live())
      modifies this`cache, this`shots
      ensures Valid() && im == LatestKid(D(), live, c, i) && Filled(D(), live, Live())
      ensures forall k <- cache :: k in old(cache) || k.tile.k < c.k
      decreases c.k, 0
    {
      hide DirOk, ConfigOk, CacheOk, Filled, Latest;
      if c.k == 1 {
        return Z0At(hist, Child(c, i), tiles[c].descT);
      }
      if Child(c, i) !in tiles {
        return None;
      }
      ghost var before := Live();
      var read := ReadLatest(Child(c, i));
      FilledSame(D(), live, before, Child(c, i));
      FilledOn(D(), live, before, Live());
      im := Some(read);
    }

    /** Cached images may go at any time. */
    method Drop(keys: set<LiveKey>)
      requires Valid()
      modifies this`cache, this`shots
      ensures Valid() && cache == old(cache) - keys
    {
      hide DirOk, ConfigOk;
      cache, shots := cache - keys, shots - keys;
    }

    /** A published version of a coarse tile: the average of the z0 content at the time it became effective. */
    method ReadVersion(c: Tile, v: nat) returns (im: Image)
      requires Valid() && c in tiles && 1 <= v <= tiles[c].n && v <= |tiles[c].log|
      ensures im == Average(hist, c, tiles[c].log[v - 1].t) && ShowsWorld(im, hist, c, tiles[c].log[v - 1].t)
    {
      AverageIsWorld(hist, c, tiles[c].log[v - 1].t);
      hide Average, ConfigOk, ShowsWorld;
      assert TileOk(hist, horizon, cf.limit, c, tiles[c]);
      im := CoarseSeries.Read(tiles[c].log, cf.limit, v);
      assert Version(tiles[c].log, v - 1 + 1) == Average(hist, c, tiles[c].log[v - 1].t);
    }
  }
}
