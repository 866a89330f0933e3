/** The content of coarse tiles between scheduled versions: what is computed from the children, what of it is cached,
    and two promises that hold only on conditions. */
module PyramidLatest {
  import opened Common
  import opened Pixels
  import opened Downsample
  import opened CoarseSeries
  import opened PyramidTiles
  import opened PyramidState
  import opened PyramidPass
  import opened PyramidAnswers

  function LastT(ct: CTile): TimeMs
    requires ct.n <= |ct.log|
  {
    if ct.n == 0 then NEVER else ct.log[ct.n - 1].t
  }

  /** The tile's newest content is in no published version. */
  predicate Pending(ct: CTile)
    requires ct.n <= |ct.log|
  {
    ct.descT != NEVER && (ct.n == 0 || ct.descT > Max(LastT(ct), ct.cleanT))
  }

  ghost predicate Counted(d: Dir) { forall c <- d.tiles :: d.tiles[c].n <= |d.tiles[c].log| }

  /** The images cached of tiles under their present live sequence. */
  type Live = map<Tile, Image>

  /** The newest content served for c: its newest version, or while that is behind the image cached, or else the
      average of its children's. */
  function Latest(d: Dir, live: Live, c: Tile): Image
    requires Counted(d) && c.k >= 1
    decreases c.k
  {
    if c !in d.tiles then UNCHARTED
    else if !Pending(d.tiles[c]) then Version(d.tiles[c].log, d.tiles[c].n)
    else if c in live then live[c]
    else Walk(d, live, c)
  }

  /** The average of the children's newest content. */
  function Walk(d: Dir, live: Live, c: Tile): Image
    requires Counted(d) && c in d.tiles && c.k >= 1
    decreases c.k, 1
  {
    Parent([LatestKid(d, live, c, 0), LatestKid(d, live, c, 1), LatestKid(d, live, c, 2), LatestKid(d, live, c, 3)])
  }

  function LatestKid(d: Dir, live: Live, c: Tile, i: nat): Option<Image>
    requires Counted(d) && c in d.tiles && c.k >= 1 && i < 4
    decreases c.k, 0
  {
    if c.k == 1 then Z0At(d.hist, Child(c, i), d.tiles[c].descT)
    else if Child(c, i) in d.tiles then Some(Latest(d, live, Child(c, i))) else None
  }

  /** live' is live with images more that were just computed. */
  ghost predicate Filled(d: Dir, live: Live, live': Live)
    requires Counted(d)
  {
    && (forall c <- live :: c in live' && live'[c] == live[c])
    && (forall c <- live' :: c !in live ==> c in d.tiles && c.k >= 1 && live'[c] == Walk(d, live, c))
  }

  /** Caching what was computed changes nothing that is served. */
  lemma {:induction false} FilledSame(d: Dir, live: Live, live': Live, c: Tile)
    requires Counted(d) && c.k >= 1 && Filled(d, live, live')
    ensures Latest(d, live', c) == Latest(d, live, c)
    ensures c in d.tiles ==> Walk(d, live', c) == Walk(d, live, c)
    ensures forall i :: 0 <= i < 4 && c in d.tiles ==> LatestKid(d, live', c, i) == LatestKid(d, live, c, i)
    decreases c.k
  {
    hide Parent, Z0At, Version, Pending;
    if c in d.tiles {
      forall i | 0 <= i < 4
        ensures LatestKid(d, live', c, i) == LatestKid(d, live, c, i)
      {
        if c.k > 1 { FilledSame(d, live, live', Child(c, i)); }
      }
      assert Walk(d, live', c) == Walk(d, live, c);
    }
  }

  lemma FilledSelf(d: Dir, live: Live)
    requires Counted(d)
    ensures Filled(d, live, live)
  {
  }

  lemma LatestIs(d: Dir, live: Live, c: Tile)
    requires Counted(d) && c in d.tiles && c.k >= 1
    ensures Latest(d, live, c) == if !Pending(d.tiles[c]) then Version(d.tiles[c].log, d.tiles[c].n)
              else if c in live then live[c] else Walk(d, live, c)
  {
  }

  lemma CountedIs(d: Dir, cf: Config)
    requires DirOk(d, cf, {})
    ensures Counted(d)
  {
    hide TilesOk, Marked, ClearOk, HistoryOk;
    forall c <- d.tiles ensures d.tiles[c].n <= |d.tiles[c].log| { LogBounds(d, cf, c); }
  }

  lemma LogSound(d: Dir, cf: Config, c: Tile)
    requires DirOk(d, cf, {}) && c in d.tiles
    ensures Sound(d.tiles[c].log, cf.limit)
  {
    hide Average, Version, BooksOf, Sound;
    assert TileOk(d.hist, d.horizon, cf.limit, c, d.tiles[c]);
  }

  lemma FilledOn(d: Dir, a: Live, b: Live, c: Live)
    requires Counted(d) && Filled(d, a, b) && Filled(d, b, c)
    ensures Filled(d, a, c)
  {
    hide Walk;
    forall x <- c | x !in a
      ensures x in d.tiles && x.k >= 1 && c[x] == Walk(d, a, x)
    {
      if x !in b { FilledSame(d, a, b, x); }
    }
  }

  /** A build found the newest change to be in a record that is still waiting for its sync. */
  predicate Shadowed(ct: CTile)
    requires ct.n <= |ct.log|
  {
    0 < ct.n < ct.books.count && LastT(ct) < ct.descT <= ct.cleanT
  }

  /** T is not before any z0 version. */
  ghost predicate AllBefore(hist: History, T: TimeMs) {
    forall z <- hist :: forall i :: 0 <= i < |hist[z]| ==> hist[z][i].t <= T
  }

  /** Nothing changed inside c after `since`, when its newest change is not later. */
  lemma UnchangedSince(d: Dir, cf: Config, c: Tile, since: TimeMs, T: TimeMs)
    requires DirOk(d, cf, {}) && Covered(d) && AllBefore(d.hist, T) && 1 <= c.k <= cf.levels
    requires c in d.tiles && d.tiles[c].descT <= since
    ensures Average(d.hist, c, since) == Average(d.hist, c, T)
    ensures forall z :: Under(z, c) ==> Z0At(d.hist, z, since) == Z0At(d.hist, z, T)
  {
    hide Average, TileOk;
    forall z | Under(z, c)
      ensures Z0At(d.hist, z, since) == Z0At(d.hist, z, T)
    {
      if z in d.hist && d.hist[z] != [] {
        assert Ancestor(z, c.k) in d.tiles;
        NewestSame(d.hist[z], since, T);
      }
    }
    AverageSame(d.hist, d.hist, c, since, T);
  }

  /** A tile that is not pending serves its newest content unless that content waits for a sync. */
  lemma SettledLatest(d: Dir, cf: Config, c: Tile, T: TimeMs)
    requires DirOk(d, cf, {}) && Counted(d) && Covered(d) && AllBefore(d.hist, T) && 1 <= c.k <= cf.levels
    requires c in d.tiles && !Pending(d.tiles[c])
    ensures var ct := d.tiles[c];
            if Shadowed(ct) then ct.books.count <= |ct.log| && Average(d.hist, c, T) == Version(ct.log, ct.books.count)
            else Average(d.hist, c, T) == Version(ct.log, ct.n)
  {
    hide Average, Sound, Replay, Marked, HistoryOk, ClearOk, Covered, BooksOf;
    var ct := d.tiles[c];
    assert TileOk(d.hist, d.horizon, cf.limit, c, ct);
    TileFacts(d.hist, d.horizon, cf.limit, c, ct);
    if ct.n > 0 { assert Version(ct.log, ct.n - 1 + 1) == Average(d.hist, c, ct.log[ct.n - 1].t); }
    if ct.descT <= LastT(ct) {
      UnchangedSince(d, cf, c, LastT(ct), T);
      if ct.n == 0 {
        NothingUnder(d, cf, c);
        UnchangedSince(d, cf, c, d.horizon, T);
      }
    } else {
      ShadowedOrAll(d, cf, c, T);
    }
  }

  lemma ShadowedOrAll(d: Dir, cf: Config, c: Tile, T: TimeMs)
    requires DirOk(d, cf, {}) && Counted(d) && Covered(d) && AllBefore(d.hist, T) && 1 <= c.k <= cf.levels
    requires c in d.tiles && !Pending(d.tiles[c]) && d.tiles[c].descT > LastT(d.tiles[c])
    ensures var ct := d.tiles[c];
            0 < ct.n <= ct.books.count <= |ct.log| && Average(d.hist, c, T) == Version(ct.log, ct.books.count)
            && (Shadowed(ct) <==> ct.n < ct.books.count)
  {
    hide Average, Sound, Version, Marked, HistoryOk, ClearOk, Covered;
    var ct := d.tiles[c];
    assert TileOk(d.hist, d.horizon, cf.limit, c, ct);
    NeverLeast(d, cf, c);
    UnchangedSince(d, cf, c, GoodAt(ct), T);
  }

  lemma NeverLeast(d: Dir, cf: Config, c: Tile)
    requires DirOk(d, cf, {}) && c in d.tiles
    ensures d.tiles[c].n == 0 ==> LastT(d.tiles[c]) == NEVER
    ensures d.tiles[c].n <= |d.tiles[c].log|
  {
    hide Average, Sound, Version, Marked, HistoryOk, ClearOk;
    assert TileOk(d.hist, d.horizon, cf.limit, c, d.tiles[c]);
  }

  /** Neither c nor, when c is pending, any tile its content is read from is shadowed, and no pending one of them is
      cached. */
  ghost predicate ClearBelow(d: Dir, live: Live, c: Tile)
    requires Counted(d) && c.k >= 1
    decreases c.k
  {
    c in d.tiles ==>
      if !Pending(d.tiles[c]) then !Shadowed(d.tiles[c])
      else c !in live && (c.k > 1 ==> forall i :: 0 <= i < 4 ==> ClearBelow(d, live, Child(c, i)))
  }

  /** The newest content the records hold, published or not: what is served, but for a shadowed tile the
      version its last build found right. */
  function Known(d: Dir, c: Tile): Image
    requires Counted(d) && c.k >= 1
    decreases c.k
  {
    if c !in d.tiles then UNCHARTED
    else if !Pending(d.tiles[c]) then
      var ct := d.tiles[c];
      Version(ct.log, if Shadowed(ct) && ct.books.count <= |ct.log| then ct.books.count else ct.n)
    else Parent([KnownKid(d, c, 0), KnownKid(d, c, 1), KnownKid(d, c, 2), KnownKid(d, c, 3)])
  }

  function KnownKid(d: Dir, c: Tile, i: nat): Option<Image>
    requires Counted(d) && c in d.tiles && c.k >= 1 && i < 4
    decreases c.k, 0
  {
    if c.k == 1 then Z0At(d.hist, Child(c, i), d.tiles[c].descT)
    else if Child(c, i) in d.tiles then Some(Known(d, Child(c, i))) else None
  }

  /** It is the average of the newest z0 content, for every tile. */
  lemma {:induction false} KnownIsNewest(d: Dir, cf: Config, c: Tile, T: TimeMs)
    requires DirOk(d, cf, {}) && Counted(d) && Covered(d) && AllBefore(d.hist, T) && 1 <= c.k <= cf.levels
             && T >= d.horizon
    ensures Known(d, c) == Average(d.hist, c, T)
    decreases c.k
  {
    hide Average, DirOk, Covered, AllBefore, Shadowed, Parent, Z0At;
    if c !in d.tiles {
      UnknownIsEmpty(d, cf, c, T);
    } else if !Pending(d.tiles[c]) {
      SettledLatest(d, cf, c, T);
    } else {
      var kids := [KnownKid(d, c, 0), KnownKid(d, c, 1), KnownKid(d, c, 2), KnownKid(d, c, 3)];
      forall i | 0 <= i < 4
        ensures PyramidTiles.Content(kids[i]) == Average(d.hist, Child(c, i), T)
      {
        if c.k > 1 {
          KnownIsNewest(d, cf, Child(c, i), T);
        } else {
          Z0Kid(d, cf, c, i, T);
        }
      }
      AverageOfKids(d.hist, c, T, kids);
    }
  }

  /** Where no tile reached through pending ones is shadowed or cached, that is what is served. */
  lemma {:induction false} ServedIsKnown(d: Dir, live: Live, c: Tile)
    requires Counted(d) && c.k >= 1 && ClearBelow(d, live, c)
    ensures Latest(d, live, c) == Known(d, c)
    decreases c.k
  {
    hide Shadowed, Parent, Z0At, Version;
    if c in d.tiles && Pending(d.tiles[c]) {
      forall i | 0 <= i < 4
        ensures LatestKid(d, live, c, i) == KnownKid(d, c, i)
      {
        if c.k > 1 { ServedIsKnown(d, live, Child(c, i)); }
      }
    }
  }

  /** There the latest content of c is the average of the newest z0 content. */
  lemma LatestIsNewest(d: Dir, live: Live, cf: Config, c: Tile, T: TimeMs)
    requires DirOk(d, cf, {}) && Counted(d) && Covered(d) && AllBefore(d.hist, T) && 1 <= c.k <= cf.levels
             && T >= d.horizon
    requires ClearBelow(d, live, c)
    ensures Latest(d, live, c) == Average(d.hist, c, T)
  {
    hide *;
    KnownIsNewest(d, cf, c, T);
    ServedIsKnown(d, live, c);
  }

  // --- cached images ---

  /** When a cached image was computed: the state and the images cached then. */
  datatype Shot = Shot(d: Dir, live: Live)

  /** Every cached image is what its tile's children averaged to when it was computed. */
  ghost predicate Made(live: Live, shots: map<Tile, Shot>) {
    forall c <- live :: c.k >= 1 && c in shots && Counted(shots[c].d) && c in shots[c].d.tiles
        && live[c] == Walk(shots[c].d, shots[c].live, c)
  }

  /** The child's content that c is served from: of when its image was computed, if that is cached. */
  ghost function Seen(d: Dir, live: Live, shots: map<Tile, Shot>, c: Tile, i: nat): Image
    requires Counted(d) && c in d.tiles && c.k >= 1 && i < 4 && Made(live, shots)
  {
    Downsample.Content(if c in live then LatestKid(shots[c].d, shots[c].live, c, i) else LatestKid(d, live, c, i))
  }

  /** A pending tile serves its newest content if and only if each child's content that it is served from, halved,
      looks the same as the newest content known of the child. */
  lemma PendingLatest(d: Dir, live: Live, shots: map<Tile, Shot>, cf: Config, c: Tile, T: TimeMs)
    requires DirOk(d, cf, {}) && Counted(d) && Covered(d) && AllBefore(d.hist, T) && 1 <= c.k <= cf.levels
             && T >= d.horizon
    requires c in d.tiles && Pending(d.tiles[c]) && Made(live, shots)
    ensures Latest(d, live, c) == Average(d.hist, c, T) <==>
            forall i: nat :: i < 4 ==>
              Halved(Seen(d, live, shots, c, i)) == Halved(Downsample.Content(KnownKid(d, c, i)))
    ensures c.k == 1 && c !in live ==> Latest(d, live, c) == Average(d.hist, c, T)
  {
    hide DirOk, Covered, AllBefore, Shadowed, Parent, Z0At, Halved, Average, Version, KnownKid, LatestKid;
    KnownIsNewest(d, cf, c, T);
    var d', live' := if c in live then shots[c].d else d, if c in live then shots[c].live else live;
    var kids := [LatestKid(d', live', c, 0), LatestKid(d', live', c, 1), LatestKid(d', live', c, 2),
                 LatestKid(d', live', c, 3)];
    var known := [KnownKid(d, c, 0), KnownKid(d, c, 1), KnownKid(d, c, 2), KnownKid(d, c, 3)];
    ParentSame(kids, known);
    forall i: nat | i < 4
      ensures Seen(d, live, shots, c, i) == Downsample.Content(kids[i]) && known[i] == KnownKid(d, c, i)
      ensures c.k == 1 && c !in live ==> kids[i] == known[i]
    {
      SameKid(d, live, c, i);
    }
  }

  lemma SameKid(d: Dir, live: Live, c: Tile, i: nat)
    requires Counted(d) && c in d.tiles && c.k >= 1 && i < 4
    ensures c.k == 1 ==> LatestKid(d, live, c, i) == KnownKid(d, c, i)
  {
  }

  /** No z0 version inside c effective by t came between. */
  ghost predicate Quiet(hist: History, hist': History, c: Tile, t: TimeMs) {
    forall z :: Under(z, c) ==> Z0At(hist', z, t) == Z0At(hist, z, t)
  }

  /** While c's newest change stays the same, and nothing committed since is from before it, the newest content known
      of its children stays: so an image cached when all changes were marked is newest if and only if it was computed
      while each child, halved, looked like the newest content known of it. */
  lemma CachedLatest(d: Dir, live: Live, shots: map<Tile, Shot>, cf: Config, c: Tile, T: TimeMs)
    requires DirOk(d, cf, {}) && Counted(d) && Covered(d) && AllBefore(d.hist, T) && 1 <= c.k <= cf.levels
             && T >= d.horizon
    requires c in d.tiles && Pending(d.tiles[c]) && Made(live, shots) && c in live
    requires var was := shots[c].d;
             DirOk(was, cf, {}) && Covered(was) && AllBefore(was.hist, T) && T >= was.horizon
             && was.tiles[c].descT == d.tiles[c].descT && Quiet(was.hist, d.hist, c, d.tiles[c].descT)
    ensures Latest(d, live, c) == Average(d.hist, c, T) <==>
            forall i: nat :: i < 4 ==>
              Halved(Downsample.Content(LatestKid(shots[c].d, shots[c].live, c, i)))
              == Halved(Downsample.Content(KnownKid(shots[c].d, c, i)))
  {
    hide DirOk, Covered, AllBefore, Shadowed, Parent, Z0At, Halved, Average, Version, KnownKid, LatestKid, Quiet,
      Latest, Pending, Downsample.Content;
    PendingLatest(d, live, shots, cf, c, T);
    var was := shots[c].d;
    if Latest(d, live, c) == Average(d.hist, c, T) {
      forall i: nat | i < 4
        ensures Halved(Downsample.Content(LatestKid(was, shots[c].live, c, i)))
                == Halved(Downsample.Content(KnownKid(was, c, i)))
      {
        assert Halved(Seen(d, live, shots, c, i)) == Halved(Downsample.Content(KnownKid(d, c, i)));
        KnownStays(was, d, cf, c, i, T);
      }
    } else {
      var i: nat :| i < 4 && Halved(Seen(d, live, shots, c, i)) != Halved(Downsample.Content(KnownKid(d, c, i)));
      KnownStays(was, d, cf, c, i, T);
      assert Halved(Downsample.Content(LatestKid(was, shots[c].live, c, i)))
             != Halved(Downsample.Content(KnownKid(was, c, i)));
    }
  }

  lemma KnownStays(was: Dir, d: Dir, cf: Config, c: Tile, i: nat, T: TimeMs)
    requires DirOk(d, cf, {}) && Counted(d) && Covered(d) && AllBefore(d.hist, T) && 1 <= c.k <= cf.levels
             && T >= d.horizon
    requires DirOk(was, cf, {}) && Counted(was) && Covered(was) && AllBefore(was.hist, T) && T >= was.horizon
    requires c in d.tiles && c in was.tiles && was.tiles[c].descT == d.tiles[c].descT && i < 4
             && Quiet(was.hist, d.hist, c, d.tiles[c].descT)
    ensures Downsample.Content(KnownKid(was, c, i)) == Downsample.Content(KnownKid(d, c, i))
  {
    hide DirOk, Covered, AllBefore, Average, KnownKid, Quiet;
    KidKnown(was, cf, c, i, T);
    KidKnown(d, cf, c, i, T);
    QuietKid(was.hist, d.hist, c, i, d.tiles[c].descT);
  }

  lemma QuietKid(hist: History, hist': History, c: Tile, i: nat, t: TimeMs)
    requires Quiet(hist, hist', c, t) && c.k >= 1 && i < 4
    ensures Average(hist, Child(c, i), t) == Average(hist', Child(c, i), t)
  {
    hide Average, Z0At;
    forall z | Under(z, Child(c, i)) ensures Z0At(hist, z, t) == Z0At(hist', z, t) { UnderChild(z, c, i); }
    AverageSame(hist, hist', Child(c, i), t, t);
  }

  /** The newest content known of a child is its average at the parent's newest change. */
  lemma KidKnown(d: Dir, cf: Config, c: Tile, i: nat, T: TimeMs)
    requires DirOk(d, cf, {}) && Counted(d) && Covered(d) && AllBefore(d.hist, T) && 1 <= c.k <= cf.levels
             && T >= d.horizon && c in d.tiles && i < 4
    ensures PyramidTiles.Content(KnownKid(d, c, i)) == Average(d.hist, Child(c, i), d.tiles[c].descT)
  {
    hide DirOk, Covered, AllBefore, Parent, Z0At, Average;
    var t := d.tiles[c].descT;
    UnchangedSince(d, cf, c, t, T);
    forall z | Under(z, Child(c, i)) ensures Z0At(d.hist, z, t) == Z0At(d.hist, z, T) { UnderChild(z, c, i); }
    AverageSame(d.hist, d.hist, Child(c, i), t, T);
    if c.k > 1 {
      KnownIsNewest(d, cf, Child(c, i), T);
    } else {
      Z0Kid(d, cf, c, i, T);
    }
  }

  /** Versions committed since are effective after the horizon of then, so none is from before a change that was
      marked by then. */
  lemma QuietSince(hist: History, hist': History, c: Tile, horizon: TimeMs, t: TimeMs)
    requires Grown(hist, hist', horizon) && t <= horizon
    ensures Quiet(hist, hist', c, t)
  {
    forall z | Under(z, c)
      ensures Z0At(hist', z, t) == Z0At(hist, z, t)
    {
      var h := if z in hist then hist[z] else [];
      if z in hist' { NewestMore(h, hist'[z], t); }
    }
  }

  /** More versions, effective after the horizon. */
  ghost predicate Grown(hist: History, hist': History, horizon: TimeMs) {
    && (forall z <- hist :: z in hist' && hist[z] <= hist'[z])
    && forall z <- hist' :: forall i :: (if z in hist then |hist[z]| else 0) <= i < |hist'[z]| ==>
         hist'[z][i].t > horizon
  }

  lemma {:induction false} NewestMore(h: seq<Stamp>, h': seq<Stamp>, t: TimeMs)
    requires h <= h' && forall i :: |h| <= i < |h'| ==> h'[i].t > t
    ensures Newest(h', t) == Newest(h, t)
    decreases |h'|
  {
    if |h| < |h'| {
      NewestMore(h, h'[..|h'| - 1], t);
    } else {
      assert h' == h;
    }
  }

  // --- the cache and its keys ---

  /** An image is cached under its tile's live sequence, which is a new one with each newer change of the tile. */
  datatype LiveKey = LiveKey(tile: Tile, number: nat)

  type Seqs = map<Tile, nat>

  type Cache = map<LiveKey, Image>

  /** The images cached under the present sequences. */
  function Cached(seqs: Seqs, cache: Cache): Live {
    map c | c in seqs && LiveKey(c, seqs[c]) in cache :: cache[LiveKey(c, seqs[c])]
  }

  ghost function CachedShots(seqs: Seqs, shots: map<LiveKey, Shot>): map<Tile, Shot> {
    map c | c in seqs && LiveKey(c, seqs[c]) in shots :: shots[LiveKey(c, seqs[c])]
  }

  /** A cached image: what its tile averaged to in an earlier state, which had the same newest change of the tile if
      the image is under the present sequence. */
  ghost predicate ShotOk(d: Dir, cf: Config, seqs: Seqs, k: LiveKey, im: Image, shot: Shot) {
    && k.tile.k >= 1 && k.tile in seqs && k.tile in d.tiles && k.number <= seqs[k.tile]
    && DirOk(shot.d, cf, {}) && Counted(shot.d) && k.tile in shot.d.tiles && im == Walk(shot.d, shot.live, k.tile)
    && shot.d.horizon <= d.horizon && Grown(shot.d.hist, d.hist, shot.d.horizon)
    && (k.number == seqs[k.tile] ==> shot.d.tiles[k.tile].descT == d.tiles[k.tile].descT)
  }

  ghost predicate CacheOk(d: Dir, cf: Config, liveSeq: nat, seqs: Seqs, cache: Cache, shots: map<LiveKey, Shot>) {
    && seqs.Keys == d.tiles.Keys && (forall c <- seqs :: seqs[c] <= liveSeq)
    && cache.Keys == shots.Keys && forall k <- cache :: ShotOk(d, cf, seqs, k, cache[k], shots[k])
  }

  lemma MadeIs(d: Dir, cf: Config, liveSeq: nat, seqs: Seqs, cache: Cache, shots: map<LiveKey, Shot>)
    requires CacheOk(d, cf, liveSeq, seqs, cache, shots)
    ensures Made(Cached(seqs, cache), CachedShots(seqs, shots))
    ensures forall c <- Cached(seqs, cache) ::
              c in seqs && c in CachedShots(seqs, shots) && c in d.tiles
              && ShotOk(d, cf, seqs, LiveKey(c, seqs[c]), Cached(seqs, cache)[c], CachedShots(seqs, shots)[c])
  {
    hide DirOk, Walk, Grown;
    forall c <- Cached(seqs, cache)
      ensures ShotOk(d, cf, seqs, LiveKey(c, seqs[c]), Cached(seqs, cache)[c], CachedShots(seqs, shots)[c])
    {
      assert LiveKey(c, seqs[c]) in cache;
    }
  }

  lemma CacheBounds(d: Dir, cf: Config, liveSeq: nat, seqs: Seqs, cache: Cache, shots: map<LiveKey, Shot>)
    requires CacheOk(d, cf, liveSeq, seqs, cache, shots)
    ensures seqs.Keys == d.tiles.Keys
  {
    hide ShotOk;
  }

  lemma GrownSelf(hist: History, horizon: TimeMs)
    ensures Grown(hist, hist, horizon)
  {
  }

  lemma GrownOn(a: History, b: History, c: History, horizon: TimeMs, horizon': TimeMs)
    requires Grown(a, b, horizon) && Grown(b, c, horizon') && horizon <= horizon'
    ensures Grown(a, c, horizon)
  {
    forall z <- c, i | (if z in a then |a[z]| else 0) <= i < |c[z]|
      ensures c[z][i].t > horizon
    {
      if z in b && i < |b[z]| { assert c[z][i] == b[z][i]; }
    }
  }

  /** Steps that keep the tiles' newest changes keep the cache: commits to the z0 store, builds and publications. */
  lemma CacheKept(d: Dir, d': Dir, cf: Config, liveSeq: nat, seqs: Seqs, cache: Cache, shots: map<LiveKey, Shot>)
    requires CacheOk(d, cf, liveSeq, seqs, cache, shots)
    requires d'.tiles.Keys == d.tiles.Keys && (forall c <- d.tiles :: d'.tiles[c].descT == d.tiles[c].descT)
    requires d'.horizon >= d.horizon && Grown(d.hist, d'.hist, d.horizon)
    ensures CacheOk(d', cf, liveSeq, seqs, cache, shots)
  {
    hide DirOk, Walk, Grown, Counted;
    forall k <- cache
      ensures ShotOk(d', cf, seqs, k, cache[k], shots[k])
    {
      assert ShotOk(d, cf, seqs, k, cache[k], shots[k]);
      GrownOn(shots[k].d.hist, d.hist, d'.hist, shots[k].d.horizon, d.horizon);
    }
  }

  lemma PassCache(d0: Dir, d: Dir, cf: Config, prev: TimeMs, force: bool, done: set<Tile>, ok: bool, liveSeq: nat,
                  seqs: Seqs, cache: Cache, shots: map<LiveKey, Shot>)
    requires ConfigOk(cf) && PassInv(d0, d, cf, prev, force, cf.levels + 1, done, ok)
    requires CacheOk(d0, cf, liveSeq, seqs, cache, shots)
    ensures CacheOk(d, cf, liveSeq, seqs, cache, shots)
  {
    hide DirOk, Covered, Due, LevelCurrent, UpTo, TakenOff, CacheOk;
    GrownSelf(d0.hist, d0.horizon);
    CacheKept(d0, d, cf, liveSeq, seqs, cache, shots);
  }

  /** Which z0 versions the builder has seen is no business of the cache. */
  lemma CacheSeen(d: Dir, d': Dir, cf: Config, liveSeq: nat, seqs: Seqs, cache: Cache, shots: map<LiveKey, Shot>)
    requires CacheOk(d, cf, liveSeq, seqs, cache, shots) && d' == d.(z0seen := d'.z0seen)
    ensures CacheOk(d', cf, liveSeq, seqs, cache, shots)
  {
    hide CacheOk;
    GrownSelf(d.hist, d.horizon);
    CacheKept(d, d', cf, liveSeq, seqs, cache, shots);
  }

  lemma NothingCached(d: Dir, cf: Config, seqs: Seqs)
    requires seqs == map c | c in d.tiles :: 0
    ensures CacheOk(d, cf, 0, seqs, map[], map[])
  {
  }

  lemma GrownOne(hist: History, z: Tile, v: Stamp, horizon: TimeMs)
    requires v.t > horizon
    ensures Grown(hist, hist[z := (if z in hist then hist[z] else []) + [v]], horizon)
  {
  }

  /** The sequences after a mark: a newer change gives the tile the next one. */
  predicate Raises(d: Dir, a: Tile, t: TimeMs) { t > (if a in d.tiles then d.tiles[a].descT else NEVER) }

  function SeqAfter(d: Dir, liveSeq: nat, a: Tile, t: TimeMs): nat {
    if Raises(d, a, t) then liveSeq + 1 else liveSeq
  }

  function SeqsAfter(d: Dir, liveSeq: nat, seqs: Seqs, a: Tile, t: TimeMs): Seqs {
    seqs[a := if Raises(d, a, t) then liveSeq + 1 else if a in seqs then seqs[a] else 0]
  }

  lemma CacheMarked(d: Dir, cf: Config, liveSeq: nat, seqs: Seqs, cache: Cache, shots: map<LiveKey, Shot>, a: Tile,
                    t: TimeMs)
    requires CacheOk(d, cf, liveSeq, seqs, cache, shots)
    ensures CacheOk(MarkOne(d, a, t), cf, SeqAfter(d, liveSeq, a, t), SeqsAfter(d, liveSeq, seqs, a, t), cache, shots)
  {
    hide DirOk, Walk, Grown, Counted;
    var d', seqs' := MarkOne(d, a, t), SeqsAfter(d, liveSeq, seqs, a, t);
    forall k <- cache
      ensures ShotOk(d', cf, seqs', k, cache[k], shots[k])
    {
      assert ShotOk(d, cf, seqs, k, cache[k], shots[k]);
      assert k.tile == a && !Raises(d, a, t) ==> d'.tiles[a] == d.tiles[a];
    }
  }

  /** An image just computed joins the cache. */
  lemma CacheMore(d: Dir, cf: Config, liveSeq: nat, seqs: Seqs, cache: Cache, shots: map<LiveKey, Shot>, c: Tile,
                  live: Live)
    requires CacheOk(d, cf, liveSeq, seqs, cache, shots) && DirOk(d, cf, {}) && Counted(d) && c in d.tiles && c.k >= 1
    requires c in seqs && LiveKey(c, seqs[c]) !in cache && Filled(d, live, Cached(seqs, cache)) && c !in live
    ensures var k := LiveKey(c, seqs[c]);
            && CacheOk(d, cf, liveSeq, seqs, cache[k := Walk(d, live, c)], shots[k := Shot(d, live)])
            && Filled(d, live, Cached(seqs, cache[k := Walk(d, live, c)]))
  {
    hide DirOk, Walk, CacheOk, Filled, Cached;
    CacheWith(d, cf, liveSeq, seqs, cache, shots, c, live);
    FilledWith(d, seqs, cache, c, live);
  }

  lemma CacheWith(d: Dir, cf: Config, liveSeq: nat, seqs: Seqs, cache: Cache, shots: map<LiveKey, Shot>, c: Tile,
                  live: Live)
    requires CacheOk(d, cf, liveSeq, seqs, cache, shots) && DirOk(d, cf, {}) && Counted(d) && c in d.tiles && c.k >= 1
    requires c in seqs
    ensures var k := LiveKey(c, seqs[c]);
            CacheOk(d, cf, liveSeq, seqs, cache[k := Walk(d, live, c)], shots[k := Shot(d, live)])
  {
    hide DirOk, Walk, Grown, Counted;
    GrownSelf(d.hist, d.horizon);
    var k := LiveKey(c, seqs[c]);
    var cache', shots' := cache[k := Walk(d, live, c)], shots[k := Shot(d, live)];
    forall x <- cache'
      ensures ShotOk(d, cf, seqs, x, cache'[x], shots'[x])
    {
      if x != k { assert ShotOk(d, cf, seqs, x, cache[x], shots[x]); }
    }
  }

  lemma FilledWith(d: Dir, seqs: Seqs, cache: Cache, c: Tile, live: Live)
    requires Counted(d) && c in d.tiles && c.k >= 1 && c in seqs && c !in live
    requires LiveKey(c, seqs[c]) !in cache && Filled(d, live, Cached(seqs, cache))
    ensures Filled(d, live, Cached(seqs, cache[LiveKey(c, seqs[c]) := Walk(d, live, c)]))
  {
    hide Walk, Counted;
    var cache' := cache[LiveKey(c, seqs[c]) := Walk(d, live, c)];
    forall x <- Cached(seqs, cache') | x != c ensures x in Cached(seqs, cache) {}
  }

  lemma Z0Kid(d: Dir, cf: Config, c: Tile, i: nat, T: TimeMs)
    requires DirOk(d, cf, {}) && Counted(d) && Covered(d) && AllBefore(d.hist, T) && c.k == 1 <= cf.levels && i < 4
             && c in d.tiles
    ensures PyramidTiles.Content(KnownKid(d, c, i)) == Average(d.hist, Child(c, i), T)
  {
    hide DirOk, Covered, AllBefore, Parent, Z0At;
    UnchangedSince(d, cf, c, d.tiles[c].descT, T);
    UnderChild(Child(c, i), c, i);
    assert Under(Child(c, i), c);
  }

  /** A shadowed tile serves its newest content if and only if its newest version shows the same anyway. */
  lemma ShadowedLatest(d: Dir, live: Live, cf: Config, c: Tile, T: TimeMs)
    requires DirOk(d, cf, {}) && Counted(d) && Covered(d) && AllBefore(d.hist, T) && 1 <= c.k <= cf.levels
    requires c in d.tiles && Shadowed(d.tiles[c]) && d.tiles[c].books.count <= |d.tiles[c].log|
    ensures Latest(d, live, c) == Average(d.hist, c, T) <==>
            Version(d.tiles[c].log, d.tiles[c].n) == Version(d.tiles[c].log, d.tiles[c].books.count)
  {
    hide DirOk, Average, Version;
    assert !Pending(d.tiles[c]);
    SettledLatest(d, cf, c, T);
  }
}
