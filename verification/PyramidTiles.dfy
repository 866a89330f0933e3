/** Tiles of the pyramid, the z0 history under them, and the content every coarse tile must have: the
    recursive 2x2 average of the z0 content at one time. */
module PyramidTiles {
  import opened Common
  import opened Pixels
  import opened Downsample
  import opened CoarseSeries

  /** The tile at level z = -k. */
  datatype Tile = Tile(k: nat, x: int, y: int)

  function Up(c: Tile): Tile { Tile(c.k + 1, c.x / 2, c.y / 2) }

  /** Child i of c: top left, top right, bottom left, bottom right. */
  function Child(c: Tile, i: nat): Tile
    requires c.k > 0 && i < 4
  {
    Tile(c.k - 1, 2 * c.x + i % 2, 2 * c.y + i / 2)
  }

  function Ancestor(c: Tile, k: nat): (a: Tile)
    requires c.k <= k
    ensures a.k == k
    decreases k - c.k
  {
    if c.k == k then c else Ancestor(Up(c), k)
  }

  /** z is a z0 tile inside c. */
  predicate Under(z: Tile, c: Tile) { z.k == 0 && Ancestor(z, c.k) == c }

  lemma {:induction false} AncestorUp(c: Tile, k: nat)
    requires c.k <= k
    ensures Ancestor(c, k + 1) == Up(Ancestor(c, k))
    decreases k - c.k
  {
    if c.k < k { AncestorUp(Up(c), k); }
  }

  lemma UnderChild(z: Tile, c: Tile, i: nat)
    requires c.k > 0 && i < 4 && Under(z, Child(c, i))
    ensures Under(z, c)
  {
    AncestorUp(z, c.k - 1);
  }

  // --- the z0 history ---

  /** A committed z0 version: its content and when it became effective. */
  datatype Stamp = Stamp(t: TimeMs, im: Image)

  type History = map<Tile, seq<Stamp>>

  /** The newest version effective at T. */
  function Newest(h: seq<Stamp>, T: TimeMs): Option<Image> {
    if h == [] then None else if h[|h| - 1].t <= T then Some(h[|h| - 1].im) else Newest(h[..|h| - 1], T)
  }

  function Z0At(hist: History, z: Tile, T: TimeMs): Option<Image> {
    if z in hist then Newest(hist[z], T) else None
  }

  /** Versions come in time order. */
  ghost predicate InOrder(h: seq<Stamp>) {
    (forall i :: 0 <= i < |h| ==> h[i].t > NEVER) && (forall i, j :: 0 <= i < j < |h| ==> h[i].t <= h[j].t)
  }

  lemma {:induction false} NewestSame(h: seq<Stamp>, T: TimeMs, T': TimeMs)
    requires forall i :: 0 <= i < |h| ==> (h[i].t <= T <==> h[i].t <= T')
    ensures Newest(h, T) == Newest(h, T')
  {
    if h != [] { NewestSame(h[..|h| - 1], T, T'); }
  }

  // --- the average ---

  /** What tile c must show at T. */
  function Average(hist: History, c: Tile, T: TimeMs): Image
    decreases c.k
  {
    if c.k == 0 then Content(Z0At(hist, c, T))
    else Parent([Some(Average(hist, Child(c, 0), T)), Some(Average(hist, Child(c, 1), T)),
                 Some(Average(hist, Child(c, 2), T)), Some(Average(hist, Child(c, 3), T))])
  }

  function Content(im: Option<Image>): Image { Downsample.Content(im) }

  /** The average depends only on the z0 content inside the tile. */
  lemma {:induction false} AverageSame(hist: History, hist': History, c: Tile, T: TimeMs, T': TimeMs)
    requires forall z :: Under(z, c) ==> Z0At(hist, z, T) == Z0At(hist', z, T')
    ensures Average(hist, c, T) == Average(hist', c, T')
    decreases c.k
  {
    hide Parent, Z0At, Ancestor;
    if c.k == 0 {
      assert Under(c, c) by { AncestorSelf(c); }
    } else {
      forall i | 0 <= i < 4
        ensures Average(hist, Child(c, i), T) == Average(hist', Child(c, i), T')
      {
        forall z | Under(z, Child(c, i)) ensures Z0At(hist, z, T) == Z0At(hist', z, T') { UnderChild(z, c, i); }
        AverageSame(hist, hist', Child(c, i), T, T');
      }
      assert Average(hist, Child(c, 0), T) == Average(hist', Child(c, 0), T');
      assert Average(hist, Child(c, 1), T) == Average(hist', Child(c, 1), T');
      assert Average(hist, Child(c, 2), T) == Average(hist', Child(c, 2), T');
      assert Average(hist, Child(c, 3), T) == Average(hist', Child(c, 3), T');
    }
  }

  lemma AncestorSelf(c: Tile)
    ensures Ancestor(c, c.k) == c
  {
  }

  lemma {:induction false} AverageOfNothing(c: Tile, T: TimeMs)
    ensures Average(map[], c, T) == UNCHARTED
    decreases c.k
  {
    hide Parent;
    if c.k > 0 {
      AverageOfNothing(Child(c, 0), T);
      AverageOfNothing(Child(c, 1), T);
      AverageOfNothing(Child(c, 2), T);
      AverageOfNothing(Child(c, 3), T);
      MissingIsUncharted([Some(UNCHARTED), Some(UNCHARTED), Some(UNCHARTED), Some(UNCHARTED)],
          [None, None, None, None]);
      UnchartedParent();
    }
  }

  /** Averaging children that show their averages, or are missing because they show nothing, is the average. */
  lemma AverageOfKids(hist: History, c: Tile, T: TimeMs, kids: seq<Option<Image>>)
    requires c.k > 0 && |kids| == 4
    requires forall i :: 0 <= i < 4 ==> Content(kids[i]) == Average(hist, Child(c, i), T)
    ensures Parent(kids) == Average(hist, c, T)
  {
    hide Parent, Average, Downsample.Content;
    var all := [Some(Average(hist, Child(c, 0), T)), Some(Average(hist, Child(c, 1), T)),
                Some(Average(hist, Child(c, 2), T)), Some(Average(hist, Child(c, 3), T))];
    AverageUnfold(hist, c, T);
    forall q | 0 <= q < 4
      ensures Downsample.Content(kids[q]) == Downsample.Content(all[q])
    {
      assert Content(kids[q]) == Average(hist, Child(c, q), T);
      SomeContent(Average(hist, Child(c, q), T));
    }
    MissingIsUncharted(kids, all);
  }

  lemma SomeContent(im: Image)
    ensures Downsample.Content(Some(im)) == im
  {
  }

  lemma AverageUnfold(hist: History, c: Tile, T: TimeMs)
    requires c.k > 0
    ensures Average(hist, c, T) == Parent([Some(Average(hist, Child(c, 0), T)), Some(Average(hist, Child(c, 1), T)),
                                           Some(Average(hist, Child(c, 2), T)), Some(Average(hist, Child(c, 3), T))])
  {
    hide Parent;
  }

  // --- one coarse tile ---

  /** What the builder and the readers know about a coarse tile: its series with the first `synced` records
      durable, the n published versions, the newest z0 change under it, the last build time that found it
      unchanged, the builder's books, and whether a failed append put them in doubt. */
  datatype CTile = CTile(log: Log, synced: nat, n: nat, descT: TimeMs, cleanT: TimeMs, books: Books, suspect: bool)

  function NewTile(): CTile { CTile([], 0, 0, NEVER, NEVER, BooksOf([], 0), false) }

  /** The newest time the builder knows the newest version's content to hold at. */
  function GoodAt(ct: CTile): TimeMs { Max(ct.books.last, ct.cleanT) }

  /** Every version is the average of its time, published versions are durable, and the builder's books are
      those of the records it knows of. */
  ghost predicate TileOk(hist: History, top: TimeMs, limit: nat, c: Tile, ct: CTile) {
    var bn := ct.books.count;
    && Sound(ct.log, limit)
    && (forall i :: 0 <= i < |ct.log| ==> NEVER < ct.log[i].t <= top)
    && (forall i :: 0 <= i < |ct.log| ==> Version(ct.log, i + 1) == Average(hist, c, ct.log[i].t))
    && ct.n <= bn <= |ct.log| && ct.n <= ct.synced <= |ct.log|
    && ct.books == BooksOf(ct.log, bn) && (!ct.suspect ==> bn == |ct.log|)
    && ct.cleanT <= top && (bn == 0 ==> ct.cleanT == NEVER)
    && (bn > 0 ==> Version(ct.log, bn) == Average(hist, c, GoodAt(ct)))
    && (bn < |ct.log| ==> ct.cleanT <= ct.log[bn].t)
  }

  /** Version v's image; version 0 is uncharted. */
  function Version(log: Log, v: nat): Image
    requires v <= |log|
  {
    Content(CoarseSeries.Content(log, v))
  }

  /** No change under the tile is waiting for a build. */
  predicate Settled(ct: CTile) { !ct.suspect && ct.descT <= GoodAt(ct) }

  /** The published content of c is the average at T. */
  ghost predicate Current(hist: History, T: TimeMs, tiles: map<Tile, CTile>, c: Tile) {
    Shown(tiles, c) == Average(hist, c, T)
  }

  /** What readers get as the newest version of c. */
  function Shown(tiles: map<Tile, CTile>, c: Tile): Image {
    if c in tiles && tiles[c].n <= |tiles[c].log| then Version(tiles[c].log, tiles[c].n) else UNCHARTED
  }

  // --- one build of one tile ---

  datatype Appended = Done | Lost | Landed

  /** What the environment does during one build: whether it is cancelled first, whether opening the series, reading the
      children and
      reading the newest version succeed, whether that version was cached, how the append ends (a failed one
      may have reached the file), and the compressed sizes. */
  datatype Fate = Fate(cancelled: bool, opens: bool, kids: bool, cached: bool, loads: bool, append: Appended,
                       deltaSize: nat, snapSize: nat)

  /** Nothing goes wrong. */
  predicate Well(f: Fate) { !f.cancelled && f.opens && f.kids && f.loads && f.append == Done }

  datatype Built = Built(ct: CTile, ok: bool, entry: bool, clear: bool)

  function Reloaded(ct: CTile): CTile { ct.(books := BooksOf(ct.log, |ct.log|), suspect := false) }

  /** The tile after a build at T whose children average to `next`: its state, whether the build succeeded,
      whether the level's commit must look at it, and whether its dirty mark goes. */
  function Build(ct: CTile, T: TimeMs, next: Image, f: Fate, limit: nat, ratio: real): Built
    requires ct.books.count <= |ct.log|
  {
    if f.cancelled || (ct.suspect && !f.opens) then Built(ct, false, false, false)
    else BuildFrom(if ct.suspect then Reloaded(ct) else ct, ct.suspect, T, next, f, limit, ratio)
  }

  /** The build once a tile in doubt was reloaded (`wasOpen`: its series is open already). */
  function BuildFrom(ct: CTile, wasOpen: bool, T: TimeMs, next: Image, f: Fate, limit: nat, ratio: real): Built
    requires ct.books.count <= |ct.log|
  {
    var bn := ct.books.count;
    if bn > 0 && T <= ct.books.last then Built(ct, true, wasOpen || bn != ct.n, false)
    else if !f.kids then Built(ct, false, wasOpen, false)
    else if bn > 0 && !f.cached && !(f.opens && f.loads) then Built(ct, false, wasOpen || f.opens, false)
    else if bn > 0 && Version(ct.log, bn) == next then
      Built(ct.(cleanT := T), true, wasOpen || !f.cached || bn != ct.n, ct.descT <= T)
    else if !f.opens then Built(ct, false, false, false)
    else
      var ct2 := if bn == |ct.log| then ct else Reloaded(ct);
      if ct2.books.count > 0 && T <= ct2.books.last then Built(ct2, true, true, false)
      else AppendRec(ct2, T, next, f, limit, ratio)
  }

  function AppendRec(ct: CTile, T: TimeMs, next: Image, f: Fate, limit: nat, ratio: real): Built {
    var log' := ct.log + [Appendix(ct, T, next, f, limit, ratio)];
    match f.append
    case Lost => Built(ct.(suspect := true), false, true, false)
    case Landed => Built(ct.(log := log', suspect := true), false, true, false)
    case Done => Built(ct.(log := log', books := BooksOf(log', |log'|), suspect := false), true, true, ct.descT <= T)
  }

  lemma WellBuilt(ct: CTile, T: TimeMs, next: Image, f: Fate, limit: nat, ratio: real)
    requires ct.books.count <= |ct.log| && Well(f)
    ensures Build(ct, T, next, f, limit, ratio).ok
  {
    hide BooksOf, Appendix, Version;
  }

  /** What a successful build of a tile that is in order and not built at T yet does: a version more, unless the
      content is that of the newest one, and no mark is left by a change up to T. */
  ghost predicate Took(hist: History, T: TimeMs, c: Tile, ct: CTile, ct': CTile, dirty: bool) {
    !ct.suspect && ct.books.count == |ct.log| && (ct.log != [] ==> ct.log[|ct.log| - 1].t < T) ==>
      && (ct.descT <= T ==> !dirty)
      && if ct.log != [] && Version(ct.log, |ct.log|) == Average(hist, c, T) then ct'.log == ct.log
         else |ct'.log| == |ct.log| + 1 && ct.log <= ct'.log && ct'.log[|ct.log|].t == T
  }

  lemma BuildTook(hist: History, top: TimeMs, limit: nat, ratio: real, c: Tile, ct: CTile, f: Fate)
    requires TileOk(hist, top, limit, c, ct) && ct.books.count <= |ct.log|
    ensures var b := Build(ct, top, Average(hist, c, top), f, limit, ratio);
            b.ok ==> Took(hist, top, c, ct, b.ct, !b.clear)
  {
    hide Average, Version, Sound, BooksOf, NextRec;
    TileFacts(hist, top, limit, c, ct);
    NextRecTime(ct.log, top, Average(hist, c, top), f, limit, ratio);
  }

  /** A reload makes the books those of the whole series. */
  lemma ReloadOk(hist: History, top: TimeMs, limit: nat, c: Tile, ct: CTile)
    requires TileOk(hist, top, limit, c, ct)
    ensures TileOk(hist, top, limit, c, Reloaded(ct))
    ensures GoodAt(Reloaded(ct)) >= GoodAt(ct)
  {
    hide Average, Version, SinceBase, DeltaBytes, BaseBytes, Newest;
    var k := |ct.log|;
    if ct.books.count < k {
      assert ct.cleanT <= ct.log[ct.books.count].t <= ct.log[k - 1].t;
      assert Version(ct.log, k - 1 + 1) == Average(hist, c, ct.log[k - 1].t);
    }
  }

  /** The record appended for `next` at `top`. */
  function Appendix(ct: CTile, T: TimeMs, next: Image, f: Fate, limit: nat, ratio: real): Rec {
    NextRec(ct.log, T, CoarseSeries.Content(ct.log, |ct.log|), next, limit, ratio, f.deltaSize, f.snapSize)
  }

  /** The log with a record for the average at `top` shows averages throughout. */
  lemma LandedFaithful(hist: History, top: TimeMs, limit: nat, ratio: real, c: Tile, ct: CTile, f: Fate)
    requires TileOk(hist, top, limit, c, ct) && !ct.suspect
    requires ct.log != [] ==> ct.books.last < top
    ensures var log' := ct.log + [Appendix(ct, top, Average(hist, c, top), f, limit, ratio)];
            && log'[|ct.log|].t == top && Sound(log', limit)
            && (forall v :: 0 <= v <= |ct.log| ==> Version(log', v) == Version(ct.log, v))
            && (forall i :: 0 <= i < |log'| ==> Version(log', i + 1) == Average(hist, c, log'[i].t))
  {
    hide Average, NextRec, SinceBase, DeltaBytes, BaseBytes, Sound, CoarseSeries.Content;
    var next := Average(hist, c, top);
    SoundBefore(hist, top, limit, c, ct);
    AppendSound(ct.log, top, next, limit, ratio, f.deltaSize, f.snapSize);
    NoContent(ct.log);
    var r := Appendix(ct, top, next, f, limit, ratio);
    NextRecTime(ct.log, top, next, f, limit, ratio);
    var log', m := ct.log + [r], |ct.log|;
    forall i | 0 <= i < |log'|
      ensures Version(log', i + 1) == Average(hist, c, log'[i].t)
    {
      if i < m { assert Version(ct.log, i + 1) == Average(hist, c, ct.log[i].t); }
    }
  }

  lemma NoContent(log: Log)
    ensures log == [] ==> CoarseSeries.Content(log, |log|) == None
  {
  }

  lemma SoundBefore(hist: History, top: TimeMs, limit: nat, c: Tile, ct: CTile)
    requires TileOk(hist, top, limit, c, ct) && !ct.suspect && (ct.log != [] ==> ct.books.last < top)
    ensures Sound(ct.log, limit) && (ct.log != [] ==> ct.log[|ct.log| - 1].t < top)
  {
    hide Average, Version, Sound;
  }

  /** A record for the average at `top`, whether or not the builder knows of it, keeps the tile in order. */
  lemma LandedOk(hist: History, top: TimeMs, limit: nat, ratio: real, c: Tile, ct: CTile, f: Fate)
    requires TileOk(hist, top, limit, c, ct) && !ct.suspect && top > NEVER
    requires ct.log != [] ==> ct.books.last < top
    ensures var log' := ct.log + [Appendix(ct, top, Average(hist, c, top), f, limit, ratio)];
            log'[|ct.log|].t == top && Version(log', |log'|) == Average(hist, c, top)
            && TileOk(hist, top, limit, c, ct.(log := log', suspect := true))
  {
    hide Average, NextRec, SinceBase, DeltaBytes, BaseBytes, Sound, CoarseSeries.Content, Version, Appendix;
    LandedFaithful(hist, top, limit, ratio, c, ct, f);
    BooksPrefix(ct.log, ct.log + [Appendix(ct, top, Average(hist, c, top), f, limit, ratio)]);
  }

  /** Once the builder knows of the record, it is the newest version, good at `top`. */
  lemma DoneOk(hist: History, top: TimeMs, limit: nat, c: Tile, ct: CTile)
    requires TileOk(hist, top, limit, c, ct) && ct.log != [] && ct.log[|ct.log| - 1].t == top
    ensures TileOk(hist, top, limit, c, Reloaded(ct)) && GoodAt(Reloaded(ct)) == top && Reloaded(ct).books.last == top
  {
    hide Average;
    ReloadOk(hist, top, limit, c, ct);
  }

  lemma NextRecTime(log: Log, T: TimeMs, next: Image, f: Fate, limit: nat, ratio: real)
    ensures NextRec(log, T, CoarseSeries.Content(log, |log|), next, limit, ratio, f.deltaSize, f.snapSize).t == T
  {
  }

  lemma BooksPrefix(log: Log, log': Log)
    requires log <= log'
    ensures BooksOf(log', |log|) == BooksOf(log, |log|)
  {
    assert log' == log + log'[|log|..];
    SinceBasePrefix(log, log'[|log|..], |log|);
  }

  lemma AppendOk(hist: History, top: TimeMs, limit: nat, ratio: real, c: Tile, ct: CTile, f: Fate)
    requires TileOk(hist, top, limit, c, ct) && !ct.suspect && top > NEVER
    requires ct.log != [] ==> ct.books.last < top
    ensures var b := AppendRec(ct, top, Average(hist, c, top), f, limit, ratio);
            TileOk(hist, top, limit, c, b.ct) && (b.ok ==> GoodAt(b.ct) == top && b.ct.books.count > 0)
  {
    hide Average, Appendix, BooksOf, Sound;
    LandedOk(hist, top, limit, ratio, c, ct, f);
    var b := AppendRec(ct, top, Average(hist, c, top), f, limit, ratio);
    match f.append {
      case Lost => assert b.ct == ct.(suspect := true);
      case Landed =>
      case Done =>
        var landed := ct.(log := b.ct.log, suspect := true);
        DoneOk(hist, top, limit, c, landed);
        assert b.ct == Reloaded(landed);
        assert b.ct.books.count == |b.ct.log| by { BooksCount(b.ct.log); }
    }
  }

  lemma BooksCount(log: Log)
    ensures BooksOf(log, |log|).count == |log| && (log != [] ==> BooksOf(log, |log|).last == log[|log| - 1].t)
  {
  }

  lemma TileFacts(hist: History, top: TimeMs, limit: nat, c: Tile, ct: CTile)
    requires TileOk(hist, top, limit, c, ct)
    ensures ct.books.count <= |ct.log| && ct.books.last <= Max(top, NEVER) && ct.cleanT <= top
    ensures !ct.suspect ==> ct.books.count == |ct.log| && (ct.log != [] ==> ct.books.last == ct.log[|ct.log| - 1].t)
  {
  }

  /** Finding the average unchanged at `top` says the newest version is good until then. */
  lemma CleanOk(hist: History, top: TimeMs, limit: nat, c: Tile, ct: CTile)
    requires TileOk(hist, top, limit, c, ct) && !ct.suspect
    requires ct.books.count > 0 && ct.books.last < top && Version(ct.log, ct.books.count) == Average(hist, c, top)
    ensures TileOk(hist, top, limit, c, ct.(cleanT := top)) && GoodAt(ct.(cleanT := top)) == top
  {
    hide Average, Sound, Version;
  }

  lemma BuildFromOk(hist: History, top: TimeMs, limit: nat, ratio: real, c: Tile, ct: CTile, wasOpen: bool, f: Fate)
    requires TileOk(hist, top, limit, c, ct) && top > NEVER && !ct.suspect && ct.books.count <= |ct.log|
    ensures var b := BuildFrom(ct, wasOpen, top, Average(hist, c, top), f, limit, ratio);
            && TileOk(hist, top, limit, c, b.ct)
            && (b.ok ==>
                !b.ct.suspect && b.ct.books.count > 0 && GoodAt(b.ct) == top
                && (b.entry || b.ct.books.count == b.ct.n))
  {
    hide Average, Appendix, TileOk, Version, BooksOf;
    TileFacts(hist, top, limit, c, ct);
    var bn := ct.books.count;
    if bn == 0 || ct.books.last < top {
      AppendOk(hist, top, limit, ratio, c, ct, f);
      if bn > 0 && Version(ct.log, bn) == Average(hist, c, top) {
        CleanOk(hist, top, limit, c, ct);
      }
    }
  }

  /** A build from the right children keeps the tile in order, and a successful one brings it up to `top`. */
  lemma BuildOk(hist: History, top: TimeMs, limit: nat, ratio: real, c: Tile, ct: CTile, f: Fate)
    requires TileOk(hist, top, limit, c, ct) && top > NEVER && ct.books.count <= |ct.log|
    ensures var b := Build(ct, top, Average(hist, c, top), f, limit, ratio);
            && TileOk(hist, top, limit, c, b.ct)
            && (b.ok ==>
                !b.ct.suspect && b.ct.books.count > 0 && GoodAt(b.ct) == top
                && (b.entry || b.ct.books.count == b.ct.n))
  {
    hide Average, TileOk, BuildFrom;
    if !f.cancelled && (ct.suspect ==> f.opens) {
      if ct.suspect { ReloadOk(hist, top, limit, c, ct); }
      var ct1 := if ct.suspect then Reloaded(ct) else ct;
      TileFacts(hist, top, limit, c, ct1);
      BuildFromOk(hist, top, limit, ratio, c, ct1, ct.suspect, f);
    }
  }

  lemma AppendFrame(ct: CTile, T: TimeMs, next: Image, f: Fate, limit: nat, ratio: real)
    ensures var b := AppendRec(ct, T, next, f, limit, ratio);
            && b.ct.n == ct.n && b.ct.descT == ct.descT && b.ct.synced == ct.synced && ct.log <= b.ct.log
            && (b.clear ==> b.ok && ct.descT <= T)
            && (forall i :: |ct.log| <= i < |b.ct.log| ==> b.ct.log[i].t == T)
  {
    hide SinceBase, DeltaBytes, BaseBytes, NextRec, BooksOf;
    NextRecTime(ct.log, T, next, f, limit, ratio);
  }

  /** What a build leaves alone, that what it appends is effective at T, and that a dirty mark goes only with
      a successful build. */
  lemma BuildFrame(ct: CTile, T: TimeMs, next: Image, f: Fate, limit: nat, ratio: real)
    requires ct.books.count <= |ct.log|
    ensures var b := Build(ct, T, next, f, limit, ratio);
            && b.ct.n == ct.n && b.ct.descT == ct.descT && b.ct.synced == ct.synced && ct.log <= b.ct.log
            && (b.clear ==> b.ok && ct.descT <= T)
            && (forall i :: |ct.log| <= i < |b.ct.log| ==> b.ct.log[i].t == T)
  {
    hide Version, AppendRec, BooksOf;
    AppendFrame(ct, T, next, f, limit, ratio);
    AppendFrame(Reloaded(ct), T, next, f, limit, ratio);
  }
}
