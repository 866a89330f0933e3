/** Whole histories: a live server that commits every window and flushes at the end, and an offline rebuild of the same
    z0 history, write the same versions if and only if each level's interval and the window fit. */
module PyramidReplay {
  import opened Common
  import opened Pixels
  import opened Downsample
  import opened CoarseSeries
  import opened PyramidTiles
  import opened PyramidState
  import opened PyramidPass
  import opened PyramidAnswers
  import opened PyramidLatest
  import opened Pyramid
  import opened PyramidRebuild
  import opened PyramidRuns

  // --- the two schedules ---

  /** The times of c's versions on a server that commits and builds at each of the first n multiples of w. */
  ghost function LiveTimes(full: History, cf: Config, c: Tile, w: TimeMs, n: nat): seq<TimeMs>
    requires ConfigOk(cf) && c.k >= 1 && w > 0
  {
    if n == 0 then []
    else
      var s := LiveTimes(full, cf, c, w, n - 1);
      Next(s, n * w, Begun(full, c, n * w), Due(cf, c.k, n * w - w, n * w, false), Differs(full, c, s, n * w))
  }

  /** With a flush after the last window. */
  ghost function LiveFlushed(full: History, cf: Config, c: Tile, w: TimeMs, n: nat): seq<TimeMs>
    requires ConfigOk(cf) && c.k >= 1 && w > 0
  {
    var s := LiveTimes(full, cf, c, w, n);
    Next(s, n * w, Begun(full, c, n * w), true, Differs(full, c, s, n * w))
  }

  /** Each interval is a multiple of the window, or the window one of the interval. */
  predicate Fits(cf: Config, w: TimeMs)
    requires ConfigOk(cf) && w > 0
  {
    forall k :: 1 <= k <= cf.levels ==> FitsLevel(cf, k, w)
  }

  predicate FitsLevel(cf: Config, k: nat, w: TimeMs)
    requires ConfigOk(cf) && k >= 1 && w > 0
  {
    Interval(cf, k) % w == 0 || w % Interval(cf, k) == 0
  }

  /** The z0 versions of the tiles that have any; they are effective after time 0, which no horizon is. */
  ghost predicate Listed(full: History) {
    HistoryOk(full) && forall z <- full :: full[z] != [] && forall i :: 0 <= i < |full[z]| ==> full[z][i].t > 0
  }

  /** Versions become effective where a window ends. */
  ghost predicate AtEnds(full: History, w: TimeMs)
    requires w > 0
  {
    forall z <- full, i :: 0 <= i < |full[z]| ==> full[z][i].t % w == 0
  }

  lemma DueIs(iv: TimeMs, prev: TimeMs, T: TimeMs)
    requires iv > 0
    ensures T / iv > prev / iv <==> T - T % iv > prev
  {
    FloorIs(prev, iv, T / iv);
    assert T == iv * (T / iv) + T % iv;
  }

  /** A level due since the instant before is one at a multiple of its interval. */
  lemma DueExactly(cf: Config, k: nat, T: TimeMs)
    requires ConfigOk(cf) && k >= 1
    ensures Due(cf, k, T - 1, T, false) <==> T % Interval(cf, k) == 0
  {
    DueIs(Interval(cf, k), T - 1, T);
  }

  /** An update builds a level when the last multiple of its interval is after the last update, and the first one, or
      one that is not later than the last, when it is at such a multiple. */
  lemma DueSince(cf: Config, k: nat, builtT: TimeMs, T: TimeMs)
    requires ConfigOk(cf) && k >= 1
    ensures var iv := Interval(cf, k);
            Due(cf, k, Before(builtT, T), T, false) <==>
            if NEVER != builtT < T then T - T % iv > builtT else T % iv == 0
  {
    DueIs(Interval(cf, k), Before(builtT, T), T);
    DueExactly(cf, k, T);
  }

  lemma MultipleOfMultiple(a: int, b: int, x: int)
    requires a > 0 && b > 0 && b % a == 0 && x % b == 0
    ensures x % a == 0
  {
    assert x == b * (x / b) && b == a * (b / a);
    assert x == a * (b / a * (x / b)) by { Associate(a, b / a, x / b); }
    MultipleMod(a, b / a * (x / b));
  }

  lemma Associate(a: int, b: int, c: int)
    ensures a * b * c == a * (b * c)
  {
  }

  /** Two multiples less than one interval apart are the same. */
  lemma SameMultiple(w: int, x: int, y: int)
    requires w > 0 && x % w == 0 && y % w == 0 && x <= y < x + w
    ensures x == y
  {
    assert x == w * (x / w) && y == w * (y / w);
    if x < y { NoMultiple(w, y / w, x / w); }
  }

  /** With a build every window: due when the time is a multiple of the interval, where the two fit. */
  lemma DueAtEnd(cf: Config, k: nat, w: TimeMs, T: TimeMs)
    requires ConfigOk(cf) && k >= 1 && w > 0 && FitsLevel(cf, k, w) && T % w == 0
    ensures Due(cf, k, T - w, T, false) <==> T % Interval(cf, k) == 0
  {
    var iv := Interval(cf, k);
    DueIs(iv, T - w, T);
    if w % iv == 0 {
      MultipleOfMultiple(iv, w, T);
    } else if T - T % iv > T - w {
      assert T - T % iv == iv * (T / iv);
      MultipleMod(iv, T / iv);
      MultipleOfMultiple(w, iv, T - T % iv);
      SameMultiple(w, T - T % iv, T);
    }
  }

  // --- where they fit, both schedules are the same ---

  function Ends(w: TimeMs, n: nat): set<TimeMs> { set i | 1 <= i <= n :: i * w }

  lemma EndsPlanned(full: History, cf: Config, w: TimeMs, n: nat)
    requires ConfigOk(cf) && w > 0 && Fits(cf, w) && Listed(full) && AtEnds(full, w)
    ensures Planned(full, cf, Ends(w, n), n * w)
  {
    hide Interval, Ceil, HistoryOk;
    forall z <- full, i | 0 <= i < |full[z]| ensures PlannedAt(cf, Ends(w, n), n * w, full[z][i].t, i == 0) {
      var t := full[z][i].t;
      EndIn(w, n, t);
      forall k | 1 <= k <= cf.levels && Ceil(t, Interval(cf, k)) <= n * w
        ensures Ceil(t, Interval(cf, k)) in Ends(w, n)
      {
        assert FitsLevel(cf, k, w);
        CeilAtEnd(cf, k, w, t);
        EndIn(w, n, Ceil(t, Interval(cf, k)));
      }
    }
  }

  lemma EndIn(w: TimeMs, n: nat, t: TimeMs)
    requires w > 0 && t % w == 0
    ensures t in Ends(w, n) <==> 0 < t <= n * w
  {
    assert t == t / w * w;
    if 0 < t <= n * w {
      FloorIs(t, w, n + 1);
      assert (n + 1) * w == n * w + w;
    }
    forall i | 1 <= i <= n ensures 0 < i * w <= n * w { ProductMonotone(i, n, w); }
  }

  lemma CeilAtEnd(cf: Config, k: nat, w: TimeMs, t: TimeMs)
    requires ConfigOk(cf) && k >= 1 && w > 0 && FitsLevel(cf, k, w) && t % w == 0
    ensures Ceil(t, Interval(cf, k)) % w == 0 && Ceil(t, Interval(cf, k)) >= t
  {
    hide Interval;
    var iv := Interval(cf, k);
    if w % iv == 0 {
      MultipleOfMultiple(iv, w, t);
    } else {
      MultipleOfMultiple(w, iv, Ceil(t, iv));
    }
  }

  lemma NothingAtZero(full: History, cf: Config, c: Tile)
    requires ConfigOk(cf) && c.k >= 1 && Listed(full)
    ensures !Begun(full, c, 0) && Times(full, cf, c, 0) == []
  {
    hide Times;
    NotBegun(full, c);
    TimesBegun(full, cf, c, 0);
  }

  lemma {:induction false} LiveIsPlain(full: History, cf: Config, c: Tile, w: TimeMs, n: nat)
    requires ConfigOk(cf) && w > 0 && Fits(cf, w) && Listed(full) && AtEnds(full, w) && 1 <= c.k <= cf.levels
    ensures LiveTimes(full, cf, c, w, n) == Times(full, cf, c, n * w)
  {
    hide Times, Interval, Due, Begun, Differs, Next, Listed, AtEnds;
    if n == 0 {
      NothingAtZero(full, cf, c);
    } else {
      LiveIsPlain(full, cf, c, w, n - 1);
      assert (n - 1) * w == n * w - w;
      WindowSame(full, cf, c, w, n);
      TimesIs(full, cf, c, n * w);
      assert FitsLevel(cf, c.k, w);
      MultipleMod(w, n);
      DueAtEnd(cf, c.k, w, n * w);
    }
  }

  /** Between two windows the plain schedule changes nothing. */
  lemma WindowSame(full: History, cf: Config, c: Tile, w: TimeMs, n: nat)
    requires ConfigOk(cf) && w > 0 && Fits(cf, w) && Listed(full) && AtEnds(full, w) && 1 <= c.k <= cf.levels && n > 0
    ensures n * w > 0 && Times(full, cf, c, n * w - 1) == Times(full, cf, c, n * w - w)
  {
    hide Times, Interval, AtEnds, Planned, HistoryOk;
    assert (n - 1) * w == n * w - w;
    ProductMonotone(0, n - 1, w);
    EndsPlanned(full, cf, w, n);
    PlannedLess(full, cf, Ends(w, n), n * w);
    forall x <- Ends(w, n) ensures !(n * w - w < x <= n * w - 1) {
      var i :| 1 <= i <= n && x == i * w;
      if i < n { ProductMonotone(i, n - 1, w); }
    }
    GapSame(full, cf, Ends(w, n), c, n * w - w, n * w - 1);
  }

  /** Where every interval fits, the flushed live server and the flushed rebuild have the same version times. */
  lemma FlushedSame(full: History, cf: Config, c: Tile, w: TimeMs, n: nat)
    requires ConfigOk(cf) && w > 0 && Fits(cf, w) && Listed(full) && AtEnds(full, w) && 1 <= c.k <= cf.levels && n > 0
    ensures LiveFlushed(full, cf, c, w, n) == Flushed(full, cf, c, n * w)
  {
    hide Times, Interval, Begun, Average;
    LiveIsPlain(full, cf, c, w, n);
    WindowSame(full, cf, c, w, n);
    TimesIs(full, cf, c, n * w);
    TimesAfter(full, cf, c, n * w - 1);
  }

  // --- where one does not, they can differ ---

  /** A due tile's newest version shows its content. */
  lemma NextShows(full: History, c: Tile, s: seq<TimeMs>, T: TimeMs)
    requires Begun(full, c, T) && (s != [] ==> s[|s| - 1] < T)
    ensures var s' := Next(s, T, true, true, Differs(full, c, s, T));
            s' != [] && s'[|s'| - 1] <= T && Average(full, c, s'[|s'| - 1]) == Average(full, c, T)
  {
    hide Average, Begun;
  }

  lemma {:induction false} LiveAtEnds(full: History, cf: Config, c: Tile, w: TimeMs, n: nat)
    requires ConfigOk(cf) && c.k >= 1 && w > 0
    ensures forall x <- LiveTimes(full, cf, c, w, n) :: x % w == 0 && x <= n * w
  {
    hide Begun, Average, Interval, Due, Differs;
    MultipleMod(w, n);
    if n > 0 {
      assert (n - 1) * w == n * w - w;
      LiveAtEnds(full, cf, c, w, n - 1);
    }
  }

  /** Versions stay. */
  lemma {:induction false} LiveGrows(full: History, cf: Config, c: Tile, w: TimeMs, m: nat, n: nat)
    requires ConfigOk(cf) && c.k >= 1 && w > 0 && m <= n
    ensures LiveTimes(full, cf, c, w, m) <= LiveTimes(full, cf, c, w, n)
  {
    hide Begun, Average, Interval, Due, Differs;
    if m < n { LiveGrows(full, cf, c, w, m, n - 1); }
  }

  lemma {:induction false} TimesGrow(full: History, cf: Config, c: Tile, m: TimeMs, n: TimeMs)
    requires ConfigOk(cf) && c.k >= 1 && NEVER <= m <= n
    ensures Times(full, cf, c, m) <= Times(full, cf, c, n)
    decreases n - m
  {
    hide Begun, Average, Interval, Differs, Times;
    if m < n {
      TimesGrow(full, cf, c, m, n - 1);
      TimesIs(full, cf, c, n);
    }
  }

  /** After the first version the plain schedule adds one at multiples of the interval only. */
  lemma {:induction false} TimesAtMultiples(full: History, cf: Config, c: Tile, m: TimeMs, T: TimeMs)
    requires ConfigOk(cf) && c.k >= 1 && NEVER <= m <= T && Times(full, cf, c, m) != []
    ensures var s, s' := Times(full, cf, c, m), Times(full, cf, c, T);
            s <= s' && forall i :: |s| <= i < |s'| ==> m < s'[i] <= T && s'[i] % Interval(cf, c.k) == 0
    decreases T - m
  {
    hide Begun, Average, Interval, Differs, Times;
    if m < T {
      TimesAtMultiples(full, cf, c, m, T - 1);
      TimesIs(full, cf, c, T);
    }
  }

  /** c begins by t0, where a window and an interval of its level both end, changes at the end of the next window,
      and stays so for longer than an interval. */
  ghost predicate Turns(full: History, cf: Config, c: Tile, w: TimeMs, m: nat, t0: TimeMs)
    requires ConfigOk(cf) && c.k >= 1 && w > 0
  {
    var iv := Interval(cf, c.k);
    && t0 == m * w > 0 && t0 % iv == 0 && Begun(full, c, t0)
    && Average(full, c, t0 + w) != Average(full, c, t0) && NoneBetween(full, c, t0 + w, t0 + w + iv)
  }

  /** At t0 the newest version of either schedule shows the content. */
  lemma ShownAt(full: History, cf: Config, c: Tile, w: TimeMs, m: nat, t0: TimeMs)
    requires ConfigOk(cf) && c.k >= 1 && w > 0 && Turns(full, cf, c, w, m, t0)
    ensures var s := Times(full, cf, c, t0);
            s != [] && s[|s| - 1] <= t0 && Average(full, c, s[|s| - 1]) == Average(full, c, t0)
    ensures var s := LiveTimes(full, cf, c, w, m);
            s != [] && s[|s| - 1] <= t0 && Average(full, c, s[|s| - 1]) == Average(full, c, t0)
  {
    hide ConfigOk, Average, Begun, Times, Interval, Next, Differs, NoneBetween;
    TimesIs(full, cf, c, t0);
    TimesAfter(full, cf, c, t0 - 1);
    NextShows(full, c, Times(full, cf, c, t0 - 1), t0);
    var s := LiveTimes(full, cf, c, w, m - 1);
    assert (m - 1) * w == t0 - w;
    LiveAtEnds(full, cf, c, w, m - 1);
    assert s != [] ==> s[|s| - 1] in s;
    DueIs(Interval(cf, c.k), t0 - w, t0);
    NextShows(full, c, s, t0);
  }

  /** An interval longer than the window: the plain schedule has a version where no window ends. */
  lemma PlainOnly(full: History, cf: Config, c: Tile, w: TimeMs, m: nat, t0: TimeMs)
    requires ConfigOk(cf) && c.k >= 1 && w > 0 && Turns(full, cf, c, w, m, t0) && w < Interval(cf, c.k)
    ensures t0 + Interval(cf, c.k) in Times(full, cf, c, t0 + Interval(cf, c.k))
  {
    hide ConfigOk, Average, Begun, Times, Interval, NoneBetween;
    var iv := Interval(cf, c.k);
    var T := t0 + iv;
    ShownAt(full, cf, c, w, m, t0);
    TimesAtMultiples(full, cf, c, t0, T - 1);
    var s, s0 := Times(full, cf, c, T - 1), Times(full, cf, c, t0);
    if |s| > |s0| { SameMultiple(iv, t0, s[|s0|]); }
    TimesIs(full, cf, c, T);
    BegunLater(full, c, t0, T);
    NoneLess(full, c, t0 + w, T, t0 + w + iv);
    SameContent(full, c, t0 + w, T);
    assert T == t0 + 1 * iv;
    MultipleMore(iv, t0);
  }

  lemma MultipleMore(iv: TimeMs, t: TimeMs)
    requires iv > 0 && t % iv == 0
    ensures (t + iv) % iv == 0
  {
    assert t + iv == iv * (t / iv + 1);
    MultipleMod(iv, t / iv + 1);
  }

  lemma NoneLess(full: History, c: Tile, a: TimeMs, b: TimeMs, b': TimeMs)
    requires NoneBetween(full, c, a, b') && b <= b'
    ensures NoneBetween(full, c, a, b)
  {
    hide Under;
  }

  /** A shorter interval: the live server has a version at a window's end that is no multiple of it. */
  lemma LiveOnly(full: History, cf: Config, c: Tile, w: TimeMs, m: nat, t0: TimeMs)
    requires ConfigOk(cf) && c.k >= 1 && w > 0 && Turns(full, cf, c, w, m, t0) && Interval(cf, c.k) < w
    ensures t0 + w in LiveTimes(full, cf, c, w, m + 1)
  {
    hide ConfigOk, Average, Begun, Times, Interval, NoneBetween;
    ShownAt(full, cf, c, w, m, t0);
    assert (m + 1) * w == t0 + w;
    BegunLater(full, c, t0, t0 + w);
    DueIs(Interval(cf, c.k), t0, t0 + w);
  }

  lemma PlainDiffers(full: History, cf: Config, c: Tile, w: TimeMs, m: nat, t0: TimeMs, n: nat)
    requires ConfigOk(cf) && 1 <= c.k <= cf.levels && w > 0 && Turns(full, cf, c, w, m, t0)
    requires w < Interval(cf, c.k) && Interval(cf, c.k) % w != 0 && t0 + Interval(cf, c.k) < n * w
    ensures t0 + Interval(cf, c.k) in Flushed(full, cf, c, n * w)
    ensures t0 + Interval(cf, c.k) !in LiveFlushed(full, cf, c, w, n)
  {
    hide ConfigOk, Average, Begun, Times, LiveTimes, Interval, NoneBetween, Differs, Due;
    var x := t0 + Interval(cf, c.k);
    PlainOnly(full, cf, c, w, m, t0);
    TimesGrow(full, cf, c, x, n * w - 1);
    if x % w == 0 {
      MultipleMod(w, m);
      Remains(w, t0, Interval(cf, c.k));
    }
    LiveAtEnds(full, cf, c, w, n);
    MultipleMod(w, n);
  }

  lemma LiveDiffers(full: History, cf: Config, c: Tile, w: TimeMs, m: nat, t0: TimeMs, n: nat)
    requires ConfigOk(cf) && 1 <= c.k <= cf.levels && w > 0 && Turns(full, cf, c, w, m, t0)
    requires Interval(cf, c.k) < w && w % Interval(cf, c.k) != 0 && t0 + w < n * w
    ensures t0 + w in LiveFlushed(full, cf, c, w, n)
    ensures t0 + w !in Flushed(full, cf, c, n * w)
  {
    hide ConfigOk, Average, Begun, Times, LiveTimes, Interval, NoneBetween, Differs, Due;
    LiveOnly(full, cf, c, w, m, t0);
    if m + 1 > n { ProductMonotone(n, m, w); }
    LiveGrows(full, cf, c, w, m + 1, n);
    ShownAt(full, cf, c, w, m, t0);
    TimesAtMultiples(full, cf, c, t0, n * w - 1);
    TimesAfter(full, cf, c, t0);
    if (t0 + w) % Interval(cf, c.k) == 0 { Remains(Interval(cf, c.k), t0, w); }
  }

  /** Where the interval of a tile's level does not fit, such a tile has different versions in the end. */
  lemma Differ(full: History, cf: Config, c: Tile, w: TimeMs, m: nat, t0: TimeMs, n: nat)
    requires ConfigOk(cf) && 1 <= c.k <= cf.levels && w > 0 && Turns(full, cf, c, w, m, t0) && !FitsLevel(cf, c.k, w)
    requires t0 + w < n * w && t0 + Interval(cf, c.k) < n * w
    ensures LiveFlushed(full, cf, c, w, n) != Flushed(full, cf, c, n * w)
  {
    hide ConfigOk, Flushed, LiveFlushed, Interval, Turns;
    if w < Interval(cf, c.k) {
      PlainDiffers(full, cf, c, w, m, t0, n);
    } else {
      LiveDiffers(full, cf, c, w, m, t0, n);
    }
  }

  lemma Remains(d: int, a: int, b: int)
    requires d > 0 && a % d == 0 && (a + b) % d == 0
    ensures b % d == 0
  {
    assert b == d * ((a + b) / d - a / d) by { assert a + b == d * ((a + b) / d) && a == d * (a / d); }
    MultipleMod(d, (a + b) / d - a / d);
  }

  /** The z0 tiles inside c. */
  function Leaves(c: Tile): set<Tile>
    decreases c.k
  {
    if c.k == 0 then {c}
    else Leaves(Child(c, 0)) + Leaves(Child(c, 1)) + Leaves(Child(c, 2)) + Leaves(Child(c, 3))
  }

  lemma {:induction false} LeavesUnder(c: Tile)
    ensures Leaves(c) != {} && forall z <- Leaves(c) :: Under(z, c)
    decreases c.k
  {
    hide Ancestor;
    if c.k == 0 {
      AncestorSelf(c);
    } else {
      LeavesUnder(Child(c, 0));
      LeavesUnder(Child(c, 1));
      LeavesUnder(Child(c, 2));
      LeavesUnder(Child(c, 3));
      assert Leaves(Child(c, 0)) <= Leaves(c);
      forall z <- Leaves(c) ensures Under(z, c) {
        var i :| 0 <= i < 4 && z in Leaves(Child(c, i));
        UnderChild(z, c, i);
      }
    }
  }

  lemma PlainParent(v: Pixel)
    requires v == 0 || v == 0xFFFF
    ensures Parent([Some(Plain(v)), Some(Plain(v)), Some(Plain(v)), Some(Plain(v))]) == Plain(v)
  {
    hide Block, ParentPixel;
    var kids := [Some(Plain(v)), Some(Plain(v)), Some(Plain(v)), Some(Plain(v))];
    forall i | 0 <= i < PIXELS
      ensures ParentAt(kids, i) == v
    {
      PlainPixel(kids, v, i);
    }
  }

  lemma PlainPixel(kids: seq<Option<Image>>, v: Pixel, i: int)
    requires |kids| == 4 && (forall q :: 0 <= q < 4 ==> kids[q] == Some(Plain(v))) && 0 <= i < PIXELS
    requires v == 0 || v == 0xFFFF
    ensures ParentAt(kids, i) == v
  {
    hide Block, Plain;
    AtAll(i);
    var r, c := i / TILE_SIZE, i % TILE_SIZE;
    assert 0 <= r / HALF * 2 + c / HALF < 4;
    assert kids[r / HALF * 2 + c / HALF] == Some(Plain(v));
    PlainCells(v, r % HALF, c % HALF);
  }

  lemma PlainCells(v: Pixel, r: int, c: int)
    requires 0 <= r < HALF && 0 <= c < HALF && (v == 0 || v == 0xFFFF)
    ensures Block(Plain(v), r, c) == v
  {
    hide Block;
    PlainBlock(Plain(v), v, r, c);
  }

  /** An area of one colour is that colour on every level. */
  lemma {:induction false} PlainAverage(hist: History, c: Tile, T: TimeMs, v: Pixel)
    requires (v == 0 || v == 0xFFFF) && forall z <- Leaves(c) :: Z0At(hist, z, T) == Some(Plain(v))
    ensures Average(hist, c, T) == Plain(v)
    decreases c.k
  {
    hide Plain, Parent, Z0At, Average;
    if c.k == 0 {
      assert c in Leaves(c);
      AverageOfSpot(hist, c, T);
    } else {
      PlainAverage(hist, Child(c, 0), T, v);
      PlainAverage(hist, Child(c, 1), T, v);
      PlainAverage(hist, Child(c, 2), T, v);
      PlainAverage(hist, Child(c, 3), T, v);
      PlainParent(v);
      AverageUnfold(hist, c, T);
    }
  }

  /** Every z0 tile inside c appears black at t and turns white at u. */
  function Turning(c: Tile, t: TimeMs, u: TimeMs): History {
    map z | z in Leaves(c) :: [Stamp(t, Plain(0)), Stamp(u, Plain(0xFFFF))]
  }

  lemma TurningIs(c: Tile, t: TimeMs, u: TimeMs, v: TimeMs)
    requires 0 < t < u <= v
    ensures var full := Turning(c, t, u);
            Listed(full) && AllBefore(full, u) && Begun(full, c, t) && NoneBetween(full, c, u, v)
            && Average(full, c, u) != Average(full, c, t)
  {
    hide Plain, Under, Leaves, Average;
    var full: History := Turning(c, t, u);
    var h := [Stamp(t, Plain(0)), Stamp(u, Plain(0xFFFF))];
    LeavesUnder(c);
    var z :| z in Leaves(c);
    assert z in full && full[z] == h;
    assert h[..1] == [Stamp(t, Plain(0))];
    assert Newest(h, u) == Some(Plain(0xFFFF)) && Newest(h, t) == Newest(h[..1], t) == Some(Plain(0));
    assert forall y <- full :: full[y] == h;
    LeafLevels(c);
    PlainAverage(full, c, u, 0xFFFF);
    PlainAverage(full, c, t, 0);
    assert Plain(0)[0] != Plain(0xFFFF)[0] by { PlainAt(0); PlainAt(0xFFFF); }
  }

  lemma PlainAt(v: Pixel)
    ensures Plain(v)[0] == v
  {
  }

  lemma LeafLevels(c: Tile)
    ensures forall z <- Leaves(c) :: z.k == 0
  {
    hide Leaves, Ancestor;
    LeavesUnder(c);
  }

  /** If the interval of some level does not fit, there is a z0 history of whole windows after which a tile has
      versions on a flushed live server that it does not have after a rebuild, or the other way round. */
  lemma UnfitHistory(cf: Config, w: TimeMs) returns (full: History, c: Tile, n: nat)
    requires ConfigOk(cf) && w > 0 && !Fits(cf, w)
    ensures Listed(full) && AtEnds(full, w) && AllBefore(full, n * w) && 1 <= c.k <= cf.levels && n > 0
    ensures LiveFlushed(full, cf, c, w, n) != Flushed(full, cf, c, n * w)
  {
    hide ConfigOk, Interval, Listed, AllBefore, LiveFlushed, Flushed, Begun, NoneBetween, Average, Leaves, Plain;
    var k :| 1 <= k <= cf.levels && !FitsLevel(cf, k, w);
    var iv := Interval(cf, k);
    c := Tile(k, 0, 0);
    var t0 := iv * w;
    TimesBoth(iv, w);
    full := Turning(c, t0, t0 + w);
    TurningIs(c, t0, t0 + w, t0 + w + iv);
    n := iv + 1 + iv;
    BeforeLater(full, t0 + w, n * w);
    assert forall z <- full :: full[z] == [Stamp(t0, Plain(0)), Stamp(t0 + w, Plain(0xFFFF))];
    Differ(full, cf, c, w, iv, t0, n);
  }

  lemma TimesBoth(iv: TimeMs, w: TimeMs)
    requires iv > 0 && w > 0
    ensures iv * w >= iv && iv * w >= w && iv * w % iv == 0 && iv * w % w == 0 && (iv * w + w) % w == 0
    ensures (iv + 1 + iv) * w == iv * w + w + iv * w
  {
    ProductMonotone(1, iv, w);
    ProductMonotone(1, w, iv);
    MultipleMod(iv, w);
    assert iv * w == w * iv;
    MultipleMod(w, iv);
    MultipleMore(w, iv * w);
    Distributes(iv, w);
  }

  lemma Distributes(iv: int, w: int)
    ensures (iv + 1 + iv) * w == iv * w + w + iv * w
  {
  }

  lemma BeforeLater(full: History, T: TimeMs, T': TimeMs)
    requires AllBefore(full, T) && T <= T'
    ensures AllBefore(full, T')
  {
  }

  // --- the z0 store ---

  /** The versions up to T' of the tiles that are done, and up to T of the rest. */
  function Partly(full: History, T: TimeMs, T': TimeMs, rest: set<Tile>): History {
    map z | z in full && Upto(full[z], if z in rest then T else T') != [] ::
        Upto(full[z], if z in rest then T else T')
  }

  lemma UptoMore(h: seq<Stamp>, T: TimeMs, T': TimeMs)
    requires InOrder(h) && T <= T'
    ensures |Upto(h, T)| <= |Upto(h, T')| <= |h|
    ensures Upto(h, T) == h[..|Upto(h, T)|] && Upto(h, T') == h[..|Upto(h, T')|]
    ensures forall i :: 0 <= i < |h| ==> (i < |Upto(h, T')| <==> h[i].t <= T')
    ensures forall i :: |Upto(h, T)| <= i < |h| ==> h[i].t > T
  {
    UptoIs(h, T);
    UptoIs(h, T');
    if Upto(h, T) != [] { assert h[|Upto(h, T)| - 1].t <= T; }
  }

  lemma PartlyNext(full: History, T: TimeMs, T': TimeMs, rest: set<Tile>, z: Tile, hist: History)
    requires z in rest && z in full && hist - {z} == Partly(full, T, T', rest) - {z}
    requires if Upto(full[z], T') == [] then z !in hist else z in hist && hist[z] == Upto(full[z], T')
    ensures hist == Partly(full, T, T', rest - {z})
  {
    hide Upto;
    var a, b := Partly(full, T, T', rest), Partly(full, T, T', rest - {z});
    forall y: Tile
      ensures y in hist <==> y in b
      ensures y in hist ==> hist[y] == b[y]
    {
      if y != z {
        assert y in hist <==> y in hist - {z};
        assert y in a <==> y in a - {z};
        if y in hist { assert hist[y] == (hist - {z})[y] == (a - {z})[y] == a[y]; }
      }
    }
  }

  /** Commits the versions of z that become effective after the horizon and up to `to`. */
  method CommitTile(p: Pyramid, full: History, z: Tile, to: TimeMs, ghost rest: set<Tile>)
    requires p.Valid() && Listed(full) && z in rest && z in full && p.horizon <= to
    requires p.hist == Partly(full, p.horizon, to, rest)
    modifies p`hist
    ensures p.Valid() && p.hist == Partly(full, p.horizon, to, rest - {z})
  {
    hide ConfigOk, DirOk, CacheOk, Upto;
    var h := full[z];
    UptoMore(h, p.horizon, to);
    ghost var others := p.hist - {z};
    var i := if z in p.hist then |p.hist[z]| else 0;
    while i < |h| && h[i].t <= to
      invariant |Upto(h, p.horizon)| <= i <= |Upto(h, to)| && p.Valid()
      invariant p.hist - {z} == others && (if i == 0 then z !in p.hist else z in p.hist && p.hist[z] == h[..i])
    {
      p.TerrainCommit(z, h[i]);
      i := i + 1;
    }
    PartlyNext(full, p.horizon, to, rest, z, p.hist);
  }

  /** Commits every version that becomes effective up to `to`, which is the horizon then. */
  method CommitUpTo(p: Pyramid, full: History, to: TimeMs)
    requires p.Valid() && Listed(full) && p.hist == Until(full, p.horizon) && p.horizon <= to
    modifies p`hist, p`horizon
    ensures p.Valid() && p.hist == Until(full, to) && p.horizon == to
  {
    hide ConfigOk, DirOk, CacheOk, Listed;
    var rest := full.Keys;
    while rest != {}
      invariant rest <= full.Keys && p.Valid() && p.horizon == old(p.horizon)
      invariant p.hist == Partly(full, p.horizon, to, rest)
      decreases rest
    {
      var z :| z in rest;
      CommitTile(p, full, z, to, rest);
      rest := rest - {z};
    }
    p.RaiseHorizon(to);
  }

  // --- the live server ---

  /** The last pass was at the horizon; there is none before the first commit. */
  predicate Kept(p: Pyramid)
    reads p
  {
    p.builtT == if p.hist == map[] then NEVER else p.horizon
  }

  /** Before anything was committed nothing is known. */
  lemma NothingKnown(d: Dir, cf: Config, full: History, T: TimeMs)
    requires ConfigOk(cf) && Listed(full) && Caught(d, cf, full, T) && d.hist == map[]
    ensures d.tiles == map[] && forall c :: !Begun(full, c, T)
  {
    hide Until, TileOk, Marked, ClearOk, Under;
    UntilOk(full, T);
    assert forall c <- d.tiles :: 1 <= c.k <= cf.levels;
  }

  lemma BeginsBefore(full: History, T: TimeMs, T': TimeMs, z: Tile)
    requires HistoryOk(full) && T <= T' && z in Until(full, T)
    ensures z in Until(full, T')
  {
    UptoMore(full[z], T, T');
  }

  lemma NothingYet(d: Dir, d': Dir, cf: Config, full: History, T: TimeMs, T': TimeMs)
    requires ConfigOk(cf) && Listed(full) && Caught(d, cf, full, T) && T <= T' && d'.tiles == d.tiles
    requires DirOk(d', cf, {}) && d'.hist == Until(full, T') == map[] && d'.horizon == T'
    ensures d.hist == map[] && d.tiles == map[] && Caught(d', cf, full, T') && forall c :: !Begun(full, c, T')
  {
    hide Until, Under, DirOk;
    UntilOk(full, T);
    UntilOk(full, T');
    forall z <- full ensures z !in d.hist { if z in d.hist { BeginsBefore(full, T, T', z); } }
    NothingKnown(d, cf, full, T);
  }

  lemma CaughtAt(d: Dir, cf: Config, full: History, T: TimeMs)
    requires Caught(d, cf, full, T)
    ensures d.hist == Until(full, T) && d.horizon == T > NEVER && DirOk(d, cf, {})
  {
    hide DirOk, Until, Begun;
  }

  /** Before the first commit an update does nothing. */
  lemma UpdatedNothing(d: Dir, d1: Dir, d': Dir, cf: Config, full: History, T: TimeMs, to: TimeMs, force: bool)
    requires ConfigOk(cf) && Listed(full) && Caught(d, cf, full, T) && T <= to && d1.tiles == d.tiles
    requires DirOk(d1, cf, {}) && d1.hist == Until(full, to) == map[] && d1.horizon == to && d' == d1
    ensures d.hist == map[] && Caught(d', cf, full, to) && Stepped(d, d', cf, full, to, T, force)
  {
    hide DirOk, Until, Begun, Caught, Listed, Due, ConfigOk;
    NothingYet(d, d', cf, full, T, to);
  }

  /** After a commit it is a pass from the last one. */
  lemma WindowCatches(d: Dir, d0: Dir, d': Dir, cf: Config, full: History, T: TimeMs, to: TimeMs, builtT: TimeMs,
                      force: bool, done: set<Tile>)
    requires ConfigOk(cf) && Listed(full) && Caught(d, cf, full, T)
    requires if force then T <= to else T < to
    requires PassFrom(d, d0, d', cf, full, to, Before(builtT, to), force, done)
    requires builtT == if d.hist == map[] then NEVER else T
    ensures Caught(d', cf, full, to) && Stepped(d, d', cf, full, to, T, force)
  {
    hide DirOk, Until, Begun, Caught, Listed, Due, ConfigOk, PassFrom, Differs;
    ListedOk(full);
    PassCatches(d, d0, d', cf, full, T, to, Before(builtT, to), force, done);
    CaughtAt(d, cf, full, T);
    forall c: Tile | 1 <= c.k <= cf.levels
      ensures SteppedTile(d, d', cf, full, to, T, force, c)
    {
      if force {
        DueForced(cf, c.k, T, to);
        DueForced(cf, c.k, Before(builtT, to), to);
      } else if d.hist == map[] {
        NothingKnown(d, cf, full, T);
        assert LogTimes(d.tiles, c) == [];
      }
    }
  }

  lemma DueForced(cf: Config, k: nat, prev: TimeMs, T: TimeMs)
    requires ConfigOk(cf) && k >= 1
    ensures Due(cf, k, prev, T, true)
  {
  }

  lemma ListedOk(full: History)
    requires Listed(full)
    ensures HistoryOk(full)
  {
  }

  /** A window of the live server: its commits, then an update at its end; or a flush. */
  method Window(p: Pyramid, full: History, to: TimeMs, force: bool, fates: Tile -> Fate, syncs: Tile -> bool)
    returns (ok: bool)
    requires p.Valid() && Listed(full) && Caught(p.D(), p.cf, full, p.horizon) && Kept(p) && 0 < to
    requires if force then p.horizon <= to else p.horizon < to
    modifies p
    ensures p.Valid()
    ensures ok ==> Caught(p.D(), p.cf, full, to) && Kept(p)
    ensures ok ==> Stepped(old(p.D()), p.D(), p.cf, full, to, old(p.horizon), force)
    ensures AllWell(fates, syncs) ==> ok
  {
    hide Listed, Caught, DirOk, CacheOk, Begun, Differs, Due, Until, PassInv, Marks, MarksUpTo, TookAll, Covered,
      AllWell, Stepped, ConfigOk, AllBefore, HistoryOk;
    ghost var d, T := p.D(), p.horizon;
    CaughtAt(d, p.cf, full, T);
    CommitUpTo(p, full, to);
    ListedOk(full);
    UntilOk(full, to);
    ghost var d1, builtT := p.D(), p.builtT;
    ghost var done, d0;
    ok, done, d0 := p.Update(force, fates, syncs);
    if d1.hist == map[] {
      UpdatedNothing(d, d1, p.D(), p.cf, full, T, to, force);
    } else if ok {
      WindowCatches(d, d0, p.D(), p.cf, full, T, to, builtT, force, done);
    }
  }

  /** Each tile has the versions it had, and the one a build at `to` adds. */
  ghost predicate Stepped(d: Dir, d': Dir, cf: Config, full: History, to: TimeMs, prev: TimeMs, force: bool)
    requires ConfigOk(cf)
  {
    forall c: Tile :: 1 <= c.k <= cf.levels ==> SteppedTile(d, d', cf, full, to, prev, force, c)
  }

  ghost predicate SteppedTile(d: Dir, d': Dir, cf: Config, full: History, to: TimeMs, prev: TimeMs, force: bool,
                               c: Tile)
    requires ConfigOk(cf) && c.k >= 1
  {
    var s := LogTimes(d.tiles, c);
    LogTimes(d'.tiles, c) == Next(s, to, Begun(full, c, to), Due(cf, c.k, prev, to, force), Differs(full, c, s, to))
  }

  /** The builder is at T, and each tile has the versions of the live schedule up to the n-th window. */
  ghost predicate LiveAt(d: Dir, cf: Config, full: History, w: TimeMs, n: nat)
    requires ConfigOk(cf) && w > 0
  {
    && Caught(d, cf, full, n * w)
    && forall c: Tile :: 1 <= c.k <= cf.levels ==> LogTimes(d.tiles, c) == LiveTimes(full, cf, c, w, n)
  }

  /** No version is effective by T. */
  ghost predicate After(full: History, T: TimeMs) {
    forall z <- full, i :: 0 <= i < |full[z]| ==> full[z][i].t > T
  }

  lemma NoneUntil(full: History, T: TimeMs)
    requires Listed(full) && After(full, T)
    ensures Until(full, T) == map[] && forall c :: !Begun(full, c, T)
  {
    hide Under;
    forall z <- full ensures Upto(full[z], T) == [] { UptoNone(full[z], T); }
  }

  lemma {:induction false} UptoNone(h: seq<Stamp>, T: TimeMs)
    requires forall i :: 0 <= i < |h| ==> h[i].t > T
    ensures Upto(h, T) == []
    decreases |h|
  {
    if h != [] { UptoNone(h[..|h| - 1], T); }
  }

  /** A datastore nothing was committed to yet. */
  lemma FreshCaught(d: Dir, cf: Config, full: History, T: TimeMs)
    requires ConfigOk(cf) && Listed(full) && After(full, T) && NEVER < T && DirOk(d, cf, {})
    requires d.hist == map[] && d.tiles == map[] && d.horizon == T
    ensures Caught(d, cf, full, T)
  {
    hide DirOk, Until, Begun;
    NoneUntil(full, T);
  }

  lemma {:induction false} NoLiveTimes(full: History, cf: Config, c: Tile, w: TimeMs, n: nat)
    requires ConfigOk(cf) && c.k >= 1 && w > 0 && Listed(full) && After(full, n * w)
    ensures LiveTimes(full, cf, c, w, n) == []
  {
    hide Interval, Differs, Due, Begun, Until, Listed;
    if n > 0 {
      assert (n - 1) * w == n * w - w;
      NoLiveTimes(full, cf, c, w, n - 1);
      NoneUntil(full, n * w);
    }
  }

  lemma LiveStarts(d: Dir, cf: Config, full: History, w: TimeMs, n: nat)
    requires ConfigOk(cf) && w > 0 && Listed(full) && After(full, n * w) && DirOk(d, cf, {})
    requires d.hist == map[] && d.tiles == map[] && d.horizon == n * w > NEVER
    ensures LiveAt(d, cf, full, w, n)
  {
    hide LiveTimes, Caught, DirOk, After, Listed;
    FreshCaught(d, cf, full, n * w);
    forall c: Tile | 1 <= c.k <= cf.levels ensures LogTimes(d.tiles, c) == LiveTimes(full, cf, c, w, n) {
      NoLiveTimes(full, cf, c, w, n);
    }
  }

  lemma LiveSteps(d: Dir, d': Dir, cf: Config, full: History, w: TimeMs, n: nat)
    requires ConfigOk(cf) && w > 0 && LiveAt(d, cf, full, w, n)
    requires Caught(d', cf, full, (n + 1) * w) && Stepped(d, d', cf, full, (n + 1) * w, n * w, false)
    ensures LiveAt(d', cf, full, w, n + 1)
  {
    hide Caught, LogTimes, Next, Due, Begun, Differs;
    assert (n + 1) * w - w == n * w;
    forall c: Tile | 1 <= c.k <= cf.levels
      ensures LogTimes(d'.tiles, c) == LiveTimes(full, cf, c, w, n + 1)
    {
      assert SteppedTile(d, d', cf, full, (n + 1) * w, n * w, false, c);
    }
  }

  /** The tiles' versions after the flush at T: c's are effective at `times(c)`. */
  ghost predicate EndsWith(d: Dir, cf: Config, full: History, T: TimeMs, times: Tile -> seq<TimeMs>) {
    && Caught(d, cf, full, T)
    && forall c: Tile :: 1 <= c.k <= cf.levels ==> LogTimes(d.tiles, c) == times(c)
  }

  ghost function LiveEnd(full: History, cf: Config, w: TimeMs, n: nat): Tile -> seq<TimeMs>
    requires ConfigOk(cf) && w > 0
  {
    (c: Tile) => if c.k >= 1 then LiveFlushed(full, cf, c, w, n) else []
  }

  ghost function RebuiltEnd(full: History, cf: Config, H: TimeMs): Tile -> seq<TimeMs>
    requires ConfigOk(cf)
  {
    (c: Tile) => if c.k >= 1 then Flushed(full, cf, c, H) else []
  }

  lemma LiveEnds(d: Dir, d': Dir, cf: Config, full: History, w: TimeMs, n: nat)
    requires ConfigOk(cf) && w > 0 && LiveAt(d, cf, full, w, n)
    requires Caught(d', cf, full, n * w) && Stepped(d, d', cf, full, n * w, n * w, true)
    ensures EndsWith(d', cf, full, n * w, LiveEnd(full, cf, w, n))
  {
    hide Caught, LogTimes, Next, Due, Begun, Differs;
    forall c: Tile | 1 <= c.k <= cf.levels
      ensures LogTimes(d'.tiles, c) == LiveEnd(full, cf, w, n)(c)
    {
      assert SteppedTile(d, d', cf, full, n * w, n * w, true, c);
      DueForced(cf, c.k, n * w, n * w);
    }
  }

  /** A live server whose store is new after window `from`: it commits every window up to the n-th, updates after
      each, and flushes at the end. */
  method LiveRun(full: History, cf: Config, w: TimeMs, from: nat, n: nat, fates: TimeMs -> Tile -> Fate,
                 syncs: TimeMs -> Tile -> bool) returns (p: Pyramid, ok: bool)
    requires ConfigOk(cf) && w > 0 && Listed(full) && After(full, from * w) && from <= n && 0 < n
    ensures fresh(p) && p.Valid() && p.cf == cf
    ensures ok ==> EndsWith(p.D(), cf, full, n * w, LiveEnd(full, cf, w, n))
    ensures (forall T :: AllWell(fates(T), syncs(T))) ==> ok
  {
    hide Listed, DirOk, CacheOk, LiveAt, EndsWith, AllWell, Caught, Stepped, ConfigOk, After;
    ProductMonotone(0, from, w);
    ProductMonotone(1, n, w);
    p := new Pyramid(cf, from * w);
    LiveStarts(p.D(), cf, full, w, from);
    ok := true;
    var i := from;
    while i < n && ok
      invariant from <= i <= n && fresh(p) && p.Valid() && p.cf == cf
      invariant ok ==> LiveAt(p.D(), cf, full, w, i) && Kept(p)
      invariant (forall T :: AllWell(fates(T), syncs(T))) ==> ok
      decreases n - i
    {
      assert (i + 1) * w == i * w + w;
      ProductMonotone(0, i, w);
      ghost var d := p.D();
      CaughtThen(d, cf, full, w, i);
      ok := Window(p, full, (i + 1) * w, false, fates((i + 1) * w), syncs((i + 1) * w));
      if ok { LiveSteps(d, p.D(), cf, full, w, i); }
      i := i + 1;
    }
    if ok {
      ghost var d := p.D();
      CaughtThen(d, cf, full, w, n);
      ok := Window(p, full, n * w, true, fates(n * w), syncs(n * w));
      if ok { LiveEnds(d, p.D(), cf, full, w, n); }
    }
  }

  lemma CaughtThen(d: Dir, cf: Config, full: History, w: TimeMs, n: nat)
    requires ConfigOk(cf) && w > 0 && LiveAt(d, cf, full, w, n)
    ensures Caught(d, cf, full, n * w) && d.horizon == n * w
  {
    hide LiveTimes, DirOk, Begun, Until;
  }

  // --- the rebuild ---

  /** A pass a version of a tile that is effective at t asks for: the first one at once, and for every level the first
      multiple of its interval. */
  ghost predicate Asked(cf: Config, t: TimeMs, first: bool, pass: TimeMs)
    requires ConfigOk(cf)
  {
    (first && pass == t) || exists k :: 1 <= k <= cf.levels && pass == Ceil(t, Interval(cf, k))
  }

  /** The first n versions of a tile ask for a pass. */
  ghost predicate AskedBy(cf: Config, h: seq<Stamp>, n: nat, pass: TimeMs)
    requires ConfigOk(cf) && n <= |h|
  {
    exists i :: 0 <= i < n && Asked(cf, h[i].t, i == 0, pass)
  }

  /** Adds the passes a version asks for; levels with the interval of the one before are skipped. */
  method AddVersion(cf: Config, t: TimeMs, first: bool, passes: set<TimeMs>) returns (more: set<TimeMs>)
    requires ConfigOk(cf)
    ensures forall x :: x in more <==> x in passes || Asked(cf, t, first, x)
  {
    hide ConfigOk, Interval;
    more := passes;
    if first {
      more := more + {t};
    }
    for k := 1 to cf.levels + 1
      invariant forall x :: x in more <==>
                  (x in passes || (first && x == t) || exists j :: 1 <= j < k && x == Ceil(t, Interval(cf, j)))
    {
      ghost var before := more;
      if k == 1 || Interval(cf, k) != Interval(cf, k - 1) {
        more := more + {Ceil(t, Interval(cf, k))};
      }
      assert Ceil(t, Interval(cf, k)) in more;
    }
  }

  method AddTile(cf: Config, h: seq<Stamp>, passes: set<TimeMs>) returns (more: set<TimeMs>)
    requires ConfigOk(cf)
    ensures forall x :: x in more <==> x in passes || AskedBy(cf, h, |h|, x)
  {
    hide ConfigOk, Asked;
    more := passes;
    for i := 0 to |h|
      invariant forall x :: x in more <==> x in passes || AskedBy(cf, h, i, x)
    {
      ghost var before := more;
      more := AddVersion(cf, h[i].t, i == 0, more);
      forall x
        ensures x in more <==> x in passes || AskedBy(cf, h, i + 1, x)
      {
        if AskedBy(cf, h, i, x) {
          var j :| 0 <= j < i && Asked(cf, h[j].t, j == 0, x);
        }
      }
    }
  }

  /** The times of the passes of a rebuild. */
  method PassTimes(full: History, cf: Config) returns (passes: set<TimeMs>)
    requires ConfigOk(cf)
    ensures forall x :: x in passes <==> exists z <- full :: AskedBy(cf, full[z], |full[z]|, x)
  {
    hide ConfigOk, AskedBy;
    passes := {};
    var rest := full.Keys;
    while rest != {}
      invariant rest <= full.Keys
      invariant forall x :: x in passes <==> exists z <- full :: z !in rest && AskedBy(cf, full[z], |full[z]|, x)
      decreases rest
    {
      var z :| z in rest;
      passes := AddTile(cf, full[z], passes);
      rest := rest - {z};
    }
  }

  lemma PassesPlanned(full: History, cf: Config, passes: set<TimeMs>, upto: TimeMs)
    requires ConfigOk(cf) && forall x :: x in passes <==> exists z <- full :: AskedBy(cf, full[z], |full[z]|, x)
    ensures Planned(full, cf, passes, upto)
  {
    hide Interval, Ceil, ConfigOk;
    forall z <- full, i | 0 <= i < |full[z]| ensures PlannedAt(cf, passes, upto, full[z][i].t, i == 0) {
      var t := full[z][i].t;
      forall x | Asked(cf, t, i == 0, x) ensures x in passes { assert AskedBy(cf, full[z], |full[z]|, x); }
      if i == 0 { assert Asked(cf, t, i == 0, t); }
      forall k | 1 <= k <= cf.levels ensures Ceil(t, Interval(cf, k)) in passes {
        assert Asked(cf, t, i == 0, Ceil(t, Interval(cf, k)));
      }
    }
  }

  lemma PassesAfter(full: History, cf: Config, passes: set<TimeMs>)
    requires ConfigOk(cf) && forall x :: x in passes <==> exists z <- full :: AskedBy(cf, full[z], |full[z]|, x)
    requires Listed(full)
    ensures forall x <- passes :: x > 0
  {
    hide Interval, ConfigOk, HistoryOk;
  }

  /** A pass of a rebuild: the builder sees the z0 history up to `to`, as if it had just been committed. */
  method RebuildPass(p: Pyramid, full: History, to: TimeMs, force: bool, fates: Tile -> Fate, syncs: Tile -> bool)
    returns (ok: bool)
    requires p.Valid() && Listed(full) && Caught(p.D(), p.cf, full, p.horizon) && p.horizon <= to
    modifies p`hist, p`horizon, p`tiles, p`dirty, p`z0seen, p`liveSeq, p`seqs
    ensures p.Valid()
    ensures ok ==> Caught(p.D(), p.cf, full, to) && Stepped(old(p.D()), p.D(), p.cf, full, to, to - 1, force)
    ensures AllWell(fates, syncs) ==> ok
  {
    hide Listed, Caught, DirOk, CacheOk, Begun, Differs, Due, Until, PassInv, Marks, MarksUpTo, TookAll, Covered,
      AllWell, Stepped, ConfigOk, AllBefore, HistoryOk;
    ghost var d, T := p.D(), p.horizon;
    CaughtAt(d, p.cf, full, T);
    CommitUpTo(p, full, to);
    ListedOk(full);
    UntilOk(full, to);
    p.MarkAll();
    ghost var d0 := p.D();
    ghost var done;
    ok, done := p.Pass(to - 1, force, fates, syncs);
    if ok { RebuildCatches(d, d0, p.D(), p.cf, full, T, to, force, done); }
  }

  lemma RebuildCatches(d: Dir, d0: Dir, d': Dir, cf: Config, full: History, T: TimeMs, to: TimeMs, force: bool,
                       done: set<Tile>)
    requires ConfigOk(cf) && Listed(full) && Caught(d, cf, full, T) && T <= to
    requires PassFrom(d, d0, d', cf, full, to, to - 1, force, done)
    ensures Caught(d', cf, full, to) && Stepped(d, d', cf, full, to, to - 1, force)
  {
    hide DirOk, Until, Begun, Caught, Listed, Due, ConfigOk, PassFrom, Differs, LogTimes;
    ListedOk(full);
    PassCatches(d, d0, d', cf, full, T, to, to - 1, force, done);
  }

  /** The builder is at T, and each tile has the versions of the plain schedule. */
  ghost predicate PlainAtTime(d: Dir, cf: Config, full: History, T: TimeMs)
    requires ConfigOk(cf)
  {
    && Caught(d, cf, full, T)
    && forall c: Tile :: 1 <= c.k <= cf.levels ==> LogTimes(d.tiles, c) == Times(full, cf, c, T)
  }

  lemma PlainStarts(d: Dir, cf: Config, full: History)
    requires ConfigOk(cf) && Listed(full) && DirOk(d, cf, {}) && d.hist == map[] && d.tiles == map[] && d.horizon == 0
    ensures PlainAtTime(d, cf, full, 0)
  {
    hide Times, Caught, DirOk;
    FreshCaught(d, cf, full, 0);
    forall c: Tile | 1 <= c.k <= cf.levels ensures LogTimes(d.tiles, c) == Times(full, cf, c, 0) {
      NothingAtZero(full, cf, c);
    }
  }

  lemma PlainSteps(d: Dir, d': Dir, cf: Config, full: History, passes: set<TimeMs>, T: TimeMs, to: TimeMs)
    requires ConfigOk(cf) && Listed(full) && PlainAtTime(d, cf, full, T) && NEVER < T < to
    requires Planned(full, cf, passes, to - 1) && forall x <- passes :: !(T < x <= to - 1)
    requires Caught(d', cf, full, to) && Stepped(d, d', cf, full, to, to - 1, false)
    ensures PlainAtTime(d', cf, full, to)
  {
    hide Times, Caught, LogTimes, Next, Due, Begun, Differs, Planned, Interval, Listed;
    ListedOk(full);
    forall c: Tile | 1 <= c.k <= cf.levels
      ensures LogTimes(d'.tiles, c) == Times(full, cf, c, to)
    {
      assert SteppedTile(d, d', cf, full, to, to - 1, false, c);
      GapSame(full, cf, passes, c, T, to - 1);
      TimesIs(full, cf, c, to);
      DueExactly(cf, c.k, to);
    }
  }

  lemma PlainEnds(d: Dir, d': Dir, cf: Config, full: History, passes: set<TimeMs>, T: TimeMs, to: TimeMs)
    requires ConfigOk(cf) && Listed(full) && PlainAtTime(d, cf, full, T) && NEVER < T < to
    requires Planned(full, cf, passes, to - 1) && forall x <- passes :: !(T < x <= to - 1)
    requires Caught(d', cf, full, to) && Stepped(d, d', cf, full, to, to - 1, true)
    ensures EndsWith(d', cf, full, to, RebuiltEnd(full, cf, to))
  {
    hide Times, Caught, LogTimes, Next, Due, Begun, Differs, Planned, Interval, Listed;
    ListedOk(full);
    forall c: Tile | 1 <= c.k <= cf.levels
      ensures LogTimes(d'.tiles, c) == RebuiltEnd(full, cf, to)(c)
    {
      assert SteppedTile(d, d', cf, full, to, to - 1, true, c);
      GapSame(full, cf, passes, c, T, to - 1);
      DueForced(cf, c.k, to - 1, to);
    }
  }

  lemma PlainIs(d: Dir, cf: Config, full: History, T: TimeMs)
    requires ConfigOk(cf) && PlainAtTime(d, cf, full, T)
    ensures Caught(d, cf, full, T) && d.horizon == T
  {
    hide Times, DirOk, Begun, Until;
  }

  /** Without versions there is nothing to rebuild. */
  lemma NothingRebuilt(d: Dir, cf: Config, full: History, H: TimeMs)
    requires ConfigOk(cf) && Listed(full) && AllBefore(full, H) && (full == map[] || H == 0)
    requires DirOk(d, cf, {}) && d.hist == full && d.tiles == map[] && d.horizon == H
    ensures EndsWith(d, cf, full, H, RebuiltEnd(full, cf, H))
  {
    hide Times, TilesOk, Marked, ClearOk, Caught, Under;
    if full != map[] { HorizonAfter(full, H); }
    FreshCaught(d, cf, full, H);
    forall c: Tile | 1 <= c.k <= cf.levels
      ensures LogTimes(d.tiles, c) == RebuiltEnd(full, cf, H)(c)
    {
      TimesBegun(full, cf, c, H - 1);
    }
  }

  lemma HorizonAfter(full: History, H: TimeMs)
    requires Listed(full) && AllBefore(full, H) && full != map[]
    ensures H > 0
  {
    hide HistoryOk;
    var z :| z in full.Keys;
    assert 0 < full[z][0].t <= H;
  }

  /** At the last version's time the builder sees the whole history. */
  lemma AllOfIt(full: History, H: TimeMs)
    requires Listed(full) && AllBefore(full, H)
    ensures Until(full, H) == full
  {
    hide HistoryOk;
  }

  datatype Rebuilt = Finished | AlreadyBuilt | Failed

  /** Memory as opening leaves it: the tiles with versions, nothing cached. */
  ghost predicate Opened(p: Pyramid)
    reads p
  {
    p.cache == map[] && (forall c <- p.tiles :: p.tiles[c].books.count > 0) && (p.tiles == map[] ==> p.builtT == NEVER)
  }

  /** Winds the builder's view of an unbuilt datastore back to before the first version. */
  method WindBack(p: Pyramid)
    requires p.Valid() && Opened(p) && p.tiles == map[]
    modifies p`hist, p`horizon
    ensures p.Valid() && p.hist == map[] && p.horizon == 0
  {
    p.hist, p.horizon := map[], 0;
  }

  /** The passes below the horizon, in order, until one fails; T is the time of the last one. */
  method PassesBefore(p: Pyramid, full: History, horizon: TimeMs, passes: set<TimeMs>, fates: TimeMs -> Tile -> Fate,
                      syncs: TimeMs -> Tile -> bool) returns (ok: bool, ghost T: TimeMs)
    requires p.Valid() && Listed(full) && PlainAtTime(p.D(), p.cf, full, 0) && 0 < horizon && p.builtT == NEVER
    requires forall x :: x in passes <==> exists z <- full :: AskedBy(p.cf, full[z], |full[z]|, x)
    requires forall x <- passes :: x > 0
    modifies p`hist, p`horizon, p`tiles, p`dirty, p`z0seen, p`liveSeq, p`seqs
    ensures p.Valid() && 0 <= T < horizon
    ensures ok ==> PlainAtTime(p.D(), p.cf, full, T) && forall x <- passes :: x <= T || x >= horizon
    ensures (forall t :: AllWell(fates(t), syncs(t))) ==> ok
  {
    hide Listed, DirOk, CacheOk, AllWell, Caught, Stepped, ConfigOk, PlainAtTime, Planned, AskedBy;
    var rest := passes;
    ok, T := true, 0;
    while rest != {} && ok
      invariant p.Valid() && rest <= passes && 0 <= T < horizon
      invariant forall x <- passes :: x in rest || x <= T
      invariant forall x <- rest :: x > T
      invariant ok ==> PlainAtTime(p.D(), p.cf, full, T)
      invariant (forall t :: AllWell(fates(t), syncs(t))) ==> ok
      decreases rest
    {
      var t := Least(rest);
      if t >= horizon {
        break;
      }
      ghost var d := p.D();
      PlainIs(d, p.cf, full, T);
      ok := RebuildPass(p, full, t, false, fates(t), syncs(t));
      PassesPlanned(full, p.cf, passes, t - 1);
      if ok { PlainSteps(d, p.D(), p.cf, full, passes, T, t); }
      T := t;
      rest := rest - {t};
    }
  }

  /** Builds the coarse history of a datastore from its z0 history up to its horizon. */
  method Rebuild(p: Pyramid, fates: TimeMs -> Tile -> Fate, syncs: TimeMs -> Tile -> bool) returns (r: Rebuilt)
    requires p.Valid() && Opened(p) && Listed(p.hist) && AllBefore(p.hist, p.horizon)
    modifies p
    ensures p.Valid() && (r == AlreadyBuilt <==> old(p.tiles) != map[])
    ensures r == AlreadyBuilt ==> p.D() == old(p.D()) && p.builtT == old(p.builtT)
    ensures r == Finished ==>
              p.D().horizon == old(p.horizon) && p.hist == old(p.hist)
              && EndsWith(p.D(), p.cf, old(p.hist), old(p.horizon), RebuiltEnd(old(p.hist), p.cf, old(p.horizon)))
    ensures (forall T :: AllWell(fates(T), syncs(T))) ==> r != Failed
  {
    hide Listed, DirOk, CacheOk, EndsWith, AllWell, Caught, Stepped, ConfigOk, PlainAtTime, AllBefore, Planned, AskedBy;
    if exists c <- p.tiles :: p.tiles[c].books.count > 0 {
      return AlreadyBuilt;
    }
    assert p.tiles == map[];
    var full, horizon := p.hist, p.horizon;
    if full == map[] || horizon == 0 {
      NothingRebuilt(p.D(), p.cf, full, horizon);
      return Finished;
    }
    var passes := PassTimes(full, p.cf);
    PassesAfter(full, p.cf, passes);
    HorizonAfter(full, horizon);
    WindBack(p);
    PlainStarts(p.D(), p.cf, full);
    var ok;
    ghost var T;
    ok, T := PassesBefore(p, full, horizon, passes, fates, syncs);
    if !ok {
      return Failed;
    }
    ghost var d := p.D();
    PlainIs(d, p.cf, full, T);
    ok := RebuildPass(p, full, horizon, true, fates(horizon), syncs(horizon));
    if !ok {
      return Failed;
    }
    PassesPlanned(full, p.cf, passes, horizon - 1);
    PlainEnds(d, p.D(), p.cf, full, passes, T, horizon);
    AllOfIt(full, horizon);
    CaughtAt(p.D(), p.cf, full, horizon);
    p.builtT := Max(p.builtT, horizon);
    return Finished;
  }

  // --- both ---

  /** The same tiles, with as many published versions, effective at the same times and with the same content. */
  ghost predicate SameVersions(d: Dir, d': Dir) {
    d.tiles.Keys == d'.tiles.Keys && forall c <- d.tiles :: SameTile(d.tiles[c], d'.tiles[c])
  }

  ghost predicate SameTile(ct: CTile, ct': CTile) {
    && ct.n == ct'.n == |ct.log| == |ct'.log|
    && (forall i :: 0 <= i < |ct.log| ==> ct.log[i].t == ct'.log[i].t)
    && forall v :: 0 <= v <= |ct.log| ==> Version(ct.log, v) == Version(ct'.log, v)
  }

  lemma SameTimes(d: Dir, d': Dir, cf: Config, full: History, T: TimeMs, c: Tile)
    requires Caught(d, cf, full, T) && Caught(d', cf, full, T) && c in d.tiles && c in d'.tiles
    ensures SameTile(d.tiles[c], d'.tiles[c]) <==> LogTimes(d.tiles, c) == LogTimes(d'.tiles, c)
  {
    hide Average, Sound, BooksOf, Version, Begun, Until, Marked, ClearOk, HistoryOk;
    var log, log' := d.tiles[c].log, d'.tiles[c].log;
    if LogTimes(d.tiles, c) == LogTimes(d'.tiles, c) {
      forall i | 0 <= i < |log| ensures log[i].t == log'[i].t {
        assert LogTimes(d.tiles, c)[i] == LogTimes(d'.tiles, c)[i];
      }
      forall v | 0 <= v <= |log| ensures Version(log, v) == Version(log', v) {
        VersionShows(d, cf, full, T, c, v);
        VersionShows(d', cf, full, T, c, v);
      }
    }
  }

  lemma VersionShows(d: Dir, cf: Config, full: History, T: TimeMs, c: Tile, v: nat)
    requires Caught(d, cf, full, T) && c in d.tiles && v <= |d.tiles[c].log|
    ensures var log := d.tiles[c].log;
            Version(log, v) == if v == 0 then UNCHARTED else Average(Until(full, T), c, log[v - 1].t)
  {
    hide Average, Sound, BooksOf, Begun, Until, Marked, ClearOk, HistoryOk, Replay;
    assert TileOk(d.hist, d.horizon, cf.limit, c, d.tiles[c]);
    var log := d.tiles[c].log;
    if v > 0 { assert Version(log, v - 1 + 1) == Average(d.hist, c, log[v - 1].t); }
  }

  /** Two builders that reached the same time have the same versions exactly when those are effective at the same
      times. */
  lemma SameEnds(d: Dir, d': Dir, cf: Config, full: History, T: TimeMs, times: Tile -> seq<TimeMs>,
                 times': Tile -> seq<TimeMs>)
    requires EndsWith(d, cf, full, T, times) && EndsWith(d', cf, full, T, times')
    ensures SameVersions(d, d') <==> forall c: Tile :: 1 <= c.k <= cf.levels ==> times(c) == times'(c)
  {
    hide SameTile, Caught, LogTimes;
    KnownAt(d, cf, full, T);
    KnownAt(d', cf, full, T);
    assert d.tiles.Keys == d'.tiles.Keys;
    forall c <- d.tiles
      ensures SameTile(d.tiles[c], d'.tiles[c]) <==> times(c) == times'(c)
    {
      SameTimes(d, d', cf, full, T, c);
    }
    forall c: Tile | 1 <= c.k <= cf.levels && c !in d.tiles
      ensures times(c) == times'(c)
    {
      NoLog(d.tiles, c);
      NoLog(d'.tiles, c);
    }
  }

  lemma KnownAt(d: Dir, cf: Config, full: History, T: TimeMs)
    requires Caught(d, cf, full, T)
    ensures forall c: Tile :: c in d.tiles <==> 1 <= c.k <= cf.levels && Begun(full, c, T)
  {
    hide TileOk, Begun, Until, Marked, ClearOk, HistoryOk;
  }

  lemma NoLog(tiles: map<Tile, CTile>, c: Tile)
    requires c !in tiles
    ensures LogTimes(tiles, c) == []
  {
  }

  /** The live server and the rebuild of what it committed: when nothing fails they have the same versions if every
      interval fits the window. */
  method LiveAndRebuild(full: History, cf: Config, w: TimeMs, from: nat, n: nat, fates: TimeMs -> Tile -> Fate,
                        syncs: TimeMs -> Tile -> bool, fates': TimeMs -> Tile -> Fate,
                        syncs': TimeMs -> Tile -> bool) returns (live: Pyramid, rebuilt: Pyramid, ok: bool)
    requires ConfigOk(cf) && w > 0 && from <= n && 0 < n
    requires Listed(full) && AtEnds(full, w) && After(full, from * w) && AllBefore(full, n * w)
    ensures live.Valid() && rebuilt.Valid() && live.cf == rebuilt.cf == cf
    ensures ok && Fits(cf, w) ==> SameVersions(live.D(), rebuilt.D())
    ensures ok ==> (SameVersions(live.D(), rebuilt.D()) <==>
                    forall c: Tile :: 1 <= c.k <= cf.levels ==>
                      LiveFlushed(full, cf, c, w, n) == Flushed(full, cf, c, n * w))
    ensures (forall T :: AllWell(fates(T), syncs(T)) && AllWell(fates'(T), syncs'(T))) ==> ok
  {
    hide Listed, DirOk, CacheOk, EndsWith, AllWell, ConfigOk, After, AtEnds, AllBefore, LiveFlushed, Flushed, Fits,
      SameVersions;
    live, ok := LiveRun(full, cf, w, from, n, fates, syncs);
    ProductMonotone(1, n, w);
    rebuilt := new Pyramid(cf, 0);
    NoneUntil0(full);
    CommitUpTo(rebuilt, full, n * w);
    AllOfIt(full, n * w);
    var r := Rebuild(rebuilt, fates', syncs');
    if ok && r == Finished {
      SameEnds(live.D(), rebuilt.D(), cf, full, n * w, LiveEnd(full, cf, w, n), RebuiltEnd(full, cf, n * w));
      forall c: Tile | Fits(cf, w) && 1 <= c.k <= cf.levels
        ensures LiveFlushed(full, cf, c, w, n) == Flushed(full, cf, c, n * w)
      {
        FlushedSame(full, cf, c, w, n);
      }
    }
    ok := ok && r == Finished;
  }

  lemma NoneUntil0(full: History)
    requires Listed(full)
    ensures Until(full, 0) == map[]
  {
    NoneUntil(full, 0);
  }

  /** The two schedules agree on every z0 history of whole windows if and only if every interval fits the window. */
  lemma FitsExactly(cf: Config, w: TimeMs)
    requires ConfigOk(cf) && w > 0
    ensures Fits(cf, w) <==>
            forall full: History, c: Tile, n: nat ::
              Listed(full) && AtEnds(full, w) && AllBefore(full, n * w) && 1 <= c.k <= cf.levels && n > 0 ==>
                LiveFlushed(full, cf, c, w, n) == Flushed(full, cf, c, n * w)
  {
    hide ConfigOk, Fits, Listed, AtEnds, AllBefore, LiveFlushed, Flushed;
    if Fits(cf, w) {
      forall full: History, c: Tile, n: nat | Listed(full) && AtEnds(full, w) && 1 <= c.k <= cf.levels && n > 0
        ensures LiveFlushed(full, cf, c, w, n) == Flushed(full, cf, c, n * w)
      {
        FlushedSame(full, cf, c, w, n);
      }
    } else {
      var full, c, n := UnfitHistory(cf, w);
    }
  }
}

