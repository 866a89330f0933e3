/** The steps of a commit of one surface: which files become right with each, and what the new horizon leaves. */
module MoverCommit {
  import opened Common
  import opened MoverRows
  import opened MoverClose
  import opened MoverState

  const MAX_KEYFRAMES := 168

  /** The first hour a commit writes a keyframe at: the first one after the first row and the horizon. */
  function FirstHour(first: TimeMs, horizon: Option<TimeMs>): (h: TimeMs)
    ensures h % HOUR == 0 && h > first && (horizon.Some? ==> h > horizon.value)
    ensures forall x :: x % HOUR == 0 && x < h ==> x <= first || (horizon.Some? && x <= horizon.value)
  {
    var h := HourStart(first) + HOUR;
    if horizon.Some? && h <= horizon.value then
      HourGap(horizon.value);
      HourStart(horizon.value) + HOUR
    else
      HourGap(first);
      h
  }

  lemma HourGap(t: TimeMs)
    ensures forall x :: x % HOUR == 0 && x < HourStart(t) + HOUR ==> x <= t
  {
    forall x | x % HOUR == 0 && x < HourStart(t) + HOUR
      ensures x <= t
    {
      NextHour(HourStart(t), x);
    }
  }

  lemma NextHour(h: TimeMs, x: TimeMs)
    requires h % HOUR == 0 && x % HOUR == 0 && x < h + HOUR
    ensures x <= h
  {
  }

  /** How far one commit moves the horizon: at most MAX_KEYFRAMES keyframes' worth. */
  function Capped(span: Option<(TimeMs, TimeMs)>, horizon: Option<TimeMs>, newH: TimeMs): (to: TimeMs)
    ensures to <= newH && (Aligned(newH) ==> Aligned(to))
  {
    if span.None? then newH
    else
      var last := FirstHour(span.value.0, horizon) + (MAX_KEYFRAMES - 1) * HOUR;
      HourAligned(last);
      Min(newH, last)
  }

  lemma HourAligned(h: TimeMs)
    requires h % HOUR == 0
    ensures Aligned(h)
  {
    assert HOUR == 3_600_000 && WINDOW_LEN == 300_000;
    TwelfthDivides(h);
  }

  lemma TwelfthDivides(h: TimeMs)
    requires h % 3_600_000 == 0
    ensures h % 300_000 == 0
  {
    var k := 12 * (h / 3_600_000);
    assert h == 300_000 * k;
  }

  // --- how much a commit writes ---

  /** How many keyframes there are from h to `to`. */
  function Hours(h: TimeMs, to: TimeMs): nat { if h > to then 0 else (to - h) / HOUR + 1 }

  /** A commit that is capped writes 168 keyframes, a week's; any other at most as many. */
  lemma CappedWrites(span: Option<(TimeMs, TimeMs)>, horizon: Option<TimeMs>, newH: TimeMs)
    requires span.Some?
    ensures var to, h := Capped(span, horizon, newH), FirstHour(span.value.0, horizon);
            Hours(h, to) <= 168 && (to != newH ==> Hours(h, to) == 168 && (to - h) % HOUR == 0 && to < newH)
  {
    hide FirstHour;
    var h := FirstHour(span.value.0, horizon);
    assert (167 * HOUR) / HOUR == 167 && (167 * HOUR) % HOUR == 0;
    if newH <= h + 167 * HOUR && h <= newH { Quotient(newH - h); }
  }

  lemma Quotient(d: TimeMs)
    requires 0 <= d <= 167 * HOUR
    ensures d / HOUR <= 167
  {
  }

  lemma HoursStep(h: TimeMs, to: TimeMs)
    requires h <= to
    ensures Hours(h, to) == Hours(h + HOUR, to) + 1
  {
  }

  /** The windows that start from `from` on and before `to` and have rows. */
  function Filled(all: seq<Row>, from: TimeMs, to: TimeMs): set<TimeMs> {
    set r | r in all && from <= WindowStart(r.t) < to :: WindowStart(r.t)
  }

  /** How many files a commit still writes that has closed the windows before `done` and written the keyframes
      before h: the keyframes, the windows with rows, and the meta file. */
  function ToWrite(all: seq<Row>, done: TimeMs, h: TimeMs, to: TimeMs): nat {
    Hours(h, to) + |Filled(all, done, to)| + 1
  }

  /** How many files come before the window w is closed, and its own. */
  function Through(all: seq<Row>, done: TimeMs, h: TimeMs, w: TimeMs): nat {
    Hours(h, w) + |Filled(all, done, w + WINDOW_LEN)|
  }

  /** Over the files written so far the count goes down, for every window still to come. */
  predicate Paid(all: seq<Row>, floor: TimeMs, h0: TimeMs, done: TimeMs, h: TimeMs, spent: int, to: TimeMs) {
    forall w :: Aligned(w) && done <= w < to ==> Through(all, floor, h0, w) == spent + Through(all, done, h, w)
  }

  lemma HoursOn(h: TimeMs, h': TimeMs, ws: TimeMs, w: TimeMs)
    requires h % HOUR == 0 && h' % HOUR == 0 && h <= h' && (h' == h || h' - HOUR <= ws < h') && ws <= w
    ensures Hours(h, w) - Hours(h', w) == Hours(h, ws) - Hours(h', ws)
    ensures Hours(h, ws) <= Hours(h, w)
  {
    if h' > h {
      var n := (h' - h) / HOUR;
      MultipleGap(h, h', n);
      HoursAre(h, h', ws, n);
      HoursAre(h, h', w, n);
    } else {
      HoursMore(h, ws, w);
    }
  }

  lemma MultipleGap(h: TimeMs, h': TimeMs, n: int)
    requires h % HOUR == 0 && h' % HOUR == 0 && h < h' && n == (h' - h) / HOUR
    ensures h' - h == n * HOUR && n >= 1
  {
  }

  lemma HoursMore(h: TimeMs, ws: TimeMs, w: TimeMs)
    requires ws <= w
    ensures Hours(h, ws) <= Hours(h, w)
  {
  }

  lemma HoursAre(h: TimeMs, h': TimeMs, w: TimeMs, n: nat)
    requires h' - h == n * HOUR && n >= 1 && h' - HOUR <= w
    ensures Hours(h, w) == n + Hours(h', w)
  {
  }

  /** A commit goes on from one open window to the next. */
  lemma FilledStep(s: Surface, all: seq<Row>, done: TimeMs, ws: TimeMs, to: TimeMs)
    requires MemoryOk(s, all) && Aligned(ws) && done <= ws < to && NoneOpen(s.open, done, ws) && Floor(s) <= done
    ensures |Filled(all, done, to)| == |Filled(all, ws + WINDOW_LEN, to)| + if InWindow(all, ws) == [] then 0 else 1
  {
    hide IsLive, IsNewest, SpanOk, WinOk;
    var rest := Filled(all, ws + WINDOW_LEN, to);
    forall w | w in Filled(all, done, to)
      ensures w in rest || (w == ws && InWindow(all, ws) != [])
    {
      var r :| r in all && done <= WindowStart(r.t) < to && WindowStart(r.t) == w;
      assert w in s.open;
      if w < ws + WINDOW_LEN {
        AlignedGap(w, ws);
        RangeHas(all, ws, ws + WINDOW_LEN, r);
      }
    }
    if InWindow(all, ws) == [] {
      assert Filled(all, done, to) == rest;
    } else {
      var r := InWindow(all, ws)[0];
      WindowOfTime(ws, r.t);
      assert ws in Filled(all, done, to) && ws !in rest;
      assert Filled(all, done, to) == rest + {ws};
    }
  }

  lemma FilledNone(s: Surface, all: seq<Row>, done: TimeMs, to: TimeMs)
    requires MemoryOk(s, all) && Floor(s) <= done && NoneOpen(s.open, done, to)
    ensures Filled(all, done, to) == {}
  {
    hide IsLive, IsNewest, SpanOk, WinOk, Range;
    forall r <- all ensures !(done <= WindowStart(r.t) < to) {}
  }

  /** Hours before FirstHour that are after the horizon have no keyframe and need none. */
  lemma StartFiles(s: Surface, all: seq<Row>, known: map<TimeMs, seq<Row>>, h: TimeMs)
    requires DiskOk(s, all, known) && NoOrphans(s, all)
    requires s.span.Some? ==> h <= FirstHour(s.span.value.0, s.horizon)
    ensures FilesOk(s.windows, s.keyframes, s.span, all, known, Floor(s), h)
  {
    hide WindowOk, IsLive, Range, HourStart;
    forall x | x % HOUR == 0 && x < h
      ensures KeyframeOk(s.keyframes, s.span, all, x)
    {
      if x <= Floor(s) {
        assert KeyframeOk(s.keyframes, s.span, all, x);
      } else if s.span.Some? {
        var _ := FirstHour(s.span.value.0, s.horizon);
      }
    }
  }

  lemma KeyframeStep(windows: map<TimeMs, seq<Row>>, keyframes: map<TimeMs, map<Id, Row>>,
                     span: Option<(TimeMs, TimeMs)>,
                     all: seq<Row>, known: map<TimeMs, seq<Row>>, to: TimeMs, h: TimeMs, live: map<Id, Row>)
    requires FilesOk(windows, keyframes, span, all, known, to, h) && h % HOUR == 0
    requires span.Some? && span.value.0 < h && IsLive(live, all, h)
    ensures FilesOk(windows, keyframes[h := live], span, all, known, to, h + HOUR)
  {
    hide WindowOk, IsLive, Range;
    forall x | x % HOUR == 0 && x < h + HOUR
      ensures KeyframeOk(keyframes[h := live], span, all, x)
    {
      NextHour(h, x);
      if x < h { assert KeyframeOk(keyframes, span, all, x); }
    }
  }

  lemma AlignedGap(to: TimeMs, ws: TimeMs)
    requires Aligned(to) && Aligned(ws) && ws + WINDOW_LEN > to
    ensures ws >= to
  {
  }

  /** No open window lies between: no row does either. */
  lemma QuietUntil(s: Surface, all: seq<Row>, from: TimeMs, to: TimeMs)
    requires MemoryOk(s, all) && Aligned(from) && Aligned(to) && Floor(s) <= from <= to && forall w <- s.open ::
               !(from <= w < to)
    ensures Range(all, from, to) == []
    ensures forall w :: Aligned(w) && from <= w < to ==> InWindow(all, w) == []
  {
    hide IsLive, IsNewest, IsEarliest;
    forall r | r in all ensures !(from <= r.t < to) {
      assert r.t >= Floor(s) ==> WindowStart(r.t) in s.open;
      if from <= r.t { AlignedGap(from, WindowStart(r.t)); }
    }
    RangeEmpty(all, from, to);
    forall w | Aligned(w) && from <= w < to
      ensures InWindow(all, w) == []
    {
      AlignedGap(w + WINDOW_LEN, to);
      RangeEmpty(all, w, w + WINDOW_LEN);
    }
  }

  /** Windows without rows need no file. */
  lemma SkipWindows(windows: map<TimeMs, seq<Row>>, keyframes: map<TimeMs, map<Id, Row>>,
                    span: Option<(TimeMs, TimeMs)>,
                    all: seq<Row>, known: map<TimeMs, seq<Row>>, from: TimeMs, to: TimeMs, k: TimeMs)
    requires FilesOk(windows, keyframes, span, all, known, from, k) && Aligned(from) && Aligned(to) && from <= to
    requires forall w :: Aligned(w) && from <= w < to ==> InWindow(all, w) == []
    requires forall w <- windows :: w + WINDOW_LEN > from ==> InWindow(all, w) != []
    ensures FilesOk(windows, keyframes, span, all, known, to, k)
  {
    hide IsClosed, Range, KeyframeOk;
    forall w | Aligned(w) && w + WINDOW_LEN <= to
      ensures WindowOk(windows, all, known, w)
    {
      if w + WINDOW_LEN <= from {
        assert WindowOk(windows, all, known, w);
      } else {
        AlignedGap(from, w);
      }
    }
  }

  /** Writing window ws, when it has rows, makes the files right up to its end. */
  lemma WindowStep(windows: map<TimeMs, seq<Row>>, keyframes: map<TimeMs, map<Id, Row>>, span: Option<(TimeMs, TimeMs)>,
                   all: seq<Row>, known: map<TimeMs, seq<Row>>, ws: TimeMs, k: TimeMs, file: seq<Row>, next: seq<Row>)
    requires FilesOk(windows, keyframes, span, all, known, ws, k) && Aligned(ws)
    requires IsClosed(file, InWindow(all, ws), next) && InWindow(all, ws) != []
    ensures FilesOk(windows[ws := file], keyframes, span, all, known[ws := next], ws + WINDOW_LEN, k)
  {
    hide IsClosed, Range, KeyframeOk;
    forall w | Aligned(w) && w + WINDOW_LEN <= ws + WINDOW_LEN
      ensures WindowOk(windows[ws := file], all, known[ws := next], w)
    {
      if w != ws {
        assert w + WINDOW_LEN <= ws by { AlignedGap(w + WINDOW_LEN, ws); }
        assert WindowOk(windows, all, known, w);
      }
    }
  }

  /** Files beyond the horizon are nobody's business yet. */
  lemma BeyondFloor(windows: map<TimeMs, seq<Row>>, keyframes: map<TimeMs, map<Id, Row>>, windows': map<TimeMs,
                    seq<Row>>,
                    keyframes': map<TimeMs, map<Id, Row>>, span: Option<(TimeMs, TimeMs)>, all: seq<Row>,
                    known: map<TimeMs, seq<Row>>, floor: TimeMs)
    requires FilesOk(windows, keyframes, span, all, known, floor, floor + 1)
    requires SameBelow(windows, keyframes, windows', keyframes', floor)
    ensures FilesOk(windows', keyframes', span, all, known, floor, floor + 1)
  {
    hide IsClosed, Range, IsLive;
    forall w | Aligned(w) && w + WINDOW_LEN <= floor
      ensures WindowOk(windows', all, known, w)
    {
      assert WindowOk(windows, all, known, w);
    }
    forall h | h % HOUR == 0 && h < floor + 1
      ensures KeyframeOk(keyframes', span, all, h)
    {
      assert KeyframeOk(keyframes, span, all, h);
    }
  }

  /** Up to the horizon the files are the same. */
  predicate SameBelow(windows: map<TimeMs, seq<Row>>, keyframes: map<TimeMs, map<Id, Row>>, windows': map<TimeMs,
                      seq<Row>>,
                      keyframes': map<TimeMs, map<Id, Row>>, floor: TimeMs) {
    && (forall w <- windows :: w < floor ==> w in windows' && windows'[w] == windows[w])
    && (forall w <- windows' :: w < floor ==> w in windows)
    && (forall h <- keyframes :: h <= floor ==> h in keyframes' && keyframes'[h] == keyframes[h])
    && (forall h <- keyframes' :: h <= floor ==> h in keyframes)
  }

  /** The surface once the meta file has the new horizon. */
  function Installed(s: Surface, newH: TimeMs, live: map<Id, Row>, lastOpen: map<Id, Row>, kept: set<TimeMs>): Surface {
    s.(horizon := Some(newH), live := live, lastOpen := lastOpen, meta := Meta(Some(newH), s.span),
       open := map ws | ws in s.open && ws >= newH :: s.open[ws],
       logs := map ws | ws in s.logs && (ws !in s.open || ws >= newH || ws in kept) :: s.logs[ws])
  }

  lemma InstallMemory(s: Surface, all: seq<Row>, newH: TimeMs, live: map<Id, Row>, lastOpen: map<Id, Row>,
                      kept: set<TimeMs>)
    requires MemoryOk(s, all) && Aligned(newH) && NEVER < newH <= FOREVER && Floor(s) < newH
    requires IsLive(live, all, newH) && IsNewest(lastOpen, Range(all, newH, FOREVER))
    ensures MemoryOk(Installed(s, newH, live, lastOpen, kept), all)
  {
    hide IsLive, IsNewest, Range, WinOk;
    forall r <- all | r.t >= newH
      ensures WindowStart(r.t) in s.open && WindowStart(r.t) >= newH
    {
      AlignedGap(newH, WindowStart(r.t));
    }
  }

  lemma InstallLogs(s: Surface, all: seq<Row>, newH: TimeMs, live: map<Id, Row>, lastOpen: map<Id, Row>,
                    kept: set<TimeMs>)
    requires LogsOk(s, all) && Aligned(newH) && Floor(s) < newH
    ensures LogsOk(Installed(s, newH, live, lastOpen, kept), all)
  {
    hide LogOk, Range;
    var s' := Installed(s, newH, live, lastOpen, kept);
    forall ws <- s'.open
      ensures ws in s'.logs && s'.logs[ws] == s.logs[ws] && s'.open[ws] == s.open[ws] && ws in s.open
    {
    }
    forall ws <- s'.logs
      ensures Aligned(ws) && (ws !in s'.open ==> ws + WINDOW_LEN <= newH || s.walErr || s'.logs[ws].file == [])
    {
      ClosedLog(s, all, newH, ws);
    }
  }

  lemma ClosedLog(s: Surface, all: seq<Row>, newH: TimeMs, ws: TimeMs)
    requires LogsOk(s, all) && Aligned(newH) && Floor(s) < newH && ws in s.logs
    ensures Aligned(ws) && (ws !in s.open || ws < newH ==> ws + WINDOW_LEN <= newH || s.walErr || s.logs[ws].file == [])
  {
    hide LogOk, Range;
    if ws < newH { AlignedGap(ws + WINDOW_LEN, newH); }
  }

  /** With all files right up to the new horizon, installing it keeps everything. */
  lemma InstallOk(s: Surface, all: seq<Row>, known: map<TimeMs, seq<Row>>, newH: TimeMs, live: map<Id, Row>,
                  lastOpen: map<Id, Row>, kept: set<TimeMs>)
    requires MemoryOk(s, all) && LogsOk(s, all) && NoOrphans(s, all) && Aligned(newH) && NEVER < newH <= FOREVER
             && Floor(s) < newH
    requires FilesOk(s.windows, s.keyframes, s.span, all, known, newH, newH + 1)
    requires IsLive(live, all, newH) && IsNewest(lastOpen, Range(all, newH, FOREVER))
    ensures Ok(Installed(s, newH, live, lastOpen, kept), all, known)
  {
    hide IsLive, IsNewest, Range, FilesOk, OpenOk, LogsOk;
    InstallMemory(s, all, newH, live, lastOpen, kept);
    InstallLogs(s, all, newH, live, lastOpen, kept);
  }

  /** What a closed window's file says of each row: it is the last arrival of its journey and time, and the
      handoff flag is set exactly on the gones that are followed. */
  lemma ClosedMeans(file: seq<Row>, arrivals: seq<Row>, next: seq<Row>)
    requires IsClosed(file, arrivals, next)
    ensures Strict(file)
    ensures forall r <- file ::
            KeyOf(r) in Latest(arrivals)
            && r.(handoff := false) == Latest(arrivals)[KeyOf(r)].(handoff := false)
    ensures forall k <- Latest(arrivals) :: exists r <- file :: KeyOf(r) == k
  {
    hide Followed, Latest, Strict, Marked;
    var d :| Strict(d) && Latest(d) == Latest(arrivals) && file == Marked(d, next);
    MarkedStrict(d, next);
    forall r | r in file
      ensures KeyOf(r) in Latest(arrivals) && r.(handoff := false) == Latest(arrivals)[KeyOf(r)].(handoff := false)
    {
      var i :| 0 <= i < |file| && file[i] == r;
      MarkedOnly(d, next, i);
      StrictLatest(d, i);
    }
    forall k | k in Latest(arrivals)
      ensures exists r <- file :: KeyOf(r) == k
    {
      LatestKeys(d);
      var i :| 0 <= i < |d| && d[i] == Latest(d)[k];
      MarkedOnly(d, next, i);
      assert file[i] in file;
    }
  }

  lemma MarkedOnly(d: seq<Row>, next: seq<Row>, i: nat)
    requires i < |d|
    ensures |Marked(d, next)| == |d| && KeyOf(Marked(d, next)[i]) == KeyOf(d[i])
            && Marked(d, next)[i].(handoff := false) == d[i].(handoff := false)
  {
    hide Followed;
  }

  lemma MarkedStrict(d: seq<Row>, next: seq<Row>)
    requires Strict(d)
    ensures Strict(Marked(d, next)) && |Marked(d, next)| == |d|
  {
    hide Followed;
    forall i, j | 0 <= i < j < |d| ensures Before(Marked(d, next)[i], Marked(d, next)[j]) { assert Before(d[i], d[j]); }
  }

  /** In strictly ordered rows every row is the last of its journey and time. */
  lemma {:induction false} StrictLatest(d: seq<Row>, i: nat)
    requires Strict(d) && i < |d|
    ensures KeyOf(d[i]) in Latest(d) && Latest(d)[KeyOf(d[i])] == d[i]
    decreases d
  {
    var n := |d| - 1;
    if i < n {
      StrictLatest(d[..n], i);
      assert Before(d[i], d[n]);
    }
  }

  /** In a window whose rows the file was closed from, a gone is flagged if and only if a sample follows it among
      the rows of the file or the next window's arrivals. */
  lemma FlagMeans(file: seq<Row>, arrivals: seq<Row>, next: seq<Row>, r: Row)
    requires IsClosed(file, arrivals, next) && r in file && forall x <- arrivals :: !x.handoff
    ensures r.handoff <==> r.gone && Followed(file, next, r)
  {
    var d :| Strict(d) && Latest(d) == Latest(arrivals) && file == Marked(d, next);
    LatestKeys(d);
    LatestKeys(arrivals);
    var i :| 0 <= i < |file| && file[i] == r;
    StrictLatest(d, i);
    assert Latest(arrivals)[KeyOf(d[i])] in arrivals;
    FollowedSame(d, file, next, d[i], r);
  }

  lemma FollowedSame(d: seq<Row>, file: seq<Row>, next: seq<Row>, g: Row, r: Row)
    requires file == Marked(d, next) && r.id == g.id && r.t == g.t
    ensures Followed(d, next, g) <==> Followed(file, next, r)
  {
    forall x | x in d && !x.gone ensures x in file {
      var i :| 0 <= i < |d| && d[i] == x;
      assert file[i] == x;
    }
    forall x | x in file && !x.gone ensures x in d {
      var i :| 0 <= i < |file| && file[i] == x;
      assert d[i] == x;
    }
  }

  /** A commit under way: memory is untouched, live is the state at `done`, and the files are right for the
      windows up to `done` and the keyframes before k (with `closing`), and as before below the horizon. */
  ghost predicate Closing(s: Surface, all: seq<Row>, known: map<TimeMs, seq<Row>>, closing: map<TimeMs, seq<Row>>,
                          live: map<Id, Row>, done: TimeMs, k: TimeMs) {
    && Ok(s, all, known) && FilesOk(s.windows, s.keyframes, s.span, all, closing, done, k)
    && IsLive(live, all, done) && Aligned(done) && Floor(s) <= done
  }

  lemma ClosingStart(s: Surface, all: seq<Row>, known: map<TimeMs, seq<Row>>, h: TimeMs)
    requires Ok(s, all, known) && (s.span.Some? ==> h <= FirstHour(s.span.value.0, s.horizon))
    ensures Closing(s, all, known, known, s.live, Floor(s), h)
  {
    hide LogsOk, FilesOk, IsLive, SpanOk, OpenOk, IsNewest;
    StartFiles(s, all, known, h);
    NeverAligned();
  }

  lemma NeverAligned()
    ensures Aligned(NEVER)
  {
  }

  /** A keyframe written during a commit. */
  lemma ClosingKeyframe(s: Surface, all: seq<Row>, known: map<TimeMs, seq<Row>>, closing: map<TimeMs, seq<Row>>,
                        live: map<Id, Row>, done: TimeMs, h: TimeMs)
    requires Closing(s, all, known, closing, live, done, h) && h % HOUR == 0 && h > Floor(s) && h >= done
    requires s.span.Some? && s.span.value.0 < h && Range(all, done, h) == []
    ensures Closing(s.(keyframes := s.keyframes[h := live]), all, known, closing, live, done, h + HOUR)
  {
    hide FilesOk, IsLive, Range, MetaOk, IsNewest, OpenOk, SpanOk, LogsOk;
    FloorLeast(s, all);
    QuietLive(live, all, done, h);
    KeyframeStep(s.windows, s.keyframes, s.span, all, closing, done, h, live);
    BeyondFloor(s.windows, s.keyframes, s.windows, s.keyframes[h := live], s.span, all, known, Floor(s));
    SameMeta(s, s.(keyframes := s.keyframes[h := live]), all);
  }

  lemma FloorLeast(s: Surface, all: seq<Row>)
    requires MemoryOk(s, all)
    ensures NEVER <= Floor(s) <= FOREVER
  {
    hide IsLive, SpanOk, OpenOk, IsNewest;
  }

  lemma SameMeta(s: Surface, s': Surface, all: seq<Row>)
    requires s' == s.(windows := s'.windows, keyframes := s'.keyframes)
    ensures MemoryOk(s, all) ==> MemoryOk(s', all)
    ensures LogsOk(s, all) ==> LogsOk(s', all)
    ensures MetaOk(s, all) ==> MetaOk(s', all)
  {
    hide IsLive, IsNewest, WinOk, LogOk, Range;
  }

  /** No window is open between `done` and `to`. */
  predicate NoneOpen(open: map<TimeMs, Win>, done: TimeMs, to: TimeMs) { forall w <- open :: !(done <= w < to) }

  /** Over a time without open windows the commit moves on by itself. */
  lemma ClosingQuiet(s: Surface, all: seq<Row>, known: map<TimeMs, seq<Row>>, closing: map<TimeMs, seq<Row>>,
                     live: map<Id, Row>, done: TimeMs, to: TimeMs, k: TimeMs)
    requires Closing(s, all, known, closing, live, done, k) && done <= to && Aligned(to) && NoneOpen(s.open, done, to)
    ensures Closing(s, all, known, closing, live, to, k)
  {
    hide FilesOk, IsLive, Range, DiskOk, LogsOk, IsNewest, SpanOk;
    FloorLeast(s, all);
    QuietUntil(s, all, done, to);
    QuietLive(live, all, done, to);
    SkipWindows(s.windows, s.keyframes, s.span, all, closing, done, to, k);
  }

  /** A closed window written during a commit; `rows` are its deduplicated rows. */
  lemma ClosingWindow(s: Surface, all: seq<Row>, known: map<TimeMs, seq<Row>>, closing: map<TimeMs, seq<Row>>,
                      live: map<Id, Row>, ws: TimeMs, k: TimeMs, rows: seq<Row>, next: seq<Row>)
    requires Closing(s, all, known, closing, live, ws, k) && ws >= Floor(s)
    requires Strict(rows) && Latest(rows) == Latest(InWindow(all, ws)) && InWindow(all, ws) != []
    ensures var file := Marked(rows, next);
            Closing(s.(windows := s.windows[ws := file]), all, known, closing[ws := next], Advanced(live, file),
                ws + WINDOW_LEN, k)
  {
    hide FilesOk, IsLive, Range, MetaOk, IsNewest, OpenOk, SpanOk, LogsOk, Latest, Strict, IsClosed;
    var file := Marked(rows, next);
    FloorLeast(s, all);
    assert IsClosed(file, InWindow(all, ws), next) by { ClosedIs(file, InWindow(all, ws), rows, next); }
    WindowStep(s.windows, s.keyframes, s.span, all, closing, ws, k, file, next);
    BeyondFloor(s.windows, s.keyframes, s.windows[ws := file], s.keyframes, s.span, all, known, Floor(s));
    SameMeta(s, s.(windows := s.windows[ws := file]), all);
    MarkedFlags(rows, next);
    StrictInTime(rows, file);
    AdvancedLive(live, all, ws, ws + WINDOW_LEN, rows, file);
  }

  lemma ClosedIs(file: seq<Row>, arrivals: seq<Row>, rows: seq<Row>, next: seq<Row>)
    requires Strict(rows) && Latest(rows) == Latest(arrivals) && file == Marked(rows, next)
    ensures IsClosed(file, arrivals, next)
  {
  }

  lemma MarkedFlags(rows: seq<Row>, next: seq<Row>)
    ensures SameButFlags(rows, Marked(rows, next))
  {
    hide Followed;
  }

  /** An open window without rows closes without a file. */
  lemma ClosingEmpty(s: Surface, all: seq<Row>, known: map<TimeMs, seq<Row>>, closing: map<TimeMs, seq<Row>>,
                     live: map<Id, Row>, ws: TimeMs, k: TimeMs)
    requires Closing(s, all, known, closing, live, ws, k) && InWindow(all, ws) == []
    ensures Closing(s, all, known, closing, live, ws + WINDOW_LEN, k)
  {
    hide FilesOk, IsLive, Range, DiskOk, LogsOk, IsNewest, SpanOk, OpenOk;
    FloorLeast(s, all);
    QuietLive(live, all, ws, ws + WINDOW_LEN);
    OneWindow(ws);
    SkipWindows(s.windows, s.keyframes, s.span, all, closing, ws, ws + WINDOW_LEN, k);
  }

  lemma OneWindow(ws: TimeMs)
    requires Aligned(ws)
    ensures forall w :: Aligned(w) && ws <= w < ws + WINDOW_LEN ==> w == ws
  {
    forall w | Aligned(w) && ws <= w < ws + WINDOW_LEN ensures w == ws { AlignedGap(w, ws); }
  }
}
