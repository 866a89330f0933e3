/** The trail of a surface: the closed rows of the last minute before the horizon, which the live payload starts
    with. */
module MoverTrail {
  import opened Common
  import opened MoverRows
  import opened MoverClose
  import opened MoverState
  import opened MoverCommit

  /** How far back the live payload keeps every sample. */
  const LIVE_TRAIL: TimeMs := MINUTE

  function FileAt(windows: map<TimeMs, seq<Row>>, ws: TimeMs): seq<Row> { if ws in windows then windows[ws] else [] }

  /** The rows after `cut`, in order. */
  function After(rows: seq<Row>, cut: TimeMs): seq<Row> {
    if rows == [] then []
    else After(rows[..|rows| - 1], cut) + if rows[|rows| - 1].t > cut then [rows[|rows| - 1]] else []
  }

  /** The rows of closed windows in the trail before `to`: they are all in the last one. */
  function TrailRows(windows: map<TimeMs, seq<Row>>, to: TimeMs): seq<Row> {
    After(FileAt(windows, to - WINDOW_LEN), to - LIVE_TRAIL)
  }

  /** Sorted by time, rows of equal time as they were. */
  function SortByTime(rows: seq<Row>): seq<Row> {
    if rows == [] then [] else InsertByTime(SortByTime(rows[..|rows| - 1]), rows[|rows| - 1])
  }

  function InsertByTime(rows: seq<Row>, r: Row): seq<Row> {
    if rows == [] || rows[|rows| - 1].t <= r.t then rows + [r]
    else InsertByTime(rows[..|rows| - 1], r) + [rows[|rows| - 1]]
  }

  predicate TimeOrder(rows: seq<Row>) { forall i, j :: 0 <= i < j < |rows| ==> rows[i].t <= rows[j].t }

  /** The trail holds the closed rows of the last LIVE_TRAIL before the horizon, sorted by time. */
  ghost predicate TrailOk(trail: seq<Row>, windows: map<TimeMs, seq<Row>>, horizon: Option<TimeMs>) {
    && TimeOrder(trail)
    && if horizon.None? then trail == [] else multiset(trail) == multiset(TrailRows(windows, horizon.value))
  }

  ghost predicate TrailSoFar(closed: seq<Row>, windows: map<TimeMs, seq<Row>>, done: TimeMs, to: TimeMs) {
    closed == if done <= to - WINDOW_LEN then [] else TrailRows(windows, to)
  }

  lemma {:induction false} SortByTimeIs(rows: seq<Row>)
    ensures TimeOrder(SortByTime(rows)) && multiset(SortByTime(rows)) == multiset(rows)
    decreases rows
  {
    hide InsertByTime, TimeOrder;
    if rows == [] {
      NoneTimed();
    } else {
      var n := |rows| - 1;
      SortByTimeIs(rows[..n]);
      InsertByTimeIs(SortByTime(rows[..n]), rows[n]);
      assert rows == rows[..n] + [rows[n]];
    }
  }

  lemma NoneTimed()
    ensures TimeOrder([])
  {
  }

  lemma {:induction false} InsertByTimeIs(rows: seq<Row>, r: Row)
    requires TimeOrder(rows)
    ensures TimeOrder(InsertByTime(rows, r)) && multiset(InsertByTime(rows, r)) == multiset(rows) + multiset{r}
    decreases rows
  {
    if rows != [] && rows[|rows| - 1].t > r.t {
      var n := |rows| - 1;
      InsertByTimeIs(rows[..n], r);
      assert rows == rows[..n] + [rows[n]];
      OrderSnoc(rows[..n], InsertByTime(rows[..n], r), r, rows[n]);
    }
  }

  lemma OrderSnoc(init: seq<Row>, front: seq<Row>, r: Row, last: Row)
    requires TimeOrder(front) && multiset(front) == multiset(init) + multiset{r} && r.t <= last.t
    requires forall x <- init :: x.t <= last.t
    ensures TimeOrder(front + [last])
  {
    forall i | 0 <= i < |front| ensures front[i].t <= last.t {
      assert front[i] in multiset(front);
    }
  }

  lemma {:induction false} AfterIs(rows: seq<Row>, cut: TimeMs)
    ensures forall r :: r in After(rows, cut) <==> r in rows && r.t > cut
    decreases rows
  {
    if rows != [] {
      AfterIs(rows[..|rows| - 1], cut);
      assert rows == rows[..|rows| - 1] + [rows[|rows| - 1]];
    }
  }

  lemma AfterNone(rows: seq<Row>, cut: TimeMs)
    requires forall r <- rows :: r.t <= cut
    ensures After(rows, cut) == []
  {
    AfterIs(rows, cut);
    if After(rows, cut) != [] { assert After(rows, cut)[0] in After(rows, cut); }
  }

  /** A closed window's file has rows of that window only. */
  lemma ClosedRowsIn(s: Surface, all: seq<Row>, closing: map<TimeMs, seq<Row>>, done: TimeMs, k: TimeMs, ws: TimeMs)
    requires FilesOk(s.windows, s.keyframes, s.span, all, closing, done, k) && Aligned(ws) && ws + WINDOW_LEN <= done
    ensures forall r <- FileAt(s.windows, ws) :: ws <= r.t < ws + WINDOW_LEN
    ensures InWindow(all, ws) == [] ==> ws !in s.windows
  {
    hide Latest, Range, IsLive;
    assert WindowOk(s.windows, all, closing, ws);
    if ws in s.windows {
      ClosedMeans(s.windows[ws], InWindow(all, ws), closing[ws]);
      LatestKeys(InWindow(all, ws));
      forall r <- s.windows[ws] ensures ws <= r.t < ws + WINDOW_LEN {
        assert Latest(InWindow(all, ws))[KeyOf(r)] in InWindow(all, ws);
      }
    }
  }

  /** Only the last window before `to` has rows for the trail. */
  lemma TrailNext(s0: Surface, s: Surface, all: seq<Row>, known: map<TimeMs, seq<Row>>, closing: map<TimeMs, seq<Row>>,
                  done: TimeMs, ws: TimeMs, to: TimeMs, k: TimeMs, closed: seq<Row>, file: seq<Row>)
    requires FilesOk(s.windows, s.keyframes, s.span, all, closing, ws + WINDOW_LEN, k) && Aligned(ws) && Aligned(to)
    requires done <= ws < to && TrailSoFar(closed, s0.windows, done, to) && file == FileAt(s.windows, ws)
    ensures TrailSoFar(closed + After(file, to - LIVE_TRAIL), s.windows, ws + WINDOW_LEN, to)
  {
    hide FilesOk, After, FileAt;
    LastBefore(to, ws);
    assert closed == [];
    ClosedRowsIn(s, all, closing, ws + WINDOW_LEN, k, ws);
    if ws < to - WINDOW_LEN {
      LastBefore(to - WINDOW_LEN, ws);
      AfterNone(file, to - LIVE_TRAIL);
    } else {
      assert [] + After(file, to - LIVE_TRAIL) == After(file, to - LIVE_TRAIL);
    }
  }

  /** A window that starts before `to` starts at least a window before it. */
  lemma LastBefore(to: TimeMs, ws: TimeMs)
    requires Aligned(to) && Aligned(ws) && ws < to
    ensures ws <= to - WINDOW_LEN
  {
  }

  /** A commit without a window open at its end has no rows for the trail. */
  lemma TrailEnds(s: Surface, all: seq<Row>, known: map<TimeMs, seq<Row>>, closing: map<TimeMs, seq<Row>>,
                  live: map<Id, Row>, done: TimeMs, to: TimeMs, k: TimeMs, closed: seq<Row>)
    requires Closing(s, all, known, closing, live, to, k) && Aligned(to) && Floor(s) <= done <= to
             && NoneOpen(s.open, done, to) && TrailSoFar(closed, s.windows, done, to)
    ensures closed == TrailRows(s.windows, to)
  {
    hide FilesOk, After, DiskOk, LogsOk, NoOrphans, Range, IsLive, MemoryOk;
    var ws := to - WINDOW_LEN;
    if done <= ws {
      NoneAt(s, all, ws);
      ClosedRowsIn(s, all, closing, to, k, ws);
      AfterNone(FileAt(s.windows, ws), to - LIVE_TRAIL);
    }
  }

  lemma NoneAt(s: Surface, all: seq<Row>, ws: TimeMs)
    requires MemoryOk(s, all) && Aligned(ws) && Floor(s) <= ws && ws !in s.open
    ensures InWindow(all, ws) == []
  {
    hide IsLive, IsNewest, SpanOk, WinOk;
    forall r | r in all ensures !(ws <= r.t < ws + WINDOW_LEN) { WindowOfTime(ws, r.t); }
    RangeEmpty(all, ws, ws + WINDOW_LEN);
  }

  /** The rows of the old trail are too old for the new one. */
  lemma TrailMoves(s: Surface, all: seq<Row>, known: map<TimeMs, seq<Row>>, closing: map<TimeMs, seq<Row>>,
                   live: map<Id, Row>, to: TimeMs, k: TimeMs, trail: seq<Row>)
    requires Closing(s, all, known, closing, live, to, k) && Aligned(to) && Floor(s) < to
    ensures TrailOk(trail, s.windows, s.horizon) ==>
              TrailOk(SortByTime(After(trail, to - LIVE_TRAIL) + TrailRows(s.windows, to)), s.windows, Some(to))
  {
    hide FilesOk, After, DiskOk, LogsOk, NoOrphans, Range, IsLive, IsNewest, SpanOk, OpenOk, SortByTime, TimeOrder,
      TrailRows;
    var closed := TrailRows(s.windows, to);
    SortByTimeIs(After(trail, to - LIVE_TRAIL) + closed);
    if TrailOk(trail, s.windows, s.horizon) {
      OldTrail(s, all, closing, to, k, trail);
      AfterNone(trail, to - LIVE_TRAIL);
      assert [] + closed == closed;
    }
  }

  lemma OldTrail(s: Surface, all: seq<Row>, closing: map<TimeMs, seq<Row>>, to: TimeMs, k: TimeMs, trail: seq<Row>)
    requires FilesOk(s.windows, s.keyframes, s.span, all, closing, to, k) && Aligned(to) && Floor(s) < to
    requires (s.horizon.Some? ==> Aligned(s.horizon.value)) && TrailOk(trail, s.windows, s.horizon)
    ensures forall r <- trail :: r.t <= to - LIVE_TRAIL
  {
    hide FilesOk, After;
    if s.horizon.Some? {
      var h := s.horizon.value;
      LastBefore(to, h);
      ClosedRowsIn(s, all, closing, to, k, h - WINDOW_LEN);
      AfterIs(FileAt(s.windows, h - WINDOW_LEN), h - LIVE_TRAIL);
      forall r <- trail ensures r.t <= to - LIVE_TRAIL {
        assert r in multiset(trail);
      }
    }
  }

  /** What happens to files from the horizon on is no business of the trail. */
  lemma TrailBelow(s: Surface, s': Surface, trail: seq<Row>)
    requires s'.horizon == s.horizon && SameBelow(s.windows, s.keyframes, s'.windows, s'.keyframes, Floor(s))
    ensures TrailOk(trail, s.windows, s.horizon) ==> TrailOk(trail, s'.windows, s'.horizon)
  {
    hide After;
  }
}
