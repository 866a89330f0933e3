/** Reopening the mover store from its files: the live state is rebuilt from the newest keyframe and the windows
    after it, and the open windows from their logs. */
module MoverReopen {
  import opened Common
  import opened MoverRows
  import opened MoverClose
  import opened MoverState
  import opened MoverRefused
  import opened MoverCommit

  /** What a crash leaves to reopen from: right files for what was closed, and logs that start with the arrivals. */
  ghost predicate Recoverable(s: Surface, all: seq<Row>, known: map<TimeMs, seq<Row>>) {
    && MemoryOk(s, all) && DiskOk(s, all, known) && LogFiles(s.logs)
    && forall ws <- s.open :: ws in s.logs && InWindow(all, ws) <= s.logs[ws].file
  }

  lemma OkRecoverable(s: Surface, all: seq<Row>, known: map<TimeMs, seq<Row>>)
    requires Ok(s, all, known)
    ensures Recoverable(s, all, known)
  {
    hide MemoryOk, DiskOk, NoOrphans, LogFiles, Range;
  }

  /** A batch whose writes failed leaves the store in order, and its logs with what they held or rows of the batch. */
  lemma WriteFailsAll(s: Surface, all: seq<Row>, known: map<TimeMs, seq<Row>>, rows: seq<Row>,
                      junk: TimeMs -> seq<Row>, cut: bool)
    requires Ok(s, all, known) && !s.walErr && Holds(s.logs, all, [])
    requires StartsOf(junk, rows) && forall r <- rows :: Stamped(r) && r.t >= Floor(s)
    ensures var s' := AfterWriteFails(s, rows, junk, cut);
            && Ok(s', all, known) && Recoverable(s', all, known) && Holds(s'.logs, all, if cut then [] else rows)
            && (Durable(s.open, s.logs, all) ==> Durable(s.open, s'.logs, all))
            && StaySynced(s.open, all, s.logs, s'.logs)
  {
    hide MemoryOk, LogsOk, DiskOk, NoOrphans, Recoverable, Durable, Holds, StaySynced, CutBack;
    FailedHolds(s, all, rows, junk, cut);
    JunkedStay(s, all, rows, junk, cut);
    WriteFailsOk(s, all, known, rows, junk, cut);
    OkRecoverable(AfterWriteFails(s, rows, junk, cut), all, known);
    FailedDurable(s, all, rows, junk, cut);
  }

  /** A batch whose sync failed leaves the store recoverable even where it is not in order. */
  lemma SyncFailsRecoverable(s: Surface, all: seq<Row>, known: map<TimeMs, seq<Row>>, rows: seq<Row>)
    requires Ok(s, all, known) && !s.walErr && forall r <- rows :: Stamped(r) && r.t >= Floor(s)
    ensures Recoverable(AfterSyncFails(s, rows), all, known) && NoOrphans(AfterSyncFails(s, rows), all)
  {
    hide MemoryOk, DiskOk, NoOrphans, LogFiles, Range, OpenedLogs;
    OpenedLogsAre(s.open, s.logs, rows);
    SameMemory(s, AfterSyncFails(s, rows), all, known);
    PreparedFiles(s, rows);
    LoggedFiles(OpenedLogs(s.open, s.logs, rows), rows, false);
  }

  // --- the live state ---

  /** Below the first row nothing is live. */
  lemma NothingLive(all: seq<Row>, h: TimeMs)
    requires forall r <- all :: r.t >= h
    ensures IsLive(map[], all, h)
  {
    RangeEmpty(all, NEVER, h);
    NoneAlive(all, h);
  }

  lemma NoneAlive(all: seq<Row>, h: TimeMs)
    requires Range(all, NEVER, h) == []
    ensures IsLive(map[], all, h)
  {
  }

  /** A keyframe at or before the horizon exists exactly from the first row on, and holds the live state. */
  lemma KeyframeIs(s: Surface, all: seq<Row>, known: map<TimeMs, seq<Row>>, h: TimeMs)
    requires Recoverable(s, all, known) && h % HOUR == 0 && h <= Floor(s) && s.meta.span.Some?
    ensures h in s.keyframes <==> s.meta.span.value.0 < h
    ensures h in s.keyframes ==> IsLive(s.keyframes[h], all, h)
  {
    hide MemoryOk, LogFiles, IsLive;
    assert KeyframeOk(s.keyframes, s.span, all, h);
  }

  /** Rows closed so far start at the first time the meta file has. */
  lemma NoneBeforeFirst(s: Surface, all: seq<Row>, known: map<TimeMs, seq<Row>>, from: TimeMs)
    requires Recoverable(s, all, known) && s.meta.span.Some? && from <= s.meta.span.value.0 && from <= Floor(s)
    ensures IsLive(map[], all, from)
  {
    hide MemoryOk, LogFiles, FilesOk, IsLive, Range;
    RangeEmpty(all, NEVER, from);
    NoneAlive(all, from);
  }

  /** One closed window carries the live state on. */
  lemma WindowLive(s: Surface, all: seq<Row>, known: map<TimeMs, seq<Row>>, live: map<Id, Row>, ws: TimeMs)
    requires Recoverable(s, all, known) && Aligned(ws) && NEVER <= ws && ws + WINDOW_LEN <= Floor(s)
             && IsLive(live, all, ws)
    ensures IsLive(if ws in s.windows then Advanced(live, s.windows[ws]) else live, all, ws + WINDOW_LEN)
  {
    hide MemoryOk, LogFiles, IsLive, Latest, Range, KeyframeOk, MetaOk, Strict;
    assert WindowOk(s.windows, all, known, ws);
    if InWindow(all, ws) == [] {
      QuietLive(live, all, ws, ws + WINDOW_LEN);
    } else {
      var file := s.windows[ws];
      var d :| Strict(d) && Latest(d) == Latest(InWindow(all, ws)) && file == Marked(d, known[ws]);
      MarkedFlags(d, known[ws]);
      StrictInTime(d, file);
      AdvancedLive(live, all, ws, ws + WINDOW_LEN, d, file);
    }
  }

  // --- the open windows ---

  /** The rows below the horizon, as the files have them. */
  function ClosedRows(s: Surface, all: seq<Row>): seq<Row> { Range(all, NEVER, Floor(s)) }

  lemma {:induction false} RangeRange(rows: seq<Row>, lo: TimeMs, hi: TimeMs, lo': TimeMs, hi': TimeMs)
    requires lo <= lo' && hi' <= hi
    ensures Range(Range(rows, lo, hi), lo', hi') == Range(rows, lo', hi')
    decreases rows
  {
    if rows != [] {
      var n := |rows| - 1;
      RangeRange(rows[..n], lo, hi, lo', hi');
      if lo <= rows[n].t < hi { InWindowSnoc(Range(rows[..n], lo, hi), rows[n], lo', hi'); }
    }
  }

  /** Memory before any log is replayed. */
  function Emptied(s: Surface, live: map<Id, Row>): Surface {
    s.(span := s.meta.span, open := map[], live := live, lastOpen := map[], walErr := false,
       logs := map ws | ws in s.logs && ws + WINDOW_LEN > Floor(s) :: s.logs[ws])
  }

  lemma EmptiedOk(s: Surface, all: seq<Row>, known: map<TimeMs, seq<Row>>, live: map<Id, Row>)
    requires Recoverable(s, all, known) && IsLive(live, all, Floor(s))
    ensures MemoryOk(Emptied(s, live), ClosedRows(s, all))
  {
    hide IsLive, OpenOk, FilesOk, LogFiles, Range;
    var all' := ClosedRows(s, all);
    FloorLeast(s, all);
    RangeRange(all, NEVER, Floor(s), NEVER, Floor(s));
    LiveSame(live, all, all', Floor(s));
    RangeEmpty(all', Floor(s), FOREVER);
    NothingNewest();
    ClosedSpan(s, all, known);
    NoneYetOpen(Emptied(s, live), all');
  }

  lemma NoneYetOpen(s: Surface, all: seq<Row>)
    requires s.open == map[] && forall r <- all :: r.t < Floor(s)
    ensures OpenOk(s, all)
  {
  }

  lemma ClosedSpan(s: Surface, all: seq<Row>, known: map<TimeMs, seq<Row>>)
    requires Recoverable(s, all, known)
    ensures SpanOk(s.meta.span, ClosedRows(s, all))
  {
    hide IsLive, OpenOk, FilesOk, LogFiles, IsNewest;
    forall r | r in ClosedRows(s, all)
      ensures Stamped(r) && s.meta.span.Some? && s.meta.span.value.0 <= r.t <= s.meta.span.value.1
    {
      assert r in all && r.t < Floor(s);
    }
    MetaSpan(s, all, known);
  }

  lemma MetaSpan(s: Surface, all: seq<Row>, known: map<TimeMs, seq<Row>>)
    requires Recoverable(s, all, known)
    ensures s.meta.span.Some? ==> -0x8000_0000_0000_0000 <= s.meta.span.value.0 <= s.meta.span.value.1
  {
    hide IsLive, OpenOk, FilesOk, LogFiles, IsNewest;
  }

  /** An open window about to be replayed has no rows yet. */
  lemma OpenOne(s: Surface, all: seq<Row>, ws: TimeMs)
    requires MemoryOk(s, all) && Aligned(ws) && ws >= Floor(s) && ws !in s.open
    ensures MemoryOk(s.(open := s.open[ws := NewWin()]), all) && InWindow(all, ws) == []
  {
    hide IsLive, IsNewest, SpanOk, Range;
    forall r | r in all ensures !(ws <= r.t < ws + WINDOW_LEN) { WindowOfTime(ws, r.t); }
    RangeEmpty(all, ws, ws + WINDOW_LEN);
    NothingNewest();
  }

  /** After the replay, what is closed is what was closed. */
  lemma ReopenDisk(s: Surface, all: seq<Row>, known: map<TimeMs, seq<Row>>, s': Surface, all': seq<Row>)
    requires DiskOk(s, all, known) && s'.windows == s.windows && s'.keyframes == s.keyframes && s'.meta == s.meta
             && s'.horizon == s.horizon
    requires Range(all', NEVER, Floor(s)) == Range(all, NEVER, Floor(s)) && Widened(s.meta.span, s'.span, Floor(s))
    requires forall r <- all' :: r.t < Floor(s) ==> r in Range(all, NEVER, Floor(s))
    requires forall r <- all :: r.t > NEVER
    requires (forall r <- all' :: r.t > NEVER) && SpanFrom(s'.span, s.meta.span, all')
    ensures DiskOk(s', all', known)
  {
    hide IsClosed, Range, IsLive, SpanFrom;
    forall ws | Aligned(ws) && ws + WINDOW_LEN <= Floor(s)
      ensures WindowOk(s'.windows, all', known, ws)
    {
      assert WindowOk(s.windows, all, known, ws);
      SameWindow(all, all', ws, Floor(s));
    }
    forall h | h % HOUR == 0 && h < Floor(s) + 1
      ensures KeyframeOk(s'.keyframes, s'.span, all', h)
    {
      assert KeyframeOk(s.keyframes, s.span, all, h);
      if h in s.keyframes {
        RangeRange(all, NEVER, Floor(s), NEVER, h);
        RangeRange(all', NEVER, Floor(s), NEVER, h);
        LiveSame(s.keyframes[h], all, all', h);
      }
    }
  }

  lemma SameWindow(all: seq<Row>, all': seq<Row>, ws: TimeMs, floor: TimeMs)
    requires Range(all', NEVER, floor) == Range(all, NEVER, floor) && ws + WINDOW_LEN <= floor
    requires (forall r <- all :: r.t > NEVER) && forall r <- all' :: r.t > NEVER
    ensures InWindow(all', ws) == InWindow(all, ws)
  {
    hide Range;
    RangeClosed(all, floor, ws, ws + WINDOW_LEN);
    RangeClosed(all', floor, ws, ws + WINDOW_LEN);
  }

  lemma {:induction false} RangeClosed(rows: seq<Row>, floor: TimeMs, lo: TimeMs, hi: TimeMs)
    requires hi <= floor && forall r <- rows :: r.t > NEVER
    ensures Range(Range(rows, NEVER, floor), lo, hi) == Range(rows, lo, hi)
    decreases rows
  {
    if rows != [] {
      var n := |rows| - 1;
      RangeClosed(rows[..n], floor, lo, hi);
      if rows[n].t < floor { InWindowSnoc(Range(rows[..n], NEVER, floor), rows[n], lo, hi); }
    }
  }

  /** Some row the crash left, or the meta file's first time, is before h. */
  predicate KeptBefore(s: Surface, kept: TimeMs -> nat, h: TimeMs)
    requires forall ws <- s.logs :: kept(ws) <= |s.logs[ws].file|
  {
    || (s.meta.span.Some? && s.meta.span.value.0 < h)
    || exists ws <- s.logs :: ws + WINDOW_LEN > Floor(s) && exists r <- s.logs[ws].file[..kept(ws)] :: r.t < h
  }

  /** Every file of a window that is not closed is of one whose log kept a row, and every keyframe after the
      horizon has a row before it. */
  predicate NoneOrphaned(s: Surface, kept: TimeMs -> nat)
    requires forall ws <- s.logs :: kept(ws) <= |s.logs[ws].file|
  {
    && (forall ws <- s.windows :: Aligned(ws) && (ws + WINDOW_LEN > Floor(s) ==> ws in s.logs && kept(ws) > 0))
    && (forall h <- s.keyframes :: h % HOUR == 0 && (h > Floor(s) ==> KeptBefore(s, kept, h)))
  }

  /** s is s0 reopened from what `kept` left of its logs. */
  ghost predicate ReopenedFrom(s0: Surface, kept: TimeMs -> nat, s: Surface, all: seq<Row>)
    requires forall ws <- s0.logs :: kept(ws) <= |s0.logs[ws].file|
  {
    && s.windows == s0.windows && s.keyframes == s0.keyframes && s.meta == s0.meta && s.horizon == s0.horizon
    && s.open.Keys == (set ws | ws in s0.logs && ws + WINDOW_LEN > Floor(s0))
    && forall ws <- s.open :: InWindow(all, ws) == s0.logs[ws].file[..kept(ws)]
  }

  /** The rows before h of a reopened store are those of the closed windows and those kept. */
  lemma SpanBefore(s0: Surface, kept: TimeMs -> nat, s: Surface, all: seq<Row>, known: map<TimeMs, seq<Row>>, h: TimeMs)
    requires forall ws <- s0.logs :: kept(ws) <= |s0.logs[ws].file|
    requires ReopenedFrom(s0, kept, s, all) && MemoryOk(s, all) && DiskOk(s, all, known)
    ensures s.span.Some? && s.span.value.0 < h <==> KeptBefore(s0, kept, h)
  {
    hide FilesOk, IsLive, IsNewest, Range, WinOk;
    if s.span.Some? && s.span.value.0 < h && HasTime(all, s.span.value.0) {
      var r :| r in all && r.t == s.span.value.0;
      if r.t >= Floor(s) {
        var ws := WindowStart(r.t);
        RangeHas(all, ws, ws + WINDOW_LEN, r);
        assert r in s0.logs[ws].file[..kept(ws)];
      }
    }
    if KeptBefore(s0, kept, h) && !(s0.meta.span.Some? && s0.meta.span.value.0 < h) {
      var ws :| ws in s0.logs && ws + WINDOW_LEN > Floor(s0) && exists r <- s0.logs[ws].file[..kept(ws)] :: r.t < h;
      var r :| r in s0.logs[ws].file[..kept(ws)] && r.t < h;
      assert ws in s.open && r in InWindow(all, ws);
    }
  }

  /** Whether a reopened store has orphans can be told from its files and what was kept of its logs. */
  lemma OrphansAre(s0: Surface, kept: TimeMs -> nat, s: Surface, all: seq<Row>, known: map<TimeMs, seq<Row>>)
    requires forall ws <- s0.logs :: kept(ws) <= |s0.logs[ws].file|
    requires ReopenedFrom(s0, kept, s, all) && MemoryOk(s, all) && DiskOk(s, all, known)
    ensures NoOrphans(s, all) <==> NoneOrphaned(s0, kept)
  {
    hide MemoryOk, DiskOk, Range, KeptBefore;
    forall h ensures s.span.Some? && s.span.value.0 < h <==>
        KeptBefore(s0, kept, h) { SpanBefore(s0, kept, s, all, known, h); }
    forall ws | Aligned(ws) && ws + WINDOW_LEN > Floor(s)
      ensures InWindow(all, ws) != [] <==> ws in s0.logs && kept(ws) > 0
    {
      if ws !in s.open { ClosedOrEmpty(s, all, ws); }
    }
  }

  /** A window that is neither open nor closed has no rows. */
  lemma ClosedOrEmpty(s: Surface, all: seq<Row>, ws: TimeMs)
    requires MemoryOk(s, all) && Aligned(ws) && ws + WINDOW_LEN > Floor(s) && ws !in s.open
    ensures InWindow(all, ws) == []
  {
    hide IsLive, IsNewest, SpanOk, WinOk;
    NeverAligned();
    AlignedGap(Floor(s), ws);
    forall r | r in all ensures !(ws <= r.t < ws + WINDOW_LEN) { WindowOfTime(ws, r.t); }
    RangeEmpty(all, ws, ws + WINDOW_LEN);
  }

  /** The logs of the replayed windows, cut to what was read. */
  function CutLogs(s: Surface, kept: TimeMs -> nat): map<TimeMs, Log>
    requires forall ws <- s.logs :: kept(ws) <= |s.logs[ws].file|
  {
    map ws | ws in s.logs && ws + WINDOW_LEN > Floor(s) :: Log(s.logs[ws].file[..kept(ws)], kept(ws), kept(ws))
  }

  lemma ReplayedLogs(s: Surface, s': Surface, all': seq<Row>, kept: TimeMs -> nat)
    requires LogFiles(s.logs) && (forall ws <- s.logs :: kept(ws) <= |s.logs[ws].file|)
    requires s'.logs == CutLogs(s, kept) && s'.open.Keys == s'.logs.Keys && s'.horizon == s.horizon
    requires forall ws <- s'.open :: !s'.open[ws].spilled && InWindow(all', ws) == s.logs[ws].file[..kept(ws)]
    ensures LogsOk(s', all')
  {
    hide Range;
    forall ws <- s'.logs
      ensures Aligned(ws) && LogFile(s'.logs[ws], ws)
    {
      assert LogFile(s.logs[ws], ws);
    }
  }
}
