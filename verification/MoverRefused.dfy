/** What a refused batch leaves in the window logs: behind a window's arrivals at most the first rows the batch had for
    it, and of no other batch. */
module MoverRefused {
  import opened Common
  import opened MoverRows
  import opened MoverClose
  import opened MoverState

  /** The log holds the window's arrivals and then at most the first rows of `more`; without those the store counts all
      of it. */
  predicate LogHolds(log: Log, arrivals: seq<Row>, more: seq<Row>) {
    && arrivals <= log.file && log.file[|arrivals|..] <= more && (more == [] ==> log.size == |log.file|)
  }

  /** Every log, of an open window or not, holds its arrivals and rows of the refused batch. */
  ghost predicate Holds(logs: map<TimeMs, Log>, all: seq<Row>, refused: seq<Row>) {
    forall ws <- logs :: LogHolds(logs[ws], InWindow(all, ws), InWindow(refused, ws))
  }

  /** The synced arrivals of an open window stay synced. */
  ghost predicate StaySynced(open: map<TimeMs, Win>, all: seq<Row>, logs: map<TimeMs, Log>, logs': map<TimeMs, Log>) {
    forall ws <- open :: ws in logs && ws in logs' && Min(logs[ws].synced, |InWindow(all, ws)|) <= logs'[ws].synced
  }

  lemma NothingRefused(log: Log, arrivals: seq<Row>)
    ensures LogHolds(log, arrivals, []) <==> log.file == arrivals && log.size == |arrivals|
  {
  }

  /** A log a batch opens is of a window without arrivals. */
  lemma OpenedHolds(s: Surface, all: seq<Row>, rows: seq<Row>)
    requires MemoryOk(s, all) && LogsOk(s, all) && Holds(s.logs, all, [])
    requires forall r <- rows :: Stamped(r) && r.t >= Floor(s)
    ensures Holds(OpenedLogs(s.open, s.logs, rows), all, [])
  {
    hide MemoryOk, Range, LogHolds, LogFiles, LogOk;
    var logs := OpenedLogs(s.open, s.logs, rows);
    forall ws <- logs
      ensures LogHolds(logs[ws], InWindow(all, ws), InWindow([], ws))
    {
      RangeEmpty([], ws, ws + WINDOW_LEN);
      if ws !in s.logs || logs[ws] != s.logs[ws] {
        assert ws in Opened(s.open, rows) && ws !in s.open;
        NewWindow(s, all, rows, ws);
        NothingRefused(logs[ws], []);
      }
    }
  }

  /** A written batch joins the arrivals. */
  lemma LoggedHolds(logs: map<TimeMs, Log>, all: seq<Row>, rows: seq<Row>, sync: bool)
    requires Holds(logs, all, [])
    ensures Holds(Logged(logs, rows, sync), all + rows, [])
  {
    hide Range;
    forall ws <- logs
      ensures LogHolds(LogMore(logs[ws], InWindow(rows, ws), sync), InWindow(all + rows, ws), InWindow([], ws))
    {
      RangeEmpty([], ws, ws + WINDOW_LEN);
      RangeAppend(all, rows, ws, ws + WINDOW_LEN);
      assert InWindow(all, ws) + [] == InWindow(all, ws);
    }
  }

  /** A batch that was written but refused is behind the arrivals. */
  lemma RefusedHolds(logs: map<TimeMs, Log>, all: seq<Row>, rows: seq<Row>)
    requires Holds(logs, all, [])
    ensures Holds(Logged(logs, rows, false), all, rows)
  {
    hide Range;
    forall ws <- logs
      ensures LogHolds(LogMore(logs[ws], InWindow(rows, ws), false), InWindow(all, ws), InWindow(rows, ws))
    {
      RangeEmpty([], ws, ws + WINDOW_LEN);
    }
  }

  /** Logs that were cut back hold what they held; where they could not be, rows of the batch may follow. */
  lemma JunkedHolds(logs: map<TimeMs, Log>, all: seq<Row>, rows: seq<Row>, junk: TimeMs -> seq<Row>, cut: bool)
    requires Holds(logs, all, []) && forall ws :: junk(ws) <= InWindow(rows, ws)
    ensures Holds(map ws | ws in logs :: Junked(logs[ws], junk(ws), cut), all, if cut then [] else rows)
  {
    hide Range;
    forall ws <- logs
      ensures LogHolds(Junked(logs[ws], junk(ws), cut), InWindow(all, ws), InWindow(if cut then [] else rows, ws))
    {
      RangeEmpty([], ws, ws + WINDOW_LEN);
    }
  }

  lemma FailedHolds(s: Surface, all: seq<Row>, rows: seq<Row>, junk: TimeMs -> seq<Row>, cut: bool)
    requires MemoryOk(s, all) && LogsOk(s, all) && Holds(s.logs, all, [])
    requires (forall r <- rows :: Stamped(r) && r.t >= Floor(s)) && forall ws :: junk(ws) <= InWindow(rows, ws)
    ensures Holds(CutBack(s, rows, junk, cut), all, if cut then [] else rows)
  {
    hide MemoryOk, LogsOk, Holds, Range;
    OpenedHolds(s, all, rows);
    JunkedHolds(OpenedLogs(s.open, s.logs, rows), all, rows, junk, cut);
  }

  lemma LoggedStay(s: Surface, all: seq<Row>, rows: seq<Row>, sync: bool)
    requires LogsOk(s, all) && !s.walErr
    ensures StaySynced(s.open, all, s.logs, Logged(OpenedLogs(s.open, s.logs, rows), rows, sync))
  {
    hide Range, LogFiles, OpenedLogs;
    OpenedLogsAre(s.open, s.logs, rows);
  }

  lemma JunkedStay(s: Surface, all: seq<Row>, rows: seq<Row>, junk: TimeMs -> seq<Row>, cut: bool)
    requires LogsOk(s, all) && !s.walErr
    ensures StaySynced(s.open, all, s.logs, CutBack(s, rows, junk, cut))
  {
    hide Range, LogFiles, OpenedLogs;
    OpenedLogsAre(s.open, s.logs, rows);
  }

  lemma SameStay(s: Surface, all: seq<Row>)
    requires LogsOk(s, all)
    ensures StaySynced(s.open, all, s.logs, s.logs)
  {
    hide Range, LogFiles, LogOk;
  }

  lemma SyncedHolds(logs: map<TimeMs, Log>, all: seq<Row>, refused: seq<Row>, fails: TimeMs -> bool)
    requires Holds(logs, all, refused)
    ensures Holds(SyncedLogs(logs, fails), all, refused)
  {
    hide Range;
  }

  /** Logs that go leave the others as they are. */
  lemma FewerHold(logs: map<TimeMs, Log>, logs': map<TimeMs, Log>, all: seq<Row>, refused: seq<Row>)
    requires Holds(logs, all, refused) && forall ws <- logs' :: ws in logs && logs'[ws] == logs[ws]
    ensures Holds(logs', all, refused)
  {
    hide Range, LogHolds;
  }
}
