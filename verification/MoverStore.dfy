/** The mover store of one surface: batches go to the window logs and then to memory, windows are evicted to
    their logs and read back, commits close windows and write keyframes, and a reopened store is rebuilt from
    its files. */
module MoverStore {
  import opened Common
  import opened MoverRows
  import opened MoverClose
  import opened MoverState
  import opened MoverRefused
  import opened MoverCommit
  import opened MoverTrail
  import opened MoverReopen

  /** What Append did with a batch. */
  datatype Counts = Counts(accepted: nat, late: nat, invalid: nat)

  class MoverStore {
    /** Every log write is synced before the batch is acknowledged (the source's sync interval 0). */
    const syncEvery: bool

    var span: Option<(TimeMs, TimeMs)>
    var horizon: Option<TimeMs>
    var open: map<TimeMs, Win>
    var live: map<Id, Row>
    var lastOpen: map<Id, Row>
    var walErr: bool

    // files
    var logs: map<TimeMs, Log>
    var windows: map<TimeMs, seq<Row>>
    var keyframes: map<TimeMs, map<Id, Row>>
    var meta: Meta

    /** The closed rows of the last LIVE_TRAIL before the horizon. */
    var trail: seq<Row>

    /** Every row accepted, in arrival order. */
    ghost var all: seq<Row>
    /** For each closed window, the rows of the next window that had arrived when it was closed. */
    ghost var known: map<TimeMs, seq<Row>>
    /** The rows of the batch whose failure is sticky; without such a batch there are none. */
    ghost var refused: seq<Row>

    function S(): Surface
      reads this
    {
      Surface(span, horizon, open, live, lastOpen, walErr, logs, windows, keyframes, meta)
    }

    ghost predicate Valid()
      reads this
    {
      Ok(S(), all, known) && Held()
    }

    /** The logs hold the accepted rows and some of the refused batch, and nothing else. */
    ghost predicate Held()
      reads this
    {
      Holds(logs, all, refused) && (!walErr ==> refused == [])
    }

    ghost predicate Trailed()
      reads this
    {
      TrailOk(trail, windows, horizon)
    }

    /** With a sync per batch, every accepted row of an open window is durable. */
    ghost predicate Synced()
      reads this
    {
      syncEvery ==> Durable(open, logs, all)
    }

    constructor (syncEvery: bool)
      ensures Valid() && Synced() && Trailed() && all == [] && known == map[] && this.syncEvery == syncEvery
      ensures refused == []
      ensures S() == Surface(None, None, map[], map[], map[], false, map[], map[], map[], Meta(None, None))
    {
      this.syncEvery := syncEvery;
      span, horizon, open, live, lastOpen, walErr := None, None, map[], map[], map[], false;
      logs, windows, keyframes, meta, trail := map[], map[], map[], Meta(None, None), [];
      all, known, refused := [], map[], [];
      new;
      FreshOk(S());
    }

    /** Sorts a batch into accepted rows, late and invalid samples. */
    method Check(batch: seq<Sample>) returns (rows: seq<Row>, counts: Counts)
      ensures rows == Accepted(S(), batch) && counts.accepted == |rows| && counts.late == LateCount(S(), batch)
      ensures counts.accepted + counts.late + counts.invalid == |batch|
      ensures rows == Unmarked(Those(batch, Taken(horizon))) && counts.late == |Those(batch, TooLate(horizon))|
    {
      AcceptedAre(S(), batch);
      rows, counts := [], Counts(0, 0, 0);
      for i := 0 to |batch|
        invariant rows == Accepted(S(), batch[..i]) && counts.accepted == |rows|
                  && counts.late == LateCount(S(), batch[..i])
        invariant counts.accepted + counts.late + counts.invalid == i
      {
        assert batch[..i + 1][..i] == batch[..i];
        var smp := batch[i];
        if !smp.valid {
          counts := counts.(invalid := counts.invalid + 1);
        } else if horizon.Some? && smp.row.t < horizon.value {
          counts := counts.(late := counts.late + 1);
        } else if !smp.inRange {
          counts := counts.(invalid := counts.invalid + 1);
        } else {
          rows := rows + [smp.row.(handoff := false)];
          counts := counts.(accepted := counts.accepted + 1);
        }
      }
      assert batch[..|batch|] == batch;
    }

    /** Logs a batch, then takes it into memory. A batch whose logging fails changes nothing the store tells,
        except when its rows were written, its sync failed, and one of its windows is evicted. */
    method Append(batch: seq<Sample>, fate: LogFate) returns (ok: bool, counts: Counts)
      requires Valid() && InTimeRange(batch)
      requires fate.SyncFails? ==> syncEvery
      requires fate.WriteFails? ==> StartsOf(fate.junk, Accepted(S(), batch))
      modifies this
      ensures horizon == old(horizon) && live == old(live) && windows == old(windows) && keyframes == old(keyframes)
              && meta == old(meta) && known == old(known) && trail == old(trail)
      ensures ok <==> !old(walErr) && fate.Written?
      ensures ok ==>
              Valid() && all == old(all) + Accepted(old(S()), batch)
              && counts.accepted == |Accepted(old(S()), batch)|
                     && counts.late == LateCount(old(S()), batch) && counts.accepted + counts.late + counts.invalid
                         == |batch|
      ensures ok ==> all == old(all) + Unmarked(Those(batch, Taken(horizon)))
                     && counts.late == |Those(batch, TooLate(horizon))|
      ensures !ok ==>
              all == old(all) && span == old(span) && open == old(open) && lastOpen == old(lastOpen)
              && counts == Counts(0, 0, 0)
      ensures Recoverable(S(), all, known) && NoOrphans(S(), all) && Held() && (old(Synced()) ==> Synced())
      ensures refused == if walErr && !old(walErr) then Accepted(old(S()), batch) else old(refused)
      ensures StaySynced(old(open), old(all), old(logs), logs)
      ensures walErr <==> old(walErr) || fate.SyncFails? || (fate.WriteFails? && !fate.cut)
      ensures ok ==> span == WidenAll(old(span), Accepted(old(S()), batch)) && !walErr
                     && open.Keys == Opened(old(open), Accepted(old(S()), batch)).Keys
                     && logs == Logged(OpenedLogs(old(open), old(logs), Accepted(old(S()), batch)),
                         Accepted(old(S()), batch), syncEvery)
      ensures !ok ==>
                (Valid() <==>
                 !(!old(walErr) && fate.SyncFails?
                   && exists r <- Accepted(old(S()), batch) :: WindowStart(r.t) in open
                       && open[WindowStart(r.t)].spilled))
    {
      hide MemoryOk, LogsOk, DiskOk, NoOrphans, Recoverable, Durable, Opened, OpenedLogs, Logged, Holds, StaySynced,
        StartsOf;
      OkRecoverable(S(), all, known);
      SameStay(S(), all);
      if walErr {
        return false, Counts(0, 0, 0);
      }
      var rows;
      rows, counts := Check(batch);
      AcceptedStamped(S(), batch);
      RowsAfterFloor(S(), batch);
      match fate {
        case WriteFails(junk, cut) =>
          FailWrites(rows, junk, cut);
          return false, Counts(0, 0, 0);
        case SyncFails =>
          FailSync(rows);
          return false, Counts(0, 0, 0);
        case Written =>
          TakeIn(rows);
          OkRecoverable(S(), all, known);
          ok := true;
      }
    }

    /** Some log write failed: the logs written are cut back, or the failure is sticky. */
    method FailWrites(rows: seq<Row>, junk: TimeMs -> seq<Row>, cut: bool)
      requires Valid() && !walErr && StartsOf(junk, rows) && forall r <- rows :: Stamped(r) && r.t >= Floor(S())
      modifies this`logs, this`walErr, this`refused
      ensures Valid() && Recoverable(S(), all, known) && (old(Synced()) ==> Synced())
      ensures walErr == !cut && refused == (if cut then [] else rows) && StaySynced(open, all, old(logs), logs)
    {
      hide Ok, Recoverable, Durable, Holds, StaySynced, CutBack, StartsOf;
      WriteFailsAll(S(), all, known, rows, junk, cut);
      Refuse(CutBack(S(), rows, junk, cut), !cut, if cut then [] else rows);
    }

    /** What a batch that was not taken leaves: its logs, whether the failure is sticky, and the rows in question. */
    method Refuse(logs': map<TimeMs, Log>, walErr': bool, ghost rows: seq<Row>)
      modifies this`logs, this`walErr, this`refused
      ensures S() == old(S()).(logs := logs', walErr := walErr') && refused == rows
    {
      logs, walErr, refused := logs', walErr', rows;
    }

    /** The rows are in the logs but their sync failed: the batch is refused, and the failure is sticky. */
    method FailSync(rows: seq<Row>)
      requires Valid() && !walErr && forall r <- rows :: Stamped(r) && r.t >= Floor(S())
      modifies this`logs, this`walErr, this`refused
      ensures Recoverable(S(), all, known) && NoOrphans(S(), all) && Held() && (old(Synced()) ==> Synced())
      ensures Valid() <==> forall r <- rows :: !(WindowStart(r.t) in open && open[WindowStart(r.t)].spilled)
      ensures walErr && refused == rows && StaySynced(open, all, old(logs), logs)
    {
      hide MemoryOk, LogsOk, DiskOk, NoOrphans, Recoverable, Durable, Holds, StaySynced;
      OpenedHolds(S(), all, rows);
      RefusedHolds(OpenedLogs(open, logs, rows), all, rows);
      LoggedStay(S(), all, rows, false);
      SyncFailsOk(S(), all, known, rows);
      SyncFailsRecoverable(S(), all, known, rows);
      FailedDurable(S(), all, rows, _ => [], true);
      Refuse(Logged(OpenedLogs(open, logs, rows), rows, false), true, rows);
    }

    /** The logs take the rows, then memory does, one by one. */
    method TakeIn(rows: seq<Row>)
      requires Valid() && !walErr && forall r <- rows :: Stamped(r) && r.t >= Floor(S())
      modifies this`span, this`open, this`lastOpen, this`logs, this`all
      ensures Valid() && all == old(all) + rows && span == WidenAll(old(span), rows) && (old(Synced()) ==> Synced())
      ensures open.Keys == Opened(old(open), rows).Keys
              && logs == Logged(OpenedLogs(old(open), old(logs), rows), rows, syncEvery)
      ensures StaySynced(old(open), old(all), old(logs), logs)
    {
      hide MemoryOk, LogsOk, DiskOk, NoOrphans, Logged, OpenedLogs, Opened, Widened, Widen, WidenAll, Durable, Holds,
        StaySynced;
      OpenedHolds(S(), all, rows);
      LoggedHolds(OpenedLogs(open, logs, rows), all, rows, syncEvery);
      LoggedStay(S(), all, rows, syncEvery);
      ghost var s0 := S();
      PreparedOk(s0, all, rows);
      logs := Logged(OpenedLogs(open, logs, rows), rows, syncEvery);
      open := Opened(open, rows);
      LoggedOk(Prepared(s0, rows), all, rows, syncEvery);
      SameMemory(Prepared(s0, rows), S(), all, known);
      ghost var s1 := S();
      assert s1 == Prepared(s0, rows).(logs := Logged(Prepared(s0, rows).logs, rows, syncEvery));
      TakeRows(rows);
      LogsOkSame(s1, S(), all);
      TakenIn(s0, S(), old(all), rows, known);
      if syncEvery && Durable(s0.open, s0.logs, old(all)) { TakenDurable(s0, S(), old(all), rows); }
    }

    method TakeRows(rows: seq<Row>)
      requires MemoryOk(S(), all) && forall r <- rows :: Stamped(r) && r.t >= Floor(S()) && WindowStart(r.t) in open
      modifies this`span, this`open, this`lastOpen, this`all
      ensures MemoryOk(S(), all) && all == old(all) + rows && span == WidenAll(old(span), rows)
              && Widened(old(span), span, Floor(S()))
      ensures open.Keys == old(open.Keys) && forall ws <- open :: open[ws].spilled == old(open)[ws].spilled
    {
      hide MemoryOk, Widened, Widen;
      WidenedSelf(span, Floor(S()));
      for i := 0 to |rows|
        invariant MemoryOk(S(), all) && all == old(all) + rows[..i]
        invariant open.Keys == old(open.Keys) && forall ws <- open :: open[ws].spilled == old(open)[ws].spilled
        invariant Widened(old(span), span, Floor(S())) && span == WidenAll(old(span), rows[..i])
      {
        WidenedOn(old(span), span, Floor(S()), rows[i].t);
        assert rows[..i + 1][..i] == rows[..i] && rows[..i] + [rows[i]] == rows[..i + 1];
        TakeRow(rows[i]);
      }
      assert rows[..|rows|] == rows;
    }

    method TakeRow(r: Row)
      requires MemoryOk(S(), all) && WindowStart(r.t) in open && Stamped(r) && r.t >= Floor(S())
      modifies this`span, this`open, this`lastOpen, this`all
      ensures MemoryOk(S(), all) && all == old(all) + [r]
      ensures open.Keys == old(open.Keys) && forall ws <- open :: open[ws].spilled == old(open)[ws].spilled
      ensures span == Widen(old(span), r.t)
    {
      hide MemoryOk;
      WithRowOk(S(), all, r);
      var ws := WindowStart(r.t);
      span := Widen(span, r.t);
      lastOpen := Note(lastOpen, r);
      open := open[ws := AddRow(open[ws], r)];
      all := all + [r];
    }

    /** Syncs the logs, each on its own; a failure is sticky, and the batches it concerns were acknowledged. When none
        fails every accepted row is durable. */
    method SyncLogs(fails: TimeMs -> bool) returns (ok: bool)
      requires Valid()
      modifies this`logs, this`walErr
      ensures Valid() && (old(Synced()) ==> Synced()) && logs == SyncedLogs(old(logs), fails)
      ensures ok <==> forall ws <- old(logs) :: !fails(ws)
      ensures ok ==> Durable(open, logs, all)
      ensures walErr <==> old(walErr) || !ok
    {
      hide Ok, Durable, Holds;
      SyncedHolds(logs, all, refused, fails);
      ok := forall ws <- logs :: !fails(ws);
      SyncedOk(S(), all, known, fails, walErr || !ok);
      logs, walErr := SyncedLogs(logs, fails), walErr || !ok;
    }

    /** Drops the resident rows of an open window and keeps an index of them. */
    method Evict(ws: TimeMs)
      requires Valid() && !walErr && ws in open
      modifies this`open
      ensures Valid() && open.Keys == old(open.Keys)
      ensures open[ws].spilled && open[ws].rows == [] && forall x <- open :: x != ws ==> open[x] == old(open)[x]
    {
      hide Ok, Holds;
      if open[ws].spilled {
        SpilledEmpty(S(), all, known, ws);
        return;
      }
      var rows := open[ws].rows;
      var last := IndexNewest(rows);
      var first := MoverClose.FirstSamples(rows);
      EvictOk(S(), all, known, ws, last, first);
      open := open[ws := Evicted(open[ws], last, first)];
    }

    /** The rows of an open window in arrival order, read back from the log of an evicted one. */
    method WindowRows(ws: TimeMs) returns (rows: seq<Row>)
      requires ws in open && ws in logs
      ensures MemoryOk(S(), all) && LogsOk(S(), all) ==> rows == InWindow(all, ws)
    {
      hide LiveAt, IsNewest, IsEarliest, IsLive, SpanOk;
      if !open[ws].spilled {
        return open[ws].rows;
      }
      rows := logs[ws].file[..Min(logs[ws].size, |logs[ws].file|)];
    }

    /** Per journey the earliest sample of the open window at ws that is not a gone. */
    method NextSamples(ws: TimeMs) returns (firsts: map<Id, TimeMs>)
      requires MemoryOk(S(), all) && Aligned(ws) && ws >= Floor(S())
      ensures IsEarliest(firsts, InWindow(all, ws))
    {
      hide LiveAt, IsNewest, IsEarliest, IsLive, SpanOk, Range;
      if ws !in open {
        NotOpenIsEmpty(S(), all, ws);
        NothingNewest();
        return map[];
      }
      assert WinOk(open[ws], InWindow(all, ws));
      if open[ws].spilled {
        return open[ws].first;
      }
      firsts := MoverClose.FirstSamples(open[ws].rows);
    }

    /** The newest open row of a journey, or else its row at the horizon; nothing once it is gone. */
    method LastMeta(id: Id) returns (meta: Option<int>)
      requires Valid()
      ensures var r := Alive(Newest(Range(all, NEVER, FOREVER), id)); meta == if r.Some? then Some(r.value.meta)
                else None
    {
      hide Newest, OpenOk, SpanOk, LogsOk, DiskOk, NoOrphans, Holds;
      NewestSplit(all, id, NEVER, Floor(S()), FOREVER);
      assert Find(lastOpen, id) == Newest(Range(all, Floor(S()), FOREVER), id);
      assert Find(live, id) == LiveAt(all, Floor(S()), id);
      if id in lastOpen {
        return if lastOpen[id].gone then None else Some(lastOpen[id].meta);
      }
      meta := if id in live then Some(live[id].meta) else None;
    }

    /** Writes the keyframes at the hours from h up to newH and upTo; `ops` file operations succeed before one fails. */
    method EmitKeyframes(h: TimeMs, upTo: TimeMs, newH: TimeMs, live': map<Id, Row>, ops: nat,
                         ghost closing: map<TimeMs, seq<Row>>,
                         ghost done: TimeMs)
      returns (ok: bool, h': TimeMs, ops': nat)
      requires Closing(S(), all, known, closing, live', done, h)
      requires h % HOUR == 0 && h > Floor(S()) && h >= done && span.Some? && span.value.0 < h
      requires Aligned(upTo) && NoneOpen(open, done, upTo)
      modifies this`keyframes
      ensures SameBelow(windows, old(keyframes), windows, keyframes, Floor(S()))
      ensures h' % HOUR == 0 && h' >= h && Closing(S(), all, known, closing, live', done, h')
      ensures ok <==> h' > newH || h' > upTo
      ensures ops - ops' == Hours(h, newH) - Hours(h', newH) && (!ok ==> ops' == 0)
      ensures ops - ops' == Hours(h, upTo) - Hours(h', upTo) && (h' == h || h' - HOUR <= upTo)
    {
      hide Closing, SameBelow, Hours, NoneOpen, Holds;
      SameBelowSelf(windows, keyframes, Floor(S()));
      h', ops', ok := h, ops, true;
      while h' <= newH && h' <= upTo
        invariant h' % HOUR == 0 && h' >= h && Closing(S(), all, known, closing, live', done, h')
        invariant SameBelow(windows, old(keyframes), windows, keyframes, Floor(S()))
        invariant ops - ops' == Hours(h, newH) - Hours(h', newH)
        invariant ops - ops' == Hours(h, upTo) - Hours(h', upTo) && (h' == h || h' - HOUR <= upTo)
        decreases newH - h'
      {
        if ops' == 0 {
          return false, h', 0;
        }
        HoursStep(h', newH);
        HoursStep(h', upTo);
        KeyframeAbove(windows, old(keyframes), keyframes, h', live', Floor(S()));
        NextKeyframe(S(), all, known, closing, live', done, h', upTo);
        keyframes := keyframes[h' := live'];
        ops', h' := ops' - 1, h' + HOUR;
      }
    }

    /** The file of open window ws: its rows, sorted, deduplicated (`rows`) and flagged. */
    method ClosedFile(ws: TimeMs) returns (rows: seq<Row>, file: seq<Row>)
      requires MemoryOk(S(), all) && LogsOk(S(), all) && ws in open
      ensures Strict(rows) && Latest(rows) == Latest(InWindow(all, ws))
              && file == Marked(rows, InWindow(all, ws + WINDOW_LEN))
    {
      hide MemoryOk, LogsOk, Latest, Range, Ordered, Strict, IsEarliest, Marked;
      OpenLog(S(), all, ws);
      var arrivals := WindowRows(ws);
      SortIs(arrivals);
      rows := Dedupe(SortByJourney(arrivals));
      var firsts := NextSamples(ws + WINDOW_LEN);
      NextLater(all, ws);
      file := MarkHandoffs(rows, ws, firsts, InWindow(all, ws + WINDOW_LEN));
    }

    /** Closes open window ws: an evicted one is read back if that succeeds, its file is written, when it has rows, and
        the live state moves on. `file` is what was written. */
    method CloseWindow(ws: TimeMs, live': map<Id, Row>, k: TimeMs, ops: nat, readable: TimeMs -> bool,
                       ghost closing: map<TimeMs, seq<Row>>)
      returns (ok: bool, live'': map<Id, Row>, ops': nat, file: seq<Row>, ghost closing': map<TimeMs, seq<Row>>)
      requires Held()
      requires Closing(S(), all, known, closing, live', ws, k) && ws in open
      modifies this`windows
      ensures SameBelow(old(windows), keyframes, windows, keyframes, Floor(S()))
      ensures ok ==> Closing(S(), all, known, closing', live'', ws + WINDOW_LEN, k)
      ensures ok ==> closing' == if InWindow(all, ws) == [] then closing
                else closing[ws := InWindow(all, ws + WINDOW_LEN)]
      ensures !ok ==> Valid() && windows == old(windows)
      ensures ok <==> (open[ws].spilled ==> readable(ws)) && (InWindow(all, ws) != [] ==> ops > 0)
      ensures ok ==> ops' == ops - if InWindow(all, ws) == [] then 0 else 1
      ensures ok ==> file == FileAt(windows, ws)
    {
      hide MemoryOk, LogsOk, DiskOk, NoOrphans, FilesOk, IsLive, Latest, Range, Strict, Holds;
      closing', live'', ops', file := closing, live', ops, [];
      if open[ws].spilled && !readable(ws) {
        return false, live', ops, [], closing;
      }
      var rows;
      rows, file := ClosedFile(ws);
      NoRows(rows, InWindow(all, ws));
      if |file| == 0 {
        NoOrphan(S(), all, known, ws);
        ClosingEmpty(S(), all, known, closing, live', ws, k);
        return true, live', ops, file, closing;
      }
      if ops == 0 {
        return false, live', 0, [], closing;
      }
      ClosingWindow(S(), all, known, closing, live', ws, k, rows, InWindow(all, ws + WINDOW_LEN));
      windows := windows[ws := file];
      live'' := Advance(live', file);
      ops', ok, closing' := ops - 1, true, closing[ws := InWindow(all, ws + WINDOW_LEN)];
    }

    /** The newest row of every journey in an open window. */
    method IndexOf(ws: TimeMs) returns (idx: map<Id, Row>)
      requires MemoryOk(S(), all) && ws in open
      ensures IsNewest(idx, InWindow(all, ws))
    {
      hide MemoryOk, IsNewest, Range;
      if open[ws].spilled {
        idx := open[ws].last;
      } else {
        idx := IndexNewest(open[ws].rows);
      }
      IndexIs(S(), all, ws, idx);
    }

    /** The newest row of every journey among the open windows from `from` on. */
    method RebuildLastOpen(from: TimeMs) returns (m: map<Id, Row>)
      requires MemoryOk(S(), all) && Floor(S()) <= from <= FOREVER && Aligned(from)
      ensures IsNewest(m, Range(all, from, FOREVER))
    {
      hide MemoryOk, IsNewest, Range, IsLive, Floor, Aligned, Rebuilding;
      m := map[];
      var rest := set ws | ws in open && ws >= from;
      ghost var done := from;
      StartRebuild(S(), all, from, rest);
      while rest != {}
        invariant Rebuilding(S(), all, from, done, rest, m)
        decreases rest
      {
        var ws := Least(rest);
        RestOpen(S(), all, from, done, rest, m);
        var idx := IndexOf(ws);
        RebuildStep(S(), all, from, done, rest, m, ws, idx);
        m := m + idx;
        rest := rest - {ws};
        done := ws + WINDOW_LEN;
      }
      EndRebuild(S(), all, from, done, m);
    }

    /** The next window of a commit: the keyframes up to it, then the window itself. */
    method CloseNext(ws: TimeMs, to: TimeMs, live': map<Id, Row>, h: TimeMs, left: nat, readable: TimeMs -> bool,
                     ghost closing: map<TimeMs, seq<Row>>, ghost done: TimeMs)
      returns (ok: bool, live'': map<Id, Row>, h': TimeMs, left': nat, file: seq<Row>,
                ghost closing': map<TimeMs, seq<Row>>)
      requires Held()
      requires Closing(S(), all, known, closing, live', done, h) && HourOk(S(), h, done, to)
      requires Floor(S()) <= done <= ws < to && Aligned(ws) && Aligned(to) && ws in open && NoneOpen(open, done, ws)
      requires KnownAt(known, closing, all, Floor(S()), done)
      modifies this`windows, this`keyframes
      ensures Valid() && SameBelow(old(windows), old(keyframes), windows, keyframes, Floor(S()))
      ensures ok ==>
              Closing(S(), all, known, closing', live'', ws + WINDOW_LEN, h')
              && HourOk(S(), h', ws + WINDOW_LEN, to) && file == FileAt(windows, ws)
      ensures ok ==> KnownAt(known, closing', all, Floor(S()), ws + WINDOW_LEN)
      ensures ok ==> (open[ws].spilled ==> readable(ws))
                     && left - left' == ToWrite(all, done, h, to) - ToWrite(all, ws + WINDOW_LEN, h', to)
      ensures ok ==> left - left' == Hours(h, ws) + (if InWindow(all, ws) == [] then 0 else 1)
                     && (h' == h || (h % HOUR == 0 && h' % HOUR == 0 && h <= h' && h' - HOUR <= ws)) && h' > ws
      ensures !ok ==> FilesOk(windows, keyframes, span, all, closing, done, h)
                      && ((open[ws].spilled && !readable(ws))
                          || left < Hours(h, ws) + if InWindow(all, ws) == [] then 0 else 1)
    {
      hide Ok, FilesOk, IsLive, KnownAt, SameBelow, ToWrite, Hours, Holds;
      live'', h', left', closing', ok, file := live', h, left, closing, true, [];
      NextCount(S(), all, known, done, ws, to);
      SameBelowSelf(windows, keyframes, Floor(S()));
      if span.Some? {
        ok, h', left' := EmitKeyframes(h, ws, to, live', left, closing, done);
        NoHours(h', to);
        NoHours(h', ws);
        FilesLess(S(), all, closing, done, h', done, h);
        if !ok {
          return;
        }
      }
      NoHours(h', ws);
      ghost var windows0, keyframes0 := windows, keyframes;
      ClosingQuiet(S(), all, known, closing, live', done, ws, h');
      FilesLess(S(), all, closing, ws, h', done, h);
      ok, live'', left', file, closing' := CloseWindow(ws, live', h', left', readable, closing);
      SameBelowTrans(old(windows), old(keyframes), windows0, keyframes0, windows, keyframes, Floor(S()));
      if ok {
        NextHourOk(S(), h', ws, to);
        KnownNext(S(), all, known, closing, closing', done, ws);
      }
    }

    /** One step of a commit from window to window. */
    method CloseStep(ws: TimeMs, to: TimeMs, g: Progress, readable: TimeMs -> bool,
                     ghost closing: map<TimeMs, seq<Row>>, ghost done: TimeMs, ghost ops: nat)
      returns (ok: bool, g': Progress, ghost closing': map<TimeMs, seq<Row>>)
      requires Held()
      requires Underway(S(), all, known, g, closing, done, to, readable, ops)
      requires done <= ws < to && Aligned(ws) && Aligned(to) && ws in open && NoneOpen(open, done, ws)
      modifies this`windows, this`keyframes
      ensures Valid() && SameBelow(old(windows), old(keyframes), windows, keyframes, Floor(S()))
      ensures ok ==> Underway(S(), all, known, g', closing', ws + WINDOW_LEN, to, readable, ops)
      ensures !ok ==> Stuck(S(), all, to, ops, readable)
    {
      hide Ok, FilesOk, IsLive, KnownAt, SameBelow, ToWrite, Readable, TrailSoFar, After, Writes, HourOk, Hours, Paid,
        Reached, Holds;
      var live', h, left, file;
      ok, live', h, left, file, closing' := CloseNext(ws, to, g.live, g.h, g.left, readable, closing, done);
      g' := Progress(live', h, left, g.closed + After(file, to - LIVE_TRAIL));
      SameWrites(old(S()), S(), all, to);
      if ok {
        TrailNext(old(S()), S(), all, known, closing', done, ws, to, h, g.closed, file);
        ReadableNext(S(), all, known, done, ws, readable);
        LastBefore(to, ws);
        PaidNext(S(), all, known, done, g.h, ops - g.left, to, ws, h, ops - left);
      } else {
        HoursMore(g.h, ws, to);
        NextCount(S(), all, known, done, ws, to);
        StepBlocked(S(), all, known, closing, done, g.h, ops, g.left, to, ws, readable);
        if open[ws].spilled && !readable(ws) { Unreadable(open, ws, to, readable); }
      }
    }

    /** The keyframes after the last window. */
    method LastKeyframes(to: TimeMs, g: Progress, ghost closing: map<TimeMs, seq<Row>>, ghost done: TimeMs)
      returns (ok: bool, k: TimeMs, left: nat)
      requires Closing(S(), all, known, closing, g.live, done, g.h) && HourOk(S(), g.h, done, to)
      requires Floor(S()) <= done <= to && Aligned(to) && NoneOpen(open, done, to)
      modifies this`keyframes
      ensures SameBelow(windows, old(keyframes), windows, keyframes, Floor(S()))
      ensures Closing(S(), all, known, closing, g.live, done, k) && (ok <==> k > to)
      ensures g.left - left == Hours(g.h, to) - Hours(k, to) && (!ok ==> left == 0)
    {
      hide Ok, FilesOk, IsLive, SameBelow, Hours;
      SameBelowSelf(windows, keyframes, Floor(S()));
      ok, k, left := true, g.h, g.left;
      if span.Some? {
        ok, k, left := EmitKeyframes(g.h, to, to, g.live, g.left, closing, done);
      }
    }

    /** The end of a commit: the last keyframes, the meta file, and then memory. */
    method Finish(to: TimeMs, g: Progress, kept: set<TimeMs>, ghost closing: map<TimeMs, seq<Row>>, ghost done: TimeMs,
                  ghost readable: TimeMs -> bool, ghost ops: nat)
      returns (ok: bool)
      requires Held()
      requires Underway(S(), all, known, g, closing, done, to, readable, ops) && NoneOpen(open, done, to)
      requires Floor(S()) < to <= FOREVER && NEVER < to && Aligned(to)
      modifies this
      ensures Valid() && all == old(all) && span == old(span) && walErr == old(walErr) && refused == old(refused)
              && windows == old(windows)
      ensures SameBelow(windows, old(keyframes), windows, keyframes, Floor(old(S())))
      ensures ok ==> Moved(old(S()), S(), old(known), known, all, to) && (old(Trailed()) ==> Trailed())
      ensures Durable(old(open), old(logs), all) ==> Durable(open, logs, all)
      ensures !ok ==> S() == old(S()).(keyframes := keyframes) && known == old(known) && trail == old(trail)
      ensures ok <==> ops >= old(Writes(S(), all, to))
      ensures !ok ==> Reached(S(), all, to, ops, readable)
    {
      hide Ok, FilesOk, IsLive, KnownAt, SameBelow, Durable, ToWrite, Hours, TrailSoFar, Readable, TrailOk, Writes,
        HourOk, NoneOpen, Paid, Reached, Holds;
      LastCount(S(), all, known, done, to);
      var k, left;
      ok, k, left := LastKeyframes(to, g, closing, done);
      NoHours(k, to);
      if !ok || left == 0 {
        AllReached(S(), all, known, closing, g.live, done, to, k, ops, readable);
        return false;
      }
      ghost var s1 := S();
      Install(to, g.live, g.closed, kept, k, closing, done);
      MovedSame(old(S()), s1, S(), old(known), known, all, to);
    }

    /** The meta file is written, and memory takes the new state. */
    method Install(to: TimeMs, live': map<Id, Row>, closed: seq<Row>, kept: set<TimeMs>, ghost k: TimeMs,
                   ghost closing: map<TimeMs, seq<Row>>, ghost done: TimeMs)
      requires Held()
      requires Closing(S(), all, known, closing, live', done, k) && k > to && NEVER < to <= FOREVER && Floor(S()) < to
               && Aligned(to) && done <= to && NoneOpen(open, done, to)
      requires KnownAt(known, closing, all, Floor(S()), done) && TrailSoFar(closed, windows, done, to)
      modifies this`meta, this`horizon, this`live, this`lastOpen, this`logs, this`open, this`known, this`trail
      ensures Valid() && Moved(old(S()), S(), old(known), known, all, to) && (old(Trailed()) ==> Trailed())
      ensures Durable(old(open), old(logs), all) ==> Durable(open, logs, all)
    {
      hide Ok, FilesOk, IsLive, Durable, KnownAt, TrailSoFar, TrailOk, NoneOpen, Holds;
      ClosingQuiet(S(), all, known, closing, live', done, to, k);
      TrailEnds(S(), all, known, closing, live', done, to, k, closed);
      KnownQuiet(S(), all, known, closing, done, to);
      TakeTrail(to, live', closed, k, closing);
      TakeHorizon(to, live', k, closing, kept);
    }

    /** The trail before the new horizon: what is left of the old one, and the rows just closed. */
    method TakeTrail(to: TimeMs, ghost live': map<Id, Row>, closed: seq<Row>, ghost k: TimeMs,
                     ghost closing: map<TimeMs, seq<Row>>)
      requires Closing(S(), all, known, closing, live', to, k) && Floor(S()) < to && Aligned(to)
               && closed == TrailRows(windows, to)
      modifies this`trail
      ensures old(Trailed()) ==> TrailOk(trail, windows, Some(to))
    {
      hide Closing, TrailOk, TrailRows, SortByTime, After;
      TrailMoves(S(), all, known, closing, live', to, k, trail);
      trail := SortByTime(After(trail, to - LIVE_TRAIL) + closed);
    }

    /** All files are right up to `to`: memory takes the new state, and the logs of closed windows go. */
    method TakeHorizon(to: TimeMs, live': map<Id, Row>, ghost k: TimeMs, ghost closing: map<TimeMs, seq<Row>>,
                       kept: set<TimeMs>)
      requires Held()
      requires Closing(S(), all, known, closing, live', to, k) && k > to && NEVER < to <= FOREVER && Floor(S()) < to
      modifies this`meta, this`horizon, this`live, this`lastOpen, this`logs, this`open, this`known
      ensures Valid() && horizon == Some(to) && known == closing && open == map ws | ws in old(open) && ws >= to ::
                old(open)[ws]
      ensures forall ws <- logs :: ws in old(logs) && logs[ws] == old(logs)[ws]
      ensures Durable(old(open), old(logs), all) ==> Durable(open, logs, all)
    {
      hide Ok, FilesOk, IsLive, Durable, Installed, Closing, Holds;
      ClosingMemory(S(), all, known, closing, live', to, k);
      var lastOpen' := RebuildLastOpen(to);
      ClosingInstall(S(), all, known, closing, live', to, k, lastOpen', kept);
      if Durable(open, logs, all) { InstalledDurable(S(), all, to, live', lastOpen', kept); }
      InstalledIs(S(), to, live', lastOpen', kept);
      SetHorizon(to, live', lastOpen', kept);
      known := closing;
    }

    /** Writes the meta file with the new horizon; memory takes the new state, and the logs of closed windows go. */
    method SetHorizon(to: TimeMs, live': map<Id, Row>, lastOpen': map<Id, Row>, kept: set<TimeMs>)
      requires Held()
      modifies this`meta, this`horizon, this`live, this`lastOpen, this`logs, this`open
      ensures S() == Installed(old(S()), to, live', lastOpen', kept)
      ensures Held()
    {
      hide Holds;
      meta := Meta(Some(to), span);
      horizon, live, lastOpen := Some(to), live', lastOpen';
      ghost var logs0 := logs;
      logs := map ws | ws in logs && (ws !in open || ws >= to || ws in kept) :: logs[ws];
      FewerHold(logs0, logs, all, refused);
      open := map ws | ws in open && ws >= to :: open[ws];
    }

    /** The least of the windows still to close. */
    method CloseLeast(rest: set<TimeMs>, to: TimeMs, g: Progress, readable: TimeMs -> bool,
                      ghost closing: map<TimeMs, seq<Row>>, ghost done: TimeMs, ghost ops: nat)
      returns (ok: bool, g': Progress, rest': set<TimeMs>, ghost closing': map<TimeMs, seq<Row>>, ghost done': TimeMs)
      requires Underway(S(), all, known, g, closing, done, to, readable, ops) && Valid() && Aligned(to)
      requires rest != {} && rest == Waiting(open, done, to)
      modifies this`windows, this`keyframes
      ensures Valid() && SameBelow(old(windows), old(keyframes), windows, keyframes, Floor(S())) && rest' < rest
      ensures ok ==> Underway(S(), all, known, g', closing', done', to, readable, ops)
                     && rest' == Waiting(open, done', to)
      ensures !ok ==> Stuck(S(), all, to, ops, readable)
    {
      hide Ok, SameBelow, Underway, Aligned, NoneOpen, Stuck, Floor, Holds;
      var ws := Least(rest);
      RestFacts(S(), all, known, done, to, rest, ws);
      ok, g', closing' := CloseStep(ws, to, g, readable, closing, done, ops);
      if ok { RestAfter(S(), all, known, done, to, rest, ws); }
      rest', done' := rest - {ws}, ws + WINDOW_LEN;
    }

    /** Closes, in time order, every open window before `to`. */
    method CloseAll(to: TimeMs, h: TimeMs, ops: nat, readable: TimeMs -> bool)
      returns (ok: bool, g: Progress, ghost closing: map<TimeMs, seq<Row>>, ghost done: TimeMs)
      requires Valid() && Aligned(to) && Aligned(Floor(S())) && Floor(S()) < to && HourOk(S(), h, Floor(S()), to)
               && h == FirstKeyframe(S(), to)
      modifies this`windows, this`keyframes
      ensures Valid() && SameBelow(old(windows), old(keyframes), windows, keyframes, Floor(S()))
      ensures ok ==> Underway(S(), all, known, g, closing, done, to, readable, ops) && NoneOpen(open, done, to)
                     && Readable(open, to, readable)
      ensures !ok ==> Stuck(S(), all, to, ops, readable)
    {
      hide Ok, SameBelow, Underway, Aligned, Readable, NoneOpen, Stuck, HourOk, FirstKeyframe, Waiting, Holds;
      SameBelowSelf(windows, keyframes, Floor(S()));
      g, closing, done := Progress(live, h, ops, []), known, Floor(S());
      StartUnderway(S(), all, known, g, to, readable);
      var rest := set ws | ws in open && ws < to;
      AllRest(S(), all, known, to, rest);
      ok := true;
      while rest != {} && ok
        invariant Valid() && SameBelow(old(windows), old(keyframes), windows, keyframes, Floor(S()))
        invariant ok ==> Underway(S(), all, known, g, closing, done, to, readable, ops)
                         && rest == Waiting(open, done, to)
        invariant !ok ==> Stuck(S(), all, to, ops, readable)
        decreases rest
      {
        ghost var windows0, keyframes0 := windows, keyframes;
        ok, g, rest, closing, done := CloseLeast(rest, to, g, readable, closing, done, ops);
        SameBelowTrans(old(windows), old(keyframes), windows0, keyframes0, windows, keyframes, Floor(S()));
      }
      if ok {
        NoneLeft(open, done, to, rest);
        UnderwayRead(S(), all, known, g, closing, done, to, readable, ops);
      }
    }

    /** Closes every window before `to`, in time order, and then takes the new horizon. */
    method CommitTo(to: TimeMs, h: TimeMs, ops: nat, readable: TimeMs -> bool, kept: set<TimeMs>) returns (ok: bool)
      requires Valid() && Aligned(to) && Aligned(Floor(S())) && Floor(S()) < to <= FOREVER && NEVER < to
               && HourOk(S(), h, Floor(S()), to) && h == FirstKeyframe(S(), to)
      modifies this
      ensures Valid() && all == old(all) && span == old(span) && walErr == old(walErr) && refused == old(refused)
      ensures SameBelow(old(windows), old(keyframes), windows, keyframes, Floor(old(S())))
      ensures Durable(old(open), old(logs), all) ==> Durable(open, logs, all)
      ensures ok ==> Moved(old(S()), S(), old(known), known, all, to)
      ensures !ok ==> S() == old(S()).(windows := windows, keyframes := keyframes) && known == old(known)
      ensures ok <==> old(Readable(open, to, readable) && ops >= Writes(S(), all, to))
      ensures old(Trailed()) ==> Trailed()
      ensures !ok ==> Reached(S(), all, to, ops, readable)
    {
      hide Ok, FilesOk, SameBelow, Underway, HourOk, Aligned, Durable, Moved, NoneOpen, Readable, TrailOk, Writes,
        FirstKeyframe, Reached, Holds;
      var g;
      ghost var closing, done;
      ok, g, closing, done := CloseAll(to, h, ops, readable);
      TrailBelow(old(S()), S(), trail);
      SameWrites(old(S()), S(), all, to);
      if ok {
        ghost var s1 := S();
        ok := Finish(to, g, kept, closing, done, readable, ops);
        if ok { MovedSame(old(S()), s1, S(), old(known), known, all, to); }
        SameBelowTrans(old(windows), old(keyframes), s1.windows, s1.keyframes, windows, keyframes, Floor(old(S())));
      }
    }

    /** Closes the windows that end at or before the target's window, as far as one commit goes: windows and
        keyframes are written in time order, then the meta file with the new horizon, and only then memory takes
        the new state. `ops` files are written before one fails, and evicted windows are read back where `readable` says
        so; the logs of the windows in `kept` are left behind. It succeeds if and only if that is enough for the
        keyframes and the windows with rows that it has to write, and the meta file, and every evicted window is read.
        Where it fails, every window it could get to has its file. */
    method Commit(target: TimeMs, ops: nat, readable: TimeMs -> bool, kept: set<TimeMs>) returns (ok: bool)
      requires Valid() && -0x8000_0000_0000_0000 <= target < 0x8000_0000_0000_0000
      modifies this
      ensures Valid() && all == old(all) && span == old(span) && walErr == old(walErr) && refused == old(refused)
      ensures SameBelow(old(windows), old(keyframes), windows, keyframes, Floor(old(S())))
              && (old(Synced()) ==> Synced())
      ensures ok ==> var to := Capped(span, old(horizon), WindowStart(target));
                     if old(horizon).Some? && to <= old(horizon).value then S() == old(S()) && known == old(known)
                     else Moved(old(S()), S(), old(known), known, all, to)
      ensures !ok ==> S() == old(S()).(windows := windows, keyframes := keyframes) && known == old(known)
      ensures ok <==> old(Enough(S(), all, target, ops, readable))
      ensures !ok ==> Reached(S(), all, Capped(span, horizon, WindowStart(target)), ops, readable)
      ensures old(Trailed()) ==> Trailed()
    {
      hide Ok, FilesOk, SameBelow, HourOk, Aligned, Capped, Durable, Moved, Writes, Readable, TrailOk, FirstKeyframe,
        Reached, Holds;
      var to := Capped(span, horizon, WindowStart(target));
      SameBelowSelf(windows, keyframes, Floor(S()));
      if horizon.Some? && to <= horizon.value {
        return true;
      }
      TargetBounds(S(), all, known, target, to);
      var h := FirstKeyframe(S(), to);
      ok := CommitTo(to, h, ops, readable, kept);
    }

    // --- reopening ---

    /** The live state at the horizon from the newest keyframe and the windows after it. */
    method RebuildLive() returns (live': map<Id, Row>)
      requires Recoverable(S(), all, known)
      ensures IsLive(live', all, Floor(S()))
    {
      hide Recoverable, IsLive;
      live' := map[];
      if horizon.None? || meta.span.None? {
        NothingClosed(S(), all, known);
        return;
      }
      HorizonIs(S(), all, known);
      var ws;
      live', ws := StartState();
      while ws < horizon.value
        invariant Aligned(ws) && ws >= NEVER && IsLive(live', all, Min(ws, horizon.value))
        decreases horizon.value - ws
      {
        AlignedGap(ws + WINDOW_LEN, horizon.value);
        WindowLive(S(), all, known, live', ws);
        if ws in windows {
          live' := Advance(live', windows[ws]);
        }
        ws := ws + WINDOW_LEN;
      }
    }

    /** The newest keyframe at or before the horizon, or nothing at the window of the first row. */
    method StartState() returns (live': map<Id, Row>, ws: TimeMs)
      requires Recoverable(S(), all, known) && horizon.Some? && meta.span.Some?
      ensures Aligned(ws) && ws >= NEVER && IsLive(live', all, Min(ws, horizon.value))
    {
      hide Recoverable, IsLive;
      HorizonIs(S(), all, known);
      var first := meta.span.value.0;
      var h := HourStart(horizon.value);
      while h > first && h !in keyframes
        invariant h % HOUR == 0 && h <= horizon.value
        decreases h - first
      {
        h := h - HOUR;
      }
      KeyframeIs(S(), all, known, h);
      if h > first {
        HourAligned(h);
        return keyframes[h], h;
      }
      live', ws := map[], WindowStart(first);
      NoneBeforeFirst(S(), all, known, Min(ws, horizon.value));
    }

    /** The trail from the closed windows it reaches back into. */
    method RebuildTrail() returns (rows: seq<Row>)
      requires Recoverable(S(), all, known)
      ensures TrailOk(rows, windows, horizon)
    {
      hide Recoverable, After;
      if horizon.None? || meta.span.None? {
        NoTrail(S(), all, known);
        return [];
      }
      HorizonIs(S(), all, known);
      rows := [];
      var cut := horizon.value - LIVE_TRAIL;
      var ws := WindowStart(cut + 1);
      LastBefore(horizon.value, ws);
      while ws < horizon.value
        invariant Aligned(ws) && horizon.value - WINDOW_LEN <= ws <= horizon.value
        invariant rows == if ws < horizon.value then [] else TrailRows(windows, horizon.value)
        decreases horizon.value - ws
      {
        LastBefore(horizon.value, ws);
        if ws in windows {
          rows := rows + After(windows[ws], cut);
        }
        AfterNone([], cut);
        assert [] + TrailRows(windows, horizon.value) == TrailRows(windows, horizon.value);
        ws := ws + WINDOW_LEN;
      }
      SortByTimeIs(rows);
      rows := SortByTime(rows);
    }

    /** Replays the rows read from one window log into memory. */
    method ReplayLog(ws: TimeMs, rows: seq<Row>)
      requires MemoryOk(S(), all) && Aligned(ws) && ws >= Floor(S()) && ws !in open
      requires forall r <- rows :: Stamped(r) && WindowStart(r.t) == ws
      modifies this`span, this`open, this`lastOpen, this`all
      ensures MemoryOk(S(), all) && all == old(all) + rows && open.Keys == old(open.Keys) + {ws}
      ensures !open[ws].spilled && forall x <- old(open) :: open[x].spilled == old(open)[x].spilled
      ensures Widened(old(span), span, Floor(S())) && span == WidenAll(old(span), rows)
    {
      hide MemoryOk, Widened, WidenAll;
      OpenOne(S(), all, ws);
      open := open[ws := NewWin()];
      TakeRows(rows);
    }

    /** Replays every log, oldest window first. */
    method ReplayAll(kept: TimeMs -> nat, ghost s0: Surface, ghost all0: seq<Row>)
      requires MemoryOk(S(), all) && Replaying(S(), s0, all, all0, kept, logs.Keys) && open == map[]
      modifies this`span, this`open, this`lastOpen, this`all
      ensures MemoryOk(S(), all) && Replaying(S(), s0, all, all0, kept, {})
    {
      hide MemoryOk, Replaying;
      var rest := logs.Keys;
      while rest != {}
        invariant MemoryOk(S(), all) && Replaying(S(), s0, all, all0, kept, rest)
        decreases rest
      {
        var ws := Least(rest);
        ghost var s1, all1 := S(), all;
        NextLog(s1, s0, all1, all0, kept, rest, ws);
        var rows := logs[ws].file[..kept(ws)];
        ReplayLog(ws, rows);
        LogReplayed(s1, S(), s0, all1, all0, kept, rest, ws, rows);
        rest := rest - {ws};
      }
    }

    /** Reopens the store from its files after a stop or a crash that left the first kept(ws) rows of every log,
        the synced ones at least. The accepted rows are from now on those read back. */
    method Reopen(kept: TimeMs -> nat)
      requires Recoverable(S(), all, known) && forall ws <- logs :: logs[ws].synced <= kept(ws) <= |logs[ws].file|
      modifies this
      ensures MemoryOk(S(), all) && LogsOk(S(), all) && DiskOk(S(), all, known)
      ensures Valid() <==> old(NoneOrphaned(S(), kept))
      ensures horizon == old(horizon) && windows == old(windows) && keyframes == old(keyframes) && meta == old(meta)
      ensures known == old(known) && !walErr && refused == []
      ensures Range(all, NEVER, Floor(S())) == Range(old(all), NEVER, Floor(S()))
      ensures open.Keys == set ws | ws in old(logs) && ws + WINDOW_LEN > Floor(S())
      ensures forall ws <- open :: InWindow(all, ws) == old(logs)[ws].file[..kept(ws)]
      ensures Held() && Synced() && Trailed()
    {
      hide TrailOk, MemoryOk, LogsOk, DiskOk, NoOrphans, IsLive, Recoverable, Range, Replaying, Emptied,
        ClosedRows, InWindow,
        Durable, CutLogs, NoneOrphaned, Holds;
      ghost var s0, all0 := S(), all;
      var live' := RebuildLive();
      trail := RebuildTrail();
      EmptiedOk(S(), all, known, live');
      StartReplay(s0, all0, known, live', kept);
      StartOver(live');
      all := ClosedRows(s0, all0);
      ReplayAll(kept, s0, all0);
      EndReplay(S(), s0, all, all0, known, kept);
      SameCut(S(), s0, all, all0, kept);
      CutFiles(kept);
      OrphansAre(s0, kept, S(), all, known);
      refused := [];
      CutHolds(s0, S(), all, kept);
    }

    /** The memory of a store that just read its meta file; logs of closed windows are deleted. */
    method StartOver(live': map<Id, Row>)
      modifies this`span, this`open, this`live, this`lastOpen, this`walErr, this`logs
      ensures S() == Emptied(old(S()), live') && open == map[] && !walErr
    {
      logs := map ws | ws in logs && ws + WINDOW_LEN > Floor(S()) :: logs[ws];
      span, open, live, lastOpen, walErr := meta.span, map[], live', map[], false;
    }

    /** Torn tails are cut off: every log ends where reading it ended. */
    method CutFiles(kept: TimeMs -> nat)
      modifies this`logs
      ensures logs == map ws | ws in old(logs) :: Log(old(logs)[ws].file[..Min(kept(ws), |old(logs)[ws].file|)],
                kept(ws), kept(ws))
    {
      logs := map ws | ws in logs :: Log(logs[ws].file[..Min(kept(ws), |logs[ws].file|)], kept(ws), kept(ws));
    }
  }

  // --- bookkeeping of a commit ---

  /** The open windows from `done` on and before `to`. */
  function Waiting(open: map<TimeMs, Win>, done: TimeMs, to: TimeMs): set<TimeMs> {
    set ws | ws in open && done <= ws < to
  }

  /** Every evicted window before `to` is read back. */
  predicate Readable(open: map<TimeMs, Win>, to: TimeMs, readable: TimeMs -> bool) {
    forall ws <- open :: ws < to && open[ws].spilled ==> readable(ws)
  }

  /** The hour of a commit's first keyframe; without data there is none up to the new horizon. */
  function FirstKeyframe(s: Surface, to: TimeMs): TimeMs {
    if s.span.None? then to + 1 else FirstHour(s.span.value.0, s.horizon)
  }

  /** How many files a commit up to `to` writes. */
  function Writes(s: Surface, all: seq<Row>, to: TimeMs): nat { ToWrite(all, Floor(s), FirstKeyframe(s, to), to) }

  /** So many files can be written, and these windows read, that a commit succeeds. */
  predicate Enough(s: Surface, all: seq<Row>, target: TimeMs, ops: nat, readable: TimeMs -> bool) {
    var to := Capped(s.span, s.horizon, WindowStart(target));
    (s.horizon.Some? && to <= s.horizon.value) || (Readable(s.open, to, readable) && ops >= Writes(s, all, to))
  }

  lemma SameWrites(s: Surface, s': Surface, all: seq<Row>, to: TimeMs)
    requires s'.span == s.span && s'.horizon == s.horizon
    ensures Writes(s', all, to) == Writes(s, all, to)
  {
  }

  /** What a commit carries from window to window: the live state, the hour of the next keyframe, how many files can
      still be written, and the rows for the trail. */
  datatype Progress = Progress(live: map<Id, Row>, h: TimeMs, left: nat, closed: seq<Row>)

  /** A commit to `to` that could write `ops` files has closed the windows before `done`. */
  ghost predicate Underway(s: Surface, all: seq<Row>, known: map<TimeMs, seq<Row>>, g: Progress,
                           closing: map<TimeMs, seq<Row>>, done: TimeMs, to: TimeMs, readable: TimeMs -> bool,
                           ops: nat) {
    && Closing(s, all, known, closing, g.live, done, g.h) && HourOk(s, g.h, done, to) && Floor(s) <= done <= to
    && KnownAt(known, closing, all, Floor(s), done) && Readable(s.open, done, readable)
    && ops - g.left == Writes(s, all, to) - ToWrite(all, done, g.h, to)
    && Paid(all, Floor(s), FirstKeyframe(s, to), done, g.h, ops - g.left, to)
    && TrailSoFar(g.closed, s.windows, done, to)
  }

  lemma StartUnderway(s: Surface, all: seq<Row>, known: map<TimeMs, seq<Row>>, g: Progress, to: TimeMs,
                      readable: TimeMs -> bool)
    requires Ok(s, all, known) && Aligned(to) && Aligned(Floor(s)) && Floor(s) < to
             && g.closed == [] && g.live == s.live
    requires g.h == FirstKeyframe(s, to) && HourOk(s, g.h, Floor(s), to)
    ensures Underway(s, all, known, g, known, Floor(s), to, readable, g.left)
  {
    hide Ok, FilesOk, Closing, ToWrite;
    StartClosing(s, all, known, g.h);
    KnownSelf(known, all, Floor(s));
    ReadableStart(s, all, known, readable);
    LastBefore(to, Floor(s));
  }

  lemma UnderwayRead(s: Surface, all: seq<Row>, known: map<TimeMs, seq<Row>>, g: Progress,
                     closing: map<TimeMs, seq<Row>>, done: TimeMs, to: TimeMs, readable: TimeMs -> bool, ops: nat)
    requires Underway(s, all, known, g, closing, done, to, readable, ops) && NoneOpen(s.open, done, to)
    ensures Readable(s.open, to, readable)
  {
    hide Closing, HourOk, KnownAt, ToWrite, TrailSoFar, Writes;
    ReadableEnd(s.open, done, to, readable);
  }

  lemma NoOrphan(s: Surface, all: seq<Row>, known: map<TimeMs, seq<Row>>, ws: TimeMs)
    requires Ok(s, all, known) && ws in s.open && InWindow(all, ws) == []
    ensures FileAt(s.windows, ws) == []
  {
    hide LogsOk, DiskOk, MemoryOk, Range;
    OpenAligned(s, all);
  }

  /** Each window the files written reach has its file: those with rows, with every evicted window up to there read. */
  ghost predicate Reached(s: Surface, all: seq<Row>, to: TimeMs, ops: nat, readable: TimeMs -> bool) {
    forall w :: Within(s, all, to, ops, readable, w) ==>
      w in s.windows && IsClosed(s.windows[w], InWindow(all, w), InWindow(all, w + WINDOW_LEN))
  }

  ghost predicate Within(s: Surface, all: seq<Row>, to: TimeMs, ops: nat, readable: TimeMs -> bool, w: TimeMs) {
    && Aligned(w) && Floor(s) <= w < to && InWindow(all, w) != [] && Readable(s.open, w + WINDOW_LEN, readable)
    && Through(all, Floor(s), FirstKeyframe(s, to), w) <= ops
  }

  /** The commit cannot go through, and got as far as it could. */
  ghost predicate Stuck(s: Surface, all: seq<Row>, to: TimeMs, ops: nat, readable: TimeMs -> bool) {
    (!Readable(s.open, to, readable) || ops < Writes(s, all, to)) && Reached(s, all, to, ops, readable)
  }

  lemma FilesLess(s: Surface, all: seq<Row>, closing: map<TimeMs, seq<Row>>, to: TimeMs, k: TimeMs, to': TimeMs,
                  k': TimeMs)
    requires to' <= to && k' <= k
    ensures FilesOk(s.windows, s.keyframes, s.span, all, closing, to, k) ==>
              FilesOk(s.windows, s.keyframes, s.span, all, closing, to', k')
  {
    hide WindowOk, KeyframeOk;
  }

  /** One more window closed. */
  lemma PaidNext(s: Surface, all: seq<Row>, known: map<TimeMs, seq<Row>>, done: TimeMs, h: TimeMs, spent: int,
                 to: TimeMs, ws: TimeMs, h': TimeMs, spent': int)
    requires Ok(s, all, known) && Aligned(ws) && Aligned(to) && Floor(s) <= done <= ws < to
             && NoneOpen(s.open, done, ws)
    requires Paid(all, Floor(s), FirstKeyframe(s, to), done, h, spent, to)
    requires spent' == spent + Hours(h, ws) + if InWindow(all, ws) == [] then 0 else 1
    requires (h' == h || (h % HOUR == 0 && h' % HOUR == 0 && h <= h' && h' - HOUR <= ws)) && h' > ws
    ensures Paid(all, Floor(s), FirstKeyframe(s, to), ws + WINDOW_LEN, h', spent', to)
  {
    hide LogsOk, DiskOk, NoOrphans, MemoryOk, Filled, Hours, FirstKeyframe, Range;
    NoHours(h', ws);
    forall w | Aligned(w) && ws + WINDOW_LEN <= w < to
      ensures Through(all, Floor(s), FirstKeyframe(s, to), w) == spent' + Through(all, ws + WINDOW_LEN, h', w)
    {
      FilledStep(s, all, done, ws, w + WINDOW_LEN);
      if h' != h { HoursOn(h, h', ws, w); }
    }
  }

  /** A commit that stops at ws could not get to a window from `done` on. */
  lemma StepBlocked(s: Surface, all: seq<Row>, known: map<TimeMs, seq<Row>>, closing: map<TimeMs, seq<Row>>,
                    done: TimeMs,
                    h: TimeMs, ops: nat, left: nat, to: TimeMs, ws: TimeMs, readable: TimeMs -> bool)
    requires Ok(s, all, known) && Aligned(ws) && Aligned(to) && Aligned(done) && Floor(s) <= done <= ws < to
             && NoneOpen(s.open, done, ws) && ws in s.open
    requires Paid(all, Floor(s), FirstKeyframe(s, to), done, h, ops - left, to)
    requires FilesOk(s.windows, s.keyframes, s.span, all, closing, done, h)
             && KnownAt(known, closing, all, Floor(s), done)
    requires (s.open[ws].spilled && !readable(ws)) || left < Hours(h, ws) + if InWindow(all, ws) == [] then 0 else 1
    ensures Reached(s, all, to, ops, readable)
  {
    hide Ok, FilesOk, KnownAt, Paid, IsClosed, Range, Within;
    forall w | Within(s, all, to, ops, readable, w)
      ensures w in s.windows && IsClosed(s.windows[w], InWindow(all, w), InWindow(all, w + WINDOW_LEN))
    {
      WithinIs(s, all, to, ops, readable, w);
      if w >= done { NotWithin(s, all, known, done, h, ops, left, to, ws, readable, w); }
      LastBefore(done, w);
      ClosedAt(s, all, closing, done, h, w);
      KnownIs(known, closing, all, Floor(s), done, w);
    }
  }

  lemma WithinIs(s: Surface, all: seq<Row>, to: TimeMs, ops: nat, readable: TimeMs -> bool, w: TimeMs)
    requires Within(s, all, to, ops, readable, w)
    ensures Aligned(w) && Floor(s) <= w < to && InWindow(all, w) != []
  {
    hide Range, Through, Readable;
  }

  lemma KnownIs(known: map<TimeMs, seq<Row>>, closing: map<TimeMs, seq<Row>>, all: seq<Row>, floor: TimeMs,
                done: TimeMs, w: TimeMs)
    requires KnownAt(known, closing, all, floor, done) && Aligned(w) && floor <= w < done && InWindow(all, w) != []
    ensures w in closing && closing[w] == InWindow(all, w + WINDOW_LEN)
  {
    hide Range;
  }

  lemma NotWithin(s: Surface, all: seq<Row>, known: map<TimeMs, seq<Row>>, done: TimeMs, h: TimeMs, ops: nat, left: nat,
                  to: TimeMs, ws: TimeMs, readable: TimeMs -> bool, w: TimeMs)
    requires Ok(s, all, known) && Aligned(ws) && Floor(s) <= done <= ws < to && NoneOpen(s.open, done, ws)
             && ws in s.open
    requires Paid(all, Floor(s), FirstKeyframe(s, to), done, h, ops - left, to) && w >= done
    requires (s.open[ws].spilled && !readable(ws)) || left < Hours(h, ws) + if InWindow(all, ws) == [] then 0 else 1
    ensures !Within(s, all, to, ops, readable, w)
  {
    hide LogsOk, DiskOk, NoOrphans, MemoryOk, Hours, FirstKeyframe, Range, Filled;
    if Within(s, all, to, ops, readable, w) {
      OpenWith(s, all, w);
      HoursMore(h, ws, w);
      if InWindow(all, ws) != [] { FilledHas(all, done, ws, w); }
    }
  }

  lemma OpenWith(s: Surface, all: seq<Row>, w: TimeMs)
    requires MemoryOk(s, all) && Aligned(w) && w >= Floor(s) && InWindow(all, w) != []
    ensures w in s.open
  {
    hide LogsOk, DiskOk, NoOrphans, MemoryOk, Range;
    if w !in s.open { NotOpenIsEmpty(s, all, w); }
  }

  lemma FilledHas(all: seq<Row>, done: TimeMs, ws: TimeMs, w: TimeMs)
    requires Aligned(ws) && done <= ws <= w && InWindow(all, ws) != []
    ensures |Filled(all, done, w + WINDOW_LEN)| >= 1
  {
    hide Range;
    var r := InWindow(all, ws)[0];
    WindowOfTime(ws, r.t);
    assert ws in Filled(all, done, w + WINDOW_LEN);
  }

  /** When only the end of a commit fails, every window has its file. */
  lemma AllReached(s: Surface, all: seq<Row>, known: map<TimeMs, seq<Row>>, closing: map<TimeMs, seq<Row>>,
                   live: map<Id, Row>, done: TimeMs, to: TimeMs, k: TimeMs, ops: nat, readable: TimeMs -> bool)
    requires Closing(s, all, known, closing, live, done, k) && done <= to && Aligned(to) && NoneOpen(s.open, done, to)
             && KnownAt(known, closing, all, Floor(s), done)
    ensures Reached(s, all, to, ops, readable)
  {
    hide Ok, FilesOk, IsLive, IsClosed, Range, Through, Readable;
    ClosingQuiet(s, all, known, closing, live, done, to, k);
    KnownQuiet(s, all, known, closing, done, to);
    forall w | Within(s, all, to, ops, readable, w)
      ensures w in s.windows && IsClosed(s.windows[w], InWindow(all, w), InWindow(all, w + WINDOW_LEN))
    {
      LastBefore(to, w);
      ClosedAt(s, all, closing, to, k, w);
      KnownIs(known, closing, all, Floor(s), to, w);
    }
  }

  lemma ClosedAt(s: Surface, all: seq<Row>, closing: map<TimeMs, seq<Row>>, to: TimeMs, k: TimeMs, w: TimeMs)
    requires FilesOk(s.windows, s.keyframes, s.span, all, closing, to, k) && Aligned(w) && w + WINDOW_LEN <= to
             && InWindow(all, w) != []
    ensures w in s.windows && w in closing && IsClosed(s.windows[w], InWindow(all, w), closing[w])
  {
    hide IsClosed, Range, KeyframeOk;
    assert WindowOk(s.windows, all, closing, w);
  }

  /** The count over one more window, and at the end. */
  lemma NextCount(s: Surface, all: seq<Row>, known: map<TimeMs, seq<Row>>, done: TimeMs, ws: TimeMs, to: TimeMs)
    requires Ok(s, all, known) && Aligned(ws) && Floor(s) <= done <= ws < to && NoneOpen(s.open, done, ws)
    ensures forall h, h' :: ToWrite(all, done, h, to) - ToWrite(all, ws + WINDOW_LEN, h', to)
                            == Hours(h, to) - Hours(h', to) + if InWindow(all, ws) == [] then 0 else 1
    ensures forall h :: ToWrite(all, done, h, to) > Hours(h, to) + if InWindow(all, ws) == [] then 0 else 1
  {
    hide LogsOk, DiskOk, NoOrphans, MemoryOk, Filled, Hours, Range;
    FilledStep(s, all, done, ws, to);
  }

  lemma LastCount(s: Surface, all: seq<Row>, known: map<TimeMs, seq<Row>>, done: TimeMs, to: TimeMs)
    requires Ok(s, all, known) && Floor(s) <= done <= to && NoneOpen(s.open, done, to)
    ensures forall h :: ToWrite(all, done, h, to) == Hours(h, to) + 1
  {
    hide LogsOk, DiskOk, NoOrphans, MemoryOk, Filled, Hours;
    FilledNone(s, all, done, to);
  }

  lemma ReadableStart(s: Surface, all: seq<Row>, known: map<TimeMs, seq<Row>>, readable: TimeMs -> bool)
    requires Ok(s, all, known)
    ensures Readable(s.open, Floor(s), readable)
  {
    hide LogsOk, DiskOk, NoOrphans, MemoryOk;
    OpenAligned(s, all);
  }

  lemma ReadableNext(s: Surface, all: seq<Row>, known: map<TimeMs, seq<Row>>, done: TimeMs, ws: TimeMs,
                     readable: TimeMs -> bool)
    requires Ok(s, all, known) && Aligned(ws) && ws in s.open && NoneOpen(s.open, done, ws)
             && Readable(s.open, done, readable) && (s.open[ws].spilled ==> readable(ws))
    ensures Readable(s.open, ws + WINDOW_LEN, readable)
  {
    hide LogsOk, DiskOk, NoOrphans, MemoryOk;
    OpenAligned(s, all);
    forall w <- s.open | w < ws + WINDOW_LEN ensures w <= ws { AlignedGap(w, ws); }
  }

  lemma ReadableEnd(open: map<TimeMs, Win>, done: TimeMs, to: TimeMs, readable: TimeMs -> bool)
    requires Readable(open, done, readable) && NoneOpen(open, done, to)
    ensures Readable(open, to, readable)
  {
  }

  lemma Unreadable(open: map<TimeMs, Win>, ws: TimeMs, to: TimeMs, readable: TimeMs -> bool)
    requires ws in open && ws < to && open[ws].spilled && !readable(ws)
    ensures !Readable(open, to, readable)
  {
  }

  lemma NoHours(h: TimeMs, to: TimeMs)
    ensures h > to ==> Hours(h, to) == 0
    ensures h <= to ==> Hours(h, to) > 0
  {
  }

  /** The hour of the next keyframe; without data there is none up to the new horizon. */
  predicate HourOk(s: Surface, h: TimeMs, done: TimeMs, to: TimeMs) {
    if s.span.None? then h == to + 1 else h % HOUR == 0 && h > Floor(s) && h >= done && s.span.value.0 < h
  }

  /** Below `floor` closing is known; for the windows with rows from there to `done` it has the next window's
      arrivals. */
  ghost predicate KnownAt(known: map<TimeMs, seq<Row>>, closing: map<TimeMs, seq<Row>>, all: seq<Row>, floor: TimeMs,
                          done: TimeMs) {
    && (forall ws <- known :: ws < floor ==> ws in closing && closing[ws] == known[ws])
    && (forall ws :: Aligned(ws) && floor <= ws < done && InWindow(all, ws) != [] ==>
          ws in closing && closing[ws] == InWindow(all, ws + WINDOW_LEN))
  }

  /** A commit moved the horizon to `to`: the windows from there on are as they were, and no log changed. */
  ghost predicate Moved(s: Surface, s': Surface, known: map<TimeMs, seq<Row>>, known': map<TimeMs, seq<Row>>,
                        all: seq<Row>, to: TimeMs) {
    && s'.horizon == Some(to) && KnownAt(known, known', all, Floor(s), to)
    && s'.open == (map ws | ws in s.open && ws >= to :: s.open[ws])
    && forall ws <- s'.logs :: ws in s.logs && s'.logs[ws] == s.logs[ws]
  }

  lemma MovedSame(s: Surface, s1: Surface, s': Surface, known: map<TimeMs, seq<Row>>, known': map<TimeMs, seq<Row>>,
                  all: seq<Row>, to: TimeMs)
    requires Moved(s1, s', known, known', all, to) && s1.horizon == s.horizon && s1.open == s.open && s1.logs == s.logs
    ensures Moved(s, s', known, known', all, to)
  {
    hide KnownAt;
  }

  lemma KnownSelf(known: map<TimeMs, seq<Row>>, all: seq<Row>, floor: TimeMs)
    ensures KnownAt(known, known, all, floor, floor)
  {
  }

  lemma KnownNext(s: Surface, all: seq<Row>, known: map<TimeMs, seq<Row>>, closing: map<TimeMs, seq<Row>>,
                  closing': map<TimeMs, seq<Row>>,
                  done: TimeMs, ws: TimeMs)
    requires MemoryOk(s, all) || Ok(s, all, known)
    requires KnownAt(known, closing, all, Floor(s), done) && Aligned(done) && Aligned(ws) && Floor(s) <= done <= ws
             && NoneOpen(s.open, done, ws)
    requires closing' == closing[ws := InWindow(all, ws + WINDOW_LEN)]
             || (closing' == closing && InWindow(all, ws) == [])
    ensures KnownAt(known, closing', all, Floor(s), ws + WINDOW_LEN)
  {
    hide IsLive, IsNewest, LogsOk, DiskOk, NoOrphans, OpenOk, SpanOk, Range;
    QuietUntil(s, all, done, ws);
    forall w | Aligned(w) && Floor(s) <= w < ws + WINDOW_LEN && InWindow(all, w) != []
      ensures w in closing' && closing'[w] == InWindow(all, w + WINDOW_LEN)
    {
      AlignedGap(w, ws);
    }
  }

  lemma KnownQuiet(s: Surface, all: seq<Row>, known: map<TimeMs, seq<Row>>, closing: map<TimeMs, seq<Row>>,
                   done: TimeMs, to: TimeMs)
    requires Ok(s, all, known) && KnownAt(known, closing, all, Floor(s), done)
    requires Aligned(done) && Aligned(to) && Floor(s) <= done <= to && NoneOpen(s.open, done, to)
    ensures KnownAt(known, closing, all, Floor(s), to)
  {
    hide LogsOk, DiskOk, NoOrphans, MemoryOk, Range;
    QuietUntil(s, all, done, to);
  }

  lemma ClosingMemory(s: Surface, all: seq<Row>, known: map<TimeMs, seq<Row>>, closing: map<TimeMs, seq<Row>>,
                      live: map<Id, Row>, done: TimeMs, k: TimeMs)
    requires Closing(s, all, known, closing, live, done, k)
    ensures MemoryOk(s, all) && Aligned(done)
  {
    hide MemoryOk, LogsOk, DiskOk, NoOrphans, FilesOk, IsLive;
  }

  lemma InstalledIs(s: Surface, to: TimeMs, live: map<Id, Row>, lastOpen: map<Id, Row>, kept: set<TimeMs>)
    ensures var s' := Installed(s, to, live, lastOpen, kept);
            && s'.horizon == Some(to) && s'.open == (map ws | ws in s.open && ws >= to :: s.open[ws])
            && forall ws <- s'.logs :: ws in s.logs && s'.logs[ws] == s.logs[ws]
  {
  }

  lemma MemoryOf(s: Surface, all: seq<Row>, known: map<TimeMs, seq<Row>>)
    requires Ok(s, all, known)
    ensures MemoryOk(s, all)
  {
  }

  lemma NextHourOk(s: Surface, h: TimeMs, ws: TimeMs, to: TimeMs)
    requires Aligned(ws) && Aligned(to) && ws < to && HourOk(s, h, ws, to) && (s.span.Some? ==> h > to || h > ws)
    ensures HourOk(s, h, ws + WINDOW_LEN, to)
  {
    if s.span.Some? {
      HourAligned(h);
      AlignedGap(ws + WINDOW_LEN, to);
      if h > ws { AlignedGap(ws + WINDOW_LEN, h); }
    }
  }

  lemma SameBelowSelf(windows: map<TimeMs, seq<Row>>, keyframes: map<TimeMs, map<Id, Row>>, floor: TimeMs)
    ensures SameBelow(windows, keyframes, windows, keyframes, floor)
  {
  }

  /** A keyframe after the horizon changes no file up to it. */
  lemma KeyframeAbove(windows: map<TimeMs, seq<Row>>, k0: map<TimeMs, map<Id, Row>>, k1: map<TimeMs, map<Id, Row>>,
                      h: TimeMs, live: map<Id, Row>, floor: TimeMs)
    requires SameBelow(windows, k0, windows, k1, floor) && h > floor
    ensures SameBelow(windows, k0, windows, k1[h := live], floor)
  {
  }

  lemma SameBelowTrans(w0: map<TimeMs, seq<Row>>, k0: map<TimeMs, map<Id, Row>>, w1: map<TimeMs, seq<Row>>,
                       k1: map<TimeMs, map<Id, Row>>,
                       w2: map<TimeMs, seq<Row>>, k2: map<TimeMs, map<Id, Row>>, floor: TimeMs)
    requires SameBelow(w0, k0, w1, k1, floor) && SameBelow(w1, k1, w2, k2, floor)
    ensures SameBelow(w0, k0, w2, k2, floor)
  {
  }

  lemma TargetBounds(s: Surface, all: seq<Row>, known: map<TimeMs, seq<Row>>, target: TimeMs, to: TimeMs)
    requires Ok(s, all, known) && -0x8000_0000_0000_0000 <= target < 0x8000_0000_0000_0000
    requires to == Capped(s.span, s.horizon, WindowStart(target)) && (s.horizon.Some? ==> to > s.horizon.value)
    ensures Aligned(to) && NEVER < to <= FOREVER && Floor(s) < to && Aligned(Floor(s))
    ensures HourOk(s, FirstKeyframe(s, to), Floor(s), to)
  {
    hide IsLive, IsNewest, OpenOk, LogsOk, FilesOk, NoOrphans;
    NeverAligned();
  }

  lemma StartClosing(s: Surface, all: seq<Row>, known: map<TimeMs, seq<Row>>, h: TimeMs)
    requires Ok(s, all, known) && (s.span.Some? ==> h == FirstHour(s.span.value.0, s.horizon))
    ensures Closing(s, all, known, known, s.live, Floor(s), h)
  {
    hide Ok;
    ClosingStart(s, all, known, h);
  }

  /** The logs of the windows that stay open are untouched. */
  lemma InstalledDurable(s: Surface, all: seq<Row>, to: TimeMs, live: map<Id, Row>, lastOpen: map<Id, Row>,
                         kept: set<TimeMs>)
    requires Durable(s.open, s.logs, all)
    ensures var s' := Installed(s, to, live, lastOpen, kept); Durable(s'.open, s'.logs, all)
  {
    hide Range;
  }

  lemma AllRest(s: Surface, all: seq<Row>, known: map<TimeMs, seq<Row>>, to: TimeMs, rest: set<TimeMs>)
    requires Ok(s, all, known) && rest == set ws | ws in s.open && ws < to
    ensures rest == Waiting(s.open, Floor(s), to)
  {
    hide LogsOk, DiskOk, NoOrphans, MemoryOk;
    OpenAligned(s, all);
  }

  lemma NoneLeft(open: map<TimeMs, Win>, done: TimeMs, to: TimeMs, rest: set<TimeMs>)
    requires rest == {} && rest == Waiting(open, done, to)
    ensures NoneOpen(open, done, to)
  {
    forall w | w in open && done <= w < to ensures w in rest {}
  }

  lemma RestFacts(s: Surface, all: seq<Row>, known: map<TimeMs, seq<Row>>, done: TimeMs, to: TimeMs, rest: set<TimeMs>,
                  ws: TimeMs)
    requires Ok(s, all, known) && rest == (set x | x in s.open && done <= x < to) && ws in rest && forall x <- rest ::
               ws <= x
    ensures Aligned(ws) && ws in s.open && done <= ws < to && NoneOpen(s.open, done, ws)
  {
    hide LogsOk, DiskOk, NoOrphans, IsLive, IsNewest, SpanOk, WinOk;
    forall w | w in s.open && done <= w < ws ensures w in rest {}
  }

  lemma RestAfter(s: Surface, all: seq<Row>, known: map<TimeMs, seq<Row>>, done: TimeMs, to: TimeMs, rest: set<TimeMs>,
                  ws: TimeMs)
    requires Ok(s, all, known) && rest == (set x | x in s.open && done <= x < to) && ws in rest
             && (forall x <- rest :: ws <= x) && Aligned(to)
    ensures rest - {ws} == (set x | x in s.open && ws + WINDOW_LEN <= x < to) && ws + WINDOW_LEN <= to
            && Aligned(ws + WINDOW_LEN)
  {
    hide LogsOk, DiskOk, NoOrphans, MemoryOk;
    OpenAligned(s, all);
    AlignedGap(ws + WINDOW_LEN, to);
    forall x | x in s.open && done <= x < to && x != ws
      ensures x >= ws + WINDOW_LEN
    {
      assert x in rest;
      AlignedGap(ws + WINDOW_LEN, x);
    }
  }

  lemma ClosingInstall(s: Surface, all: seq<Row>, known: map<TimeMs, seq<Row>>, closing: map<TimeMs, seq<Row>>,
                       live: map<Id, Row>,
                       to: TimeMs, k: TimeMs, lastOpen: map<Id, Row>, kept: set<TimeMs>)
    requires Closing(s, all, known, closing, live, to, k) && k > to && NEVER < to <= FOREVER && Floor(s) < to
    requires IsNewest(lastOpen, Range(all, to, FOREVER))
    ensures Ok(Installed(s, to, live, lastOpen, kept), all, closing)
  {
    hide MemoryOk, LogsOk, DiskOk, NoOrphans, IsLive, IsNewest, Range, WindowOk, KeyframeOk;
    InstallOk(s, all, closing, to, live, lastOpen, kept);
  }

  // --- bookkeeping of a reopen ---

  lemma NothingClosed(s: Surface, all: seq<Row>, known: map<TimeMs, seq<Row>>)
    requires Recoverable(s, all, known) && (s.horizon.None? || s.meta.span.None?)
    ensures IsLive(map[], all, Floor(s))
  {
    hide FilesOk, OpenOk, IsLive, IsNewest, LogFiles;
    NothingLive(all, Floor(s));
  }

  lemma NoTrail(s: Surface, all: seq<Row>, known: map<TimeMs, seq<Row>>)
    requires Recoverable(s, all, known) && (s.horizon.None? || s.meta.span.None?)
    ensures TrailOk([], s.windows, s.horizon)
  {
    hide OpenOk, IsLive, IsNewest, LogFiles, Range;
    if s.horizon.Some? {
      var ws := s.horizon.value - WINDOW_LEN;
      RangeEmpty(all, ws, ws + WINDOW_LEN);
      assert WindowOk(s.windows, all, known, ws);
      AfterNone([], s.horizon.value - LIVE_TRAIL);
    }
  }

  lemma HorizonIs(s: Surface, all: seq<Row>, known: map<TimeMs, seq<Row>>)
    requires Recoverable(s, all, known)
    ensures s.horizon.Some? ==> Aligned(s.horizon.value) && NEVER < s.horizon.value <= FOREVER
    ensures s.meta.span.Some? ==> s.meta.span.value.0 >= -0x8000_0000_0000_0000
  {
    hide FilesOk, OpenOk, IsLive, IsNewest, LogFiles;
  }

  lemma ClosedOnly(s: Surface, all: seq<Row>)
    ensures Range(ClosedRows(s, all), NEVER, Floor(s)) == Range(all, NEVER, Floor(s))
  {
    RangeRange(all, NEVER, Floor(s), NEVER, Floor(s));
  }

  lemma RecoverableFacts(s: Surface, all: seq<Row>, known: map<TimeMs, seq<Row>>)
    requires Recoverable(s, all, known)
    ensures LogFiles(s.logs) && DiskOk(s, all, known) && MemoryOk(s, all)
    ensures s.horizon.Some? ==> Aligned(s.horizon.value)
  {
    hide DiskOk, LogFiles, SpanOk, OpenOk, IsLive, IsNewest;
  }

  lemma FileRows(s: Surface, ws: TimeMs, rows: seq<Row>)
    requires LogFiles(s.logs) && ws in s.logs && rows <= s.logs[ws].file && ws + WINDOW_LEN > Floor(s)
    requires s.horizon.Some? ==> Aligned(s.horizon.value)
    ensures Aligned(ws) && ws >= Floor(s) && forall r <- rows :: Stamped(r) && WindowStart(r.t) == ws
  {
    assert LogFile(s.logs[ws], ws);
    NeverAligned();
    AlignedGap(Floor(s), ws);
    forall r | r in rows ensures r in s.logs[ws].file {}
  }

  /** A replay under way: the logs in `rest` are still to come, and every open window holds what was read of its log. */
  ghost predicate Replaying(s: Surface, s0: Surface, all: seq<Row>, all0: seq<Row>, kept: TimeMs -> nat,
                            rest: set<TimeMs>) {
    && (s0.horizon.Some? ==> Aligned(s0.horizon.value)) && LogFiles(s0.logs)
        && (forall ws <- s0.logs :: kept(ws) <= |s0.logs[ws].file|)
    && s.logs == (map ws | ws in s0.logs && ws + WINDOW_LEN > Floor(s0) :: s0.logs[ws])
    && s.horizon == s0.horizon && s.windows == s0.windows && s.keyframes == s0.keyframes && s.meta == s0.meta
        && !s.walErr
    && rest <= s.logs.Keys && s.open.Keys == s.logs.Keys - rest && Widened(s0.meta.span, s.span, Floor(s0))
    && SpanFrom(s.span, s0.meta.span, all)
    && Range(all, NEVER, Floor(s0)) == Range(all0, NEVER, Floor(s0))
    && forall ws <- s.open :: !s.open[ws].spilled && InWindow(all, ws) == s0.logs[ws].file[..kept(ws)]
  }

  lemma StartReplay(s0: Surface, all0: seq<Row>, known: map<TimeMs, seq<Row>>, live: map<Id, Row>, kept: TimeMs -> nat)
    requires Recoverable(s0, all0, known) && forall ws <- s0.logs :: kept(ws) <= |s0.logs[ws].file|
    ensures Replaying(Emptied(s0, live), s0, ClosedRows(s0, all0), all0, kept, Emptied(s0, live).logs.Keys)
  {
    hide DiskOk, LogFiles, Range, MemoryOk, Recoverable, Widened;
    RecoverableFacts(s0, all0, known);
    ClosedOnly(s0, all0);
    WidenedSelf(s0.meta.span, Floor(s0));
  }

  lemma NextLog(s: Surface, s0: Surface, all: seq<Row>, all0: seq<Row>, kept: TimeMs -> nat, rest: set<TimeMs>,
                ws: TimeMs)
    requires Replaying(s, s0, all, all0, kept, rest) && ws in rest
    ensures ws in s.logs && kept(ws) <= |s.logs[ws].file| && ws !in s.open && Aligned(ws) && ws >= Floor(s)
    ensures forall r <- s.logs[ws].file[..kept(ws)] :: Stamped(r) && WindowStart(r.t) == ws
  {
    hide LogFiles, Range, Widened, Aligned;
    FileRows(s0, ws, s0.logs[ws].file[..kept(ws)]);
  }

  lemma LogReplayed(s: Surface, s': Surface, s0: Surface, all: seq<Row>, all0: seq<Row>, kept: TimeMs -> nat,
                    rest: set<TimeMs>, ws: TimeMs, rows: seq<Row>)
    requires Replaying(s, s0, all, all0, kept, rest) && ws in rest && ws in s.logs && kept(ws) <= |s.logs[ws].file|
             && rows == s.logs[ws].file[..kept(ws)]
    requires MemoryOk(s, all)
    requires s' == s.(span := s'.span, open := s'.open, lastOpen := s'.lastOpen) && s'.open.Keys == s.open.Keys + {ws}
    requires !s'.open[ws].spilled && (forall x <- s.open :: s'.open[x].spilled == s.open[x].spilled)
             && Widened(s.span, s'.span, Floor(s))
    requires s'.span == WidenAll(s.span, rows)
    ensures Replaying(s', s0, all + rows, all0, kept, rest - {ws})
  {
    hide Range, Widened, MemoryOk, Aligned, SpanFrom, WidenAll;
    SpanFromAll(s.span, s0.meta.span, all, rows);
    NextLog(s, s0, all, all0, kept, rest, ws);
    NotOpenIsEmpty(s, all, ws);
    OpenAligned(s, all);
    Replayed(s0, all0, all, rows, ws, s.open, kept, s0.logs);
    WidenedTrans(s0.meta.span, s.span, s'.span, Floor(s0));
  }

  lemma EndReplay(s: Surface, s0: Surface, all: seq<Row>, all0: seq<Row>, known: map<TimeMs, seq<Row>>,
                  kept: TimeMs -> nat)
    requires Replaying(s, s0, all, all0, kept, {}) && MemoryOk(s, all) && Recoverable(s0, all0, known)
    ensures var s' := s.(logs := CutLogs(s0, kept));
            MemoryOk(s', all) && LogsOk(s', all) && DiskOk(s', all, known) && Durable(s.open, s'.logs, all)
    ensures s.open.Keys == set ws | ws in s0.logs && ws + WINDOW_LEN > Floor(s0)
    ensures Range(all, NEVER, Floor(s0)) == Range(all0, NEVER, Floor(s0)) && s.horizon == s0.horizon
    ensures forall ws <- s.open :: InWindow(all, ws) == s0.logs[ws].file[..kept(ws)]
    ensures ReopenedFrom(s0, kept, s.(logs := CutLogs(s0, kept)), all)
  {
    hide Range, Widened, MemoryOk, Aligned, DiskOk, LogFiles, LogsOk, Recoverable, SpanFrom;
    RecoverableFacts(s0, all0, known);
    var s' := s.(logs := CutLogs(s0, kept));
    SameSurfaceMemory(s, s', all);
    ReplayedLogs(s0, s', all, kept);
    SpanOf(s, all);
    ReopenedDisk(s0, all0, known, s', all);
  }

  /** A reopened store's logs hold its arrivals alone. */
  lemma CutHolds(s0: Surface, s: Surface, all: seq<Row>, kept: TimeMs -> nat)
    requires forall ws <- s0.logs :: kept(ws) <= |s0.logs[ws].file|
    requires ReopenedFrom(s0, kept, s, all) && s.logs == CutLogs(s0, kept)
    ensures Holds(s.logs, all, [])
  {
    hide Range;
    forall ws <- s.logs
      ensures LogHolds(s.logs[ws], InWindow(all, ws), InWindow([], ws))
    {
      assert ws in s.open;
      RangeEmpty([], ws, ws + WINDOW_LEN);
    }
  }

  lemma SameCut(s: Surface, s0: Surface, all: seq<Row>, all0: seq<Row>, kept: TimeMs -> nat)
    requires Replaying(s, s0, all, all0, kept, {})
    ensures CutLogs(s0, kept) == map ws | ws in s.logs ::
              Log(s.logs[ws].file[..Min(kept(ws), |s.logs[ws].file|)], kept(ws), kept(ws))
  {
    hide Range, Widened, Aligned, LogFiles;
  }

  lemma SpanOf(s: Surface, all: seq<Row>)
    requires MemoryOk(s, all)
    ensures SpanOk(s.span, all)
  {
    hide OpenOk, IsLive, IsNewest;
  }

  /** Replaying one log adds its rows to its window and to nothing else. */
  lemma Replayed(s: Surface, all0: seq<Row>, all: seq<Row>, rows: seq<Row>, ws: TimeMs, open: map<TimeMs, Win>,
                 kept: TimeMs -> nat, logs: map<TimeMs, Log>)
    requires Aligned(ws) && ws >= Floor(s) && ws !in open && forall r <- rows :: Stamped(r) && WindowStart(r.t) == ws
    requires forall x <- open ::
             x in logs && Aligned(x) && kept(x) <= |logs[x].file|
             && InWindow(all, x) == logs[x].file[..kept(x)]
    requires InWindow(all, ws) == []
    ensures InWindow(all + rows, ws) == rows
    ensures forall x <- open :: InWindow(all + rows, x) == logs[x].file[..kept(x)]
    ensures Range(all + rows, NEVER, Floor(s)) == Range(all, NEVER, Floor(s))
  {
    hide Range;
    RangeAppend(all, rows, ws, ws + WINDOW_LEN);
    RangeAll(rows, ws, ws + WINDOW_LEN);
    assert [] + rows == rows;
    forall x <- open
      ensures InWindow(all + rows, x) == logs[x].file[..kept(x)]
    {
      RangeAppend(all, rows, x, x + WINDOW_LEN);
      forall r | r in rows ensures !(x <= r.t < x + WINDOW_LEN) { WindowOfTime(x, r.t); }
      RangeEmpty(rows, x, x + WINDOW_LEN);
      assert InWindow(all, x) + [] == InWindow(all, x);
    }
    RangeAppend(all, rows, NEVER, Floor(s));
    RangeEmpty(rows, NEVER, Floor(s));
    assert Range(all, NEVER, Floor(s)) + [] == Range(all, NEVER, Floor(s));
  }

  lemma {:induction false} RangeAll(rows: seq<Row>, lo: TimeMs, hi: TimeMs)
    requires forall r <- rows :: lo <= r.t < hi
    ensures Range(rows, lo, hi) == rows
    decreases rows
  {
    if rows != [] {
      RangeAll(rows[..|rows| - 1], lo, hi);
      assert rows == rows[..|rows| - 1] + [rows[|rows| - 1]];
    }
  }

  lemma WidenedTrans(a: Option<(TimeMs, TimeMs)>, b: Option<(TimeMs, TimeMs)>, c: Option<(TimeMs, TimeMs)>,
                     floor: TimeMs)
    requires Widened(a, b, floor) && Widened(b, c, floor)
    ensures Widened(a, c, floor)
  {
  }

  lemma ReopenedDisk(s: Surface, all: seq<Row>, known: map<TimeMs, seq<Row>>, s': Surface, all': seq<Row>)
    requires DiskOk(s, all, known) && MemoryOk(s, all) && SpanOk(s'.span, all')
    requires s'.windows == s.windows && s'.keyframes == s.keyframes && s'.meta == s.meta && s'.horizon == s.horizon
    requires Range(all', NEVER, Floor(s)) == Range(all, NEVER, Floor(s)) && Widened(s.meta.span, s'.span, Floor(s))
    requires SpanFrom(s'.span, s.meta.span, all')
    ensures DiskOk(s', all', known)
  {
    hide SpanFrom, DiskOk, OpenOk, IsLive, IsNewest, Range, Widened;
    forall r | r in all' && r.t < Floor(s)
      ensures r in Range(all, NEVER, Floor(s))
    {
      RangeHas(all', NEVER, Floor(s), r);
    }
    ReopenDisk(s, all, known, s', all');
  }

  lemma SameSurfaceMemory(s: Surface, s': Surface, all: seq<Row>)
    requires MemoryOk(s, all) && s' == s.(logs := s'.logs)
    ensures MemoryOk(s', all)
  {
    hide IsLive, IsNewest, WinOk, Range;
  }

  lemma NextKeyframe(s: Surface, all: seq<Row>, known: map<TimeMs, seq<Row>>, closing: map<TimeMs, seq<Row>>,
                     live: map<Id, Row>, done: TimeMs, h: TimeMs, upTo: TimeMs)
    requires Closing(s, all, known, closing, live, done, h) && h % HOUR == 0 && h > Floor(s) && done <= h <= upTo
    requires s.span.Some? && s.span.value.0 < h && NoneOpen(s.open, done, upTo)
    ensures Closing(s.(keyframes := s.keyframes[h := live]), all, known, closing, live, done, h + HOUR)
  {
    hide Ok, FilesOk, IsLive, NoneOpen;
    QuietBefore(s, all, known, done, h, upTo);
    ClosingKeyframe(s, all, known, closing, live, done, h);
  }

  lemma QuietBefore(s: Surface, all: seq<Row>, known: map<TimeMs, seq<Row>>, done: TimeMs, h: TimeMs, upTo: TimeMs)
    requires Ok(s, all, known) && Aligned(done) && Floor(s) <= done <= h <= upTo && h % HOUR == 0
             && NoneOpen(s.open, done, upTo)
    ensures Range(all, done, h) == []
  {
    hide LogsOk, DiskOk, NoOrphans, MemoryOk;
    HourAligned(h);
    QuietUntil(s, all, done, h);
  }

  lemma OpenLog(s: Surface, all: seq<Row>, ws: TimeMs)
    requires LogsOk(s, all) && MemoryOk(s, all) && ws in s.open
    ensures ws in s.logs && Aligned(ws) && ws >= Floor(s)
  {
    hide IsLive, IsNewest, IsEarliest;
  }

  lemma NextLater(all: seq<Row>, ws: TimeMs)
    ensures forall r <- InWindow(all, ws + WINDOW_LEN) :: r.t >= ws + WINDOW_LEN
  {
  }

  lemma NoRows(sorted: seq<Row>, arrivals: seq<Row>)
    requires Latest(sorted) == Latest(arrivals)
    ensures sorted == [] <==> arrivals == []
  {
    LatestKeys(sorted);
    LatestKeys(arrivals);
    if arrivals != [] { assert KeyOf(arrivals[0]) in Latest(arrivals); }
    if sorted != [] { assert KeyOf(sorted[0]) in Latest(sorted); }
  }

  lemma NoneYet(all: seq<Row>, from: TimeMs)
    ensures IsNewest(map[], Range(all, from, from))
  {
    RangeEmpty(all, from, from);
  }

  lemma IndexIs(s: Surface, all: seq<Row>, ws: TimeMs, idx: map<Id, Row>)
    requires MemoryOk(s, all) && ws in s.open
    requires if s.open[ws].spilled then idx == s.open[ws].last else IsNewest(idx, s.open[ws].rows)
    ensures IsNewest(idx, InWindow(all, ws))
  {
    hide IsLive, IsNewest, IsEarliest, Range;
    assert WinOk(s.open[ws], InWindow(all, ws));
  }

  /** m has the newest rows of the windows from `from` to `done`; `rest` are the open ones still to come. */
  ghost predicate Rebuilding(s: Surface, all: seq<Row>, from: TimeMs, done: TimeMs, rest: set<TimeMs>, m: map<Id,
                             Row>) {
    && Floor(s) <= from <= FOREVER && Aligned(done) && from <= done
    && rest == (set ws | ws in s.open && ws >= done) && IsNewest(m, Range(all, from, done))
  }

  lemma StartRebuild(s: Surface, all: seq<Row>, from: TimeMs, rest: set<TimeMs>)
    requires Floor(s) <= from <= FOREVER && Aligned(from) && rest == set ws | ws in s.open && ws >= from
    ensures Rebuilding(s, all, from, from, rest, map[])
  {
    NoneYet(all, from);
  }

  lemma RestOpen(s: Surface, all: seq<Row>, from: TimeMs, done: TimeMs, rest: set<TimeMs>, m: map<Id, Row>)
    requires Rebuilding(s, all, from, done, rest, m)
    ensures rest <= s.open.Keys
  {
  }

  lemma RebuildStep(s: Surface, all: seq<Row>, from: TimeMs, done: TimeMs, rest: set<TimeMs>, m: map<Id, Row>,
                    ws: TimeMs, idx: map<Id, Row>)
    requires MemoryOk(s, all) && Rebuilding(s, all, from, done, rest, m) && ws in rest && (forall x <- rest :: ws <= x)
    requires IsNewest(idx, InWindow(all, ws))
    ensures Rebuilding(s, all, from, ws + WINDOW_LEN, rest - {ws}, m + idx)
  {
    hide MemoryOk, IsNewest, Range;
    OpenAligned(s, all);
    LeastNone(s.open, done, ws, rest);
    QuietUntil(s, all, done, ws);
    MergeNewest(m, idx, all, from, done, ws);
    AfterLeast(s.open, done, ws, rest);
  }

  lemma EndRebuild(s: Surface, all: seq<Row>, from: TimeMs, done: TimeMs, m: map<Id, Row>)
    requires MemoryOk(s, all) && Rebuilding(s, all, from, done, {}, m)
    ensures IsNewest(m, Range(all, from, FOREVER))
  {
    hide MemoryOk, IsNewest, Range;
    var rest: set<TimeMs> := set ws | ws in s.open && ws >= done;
    assert forall w <- s.open :: w >= done ==> w in rest;
    RestEmpty(s, all, from, done, m);
  }

  /** A later window's newest rows replace the earlier ones. */
  lemma MergeNewest(m: map<Id, Row>, idx: map<Id, Row>, all: seq<Row>, from: TimeMs, done: TimeMs, ws: TimeMs)
    requires from <= done <= ws && Range(all, done, ws) == []
    requires IsNewest(m, Range(all, from, done)) && IsNewest(idx, InWindow(all, ws))
    ensures IsNewest(m + idx, Range(all, from, ws + WINDOW_LEN))
  {
    hide Range;
    forall id
      ensures Find(m + idx, id) == Newest(Range(all, from, ws + WINDOW_LEN), id)
    {
      assert Find(m, id) == Newest(Range(all, from, done), id);
      assert Find(idx, id) == Newest(InWindow(all, ws), id);
      NewestSplit(all, id, from, done, ws);
      NewestSplit(all, id, from, ws, ws + WINDOW_LEN);
    }
  }

  lemma AfterLeast(open: map<TimeMs, Win>, done: TimeMs, ws: TimeMs, rest: set<TimeMs>)
    requires rest == (set x | x in open && x >= done) && ws in rest && (forall x <- rest :: ws <= x)
             && forall x <- open :: x >= done ==> Aligned(x)
    requires Aligned(ws)
    ensures rest - {ws} == set x | x in open && x >= ws + WINDOW_LEN
  {
    forall x | x in open && x >= done && x != ws
      ensures x >= ws + WINDOW_LEN
    {
      assert x in rest;
      AlignedGap(ws + WINDOW_LEN, x);
    }
  }

  lemma RestEmpty(s: Surface, all: seq<Row>, from: TimeMs, done: TimeMs, m: map<Id, Row>)
    requires MemoryOk(s, all) && Floor(s) <= from <= done && from <= FOREVER && Aligned(done)
             && NoneOpen(s.open, done, FOREVER)
    requires IsNewest(m, Range(all, from, done))
    ensures IsNewest(m, Range(all, from, FOREVER))
  {
    hide IsLive, Range, OpenOk, Newest;
    if done <= FOREVER {
      ForeverAligned();
      QuietUntil(s, all, done, FOREVER);
    } else {
      RangeEmpty(all, FOREVER, done);
    }
    forall id
      ensures Find(m, id) == Newest(Range(all, from, FOREVER), id)
    {
      assert Find(m, id) == Newest(Range(all, from, done), id);
      if done <= FOREVER {
        NewestSplit(all, id, from, done, FOREVER);
        NoneNewest(id);
      } else {
        NewestSplit(all, id, from, FOREVER, done);
        NoneNewest(id);
      }
    }
  }

  lemma NoneNewest(id: Id)
    ensures Newest([], id) == None
  {
  }

  lemma ForeverAligned()
    ensures Aligned(FOREVER)
  {
  }

  lemma LeastNone(open: map<TimeMs, Win>, done: TimeMs, ws: TimeMs, rest: set<TimeMs>)
    requires rest == (set x | x in open && x >= done) && forall x <- rest :: ws <= x
    ensures NoneOpen(open, done, ws)
  {
    forall w | w in open && w >= done ensures w in rest {}
  }

  lemma OpenAligned(s: Surface, all: seq<Row>)
    requires MemoryOk(s, all)
    ensures forall x <- s.open :: Aligned(x) && x >= Floor(s)
  {
    hide IsLive, IsNewest, Range, WinOk;
  }

  lemma WidenedSelf(span: Option<(TimeMs, TimeMs)>, floor: TimeMs)
    ensures Widened(span, span, floor)
  {
  }

  lemma SpilledEmpty(s: Surface, all: seq<Row>, known: map<TimeMs, seq<Row>>, ws: TimeMs)
    requires Ok(s, all, known) && ws in s.open && s.open[ws].spilled
    ensures s.open[ws].rows == []
  {
    hide LogsOk, DiskOk, NoOrphans, IsLive, IsNewest, IsEarliest, SpanOk, Range;
    assert WinOk(s.open[ws], InWindow(all, ws));
  }

  lemma FreshOk(s: Surface)
    requires s == Surface(None, None, map[], map[], map[], false, map[], map[], map[], Meta(None, None))
    ensures Ok(s, [], map[])
  {
    NothingNewest();
    assert Range([], NEVER, FOREVER) == [] && Range([], NEVER, NEVER) == [];
    forall h ensures KeyframeOk(s.keyframes, s.span, [], h) {}
  }

  lemma RowsAfterFloor(s: Surface, batch: seq<Sample>)
    requires InTimeRange(batch)
    ensures forall r <- Accepted(s, batch) :: Stamped(r) && r.t >= Floor(s)
  {
    AcceptedStamped(s, batch);
  }

  lemma TakenDurable(s0: Surface, s: Surface, all: seq<Row>, rows: seq<Row>)
    requires Durable(s0.open, s0.logs, all) && MemoryOk(s0, all) && LogsOk(s0, all) && !s0.walErr && forall r <- rows ::
               Stamped(r) && r.t >= Floor(s0)
    requires s.open.Keys == Opened(s0.open, rows).Keys
             && s.logs == Logged(OpenedLogs(s0.open, s0.logs, rows), rows, true)
    ensures Durable(s.open, s.logs, all + rows)
  {
    hide MemoryOk, LogsOk, Range, Opened, Logged, OpenedLogs;
    LoggedDurable(s0, all, rows);
  }

  lemma TakenIn(s0: Surface, s: Surface, all: seq<Row>, rows: seq<Row>, known: map<TimeMs, seq<Row>>)
    requires DiskOk(s0, all, known) && NoOrphans(s0, all) && forall r <- rows :: r.t >= Floor(s0)
    requires s.windows == s0.windows && s.keyframes == s0.keyframes && s.meta == s0.meta && s.horizon == s0.horizon
    requires Widened(s0.span, s.span, Floor(s0)) && s.span == WidenAll(s0.span, rows)
    ensures DiskOk(s, all + rows, known) && NoOrphans(s, all + rows)
  {
    hide FilesOk, Range, SpanFrom, WidenAll;
    SpanFromAll(s0.span, s0.meta.span, all, rows);
    ClosedKeep(s0, all, known, rows, s.span);
    NoOrphansMore(s0, s, all, rows);
    SameDisk(s0.(span := s.span), s, all + rows, known);
  }

  lemma SameDisk(a: Surface, b: Surface, all: seq<Row>, known: map<TimeMs, seq<Row>>)
    requires DiskOk(a, all, known)
    requires a.span == b.span && a.windows == b.windows && a.keyframes == b.keyframes && a.meta == b.meta
             && a.horizon == b.horizon
    ensures DiskOk(b, all, known)
  {
    hide FilesOk;
  }

  lemma NotOpenIsEmpty(s: Surface, all: seq<Row>, ws: TimeMs)
    requires MemoryOk(s, all) && Aligned(ws) && ws >= Floor(s) && ws !in s.open
    ensures InWindow(all, ws) == []
  {
    hide LiveAt, IsNewest, IsEarliest, IsLive;
    forall r | r in all ensures !(ws <= r.t < ws + WINDOW_LEN) { WindowOfTime(ws, r.t); }
    RangeEmpty(all, ws, ws + WINDOW_LEN);
  }
}
