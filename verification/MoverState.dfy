/** One surface of the mover store: what its memory, its window logs and its files hold, told by the rows it
    accepted in arrival order. Whether a window is resident or evicted appears nowhere in what readers and
    commits get. */
module MoverState {
  import opened Common
  import opened MoverRows
  import opened MoverClose

  /** A window's log: the rows in the file, how many the store counts, how many are durable. */
  datatype Log = Log(file: seq<Row>, size: nat, synced: nat)

  /** An open window: its resident rows in arrival order, or once evicted only an index of them; how many rows there
      are and between which times. */
  datatype Win = Win(rows: seq<Row>, spilled: bool, n: nat, last: map<Id, Row>, first: map<Id, TimeMs>, tmin: TimeMs,
                     tmax: TimeMs)

  /** The surface's meta file: the committed horizon, and the time range of the rows seen by then. */
  datatype Meta = Meta(horizon: Option<TimeMs>, span: Option<(TimeMs, TimeMs)>)

  datatype Surface = Surface(
    span: Option<(TimeMs, TimeMs)>, horizon: Option<TimeMs>, open: map<TimeMs, Win>, live: map<Id, Row>,
        lastOpen: map<Id, Row>,
    walErr: bool, logs: map<TimeMs, Log>, windows: map<TimeMs, seq<Row>>, keyframes: map<TimeMs, map<Id, Row>>,
        meta: Meta)

  function WindowStart(t: TimeMs): (ws: TimeMs)
    ensures Aligned(ws) && ws <= t < ws + WINDOW_LEN
  {
    t - t % WINDOW_LEN
  }

  predicate Aligned(ws: TimeMs) { ws % WINDOW_LEN == 0 }

  function HourStart(t: TimeMs): (h: TimeMs)
    ensures h % HOUR == 0 && h <= t < h + HOUR
  {
    t - t % HOUR
  }

  /** Rows before it are closed. */
  function Floor(s: Surface): TimeMs { if s.horizon.Some? then s.horizon.value else NEVER }

  // --- what always holds ---

  /** Accepted rows have 64-bit times and no handoff flag. */
  predicate Stamped(r: Row) { -0x8000_0000_0000_0000 <= r.t < 0x8000_0000_0000_0000 && !r.handoff }

  /** The window's memory is that of its arrivals. */
  ghost predicate WinOk(w: Win, arrivals: seq<Row>) {
    w.n == |arrivals| && (forall r <- arrivals :: w.tmin <= r.t <= w.tmax)
    && if w.spilled then w.rows == [] && IsNewest(w.last, arrivals) && IsEarliest(w.first, arrivals)
        else w.rows == arrivals
  }

  /** The log starts with the arrivals, and unless a write could not be cut back holds nothing else. */
  predicate LogOk(log: Log, spilled: bool, arrivals: seq<Row>, walErr: bool) {
    && log.synced <= |log.file| && arrivals <= log.file
    && (spilled ==> log.size == |arrivals|) && (!walErr ==> log.size == |log.file| == |arrivals|)
  }

  ghost predicate SpanOk(span: Option<(TimeMs, TimeMs)>, all: seq<Row>) {
    && (span.Some? ==> -0x8000_0000_0000_0000 <= span.value.0 <= span.value.1)
    && (forall r <- all :: Stamped(r) && span.Some? && span.value.0 <= r.t <= span.value.1)
  }

  ghost predicate OpenOk(s: Surface, all: seq<Row>) {
    && (forall ws <- s.open :: Aligned(ws) && ws >= Floor(s) && WinOk(s.open[ws], InWindow(all, ws)))
    && (forall r <- all :: r.t >= Floor(s) ==> WindowStart(r.t) in s.open)
  }

  ghost predicate MemoryOk(s: Surface, all: seq<Row>) {
    && (s.horizon.Some? ==> Aligned(s.horizon.value) && NEVER < s.horizon.value <= FOREVER)
    && SpanOk(s.span, all) && OpenOk(s, all)
    && IsLive(s.live, all, Floor(s)) && IsNewest(s.lastOpen, Range(all, Floor(s), FOREVER))
  }

  ghost predicate LogsOk(s: Surface, all: seq<Row>) {
    && (forall ws <- s.open :: ws in s.logs && LogOk(s.logs[ws], s.open[ws].spilled, InWindow(all, ws), s.walErr))
    && (forall ws <- s.logs :: ws !in s.open ==> ws + WINDOW_LEN <= Floor(s) || s.walErr || s.logs[ws].file == [])
    && LogFiles(s.logs)
  }

  /** A log file holds rows of its own window. */
  ghost predicate LogFiles(logs: map<TimeMs, Log>) {
    forall ws <- logs :: Aligned(ws) && LogFile(logs[ws], ws)
  }

  predicate LogFile(log: Log, ws: TimeMs) {
    log.synced <= |log.file| && forall r <- log.file :: Stamped(r) && WindowStart(r.t) == ws
  }

  /** A closed window's file: per journey and time the last arrival, in order, each gone flagged exactly when a
      sample that is not a gone follows it among the window's rows or the next window's arrivals of that moment. */
  ghost predicate IsClosed(file: seq<Row>, arrivals: seq<Row>, next: seq<Row>) {
    exists d: seq<Row> :: Strict(d) && Latest(d) == Latest(arrivals) && file == Marked(d, next)
  }

  ghost predicate WindowOk(windows: map<TimeMs, seq<Row>>, all: seq<Row>, known: map<TimeMs, seq<Row>>, ws: TimeMs) {
    if InWindow(all, ws) == [] then ws !in windows
    else ws in windows && ws in known && IsClosed(windows[ws], InWindow(all, ws), known[ws])
  }

  ghost predicate KeyframeOk(keyframes: map<TimeMs, map<Id, Row>>, span: Option<(TimeMs, TimeMs)>, all: seq<Row>,
                             h: TimeMs) {
    && (h in keyframes <==> span.Some? && span.value.0 < h)
    && (h in keyframes ==> IsLive(keyframes[h], all, h))
  }

  /** The files of closed windows up to `to` and of the keyframes before `k` are right. */
  ghost predicate FilesOk(windows: map<TimeMs, seq<Row>>, keyframes: map<TimeMs, map<Id, Row>>,
                          span: Option<(TimeMs, TimeMs)>,
                          all: seq<Row>, known: map<TimeMs, seq<Row>>, to: TimeMs, k: TimeMs) {
    && (forall ws :: Aligned(ws) && ws + WINDOW_LEN <= to ==> WindowOk(windows, all, known, ws))
    && (forall h :: h % HOUR == 0 && h < k ==> KeyframeOk(keyframes, span, all, h))
  }

  /** A file left by a failed commit belongs to a window that still has rows, or to an hour after the first row:
      a later commit writes it again. */
  ghost predicate NoOrphans(s: Surface, all: seq<Row>) {
    && (forall ws <- s.windows :: Aligned(ws) && (ws + WINDOW_LEN > Floor(s) ==> InWindow(all, ws) != []))
    && (forall h <- s.keyframes :: h % HOUR == 0 && (h > Floor(s) ==> s.span.Some? && s.span.value.0 < h))
  }

  /** The meta file has the horizon, and the time range as far as the closed rows set it. */
  ghost predicate MetaOk(s: Surface, all: seq<Row>) {
    && s.meta.horizon == s.horizon && (s.horizon.None? ==> s.meta.span.None?)
    && (if s.meta.span.Some? then
          && s.span.Some? && s.span.value.0 <= s.meta.span.value.0 <= s.meta.span.value.1
          && (s.span.value.0 < Floor(s) ==> s.meta.span.value.0 == s.span.value.0)
          && (forall r <- all :: r.t < Floor(s) ==> s.meta.span.value.0 <= r.t <= s.meta.span.value.1)
        else (s.span.Some? ==> s.span.value.0 >= Floor(s)))
  }

  predicate HasTime(all: seq<Row>, t: TimeMs) { exists r <- all :: r.t == t }

  /** The time range is exactly that of the accepted rows and of the range the meta file has. */
  predicate SpanFrom(span: Option<(TimeMs, TimeMs)>, meta: Option<(TimeMs, TimeMs)>, all: seq<Row>) {
    && (span.Some? ==>
          && (HasTime(all, span.value.0) || (meta.Some? && meta.value.0 == span.value.0))
          && (HasTime(all, span.value.1) || (meta.Some? && meta.value.1 == span.value.1)))
    && (meta.Some? ==> span.Some? && span.value.0 <= meta.value.0 && meta.value.1 <= span.value.1)
  }

  ghost predicate DiskOk(s: Surface, all: seq<Row>, known: map<TimeMs, seq<Row>>) {
    && FilesOk(s.windows, s.keyframes, s.span, all, known, Floor(s), Floor(s) + 1) && MetaOk(s, all)
    && SpanFrom(s.span, s.meta.span, all)
  }

  ghost predicate Ok(s: Surface, all: seq<Row>, known: map<TimeMs, seq<Row>>) {
    MemoryOk(s, all) && LogsOk(s, all) && DiskOk(s, all, known) && NoOrphans(s, all)
  }

  // --- accepting rows ---

  function Widen(span: Option<(TimeMs, TimeMs)>, t: TimeMs): Option<(TimeMs, TimeMs)> {
    Some((if span.None? || t < span.value.0 then t else span.value.0, if span.None? || t > span.value.1 then t
        else span.value.1))
  }

  function WidenAll(span: Option<(TimeMs, TimeMs)>, rows: seq<Row>): Option<(TimeMs, TimeMs)> {
    if rows == [] then span else Widen(WidenAll(span, rows[..|rows| - 1]), rows[|rows| - 1].t)
  }

  lemma SpanFromMore(span: Option<(TimeMs, TimeMs)>, meta: Option<(TimeMs, TimeMs)>, all: seq<Row>, r: Row)
    requires SpanFrom(span, meta, all)
    ensures SpanFrom(Widen(span, r.t), meta, all + [r])
  {
    var span' := Widen(span, r.t);
    assert r in all + [r];
    forall t | HasTime(all, t) ensures HasTime(all + [r], t) {
      var x :| x in all && x.t == t;
      assert x in all + [r];
    }
  }

  lemma {:induction false} SpanFromAll(span: Option<(TimeMs, TimeMs)>, meta: Option<(TimeMs, TimeMs)>, all: seq<Row>,
                                       rows: seq<Row>)
    requires SpanFrom(span, meta, all)
    ensures SpanFrom(WidenAll(span, rows), meta, all + rows)
    decreases rows
  {
    hide SpanFrom, Widen;
    if rows == [] {
      assert all + rows == all;
    } else {
      var n := |rows| - 1;
      SpanFromAll(span, meta, all, rows[..n]);
      SpanFromMore(WidenAll(span, rows[..n]), meta, all + rows[..n], rows[n]);
      assert all + rows == (all + rows[..n]) + [rows[n]];
    }
  }

  function NewWin(): Win { Win([], false, 0, map[], map[], 0, 0) }

  /** The row joins its window: its resident rows, or only the index of an evicted one. */
  function AddRow(w: Win, r: Row): Win {
    var tmin := if w.n == 0 || r.t < w.tmin then r.t else w.tmin;
    var tmax := if w.n == 0 || r.t > w.tmax then r.t else w.tmax;
    if w.spilled then Win(w.rows, true, w.n + 1, Note(w.last, r), NoteFirst(w.first, r), tmin, tmax)
    else Win(w.rows + [r], false, w.n + 1, w.last, w.first, tmin, tmax)
  }

  lemma AddRowOk(w: Win, arrivals: seq<Row>, r: Row)
    requires WinOk(w, arrivals)
    ensures WinOk(AddRow(w, r), arrivals + [r])
  {
    hide IsNewest, IsEarliest;
    if w.spilled {
      NoteOk(w.last, arrivals, r);
      NoteFirstOk(w.first, arrivals, r);
    }
  }

  /** Memory after one more accepted row. */
  function WithRow(s: Surface, r: Row): Surface
    requires WindowStart(r.t) in s.open
  {
    var ws := WindowStart(r.t);
    s.(span := Widen(s.span, r.t), open := s.open[ws := AddRow(s.open[ws], r)], lastOpen := Note(s.lastOpen, r))
  }

  lemma InWindowSnoc(all: seq<Row>, r: Row, lo: TimeMs, hi: TimeMs)
    ensures Range(all + [r], lo, hi) == if lo <= r.t < hi then Range(all, lo, hi) + [r] else Range(all, lo, hi)
  {
    assert (all + [r])[..|all|] == all;
  }

  lemma WindowOfTime(ws: TimeMs, t: TimeMs)
    requires Aligned(ws)
    ensures ws <= t < ws + WINDOW_LEN <==> ws == WindowStart(t)
  {
  }

  lemma WithRowOpen(s: Surface, all: seq<Row>, r: Row)
    requires OpenOk(s, all) && WindowStart(r.t) in s.open
    ensures OpenOk(WithRow(s, r), all + [r])
  {
    hide WinOk, Range, AddRow;
    var s' := WithRow(s, r);
    forall ws <- s'.open
      ensures Aligned(ws) && ws >= Floor(s') && WinOk(s'.open[ws], InWindow(all + [r], ws))
    {
      WindowOfTime(ws, r.t);
      InWindowSnoc(all, r, ws, ws + WINDOW_LEN);
      if ws == WindowStart(r.t) { AddRowOk(s.open[ws], InWindow(all, ws), r); }
    }
  }

  /** Accepting a row at or after the horizon keeps memory right. */
  lemma WithRowOk(s: Surface, all: seq<Row>, r: Row)
    requires MemoryOk(s, all) && WindowStart(r.t) in s.open && Stamped(r) && r.t >= Floor(s)
    ensures MemoryOk(WithRow(s, r), all + [r])
  {
    hide IsLive, IsNewest, OpenOk, Range, AddRow, Note;
    WithRowOpen(s, all, r);
    InWindowSnoc(all, r, NEVER, Floor(s));
    LiveSame(s.live, all, all + [r], Floor(s));
    InWindowSnoc(all, r, Floor(s), FOREVER);
    NoteOk(s.lastOpen, Range(all, Floor(s), FOREVER), r);
  }

  lemma LiveSame(live: map<Id, Row>, all: seq<Row>, all': seq<Row>, h: TimeMs)
    requires IsLive(live, all, h) && Range(all, NEVER, h) == Range(all', NEVER, h)
    ensures IsLive(live, all', h)
  {
    forall id ensures Find(live, id) == LiveAt(all', h, id) { assert Find(live, id) == LiveAt(all, h, id); }
  }

  /** Rows at or after the horizon leave everything closed as it is. */
  lemma ClosedKeep(s: Surface, all: seq<Row>, known: map<TimeMs, seq<Row>>, more: seq<Row>,
                   span: Option<(TimeMs, TimeMs)>)
    requires DiskOk(s, all, known) && forall r <- more :: r.t >= Floor(s)
    requires span.Some? ==>
             (s.span.Some? && span.value.0 <= s.span.value.0
             && (span.value.0 == s.span.value.0 || span.value.0 >= Floor(s)))
                            || (s.span.None? && span.value.0 >= Floor(s))
    requires (s.span.Some? ==> span.Some?) && SpanFrom(span, s.meta.span, all + more)
    ensures DiskOk(s.(span := span), all + more, known)
  {
    hide IsClosed, Range, SpanFrom;
    forall ws | Aligned(ws) && ws + WINDOW_LEN <= Floor(s)
      ensures WindowOk(s.windows, all + more, known, ws)
    {
      assert WindowOk(s.windows, all, known, ws);
      RangeAppend(all, more, ws, ws + WINDOW_LEN);
      RangeEmpty(more, ws, ws + WINDOW_LEN);
      assert InWindow(all, ws) + [] == InWindow(all, ws);
    }
    forall h | h % HOUR == 0 && h < Floor(s) + 1
      ensures KeyframeOk(s.keyframes, span, all + more, h)
    {
      assert KeyframeOk(s.keyframes, s.span, all, h);
      RangeAppend(all, more, NEVER, h);
      RangeEmpty(more, NEVER, h);
      assert Range(all, NEVER, h) + [] == Range(all, NEVER, h);
      if h in s.keyframes { LiveSame(s.keyframes[h], all, all + more, h); }
    }
  }

  // --- a batch ---

  /** A sample as it reaches the store: its row, whether its surface, journey and kind are valid, and whether its
      time and coordinates are in range. */
  datatype Sample = Sample(row: Row, valid: bool, inRange: bool)

  predicate Late(s: Surface, smp: Sample) { smp.valid && s.horizon.Some? && smp.row.t < s.horizon.value }

  predicate Accepts(s: Surface, smp: Sample) { smp.valid && !Late(s, smp) && smp.inRange }

  /** The rows a batch adds, in order, without handoff flags. */
  function Accepted(s: Surface, batch: seq<Sample>): (rows: seq<Row>)
    ensures forall r <- rows :: r.t >= Floor(s) || s.horizon.None?
  {
    if batch == [] then []
    else
      var rows, smp := Accepted(s, batch[..|batch| - 1]), batch[|batch| - 1];
      if Accepts(s, smp) then rows + [smp.row.(handoff := false)] else rows
  }

  function LateCount(s: Surface, batch: seq<Sample>): nat {
    if batch == [] then 0 else LateCount(s, batch[..|batch| - 1]) + if Late(s, batch[|batch| - 1]) then 1 else 0
  }

  /** The samples of a batch that pass a test, in order. */
  function Those(batch: seq<Sample>, test: Sample -> bool): seq<Sample> {
    if batch == [] then []
    else Those(batch[..|batch| - 1], test) + if test(batch[|batch| - 1]) then [batch[|batch| - 1]] else []
  }

  /** Their rows, each field but the handoff flag as it came. */
  function Unmarked(smps: seq<Sample>): seq<Row> {
    seq(|smps|, i requires 0 <= i < |smps| =>
      Row(smps[i].row.id, smps[i].row.t, smps[i].row.gone, false, smps[i].row.meta, smps[i].row.data))
  }

  /** A valid sample in range that is not before the horizon is taken. */
  function Taken(horizon: Option<TimeMs>): Sample -> bool {
    (smp: Sample) => smp.valid && smp.inRange && (horizon.Some? ==> smp.row.t >= horizon.value)
  }

  /** A valid one before the horizon is too late. */
  function TooLate(horizon: Option<TimeMs>): Sample -> bool {
    (smp: Sample) => smp.valid && horizon.Some? && smp.row.t < horizon.value
  }

  lemma {:induction false} AcceptedAre(s: Surface, batch: seq<Sample>)
    ensures Accepted(s, batch) == Unmarked(Those(batch, Taken(s.horizon)))
    ensures LateCount(s, batch) == |Those(batch, TooLate(s.horizon))|
    decreases batch
  {
    if batch != [] {
      var init := batch[..|batch| - 1];
      AcceptedAre(s, init);
      assert Unmarked(Those(init, Taken(s.horizon)) + []) == Unmarked(Those(init, Taken(s.horizon)));
    }
  }

  /** Every row of a batch has a 64-bit time. */
  predicate InTimeRange(batch: seq<Sample>) { forall smp <- batch :: Stamped(smp.row.(handoff := false)) }

  lemma {:induction false} AcceptedStamped(s: Surface, batch: seq<Sample>)
    requires InTimeRange(batch)
    ensures forall r <- Accepted(s, batch) :: Stamped(r)
    decreases batch
  {
    if batch != [] {
      var init := batch[..|batch| - 1];
      forall smp | smp in init ensures smp in batch {}
      AcceptedStamped(s, init);
    }
  }

  /** What writing the window logs of a batch does: it succeeds; one write fails after some others, and the logs
      are cut back or cannot be; or everything is written but the final sync fails. */
  datatype LogFate = Written | WriteFails(junk: TimeMs -> seq<Row>, cut: bool) | SyncFails

  /** Of each window the first rows of a batch. */
  ghost predicate StartsOf(junk: TimeMs -> seq<Row>, rows: seq<Row>) { forall ws :: junk(ws) <= InWindow(rows, ws) }

  /** The logs with the rows of a batch behind what they hold. */
  function Logged(logs: map<TimeMs, Log>, rows: seq<Row>, sync: bool): map<TimeMs, Log> {
    map ws | ws in logs :: LogMore(logs[ws], InWindow(rows, ws), sync)
  }

  function LogMore(log: Log, rows: seq<Row>, sync: bool): Log {
    if rows == [] then log
    else
      var file := log.file[..Min(log.size, |log.file|)] + rows;
      Log(file, |file|, if sync then |file| else Min(log.synced, |file|))
  }

  /** The windows of the rows, opened where they are not. */
  function Opened(open: map<TimeMs, Win>, rows: seq<Row>): map<TimeMs, Win> {
    map ws | ws in open.Keys + (set r | r in rows :: WindowStart(r.t)) :: if ws in open then open[ws] else NewWin()
  }

  function OpenedLogs(open: map<TimeMs, Win>, logs: map<TimeMs, Log>, rows: seq<Row>): map<TimeMs, Log> {
    map ws | ws in logs.Keys + (set r | r in rows :: WindowStart(r.t)) ::
      if ws in logs && (ws in open || ws !in (set r | r in rows :: WindowStart(r.t))) then logs[ws] else Log([], 0, 0)
  }

  /** The surface with windows and empty logs for the rows about to come. */
  function Prepared(s: Surface, rows: seq<Row>): Surface {
    s.(open := Opened(s.open, rows), logs := OpenedLogs(s.open, s.logs, rows))
  }

  lemma PreparedOk(s: Surface, all: seq<Row>, rows: seq<Row>)
    requires MemoryOk(s, all) && LogsOk(s, all) && !s.walErr && forall r <- rows :: Stamped(r) && r.t >= Floor(s)
    ensures MemoryOk(Prepared(s, rows), all) && LogsOk(Prepared(s, rows), all)
    ensures forall r <- rows :: WindowStart(r.t) in Prepared(s, rows).open
  {
    hide IsLive, IsNewest, Range, SpanOk, LogsOk, WinOk, NewWin;
    forall ws <- Prepared(s, rows).open | ws !in s.open
      ensures Aligned(ws) && ws >= Floor(s) && InWindow(all, ws) == [] && WinOk(NewWin(), [])
    {
      NewWindow(s, all, rows, ws);
    }
    PreparedLogs(s, all, rows);
  }

  lemma PreparedLogs(s: Surface, all: seq<Row>, rows: seq<Row>)
    requires MemoryOk(s, all) && LogsOk(s, all) && !s.walErr && forall r <- rows :: Stamped(r) && r.t >= Floor(s)
    ensures LogsOk(Prepared(s, rows), all)
  {
    hide MemoryOk, Range, LogFile;
    var s' := Prepared(s, rows);
    assert LogFiles(s'.logs) by { PreparedFiles(s, rows); }
    forall ws <- s'.open | ws !in s.open
      ensures InWindow(all, ws) == []
    {
      NewWindow(s, all, rows, ws);
    }
  }

  lemma PreparedFiles(s: Surface, rows: seq<Row>)
    requires LogFiles(s.logs)
    ensures LogFiles(Prepared(s, rows).logs)
  {
  }

  lemma NewWindow(s: Surface, all: seq<Row>, rows: seq<Row>, ws: TimeMs)
    requires MemoryOk(s, all) && (forall r <- rows :: Stamped(r) && r.t >= Floor(s)) && ws in Opened(s.open, rows)
             && ws !in s.open
    ensures Aligned(ws) && ws >= Floor(s) && InWindow(all, ws) == [] && WinOk(NewWin(), [])
  {
    hide IsLive, IsNewest;
    var r :| r in rows && ws == WindowStart(r.t);
    FloorAligned(s, ws, r.t);
    forall x | x in all ensures !(ws <= x.t < ws + WINDOW_LEN) {
      WindowOfTime(ws, x.t);
    }
    RangeEmpty(all, ws, ws + WINDOW_LEN);
    NothingNewest();
  }

  lemma FloorAligned(s: Surface, ws: TimeMs, t: TimeMs)
    requires (s.horizon.Some? ==> Aligned(s.horizon.value)) && Aligned(ws) && ws <= t < ws + WINDOW_LEN && t >= Floor(s)
    requires t >= -0x8000_0000_0000_0000
    ensures ws >= Floor(s)
  {
  }

  /** The new time range comes from rows at or after `floor`. */
  predicate Widened(span: Option<(TimeMs, TimeMs)>, span': Option<(TimeMs, TimeMs)>, floor: TimeMs) {
    && (span.Some? ==> span'.Some?)
    && (span'.Some? ==>
          if span.Some? then span'.value.0 == span.value.0 || floor <= span'.value.0 <= span.value.0
              else span'.value.0 >= floor)
  }

  lemma WidenedOn(span: Option<(TimeMs, TimeMs)>, span': Option<(TimeMs, TimeMs)>, floor: TimeMs, t: TimeMs)
    requires Widened(span, span', floor) && t >= floor
    ensures Widened(span, Widen(span', t), floor)
  {
  }

  lemma LogMoreOk(log: Log, spilled: bool, arrivals: seq<Row>, rows: seq<Row>, sync: bool)
    requires LogOk(log, spilled, arrivals, false)
    ensures LogOk(LogMore(log, rows, sync), spilled, arrivals + rows, false)
  {
    assert arrivals + [] == arrivals;
    assert log.file[..|log.file|] == log.file == arrivals;
  }

  /** Writing a batch to the logs keeps them in step with the arrivals. */
  lemma LoggedOk(s: Surface, all: seq<Row>, rows: seq<Row>, sync: bool)
    requires LogsOk(s, all) && !s.walErr && forall r <- rows :: Stamped(r) && WindowStart(r.t) in s.open
    ensures LogsOk(s.(logs := Logged(s.logs, rows, sync)), all + rows)
  {
    hide LogOk, LogMore, Range, LogFiles;
    LoggedFiles(s.logs, rows, sync);
    forall ws <- s.open
      ensures LogOk(LogMore(s.logs[ws], InWindow(rows, ws), sync), s.open[ws].spilled, InWindow(all + rows, ws), false)
    {
      RangeAppend(all, rows, ws, ws + WINDOW_LEN);
      LogMoreOk(s.logs[ws], s.open[ws].spilled, InWindow(all, ws), InWindow(rows, ws), sync);
    }
    forall ws <- s.logs | ws !in s.open
      ensures LogMore(s.logs[ws], InWindow(rows, ws), sync) == s.logs[ws]
    {
      LogAligned(s.logs, ws);
      forall r | r in rows ensures !(ws <= r.t < ws + WINDOW_LEN) { WindowOfTime(ws, r.t); }
      RangeEmpty(rows, ws, ws + WINDOW_LEN);
      LogMoreNothing(s.logs[ws], sync);
    }
  }

  lemma LogAligned(logs: map<TimeMs, Log>, ws: TimeMs)
    requires LogFiles(logs) && ws in logs
    ensures Aligned(ws)
  {
  }

  lemma LoggedFiles(logs: map<TimeMs, Log>, rows: seq<Row>, sync: bool)
    requires LogFiles(logs) && forall r <- rows :: Stamped(r)
    ensures LogFiles(Logged(logs, rows, sync))
  {
    hide Range;
    forall ws <- logs
      ensures LogFile(LogMore(logs[ws], InWindow(rows, ws), sync), ws)
    {
      assert LogFile(logs[ws], ws);
      forall r | r in InWindow(rows, ws) ensures WindowStart(r.t) == ws { WindowOfTime(ws, r.t); }
    }
  }

  lemma LogMoreNothing(log: Log, sync: bool)
    ensures LogMore(log, [], sync) == log
  {
  }

  /** The logs only need to know which windows are open and evicted. */
  lemma LogsOkSame(s: Surface, s': Surface, all: seq<Row>)
    requires LogsOk(s, all) && s'.logs == s.logs && s'.walErr == s.walErr && s'.horizon == s.horizon
    requires s'.open.Keys == s.open.Keys && forall ws <- s.open :: s'.open[ws].spilled == s.open[ws].spilled
    ensures LogsOk(s', all)
  {
    hide LogOk, Range;
  }

  lemma NoOrphansMore(s: Surface, s': Surface, all: seq<Row>, more: seq<Row>)
    requires NoOrphans(s, all) && s'.windows == s.windows && s'.keyframes == s.keyframes && s'.horizon == s.horizon
    requires s.span.Some? ==> s'.span.Some? && s'.span.value.0 <= s.span.value.0
    ensures NoOrphans(s', all + more)
  {
    hide Range;
    forall ws <- s.windows ensures InWindow(all, ws) != [] ==> InWindow(all + more, ws) != [] {
      RangeAppend(all, more, ws, ws + WINDOW_LEN);
    }
  }

  /** The logs after a batch that failed: cut back, or holding some of its rows behind the store's count. */
  function CutBack(s: Surface, rows: seq<Row>, junk: TimeMs -> seq<Row>, cut: bool): map<TimeMs, Log> {
    map ws | ws in OpenedLogs(s.open, s.logs, rows) :: Junked(OpenedLogs(s.open, s.logs, rows)[ws], junk(ws), cut)
  }

  function Junked(log: Log, junk: seq<Row>, cut: bool): Log {
    if cut then log
    else Log(log.file[..Min(log.size, |log.file|)] + junk, log.size, Min(log.synced, Min(log.size, |log.file|)))
  }

  /** The surface after a batch whose writes failed. */
  function AfterWriteFails(s: Surface, rows: seq<Row>, junk: TimeMs -> seq<Row>, cut: bool): Surface {
    s.(logs := CutBack(s, rows, junk, cut), walErr := !cut)
  }

  /** The surface after a batch whose rows were written but not synced: the logs keep them. */
  function AfterSyncFails(s: Surface, rows: seq<Row>): Surface {
    s.(logs := Logged(OpenedLogs(s.open, s.logs, rows), rows, false), walErr := true)
  }

  lemma WriteFailsOk(s: Surface, all: seq<Row>, known: map<TimeMs, seq<Row>>, rows: seq<Row>, junk: TimeMs -> seq<Row>,
                     cut: bool)
    requires Ok(s, all, known) && !s.walErr && forall r <- rows :: Stamped(r) && r.t >= Floor(s)
    requires forall ws :: junk(ws) <= InWindow(rows, ws)
    ensures Ok(AfterWriteFails(s, rows, junk, cut), all, known)
  {
    hide MemoryOk, NoOrphans, DiskOk;
    SameMemory(s, AfterWriteFails(s, rows, junk, cut), all, known);
    WriteFailsLogs(s, all, rows, junk, cut);
  }

  /** What the logs hold is no business of memory or of the other files. */
  lemma SameMemory(s: Surface, s': Surface, all: seq<Row>, known: map<TimeMs, seq<Row>>)
    requires s' == s.(logs := s'.logs, walErr := s'.walErr)
    ensures MemoryOk(s, all) <==> MemoryOk(s', all)
    ensures DiskOk(s, all, known) <==> DiskOk(s', all, known)
    ensures NoOrphans(s, all) <==> NoOrphans(s', all)
  {
    hide IsLive, IsNewest, Range, WinOk, FilesOk;
  }

  lemma WriteFailsLogs(s: Surface, all: seq<Row>, rows: seq<Row>, junk: TimeMs -> seq<Row>, cut: bool)
    requires LogsOk(s, all) && !s.walErr && (forall r <- rows :: Stamped(r)) && forall ws ::
               junk(ws) <= InWindow(rows, ws)
    ensures LogsOk(AfterWriteFails(s, rows, junk, cut), all)
  {
    hide Range, LogFiles, LogOk, Junked, Aligned, OpenedLogs;
    OpenedLogsAre(s.open, s.logs, rows);
    PreparedFiles(s, rows);
    JunkedFiles(OpenedLogs(s.open, s.logs, rows), rows, junk, cut);
    forall ws <- s.open
      ensures LogOk(Junked(s.logs[ws], junk(ws), cut), s.open[ws].spilled, InWindow(all, ws), !cut)
    {
      JunkedOk(s.logs[ws], s.open[ws].spilled, InWindow(all, ws), junk(ws), cut);
    }
    forall ws <- OpenedLogs(s.open, s.logs, rows)
      ensures cut ==>
                Junked(OpenedLogs(s.open, s.logs, rows)[ws], junk(ws), cut)
                == OpenedLogs(s.open, s.logs, rows)[ws]
    {
      CutIsSame(OpenedLogs(s.open, s.logs, rows)[ws], junk(ws));
    }
  }

  lemma OpenedLogsAre(open: map<TimeMs, Win>, logs: map<TimeMs, Log>, rows: seq<Row>)
    ensures var logs' := OpenedLogs(open, logs, rows);
            && (forall ws <- logs :: ws in logs' && (ws in open ==> logs'[ws] == logs[ws]))
            && (forall ws <- logs' :: logs'[ws] == Log([], 0, 0) || (ws in logs && logs'[ws] == logs[ws]))
  {
  }

  lemma CutIsSame(log: Log, junk: seq<Row>)
    ensures Junked(log, junk, true) == log
  {
  }

  lemma JunkedOk(log: Log, spilled: bool, arrivals: seq<Row>, junk: seq<Row>, cut: bool)
    requires LogOk(log, spilled, arrivals, false)
    ensures LogOk(Junked(log, junk, cut), spilled, arrivals, !cut)
  {
  }

  lemma JunkedFiles(logs: map<TimeMs, Log>, rows: seq<Row>, junk: TimeMs -> seq<Row>, cut: bool)
    requires LogFiles(logs) && (forall r <- rows :: Stamped(r)) && forall ws :: junk(ws) <= InWindow(rows, ws)
    ensures LogFiles(map ws | ws in logs :: Junked(logs[ws], junk(ws), cut))
  {
    hide Range;
    forall ws <- logs
      ensures LogFile(Junked(logs[ws], junk(ws), cut), ws)
    {
      assert LogFile(logs[ws], ws);
      forall r | r in junk(ws) ensures Stamped(r) && WindowStart(r.t) == ws {
        assert r in InWindow(rows, ws);
        WindowOfTime(ws, r.t);
      }
    }
  }

  /** A batch whose sync failed leaves the store in order exactly when none of its windows was evicted: an
      evicted window is read back from its log, and the log keeps the refused rows. */
  lemma SyncFailsOk(s: Surface, all: seq<Row>, known: map<TimeMs, seq<Row>>, rows: seq<Row>)
    requires Ok(s, all, known) && !s.walErr && forall r <- rows :: Stamped(r) && r.t >= Floor(s)
    ensures Ok(AfterSyncFails(s, rows), all, known) <==>
            forall r <- rows :: !(WindowStart(r.t) in s.open && s.open[WindowStart(r.t)].spilled)
  {
    hide MemoryOk, NoOrphans, DiskOk, LogMore, LogFiles;
    var s' := AfterSyncFails(s, rows);
    PreparedFiles(s, rows);
    LoggedFiles(OpenedLogs(s.open, s.logs, rows), rows, false);
    SameMemory(s, s', all, known);
    forall ws <- s.open
      ensures LogOk(s'.logs[ws], s.open[ws].spilled, InWindow(all, ws), true)
              <==> !(s.open[ws].spilled && InWindow(rows, ws) != [])
    {
      SyncFailsLog(s.logs[ws], s.open[ws].spilled, InWindow(all, ws), InWindow(rows, ws));
    }
    forall r <- rows
      ensures InWindow(rows, WindowStart(r.t)) != []
    {
      RangeHas(rows, WindowStart(r.t), WindowStart(r.t) + WINDOW_LEN, r);
    }
    forall ws | InWindow(rows, ws) != [] && Aligned(ws)
      ensures exists r <- rows :: WindowStart(r.t) == ws
    {
      var r := InWindow(rows, ws)[0];
      WindowOfTime(ws, r.t);
    }
  }

  lemma SyncFailsLog(log: Log, spilled: bool, arrivals: seq<Row>, rows: seq<Row>)
    requires LogOk(log, spilled, arrivals, false)
    ensures LogOk(LogMore(log, rows, false), spilled, arrivals, true) <==> !(spilled && rows != [])
  {
  }

  function Evicted(w: Win, last: map<Id, Row>, first: map<Id, TimeMs>): Win {
    w.(rows := [], spilled := true, last := last, first := first)
  }

  /** Evicting a window changes its memory, not what it stands for. */
  lemma EvictOk(s: Surface, all: seq<Row>, known: map<TimeMs, seq<Row>>, ws: TimeMs, last: map<Id, Row>, first: map<Id,
                TimeMs>)
    requires Ok(s, all, known) && !s.walErr && ws in s.open && !s.open[ws].spilled
    requires IsNewest(last, s.open[ws].rows) && IsEarliest(first, s.open[ws].rows)
    ensures Ok(s.(open := s.open[ws := Evicted(s.open[ws], last, first)]), all, known)
  {
    hide IsNewest, IsEarliest, IsLive, SpanOk, FilesOk, Range;
    var s' := s.(open := s.open[ws := Evicted(s.open[ws], last, first)]);
    assert WinOk(s.open[ws], InWindow(all, ws));
    assert LogOk(s.logs[ws], false, InWindow(all, ws), false);
    EvictedOpen(s, s', all, ws);
    EvictedLogs(s, s', all, ws);
  }

  lemma EvictedOpen(s: Surface, s': Surface, all: seq<Row>, ws: TimeMs)
    requires OpenOk(s, all) && ws in s.open && ws in s'.open && s' == s.(open := s.open[ws := s'.open[ws]])
    requires WinOk(s'.open[ws], InWindow(all, ws))
    ensures OpenOk(s', all)
  {
    hide WinOk, Range;
  }

  lemma EvictedLogs(s: Surface, s': Surface, all: seq<Row>, ws: TimeMs)
    requires LogsOk(s, all) && !s.walErr && ws in s.open && ws in s'.open && s' == s.(open := s.open[ws := s'.open[ws]])
    ensures LogsOk(s', all)
  {
    hide Range;
  }

  // --- durability ---

  /** Every accepted row of an open window is in the synced part of its log. */
  ghost predicate Durable(open: map<TimeMs, Win>, logs: map<TimeMs, Log>, all: seq<Row>) {
    forall ws <- open :: ws in logs && |InWindow(all, ws)| <= logs[ws].synced
  }

  /** A batch written and synced. */
  lemma LoggedDurable(s: Surface, all: seq<Row>, rows: seq<Row>)
    requires Durable(s.open, s.logs, all) && MemoryOk(s, all) && LogsOk(s, all) && !s.walErr && forall r <- rows ::
               Stamped(r) && r.t >= Floor(s)
    ensures var logs := Logged(OpenedLogs(s.open, s.logs, rows), rows, true);
            forall ws <- Opened(s.open, rows) :: ws in logs && |InWindow(all + rows, ws)| <= logs[ws].synced
  {
    hide Range, LogFiles, MemoryOk;
    forall ws <- Opened(s.open, rows)
      ensures |InWindow(all + rows, ws)| <= LogMore(OpenedLogs(s.open, s.logs, rows)[ws], InWindow(rows, ws),
                true).synced
    {
      RangeAppend(all, rows, ws, ws + WINDOW_LEN);
      if ws !in s.open { NewWindow(s, all, rows, ws); }
    }
  }

  /** The logs after a sync of those that do not fail. */
  function SyncedLogs(logs: map<TimeMs, Log>, fails: TimeMs -> bool): map<TimeMs, Log> {
    map ws | ws in logs :: if fails(ws) then logs[ws] else logs[ws].(synced := |logs[ws].file|)
  }

  /** A sync between batches keeps the store in order, also when it fails: the failure is sticky, and what the logs
      hold stays. */
  lemma SyncedOk(s: Surface, all: seq<Row>, known: map<TimeMs, seq<Row>>, fails: TimeMs -> bool, walErr: bool)
    requires Ok(s, all, known) && (s.walErr ==> walErr)
    ensures Ok(s.(logs := SyncedLogs(s.logs, fails), walErr := walErr), all, known)
    ensures (forall ws <- s.logs :: !fails(ws)) ==> Durable(s.open, SyncedLogs(s.logs, fails), all)
    ensures Durable(s.open, s.logs, all) ==> Durable(s.open, SyncedLogs(s.logs, fails), all)
  {
    hide MemoryOk, DiskOk, NoOrphans, Range;
    SameMemory(s, s.(logs := SyncedLogs(s.logs, fails), walErr := walErr), all, known);
  }

  lemma FailedDurable(s: Surface, all: seq<Row>, rows: seq<Row>, junk: TimeMs -> seq<Row>, cut: bool)
    requires LogsOk(s, all) && !s.walErr
    ensures Durable(s.open, s.logs, all) ==>
            Durable(s.open, AfterWriteFails(s, rows, junk, cut).logs, all)
            && Durable(s.open, AfterSyncFails(s, rows).logs, all)
  {
    hide Range, LogFiles, OpenedLogs;
    OpenedLogsAre(s.open, s.logs, rows);
  }
}
