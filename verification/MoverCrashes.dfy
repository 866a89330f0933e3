/** Crashes while a batch is appended: every acknowledged row that was synced is read back, and nothing else but rows of
    the batch that failed; and runs of batches, commits and crashes. */
module MoverCrashes {
  import opened Common
  import opened MoverRows
  import opened MoverClose
  import opened MoverState
  import opened MoverRefused
  import opened MoverCommit
  import opened MoverTrail
  import opened MoverReopen
  import opened MoverStore
  import opened MoverRuns

  // --- what a reopened store has ---

  /** Per window nothing of `all` is missing. */
  ghost predicate NoneMissing(all: seq<Row>, all': seq<Row>) {
    forall ws :: Aligned(ws) ==> InWindow(all, ws) <= InWindow(all', ws)
  }

  /** Per window at most the first rows of `more` come after those of `all`. */
  ghost predicate NothingElse(all: seq<Row>, more: seq<Row>, all': seq<Row>) {
    forall ws :: Aligned(ws) ==> InWindow(all', ws) <= InWindow(all, ws) + InWindow(more, ws)
  }

  /** The synced rows of the open windows are not missing. */
  ghost predicate SyncedBack(open: map<TimeMs, Win>, logs: map<TimeMs, Log>, all: seq<Row>, all': seq<Row>) {
    forall ws <- open :: ws in logs
      && InWindow(all, ws)[..Min(logs[ws].synced, |InWindow(all, ws)|)] <= InWindow(all', ws)
  }

  /** What was read back of a window that is not closed lies between what was synced and what was written. */
  lemma Recovered(s0: Surface, all0: seq<Row>, known: map<TimeMs, seq<Row>>, refused: seq<Row>, kept: TimeMs -> nat,
                  s: Surface, all: seq<Row>)
    requires Recoverable(s0, all0, known) && Holds(s0.logs, all0, refused) && Possible(s0, kept)
    requires MemoryOk(s, all) && DiskOk(s, all, known) && ReopenedFrom(s0, kept, s, all)
    requires Range(all, NEVER, Floor(s)) == Range(all0, NEVER, Floor(s))
    ensures NothingElse(all0, refused, all) && SyncedBack(s0.open, s0.logs, all0, all)
    ensures Durable(s0.open, s0.logs, all0) ==> NoneMissing(all0, all)
  {
    hide MemoryOk, DiskOk, Range, LogFiles, Recoverable;
    SpanFacts(s, all, known);
    RecoverableSpan(s0, all0, known);
    forall ws | Aligned(ws)
      ensures InWindow(all, ws) <= InWindow(all0, ws) + InWindow(refused, ws)
      ensures ws in s0.open ==>
                ws in s0.logs
                && InWindow(all0, ws)[..Min(s0.logs[ws].synced, |InWindow(all0, ws)|)] <= InWindow(all, ws)
      ensures Durable(s0.open, s0.logs, all0) ==> InWindow(all0, ws) <= InWindow(all, ws)
    {
      OneRecovered(s0, all0, known, refused, kept, s, all, ws);
    }
    forall ws <- s0.open ensures Aligned(ws) { OpenIs(s0, all0, known, ws); }
  }

  lemma RecoverableSpan(s: Surface, all: seq<Row>, known: map<TimeMs, seq<Row>>)
    requires Recoverable(s, all, known)
    ensures (forall r <- all :: r.t > NEVER) && MemoryOk(s, all) && DiskOk(s, all, known)
  {
    hide OpenOk, IsLive, IsNewest, DiskOk;
  }

  lemma OpenIs(s: Surface, all: seq<Row>, known: map<TimeMs, seq<Row>>, ws: TimeMs)
    requires Recoverable(s, all, known) && ws in s.open
    ensures Aligned(ws) && ws >= Floor(s) && ws in s.logs
  {
    hide IsLive, IsNewest, DiskOk, WinOk;
  }

  lemma OneRecovered(s0: Surface, all0: seq<Row>, known: map<TimeMs, seq<Row>>, refused: seq<Row>, kept: TimeMs -> nat,
                     s: Surface, all: seq<Row>, ws: TimeMs)
    requires Recoverable(s0, all0, known) && Holds(s0.logs, all0, refused) && Possible(s0, kept) && MemoryOk(s0, all0)
    requires MemoryOk(s, all) && ReopenedFrom(s0, kept, s, all) && Aligned(ws)
    requires Range(all, NEVER, Floor(s)) == Range(all0, NEVER, Floor(s))
    requires (forall r <- all :: r.t > NEVER) && forall r <- all0 :: r.t > NEVER
    ensures InWindow(all, ws) <= InWindow(all0, ws) + InWindow(refused, ws)
    ensures ws in s0.open ==>
              ws in s0.logs
              && InWindow(all0, ws)[..Min(s0.logs[ws].synced, |InWindow(all0, ws)|)] <= InWindow(all, ws)
    ensures Durable(s0.open, s0.logs, all0) ==> InWindow(all0, ws) <= InWindow(all, ws)
  {
    hide MemoryOk, Range, Recoverable;
    if ws in s0.open { OpenIs(s0, all0, known, ws); }
    if ws + WINDOW_LEN <= Floor(s) {
      SameWindow(all0, all, ws, Floor(s));
    } else {
      if ws !in s0.open { ClosedOrEmpty(s0, all0, ws); }
      if ws !in s.open { ClosedOrEmpty(s, all, ws); }
    }
  }

  /** With everything that was accepted still there, no file is an orphan. */
  lemma NoOrphansAfter(s0: Surface, all0: seq<Row>, s: Surface, all: seq<Row>)
    requires NoOrphans(s0, all0) && NoneMissing(all0, all) && SpanOk(s0.span, all0) && SpanOk(s.span, all)
    requires SpanFrom(s0.span, s0.meta.span, all0) && SpanFrom(s.span, s.meta.span, all)
    requires s.windows == s0.windows && s.keyframes == s0.keyframes && s.horizon == s0.horizon && s.meta == s0.meta
    ensures NoOrphans(s, all)
  {
    hide Range;
    if s0.span.Some? && HasTime(all0, s0.span.value.0) {
      var r :| r in all0 && r.t == s0.span.value.0;
      var ws := WindowStart(r.t);
      RangeHas(all0, ws, ws + WINDOW_LEN, r);
      RangeHas(all, ws, ws + WINDOW_LEN, r);
      assert InWindow(all0, ws) <= InWindow(all, ws);
      assert r in InWindow(all, ws);
    }
  }

  /** What a crash leaves of a log that had `left` rows written through: the synced ones at least. */
  function Kept(logs: map<TimeMs, Log>, left: TimeMs -> nat): TimeMs -> nat {
    ws => if ws in logs && logs[ws].synced <= |logs[ws].file| then
            if left(ws) < logs[ws].synced then logs[ws].synced else Min(left(ws), |logs[ws].file|)
          else 0
  }

  lemma KeptPossible(s: Surface, all: seq<Row>, known: map<TimeMs, seq<Row>>, left: TimeMs -> nat)
    requires Recoverable(s, all, known)
    ensures Possible(s, Kept(s.logs, left))
  {
    hide MemoryOk, DiskOk, Range;
    forall ws <- s.logs ensures s.logs[ws].synced <= |s.logs[ws].file| { assert LogFile(s.logs[ws], ws); }
  }

  // --- a crash ---

  /** The files of a store that was stopped. */
  ghost predicate SameFiles(s: Surface, s': Surface) {
    s'.horizon == s.horizon && s'.windows == s.windows && s'.keyframes == s.keyframes && s'.meta == s.meta
  }

  /** Every accepted row has its log, and no file is without rows: what an append and a failed one leave. */
  ghost predicate Stoppable(p: MoverStore)
    reads p
  {
    Recoverable(p.S(), p.all, p.known) && NoOrphans(p.S(), p.all) && p.Held() && p.Synced()
  }

  /** A crash at any point, and the store is opened again: it has the arrivals that were synced and perhaps more of
      them, and behind them at most the first rows of the refused batch. With a sync per batch none is missing. */
  method Crash(p: MoverStore, left: TimeMs -> nat)
    requires Stoppable(p)
    modifies p
    ensures SameFiles(old(p.S()), p.S()) && p.known == old(p.known) && !p.walErr && p.refused == [] && p.Trailed()
    ensures NothingElse(old(p.all), old(p.refused), p.all)
    ensures SyncedBack(old(p.open), old(p.logs), old(p.all), p.all)
    ensures p.Valid() <==> old(NoneOrphaned(p.S(), Kept(p.logs, left)))
    ensures p.syncEvery ==> p.Valid() && NoneMissing(old(p.all), p.all) && Stoppable(p)
  {
    hide MemoryOk, LogsOk, DiskOk, NoOrphans, Recoverable, Durable, Holds, Range, NoneOrphaned, NothingElse, SyncedBack,
      NoneMissing, TrailOk, Kept;
    ghost var s0, all0 := p.S(), p.all;
    var kept := Kept(p.logs, left);
    KeptPossible(p.S(), p.all, p.known, left);
    p.Reopen(kept);
    Recovered(s0, all0, p.known, old(p.refused), kept, p.S(), p.all);
    if p.syncEvery {
      RecoverableSpan(s0, all0, p.known);
      SpanFacts(s0, all0, p.known);
      SpanFacts(p.S(), p.all, p.known);
      NoOrphansAfter(s0, all0, p.S(), p.all);
      OkRecoverable(p.S(), p.all, p.known);
    }
  }

  /** Appending a batch, whatever goes wrong with it, and a crash then or in the middle of it (some writes done, none
      synced). What is read back per window is a prefix of the acknowledged arrivals followed by the batch's rows, or by
      those of an earlier batch whose failure was sticky, with everything that had been synced. With a sync per batch it
      has every acknowledged row. */
  method CrashDuringAppend(p: MoverStore, batch: seq<Sample>, fate: LogFate, left: TimeMs -> nat)
    returns (ok: bool, ghost doubt: seq<Row>)
    requires p.Valid() && p.Synced() && InTimeRange(batch) && (fate.SyncFails? ==> p.syncEvery)
    requires fate.WriteFails? ==> StartsOf(fate.junk, Accepted(p.S(), batch))
    modifies p
    ensures ok <==> !old(p.walErr) && fate.Written?
    ensures doubt == if old(p.walErr) then old(p.refused)
                     else if fate.Written? || (fate.WriteFails? && fate.cut) then [] else Accepted(old(p.S()), batch)
    ensures SameFiles(old(p.S()), p.S()) && !p.walErr && p.Trailed()
    ensures var got := old(p.all) + if ok then Accepted(old(p.S()), batch) else [];
            NothingElse(got, doubt, p.all) && (p.syncEvery ==> p.Valid() && NoneMissing(got, p.all))
    ensures SyncedBack(old(p.open), old(p.logs), old(p.all), p.all)
  {
    hide Ok, NoOrphans, Recoverable, Durable, Holds, Range, NoneOrphaned, NothingElse, SyncedBack, NoneMissing, TrailOk,
      StaySynced, StartsOf, Logged, OpenedLogs, WidenAll, LateCount, Accepted;
    ghost var rows, open0, logs0, all0 := Accepted(p.S(), batch), p.open, p.logs, p.all;
    OpenInLogs(p.S(), p.all, p.known);
    var counts;
    ok, counts := p.Append(batch, fate);
    doubt := p.refused;
    ghost var open1, logs1, all1 := p.open, p.logs, p.all;
    assert all0 + [] == all0;
    Crash(p, left);
    SyncedOn(open0, logs0, all0, open1, logs1, all1, if ok then rows else [], p.all);
  }

  lemma OpenInLogs(s: Surface, all: seq<Row>, known: map<TimeMs, seq<Row>>)
    requires Ok(s, all, known)
    ensures forall ws <- s.open :: ws in s.logs
  {
    hide MemoryOk, DiskOk, NoOrphans, LogFiles, Range, LogOk;
  }

  lemma SyncedOn(open: map<TimeMs, Win>, logs: map<TimeMs, Log>, all: seq<Row>, open1: map<TimeMs, Win>,
                 logs1: map<TimeMs, Log>, all1: seq<Row>, rows: seq<Row>, all': seq<Row>)
    requires StaySynced(open, all, logs, logs1) && SyncedBack(open1, logs1, all1, all')
    requires all1 == all + rows && forall ws <- open :: ws in open1
    ensures SyncedBack(open, logs, all, all')
  {
    hide Range;
    forall ws <- open
      ensures InWindow(all, ws)[..Min(logs[ws].synced, |InWindow(all, ws)|)] <= InWindow(all', ws)
    {
      RangeAppend(all, rows, ws, ws + WINDOW_LEN);
      assert InWindow(all1, ws)[..Min(logs1[ws].synced, |InWindow(all1, ws)|)] <= InWindow(all', ws);
    }
  }

  // --- runs ---

  /** What goes wrong with a batch: nothing; a write fails after done(ws) rows reached each log, and the logs are cut
      back or cannot be; or the sync fails. */
  datatype Trouble = Nothing | Writes(done: TimeMs -> nat, cut: bool) | Syncs

  datatype Event =
    | Append(batch: seq<Sample>, trouble: Trouble)
    | Commit(target: TimeMs, ops: nat, readable: TimeMs -> bool, behind: set<TimeMs>)
    | Evict(ws: TimeMs)
    | Crash(left: TimeMs -> nat)

  function FirstOf(rows: seq<Row>, n: nat): seq<Row> { rows[..Min(n, |rows|)] }

  function FateOf(trouble: Trouble, rows: seq<Row>): LogFate {
    match trouble
    case Nothing => Written
    case Writes(done, cut) => WriteFails(ws => FirstOf(InWindow(rows, ws), done(ws)), cut)
    case Syncs => SyncFails
  }

  predicate Sized(e: Event) {
    match e
    case Append(batch, _) => InTimeRange(batch)
    case Commit(target, _, _, _) => -0x8000_0000_0000_0000 <= target < 0x8000_0000_0000_0000
    case _ => true
  }

  /** The store at one moment of a run. */
  datatype Moment = Moment(s: Surface, all: seq<Row>, refused: seq<Row>)

  /** The batch is in the logs, taken or in doubt. */
  predicate Reaches(m: Moment, trouble: Trouble) { !m.s.walErr && !(trouble.Writes? && trouble.cut) }

  /** What an event does: only an acknowledged batch adds arrivals, only a batch in doubt is ever read back without
      them, and a crash loses no arrival. */
  ghost predicate Happens(m: Moment, m': Moment, e: Event, ok: bool) {
    && (!m.s.walErr ==> m.refused == [])
    && match e
       case Append(batch, trouble) =>
         var rows := Accepted(m.s, batch);
         && (ok <==> !m.s.walErr && trouble.Nothing?) && SameFiles(m.s, m'.s)
         && m'.all == (if ok then m.all + rows else m.all)
         && m'.refused == (if Reaches(m, trouble) && !ok then rows else m.refused)
       case Commit(_, _, _, _) =>
         m'.all == m.all && m'.refused == m.refused && Floor(m'.s) >= Floor(m.s)
       case Evict(_) =>
         m'.all == m.all && m'.refused == m.refused && SameFiles(m.s, m'.s)
       case Crash(_) =>
         NothingElse(m.all, m.refused, m'.all) && NoneMissing(m.all, m'.all) && m'.refused == [] && SameFiles(m.s, m'.s)
  }

  /** a is b with some rows left out. */
  predicate Within(a: seq<Row>, b: seq<Row>)
    decreases |b|
  {
    a == [] || (b != [] && ((a[|a| - 1] == b[|b| - 1] && Within(a[..|a| - 1], b[..|b| - 1]))
                            || Within(a, b[..|b| - 1])))
  }

  lemma {:induction false} WithinSelf(a: seq<Row>)
    ensures Within(a, a)
  {
    if a != [] { WithinSelf(a[..|a| - 1]); }
  }

  lemma {:induction false} WithinMore(a: seq<Row>, b: seq<Row>, c: seq<Row>)
    requires Within(a, b)
    ensures Within(a, b + c)
  {
    if c == [] {
      assert b + c == b;
    } else {
      var n := |c| - 1;
      WithinMore(a, b, c[..n]);
      assert (b + c)[..|b + c| - 1] == b + c[..n];
    }
  }

  lemma {:induction false} WithinBoth(a: seq<Row>, b: seq<Row>, c: seq<Row>)
    requires Within(a, b)
    ensures Within(a + c, b + c)
  {
    if c == [] {
      assert b + c == b && a + c == a;
    } else {
      var n := |c| - 1;
      WithinBoth(a, b, c[..n]);
      assert (b + c)[..|b + c| - 1] == b + c[..n] && (a + c)[..|a + c| - 1] == a + c[..n];
    }
  }

  lemma {:induction false} WithinInit(a: seq<Row>, b: seq<Row>)
    requires Within(a, b) && a != []
    ensures Within(a[..|a| - 1], b)
    decreases |b|
  {
    var b', a' := b[..|b| - 1], a[..|a| - 1];
    if a[|a| - 1] == b[|b| - 1] && Within(a', b') {
      WithinMore(a', b', [b[|b| - 1]]);
      assert b' + [b[|b| - 1]] == b;
    } else {
      WithinInit(a, b');
    }
  }

  lemma {:induction false} WithinPrefix(p: seq<Row>, a: seq<Row>, b: seq<Row>)
    requires p <= a && Within(a, b)
    ensures Within(p, b)
    decreases |a|
  {
    if |p| == |a| {
      assert p == a;
    } else {
      WithinInit(a, b);
      WithinPrefix(p, a[..|a| - 1], b);
    }
  }

  /** The rows of the batches acknowledged by the first n events. */
  function Acknowledged(trace: seq<Moment>, events: seq<Event>, oks: seq<bool>, n: nat): seq<Row>
    requires n <= |events| == |oks| && n <= |trace|
  {
    if n == 0 then []
    else
      var rows, e := Acknowledged(trace, events, oks, n - 1), events[n - 1];
      if e.Append? && oks[n - 1] then rows + Accepted(trace[n - 1].s, e.batch) else rows
  }

  /** The rows of the batches that reached the logs, acknowledged or in doubt. */
  function Offered(trace: seq<Moment>, events: seq<Event>, n: nat): seq<Row>
    requires n <= |events| && n <= |trace|
  {
    if n == 0 then []
    else
      var rows, e := Offered(trace, events, n - 1), events[n - 1];
      if e.Append? && Reaches(trace[n - 1], e.trouble) then rows + Accepted(trace[n - 1].s, e.batch) else rows
  }

  ghost predicate IsRun(trace: seq<Moment>, events: seq<Event>, oks: seq<bool>) {
    && |trace| == |events| + 1 && |oks| == |events|
    && forall i :: 0 <= i < |events| ==> Happens(trace[i], trace[i + 1], events[i], oks[i])
  }

  /** Over any run, through crashes at any point: per window every row there was, and every acknowledged one since, is
      among the arrivals, in order; and every arrival is one of those or of a batch in doubt, in order. */
  lemma {:induction false} NothingLost(trace: seq<Moment>, events: seq<Event>, oks: seq<bool>, n: nat, ws: TimeMs)
    requires IsRun(trace, events, oks) && n <= |events| && Aligned(ws)
    ensures var all0 := InWindow(trace[0].all, ws);
            Within(all0 + InWindow(Acknowledged(trace, events, oks, n), ws), InWindow(trace[n].all, ws))
    ensures var was := InWindow(trace[0].all, ws) + InWindow(trace[0].refused, ws);
            Within(InWindow(trace[n].all, ws) + InWindow(trace[n].refused, ws),
                   was + InWindow(Offered(trace, events, n), ws))
  {
    hide Range, Within, Happens, SameFiles;
    var all0, was := InWindow(trace[0].all, ws), InWindow(trace[0].all, ws) + InWindow(trace[0].refused, ws);
    if n == 0 {
      RangeEmpty([], ws, ws + WINDOW_LEN);
      assert all0 + [] == all0 && was + [] == was;
      WithinSelf(all0);
      WithinSelf(was);
    } else {
      NothingLost(trace, events, oks, n - 1, ws);
      assert Happens(trace[n - 1], trace[n - 1 + 1], events[n - 1], oks[n - 1]);
      NextKeeps(trace[n - 1], trace[n], events[n - 1], oks[n - 1], ws, all0,
        Acknowledged(trace, events, oks, n - 1), was, Offered(trace, events, n - 1));
    }
  }

  lemma NextKeeps(m: Moment, m': Moment, e: Event, ok: bool, ws: TimeMs, all0: seq<Row>, acked: seq<Row>,
                  was: seq<Row>, offered: seq<Row>)
    requires Happens(m, m', e, ok) && Aligned(ws) && Within(all0 + InWindow(acked, ws), InWindow(m.all, ws))
    requires Within(InWindow(m.all, ws) + InWindow(m.refused, ws), was + InWindow(offered, ws))
    ensures var acked' := if e.Append? && ok then acked + Accepted(m.s, e.batch) else acked;
            Within(all0 + InWindow(acked', ws), InWindow(m'.all, ws))
    ensures var offered' := if e.Append? && Reaches(m, e.trouble) then offered + Accepted(m.s, e.batch) else offered;
            Within(InWindow(m'.all, ws) + InWindow(m'.refused, ws), was + InWindow(offered', ws))
  {
    hide Range, Within, Accepted, SameFiles;
    RangeEmpty([], ws, ws + WINDOW_LEN);
    match e {
      case Append(batch, trouble) =>
        if Reaches(m, trouble) { BatchKeeps(m, Accepted(m.s, batch), ws, all0, acked, was, offered); }
      case Crash(_) =>
        CrashKeeps(m, m'.all, ws, all0 + InWindow(acked, ws), was + InWindow(offered, ws));
      case _ =>
    }
  }

  lemma BatchKeeps(m: Moment, rows: seq<Row>, ws: TimeMs, all0: seq<Row>, acked: seq<Row>, was: seq<Row>,
                   offered: seq<Row>)
    requires m.refused == [] && Within(all0 + InWindow(acked, ws), InWindow(m.all, ws))
    requires Within(InWindow(m.all, ws) + InWindow(m.refused, ws), was + InWindow(offered, ws))
    ensures Within(all0 + InWindow(acked + rows, ws), InWindow(m.all + rows, ws))
    ensures InWindow([], ws) == []
            && Within(InWindow(m.all + rows, ws) + InWindow([], ws), was + InWindow(offered + rows, ws))
    ensures Within(InWindow(m.all, ws) + InWindow(rows, ws), was + InWindow(offered + rows, ws))
  {
    hide Range, Within;
    var a, o, r := InWindow(acked, ws), InWindow(offered, ws), InWindow(rows, ws);
    RangeEmpty([], ws, ws + WINDOW_LEN);
    RangeAppend(m.all, rows, ws, ws + WINDOW_LEN);
    RangeAppend(acked, rows, ws, ws + WINDOW_LEN);
    RangeAppend(offered, rows, ws, ws + WINDOW_LEN);
    WithinBoth(all0 + a, InWindow(m.all, ws), r);
    assert (all0 + a) + r == all0 + (a + r);
    assert InWindow(m.all, ws) + [] == InWindow(m.all, ws);
    WithinBoth(InWindow(m.all, ws), was + o, r);
    assert (was + o) + r == was + (o + r);
    assert (InWindow(m.all, ws) + r) + [] == InWindow(m.all, ws) + r;
  }

  lemma CrashKeeps(m: Moment, all': seq<Row>, ws: TimeMs, acked: seq<Row>, offered: seq<Row>)
    requires NothingElse(m.all, m.refused, all') && NoneMissing(m.all, all') && Aligned(ws)
    requires Within(acked, InWindow(m.all, ws)) && Within(InWindow(m.all, ws) + InWindow(m.refused, ws), offered)
    ensures Within(acked, InWindow(all', ws))
    ensures InWindow([], ws) == [] && Within(InWindow(all', ws) + InWindow([], ws), offered)
  {
    hide Range, Within;
    RangeEmpty([], ws, ws + WINDOW_LEN);
    var a, b := InWindow(m.all, ws), InWindow(all', ws);
    assert a <= b;
    WithinMore(acked, a, b[|a|..]);
    assert a + b[|a|..] == b && b + [] == b;
    WithinPrefix(b, a + InWindow(m.refused, ws), offered);
  }

  ghost function Now(p: MoverStore): Moment
    reads p
  {
    Moment(p.S(), p.all, p.refused)
  }

  /** The store is in order, or a batch in doubt left it only good for refusing more and being opened again. */
  ghost predicate Running(p: MoverStore, settled: bool)
    reads p
  {
    && p.syncEvery && Stoppable(p) && (settled ==> p.Valid()) && (!settled ==> p.walErr)
  }

  lemma ValidStops(p: MoverStore)
    requires p.Valid() && p.Synced()
    ensures Stoppable(p)
  {
    hide MemoryOk, LogsOk, DiskOk, NoOrphans, Recoverable, Durable, Holds;
    OkRecoverable(p.S(), p.all, p.known);
  }

  lemma FateOk(trouble: Trouble, rows: seq<Row>)
    ensures FateOf(trouble, rows).WriteFails? ==> StartsOf(FateOf(trouble, rows).junk, rows)
  {
    forall ws, n ensures FirstOf(InWindow(rows, ws), n) <= InWindow(rows, ws) {}
  }

  method AppendOne(p: MoverStore, batch: seq<Sample>, trouble: Trouble, settled: bool)
    returns (ok: bool, settled': bool)
    requires Running(p, settled) && InTimeRange(batch)
    modifies p
    ensures Running(p, settled') && Happens(old(Now(p)), Now(p), Event.Append(batch, trouble), ok)
  {
    hide Ok, NoOrphans, Recoverable, Durable, Holds, Accepted, StartsOf, StaySynced, Logged, OpenedLogs, WidenAll,
      LateCount, TrailOk;
    if !settled {
      return false, false;
    }
    var rows := Accepted(p.S(), batch);
    FateOk(trouble, rows);
    settled' := !(!p.walErr && trouble.Syncs?
                  && exists r <- rows :: WindowStart(r.t) in p.open && p.open[WindowStart(r.t)].spilled);
    var counts;
    ok, counts := p.Append(batch, FateOf(trouble, rows));
  }

  method CommitOne(p: MoverStore, target: TimeMs, ops: nat, readable: TimeMs -> bool, behind: set<TimeMs>)
    returns (ok: bool)
    requires Running(p, true) && -0x8000_0000_0000_0000 <= target < 0x8000_0000_0000_0000
    modifies p
    ensures Running(p, true) && Happens(old(Now(p)), Now(p), Event.Commit(target, ops, readable, behind), ok)
  {
    hide Ok, NoOrphans, Recoverable, Durable, Holds, SameBelow, Enough, Reached, KnownAt, Capped, TrailOk;
    ok := p.Commit(target, ops, readable, behind);
    HorizonAbove(p.S(), p.all, p.known);
    ValidStops(p);
  }

  lemma HorizonAbove(s: Surface, all: seq<Row>, known: map<TimeMs, seq<Row>>)
    requires Ok(s, all, known)
    ensures Floor(s) >= NEVER
  {
    hide LogsOk, DiskOk, NoOrphans, OpenOk, SpanOk, IsLive, IsNewest;
  }

  /** An unsettled store is not followed through a commit or an eviction. */
  lemma NotFollowed(p: MoverStore, e: Event)
    requires Stoppable(p) && (e.Commit? || e.Evict?)
    ensures Happens(Now(p), Now(p), e, false)
  {
    hide Holds, Recoverable, NoOrphans, Durable;
  }

  method EvictOne(p: MoverStore, ws: TimeMs) returns (ok: bool)
    requires Running(p, true)
    modifies p`open
    ensures Running(p, true) && Happens(old(Now(p)), Now(p), Evict(ws), ok)
  {
    hide Ok, NoOrphans, Recoverable, Durable, Holds;
    ok := !p.walErr && ws in p.open;
    if ok {
      p.Evict(ws);
      EvictedDurable(old(p.open), p.open, p.logs, p.all);
      ValidStops(p);
    }
  }

  lemma EvictedDurable(open: map<TimeMs, Win>, open': map<TimeMs, Win>, logs: map<TimeMs, Log>, all: seq<Row>)
    requires open'.Keys == open.Keys
    ensures Durable(open, logs, all) ==> Durable(open', logs, all)
  {
    hide Range;
  }

  /** Runs batches with any trouble, commits that stop anywhere, evictions and crashes on a store with a sync per
      batch. Only an unsettled store, after a sync that failed over an evicted window, is not followed through commits
      and evictions; it refuses every batch. */
  method Survive(p: MoverStore, events: seq<Event>) returns (oks: seq<bool>, ghost trace: seq<Moment>)
    requires p.syncEvery && p.Valid() && p.Synced() && forall e <- events :: Sized(e)
    modifies p
    ensures Stoppable(p) && IsRun(trace, events, oks) && trace[0] == old(Now(p)) && trace[|events|] == Now(p)
  {
    hide Stoppable, Happens, Ok;
    ValidStops(p);
    var settled := true;
    oks, trace := [], [Now(p)];
    for i := 0 to |events|
      invariant Running(p, settled) && |oks| == i && |trace| == i + 1 && trace[0] == old(Now(p)) && trace[i] == Now(p)
      invariant forall j :: 0 <= j < i ==> Happens(trace[j], trace[j + 1], events[j], oks[j])
    {
      var ok := false;
      assert Sized(events[i]);
      if !settled && (events[i].Commit? || events[i].Evict?) { NotFollowed(p, events[i]); }
      match events[i] {
        case Append(batch, trouble) =>
          ok, settled := AppendOne(p, batch, trouble, settled);
        case Commit(target, ops, readable, behind) =>
          if settled { ok := CommitOne(p, target, ops, readable, behind); }
        case Evict(ws) =>
          if settled { ok := EvictOne(p, ws); }
        case Crash(left) =>
          CrashOne(p, left, settled);
          settled := true;
      }
      oks, trace := oks + [ok], trace + [Now(p)];
    }
  }

  method CrashOne(p: MoverStore, left: TimeMs -> nat, settled: bool)
    requires Running(p, settled)
    modifies p
    ensures Running(p, true) && Happens(old(Now(p)), Now(p), Event.Crash(left), false)
  {
    hide Ok, NoOrphans, Recoverable, Durable, Holds, NothingElse, NoneMissing, SyncedBack, NoneOrphaned, TrailOk;
    Crash(p, left);
  }
}

