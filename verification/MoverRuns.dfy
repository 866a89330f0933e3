/** Whole runs of the mover store: two stores given the same batches and commits tell the same whatever windows
    each evicts and when; what a crash keeps; and the file a lost row leaves behind. */
module MoverRuns {
  import opened Common
  import opened MoverRows
  import opened MoverClose
  import opened MoverState
  import opened MoverRefused
  import opened MoverCommit
  import opened MoverTrail
  import opened MoverPayload
  import opened MoverReopen
  import opened MoverStore
  import opened MoverLive

  // --- the files are determined ---

  /** Strictly ordered rows are determined by their last arrivals. */
  lemma {:induction false} StrictUnique(a: seq<Row>, b: seq<Row>)
    requires Strict(a) && Strict(b) && Latest(a) == Latest(b)
    ensures a == b
    decreases |a|
  {
    LatestKeys(a);
    LatestKeys(b);
    if a == [] || b == [] {
      NoRows(a, b);
      assert Latest([]) == map[];
    } else {
      LastIsGreatest(a, b);
      var n, m := |a| - 1, |b| - 1;
      LatestInit(a);
      LatestInit(b);
      StrictUnique(a[..n], b[..m]);
      assert a == a[..n] + [a[n]] && b == b[..m] + [b[m]];
    }
  }

  /** In strictly ordered rows the last key is new. */
  lemma LastKeyNew(a: seq<Row>)
    requires Strict(a) && a != []
    ensures KeyOf(a[|a| - 1]) !in Latest(a[..|a| - 1])
  {
    hide Latest;
    var n := |a| - 1;
    LatestKeys(a[..n]);
    forall k | k in Latest(a[..n]) ensures k != KeyOf(a[n]) {
      var i :| 0 <= i < n && a[..n][i] == Latest(a[..n])[k];
      assert Before(a[i], a[n]);
    }
  }

  lemma LatestInit(a: seq<Row>)
    requires Strict(a) && a != []
    ensures Latest(a[..|a| - 1]) == Latest(a) - {KeyOf(a[|a| - 1])}
  {
    hide Strict, Before;
    LastKeyNew(a);
  }

  lemma LastIsGreatest(a: seq<Row>, b: seq<Row>)
    requires Strict(a) && Strict(b) && Latest(a) == Latest(b) && a != [] && b != []
    ensures a[|a| - 1] == b[|b| - 1]
  {
    var n, m := |a| - 1, |b| - 1;
    assert forall x :: 0 <= x < n ==> Before(a[x], a[n]);
    assert forall x :: 0 <= x < m ==> Before(b[x], b[m]);
    StrictLatest(a, n);
    StrictLatest(b, m);
    LatestKeys(a);
    LatestKeys(b);
    assert Latest(b)[KeyOf(a[n])] in b && Latest(a)[KeyOf(b[m])] in a;
    var j :| 0 <= j < |b| && b[j] == a[n];
    var i :| 0 <= i < |a| && a[i] == b[m];
  }

  lemma ClosedUnique(f: seq<Row>, g: seq<Row>, arrivals: seq<Row>, next: seq<Row>)
    requires IsClosed(f, arrivals, next) && IsClosed(g, arrivals, next)
    ensures f == g
  {
    hide Latest, Strict;
    var d :| Strict(d) && Latest(d) == Latest(arrivals) && f == Marked(d, next);
    var e :| Strict(e) && Latest(e) == Latest(arrivals) && g == Marked(e, next);
    StrictUnique(d, e);
  }

  lemma LiveUnique(a: map<Id, Row>, b: map<Id, Row>, all: seq<Row>, h: TimeMs)
    requires IsLive(a, all, h) && IsLive(b, all, h)
    ensures a == b
  {
    forall id ensures (id in a <==> id in b) && (id in a ==> a[id] == b[id]) {
      assert Find(a, id) == LiveAt(all, h, id) == Find(b, id);
    }
  }

  lemma NewestUnique(a: map<Id, Row>, b: map<Id, Row>, rows: seq<Row>)
    requires IsNewest(a, rows) && IsNewest(b, rows)
    ensures a == b
  {
    forall id ensures (id in a <==> id in b) && (id in a ==> a[id] == b[id]) {
      assert Find(a, id) == Newest(rows, id) == Find(b, id);
    }
  }

  // --- the same arrivals ---

  /** Both stores accepted the same rows of every window in the same order; between windows the order may differ. */
  ghost predicate SameArrivals(a: seq<Row>, b: seq<Row>) {
    && (forall r <- a :: r.t > NEVER) && (forall r <- b :: r.t > NEVER)
    && forall ws :: Aligned(ws) ==> InWindow(a, ws) == InWindow(b, ws)
  }

  lemma SameLatest(a: seq<Row>, b: seq<Row>, lo: TimeMs, hi: TimeMs)
    requires SameArrivals(a, b)
    ensures Latest(Range(a, lo, hi)) == Latest(Range(b, lo, hi))
  {
    hide Latest, Range;
    LatestKeys(Range(a, lo, hi));
    LatestKeys(Range(b, lo, hi));
    forall k: Key
      ensures k in Latest(Range(a, lo, hi)) <==> k in Latest(Range(b, lo, hi))
      ensures k in Latest(Range(a, lo, hi)) ==> Latest(Range(a, lo, hi))[k] == Latest(Range(b, lo, hi))[k]
    {
      if lo <= k.t < hi {
        var ws := WindowStart(k.t);
        assert InWindow(a, ws) == InWindow(b, ws);
        LatestInRange(a, lo, hi, k);
        LatestInRange(b, lo, hi, k);
        LatestInRange(a, ws, ws + WINDOW_LEN, k);
        LatestInRange(b, ws, ws + WINDOW_LEN, k);
      }
    }
  }

  lemma SameRows(a: seq<Row>, b: seq<Row>, r: Row)
    requires SameArrivals(a, b)
    ensures r in a <==> r in b
  {
    var ws := WindowStart(r.t);
    RangeHas(a, ws, ws + WINDOW_LEN, r);
    RangeHas(b, ws, ws + WINDOW_LEN, r);
    assert InWindow(a, ws) == InWindow(b, ws);
  }

  lemma SameLive(live: map<Id, Row>, a: seq<Row>, b: seq<Row>, h: TimeMs)
    requires SameArrivals(a, b) && IsLive(live, a, h)
    ensures IsLive(live, b, h)
  {
    hide SameArrivals;
    forall id
      ensures Find(live, id) == LiveAt(b, h, id)
    {
      assert Find(live, id) == LiveAt(a, h, id);
      SameLatest(a, b, NEVER, h);
      NewestOfSame(Range(a, NEVER, h), Range(b, NEVER, h), id);
    }
  }

  lemma SameNewest(m: map<Id, Row>, a: seq<Row>, b: seq<Row>, lo: TimeMs, hi: TimeMs)
    requires SameArrivals(a, b) && IsNewest(m, Range(a, lo, hi))
    ensures IsNewest(m, Range(b, lo, hi))
  {
    hide SameArrivals, Range;
    forall id
      ensures Find(m, id) == Newest(Range(b, lo, hi), id)
    {
      SameLatest(a, b, lo, hi);
      NewestOfSame(Range(a, lo, hi), Range(b, lo, hi), id);
    }
  }

  /** The time range is determined by the rows and the meta file. */
  lemma SpanUnique(s: Option<(TimeMs, TimeMs)>, s': Option<(TimeMs, TimeMs)>, meta: Option<(TimeMs, TimeMs)>,
                   a: seq<Row>, b: seq<Row>)
    requires SameArrivals(a, b) && SpanOk(s, a) && SpanOk(s', b) && SpanFrom(s, meta, a) && SpanFrom(s', meta, b)
    ensures s == s'
  {
    hide SameArrivals;
    forall r: Row ensures r in a <==> r in b { SameRows(a, b, r); }
  }

  /** Both stores closed their windows with the same arrivals of the next one known. */
  ghost predicate KnownAgree(k1: map<TimeMs, seq<Row>>, k2: map<TimeMs, seq<Row>>, all: seq<Row>, floor: TimeMs) {
    forall ws :: Aligned(ws) && ws < floor && InWindow(all, ws) != [] ==> ws in k1 && ws in k2 && k1[ws] == k2[ws]
  }

  /** What the two stores tell is the same: closed windows, keyframes, live journeys, newest open rows. */
  ghost predicate SameView(a: Surface, b: Surface) {
    && a.horizon == b.horizon && a.span == b.span && a.live == b.live && a.lastOpen == b.lastOpen
    && (forall ws :: Aligned(ws) && ws + WINDOW_LEN <= Floor(a) ==>
        (ws in a.windows <==> ws in b.windows) && (ws in a.windows ==> a.windows[ws] == b.windows[ws]))
    && (forall h :: h % HOUR == 0 && h <= Floor(a) ==>
        (h in a.keyframes <==> h in b.keyframes) && (h in a.keyframes ==> a.keyframes[h] == b.keyframes[h]))
  }

  /** At every instant both have the same live payload. */
  ghost predicate SamePayload(a: Surface, all: seq<Row>, b: Surface, all': seq<Row>) {
    forall now, r :: Pays(a.windows, all, Floor(a), now, r) <==> Pays(b.windows, all', Floor(b), now, r)
  }

  /** Then whatever two ways of reading it give is the same. */
  lemma PayloadUnique(a: Surface, all: seq<Row>, b: Surface, all': seq<Row>, now: TimeMs, rows: seq<Row>,
                      rows': seq<Row>)
    requires SamePayload(a, all, b, all')
    requires IsPayload(rows, a.windows, all, Floor(a), now) && IsPayload(rows', b.windows, all', Floor(b), now)
    ensures multiset(rows) == multiset(rows')
  {
    hide Pays;
    forall r ensures multiset(rows)[r] == multiset(rows')[r] {
      assert Pays(a.windows, all, Floor(a), now, r) <==> Pays(b.windows, all', Floor(b), now, r);
    }
  }

  /** The payload is determined like everything else. */
  lemma PayloadDetermined(a: Surface, b: Surface, all: seq<Row>, all': seq<Row>)
    requires SameView(a, b) && SameArrivals(all, all') && (a.horizon.Some? ==> Aligned(a.horizon.value))
    ensures SamePayload(a, all, b, all')
  {
    hide SameArrivals, Newest, Latest, Range, SameView;
    SameFloors(a, b);
    forall now, r
      ensures Pays(a.windows, all, Floor(a), now, r) <==> Pays(b.windows, all', Floor(b), now, r)
    {
      if r.t < Floor(a) {
        SameFile(a, b, r.t);
      } else {
        SameKey(all, all', KeyOf(r));
      }
      SameLatest(all, all', NEVER, now + 1);
      NewestOfSame(Range(all, NEVER, now + 1), Range(all', NEVER, now + 1), r.id);
    }
  }

  lemma SameFloors(a: Surface, b: Surface)
    requires SameView(a, b)
    ensures Floor(a) == Floor(b)
  {
  }

  lemma SameFile(a: Surface, b: Surface, t: TimeMs)
    requires SameView(a, b) && t < Floor(a) && (a.horizon.Some? ==> Aligned(a.horizon.value))
    ensures FileAt(a.windows, WindowStart(t)) == FileAt(b.windows, WindowStart(t))
  {
    NeverAligned();
    LastBefore(Floor(a), WindowStart(t));
  }

  lemma SameKey(a: seq<Row>, b: seq<Row>, k: Key)
    requires SameArrivals(a, b)
    ensures Get(Latest(a), k) == Get(Latest(b), k)
  {
    hide Latest, Range;
    var ws := WindowStart(k.t);
    assert InWindow(a, ws) == InWindow(b, ws);
    InRange(a, ws, ws + WINDOW_LEN, k);
    InRange(b, ws, ws + WINDOW_LEN, k);
  }

  /** A store in order tells what its accepted rows, its horizon and the closing moments determine. */
  lemma ViewDetermined(a: Surface, b: Surface, all: seq<Row>, all': seq<Row>, k1: map<TimeMs, seq<Row>>, k2: map<TimeMs,
                       seq<Row>>)
    requires Ok(a, all, k1) && Ok(b, all', k2) && SameArrivals(all, all')
    requires a.horizon == b.horizon && a.span == b.span && KnownAgree(k1, k2, all, Floor(a))
    ensures SameView(a, b)
  {
    hide IsLive, IsNewest, IsClosed, Range, LogsOk, OpenOk, SpanOk, NoOrphans, MetaOk, SpanFrom;
    assert SameArrivals(all', all);
    SameLive(b.live, all', all, Floor(a));
    LiveUnique(a.live, b.live, all, Floor(a));
    SameNewest(b.lastOpen, all', all, Floor(a), FOREVER);
    NewestUnique(a.lastOpen, b.lastOpen, Range(all, Floor(a), FOREVER));
    forall ws | Aligned(ws) && ws + WINDOW_LEN <= Floor(a)
      ensures (ws in a.windows <==> ws in b.windows) && (ws in a.windows ==> a.windows[ws] == b.windows[ws])
    {
      assert WindowOk(a.windows, all, k1, ws) && WindowOk(b.windows, all', k2, ws)
             && InWindow(all, ws) == InWindow(all', ws);
      if InWindow(all, ws) != [] { ClosedUnique(a.windows[ws], b.windows[ws], InWindow(all, ws), k1[ws]); }
    }
    forall h | h % HOUR == 0 && h <= Floor(a)
      ensures (h in a.keyframes <==> h in b.keyframes) && (h in a.keyframes ==> a.keyframes[h] == b.keyframes[h])
    {
      SameKeyframe(a, b, all, all', h);
    }
  }

  lemma SameKeyframe(a: Surface, b: Surface, all: seq<Row>, all': seq<Row>, h: TimeMs)
    requires SameArrivals(all, all') && a.span == b.span
    requires KeyframeOk(a.keyframes, a.span, all, h) && KeyframeOk(b.keyframes, b.span, all', h)
    ensures (h in a.keyframes <==> h in b.keyframes) && (h in a.keyframes ==> a.keyframes[h] == b.keyframes[h])
  {
    hide IsLive, SameArrivals;
    if h in a.keyframes {
      assert SameArrivals(all', all) by { SameBack(all, all'); }
      SameLive(b.keyframes[h], all', all, h);
      LiveUnique(a.keyframes[h], b.keyframes[h], all, h);
    }
  }

  lemma SameBack(a: seq<Row>, b: seq<Row>)
    requires SameArrivals(a, b)
    ensures SameArrivals(b, a)
  {
    hide InWindow;
  }

  // --- a restart that loses nothing ---

  /** What a crash left of every log that is not of a closed window is that window's rows. */
  ghost predicate Intact(s: Surface, all: seq<Row>, kept: TimeMs -> nat) {
    forall ws <- s.logs :: ws + WINDOW_LEN > Floor(s) ==>
        kept(ws) <= |s.logs[ws].file| && s.logs[ws].file[..kept(ws)] == InWindow(all, ws)
  }

  /** A crash can lose the rows of a log that are not synced, from its end. */
  predicate Possible(s: Surface,
                     kept: TimeMs -> nat) { forall ws <- s.logs :: s.logs[ws].synced <= kept(ws) <= |s.logs[ws].file| }

  /** It loses none. */
  predicate LeavesAll(s: Surface, kept: TimeMs -> nat) { forall ws <- s.logs :: kept(ws) == |s.logs[ws].file| }

  /** Without a write failure the logs hold the accepted rows; with a sync per batch a crash cannot lose any. */
  lemma IntactIs(s: Surface, all: seq<Row>, known: map<TimeMs, seq<Row>>, kept: TimeMs -> nat)
    requires Ok(s, all, known) && !s.walErr && Possible(s, kept) && (LeavesAll(s, kept) || Durable(s.open, s.logs, all))
    ensures Intact(s, all, kept)
  {
    hide MemoryOk, DiskOk, NoOrphans, Range;
    forall ws <- s.logs | ws + WINDOW_LEN > Floor(s)
      ensures s.logs[ws].file[..kept(ws)] == InWindow(all, ws)
    {
      if ws !in s.open { ClosedOrEmpty(s, all, ws); }
    }
  }

  /** Reopened without a loss, a store has the same arrivals and time range, and is in order. */
  lemma Unlost(s0: Surface, all0: seq<Row>, known: map<TimeMs, seq<Row>>, kept: TimeMs -> nat, s: Surface,
               all: seq<Row>)
    requires Ok(s0, all0, known) && Possible(s0, kept) && Intact(s0, all0, kept)
    requires MemoryOk(s, all) && DiskOk(s, all, known) && LogsOk(s, all) && ReopenedFrom(s0, kept, s, all)
    requires Range(all, NEVER, Floor(s)) == Range(all0, NEVER, Floor(s))
    ensures SameArrivals(all0, all) && s.span == s0.span && Ok(s, all, known)
  {
    hide Ok, DiskOk, LogsOk, NoOrphans, Range, MemoryOk, SameArrivals, Intact;
    SameArrivalsAre(s0, all0, known, kept, s, all);
    SpanFacts(s, all, known);
    OkParts(s0, all0, known);
    SpanFacts(s0, all0, known);
    SpanUnique(s0.span, s.span, s0.meta.span, all0, all);
    SameOrphans(s0, s, all0, all);
    OkOf(s, all, known);
  }

  lemma OkParts(s: Surface, all: seq<Row>, known: map<TimeMs, seq<Row>>)
    requires Ok(s, all, known)
    ensures MemoryOk(s, all) && LogsOk(s, all) && DiskOk(s, all, known) && NoOrphans(s, all)
  {
    hide MemoryOk, LogsOk, DiskOk, NoOrphans;
  }

  lemma OkOf(s: Surface, all: seq<Row>, known: map<TimeMs, seq<Row>>)
    requires MemoryOk(s, all) && LogsOk(s, all) && DiskOk(s, all, known) && NoOrphans(s, all)
    ensures Ok(s, all, known)
  {
    hide MemoryOk, LogsOk, DiskOk, NoOrphans;
  }

  lemma SpanFacts(s: Surface, all: seq<Row>, known: map<TimeMs, seq<Row>>)
    requires MemoryOk(s, all) && DiskOk(s, all, known)
    ensures SpanOk(s.span, all) && SpanFrom(s.span, s.meta.span, all) && forall r <- all :: r.t > NEVER
  {
    hide OpenOk, IsLive, IsNewest, FilesOk, MetaOk, SpanFrom;
  }

  lemma SameOrphans(s0: Surface, s: Surface, all0: seq<Row>, all: seq<Row>)
    requires NoOrphans(s0, all0) && SameArrivals(all0, all) && s.span == s0.span
    requires s.windows == s0.windows && s.keyframes == s0.keyframes && s.horizon == s0.horizon
    ensures NoOrphans(s, all)
  {
    hide InWindow;
  }

  lemma SameArrivalsAre(s0: Surface, all0: seq<Row>, known: map<TimeMs, seq<Row>>, kept: TimeMs -> nat, s: Surface,
                        all: seq<Row>)
    requires Ok(s0, all0, known) && Possible(s0, kept) && Intact(s0, all0, kept)
    requires MemoryOk(s, all) && DiskOk(s, all, known) && ReopenedFrom(s0, kept, s, all)
    requires Range(all, NEVER, Floor(s)) == Range(all0, NEVER, Floor(s))
    ensures SameArrivals(all0, all)
  {
    hide Ok, DiskOk, NoOrphans, Range, MemoryOk, LogsOk;
    OkParts(s0, all0, known);
    SpanFacts(s, all, known);
    SpanFacts(s0, all0, known);
    forall ws | Aligned(ws)
      ensures InWindow(all0, ws) == InWindow(all, ws)
    {
      if ws + WINDOW_LEN <= Floor(s) {
        SameWindow(all0, all, ws, Floor(s));
      } else if ws in s.open {
        assert ws in s0.logs;
      } else {
        NoLogNotOpen(s0, all0, ws);
        ClosedOrEmpty(s, all, ws);
        ClosedOrEmpty(s0, all0, ws);
      }
    }
  }

  lemma NoLogNotOpen(s: Surface, all: seq<Row>, ws: TimeMs)
    requires LogsOk(s, all) && ws !in s.logs
    ensures ws !in s.open
  {
    hide LogOk, LogFiles, Range;
  }

  /** Then it tells the same. */
  lemma RestartedView(s0: Surface, all0: seq<Row>, known: map<TimeMs, seq<Row>>, kept: TimeMs -> nat, s: Surface,
                      all: seq<Row>)
    requires Ok(s0, all0, known) && !s0.walErr && Possible(s0, kept)
             && (LeavesAll(s0, kept) || Durable(s0.open, s0.logs, all0))
    requires MemoryOk(s, all) && DiskOk(s, all, known) && LogsOk(s, all) && ReopenedFrom(s0, kept, s, all)
    requires Range(all, NEVER, Floor(s)) == Range(all0, NEVER, Floor(s))
    ensures SameArrivals(all0, all) && s.span == s0.span && Ok(s, all, known) && SameView(s, s0)
  {
    hide Ok, MemoryOk, LogsOk, DiskOk, SameArrivals, Range, Durable, SameView, ReopenedFrom, Intact, Possible,
      LeavesAll;
    IntactIs(s0, all0, known, kept);
    Unlost(s0, all0, known, kept, s, all);
    SameBack(all0, all);
    KnownAgreeSelf(s, all, known);
    assert s.horizon == s0.horizon by { SameHorizon(s0, kept, s, all); }
    ViewDetermined(s, s0, all, all0, known, known);
  }

  lemma SameHorizon(s0: Surface, kept: TimeMs -> nat, s: Surface, all: seq<Row>)
    requires Possible(s0, kept) && ReopenedFrom(s0, kept, s, all)
    ensures s.horizon == s0.horizon
  {
    hide Range;
  }

  /** Stops the store and opens it again from everything it wrote. */
  method Restart(p: MoverStore, left: TimeMs -> nat)
    requires p.Valid() && !p.walErr && Possible(p.S(), left)
    requires LeavesAll(p.S(), left) || Durable(p.open, p.logs, p.all)
    modifies p
    ensures p.Valid() && !p.walErr && SameArrivals(old(p.all), p.all) && p.span == old(p.span)
    ensures p.horizon == old(p.horizon) && p.known == old(p.known) && SameView(p.S(), old(p.S())) && p.Trailed()
  {
    hide Ok, MemoryOk, LogsOk, DiskOk, SameArrivals, NoneOrphaned, SameView, Recoverable, Range, Durable;
    ghost var s0, all0 := p.S(), p.all;
    OkRecoverable(s0, all0, p.known);
    p.Reopen(left);
    RestartedView(s0, all0, p.known, left, p.S(), p.all);
  }

  lemma KnownAgreeSelf(s: Surface, all: seq<Row>, known: map<TimeMs, seq<Row>>)
    requires Ok(s, all, known)
    ensures KnownAgree(known, known, all, Floor(s))
  {
    hide MemoryOk, LogsOk, NoOrphans, MetaOk, SpanFrom, KeyframeOk, IsClosed, Range;
    FloorAlignedOf(s, all, known);
    forall ws | Aligned(ws) && ws < Floor(s) && InWindow(all, ws) != []
      ensures ws in known
    {
      AlignedGap(ws + WINDOW_LEN, Floor(s));
      assert WindowOk(s.windows, all, known, ws);
    }
  }

  lemma FloorAlignedOf(s: Surface, all: seq<Row>, known: map<TimeMs, seq<Row>>)
    requires Ok(s, all, known)
    ensures Aligned(Floor(s))
  {
    hide Range, LogsOk, DiskOk, NoOrphans, OpenOk, SpanOk, IsLive, IsNewest;
    NeverAligned();
  }

  // --- eviction and restarts are invisible ---

  datatype Op =
    | Append(batch: seq<Sample>, written: bool)
    | Commit(target: TimeMs, ops: nat)

  /** One step of both stores; what is left of the logs of a store that is stopped and opened again after it,
      and the windows each store evicts then. */
  datatype Step = Step(op: Op, crash1: Option<TimeMs -> nat>, crash2: Option<TimeMs -> nat>, evict1: seq<TimeMs>,
                       evict2: seq<TimeMs>)

  /** Times are 64 bits wide. */
  predicate WellFormed(op: Op) {
    match op
    case Append(batch, _) => InTimeRange(batch)
    case Commit(target, _) => -0x8000_0000_0000_0000 <= target < 0x8000_0000_0000_0000
  }

  /** Both stores are in order with the same arrivals, horizon and closing moments. */
  ghost predicate Alike(s: Surface, t: Surface, all: seq<Row>, all': seq<Row>, k1: map<TimeMs, seq<Row>>,
                        k2: map<TimeMs, seq<Row>>) {
    && Ok(s, all, k1) && Ok(t, all', k2) && !s.walErr && !t.walErr
    && SameArrivals(all, all') && s.horizon == t.horizon && s.span == t.span && KnownAgree(k1, k2, all, Floor(s))
  }

  ghost predicate InStep(p: MoverStore, q: MoverStore)
    reads p, q
  {
    Alike(p.S(), q.S(), p.all, q.all, p.known, q.known) && p.Held() && q.Held() && p.Trailed() && q.Trailed()
  }

  /** Both stores at one moment of a run. */
  datatype Pair = Pair(s: Surface, all: seq<Row>, known: map<TimeMs, seq<Row>>, t: Surface, all': seq<Row>,
                           known': map<TimeMs, seq<Row>>)

  ghost function Both(p: MoverStore, q: MoverStore): Pair
    reads p, q
  {
    Pair(p.S(), p.all, p.known, q.S(), q.all, q.known)
  }

  /** Both are in order, with the same arrivals, and tell the same. */
  ghost predicate Agree(m: Pair) {
    && Alike(m.s, m.t, m.all, m.all', m.known, m.known') && SameView(m.s, m.t) && SamePayload(m.s, m.all, m.t, m.all')
  }

  /** What an operation does to a store: a batch that is written adds its rows, one that is not adds nothing; a commit
      takes the horizon to its target exactly if it can write and read enough. */
  ghost predicate Does(s: Surface, all: seq<Row>, s': Surface, all': seq<Row>, op: Op) {
    match op
    case Append(batch, written) =>
      var rows := if written then Accepted(s, batch) else [];
      SameArrivals(all + rows, all') && s'.horizon == s.horizon && s'.span == WidenAll(s.span, rows)
    case Commit(target, ops) =>
      && SameArrivals(all, all') && s'.span == s.span
      && s'.horizon == var to := Capped(s.span, s.horizon, WindowStart(target));
                       if !Enough(s, all, target, ops, _ => true) || (s.horizon.Some? && to <= s.horizon.value)
                       then s.horizon else Some(to)
  }

  /** Runs the same operations on two stores that evict different windows and are stopped and opened again at
      different times; batches may be refused and commits may fail, at the same file. The two stores tell the same all
      the way, the live payload of any instant included. */
  method RunBoth(p: MoverStore, q: MoverStore, steps: seq<Step>) returns (ghost trace: seq<Pair>)
    requires p != q && InStep(p, q) && forall st <- steps :: WellFormed(st.op)
    modifies p, q
    ensures InStep(p, q) && |trace| == |steps| + 1 && trace[0] == old(Both(p, q)) && trace[|steps|] == Both(p, q)
    ensures forall i :: 0 <= i <= |steps| ==> Agree(trace[i])
    ensures forall i :: 0 <= i < |steps| ==>
              Does(trace[i].s, trace[i].all, trace[i + 1].s, trace[i + 1].all, steps[i].op)
  {
    hide Agree, Does, Alike, TrailOk, Holds;
    AgreeIs(Both(p, q));
    trace := [Both(p, q)];
    for i := 0 to |steps|
      invariant InStep(p, q) && |trace| == i + 1 && trace[0] == old(Both(p, q)) && trace[i] == Both(p, q)
      invariant forall j :: 0 <= j <= i ==> Agree(trace[j])
      invariant forall j :: 0 <= j < i ==> Does(trace[j].s, trace[j].all, trace[j + 1].s, trace[j + 1].all, steps[j].op)
    {
      assert WellFormed(steps[i].op);
      StepAndStop(p, q, steps[i]);
      trace := trace + [Both(p, q)];
    }
  }

  lemma AgreeIs(m: Pair)
    requires Alike(m.s, m.t, m.all, m.all', m.known, m.known')
    ensures Agree(m)
  {
    hide Alike, SameView, SamePayload;
    AlikeView(m.s, m.t, m.all, m.all', m.known, m.known');
  }

  /** One step of both stores, and what happens to each then. */
  method StepAndStop(p: MoverStore, q: MoverStore, step: Step)
    requires p != q && InStep(p, q) && WellFormed(step.op)
    modifies p, q
    ensures InStep(p, q) && Agree(Both(p, q)) && Does(old(p.S()), old(p.all), p.S(), p.all, step.op)
  {
    hide Alike, TrailOk, Holds, Does, SameArrivals, Agree;
    StepBoth(p, q, step.op);
    ghost var s, all := p.S(), p.all;
    StopAndEvict(p, q, step.crash1, step.evict1);
    DoesStill(old(p.S()), old(p.all), s, all, p.S(), p.all, step.op);
    AlikeBack(p.S(), q.S(), p.all, q.all, p.known, q.known);
    StopAndEvict(q, p, step.crash2, step.evict2);
    AlikeBack(q.S(), p.S(), q.all, p.all, q.known, p.known);
    AgreeIs(Both(p, q));
  }

  /** A restart and evictions leave arrivals, horizon and time range alone. */
  lemma DoesStill(s: Surface, all: seq<Row>, s1: Surface, all1: seq<Row>, s2: Surface, all2: seq<Row>, op: Op)
    requires Does(s, all, s1, all1, op) && SameArrivals(all1, all2) && s2.horizon == s1.horizon && s2.span == s1.span
    ensures Does(s, all, s2, all2, op)
  {
    hide SameArrivals, Accepted, WidenAll, Capped, Enough;
    match op {
      case Append(batch, written) => SameTrans(all + if written then Accepted(s, batch) else [], all1, all2);
      case Commit(_, _) => SameTrans(all, all1, all2);
    }
  }

  lemma AlikeView(s: Surface, t: Surface, all: seq<Row>, all': seq<Row>, k1: map<TimeMs, seq<Row>>, k2: map<TimeMs,
                  seq<Row>>)
    requires Alike(s, t, all, all', k1, k2)
    ensures SameView(s, t) && SamePayload(s, all, t, all')
  {
    hide Ok, SameView, SameArrivals, KnownAgree, SamePayload;
    ViewDetermined(s, t, all, all', k1, k2);
    OkParts(s, all, k1);
    FloorIs(s, all);
    PayloadDetermined(s, t, all, all');
  }

  lemma AlikeBack(s: Surface, t: Surface, all: seq<Row>, all': seq<Row>, k1: map<TimeMs, seq<Row>>, k2: map<TimeMs,
                  seq<Row>>)
    requires Alike(s, t, all, all', k1, k2)
    ensures Alike(t, s, all', all, k2, k1)
  {
    hide Ok, InWindow;
  }

  lemma SameTrans(a: seq<Row>, b: seq<Row>, c: seq<Row>)
    requires SameArrivals(a, b) && SameArrivals(b, c)
    ensures SameArrivals(a, c)
  {
    hide InWindow;
  }

  lemma KnownAgreeSame(k1: map<TimeMs, seq<Row>>, k2: map<TimeMs, seq<Row>>, a: seq<Row>, b: seq<Row>, floor: TimeMs)
    requires KnownAgree(k1, k2, a, floor) && SameArrivals(a, b)
    ensures KnownAgree(k1, k2, b, floor)
  {
    hide InWindow;
  }

  /** Stops p and opens it again, if the crash leaves its logs whole, and then evicts some of its windows. */
  method StopAndEvict(p: MoverStore, q: MoverStore, crash: Option<TimeMs -> nat>, evict: seq<TimeMs>)
    requires p != q && InStep(p, q)
    modifies p
    ensures InStep(p, q) && SameArrivals(old(p.all), p.all) && p.span == old(p.span) && p.horizon == old(p.horizon)
  {
    hide Ok, SameArrivals, KnownAgree, SameView, Holds;
    SameSelf(p.S(), p.all, p.known);
    if crash.Some? && LeavesAll(p.S(), crash.value) {
      ghost var all0 := p.all;
      WholeLogs(p.S(), p.all, p.known, crash.value);
      Restart(p, crash.value);
      SameBack(all0, p.all);
      SameTrans(p.all, all0, q.all);
      KnownAgreeSame(p.known, q.known, all0, p.all, Floor(p.S()));
    }
    EvictAll(p, evict);
  }

  lemma WholeLogs(s: Surface, all: seq<Row>, known: map<TimeMs, seq<Row>>, kept: TimeMs -> nat)
    requires Ok(s, all, known) && LeavesAll(s, kept)
    ensures Possible(s, kept)
  {
    hide MemoryOk, DiskOk, NoOrphans, LogOk, Range;
    forall ws <- s.logs ensures s.logs[ws].synced <= |s.logs[ws].file| { assert LogFile(s.logs[ws], ws); }
  }

  /** Evicts those of the windows that are open. */
  method EvictAll(p: MoverStore, evict: seq<TimeMs>)
    requires p.Valid() && !p.walErr
    modifies p`open
    ensures p.Valid()
  {
    hide Ok;
    for i := 0 to |evict|
      invariant p.Valid()
    {
      if evict[i] in p.open {
        p.Evict(evict[i]);
      }
    }
  }

  method StepBoth(p: MoverStore, q: MoverStore, op: Op)
    requires p != q && InStep(p, q) && WellFormed(op)
    modifies p, q
    ensures InStep(p, q) && Does(old(p.S()), old(p.all), p.S(), p.all, op)
  {
    hide TrailOk, Does, Alike, Holds;
    match op {
      case Append(batch, written) => AppendBoth(p, q, batch, written);
      case Commit(target, ops) => CommitBoth(p, q, target, ops);
    }
  }

  method AppendBoth(p: MoverStore, q: MoverStore, batch: seq<Sample>, written: bool)
    requires p != q && InStep(p, q) && InTimeRange(batch)
    modifies p, q
    ensures InStep(p, q) && Does(old(p.S()), old(p.all), p.S(), p.all, Append(batch, written))
  {
    hide Ok, KnownAgree, Recoverable, NoOrphans, Durable, WidenAll, InTimeRange, SameArrivals, TrailOk, Holds,
      StaySynced, StartsOf, Accepted;
    ghost var s, t, all, all', k1, k2 := p.S(), q.S(), p.all, q.all, p.known, q.known;
    AcceptedSame(s, t, batch);
    NoJunk(Accepted(s, batch));
    var fate := if written then Written else WriteFails(ws => [], true);
    if written {
      AgreeAfterAppend(k1, k2, all, batch, s);
      ArrivalsAfterAppend(s, all, all', k1, batch);
    }
    var ok1, counts1 := p.Append(batch, fate);
    var ok2, counts2 := q.Append(batch, fate);
    SameSelf(p.S(), p.all, p.known);
    assert all + [] == all;
    NoWiden(s.span);
  }

  lemma NoWiden(span: Option<(TimeMs, TimeMs)>)
    ensures WidenAll(span, []) == span
  {
  }

  lemma NoJunk(rows: seq<Row>)
    ensures StartsOf(ws => [], rows)
  {
    hide Range;
  }

  lemma SameSelf(s: Surface, all: seq<Row>, known: map<TimeMs, seq<Row>>)
    requires Ok(s, all, known)
    ensures SameArrivals(all, all)
  {
    hide OpenOk, IsLive, IsNewest, LogsOk, DiskOk, NoOrphans, Range;
  }

  method CommitBoth(p: MoverStore, q: MoverStore, target: TimeMs, ops: nat)
    requires p != q && InStep(p, q) && WellFormed(Commit(target, ops))
    modifies p, q
    ensures InStep(p, q) && Does(old(p.S()), old(p.all), p.S(), p.all, Commit(target, ops))
  {
    hide Ok, KnownAgree, KnownAt, Capped, SameBelow, SameArrivals, TrailOk, Enough, Reached, Holds;
    ghost var s, t, all, all', k1, k2 := p.S(), q.S(), p.all, q.all, p.known, q.known;
    var readable := (ws: TimeMs) => true;
    SameEnough(s, t, all, all', target, ops, readable);
    EnoughAny(s, all, target, ops, readable);
    var ok1 := p.Commit(target, ops, readable, {});
    var ok2 := q.Commit(target, ops, readable, {});
    AgreeAfterCommit(s, t, p.S(), q.S(), k1, k2, p.known, q.known, all, all');
    SameSelf(p.S(), p.all, p.known);
  }

  lemma EnoughAny(s: Surface, all: seq<Row>, target: TimeMs, ops: nat, readable: TimeMs -> bool)
    requires forall ws :: readable(ws)
    ensures Enough(s, all, target, ops, readable) <==> Enough(s, all, target, ops, _ => true)
  {
    hide Capped, Writes;
  }

  /** Two stores alike have the same files to write. */
  lemma SameEnough(s: Surface, t: Surface, all: seq<Row>, all': seq<Row>, target: TimeMs, ops: nat,
                   readable: TimeMs -> bool)
    requires SameArrivals(all, all') && s.horizon == t.horizon && s.span == t.span && forall ws :: readable(ws)
    ensures Enough(s, all, target, ops, readable) <==> Enough(t, all', target, ops, readable)
  {
    hide SameArrivals, Capped, FirstHour, Hours;
    var to := Capped(s.span, s.horizon, WindowStart(target));
    forall r: Row ensures r in all <==> r in all' { SameRows(all, all', r); }
    assert Filled(all, Floor(s), to) == Filled(all', Floor(s), to);
  }

  lemma {:induction false} AcceptedSame(a: Surface, b: Surface, batch: seq<Sample>)
    requires a.horizon == b.horizon
    ensures Accepted(a, batch) == Accepted(b, batch)
    decreases batch
  {
    if batch != [] { AcceptedSame(a, b, batch[..|batch| - 1]); }
  }

  lemma ArrivalsAfterAppend(s: Surface, all: seq<Row>, all': seq<Row>, known: map<TimeMs, seq<Row>>, batch: seq<Sample>)
    requires SameArrivals(all, all') && InTimeRange(batch)
    ensures SameArrivals(all + Accepted(s, batch), all' + Accepted(s, batch))
  {
    hide Range;
    var rows := Accepted(s, batch);
    AcceptedStamped(s, batch);
    forall ws | Aligned(ws)
      ensures InWindow(all + rows, ws) == InWindow(all' + rows, ws)
    {
      RangeAppend(all, rows, ws, ws + WINDOW_LEN);
      RangeAppend(all', rows, ws, ws + WINDOW_LEN);
      assert InWindow(all, ws) == InWindow(all', ws);
    }
  }

  lemma AgreeAfterAppend(k1: map<TimeMs, seq<Row>>, k2: map<TimeMs, seq<Row>>, all: seq<Row>, batch: seq<Sample>,
                         s: Surface)
    requires KnownAgree(k1, k2, all, Floor(s)) && Ok(s, all, k1) && InTimeRange(batch)
    ensures KnownAgree(k1, k2, all + Accepted(s, batch), Floor(s))
  {
    hide Range, LogsOk, DiskOk, NoOrphans, OpenOk, SpanOk, IsLive, IsNewest;
    NeverAligned();
    RowsAfterFloor(s, batch);
    var rows := Accepted(s, batch);
    forall ws | Aligned(ws) && ws < Floor(s)
      ensures InWindow(all + rows, ws) == InWindow(all, ws)
    {
      AlignedGap(ws + WINDOW_LEN, Floor(s));
      RangeAppend(all, rows, ws, ws + WINDOW_LEN);
      RangeEmpty(rows, ws, ws + WINDOW_LEN);
      assert InWindow(all, ws) + [] == InWindow(all, ws);
    }
  }

  /** The store did not move, or moved its horizon as a commit does. */
  ghost predicate Committed(s: Surface, s': Surface, k: map<TimeMs, seq<Row>>, k': map<TimeMs, seq<Row>>,
                            all: seq<Row>) {
    (k' == k && s'.horizon == s.horizon) || (s'.horizon.Some? && Moved(s, s', k, k', all, s'.horizon.value))
  }

  lemma AgreeAfterCommit(s: Surface, t: Surface, s': Surface, t': Surface, k1: map<TimeMs, seq<Row>>, k2: map<TimeMs,
                         seq<Row>>,
                         k1': map<TimeMs, seq<Row>>, k2': map<TimeMs, seq<Row>>, all: seq<Row>, all': seq<Row>)
    requires KnownAgree(k1, k2, all, Floor(s)) && SameArrivals(all, all') && s.horizon == t.horizon
             && s'.horizon == t'.horizon
    requires Committed(s, s', k1, k1', all) && Committed(t, t', k2, k2', all')
    requires s'.horizon == s.horizon || Moved(s, s', k1, k1', all, s'.horizon.value)
    ensures KnownAgree(k1', k2', all, Floor(s'))
  {
    hide InWindow;
    var floor, to := Floor(s), Floor(s');
    forall ws | Aligned(ws) && ws < to && InWindow(all, ws) != []
      ensures ws in k1' && ws in k2' && k1'[ws] == k2'[ws]
    {
      assert InWindow(all, ws) == InWindow(all', ws)
             && InWindow(all, ws + WINDOW_LEN) == InWindow(all', ws + WINDOW_LEN);
      if ws < floor {
        assert ws in k1 && ws in k2 && k1[ws] == k2[ws];
      }
    }
  }

  // --- crashes of a commit ---

  /** Up to the horizon a failed commit changed no file. */
  lemma BelowSameView(s: Surface, s': Surface)
    requires s' == s.(windows := s'.windows, keyframes := s'.keyframes)
    requires SameBelow(s.windows, s.keyframes, s'.windows, s'.keyframes, Floor(s))
    ensures SameView(s', s)
  {
  }

  /** A commit that fails or succeeds, and then a crash that leaves `left` of the logs: the store opens again, in
      order exactly when no file of the commit lost its last row. With a sync per batch, or when the crash loses
      nothing, it is: it tells what it told before the commit or, if that took the horizon, after it. */
  method CrashDuringCommit(p: MoverStore, target: TimeMs, ops: nat, readable: TimeMs -> bool, behind: set<TimeMs>,
                           left: TimeMs -> nat)
    returns (ok: bool, ghost after: Surface)
    requires p.Valid() && p.Trailed() && !p.walErr && WellFormed(Commit(target, ops)) && Possible(p.S(), left)
             && p.Synced()
    modifies p
    ensures !ok ==> SameView(after, old(p.S())) && after.logs == old(p.logs)
    ensures ok ==> Committed(old(p.S()), after, old(p.known), p.known, old(p.all))
    ensures Possible(after, left) && (p.Valid() <==> NoneOrphaned(after, left))
    ensures p.syncEvery || LeavesAll(old(p.S()), left) ==>
              p.Valid() && SameArrivals(old(p.all), p.all) && SameView(p.S(), after)
              && SamePayload(p.S(), p.all, after, old(p.all))
    ensures p.Trailed()
  {
    hide Ok, MemoryOk, LogsOk, DiskOk, NoOrphans, SameArrivals, NoneOrphaned, SameView, Recoverable, Range, Durable,
      SameBelow, KnownAt, Capped, SamePayload, TrailOk, Enough, Reached;
    ok := p.Commit(target, ops, readable, behind);
    after := p.S();
    if !ok { BelowSameView(old(p.S()), after); }
    ghost var all0 := p.all;
    OkRecoverable(after, all0, p.known);
    p.Reopen(left);
    if p.syncEvery || LeavesAll(old(p.S()), left) {
      RestartedView(after, all0, p.known, left, p.S(), p.all);
      SameBack(all0, p.all);
      FloorIs(p.S(), p.all);
      PayloadDetermined(p.S(), after, p.all, all0);
    }
  }
  // --- a row lost with a file left behind ---

  const LOST: Row := Row(1, 0, false, false, 0, 0)

  /** A batch is accepted without a sync; a commit writes its window's file and fails at the meta file, and a crash
      loses the row: the reopened store has the file of a window without rows, and closing that window again writes
      nothing over it. */
  method LostRowLeavesFile() returns (p: MoverStore, file: seq<Row>)
    ensures fresh(p) && p.all == [] && 0 in p.open && InWindow(p.all, 0) == []
    ensures 0 in p.windows && p.windows[0] == [LOST] && file == [] && !p.Valid()
  {
    hide Ok, FilesOk, IsLive, KnownAt, SameBelow, Recoverable, MemoryOk, LogsOk, DiskOk, NoOrphans, Range, Closing,
      Durable, Accepted, Opened, OpenedLogs, Logged, WidenAll, HourOk, NoneOpen, LateCount, Latest, Marked, KeptBefore,
      TrailOk, Reached, Enough, Moved, IsClosed;
    p := new MoverStore(false);
    FirstBatch(p.S());
    var ok, counts := p.Append([Sample(LOST, true, true)], Written);
    assert p.all == [] + [LOST] == [LOST];
    FirstCommit(p.S());
    ok := p.Commit(WINDOW_LEN, 1, _ => true, {});
    FirstFile(p.S());
    OkRecoverable(p.S(), p.all, p.known);
    p.Reopen(ws => 0);
    NothingKept(p.S(), p.all);
    var rows;
    rows, file := p.ClosedFile(0);
    NoRows(rows, []);
  }

  lemma FirstBatch(s: Surface)
    requires s.horizon == None && s.open == map[] && s.logs == map[] && s.span == None
    ensures var rows := Accepted(s, [Sample(LOST, true, true)]);
            && rows == [LOST] && InTimeRange([Sample(LOST, true, true)]) && Opened(s.open, rows).Keys == {0}
            && Logged(OpenedLogs(s.open, s.logs, rows), rows, false) == map[0 := Log([LOST], 1, 0)]
                && WidenAll(s.span, rows) == Some((0, 0))
  {
    hide Opened, OpenedLogs, Logged, WidenAll;
    var batch := [Sample(LOST, true, true)];
    assert batch[..0] == [] && Accepted(s, []) == [];
    assert Accepted(s, batch) == [] + [LOST] == [LOST];
    FirstOpened();
    FirstLogged();
    FirstSpan();
  }

  lemma FirstOpened()
    ensures Opened(map[], [LOST]).Keys == {0}
  {
    assert WindowStart(LOST.t) == 0;
    assert LOST in [LOST];
  }

  lemma FirstSpan()
    ensures WidenAll(None, [LOST]) == Some((0, 0))
  {
    assert [LOST][..0] == [] && WidenAll(None, []) == None;
  }

  lemma FirstLogged()
    ensures Logged(OpenedLogs(map[], map[], [LOST]), [LOST], false) == map[0 := Log([LOST], 1, 0)]
  {
    hide Range, LogMore;
    assert WindowStart(LOST.t) == 0;
    assert LOST in [LOST];
    RangeAll([LOST], 0, WINDOW_LEN);
    assert OpenedLogs(map[], map[], [LOST]) == map[0 := Log([], 0, 0)];
    LoggedOne();
  }

  lemma LoggedOne()
    ensures LogMore(Log([], 0, 0), [LOST], false) == Log([LOST], 1, 0)
  {
  }

  /** One file is too little for the window and the meta file. */
  lemma FirstCommit(s: Surface)
    requires s.horizon == None && s.span == Some((0, 0))
    ensures !Enough(s, [LOST], WINDOW_LEN, 1, _ => true) && Capped(s.span, None, WINDOW_LEN) == WINDOW_LEN
    ensures WindowStart(WINDOW_LEN) == WINDOW_LEN
  {
    FirstFilled();
  }

  lemma FirstFilled()
    ensures Filled([LOST], NEVER, WINDOW_LEN) == {0} && FirstHour(0, None) == HOUR
  {
    assert HourStart(0) == 0 && WindowStart(LOST.t) == 0 && LOST in [LOST];
  }

  /** It is enough for the window. */
  lemma FirstFile(s: Surface)
    requires s.horizon == None && s.span == Some((0, 0)) && Reached(s, [LOST], WINDOW_LEN, 1, _ => true)
    ensures 0 in s.windows && s.windows[0] == [LOST]
  {
    hide IsClosed, Range;
    FirstFilled();
    RangeAll([LOST], 0, WINDOW_LEN);
    assert Within(s, [LOST], WINDOW_LEN, 1, _ => true, 0);
    ClosedAlone(InWindow([LOST], WINDOW_LEN));
    ClosedUnique(s.windows[0], [LOST], [LOST], InWindow([LOST], WINDOW_LEN));
  }

  lemma ClosedAlone(next: seq<Row>)
    ensures IsClosed([LOST], [LOST], next)
  {
    hide Latest, Followed;
    assert Strict([LOST]);
    assert Marked([LOST], next) == [LOST];
  }

  lemma NothingKept(s: Surface, all: seq<Row>)
    requires MemoryOk(s, all) && s.horizon == None && s.open.Keys == {0} && InWindow(all, 0) == []
    ensures all == []
  {
    hide IsLive, IsNewest, Range;
    if all != [] {
      var r := all[0];
      assert WindowStart(r.t) == 0;
      RangeHas(all, 0, WINDOW_LEN, r);
    }
  }
}
