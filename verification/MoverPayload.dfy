/** The live payload as a function of the accepted rows, the closed windows and the instant asked for: every row of the
    last minute, and the last row of every journey that is older and alive. */
module MoverPayload {
  import opened Common
  import opened MoverRows
  import opened MoverClose
  import opened MoverState
  import opened MoverCommit
  import opened MoverTrail

  function Get(m: map<Key, Row>, k: Key): Option<Row> { if k in m then Some(m[k]) else None }

  /** The row as it is told: of a closed window the one in its file, of an open one the last arrival at its time. */
  predicate Told(windows: map<TimeMs, seq<Row>>, all: seq<Row>, floor: TimeMs, r: Row) {
    if r.t < floor then r in FileAt(windows, WindowStart(r.t)) else Get(Latest(all), KeyOf(r)) == Some(r)
  }

  /** The live payload at `now` has the row. */
  predicate Pays(windows: map<TimeMs, seq<Row>>, all: seq<Row>, floor: TimeMs, now: TimeMs, r: Row) {
    r.t <= now && if r.t > now - 60_000 then Told(windows, all, floor, r) else LiveAt(all, now + 1, r.id) == Some(r)
  }

  // --- rows by key ---

  lemma {:induction false} LatestAppend(a: seq<Row>, b: seq<Row>, k: Key)
    ensures Get(Latest(a + b), k) == if k in Latest(b) then Some(Latest(b)[k]) else Get(Latest(a), k)
    decreases b
  {
    if b == [] {
      assert a + b == a;
    } else {
      var n := |b| - 1;
      LatestAppend(a, b[..n], k);
      assert (a + b)[..|a + b| - 1] == a + b[..n];
    }
  }

  lemma InRange(all: seq<Row>, lo: TimeMs, hi: TimeMs, k: Key)
    ensures Get(Latest(Range(all, lo, hi)), k) == if lo <= k.t < hi then Get(Latest(all), k) else None
  {
    hide Latest, Range;
    if lo <= k.t < hi {
      LatestInRange(all, lo, hi, k);
    } else {
      LatestKeys(Range(all, lo, hi));
    }
  }

  lemma SameGets(a: seq<Row>, b: seq<Row>)
    requires forall k: Key :: Get(Latest(a), k) == Get(Latest(b), k)
    ensures Latest(a) == Latest(b)
  {
    hide Latest;
    forall k: Key ensures (k in Latest(a) <==> k in Latest(b)) && (k in Latest(a) ==> Latest(a)[k] == Latest(b)[k]) {
      assert Get(Latest(a), k) == Get(Latest(b), k);
    }
  }

  /** The newest row of two batches, the second one arrived later. */
  lemma {:induction false} NewestAppend(a: seq<Row>, b: seq<Row>, id: Id)
    ensures var x, y := Newest(a, id), Newest(b, id);
            Newest(a + b, id) == if y.None? || (x.Some? && x.value.t > y.value.t) then x else y
    decreases b
  {
    if b == [] {
      assert a + b == a;
    } else {
      var n := |b| - 1;
      NewestAppend(a, b[..n], id);
      assert (a + b)[..|a + b| - 1] == a + b[..n];
    }
  }

  /** Taking the newest rows of a batch over instead of the batch. */
  function NoteAll(m: map<Id, Row>, last: map<Id, Row>): map<Id, Row> {
    map id | id in m.Keys + last.Keys ::
      if id !in last || (id in m && m[id].t > last[id].t) then m[id] else last[id]
  }

  lemma NoteAllOk(m: map<Id, Row>, last: map<Id, Row>, a: seq<Row>, b: seq<Row>)
    requires IsNewest(m, a) && IsNewest(last, b)
    ensures IsNewest(NoteAll(m, last), a + b)
  {
    hide Newest;
    forall id ensures Find(NoteAll(m, last), id) == Newest(a + b, id) {
      assert Find(m, id) == Newest(a, id) && Find(last, id) == Newest(b, id);
      NewestAppend(a, b, id);
    }
  }

  // --- each row once ---

  lemma {:induction false} StrictOnce(rows: seq<Row>)
    requires Strict(rows)
    ensures forall r :: multiset(rows)[r] == if r in rows then 1 else 0
    decreases rows
  {
    if rows != [] {
      var n := |rows| - 1;
      StrictOnce(rows[..n]);
      assert rows == rows[..n] + [rows[n]];
      forall i | 0 <= i < n ensures rows[i] != rows[n] { assert Before(rows[i], rows[n]); }
    }
  }

  lemma {:induction false} AfterOnce(rows: seq<Row>, cut: TimeMs)
    ensures forall r :: multiset(After(rows, cut))[r] == if r.t > cut then multiset(rows)[r] else 0
    decreases rows
  {
    if rows != [] {
      AfterOnce(rows[..|rows| - 1], cut);
      assert rows == rows[..|rows| - 1] + [rows[|rows| - 1]];
    }
  }

  lemma {:induction false} AfterStrict(rows: seq<Row>, cut: TimeMs)
    requires Strict(rows)
    ensures Strict(After(rows, cut))
    decreases rows
  {
    hide Before;
    if rows != [] {
      var n := |rows| - 1;
      AfterStrict(rows[..n], cut);
      AfterIs(rows[..n], cut);
      var front := After(rows[..n], cut);
      forall i | 0 <= i < |front| ensures Before(front[i], rows[n]) {
        assert front[i] in rows[..n];
        var j :| 0 <= j < n && rows[..n][j] == front[i];
      }
    }
  }

  lemma {:induction false} AfterLatest(rows: seq<Row>, cut: TimeMs, k: Key)
    ensures Get(Latest(After(rows, cut)), k) == if k.t > cut then Get(Latest(rows), k) else None
    decreases rows
  {
    if rows != [] {
      var n := |rows| - 1;
      AfterLatest(rows[..n], cut, k);
      if rows[n].t > cut {
        var front := After(rows[..n], cut);
        assert (front + [rows[n]])[..|front|] == front;
      } else {
        assert After(rows, cut) == After(rows[..n], cut);
      }
    }
  }

  /** In strictly ordered rows a row is there if it is the last of its key. */
  lemma StrictHas(rows: seq<Row>, r: Row)
    requires Strict(rows)
    ensures r in rows <==> Get(Latest(rows), KeyOf(r)) == Some(r)
  {
    hide Latest, Strict;
    LatestKeys(rows);
    if r in rows {
      var i :| 0 <= i < |rows| && rows[i] == r;
      StrictLatest(rows, i);
    }
  }

  // --- the payload from its parts ---

  /** A row of the journey came after `cut` and up to `now`. */
  predicate Heard(all: seq<Row>, cut: TimeMs, now: TimeMs, id: Id) { exists r <- all :: r.id == id && cut < r.t <= now }

  /** The open rows from after `cut` up to `now`, deduplicated. */
  ghost predicate IsRecent(recent: seq<Row>, all: seq<Row>, floor: TimeMs, cut: TimeMs, now: TimeMs) {
    Strict(recent) && forall k: Key ::
      Get(Latest(recent), k) == if floor <= k.t && cut < k.t <= now then Get(Latest(all), k) else None
  }

  /** A row's part of the payload: the trail, the recent open rows, the live journeys not heard of since the horizon,
      and the journeys whose newest open row is older. */
  predicate Parts(trail: seq<Row>, recent: seq<Row>, live: map<Id, Row>, newest: map<Id, Row>, cut: TimeMs, now: TimeMs,
                  ids: set<Id>, r: Row, part: nat) {
    match part
    case 0 => r in trail && cut < r.t <= now
    case 1 => r in recent
    case 2 => r.id in live && live[r.id] == r && r.id !in newest && r.id !in ids
    case _ => r.id in newest && newest[r.id] == r && r.id !in ids && !r.gone
  }

  /** The newest row of a journey up to `now` is not after `cut` exactly when none was heard since. */
  lemma Older(all: seq<Row>, cut: TimeMs, now: TimeMs, id: Id)
    requires forall r <- all :: r.t >= NEVER
    ensures var x := Newest(Range(all, NEVER, now + 1), id);
            if x.None? then !Heard(all, cut, now, id)
            else x.value in all && x.value.t <= now && (x.value.t <= cut <==> !Heard(all, cut, now, id))
  {
    hide Latest, Range;
    var rows := Range(all, NEVER, now + 1);
    NewestIs(rows, id);
    LatestKeys(rows);
    forall r <- all ensures r in rows <==> r.t <= now { RangeHas(all, NEVER, now + 1, r); }
    if Heard(all, cut, now, id) {
      var r :| r in all && r.id == id && cut < r.t <= now;
      assert r in rows && KeyOf(r) in Latest(rows);
    }
  }

  lemma NewestJoin(all: seq<Row>, live: map<Id, Row>, newest: map<Id, Row>, floor: TimeMs, now: TimeMs, id: Id)
    requires IsLive(live, all, floor) && IsNewest(newest, Range(all, floor, now + 1)) && NEVER <= floor <= now + 1
    ensures LiveAt(all, now + 1, id) == if id in newest then Alive(Some(newest[id])) else Find(live, id)
    ensures id in newest ==> newest[id].id == id && Newest(Range(all, NEVER, now + 1), id) == Some(newest[id])
    ensures id in live ==> live[id].id == id && live[id].t < floor
    ensures id in live && id !in newest ==> Newest(Range(all, NEVER, now + 1), id) == Some(live[id])
  {
    hide Newest, Range;
    NewestSplit(all, id, NEVER, floor, now + 1);
    assert Find(newest, id) == Newest(Range(all, floor, now + 1), id);
    assert Find(live, id) == LiveAt(all, floor, id);
  }

  /** Each row is in exactly one part if the payload has it, and in none otherwise. */
  lemma PartsPay(windows: map<TimeMs, seq<Row>>, all: seq<Row>, floor: TimeMs, now: TimeMs, trail: seq<Row>,
                 recent: seq<Row>, live: map<Id, Row>, newest: map<Id, Row>, ids: set<Id>, r: Row)
    requires NEVER <= floor <= now && (forall x <- all :: x.t >= NEVER)
    requires IsLive(live, all, floor) && IsNewest(newest, Range(all, floor, now + 1))
    requires var cut := now - LIVE_TRAIL;
             && IsRecent(recent, all, floor, cut, now) && (forall id :: id in ids <==> Heard(all, cut, now, id))
             && (forall x :: x in trail && cut < x.t <= now <==> cut < x.t < floor && Told(windows, all, floor, x))
    ensures var cut := now - LIVE_TRAIL;
            && (Pays(windows, all, floor, now, r) <==>
                exists p: nat :: p < 4 && Parts(trail, recent, live, newest, cut, now, ids, r, p))
            && forall p: nat, q: nat :: p < q < 4 && Parts(trail, recent, live, newest, cut, now, ids, r, p) ==>
                 !Parts(trail, recent, live, newest, cut, now, ids, r, q)
  {
    hide Newest, Range, Latest, IsLive, IsNewest, Told, Heard;
    var cut := now - LIVE_TRAIL;
    NewestJoin(all, live, newest, floor, now, r.id);
    Older(all, cut, now, r.id);
    StrictHas(recent, r);
    assert Get(Latest(recent), KeyOf(r))
        == if floor <= r.t && cut < r.t <= now then Get(Latest(all), KeyOf(r)) else None;
    if r.t >= floor { ToldOpen(windows, all, floor, r); }
    assert Parts(trail, recent, live, newest, cut, now, ids, r, 1) <==>
             r.t >= floor && cut < r.t <= now && Told(windows, all, floor, r);
    assert Parts(trail, recent, live, newest, cut, now, ids, r, 0)
        <==> cut < r.t < floor && Told(windows, all, floor, r);
    assert Parts(trail, recent, live, newest, cut, now, ids, r, 2) ==> r.t <= cut;
    assert Parts(trail, recent, live, newest, cut, now, ids, r, 3) ==> r.t <= cut;
    if r.t <= cut {
      assert Pays(windows, all, floor, now, r) <==> LiveAt(all, now + 1, r.id) == Some(r);
      assert Pays(windows, all, floor, now, r) <==>
               (Parts(trail, recent, live, newest, cut, now, ids, r, 2)
                || Parts(trail, recent, live, newest, cut, now, ids, r, 3));
    }
  }

  lemma ToldOpen(windows: map<TimeMs, seq<Row>>, all: seq<Row>, floor: TimeMs, r: Row)
    requires r.t >= floor
    ensures Told(windows, all, floor, r) <==> Get(Latest(all), KeyOf(r)) == Some(r)
  {
  }

  /** The trail's rows after `cut` are those the closed windows' files tell. */
  lemma TrailTold(s: Surface, all: seq<Row>, known: map<TimeMs, seq<Row>>, trail: seq<Row>, cut: TimeMs, r: Row)
    requires Ok(s, all, known) && TrailOk(trail, s.windows, s.horizon) && cut >= Floor(s) - LIVE_TRAIL
             && cut >= NEVER
    ensures r.t > cut ==>
              multiset(trail)[r] == if r.t < Floor(s) && Told(s.windows, all, Floor(s), r) then 1 else 0
    ensures r in trail ==> r.t < Floor(s)
  {
    hide MemoryOk, LogsOk, NoOrphans, IsLive, Range, Latest, After, FilesOk, Strict;
    if s.horizon.Some? {
      var h := s.horizon.value;
      var ws := h - WINDOW_LEN;
      FloorIs(s, all);
      LastClosed(s, all, known, h);
      AfterOnce(FileAt(s.windows, ws), h - LIVE_TRAIL);
      StrictOnce(FileAt(s.windows, ws));
      if cut < r.t < h { WindowOfTime(ws, r.t); }
    }
  }

  lemma FloorIs(s: Surface, all: seq<Row>)
    requires MemoryOk(s, all)
    ensures s.horizon.Some? ==> Aligned(s.horizon.value)
    ensures forall r <- all :: r.t >= NEVER
  {
    hide IsLive, IsNewest, OpenOk;
  }

  /** The rows of a closed window's file. */
  lemma LastClosed(s: Surface, all: seq<Row>, known: map<TimeMs, seq<Row>>, h: TimeMs)
    requires DiskOk(s, all, known) && h == Floor(s) && Aligned(h)
    ensures var file := FileAt(s.windows, h - WINDOW_LEN);
            && Strict(file) && forall r <- file :: h - WINDOW_LEN <= r.t < h
  {
    hide IsLive, Range, Latest, IsClosed, MetaOk, SpanFrom;
    var ws := h - WINDOW_LEN;
    ClosedRowsIn(s, all, known, h, h + 1, ws);
    assert WindowOk(s.windows, all, known, ws);
    if ws in s.windows { ClosedMeans(s.windows[ws], InWindow(all, ws), known[ws]); }
  }

  /** The journeys of the trail and of the recent rows are those heard since `cut`. */
  lemma IdsAre(s: Surface, all: seq<Row>, known: map<TimeMs, seq<Row>>, trail: seq<Row>, recent: seq<Row>, cut: TimeMs,
               now: TimeMs, id: Id)
    requires Ok(s, all, known) && TrailOk(trail, s.windows, s.horizon)
             && Floor(s) - LIVE_TRAIL <= cut && Floor(s) <= now
             && cut >= NEVER
    requires IsRecent(recent, all, Floor(s), cut, now)
    ensures Heard(all, cut, now, id) <==>
              (exists r <- trail :: r.id == id && cut < r.t <= now) || (exists r <- recent :: r.id == id)
  {
    hide MemoryOk, LogsOk, NoOrphans, DiskOk, IsLive, Range, Latest, TrailOk;
    if Heard(all, cut, now, id) {
      var r :| r in all && r.id == id && cut < r.t <= now;
      LatestKeys(all);
      if r.t < Floor(s) {
        ClosedHas(s, all, known, trail, cut, KeyOf(r));
      } else {
        assert Get(Latest(recent), KeyOf(r)).Some?;
        LatestKeys(recent);
        assert Latest(recent)[KeyOf(r)] in recent;
      }
    }
    if r :| r in trail && r.id == id && cut < r.t <= now {
      TrailTold(s, all, known, trail, cut, r);
      assert multiset(trail)[r] > 0;
      ClosedFrom(s, all, known, r);
    }
    if r :| r in recent && r.id == id {
      StrictHas(recent, r);
      assert Get(Latest(recent), KeyOf(r)).Some?;
      LatestKeys(all);
      assert Latest(all)[KeyOf(r)] in all;
    }
  }

  /** Each key heard before the horizon has its row in the trail. */
  lemma ClosedHas(s: Surface, all: seq<Row>, known: map<TimeMs, seq<Row>>, trail: seq<Row>, cut: TimeMs, k: Key)
    requires Ok(s, all, known) && TrailOk(trail, s.windows, s.horizon) && Floor(s) - LIVE_TRAIL <= cut && cut >= NEVER
    requires k in Latest(all) && cut < k.t < Floor(s)
    ensures exists r <- trail :: KeyOf(r) == k
  {
    hide MemoryOk, LogsOk, NoOrphans, IsLive, Range, Latest, TrailOk, IsClosed, MetaOk, SpanFrom, Get;
    FloorIs(s, all);
    var ws := WindowStart(k.t);
    WindowOfTime(ws, k.t);
    ClosedEnds(s, all, ws, k.t);
    LatestInRange(all, ws, ws + WINDOW_LEN, k);
    LatestKeys(InWindow(all, ws));
    assert WindowOk(s.windows, all, known, ws);
    ClosedMeans(s.windows[ws], InWindow(all, ws), known[ws]);
    var r :| r in s.windows[ws] && KeyOf(r) == k;
    TrailTold(s, all, known, trail, cut, r);
    assert multiset(trail)[r] > 0;
  }

  lemma ClosedEnds(s: Surface, all: seq<Row>, ws: TimeMs, t: TimeMs)
    requires (s.horizon.Some? ==> Aligned(s.horizon.value)) && Aligned(ws) && ws <= t < Floor(s)
             && (s.horizon.None? ==> t >= NEVER)
    ensures ws + WINDOW_LEN <= Floor(s)
  {
    if s.horizon.Some? { LastBefore(s.horizon.value, ws); }
  }

  /** A closed row that is told has an arrival at its key. */
  lemma ClosedFrom(s: Surface, all: seq<Row>, known: map<TimeMs, seq<Row>>, r: Row)
    requires Ok(s, all, known) && r.t < Floor(s) && Told(s.windows, all, Floor(s), r) && s.horizon.Some?
    ensures exists x <- all :: x.id == r.id && x.t == r.t
  {
    hide MemoryOk, LogsOk, NoOrphans, IsLive, Range, Latest, IsClosed, MetaOk, SpanFrom;
    FloorIs(s, all);
    var ws := WindowStart(r.t);
    ClosedEnds(s, all, ws, r.t);
    assert WindowOk(s.windows, all, known, ws);
    ClosedMeans(s.windows[ws], InWindow(all, ws), known[ws]);
    LatestKeys(InWindow(all, ws));
    assert Latest(InWindow(all, ws))[KeyOf(r)] in all;
  }

  // --- picking rows ---

  /** The rows whose journey and time are picked, in order. */
  function Where(rows: seq<Row>, pick: Key -> bool): seq<Row> {
    if rows == [] then []
    else Where(rows[..|rows| - 1], pick) + if pick(KeyOf(rows[|rows| - 1])) then [rows[|rows| - 1]] else []
  }

  function UpTo(now: TimeMs): Key -> bool { (k: Key) => k.t <= now }

  function Between(cut: TimeMs, now: TimeMs): Key -> bool { (k: Key) => cut < k.t <= now }

  /** What the exact way keeps whole of a window the trail reaches into: its rows in the trail, and trains. */
  function Whole(cut: TimeMs, now: TimeMs, train: Id -> bool): Key -> bool {
    (k: Key) => k.t <= now && (k.t > cut || train(k.id))
  }

  function Rest(cut: TimeMs, now: TimeMs, train: Id -> bool): Key -> bool {
    (k: Key) => k.t <= now && !(k.t > cut || train(k.id))
  }

  lemma WhereSnoc(rows: seq<Row>, r: Row, pick: Key -> bool)
    ensures Where(rows + [r], pick) == Where(rows, pick) + if pick(KeyOf(r)) then [r] else []
  {
    assert (rows + [r])[..|rows|] == rows;
  }

  lemma {:induction false} WhereLatest(rows: seq<Row>, pick: Key -> bool, k: Key)
    ensures Get(Latest(Where(rows, pick)), k) == if pick(k) then Get(Latest(rows), k) else None
    decreases rows
  {
    if rows != [] {
      var n := |rows| - 1;
      WhereLatest(rows[..n], pick, k);
      var front := Where(rows[..n], pick);
      if pick(KeyOf(rows[n])) {
        assert (front + [rows[n]])[..|front|] == front;
      } else {
        assert Where(rows, pick) == front;
      }
    }
  }

  lemma {:induction false} WhereAll(rows: seq<Row>, pick: Key -> bool)
    requires forall r <- rows :: pick(KeyOf(r))
    ensures Where(rows, pick) == rows
    decreases rows
  {
    if rows != [] {
      var n := |rows| - 1;
      WhereAll(rows[..n], pick);
      assert rows == rows[..n] + [rows[n]];
    }
  }

  lemma {:induction false} WhereNone(rows: seq<Row>, pick: Key -> bool)
    requires forall r <- rows :: !pick(KeyOf(r))
    ensures Where(rows, pick) == []
    decreases rows
  {
    if rows != [] { WhereNone(rows[..|rows| - 1], pick); }
  }

  /** Of every picked journey and time of the windows done, `seen` has the last arrival. */
  ghost predicate Has(seen: seq<Row>, all: seq<Row>, done: set<TimeMs>, pick: Key -> bool) {
    forall k: Key :: Get(Latest(seen), k) == if WindowStart(k.t) in done && pick(k) then Get(Latest(all), k) else None
  }

  lemma NothingSeen(all: seq<Row>, pick: Key -> bool)
    ensures Has([], all, {}, pick)
  {
  }

  /** One more window; `more` are its rows that are picked. */
  lemma HasMore(seen: seq<Row>, all: seq<Row>, done: set<TimeMs>, pick: Key -> bool, ws: TimeMs, more: seq<Row>)
    requires Has(seen, all, done, pick) && Aligned(ws) && ws !in done && more == Where(InWindow(all, ws), pick)
    ensures Has(seen + more, all, done + {ws}, pick)
  {
    hide Latest, Where, Range;
    forall k: Key
      ensures Get(Latest(seen + more), k)
              == if WindowStart(k.t) in done + {ws} && pick(k) then Get(Latest(all), k) else None
    {
      LatestAppend(seen, more, k);
      WhereLatest(InWindow(all, ws), pick, k);
      InRange(all, ws, ws + WINDOW_LEN, k);
      WindowOfTime(ws, k.t);
    }
  }

  /** A window without picked rows counts as done. */
  lemma HasNone(seen: seq<Row>, all: seq<Row>, done: set<TimeMs>, pick: Key -> bool, ws: TimeMs)
    requires Has(seen, all, done, pick) && Aligned(ws) && ws !in done && forall r <- InWindow(all, ws) ::
               !pick(KeyOf(r))
    ensures Has(seen, all, done + {ws}, pick)
  {
    hide Latest, Range;
    WhereNone(InWindow(all, ws), pick);
    HasMore(seen, all, done, pick, ws, []);
    assert seen + [] == seen;
  }

  /** All windows done, the newest rows are those of all open rows up to `now`. */
  lemma AllSeen(s: Surface, all: seq<Row>, newest: map<Id, Row>, seen: seq<Row>, now: TimeMs)
    requires MemoryOk(s, all) && IsNewest(newest, seen) && Has(seen, all, s.open.Keys, UpTo(now))
    ensures IsNewest(newest, Range(all, Floor(s), now + 1))
  {
    hide Latest, Range, Newest, IsLive, SpanOk;
    forall k: Key ensures Get(Latest(seen), k) == Get(Latest(Range(all, Floor(s), now + 1)), k) {
      if k in Latest(all) { OpenKey(s, all, k); }
      InRange(all, Floor(s), now + 1, k);
    }
    SameGets(seen, Range(all, Floor(s), now + 1));
    forall id ensures Find(newest, id) == Newest(Range(all, Floor(s), now + 1), id) {
      assert Find(newest, id) == Newest(seen, id);
      NewestOfSame(seen, Range(all, Floor(s), now + 1), id);
    }
  }

  lemma OpenKey(s: Surface, all: seq<Row>, k: Key)
    requires MemoryOk(s, all) && k in Latest(all)
    ensures WindowStart(k.t) in s.open <==> k.t >= Floor(s)
  {
    hide Latest, Range, IsLive, IsNewest, SpanOk, WinOk;
    LatestKeys(all);
    assert Latest(all)[k] in all;
  }

  /** And the recent rows are those from after `cut`. */
  lemma AllRecent(s: Surface, all: seq<Row>, cand: seq<Row>, recent: seq<Row>, cut: TimeMs, now: TimeMs)
    requires MemoryOk(s, all) && Has(cand, all, s.open.Keys, Between(cut, now))
    requires Strict(recent) && Latest(recent) == Latest(cand)
    ensures IsRecent(recent, all, Floor(s), cut, now)
  {
    hide Latest, Range, MemoryOk, Strict;
    forall k: Key
      ensures Get(Latest(recent), k) == if Floor(s) <= k.t && cut < k.t <= now then Get(Latest(all), k) else None
    {
      if k in Latest(all) { OpenKey(s, all, k); }
      assert Get(Latest(cand), k) == if WindowStart(k.t) in s.open.Keys && Between(cut, now)(k) then Get(Latest(all), k)
                                     else None;
    }
  }
}
