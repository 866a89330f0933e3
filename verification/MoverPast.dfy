/** The live payload at a closed instant, read from the newest keyframe before the trail and the windows since, and the
    payload at any instant. */
module MoverPast {
  import opened Common
  import opened MoverRows
  import opened MoverClose
  import opened MoverState
  import opened MoverRefused
  import opened MoverCommit
  import opened MoverTrail
  import opened MoverPayload
  import opened MoverReopen
  import opened MoverStore
  import opened MoverLive

  /** Each journey's last row before x, or nothing when it was gone by the keyframe. */
  ghost predicate LastIs(last: map<Id, Row>, all: seq<Row>, x: TimeMs) {
    forall id :: Alive(Find(last, id)) == LiveAt(all, x, id) && (id in last ==> last[id].id == id && last[id].t < x)
  }

  /** The rows read so far that are in the trail. */
  ghost predicate TookUp(trail: seq<Row>, windows: map<TimeMs, seq<Row>>, all: seq<Row>, floor: TimeMs, cut: TimeMs,
                         now: TimeMs, from: TimeMs, upto: TimeMs) {
    forall r :: multiset(trail)[r] ==
      if from <= r.t < upto && cut < r.t <= now && Told(windows, all, floor, r) then 1 else 0
  }

  /** Reads one closed window: its rows up to `now` replace their journeys' last rows, and those after `cut` join the
      trail. */
  method ReadWindow(file: seq<Row>, cut: TimeMs, now: TimeMs, last0: map<Id, Row>, trail0: seq<Row>, ghost lo: TimeMs)
    returns (last: map<Id, Row>, trail: seq<Row>)
    requires Strict(file) && (forall r <- file :: r.t >= lo) && (forall id <- last0 :: last0[id].t < lo) && cut <= now
    ensures forall id :: Find(last, id) == Join(Find(last0, id), Newest(Where(file, UpTo(now)), id))
    ensures trail == trail0 + Where(file, Between(cut, now))
  {
    hide Newest;
    last, trail := last0, trail0;
    NothingYet(last0);
    assert Where(file[..0], UpTo(now)) == [] && trail0 + Where(file[..0], Between(cut, now)) == trail0;
    for i := 0 to |file|
      invariant forall id :: Find(last, id) == Join(Find(last0, id), Newest(Where(file[..i], UpTo(now)), id))
      invariant trail == trail0 + Where(file[..i], Between(cut, now))
    {
      var r := file[i];
      assert file[..i + 1] == file[..i] + [r];
      WhereSnoc(file[..i], r, UpTo(now));
      WhereSnoc(file[..i], r, Between(cut, now));
      Appended(trail0, Where(file[..i], Between(cut, now)), r);
      assert Where(file[..i], UpTo(now)) + [] == Where(file[..i], UpTo(now));
      if r.t <= now {
        LastSnoc(file, i, now, last0, last, lo);
        if r.id !in last || last[r.id].t < r.t {
          last := last[r.id := r];
        }
        if r.t > cut {
          trail := trail + [r];
        }
      }
    }
    assert file[..|file|] == file;
  }

  lemma NothingYet(last: map<Id, Row>)
    ensures forall id :: Find(last, id) == Join(Find(last, id), Newest([], id))
  {
  }

  /** The next row of a journey is newer than the last one known. */
  lemma LastSnoc(file: seq<Row>, i: nat, now: TimeMs, last0: map<Id, Row>, last: map<Id, Row>, lo: TimeMs)
    requires Strict(file) && i < |file| && (forall r <- file :: r.t >= lo) && (forall id <- last0 :: last0[id].t < lo)
    requires forall id :: Find(last, id) == Join(Find(last0, id), Newest(Where(file[..i], UpTo(now)), id))
    ensures var r, rows := file[i], Where(file[..i], UpTo(now));
            && (r.id in last ==> last[r.id].t < r.t)
            && forall id :: Find(last[r.id := r], id) == Join(Find(last0, id), Newest(rows + [r], id))
  {
    hide Newest;
    var r, rows := file[i], Where(file[..i], UpTo(now));
    assert Find(last, r.id) == Join(Find(last0, r.id), Newest(rows, r.id));
    WhereIn(file[..i], UpTo(now));
    if Newest(rows, r.id).Some? {
      var x := Newest(rows, r.id).value;
      assert x in file[..i];
      var j :| 0 <= j < i && file[..i][j] == x;
      assert Before(file[j], file[i]);
    }
    forall id ensures Find(last[r.id := r], id) == Join(Find(last0, id), Newest(rows + [r], id)) {
      NewestSnoc(rows, r, id);
      assert Find(last, id) == Join(Find(last0, id), Newest(rows, id));
    }
  }

  lemma {:induction false} WhereIn(rows: seq<Row>, pick: Key -> bool)
    ensures forall r <- Where(rows, pick) :: r in rows && pick(KeyOf(r))
    decreases rows
  {
    if rows != [] {
      WhereIn(rows[..|rows| - 1], pick);
      assert rows == rows[..|rows| - 1] + [rows[|rows| - 1]];
    }
  }

  lemma {:induction false} WhereOnce(rows: seq<Row>, pick: Key -> bool)
    ensures forall r :: multiset(Where(rows, pick))[r] == if pick(KeyOf(r)) then multiset(rows)[r] else 0
    decreases rows
  {
    if rows != [] {
      WhereOnce(rows[..|rows| - 1], pick);
      assert rows == rows[..|rows| - 1] + [rows[|rows| - 1]];
    }
  }

  lemma {:induction false} WhereFlags(a: seq<Row>, b: seq<Row>, pick: Key -> bool)
    requires SameButFlags(a, b)
    ensures SameButFlags(Where(a, pick), Where(b, pick))
    decreases a
  {
    if a != [] {
      var n := |a| - 1;
      WhereFlags(a[..n], b[..n], pick);
      assert KeyOf(a[n]) == KeyOf(b[n]);
    }
  }

  /** What the rows of a closed window up to `now` are, file or arrivals. */
  lemma FileNewest(s: Surface, all: seq<Row>, known: map<TimeMs, seq<Row>>, ws: TimeMs, now: TimeMs, id: Id)
    requires DiskOk(s, all, known) && Aligned(ws) && ws + WINDOW_LEN <= Floor(s) && ws <= now
    ensures var file, rows := FileAt(s.windows, ws), Range(all, ws, Min(ws + WINDOW_LEN, now + 1));
            && Strict(file) && (forall r <- file :: ws <= r.t < ws + WINDOW_LEN)
            && Alive(Newest(Where(file, UpTo(now)), id)) == Alive(Newest(rows, id))
            && (Newest(Where(file, UpTo(now)), id).Some? <==> Newest(rows, id).Some?)
  {
    hide Latest, Range, Newest, IsLive, MetaOk, SpanFrom, KeyframeOk, Strict;
    ClosedRowsIn(s, all, known, Floor(s), Floor(s) + 1, ws);
    assert WindowOk(s.windows, all, known, ws);
    var file, rows := FileAt(s.windows, ws), Range(all, ws, Min(ws + WINDOW_LEN, now + 1));
    if InWindow(all, ws) == [] {
      forall r <- all ensures !(ws <= r.t < Min(ws + WINDOW_LEN, now + 1)) { RangeHas(all, ws, ws + WINDOW_LEN, r); }
      RangeEmpty(all, ws, Min(ws + WINDOW_LEN, now + 1));
      assert Where(file, UpTo(now)) == [];
      NoneStrict();
    } else {
      ClosedMeans(file, InWindow(all, ws), known[ws]);
      var d :| Strict(d) && Latest(d) == Latest(InWindow(all, ws)) && file == Marked(d, known[ws]);
      MarkedFlags(d, known[ws]);
      WhereFlags(d, file, UpTo(now));
      FlagsKeepNewest(Where(d, UpTo(now)), Where(file, UpTo(now)), id);
      forall k: Key ensures Get(Latest(Where(d, UpTo(now))), k) == Get(Latest(rows), k) {
        WhereLatest(d, UpTo(now), k);
        InRange(all, ws, Min(ws + WINDOW_LEN, now + 1), k);
        InRange(all, ws, ws + WINDOW_LEN, k);
      }
      SameGets(Where(d, UpTo(now)), rows);
      NewestOfSame(Where(d, UpTo(now)), rows, id);
    }
  }

  lemma NoneStrict()
    ensures Strict([])
  {
  }

  /** One window more: the last rows, and the trail. */
  lemma PastStep(s: Surface, all: seq<Row>, known: map<TimeMs, seq<Row>>, ws: TimeMs, now: TimeMs, last0: map<Id, Row>,
                 last: map<Id, Row>)
    requires DiskOk(s, all, known) && Aligned(ws) && NEVER <= ws && ws + WINDOW_LEN <= Floor(s) && ws <= now
    requires LastIs(last0, all, ws)
    requires forall id ::
               Find(last, id) == Join(Find(last0, id), Newest(Where(FileAt(s.windows, ws), UpTo(now)), id))
    ensures LastIs(last, all, Min(ws + WINDOW_LEN, now + 1))
  {
    hide DiskOk, Range, Newest, Strict, Where;
    var x := Min(ws + WINDOW_LEN, now + 1);
    var rows := Where(FileAt(s.windows, ws), UpTo(now));
    WhereIn(FileAt(s.windows, ws), UpTo(now));
    forall id
      ensures Alive(Find(last, id)) == LiveAt(all, x, id) && (id in last ==> last[id].id == id && last[id].t < x)
    {
      assert Find(last, id) == Join(Find(last0, id), Newest(rows, id));
      assert Alive(Find(last0, id)) == LiveAt(all, ws, id);
      FileNewest(s, all, known, ws, now, id);
      NewestSplit(all, id, NEVER, ws, x);
      if Newest(rows, id).Some? {
        assert Newest(rows, id).value in rows;
        assert UpTo(now)(KeyOf(Newest(rows, id).value));
      }
    }
  }

  lemma TrailStep(s: Surface, all: seq<Row>, known: map<TimeMs, seq<Row>>, ws: TimeMs, cut: TimeMs, now: TimeMs,
                  from: TimeMs, trail: seq<Row>)
    requires DiskOk(s, all, known) && Aligned(ws) && ws + WINDOW_LEN <= Floor(s) && from <= ws <= now
    requires TookUp(trail, s.windows, all, Floor(s), cut, now, from, ws)
    ensures TookUp(trail + Where(FileAt(s.windows, ws), Between(cut, now)), s.windows, all, Floor(s), cut, now, from,
              ws + WINDOW_LEN)
  {
    hide DiskOk, Range, Newest, Strict, Where, Latest;
    var file := FileAt(s.windows, ws);
    FileNewest(s, all, known, ws, now, 0);
    StrictOnce(file);
    WhereOnce(file, Between(cut, now));
    forall r
      ensures multiset(trail + Where(file, Between(cut, now)))[r] ==
        if from <= r.t < ws + WINDOW_LEN && cut < r.t <= now && Told(s.windows, all, Floor(s), r) then 1 else 0
    {
      WindowOfTime(ws, r.t);
      assert multiset(trail)[r] ==
        if from <= r.t < ws && cut < r.t <= now && Told(s.windows, all, Floor(s), r) then 1 else 0;
    }
  }

  /** Where reading starts: the newest keyframe that is not after the trail's first window, or the first row's
      window. */
  method StartPast(m: MoverStore, cut: TimeMs, now: TimeMs) returns (last: map<Id, Row>, ws: TimeMs)
    requires m.Valid() && m.horizon.Some? && m.span.Some? && m.span.value.0 <= now < m.horizon.value && cut < now
    ensures Aligned(ws) && NEVER <= ws <= now && LastIs(last, m.all, ws) && ws <= Max(cut, WindowStart(m.span.value.0))
    ensures ws <= cut || ws == WindowStart(m.span.value.0)
  {
    hide Holds, Ok, LastIs, Recoverable, IsLive;
    OkRecoverable(m.S(), m.all, m.known);
    Facts(m.S(), m.all, m.known, now);
    var first := m.span.value.0;
    var h := HourStart(WindowStart(cut));
    while h > first && h !in m.keyframes
      invariant h % HOUR == 0 && h <= WindowStart(cut)
      decreases h - first
    {
      HourBefore(h);
      h := h - HOUR;
    }
    KeyframeIs(m.S(), m.all, m.known, h);
    HourAligned(h);
    if h > first {
      KeyframeLast(m.keyframes[h], m.all, h);
      return m.keyframes[h], h;
    }
    last, ws := map[], WindowStart(first);
    NoneBeforeFirst(m.S(), m.all, m.known, ws);
    KeyframeLast(map[], m.all, ws);
  }

  lemma Facts(s: Surface, all: seq<Row>, known: map<TimeMs, seq<Row>>, now: TimeMs)
    requires Ok(s, all, known) && s.horizon.Some? && now < s.horizon.value
    ensures Aligned(s.horizon.value) && Floor(s) == s.horizon.value && DiskOk(s, all, known)
    ensures s.span.Some? ==> s.span.value.0 >= -0x8000_0000_0000_0000
    ensures s.span.Some? && s.span.value.0 <= now ==>
              s.meta.span.Some? && s.meta.span.value.0 == s.span.value.0 && s.span.value.0 < s.horizon.value
    ensures forall r <- all :: s.span.Some? && s.span.value.0 <= r.t && r.t >= NEVER
  {
    hide LogsOk, NoOrphans, OpenOk, IsLive, IsNewest, FilesOk, SpanFrom;
  }

  lemma KeyframeLast(live: map<Id, Row>, all: seq<Row>, h: TimeMs)
    requires IsLive(live, all, h)
    ensures LastIs(live, all, h)
  {
    hide Newest, Range;
    forall id
      ensures Alive(Find(live, id)) == LiveAt(all, h, id) && (id in live ==> live[id].id == id && live[id].t < h)
    {
      assert Find(live, id) == LiveAt(all, h, id);
    }
  }

  /** One closed window, when it has a file. */
  method PastWindow(m: MoverStore, ws: TimeMs, cut: TimeMs, now: TimeMs, last0: map<Id, Row>, trail0: seq<Row>,
                    ghost from: TimeMs)
    returns (last: map<Id, Row>, trail: seq<Row>)
    requires DiskOk(m.S(), m.all, m.known) && Aligned(ws) && NEVER <= ws && ws + WINDOW_LEN <= Floor(m.S())
             && from <= ws <= now && cut <= now
    requires LastIs(last0, m.all, ws) && TookUp(trail0, m.windows, m.all, Floor(m.S()), cut, now, from, ws)
    ensures LastIs(last, m.all, Min(ws + WINDOW_LEN, now + 1))
    ensures TookUp(trail, m.windows, m.all, Floor(m.S()), cut, now, from, ws + WINDOW_LEN)
  {
    hide DiskOk, LastIs, TookUp, Where, Strict, Newest;
    StepFacts(m.S(), m.all, m.known, ws, now, last0);
    last, trail := last0, trail0;
    if ws in m.windows {
      last, trail := ReadWindow(m.windows[ws], cut, now, last, trail, ws);
    } else {
      NoFile(last, cut, now);
      assert trail + [] == trail;
    }
    PastStep(m.S(), m.all, m.known, ws, now, last0, last);
    TrailStep(m.S(), m.all, m.known, ws, cut, now, from, trail0);
  }

  /** The payload at an instant before the horizon. */
  method LiveFromDisk(m: MoverStore, now: TimeMs) returns (rows: seq<Row>)
    requires m.Valid() && m.horizon.Some? && now < m.horizon.value && now - LIVE_TRAIL >= NEVER
    ensures IsPayload(rows, m.windows, m.all, Floor(m.S()), now)
  {
    hide Holds, Ok, IsPayload, LastIs, TookUp, Where, Aligned;
    var cut := now - LIVE_TRAIL;
    Facts(m.S(), m.all, m.known, now);
    if m.span.None? || now < m.span.value.0 {
      NothingPays(m.S(), m.all, m.known, now);
      return [];
    }
    var last, ws := StartPast(m, cut, now);
    var trail: seq<Row> := [];
    ghost var from, x := ws, ws;
    NothingTook(m.windows, m.all, Floor(m.S()), cut, now, from);
    while ws <= now
      invariant Aligned(ws) && NEVER <= from <= ws && x == Min(ws, now + 1) && LastIs(last, m.all, x)
      invariant TookUp(trail, m.windows, m.all, Floor(m.S()), cut, now, from, ws)
      decreases now + 1 - ws
    {
      LastBefore(m.horizon.value, ws);
      last, trail := PastWindow(m, ws, cut, now, last, trail, from);
      NextAligned(ws);
      ws := ws + WINDOW_LEN;
      x := Min(ws, now + 1);
    }
    var ids := set r | r in trail :: r.id;
    LastOwnIds(last, m.all, now + 1);
    var older := OpenPart(last, ids);
    rows := trail + older;
    PastIs(m.S(), m.all, m.known, now, from, ws, trail, last, ids, older);
  }

  lemma NextAligned(ws: TimeMs)
    requires Aligned(ws)
    ensures Aligned(ws + WINDOW_LEN)
  {
  }

  lemma HourBefore(h: TimeMs)
    requires h % HOUR == 0
    ensures (h - HOUR) % HOUR == 0
  {
  }

  lemma NothingTook(windows: map<TimeMs, seq<Row>>, all: seq<Row>, floor: TimeMs, cut: TimeMs, now: TimeMs,
                    from: TimeMs)
    ensures TookUp([], windows, all, floor, cut, now, from, from)
  {
  }

  lemma StepFacts(s: Surface, all: seq<Row>, known: map<TimeMs, seq<Row>>, ws: TimeMs, now: TimeMs, last: map<Id, Row>)
    requires DiskOk(s, all, known) && Aligned(ws) && ws + WINDOW_LEN <= Floor(s) && ws <= now && LastIs(last, all, ws)
    ensures var file := FileAt(s.windows, ws); Strict(file) && forall r <- file :: r.t >= ws
    ensures forall id <- last :: last[id].t < ws
  {
    hide DiskOk, Newest, Range, Latest, Strict, Where;
    FileNewest(s, all, known, ws, now, 0);
  }

  lemma NoFile(last: map<Id, Row>, cut: TimeMs, now: TimeMs)
    ensures Where([], UpTo(now)) == [] && Where([], Between(cut, now)) == []
    ensures forall id :: Find(last, id) == Join(Find(last, id), Newest(Where([], UpTo(now)), id))
  {
  }

  lemma LastOwnIds(last: map<Id, Row>, all: seq<Row>, x: TimeMs)
    requires LastIs(last, all, x)
    ensures forall id <- last :: last[id].id == id
  {
  }

  /** A row told before the horizon has an arrival at its journey and time, and the other way round. */
  lemma ToldHeard(s: Surface, all: seq<Row>, known: map<TimeMs, seq<Row>>, cut: TimeMs, now: TimeMs, id: Id)
    requires Ok(s, all, known) && s.horizon.Some? && now < Floor(s) && cut >= NEVER
    ensures Heard(all, cut, now, id) <==>
              exists r: Row :: r.id == id && cut < r.t <= now && Told(s.windows, all, Floor(s), r)
  {
    hide MemoryOk, LogsOk, NoOrphans, IsLive, Range, Latest, IsClosed, MetaOk, SpanFrom;
    FloorIs(s, all);
    if Heard(all, cut, now, id) {
      var x :| x in all && x.id == id && cut < x.t <= now;
      var ws := WindowStart(x.t);
      ClosedEnds(s, all, ws, x.t);
      assert WindowOk(s.windows, all, known, ws);
      RangeHas(all, ws, ws + WINDOW_LEN, x);
      LatestKeys(InWindow(all, ws));
      ClosedMeans(s.windows[ws], InWindow(all, ws), known[ws]);
      var r :| r in s.windows[ws] && KeyOf(r) == KeyOf(x);
      assert Told(s.windows, all, Floor(s), r);
    }
    if r: Row :| r.id == id && cut < r.t <= now && Told(s.windows, all, Floor(s), r) {
      ClosedFrom(s, all, known, r);
    }
  }

  lemma NothingPays(s: Surface, all: seq<Row>, known: map<TimeMs, seq<Row>>, now: TimeMs)
    requires Ok(s, all, known) && s.horizon.Some? && now < Floor(s) && now - LIVE_TRAIL >= NEVER
    requires s.span.None? || now < s.span.value.0
    ensures IsPayload([], s.windows, all, Floor(s), now)
  {
    hide Ok, Newest, Range, Told, Latest;
    Facts(s, all, known, now);
    forall r ensures !Pays(s.windows, all, Floor(s), now, r) {
      RangeEmpty(all, NEVER, now + 1);
      NoneNewest(r.id);
      if r.t > now - LIVE_TRAIL && r.t <= now && Told(s.windows, all, Floor(s), r) { ClosedFrom(s, all, known, r); }
    }
  }

  /** What was read is the payload. */
  lemma PastIs(s: Surface, all: seq<Row>, known: map<TimeMs, seq<Row>>, now: TimeMs, from: TimeMs, upto: TimeMs,
               trail: seq<Row>, last: map<Id, Row>, ids: set<Id>, older: seq<Row>)
    requires Ok(s, all, known) && s.horizon.Some? && now < Floor(s) && now - LIVE_TRAIL >= NEVER && upto > now
    requires s.span.Some? && (from <= now - LIVE_TRAIL || from == WindowStart(s.span.value.0))
    requires TookUp(trail, s.windows, all, Floor(s), now - LIVE_TRAIL, now, from, upto) && LastIs(last, all, now + 1)
    requires ids == set r | r in trail :: r.id
    requires forall r :: multiset(older)[r] ==
               if r.id in last && last[r.id] == r && r.id !in ids && !r.gone then 1 else 0
    ensures IsPayload(trail + older, s.windows, all, Floor(s), now)
  {
    hide Ok, Newest, Range, Told, Latest, TookUp, Heard;
    var cut := now - LIVE_TRAIL;
    Facts(s, all, known, now);
    forall r
      ensures multiset(trail)[r] == if cut < r.t <= now && Told(s.windows, all, Floor(s), r) then 1 else 0
    {
      TrailHas(s, all, known, now, from, upto, trail, r);
    }
    forall r
      ensures multiset(trail + older)[r] == if Pays(s.windows, all, Floor(s), now, r) then 1 else 0
    {
      assert multiset(trail + older)[r] == multiset(trail)[r] + multiset(older)[r];
      ToldHeard(s, all, known, cut, now, r.id);
      Older(all, cut, now, r.id);
      assert Alive(Find(last, r.id)) == LiveAt(all, now + 1, r.id);
      assert r.id in ids <==> Heard(all, cut, now, r.id) by { IdsTold(s, all, cut, now, trail, ids, r.id); }
    }
  }

  lemma IdsTold(s: Surface, all: seq<Row>, cut: TimeMs, now: TimeMs, trail: seq<Row>, ids: set<Id>, id: Id)
    requires forall r :: multiset(trail)[r] == if cut < r.t <= now && Told(s.windows, all, Floor(s), r) then 1 else 0
    requires ids == set r | r in trail :: r.id
    requires Heard(all, cut, now, id) <==>
               exists r: Row :: r.id == id && cut < r.t <= now && Told(s.windows, all, Floor(s), r)
    ensures id in ids <==> Heard(all, cut, now, id)
  {
    hide Told, Heard;
    if Heard(all, cut, now, id) {
      var r: Row :| r.id == id && cut < r.t <= now && Told(s.windows, all, Floor(s), r);
      assert multiset(trail)[r] == 1;
    }
    if id in ids {
      var r :| r in trail && r.id == id;
      assert multiset(trail)[r] > 0;
    }
  }

  lemma TrailHas(s: Surface, all: seq<Row>, known: map<TimeMs, seq<Row>>, now: TimeMs, from: TimeMs, upto: TimeMs,
                 trail: seq<Row>, r: Row)
    requires Ok(s, all, known) && s.horizon.Some? && now < Floor(s) && now - LIVE_TRAIL >= NEVER && upto > now
    requires s.span.Some? && (from <= now - LIVE_TRAIL || from == WindowStart(s.span.value.0))
    requires TookUp(trail, s.windows, all, Floor(s), now - LIVE_TRAIL, now, from, upto)
    ensures multiset(trail)[r] ==
              if now - LIVE_TRAIL < r.t <= now && Told(s.windows, all, Floor(s), r) then 1 else 0
  {
    hide Ok, Told;
    Facts(s, all, known, now);
    if now - LIVE_TRAIL < r.t <= now && Told(s.windows, all, Floor(s), r) { ClosedFrom(s, all, known, r); }
  }

  /** The payload at any instant, closed or open. */
  method Live(m: MoverStore, now: TimeMs, train: Id -> bool, readable: TimeMs -> bool) returns (rows: Option<seq<Row>>)
    requires m.Valid() && m.Trailed() && now - LIVE_TRAIL >= NEVER
    ensures rows.Some? ==> IsPayload(rows.value, m.windows, m.all, Floor(m.S()), now)
    ensures (forall ws :: readable(ws)) ==> rows.Some?
  {
    hide Holds, IsPayload, Ok;
    if m.horizon.None? || now >= m.horizon.value {
      rows := LiveFromMemory(m, now, train, readable);
    } else {
      var past := LiveFromDisk(m, now);
      rows := Some(past);
    }
  }
}
