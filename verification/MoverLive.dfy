/** The live payload read from a store's memory: from resident windows and the indexes of evicted ones, or with evicted
    windows read back where the trail reaches into one. Either way it is the payload the accepted rows determine. */
module MoverLive {
  import opened Common
  import opened MoverRows
  import opened MoverClose
  import opened MoverState
  import opened MoverRefused
  import opened MoverCommit
  import opened MoverTrail
  import opened MoverPayload
  import opened MoverStore

  /** The rows are the payload, each once. */
  ghost predicate IsPayload(rows: seq<Row>, windows: map<TimeMs, seq<Row>>, all: seq<Row>, floor: TimeMs,
                            now: TimeMs) {
    forall r :: multiset(rows)[r] == if Pays(windows, all, floor, now, r) then 1 else 0
  }

  // --- the payload from its parts ---

  /** Where the rows after `cut` begin. */
  method FirstAfter(rows: seq<Row>, cut: TimeMs) returns (i: nat)
    requires TimeOrder(rows)
    ensures i <= |rows| && (forall k :: 0 <= k < i ==> rows[k].t <= cut)
    ensures forall k :: i <= k < |rows| ==> rows[k].t > cut
  {
    i := 0;
    var j := |rows|;
    while i < j
      invariant 0 <= i <= j <= |rows|
      invariant (forall k :: 0 <= k < i ==> rows[k].t <= cut) && forall k :: j <= k < |rows| ==> rows[k].t > cut
    {
      var h := (i + j) / 2;
      if rows[h].t > cut {
        j := h;
      } else {
        i := h + 1;
      }
    }
  }

  /** The rows of the trail from after `cut` up to `now`. */
  method TrailPart(trail: seq<Row>, cut: TimeMs, now: TimeMs) returns (rows: seq<Row>)
    requires TimeOrder(trail)
    ensures forall r :: multiset(rows)[r] == if cut < r.t <= now then multiset(trail)[r] else 0
  {
    var i := FirstAfter(trail, cut);
    var j := i;
    while j < |trail| && trail[j].t <= now
      invariant i <= j <= |trail| && forall k :: i <= k < j ==> cut < trail[k].t <= now
    {
      j := j + 1;
    }
    rows := trail[i..j];
    PartBetween(trail[..i], rows, trail[j..], cut, now);
    assert trail == trail[..i] + trail[i..j] + trail[j..];
  }

  lemma PartBetween(a: seq<Row>, b: seq<Row>, c: seq<Row>, cut: TimeMs, now: TimeMs)
    requires (forall r <- a :: r.t <= cut) && (forall r <- b :: cut < r.t <= now)
             && forall r <- c :: r.t > now || r.t <= cut
    ensures forall r :: multiset(b)[r] == if cut < r.t <= now then multiset(a + b + c)[r] else 0
  {
    forall r
      ensures multiset(b)[r] == if cut < r.t <= now then multiset(a + b + c)[r] else 0
    {
      assert multiset(a + b + c) == multiset(a) + multiset(b) + multiset(c);
      assert multiset(a)[r] > 0 ==> r in a;
      assert multiset(c)[r] > 0 ==> r in c;
      assert multiset(b)[r] > 0 ==> r in b;
    }
  }

  /** The live journeys of which no newer row is known. */
  method LivePart(live: map<Id, Row>, newest: map<Id, Row>, ids: set<Id>) returns (rows: seq<Row>)
    requires forall id <- live :: live[id].id == id
    ensures forall r :: multiset(rows)[r] ==
              if r.id in live && live[r.id] == r && r.id !in newest && r.id !in ids then 1
              else 0
  {
    rows := [];
    var rest := live.Keys;
    while rest != {}
      invariant rest <= live.Keys
      invariant forall r :: multiset(rows)[r] == if r.id in live && r.id !in rest && live[r.id] == r
                  && r.id !in newest && r.id !in ids then 1 else 0
      decreases rest
    {
      SomeId(rest);
      var id :| id in rest;
      if id !in newest && id !in ids {
        rows := rows + [live[id]];
      }
      rest := rest - {id};
    }
  }

  /** The journeys whose newest open row is older than the trail and no gone. */
  method OpenPart(newest: map<Id, Row>, ids: set<Id>) returns (rows: seq<Row>)
    requires forall id <- newest :: newest[id].id == id
    ensures forall r :: multiset(rows)[r] == if r.id in newest && newest[r.id] == r && r.id !in ids && !r.gone then 1
              else 0
  {
    rows := [];
    var rest := newest.Keys;
    while rest != {}
      invariant rest <= newest.Keys
      invariant forall r :: multiset(rows)[r] == if r.id in newest && r.id !in rest && newest[r.id] == r
                  && r.id !in ids && !r.gone then 1 else 0
      decreases rest
    {
      SomeId(rest);
      var id :| id in rest;
      if id !in ids && !newest[id].gone {
        rows := rows + [newest[id]];
      }
      rest := rest - {id};
    }
  }

  lemma SomeId(s: set<Id>)
    ensures s == {} || exists id :: id in s
  {
    if forall id :: id !in s { assert s == {}; }
  }

  /** Puts the payload together from the trail, the recent open rows, each journey's newest open row and the live
      journeys. */
  method LivePayload(m: MoverStore, now: TimeMs, newest: map<Id, Row>, recent: seq<Row>) returns (rows: seq<Row>)
    requires m.Valid() && m.Trailed() && Floor(m.S()) <= now && now - LIVE_TRAIL >= NEVER
    requires IsNewest(newest, Range(m.all, Floor(m.S()), now + 1))
    requires IsRecent(recent, m.all, Floor(m.S()), now - LIVE_TRAIL, now)
    ensures IsPayload(rows, m.windows, m.all, Floor(m.S()), now)
  {
    hide Holds, Ok, IsRecent, IsNewest, Pays, TrailOk, Range;
    var cut := now - LIVE_TRAIL;
    TrailSorted(m.trail, m.windows, m.horizon);
    var closed := TrailPart(m.trail, cut, now);
    var ids := set r | r in closed + recent :: r.id;
    OwnIds(m.S(), m.all, m.known, newest, now);
    var live := LivePart(m.live, newest, ids);
    var last := OpenPart(newest, ids);
    rows := closed + recent + live + last;
    PartsAre(m.S(), m.all, m.known, m.trail, newest, recent, now, closed, ids, live, last);
  }

  lemma TrailSorted(trail: seq<Row>, windows: map<TimeMs, seq<Row>>, horizon: Option<TimeMs>)
    requires TrailOk(trail, windows, horizon)
    ensures TimeOrder(trail)
  {
  }

  lemma OwnIds(s: Surface, all: seq<Row>, known: map<TimeMs, seq<Row>>, newest: map<Id, Row>, now: TimeMs)
    requires Ok(s, all, known) && IsNewest(newest, Range(all, Floor(s), now + 1)) && NEVER <= now && Floor(s) <= now
    ensures (forall id <- s.live :: s.live[id].id == id) && forall id <- newest :: newest[id].id == id
    ensures IsLive(s.live, all, Floor(s)) && Floor(s) >= NEVER && forall r <- all :: r.t >= NEVER
  {
    hide LogsOk, DiskOk, NoOrphans, IsLive, IsNewest, Range, OpenOk;
    forall id | id in s.live || id in newest
      ensures (id in s.live ==> s.live[id].id == id) && (id in newest ==> newest[id].id == id)
    {
      NewestJoin(all, s.live, newest, Floor(s), now, id);
    }
  }

  lemma PartsAre(s: Surface, all: seq<Row>, known: map<TimeMs, seq<Row>>, trail: seq<Row>, newest: map<Id, Row>,
                 recent: seq<Row>, now: TimeMs, closed: seq<Row>, ids: set<Id>, live: seq<Row>, last: seq<Row>)
    requires Ok(s, all, known) && TrailOk(trail, s.windows, s.horizon) && Floor(s) <= now && now - LIVE_TRAIL >= NEVER
    requires IsNewest(newest, Range(all, Floor(s), now + 1)) && IsRecent(recent, all, Floor(s), now - LIVE_TRAIL, now)
    requires forall r :: multiset(closed)[r] == if now - LIVE_TRAIL < r.t <= now then multiset(trail)[r] else 0
    requires ids == set r | r in closed + recent :: r.id
    requires forall r :: multiset(live)[r] ==
               if r.id in s.live && s.live[r.id] == r && r.id !in newest && r.id !in ids then 1 else 0
    requires forall r :: multiset(last)[r] ==
               if r.id in newest && newest[r.id] == r && r.id !in ids && !r.gone then 1 else 0
    ensures IsPayload(closed + recent + live + last, s.windows, all, Floor(s), now)
  {
    hide Ok, IsRecent, IsNewest, Pays, TrailOk, Range, Told, Heard, IsLive;
    var cut := now - LIVE_TRAIL;
    OwnIds(s, all, known, newest, now);
    HeardIds(s, all, known, trail, recent, cut, now, closed, ids);
    forall x ensures x in trail && cut < x.t <= now <==> cut < x.t < Floor(s) && Told(s.windows, all, Floor(s), x) {
      TrailTold(s, all, known, trail, cut, x);
    }
    RecentOnce(recent, all, Floor(s), cut, now);
    forall r
      ensures multiset(closed + recent + live + last)[r] == if Pays(s.windows, all, Floor(s), now, r) then 1 else 0
    {
      TrailTold(s, all, known, trail, cut, r);
      PartsPay(s.windows, all, Floor(s), now, trail, recent, s.live, newest, ids, r);
      var p := multiset(closed)[r] + multiset(recent)[r] + multiset(live)[r] + multiset(last)[r];
      assert multiset(closed + recent + live + last)[r] == p;
      Counted(trail, recent, s.live, newest, cut, now, ids, r, multiset(closed)[r],
              multiset(recent)[r], multiset(live)[r],
          multiset(last)[r]);
    }
  }

  lemma RecentOnce(recent: seq<Row>, all: seq<Row>, floor: TimeMs, cut: TimeMs, now: TimeMs)
    requires IsRecent(recent, all, floor, cut, now)
    ensures forall r :: multiset(recent)[r] == if r in recent then 1 else 0
  {
    StrictOnce(recent);
  }

  /** A row in at most one part is counted once if it is in one. */
  lemma Counted(trail: seq<Row>, recent: seq<Row>, live: map<Id, Row>, newest: map<Id, Row>, cut: TimeMs, now: TimeMs,
                ids: set<Id>, r: Row, a: nat, b: nat, c: nat, d: nat)
    requires forall p: nat, q: nat :: p < q < 4 && Parts(trail, recent, live, newest, cut, now, ids, r, p) ==>
               !Parts(trail, recent, live, newest, cut, now, ids, r, q)
    requires a == (if Parts(trail, recent, live, newest, cut, now, ids, r, 0) then 1 else 0)
    requires b == (if Parts(trail, recent, live, newest, cut, now, ids, r, 1) then 1 else 0)
    requires c == (if Parts(trail, recent, live, newest, cut, now, ids, r, 2) then 1 else 0)
    requires d == (if Parts(trail, recent, live, newest, cut, now, ids, r, 3) then 1 else 0)
    ensures a + b + c + d == if exists p: nat :: p < 4 && Parts(trail, recent, live, newest, cut, now, ids, r, p) then 1
              else 0
  {
    hide Parts;
    if p: nat :| p < 4 && Parts(trail, recent, live, newest, cut, now, ids, r, p) {
      assert p == 0 || p == 1 || p == 2 || p == 3;
    }
  }

  lemma HeardIds(s: Surface, all: seq<Row>, known: map<TimeMs, seq<Row>>, trail: seq<Row>, recent: seq<Row>,
                 cut: TimeMs, now: TimeMs, closed: seq<Row>, ids: set<Id>)
    requires Ok(s, all, known) && TrailOk(trail, s.windows, s.horizon)
             && Floor(s) - LIVE_TRAIL <= cut && Floor(s) <= now
             && cut >= NEVER && IsRecent(recent, all, Floor(s), cut, now)
    requires forall r :: multiset(closed)[r] == if cut < r.t <= now then multiset(trail)[r] else 0
    requires ids == set r | r in closed + recent :: r.id
    ensures forall id :: id in ids <==> Heard(all, cut, now, id)
  {
    hide Ok, TrailOk, IsRecent, Heard;
    forall r ensures r in closed <==> r in trail && cut < r.t <= now {
      assert multiset(closed)[r] == if cut < r.t <= now then multiset(trail)[r] else 0;
    }
    forall id ensures id in ids <==> Heard(all, cut, now, id) {
      IdsAre(s, all, known, trail, recent, cut, now, id);
      if r :| r in closed && r.id == id { assert r in closed + recent; }
      if r :| r in recent && r.id == id { assert r in closed + recent; }
    }
  }

  // --- memory alone ---

  /** Takes the newest rows of an evicted window's index. */
  method NoteIndex(newest: map<Id, Row>, last: map<Id, Row>) returns (out: map<Id, Row>)
    requires forall id <- last :: last[id].id == id
    ensures out == NoteAll(newest, last)
  {
    out := newest;
    var rest := last.Keys;
    while rest != {}
      invariant rest <= last.Keys && newest.Keys <= out.Keys <= newest.Keys + last.Keys
      invariant forall id <- last :: if id in rest then (id in out <==> id in newest) else id in out
      invariant forall id <- out :: out[id] ==
                  if id in last && id !in rest && !(id in newest && newest[id].t > last[id].t) then last[id]
                  else if id in newest then newest[id] else last[id]
      decreases rest
    {
      SomeId(rest);
      var id :| id in rest;
      out := Note(out, last[id]);
      rest := rest - {id};
    }
    forall id <- last ensures id in out {}
    assert out.Keys == newest.Keys + last.Keys;
    forall id <- out ensures out[id] == NoteAll(newest, last)[id] {}
  }

  /** Takes a resident window's rows up to `now`: the newest of each journey, and those after `cut`. */
  method TakeResident(rows: seq<Row>, cut: TimeMs, now: TimeMs, newest0: map<Id, Row>, cand0: seq<Row>,
                      ghost seen: seq<Row>)
    returns (newest: map<Id, Row>, cand: seq<Row>)
    requires IsNewest(newest0, seen)
    ensures IsNewest(newest, seen + Where(rows, UpTo(now))) && cand == cand0 + Where(rows, Between(cut, now))
  {
    hide IsNewest;
    newest, cand := newest0, cand0;
    assert seen + Where(rows[..0], UpTo(now)) == seen && cand0 + Where(rows[..0], Between(cut, now)) == cand0;
    for i := 0 to |rows|
      invariant IsNewest(newest, seen + Where(rows[..i], UpTo(now)))
      invariant cand == cand0 + Where(rows[..i], Between(cut, now))
    {
      var r := rows[i];
      assert rows[..i + 1] == rows[..i] + [r];
      WhereSnoc(rows[..i], r, UpTo(now));
      WhereSnoc(rows[..i], r, Between(cut, now));
      Appended(seen, Where(rows[..i], UpTo(now)), r);
      Appended(cand0, Where(rows[..i], Between(cut, now)), r);
      if r.t <= now {
        NoteOk(newest, seen + Where(rows[..i], UpTo(now)), r);
        newest := Note(newest, r);
        if r.t > cut {
          cand := cand + [r];
        }
      }
    }
    assert rows[..|rows|] == rows;
  }

  lemma Appended(a: seq<Row>, b: seq<Row>, r: Row)
    ensures a + (b + [r]) == (a + b) + [r] && a + (b + []) == a + b
  {
  }

  /** An evicted window holds rows of the trail at `now`. */
  predicate Reaches(w: Win, cut: TimeMs, now: TimeMs) { w.spilled && w.n > 0 && w.tmin <= now && w.tmax > cut }

  /** What memory alone gives: the newest open row of every journey and the open rows after `cut`. */
  ghost predicate Gathered(s: Surface, all: seq<Row>, done: set<TimeMs>, cut: TimeMs, now: TimeMs, newest: map<Id, Row>,
                           seen: seq<Row>, cand: seq<Row>) {
    && done <= s.open.Keys && IsNewest(newest, seen) && Has(seen, all, done, UpTo(now))
    && Has(cand, all, done, Between(cut, now))
  }

  /** Takes one window that need not be read back. */
  method TakeWindow(m: MoverStore, ws: TimeMs, cut: TimeMs, now: TimeMs, newest0: map<Id, Row>, cand0: seq<Row>,
                    ghost done: set<TimeMs>, ghost seen0: seq<Row>)
    returns (newest: map<Id, Row>, cand: seq<Row>, ghost seen: seq<Row>)
    requires MemoryOk(m.S(), m.all) && ws in m.open && ws !in done && !Reaches(m.open[ws], cut, now) && cut < now
    requires Gathered(m.S(), m.all, done, cut, now, newest0, seen0, cand0)
    ensures Gathered(m.S(), m.all, done + {ws}, cut, now, newest, seen, cand)
  {
    hide IsNewest, Has, IsLive, IsEarliest, SpanOk, Range;
    var w := m.open[ws];
    ghost var arrivals := InWindow(m.all, ws);
    WindowIs(m.S(), m.all, ws);
    if !w.spilled {
      newest, cand := TakeResident(w.rows, cut, now, newest0, cand0, seen0);
      seen := seen0 + Where(arrivals, UpTo(now));
      HasMore(seen0, m.all, done, UpTo(now), ws, Where(arrivals, UpTo(now)));
      HasMore(cand0, m.all, done, Between(cut, now), ws, Where(arrivals, Between(cut, now)));
      return;
    }
    cand := cand0;
    HasNone(cand0, m.all, done, Between(cut, now), ws);
    if w.tmin <= now {
      LastOwn(w, arrivals);
      newest := NoteIndex(newest0, w.last);
      seen := seen0 + arrivals;
      NoteAllOk(newest0, w.last, seen0, arrivals);
      WhereAll(arrivals, UpTo(now));
      HasMore(seen0, m.all, done, UpTo(now), ws, arrivals);
    } else {
      newest, seen := newest0, seen0;
      HasNone(seen0, m.all, done, UpTo(now), ws);
    }
  }

  lemma WindowIs(s: Surface, all: seq<Row>, ws: TimeMs)
    requires MemoryOk(s, all) && ws in s.open
    ensures WinOk(s.open[ws], InWindow(all, ws)) && Aligned(ws)
  {
    hide IsLive, IsNewest, SpanOk, Range, WinOk;
  }

  lemma LastOwn(w: Win, arrivals: seq<Row>)
    requires WinOk(w, arrivals) && w.spilled
    ensures IsNewest(w.last, arrivals) && forall id <- w.last :: w.last[id].id == id
  {
    forall id <- w.last ensures w.last[id].id == id { assert Find(w.last, id) == Newest(arrivals, id); }
  }

  /** The live payload from memory; where the trail reaches into an evicted window that is read back. */
  method LiveFromMemory(m: MoverStore, now: TimeMs, train: Id -> bool, readable: TimeMs -> bool)
    returns (rows: Option<seq<Row>>)
    requires m.Valid() && m.Trailed() && Floor(m.S()) <= now && now - LIVE_TRAIL >= NEVER
    ensures rows.Some? ==> IsPayload(rows.value, m.windows, m.all, Floor(m.S()), now)
    ensures (forall ws :: readable(ws)) ==> rows.Some?
  {
    hide Holds, Ok, IsPayload, Gathered, Reaches;
    var cut := now - LIVE_TRAIL;
    var rest := m.open.Keys;
    while rest != {}
      invariant rest <= m.open.Keys && forall ws <- m.open :: ws in rest || !Reaches(m.open[ws], cut, now)
      decreases rest
    {
      SomeId(rest);
      var ws :| ws in rest;
      if Reaches(m.open[ws], cut, now) {
        rows := LiveExact(m, now, train, readable);
        return;
      }
      rest := rest - {ws};
    }
    var newest: map<Id, Row>, cand: seq<Row> := map[], [];
    ghost var seen: seq<Row> := [];
    NothingGathered(m.S(), m.all, cut, now);
    MemoryOf(m.S(), m.all, m.known);
    rest := m.open.Keys;
    while rest != {}
      invariant rest <= m.open.Keys && Gathered(m.S(), m.all, m.open.Keys - rest, cut, now, newest, seen, cand)
      decreases rest
    {
      SomeId(rest);
      var ws :| ws in rest;
      newest, cand, seen := TakeWindow(m, ws, cut, now, newest, cand, m.open.Keys - rest, seen);
      assert m.open.Keys - (rest - {ws}) == m.open.Keys - rest + {ws};
      rest := rest - {ws};
    }
    SortIs(cand);
    var recent := Dedupe(SortByJourney(cand));
    assert m.open.Keys - {} == m.open.Keys;
    AllGathered(m.S(), m.all, cut, now, newest, seen, cand, recent);
    var payload := LivePayload(m, now, newest, recent);
    rows := Some(payload);
  }

  lemma NothingGathered(s: Surface, all: seq<Row>, cut: TimeMs, now: TimeMs)
    ensures Gathered(s, all, s.open.Keys - s.open.Keys, cut, now, map[], [], [])
  {
    NothingNewest();
    NothingSeen(all, UpTo(now));
    NothingSeen(all, Between(cut, now));
    assert s.open.Keys - s.open.Keys == {};
  }

  lemma AllGathered(s: Surface, all: seq<Row>, cut: TimeMs, now: TimeMs, newest: map<Id, Row>, seen: seq<Row>,
                    cand: seq<Row>, recent: seq<Row>)
    requires MemoryOk(s, all) && Gathered(s, all, s.open.Keys, cut, now, newest, seen, cand)
    requires Strict(recent) && Latest(recent) == Latest(cand)
    ensures IsNewest(newest, Range(all, Floor(s), now + 1)) && IsRecent(recent, all, Floor(s), cut, now)
  {
    hide MemoryOk, IsNewest, Has, IsRecent, Strict, Latest, Range;
    AllSeen(s, all, newest, seen, now);
    AllRecent(s, all, cand, recent, cut, now);
  }

  // --- with evicted windows read back ---

  /** Takes the rows of a window the trail reaches into: those in the trail and those of trains are kept whole. */
  method TakeWhole(rows: seq<Row>, cut: TimeMs, now: TimeMs, train: Id -> bool, newest0: map<Id, Row>, whole0: seq<Row>,
                   ghost seen: seq<Row>)
    returns (newest: map<Id, Row>, whole: seq<Row>)
    requires IsNewest(newest0, seen)
    ensures IsNewest(newest, seen + Where(rows, Rest(cut, now, train)))
    ensures whole == whole0 + Where(rows, Whole(cut, now, train))
  {
    hide IsNewest;
    newest, whole := newest0, whole0;
    ghost var kept, left := Whole(cut, now, train), Rest(cut, now, train);
    assert seen + Where(rows[..0], left) == seen && whole0 + Where(rows[..0], kept) == whole0;
    for i := 0 to |rows|
      invariant IsNewest(newest, seen + Where(rows[..i], left)) && whole == whole0 + Where(rows[..i], kept)
    {
      var r := rows[i];
      assert rows[..i + 1] == rows[..i] + [r];
      WhereSnoc(rows[..i], r, left);
      WhereSnoc(rows[..i], r, kept);
      Appended(seen, Where(rows[..i], left), r);
      Appended(whole0, Where(rows[..i], kept), r);
      if r.t <= now {
        if r.t > cut || train(r.id) {
          whole := whole + [r];
        } else {
          NoteOk(newest, seen + Where(rows[..i], left), r);
          newest := Note(newest, r);
        }
      }
    }
    assert rows[..|rows|] == rows;
  }

  /** Of a window before the trail the newest rows, of a resident one row by row. */
  method TakeBefore(w: Win, newest0: map<Id, Row>, ghost arrivals: seq<Row>,
                    ghost seen: seq<Row>) returns (newest: map<Id, Row>)
    requires WinOk(w, arrivals) && IsNewest(newest0, seen)
    ensures IsNewest(newest, seen + arrivals)
  {
    hide IsNewest, IsEarliest;
    if w.spilled {
      LastOwn(w, arrivals);
      newest := NoteIndex(newest0, w.last);
      NoteAllOk(newest0, w.last, seen, arrivals);
      return;
    }
    newest := newest0;
    assert seen + w.rows[..0] == seen;
    for i := 0 to |w.rows|
      invariant IsNewest(newest, seen + w.rows[..i])
    {
      NoteOk(newest, seen + w.rows[..i], w.rows[i]);
      assert seen + w.rows[..i + 1] == seen + w.rows[..i] + [w.rows[i]];
      newest := Note(newest, w.rows[i]);
    }
    assert w.rows[..|w.rows|] == w.rows;
  }

  /** The row is kept whole: its window reaches into the trail, and it is in the trail or of a train. */
  function Kept(open: map<TimeMs, Win>, cut: TimeMs, now: TimeMs, train: Id -> bool): Key -> bool {
    (k: Key) =>
      k.t <= now && (k.t > cut || train(k.id)) && WindowStart(k.t) in open && open[WindowStart(k.t)].tmax > cut
  }

  function Left(open: map<TimeMs, Win>, cut: TimeMs, now: TimeMs, train: Id -> bool): Key -> bool {
    (k: Key) => k.t <= now && !Kept(open, cut, now, train)(k)
  }

  /** What the exact way has of the windows done: the newest rows of what is left, and what is kept whole. */
  ghost predicate Exact(s: Surface, all: seq<Row>, done: set<TimeMs>, cut: TimeMs, now: TimeMs, train: Id -> bool,
                        newest: map<Id, Row>, seen: seq<Row>, whole: seq<Row>) {
    && done <= s.open.Keys && IsNewest(newest, seen) && Has(seen, all, done, Left(s.open, cut, now, train))
    && Has(whole, all, done, Kept(s.open, cut, now, train))
  }

  lemma {:induction false} WhereSame(rows: seq<Row>, p: Key -> bool, q: Key -> bool)
    requires forall r <- rows :: p(KeyOf(r)) == q(KeyOf(r))
    ensures Where(rows, p) == Where(rows, q)
    decreases rows
  {
    if rows != [] { WhereSame(rows[..|rows| - 1], p, q); }
  }

  /** One window of the exact way. */
  method ExactWindow(m: MoverStore, ws: TimeMs, cut: TimeMs, now: TimeMs, train: Id -> bool, readable: bool,
                     newest0: map<Id, Row>, whole0: seq<Row>, ghost done: set<TimeMs>, ghost seen0: seq<Row>)
    returns (ok: bool, newest: map<Id, Row>, whole: seq<Row>, ghost seen: seq<Row>)
    requires MemoryOk(m.S(), m.all) && LogsOk(m.S(), m.all) && ws in m.open && ws !in done && cut < now
    requires Exact(m.S(), m.all, done, cut, now, train, newest0, seen0, whole0)
    ensures ok ==> Exact(m.S(), m.all, done + {ws}, cut, now, train, newest, seen, whole)
    ensures readable ==> ok
  {
    hide IsNewest, Has, MemoryOk, LogsOk, Range, IsEarliest;
    var w := m.open[ws];
    ghost var arrivals, left, kept := InWindow(m.all, ws), Left(m.open, cut, now, train), Kept(m.open, cut, now, train);
    WindowIs(m.S(), m.all, ws);
    WindowRowsIn(m.all, ws);
    newest, whole, seen := newest0, whole0, seen0;
    if w.tmax <= cut {
      newest := TakeBefore(w, newest0, arrivals, seen0);
      seen := seen0 + arrivals;
      WhereAll(arrivals, left);
      HasMore(seen0, m.all, done, left, ws, arrivals);
      HasNone(whole0, m.all, done, kept, ws);
      return true, newest, whole, seen;
    }
    if w.spilled && !readable {
      return false, newest, whole, seen;
    }
    OpenLog(m.S(), m.all, ws);
    var rows := m.WindowRows(ws);
    newest, whole := TakeWhole(rows, cut, now, train, newest0, whole0, seen0);
    seen := seen0 + Where(arrivals, Rest(cut, now, train));
    WhereSame(arrivals, left, Rest(cut, now, train));
    WhereSame(arrivals, kept, Whole(cut, now, train));
    HasMore(seen0, m.all, done, left, ws, Where(arrivals, left));
    HasMore(whole0, m.all, done, kept, ws, Where(arrivals, kept));
    ok := true;
  }

  lemma WindowRowsIn(all: seq<Row>, ws: TimeMs)
    requires Aligned(ws)
    ensures forall r <- InWindow(all, ws) :: WindowStart(r.t) == ws
  {
    forall r <- InWindow(all, ws) ensures WindowStart(r.t) == ws { WindowOfTime(ws, r.t); }
  }

  /** The payload with the windows that the trail reaches into read back where they were evicted. */
  method LiveExact(m: MoverStore, now: TimeMs, train: Id -> bool, readable: TimeMs -> bool)
    returns (payload: Option<seq<Row>>)
    requires m.Valid() && m.Trailed() && Floor(m.S()) <= now && now - LIVE_TRAIL >= NEVER
    ensures payload.Some? ==> IsPayload(payload.value, m.windows, m.all, Floor(m.S()), now)
    ensures (forall ws :: readable(ws)) ==> payload.Some?
  {
    hide Holds, Ok, IsPayload, Exact, MemoryOk, LogsOk, TrailOk, Has, IsNewest, IsRecent, Latest, Strict, Ordered,
      SortByJourney,
      Range, After, Kept, Left;
    var cut := now - LIVE_TRAIL;
    OkHas(m.S(), m.all, m.known);
    var rest := set ws | ws in m.open && m.open[ws].n > 0 && m.open[ws].tmin <= now;
    var newest: map<Id, Row>, whole: seq<Row> := map[], [];
    ghost var seen: seq<Row> := [];
    SkippedExact(m.S(), m.all, cut, now, train, rest);
    while rest != {}
      invariant rest <= m.open.Keys && Exact(m.S(), m.all, m.open.Keys - rest, cut, now, train, newest, seen, whole)
      decreases rest
    {
      var ws := Least(rest);
      var ok;
      ok, newest, whole, seen := ExactWindow(m, ws, cut, now, train, readable(ws), newest, whole, m.open.Keys - rest,
        seen);
      if !ok {
        return None;
      }
      assert m.open.Keys - (rest - {ws}) == m.open.Keys - rest + {ws};
      rest := rest - {ws};
    }
    assert m.open.Keys - {} == m.open.Keys;
    SortIs(whole);
    var rows := Dedupe(SortByJourney(whole));
    ExactHas(m.S(), m.all, cut, now, train, newest, seen, whole);
    var recent;
    newest, recent := TakeKept(rows, cut, newest, seen, m.S(), m.all, now, train, whole);
    ExactAll(m.S(), m.all, cut, now, train, newest, seen, whole, rows, recent);
    var out := LivePayload(m, now, newest, recent);
    payload := Some(out);
  }

  /** The rows kept whole, sorted and deduplicated: those after `cut` are recent, and each may be its journey's
      newest. */
  method TakeKept(rows: seq<Row>, cut: TimeMs, newest0: map<Id, Row>, ghost seen: seq<Row>, ghost s: Surface,
                  ghost all: seq<Row>, ghost now: TimeMs, ghost train: Id -> bool, ghost whole: seq<Row>)
    returns (newest: map<Id, Row>, recent: seq<Row>)
    requires Exact(s, all, s.open.Keys, cut, now, train, newest0, seen, whole)
    ensures IsNewest(newest, seen + rows) && recent == After(rows, cut)
  {
    hide IsNewest, Has;
    newest, recent := newest0, [];
    assert seen + rows[..0] == seen && After(rows[..0], cut) == [];
    for i := 0 to |rows|
      invariant IsNewest(newest, seen + rows[..i]) && recent == After(rows[..i], cut)
    {
      var r := rows[i];
      assert rows[..i + 1][..i] == rows[..i] && seen + rows[..i + 1] == seen + rows[..i] + [r];
      if r.t > cut {
        recent := recent + [r];
      }
      NoteOk(newest, seen + rows[..i], r);
      newest := Note(newest, r);
      assert After(rows[..i + 1], cut) == After(rows[..i], cut) + if r.t > cut then [r] else [];
    }
    assert rows[..|rows|] == rows;
  }

  lemma OkHas(s: Surface, all: seq<Row>, known: map<TimeMs, seq<Row>>)
    requires Ok(s, all, known)
    ensures MemoryOk(s, all) && LogsOk(s, all)
  {
    hide MemoryOk, LogsOk, DiskOk, NoOrphans;
  }

  /** Windows without rows up to `now` are skipped. */
  lemma SkippedExact(s: Surface, all: seq<Row>, cut: TimeMs, now: TimeMs, train: Id -> bool, rest: set<TimeMs>)
    requires MemoryOk(s, all) && rest == set ws | ws in s.open && s.open[ws].n > 0 && s.open[ws].tmin <= now
    ensures Exact(s, all, s.open.Keys - rest, cut, now, train, map[], [], [])
  {
    hide MemoryOk, IsNewest, Range, Latest;
    NothingNewest();
    forall k: Key | WindowStart(k.t) in s.open.Keys - rest && k.t <= now
      ensures Get(Latest(all), k) == None
    {
      if k in Latest(all) { InWindowTimes(s, all, k); }
    }
    LatestNothing();
  }

  lemma ExactHas(s: Surface, all: seq<Row>, cut: TimeMs, now: TimeMs, train: Id -> bool, newest: map<Id, Row>,
                 seen: seq<Row>, whole: seq<Row>)
    requires Exact(s, all, s.open.Keys, cut, now, train, newest, seen, whole)
    ensures Has(seen, all, s.open.Keys, Left(s.open, cut, now, train))
            && Has(whole, all, s.open.Keys, Kept(s.open, cut, now, train))
  {
    hide Has;
  }

  lemma LatestNothing()
    ensures Latest([]) == map[]
  {
  }

  /** All windows done: the newest rows and the recent ones are those of all open rows. */
  lemma ExactAll(s: Surface, all: seq<Row>, cut: TimeMs, now: TimeMs, train: Id -> bool, newest: map<Id, Row>,
                 seen: seq<Row>, whole: seq<Row>, rows: seq<Row>, recent: seq<Row>)
    requires MemoryOk(s, all) && Has(seen, all, s.open.Keys, Left(s.open, cut, now, train))
             && Has(whole, all, s.open.Keys, Kept(s.open, cut, now, train))
    requires Strict(rows) && Latest(rows) == Latest(whole) && recent == After(rows, cut)
             && IsNewest(newest, seen + rows)
    ensures IsNewest(newest, Range(all, Floor(s), now + 1)) && IsRecent(recent, all, Floor(s), cut, now)
  {
    hide MemoryOk, IsNewest, Strict, Latest, Range, After;
    forall k: Key
      ensures Get(Latest(seen + rows), k)
              == if WindowStart(k.t) in s.open.Keys && UpTo(now)(k) then Get(Latest(all), k) else None
    {
      LatestAppend(seen, rows, k);
      assert Get(Latest(whole), k) == if WindowStart(k.t) in s.open.Keys && Kept(s.open, cut, now, train)(k) then
                                        Get(Latest(all), k) else None;
      assert Get(Latest(seen), k) == if WindowStart(k.t) in s.open.Keys && Left(s.open, cut, now, train)(k) then
                                       Get(Latest(all), k) else None;
    }
    AllSeen(s, all, newest, seen + rows, now);
    AfterStrict(rows, cut);
    forall k: Key
      ensures Get(Latest(recent), k) == if Floor(s) <= k.t && cut < k.t <= now then Get(Latest(all), k) else None
    {
      AfterLatest(rows, cut, k);
      assert Get(Latest(whole), k) == if WindowStart(k.t) in s.open.Keys && Kept(s.open, cut, now, train)(k) then
                                        Get(Latest(all), k) else None;
      if k in Latest(all) {
        OpenKey(s, all, k);
        if k.t >= Floor(s) { InWindowTimes(s, all, k); }
      }
    }
  }

  lemma InWindowTimes(s: Surface, all: seq<Row>, k: Key)
    requires MemoryOk(s, all) && k in Latest(all) && WindowStart(k.t) in s.open
    ensures var w := s.open[WindowStart(k.t)]; w.n > 0 && w.tmin <= k.t <= w.tmax
  {
    hide IsLive, IsNewest, SpanOk, IsEarliest, Range, Latest;
    var ws := WindowStart(k.t);
    assert WinOk(s.open[ws], InWindow(all, ws));
    LatestInRange(all, ws, ws + WINDOW_LEN, k);
    LatestKeys(InWindow(all, ws));
    assert Latest(InWindow(all, ws))[k] in InWindow(all, ws);
  }
}
