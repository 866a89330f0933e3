/** Rollback is exact: whatever a batch did since Mark, every journey tracked at Mark is back with
    the record it had, and so are the resync sets and the counters. */
module JourneyUndo {
  import opened Common
  import opened JourneyRules
  import opened JourneyState

  /** h was tracked in m. */
  predicate Marked(m: State, h: Handle) {
    h in m.cells && m.cells[h].id in m.byID && m.byID[m.cells[h].id] == h
  }

  predicate Known(cells: map<Handle, Journey>, hs: seq<Handle>) { forall h <- hs :: h in cells }

  /** h stands in hs before any other record of journey id. */
  ghost predicate FirstOf(cells: map<Handle, Journey>, hs: seq<Handle>, id: string, h: Handle)
    requires Known(cells, hs)
  {
    exists k :: 0 <= k < |hs| && hs[k] == h && forall i :: 0 <= i < k ==> cells[hs[i]].id != id
  }

  /** The log restores h: to its record in m, or to a blank one. */
  predicate Restores(cells: map<Handle, Journey>, before: map<Handle, Rec>, m: State, h: Handle)
    requires h in cells
  {
    var was := if Marked(m, h) then m.cells[h].rec else BLANK;
    if h in before then before[h] == was else cells[h].rec == was
  }

  /** The record h tracked in m is still found by its id, or was forgotten before any other record of its id. */
  ghost predicate Kept(byID: map<string, Handle>, cells: map<Handle, Journey>, evicted: seq<Handle>, id: string,
                       h: Handle)
    requires Known(cells, evicted)
  {
    if id in byID && byID[id] == h then forall e <- evicted :: cells[e].id != id
    else FirstOf(cells, evicted, id, h)
  }

  predicate SeenLogged(now: map<string, set<string>>, logged: map<string, Option<set<string>>>,
                       was: map<string, set<string>>, src: string)
  {
    var w := if src in was then Some(was[src]) else None;
    if src in logged then logged[src] == w else w == if src in now then Some(now[src]) else None
  }

  /** The log of s has what it takes to restore the records of m. */
  ghost predicate RecordsLogged(byID: map<string, Handle>, cells: map<Handle, Journey>, lru: seq<Handle>,
                                before: map<Handle, Rec>, added: seq<Handle>, evicted: seq<Handle>, m: State)
  {
    && Known(cells, evicted) && Known(cells, added) && before.Keys <= cells.Keys
    && (forall h <- m.cells :: h in cells && cells[h].id == m.cells[h].id)
    && (forall id <- m.byID :: Kept(byID, cells, evicted, id, m.byID[id]))
    && (forall h <- cells :: Marked(m, h) || h in added ==> Restores(cells, before, m, h))
    && (forall h <- added :: !Marked(m, h))
    && (forall h <- evicted :: Marked(m, h) || h in added)
    && (forall h <- lru :: Marked(m, h) || h in added)
  }

  ghost predicate SetsLogged(now: map<string, set<string>>, logged: map<string, Option<set<string>>>, was: map<string,
                             set<string>>) {
    forall src :: SeenLogged(now, logged, was, src)
  }

  /** The log of s suffices to go back to m. */
  ghost predicate Logged(s: State, m: State) {
    && s.undo.Undo?
    && s.undo.stats == m.stats
    && RecordsLogged(s.byID, s.cells, s.lru, s.undo.before, s.undo.added, s.undo.evicted, m)
    && SetsLogged(s.seen, s.undo.seen, m.seen)
  }

  /** s was reached from the marked state m. */
  ghost predicate Since(s: State, m: State) { Linked(s) && Linked(m) && Logged(s, m) }

  lemma DistinctPrefix(hs: seq<Handle>, n: nat)
    requires Distinct(hs) && n <= |hs|
    ensures Distinct(hs[..n])
    ensures n < |hs| ==> hs[n] !in hs[..n]
  {
    if n > 0 {
      DistinctPrefix(hs[1..], n - 1);
      assert hs[..n][1..] == hs[1..][..n - 1];
    }
  }

  lemma WithoutDistinct(hs: seq<Handle>, h: Handle)
    requires Distinct(hs)
    ensures Distinct(Without(hs, h))
  {
    if hs != [] && hs[0] != h {
      assert Without(hs, h)[1..] == Without(hs[1..], h);
    }
  }

  lemma MarkSince(m: State)
    requires Linked(m)
    ensures Since(Mark(m), m)
  {
  }

  lemma ToFrontSince(s: State, m: State, id: string)
    requires Since(s, m)
    ensures Since(ToFront(s, id), m)
  {
    if id in s.byID {
      WithoutDistinct(s.lru, s.byID[id]);
      assert ToFront(s, id).lru[1..] == Without(s.lru, s.byID[id]);
    }
  }

  lemma ForgetLinked(s: State)
    requires Linked(s) && s.lru != []
    ensures Linked(Forget(s))
  {
    DistinctPrefix(s.lru, |s.lru| - 1);
    assert s.lru == Forget(s).lru + [s.lru[|s.lru| - 1]];
  }

  /** The record of h goes from the ids to the end of the forgotten ones. */
  lemma ForgetKept(byID: map<string, Handle>, cells: map<Handle, Journey>, evicted: seq<Handle>, h: Handle, id: string,
                   was: Handle)
    requires Known(cells, evicted) && Kept(byID, cells, evicted, id, was)
    requires h in cells && cells[h].id in byID && byID[cells[h].id] == h
    ensures Kept(byID - {cells[h].id}, cells, evicted + [h], id, was)
  {
    if id in byID && byID[id] == was {
      if id == cells[h].id { assert (evicted + [h])[|evicted|] == h; }
    } else {
      var k :| 0 <= k < |evicted| && evicted[k] == was && forall i :: 0 <= i < k ==> cells[evicted[i]].id != id;
      assert (evicted + [h])[k] == was;
    }
  }

  lemma ForgetSince(s: State, m: State)
    requires Since(s, m) && s.lru != []
    ensures Since(Forget(s), m)
  {
    ForgetLinked(s);
    forall id <- m.byID { ForgetKept(s.byID, s.cells, s.undo.evicted, s.lru[|s.lru| - 1], id, m.byID[id]); }
  }

  lemma {:induction false} TrimSince(s: State, m: State, max: nat)
    requires Since(s, m)
    ensures Since(Trim(s, max), m)
    decreases |s.lru|
  {
    if |s.lru| > max {
      ForgetSince(s, m);
      TrimSince(Forget(s), m, max);
    }
  }

  /** The state of Add before it trims. */
  function Added(s: State, id: string): State {
    s.(cells := s.cells[s.next := Journey(id, BLANK)], next := s.next + 1, byID := s.byID[id := s.next],
        lru := [s.next] + s.lru,
       undo := if s.undo.Undo? then s.undo.(added := s.undo.added + [s.next]) else s.undo)
  }

  lemma AddedLinked(s: State, id: string)
    requires Linked(s) && id !in s.byID
    ensures Linked(Added(s, id))
  {
    assert Added(s, id).lru[1..] == s.lru;
  }

  lemma AddedKept(byID: map<string, Handle>, cells: map<Handle, Journey>, evicted: seq<Handle>, h: Handle, id: string,
                  x: string, was: Handle)
    requires Known(cells, evicted) && Kept(byID, cells, evicted, x, was) && h !in cells && id !in byID && was in cells
    ensures Kept(byID[id := h], cells[h := Journey(id, BLANK)], evicted, x, was)
  {
    if !(x in byID && byID[x] == was) {
      var k :| 0 <= k < |evicted| && evicted[k] == was && forall i :: 0 <= i < k ==> cells[evicted[i]].id != x;
      assert evicted[k] == was;
    }
  }

  lemma AddedLogged(byID: map<string, Handle>, cells: map<Handle, Journey>, lru: seq<Handle>, before: map<Handle, Rec>,
                    added: seq<Handle>, evicted: seq<Handle>, m: State, h: Handle, id: string)
    requires RecordsLogged(byID, cells, lru, before, added, evicted, m) && h !in cells && id !in byID
    requires m.byID.Values <= cells.Keys
    ensures RecordsLogged(byID[id := h], cells[h := Journey(id, BLANK)], [h] + lru, before, added + [h], evicted, m)
  {
    forall x <- m.byID { AddedKept(byID, cells, evicted, h, id, x, m.byID[x]); }
  }

  lemma AddSince(s: State, m: State, max: nat, id: string)
    requires Since(s, m) && id !in s.byID
    ensures Since(Add(s, max, id), m)
  {
    hide RecordsLogged, Trim;
    assert s.next !in s.cells && m.byID.Values <= s.cells.Keys by { MarkedKnown(s, m); }
    hide Linked;
    AddedLinked(s, id);
    AddedLogged(s.byID, s.cells, s.lru, s.undo.before, s.undo.added, s.undo.evicted, m, s.next, id);
    TrimSince(Added(s, id), m, max);
  }

  lemma MarkedKnown(s: State, m: State)
    requires Since(s, m)
    ensures m.byID.Values <= s.cells.Keys
  {
  }

  lemma WriteKept(byID: map<string, Handle>, cells: map<Handle, Journey>, evicted: seq<Handle>, h: Handle, rec: Rec,
                  x: string, was: Handle)
    requires Known(cells, evicted) && Kept(byID, cells, evicted, x, was) && h in cells
    ensures Kept(byID, cells[h := cells[h].(rec := rec)], evicted, x, was)
  {
    if !(x in byID && byID[x] == was) {
      var k :| 0 <= k < |evicted| && evicted[k] == was && forall i :: 0 <= i < k ==> cells[evicted[i]].id != x;
      assert evicted[k] == was;
    }
  }

  lemma ChangeSince(s: State, m: State, h: Handle)
    requires Since(s, m)
    ensures Since(Change(s, h), m)
  {
  }

  lemma WriteLogged(byID: map<string, Handle>, cells: map<Handle, Journey>, lru: seq<Handle>, before: map<Handle, Rec>,
                    added: seq<Handle>, evicted: seq<Handle>, m: State, h: Handle, rec: Rec)
    requires RecordsLogged(byID, cells, lru, before, added, evicted, m) && h in before
    ensures RecordsLogged(byID, cells[h := cells[h].(rec := rec)], lru, before, added, evicted, m)
  {
    forall x <- m.byID { WriteKept(byID, cells, evicted, h, rec, x, m.byID[x]); }
  }

  lemma WriteSince(s: State, m: State, id: string, rec: Rec)
    requires Since(s, m)
    ensures Since(Write(s, id, rec), m)
  {
    if id in s.byID {
      hide RecordsLogged;
      var h := s.byID[id];
      ChangeSince(s, m, h);
      var s1 := Change(s, h);
      WriteLogged(s1.byID, s1.cells, s1.lru, s1.undo.before, s1.undo.added, s1.undo.evicted, m, h, rec);
    }
  }

  /** Only the resync sets differ between s and s1, and the log covers the difference. */
  lemma SeenSince(s: State, m: State, s1: State, src: string)
    requires Since(s, m)
    requires s1 == ChangeSeen(s, src).(seen := s1.seen)
    requires forall x :: x != src ==> (x in s1.seen <==> x in s.seen) && (x in s.seen ==> s1.seen[x] == s.seen[x])
    ensures Since(s1, m)
  {
    forall x
      ensures SeenLogged(s1.seen, s1.undo.seen, m.seen, x)
    {
      assert SeenLogged(s.seen, s.undo.seen, m.seen, x);
    }
  }

  lemma SampledSince(s: State, m: State, max: nat, src: string, x: Sample, found: Option<Meta>)
    requires Since(s, m)
    ensures Since(Sampled(s, max, src, x, found).0, m)
  {
    hide Since, Step, Add, Write;
    var id := x.meta.id;
    var s1 := ToFront(s, id);
    ToFrontSince(s, m, id);
    var o := Step(RecOf(s, id), src, x, found);
    var s2 := if id !in s1.byID && o.rec.Some? then Add(s1, max, id) else s1;
    if id !in s1.byID { AddSince(s1, m, max, id); }
    var s3 := if o.wrote && o.rec.Some? then Write(s2, id, o.rec.value) else s2;
    if o.rec.Some? { WriteSince(s2, m, id, o.rec.value); }
    var s4 := if o.seen then Resent(s3, src, id) else s3;
    if src in s3.seen { SeenSince(s3, m, Resent(s3, src, id), src); }
    StatsSince(s4, m, Plus(s4.stats, o.stats));
  }

  lemma StatsSince(s: State, m: State, stats: Stats)
    requires Since(s, m)
    ensures Since(s.(stats := stats), m)
  {
  }

  lemma AdoptedSince(s: State, m: State, max: nat, src: string, id: string, t: TimeMs)
    requires Since(s, m)
    ensures Since(Adopted(s, max, src, id, t), m)
  {
    ToFrontSince(s, m, id);
    var s1 := ToFront(s, id);
    if id !in s1.byID { AddSince(s1, m, max, id); }
    var s2 := if id !in s1.byID then Add(s1, max, id) else s1;
    WriteSince(s2, m, id, AdoptRec(RecOf(s2, id), src, t));
  }

  lemma {:induction false} EndEachSince(s: State, m: State, ids: seq<string>, t: TimeMs)
    requires Since(s, m)
    ensures Since(EndEach(s, ids, t).0, m)
  {
    if ids != [] {
      EndEachSince(s, m, ids[..|ids| - 1], t);
      var s1 := EndEach(s, ids[..|ids| - 1], t).0;
      var j := RecOf(s1, ids[|ids| - 1]);
      if j.Some? { WriteSince(s1, m, ids[|ids| - 1], EndRec(j.value, t)); }
    }
  }

  lemma {:induction false} EndStaleSince(s: State, m: State, stale: seq<LiveJourney>, t: TimeMs)
    requires Since(s, m)
    ensures Since(EndStale(s, stale, t).0, m)
  {
    if stale != [] {
      EndStaleSince(s, m, stale[..|stale| - 1], t);
      var s1, lj := EndStale(s, stale[..|stale| - 1], t).0, stale[|stale| - 1];
      var j := RecOf(s1, lj.meta.id);
      if j.Some? { WriteSince(s1, m, lj.meta.id, ForgottenRec(j.value, lj, t)); }
      var s2 := if j.Some? then Write(s1, lj.meta.id, ForgottenRec(j.value, lj, t)) else s1;
      StatsSince(s2, m, s2.stats.(resyncForgotten := s2.stats.resyncForgotten + 1));
    }
  }

  lemma ApplySince(s: State, m: State, max: nat, op: Op)
    requires Since(s, m)
    ensures Since(Apply(s, max, op).0, m)
  {
    match op
    case DoSample(src, x, found) => SampledSince(s, m, max, src, x, found);
    case DoAdopt(src, id, t) => AdoptedSince(s, m, max, src, id, t);
    case DoBegin(src) => SeenSince(s, m, Begun(s, src), src);
    case DoResynced(src, t, region, live, sofar) =>
      if src in s.seen {
        var s0 := Finished(s, src);
        SeenSince(s, m, s0, src);
        var mt := NotIn(s.seen[src]);
        EndEachSince(s0, m, Owned(s0, s0.lru, src, mt), t);
        var (s1, ended) := EndOwned(s0, src, t, mt);
        EndStaleSince(s1, m, StaleOf(s1, live, src, region, s.seen[src], Keys(sofar + ended)), t);
      }
    case DoStopped(src, t) =>
      SeenSince(s, m, Finished(s, src), src);
      EndEachSince(Finished(s, src), m, Owned(Finished(s, src), s.lru, src, Players), t);
  }

  lemma {:induction false} RunSince(s: State, m: State, max: nat, ops: seq<Op>)
    requires Since(s, m)
    ensures Since(Run(s, max, ops), m)
  {
    if ops != [] {
      RunSince(s, m, max, ops[..|ops| - 1]);
      ApplySince(Run(s, max, ops[..|ops| - 1]), m, max, ops[|ops| - 1]);
    }
  }

  // --- going back ---

  lemma {:induction false} RemoveAddedFacts(s: State, added: seq<Handle>)
    requires Linked(s) && Known(s.cells, added)
    ensures var r := RemoveAdded(s, added);
            && Linked(r) && r.cells == s.cells
            && (forall h :: h in r.lru <==> h in s.lru && h !in added)
            && (forall id <- r.byID :: id in s.byID && r.byID[id] == s.byID[id])
    decreases added
  {
    if added != [] {
      var h := added[0];
      var s1 := if s.cells[h].id in s.byID && s.byID[s.cells[h].id] == h
                then s.(lru := Without(s.lru, h), byID := s.byID - {s.cells[h].id}) else s;
      WithoutDistinct(s.lru, h);
      RemoveAddedFacts(s1, added[1..]);
      assert added == [h] + added[1..];
    }
  }

  lemma DistinctAppend(hs: seq<Handle>, h: Handle)
    requires Distinct(hs) && h !in hs
    ensures Distinct(hs + [h])
  {
    if hs != [] {
      DistinctAppend(hs[1..], h);
      assert (hs + [h])[1..] == hs[1..] + [h];
    }
  }

  function ReaddOne(s: State, h: Handle): State {
    if h in s.cells && s.cells[h].id !in s.byID
    then s.(lru := s.lru + [h], byID := s.byID[s.cells[h].id := h]) else s
  }

  lemma ReaddOneLinked(s: State, h: Handle)
    requires Linked(s) && h in s.cells
    ensures Linked(ReaddOne(s, h))
  {
    if s.cells[h].id !in s.byID { DistinctAppend(s.lru, h); }
  }

  lemma {:induction false} ReaddFacts(s: State, evicted: seq<Handle>)
    requires Linked(s) && Known(s.cells, evicted)
    ensures var r := Readd(s, evicted);
            && Linked(r) && r.cells == s.cells
            && (forall h <- r.lru :: h in s.lru || h in evicted)
            && (forall id <- s.byID :: id in r.byID && r.byID[id] == s.byID[id])
            && (forall e <- evicted :: s.cells[e].id in r.byID)
    decreases evicted
  {
    if evicted != [] {
      hide Linked;
      ReaddOneLinked(s, evicted[0]);
      ReaddFacts(ReaddOne(s, evicted[0]), evicted[1..]);
      assert evicted == [evicted[0]] + evicted[1..];
    }
  }

  /** Of the forgotten records of an id, the first comes back. */
  lemma {:induction false} ReaddFinds(s: State, evicted: seq<Handle>, k: nat)
    requires Linked(s) && Known(s.cells, evicted) && k < |evicted|
    requires s.cells[evicted[k]].id !in s.byID
    requires forall i :: 0 <= i < k ==> s.cells[evicted[i]].id != s.cells[evicted[k]].id
    ensures var r := Readd(s, evicted); s.cells[evicted[k]].id in r.byID && r.byID[s.cells[evicted[k]].id] == evicted[k]
    decreases evicted
  {
    var s1, rest := ReaddOne(s, evicted[0]), evicted[1..];
    ReaddOneLinked(s, evicted[0]);
    if k == 0 {
      ReaddFacts(s1, rest);
    } else {
      ReaddFinds(s1, rest, k - 1);
    }
  }

  /** The tracked ids after a rollback, with their records. */
  lemma RollbackRecords(s: State, m: State)
    requires Since(s, m)
    ensures var r := Rollback(s);
            && Linked(r)
            && (forall id <- m.byID :: id in r.byID && r.byID[id] == m.byID[id] && RecOf(r, id) == RecOf(m, id))
            && (forall id <- r.byID :: id !in m.byID ==> RecOf(r, id) == Some(BLANK) && exists e <- s.undo.evicted ::
                s.cells[e].id == id)
            && (forall e <- s.undo.evicted :: s.cells[e].id in r.byID)
  {
    var s1 := RemoveAdded(s, s.undo.added);
    RemoveAddedFacts(s, s.undo.added);
    var s2 := Readd(s1, s.undo.evicted);
    ReaddFacts(s1, s.undo.evicted);
    var r := Rollback(s);
    assert r.byID == s2.byID && r.lru == s2.lru && r.cells == RestoreCells(s.cells, s.undo.before);
    forall id <- m.byID
      ensures id in r.byID && r.byID[id] == m.byID[id]
    {
      RollbackFinds(s, m, id);
    }
    forall id <- r.byID
      ensures id in m.byID ==> RecOf(r, id) == RecOf(m, id)
      ensures id !in m.byID ==> RecOf(r, id) == Some(BLANK) && exists e <- s.undo.evicted :: s.cells[e].id == id
    {
      var h := s2.byID[id];
      assert h in s2.lru;
      assert Marked(m, h) || h in s.undo.added;
      assert Restores(s.cells, s.undo.before, m, h);
      if id !in m.byID {
        assert !Marked(m, h);
        assert h in s.undo.evicted;
      }
    }
  }

  lemma RemoveAddedLeaves(s: State, m: State, id: string)
    requires Since(s, m) && id in m.byID
    ensures var r := RemoveAdded(s, s.undo.added);
            if id in s.byID && s.byID[id] == m.byID[id] then id in r.byID && r.byID[id] == m.byID[id] else id !in r.byID
  {
    var h, r := m.byID[id], RemoveAdded(s, s.undo.added);
    RemoveAddedFacts(s, s.undo.added);
    if id in s.byID && s.byID[id] == h {
      assert h in r.lru;
    } else if id in r.byID {
      assert false;
    }
  }

  lemma SinceFacts(s: State, m: State, id: string)
    requires Since(s, m) && id in m.byID
    ensures s.undo.Undo? && Linked(s) && Known(s.cells, s.undo.evicted) && Known(s.cells, s.undo.added)
    ensures Kept(s.byID, s.cells, s.undo.evicted, id, m.byID[id]) && m.byID[id] in s.cells
            && s.cells[m.byID[id]].id == id
  {}

  lemma RollbackFinds(s: State, m: State, id: string)
    requires Since(s, m) && id in m.byID
    ensures id in Rollback(s).byID && Rollback(s).byID[id] == m.byID[id]
  {
    hide RemoveAdded, Readd, Since, RestoreCells, RestoreSeen, Linked;
    SinceFacts(s, m, id);
    var h, evicted := m.byID[id], s.undo.evicted;
    var s1 := RemoveAdded(s, s.undo.added);
    RemoveAddedLeaves(s, m, id);
    RemoveAddedFacts(s, s.undo.added);
    ReaddFacts(s1, evicted);
    if !(id in s.byID && s.byID[id] == h) {
      assert Kept(s.byID, s.cells, evicted, id, h);
      var k :| 0 <= k < |evicted| && evicted[k] == h && forall i :: 0 <= i < k ==> s.cells[evicted[i]].id != id;
      ReaddFinds(s1, evicted, k);
    }
  }

  lemma RollbackSets(s: State, m: State)
    requires Since(s, m)
    ensures Rollback(s).seen == m.seen && Rollback(s).stats == m.stats && Rollback(s).undo.NoUndo?
  {
    forall src
      ensures src in Rollback(s).seen <==> src in m.seen
      ensures src in m.seen ==> Rollback(s).seen[src] == m.seen[src]
    {
      assert SeenLogged(s.seen, s.undo.seen, m.seen, src);
    }
  }

  /** s after Mark, any operations, and Rollback. */
  function Undone(s: State, max: nat, ops: seq<Op>): State { Rollback(Run(Mark(s), max, ops)) }

  /** The ids forgotten between Mark and Rollback. */
  function ForgottenSince(s: State, max: nat, ops: seq<Op>): set<string> {
    var r := Run(Mark(s), max, ops);
    if r.undo.NoUndo? then {} else set e | e in r.undo.evicted && e in r.cells :: r.cells[e].id
  }

  /** Rollback is exact for every run of operations: the journeys tracked at Mark have the records
      they had (the same record objects), the resync sets and the counters are as they were, and any
      further record is a blank one of a journey added and forgotten in between. */
  lemma RollbackIsExact(s: State, max: nat, ops: seq<Op>)
    requires Linked(s)
    ensures var r := Undone(s, max, ops);
            && Linked(r)
            && r.seen == s.seen && r.stats == s.stats && r.undo.NoUndo?
            && r.byID.Keys == s.byID.Keys + ForgottenSince(s, max, ops)
            && (forall id <- s.byID :: r.byID[id] == s.byID[id] && RecOf(r, id) == RecOf(s, id))
            && (forall id <- r.byID :: id !in s.byID ==> RecOf(r, id) == Some(BLANK))
  {
    MarkSince(s);
    RunSince(Mark(s), s, max, ops);
    var s1 := Run(Mark(s), max, ops);
    RollbackRecords(s1, s);
    RollbackSets(s1, s);
    forall id | id in ForgottenSince(s, max, ops)
      ensures id in Rollback(s1).byID
    {
      var e :| e in s1.undo.evicted && e in s1.cells && s1.cells[e].id == id;
    }
  }
}
