/** Who owns a journey, over whole runs. */
module JourneyOwnership {
  import opened Common
  import opened JourneyRules
  import opened JourneyState
  import opened JourneyUndo

  // --- what one operation does to the record of one journey ---

  /** x's record in t is the one in s, or x was forgotten. */
  predicate SameOrForgotten(s: State, t: State, x: string) {
    RecOf(t, x) == RecOf(s, x) || x !in t.byID
  }

  lemma ToFrontRec(s: State, id: string)
    requires Linked(s)
    ensures Linked(ToFront(s, id)) && forall x :: RecOf(ToFront(s, id), x) == RecOf(s, x)
  {
    if id in s.byID {
      WithoutDistinct(s.lru, s.byID[id]);
      assert ToFront(s, id).lru[1..] == Without(s.lru, s.byID[id]);
    }
  }

  lemma {:induction false} TrimRec(s: State, max: nat)
    requires Linked(s) && 0 < max
    ensures var t := Trim(s, max);
            && Linked(t) && t.cells == s.cells
            && (forall id <- t.byID :: id in s.byID && t.byID[id] == s.byID[id])
            && (s.lru != [] ==> t.lru != [] && t.lru[0] == s.lru[0])
    decreases |s.lru|
  {
    if |s.lru| > max {
      ForgetLinked(s);
      TrimRec(Forget(s), max);
    }
  }

  lemma AddRec(s: State, max: nat, id: string, x: string)
    requires Linked(s) && 0 < max && id !in s.byID
    ensures var t := Add(s, max, id);
            && Linked(t) && RecOf(t, id) == Some(BLANK) && id in t.byID && t.byID[id] == s.next
            && (x != id ==> SameOrForgotten(s, t, x))
  {
    AddedLinked(s, id);
    TrimRec(Added(s, id), max);
    var t := Add(s, max, id);
    assert t.lru[0] == s.next;
    assert t.lru[0] in t.lru;
  }

  lemma WriteRec(s: State, id: string, rec: Rec)
    requires Linked(s)
    ensures var t := Write(s, id, rec);
            && Linked(t) && t.byID == s.byID && t.lru == s.lru && t.seen == s.seen
            && (id in s.byID ==> RecOf(t, id) == Some(rec))
            && (forall x :: x != id ==> RecOf(t, x) == RecOf(s, x))
  {
    hide Distinct;
    var t := Write(s, id, rec);
    if id in s.byID {
      var h := s.byID[id];
      assert t.cells.Keys == s.cells.Keys && forall g <- s.cells ::
               t.cells[g].id == s.cells[g].id && (g != h ==> t.cells[g] == s.cells[g]);
    }
  }

  lemma AdoptBlank(src: string, t: TimeMs)
    ensures AdoptRec(Some(BLANK), src, t) == AdoptRec(None, src, t)
  {
  }

  lemma SampledRec(s: State, max: nat, src: string, x: Sample, found: Option<Meta>, y: string)
    requires Linked(s) && 0 < max
    ensures var t := Sampled(s, max, src, x, found).0;
            && Linked(t) && RecOf(t, x.meta.id) == Step(RecOf(s, x.meta.id), src, x, found).rec
            && (y != x.meta.id ==> SameOrForgotten(s, t, y))
  {
    hide Step, Add, Write, Linked;
    var id := x.meta.id;
    var s1 := ToFront(s, id);
    ToFrontRec(s, id);
    var o := Step(RecOf(s, id), src, x, found);
    if id !in s1.byID && o.rec.Some? { AddRec(s1, max, id, y); }
    var s2 := if id !in s1.byID && o.rec.Some? then Add(s1, max, id) else s1;
    if o.rec.Some? { WriteRec(s2, id, o.rec.value); }
    var s3 := if o.wrote && o.rec.Some? then Write(s2, id, o.rec.value) else s2;
    var s4 := if o.seen then Resent(s3, src, id) else s3;
    SetsRec(s3, s4, id, y);
    SetsRec(s4, s4.(stats := Plus(s4.stats, o.stats)), id, y);
  }

  /** The resync sets and the counters carry no records. */
  lemma SetsRec(s: State, t: State, x: string, y: string)
    requires Linked(s) && t.(seen := s.seen, stats := s.stats, undo := s.undo) == s
    ensures Linked(t) && RecOf(t, x) == RecOf(s, x) && RecOf(t, y) == RecOf(s, y) && t.byID == s.byID
  {
  }

  lemma AdoptedRec(s: State, max: nat, src: string, id: string, t: TimeMs, y: string)
    requires Linked(s) && 0 < max
    ensures var r := Adopted(s, max, src, id, t);
            && Linked(r) && RecOf(r, id) == Some(AdoptRec(RecOf(s, id), src, t))
            && (y != id ==> SameOrForgotten(s, r, y))
  {
    hide Add, Write, AdoptRec;
    var s1 := ToFront(s, id);
    ToFrontRec(s, id);
    if id !in s1.byID { AddRec(s1, max, id, y); }
    var s2 := if id !in s1.byID then Add(s1, max, id) else s1;
    AdoptBlank(src, t);
    WriteRec(s2, id, AdoptRec(RecOf(s2, id), src, t));
  }

  lemma {:induction false} OwnedAre(s: State, hs: seq<Handle>, src: string, m: Match)
    ensures forall id :: id in Owned(s, hs, src, m) <==>
              exists h <- hs :: h in s.cells && s.cells[h].id == id && Ends(s.cells[h].rec, src) && Matches(m, id)
  {
    if hs != [] {
      OwnedAre(s, hs[..|hs| - 1], src, m);
      assert hs == hs[..|hs| - 1] + [hs[|hs| - 1]];
    }
  }

  lemma {:induction false} EndEachRec(s: State, ids: seq<string>, t: TimeMs)
    requires Linked(s)
    ensures var r := EndEach(s, ids, t).0;
            && Linked(r) && r.byID == s.byID && r.lru == s.lru && r.seen == s.seen
            && forall x :: RecOf(r, x) == if x in ids && RecOf(s, x).Some? then Some(EndRec(RecOf(s, x).value, t))
                else RecOf(s, x)
  {
    if ids != [] {
      EndEachRec(s, ids[..|ids| - 1], t);
      var s1, id := EndEach(s, ids[..|ids| - 1], t).0, ids[|ids| - 1];
      assert ids == ids[..|ids| - 1] + [id];
      if RecOf(s1, id).Some? { WriteRec(s1, id, EndRec(RecOf(s1, id).value, t)); }
    }
  }

  /** A resync or stop ends exactly the journeys of src it matches, and touches no other. */
  lemma EndOwnedRec(s: State, src: string, t: TimeMs, m: Match)
    requires Linked(s)
    ensures var r := EndOwned(s, src, t, m).0;
            && Linked(r) && r.byID == s.byID && r.lru == s.lru && r.seen == s.seen
            && forall x :: RecOf(r, x) == if RecOf(s, x).Some? && Ends(RecOf(s, x).value, src) && Matches(m, x)
                                          then Some(EndRec(RecOf(s, x).value, t)) else RecOf(s, x)
  {
    OwnedAre(s, s.lru, src, m);
    EndEachRec(s, Owned(s, s.lru, src, m), t);
    forall x
      ensures x in Owned(s, s.lru, src, m) <==> RecOf(s, x).Some? && Ends(RecOf(s, x).value, src) && Matches(m, x)
    {
      if x in s.byID { assert s.byID[x] in s.lru; }
    }
  }

  predicate Nobodys(j: Option<Rec>) { j.Some? && j.value.owner == "" && j.value.prev == "" && !j.value.anyPrev }

  /** A journey that a resync ends as forgotten was not known, and was nobody's or src's. */
  lemma {:induction false} EndStaleRec(s: State, stale: seq<LiveJourney>, t: TimeMs)
    requires Linked(s)
    ensures var r := EndStale(s, stale, t).0;
            && Linked(r) && r.byID == s.byID
            && forall x :: RecOf(r, x) == RecOf(s, x) || ((exists lj <- stale :: lj.meta.id == x)
                && Nobodys(RecOf(r, x)))
  {
    hide Distinct;
    if stale != [] {
      var init, lj := stale[..|stale| - 1], stale[|stale| - 1];
      EndStaleRec(s, init, t);
      var s1 := EndStale(s, init, t).0;
      assert stale == init + [lj];
      if lj.t < t && RecOf(s1, lj.meta.id).Some? { WriteRec(s1, lj.meta.id,
          ForgottenRec(RecOf(s1, lj.meta.id).value, lj, t)); }
    }
  }

  lemma {:induction false} StaleAre(s: State, live: seq<LiveJourney>, src: string, region: Region, resent: set<string>,
                                    pending: set<(string, string)>)
    ensures forall lj <- StaleOf(s, live, src, region, resent, pending) ::
              lj in live && Stale(s, src, region, resent, pending, lj)
  {
    if live != [] {
      StaleAre(s, live[..|live| - 1], src, region, resent, pending);
    }
  }

  lemma ResyncedRec(s: State, src: string, t: TimeMs, region: Region, live: seq<LiveJourney>, sofar: seq<Sample>,
                    x: string)
    requires Linked(s)
    ensures var r := Resynced(s, src, t, region, live, sofar).0;
            && Linked(r) && r.byID == s.byID
            && (|| RecOf(r, x) == RecOf(s, x)
                || (RecOf(s, x).Some? && Ends(RecOf(s, x).value, src)
                    && RecOf(r, x) == Some(EndRec(RecOf(s, x).value, t)))
                || (RecOf(s, x).Some? && !RecOf(s, x).value.known && RecOf(s, x).value.owner in {"", src}
                    && Nobodys(RecOf(r, x))))
  {
    if src in s.seen {
      var s0, mt := Finished(s, src), NotIn(s.seen[src]);
      EndOwnedRec(s0, src, t, mt);
      var (s1, ended) := EndOwned(s0, src, t, mt);
      assert RecOf(s0, x) == RecOf(s, x);
      var stale := StaleOf(s1, live, src, region, s.seen[src], Keys(sofar + ended));
      StaleAre(s1, live, src, region, s.seen[src], Keys(sofar + ended));
      EndStaleRec(s1, stale, t);
    }
  }

  lemma StoppedRec(s: State, src: string, t: TimeMs, x: string)
    requires Linked(s)
    ensures var r := Stopped(s, src, t).0;
            && Linked(r) && r.byID == s.byID
            && RecOf(r, x) == if RecOf(s, x).Some? && Ends(RecOf(s, x).value, src) && IsPlayer(x)
                              then Some(EndRec(RecOf(s, x).value, t)) else RecOf(s, x)
  {
    EndOwnedRec(Finished(s, src), src, t, Players);
    assert RecOf(Finished(s, src), x) == RecOf(s, x);
  }

  /** The operations that may take journey id from source a. */
  predicate Releases(op: Op, id: string, a: string) {
    match op
    case DoSample(src, x, _) => x.meta.id == id && src == a && x.gone
    case DoAdopt(_, i, _) => i == id
    case DoBegin(_) => false
    case DoResynced(src, _, _, _, _) => src == a
    case DoStopped(src, _) => src == a
  }

  /** One operation leaves a journey with its owner, unless it releases or forgets it. */
  lemma OwnerKept(s: State, max: nat, op: Op, id: string)
    requires Linked(s) && 0 < max && OwnerOf(s, id) != ""
    ensures var r := Apply(s, max, op).0;
            && Linked(r)
            && (OwnerOf(r, id) == OwnerOf(s, id) || Releases(op, id, OwnerOf(s, id)) || id !in r.byID)
            && (OwnerOf(r, id) !in {OwnerOf(s, id), ""} ==> op.DoAdopt? && op.id == id && OwnerOf(r, id) == op.src)
  {
    match op
    case DoSample(src, x, found) => SampledRec(s, max, src, x, found, id);
    case DoAdopt(src, i, t) => AdoptedRec(s, max, src, i, t, id);
    case DoBegin(src) =>
    case DoResynced(src, t, region, live, sofar) => ResyncedRec(s, src, t, region, live, sofar, id);
    case DoStopped(src, t) => StoppedRec(s, src, t, id);
  }

  lemma {:induction false} RunLinked(s: State, max: nat, ops: seq<Op>)
    requires Linked(s) && 0 < max
    ensures Linked(Run(s, max, ops))
  {
    if ops != [] {
      RunLinked(s, max, ops[..|ops| - 1]);
      ApplyLinked(Run(s, max, ops[..|ops| - 1]), max, ops[|ops| - 1]);
    }
  }

  lemma ApplyLinked(s: State, max: nat, op: Op)
    requires Linked(s) && 0 < max
    ensures Linked(Apply(s, max, op).0)
  {
    match op
    case DoSample(src, x, found) => SampledRec(s, max, src, x, found, "");
    case DoAdopt(src, i, t) => AdoptedRec(s, max, src, i, t, "");
    case DoBegin(src) =>
    case DoResynced(src, t, region, live, sofar) => ResyncedRec(s, src, t, region, live, sofar, "");
    case DoStopped(src, t) => StoppedRec(s, src, t, "");
  }

  /** Operation k of the run takes journey id from a: a still owns it just before. */
  predicate TakesFrom(s: State, max: nat, ops: seq<Op>, k: nat, id: string, a: string)
    requires k < |ops|
  {
    && OwnerOf(Run(s, max, ops[..k]), id) == a
    && (Releases(ops[k], id, a) || id !in Run(s, max, ops[..k + 1]).byID)
  }

  /** Over a whole run, a journey leaves its owner a only by a's gone, an adopt, a resync or stop of
      a, or by being forgotten. */
  lemma {:induction false} OwnershipPasses(s: State, max: nat, ops: seq<Op>, id: string, a: string)
    requires Linked(s) && 0 < max && a != "" && OwnerOf(s, id) == a
    requires OwnerOf(Run(s, max, ops), id) != a
    ensures exists k :: 0 <= k < |ops| && TakesFrom(s, max, ops, k, id, a)
  {
    hide Linked, Releases, Apply;
    var n := |ops| - 1;
    RunLinked(s, max, ops[..n]);
    if OwnerOf(Run(s, max, ops[..n]), id) == a {
      OwnerKept(Run(s, max, ops[..n]), max, ops[n], id);
      assert ops[..n + 1] == ops;
      assert TakesFrom(s, max, ops, n, id, a);
    } else {
      OwnershipPasses(s, max, ops[..n], id, a);
      var k :| 0 <= k < n && TakesFrom(s, max, ops[..n], k, id, a);
      assert ops[..n][..k] == ops[..k] && ops[..n][..k + 1] == ops[..k + 1];
      assert TakesFrom(s, max, ops, k, id, a);
    }
  }

  // --- late gones ---

  function Adopts(ops: seq<Op>, id: string): nat {
    if ops == [] then 0
    else Adopts(ops[..|ops| - 1], id) + if ops[|ops| - 1].DoAdopt? && ops[|ops| - 1].id == id then 1 else 0
  }

  /** The operation emits a gone for id although another source than its sender owns it. */
  predicate EmitsLateGone(s: State, op: Op, id: string) {
    op.DoSample? && op.x.meta.id == id && op.x.gone && OwnedByOther(RecOf(s, id), op.src)
    && Step(RecOf(s, id), op.src, op.x, op.found).out != []
  }

  function LateGones(s: State, max: nat, ops: seq<Op>, id: string): nat {
    if ops == [] then 0
    else
      var init := ops[..|ops| - 1];
      LateGones(s, max, init, id) + if EmitsLateGone(Run(s, max, init), ops[|ops| - 1], id) then 1 else 0
  }

  /** An adopt of id whose previous owner's gone is still to come. */
  function Awaited(s: State, id: string): nat {
    var j := RecOf(s, id);
    if j.Some? && (j.value.prev != "" || j.value.anyPrev) then 1 else 0
  }

  lemma AwaitedSample(j: Option<Rec>, src: string, x: Sample, found: Option<Meta>)
    requires src != ""
    ensures var o := Step(j, src, x, found);
            (if o.rec.Some? && (o.rec.value.prev != "" || o.rec.value.anyPrev) then 1 else 0)
            + (if x.gone && OwnedByOther(j, src) && o.out != [] then 1 else 0)
            <= if j.Some? && (j.value.prev != "" || j.value.anyPrev) then 1 else 0
  {
  }

  lemma AwaitedStep(s: State, max: nat, op: Op, id: string)
    requires Linked(s) && 0 < max && op.src != ""
    ensures Awaited(Apply(s, max, op).0, id) + (if EmitsLateGone(s, op, id) then 1 else 0)
            <= Awaited(s, id) + if op.DoAdopt? && op.id == id then 1 else 0
  {
    hide Step, AdoptRec, Linked;
    match op
    case DoSample(src, x, found) =>
      SampledRec(s, max, src, x, found, id);
      AwaitedSample(RecOf(s, id), src, x, found);
    case DoAdopt(src, i, t) => AdoptedRec(s, max, src, i, t, id);
    case DoBegin(src) =>
    case DoResynced(src, t, region, live, sofar) => ResyncedRec(s, src, t, region, live, sofar, id);
    case DoStopped(src, t) => StoppedRec(s, src, t, id);
  }

  /** At most one late gone is emitted per adopt, over every run from an empty tracker. */
  lemma {:induction false} LateGonesPerAdopt(s: State, max: nat, ops: seq<Op>, id: string)
    requires Linked(s) && 0 < max && forall op <- ops :: op.src != ""
    ensures LateGones(s, max, ops, id) + Awaited(Run(s, max, ops), id) <= Adopts(ops, id) + Awaited(s, id)
  {
    if ops != [] {
      var init := ops[..|ops| - 1];
      LateGonesPerAdopt(s, max, init, id);
      RunLinked(s, max, init);
      AwaitedStep(Run(s, max, init), max, ops[|ops| - 1], id);
    }
  }

  // --- quarantine ---

  /** src sent the gone that left the journey without an owner, and may not take it back before until. */
  predicate Barred(s: State, id: string, src: string, until: TimeMs) {
    var j := RecOf(s, id);
    j.Some? && j.value.known && j.value.owner == "" && j.value.goneBy == src && j.value.goneT + HANDOFF_WINDOW == until
  }

  /** A sample of src for the journey from before until. */
  predicate Early(op: Op, id: string, src: string, until: TimeMs) {
    op.DoSample? && op.x.meta.id == id && op.src == src && !op.x.gone && op.x.t < until
  }

  lemma BarredStep(s: State, max: nat, op: Op, id: string, src: string, until: TimeMs)
    requires Linked(s) && 0 < max && op.src != "" && Barred(s, id, src, until)
    ensures var r := Apply(s, max, op).0;
            && (id in r.byID && OwnerOf(r, id) == "" ==> Barred(r, id, src, until))
            && (Early(op, id, src, until) ==> Apply(s, max, op).1 == [] && Barred(r, id, src, until))
  {
    match op
    case DoSample(sr, x, found) => SampledRec(s, max, sr, x, found, id);
    case DoAdopt(sr, i, t) => AdoptedRec(s, max, sr, i, t, id);
    case DoBegin(sr) =>
    case DoResynced(sr, t, region, live, sofar) => ResyncedRec(s, sr, t, region, live, sofar, id);
    case DoStopped(sr, t) => StoppedRec(s, sr, t, id);
  }

  lemma {:induction false} StaysBarred(s: State, max: nat, ops: seq<Op>, id: string, src: string, until: TimeMs)
    requires Linked(s) && 0 < max && Barred(s, id, src, until)
    requires forall op <- ops :: op.src != ""
    requires forall k :: 0 <= k <= |ops| ==>
             id in Run(s, max, ops[..k]).byID
             && OwnerOf(Run(s, max, ops[..k]), id) == ""
    ensures Barred(Run(s, max, ops), id, src, until)
  {
    if ops != [] {
      hide Linked, Barred;
      var n := |ops| - 1;
      forall k | 0 <= k <= n
        ensures id in Run(s, max, ops[..n][..k]).byID && OwnerOf(Run(s, max, ops[..n][..k]), id) == ""
      {
        assert ops[..n][..k] == ops[..k];
      }
      StaysBarred(s, max, ops[..n], id, src, until);
      RunLinked(s, max, ops[..n]);
      BarredStep(Run(s, max, ops[..n]), max, ops[n], id, src, until);
      assert ops[..n + 1] == ops;
    }
  }

  /** A source stays barred after its gone as long as the journey is tracked and nobody owns it:
      every sample it sends in that time from before `until` is dropped. */
  lemma QuarantineHolds(s: State, max: nat, ops: seq<Op>, k: nat, id: string, src: string, until: TimeMs)
    requires Linked(s) && 0 < max && Barred(s, id, src, until)
    requires forall op <- ops :: op.src != ""
    requires k < |ops| && Early(ops[k], id, src, until)
    requires forall i :: 0 <= i <= k ==> id in Run(s, max, ops[..i]).byID && OwnerOf(Run(s, max, ops[..i]), id) == ""
    ensures Apply(Run(s, max, ops[..k]), max, ops[k]).1 == []
  {
    forall i | 0 <= i <= k
      ensures id in Run(s, max, ops[..k][..i]).byID && OwnerOf(Run(s, max, ops[..k][..i]), id) == ""
    {
      assert ops[..k][..i] == ops[..i];
    }
    StaysBarred(s, max, ops[..k], id, src, until);
    RunLinked(s, max, ops[..k]);
    BarredStep(Run(s, max, ops[..k]), max, ops[k], id, src, until);
  }

  // --- clocks at a crossing ---

  /** After a's gone at g.t the next owner's sample lands after it exactly when it is later than the
      gone or at most GONE_SLACK before it. */
  lemma NextOwnerAfterGone(j: Rec, a: string, g: Sample, b: string, x: Sample, found: Option<Meta>)
    requires j.owner == a && a != "" && j.known && g.gone && b != a && b != "" && !x.gone
    ensures var r := Step(Step(Some(j), a, g, found).rec, b, x, found);
            && r.rec.Some? && r.rec.value.owner == b && r.out != []
            && (r.out[|r.out| - 1].t > g.t <==> x.t >= g.t - GONE_SLACK)
  {
  }

  // --- the records a rollback leaves over ---

  /** A blank record answers every sample and adopt as an untracked journey does. */
  lemma BlankIsUntracked(src: string, x: Sample, found: Option<Meta>, t: TimeMs)
    requires src != ""
    ensures var (b, u) := (Step(Some(BLANK), src, x, found), Step(None, src, x, found));
            && b.out == u.out && b.stats == u.stats && b.seen == u.seen
            && (b.rec == u.rec || (b.rec == Some(BLANK) && u.rec == None))
    ensures AdoptRec(Some(BLANK), src, t) == AdoptRec(None, src, t)
  {
  }

  /** A resync is the exception: it ends a blank record as it would an untracked journey, but keeps
      what the store knew of it. The next sample then reads differently exactly when it omits train
      details that the store's last row has, or is a gone and the store still has the journey. */
  lemma BlankAfterResync(lj: LiveJourney, t: TimeMs, src: string, x: Sample, found: Option<Meta>)
    requires src != ""
    ensures Step(Some(ForgottenRec(BLANK, lj, t)), src, x, found).out != Step(None, src, x, found).out
            <==> if x.gone then found.Some? else Carry(x.meta, lj.meta) != x.meta
  {
  }

  lemma {:induction false} DistinctCount(hs: seq<Handle>, ids: set<string>, s: State)
    requires Distinct(hs) && forall h <- hs ::
             h in s.cells && s.cells[h].id in ids
             && (s.cells[h].id in s.byID && s.byID[s.cells[h].id] == h)
    requires forall id <- ids ::
             id in s.byID && s.byID[id] in hs && s.byID[id] in s.cells
             && s.cells[s.byID[id]].id == id
    ensures |hs| == |ids|
  {
    if hs == [] {
      if id :| id in ids { assert s.byID[id] in hs; }
    } else {
      DistinctCount(hs[1..], ids - {s.cells[hs[0]].id}, s);
    }
  }

  /** How many journeys a rollback leaves: those tracked at Mark and every journey forgotten since. So
      the bound max holds after it exactly when these are at most max. */
  lemma RollbackCount(s: State, max: nat, ops: seq<Op>)
    requires Linked(s)
    ensures |Undone(s, max, ops).lru| == |s.byID.Keys + ForgottenSince(s, max, ops)|
  {
    RollbackIsExact(s, max, ops);
    var r := Undone(s, max, ops);
    DistinctCount(r.lru, r.byID.Keys, r);
  }

  /** With room for one journey, adopting another one forgets it. */
  lemma AdoptAnother(s: State, src: string, id: string, t: TimeMs)
    requires Linked(s) && |s.lru| == 1 && id !in s.byID && s.undo.Undo?
    ensures var r := Adopted(s, 1, src, id, t);
            && Linked(r) && |r.lru| == 1 && id in r.byID && r.byID.Keys == {id} && r.undo.Undo?
            && r.undo.evicted == s.undo.evicted + [s.lru[0]]
            && forall h <- s.cells :: h in r.cells && r.cells[h].id == s.cells[h].id
  {
    hide AdoptRec;
    var s2 := Add(s, 1, id);
    AddAnother(s, id);
    WriteRec(s2, id, AdoptRec(RecOf(s2, id), src, t));
  }

  lemma AddAnother(s: State, id: string)
    requires Linked(s) && |s.lru| == 1 && id !in s.byID && s.undo.Undo?
    ensures var r := Add(s, 1, id);
            && Linked(r) && |r.lru| == 1 && r.byID.Keys == {id} && r.undo.Undo?
            && r.undo.evicted == s.undo.evicted + [s.lru[0]]
            && forall h <- s.cells :: h in r.cells && r.cells[h].id == s.cells[h].id
  {
    AddedLinked(s, id);
    var s1 := Added(s, id);
    assert s1.lru == [s.next, s.lru[0]];
    ForgetLinked(s1);
    assert Trim(Forget(s1), 1) == Forget(s1);
    var r := Add(s, 1, id);
    assert r == Forget(s1) && r.byID[id] == s.next;
    assert forall x <- r.byID :: r.byID[x] in r.lru;
  }

  /** Whatever journey is tracked when there is room for one, a batch that adopts two more and is
      rolled back leaves at least two. */
  lemma RollbackExceedsMax(s: State, src: string, y: string, z: string, t: TimeMs)
    requires Linked(s) && |s.lru| == 1 && s.undo.NoUndo? && y !in s.byID && z !in s.byID && y != z
    ensures |Undone(s, 1, [DoAdopt(src, y, t), DoAdopt(src, z, t)]).lru| > 1
  {
    hide Adopted, Linked;
    var ops := [DoAdopt(src, y, t), DoAdopt(src, z, t)];
    var s0 := Mark(s);
    assert Linked(s0) by { MarkSince(s); RunSince(s0, s, 1, []); SinceLinked(s0, s); }
    var s1 := Adopted(s0, 1, src, y, t);
    AdoptAnother(s0, src, y, t);
    var s2 := Adopted(s1, 1, src, z, t);
    AdoptAnother(s1, src, z, t);
    assert ops[..1] == [ops[0]] && ops[..1][..0] == [];
    assert Run(s0, 1, ops[..1]) == Apply(Run(s0, 1, ops[..1][..0]), 1, ops[0]).0 == s1;
    assert Run(s0, 1, ops) == s2;
    var x, h := TrackedId(s), s1.lru[0];
    assert {x, y} <= s.byID.Keys + ForgottenSince(s, 1, ops) by {
      HeadId(s1, y);
      assert h in s2.undo.evicted && s2.cells[h].id == y;
    }
    RollbackCount(s, 1, ops);
    SubsetCount({x, y}, s.byID.Keys + ForgottenSince(s, 1, ops));
  }

  lemma SinceLinked(s: State, m: State)
    requires Since(s, m)
    ensures Linked(s)
  {
  }

  lemma HeadId(s: State, id: string)
    requires Linked(s) && s.lru != [] && s.byID.Keys == {id}
    ensures s.lru[0] in s.cells && s.cells[s.lru[0]].id == id
  {
    assert s.lru[0] in s.lru;
  }

  function TrackedId(s: State): (id: string)
    requires Linked(s) && s.lru != []
    ensures id in s.byID
  {
    assert s.lru[0] in s.lru;
    s.cells[s.lru[0]].id
  }

  lemma SubsetCount<T>(a: set<T>, b: set<T>)
    requires a <= b
    ensures |a| <= |b|
  {
    assert b == a + (b - a);
  }
}
