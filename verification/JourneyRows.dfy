/** The rows that are stored, field by field: a sample itself with its omitted details filled in, and the gones that end
    journeys, for a sample, the end of a resync or a stop. */
module JourneyRows {
  import opened Common
  import opened JourneyRules
  import opened JourneyState
  import opened JourneyUndo
  import opened JourneyOwnership
  import JourneyLeftover

  /** `row` is the sample `s` stored at time t: nothing of it is changed but that time, and train details it omits are
      those of `from`. */
  ghost predicate StoredAs(s: Sample, row: Sample, t: TimeMs, from: Option<Meta>) {
    && row.surface == s.surface && row.t == t && row.tick == s.tick && row.body == s.body
    && row.gone == s.gone && row.noTick == s.noTick && row.other == s.other
    && row.meta.id == s.meta.id && row.meta.kind == s.meta.kind && row.meta.force == s.meta.force
    && row.meta.name == s.meta.name
    && var fill := from.Some? && s.meta.kind == Train && from.value.kind == Train;
       && row.meta.carriages == (if fill && s.meta.carriages == 0 then from.value.carriages else s.meta.carriages)
       && row.meta.kinds == (if fill && s.meta.kinds == "" then from.value.kinds else s.meta.kinds)
       && row.meta.color == (if fill && s.meta.color == "" then from.value.color else s.meta.color)
  }

  /** `row` ends the journey `meta` on a surface at t; it has no position. */
  ghost predicate EndsIt(row: Sample, surface: string, meta: Meta, t: TimeMs, tick: int, noTick: bool) {
    && row.gone && row.surface == surface && row.meta == meta && row.t == t && row.tick == tick && row.noTick == noTick
    && row.other == 0 && row.body == []
  }

  /** What a source may still send of a journey another one adopted: samples from before the adopt, and one gone, which
      is moved before the adopt. */
  ghost predicate LateRows(j: Rec, src: string, s: Sample, found: Option<Meta>, out: seq<Sample>) {
    if j.prev != src && !j.anyPrev then out == []
    else if !s.gone then
      if s.t >= j.cut then out == []
      else |out| == 1 && StoredAs(s, out[0], s.t, if j.prevKnown then Some(j.prevMeta) else None)
    else if j.anyPrev && found.None? then out == []
    else if !j.anyPrev && !j.prevKnown then out == []
    else
      && |out| == 1
      && EndsIt(out[0], if j.anyPrev then s.surface else j.prevSfc, if j.anyPrev then found.value else j.prevMeta,
                if s.t < j.cut then s.t else j.cut - 1, if s.t < j.cut then s.tick else 0, s.noTick || s.t >= j.cut)
  }

  /** A gone ends the journey where it is known to be live: where its owner had it, or where the store has it. */
  ghost predicate GoneRows(j: Option<Rec>, src: string, s: Sample, found: Option<Meta>, out: seq<Sample>) {
    if j.Some? && j.value.known then
      if j.value.owner == "" then out == []
      else |out| == 1 && EndsIt(out[0], j.value.sfc, j.value.meta, s.t, s.tick, s.noTick)
    else if found.None? || src == "" then out == []
    else |out| == 1 && EndsIt(out[0], s.surface, found.value, s.t, s.tick, s.noTick)
  }

  /** A sample that makes or keeps its source the owner is stored last; on another surface a gone where the journey was
      live comes before it. After another source's gone of the last quarter of a second it comes after that. */
  ghost predicate OwnRows(j: Option<Rec>, src: string, s: Sample, out: seq<Sample>) {
    var known := j.Some? && j.value.known;
    var leaves := known && j.value.sfc != s.surface && j.value.owner != "";
    var after := j.Some? && j.value.afterBy != "" && j.value.afterBy != src
                 && j.value.afterT - 250 <= s.t <= j.value.afterT;
    && |out| == (if leaves then 2 else 1)
    && StoredAs(s, out[|out| - 1], if after then j.value.afterT + 1 else s.t,
                if known then Some(j.value.meta) else None)
    && (leaves ==> EndsIt(out[0], j.value.sfc, j.value.meta, s.t, s.tick, s.noTick))
  }

  /** The rows of one sample of src, of a journey with record j. */
  ghost predicate RowsOf(j: Option<Rec>, src: string, s: Sample, found: Option<Meta>, out: seq<Sample>) {
    if j.Some? && j.value.owner != "" && j.value.owner != src then LateRows(j.value, src, s, found, out)
    else if s.gone then GoneRows(j, src, s, found, out)
    else if j.Some? && j.value.owner == "" && j.value.goneBy == src && s.t < j.value.goneT + 10_000 then out == []
    else OwnRows(j, src, s, out)
  }

  /** What is known of the owner before: it is src, with the row just stored; after its gone there is none. */
  ghost predicate LateAfter(j: Rec, src: string, s: Sample, out: seq<Sample>, rec: Rec)
    requires out != []
  {
    && rec.owner == j.owner && rec.sfc == j.sfc && rec.meta == j.meta && rec.known == j.known && rec.lastT == j.lastT
    && rec.goneBy == j.goneBy && rec.cut == j.cut && rec.afterBy == j.afterBy && !rec.anyPrev
    && if s.gone then rec.prev == ""
       else rec.prev == src && rec.prevKnown && rec.prevSfc == s.surface && rec.prevMeta == out[0].meta
  }

  /** Who else may still send: nobody after a gone or once the owner is another one; the owner's own samples before the
      adopt move it back. */
  ghost predicate OwnAfter(j: Option<Rec>, src: string, s: Sample, out: seq<Sample>, rec: Rec)
    requires out != []
  {
    var row := out[|out| - 1];
    if s.gone then
      rec.prev == "" && !rec.anyPrev && rec.goneT == s.t && rec.afterBy == src && rec.afterT == s.t
    else
      && (if j.Some? && j.value.owner == src then rec.prev == j.value.prev && rec.anyPrev == j.value.anyPrev
          else rec.prev == "" && !rec.anyPrev)
      && (j.Some? && j.value.owner == src && (rec.prev != "" || rec.anyPrev) ==>
            rec.cut == if row.t < j.value.cut then row.t else j.value.cut)
      && (if row.t != s.t then j.Some? && rec.afterBy == j.value.afterBy && rec.afterT == row.t else rec.afterBy == "")
  }

  /** What the journey's record says once rows were stored: the last row's source, surface, description and time, and
      for a gone that nobody owns the journey; and of whom more is awaited. */
  ghost predicate FollowedBy(j: Option<Rec>, src: string, s: Sample, out: seq<Sample>, rec: Option<Rec>) {
    && (out != [] && j.Some? && j.value.owner != "" && j.value.owner != src ==>
          rec.Some? && LateAfter(j.value, src, s, out, rec.value))
    && OwnedBy(j, src, s, out, rec) && KeptAs(j, src, s, out, rec)
  }

  /** A sample that stores nothing leaves the record as it was; but after the gone of an owner before, of whom nothing
      is known, nobody is awaited any more. */
  ghost predicate KeptAs(j: Option<Rec>, src: string, s: Sample, out: seq<Sample>, rec: Option<Rec>) {
    out == [] && src != "" ==>
      if j.Some? && j.value.owner != "" && j.value.owner != src && s.gone && j.value.prev == src && !j.value.anyPrev
         && !j.value.prevKnown then rec == Some(j.value.(prev := "")) else rec == j
  }

  /** The journeys sent again in a source's resync are those whose samples were stored as the owner's. */
  ghost predicate SentAgain(seen: map<string, set<string>>, j: Option<Rec>, src: string, s: Sample, out: seq<Sample>,
                            seen': map<string, set<string>>) {
    var stored := out != [] && !s.gone && !(j.Some? && j.value.owner != "" && j.value.owner != src);
    seen' == if src in seen && stored then seen[src := seen[src] + {s.meta.id}] else seen
  }

  ghost predicate OwnedBy(j: Option<Rec>, src: string, s: Sample, out: seq<Sample>, rec: Option<Rec>) {
    out != [] && !(j.Some? && j.value.owner != "" && j.value.owner != src) ==>
      && rec.Some? && OwnAfter(j, src, s, out, rec.value) && rec.value.known && rec.value.lastT == out[|out| - 1].t
      && rec.value.sfc == out[|out| - 1].surface && rec.value.meta == out[|out| - 1].meta
      && rec.value.owner == (if s.gone then "" else src) && rec.value.goneBy == (if s.gone then src else "")
  }

  /** What a sample counts as. Each sample that stores nothing counts once, as a sample of a source that is not the
      owner, a gone of a journey that is not known, or one held off after its source's gone. */
  ghost predicate CountedAs(j: Option<Rec>, src: string, s: Sample, found: Option<Meta>, out: seq<Sample>, c: Stats) {
    var others := j.Some? && j.value.owner != "" && j.value.owner != src;
    && c.ownerDrops + c.unknownGones + c.quarantined == (if out == [] then 1 else 0)
    && c.ownerDrops <= (if others then 1 else 0) && c.unknownGones <= (if s.gone then 1 else 0)
    && (c.quarantined == 1 ==> !others && !s.gone)
    && c.lateKept == (if others && out != [] then 1 else 0)
    && c.surfaceChanges == (if !others && !s.gone && out != [] && j.Some? && j.value.known && j.value.sfc != s.surface
                            then 1 else 0)
    && c.afterGone == (if !others && !s.gone && out != [] && out[|out| - 1].t != s.t then 1 else 0)
    && (c.resolvedGones == 1 ==> s.gone && found.Some?) && c.resolvedGones <= 1
    && c.evicted == 0 && c.resyncForgotten == 0
  }

  lemma StepCounts(j: Option<Rec>, src: string, s: Sample, found: Option<Meta>)
    ensures CountedAs(j, src, s, found, Step(j, src, s, found).out, Step(j, src, s, found).stats)
  {
    hide Late, Gone, Own;
    if j.Some? && j.value.owner != "" && j.value.owner != src {
      LateCounts(j, src, s, found);
    } else if s.gone {
      GoneCounts(j, src, s, found);
    } else {
      OwnCounts(j, src, s, found);
    }
  }

  lemma LateCounts(j: Option<Rec>, src: string, s: Sample, found: Option<Meta>)
    requires j.Some? && j.value.owner != "" && j.value.owner != src
    ensures CountedAs(j, src, s, found, Late(j.value, src, s, found).out, Late(j.value, src, s, found).stats)
  {
  }

  lemma GoneCounts(j: Option<Rec>, src: string, s: Sample, found: Option<Meta>)
    requires s.gone && !(j.Some? && j.value.owner != "" && j.value.owner != src)
    ensures CountedAs(j, src, s, found, Gone(j, src, s, found).out, Gone(j, src, s, found).stats)
  {
  }

  lemma OwnCounts(j: Option<Rec>, src: string, s: Sample, found: Option<Meta>)
    requires !s.gone && !(j.Some? && j.value.owner != "" && j.value.owner != src)
    ensures CountedAs(j, src, s, found, Own(j, src, s).out, Own(j, src, s).stats)
  {
  }

  /** Every sample's rows are these. */
  lemma StepRows(j: Option<Rec>, src: string, s: Sample, found: Option<Meta>)
    ensures RowsOf(j, src, s, found, Step(j, src, s, found).out)
    ensures FollowedBy(j, src, s, Step(j, src, s, found).out, Step(j, src, s, found).rec)
  {
    hide Late, Gone, Own, LateRows, GoneRows, OwnRows, StoredAs, EndsIt;
    if j.Some? && j.value.owner != "" && j.value.owner != src {
      LateIs(j.value, src, s, found);
    } else if s.gone {
      GoneIs(j, src, s, found);
    } else {
      OwnIs(j, src, s);
    }
  }

  lemma LateIs(j: Rec, src: string, s: Sample, found: Option<Meta>)
    requires j.owner != "" && j.owner != src
    ensures j.prev == src || j.anyPrev ==> LateRows(j, src, s, found, Late(j, src, s, found).out)
    ensures (j.prev == src || j.anyPrev)
            ==> FollowedBy(Some(j), src, s, Late(j, src, s, found).out, Late(j, src, s, found).rec)
    ensures j.prev != src && !j.anyPrev ==> LateRows(j, src, s, found, [])
  {
  }

  lemma GoneIs(j: Option<Rec>, src: string, s: Sample, found: Option<Meta>)
    requires s.gone && !(j.Some? && j.value.owner != "" && j.value.owner != src)
    ensures GoneRows(j, src, s, found, Gone(j, src, s, found).out)
    ensures FollowedBy(j, src, s, Gone(j, src, s, found).out, Gone(j, src, s, found).rec)
  {
  }

  lemma OwnIs(j: Option<Rec>, src: string, s: Sample)
    requires !s.gone && !(j.Some? && j.value.owner != "" && j.value.owner != src)
    ensures OwnRows(j, src, s, Own(j, src, s).out)
    ensures FollowedBy(j, src, s, Own(j, src, s).out, Own(j, src, s).rec)
  {
  }

  // --- in the tracker ---

  /** The counters after `more`, one by one. */
  predicate CountsUp(a: Stats, more: Stats, b: Stats) {
    && b.ownerDrops == a.ownerDrops + more.ownerDrops && b.unknownGones == a.unknownGones + more.unknownGones
    && b.resolvedGones == a.resolvedGones + more.resolvedGones && b.lateKept == a.lateKept + more.lateKept
    && b.surfaceChanges == a.surfaceChanges + more.surfaceChanges && b.afterGone == a.afterGone + more.afterGone
    && b.quarantined == a.quarantined + more.quarantined
    && b.resyncForgotten == a.resyncForgotten + more.resyncForgotten && b.evicted >= a.evicted + more.evicted
  }

  /** A sample's counters. */
  lemma SampledCounts(s: State, max: nat, src: string, x: Sample, found: Option<Meta>) returns (c: Stats)
    requires Linked(s) && 0 < max
    ensures var (t, out) := Sampled(s, max, src, x, found);
            CountedAs(RecOf(s, x.meta.id), src, x, found, out, c) && CountsUp(s.stats, c, t.stats)
  {
    hide Step, CountedAs, RecOf, Linked;
    StepCounts(RecOf(s, x.meta.id), src, x, found);
    c := Step(RecOf(s, x.meta.id), src, x, found).stats;
    TrimCounts(s, max, x.meta.id);
  }

  lemma TrimCounts(s: State, max: nat, id: string)
    requires 0 < max
    ensures CountsUp(s.stats, ZERO, Add(s, max, id).stats)
  {
    var h := s.next;
    TrimStats(s.(cells := s.cells[h := Journey(id, BLANK)], next := h + 1, byID := s.byID[id := h], lru := [h] + s.lru,
                 undo := if s.undo.Undo? then s.undo.(added := s.undo.added + [h]) else s.undo), max);
  }

  lemma {:induction false} TrimStats(s: State, max: nat)
    ensures CountsUp(s.stats, ZERO, Trim(s, max).stats)
    decreases |s.lru|
  {
    if |s.lru| > max { TrimStats(Forget(s), max); }
  }

  /** A journey that is added is the most recent one, and of the others the `max - 1` most recently seen stay, in their
      order; those behind are forgotten. */
  lemma AddRecent(s: State, max: nat, id: string)
    requires 0 < max && Linked(s) && id !in s.byID
    ensures var t := Add(s, max, id);
            && |t.lru| == Min(max, |s.lru| + 1) && t.lru[0] == s.next && t.lru[1..] <= s.lru
            && id in t.byID && t.byID[id] == s.next && Linked(t)
            && (forall x <- s.byID :: x in t.byID <==> s.byID[x] in t.lru[1..])
            && t.stats == s.stats.(evicted := s.stats.evicted + |s.lru| + 1 - |t.lru|)
  {
    hide Linked;
    AddRec(s, max, id, id);
    var h := s.next;
    var s1 := s.(cells := s.cells[h := Journey(id, BLANK)], next := h + 1, byID := s.byID[id := h], lru := [h] + s.lru,
                 undo := if s.undo.Undo? then s.undo.(added := s.undo.added + [h]) else s.undo);
    TrimRecent(s1, max);
    var t := Add(s, max, id);
    assert t.lru == s1.lru[..|t.lru|];
    Trimmed(s, s1, t, id);
  }

  lemma Trimmed(s: State, s1: State, t: State, id: string)
    requires Linked(s) && Linked(t) && id !in s.byID && t.lru != [] && s1.lru == [s.next] + s.lru
    requires |t.lru| <= |s1.lru| && t.lru == s1.lru[..|t.lru|] && s1.byID == s.byID[id := s.next]
    requires s1.cells == s.cells[s.next := Journey(id, BLANK)] && t.cells == s1.cells
    ensures id in t.byID && t.byID[id] == s.next && t.lru[1..] <= s.lru
    ensures forall x <- s.byID :: x in t.byID <==> s.byID[x] in t.lru[1..]
  {
    assert t.lru[0] == s.next;
    assert t.cells[s.next].id == id;
    forall x <- s.byID ensures x in t.byID <==> s.byID[x] in t.lru[1..] {
      var h := s.byID[x];
      assert t.cells[h].id == x;
      if x in t.byID { assert t.byID[x] in t.lru && t.cells[t.byID[x]].id == x; }
    }
  }

  lemma {:induction false} TrimRecent(s: State, max: nat)
    ensures Trim(s, max).lru == s.lru[..Min(max, |s.lru|)] && Trim(s, max).cells == s.cells
    ensures Trim(s, max).stats == s.stats.(evicted := s.stats.evicted + |s.lru| - |Trim(s, max).lru|)
    decreases |s.lru|
  {
    if |s.lru| > max {
      TrimRecent(Forget(s), max);
      assert s.lru[..|s.lru| - 1][..max] == s.lru[..max];
    } else {
      assert s.lru[..|s.lru|] == s.lru;
    }
  }

  /** The rows of a sample, and what is known of its journey then, are those of its record. */
  lemma SampledRows(s: State, max: nat, src: string, x: Sample, found: Option<Meta>)
    requires Linked(s) && 0 < max
    ensures var (t, out) := Sampled(s, max, src, x, found);
            var id := x.meta.id;
            RowsOf(RecOf(s, id), src, x, found, out) && FollowedBy(RecOf(s, id), src, x, out, RecOf(t, id))
  {
    hide Step, RowsOf, FollowedBy, Linked, RecOf, Add, Write;
    SampledRec(s, max, src, x, found, "");
    StepRows(RecOf(s, x.meta.id), src, x, found);
  }

  /** What the sample counts for in a running resync, and that a journey heard of is the most recent one. */
  ghost predicate Noticed(s: State, src: string, x: Sample, out: seq<Sample>, t: State) {
    && SentAgain(s.seen, RecOf(s, x.meta.id), src, x, out, t.seen)
    && (x.meta.id in t.byID ==> t.lru != [] && t.lru[0] == t.byID[x.meta.id])
  }

  lemma StepSeen(j: Option<Rec>, src: string, s: Sample, found: Option<Meta>)
    ensures var o := Step(j, src, s, found);
            o.seen <==> o.out != [] && !s.gone && !(j.Some? && j.value.owner != "" && j.value.owner != src)
    ensures !s.gone || j.Some? || Step(j, src, s, found).rec.None? || Step(j, src, s, found).wrote
  {
  }

  lemma {:induction false} TrimSeen(s: State, max: nat)
    ensures Trim(s, max).seen == s.seen
    decreases |s.lru|
  {
    if |s.lru| > max { TrimSeen(Forget(s), max); }
  }

  lemma AddSeen(s: State, max: nat, id: string)
    ensures Add(s, max, id).seen == s.seen
  {
    var h := s.next;
    TrimSeen(s.(cells := s.cells[h := Journey(id, BLANK)], next := h + 1, byID := s.byID[id := h], lru := [h] + s.lru,
                undo := if s.undo.Undo? then s.undo.(added := s.undo.added + [h]) else s.undo), max);
  }

  lemma WriteSeen(s: State, id: string, r: Rec)
    ensures Write(s, id, r).seen == s.seen && Write(s, id, r).lru == s.lru && Write(s, id, r).byID == s.byID
  {
  }

  lemma ResentSeen(s: State, src: string, id: string)
    ensures var t := Resent(s, src, id);
            t.seen == (if src in s.seen then s.seen[src := s.seen[src] + {id}] else s.seen)
            && t.lru == s.lru && t.byID == s.byID
  {
  }

  lemma FrontSeen(s: State, id: string)
    requires Linked(s)
    ensures var t := ToFront(s, id);
            t.seen == s.seen && t.byID == s.byID && (id in s.byID ==> t.lru != [] && t.lru[0] == s.byID[id])
  {
  }

  lemma SampledNoticed(s: State, max: nat, src: string, x: Sample, found: Option<Meta>)
    requires Linked(s) && 0 < max
    ensures var (t, out) := Sampled(s, max, src, x, found); Noticed(s, src, x, out, t)
  {
    hide Step, Linked, RecOf, Add, Write, Resent, ToFront;
    var id := x.meta.id;
    var s1 := ToFront(s, id);
    FrontSeen(s, id);
    ToFrontRec(s, id);
    var o := Step(RecOf(s, id), src, x, found);
    StepSeen(RecOf(s, id), src, x, found);
    if id !in s1.byID && o.rec.Some? {
      AddRecent(s1, max, id);
      AddSeen(s1, max, id);
    }
    var s2 := if id !in s1.byID && o.rec.Some? then Add(s1, max, id) else s1;
    if o.wrote && o.rec.Some? { WriteSeen(s2, id, o.rec.value); }
    var s3 := if o.wrote && o.rec.Some? then Write(s2, id, o.rec.value) else s2;
    ResentSeen(s3, src, id);
  }

  /** The rows of a message's samples, one sample after the other. */
  ghost predicate MessageRows(states: seq<State>, src: string, xs: seq<Sample>,
                              lookup: (string, string) -> Option<Meta>, rows: seq<seq<Sample>>) {
    && |states| == |xs| + 1 && |rows| == |xs|
    && forall i :: 0 <= i < |xs| ==>
         var id := xs[i].meta.id;
         RowsOf(RecOf(states[i], id), src, xs[i], lookup(xs[i].surface, id), rows[i])
         && FollowedBy(RecOf(states[i], id), src, xs[i], rows[i], RecOf(states[i + 1], id))
         && Noticed(states[i], src, xs[i], rows[i], states[i + 1])
  }

  function Joined(rows: seq<seq<Sample>>): seq<Sample> {
    if rows == [] then [] else Joined(rows[..|rows| - 1]) + rows[|rows| - 1]
  }

  lemma {:induction false} SampledAllRows(s: State, max: nat, src: string, xs: seq<Sample>,
                                          lookup: (string, string) -> Option<Meta>)
    returns (states: seq<State>, rows: seq<seq<Sample>>)
    requires Linked(s) && 0 < max
    ensures MessageRows(states, src, xs, lookup, rows) && states[0] == s
    ensures (states[|xs|], Joined(rows)) == SampledAll(s, max, src, xs, lookup) && Linked(states[|xs|])
    decreases xs
  {
    hide RowsOf, FollowedBy, Linked, RecOf, Sampled, Noticed;
    if xs == [] {
      states, rows := [s], [];
    } else {
      var n := |xs| - 1;
      var ss, rs := SampledAllRows(s, max, src, xs[..n], lookup);
      SampledRows(ss[n], max, src, xs[n], lookup(xs[n].surface, xs[n].meta.id));
      SampledRec(ss[n], max, src, xs[n], lookup(xs[n].surface, xs[n].meta.id), "");
      SampledNoticed(ss[n], max, src, xs[n], lookup(xs[n].surface, xs[n].meta.id));
      var (t, out) := Sampled(ss[n], max, src, xs[n], lookup(xs[n].surface, xs[n].meta.id));
      states, rows := ss + [t], rs + [out];
      assert rows[..n] == rs;
      forall i | 0 <= i < n
        ensures RowsOf(RecOf(states[i], xs[i].meta.id), src, xs[i], lookup(xs[i].surface, xs[i].meta.id), rows[i])
        ensures FollowedBy(RecOf(states[i], xs[i].meta.id), src, xs[i], rows[i], RecOf(states[i + 1], xs[i].meta.id))
        ensures Noticed(states[i], src, xs[i], rows[i], states[i + 1])
      {
        assert xs[..n][i] == xs[i] && states[i] == ss[i] && states[i + 1] == ss[i + 1] && rows[i] == rs[i];
      }
    }
  }

  // --- the end of a resync, and a stop ---

  /** A tracked journey that src owns and sampled, of those `ids` has: it gets this row. */
  ghost predicate EndsOwned(s: State, src: string, t: TimeMs, ids: string -> bool, row: Sample) {
    exists id: string :: EndsTracked(s, src, t, ids, id, row)
  }

  ghost predicate EndsTracked(s: State, src: string, t: TimeMs, ids: string -> bool, id: string, row: Sample) {
    && RecOf(s, id).Some? && ids(id)
    && var j := RecOf(s, id).value; j.owner == src && j.known && EndsIt(row, j.sfc, j.meta, t, 0, true)
  }

  lemma {:induction false} EndEachRows(s: State, ids: seq<string>, t: TimeMs, row: Sample)
    requires Linked(s)
    ensures row in EndEach(s, ids, t).1 <==>
            exists id :: id in ids && RecOf(s, id).Some?
              && EndsIt(row, RecOf(s, id).value.sfc, RecOf(s, id).value.meta, t, 0, true)
    decreases ids
  {
    hide Linked, RecOf, Write;
    if ids != [] {
      var init, id := ids[..|ids| - 1], ids[|ids| - 1];
      EndEachRows(s, init, t, row);
      EndEachRec(s, init, t);
      assert ids == init + [id];
    }
  }

  lemma EndOwnedRows(s: State, src: string, t: TimeMs, m: Match, row: Sample)
    requires Linked(s)
    ensures row in EndOwned(s, src, t, m).1 <==> EndsOwned(s, src, t, id => Matches(m, id), row)
  {
    hide EndsIt, EndEach;
    EndEachRows(s, Owned(s, s.lru, src, m), t, row);
    OwnedAre(s, s.lru, src, m);
    forall id
      ensures id in Owned(s, s.lru, src, m) <==>
              RecOf(s, id).Some? && RecOf(s, id).value.owner == src && RecOf(s, id).value.known && Matches(m, id)
    {
      if id in s.byID { assert s.byID[id] in s.lru; }
    }
    if row in EndOwned(s, src, t, m).1 {
      var id :| id in Owned(s, s.lru, src, m) && RecOf(s, id).Some?
                && EndsIt(row, RecOf(s, id).value.sfc, RecOf(s, id).value.meta, t, 0, true);
      assert EndsTracked(s, src, t, id => Matches(m, id), id, row);
    }
  }

  /** The rows of a stop: a gone for each player the source owns. */
  lemma StoppedRows(s: State, src: string, t: TimeMs, row: Sample)
    requires Linked(s)
    ensures row in Stopped(s, src, t).1 <==>
            EndsOwned(s, src, t, id => |id| >= 2 && id[0] == 'p' && id[1] == ':', row)
  {
    hide EndsIt, EndOwned;
    EndOwnedRows(Finished(s, src), src, t, Players, row);
    FinishedSame(s, src);
    SameEnds(Finished(s, src), s, src, t, id => Matches(Players, id), id => |id| >= 2 && id[0] == 'p' && id[1] == ':',
      row);
  }

  lemma FinishedSame(s: State, src: string)
    ensures (forall id :: RecOf(Finished(s, src), id) == RecOf(s, id)) && (Linked(s) ==> Linked(Finished(s, src)))
  {
  }

  lemma SameEnds(s: State, s': State, src: string, t: TimeMs, ids: string -> bool, ids': string -> bool, row: Sample)
    requires (forall id :: RecOf(s, id) == RecOf(s', id)) && forall id :: ids(id) <==> ids'(id)
    ensures EndsOwned(s, src, t, ids, row) <==> EndsOwned(s', src, t, ids', row)
  {
    hide EndsIt, RecOf;
    forall id ensures EndsTracked(s, src, t, ids, id, row) <==> EndsTracked(s', src, t, ids', id, row) {}
  }

  /** A journey live in the store that a resync of src ends although the tracker does not know it: src did not send it,
      nobody else owns it, it is src's or lies where src captures, its newest row is before t, and no row of the batch
      is about it. */
  ghost predicate Forgotten(j: Option<Rec>, src: string, t: TimeMs, region: Region, resent: set<string>,
                            batch: seq<Sample>, lj: LiveJourney) {
    && lj.t < t && lj.meta.id !in resent
    && (j.Some? ==> !j.value.known && (j.value.owner == "" || j.value.owner == src))
    && ((j.Some? && j.value.owner == src) || region.Everywhere?
        || (region.Bounds? && region.x1 <= lj.x < region.x2 && region.y1 <= lj.y < region.y2))
    && forall r <- batch :: !(r.surface == lj.surface && r.meta.id == lj.meta.id)
  }

  /** The gones of journeys that src owns and did not send again. */
  ghost predicate EndsUnsent(s: State, src: string, t: TimeMs, resent: set<string>, row: Sample) {
    EndsOwned(s, src, t, id => id !in resent, row)
  }

  ghost predicate EndsForgotten(s: State, src: string, t: TimeMs, region: Region, live: seq<LiveJourney>,
                                resent: set<string>, sofar: seq<Sample>, row: Sample) {
    exists lj <- live :: Forgotten(RecOf(s, lj.meta.id), src, t, region, resent, sofar, lj)
      && (forall r :: EndsUnsent(s, src, t, resent, r) ==> !(r.surface == lj.surface && r.meta.id == lj.meta.id))
      && EndsIt(row, lj.surface, lj.meta, t, 0, true)
  }

  lemma {:induction false} StaleIs(s: State, live: seq<LiveJourney>, src: string, region: Region, resent: set<string>,
                                   pending: set<(string, string)>, lj: LiveJourney)
    ensures lj in StaleOf(s, live, src, region, resent, pending) <==>
            lj in live && Stale(s, src, region, resent, pending, lj)
    decreases live
  {
    hide Stale;
    if live != [] {
      StaleIs(s, live[..|live| - 1], src, region, resent, pending, lj);
      assert live == live[..|live| - 1] + [live[|live| - 1]];
    }
  }

  lemma {:induction false} EndStaleRows(s: State, stale: seq<LiveJourney>, t: TimeMs, row: Sample)
    ensures row in EndStale(s, stale, t).1 <==>
            exists lj <- stale :: lj.t < t && EndsIt(row, lj.surface, lj.meta, t, 0, true)
    decreases stale
  {
    hide RecOf, Write;
    if stale != [] {
      EndStaleRows(s, stale[..|stale| - 1], t, row);
      assert stale == stale[..|stale| - 1] + [stale[|stale| - 1]];
    }
  }

  /** The stale journeys are the forgotten ones, and ending what src owns changes nothing about that. */
  lemma StaleForgotten(s: State, s1: State, src: string, t: TimeMs, region: Region, resent: set<string>,
                       batch: seq<Sample>, lj: LiveJourney)
    requires RecOf(s1, lj.meta.id) == RecOf(s, lj.meta.id)
             || (RecOf(s, lj.meta.id).Some? && RecOf(s, lj.meta.id).value.known
                 && RecOf(s1, lj.meta.id) == Some(EndRec(RecOf(s, lj.meta.id).value, t)))
    ensures lj.t < t && Stale(s1, src, region, resent, Keys(batch), lj)
            <==> Forgotten(RecOf(s, lj.meta.id), src, t, region, resent, batch, lj)
  {
    hide RecOf;
    assert (lj.surface, lj.meta.id) in Keys(batch) <==>
           exists r <- batch :: r.surface == lj.surface && r.meta.id == lj.meta.id;
  }

  /** The rows of the end of a resync: a gone for each journey src owns and did not send, and one for each forgotten
      journey. */
  lemma ResyncedRows(s: State, src: string, t: TimeMs, region: Region, live: seq<LiveJourney>, sofar: seq<Sample>,
                     row: Sample)
    requires Linked(s) && src in s.seen
    ensures row in Resynced(s, src, t, region, live, sofar).1 <==>
            EndsUnsent(s, src, t, s.seen[src], row)
            || EndsForgotten(s, src, t, region, live, s.seen[src], sofar, row)
  {
    hide EndsIt, EndOwned, EndStale, Stale, Forgotten, RecOf, Linked;
    var resent := s.seen[src];
    var s0, m := Finished(s, src), NotIn(resent);
    FinishedSame(s, src);
    var s1 := EndOwned(s0, src, t, m).0;
    var ended := EndOwned(s0, src, t, m).1;
    forall x ensures x in ended <==> EndsUnsent(s, src, t, resent, x) {
      EndOwnedRows(s0, src, t, m, x);
      SameEnds(s0, s, src, t, id => Matches(m, id), id => id !in resent, x);
    }
    EndOwnedRec(s0, src, t, m);
    var stale := StaleOf(s1, live, src, region, resent, Keys(sofar + ended));
    EndStaleRows(s1, stale, t, row);
    forall lj | lj in live
      ensures lj in stale && lj.t < t <==>
              Forgotten(RecOf(s, lj.meta.id), src, t, region, resent, sofar, lj)
              && forall r :: EndsUnsent(s, src, t, resent, r) ==> !(r.surface == lj.surface && r.meta.id == lj.meta.id)
    {
      StaleIs(s1, live, src, region, resent, Keys(sofar + ended), lj);
      StaleForgotten(s, s1, src, t, region, resent, sofar + ended, lj);
      ForgottenBoth(RecOf(s, lj.meta.id), src, t, region, resent, sofar, ended, lj);
    }
    forall lj ensures lj in stale ==> lj in live {
      StaleIs(s1, live, src, region, resent, Keys(sofar + ended), lj);
    }
  }

  lemma ForgottenBoth(j: Option<Rec>, src: string, t: TimeMs, region: Region, resent: set<string>, a: seq<Sample>,
                      b: seq<Sample>, lj: LiveJourney)
    ensures Forgotten(j, src, t, region, resent, a + b, lj) <==>
            Forgotten(j, src, t, region, resent, a, lj)
            && forall r <- b :: !(r.surface == lj.surface && r.meta.id == lj.meta.id)
  {
  }

  // --- an adopt ---

  /** After an adopt at t the source owns the journey. What the owner before it may still send is told by LateRows: its
      samples before t, and its gone; of a journey nobody is known for, those of the first source that sends any; once
      the owner's gone came, nothing. */
  lemma AdoptMeans(before: Option<Rec>, src: string, t: TimeMs)
    ensures var k := AdoptRec(before, src, t);
            && k.owner == src && k.goneBy == ""
            && match before
               case None => !k.known && (src != "" ==> k.anyPrev && !k.prevKnown && k.cut == t)
               case Some(j) =>
                 && k.known == j.known && k.sfc == j.sfc && k.meta == j.meta && k.lastT == j.lastT
                 && if j.owner == src then k == j.(goneBy := "")
                    else if j.owner != "" && j.known then
                      k.prev == j.owner && !k.anyPrev && k.prevKnown && k.prevSfc == j.sfc && k.prevMeta == j.meta
                      && k.cut == t && k.afterBy == ""
                    else if j.owner == "" && j.goneBy == "" && !j.known then
                      k.anyPrev && !k.prevKnown && k.cut == t && k.afterBy == ""
                    else
                      k.prev == "" && !k.anyPrev && k.prevKnown == j.prevKnown && k.cut == j.cut
                      && k.afterBy == j.afterBy
  {
  }

  // --- the end of a resync and a stop ---

  /** What is kept of a journey that its source's resync or stop ended at t: nobody owns it, it is as it was on its
      surface, and t is where a next owner goes on from. */
  predicate LeftAs(j: Rec, k: Rec, t: TimeMs) {
    && k.owner == "" && k.lastT == t && k.known == j.known && k.sfc == j.sfc && k.meta == j.meta
    && k.prev == j.prev && k.anyPrev == j.anyPrev && k.prevKnown == j.prevKnown && k.prevSfc == j.prevSfc
    && k.prevMeta == j.prevMeta && k.cut == j.cut && k.goneBy == j.goneBy && k.goneT == j.goneT
    && k.afterBy == j.afterBy && k.afterT == j.afterT
  }

  /** What is kept of one that a resync found in the store: it is known there, and no source has anything of it. */
  predicate FoundAs(k: Rec, lj: LiveJourney, t: TimeMs) {
    && k.owner == "" && k.lastT == t && k.known && k.sfc == lj.surface && k.meta == lj.meta
    && k.prev == "" && !k.anyPrev && k.goneBy == "" && k.afterBy == ""
  }

  /** Of the journeys src owns a stop leaves the players ended, and every other record as it was. */
  lemma StoppedLeaves(s: State, src: string, t: TimeMs, id: string)
    requires Linked(s)
    ensures var k := RecOf(Stopped(s, src, t).0, id);
            match RecOf(s, id)
            case None => k == None
            case Some(j) =>
              if j.owner == src && j.known && |id| >= 2 && id[0] == 'p' && id[1] == ':' then
                k.Some? && LeftAs(j, k.value, t)
              else k == Some(j)
  {
    hide RecOf, Stopped, Linked;
    StoppedRec(s, src, t, id);
    if RecOf(s, id).Some? { EndLeaves(RecOf(s, id).value, t); }
  }

  lemma {:induction false} FoundLeaves(s: State, stale: seq<LiveJourney>, t: TimeMs, id: string)
    requires Linked(s)
    ensures var k := RecOf(EndStale(s, stale, t).0, id);
            Linked(EndStale(s, stale, t).0)
            && (k == RecOf(s, id) || (k.Some? && exists lj <- stale :: lj.meta.id == id && FoundAs(k.value, lj, t)))
    decreases stale
  {
    hide RecOf, Linked, EndStale;
    if stale == [] {
      JourneyLeftover.NothingEnds(s, t);
    } else {
      var init, lj := stale[..|stale| - 1], stale[|stale| - 1];
      FoundLeaves(s, init, t, id);
      assert stale == init + [lj];
      JourneyLeftover.EndsOne(s, init, lj, t, id);
    }
  }

  /** A resync leaves each record as it was, or ended when src owns it and did not send it again, or as found in the
      store when the tracker did not know it. */
  lemma ResyncedLeaves(s: State, src: string, t: TimeMs, region: Region, live: seq<LiveJourney>, sofar: seq<Sample>,
                       id: string)
    requires Linked(s) && src in s.seen
    ensures var j := RecOf(s, id);
            var k := RecOf(Resynced(s, src, t, region, live, sofar).0, id);
            if j.Some? && j.value.owner == src && j.value.known && id !in s.seen[src] then
              k.Some? && LeftAs(j.value, k.value, t)
            else k == j || (k.Some? && j.Some? && !j.value.known && j.value.owner in {"", src}
                            && exists lj <- live :: lj.meta.id == id && FoundAs(k.value, lj, t))
  {
    hide RecOf, Linked, EndStale, EndOwned, Stale, LeftAs, FoundAs;
    var s0, m := Finished(s, src), NotIn(s.seen[src]);
    FinishedSame(s, src);
    EndOwnedRec(s0, src, t, m);
    var s1 := EndOwned(s0, src, t, m).0;
    var stale := StaleOf(s1, live, src, region, s.seen[src], Keys(sofar + EndOwned(s0, src, t, m).1));
    FoundLeaves(s1, stale, t, id);
    StaleAre(s1, live, src, region, s.seen[src], Keys(sofar + EndOwned(s0, src, t, m).1));
    ResyncedRec(s, src, t, region, live, sofar, id);
    if RecOf(s, id).Some? { EndLeaves(RecOf(s, id).value, t); }
    forall lj <- stale | lj.meta.id == id && RecOf(s1, id).Some?
      ensures !RecOf(s1, id).value.known && RecOf(s1, id).value.owner in {"", src}
    {
      StaleUnknown(s1, src, region, s.seen[src], Keys(sofar + EndOwned(s0, src, t, m).1), lj);
    }
  }

  lemma EndLeaves(j: Rec, t: TimeMs)
    ensures LeftAs(j, EndRec(j, t), t)
  {
  }

  lemma StaleUnknown(s: State, src: string, region: Region, resent: set<string>, pending: set<(string, string)>,
                     lj: LiveJourney)
    requires Stale(s, src, region, resent, pending, lj) && RecOf(s, lj.meta.id).Some?
    ensures !RecOf(s, lj.meta.id).value.known && RecOf(s, lj.meta.id).value.owner in {"", src}
  {
    hide RecOf;
  }

  lemma {:induction false} EndStaleSeen(s: State, stale: seq<LiveJourney>, t: TimeMs)
    ensures EndStale(s, stale, t).0.seen == s.seen
    decreases stale
  {
    hide RecOf, Write;
    if stale != [] {
      var init, lj := stale[..|stale| - 1], stale[|stale| - 1];
      EndStaleSeen(s, init, t);
      var s1 := EndStale(s, init, t).0;
      if RecOf(s1, lj.meta.id).Some? {
        WriteSeen(s1, lj.meta.id, ForgottenRec(RecOf(s1, lj.meta.id).value, lj, t));
      }
    }
  }

  /** A stop, and the end of a resync, end the source's resync. */
  lemma EndsSeen(s: State, src: string, t: TimeMs, region: Region, live: seq<LiveJourney>, sofar: seq<Sample>)
    requires Linked(s)
    ensures Stopped(s, src, t).0.seen == s.seen - {src}
    ensures Resynced(s, src, t, region, live, sofar).0.seen == s.seen - {src}
  {
    hide Linked, EndOwned, EndStale;
    var s0 := Finished(s, src);
    FinishedSame(s, src);
    EndOwnedRec(s0, src, t, Players);
    if src in s.seen {
      var m := NotIn(s.seen[src]);
      EndOwnedRec(s0, src, t, m);
      var (s1, ended) := EndOwned(s0, src, t, m);
      EndStaleSeen(s1, StaleOf(s1, live, src, region, s.seen[src], Keys(sofar + ended)), t);
    }
  }
}
