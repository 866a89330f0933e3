/** The journey tracker with its fields updated in place; each method does what the function of
    JourneyState of the same operation says. */
module Journeys {
  import opened Common
  import opened JourneyRules
  import opened JourneyState
  import opened JourneyUndo
  import opened JourneyOwnership
  import opened JourneyRows

  /** The store's answer for a journey's last row on a surface. */
  type Lookup = (string, string) -> Option<Meta>

  class Journeys {
    const max: nat
    var byID: map<string, Handle>
    var cells: map<Handle, Journey>
    var next: Handle
    var lru: seq<Handle>
    var seen: map<string, set<string>>
    var stats: Stats
    var undo: UndoLog

    ghost function State(): State
      reads this
    {
      JourneyState.State(byID, cells, next, lru, seen, stats, undo)
    }

    ghost predicate Valid()
      reads this
    {
      0 < max && Linked(State())
    }

    constructor (max: int)
      ensures Valid() && State() == EMPTY
      ensures this.max == if max <= 0 then 100_000 else max
    {
      this.max := if max <= 0 then 100_000 else max;
      byID, cells, next, lru, seen, stats, undo := map[], map[], 0, [], map[], ZERO, NoUndo;
    }

    method MarkBatch()
      requires Valid()
      modifies this`undo
      ensures Valid() && State() == Mark(old(State()))
    {
      undo := Undo(map[], [], [], map[], stats);
    }

    method CommitBatch()
      requires Valid()
      modifies this`undo
      ensures Valid() && State() == Commit(old(State())) && undo == NoUndo
    {
      undo := NoUndo;
    }

    /** Undoes every change since Mark. `m` is the state at Mark. */
    method RollbackBatch(ghost m: State)
      requires Valid() && (undo.Undo? ==> Since(State(), m))
      modifies this
      ensures Valid() && State() == Rollback(old(State()))
    {
      if undo.NoUndo? {
        return;
      }
      RollbackRecords(State(), m);
      var u := undo;
      RemoveSinceMark(u.added);
      RemoveAddedFacts(old(State()), u.added);
      ReaddForgotten(u.evicted);
      cells := RestoreCells(cells, u.before);
      seen := RestoreSeen(seen, u.seen);
      stats := u.stats;
      undo := NoUndo;
    }

    method RemoveSinceMark(added: seq<Handle>)
      requires Known(cells, added)
      modifies this`lru, this`byID
      ensures State() == RemoveAdded(old(State()), added)
    {
      var i := 0;
      while i < |added|
        invariant 0 <= i <= |added|
        invariant RemoveAdded(State(), added[i..]) == RemoveAdded(old(State()), added)
      {
        assert added[i..][1..] == added[i + 1..];
        var h := added[i];
        if cells[h].id in byID && byID[cells[h].id] == h {
          lru := Without(lru, h);
          byID := byID - {cells[h].id};
        }
        i := i + 1;
      }
    }

    method ReaddForgotten(evicted: seq<Handle>)
      requires Known(cells, evicted)
      modifies this`lru, this`byID
      ensures State() == Readd(old(State()), evicted)
    {
      var i := 0;
      while i < |evicted|
        invariant 0 <= i <= |evicted|
        invariant Readd(State(), evicted[i..]) == Readd(old(State()), evicted)
      {
        assert evicted[i..][1..] == evicted[i + 1..];
        var h := evicted[i];
        if cells[h].id !in byID {
          lru := lru + [h];
          byID := byID[cells[h].id := h];
        }
        i := i + 1;
      }
    }

    // --- finding, adding and changing records ---

    /** The record of id, moved to the front of the recency list. */
    method Get(id: string) returns (h: Option<Handle>)
      requires Valid()
      modifies this`lru
      ensures Valid() && State() == ToFront(old(State()), id)
      ensures h == if id in byID then Some(byID[id]) else None
    {
      ToFrontRec(State(), id);
      h := None;
      if id in byID {
        h := Some(byID[id]);
        lru := [byID[id]] + Without(lru, byID[id]);
      }
    }

    /** A blank record for id at the front. */
    method PushFront(id: string) returns (h: Handle)
      modifies this`lru, this`byID, this`cells, this`next, this`undo
      ensures State() == Added(old(State()), id) && h == old(next)
    {
      h := next;
      next := next + 1;
      cells := cells[h := Journey(id, BLANK)];
      byID := byID[id := h];
      lru := [h] + lru;
      if undo.Undo? {
        undo := undo.(added := undo.added + [h]);
      }
    }

    /** A blank record for id; past max the least recently seen journeys are forgotten. */
    method AddRecord(id: string) returns (h: Handle)
      requires Valid() && id !in byID
      modifies this
      ensures Valid() && State() == Add(old(State()), max, id)
      ensures id in byID && byID[id] == h
    {
      hide Trim;
      AddRec(State(), max, id, id);
      AddedLinked(State(), id);
      h := PushFront(id);
      TrimToMax();
    }

    method TrimToMax()
      requires forall h <- lru :: h in cells
      modifies this`lru, this`byID, this`stats, this`undo
      ensures State() == Trim(old(State()), max)
    {
      while |lru| > max
        invariant forall h <- lru :: h in cells
        invariant Trim(State(), max) == Trim(old(State()), max)
      {
        var h := lru[|lru| - 1];
        lru := lru[..|lru| - 1];
        byID := byID - {cells[h].id};
        stats := stats.(evicted := stats.evicted + 1);
        if undo.Undo? {
          undo := undo.(evicted := undo.evicted + [h]);
        }
      }
    }

    /** Changes a tracked record, logging what it was at Mark. */
    method Set(h: Handle, rec: Rec)
      requires Valid() && h in lru
      modifies this`cells, this`undo
      ensures Valid() && State() == Write(old(State()), old(cells)[h].id, rec)
    {
      WriteRec(State(), cells[h].id, rec);
      if undo.Undo? && h !in undo.before {
        undo := undo.(before := undo.before[h := cells[h].rec]);
      }
      cells := cells[h := cells[h].(rec := rec)];
    }

    method LogSeen(src: string)
      modifies this`undo
      ensures State() == ChangeSeen(old(State()), src)
    {
      if undo.Undo? && src !in undo.seen {
        undo := undo.(seen := undo.seen[src := if src in seen then Some(seen[src]) else None]);
      }
    }

    // --- messages ---

    /** Filters and completes one move message's samples of src, in order. */
    method Move(src: string, samples: seq<Sample>, lookup: Lookup)
      returns (out: seq<Sample>, ghost states: seq<State>, ghost rows: seq<seq<Sample>>)
      requires Valid()
      modifies this
      ensures Valid() && (State(), out) == SampledAll(old(State()), max, src, samples, lookup)
      ensures MessageRows(states, src, samples, lookup, rows) && out == Joined(rows)
      ensures states[0] == old(State()) && states[|samples|] == State()
    {
      hide MessageRows, Joined, Linked, RecOf, Sampled;
      states, rows := SampledAllRows(State(), max, src, samples, lookup);
      out := [];
      var i := 0;
      while i < |samples|
        invariant 0 <= i <= |samples| && Valid()
        invariant (State(), out) == SampledAll(old(State()), max, src, samples[..i], lookup)
      {
        assert samples[..i + 1][..i] == samples[..i];
        var more := MoveOne(src, samples[i], lookup(samples[i].surface, samples[i].meta.id));
        out := out + more;
        i := i + 1;
      }
      assert samples[..i] == samples;
    }

    /** One sample: the rules decide the journey's new record and rows (Step), the tracker takes them. */
    method MoveOne(src: string, s: Sample, found: Option<Meta>) returns (out: seq<Sample>)
      requires Valid()
      modifies this
      ensures Valid() && (State(), out) == Sampled(old(State()), max, src, s, found)
      ensures var j := RecOf(old(State()), s.meta.id);
              RowsOf(j, src, s, found, out) && FollowedBy(j, src, s, out, RecOf(State(), s.meta.id))
      ensures Noticed(old(State()), src, s, out, State())
    {
      hide Step, Add, Write, Linked, RowsOf, FollowedBy, Noticed;
      SampledRows(State(), max, src, s, found);
      SampledNoticed(State(), max, src, s, found);
      var id := s.meta.id;
      ToFrontRec(State(), id);
      ghost var j := RecOf(State(), id);
      var h := Get(id);
      Tracked(State(), id);
      var o := Step(if h.Some? then Some(cells[h.value].rec) else None, src, s, found);
      if h.None? && o.rec.Some? {
        var added := AddRecord(id);
        h := Some(added);
        Tracked(State(), id);
      }
      if o.wrote && h.Some? && o.rec.Some? {
        Set(h.value, o.rec.value);
      }
      ghost var s3 := State();
      if o.seen && src in seen {
        LogSeen(src);
        seen := seen[src := seen[src] + {id}];
      }
      stats := Plus(stats, o.stats);
      out := o.out;
      SetsRec(s3, State(), id, id);
    }

    /** The adopt message of src: it owns journey id from t. Returns the previous owner. */
    method Adopt(src: string, id: string, t: TimeMs) returns (prev: string)
      requires Valid()
      modifies this
      ensures Valid() && State() == Adopted(old(State()), max, src, id, t)
      ensures prev == OwnerOf(old(State()), id)
    {
      hide Add, Write, Linked, AdoptRec;
      AdoptedRec(State(), max, src, id, t, id);
      ToFrontRec(State(), id);
      var h := Get(id);
      Tracked(State(), id);
      if h.None? {
        AddRec(State(), max, id, id);
        var added := AddRecord(id);
        h := Some(added);
        Tracked(State(), id);
      }
      prev := cells[h.value].rec.owner;
      Set(h.value, AdoptRec(Some(cells[h.value].rec), src, t));
    }

    /** Starts a resync of src. */
    method Begin(src: string)
      requires Valid()
      modifies this`seen, this`undo
      ensures Valid() && State() == Begun(old(State()), src) && seen == old(seen)[src := {}]
    {
      LogSeen(src);
      seen := seen[src := {}];
    }

    method Finish(src: string)
      requires Valid()
      modifies this`seen, this`undo
      ensures Valid() && State() == Finished(old(State()), src) && seen == old(seen) - {src}
    {
      LogSeen(src);
      seen := seen - {src};
    }

    /** Ends what src owns and m matches, with a gone each at t. */
    method EndOwnedBy(src: string, t: TimeMs, m: Match) returns (out: seq<Sample>)
      requires Valid()
      modifies this
      ensures Valid() && (State(), out) == EndOwned(old(State()), src, t, m)
    {
      var ended: seq<string> := [];
      var i := 0;
      while i < |lru|
        invariant 0 <= i <= |lru| && ended == Owned(State(), lru[..i], src, m)
      {
        assert lru[..i + 1][..i] == lru[..i];
        var h := lru[i];
        if cells[h].rec.owner == src && cells[h].rec.known && Matches(m, cells[h].id) {
          ended := ended + [cells[h].id];
        }
        i := i + 1;
      }
      assert lru[..i] == lru;
      OwnedAre(State(), lru, src, m);
      out := EndAll(ended, t);
    }

    method EndAll(ids: seq<string>, t: TimeMs) returns (out: seq<Sample>)
      requires Valid()
      modifies this`cells, this`undo
      ensures Valid() && (State(), out) == EndEach(old(State()), ids, t)
    {
      hide Linked, Write;
      out := [];
      var i := 0;
      while i < |ids|
        invariant 0 <= i <= |ids| && Valid()
        invariant (State(), out) == EndEach(old(State()), ids[..i], t)
      {
        assert ids[..i + 1][..i] == ids[..i];
        Tracked(State(), ids[i]);
        if ids[i] in byID {
          var h := byID[ids[i]];
          var j := cells[h].rec;
          Set(h, j.(owner := "", lastT := t));
          out := out + [GoneOf(j, t, 0, true)];
        }
        i := i + 1;
      }
      assert ids[..i] == ids;
    }

    /** A stopped source: its players are gone. */
    method StopSource(src: string, t: TimeMs) returns (out: seq<Sample>)
      requires Valid()
      modifies this
      ensures Valid() && (State(), out) == Stopped(old(State()), src, t)
      ensures forall row :: row in out <==>
                EndsOwned(old(State()), src, t, id => |id| >= 2 && id[0] == 'p' && id[1] == ':', row)
      ensures seen == old(seen) - {src}
    {
      hide Linked, EndOwned, EndsOwned;
      EndsSeen(State(), src, t, Nowhere, [], []);
      forall row
        ensures row in Stopped(State(), src, t).1 <==>
                EndsOwned(State(), src, t, id => |id| >= 2 && id[0] == 'p' && id[1] == ':', row)
      {
        StoppedRows(State(), src, t, row);
      }
      Finish(src);
      out := EndOwnedBy(src, t, Players);
    }

    /** The end of a resync of src: what it did not send again has ended. */
    method EndResync(src: string, t: TimeMs, region: Region, live: seq<LiveJourney>, sofar: seq<Sample>)
      returns (out: seq<Sample>)
      requires Valid()
      modifies this
      ensures Valid() && (State(), out) == Resynced(old(State()), src, t, region, live, sofar)
      ensures src !in old(seen) ==> out == []
      ensures src in old(seen) ==> forall row :: row in out <==>
                EndsUnsent(old(State()), src, t, old(seen)[src], row)
                || EndsForgotten(old(State()), src, t, region, live, old(seen)[src], sofar, row)
      ensures seen == old(seen) - {src}
    {
      hide EndsUnsent, EndsForgotten;
      EndsSeen(State(), src, t, region, live, sofar);
      forall row | src in seen
        ensures row in Resynced(State(), src, t, region, live, sofar).1 <==>
                EndsUnsent(State(), src, t, seen[src], row)
                || EndsForgotten(State(), src, t, region, live, seen[src], sofar, row)
      {
        ResyncedRows(State(), src, t, region, live, sofar, row);
      }
      if src !in seen {
        return [];
      }
      hide Linked, EndOwned, EndStale;
      var resent := seen[src];
      Finish(src);
      out := EndOwnedBy(src, t, NotIn(resent));
      var stale := FindStale(src, region, live, resent, Keys(sofar + out));
      var gones := EndForgotten(stale, t);
      out := out + gones;
    }

    method FindStale(src: string, region: Region, live: seq<LiveJourney>, resent: set<string>,
                     pending: set<(string, string)>)
      returns (stale: seq<LiveJourney>)
      requires Valid()
      ensures stale == StaleOf(State(), live, src, region, resent, pending)
    {
      stale := [];
      var i := 0;
      while i < |live|
        invariant 0 <= i <= |live| && stale == StaleOf(State(), live[..i], src, region, resent, pending)
      {
        assert live[..i + 1][..i] == live[..i];
        var lj := live[i];
        var ends := lj.meta.id !in resent;
        if ends && lj.meta.id in byID && cells[byID[lj.meta.id]].rec.known {
          ends := false;
        }
        if ends && lj.meta.id in byID && cells[byID[lj.meta.id]].rec.owner != ""
            && cells[byID[lj.meta.id]].rec.owner != src {
          ends := false;
        }
        var owned := lj.meta.id in byID && cells[byID[lj.meta.id]].rec.owner == src;
        if ends && (owned || Has(region, lj.x, lj.y)) && (lj.surface, lj.meta.id) !in pending {
          stale := stale + [lj];
        }
        i := i + 1;
      }
      assert live[..i] == live;
    }

    method EndForgotten(stale: seq<LiveJourney>, t: TimeMs) returns (out: seq<Sample>)
      requires Valid()
      modifies this`cells, this`undo, this`stats
      ensures Valid() && (State(), out) == EndStale(old(State()), stale, t)
    {
      hide Linked, Write;
      out := [];
      var i := 0;
      while i < |stale|
        invariant 0 <= i <= |stale| && Valid()
        invariant (State(), out) == EndStale(old(State()), stale[..i], t)
      {
        assert stale[..i + 1][..i] == stale[..i];
        var lj := stale[i];
        if lj.t < t {
          out := out + [ForgottenGone(lj, t)];
          Tracked(State(), lj.meta.id);
          if lj.meta.id in byID {
            Set(byID[lj.meta.id], ForgottenRec(cells[byID[lj.meta.id]].rec, lj, t));
          }
          ghost var s := State();
          stats := stats.(resyncForgotten := stats.resyncForgotten + 1);
          SetsRec(s, State(), "", "");
        }
        i := i + 1;
      }
      assert stale[..i] == stale;
    }
  }

  lemma Tracked(s: State, id: string)
    requires Linked(s)
    ensures id in s.byID ==> s.byID[id] in s.cells && s.byID[id] in s.lru && s.cells[s.byID[id]].id == id
  {
  }
}
