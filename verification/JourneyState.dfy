/** The state of the journey tracker as a value: the records found by id, the recency list, the
    ids re-sent during a resync and the undo log of a batch, with one function per operation. */
module JourneyState {
  import opened Common
  import opened JourneyRules

  /** The identity of a record: two records of one id are two handles, as two pointers are. */
  type Handle = nat

  datatype Journey = Journey(id: string, rec: Rec)

  datatype UndoLog =
    | NoUndo
    | Undo(before: map<Handle, Rec>, added: seq<Handle>, evicted: seq<Handle>,
           seen: map<string, Option<set<string>>>, stats: Stats)

  /** `cells` holds every record made so far, the forgotten ones included; `lru` lists the tracked
      ones, most recently seen first; `next` is the next handle to give out. */
  datatype State = State(byID: map<string, Handle>, cells: map<Handle, Journey>, next: Handle, lru: seq<Handle>,
                         seen: map<string, set<string>>, stats: Stats, undo: UndoLog)

  const EMPTY := State(map[], map[], 0, [], map[], ZERO, NoUndo)

  function Without(hs: seq<Handle>, h: Handle): (r: seq<Handle>)
    ensures forall x :: x in r <==> x in hs && x != h
    ensures |r| <= |hs|
  {
    if hs == [] then []
    else if hs[0] == h then Without(hs[1..], h)
    else [hs[0]] + Without(hs[1..], h)
  }

  predicate Distinct(hs: seq<Handle>) { hs == [] || (hs[0] !in hs[1..] && Distinct(hs[1..])) }

  /** The recency list holds exactly the records found by id, once each. */
  ghost predicate Linked(s: State) {
    && (forall id <- s.byID :: s.byID[id] in s.cells && s.cells[s.byID[id]].id == id && s.byID[id] in s.lru)
    && (forall h <- s.lru :: h in s.cells && s.cells[h].id in s.byID && s.byID[s.cells[h].id] == h)
    && (forall h <- s.cells :: h < s.next)
    && Distinct(s.lru)
  }

  function RecOf(s: State, id: string): Option<Rec> {
    if id in s.byID && s.byID[id] in s.cells then Some(s.cells[s.byID[id]].rec) else None
  }

  function OwnerOf(s: State, id: string): string {
    var j := RecOf(s, id);
    if j.Some? then j.value.owner else ""
  }

  // --- transactions ---

  function Mark(s: State): State { s.(undo := Undo(map[], [], [], map[], s.stats)) }

  function Commit(s: State): State { s.(undo := NoUndo) }

  /** Removes the records added since Mark that are still tracked. */
  function RemoveAdded(s: State, added: seq<Handle>): State
    decreases added
  {
    if added == [] then s
    else
      var h := added[0];
      var s1 := if h in s.cells && s.cells[h].id in s.byID && s.byID[s.cells[h].id] == h
                then s.(lru := Without(s.lru, h), byID := s.byID - {s.cells[h].id}) else s;
      RemoveAdded(s1, added[1..])
  }

  /** Puts the records forgotten since Mark back, at the end of the recency list. */
  function Readd(s: State, evicted: seq<Handle>): State
    decreases evicted
  {
    if evicted == [] then s
    else
      var h := evicted[0];
      var s1 := if h in s.cells && s.cells[h].id !in s.byID
                then s.(lru := s.lru + [h], byID := s.byID[s.cells[h].id := h]) else s;
      Readd(s1, evicted[1..])
  }

  function RestoreCells(cells: map<Handle, Journey>, before: map<Handle, Rec>): map<Handle, Journey> {
    map h | h in cells :: if h in before then cells[h].(rec := before[h]) else cells[h]
  }

  function RestoreSeen(seen: map<string, set<string>>, logged: map<string,
                       Option<set<string>>>): map<string, set<string>> {
    map src | src in seen.Keys + logged.Keys && (if src in logged then logged[src].Some? else true) ::
      if src in logged then logged[src].value else seen[src]
  }

  function Rollback(s: State): State {
    if s.undo.NoUndo? then s
    else
      var s1 := Readd(RemoveAdded(s, s.undo.added), s.undo.evicted);
      s1.(cells := RestoreCells(s1.cells, s.undo.before), seen := RestoreSeen(s.seen, s.undo.seen),
          stats := s.undo.stats, undo := NoUndo)
  }

  // --- finding, adding and changing records ---

  function ToFront(s: State, id: string): State {
    if id in s.byID then s.(lru := [s.byID[id]] + Without(s.lru, s.byID[id])) else s
  }

  /** Forgets the least recently seen journey. */
  function Forget(s: State): State
    requires s.lru != []
  {
    var h := s.lru[|s.lru| - 1];
    s.(lru := s.lru[..|s.lru| - 1],
       byID := if h in s.cells then s.byID - {s.cells[h].id} else s.byID,
       stats := s.stats.(evicted := s.stats.evicted + 1),
       undo := if s.undo.Undo? then s.undo.(evicted := s.undo.evicted + [h]) else s.undo)
  }

  function Trim(s: State, max: nat): State
    decreases |s.lru|
  {
    if |s.lru| <= max then s else Trim(Forget(s), max)
  }

  /** Tracks id with a blank record; past max the least recently seen are forgotten. */
  function Add(s: State, max: nat, id: string): State {
    var h := s.next;
    Trim(s.(cells := s.cells[h := Journey(id, BLANK)], next := h + 1, byID := s.byID[id := h], lru := [h] + s.lru,
            undo := if s.undo.Undo? then s.undo.(added := s.undo.added + [h]) else s.undo),
         max)
  }

  /** Logs h's state before its first change since Mark. */
  function Change(s: State, h: Handle): State {
    if s.undo.Undo? && h in s.cells && h !in s.undo.before
    then s.(undo := s.undo.(before := s.undo.before[h := s.cells[h].rec])) else s
  }

  /** Changes the record of a tracked journey, logging what it was. */
  function Write(s: State, id: string, rec: Rec): State {
    if id in s.byID && s.byID[id] in s.cells then
      var h := s.byID[id];
      var s1 := Change(s, h);
      s1.(cells := s1.cells[h := s1.cells[h].(rec := rec)])
    else s
  }

  /** Logs src's resync set before its first change since Mark. */
  function ChangeSeen(s: State, src: string): State {
    if s.undo.Undo? && src !in s.undo.seen
    then s.(undo := s.undo.(seen := s.undo.seen[src := if src in s.seen then Some(s.seen[src]) else None])) else s
  }

  function Resent(s: State, src: string, id: string): State {
    if src in s.seen then
      var s1 := ChangeSeen(s, src);
      s1.(seen := s1.seen[src := s1.seen[src] + {id}])
    else s
  }

  // --- messages ---

  /** One sample of a move message; `found` is the store's answer for the journey's last row on the
      sample's surface. */
  function Sampled(s: State, max: nat, src: string, x: Sample, found: Option<Meta>): (State, seq<Sample>) {
    var id := x.meta.id;
    var s1 := ToFront(s, id);
    var o := Step(RecOf(s, id), src, x, found);
    Settled(s1, max, src, id, o)
  }

  /** The tracker after outcome o of a sample of src for journey id. */
  function Settled(s: State, max: nat, src: string, id: string, o: Outcome): (State, seq<Sample>) {
    var s2 := if id !in s.byID && o.rec.Some? then Add(s, max, id) else s;
    var s3 := if o.wrote && o.rec.Some? then Write(s2, id, o.rec.value) else s2;
    var s4 := if o.seen then Resent(s3, src, id) else s3;
    (s4.(stats := Plus(s4.stats, o.stats)), o.out)
  }

  /** The samples of a move message, in order. */
  function SampledAll(s: State, max: nat, src: string, xs: seq<Sample>, lookup: (string, string) -> Option<Meta>)
    : (State, seq<Sample>)
  {
    if xs == [] then (s, [])
    else
      var (s1, out) := SampledAll(s, max, src, xs[..|xs| - 1], lookup);
      var x := xs[|xs| - 1];
      var (s2, rows) := Sampled(s1, max, src, x, lookup(x.surface, x.meta.id));
      (s2, out + rows)
  }

  function Adopted(s: State, max: nat, src: string, id: string, t: TimeMs): State {
    var s1 := ToFront(s, id);
    var s2 := if id !in s1.byID then Add(s1, max, id) else s1;
    Write(s2, id, AdoptRec(RecOf(s2, id), src, t))
  }

  function Begun(s: State, src: string): State {
    var s1 := ChangeSeen(s, src);
    s1.(seen := s1.seen[src := {}])
  }

  function Finished(s: State, src: string): State {
    var s1 := ChangeSeen(s, src);
    s1.(seen := s1.seen - {src})
  }

  /** Which of a source's journeys an operation ends. */
  datatype Match = NotIn(ids: set<string>) | Players

  predicate Matches(m: Match, id: string) {
    match m
    case NotIn(ids) => id !in ids
    case Players => IsPlayer(id)
  }

  /** The tracked journeys of src that m matches, most recently seen first. */
  function Owned(s: State, hs: seq<Handle>, src: string, m: Match): seq<string> {
    if hs == [] then []
    else
      var rest := Owned(s, hs[..|hs| - 1], src, m);
      var h := hs[|hs| - 1];
      if h in s.cells && Ends(s.cells[h].rec, src) && Matches(m, s.cells[h].id) then rest + [s.cells[h].id] else rest
  }

  /** Ends each of ids with a gone at t. */
  function EndEach(s: State, ids: seq<string>, t: TimeMs): (State, seq<Sample>) {
    if ids == [] then (s, [])
    else
      var (s1, out) := EndEach(s, ids[..|ids| - 1], t);
      var id := ids[|ids| - 1];
      var j := RecOf(s1, id);
      if j.None? then (s1, out)
      else (Write(s1, id, EndRec(j.value, t)), out + [GoneOf(j.value, t, 0, true)])
  }

  function EndOwned(s: State, src: string, t: TimeMs, m: Match): (State, seq<Sample>) {
    EndEach(s, Owned(s, s.lru, src, m), t)
  }

  function Keys(out: seq<Sample>): set<(string, string)> { set x | x in out :: (x.surface, x.meta.id) }

  /** Whether a resync of src that re-sent `resent` ends a journey live in the store. */
  predicate Stale(s: State, src: string, region: Region, resent: set<string>, pending: set<(string, string)>,
                  lj: LiveJourney) {
    var j := RecOf(s, lj.meta.id);
    && lj.meta.id !in resent
    && (j.Some? ==> !j.value.known && (j.value.owner == "" || j.value.owner == src))
    && ((j.Some? && j.value.owner == src) || Has(region, lj.x, lj.y))
    && (lj.surface, lj.meta.id) !in pending
  }

  function StaleOf(s: State, live: seq<LiveJourney>, src: string, region: Region, resent: set<string>,
                   pending: set<(string, string)>): seq<LiveJourney>
  {
    if live == [] then []
    else
      var rest := StaleOf(s, live[..|live| - 1], src, region, resent, pending);
      var lj := live[|live| - 1];
      if Stale(s, src, region, resent, pending, lj) then rest + [lj] else rest
  }

  /** Ends the stale journeys with a row before t. */
  function EndStale(s: State, stale: seq<LiveJourney>, t: TimeMs): (State, seq<Sample>) {
    if stale == [] then (s, [])
    else
      var (s1, out) := EndStale(s, stale[..|stale| - 1], t);
      var lj := stale[|stale| - 1];
      if lj.t >= t then (s1, out)
      else
        var j := RecOf(s1, lj.meta.id);
        var s2 := if j.Some? then Write(s1, lj.meta.id, ForgottenRec(j.value, lj, t)) else s1;
        (s2.(stats := s2.stats.(resyncForgotten := s2.stats.resyncForgotten + 1)), out + [ForgottenGone(lj, t)])
  }

  /** The end of a resync of src at t. `live` are the journeys live in the store, in (surface, id)
      order, and `sofar` the rows of the batch so far. */
  function Resynced(s: State, src: string, t: TimeMs, region: Region, live: seq<LiveJourney>, sofar: seq<Sample>)
    : (State, seq<Sample>)
  {
    if src !in s.seen then (s, [])
    else
      var resent := s.seen[src];
      var (s1, ended) := EndOwned(Finished(s, src), src, t, NotIn(resent));
      var (s2, gones) := EndStale(s1, StaleOf(s1, live, src, region, resent, Keys(sofar + ended)), t);
      (s2, ended + gones)
  }

  /** A stopped source: its players are gone. */
  function Stopped(s: State, src: string, t: TimeMs): (State, seq<Sample>) {
    EndOwned(Finished(s, src), src, t, Players)
  }

  // --- runs ---

  datatype Op =
    | DoSample(src: string, x: Sample, found: Option<Meta>)
    | DoAdopt(src: string, id: string, t: TimeMs)
    | DoBegin(src: string)
    | DoResynced(src: string, t: TimeMs, region: Region, live: seq<LiveJourney>, sofar: seq<Sample>)
    | DoStopped(src: string, t: TimeMs)

  function Apply(s: State, max: nat, op: Op): (State, seq<Sample>) {
    match op
    case DoSample(src, x, found) => Sampled(s, max, src, x, found)
    case DoAdopt(src, id, t) => (Adopted(s, max, src, id, t), [])
    case DoBegin(src) => (Begun(s, src), [])
    case DoResynced(src, t, region, live, sofar) => Resynced(s, src, t, region, live, sofar)
    case DoStopped(src, t) => Stopped(s, src, t)
  }

  /** The state after the operations. */
  function Run(s: State, max: nat, ops: seq<Op>): State {
    if ops == [] then s else Apply(Run(s, max, ops[..|ops| - 1]), max, ops[|ops| - 1]).0
  }
}
