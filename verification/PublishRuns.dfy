/** Whole runs of a publisher: what the target serves after any rounds and crashes, and the run that loses a record. */
module PublishRuns {
  import opened Common
  import opened Timelines
  import opened PublishPlan
  import opened PublishReach
  import opened PublishState
  import opened Publish

  /** A round from what the source has then, or a stop or crash that keeps the first n records of the log. */
  datatype Step = RoundOf(src: Source, every: nat) | Crash(n: nat)

  /** Sources only grow, and answer for what was planned as they did. */
  ghost predicate Grown(steps: seq<Step>, finals: map<Key, Named>) {
    && (forall i: nat :: i < |steps| && steps[i].RoundOf? ==>
        steps[i].every > 0 && SourceOk(steps[i].src) && SameFinals(steps[i].src, finals))
    && forall i: nat, j: nat :: i < j < |steps| && steps[i].RoundOf? && steps[j].RoundOf? ==>
        LaterSource(steps[i].src, steps[j].src)
  }

  /** The publisher at one moment: its log, how much of it is synced, the immutable keys recorded, what the final
      indexes planned so far name, and what the target holds. */
  datatype Moment = Moment(file: seq<Entry>, synced: nat, held: set<Key>, finals: map<Key, Named>, target: set<Key>)

  ghost function Now(p: Publisher): Moment
    reads p, p.state
  {
    Moment(p.state.file, p.state.synced, Imm(p.state.done), p.finals, p.target)
  }

  /** Every final index recorded is served by the target. */
  ghost predicate Served(m: Moment) {
    forall k <- m.held :: IsIndex(k) ==> k in m.finals && Provides(m.target, k, m.finals[k])
  }

  /** A round loses nothing recorded, holds every final index of its source when it succeeds without an item given up,
      and adds to what final indexes name only what its source says of them; a crash leaves what the records kept of the
      log tell, and the target as it is. */
  ghost predicate Does(m: Moment, m': Moment, step: Step, done: bool) {
    match step
    case RoundOf(src, _) =>
      && m.held <= m'.held <= m'.target && m.target <= m'.target && (done ==> FinalHeld(src, m'.held))
      && forall k <- m'.finals ::
           (k in m.finals && m'.finals[k] == m.finals[k])
           || (IsIndex(k) && Final(src, k) && m'.finals[k] == NamedOf(src, k))
    case Crash(n) =>
      && m'.finals == m.finals && m'.target == m.target && (done <==> m.synced <= n <= |m.file|)
      && if done then m'.held == Imm(Replay(m.file[..n])) else m' == m
  }

  /** Whatever fails in the rounds, wherever they stop, and whatever the crashes lose of the log: at every moment every
      final index recorded is served by the target. `dones` are the rounds that succeeded without giving an item up, and
      the crashes that can be. */
  method Run(p: Publisher, steps: seq<Step>) returns (dones: seq<bool>, ghost trace: seq<Moment>)
    requires p.Valid() && Grown(steps, p.finals)
    modifies p, p.state
    ensures p.Valid() && |trace| == |steps| + 1 && |dones| == |steps|
    ensures trace[0] == old(Now(p)) && trace[|steps|] == Now(p)
    ensures forall i :: 0 <= i <= |steps| ==> Served(trace[i])
    ensures forall i :: 0 <= i < |steps| ==> Does(trace[i], trace[i + 1], steps[i], dones[i])
  {
    hide Publisher.Valid, SameFinals, LaterSource, SourceOk, Imm, Served, Does;
    ServedNow(p);
    dones, trace := [], [Now(p)];
    for i := 0 to |steps|
      invariant p.Valid() && |trace| == i + 1 && |dones| == i && trace[0] == old(Now(p)) && trace[i] == Now(p)
      invariant forall j :: 0 <= j <= i ==> Served(trace[j])
      invariant forall j :: 0 <= j < i ==> Does(trace[j], trace[j + 1], steps[j], dones[j])
      invariant forall j: nat :: i <= j < |steps| && steps[j].RoundOf? ==> SameFinals(steps[j].src, p.finals)
    {
      var done := OneStep(p, steps, i);
      ServedNow(p);
      dones, trace := dones + [done], trace + [Now(p)];
    }
  }

  method OneStep(p: Publisher, steps: seq<Step>, i: nat) returns (done: bool)
    requires p.Valid() && i < |steps| && (steps[i].RoundOf? ==> steps[i].every > 0 && SourceOk(steps[i].src))
    requires forall j: nat :: i < j < |steps| && steps[i].RoundOf? && steps[j].RoundOf? ==>
               LaterSource(steps[i].src, steps[j].src)
    requires forall j: nat :: i <= j < |steps| && steps[j].RoundOf? ==> SameFinals(steps[j].src, p.finals)
    modifies p, p.state
    ensures p.Valid() && Does(old(Now(p)), Now(p), steps[i], done)
    ensures forall j: nat :: i < j < |steps| && steps[j].RoundOf? ==> SameFinals(steps[j].src, p.finals)
  {
    hide Publisher.Valid, SameFinals, LaterSource, SourceOk, Imm, FinalHeld, Replay;
    match steps[i]
    case RoundOf(src, every) =>
      ghost var before := p.finals;
      ghost var gap;
      var ok, bad;
      ok, bad, gap := p.Round(src, every);
      done := ok && bad == 0;
      forall j: nat | i < j < |steps| && steps[j].RoundOf? ensures SameFinals(steps[j].src, p.finals) {
        FinalsStay(src, steps[j].src, before, p.finals);
      }
    case Crash(n) =>
      done := p.state.synced <= n <= |p.state.file|;
      if done {
        p.Reopen(n);
      }
  }

  lemma ServedNow(p: Publisher)
    requires p.Valid()
    ensures Served(Now(p))
  {
    hide Publisher.Valid, Provides, Imm;
    p.RecordedServed();
  }

  /** What a round planned stays as it was planned. */
  lemma FinalsStay(src: Source, later: Source, before: map<Key, Named>, finals: map<Key, Named>)
    requires SameFinals(later, before) && LaterSource(src, later)
    requires forall k <- finals ::
             (k in before && finals[k] == before[k])
             || (IsIndex(k) && Final(src, k) && finals[k] == NamedOf(src, k))
    ensures SameFinals(later, finals)
  {
    hide LaterSource, EndsOf, InCatalog, DayOf;
    forall k <- finals | k.Timeline? && InCatalog(later, k)
      ensures finals[k] == Versions(EndsOf(later, k))
    {
      if !(k in before && finals[k] == before[k]) { FinalEnds(src, later, k); }
    }
  }

  /** Without a sync before the queue is saved the state's own promise is not kept. The record of a tile is in the log
      but its sync failed, and nothing is left to sync, so the next sync reports success; the queue saved then leaves
      the tile out; a crash loses the record, and the resumed round records the index without it. */
  method GapLosesData(data: Key, index: Key, r: Record) returns (s: State, synced: bool, next: bool)
    requires IsData(data) && IsIndex(index) && r.immut
    ensures fresh(s) && s.Valid() && !synced && next
    ensures index in Imm(s.done) && data !in Imm(s.done) && index in s.needs && data in s.needs[index] && !s.Strong()
  {
    hide InOrder, Steady, Replay, FileKeys, Kept, State.Resumable, State.Valid, State.Durable, QueueOk, ItemsOk,
      DataKeys, IndexKeys, QueueShape;
    s := new State();
    var ok := s.Note(data, r, true, 0, true, true);
    synced := s.Sync(0, true, false);
    next := s.Sync(0, true, true);
    var items := [DataItem(data), IndexItem(index, true)];
    ghost var more := map[index := {data}];
    PairPlanned(data, index, Imm(s.done));
    s.SavePlan(items, more);
    NothingKept(s.file);
    s.Reopen(0);
    ok := s.Note(index, r, true, 0, true, true);
  }

  lemma PairPlanned(data: Key, index: Key, held: set<Key>)
    requires IsData(data) && IsIndex(index) && held == {data}
    ensures var items := [DataItem(data), IndexItem(index, true)];
            ItemsOk(items, held) && IndexKeys(items) == {index}
            && DataKeys(items) == {data}
  {
    var items := [DataItem(data), IndexItem(index, true)];
    assert items[0].key == data && items[1].key == index && items[1].phase == PHASE_INDEXES
           && items[0].phase == PHASE_DATA;
  }

  lemma NothingKept(f: seq<Entry>)
    ensures f[..0] == [] && Replay(f[..0]) == map[]
  {
  }
}
