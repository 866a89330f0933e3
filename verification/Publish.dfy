/** The publisher's rounds: objects are stored phase by phase, and a final index is recorded only with all it needs. */
module Publish {
  import opened Common
  import opened PublishPlan
  import opened PublishReach
  import opened PublishState
  import opened Timelines

  datatype Result = Uploaded | Skipped | Unchanged | Missing | Empty | Rejected | Unreadable | Fatal

  /** What one attempt to store an object came to. */
  datatype Put = Stored | Auth | Refused | Retry | Cancelled

  /** The object is not stored and the round goes on: final indexes are put off. */
  predicate Bad(r: Result) { r.Missing? || r.Rejected? || r.Unreadable? }

  /** The items do not take the key the other way. */
  ghost predicate Agrees(it: Item,
                         b: seq<Item>) { forall j: nat :: j < |b| && it.key == b[j].key ==> it.immut == b[j].immut }

  ghost predicate AllAgree(a: seq<Item>, b: seq<Item>) { forall i: nat :: i < |a| ==> Agrees(a[i], b) }

  /** All immutable items of the phase are held. */
  ghost predicate PhaseHeld(items: seq<Item>, phase: nat, have: set<Key>) {
    forall i: nat :: i < |items| && items[i].phase == phase && items[i].immut ==> items[i].key in have
  }

  lemma DataHeld(items: seq<Item>, have: set<Key>)
    requires PhaseHeld(items, PHASE_DATA, have) && QueueShape(items, have)
    ensures DataKeys(items) <= have
  {}

  /** An item of the phase after the data needs only what is held once the data is. */
  lemma IndexReady(items: seq<Item>, i: nat, was: set<Key>, have: set<Key>, needs: Needs)
    requires i < |items| && items[i].phase == PHASE_INDEXES && QueueOk(items, was, needs)
             && was + DataKeys(items) <= have
    ensures items[i].key in needs ==> needs[items[i].key] <= have
  {
    assert items[i].key in IndexKeys(items);
  }

  function ImmKeys(items: seq<Item>): set<Key> { set i: nat | i < |items| && items[i].immut :: items[i].key }

  lemma SomeIndex(s: set<nat>)
    ensures s == {} || exists i :: i in s
  {
    if forall i :: i !in s { assert s == {}; }
  }

  lemma ShapeGrows(items: seq<Item>, i: nat, have: set<Key>, have': set<Key>)
    requires QueueShape(items, have) && AllAgree(items, items) && i < |items| && have <= have' <= have + {items[i].key}
    requires !items[i].immut ==> have' == have
    ensures QueueShape(items, have')
  {
    assert Agrees(items[i], items);
  }

  lemma PhasesMore(items: seq<Item>, have: set<Key>, have': set<Key>)
    requires have <= have'
    ensures forall p: nat :: PhaseHeld(items, p, have) ==> PhaseHeld(items, p, have')
  {}

  lemma QueueMore(queue: seq<Item>, have: set<Key>, have': set<Key>, needs: Needs)
    requires QueueOk(queue, have, needs) && have <= have'
    ensures QueueOk(queue, have', needs)
  {}

  lemma NothingQueued(have: set<Key>, needs: Needs)
    ensures QueueOk([], have, needs)
  {}

  lemma PlanAgrees(items: seq<Item>, queue: seq<Item>)
    requires AllAgree(items, items) && forall i: nat :: i < |queue| ==> queue[i] in items
    ensures AllAgree(items, queue)
  {
    forall i: nat, j: nat | i < |items| && j < |queue| && items[i].key == queue[j].key
        ensures items[i].immut == queue[j].immut {
      var k: nat :| k < |items| && items[k] == queue[j];
      assert Agrees(items[i], items);
    }
    forall i: nat | i < |items| ensures Agrees(items[i], queue) {}
  }

  lemma Coherent(items: seq<Item>, have: set<Key>)
    requires QueueShape(items, have)
    ensures AllAgree(items, items)
  {}

  /** The needs of each final index planned provide all that it names. */
  ghost predicate NeedsServed(needs: Needs, finals: map<Key, Named>) {
    forall k <- needs :: k in finals && Provides(needs[k], k, finals[k])
  }

  /** What a plan's final indexes need, of all there is. */
  function PlanNeeds(src: Source, have: set<Key>, items: seq<Item>): Needs {
    map k | k in IndexKeys(items) :: NeedsOf(src, have, k)
  }

  function PlanNames(src: Source, items: seq<Item>): map<Key, Named> {
    map k | k in IndexKeys(items) && IsIndex(k) :: NamedOf(src, k)
  }

  /** From a base that serves every timeline held, a plan's objects provide what every final index of it names. */
  lemma PlanServed(src: Source, held: set<Key>, base: set<Key>, every: nat, items: seq<Item>)
    requires every > 0 && SourceOk(src) && AllPlanned(src, held, every, items, {}) && ItemsOk(items, held)
    requires forall x :: InCatalog(src, x) ==> Covered(src, held, items, x)
    requires forall x <- held :: x.Timeline? && InCatalog(src, x) ==> Serves(base, x, EndsOf(src, x))
    ensures NeedsServed(PlanNeeds(src, base + DataKeys(items), items), PlanNames(src, items))
  {
    hide AllPlanned, ItemsOk, InCatalog, Covered, EndsOf, FilesOf, NeedsOf, Serves, DataKeys, IndexKeys;
    var have := base + DataKeys(items);
    forall k | k in IndexKeys(items)
      ensures IsIndex(k) && Provides(NeedsOf(src, have, k), k, NamedOf(src, k))
    {
      IndexIsKey(items, held, k);
      if k.Timeline? {
        TimelineServed(src, held, base, every, items, k);
        NeedsServe(src, have, k);
      } else {
        DayFiles(src, held, every, items, k);
        FilesNeeded(src, have, k);
      }
    }
  }

  lemma TimelineServed(src: Source, held: set<Key>, base: set<Key>, every: nat, items: seq<Item>, k: Key)
    requires every > 0 && SourceOk(src) && AllPlanned(src, held, every, items, {})
    requires forall x :: InCatalog(src, x) ==> Covered(src, held, items, x)
    requires forall x <- held :: x.Timeline? && InCatalog(src, x) ==> Serves(base, x, EndsOf(src, x))
    requires k.Timeline? && k in Keys(items) && k !in held
    ensures Serves(base + DataKeys(items), k, EndsOf(src, k))
  {
    hide AllPlanned, InCatalog, Covered, EndsOf, Reach, DataKeys, Keys, SourceOk;
    forall xy <- EndsOf(src, k), v: nat | EndsOf(src, k)[xy].lo <= v <= EndsOf(src, k)[xy].hi
      ensures Reach(base + DataKeys(items), k.ds, k.z, xy, v)
    {
      PlannedReach(src, held, base, every, items, k, xy, v);
    }
  }

  lemma DayFiles(src: Source, held: set<Key>, every: nat, items: seq<Item>, k: Key)
    requires every > 0 && AllPlanned(src, held, every, items, {}) && k.DayIndex? && k in Keys(items)
    ensures FilesOf(src, k) <= DataKeys(items)
  {
    hide DataKeys, Keys, FilesOf;
    assert IndexPlanned(src, held, DataKeys(items), every, k);
    FilesPlanned(src, held, DataKeys(items), every, k);
  }

  lemma FilesNeeded(src: Source, have: set<Key>, k: Key)
    requires k.DayIndex? && FilesOf(src, k) <= have
    ensures Provides(NeedsOf(src, have, k), k, NamedOf(src, k))
  {
  }

  lemma IndexIsKey(items: seq<Item>, held: set<Key>, k: Key)
    requires ItemsOk(items, held) && k in IndexKeys(items)
    ensures k in Keys(items) && k !in held && IsIndex(k)
  {
    var i: nat :| i < |items| && items[i].phase == PHASE_INDEXES && items[i].key == k;
    assert ItemOk(items[i]);
  }

  lemma MoreServed(needs: Needs, finals: map<Key, Named>, needs': Needs, finals': map<Key, Named>)
    requires NeedsServed(needs, finals) && NeedsServed(needs', finals') && (forall k <- finals' :: k in needs')
    ensures NeedsServed(needs + needs', finals + finals')
  {
    hide Provides;
  }

  /** Needs within what is there. */
  ghost predicate Within2(have: set<Key>, needs: Needs,
                          all: set<Key>) { forall k <- have :: k in needs ==> needs[k] <= all }

  /** Every final index of the catalog is held. */
  ghost predicate FinalHeld(src: Source,
                            have: set<Key>) { forall k :: InCatalog(src, k) && Final(src, k) ==> k in have }

  class Publisher {
    const state: State
    const maxAttempts: nat

    /** What the target holds. */
    ghost var target: set<Key>
    /** What each final index planned names: per tile of a timeline the versions at its day's start and end, of a day
        index its windows and keyframes. */
    ghost var finals: map<Key, Named>

    /** Whatever was lost, the target has what each final index recorded needs, or the queue brings it. */
    ghost predicate Valid()
      reads this, state
    {
      && state.Valid() && state.done.Keys <= target && FileKeys(state.file) <= target
          && Within2(Imm(state.done), state.needs, target)
      && QueueOk(state.queue, target, state.needs) && NeedsServed(state.needs, finals)
    }

    /** The state has it too: what is held holds each final index with all it needs, or the queue brings it. */
    ghost predicate Ready()
      reads this, state
    {
      state.Strong() && QueueOk(state.queue, Imm(state.done), state.needs)
    }

    constructor (state: State, maxAttempts: nat, ghost target: set<Key>)
      requires state.Valid() && state.done == map[] && state.file == [] && state.queue == [] && state.needs == map[]
      ensures Valid() && this.state == state && this.target == target && this.maxAttempts == maxAttempts
              && finals == map[]
    {
      this.state, this.maxAttempts, this.target, finals := state, maxAttempts, target, map[];
    }

    /** The item may be stored now. */
    ghost predicate MayStore(it: Item)
      reads this, state
    {
      && ItemOk(it) && Agrees(it, state.queue) && (!it.immut ==> it.key !in Imm(state.done))
      && (it.immut && IsIndex(it.key) ==> it.key in state.needs && state.needs[it.key] <= target)
    }

    /** Storing it keeps the state's promise too. */
    ghost predicate Backed(it: Item)
      reads this, state
    {
      it.immut && it.key in state.needs ==> state.needs[it.key] <= Imm(state.done)
    }

    /** What a step leaves: nothing held is lost, and only the keys given are new. */
    twostate predicate Grows(more: set<Key>)
      requires old(Valid())
      reads this, state
    {
      && Valid() && old(Imm(state.done)) <= Imm(state.done) <= old(Imm(state.done)) + more && old(target) <= target
      && state.queue == old(state.queue) && state.needs == old(state.needs) && finals == old(finals)
      && state.Durable() >= old(state.Durable()) && (old(state.Resumable()) ==> state.Resumable())
    }

    /** Reads one item and stores it unless the target holds it. */
    method Store(it: Item) returns (res: Result)
      requires Valid() && MayStore(it)
      modifies this`target, state`done, state`unsynced, state`lines, state`broken, state`file, state`synced
      ensures Grows(if it.immut then {it.key} else {}) && (old(state.Strong()) && old(Backed(it)) ==> state.Strong())
      ensures it.immut && !Bad(res) && !res.Fatal? ==> it.key in Imm(state.done)
    {
      hide NeedsServed, QueueShape;
      var prev := state.Lookup(it.key);
      var gone: bool := *;
      var had := prev.Some? && !gone;
      if it.immut && had && prev.value.immut {
        return Skipped;
      }
      var read: Result := *;
      if read.Missing? || read.Unreadable? || read.Fatal? {
        return read;
      }
      var empty: bool := *;
      if it.skipEmpty && !had && empty {
        return Empty;
      }
      var hash: int, size: nat := *, *;
      if had && prev.value.hash == hash && prev.value.immut == it.immut {
        return Unchanged;
      }
      res := PutObject();
      if !res.Uploaded? {
        return;
      }
      var ok := TakeStored(it, Record(hash, size, it.immut));
      if !ok {
        return Fatal;
      }
    }

    /** The object is at the target: the state notes it. */
    method TakeStored(it: Item, r: Record) returns (ok: bool)
      requires Valid() && MayStore(it) && r.immut == it.immut
      modifies this`target, state`done, state`unsynced, state`lines, state`broken, state`file, state`synced
      ensures Grows(if it.immut then {it.key} else {}) && (old(state.Strong()) && old(Backed(it)) ==> state.Strong())
      ensures it.immut ==> it.key in Imm(state.done)
    {
      hide NeedsServed, QueueShape, Held, InOrder, Steady, IndexKeys, DataKeys;
      target := target + {it.key};
      QueueMore(state.queue, old(target), target, state.needs);
      AgreesShape(it, state.queue);
      ImmMore(state.done, it.key, r);
      var writeOk: bool, flush: nat, flushOk: bool, sync: bool := *, *, *, *;
      ok := state.Note(it.key, r, writeOk, flush, flushOk, sync);
    }

    /** Tries to store the object until it is, the target refuses it, or the attempts run out. */
    method PutObject() returns (res: Result)
      ensures res.Uploaded? || res.Rejected? || res.Fatal?
    {
      var attempt, patience: nat := 1, *;
      while true
        decreases patience
      {
        var put: Put := *;
        match put {
          case Stored => return Uploaded;
          case Auth | Cancelled => return Fatal;
          case Refused => return Rejected;
          case Retry =>
        }
        if (maxAttempts > 0 && attempt >= maxAttempts) || patience == 0 {
          return Fatal;
        }
        attempt, patience := attempt + 1, patience - 1;
      }
    }

    /** The items may be stored on top of `was`, with what their indexes need. */
    ghost predicate Storable(items: seq<Item>, was: set<Key>)
      reads this, state
    {
      && QueueShape(items, Imm(state.done)) && AllAgree(items, state.queue) && AllAgree(items, items)
      && was <= target && QueueOk(items, was, state.needs) && IndexKeys(items) <= state.needs.Keys
    }

    /** Stores a phase's items, in any order and by any number of workers. When one fails for good some of the others
        may still be stored. */
    method RunPhase(items: seq<Item>, phase: nat, ghost was: set<Key>) returns (ok: bool, bad: nat)
      requires Valid() && Storable(items, was)
      requires phase == PHASE_INDEXES ==> DataKeys(items) <= Imm(state.done)
      modifies this`target, state`done, state`unsynced, state`lines, state`broken, state`file, state`synced
      ensures Grows(ImmKeys(items)) && Storable(items, was)
      ensures old(state.Strong()) && was <= old(Imm(state.done)) ==> state.Strong()
      ensures ok && bad == 0 ==> PhaseHeld(items, phase, Imm(state.done))
    {
      hide Valid, State.Valid, State.Strong, QueueShape, QueueOk, AllAgree, Agrees, IndexKeys, DataKeys,
        State.Resumable;
      ok, bad := true, 0;
      var todo := set i: nat | i < |items| && items[i].phase == phase;
      while todo != {}
        invariant todo <= set i: nat | i < |items| && items[i].phase == phase
        invariant Grows(ImmKeys(items)) && Storable(items, was)
        invariant old(state.Strong()) && was <= old(Imm(state.done)) ==> state.Strong()
        invariant ok && bad == 0 ==> forall i: nat ::
                    i < |items| && items[i].phase == phase && items[i].immut && i !in todo ==>
                    items[i].key in Imm(state.done)
        decreases todo
      {
        SomeIndex(todo);
        var i: nat :| i in todo;
        todo := todo - {i};
        var quit: bool := *;
        if !ok && quit {
          return;
        }
        var res := StoreOne(items, i, phase, was);
        if res.Fatal? {
          ok := false;
        }
        bad := bad + if Bad(res) then 1 else 0;
      }
    }

    method StoreOne(items: seq<Item>, i: nat, phase: nat, ghost was: set<Key>) returns (res: Result)
      requires Valid() && Storable(items, was) && i < |items| && items[i].phase == phase
      requires phase == PHASE_INDEXES ==> DataKeys(items) <= Imm(state.done)
      modifies this`target, state`done, state`unsynced, state`lines, state`broken, state`file, state`synced
      ensures Grows(ImmKeys(items)) && Storable(items, was)
      ensures old(state.Strong()) && was <= old(Imm(state.done)) ==> state.Strong()
      ensures items[i].immut && !Bad(res) && !res.Fatal? ==> items[i].key in Imm(state.done)
    {
      hide QueueShape, QueueOk, AllAgree, Agrees, IndexKeys, DataKeys, State.Valid, State.Strong, NeedsServed;
      MayStoreOne(items, i, phase, was);
      res := Store(items[i]);
      ShapeGrows(items, i, old(Imm(state.done)), Imm(state.done));
      assert items[i].immut ==> items[i].key in ImmKeys(items);
    }

    lemma MayStoreOne(items: seq<Item>, i: nat, phase: nat, was: set<Key>)
      requires Valid() && Storable(items, was) && i < |items| && items[i].phase == phase
      requires phase == PHASE_INDEXES ==> DataKeys(items) <= Imm(state.done)
      ensures MayStore(items[i]) && (was <= Imm(state.done) ==> Backed(items[i]))
    {
      hide NeedsServed, Held, InOrder, Steady, Replay;
      var it := items[i];
      assert Agrees(it, state.queue) && ItemOk(it);
      if it.immut && it.key in state.needs {
        assert IsIndex(it.key);
        IndexReady(items, i, was, target, state.needs);
        if was <= Imm(state.done) { IndexReady(items, i, was, Imm(state.done), state.needs); }
      }
      if it.immut && IsIndex(it.key) { assert it.key in IndexKeys(items); }
    }

    /** Stores the items phase by phase, each made durable before the next. Final indexes are put off when data of the
        round is not stored. */
    method Run(items: seq<Item>, ghost was: set<Key>) returns (ok: bool, bad: nat)
      requires Valid() && Storable(items, was)
      modifies this`target, state`done, state`unsynced, state`lines, state`broken, state`file, state`synced
      ensures Grows(ImmKeys(items))
      ensures old(state.Strong()) && was <= old(Imm(state.done)) ==> state.Strong()
      ensures ok && bad == 0 ==>
              PhaseHeld(items, PHASE_DATA, Imm(state.done))
              && PhaseHeld(items, PHASE_INDEXES, Imm(state.done))
    {
      hide Valid, State.Valid, State.Strong, QueueShape, QueueOk, AllAgree, Agrees, IndexKeys, PhaseHeld,
        State.Resumable;
      bad := 0;
      ok := true;
      for phase := 0 to PHASES
        invariant ok && Grows(ImmKeys(items)) && Storable(items, was)
        invariant old(state.Strong()) && was <= old(Imm(state.done)) ==> state.Strong()
        invariant phase > 0 && bad == 0 ==> DataKeys(items) <= Imm(state.done)
        invariant bad == 0 ==> forall p: nat :: p < phase ==> PhaseHeld(items, p, Imm(state.done))
      {
        if phase == PHASE_INDEXES && bad > 0 {
          continue;
        }
        label L:
        var n := 0;
        ok, n := RunPhase(items, phase, was);
        bad := bad + n;
        PhasesMore(items, old@L(Imm(state.done)), Imm(state.done));
        if phase == PHASE_DATA && ok && n == 0 {
          DataHeld(items, Imm(state.done));
        }
        if exists i: nat :: i < |items| && items[i].phase == phase {
          var synced := SyncState();
          ok := ok && synced;
        }
        if !ok {
          return;
        }
      }
    }

    method SyncState() returns (ok: bool)
      requires Valid()
      modifies state`unsynced, state`broken, state`file, state`synced
      ensures Grows({}) && (old(state.Strong()) ==> state.Strong()) && state.done == old(state.done)
    {
      hide NeedsServed, QueueOk;
      var flush: nat, flushOk: bool, sync: bool := *, *, *;
      ok := state.Sync(flush, flushOk, sync);
    }

    /** One round: it finishes the queue a stopped round left, then plans, saves the queue and stores what it planned.
        Whatever is refused, unreadable or gone, and wherever it stops, the target has what each final index recorded
        needs, so it serves every version the index names; and so does the state, if it did before. A round in which
        nothing failed holds every final index of the catalog. `gap` says that a queue with a final index was saved
        while something held that the index needs was not certainly on disk; without it any crash can be resumed
        from. */
    method Round(src: Source, every: nat) returns (ok: bool, bad: nat, ghost gap: bool)
      requires Valid() && every > 0 && SourceOk(src) && SameFinals(src, finals)
      modifies this`target, this`finals, state
      ensures Valid() && old(target) <= target && old(Imm(state.done)) <= Imm(state.done) <= target
      ensures Within2(Imm(state.done), state.needs, target)
      ensures old(Ready()) ==> Ready()
      ensures old(Ready()) && old(state.Resumable()) && !gap ==> state.Resumable()
      ensures ok ==> state.queue == []
      ensures ok && bad == 0 ==> FinalHeld(src, Imm(state.done))
      ensures forall k <- finals ::
              (k in old(finals) && finals[k] == old(finals)[k])
              || (IsIndex(k) && Final(src, k) && finals[k] == NamedOf(src, k))
    {
      hide Ready, State.Valid, State.Strong, QueueShape, QueueOk, AllAgree, PhaseHeld, ItemsOk, SameFinals, NeedsServed,
        IndexKeys, DataKeys, AllPlanned, InCatalog, Covered, SourceOk, State.Resumable, FinalHeld, PlanOk;
      gap := false;
      if state.queue != [] {
        ok, bad := Resume();
        if !ok {
          return;
        }
      }
      var held := Recorded();
      var plan := Plan(src, held, every);
      if plan.None? {
        return false, 0, gap;
      }
      PlanFinal(src, plan.value, held);
      ok, bad, gap := StorePlan(src, every, plan.value);
    }

    /** The publisher after a stop or a crash that kept the first n records of the log. */
    method Reopen(n: nat)
      requires Valid() && state.synced <= n <= |state.file|
      modifies state
      ensures Valid() && !state.broken && (old(state.Strong()) ==> state.Strong())
      ensures state.done == Replay(old(state.file)[..n])
      ensures old(state.Strong()) && old(state.Resumable()) ==> Ready() && state.Resumable()
    {
      hide State.Valid, State.Strong, NeedsServed, State.Resumable, QueueOk, Imm;
      state.Reopen(n);
    }

    /** Every final index recorded is served by the target: of a timeline each version it names, and at z0 the one at
        its day's end, of a day index each window and keyframe. It is served by what is recorded too, as long as the
        state keeps its promise. */
    lemma RecordedServed()
      requires Valid()
      ensures forall k <- Imm(state.done) :: IsIndex(k) ==>
                k in finals && Provides(target, k, finals[k]) && (Ready() ==> Provides(Imm(state.done), k, finals[k]))
    {
      hide QueueOk, QueueShape, InOrder, Steady, Replay, Provides, IndexKeys;
      forall k <- Imm(state.done) | IsIndex(k)
        ensures k in finals && Provides(target, k, finals[k]) && (Ready() ==> Provides(Imm(state.done), k, finals[k]))
      {
        assert k in state.needs;
        ProvidesMore(state.needs[k], target, k, finals[k]);
        if Ready() { ProvidesMore(state.needs[k], Imm(state.done), k, finals[k]); }
      }
    }

    /** What the state records as stored for good. */
    method Recorded() returns (held: set<Key>)
      ensures held == Imm(state.done)
    {
      held := set k | k in state.done && state.done[k].immut;
    }

    /** What everything held and needed is taken from: the state where its promise holds, else the target. */
    ghost function Base(): set<Key>
      reads this, state
    {
      if Ready() then Imm(state.done) else target
    }

    /** Finishes the queue a stopped round left. */
    method Resume() returns (ok: bool, bad: nat)
      requires Valid()
      modifies this`target, state
      ensures Valid() && old(target) <= target && old(Imm(state.done)) <= Imm(state.done)
      ensures (old(Ready()) ==> Ready()) && (old(state.Resumable()) ==> state.Resumable()) && (ok ==> state.queue == [])
    {
      hide State.Valid, State.Strong, QueueShape, QueueOk, AllAgree, PhaseHeld, NeedsServed, IndexKeys, DataKeys,
        State.Resumable;
      QueueStorable();
      ok, bad := Run(state.queue, Base());
      StillReady(state.queue, old(Imm(state.done)), Imm(state.done), state.needs);
      if ok {
        state.DropQueue();
        NothingQueued(Imm(state.done), state.needs);
        NothingQueued(target, state.needs);
      }
    }

    lemma QueueStorable()
      requires Valid()
      ensures Storable(state.queue, Base())
    {
      hide NeedsServed, QueueOk, Held, InOrder, Steady;
      Coherent(state.queue, Imm(state.done));
      RecordedIsThere();
    }

    lemma RecordedIsThere()
      requires Valid()
      ensures Imm(state.done) <= target
    {
      hide NeedsServed, QueueOk, State.Valid;
    }

    /** Every timeline recorded is served by the base. */
    lemma HeldServed(src: Source)
      requires Valid() && SameFinals(src, finals)
      ensures forall x <- Imm(state.done) :: x.Timeline? && InCatalog(src, x) ==> Serves(Base(), x, EndsOf(src, x))
    {
      hide QueueOk, QueueShape, InOrder, Steady, Replay, Serves, InCatalog, EndsOf, IndexKeys;
      forall x <- Imm(state.done) | x.Timeline? && InCatalog(src, x)
        ensures Serves(Base(), x, EndsOf(src, x))
      {
        assert x in state.needs && x in finals && Provides(state.needs[x], x, finals[x]);
        ServesMore(state.needs[x], Base(), x, EndsOf(src, x));
      }
    }

    /** Saves the plan's queue and runs the plan. */
    method StorePlan(src: Source, every: nat, items: seq<Item>) returns (ok: bool, bad: nat, ghost gap: bool)
      requires Valid() && every > 0 && SourceOk(src) && SameFinals(src, finals)
      requires ItemsOk(items, Imm(state.done)) && PlanOk(src, items, Imm(state.done))
               && AllPlanned(src, Imm(state.done), every, items, {})
      requires forall k :: InCatalog(src, k) ==> Covered(src, Imm(state.done), items, k)
      modifies this`target, this`finals, state
      ensures Valid() && old(target) <= target && old(Imm(state.done)) <= Imm(state.done)
      ensures old(Ready()) ==> Ready()
      ensures old(Ready()) && !gap ==> state.Resumable()
      ensures ok ==> state.queue == []
      ensures ok && bad == 0 ==> FinalHeld(src, Imm(state.done))
      ensures finals == old(finals) + PlanNames(src, items)
    {
      hide Valid, State.Valid, State.Strong, QueueShape, QueueOk, AllAgree, PhaseHeld, ItemsOk, SameFinals, NeedsServed,
        IndexKeys, DataKeys, AllPlanned, InCatalog, Covered, SourceOk, State.Resumable, FinalHeld, PlanOk;
      ghost var held, base := Imm(state.done), Base();
      HeldServed(src);
      PlanServed(src, held, base, every, items);
      gap := Enqueue(src, items, base);
      label L:
      ok, bad := Run(items, base);
      StillReady(state.queue, old@L(Imm(state.done)), Imm(state.done), state.needs);
      if ok && bad == 0 { FinalsHeld(src, held, items); }
      if ok {
        ok := EndPlan();
      }
    }

    /** Puts the plan in the queue; its final indexes need what serves them, of the base and the plan. */
    method Enqueue(src: Source, items: seq<Item>, ghost base: set<Key>) returns (ghost gap: bool)
      requires Valid() && ItemsOk(items, Imm(state.done)) && base == Base()
      requires NeedsServed(PlanNeeds(src, base + DataKeys(items), items), PlanNames(src, items))
      modifies this`finals, state`queue, state`needs
      ensures Valid() && Storable(items, base) && finals == old(finals) + PlanNames(src, items)
      ensures (old(Ready()) ==> Ready()) && (old(Ready()) && !gap ==> state.Resumable())
    {
      hide State.Valid, State.Strong, QueueShape, QueueOk, AllAgree, Agrees, NeedsServed, ItemsOk, IndexKeys, DataKeys,
        NeedsOf, EndsOf, State.Resumable;
      ghost var more := PlanNeeds(src, base + DataKeys(items), items);
      RecordedIsThere();
      gap := !forall k <- more :: more[k] * Imm(state.done) <= state.Durable();
      state.SavePlan(items, more);
      MoreServed(old(state.needs), finals, more, PlanNames(src, items));
      finals := finals + PlanNames(src, items);
      Coherent(items, Imm(state.done));
      PlanAgrees(items, state.queue);
      assert forall k <- more :: more[k] <= base + DataKeys(items) && more[k] <= target + DataKeys(items);
    }

    /** The round ended: what it recorded is made durable, and the queue goes. */
    method EndPlan() returns (ok: bool)
      requires Valid()
      modifies state
      ensures Valid() && state.done == old(state.done) && (old(Ready()) ==> Ready())
      ensures (old(state.Resumable()) ==> state.Resumable()) && (ok ==> state.queue == [])
    {
      hide State.Valid, State.Strong, NeedsServed, IndexKeys, DataKeys, State.Resumable, QueueOk;
      ok := SyncState();
      if ok {
        state.DropQueue();
        NothingQueued(Imm(state.done), state.needs);
        NothingQueued(target, state.needs);
      }
    }

    lemma FinalsHeld(src: Source, held: set<Key>, items: seq<Item>)
      requires PlanOk(src, items, held) && (forall k :: InCatalog(src, k) ==> Covered(src, held, items, k))
      requires held <= Imm(state.done) && PhaseHeld(items, PHASE_INDEXES, Imm(state.done))
      ensures FinalHeld(src, Imm(state.done))
    {
      hide PlanOk, Keys, Imm, DayOf;
      forall k | InCatalog(src, k) && Final(src, k)
        ensures k in Imm(state.done)
      {
        assert Covered(src, held, items, k);
        if k !in held {
          FinalPlanned(src, held, items, k);
          IndexHeld(src, items, held, k, Imm(state.done));
        }
      }
    }
  }

  lemma IndexHeld(src: Source, items: seq<Item>, held: set<Key>, k: Key, have: set<Key>)
    requires PlanOk(src, items, held) && k in IndexKeys(items) && PhaseHeld(items, PHASE_INDEXES, have)
    ensures k in have
  {
    var i: nat :| i < |items| && items[i].phase == PHASE_INDEXES && items[i].key == k;
    assert ItemOk(items[i]);
  }

  lemma PlanFinal(src: Source, items: seq<Item>, held: set<Key>)
    requires PlanOk(src, items, held)
    ensures forall k <- IndexKeys(items) :: Final(src, k)
  {
    hide DayOf;
    forall k <- IndexKeys(items) ensures Final(src, k) {
      var i: nat :| i < |items| && items[i].phase == PHASE_INDEXES && items[i].key == k;
      assert ItemOk(items[i]);
    }
  }

  lemma StillReady(queue: seq<Item>, have: set<Key>, have': set<Key>, needs: Needs)
    requires have <= have'
    ensures QueueOk(queue, have, needs) ==> QueueOk(queue, have', needs)
  {}

  lemma AgreesShape(it: Item, queue: seq<Item>)
    requires Agrees(it, queue)
    ensures it.immut ==> forall i: nat :: i < |queue| && queue[i].key == it.key ==> queue[i].immut
  {}
}
