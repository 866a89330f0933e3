/** What a publisher knows to be stored: an append-only log of records, replayed at each start, and the queue of the
    round in progress. */
module PublishState {
  import opened Common
  import opened PublishPlan

  datatype Record = Record(hash: int, size: nat, immut: bool)

  datatype Entry = Entry(key: Key, rec: Record)

  /** The last record of a key wins. */
  function Replay(f: seq<Entry>): map<Key, Record> {
    if f == [] then map[] else Replay(f[..|f| - 1])[f[|f| - 1].key := f[|f| - 1].rec]
  }

  function Imm(done: map<Key, Record>): set<Key> { set k | k in done && done[k].immut }

  /** The keys that the log calls immutable somewhere. */
  function Kept(f: seq<Entry>): set<Key> { set i: nat | i < |f| && f[i].rec.immut :: f[i].key }

  function FileKeys(f: seq<Entry>): set<Key> { set i: nat | i < |f| :: f[i].key }

  lemma FileKeysPrefix(f: seq<Entry>, n: nat)
    requires n <= |f|
    ensures FileKeys(f[..n]) <= FileKeys(f)
  {
    forall k | k in FileKeys(f[..n]) ensures k in FileKeys(f) {
      var i: nat :| i < n && f[..n][i].key == k;
      assert f[i].key == k;
    }
  }

  lemma FileKeysMore(f: seq<Entry>, e: Entry)
    ensures FileKeys(f + [e]) == FileKeys(f) + {e.key}
  {
    var g := f + [e];
    assert g[|f|] == e;
    forall k | k in FileKeys(f) ensures k in FileKeys(g) {
      var i: nat :| i < |f| && f[i].key == k;
      assert g[i] == f[i];
    }
  }

  lemma {:induction false} ReplayKeys(f: seq<Entry>)
    ensures Replay(f).Keys == FileKeys(f)
    decreases |f|
  {
    if f != [] {
      var n := |f| - 1;
      ReplayKeys(f[..n]);
      FileKeysMore(f[..n], f[n]);
      assert f == f[..n] + [f[n]];
    }
  }

  /** Once a key is immutable it stays so. */
  ghost predicate Steady(f: seq<Entry>) {
    forall i: nat, j: nat :: i < j < |f| && f[i].key == f[j].key && f[i].rec.immut ==> f[j].rec.immut
  }

  type Needs = map<Key, set<Key>>

  /** A final index is held with everything it needs. */
  ghost predicate Held(have: set<Key>, needs: Needs) { forall k <- have :: k in needs ==> needs[k] <= have }

  /** From `base` on, each final index comes after everything it needs; what is before goes together. */
  ghost predicate InOrder(f: seq<Entry>, base: nat, needs: Needs) {
    && base <= |f| && Held(Kept(f[..base]), needs)
    && forall p: nat :: base <= p < |f| && f[p].rec.immut && f[p].key in needs ==> needs[f[p].key] <= Kept(f[..p])
  }

  lemma {:induction false} ReplayIsKept(f: seq<Entry>)
    requires Steady(f)
    ensures Imm(Replay(f)) == Kept(f)
  {
    if f != [] {
      var p, e := f[..|f| - 1], f[|f| - 1];
      ReplayIsKept(p);
      KeptMore(p, e);
      assert p + [e] == f;
      if e.key in Kept(p) {
        var i: nat :| i < |p| && p[i].rec.immut && p[i].key == e.key;
        assert f[i] == p[i];
      }
    }
  }

  lemma KeptMore(f: seq<Entry>, e: Entry)
    ensures Kept(f + [e]) == Kept(f) + if e.rec.immut then {e.key} else {}
  {
    var g := f + [e];
    assert g[|f|] == e;
    forall k | k in Kept(f) ensures k in Kept(g) {
      var i: nat :| i < |f| && f[i].rec.immut && f[i].key == k;
      assert g[i] == f[i];
    }
  }

  lemma KeptPrefix(f: seq<Entry>, n: nat, m: nat)
    requires n <= m <= |f|
    ensures Kept(f[..n]) <= Kept(f[..m])
  {
    forall k | k in Kept(f[..n]) ensures k in Kept(f[..m]) {
      var i: nat :| i < n && f[..n][i].rec.immut && f[..n][i].key == k;
      assert f[..m][i] == f[i];
    }
  }

  /** Whatever part of the log a crash leaves, it holds each final index with everything it needs. */
  lemma PrefixHolds(f: seq<Entry>, base: nat, needs: Needs, n: nat)
    requires InOrder(f, base, needs) && base <= n <= |f|
    ensures InOrder(f[..n], base, needs) && Held(Kept(f[..n]), needs)
  {
    assert f[..n][..base] == f[..base];
    forall k | k in Kept(f[..n]) && k in needs ensures needs[k] <= Kept(f[..n]) {
      var p: nat :| p < n && f[..n][p].rec.immut && f[..n][p].key == k;
      if p < base {
        assert f[..base][p] == f[p];
        KeptPrefix(f, base, n);
      } else {
        KeptPrefix(f, p, n);
      }
    }
    forall p: nat | base <= p < n && f[..n][p].rec.immut && f[..n][p].key in needs
        ensures needs[f[..n][p].key] <= Kept(f[..n][..p]) {
      assert f[..n][..p] == f[..p];
    }
  }

  lemma PrefixSteady(f: seq<Entry>, n: nat)
    requires Steady(f) && n <= |f|
    ensures Steady(f[..n])
  {}

  /** A record behind the log. */
  lemma Append(f: seq<Entry>, e: Entry)
    requires Steady(f) && (e.key in Kept(f) ==> e.rec.immut)
    ensures Steady(f + [e]) && Replay(f + [e]) == Replay(f)[e.key := e.rec]
  {
    var g := f + [e];
    assert g[..|f|] == f;
    forall i: nat, j: nat | i < j < |g| && g[i].key == g[j].key && g[i].rec.immut ensures g[j].rec.immut {
      if j == |f| { assert f[i].key in Kept(f); }
    }
  }

  /** What one record more does to the log. */
  lemma LogMore(f: seq<Entry>, synced: nat, e: Entry)
    requires Steady(f) && synced <= |f| && (e.key in Imm(Replay(f)) ==> e.rec.immut)
    ensures Steady(f + [e]) && Replay(f + [e]) == Replay(f)[e.key := e.rec]
    ensures Kept(f + [e]) <= Kept(f) + if e.rec.immut then {e.key} else {}
    ensures FileKeys(f + [e]) <= FileKeys(f) + {e.key} && (f + [e])[..synced] == f[..synced]
    ensures Kept(f) == Imm(Replay(f))
  {
    hide Steady, Replay, Kept, FileKeys, Imm;
    ReplayIsKept(f);
    Append(f, e);
    KeptMore(f, e);
    FileKeysMore(f, e);
  }

  lemma AppendInOrder(f: seq<Entry>, base: nat, needs: Needs, e: Entry)
    requires InOrder(f, base, needs) && (e.rec.immut && e.key in needs ==> needs[e.key] <= Kept(f))
    ensures InOrder(f + [e], base, needs)
  {
    var g := f + [e];
    assert g[..|f|] == f && g[..base] == f[..base];
    forall p: nat | base <= p < |g| && g[p].rec.immut && g[p].key in needs ensures needs[g[p].key] <= Kept(g[..p]) {
      assert g[..p] == f[..p];
      if p == |f| { assert f[..p] == f; }
    }
  }

  /** A queue can be resumed from what is held: what a final index in it needs is held or in the queue. */
  ghost predicate QueueOk(queue: seq<Item>, have: set<Key>, needs: Needs) {
    forall k <- IndexKeys(queue) :: k in needs ==> needs[k] <= have + DataKeys(queue)
  }

  /** The queue's items are of the right kinds, and none that may change is held as immutable. */
  ghost predicate QueueShape(queue: seq<Item>, have: set<Key>) {
    && (forall i: nat :: i < |queue| ==> ItemOk(queue[i]) && (!queue[i].immut ==> queue[i].key !in have))
    && (forall i: nat, j: nat :: i < |queue| && j < |queue| && queue[i].key == queue[j].key ==>
        queue[i].immut == queue[j].immut)
  }

  /** Only indexes need anything. */
  predicate NeedsOk(needs: Needs) { forall k <- needs :: IsIndex(k) }

  const SYNC_EVERY := 256

  class State {
    var done: map<Key, Record>
    var unsynced: nat
    var lines: nat
    var queue: seq<Item>

    /** The log's writer failed: it takes nothing any more. */
    var broken: bool

    /** The log with what its writer took, and how much of it is certainly on disk; a crash leaves that and maybe
        more. Up to `base` its records are in no particular order. */
    var file: seq<Entry>
    var synced: nat
    ghost var base: nat

    /** What each final index planned needs: the objects a client reads for it. */
    ghost var needs: Needs

    ghost predicate Valid()
      reads this
    {
      && base <= synced <= |file| && Steady(file) && NeedsOk(needs) && Kept(file) <= Imm(done)
      && (if broken then unsynced > 0 else done == Replay(file)) && QueueShape(queue, Imm(done))
      && (forall k <- Imm(done) :: !k.Page? && (IsIndex(k) ==> k in needs)) && IndexKeys(queue) <= needs.Keys
    }

    /** The promise: what is recorded holds each final index with everything it needs, and so does whatever part of
        the log a crash leaves. */
    ghost predicate Strong()
      reads this
    {
      InOrder(file, base, needs) && Held(Imm(done), needs)
    }

    /** What is certainly on disk. */
    ghost function Durable(): set<Key>
      reads this
    {
      if synced <= |file| then Kept(file[..synced]) else {}
    }

    /** After any crash the queue still brings in what its final indexes need. */
    ghost predicate Resumable()
      reads this
    {
      QueueOk(queue, Durable(), needs)
    }

    constructor ()
      ensures Valid() && Strong() && Resumable() && done == map[] && queue == [] && file == [] && needs == map[]
              && !broken
      ensures unsynced == 0 && synced == 0
    {
      done, unsynced, lines, queue, broken := map[], 0, 0, [], false;
      file, synced, base, needs := [], 0, 0, map[];
      new;
      assert file[..0] == [];
    }

    method Lookup(k: Key) returns (r: Option<Record>)
      ensures r == if k in done then Some(done[k]) else None
    {
      r := if k in done then Some(done[k]) else None;
    }

    /** Makes every record durable. `flush`: how many records the writer gets out when it fails (all of them when it
        does not); `sync`: the file is synced. A failed sync leaves nothing to sync: the next one is not tried. */
    method Sync(flush: nat, flushOk: bool, sync: bool) returns (ok: bool)
      requires Valid()
      modifies this`unsynced, this`broken, this`file, this`synced
      ensures Valid() && Durable() >= old(Durable()) && (old(Resumable()) ==> Resumable()) && done == old(done)
              && (old(Strong()) ==> Strong())
      ensures ok <==> old(unsynced) == 0 || (!old(broken) && flushOk && sync)
      ensures ok ==> unsynced == 0 && file == old(file) && broken == old(broken) == false
      ensures ok && old(unsynced) > 0 ==> Durable() == Imm(done)
      ensures (old(broken) ==> broken) && (flushOk ==> broken == old(broken))
      ensures !broken ==> file == old(file) && unsynced == 0 && (!ok ==> synced == old(synced))
      ensures FileKeys(file) <= FileKeys(old(file)) && (old(unsynced) == 0 ==> synced == old(synced))
    {
      hide InOrder, Steady, Held, QueueShape;
      if unsynced == 0 {
        return true;
      }
      if broken {
        return false;
      }
      if !flushOk {
        var n := if flush < synced then synced else if flush < |file| then flush else |file|;
        if InOrder(file, base, needs) { PrefixHolds(file, base, needs, n); }
        PrefixSteady(file, n);
        FileKeysPrefix(file, n);
        KeptPrefix(file, n, |file|);
        assert file[..|file|] == file && file[..n][..synced] == file[..synced];
        file, broken := file[..n], true;
        return false;
      }
      unsynced := 0;
      if sync {
        ghost var was := synced;
        synced := |file|;
        KeptPrefix(file, was, |file|);
        assert file[..|file|] == file;
        ReplayIsKept(file);
      }
      ok := sync;
    }

    /** Takes the record in memory and, unless the writer failed before or fails now, in the log. The writer's buffer
        takes a record without writing when there are none in it, so it fails only behind others. */
    method Put(k: Key, r: Record, writeOk: bool) returns (ok: bool)
      requires Valid()
      requires (k in Imm(done) ==> r.immut) && (r.immut ==> !k.Page? && (IsIndex(k) ==> k in needs))
      requires r.immut ==> forall i: nat :: i < |queue| && queue[i].key == k ==> queue[i].immut
      modifies this`done, this`unsynced, this`lines, this`file, this`broken
      ensures Valid() && Durable() >= old(Durable()) && (old(Resumable()) ==> Resumable())
      ensures ok == !broken == (!old(broken) && (writeOk || old(unsynced) == 0))
      ensures old(Strong()) && (r.immut && k in needs ==> needs[k] <= old(Imm(done))) ==> Strong()
      ensures done == old(done)[k := r] && FileKeys(file) <= FileKeys(old(file)) + {k}
      ensures if ok then unsynced == old(unsynced) + 1 && file == old(file) + [Entry(k, r)]
                else unsynced == old(unsynced) && file == old(file)
    {
      hide InOrder, Steady, QueueShape, Replay, Held, IndexKeys, NeedsOk, FileKeys, Kept;
      ok := !broken && (writeOk || unsynced == 0);
      if ok {
        PutLog(k, r);
      } else {
        PutMemory(k, r);
      }
    }

    /** Only memory takes the record. */
    method PutMemory(k: Key, r: Record)
      requires Valid() && unsynced > 0
      requires (k in Imm(done) ==> r.immut) && (r.immut ==> !k.Page? && (IsIndex(k) ==> k in needs))
      requires r.immut ==> forall i: nat :: i < |queue| && queue[i].key == k ==> queue[i].immut
      modifies this`done, this`lines, this`broken
      ensures Valid() && Durable() == old(Durable()) && (old(Resumable()) ==> Resumable()) && broken
      ensures old(Strong()) && (r.immut && k in needs ==> needs[k] <= old(Imm(done))) ==> Strong()
      ensures done == old(done)[k := r]
    {
      hide InOrder, Steady, QueueShape, Replay, Held, IndexKeys, NeedsOk, FileKeys, Kept;
      done, lines, broken := done[k := r], lines + 1, true;
      ImmMore(old(done), k, r);
      if old(Strong()) && (r.immut && k in needs ==> needs[k] <= Imm(old(done))) {
        HeldMore(Imm(old(done)), Imm(done), needs, k);
      }
      ShapeMore(queue, Imm(old(done)), Imm(done), k, r);
    }

    /** Memory and the log take the record. */
    method PutLog(k: Key, r: Record)
      requires Valid() && !broken
      requires (k in Imm(done) ==> r.immut) && (r.immut ==> !k.Page? && (IsIndex(k) ==> k in needs))
      requires r.immut ==> forall i: nat :: i < |queue| && queue[i].key == k ==> queue[i].immut
      modifies this`done, this`lines, this`unsynced, this`file
      ensures Valid() && Durable() >= old(Durable()) && (old(Resumable()) ==> Resumable())
      ensures old(Strong()) && (r.immut && k in needs ==> needs[k] <= old(Imm(done))) ==> Strong()
      ensures done == old(done)[k := r] && FileKeys(file) <= FileKeys(old(file)) + {k}
      ensures unsynced == old(unsynced) + 1 && file == old(file) + [Entry(k, r)]
    {
      hide InOrder, Steady, QueueShape, Replay, Held, IndexKeys, NeedsOk, FileKeys, Kept;
      ImmMore(done, k, r);
      LogMore(file, synced, Entry(k, r));
      if Strong() && (r.immut && k in needs ==> needs[k] <= Imm(done)) {
        HeldMore(Imm(done), Imm(done[k := r]), needs, k);
        AppendInOrder(file, base, needs, Entry(k, r));
      }
      ShapeMore(queue, Imm(done), Imm(done[k := r]), k, r);
      done, lines := done[k := r], lines + 1;
      file := file + [Entry(k, r)];
      unsynced := unsynced + 1;
    }

    /** Notes that key is stored. */
    method Note(k: Key, r: Record, writeOk: bool, flush: nat, flushOk: bool, sync: bool) returns (ok: bool)
      requires Valid()
      requires (k in Imm(done) ==> r.immut) && (r.immut ==> !k.Page? && (IsIndex(k) ==> k in needs))
      requires r.immut ==> forall i: nat :: i < |queue| && queue[i].key == k ==> queue[i].immut
      modifies this`done, this`unsynced, this`lines, this`broken, this`file, this`synced
      ensures Valid() && Durable() >= old(Durable()) && (old(Resumable()) ==> Resumable())
      ensures old(Strong()) && (r.immut && k in needs ==> needs[k] <= old(Imm(done))) ==> Strong()
      ensures done == old(done)[k := r] && (ok ==> !broken) && (old(broken) ==> !ok && broken)
              && FileKeys(file) <= FileKeys(old(file)) + {k}
      ensures !old(broken) && writeOk && old(unsynced) + 1 < SYNC_EVERY ==>
                ok && unsynced == old(unsynced) + 1 && file == old(file) + [Entry(k, r)] && synced == old(synced)
    {
      hide Valid, Strong, Resumable;
      ok := Put(k, r, writeOk);
      if ok && unsynced >= SYNC_EVERY {
        ok := Sync(flush, flushOk, sync);
      }
    }

    /** The round's queue is saved: what was planned, without the immutable objects held. `more` is what the final
        indexes planned need. It can be resumed after any crash exactly when what they need of what is held is
        certainly on disk. */
    method SavePlan(items: seq<Item>, ghost more: Needs)
      requires Valid() && ItemsOk(items, Imm(done)) && more.Keys == IndexKeys(items)
      modifies this`queue, this`needs
      ensures Valid() && QueueShape(items, Imm(done)) && (old(Strong()) ==> Strong())
      ensures needs == old(needs) + more && IndexKeys(items) !! Imm(done)
      ensures forall i: nat :: i < |queue| ==> queue[i] in items
      ensures forall i: nat :: i < |items| ==> items[i] in queue || (items[i].immut && items[i].key in Imm(done))
      ensures forall have: set<Key> :: Imm(done) <= have && (forall k <- more :: more[k] <= have + DataKeys(items)) ==>
                QueueOk(queue, have, needs) && QueueOk(items, have, needs)
      ensures (forall k <- more :: more[k] <= Imm(done) + DataKeys(items)) ==>
                (Resumable() <==> forall k <- more :: more[k] * Imm(done) <= Durable())
    {
      hide Steady, InOrder, ItemsOk, Replay, QueueShape, Held;
      var q := Leftover(items, done);
      KeptPrefix(file, synced, |file|);
      assert file[..|file|] == file;
      Planned(items, q, Imm(done));
      PlannedShape(items, q, Imm(done));
      if Strong() { InOrderAs(file, base, needs, needs + more, Imm(done)); }
      queue, needs := q, needs + more;
    }

    /** The round ended. */
    method DropQueue()
      requires Valid()
      modifies this`queue
      ensures Valid() && queue == [] && Resumable() && (old(Strong()) ==> Strong())
    {
      queue := [];
    }

    /** A crash, or just a stop: the log keeps what is certainly on disk and maybe more, up to n; the state is opened
        from that and what the queue's file holds. A log with many superseded lines is rewritten. */
    method Reopen(n: nat)
      requires Valid() && synced <= n <= |file|
      modifies this
      ensures Valid() && done == Replay(old(file)[..n]) && !broken && unsynced == 0 && queue == old(queue)
              && needs == old(needs)
      ensures FileKeys(file) <= FileKeys(old(file)) && done.Keys <= FileKeys(old(file)) && Imm(done) <= Imm(old(done))
      ensures Durable() >= old(Durable()) && (old(Strong()) ==> Strong())
      ensures old(Resumable()) ==> Resumable() && QueueOk(queue, Imm(done), needs)
    {
      hide InOrder, Held, FileKeys, Kept, Steady, QueueShape, Replay, IndexKeys;
      if InOrder(file, base, needs) { PrefixHolds(file, base, needs, n); }
      PrefixSteady(file, n);
      KeptPrefix(file, synced, n);
      KeptPrefix(file, n, |file|);
      assert file[..|file|] == file && file[..n][..synced] == file[..synced];
      var log := file[..n];
      ReplayIsKept(log);
      ReplayKeys(log);
      FileKeysPrefix(file, n);
      var d, n' := Load(log);
      ShapeLess(queue, Imm(done), Imm(d));
      done, unsynced, broken, file, lines := d, 0, false, log, n';
      if lines > 2 * |done| + 1024 {
        Compact();
      }
    }

    /** The log is rewritten with one line per key, in any order, and synced at once. */
    method Compact()
      requires Valid() && !broken && unsynced == 0
      modifies this`lines, this`file, this`synced, this`base
      ensures Valid() && Durable() >= old(Durable()) && (old(Strong()) ==> Strong()) && FileKeys(file) <= done.Keys
      ensures old(Resumable()) ==> Resumable() && QueueOk(queue, Imm(done), needs)
    {
      hide Held;
      var out: seq<Entry> := [];
      var rest := done.Keys;
      while rest != {}
        invariant rest <= done.Keys && Replay(out) == (map k | k in done && k !in rest :: done[k])
        invariant forall i: nat :: i < |out| ==>
                  out[i].key !in rest && out[i].key in done
                  && out[i].rec == done[out[i].key]
        invariant forall i: nat, j: nat :: i < j < |out| ==> out[i].key != out[j].key
        decreases rest
      {
        var k :| k in rest;
        assert (out + [Entry(k, done[k])])[..|out|] == out;
        out := out + [Entry(k, done[k])];
        rest := rest - {k};
      }
      assert Replay(out) == done;
      ReplayIsKept(out);
      KeptPrefix(file, synced, |file|);
      assert file[..|file|] == file && out[..|out|] == out;
      lines := |out|;
      file, synced, base := out, |out|, |out|;
    }
  }

  /** The items the state does not hold as immutable. */
  method Leftover(items: seq<Item>, done: map<Key, Record>) returns (q: seq<Item>)
    ensures forall i: nat :: i < |q| ==> q[i] in items && !(q[i].immut && q[i].key in Imm(done))
    ensures forall i: nat :: i < |items| ==> items[i] in q || (items[i].immut && items[i].key in Imm(done))
  {
    q := [];
    for n := 0 to |items|
      invariant forall i: nat :: i < |q| ==> q[i] in items && !(q[i].immut && q[i].key in Imm(done))
      invariant forall i: nat :: i < n ==> items[i] in q || (items[i].immut && items[i].key in Imm(done))
    {
      if !(items[n].immut && items[n].key in done && done[items[n].key].immut) {
        q := q + [items[n]];
      }
    }
  }

  lemma PlannedShape(items: seq<Item>, q: seq<Item>, held: set<Key>)
    requires ItemsOk(items, held) && forall k <- held :: !k.Page?
    requires forall i: nat :: i < |q| ==> q[i] in items
    ensures QueueShape(items, held) && QueueShape(q, held) && forall k <- IndexKeys(items) :: IsIndex(k)
  {
    forall i: nat, j: nat | i < |q| && j < |q| && q[i].key == q[j].key ensures q[i].immut == q[j].immut {
      var a: nat :| a < |items| && items[a] == q[i];
      var b: nat :| b < |items| && items[b] == q[j];
    }
    forall i: nat | i < |q| ensures ItemOk(q[i]) && (!q[i].immut ==> q[i].key !in held) {
      var a: nat :| a < |items| && items[a] == q[i];
    }
  }

  /** Reads the log. */
  method Load(log: seq<Entry>) returns (done: map<Key, Record>, lines: nat)
    ensures done == Replay(log) && lines == |log|
  {
    done, lines := map[], 0;
    assert log[..0] == [];
    for i := 0 to |log|
      invariant done == Replay(log[..i]) && lines == i
    {
      assert log[..i + 1][..i] == log[..i];
      done := done[log[i].key := log[i].rec];
      lines := lines + 1;
    }
    assert log[..|log|] == log;
  }

  lemma ShapeLess(queue: seq<Item>, have: set<Key>, have': set<Key>)
    requires QueueShape(queue, have) && have' <= have
    ensures QueueShape(queue, have')
  {}

  /** What a queue leaves out is held: the data it keeps is the planned data that is not. */
  lemma Planned(items: seq<Item>, q: seq<Item>, held: set<Key>)
    requires ItemsOk(items, held)
    requires forall i: nat :: i < |q| ==> q[i] in items && !(q[i].immut && q[i].key in held)
    requires forall i: nat :: i < |items| ==> items[i] in q || (items[i].immut && items[i].key in held)
    ensures IndexKeys(q) == IndexKeys(items) && IndexKeys(items) !! held
    ensures DataKeys(q) == DataKeys(items) - held
  {
    forall k | k in IndexKeys(items) ensures k in IndexKeys(q) && k !in held {
      var i: nat :| i < |items| && items[i].phase == PHASE_INDEXES && items[i].key == k;
      var j: nat :| j < |q| && q[j] == items[i];
    }
    forall k | k in IndexKeys(q) ensures k in IndexKeys(items) {
      var i: nat :| i < |q| && q[i].phase == PHASE_INDEXES && q[i].key == k;
      var j: nat :| j < |items| && items[j] == q[i];
    }
    forall k | k in DataKeys(items) ensures k in held || k in DataKeys(q) {
      var i: nat :| i < |items| && items[i].phase == PHASE_DATA && items[i].key == k;
      if k !in held { var j: nat :| j < |q| && q[j] == items[i]; }
    }
    forall k | k in DataKeys(q) ensures k in DataKeys(items) && k !in held {
      var i: nat :| i < |q| && q[i].phase == PHASE_DATA && q[i].key == k;
      var j: nat :| j < |items| && items[j] == q[i];
    }
  }

  /** New needs of indexes that are not held change nothing for the log. */
  lemma InOrderAs(f: seq<Entry>, base: nat, needs: Needs, needs': Needs, have: set<Key>)
    requires InOrder(f, base, needs) && Kept(f) <= have && Held(have, needs)
    requires forall k <- needs' :: k in have ==> k in needs && needs'[k] == needs[k]
    ensures InOrder(f, base, needs') && Held(have, needs')
  {
    KeptPrefix(f, base, |f|);
    assert f[..|f|] == f;
    forall p: nat | base <= p < |f| && f[p].rec.immut && f[p].key in needs' ensures needs'[f[p].key] <= Kept(f[..p]) {
      assert f[p].key in Kept(f);
    }
  }

  lemma ImmMore(done: map<Key, Record>, k: Key, r: Record)
    requires k in Imm(done) ==> r.immut
    ensures Imm(done[k := r]) == Imm(done) + if r.immut then {k} else {}
  {}

  lemma HeldMore(have: set<Key>, have': set<Key>, needs: Needs, k: Key)
    requires Held(have, needs) && have <= have' <= have + {k} && (k in have' && k in needs ==> needs[k] <= have)
    ensures Held(have', needs)
  {}

  lemma ShapeMore(queue: seq<Item>, have: set<Key>, have': set<Key>, k: Key, r: Record)
    requires QueueShape(queue, have) && have' == have + (if r.immut then {k} else {})
    requires r.immut ==> forall i: nat :: i < |queue| && queue[i].key == k ==> queue[i].immut
    ensures QueueShape(queue, have')
  {}
}
