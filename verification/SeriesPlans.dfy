/** Reading versions of a z0 tile from its series: which records a version needs, from a keyframe, from the
    newest base, or on top of a cached version. */
module SeriesPlans {
  import opened Common
  import opened SeriesFile

  /** A tile image, by identity. */
  type Image = int

  const EMPTY: Image := 0

  /** What the payloads mean: a delta changes an image, a keyframe or snapshot is a whole one. */
  datatype Codec = Codec(apply: (Image, int) -> Image, decode: int -> Image)

  predicate IsBase(r: Rec) { r.kind == KeyframeRec || r.kind == SnapshotRec }

  function After(c: Codec, im: Image, r: Rec): Image {
    if r.kind == DeltaRec then c.apply(im, r.payload) else if IsBase(r) then c.decode(r.payload) else im
  }

  /** The image after the first n records, replayed from nothing. */
  function Replay(c: Codec, recs: seq<Rec>, n: nat): Image
    requires n <= |recs|
  {
    if n == 0 then EMPTY else After(c, Replay(c, recs, n - 1), recs[n - 1])
  }

  /** A keyframe holds the image the records before it give. */
  ghost predicate Faithful(c: Codec, recs: seq<Rec>) {
    forall i :: 0 <= i < |recs| && recs[i].kind == KeyframeRec ==> c.decode(recs[i].payload) == Replay(c, recs, i)
  }

  // --- the meaning of a version ---

  /** The payloads of the delta records, in order. */
  function Changes(recs: seq<Rec>): seq<int> {
    if recs == [] then []
    else Changes(recs[..|recs| - 1]) + if recs[|recs| - 1].kind == DeltaRec then [recs[|recs| - 1].payload] else []
  }

  /** One change after the other, from an image. */
  function Made(c: Codec, im: Image, changes: seq<int>): Image {
    if changes == [] then im else c.apply(Made(c, im, changes[..|changes| - 1]), changes[|changes| - 1])
  }

  /** From the empty image. */
  function Changed(c: Codec, changes: seq<int>): Image { Made(c, EMPTY, changes) }

  /** What records first..end make when the first is taken as a whole image, if it is a base, and the deltas follow. */
  function Onward(c: Codec, recs: seq<Rec>, first: nat, end: nat): Image
    requires first <= end <= |recs|
  {
    var whole := first < end && (recs[first].kind == KeyframeRec || recs[first].kind == SnapshotRec);
    Made(c, if whole then c.decode(recs[first].payload) else EMPTY, Changes(recs[first..end]))
  }

  /** Every keyframe and snapshot holds what the changes before it make. */
  ghost predicate Honest(c: Codec, recs: seq<Rec>) {
    forall i :: 0 <= i < |recs| && (recs[i].kind == KeyframeRec || recs[i].kind == SnapshotRec) ==>
        c.decode(recs[i].payload) == Changed(c, Changes(recs[..i]))
  }

  lemma ChangesMore(recs: seq<Rec>, i: nat)
    requires i < |recs|
    ensures Changes(recs[..i + 1]) == Changes(recs[..i]) + if recs[i].kind == DeltaRec then [recs[i].payload] else []
  {
    assert recs[..i + 1][..i] == recs[..i];
  }

  lemma {:induction false} ChangesAre(recs: seq<Rec>, n: nat)
    requires n <= |recs|
    ensures |Changes(recs[..n])| == Deltas(recs, n) && Changes(recs[..n]) <= Changes(recs)
    decreases |recs| - n
  {
    CountChanges(recs, n);
    if n < |recs| {
      ChangesAre(recs, n + 1);
      ChangesMore(recs, n);
    } else {
      assert recs[..n] == recs;
    }
  }

  lemma {:induction false} CountChanges(recs: seq<Rec>, n: nat)
    requires n <= |recs|
    ensures |Changes(recs[..n])| == Deltas(recs, n)
    decreases n
  {
    if n > 0 {
      CountChanges(recs, n - 1);
      ChangesMore(recs, n - 1);
    }
  }

  /** With honest bases the first n records, replayed from nothing, make the changes of the deltas among them. */
  lemma {:induction false} ReplayIsChanged(c: Codec, recs: seq<Rec>, n: nat)
    requires n <= |recs| && Honest(c, recs)
    ensures Replay(c, recs, n) == Changed(c, Changes(recs[..n]))
    decreases n
  {
    if n > 0 {
      ReplayIsChanged(c, recs, n - 1);
      ChangesMore(recs, n - 1);
      var before := Changes(recs[..n - 1]);
      if recs[n - 1].kind == DeltaRec {
        var p := recs[n - 1].payload;
        assert (before + [p])[..|before|] == before;
      } else {
        assert before + [] == before;
      }
    }
  }

  /** So version v is the first v changes made one after the other, and there are as many versions as changes. */
  lemma VersionIsChanged(c: Codec, recs: seq<Rec>, v: nat)
    ensures v == 0 || VersionSeq(recs, v).Some? <==> v <= |Changes(recs)|
    ensures Honest(c, recs) && v <= |Changes(recs)| ==>
              (v == 0 || VersionSeq(recs, v).Some?) && VersionImage(c, recs, v) == Changed(c, Changes(recs)[..v])
  {
    hide Replay, Changes, Made, Honest, SeqFrom;
    SeqRange(recs, v);
    assert recs[..|recs|] == recs;
    ChangesAre(recs, |recs|);
    if Honest(c, recs) && v <= |Changes(recs)| {
      if v == 0 {
        NothingChanged(c, recs);
      } else {
        var n := VersionSeq(recs, v).value + 1;
        ReplayIsChanged(c, recs, n);
        ChangesAre(recs, n);
        assert Changes(recs[..n]) == Changes(recs)[..v];
      }
    }
  }

  lemma NothingChanged(c: Codec, recs: seq<Rec>)
    ensures Changed(c, Changes(recs)[..0]) == EMPTY
  {
  }

  lemma {:induction false} MadeOn(c: Codec, im: Image, a: seq<int>, b: seq<int>)
    ensures Made(c, Made(c, im, a), b) == Made(c, im, a + b)
    decreases b
  {
    if b == [] {
      assert a + b == a;
    } else {
      MadeOn(c, im, a, b[..|b| - 1]);
      assert (a + b)[..|a + b| - 1] == a + b[..|b| - 1];
    }
  }

  lemma {:induction false} ChangesOn(a: seq<Rec>, b: seq<Rec>)
    ensures Changes(a + b) == Changes(a) + Changes(b)
    decreases b
  {
    if b == [] {
      assert a + b == a;
    } else {
      ChangesOn(a, b[..|b| - 1]);
      assert (a + b)[..|a + b| - 1] == a + b[..|b| - 1];
    }
  }

  /** From an honest base, or from the start, the records on make what all of them make. */
  lemma OnwardIs(c: Codec, recs: seq<Rec>, first: nat, end: nat)
    requires Honest(c, recs) && first <= end <= |recs| && (first == 0 || (first < end && IsBase(recs[first])))
    ensures Onward(c, recs, first, end) == Changed(c, Changes(recs[..end]))
  {
    var a, b := recs[..first], recs[first..end];
    assert recs[..end] == a + b;
    ChangesOn(a, b);
    MadeOn(c, EMPTY, Changes(a), Changes(b));
    if first == 0 { assert Changes(a) + Changes(b) == Changes(b); }
  }

  /** Honest bases are faithful. */
  lemma HonestFaithful(c: Codec, recs: seq<Rec>)
    requires Honest(c, recs)
    ensures Faithful(c, recs) && AllFaithful(c, recs)
  {
    forall i | 0 <= i < |recs| && IsBase(recs[i]) ensures c.decode(recs[i].payload) == Replay(c, recs, i) {
      ReplayIsChanged(c, recs, i);
    }
  }

  /** The number of the delta record that reaches version v. */
  function VersionSeq(recs: seq<Rec>, v: nat): (s: Option<nat>)
    ensures s.Some? ==>
            s.value < |recs| && recs[s.value].kind == DeltaRec
            && Deltas(recs, s.value) + 1 == v == Deltas(recs, s.value + 1)
    ensures s.None? ==> v == 0 || v > Deltas(recs, |recs|)
  {
    SeqFrom(recs, v, |recs|)
  }

  function SeqFrom(recs: seq<Rec>, v: nat, n: nat): (s: Option<nat>)
    requires n <= |recs|
    ensures s.Some? ==>
            s.value < n && recs[s.value].kind == DeltaRec
            && Deltas(recs, s.value) + 1 == v == Deltas(recs, s.value + 1)
    ensures s.None? ==> v == 0 || v > Deltas(recs, n)
  {
    if n == 0 then None
    else if recs[n - 1].kind == DeltaRec && Deltas(recs, n) == v then Some(n - 1)
    else SeqFrom(recs, v, n - 1)
  }

  /** The content of version v: everything up to the delta that reaches it. */
  function VersionImage(c: Codec, recs: seq<Rec>, v: nat): Image
    requires v == 0 || VersionSeq(recs, v).Some?
  {
    if v == 0 then EMPTY else Replay(c, recs, VersionSeq(recs, v).value + 1)
  }

  lemma {:induction false} DeltasGrow(recs: seq<Rec>, i: nat, j: nat)
    requires i <= j <= |recs|
    ensures Deltas(recs, i) <= Deltas(recs, j)
    decreases j
  {
    if i < j { DeltasGrow(recs, i, j - 1); }
  }

  /** The first entry with at least v deltas. */
  method SearchDeltas(entries: seq<Entry>, ghost recs: seq<Rec>, v: nat) returns (i: nat)
    requires IsEntries(entries, recs)
    ensures i <= |recs| && (Deltas(recs, i) < v || i == 0) && (i < |recs| ==> Deltas(recs, i + 1) >= v)
  {
    var lo, hi := 0, |entries|;
    while lo < hi
      invariant 0 <= lo <= hi <= |entries|
      invariant lo > 0 ==> entries[lo - 1].deltas < v
      invariant hi < |entries| ==> entries[hi].deltas >= v
    {
      var mid := lo + (hi - lo) / 2;
      if entries[mid].deltas >= v {
        hi := mid;
      } else {
        lo := mid + 1;
      }
    }
    i := lo;
  }

  /** Searching finds the delta that reaches v, or that there is none. */
  lemma FoundSeq(recs: seq<Rec>, v: nat, i: nat)
    requires v > 0 && i <= |recs| && (Deltas(recs, i) < v || i == 0) && (i < |recs| ==> Deltas(recs, i + 1) >= v)
    ensures VersionSeq(recs, v) == if i < |recs| then Some(i) else None
  {
    var s := VersionSeq(recs, v);
    if i == |recs| {
      if s.Some? { DeltasGrow(recs, s.value + 1, |recs|); NoDeltas(recs); }
    } else {
      DeltasGrow(recs, i + 1, |recs|);
      DeltaStep(recs, i);
      NoDeltas(recs);
      if s.value < i { DeltasGrow(recs, s.value + 1, i); }
      if s.value > i { DeltasGrow(recs, i + 1, s.value); }
    }
  }

  /** The newest base at or before record i, or record 0. */
  method BaseAtOrBefore(entries: seq<Entry>, ghost recs: seq<Rec>, i: nat) returns (b: nat)
    requires IsEntries(entries, recs) && i < |recs|
    ensures b <= i && (IsBase(recs[b]) || b == 0) && forall k :: b < k <= i ==> !IsBase(recs[k])
  {
    b := i;
    while b > 0 && entries[b].kind != KeyframeRec && entries[b].kind != SnapshotRec
      invariant b <= i && forall k :: b < k <= i ==> !IsBase(recs[k])
    {
      b := b - 1;
    }
  }

  /** Records first..last to read; from nothing, or on top of version `resume`. */
  datatype Plan = Plan(first: nat, last: nat, fromBase: bool, resume: nat)

  /** The image a plan gives on top of `start`. */
  function Execute(c: Codec, recs: seq<Rec>, start: Image, first: nat, n: nat): Image
    requires first <= n <= |recs|
    decreases n
  {
    if n == first then start else After(c, Execute(c, recs, start, first, n - 1), recs[n - 1])
  }

  /** A plan gives version v. */
  ghost predicate Right(c: Codec, recs: seq<Rec>, v: nat, p: Plan) {
    && (v == 0 || VersionSeq(recs, v).Some?) && p.first <= p.last + 1 <= |recs|
    && (!p.fromBase ==> p.resume == 0 || VersionSeq(recs, p.resume).Some?)
    && Execute(c, recs, if p.fromBase then EMPTY else VersionImage(c, recs, p.resume), p.first, p.last + 1)
        == VersionImage(c, recs, v)
  }

  lemma {:induction false} ExecuteFrom(c: Codec, recs: seq<Rec>, first: nat, n: nat)
    requires first <= n <= |recs|
    ensures Execute(c, recs, Replay(c, recs, first), first, n) == Replay(c, recs, n)
    decreases n
  {
    if first < n { ExecuteFrom(c, recs, first, n - 1); }
  }

  /** A base record forgets what was there before it. */
  lemma {:induction false} ExecuteBase(c: Codec, recs: seq<Rec>, start: Image, first: nat, n: nat)
    requires first < n <= |recs| && IsBase(recs[first])
    ensures Execute(c, recs, start, first, n) == Replay(c, recs, n)
    decreases n
  {
    if n > first + 1 {
      ExecuteBase(c, recs, start, first, n - 1);
    } else {
      assert Execute(c, recs, start, first, first) == start;
    }
  }

  /** The read plan of version v; `have` says for an earlier version whether it is cached, asked for at most
      maxProbe versions newer than the base, newest first. */
  method PlanVersion(entries: seq<Entry>, ghost recs: seq<Rec>, v: nat, have: Option<nat -> bool>, maxProbe: nat,
                     ghost c: Codec)
    returns (plan: Option<Plan>)
    requires IsEntries(entries, recs) && Faithful(c, recs)
    ensures plan.Some? <==> v > 0 && v <= Deltas(recs, |recs|)
    ensures plan.Some? ==>
            Right(c, recs, v, plan.value)
            && (!plan.value.fromBase ==> plan.value.resume > 0 && have.Some? && have.value(plan.value.resume))
    ensures plan.Some? ==> plan.value.last - VersionSeq(recs, v).value <= 1
  {
    hide Faithful, Execute, Replay, VersionSeq;
    if v == 0 {
      return None;
    }
    var i := SearchDeltas(entries, recs, v);
    FoundSeq(recs, v, i);
    SeqRange(recs, v);
    if i == |entries| {
      return None;
    }
    if i + 1 < |entries| && entries[i + 1].kind == KeyframeRec && entries[i + 1].deltas == v
       && entries[i + 1].tStart + entries[i + 1].tLen == entries[i].tStart + entries[i].tLen {
      KeyframePlan(c, recs, v, i);
      return Some(Plan(i + 1, i + 1, true, 0));
    }
    var base := BaseAtOrBefore(entries, recs, i);
    var baseV := if entries[base].kind == KeyframeRec || entries[base].kind == SnapshotRec then entries[base].deltas
        else 0;
    if have.Some? {
      var pv, probes := v - 1, maxProbe;
      while pv > baseV && probes > 0
        invariant pv < v
        decreases probes
      {
        probes := probes - 1;
        if have.value(pv) {
          var j := SearchDeltas(entries, recs, pv);
          FoundSeq(recs, pv, j);
          ResumePlan(c, recs, v, i, pv, j);
          return Some(Plan(j + 1, i, false, pv));
        }
        pv := pv - 1;
      }
    }
    BasePlan(c, recs, v, i, base);
    plan := Some(Plan(base, i, true, 0));
  }

  lemma SeqRange(recs: seq<Rec>, v: nat)
    ensures VersionSeq(recs, v).Some? <==> 0 < v <= Deltas(recs, |recs|)
  {
    var s := VersionSeq(recs, v);
    if s.Some? { DeltasGrow(recs, s.value + 1, |recs|); }
  }

  lemma KeyframePlan(c: Codec, recs: seq<Rec>, v: nat, i: nat)
    requires Faithful(c, recs) && VersionSeq(recs, v) == Some(i) && i + 1 < |recs| && recs[i + 1].kind == KeyframeRec
    ensures Right(c, recs, v, Plan(i + 1, i + 1, true, 0))
  {
    assert c.decode(recs[i + 1].payload) == Replay(c, recs, i + 1);
    assert Execute(c, recs, EMPTY, i + 1, i + 1) == EMPTY;
  }

  lemma ResumePlan(c: Codec, recs: seq<Rec>, v: nat, i: nat, pv: nat, j: nat)
    requires 0 < pv < v && VersionSeq(recs, v) == Some(i)
    requires VersionSeq(recs, pv) == if j < |recs| then Some(j) else None
    requires j <= |recs|
    ensures j < i && Right(c, recs, v, Plan(j + 1, i, false, pv))
  {
    hide Execute, Replay;
    DeltasGrow(recs, i, |recs|);
    if j >= i { DeltasGrow(recs, i + 1, if j < |recs| then j else |recs|); }
    ExecuteFrom(c, recs, j + 1, i + 1);
  }

  lemma BasePlan(c: Codec, recs: seq<Rec>, v: nat, i: nat, base: nat)
    requires VersionSeq(recs, v) == Some(i) && base <= i && (IsBase(recs[base]) || base == 0)
    ensures Right(c, recs, v, Plan(base, i, true, 0))
  {
    hide Execute;
    if IsBase(recs[base]) {
      ExecuteBase(c, recs, EMPTY, base, i + 1);
    } else {
      ExecuteFrom(c, recs, 0, i + 1);
    }
  }

  // --- executing a plan ---

  method ExecutePlan(c: Codec, recs: seq<Rec>, start: Image, first: nat, last: nat) returns (im: Image)
    requires first <= last + 1 <= |recs|
    ensures im == Execute(c, recs, start, first, last + 1)
  {
    im := start;
    var s := first;
    while s <= last
      invariant first <= s <= last + 1 && im == Execute(c, recs, start, first, s)
    {
      im := After(c, im, recs[s]);
      s := s + 1;
    }
  }

  /** Every cached image is the version's. */
  ghost predicate TrueCache(c: Codec, recs: seq<Rec>, cache: map<nat, Image>) {
    forall v <- cache :: v == 0 || (VersionSeq(recs, v).Some? && cache[v] == VersionImage(c, recs, v))
  }

  /** The content of version v, whatever the cache holds and whichever of its images (`gone`) it drops between
      planning and reading. */
  method ReadVersion(c: Codec, entries: seq<Entry>, recs: seq<Rec>, v: nat, cache: map<nat, Image>,
                     gone: set<nat>) returns (im: Option<Image>)
    requires IsEntries(entries, recs) && Faithful(c, recs) && TrueCache(c, recs, cache)
    ensures im.Some? <==> v == 0 || VersionSeq(recs, v).Some?
    ensures im.Some? ==> im.value == VersionImage(c, recs, v)
    ensures im.Some? <==> v <= |Changes(recs)|
    ensures im.Some? && Honest(c, recs) ==> im.value == Changed(c, Changes(recs)[..v])
  {
    VersionIsChanged(c, recs, v);
    hide Faithful, Execute, Replay, VersionSeq;
    SeqRange(recs, v);
    if v == 0 {
      return Some(EMPTY);
    }
    if v in cache {
      CachedStart(c, recs, cache, v);
      return Some(cache[v]);
    }
    var plan := PlanVersion(entries, recs, v, Some(pv => pv in cache), 8, c);
    if plan.None? {
      return None;
    }
    var start := EMPTY;
    if !plan.value.fromBase {
      if plan.value.resume in cache && plan.value.resume !in gone {
        start := cache[plan.value.resume];
        CachedStart(c, recs, cache, plan.value.resume);
      } else {
        plan := PlanVersion(entries, recs, v, None, 0, c);
      }
    }
    var out := ExecutePlan(c, recs, start, plan.value.first, plan.value.last);
    im := Some(out);
  }

  lemma CachedStart(c: Codec, recs: seq<Rec>, cache: map<nat, Image>, v: nat)
    requires TrueCache(c, recs, cache) && v in cache
    ensures v == 0 || (VersionSeq(recs, v).Some? && cache[v] == VersionImage(c, recs, v))
  {
  }

  // --- versions and content at a time ---

  /** How many records are effective at t. */
  method EndAt(entries: seq<Entry>, ghost recs: seq<Rec>, t: TimeMs) returns (n: nat)
    requires IsEntries(entries, recs) && InOrder(recs)
    ensures n <= |recs| && (forall i :: 0 <= i < n ==> TEnd(recs[i]) <= t) && forall i :: n <= i < |recs| ==>
              TEnd(recs[i]) > t
  {
    var lo, hi := 0, |entries|;
    while lo < hi
      invariant 0 <= lo <= hi <= |entries|
      invariant forall i :: 0 <= i < lo ==> TEnd(recs[i]) <= t
      invariant forall i :: hi <= i < |recs| ==> TEnd(recs[i]) > t
    {
      var mid := lo + (hi - lo) / 2;
      if entries[mid].tStart + entries[mid].tLen > t {
        forall i | mid <= i < |recs| ensures TEnd(recs[i]) > t { TimesGrow(recs, mid, i); }
        hi := mid;
      } else {
        forall i | 0 <= i <= mid ensures TEnd(recs[i]) <= t { TimesGrow(recs, i, mid); }
        lo := mid + 1;
      }
    }
    n := lo;
  }

  lemma {:induction false} TimesGrow(recs: seq<Rec>, i: nat, j: nat)
    requires InOrder(recs) && i <= j < |recs|
    ensures TEnd(recs[i]) <= TEnd(recs[j])
    decreases j
  {
    if i < j { TimesGrow(recs, i, j - 1); }
  }

  /** The deltas effective at t among the first n records. */
  function DeltasUpTo(recs: seq<Rec>, n: nat, t: TimeMs): nat
    requires n <= |recs|
  {
    if n == 0 then 0 else DeltasUpTo(recs, n - 1, t) + if recs[n - 1].kind == DeltaRec && TEnd(recs[n - 1]) <= t then 1
        else 0
  }

  lemma {:induction false} CountsAgree(recs: seq<Rec>, n: nat, end: nat, t: TimeMs)
    requires end <= |recs| && n <= |recs|
    requires (forall i :: 0 <= i < end ==> TEnd(recs[i]) <= t) && forall i :: end <= i < |recs| ==> TEnd(recs[i]) > t
    ensures DeltasUpTo(recs, n, t) == Deltas(recs, Min(n, end))
    decreases n
  {
    if n > 0 { CountsAgree(recs, n - 1, end, t); }
  }

  /** The version of a tile at t: how many deltas are effective. */
  method VersionAt(entries: seq<Entry>, ghost recs: seq<Rec>, t: TimeMs) returns (v: nat)
    requires IsEntries(entries, recs) && InOrder(recs)
    ensures v == DeltasUpTo(recs, |recs|, t)
  {
    var end := EndAt(entries, recs, t);
    CountsAgree(recs, |recs|, end, t);
    v := if end > 0 then entries[end - 1].deltas else 0;
  }

  /** Every base holds the image the records before it give. */
  ghost predicate AllFaithful(c: Codec, recs: seq<Rec>) {
    forall i :: 0 <= i < |recs| && IsBase(recs[i]) ==> c.decode(recs[i].payload) == Replay(c, recs, i)
  }

  /** Where bases are faithful, only deltas matter: after n records the image is that of the version reached. */
  lemma {:induction false} ReplayIsVersion(c: Codec, recs: seq<Rec>, n: nat)
    requires AllFaithful(c, recs) && n <= |recs|
    ensures var v := Deltas(recs, n);
            (v == 0 || VersionSeq(recs, v).Some?)
            && Replay(c, recs, n) == VersionImage(c, recs, v)
    decreases n
  {
    if n > 0 {
      ReplayIsVersion(c, recs, n - 1);
      if recs[n - 1].kind == DeltaRec {
        FoundSeq(recs, Deltas(recs, n), n - 1);
      } else if IsBase(recs[n - 1]) {
        assert c.decode(recs[n - 1].payload) == Replay(c, recs, n - 1);
      }
    }
  }

  /** The records from the newest base effective at t on: replayed from nothing they give the image of the
      version at t. */
  method Chain(c: Codec, entries: seq<Entry>, ghost recs: seq<Rec>, t: TimeMs) returns (first: nat, end: nat)
    requires IsEntries(entries, recs) && InOrder(recs) && AllFaithful(c, recs)
    ensures first <= end <= |recs| && (end == 0 <==> forall i :: 0 <= i < |recs| ==> TEnd(recs[i]) > t)
    ensures var v := DeltasUpTo(recs, |recs|, t);
            (v == 0 || VersionSeq(recs, v).Some?) && Execute(c, recs, EMPTY, first, end) == VersionImage(c, recs, v)
    ensures (forall i :: 0 <= i < end ==> TEnd(recs[i]) <= t) && forall i :: end <= i < |recs| ==> TEnd(recs[i]) > t
    ensures Honest(c, recs) ==> Onward(c, recs, first, end) == Changed(c, Changes(recs[..end]))
  {
    hide Execute, Replay, VersionSeq, AllFaithful;
    end := EndAt(entries, recs, t);
    CountsAgree(recs, |recs|, end, t);
    ReplayIsVersion(c, recs, end);
    ExecuteFrom(c, recs, 0, end);
    NothingReplayed(c, recs);
    first := 0;
    if end > 0 {
      first := BaseAtOrBefore(entries, recs, end - 1);
      if IsBase(recs[first]) {
        ExecuteBase(c, recs, EMPTY, first, end);
      }
    }
    if Honest(c, recs) { OnwardIs(c, recs, first, end); }
  }

  lemma NothingReplayed(c: Codec, recs: seq<Rec>)
    ensures Replay(c, recs, 0) == EMPTY
  {
  }

  /** The first entry effective at or after t. */
  method StartAt(entries: seq<Entry>, ghost recs: seq<Rec>, t: TimeMs) returns (n: nat)
    requires IsEntries(entries, recs) && InOrder(recs)
    ensures n <= |recs| && (forall i :: 0 <= i < n ==> TEnd(recs[i]) < t) && forall i :: n <= i < |recs| ==>
              TEnd(recs[i]) >= t
  {
    n := EndAt(entries, recs, t - 1);
  }

  datatype Point = Point(t: TimeMs, version: nat)

  /** Record k made version p.version effective at p.t. */
  predicate Reached(recs: seq<Rec>, k: nat, p: Point) { VersionSeq(recs, p.version) == Some(k) && TEnd(recs[k]) == p.t }

  /** The versions that became effective in [t0, t1), at most version max, oldest first. */
  method History(entries: seq<Entry>, ghost recs: seq<Rec>, t0: TimeMs, t1: TimeMs, max: nat) returns (out: seq<Point>)
    requires IsEntries(entries, recs) && InOrder(recs)
    ensures forall i, j :: 0 <= i < j < |out| ==> out[i].t <= out[j].t && out[i].version < out[j].version
    ensures forall p: Point :: p in out <==> t0 <= p.t < t1 && p.version <= max && exists k: nat :: Reached(recs, k, p)
  {
    hide VersionSeq, Deltas, InOrder;
    var i := StartAt(entries, recs, t0);
    ghost var start := i;
    out := [];
    while i < |entries| && entries[i].tStart + entries[i].tLen < t1
      invariant start <= i <= |entries|
      invariant forall k :: start <= k < i ==> TEnd(recs[k]) < t1
      invariant forall a, b :: 0 <= a < b < |out| ==> out[a].t <= out[b].t && out[a].version < out[b].version
      invariant forall p: Point :: p in out <==> p.version <= max && exists k: nat ::
                  start <= k < i && Reached(recs, k, p)
    {
      if entries[i].kind == DeltaRec && entries[i].deltas <= max {
        DeltaIs(recs, i);
        forall a | 0 <= a < |out|
          ensures out[a].t <= TEnd(recs[i]) && out[a].version < Deltas(recs, i + 1)
        {
          assert out[a] in out;
          var k: nat :| start <= k < i && Reached(recs, k, out[a]);
          Later(recs, i, k, out[a]);
        }
        assert Reached(recs, i, Point(TEnd(recs[i]), Deltas(recs, i + 1)));
        out := out + [Point(entries[i].tStart + entries[i].tLen, entries[i].deltas)];
      }
      NotDelta(recs, i);
      i := i + 1;
    }
    forall k | i <= k < |recs| ensures TEnd(recs[k]) >= t1 { TimesGrow(recs, i, k); }
  }

  lemma DeltaIs(recs: seq<Rec>, i: nat)
    requires i < |recs| && recs[i].kind == DeltaRec
    ensures VersionSeq(recs, Deltas(recs, i + 1)) == Some(i)
  {
    DeltaStep(recs, i);
    FoundSeq(recs, Deltas(recs, i + 1), i);
  }

  /** Only a delta reaches a version, and only its own. */
  lemma NotDelta(recs: seq<Rec>, i: nat)
    requires i < |recs|
    ensures forall v :: VersionSeq(recs, v) == Some(i) ==> recs[i].kind == DeltaRec && v == Deltas(recs, i + 1)
  {
  }

  lemma Later(recs: seq<Rec>, i: nat, k: nat, p: Point)
    requires InOrder(recs) && k < i < |recs| && recs[i].kind == DeltaRec && Reached(recs, k, p)
    ensures p.t <= TEnd(recs[i]) && p.version < Deltas(recs, i + 1)
  {
    TimesGrow(recs, k, i);
    DeltasGrow(recs, k + 1, i);
  }
}
