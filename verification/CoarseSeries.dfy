/** The series of one coarse tile: snapshots and deltas, how a version is read back from its chain, and
    how the next record is chosen. */
module CoarseSeries {
  import opened Common
  import opened Pixels
  import opened TileDelta
  import DeltaCodec
  import TileCodec

  /** Record v - 1 holds version v, effective at t. `size` is the compressed payload's length. */
  datatype Rec =
    | Snapshot(t: TimeMs, size: nat, im: Image)
    | Delta(t: TimeMs, size: nat, raw: seq<DeltaCodec.Byte>)

  type Log = seq<Rec>

  /** The image after one more record; None when it does not decode. */
  function Replay(im: Option<Image>, r: Rec): Option<Image> {
    match r
    case Snapshot(_, _, snap) => Some(snap)
    case Delta(_, _, raw) => if im.None? then None else Apply(im.value, raw, true, None)
  }

  /** The content of version v: all records up to it, replayed from nothing. */
  function Content(log: Log, v: nat): Option<Image>
    requires v <= |log|
  {
    if v == 0 then None else Replay(Content(log, v - 1), log[v - 1])
  }

  lemma {:induction false} ContentPrefix(log: Log, more: Log, v: nat)
    requires v <= |log|
    ensures Content(log + more, v) == Content(log, v)
    decreases v
  {
    hide Replay;
    if v > 0 {
      ContentPrefix(log, more, v - 1);
      assert (log + more)[v - 1] == log[v - 1];
    }
  }

  /** Deltas since the newest snapshot of the first v records. */
  function SinceBase(log: Log, v: nat): nat
    requires v <= |log|
  {
    if v == 0 || log[v - 1].Snapshot? then 0 else 1 + SinceBase(log, v - 1)
  }

  function DeltaBytes(log: Log, v: nat): nat
    requires v <= |log|
  {
    if v == 0 || log[v - 1].Snapshot? then 0 else log[v - 1].size + DeltaBytes(log, v - 1)
  }

  function BaseBytes(log: Log, v: nat): nat
    requires v <= |log|
  {
    if v == 0 then 0 else if log[v - 1].Snapshot? then log[v - 1].size else BaseBytes(log, v - 1)
  }

  /** Every version decodes, times increase, and no chain has more than `limit` deltas. */
  ghost predicate Sound(log: Log, limit: nat) {
    && (forall v :: 1 <= v <= |log| ==> Content(log, v).Some? && SinceBase(log, v) <= limit)
    && (forall i, j :: 0 <= i < j < |log| ==> log[i].t < log[j].t)
  }

  /** How many of the first n records are effective at t: the version of a tile at t. */
  function CountAt(log: Log, n: nat, t: TimeMs): (v: nat)
    requires n <= |log|
    ensures v <= n
  {
    if n == 0 then 0 else if log[n - 1].t <= t then n else CountAt(log, n - 1, t)
  }

  lemma {:induction false} CountIs(log: Log, n: nat, t: TimeMs, v: nat)
    requires v <= n <= |log|
    requires forall i :: 0 <= i < v ==> log[i].t <= t
    requires forall i :: v <= i < n ==> log[i].t > t
    ensures CountAt(log, n, t) == v
    decreases n
  {
    if n > v { CountIs(log, n - 1, t, v); }
  }

  /** Binary search for the number of the first n records effective at t. */
  method VersionAt(log: Log, n: nat, t: TimeMs) returns (v: nat)
    requires n <= |log| && forall i, j :: 0 <= i < j < |log| ==> log[i].t < log[j].t
    ensures v == CountAt(log, n, t)
  {
    var lo, hi := 0, n;
    while lo < hi
      invariant 0 <= lo <= hi <= n
      invariant forall i :: 0 <= i < lo ==> log[i].t <= t
      invariant forall i :: hi <= i < n ==> log[i].t > t
    {
      var mid := lo + (hi - lo) / 2;
      if log[mid].t > t {
        hi := mid;
      } else {
        lo := mid + 1;
      }
    }
    CountIs(log, n, t, lo);
    v := lo;
  }

  /** The version at t of a tile whose first n records are published: the ends are answered without the series. */
  method PublishedAt(log: Log, n: nat, t: TimeMs) returns (v: nat)
    requires 0 < n <= |log| && forall i, j :: 0 <= i < j < |log| ==> log[i].t < log[j].t
    ensures v == CountAt(log, n, t)
  {
    if t >= log[n - 1].t {
      return n;
    }
    if t < log[0].t {
      CountIs(log, n, t, 0);
      return 0;
    }
    v := VersionAt(log, n, t);
  }

  /** The first record of the chain of version v. */
  function BaseOf(log: Log, v: nat): (b: nat)
    requires 1 <= v <= |log|
    ensures b < v && SinceBase(log, v) >= v - 1 - b
    ensures Content(log, v).Some? ==> log[b].Snapshot? && SinceBase(log, v) == v - 1 - b
    decreases v
  {
    assert Content(log, 0) == None;
    if log[v - 1].Snapshot? || v == 1 then v - 1 else BaseOf(log, v - 1)
  }

  lemma SnapshotIs(log: Log, b: nat)
    requires b < |log| && log[b].Snapshot?
    ensures Content(log, b + 1) == Some(log[b].im)
  {}

  /** Reads version v by replaying the records from its base on, at most limit + 1 of them. */
  method Read(log: Log, limit: nat, v: nat) returns (im: Image)
    requires Sound(log, limit) && v <= |log|
    ensures v == 0 ==> im == UNCHARTED
    ensures v > 0 ==> Content(log, v) == Some(im) && v - BaseOf(log, v) <= limit + 1
  {
    if v == 0 {
      return UNCHARTED;
    }
    hide Replay, DeltaBytes, BaseBytes;
    var last := VersionAt(log, |log|, log[v - 1].t);
    CountIs(log, |log|, log[v - 1].t, v);
    assert Content(log, v).Some? && SinceBase(log, v) <= limit;
    var base := BaseOf(log, v);
    assert log[base].Snapshot?;
    im := log[base].im;
    assert Content(log, base + 1) == Some(im) by { SnapshotIs(log, base); }
    var s := base + 1;
    while s < last
      invariant base < s <= last == v && Content(log, s) == Some(im)
    {
      assert Content(log, s + 1) == Replay(Some(im), log[s]) && Content(log, s + 1).Some?;
      im := ReadRec(im, log[s]);
      s := s + 1;
    }
  }

  /** One record more. */
  method ReadRec(im: Image, r: Rec) returns (next: Image)
    requires Replay(Some(im), r).Some?
    ensures Replay(Some(im), r) == Some(next)
  {
    hide Apply;
    match r {
      case Snapshot(_, _, snap) => next := snap;
      case Delta(_, _, raw) =>
        var out := new Pixel[PIXELS](i requires 0 <= i < PIXELS => im[i]);
        assert out[..] == im;
        var ok := TileCodec.ApplyDelta(raw, out);
        next := out[..];
    }
  }

  /** A delta is written while the chain is short, fewer than half the pixels change, and the deltas since
      the snapshot stay within `ratio` of its size; else a snapshot. deltaSize and snapSize are the
      compressed lengths of the two. */
  function NextRec(log: Log, t: TimeMs, prev: Option<Image>, next: Image, limit: nat, ratio: real, deltaSize: nat,
                   snapSize: nat): Rec {
    if && prev.Some? && SinceBase(log, |log|) < limit && TileCodec.Changed(prev.value, next, 0) * 2 < PIXELS
       && (DeltaBytes(log, |log|) + deltaSize) as real <= ratio * BaseBytes(log, |log|) as real
    then Delta(t, deltaSize, EncodeCoarse(prev.value, next)) else Snapshot(t, snapSize, next)
  }

  /** The record chosen for `next` makes it the content of the next version and leaves the others alone. */
  lemma AppendSound(log: Log, t: TimeMs, next: Image, limit: nat, ratio: real, deltaSize: nat, snapSize: nat)
    requires Sound(log, limit) && (log != [] ==> log[|log| - 1].t < t)
    ensures var prev := if log == [] then None else Content(log, |log|);
            var log' := log + [NextRec(log, t, prev, next, limit, ratio, deltaSize, snapSize)];
            Sound(log', limit) && Content(log', |log'|) == Some(next) && forall v :: 0 <= v <= |log| ==>
                Content(log', v) == Content(log, v)
  {
    hide EncodeCoarse, Apply, TileCodec.Changed;
    var prev := if log == [] then None else Content(log, |log|);
    var r := NextRec(log, t, prev, next, limit, ratio, deltaSize, snapSize);
    var log' := log + [r];
    forall v | 0 <= v <= |log|
      ensures Content(log', v) == Content(log, v) && SinceBase(log', v) == SinceBase(log, v)
    {
      ContentPrefix(log, [r], v);
      SinceBasePrefix(log, [r], v);
    }
    if r.Delta? {
      CoarseRoundTrip(prev.value, next);
    }
    assert Content(log', |log'|) == Replay(Content(log, |log|), r);
  }

  lemma {:induction false} SinceBasePrefix(log: Log, more: Log, v: nat)
    requires v <= |log|
    ensures SinceBase(log + more, v) == SinceBase(log, v)
    ensures DeltaBytes(log + more, v) == DeltaBytes(log, v) && BaseBytes(log + more, v) == BaseBytes(log, v)
    decreases v
  {
    if v > 0 { SinceBasePrefix(log, more, v - 1); }
  }

  /** Cutting a sound log keeps the versions it still has. */
  lemma PrefixSound(log: Log, k: nat, limit: nat)
    requires Sound(log, limit) && k <= |log|
    ensures Sound(log[..k], limit) && forall v :: 0 <= v <= k ==> Content(log[..k], v) == Content(log, v)
  {
    hide Replay;
    forall v | 0 <= v <= k
      ensures Content(log[..k], v) == Content(log, v) && SinceBase(log[..k], v) == SinceBase(log, v)
    {
      assert log == log[..k] + log[k..];
      ContentPrefix(log[..k], log[k..], v);
      SinceBasePrefix(log[..k], log[k..], v);
    }
  }

  /** The bookkeeping a builder keeps about a series. */
  datatype Books = Books(count: nat, last: TimeMs, sinceBase: nat, deltaBytes: nat, baseBytes: nat)

  const NEVER: TimeMs := -0x8000_0000_0000_0000

  function BooksOf(log: Log, n: nat): Books
    requires n <= |log|
  {
    Books(n, if n == 0 then NEVER else log[n - 1].t, SinceBase(log, n), DeltaBytes(log, n), BaseBytes(log, n))
  }

  /** Reads the bookkeeping back from the series. */
  method LoadState(log: Log) returns (b: Books)
    ensures b == BooksOf(log, |log|)
  {
    b := Books(|log|, NEVER, 0, 0, 0);
    if |log| == 0 {
      return;
    }
    b := b.(last := log[|log| - 1].t);
    var s := |log|;
    while s > 0
      invariant 0 <= s <= |log| && b.count == |log| && b.last == log[|log| - 1].t && b.baseBytes == 0
      invariant SinceBase(log, |log|) == b.sinceBase + SinceBase(log, s)
      invariant DeltaBytes(log, |log|) == b.deltaBytes + DeltaBytes(log, s)
      invariant BaseBytes(log, |log|) == BaseBytes(log, s)
    {
      if log[s - 1].Snapshot? {
        b := b.(baseBytes := log[s - 1].size);
        return;
      }
      b := b.(sinceBase := b.sinceBase + 1, deltaBytes := b.deltaBytes + log[s - 1].size);
      s := s - 1;
    }
  }

  /** The counters kept in memory while records are appended are those a reload would read. */
  lemma BooksKept(log: Log, r: Rec)
    ensures var b := BooksOf(log, |log|);
            BooksOf(log + [r], |log| + 1)
            == if r.Snapshot? then Books(b.count + 1, r.t, 0, 0, r.size)
               else Books(b.count + 1, r.t, b.sinceBase + 1, b.deltaBytes + r.size, b.baseBytes)
  {
    SinceBasePrefix(log, [r], |log|);
  }
}
