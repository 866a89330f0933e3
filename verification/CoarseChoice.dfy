/** When a coarse version is stored as a delta and when as a snapshot. */
module CoarseChoice {
  import opened Common
  import opened Pixels
  import opened TileDelta
  import opened CoarseSeries
  import TileCodec

  /** The deltas of a chain together are at most `ratio` times its snapshot's size. */
  predicate Within(deltas: nat, base: nat, ratio: real) { deltas as real <= ratio * base as real }

  /** So they are wherever a chain of the log ends. */
  ghost predicate Thrifty(log: Log, ratio: real) {
    forall v :: 1 <= v <= |log| && log[v - 1].Delta? ==> Within(DeltaBytes(log, v), BaseBytes(log, v), ratio)
  }

  /** The record chosen keeps that, and is a snapshot only when there is nothing to build on, the chain is full, half
      the pixels change, or a delta would not keep it. */
  lemma AppendThrifty(log: Log, t: TimeMs, prev: Option<Image>, next: Image, limit: nat, ratio: real, deltaSize: nat,
                      snapSize: nat)
    requires Thrifty(log, ratio)
    ensures var r := NextRec(log, t, prev, next, limit, ratio, deltaSize, snapSize);
            && r.t == t && Thrifty(log + [r], ratio)
            && (r.Snapshot? ==>
                  r.im == next && r.size == snapSize
                  && (prev == None || SinceBase(log, |log|) >= limit
                      || 2 * TileCodec.Changed(prev.value, next, 0) >= PIXELS
                      || !Thrifty(log + [Delta(t, deltaSize, EncodeCoarse(prev.value, next))], ratio)))
            && (r.Delta? ==> r.size == deltaSize && prev.Some? && SinceBase(log, |log|) < limit
                             && 2 * TileCodec.Changed(prev.value, next, 0) < PIXELS)
  {
    hide EncodeCoarse, TileCodec.Changed, Thrifty, SinceBase, DeltaBytes, BaseBytes;
    ThriftyOne(log, NextRec(log, t, prev, next, limit, ratio, deltaSize, snapSize), ratio);
    if prev.Some? { ThriftyOne(log, Delta(t, deltaSize, EncodeCoarse(prev.value, next)), ratio); }
  }

  lemma ThriftyOne(log: Log, r: Rec, ratio: real)
    requires Thrifty(log, ratio)
    ensures Thrifty(log + [r], ratio) <==>
            (r.Delta? ==> Within(DeltaBytes(log, |log|) + r.size, BaseBytes(log, |log|), ratio))
  {
    hide Within, DeltaBytes, BaseBytes;
    var log' := log + [r];
    forall v | 0 <= v <= |log|
      ensures DeltaBytes(log', v) == DeltaBytes(log, v) && BaseBytes(log', v) == BaseBytes(log, v)
    {
      SinceBasePrefix(log, [r], v);
    }
    assert log'[|log|] == r && |log'| == |log| + 1;
    OneMore(log');
    if Thrifty(log', ratio) && r.Delta? {
      assert Within(DeltaBytes(log', |log| + 1), BaseBytes(log', |log| + 1), ratio);
    }
  }

  lemma OneMore(log: Log)
    requires log != []
    ensures log[|log| - 1].Delta? ==>
              DeltaBytes(log, |log|) == DeltaBytes(log, |log| - 1) + log[|log| - 1].size
              && BaseBytes(log, |log|) == BaseBytes(log, |log| - 1)
  {
  }

  function Sizes(log: Log): nat { if log == [] then 0 else log[0].size + Sizes(log[1..]) }

  lemma {:induction false} SizesSnoc(log: Log, r: Rec)
    ensures Sizes(log + [r]) == Sizes(log) + r.size
    decreases log
  {
    if log == [] {
      assert log + [r] == [r];
    } else {
      assert (log + [r])[1..] == log[1..] + [r];
      SizesSnoc(log[1..], r);
    }
  }

  /** A chain is the deltas behind the last snapshot: their number, their bytes together, and the snapshot's. */
  lemma {:induction false} ChainIs(log: Log, b: nat, v: nat)
    requires 1 <= b <= v <= |log| && log[b - 1].Snapshot? && forall i: nat :: b <= i < v ==> log[i].Delta?
    ensures SinceBase(log, v) == v - b && DeltaBytes(log, v) == Sizes(log[b..v]) && BaseBytes(log, v) == log[b - 1].size
    decreases v
  {
    if v > b {
      ChainIs(log, b, v - 1);
      assert log[b..v] == log[b..v - 1] + [log[v - 1]];
      SizesSnoc(log[b..v - 1], log[v - 1]);
    }
  }
}
