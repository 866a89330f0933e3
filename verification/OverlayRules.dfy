/** The rules of overlay events, and what the log they write means: at each time, each object's interval is the one
    its newest event by then opened. */
module OverlayRules {
  import opened Common
  import opened OverlayLog

  const MAX_KEY := 1024
  const MAX_TEXT := 16 * 1024

  /** `finite` says that the position is a finite number. */
  datatype Event = Event(t: TimeMs, close: bool, finite: bool, content: Content)

  function TextBytes(text: seq<string>): nat { if text == [] then 0 else |text[0]| + TextBytes(text[1..]) }

  predicate ValidEvent(e: Event) {
    && !e.content.key.kind.Unknown? && 0 < |e.content.key.name| <= MAX_KEY
    && (!e.close ==> e.finite && TextBytes(e.content.text) <= MAX_TEXT && ValidTile(ContentTile(e.content)))
  }

  /** What an event must be to be taken: of a known kind, with a name of 1 to 1024 characters; and unless it closes its
      object, at a finite place in the grid, 2048 tiles of 512 around the one from -256 to 256, with texts of at most
      16 KiB together. */
  predicate Proper(e: Event) {
    var c := e.content;
    && (c.key.kind.Tag? || c.key.kind.Recipe? || c.key.kind.Rail?) && 1 <= |c.key.name| <= 1024
    && (!e.close ==>
          e.finite && TextBytes(c.text) <= 16_384
          && -1_048_832.0 <= c.x < 1_048_832.0 && -1_048_832.0 <= c.y < 1_048_832.0)
  }

  lemma ValidIsProper(e: Event)
    ensures ValidEvent(e) <==> Proper(e)
  {
    FloorBetween((e.content.x + 256.0) / 512.0, -2048, 2048);
    FloorBetween((e.content.y + 256.0) / 512.0, -2048, 2048);
  }

  lemma FloorBetween(x: real, a: int, b: int)
    ensures a <= x.Floor <= b <==> a as real <= x < b as real + 1.0
  {
  }

  /** The texts' lengths add up. */
  lemma {:induction false} TextAdds(text: seq<string>, more: string)
    ensures TextBytes(text + [more]) == TextBytes(text) + |more| && TextBytes([]) == 0
    decreases text
  {
    if text != [] {
      TextAdds(text[1..], more);
      assert (text + [more])[1..] == text[1..] + [more];
    }
  }

  /** The event is older than its key's open interval. */
  predicate Late(log: Log, e: Event)
    requires Good(log)
  {
    CurrentOk(log);
    e.content.key in Current(log) && e.t < Intervals(log)[Current(log)[e.content.key]].start
  }

  /** The key's open interval has the event's content. */
  predicate Same(log: Log, e: Event)
    requires Good(log)
  {
    CurrentOk(log);
    !e.close && e.content.key in Current(log) && Intervals(log)[Current(log)[e.content.key]].content == e.content
  }

  /** The records an event adds to the log. */
  function Recs(log: Log, e: Event): seq<Rec>
    requires Good(log)
  {
    if !ValidEvent(e) || Late(log, e) || Same(log, e) then [] else
      (if e.content.key in Current(log) then [End(Current(log)[e.content.key], e.t)] else [])
      + (if e.close then [] else [Open(|Intervals(log)|, e.t, e.content)])
  }

  lemma RecsGood(log: Log, e: Event)
    requires Good(log)
    ensures Good(log + Recs(log, e))
  {
    var rs := Recs(log, e);
    CurrentOk(log);
    if rs == [] {
      assert log + rs == log;
    } else {
      Extend(log, rs[0]);
      assert log + rs[..1] == log + [rs[0]];
      if |rs| == 2 {
        Extend(log + [rs[0]], rs[1]);
        assert log + rs == log + [rs[0]] + [rs[1]];
      } else {
        assert log + rs == log + [rs[0]];
      }
    }
  }

  /** The log of all events. */
  function Written(es: seq<Event>): (log: Log)
    ensures Good(log)
  {
    if es == [] then [] else
      var p := Written(es[..|es| - 1]);
      RecsGood(p, es[|es| - 1]);
      p + Recs(p, es[|es| - 1])
  }

  lemma WrittenMore(es: seq<Event>, e: Event)
    ensures Written(es + [e]) == Written(es) + Recs(Written(es), e)
  {
    assert (es + [e])[..|es|] == es;
  }

  /** The first of an event's two records is what its close writes. */
  lemma CutRecs(log: Log, e: Event)
    requires Good(log) && |Recs(log, e)| == 2
    ensures Recs(log, e.(close := true)) == Recs(log, e)[..1]
  {}

  lemma FewRecs(log: Log, e: Event)
    requires Good(log)
    ensures |Recs(log, e)| <= 2
  {}

  /** However a write of the log was torn, what is left is the log of some events: the ones before, and at most one
      close in the place of the event that was cut. */
  lemma {:induction false} TornIs(es: seq<Event>, n: nat) returns (left: seq<Event>)
    requires n <= |Written(es)|
    ensures Written(left) == Written(es)[..n]
    ensures |left| <= |es| && forall i :: 0 <= i < |left| ==>
              left[i] == es[i] || (i == |left| - 1 && left[i] == es[i].(close := true))
  {
    hide Good, Recs;
    if n == |Written(es)| {
      assert Written(es)[..n] == Written(es);
      return es;
    }
    var p, e := es[..|es| - 1], es[|es| - 1];
    var log := Written(p);
    if n <= |log| {
      left := TornIs(p, n);
      assert Written(es)[..n] == log[..n];
    } else {
      var c := e.(close := true);
      left := p + [c];
      WrittenMore(p, c);
      FewRecs(log, e);
      CutRecs(log, e);
      assert Written(es)[..n] == log + Recs(log, e)[..1];
    }
  }

  // --- what it means ---

  /** When each interval was ended, by ordinal. */
  function Ends(log: Log): seq<Option<TimeMs>> {
    if log == [] then [] else
      var p := Ends(log[..|log| - 1]);
      match log[|log| - 1]
      case Open(ord, start, c) => p + [None]
      case End(ord, t) => if ord < |p| then p[ord := Some(t)] else p
  }

  lemma {:induction false} EndsOk(log: Log)
    requires Good(log)
    ensures |Ends(log)| == |Intervals(log)|
    ensures forall i: nat :: i < |Ends(log)| ==> Intervals(log)[i].end == if Ends(log)[i].Some? then Ends(log)[i].value
              else 0
    ensures forall i: nat :: i < |Ends(log)| ==>
              var k := Intervals(log)[i].content.key; Ends(log)[i].None? <==> k in Current(log) && Current(log)[k] == i
  {
    if log != [] {
      EndsOk(log[..|log| - 1]);
      CurrentOk(log[..|log| - 1]);
    }
  }

  predicate Of(log: Log, i: nat, k: Key) { i < |Intervals(log)| && Intervals(log)[i].content.key == k }

  /** Interval i holds at t. */
  predicate Holds(log: Log, i: nat, t: TimeMs)
    requires Good(log) && i < |Intervals(log)|
  {
    EndsOk(log);
    Intervals(log)[i].start <= t && (Ends(log)[i].Some? ==> t < Ends(log)[i].value)
  }

  /** The newest valid event of the key at or before t: what it opened, nothing for a close. */
  function At(es: seq<Event>, k: Key, t: TimeMs): Option<Content> {
    if es == [] then None else
      var e := es[|es| - 1];
      if Proper(e) && e.content.key == k && e.t <= t then if e.close then None else Some(e.content)
      else At(es[..|es| - 1], k, t)
  }

  /** The key's valid events come in the order of their times. */
  ghost predicate Ordered(es: seq<Event>, k: Key) {
    forall i: nat, j: nat :: i < j < |es| && Mine(es[i], k) && Mine(es[j], k) ==> es[i].t <= es[j].t
  }

  predicate Mine(e: Event, k: Key) { Proper(e) && e.content.key == k }

  /** No event of the key is later than t. */
  ghost predicate UpTo(es: seq<Event>, k: Key,
                       t: TimeMs) { forall i: nat :: i < |es| && Mine(es[i], k) ==> es[i].t <= t }

  /** At t the log has an interval of the key exactly when the content is there, that one, and no second one. */
  ghost predicate Means(log: Log, k: Key, t: TimeMs, c: Option<Content>)
    requires Good(log)
  {
    && (forall i: nat :: Of(log, i, k) && Holds(log, i, t) ==> c == Some(Intervals(log)[i].content))
    && (c.Some? ==> exists i: nat :: Of(log, i, k) && Holds(log, i, t))
    && (forall i: nat, j: nat :: Of(log, i, k) && Holds(log, i, t) && Of(log, j, k) && Holds(log, j, t) ==> i == j)
  }

  /** No interval of the key starts or ends after T, and none ends before it starts. */
  ghost predicate Settled(log: Log, k: Key, T: TimeMs)
    requires Good(log)
  {
    EndsOk(log);
    forall i: nat :: Of(log, i, k) ==>
        Intervals(log)[i].start <= T
        && (Ends(log)[i].Some? ==> Intervals(log)[i].start <= Ends(log)[i].value <= T)
  }

  lemma StepEnd(log: Log, r: Rec, k: Key, t: TimeMs, T0: TimeMs, c: Option<Content>)
    requires Good(log) && Follows(log, r) && r.End? && Settled(log, k, T0) && Means(log, k, t, c)
    requires Of(log, r.ord, k) ==> T0 <= r.t
    ensures Good(log + [r]) && Settled(log + [r], k, if Of(log, r.ord, k) then r.t else T0)
    ensures Means(log + [r], k, t, if Of(log, r.ord, k) && r.t <= t then None else c)
    ensures Of(log, r.ord, k) ==> k !in Current(log + [r])
  {
    Extend(log, r);
    EndsOk(log);
    EndsOk(log + [r]);
    var log' := log + [r];
    forall i: nat | Of(log', i, k) ensures Of(log, i, k)
        && (Holds(log', i, t) <==> Holds(log, i, t) && !(i == r.ord && r.t <= t)) {}
    if Of(log, r.ord, k) && r.t <= t {
      assert Holds(log, r.ord, t);
    }
    if c.Some? && !(Of(log, r.ord, k) && r.t <= t) {
      var i: nat :| Of(log, i, k) && Holds(log, i, t);
      assert Of(log', i, k) && Holds(log', i, t);
    }
  }

  lemma StepOpen(log: Log, r: Rec, k: Key, t: TimeMs, T0: TimeMs, c: Option<Content>)
    requires Good(log) && Follows(log, r) && r.Open? && Settled(log, k, T0) && Means(log, k, t, c)
    requires r.content.key == k ==> T0 <= r.start
    ensures Good(log + [r]) && Settled(log + [r], k, if r.content.key == k then r.start else T0)
    ensures Means(log + [r], k, t, if r.content.key == k && r.start <= t then Some(r.content) else c)
  {
    Extend(log, r);
    EndsOk(log);
    EndsOk(log + [r]);
    var log' := log + [r];
    var n := |Intervals(log)|;
    forall i: nat | i < n ensures Of(log', i, k) == Of(log, i, k)
        && (Of(log, i, k) ==> Holds(log', i, t) == Holds(log, i, t)) {}
    if r.content.key == k && r.start <= t {
      forall i: nat | Of(log, i, k) ensures !Holds(log, i, t) {}
      assert Of(log', n, k) && Holds(log', n, t);
    } else if c.Some? {
      var i: nat :| Of(log, i, k) && Holds(log, i, t);
      assert Of(log', i, k) && Holds(log', i, t);
    }
  }

  /** What one event in order does: from its time on its key is what it says, and nothing else changes. */
  lemma StepEvent(log: Log, e: Event, k: Key, t: TimeMs, T0: TimeMs, c: Option<Content>)
    requires Good(log) && Settled(log, k, T0) && Means(log, k, t, c) && (Mine(e, k) ==> T0 <= e.t)
    ensures var log' := log + Recs(log, e); var mine := Mine(e, k);
            Good(log') && Settled(log', k, if mine then e.t else T0)
            && Means(log', k, t, if mine && e.t <= t then (if e.close then None else Some(e.content)) else c)
    ensures Mine(e, k) ==> !Late(log, e)
  {
    ValidIsProper(e);
    CurrentOk(log);
    EndsOk(log);
    var rs := Recs(log, e);
    if Mine(e, k) && k in Current(log) {
      assert Of(log, Current(log)[k], k);
    }
    if rs == [] {
      assert log + rs == log;
      if Mine(e, k) && e.t <= t {
        if e.close {
          forall i: nat | Of(log, i, k) ensures !Holds(log, i, t) {}
        } else {
          assert Holds(log, Current(log)[k], t);
        }
      }
    } else if rs[0].Open? {
      StepOpen(log, rs[0], k, t, T0, c) by { Extend(log, rs[0]); RecsGood(log, e); assert rs == [rs[0]]; }
      assert log + rs == log + [rs[0]];
    } else {
      StepEvent2(log, e, k, t, T0, c);
    }
  }

  lemma StepEvent2(log: Log, e: Event, k: Key, t: TimeMs, T0: TimeMs, c: Option<Content>)
    requires Good(log) && Settled(log, k, T0) && Means(log, k, t, c) && (Mine(e, k) ==> T0 <= e.t)
    requires Recs(log, e) != [] && Recs(log, e)[0].End?
    ensures var log' := log + Recs(log, e); var mine := Mine(e, k);
            Good(log') && Settled(log', k, if mine then e.t else T0)
            && Means(log', k, t, if mine && e.t <= t then (if e.close then None else Some(e.content)) else c)
  {
    hide Settled, Means;
    CurrentOk(log);
    var rs := Recs(log, e);
    var mine := Mine(e, k);
    var log1 := log + [rs[0]];
    StepEnd(log, rs[0], k, t, T0, c);
    if e.close {
      assert log + rs == log1;
    } else {
      Extend(log, rs[0]);
      assert log + rs == log1 + [rs[1]];
      StepOpen(log1, rs[1], k, t, if mine then e.t else T0, if mine && e.t <= t then None else c) by {
        RecsGood(log, e); Extend(log1, rs[1]);
      }
    }
  }

  /** For events in order the log means what the events say: at every time an object has one interval with the
      content its newest event by then opened, or none. */
  lemma {:induction false} LogMeans(es: seq<Event>, k: Key, t: TimeMs, T0: TimeMs)
    requires Ordered(es, k) && UpTo(es, k, T0)
    ensures Means(Written(es), k, t, At(es, k, t)) && Settled(Written(es), k, T0)
  {
    hide Means, Recs, Good;
    if es == [] {
      NothingMeans(k, t, T0);
    } else {
      var p, e := es[..|es| - 1], es[|es| - 1];
      var T1 := if Mine(e, k) then e.t else T0;
      LogMeans(p, k, t, T1);
      StepEvent(Written(p), e, k, t, T1, At(p, k, t));
    }
  }

  lemma NothingMeans(k: Key, t: TimeMs, T0: TimeMs)
    ensures Means([], k, t, None) && Settled([], k, T0)
  {}

  /** None of them is late. */
  lemma InOrderIsNotLate(es: seq<Event>, i: nat)
    requires i < |es| && Proper(es[i]) && Ordered(es, es[i].content.key)
    ensures !Late(Written(es[..i]), es[i])
  {
    var e := es[i];
    LogMeans(es[..i], e.content.key, e.t, e.t);
    StepEvent(Written(es[..i]), e, e.content.key, e.t, e.t, At(es[..i], e.content.key, e.t));
  }

  // --- queries ---

  predicate Overlaps(iv: Interval, t0: TimeMs, t1: TimeMs) { iv.start < t1 && (iv.end == 0 || iv.end > t0) }

  /** A query at a point finds an interval that does not hold then exactly when the interval was ended at time zero,
      which is kept as still open, and started before the point, at zero or later. */
  lemma PointQuery(log: Log, i: nat, t: TimeMs)
    requires Good(log) && i < |Intervals(log)|
    ensures Overlaps(Intervals(log)[i], t, t + 1) <==>
              Holds(log, i, t) || (Intervals(log)[i].start <= t && t >= 0 && Ended(log, i) == Some(0))
  {
    EndsOk(log);
  }

  function Ended(log: Log, i: nat): Option<TimeMs>
    requires Good(log) && i < |Intervals(log)|
  {
    EndsOk(log);
    Ends(log)[i]
  }

  /** An object closed at time zero is found at every time after. */
  lemma ClosedAtZeroStaysOpen(c: Content)
    requires ValidEvent(Event(-1, false, true, c))
    ensures var es := [Event(-1, false, true, c), Event(0, true, true, c)]; var log := Written(es);
            Ordered(es, c.key) && At(es, c.key, 5) == None && |Intervals(log)| == 1 && Intervals(log)[0].content == c
                && Overlaps(Intervals(log)[0], 5, 6)
  {
    hide Written, ValidEvent, Proper, Good, Intervals;
    var e0, e1 := Event(-1, false, true, c), Event(0, true, true, c);
    ZeroWritten(c);
    ValidIsProper(e0);
    ClosesToo(e0);
    assert Proper(e1);
    assert [e0, e1][..1] == [e0];
  }

  lemma ClosesToo(e: Event)
    requires Proper(e)
    ensures Proper(Event(0, true, true, e.content))
  {
  }

  lemma ZeroWritten(c: Content)
    requires ValidEvent(Event(-1, false, true, c))
    ensures var log := Written([Event(-1, false, true, c), Event(0, true, true, c)]);
            |Intervals(log)| == 1 && Intervals(log)[0] == Interval(c, -1, 0)
  {
    var e0, e1 := Event(-1, false, true, c), Event(0, true, true, c);
    assert [e0, e1][..1] == [e0] && [e0][..0] == [];
    assert Written([e0]) == [] + Recs([], e0) == [Open(0, -1, c)];
    Extend([], Open(0, -1, c));
    assert [] + [Open(0, -1, c)] == [Open(0, -1, c)];
    assert Current([Open(0, -1, c)]) == map[c.key := 0] && Intervals([Open(0, -1, c)]) == [Interval(c, -1, 0)];
    assert Written([e0, e1]) == [Open(0, -1, c), End(0, 0)];
    Extend([Open(0, -1, c)], End(0, 0));
    assert [Open(0, -1, c)] + [End(0, 0)] == [Open(0, -1, c), End(0, 0)];
  }
}
