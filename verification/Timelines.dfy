/** Timelines: which versions of a tile a day's timeline names, told by the times the versions became effective,
    and what of it later commits leave alone. */
module Timelines {
  import opened Common

  const DAY: TimeMs := 24 * HOUR

  datatype Xy = Xy(x: int, y: int)

  /** A tile's versions on a day: the one at its start, and the ones that came. */
  datatype TileDay = TileDay(v0: nat, points: seq<nat>)

  datatype Day = Day(final: bool, tiles: map<Xy, TileDay>)

  /** When each version of a tile became effective: version v at times[v - 1]. */
  type Times = seq<TimeMs>

  predicate Increasing(times: Times) { forall i, j :: 0 <= i < j < |times| ==> times[i] < times[j] }

  /** The version at t. */
  function CountAt(times: Times, t: TimeMs): (n: nat)
    ensures n <= |times|
  {
    if times == [] || times[|times| - 1] <= t then |times| else CountAt(times[..|times| - 1], t)
  }

  lemma {:induction false} CountIs(times: Times, t: TimeMs)
    requires Increasing(times)
    ensures forall i: nat :: i < |times| ==> (times[i] <= t <==> i < CountAt(times, t))
    decreases |times|
  {
    if times != [] && times[|times| - 1] > t { CountIs(times[..|times| - 1], t); }
  }

  lemma CountGrows(times: Times, t: TimeMs, t': TimeMs)
    requires Increasing(times) && t <= t'
    ensures CountAt(times, t) <= CountAt(times, t')
  {
    CountIs(times, t);
    CountIs(times, t');
    var n := CountAt(times, t);
    if n > 0 { assert times[n - 1] <= t; }
  }

  /** Day number `day` runs from its start to the start of the next. */
  function Start(day: int): TimeMs { day * DAY }

  function End(day: int): TimeMs { Start(day + 1) }

  function DayOfTime(t: TimeMs): int { t / DAY }

  lemma DayIs(t: TimeMs, day: int)
    ensures DayOfTime(t) == day <==> Start(day) <= t < End(day)
  {
  }

  /** The version at the start of a day, the last one named on it, and the one at its end, which becomes effective
      at that instant when it is not the same. */
  function From(times: Times, day: int): nat { CountAt(times, Start(day)) }

  function LastNamed(times: Times, day: int): nat { CountAt(times, End(day) - 1) }

  function Upto(times: Times, day: int): nat { CountAt(times, End(day)) }

  /** The tile is on the day's timeline. */
  predicate Listed(times: Times, day: int) { times != [] && times[0] < End(day) }

  function Versions(after: nat, last: nat): (s: seq<nat>)
    ensures forall v :: v in s <==> after < v <= last
  {
    if last <= after then [] else Versions(after, last - 1) + [last]
  }

  /** The tile's entry on the day's timeline. */
  function TileAt(times: Times, day: int): TileDay
    requires Listed(times, day)
  {
    if times[|times| - 1] <= Start(day) then TileDay(|times|, [])
    else TileDay(From(times, day), Versions(CountAt(times, Start(day) - 1), LastNamed(times, day)))
  }

  predicate Names(t: TileDay, v: nat) { v == t.v0 || v in t.points }

  /** A day names every version from the one at its start to the last before its end, and no other. */
  lemma NamesAre(times: Times, day: int, v: nat)
    requires Increasing(times) && Listed(times, day)
    ensures TileAt(times, day).v0 == From(times, day)
    ensures Names(TileAt(times, day), v) <==> From(times, day) <= v <= LastNamed(times, day)
  {
    CountIs(times, Start(day) - 1);
    CountIs(times, Start(day));
    CountIs(times, End(day) - 1);
    CountGrows(times, Start(day) - 1, Start(day));
    CountGrows(times, Start(day), End(day) - 1);
    OneMore(times, Start(day));
  }

  /** At most one version becomes effective at a time. */
  lemma OneMore(times: Times, t: TimeMs)
    requires Increasing(times)
    ensures CountAt(times, t - 1) <= CountAt(times, t) <= CountAt(times, t - 1) + 1
    ensures CountAt(times, t) > CountAt(times, t - 1) ==> t in times
  {
    CountIs(times, t - 1);
    CountIs(times, t);
    CountGrows(times, t - 1, t);
    var n := CountAt(times, t);
    if n > CountAt(times, t - 1) {
      assert times[n - 1] == t;
      assert n > 1 ==> times[n - 2] < times[n - 1];
    }
  }

  // --- the days of a catalog ---

  function DayRange(lo: int, hi: int): seq<int> { seq(if hi >= lo then hi - lo + 1 else 0, i => lo + i) }

  /** From the day of `from` to the day of `upto`. */
  method UtcDays(from: TimeMs, upto: TimeMs) returns (days: seq<int>)
    requires from >= 0
    ensures days == DayRange(DayOfTime(from), DayOfTime(upto))
    ensures forall i :: 0 <= i < |days| ==> days[i] == from / 86_400_000 + i
    ensures |days| == if upto / 86_400_000 < from / 86_400_000 then 0
                      else upto / 86_400_000 - from / 86_400_000 + 1
  {
    days := [];
    var t := from - from % DAY;
    while t <= upto
      invariant t == Start(DayOfTime(from) + |days|) && days == DayRange(DayOfTime(from), DayOfTime(from) + |days| - 1)
      invariant days != [] ==> Start(DayOfTime(from) + |days| - 1) <= upto
      decreases upto - t + DAY
    {
      days := days + [DayOfTime(t)];
      t := t + DAY;
    }
    LastDay(DayOfTime(from), |days|, upto);
  }

  lemma LastDay(lo: int, n: nat, upto: TimeMs)
    requires Start(lo + n) > upto && (n > 0 ==> Start(lo + n - 1) <= upto)
    ensures DayRange(lo, DayOfTime(upto)) == DayRange(lo, lo + n - 1)
  {
    if n > 0 { DayIs(upto, lo + n - 1); }
  }

  /** The days listed: a run of days, and today when that is later. */
  function DaysListed(lo: int, hi: int, today: int): seq<int> { DayRange(lo, hi) + if hi < today then [today] else [] }

  /** Every version became effective on a day of the run. */
  predicate Covers(times: Times, lo: int, hi: int) { forall t <- times :: lo <= DayOfTime(t) <= hi }

  /** Where a listed day starts past version 1, an earlier listed day ended with that version. */
  lemma DayBefore(times: Times, lo: int, hi: int, today: int, day: int) returns (p: int)
    requires Increasing(times) && Covers(times, lo, hi) && lo <= hi && day in DaysListed(lo, hi, today)
             && From(times, day) > 1
    ensures p in DaysListed(lo, hi, today) && lo <= p < day && Listed(times, p) && Upto(times, p) == From(times, day)
  {
    CountIs(times, Start(day));
    assert times[0] < times[1] <= Start(day);
    DayIs(times[0], DayOfTime(times[0]));
    assert times[0] in times;
    p := if day <= hi then day - 1 else hi;
    assert DayRange(lo, hi)[p - lo] == p;
    if day > hi {
      AllBefore(times, lo, hi, End(hi));
      AllBefore(times, lo, hi, Start(day));
    }
  }

  lemma AllBefore(times: Times, lo: int, hi: int, t: TimeMs)
    requires Covers(times, lo, hi) && t >= End(hi)
    ensures CountAt(times, t) == |times|
  {
    if times != [] {
      var last := times[|times| - 1];
      assert last in times;
      DayIs(last, DayOfTime(last));
    }
  }

  /** The version at the end of a listed day is named on it, or starts the next day, which is listed too. */
  lemma DayAfter(times: Times, lo: int, hi: int, today: int, day: int)
    requires Increasing(times) && Covers(times, lo, hi) && day in DaysListed(lo, hi, today) && Listed(times, day)
    requires Upto(times, day) != LastNamed(times, day)
    ensures day + 1 in DaysListed(lo, hi, today) && Listed(times, day + 1) && From(times, day + 1) == Upto(times, day)
  {
    OneMore(times, End(day));
    DayIs(End(day), day + 1);
    assert DayRange(lo, hi)[day + 1 - lo] == day + 1;
  }

  // --- what later commits leave alone ---

  /** A tile's versions later: the same ones and more, effective from `from` on. */
  predicate Later(times: Times, times': Times, from: TimeMs) {
    times <= times' && Increasing(times') && forall i :: |times| <= i < |times'| ==> times'[i] >= from
  }

  lemma {:induction false} CountStays(times: Times, times': Times, from: TimeMs, t: TimeMs)
    requires Later(times, times', from) && t < from
    ensures CountAt(times', t) == CountAt(times, t)
    decreases |times'|
  {
    if |times'| > |times| {
      CountStays(times, times'[..|times'| - 1], from, t);
    } else {
      assert times' == times;
    }
  }

  /** What a day names is final once new versions are effective from its end on at the earliest, and so is the
      version at its end once they are effective after it. */
  lemma FinalStays(times: Times, times': Times, from: TimeMs, day: int)
    requires Later(times, times', from) && End(day) <= from
    ensures Listed(times', day) <==> Listed(times, day)
    ensures From(times', day) == From(times, day) && LastNamed(times', day) == LastNamed(times, day)
    ensures End(day) < from ==> Upto(times', day) == Upto(times, day)
  {
    CountStays(times, times', from, Start(day));
    CountStays(times, times', from, End(day) - 1);
    if End(day) < from { CountStays(times, times', from, End(day)); }
  }

  /** But the entry itself is not: once a tile whose last version became effective at the day's very start gets
      another version, its entry lists that start version as a point too. No other entry changes. */
  lemma FinalEntry(times: Times, times': Times, from: TimeMs, day: int)
    requires Increasing(times) && Later(times, times', from) && End(day) <= from && Listed(times, day)
    ensures Listed(times', day)
    ensures TileAt(times', day) == TileAt(times, day) <==> |times'| == |times| || times[|times| - 1] != Start(day)
  {
    FinalStays(times, times', from, day);
    CountStays(times, times', from, Start(day) - 1);
    CountIs(times, Start(day) - 1);
    var n := |times|;
    if times[n - 1] == Start(day) && |times'| > n {
      CountIs(times, Start(day));
      CountIs(times, End(day) - 1);
      assert n in Versions(n - 1, n);
    } else if times[n - 1] <= Start(day) && |times'| > n {
      assert CountAt(times, Start(day) - 1) == n;
    }
  }

  /** Such an entry: version 1 at the start of day 1, and version 2 a day after it. */
  lemma FinalEntryMoves()
    ensures Later([DAY], [DAY, 3 * DAY], 2 * DAY) && End(1) <= 2 * DAY && Listed([DAY], 1) && Listed([DAY, 3 * DAY], 1)
    ensures TileAt([DAY], 1) == TileDay(1, []) && TileAt([DAY, 3 * DAY], 1) == TileDay(1, [1])
  {
    var t := [DAY, 3 * DAY];
    assert t[..1] == [DAY] && [DAY][..0] == [];
    CountIs([DAY], DAY - 1);
    assert CountAt(t, DAY - 1) == CountAt([DAY], DAY - 1) == 0;
    assert CountAt(t, DAY) == CountAt([DAY], DAY) == 1;
    assert CountAt(t, 2 * DAY - 1) == CountAt([DAY], 2 * DAY - 1) == 1;
    assert Versions(0, 0) == [] && Versions(0, 1) == [1];
  }
}
