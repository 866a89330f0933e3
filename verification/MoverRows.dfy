/** Rows of movers: which row of a journey counts, closing a window (sort, dedupe, handoff flags) and the
    state of the journeys at an instant. */
module MoverRows {
  import opened Common

  type Id = int

  const WINDOW_LEN: TimeMs := 5 * MINUTE

  /** Window starts before and after every 64-bit time. */
  const NEVER: TimeMs := -0x8000_0000_0000_0001 * WINDOW_LEN
  const FOREVER: TimeMs := 0x8000_0000_0000_0001 * WINDOW_LEN

  /** One stored sample. `meta` stands for the journey's description, `data` for its tick, position and rails. */
  datatype Row = Row(id: Id, t: TimeMs, gone: bool, handoff: bool, meta: int, data: int)

  datatype Key = Key(id: Id, t: TimeMs)

  function KeyOf(r: Row): Key { Key(r.id, r.t) }

  // --- rows in arrival order ---

  /** Per journey and time the last arrival. */
  function Latest(rows: seq<Row>): map<Key, Row> {
    if rows == [] then map[] else Latest(rows[..|rows| - 1])[KeyOf(rows[|rows| - 1]) := rows[|rows| - 1]]
  }

  /** The newest row of a journey, by time and then by arrival. */
  function Newest(rows: seq<Row>, id: Id): (r: Option<Row>)
    ensures r.Some? ==> r.value in rows && r.value.id == id
  {
    if rows == [] then None
    else Newer(Newest(rows[..|rows| - 1], id), rows[|rows| - 1], id)
  }

  function Newer(best: Option<Row>, r: Row, id: Id): Option<Row> {
    if r.id == id && (best.None? || r.t >= best.value.t) then Some(r) else best
  }

  /** The earliest time of a journey's rows that are not gones. */
  function Earliest(rows: seq<Row>, id: Id): Option<TimeMs> {
    if rows == [] then None
    else
      var first, r := Earliest(rows[..|rows| - 1], id), rows[|rows| - 1];
      if r.id == id && !r.gone && (first.None? || r.t < first.value) then Some(r.t) else first
  }

  /** The rows with lo <= t < hi, in arrival order. */
  function Range(rows: seq<Row>, lo: TimeMs, hi: TimeMs): (s: seq<Row>)
    ensures forall r <- s :: lo <= r.t < hi && r in rows
  {
    if rows == [] then []
    else
      var s, r := Range(rows[..|rows| - 1], lo, hi), rows[|rows| - 1];
      if lo <= r.t < hi then s + [r] else s
  }

  function InWindow(rows: seq<Row>, ws: TimeMs): seq<Row> { Range(rows, ws, ws + WINDOW_LEN) }

  lemma {:induction false} RangeAppend(a: seq<Row>, b: seq<Row>, lo: TimeMs, hi: TimeMs)
    ensures Range(a + b, lo, hi) == Range(a, lo, hi) + Range(b, lo, hi)
    decreases b
  {
    if b == [] {
      assert a + b == a;
    } else {
      assert (a + b)[..|a + b| - 1] == a + b[..|b| - 1];
      RangeAppend(a, b[..|b| - 1], lo, hi);
    }
  }

  lemma {:induction false} RangeHas(rows: seq<Row>, lo: TimeMs, hi: TimeMs, r: Row)
    ensures r in Range(rows, lo, hi) <==> r in rows && lo <= r.t < hi
    decreases rows
  {
    if rows != [] {
      RangeHas(rows[..|rows| - 1], lo, hi, r);
      assert rows == rows[..|rows| - 1] + [rows[|rows| - 1]];
    }
  }

  lemma {:induction false} RangeEmpty(rows: seq<Row>, lo: TimeMs, hi: TimeMs)
    requires forall r <- rows :: !(lo <= r.t < hi)
    ensures Range(rows, lo, hi) == []
    decreases rows
  {
    if rows != [] { RangeEmpty(rows[..|rows| - 1], lo, hi); }
  }

  function Join(older: Option<Row>, newer: Option<Row>): Option<Row> { if newer.Some? then newer else older }

  lemma NewestSnoc(s: seq<Row>, r: Row, id: Id)
    ensures Newest(s + [r], id) == Newer(Newest(s, id), r, id)
  {
    assert (s + [r])[..|s|] == s;
  }

  lemma RangeSnoc(rows: seq<Row>, lo: TimeMs, hi: TimeMs)
    requires rows != []
    ensures var s, r := Range(rows[..|rows| - 1], lo, hi),
              rows[|rows| - 1]; Range(rows, lo, hi) == if lo <= r.t < hi then s + [r] else s
  {
  }

  /** A journey's newest row in [lo, hi) is the one in [mid, hi), else the one in [lo, mid). */
  lemma {:induction false} NewestSplit(rows: seq<Row>, id: Id, lo: TimeMs, mid: TimeMs, hi: TimeMs)
    requires lo <= mid <= hi
    ensures Newest(Range(rows, lo, hi), id) == Join(Newest(Range(rows, lo, mid), id), Newest(Range(rows, mid, hi), id))
    decreases rows
  {
    if rows == [] {
      assert Range(rows, lo, hi) == [] && Range(rows, lo, mid) == [] && Range(rows, mid, hi) == [];
    } else {
      NewestSplit(rows[..|rows| - 1], id, lo, mid, hi);
      NewestSplitStep(rows, id, lo, mid, hi);
    }
  }

  lemma NewestSplitStep(rows: seq<Row>, id: Id, lo: TimeMs, mid: TimeMs, hi: TimeMs)
    requires lo <= mid <= hi && rows != []
    requires var init := rows[..|rows| - 1];
             Newest(Range(init, lo, hi), id) == Join(Newest(Range(init, lo, mid), id), Newest(Range(init, mid, hi), id))
    ensures Newest(Range(rows, lo, hi), id) == Join(Newest(Range(rows, lo, mid), id), Newest(Range(rows, mid, hi), id))
  {
    hide Newest, Range;
    var init, r := rows[..|rows| - 1], rows[|rows| - 1];
    RangeSnoc(rows, lo, hi);
    RangeSnoc(rows, lo, mid);
    RangeSnoc(rows, mid, hi);
    NewestSnoc(Range(init, lo, hi), r, id);
    NewestSnoc(Range(init, lo, mid), r, id);
    NewestSnoc(Range(init, mid, hi), r, id);
  }

  /** The newest row is the last arrival at the journey's greatest time. */
  lemma {:induction false} NewestIs(rows: seq<Row>, id: Id)
    ensures Newest(rows, id).None? ==> forall k <- Latest(rows) :: k.id != id
    ensures Newest(rows, id).Some? ==>
              var r := Newest(rows, id).value;
              KeyOf(r) in Latest(rows) && Latest(rows)[KeyOf(r)] == r && forall k <- Latest(rows) :: k.id == id ==>
                  k.t <= r.t
    decreases rows
  {
    if rows != [] { NewestIs(rows[..|rows| - 1], id); }
  }

  /** What is kept for a key is the row no later arrival of the journey and time comes after. */
  lemma {:induction false} LatestIs(rows: seq<Row>, k: Key, r: Row)
    ensures k in Latest(rows) && Latest(rows)[k] == r <==>
            exists i :: LastOf(rows, i, k, r)
    decreases rows
  {
    if rows != [] {
      var n := |rows| - 1;
      LatestIs(rows[..n], k, r);
      if rows[n].id == k.id && rows[n].t == k.t {
        assert KeyOf(rows[n]) == k && LastOf(rows, n, k, rows[n]);
      } else if exists i :: LastOf(rows, i, k, r) {
        var i :| LastOf(rows, i, k, r);
        assert LastOf(rows[..n], i, k, r);
      }
      if exists i :: LastOf(rows[..n], i, k, r) && KeyOf(rows[n]) != k {
        var i :| LastOf(rows[..n], i, k, r);
        assert LastOf(rows, i, k, r);
      }
    }
  }

  /** Row i is r, the last arrival at k. */
  predicate LastOf(rows: seq<Row>, i: int, k: Key, r: Row) {
    0 <= i < |rows| && rows[i] == r && r.id == k.id && r.t == k.t
    && forall j :: i < j < |rows| ==> !(rows[j].id == k.id && rows[j].t == k.t)
  }

  lemma {:induction false} LatestKeys(rows: seq<Row>)
    ensures forall k <- Latest(rows) :: KeyOf(Latest(rows)[k]) == k && Latest(rows)[k] in rows
    ensures forall r <- rows :: KeyOf(r) in Latest(rows)
    decreases rows
  {
    if rows != [] {
      LatestKeys(rows[..|rows| - 1]);
      assert rows == rows[..|rows| - 1] + [rows[|rows| - 1]];
    }
  }

  /** The last arrival at a key is that of its time's window. */
  lemma {:induction false} LatestInRange(rows: seq<Row>, lo: TimeMs, hi: TimeMs, k: Key)
    requires lo <= k.t < hi
    ensures k in Latest(rows) <==> k in Latest(Range(rows, lo, hi))
    ensures k in Latest(rows) ==> Latest(rows)[k] == Latest(Range(rows, lo, hi))[k]
    decreases rows
  {
    if rows != [] {
      var n := |rows| - 1;
      LatestInRange(rows[..n], lo, hi, k);
      if lo <= rows[n].t < hi { LatestSnoc(Range(rows[..n], lo, hi), rows[n]); }
    }
  }

  lemma LatestSnoc(rows: seq<Row>, r: Row)
    ensures Latest(rows + [r]) == Latest(rows)[KeyOf(r) := r]
  {
    assert (rows + [r])[..|rows|] == rows;
  }

  /** The same last arrivals give the same newest row. */
  lemma NewestOfSame(a: seq<Row>, b: seq<Row>, id: Id)
    requires Latest(a) == Latest(b)
    ensures Newest(a, id) == Newest(b, id)
  {
    NewestIs(a, id);
    NewestIs(b, id);
  }

  lemma {:induction false} EarliestIs(rows: seq<Row>, id: Id)
    ensures Earliest(rows, id).None? <==> forall r <- rows :: !(r.id == id && !r.gone)
    ensures Earliest(rows, id).Some? ==>
              && (exists r <- rows :: r.id == id && !r.gone && r.t == Earliest(rows, id).value)
              && forall r <- rows :: r.id == id && !r.gone ==> Earliest(rows, id).value <= r.t
    decreases rows
  {
    if rows != [] {
      EarliestIs(rows[..|rows| - 1], id);
      assert rows == rows[..|rows| - 1] + [rows[|rows| - 1]];
    }
  }

  // --- sorting by journey, time and arrival ---

  predicate Before(a: Row, b: Row) { a.id < b.id || (a.id == b.id && a.t < b.t) }

  /** r goes behind the rows that are not after it, so rows of equal journey and time stay in arrival order. */
  function Insert(sorted: seq<Row>, r: Row): seq<Row> {
    if sorted == [] || !Before(r, sorted[|sorted| - 1]) then sorted + [r]
    else Insert(sorted[..|sorted| - 1], r) + [sorted[|sorted| - 1]]
  }

  function SortByJourney(rows: seq<Row>): seq<Row> {
    if rows == [] then [] else Insert(SortByJourney(rows[..|rows| - 1]), rows[|rows| - 1])
  }

  predicate Ordered(rows: seq<Row>) { forall i, j :: 0 <= i < j < |rows| ==> !Before(rows[j], rows[i]) }

  predicate Strict(rows: seq<Row>) { forall i, j :: 0 <= i < j < |rows| ==> Before(rows[i], rows[j]) }

  lemma {:induction false} InsertOrdered(s: seq<Row>, r: Row)
    requires Ordered(s)
    ensures Ordered(Insert(s, r)) && multiset(Insert(s, r)) == multiset(s) + multiset{r}
    decreases s
  {
    if s != [] && Before(r, s[|s| - 1]) {
      var init := s[..|s| - 1];
      InsertOrdered(init, r);
      assert s == init + [s[|s| - 1]];
      OrderedSnoc(init, Insert(init, r), r, s[|s| - 1]);
    }
  }

  lemma OrderedSnoc(init: seq<Row>, front: seq<Row>, r: Row, last: Row)
    requires Ordered(front) && multiset(front) == multiset(init) + multiset{r} && Before(r, last)
    requires forall x <- init :: !Before(last, x)
    ensures Ordered(front + [last])
  {
    forall i | 0 <= i < |front| ensures !Before(last, front[i]) {
      assert front[i] in multiset(front);
    }
  }

  lemma {:induction false} InsertLatest(s: seq<Row>, r: Row)
    ensures Latest(Insert(s, r)) == Latest(s)[KeyOf(r) := r]
    decreases s
  {
    var n := |s| - 1;
    if s == [] || !Before(r, s[n]) {
      assert (s + [r])[..|s|] == s;
    } else {
      InsertLatest(s[..n], r);
      var front := Insert(s[..n], r);
      assert (front + [s[n]])[..|front|] == front;
    }
  }

  /** Sorting orders the rows and keeps, per journey and time, the last arrival last. */
  lemma {:induction false} SortIs(rows: seq<Row>)
    ensures Ordered(SortByJourney(rows)) && multiset(SortByJourney(rows)) == multiset(rows)
    ensures Latest(SortByJourney(rows)) == Latest(rows)
    decreases rows
  {
    hide Insert, Before, Ordered;
    if rows == [] {
      NoneOrdered();
    } else {
      var n := |rows| - 1;
      SortIs(rows[..n]);
      InsertOrdered(SortByJourney(rows[..n]), rows[n]);
      InsertLatest(SortByJourney(rows[..n]), rows[n]);
      assert rows == rows[..n] + [rows[n]];
    }
  }

  lemma NoneOrdered()
    ensures Ordered([])
  {
  }

  /** Keeps of sorted rows the last of every (journey, t). */
  method Dedupe(rows: seq<Row>) returns (out: seq<Row>)
    requires Ordered(rows)
    ensures Strict(out) && Latest(out) == Latest(rows)
  {
    hide Latest;
    out := [];
    DoneSelf(rows);
    for i := 0 to |rows|
      invariant Strict(out)
      invariant forall k :: 0 <= k < |out| && i < |rows| ==> Before(out[k], rows[i])
      invariant Latest(rows[..i] + rows[i..]) == Latest(out + rows[i..])
    {
      if i + 1 < |rows| && rows[i + 1].id == rows[i].id && rows[i + 1].t == rows[i].t {
        SkipSame(out, rows, i);
        continue;
      }
      assert out + rows[i..] == (out + [rows[i]]) + rows[i + 1..];
      assert rows[..i] + rows[i..] == rows == rows[..i + 1] + rows[i + 1..];
      out := out + [rows[i]];
    }
    assert rows[..|rows|] + rows[|rows|..] == rows && out + rows[|rows|..] == out;
  }

  lemma DoneSelf(rows: seq<Row>)
    ensures Latest(rows[..0] + rows[0..]) == Latest([] + rows[0..])
  {
    assert rows[..0] + rows[0..] == [] + rows[0..];
  }

  /** A row that the next one replaces does not count. */
  lemma SkipSame(out: seq<Row>, rows: seq<Row>, i: nat)
    requires i + 1 < |rows| && KeyOf(rows[i + 1]) == KeyOf(rows[i])
    ensures Latest(out + rows[i..]) == Latest(out + rows[i + 1..])
    ensures rows[..i] + rows[i..] == rows[..i + 1] + rows[i + 1..]
  {
    assert rows[..i] + rows[i..] == rows == rows[..i + 1] + rows[i + 1..];
    assert out + rows[i..] == (out + [rows[i], rows[i + 1]]) + rows[i + 2..];
    assert out + rows[i + 1..] == (out + [rows[i + 1]]) + rows[i + 2..];
    var a, b := out + [rows[i], rows[i + 1]], out + [rows[i + 1]];
    assert a[..|a| - 1] == out + [rows[i]] && a[..|a| - 1][..|out|] == out && b[..|out|] == out;
    assert Latest(a) == Latest(b);
    LatestSuffix(a, b, rows[i + 2..]);
  }

  lemma {:induction false} LatestSuffix(a: seq<Row>, b: seq<Row>, more: seq<Row>)
    requires Latest(a) == Latest(b)
    ensures Latest(a + more) == Latest(b + more)
    decreases more
  {
    if more == [] {
      assert a + more == a && b + more == b;
    } else {
      var n := |more| - 1;
      assert (a + more)[..|a + more| - 1] == a + more[..n] && (b + more)[..|b + more| - 1] == b + more[..n];
      LatestSuffix(a, b, more[..n]);
    }
  }
}
