/** Closing windows: handoff flags, the live journeys, and the small index kept of an evicted window. */
module MoverClose {
  import opened Common
  import opened MoverRows

  function Find<V>(m: map<Id, V>, id: Id): Option<V> { if id in m then Some(m[id]) else None }

  // --- indexes by journey ---

  /** m holds each journey's newest row. */
  ghost predicate IsNewest(m: map<Id, Row>, rows: seq<Row>) { forall id :: Find(m, id) == Newest(rows, id) }

  /** m holds each journey's earliest time that is not a gone. */
  ghost predicate IsEarliest(m: map<Id, TimeMs>, rows: seq<Row>) { forall id :: Find(m, id) == Earliest(rows, id) }

  /** Takes r as its journey's newest row unless a later one is known. */
  function Note(m: map<Id, Row>, r: Row): map<Id, Row> {
    if r.id in m && m[r.id].t > r.t then m else m[r.id := r]
  }

  function NoteFirst(m: map<Id, TimeMs>, r: Row): map<Id, TimeMs> {
    if r.gone || (r.id in m && m[r.id] <= r.t) then m else m[r.id := r.t]
  }

  lemma NoteOk(m: map<Id, Row>, rows: seq<Row>, r: Row)
    requires IsNewest(m, rows)
    ensures IsNewest(Note(m, r), rows + [r])
  {
    hide Newest;
    forall id ensures Find(Note(m, r), id) == Newest(rows + [r], id) {
      assert Find(m, id) == Newest(rows, id);
      NewestSnoc(rows, r, id);
    }
  }

  lemma NoteFirstOk(m: map<Id, TimeMs>, rows: seq<Row>, r: Row)
    requires IsEarliest(m, rows)
    ensures IsEarliest(NoteFirst(m, r), rows + [r])
  {
    assert (rows + [r])[..|rows|] == rows;
    forall id ensures Find(NoteFirst(m, r), id) == Earliest(rows + [r], id) {
      assert Find(m, id) == Earliest(rows, id);
    }
  }

  /** The newest row of every journey. */
  method IndexNewest(rows: seq<Row>) returns (m: map<Id, Row>)
    ensures IsNewest(m, rows)
  {
    hide IsNewest;
    m := map[];
    NothingNewest();
    for i := 0 to |rows|
      invariant IsNewest(m, rows[..i])
    {
      NoteOk(m, rows[..i], rows[i]);
      assert rows[..i] + [rows[i]] == rows[..i + 1];
      m := Note(m, rows[i]);
    }
    assert rows[..|rows|] == rows;
  }

  lemma NothingNewest()
    ensures IsNewest(map[], []) && IsEarliest(map[], [])
  {
  }

  /** Per journey the earliest time of a sample that is not a gone. */
  method FirstSamples(rows: seq<Row>) returns (m: map<Id, TimeMs>)
    ensures IsEarliest(m, rows)
  {
    hide IsEarliest;
    m := map[];
    NothingNewest();
    for i := 0 to |rows|
      invariant IsEarliest(m, rows[..i])
    {
      NoteFirstOk(m, rows[..i], rows[i]);
      assert rows[..i] + [rows[i]] == rows[..i + 1];
      m := NoteFirst(m, rows[i]);
    }
    assert rows[..|rows|] == rows;
  }

  // --- handoff flags ---

  /** A sample of g's journey that is not a gone follows g within the handoff window: one of `rows`, or one
      of the arrivals of the next window. */
  ghost predicate Followed(rows: seq<Row>, next: seq<Row>, g: Row) {
    || (exists r <- rows :: r.id == g.id && !r.gone && g.t < r.t <= g.t + 10_000)
    || (exists r <- next :: r.id == g.id && !r.gone && r.t <= g.t + 10_000)
  }

  ghost function MarkRow(rows: seq<Row>, next: seq<Row>, r: Row): Row {
    if r.gone && Followed(rows, next, r) then r.(handoff := true) else r
  }

  /** The rows with every gone that is followed flagged as a handoff. */
  ghost function Marked(rows: seq<Row>, next: seq<Row>): (m: seq<Row>)
    ensures |m| == |rows| && forall i :: 0 <= i < |m| ==> m[i] == MarkRow(rows, next, rows[i])
  {
    seq(|rows|, i requires 0 <= i < |rows| => MarkRow(rows, next, rows[i]))
  }

  /** Whether a later row of the window, from index i + 1 on, follows the gone at i. */
  method FollowedInWindow(rows: seq<Row>, i: nat) returns (found: bool)
    requires i < |rows| && Strict(rows)
    ensures found <==> exists r <- rows ::
            r.id == rows[i].id && !r.gone
            && rows[i].t < r.t <= rows[i].t + HANDOFF_WINDOW
  {
    var g := rows[i];
    var j := i + 1;
    while j < |rows| && rows[j].id == g.id && rows[j].t <= g.t + HANDOFF_WINDOW
      invariant i < j <= |rows|
      invariant forall k :: i < k < j ==> rows[k].id == g.id && rows[k].gone
    {
      if !rows[j].gone && rows[j].t > g.t {
        return true;
      }
      j := j + 1;
    }
    forall k | 0 <= k < |rows|
      ensures !(rows[k].id == g.id && !rows[k].gone && g.t < rows[k].t <= g.t + HANDOFF_WINDOW)
    {
      if k < i {
        assert Before(rows[k], rows[i]);
      } else if k > j && j < |rows| {
        assert Before(rows[j], rows[k]);
      }
    }
    found := false;
  }

  /** Flags the gones of window ws (sorted, deduplicated) that a sample follows; `firsts` are the first
      samples of the next window. */
  method MarkHandoffs(rows: seq<Row>, ws: TimeMs, firsts: map<Id, TimeMs>, ghost next: seq<Row>) returns (out: seq<Row>)
    requires Strict(rows) && IsEarliest(firsts, next) && forall r <- next :: r.t >= ws + WINDOW_LEN
    ensures out == Marked(rows, next)
  {
    hide Strict, IsEarliest, Followed;
    out := [];
    for i := 0 to |rows|
      invariant |out| == i && forall k :: 0 <= k < i ==> out[k] == MarkRow(rows, next, rows[k])
    {
      var r := rows[i];
      if r.gone {
        var found := FollowedInWindow(rows, i);
        if !found && r.t + HANDOFF_WINDOW >= ws + WINDOW_LEN && r.id in firsts && firsts[r.id] <= r.t + HANDOFF_WINDOW {
          found := true;
        }
        FollowedIs(rows, ws, firsts, next, r);
        if found {
          r := r.(handoff := true);
        }
      }
      out := out + [r];
    }
  }

  lemma FollowedIs(rows: seq<Row>, ws: TimeMs, firsts: map<Id, TimeMs>, next: seq<Row>, g: Row)
    requires IsEarliest(firsts, next) && forall r <- next :: r.t >= ws + WINDOW_LEN
    ensures Followed(rows, next, g) <==>
            || (exists r <- rows :: r.id == g.id && !r.gone && g.t < r.t <= g.t + 10_000)
            || (g.t + HANDOFF_WINDOW >= ws + WINDOW_LEN && g.id in firsts && firsts[g.id] <= g.t + HANDOFF_WINDOW)
  {
    EarliestIs(next, g.id);
    assert Find(firsts, g.id) == Earliest(next, g.id);
  }

  // --- the live journeys ---

  function Alive(r: Option<Row>): Option<Row> { if r.Some? && !r.value.gone then r else None }

  /** A journey's row in the live state at h: its last row before h, unless that is a gone. */
  function LiveAt(all: seq<Row>, h: TimeMs, id: Id): Option<Row> { Alive(Newest(Range(all, NEVER, h), id)) }

  /** Row i is r, and no row of the journey is later, or of the same time and after it. */
  predicate NoneBeats(rows: seq<Row>, i: int, id: Id, r: Row) {
    0 <= i < |rows| && rows[i] == r && r.id == id
    && forall j :: 0 <= j < |rows| && rows[j].id == id ==> rows[j].t < r.t || (rows[j].t == r.t && j <= i)
  }

  lemma {:induction false} NewestMeans(rows: seq<Row>, id: Id, r: Row)
    ensures Newest(rows, id) == Some(r) <==> exists i :: NoneBeats(rows, i, id, r)
    decreases rows
  {
    if rows != [] {
      var n := |rows| - 1;
      var init, x := rows[..n], rows[n];
      NewestMeans(init, id, r);
      if Newest(init, id).Some? { NewestMeans(init, id, Newest(init, id).value); }
      if exists i :: NoneBeats(init, i, id, r) {
        var i :| NoneBeats(init, i, id, r);
        if !(x.id == id && x.t >= r.t) { assert NoneBeats(rows, i, id, r); }
      }
      if Newest(init, id).Some? {
        var b := Newest(init, id).value;
        var i :| NoneBeats(init, i, id, b);
        if x.id == id && x.t >= b.t { assert NoneBeats(rows, n, id, x); }
        assert rows[i] == init[i] == b;
      } else if x.id == id {
        NoneThere(init, id);
        assert NoneBeats(rows, n, id, x);
      }
      if exists i :: NoneBeats(rows, i, id, r) {
        var i :| NoneBeats(rows, i, id, r);
        if i < n { assert NoneBeats(init, i, id, r); }
      }
    }
  }

  lemma {:induction false} NoneThere(rows: seq<Row>, id: Id)
    requires Newest(rows, id).None?
    ensures forall r <- rows :: r.id != id
    decreases rows
  {
    if rows != [] {
      NoneThere(rows[..|rows| - 1], id);
      assert rows == rows[..|rows| - 1] + [rows[|rows| - 1]];
    }
  }

  /** A journey is live at h with the row before h that no other beats, if that is no gone. */
  lemma LiveMeans(all: seq<Row>, h: TimeMs, id: Id, r: Row)
    ensures LiveAt(all, h, id) == Some(r) <==> !r.gone && Beats(Range(all, NEVER, h), id, r)
  {
    hide Range, Newest, NoneBeats;
    NewestMeans(Range(all, NEVER, h), id, r);
  }

  /** r beats every other row of the journey. */
  ghost predicate Beats(rows: seq<Row>, id: Id, r: Row) { exists i :: NoneBeats(rows, i, id, r) }

  ghost predicate IsLive(live: map<Id, Row>, all: seq<Row>,
                         h: TimeMs) { forall id :: Find(live, id) == LiveAt(all, h, id) }

  /** Rows of one journey come in time order. */
  predicate InTime(rows: seq<Row>) { forall i,
                   j :: 0 <= i < j < |rows| && rows[i].id == rows[j].id ==> rows[i].t <= rows[j].t }

  function Advanced(live: map<Id, Row>, rows: seq<Row>): map<Id, Row> {
    if rows == [] then live
    else
      var m, r := Advanced(live, rows[..|rows| - 1]), rows[|rows| - 1];
      if r.gone then m - {r.id} else m[r.id := r]
  }

  method Advance(live: map<Id, Row>, rows: seq<Row>) returns (m: map<Id, Row>)
    ensures m == Advanced(live, rows)
  {
    m := live;
    for i := 0 to |rows|
      invariant m == Advanced(live, rows[..i])
    {
      assert rows[..i + 1][..i] == rows[..i];
      m := if rows[i].gone then m - {rows[i].id} else m[rows[i].id := rows[i]];
    }
    assert rows[..|rows|] == rows;
  }

  lemma {:induction false} AdvancedFind(live: map<Id, Row>, rows: seq<Row>, id: Id)
    requires InTime(rows)
    ensures Find(Advanced(live, rows), id) == if Newest(rows, id).Some? then Alive(Newest(rows, id)) else Find(live, id)
    decreases rows
  {
    if rows != [] {
      var init := rows[..|rows| - 1];
      AdvancedFind(live, init, id);
      if Newest(init, id).Some? {
        var k :| 0 <= k < |init| && init[k] == Newest(init, id).value;
      }
    }
  }

  /** b is a with some gones flagged. */
  ghost predicate SameButFlags(a: seq<Row>, b: seq<Row>) {
    |a| == |b| && forall i :: 0 <= i < |a| ==> a[i] == b[i] || (a[i].gone && b[i] == a[i].(handoff := true))
  }

  lemma {:induction false} FlagsKeepNewest(a: seq<Row>, b: seq<Row>, id: Id)
    requires SameButFlags(a, b)
    ensures Newest(a, id).Some? <==> Newest(b, id).Some?
    ensures Newest(a, id).Some? ==> Newest(a, id).value.t == Newest(b, id).value.t
    ensures Alive(Newest(a, id)) == Alive(Newest(b, id))
    decreases a
  {
    if a != [] { FlagsKeepNewest(a[..|a| - 1], b[..|b| - 1], id); }
  }

  lemma StrictInTime(rows: seq<Row>, marked: seq<Row>)
    requires Strict(rows) && SameButFlags(rows, marked)
    ensures InTime(marked)
  {
    forall i, j | 0 <= i < j < |marked| && marked[i].id == marked[j].id
      ensures marked[i].t <= marked[j].t
    {
      assert Before(rows[i], rows[j]);
    }
  }

  /** Advancing the live state at `from` by rows that keep, up to handoff flags, the last arrivals of [from, to)
      gives the live state at `to`. */
  lemma AdvancedLive(live: map<Id, Row>, all: seq<Row>, from: TimeMs, to: TimeMs, rows: seq<Row>, marked: seq<Row>)
    requires IsLive(live, all, from) && NEVER <= from <= to
    requires Latest(rows) == Latest(Range(all, from, to)) && SameButFlags(rows, marked) && InTime(marked)
    ensures IsLive(Advanced(live, marked), all, to)
  {
    hide Latest, Newest, Range, SameButFlags, InTime, Advanced;
    forall id
      ensures Find(Advanced(live, marked), id) == LiveAt(all, to, id)
    {
      assert Find(live, id) == LiveAt(all, from, id);
      AdvancedFind(live, marked, id);
      FlagsKeepNewest(rows, marked, id);
      NewestOfSame(rows, Range(all, from, to), id);
      NewestSplit(all, id, NEVER, from, to);
    }
  }

  /** Nothing happens to the live state over a time without rows. */
  lemma QuietLive(live: map<Id, Row>, all: seq<Row>, from: TimeMs, to: TimeMs)
    requires IsLive(live, all, from) && NEVER <= from <= to && Range(all, from, to) == []
    ensures IsLive(live, all, to)
  {
    hide Range;
    forall id
      ensures Find(live, id) == LiveAt(all, to, id)
    {
      assert Find(live, id) == LiveAt(all, from, id);
      NewestSplit(all, id, NEVER, from, to);
    }
  }
}
