/** The log of one open window, record by record: journeys' descriptions are numbered within the file when a row
    first needs them, and the numbers in memory match the file through failed writes and torn tails. Decoded, the frames
    are the log of rows the store works with. */
module MoverWal {
  import opened Common
  import opened MoverRows
  import opened MoverState

  /** A journey and its description. */
  datatype Desc = Desc(id: Id, meta: int)

  /** The rest of a row. */
  datatype Body = Body(t: TimeMs, gone: bool, data: int)

  datatype Record =
    | Define(number: nat, meta: Desc)
    | Sample(number: nat, row: Body)

  type Frame = seq<Record>

  /** One row with its description. */
  datatype Entry = Entry(meta: Desc, row: Body)

  /** The row an entry logs; no handoff is logged. */
  function RowOf(e: Entry): Row { Row(e.meta.id, e.row.t, e.row.gone, false, e.meta.meta, e.row.data) }

  function RowsOf(es: seq<Entry>): (rows: seq<Row>)
    ensures |rows| == |es|
  {
    seq(|es|, i requires 0 <= i < |es| => RowOf(es[i]))
  }

  /** The entry that logs a row. */
  function EntryFor(r: Row): (e: Entry)
    ensures !r.handoff ==> RowOf(e) == r
  {
    Entry(Desc(r.id, r.meta), Body(r.t, r.gone, r.data))
  }

  lemma RowsOfMore(a: seq<Entry>, b: seq<Entry>)
    ensures RowsOf(a + b) == RowsOf(a) + RowsOf(b)
  {
  }

  lemma RowsOfFirst(a: seq<Entry>, k: nat)
    requires k <= |a|
    ensures RowsOf(a[..k]) == RowsOf(a)[..k]
  {
  }

  // --- reading ---

  /** What a frame adds to the numbers known before it: the numbers after it and its rows; None when a row's
      number is unknown. */
  function Scan(f: Frame, metas: map<nat, Desc>): Option<(map<nat, Desc>, seq<Entry>)> {
    if f == [] then Some((metas, []))
    else
      var before := Scan(f[..|f| - 1], metas);
      if before.None? then None
      else
        match f[|f| - 1]
        case Define(n, m) => Some((before.value.0[n := m], before.value.1))
        case Sample(n, row) =>
          if n in before.value.0 then Some((before.value.0, before.value.1 + [Entry(before.value.0[n], row)])) else None
  }

  /** The numbers and rows of a file, and how many frames were skipped: a frame that does not decode changes nothing. */
  function Decode(file: seq<Frame>): (map<nat, Desc>, seq<Entry>, nat) {
    if file == [] then (map[], [], 0)
    else
      var (metas, rows, skipped) := Decode(file[..|file| - 1]);
      var f := Scan(file[|file| - 1], metas);
      if f.None? then (metas, rows, skipped + 1) else (f.value.0, rows + f.value.1, skipped)
  }

  /** The numbers in memory are those of the file. */
  ghost predicate Match(ids: map<Desc, nat>, next: nat, metas: map<nat, Desc>) {
    && (forall m <- ids :: ids[m] < next && ids[m] in metas && metas[ids[m]] == m)
    && (forall n <- metas :: metas[n] in ids && ids[metas[n]] == n)
  }

  lemma ScanMore(f: Frame, r: Record, metas: map<nat, Desc>)
    requires Scan(f, metas).Some?
    ensures var (known, rows) := Scan(f, metas).value;
            Scan(f + [r], metas) == match r
                                    case Define(n, m) => Some((known[n := m], rows))
                                    case Sample(n, row) => if n in known then Some((known,
                                        rows + [Entry(known[n], row)])) else None
  {
    assert (f + [r])[..|f|] == f;
  }

  lemma DecodeMore(file: seq<Frame>, f: Frame)
    ensures var (metas, rows, skipped) := Decode(file);
            var s := Scan(f, metas);
            Decode(file + [f]) == if s.None? then (metas, rows, skipped + 1) else (s.value.0, rows + s.value.1, skipped)
  {
    assert (file + [f])[..|file|] == file;
  }

  ghost predicate Injective(metas: map<nat, Desc>) { forall a,
                            b :: a in metas && b in metas && metas[a] == metas[b] ==> a == b }

  /** However many frames survive, they decode without a skip, to distinct descriptions and the first rows. */
  ghost predicate Good(file: seq<Frame>) {
    forall k :: 0 <= k <= |file| ==>
      Injective(Decode(file[..k]).0) && Decode(file[..k]).2 == 0 && Decode(file[..k]).1 <= Decode(file).1
  }

  /** What is written so far reads as `rows`: the closed frames, then the open one. */
  ghost predicate Reads(file: seq<Frame>, open: Frame, ids: map<Desc, nat>, next: nat, rows: seq<Entry>) {
    var (metas, before, skipped) := Decode(file);
    var s := Scan(open, metas);
    Good(file) && skipped == 0 && s.Some? && before + s.value.1 == rows && Match(ids, next, s.value.0)
  }

  lemma CloseFrame(file: seq<Frame>, open: Frame, ids: map<Desc, nat>, next: nat, rows: seq<Entry>)
    requires Reads(file, open, ids, next, rows)
    ensures Reads(file + [open], [], ids, next, rows)
  {
    DecodeMore(file, open);
    assert rows + [] == rows;
    var file' := file + [open];
    assert file'[..|file'|] == file' && file[..|file|] == file;
    forall k | 0 <= k <= |file'|
      ensures Injective(Decode(file'[..k]).0) && Decode(file'[..k]).2 == 0 && Decode(file'[..k]).1 <= Decode(file').1
    {
      if k <= |file| {
        assert file'[..k] == file[..k];
        PrefixOn(Decode(file[..k]).1, Decode(file).1, Decode(file').1);
      }
    }
  }

  lemma PrefixOn(a: seq<Entry>, b: seq<Entry>, c: seq<Entry>)
    requires a <= b <= c
    ensures a <= c
  {
  }

  lemma AddDefine(file: seq<Frame>, open: Frame, ids: map<Desc, nat>, next: nat, rows: seq<Entry>, m: Desc)
    requires Reads(file, open, ids, next, rows) && m !in ids
    ensures Reads(file, open + [Define(next, m)], ids[m := next], next + 1, rows)
  {
    ScanMore(open, Define(next, m), Decode(file).0);
  }

  lemma AddSample(file: seq<Frame>, open: Frame, ids: map<Desc, nat>, next: nat, rows: seq<Entry>, e: Entry)
    requires Reads(file, open, ids, next, rows) && e.meta in ids
    ensures Reads(file, open + [Record.Sample(ids[e.meta], e.row)], ids, next, rows + [e])
  {
    ScanMore(open, Record.Sample(ids[e.meta], e.row), Decode(file).0);
    var before, s := Decode(file).1, Scan(open, Decode(file).0).value.1;
    assert before + (s + [e]) == before + s + [e];
  }

  /** A file of frames as the log of rows it decodes to: the store counts its first `size` frames, and the first
      `synced` are durable. */
  function AsLog(file: seq<Frame>, size: nat, synced: nat): Log
    requires size <= |file| && synced <= |file|
  {
    Log(RowsOf(Decode(file).1), |Decode(file[..size]).1|, |Decode(file[..synced]).1|)
  }

  class WinLog {
    var file: seq<Frame>
    var size: nat
    var synced: nat
    var ids: map<Desc, nat>
    var next: nat

    /** A write failed and could not be cut back: nothing is written any more. */
    var stuck: bool

    /** The rows of the batches written. */
    ghost var rows: seq<Entry>

    ghost predicate Valid()
      reads this
    {
      && next >= 1 && synced <= size <= |file| && (!stuck ==> size == |file|)
      && Reads(file[..size], [], ids, next, rows) && Good(file)
    }

    /** The log of rows. */
    function Rows(): Log
      requires synced <= size <= |file|
      reads this
    {
      AsLog(file, size, synced)
    }

    constructor ()
      ensures Valid() && rows == [] && file == [] && !stuck
    {
      file, ids, next, rows := [], map[], 1, [];
      size, synced, stuck := 0, 0, false;
    }

    /** The frames of a batch. A description gets the next number when a row first needs it; a frame that is
        `full` is closed and the batch goes on in a new one. `added` are the descriptions defined. */
    method Encode(entries: seq<Entry>, full: Frame -> bool) returns (frames: seq<Frame>, added: set<Desc>)
      requires Valid() && !stuck
      modifies this`ids, this`next
      ensures next >= old(next) && Reads(file + frames, [], ids, next, rows + entries)
      ensures added !! old(ids).Keys && ids - added == old(ids)
    {
      hide Match, Decode, Scan, Reads;
      frames, added := [], {};
      var open: Frame := [];
      assert file[..size] == file && file + [] == file && rows + [] == rows;
      for i := 0 to |entries|
        invariant next >= old(next) && Reads(file + frames, open, ids, next, rows + entries[..i])
        invariant added !! old(ids).Keys && ids - added == old(ids) && added <= ids.Keys
      {
        if full(open) {
          CloseFrame(file + frames, open, ids, next, rows + entries[..i]);
          assert file + frames + [open] == file + (frames + [open]);
          frames, open := frames + [open], [];
        }
        var e := entries[i];
        if e.meta !in ids {
          AddDefine(file + frames, open, ids, next, rows + entries[..i], e.meta);
          open := open + [Define(next, e.meta)];
          ids, added := ids[e.meta := next], added + {e.meta};
          next := next + 1;
        }
        AddSample(file + frames, open, ids, next, rows + entries[..i], e);
        open := open + [Record.Sample(ids[e.meta], e.row)];
        assert rows + entries[..i] + [e] == rows + entries[..i + 1];
      }
      CloseFrame(file + frames, open, ids, next, rows + entries[..|entries|]);
      assert entries[..|entries|] == entries && file + frames + [open] == file + (frames + [open]);
      frames := frames + [open];
    }

    /** Writes a batch with one write. When that fails, after `left` whole frames, the log is cut back if that succeeds,
        and the numbers the batch defined are forgotten; otherwise what was written stays behind what the store counts,
        and nothing is written any more. `junk` are the rows that stay. */
    method Write(entries: seq<Entry>, full: Frame -> bool, fails: bool, left: nat, cut: bool)
      returns (ok: bool, ghost junk: seq<Entry>)
      requires Valid()
      modifies this
      ensures Valid() && (ok <==> !old(stuck) && !fails) && (stuck <==> old(stuck) || (fails && !cut))
      ensures junk <= entries
      ensures ok ==> rows == old(rows) + entries && Rows() == LogMore(old(Rows()), RowsOf(entries), false)
      ensures !ok ==> ids == old(ids) && next == old(next) && rows == old(rows) && size == old(size)
                      && old(file) <= file && (old(stuck) || cut ==> file == old(file))
      ensures !ok && !old(stuck) ==> Rows() == Junked(old(Rows()), RowsOf(junk), cut)
      ensures old(stuck) ==> Rows() == old(Rows())
    {
      hide Decode, Good, Reads;
      junk := [];
      if stuck {
        return false, [];
      }
      assert file[..size] == file;
      var next0 := next;
      var frames, added := Encode(entries, full);
      WrittenRows(file, old(ids), old(next), rows);
      WrittenRows(file + frames, ids, next, rows + entries);
      if fails {
        ids, next := ids - added, next0;
        if !cut {
          junk := Remains(file, frames, Min(left, |frames|), rows, entries);
          AsLogLeft(file, frames[..Min(left, |frames|)], size, synced, rows, junk);
          file := file + frames[..Min(left, |frames|)];
          assert file[..size] == old(file);
          stuck := true;
        }
        return false, junk;
      }
      AsLogMore(file, frames, synced, rows, entries);
      file := file + frames;
      size := |file|;
      rows := rows + entries;
      assert file[..size] == file;
      ok := true;
    }

    /** A sync makes every frame written durable. */
    method Sync()
      requires Valid() && !stuck
      modifies this`synced
      ensures Valid() && Rows() == old(Rows()).(synced := |old(Rows()).file|)
    {
      synced := size;
      assert file[..size] == file;
    }

    /** Reopens the log when only its first k frames survive: numbering goes on behind the greatest number read. */
    method Reopen(k: nat)
      requires Valid() && synced <= k <= |file|
      modifies this
      ensures Valid() && file == old(file)[..k] && !stuck && (k <= old(size) ==> rows <= old(rows))
              && (k >= old(size) ==> old(rows) <= rows)
      ensures var n := |rows|;
              old(Rows()).synced <= n <= |old(Rows()).file| && Rows() == Log(old(Rows()).file[..n], n, n)
    {
      hide Decode, Reads;
      ReopenedGood(file, k);
      var read := Decode(file[..k]);
      assert file[..|file|] == file;
      ReopenedRows(file, k, size, synced, ids, next, rows);
      ids, next := Renumber(read.0);
      file, rows := file[..k], read.1;
      size, synced, stuck := k, k, false;
      assert file[..k] == file;
      ReadWritten(file, ids, next);
    }
  }

  /** What was written decodes to its rows. */
  lemma WrittenRows(file: seq<Frame>, ids: map<Desc, nat>, next: nat, rows: seq<Entry>)
    requires Reads(file, [], ids, next, rows)
    ensures Decode(file).1 == rows && Good(file)
  {
    hide Decode, Good, Match;
  }

  lemma ReadWritten(file: seq<Frame>, ids: map<Desc, nat>, next: nat)
    requires Good(file) && Match(ids, next, Decode(file).0)
    ensures Reads(file, [], ids, next, Decode(file).1)
  {
    hide Decode, Match;
    assert file[..|file|] == file;
    assert Decode(file).1 + [] == Decode(file).1;
  }

  /** The rows of the frames that stay when a write fails after the first n: some of the batch's first. */
  lemma Remains(file: seq<Frame>, frames: seq<Frame>, n: nat, rows: seq<Entry>, entries: seq<Entry>)
    returns (junk: seq<Entry>)
    requires n <= |frames| && Good(file + frames) && Decode(file).1 == rows && Decode(file + frames).1 == rows + entries
    ensures junk <= entries && Good(file + frames[..n]) && Decode(file + frames[..n]).1 == rows + junk
  {
    hide Decode;
    var file', k := file + frames[..n], |file| + n;
    assert (file + frames)[..k] == file';
    ReopenedGood(file + frames, k);
    assert file'[..|file|] == file;
    DecodeGrows(file', |file|);
    DecodeGrows(file + frames, k);
    junk := Decode(file').1[|rows|..];
    assert Decode(file').1 == rows + junk;
  }

  lemma AsLogMore(file: seq<Frame>, frames: seq<Frame>, synced: nat, rows: seq<Entry>, entries: seq<Entry>)
    requires synced <= |file| && Decode(file).1 == rows && Decode(file + frames).1 == rows + entries
    ensures AsLog(file + frames, |file + frames|, synced)
            == LogMore(AsLog(file, |file|, synced), RowsOf(entries), false)
  {
    hide Decode;
    assert file[..|file|] == file && (file + frames)[..|file + frames|] == file + frames;
    assert (file + frames)[..synced] == file[..synced];
    DecodeGrows(file, synced);
    RowsOfMore(rows, entries);
    if entries == [] { assert rows + entries == rows; }
    assert RowsOf(rows)[..|rows|] == RowsOf(rows);
  }

  lemma AsLogLeft(file: seq<Frame>, more: seq<Frame>, size: nat, synced: nat, rows: seq<Entry>, junk: seq<Entry>)
    requires synced <= size == |file| && Decode(file).1 == rows && Decode(file + more).1 == rows + junk
    ensures AsLog(file + more, size, synced) == Junked(AsLog(file, size, synced), RowsOf(junk), false)
  {
    hide Decode;
    assert file[..|file|] == file && (file + more)[..size] == file;
    assert (file + more)[..synced] == file[..synced];
    DecodeGrows(file, synced);
    RowsOfMore(rows, junk);
    assert RowsOf(rows)[..|rows|] == RowsOf(rows);
  }

  lemma ReopenedRows(file: seq<Frame>, k: nat, size: nat, synced: nat, ids: map<Desc, nat>, next: nat, rows: seq<Entry>)
    requires synced <= size <= |file| && synced <= k <= |file| && Reads(file[..size], [], ids, next, rows)
    ensures var read := Decode(file[..k]).1;
            && (k <= size ==> read <= rows) && (k >= size ==> rows <= read)
            && |Decode(file[..synced]).1| <= |read| <= |Decode(file).1|
            && AsLog(file[..k], k, k) == Log(RowsOf(Decode(file).1)[..|read|], |read|, |read|)
  {
    hide Decode, Reads;
    WrittenRows(file[..size], ids, next, rows);
    DecodeGrows(file, k);
    if k <= size {
      assert file[..size][..k] == file[..k];
      DecodeGrows(file[..size], k);
    } else {
      assert file[..k][..size] == file[..size];
      DecodeGrows(file[..k], size);
    }
    assert file[..k][..synced] == file[..synced] && file[..k][..k] == file[..k];
    DecodeGrows(file[..k], synced);
    RowsOfFirst(Decode(file).1, |Decode(file[..k]).1|);
  }

  /** The numbering that goes on from the numbers read. */
  method Renumber(metas: map<nat, Desc>) returns (ids: map<Desc, nat>, next: nat)
    requires Injective(metas)
    ensures next >= 1 && Match(ids, next, metas)
  {
    ids, next := map[], 1;
    var rest := metas.Keys;
    while rest != {}
      invariant rest <= metas.Keys && next >= 1
      invariant forall m <- ids :: ids[m] in metas && metas[ids[m]] == m && ids[m] < next
      invariant forall n <- metas :: n in rest || (metas[n] in ids && ids[metas[n]] == n)
      decreases rest
    {
      NonemptyNumbers(rest);
      var n :| n in rest;
      ids := ids[metas[n] := n];
      if n + 1 > next {
        next := n + 1;
      }
      rest := rest - {n};
    }
  }

  lemma ReopenedGood(file: seq<Frame>, k: nat)
    requires Good(file) && k <= |file|
    ensures Good(file[..k])
  {
    forall j | 0 <= j <= k
      ensures Injective(Decode(file[..k][..j]).0) && Decode(file[..k][..j]).2 == 0
              && Decode(file[..k][..j]).1 <= Decode(file[..k]).1
    {
      assert file[..k][..j] == file[..j];
      DecodeGrows(file[..k], j);
    }
  }

  lemma {:induction false} DecodeGrows(file: seq<Frame>, j: nat)
    requires j <= |file|
    ensures Decode(file[..j]).1 <= Decode(file).1
    decreases file
  {
    if j == |file| {
      assert file[..j] == file;
    } else {
      var init := file[..|file| - 1];
      DecodeGrows(init, j);
      assert init[..j] == file[..j];
    }
  }

  lemma NonemptyNumbers(s: set<nat>)
    ensures s == {} || exists n :: n in s
  {
    if forall n :: n !in s { assert s == {}; }
  }
}
