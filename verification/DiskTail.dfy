/** The part of a line queue that is on disk: numbered segment files, appended at the back, taken from the front. */
module DiskTail {
  import opened Common

  /** The length of a line; it is the text of a message, so never empty. */
  type Length = n: int | n > 0 witness 1

  /** A queued line; `id` is its place in the order of pushes. */
  datatype Line = Line(id: nat, size: Length)

  const SEGMENT_BYTES := 8_388_608

  /** Segments on disk oldest first, the ones taken and not done yet, the next number, the segment being written,
      the counts of what is not taken, and the files. */
  datatype Disk = Disk(segs: seq<int>, taken: set<int>, next: int, writeSeg: Option<int>, writeBytes: nat,
                       bytes: int, lines: int, dropped: nat, files: map<int, seq<Line>>)

  function Bytes(ls: seq<Line>): nat { if ls == [] then 0 else ls[0].size + 1 + Bytes(ls[1..]) }

  predicate Known(segs: seq<int>, files: map<int, seq<Line>>) { forall i :: 0 <= i < |segs| ==> segs[i] in files }

  /** A file that cannot be read counts as empty. */
  function ReadOrEmpty(files: map<int, seq<Line>>, s: int): seq<Line> { if s in files then files[s] else [] }

  /** The lines of the segments, in order. */
  function Concat(segs: seq<int>, files: map<int, seq<Line>>): seq<Line> {
    if segs == [] then [] else ReadOrEmpty(files, segs[0]) + Concat(segs[1..], files)
  }

  function Content(d: Disk): seq<Line> { Concat(d.segs, d.files) }

  predicate Increasing(s: seq<int>) { forall i, j :: 0 <= i < j < |s| ==> s[i] < s[j] }

  predicate Among(s: seq<int>, x: int) { exists i :: 0 <= i < |s| && s[i] == x }

  /** The numbers are in order: what is taken, then the segments. */
  ghost predicate Numbered(d: Disk) {
    && Increasing(d.segs)
    && (forall t <- d.taken :: forall i :: 0 <= i < |d.segs| ==> t < d.segs[i])
    && (d.writeSeg.Some? ==> d.segs != [] && d.segs[|d.segs| - 1] == d.writeSeg.value)
  }

  /** The next number is past every other, and the bytes of the segment being written are counted. */
  ghost predicate NextOk(d: Disk) {
    && (forall i :: 0 <= i < |d.segs| ==> d.segs[i] < d.next) && (forall t <- d.taken :: t < d.next)
    && (d.writeSeg.Some? ==> d.writeBytes == Bytes(ReadOrEmpty(d.files, d.writeSeg.value)))
  }

  predicate NoneEmpty(files: map<int, seq<Line>>) { forall f <- files :: files[f] != [] }

  /** Every file is a segment's, taken or not. */
  ghost predicate Owned(d: Disk) {
    Known(d.segs, d.files) && d.taken <= d.files.Keys && forall f <- d.files :: f in d.taken || Among(d.segs, f)
  }

  ghost predicate DiskOk(d: Disk) {
    Owned(d) && Numbered(d) && d.bytes == Bytes(Content(d)) && d.lines == |Content(d)|
  }

  lemma {:induction false} BytesAdd(a: seq<Line>, b: seq<Line>)
    ensures Bytes(a + b) == Bytes(a) + Bytes(b)
    decreases a
  {
    if a == [] {
      assert a + b == b;
    } else {
      assert (a + b)[1..] == a[1..] + b;
      BytesAdd(a[1..], b);
    }
  }

  lemma {:induction false} ConcatSame(segs: seq<int>, files: map<int, seq<Line>>, files': map<int, seq<Line>>)
    requires Known(segs, files) && Known(segs, files') && forall i :: 0 <= i < |segs| ==>
               files'[segs[i]] == files[segs[i]]
    ensures Concat(segs, files') == Concat(segs, files)
    decreases segs
  {
    if segs != [] { ConcatSame(segs[1..], files, files'); }
  }

  lemma {:induction false} ConcatSnoc(a: seq<int>, s: int, files: map<int, seq<Line>>)
    requires Known(a, files) && s in files
    ensures Known(a + [s], files) && Concat(a + [s], files) == Concat(a, files) + files[s]
    decreases a
  {
    if a != [] {
      assert (a + [s])[1..] == a[1..] + [s];
      ConcatSnoc(a[1..], s, files);
    }
  }

  /** The files of taken segments are untouched. */
  predicate TakenSame(taken: set<int>, files: map<int, seq<Line>>, files': map<int, seq<Line>>) {
    forall t <- taken :: t in files ==> t in files' && files'[t] == files[t]
  }

  // --- appending ---

  /** The disk with a segment to write to, a new one when there is none or it is full. */
  function Opened(d: Disk): Disk {
    if d.writeSeg.None? || d.writeBytes >= SEGMENT_BYTES then
      d.(segs := d.segs + [d.next], next := d.next + 1, writeSeg := Some(d.next), writeBytes := 0,
          files := d.files[d.next := []])
    else d
  }

  lemma OpenedOk(d: Disk)
    requires DiskOk(d) && NextOk(d)
    ensures DiskOk(Opened(d)) && NextOk(Opened(d)) && Content(Opened(d)) == Content(d) && Opened(d).writeSeg.Some?
            && TakenSame(d.taken, d.files, Opened(d).files)
    ensures Opened(d).segs != []
  {
    hide Concat, Bytes;
    if d.writeSeg.None? || d.writeBytes >= SEGMENT_BYTES {
      var d' := Opened(d);
      assert Known(d.segs, d'.files);
      ConcatSame(d.segs, d.files, d'.files);
      ConcatSnoc(d.segs, d.next, d'.files);
      NoBytes();
      assert Content(d) + [] == Content(d);
      forall f <- d'.files ensures f in d'.taken || Among(d'.segs, f) { AmongSnoc(d.segs, d.next, f); }
    }
  }

  lemma AmongSnoc(s: seq<int>, x: int, f: int)
    ensures Among(s + [x], f) <==> Among(s, f) || f == x
  {
    if Among(s, f) {
      var i :| 0 <= i < |s| && s[i] == f;
      assert (s + [x])[i] == f;
    }
    assert (s + [x])[|s|] == x;
  }

  /** The lines behind everything in the segment being written. */
  function Wrote(d: Disk, ls: seq<Line>): Disk
    requires d.writeSeg.Some? && d.writeSeg.value in d.files
  {
    var w := d.writeSeg.value;
    d.(files := d.files[w := d.files[w] + ls], writeBytes := d.writeBytes + Bytes(ls), bytes := d.bytes + Bytes(ls),
        lines := d.lines + |ls|)
  }

  lemma WroteOk(d: Disk, ls: seq<Line>)
    requires DiskOk(d) && d.writeSeg.Some?
    ensures d.writeSeg.value in d.files && DiskOk(Wrote(d, ls)) && Content(Wrote(d, ls)) == Content(d) + ls
            && TakenSame(d.taken, d.files, Wrote(d, ls).files)
  {
    hide Concat, Bytes;
    var n, w := |d.segs| - 1, d.writeSeg.value;
    var init, d' := d.segs[..n], Wrote(d, ls);
    assert d.segs == init + [w];
    ConcatSnoc(init, w, d.files);
    ConcatSnoc(init, w, d'.files);
    ConcatSame(init, d.files, d'.files);
    assert Content(d') == Content(d) + ls;
    BytesAdd(Content(d), ls);
  }

  lemma NoneConcat(segs: seq<int>, files: map<int, seq<Line>>)
    ensures segs[..0] == [] && Concat(segs[..0], files) == [] && segs[0..] == segs
  {
  }

  /** The segments hold what they held. */
  predicate RestSame(segs: seq<int>, files: map<int, seq<Line>>, files': map<int, seq<Line>>) {
    forall i :: 0 <= i < |segs| ==> ReadOrEmpty(files', segs[i]) == ReadOrEmpty(files, segs[i])
  }

  lemma NothingDropped(segs: seq<int>, taken: set<int>, files: map<int, seq<Line>>)
    ensures RestSame(segs, files, files) && TakenSame(taken, files, files)
  {
  }

  lemma TakenSameOn(taken: set<int>, a: map<int, seq<Line>>, b: map<int, seq<Line>>, c: map<int, seq<Line>>)
    requires TakenSame(taken, a, b) && TakenSame(taken, b, c)
    ensures TakenSame(taken, a, c)
  {
  }

  lemma RestAfter(d: Disk, files: map<int, seq<Line>>)
    requires DiskOk(d) && d.segs != [] && d.segs[0] in d.files && RestSame(d.segs, files, d.files)
    ensures ReadOrEmpty(files, d.segs[0]) == d.files[d.segs[0]]
            && d.bytes == WithoutOldest(d, false).bytes + Bytes(d.files[d.segs[0]])
    ensures RestSame(d.segs[1..], files, WithoutOldest(d, false).files)
  {
    hide Bytes;
    assert ReadOrEmpty(d.files, d.segs[0]) == ReadOrEmpty(files, d.segs[0]);
  }

  /** One segment more at the end of a run of them. */
  lemma {:induction false} ConcatRead(a: seq<int>, s: int, files: map<int, seq<Line>>)
    ensures Concat(a + [s], files) == Concat(a, files) + ReadOrEmpty(files, s)
    decreases a
  {
    if a == [] {
      assert a + [s] == [s] && [s][1..] == [];
    } else {
      assert (a + [s])[1..] == a[1..] + [s];
      ConcatRead(a[1..], s, files);
    }
  }

  lemma DropsOldest(segs: seq<int>, files: map<int, seq<Line>>, k: nat)
    requires k < |segs|
    ensures Concat(segs[..k + 1], files) == Concat(segs[..k], files) + ReadOrEmpty(files, segs[k])
            && segs[k..][1..] == segs[k + 1..]
  {
    assert segs[..k + 1] == segs[..k] + [segs[k]];
    ConcatRead(segs[..k], segs[k], files);
  }

  lemma {:induction false} ConcatReadSame(segs: seq<int>, files: map<int, seq<Line>>, files': map<int, seq<Line>>)
    requires forall i :: 0 <= i < |segs| ==> ReadOrEmpty(files', segs[i]) == ReadOrEmpty(files, segs[i])
    ensures Concat(segs, files') == Concat(segs, files)
    decreases segs
  {
    if segs != [] { ConcatReadSame(segs[1..], files, files'); }
  }

  lemma {:induction false} ConcatSplit(segs: seq<int>, files: map<int, seq<Line>>, k: nat)
    requires k <= |segs|
    ensures Concat(segs, files) == Concat(segs[..k], files) + Concat(segs[k..], files)
    decreases k
  {
    if k == 0 {
      assert segs[..0] == [] && segs[0..] == segs;
    } else {
      ConcatSplit(segs, files, k - 1);
      DropsOldest(segs, files, k - 1);
      assert segs[k - 1..] == [segs[k - 1]] + segs[k..];
    }
  }

  /** The segments before the one being written are as they were before the append. */
  lemma SameOldest(d: Disk, ls: seq<Line>, k: nat)
    requires DiskOk(d) && NextOk(d)
    requires var o := Opened(d); o.writeSeg.Some? && o.writeSeg.value in o.files && k < |o.segs|
    ensures var o := Opened(d);
            var w := Wrote(o, ls);
            && k <= |d.segs| && o.segs[..k] == d.segs[..k]
                && Concat(w.segs[..k], w.files) == Concat(d.segs[..k], d.files)
            && |Concat(d.segs[..k], d.files)| <= |Content(d)|
            && (k > 0 ==>
                w.segs[k - 1] == d.segs[k - 1] && ReadOrEmpty(w.files, w.segs[k - 1])
                == ReadOrEmpty(d.files, d.segs[k - 1]))
  {
    hide Bytes;
    var o := Opened(d);
    var w := Wrote(o, ls);
    forall i | 0 <= i < k
      ensures o.segs[i] == d.segs[i] && ReadOrEmpty(w.files, d.segs[i]) == ReadOrEmpty(d.files, d.segs[i])
    {
    }
    ConcatReadSame(d.segs[..k], d.files, w.files);
    ConcatSplit(d.segs, d.files, k);
  }

  // --- the front ---

  /** The disk without its oldest segment; its file stays if it was taken. */
  function WithoutOldest(d: Disk, take: bool): Disk
    requires d.segs != [] && d.segs[0] in d.files
  {
    var s := d.segs[0];
    d.(segs := d.segs[1..], bytes := d.bytes - Bytes(d.files[s]), lines := d.lines - |d.files[s]|,
       files := if take then d.files else d.files - {s}, taken := if take then d.taken + {s} else d.taken,
       dropped := if take then d.dropped else d.dropped + |d.files[s]|,
       writeSeg := if d.writeSeg == Some(s) then None else d.writeSeg)
  }

  lemma WithoutOldestOk(d: Disk, take: bool)
    requires DiskOk(d) && d.segs != []
    ensures d.segs[0] in d.files && DiskOk(WithoutOldest(d, take))
            && Content(d) == d.files[d.segs[0]] + Content(WithoutOldest(d, take))
    ensures TakenSame(d.taken, d.files, WithoutOldest(d, take).files)
  {
    hide Bytes;
    var s, d' := d.segs[0], WithoutOldest(d, take);
    assert Known(d'.segs, d'.files);
    ConcatSame(d.segs[1..], d.files, d'.files);
    BytesAdd(d.files[s], Content(d'));
    forall f <- d'.files ensures f in d'.taken || Among(d'.segs, f) {
      if f !in d.taken && f != s {
        var i :| 0 <= i < |d.segs| && d.segs[i] == f;
        assert d'.segs[i - 1] == f;
      }
    }
  }

  lemma DoneOk(d: Disk, s: int)
    requires DiskOk(d) && s in d.taken
    ensures var d' := d.(taken := d.taken - {s}, files := d.files - {s});
            DiskOk(d') && Content(d') == Content(d) && (NextOk(d) ==> NextOk(d'))
  {
    hide Bytes, Concat;
    ConcatSame(d.segs, d.files, d.files - {s});
  }

  /** A segment with these lines before every other. */
  function PutFront(d: Disk, ls: seq<Line>): Disk {
    var s := FrontNumber(d.segs);
    d.(segs := [s] + d.segs, files := d.files[s := ls], bytes := d.bytes + Bytes(ls), lines := d.lines + |ls|)
  }

  function FrontNumber(segs: seq<int>): int { (if |segs| > 0 && segs[0] < 0 then segs[0] else 0) - 1 }

  lemma PutFrontOk(d: Disk, ls: seq<Line>)
    requires DiskOk(d) && d.taken == {}
    ensures DiskOk(PutFront(d, ls)) && Content(PutFront(d, ls)) == ls + Content(d)
  {
    hide Bytes, Owned, Numbered, Among, Increasing;
    FrontFirst(d);
    var d' := PutFront(d, ls);
    assert d'.segs[1..] == d.segs;
    assert Known(d.segs, d.files) by { OwnedKnown(d); }
    ConcatSame(d.segs, d.files, d'.files);
    BytesAdd(ls, Content(d));
    PutFrontNumbered(d, ls);
    PutFrontOwned(d, ls);
  }

  lemma OwnedKnown(d: Disk)
    requires Owned(d)
    ensures Known(d.segs, d.files)
  {
  }

  lemma FrontFirst(d: Disk)
    requires Numbered(d)
    ensures forall i :: 0 <= i < |d.segs| ==> FrontNumber(d.segs) < d.segs[i]
  {
    forall i | 0 <= i < |d.segs| ensures FrontNumber(d.segs) < d.segs[i] { assert i > 0 ==> d.segs[0] < d.segs[i]; }
  }

  lemma PutFrontNumbered(d: Disk, ls: seq<Line>)
    requires Numbered(d) && d.taken == {}
    ensures Numbered(PutFront(d, ls))
  {
    FrontFirst(d);
  }

  lemma PutFrontOwned(d: Disk, ls: seq<Line>)
    requires Owned(d) && d.taken == {}
    ensures Owned(PutFront(d, ls))
  {
    var s, d' := FrontNumber(d.segs), PutFront(d, ls);
    forall f <- d'.files ensures Among(d'.segs, f) {
      if f != s {
        var i :| 0 <= i < |d.segs| && d.segs[i] == f;
        assert d'.segs[i + 1] == f;
      } else {
        assert d'.segs[0] == f;
      }
    }
  }

  lemma WroteNext(d: Disk, ls: seq<Line>)
    requires NextOk(d) && d.writeSeg.Some? && d.writeSeg.value in d.files
    ensures NextOk(Wrote(d, ls))
  {
    hide Bytes;
    BytesAdd(d.files[d.writeSeg.value], ls);
  }

  lemma StillWritten(d: Disk)
    requires DiskOk(d) && |d.segs| > 1
    ensures d.writeSeg != Some(d.segs[0])
  {
    hide Bytes, Concat;
  }

  lemma WithoutNext(d: Disk)
    requires DiskOk(d) && NextOk(d) && d.segs != [] && d.segs[0] in d.files
    ensures NextOk(WithoutOldest(d, false)) && NextOk(WithoutOldest(d, true))
    ensures forall i :: 1 <= i < |d.segs| ==> d.segs[i] != d.segs[0]
  {
    hide Bytes;
  }

  /** The lines are behind those of the newest segment: the one being written, or a new one when there is none or it
      has its 8 MiB. */
  ghost predicate WrittenTo(d: Disk, d': Disk, ls: seq<Line>) {
    && d'.segs != [] && d'.writeSeg == Some(d'.segs[|d'.segs| - 1])
    && if d.writeSeg.Some? && Bytes(ReadOrEmpty(d.files, d.writeSeg.value)) < 8_388_608 then
         && d'.writeSeg == d.writeSeg
         && ReadOrEmpty(d'.files, d.writeSeg.value) == ReadOrEmpty(d.files, d.writeSeg.value) + ls
       else d'.writeSeg == Some(d.next) && ReadOrEmpty(d'.files, d.next) == ls
  }

  lemma LastOne(d: Disk)
    requires DiskOk(d) && d.writeSeg.Some?
    ensures d.segs != [] && d.segs[|d.segs| - 1] == d.writeSeg.value && d.writeSeg.value in d.files
  {
    hide Bytes, Concat;
  }

  lemma WrittenLast(d: Disk, o: Disk, d': Disk, ls: seq<Line>)
    requires DiskOk(d) && NextOk(d) && o == Opened(d) && o.writeSeg.Some? && o.writeSeg.value in o.files
    requires var w := Wrote(o, ls);
             d'.writeSeg == w.writeSeg && d'.segs != [] && d'.segs[|d'.segs| - 1] == w.segs[|w.segs| - 1]
             && RestSame(d'.segs, w.files, d'.files)
    requires o.segs != [] && o.segs[|o.segs| - 1] == o.writeSeg.value
    ensures WrittenTo(d, d', ls)
  {
    hide Bytes, Concat;
  }

  class DiskTail {
    const maxBytes: nat
    var segs: seq<int>
    var taken: set<int>
    var next: int
    var writeSeg: Option<int>
    var writeBytes: nat
    var bytes: int
    var lines: int
    var dropped: nat
    var files: map<int, seq<Line>>

    function D(): Disk
      reads this
    {
      Disk(segs, taken, next, writeSeg, writeBytes, bytes, lines, dropped, files)
    }

    ghost predicate Valid()
      reads this
    {
      DiskOk(D()) && NextOk(D())
    }

    /** Loads the segment files of the directory, in the order of their numbers. */
    constructor (maxBytes: nat, files: map<int, seq<Line>>)
      ensures Valid() && this.maxBytes == maxBytes && this.files == files && taken == {} && dropped == 0
              && writeSeg == None
      ensures next == if segs == [] then 0 else segs[|segs| - 1] + 1
    {
      this.maxBytes, this.files := maxBytes, files;
      segs, taken, next, writeSeg, writeBytes, bytes, lines, dropped := [], {}, 0, None, 0, 0, 0, 0;
      new;
      segs, bytes, lines := LoadSegments(files);
      next := if |segs| > 0 then segs[|segs| - 1] + 1 else 0;
      assert forall i :: 0 <= i < |segs| ==> segs[i] <= segs[|segs| - 1];
    }

    /** Appends lines after everything on disk. While the disk part is over its bound its oldest segments go, whole
        ones, but never the one just written. */
    method Append(ls: seq<Line>) returns (ghost gone: seq<Line>, ghost k: nat)
      requires Valid()
      modifies this
      ensures Valid() && taken == old(taken) && dropped == old(dropped) + |gone|
      ensures Content(old(D())) + ls == gone + Content(D())
      ensures TakenSame(taken, old(files), files)
      ensures k <= |old(segs)| && gone == Concat(old(segs)[..k], old(files)) && |gone| <= |Content(old(D()))|
      ensures ls != [] ==> bytes <= maxBytes || |segs| == 1
      ensures if k > 0 then bytes + Bytes(ReadOrEmpty(old(files), old(segs)[k - 1])) > maxBytes else gone == []
      ensures ls == [] ==> D() == old(D())
      ensures ls != [] ==> WrittenTo(old(D()), D(), ls)
      ensures NoneEmpty(old(files)) ==> NoneEmpty(files)
    {
      hide DiskOk, NextOk, Concat, Bytes, Known;
      gone, k := [], 0;
      NoneConcat(segs, files);
      if |ls| == 0 {
        assert Content(D()) + ls == [] + Content(D());
        return;
      }
      OpenedOk(D());
      OpenWrite();
      WroteOk(D(), ls);
      WroteNext(D(), ls);
      files := files[writeSeg.value := files[writeSeg.value] + ls];
      writeBytes, bytes, lines := writeBytes + Bytes(ls), bytes + Bytes(ls), lines + |ls|;
      assert NoneEmpty(old(files)) ==> NoneEmpty(files);
      gone, k := Trim();
      SameOldest(old(D()), ls, k);
      LastOne(Opened(old(D())));
      WrittenLast(old(D()), Opened(old(D())), D(), ls);
    }

    method OpenWrite()
      modifies this`segs, this`files, this`writeSeg, this`writeBytes, this`next
      ensures D() == Opened(old(D())) && next >= old(next)
    {
      if writeSeg.None? || writeBytes >= SEGMENT_BYTES {
        segs, files, writeSeg, writeBytes := segs + [next], files[next := []], Some(next), 0;
        next := next + 1;
      }
    }

    /** Drops the oldest segments, k of them, while the disk part is over its bound, but keeps the last one. */
    method Trim() returns (ghost gone: seq<Line>, ghost k: nat)
      requires Valid()
      modifies this
      ensures Valid() && taken == old(taken) && dropped == old(dropped) + |gone|
      ensures Content(old(D())) == gone + Content(D()) && TakenSame(taken, old(files), files)
      ensures k <= |old(segs)| && segs == old(segs)[k..] && gone == Concat(old(segs)[..k], old(files))
      ensures (old(segs) == [] ==> k == 0) && (old(segs) != [] ==> segs != []) && (bytes <= maxBytes || |segs| <= 1)
      ensures k > 0 ==> bytes + Bytes(ReadOrEmpty(old(files), old(segs)[k - 1])) > maxBytes
      ensures writeSeg == old(writeSeg) && RestSame(segs, old(files), files)
      ensures NoneEmpty(old(files)) ==> NoneEmpty(files)
    {
      hide DiskOk, NextOk, Concat, Content, Bytes, RestSame, TakenSame;
      gone, k := [], 0;
      assert Content(D()) == [] + Content(D());
      NoneConcat(segs, files);
      NothingDropped(segs, taken, files);
      while bytes > maxBytes && |segs| > 1
        invariant Valid() && taken == old(taken) && dropped == old(dropped) + |gone|
        invariant Content(old(D())) == gone + Content(D()) && TakenSame(taken, old(files), files)
        invariant k <= |old(segs)| && segs == old(segs)[k..] && gone == Concat(old(segs)[..k], old(files))
        invariant (k > 0 ==> segs != []) && RestSame(segs, old(files), files) && writeSeg == old(writeSeg)
        invariant NoneEmpty(old(files)) ==> NoneEmpty(files)
        invariant k > 0 ==> bytes + Bytes(ReadOrEmpty(old(files), old(segs)[k - 1])) > maxBytes
        decreases |segs|
      {
        WithoutOldestOk(D(), false);
        WithoutNext(D());
        StillWritten(D());
        DropsOldest(old(segs), old(files), k);
        RestAfter(D(), old(files));
        TakenSameOn(taken, old(files), files, WithoutOldest(D(), false).files);
        gone := gone + files[segs[0]];
        DropFirst();
        k := k + 1;
      }
    }

    method DropFirst()
      requires segs != [] && segs[0] in files
      modifies this
      ensures D() == WithoutOldest(old(D()), false)
    {
      var s := segs[0];
      if writeSeg == Some(s) {
        writeSeg := None;
      }
      bytes, lines, dropped := bytes - Bytes(files[s]), lines - |files[s]|, dropped + |files[s]|;
      segs, files := segs[1..], files - {s};
    }

    /** The oldest segment and its lines; its file stays until done. */
    method Take() returns (t: Option<(int, seq<Line>)>)
      requires Valid()
      modifies this
      ensures Valid() && files == old(files) && dropped == old(dropped)
      ensures t.None? <==> old(segs) == []
      ensures t.None? ==> D() == old(D())
      ensures t.Some? ==> t.value.0 in files && files[t.value.0] == t.value.1 && taken == old(taken) + {t.value.0}
                          && Content(old(D())) == t.value.1 + Content(D())
    {
      hide DiskOk, Concat;
      if |segs| == 0 {
        return None;
      }
      WithoutOldestOk(D(), true);
      var s := segs[0];
      if writeSeg == Some(s) {
        writeSeg := None;
      }
      segs, taken, bytes, lines := segs[1..], taken + {s}, bytes - Bytes(files[s]), lines - |files[s]|;
      t := Some((s, files[s]));
    }

    /** Every line of a taken segment was acknowledged: its file goes. */
    method Done(s: int)
      requires DiskOk(D()) && s in taken
      modifies this`taken, this`files
      ensures D() == old(D()).(taken := old(taken) - {s}, files := old(files) - {s})
      ensures DiskOk(D()) && (old(Valid()) ==> Valid()) && Content(D()) == Content(old(D()))
    {
      hide DiskOk, Concat;
      DoneOk(D(), s);
      taken, files := taken - {s}, files - {s};
    }

    /** Writes lines as a segment before every other. */
    method PutBack(ls: seq<Line>)
      requires Valid() && taken == {}
      modifies this
      ensures DiskOk(D()) && taken == {} && Content(D()) == ls + Content(old(D())) && dropped == old(dropped)
    {
      hide DiskOk, NextOk, Concat;
      if |ls| == 0 {
        assert Content(D()) == ls + Content(D());
        return;
      }
      PutFrontOk(D(), ls);
      var s := FrontNumber(segs);
      segs, files, bytes, lines := [s] + segs, files[s := ls], bytes + Bytes(ls), lines + |ls|;
    }
  }

  /** The segment numbers of the files in order, with what they hold. */
  method LoadSegments(files: map<int, seq<Line>>) returns (segs: seq<int>, bytes: int, lines: int)
    ensures Known(segs, files) && Increasing(segs) && bytes == Bytes(Concat(segs, files))
            && lines == |Concat(segs, files)|
    ensures forall f <- files :: Among(segs, f)
  {
    hide Bytes;
    segs, bytes, lines := [], 0, 0;
    var rest := files.Keys;
    NoBytes();
    while rest != {}
      invariant rest <= files.Keys && Known(segs, files) && Increasing(segs)
      invariant forall f <- files :: f in rest || Among(segs, f)
      invariant forall i :: 0 <= i < |segs| ==> forall x <- rest :: segs[i] < x
      invariant bytes == Bytes(Concat(segs, files)) && lines == |Concat(segs, files)|
      decreases rest
    {
      var s := Least(rest);
      ConcatSnoc(segs, s, files);
      BytesAdd(Concat(segs, files), files[s]);
      bytes, lines := bytes + Bytes(files[s]), lines + |files[s]|;
      forall f <- files ensures f in rest - {s} || Among(segs + [s], f) { AmongSnoc(segs, s, f); }
      segs, rest := segs + [s], rest - {s};
    }
  }

  lemma NoBytes()
    ensures Bytes([]) == 0
  {
  }

  /** The numbers of a directory have one order: two increasing lists of the same files are the same list. */
  lemma {:induction false} SameOrder(a: seq<int>, b: seq<int>)
    requires Increasing(a) && Increasing(b) && forall x :: Among(a, x) <==> Among(b, x)
    ensures a == b
    decreases |a|
  {
    if a == [] || b == [] {
      if b != [] { assert Among(b, b[0]); }
      if a != [] { assert Among(a, a[0]); }
    } else {
      SameFirst(a, b);
      forall x ensures Among(a[1..], x) <==> Among(b[1..], x) {
        AmongRest(a, x);
        AmongRest(b, x);
      }
      SameOrder(a[1..], b[1..]);
      assert a == [a[0]] + a[1..] && b == [b[0]] + b[1..];
    }
  }

  lemma AmongRest(a: seq<int>, x: int)
    requires Increasing(a) && a != []
    ensures Among(a[1..], x) <==> Among(a, x) && x != a[0]
  {
    if Among(a[1..], x) {
      var i :| 0 <= i < |a[1..]| && a[1..][i] == x;
      assert a[i + 1] == x;
    }
    if Among(a, x) && x != a[0] {
      var i :| 0 <= i < |a| && a[i] == x;
      assert a[1..][i - 1] == x;
    }
  }

  lemma FirstIsLeast(a: seq<int>, x: int)
    requires Increasing(a) && Among(a, x)
    ensures a != [] && a[0] <= x
  {
    var i :| 0 <= i < |a| && a[i] == x;
  }

  lemma SameFirst(a: seq<int>, b: seq<int>)
    requires Increasing(a) && Increasing(b) && a != [] && b != [] && forall x :: Among(a, x) <==> Among(b, x)
    ensures a[0] == b[0]
  {
    assert Among(a, a[0]) && Among(b, b[0]);
    FirstIsLeast(a, b[0]);
    FirstIsLeast(b, a[0]);
  }
}
