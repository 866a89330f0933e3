/** Delivery of capture lines: a reader queues their messages in batches, an applier hands the batches to the
    stores, and a line sent again is skipped when its source's mark is past it. What is proved is that a line is
    skipped only when every message of it was in a batch the stores took, however the lines were cut into
    windows and batches, wherever a batch failed and whatever was sent again. */
module Delivery {
  import opened Common

  /** A source of a forwarder. */
  datatype Src = Src(forwarder: nat, name: int)

  /** A message: its size on the line and what it adds to a batch. A bad message, or one that is not for the
      stores, adds nothing. */
  datatype Msg = Msg(size: nat, chunks: nat, samples: nat, ops: nat, events: nat)

  datatype Line = Bad | Blank | Envelope(src: Src, seqNo: Option<int>, recv: TimeMs, msgs: seq<Msg>)

  /** The lines each forwarder has to send, in order. */
  type World = w: seq<seq<Line>> |
    forall f, j :: 0 <= f < |w| && 0 <= j < |w[f]| && w[f][j].Envelope? ==> w[f][j].src.forwarder == f
    witness []

  datatype Ref = Ref(forwarder: nat, line: nat, msg: nat)

  /** A source's last envelope applied. */
  datatype Mark = Mark(seqNo: int, recv: TimeMs)

  type Marks = map<Src, Mark>

  datatype Batch = Batch(msgs: set<Ref>, chunks: nat, samples: nat, events: nat, marks: Marks)

  const EMPTY := Batch({}, 0, 0, 0, map[])

  function Msgs(l: Line): seq<Msg> { if l.Envelope? then l.msgs else [] }

  predicate Stored(m: Msg) { m.chunks + m.ops + m.events > 0 }

  /** A batch holds the message, if it has a chunk, a journey operation or an overlay event. */
  ghost predicate Has(w: World, f: nat, j: nat, i: nat, s: set<Ref>)
    requires f < |w| && j < |w[f]| && i < |Msgs(w[f][j])|
  {
    var m := Msgs(w[f][j])[i];
    m.chunks > 0 || m.ops > 0 || m.events > 0 ==> Ref(f, j, i) in s
  }

  /** The first n messages of the line are in s. */
  ghost predicate Part(w: World, f: nat, j: nat, n: nat, s: set<Ref>)
    requires f < |w| && j < |w[f]|
  {
    n <= |Msgs(w[f][j])| && forall i: nat :: i < n ==> Has(w, f, j, i, s)
  }

  ghost predicate Whole(w: World, f: nat, j: nat, s: set<Ref>)
    requires f < |w| && j < |w[f]|
  {
    Part(w, f, j, |Msgs(w[f][j])|, s)
  }

  /** All lines of the forwarder before `to` are in s. */
  ghost predicate Before(w: World, f: nat, to: nat, s: set<Ref>)
    requires f < |w|
  {
    to <= |w[f]| && forall j: nat :: j < to ==> Whole(w, f, j, s)
  }

  predicate Numbered(w: World, src: Src, i: nat) {
    src.forwarder < |w| && i < |w[src.forwarder]| && w[src.forwarder][i].Envelope? && w[src.forwarder][i].src == src
        && w[src.forwarder][i].seqNo.Some?
  }

  function MarkAt(w: World, src: Src, i: nat): Mark
    requires Numbered(w, src, i)
  {
    Mark(w[src.forwarder][i].seqNo.value, w[src.forwarder][i].recv)
  }

  /** The mark is a line's, and every message up to that line's end is in s. */
  ghost predicate MarkOk(w: World, src: Src, mk: Mark, s: set<Ref>) {
    exists i: nat :: Numbered(w, src, i) && mk == MarkAt(w, src, i) && Before(w, src.forwarder, i + 1, s)
  }

  ghost predicate MarksOk(w: World, marks: Marks, s: set<Ref>) {
    forall src <- marks :: MarkOk(w, src, marks[src], s)
  }

  /** The mark is at or past an envelope's number and time. */
  predicate Past(mk: Mark, x: Mark) { x.seqNo <= mk.seqNo && x.recv <= mk.recv }

  predicate Duplicate(marks: Marks, src: Src, mk: Mark) { src in marks && Past(marks[src], mk) }

  /** Each envelope of a source has a higher number or a later time than the ones before it. */
  ghost predicate InOrder(w: World) {
    forall src: Src, i: nat, k: nat :: i < k && Numbered(w, src, i) && Numbered(w, src, k) ==>
        MarkAt(w, src, k).seqNo > MarkAt(w, src, i).seqNo || MarkAt(w, src, k).recv > MarkAt(w, src, i).recv
  }

  /** ... and neither goes back. */
  ghost predicate NeverBack(w: World) {
    forall src: Src, i: nat, k: nat :: i <= k && Numbered(w, src, i) && Numbered(w, src, k) ==>
        MarkAt(w, src, k).seqNo >= MarkAt(w, src, i).seqNo && MarkAt(w, src, k).recv >= MarkAt(w, src, i).recv
  }

  function Note(marks: Marks, src: Src, mk: Mark): Marks {
    if src !in marks || mk.seqNo > marks[src].seqNo || mk.recv > marks[src].recv then marks[src := mk] else marks
  }

  // --- lemmas ---

  lemma BeforeMore(w: World, f: nat, to: nat, to': nat, s: set<Ref>, s': set<Ref>)
    requires f < |w| && Before(w, f, to, s) && to' <= to && s <= s'
    ensures Before(w, f, to', s')
  {
    forall j: nat | j < to' ensures Whole(w, f, j, s') {
      assert Whole(w, f, j, s);
      forall i: nat | i < |Msgs(w[f][j])| ensures Has(w, f, j, i, s') { assert Has(w, f, j, i, s); }
    }
  }

  lemma MarksMore(w: World, marks: Marks, s: set<Ref>, s': set<Ref>)
    requires MarksOk(w, marks, s) && s <= s'
    ensures MarksOk(w, marks, s')
  {
    forall src <- marks ensures MarkOk(w, src, marks[src], s') {
      var i: nat :| Numbered(w, src, i) && marks[src] == MarkAt(w, src, i) && Before(w, src.forwarder, i + 1, s);
      BeforeMore(w, src.forwarder, i + 1, i + 1, s, s');
    }
  }

  /** A line its source's mark is past has all its messages in taken batches. */
  lemma SkippedIsTaken(w: World, marks: Marks, taken: set<Ref>, src: Src, j: nat)
    requires InOrder(w) && MarksOk(w, marks, taken)
    requires Numbered(w, src, j) && src in marks
    requires var l := w[src.forwarder][j]; l.seqNo.value <= marks[src].seqNo && l.recv <= marks[src].recv
    ensures Before(w, src.forwarder, j + 1, taken)
  {
    var i: nat :| Numbered(w, src, i) && marks[src] == MarkAt(w, src, i) && Before(w, src.forwarder, i + 1, taken);
    assert j <= i;
    BeforeMore(w, src.forwarder, i + 1, j + 1, taken, taken);
  }

  lemma NoteOk(w: World, marks: Marks, src: Src, mk: Mark, s: set<Ref>)
    requires MarksOk(w, marks, s) && MarkOk(w, src, mk, s)
    ensures MarksOk(w, Note(marks, src, mk), s)
  {}

  /** A mark noted hides no line that it or the mark before it is past. */
  lemma NotePast(w: World, marks: Marks, src: Src, mk: Mark, s: set<Ref>, x: Src, y: Mark)
    requires NeverBack(w) && MarksOk(w, marks, s) && MarkOk(w, src, mk, s)
    requires Duplicate(marks, x, y) || (x == src && Past(mk, y))
    ensures Duplicate(Note(marks, src, mk), x, y)
  {
    if x == src && src in marks {
      var i: nat :| Numbered(w, src, i) && marks[src] == MarkAt(w, src, i);
      var k: nat :| Numbered(w, src, k) && mk == MarkAt(w, src, k);
      assert if i <= k then Past(mk, marks[src]) else Past(marks[src], mk);
    }
  }

  datatype Place = Place(at: nat, part: nat)

  // --- the pipeline: r is being applied, q waits, b is queued by the reader ---

  ghost predicate PipeOk(w: World, taken: set<Ref>, r: Batch, q: Batch, b: Batch) {
    && MarksOk(w, r.marks, taken + r.msgs)
    && MarksOk(w, q.marks, taken + r.msgs + q.msgs)
    && MarksOk(w, b.marks, taken + r.msgs + q.msgs + b.msgs)
  }

  /** The reader's place: it began the lines before `at`, and `part` messages of the last one. Between the last
      line's end and the next begin, and for a line skipped, it is in no line. */
  predicate PlaceOk(w: World, f: nat, at: nat, part: nat, cur: Option<nat>) {
    && (at == 0 ==> cur.None?)
    && (at > 0 ==>
        f < |w| && at <= |w[f]| && part <= |Msgs(w[f][at - 1])|
        && (cur.Some? ==> cur.value == at - 1 && w[f][at - 1].Envelope?))
  }

  predicate LineDone(w: World, f: nat, at: nat, part: nat) {
    at == 0 || (f < |w| && at <= |w[f]| && part == |Msgs(w[f][at - 1])|)
  }

  /** What was read is in the taken batches and the pipeline. */
  ghost predicate ReadOk(w: World, f: nat, at: nat, part: nat, cur: Option<nat>, all: set<Ref>)
    requires PlaceOk(w, f, at, part, cur)
  {
    at > 0 ==> Before(w, f, at - 1, all) && Part(w, f, at - 1, part, all) && (cur.None? ==> Before(w, f, at, all))
  }

  predicate Known(marks: Marks, r: Batch, q: Batch, b: Batch, src: Src, x: Mark) {
    Duplicate(marks, src, x) || Duplicate(r.marks, src, x) || Duplicate(q.marks, src, x) || Duplicate(b.marks, src, x)
  }

  /** Every line read to its end has its mark, in the table or on its way there. */
  ghost predicate KnownOk(w: World, f: nat, at: nat, cur: Option<nat>, marks: Marks, r: Batch, q: Batch, b: Batch) {
    forall src: Src, j: nat :: src.forwarder == f && j < at && Numbered(w, src, j) && cur != Some(j) ==>
        Known(marks, r, q, b, src, MarkAt(w, src, j))
  }

  /** All lines of the forwarder before n are taken, and each is a duplicate from now on. */
  ghost predicate Acked(w: World, f: nat, n: nat, marks: Marks, taken: set<Ref>) {
    && (n > 0 ==> f < |w| && Before(w, f, n, taken))
    && (NeverBack(w) ==> forall src: Src, j: nat :: src.forwarder == f && j < n && Numbered(w, src, j) ==>
        Duplicate(marks, src, MarkAt(w, src, j)))
  }

  /** Of each numbered line of the forwarder before n, the mark of its source has its number and time or later ones. */
  ghost predicate Passed(w: World, f: nat, n: nat, marks: Marks) {
    forall src: Src, j: nat :: src.forwarder == f && j < n && Numbered(w, src, j) ==>
        src in marks && w[f][j].seqNo.value <= marks[src].seqNo && w[f][j].recv <= marks[src].recv
  }

  /** The table keeps what it knew. */
  ghost predicate Remembers(marks: Marks, marks': Marks) {
    forall src: Src, x: Mark :: Duplicate(marks, src, x) ==> Duplicate(marks', src, x)
  }

  /** Notes a taken batch's marks in the table. */
  method Merge(w: World, marks: Marks, more: Marks, ghost s: set<Ref>) returns (t: Marks)
    requires MarksOk(w, marks, s) && MarksOk(w, more, s)
    ensures MarksOk(w, t, s)
    ensures NeverBack(w) ==> Remembers(marks, t) && Remembers(more, t)
    ensures forall src <- t :: src in marks || src in more
    ensures forall src :: src !in more && src in marks ==> src in t && t[src] == marks[src]
  {
    t := marks;
    var rest := more.Keys;
    while rest != {}
      invariant rest <= more.Keys && MarksOk(w, t, s)
      invariant NeverBack(w) ==> Remembers(marks, t)
      invariant NeverBack(w) ==> forall src: Src, x: Mark :: src !in rest && Duplicate(more, src, x) ==>
                  Duplicate(t, src, x)
      invariant forall src <- t :: src in marks || src in more
      invariant forall src :: src !in more && src in marks ==> src in t && t[src] == marks[src]
      decreases rest
    {
      var src :| src in rest;
      if NeverBack(w) {
        forall x: Src, y: Mark | Duplicate(t, x, y) || (x == src && Past(more[src], y))
            ensures Duplicate(Note(t, src, more[src]), x, y) {
          NotePast(w, t, src, more[src], s, x, y);
        }
      }
      NoteOk(w, t, src, more[src], s);
      t := Note(t, src, more[src]);
      rest := rest - {src};
    }
  }

  lemma AckedMore(w: World, f: nat, n: nat, marks: Marks, taken: set<Ref>, marks': Marks, taken': set<Ref>)
    requires Acked(w, f, n, marks, taken) && taken <= taken' && (NeverBack(w) ==> Remembers(marks, marks'))
    ensures Acked(w, f, n, marks', taken')
  {
    if n > 0 {
      BeforeMore(w, f, n, n, taken, taken');
    }
  }

  ghost function All(taken: set<Ref>, r: Batch, q: Batch, b: Batch): set<Ref> { taken + r.msgs + q.msgs + b.msgs }

  /** While no batch failed: the batches' marks, the reader's place and what it knows go together. */
  ghost predicate Flow(w: World, f: nat, p: Place, cur: Option<nat>, marks: Marks, taken: set<Ref>, r: Batch, q: Batch,
                       b: Batch) {
    && PlaceOk(w, f, p.at, p.part, cur)
    && PipeOk(w, taken, r, q, b) && ReadOk(w, f, p.at, p.part, cur, All(taken, r, q, b))
    && (NeverBack(w) ==> KnownOk(w, f, p.at, cur, marks, r, q, b))
  }

  lemma FlowShift(w: World, f: nat, p: Place, cur: Option<nat>, marks: Marks, taken: set<Ref>, q: Batch, b: Batch)
    requires Flow(w, f, p, cur, marks, taken, EMPTY, q, b)
    ensures Flow(w, f, p, cur, marks, taken, q, EMPTY, b)
  {
    hide Before, Part, MarkOk;
    assert taken + EMPTY.msgs + q.msgs == taken + q.msgs == taken + q.msgs + EMPTY.msgs;
    assert All(taken, EMPTY, q, b) == All(taken, q, EMPTY, b);
  }

  lemma NextMarks(w: World, f: nat, p: Place, cur: Option<nat>, marks: Marks, taken: set<Ref>, r: Batch, q: Batch,
                  b: Batch)
    requires Flow(w, f, p, cur, marks, taken, r, q, b) && MarksOk(w, marks, taken)
    ensures MarksOk(w, r.marks, taken + r.msgs) && MarksOk(w, marks, taken + r.msgs)
  {
    MarksMore(w, marks, taken, taken + r.msgs);
  }

  lemma FlowTaken(w: World, f: nat, p: Place, cur: Option<nat>, marks: Marks, taken: set<Ref>, r: Batch, q: Batch,
                  b: Batch, marks': Marks)
    requires Flow(w, f, p, cur, marks, taken, r, q, b)
    requires NeverBack(w) ==> Remembers(marks, marks') && Remembers(r.marks, marks')
    ensures Flow(w, f, p, cur, marks', taken + r.msgs, EMPTY, q, b)
  {
    hide Before, Part, MarkOk, NeverBack;
    assert taken + r.msgs + EMPTY.msgs == taken + r.msgs;
    assert All(taken + r.msgs, EMPTY, q, b) == All(taken, r, q, b);
  }

  /** The line read to its end is noted in the batch. */
  lemma FlowFinish(w: World, f: nat, p: Place, cur: Option<nat>, marks: Marks, taken: set<Ref>, r: Batch, q: Batch,
                   b: Batch, b': Batch)
    requires Flow(w, f, p, cur, marks, taken, r, q, b) && LineDone(w, f, p.at, p.part) && cur.Some?
    requires var l := w[f][p.at - 1];
             b' == if l.seqNo.Some? then b.(marks := Note(b.marks, l.src, Mark(l.seqNo.value, l.recv))) else b
    ensures Flow(w, f, p, None, marks, taken, r, q, b')
  {
    hide Past, MarkOk, PipeOk;
    var l := w[f][p.at - 1];
    var all := All(taken, r, q, b);
    assert Before(w, f, p.at, all);
    assert PipeOk(w, taken, r, q, b') && (NeverBack(w) ==> KnownOk(w, f, p.at, None, marks, r, q, b')) by {
      if l.seqNo.Some? {
        FlowNoted(w, f, p, cur, marks, taken, r, q, b);
      }
    }
  }

  lemma FlowNoted(w: World, f: nat, p: Place, cur: Option<nat>, marks: Marks, taken: set<Ref>, r: Batch, q: Batch,
                  b: Batch)
    requires Flow(w, f, p, cur, marks, taken, r, q, b) && cur.Some? && Before(w, f, p.at, All(taken, r, q, b))
    requires Numbered(w, w[f][p.at - 1].src, p.at - 1)
    ensures var src := w[f][p.at - 1].src; var b' := b.(marks := Note(b.marks, src, MarkAt(w, src, p.at - 1)));
            PipeOk(w, taken, r, q, b') && (NeverBack(w) ==> KnownOk(w, f, p.at, None, marks, r, q, b'))
  {
    hide Before, Part;
    var src := w[f][p.at - 1].src;
    var mk := MarkAt(w, src, p.at - 1);
    var all := All(taken, r, q, b);
    assert MarkOk(w, src, mk, all);
    NoteOk(w, b.marks, src, mk, all);
    if NeverBack(w) {
      var b' := b.(marks := Note(b.marks, src, mk));
      forall x: Src, j: nat | x.forwarder == f && j < p.at && Numbered(w, x, j)
          ensures Known(marks, r, q, b', x, MarkAt(w, x, j)) {
        var y := MarkAt(w, x, j);
        if j == p.at - 1 {
          assert Past(mk, y);
          NotePast(w, b.marks, src, mk, all, x, y);
        } else {
          assert Known(marks, r, q, b, x, y);
          if Duplicate(b.marks, x, y) {
            NotePast(w, b.marks, src, mk, all, x, y);
          }
        }
      }
    }
  }

  /** The next line begins: one without messages or a duplicate is done at once. */
  lemma FlowBegin(w: World, f: nat, p: Place, marks: Marks, taken: set<Ref>, r: Batch, q: Batch, b: Batch, skip: bool)
    requires Flow(w, f, p, None, marks, taken, r, q, b) && f < |w| && p.at < |w[f]|
    requires MarksOk(w, marks, taken) && InOrder(w)
    requires var l := w[f][p.at]; if skip then (!l.Envelope?
             || (l.seqNo.Some? && Duplicate(marks, l.src, Mark(l.seqNo.value, l.recv)))) else l.Envelope?
    requires p.at == 0 ==> Before(w, f, 0, taken)
    ensures Flow(w, f, Place(p.at + 1, 0), if skip then None else Some(p.at), marks, taken, r, q, b)
  {
    hide PipeOk;
    var l := w[f][p.at];
    var all := All(taken, r, q, b);
    assert Before(w, f, p.at, all);
    if skip && l.Envelope? {
      SkippedIsTaken(w, marks, taken, l.src, p.at);
      BeforeMore(w, f, p.at + 1, p.at + 1, taken, all);
    }
  }

  /** A message of the line is queued, or passed over in a line that is skipped. */
  lemma FlowMsg(w: World, f: nat, p: Place, cur: Option<nat>, marks: Marks, taken: set<Ref>, r: Batch, q: Batch,
                b: Batch, b': Batch)
    requires Flow(w, f, p, cur, marks, taken, r, q, b) && p.at > 0 && p.part < |Msgs(w[f][p.at - 1])|
    requires b'.marks == b.marks && b'.msgs == b.msgs + if cur.Some?
             && Stored(Msgs(w[f][p.at - 1])[p.part]) then {Ref(f, p.at - 1, p.part)} else {}
    ensures Flow(w, f, p.(part := p.part + 1), cur, marks, taken, r, q, b')
  {
    hide MarkOk, Past;
    var all, all' := All(taken, r, q, b), All(taken, r, q, b');
    BeforeMore(w, f, p.at - 1, p.at - 1, all, all');
    assert PipeOk(w, taken, r, q, b') by { MarksMore(w, b.marks, all, all'); }
    if cur.None? {
      BeforeMore(w, f, p.at, p.at, all, all');
      assert Whole(w, f, p.at - 1, all');
    }
    var j := p.at - 1;
    forall i: nat | i < p.part + 1 ensures Has(w, f, j, i, all') {
      if i < p.part { assert Has(w, f, j, i, all); }
      else if cur.None? { assert Whole(w, f, j, all'); }
    }
  }

  /** The reader's batch goes to the applier. */
  lemma FlowFlush(w: World, f: nat, p: Place, cur: Option<nat>, marks: Marks, taken: set<Ref>, r: Batch, b: Batch,
                  b': Batch)
    requires Flow(w, f, p, cur, marks, taken, r, EMPTY, b) && b'.msgs == b.msgs && b'.marks == b.marks
    ensures Flow(w, f, p, cur, marks, taken, r, b', EMPTY)
  {
    hide Before, Part, MarkOk;
    assert taken + r.msgs + EMPTY.msgs + b.msgs == taken + r.msgs + b.msgs == taken + r.msgs + b.msgs + EMPTY.msgs;
    assert All(taken, r, EMPTY, b) == All(taken, r, b', EMPTY);
  }

  /** A batch without messages and marks needs no handing over. */
  lemma FlowEmpty(w: World, f: nat, p: Place, cur: Option<nat>, marks: Marks, taken: set<Ref>, r: Batch, q: Batch,
                  b: Batch)
    requires Flow(w, f, p, cur, marks, taken, r, q, b) && b.msgs == {} && b.marks == map[]
    ensures Flow(w, f, p, cur, marks, taken, r, q, EMPTY)
  {
    hide Before, Part, MarkOk;
    assert All(taken, r, q, b) == All(taken, r, q, EMPTY);
  }

  /** A body may start wherever everything before is taken. */
  lemma FlowStart(w: World, f: nat, from: nat, marks: Marks, taken: set<Ref>)
    requires f < |w| && from <= |w[f]| && (from > 0 ==> Acked(w, f, from, marks, taken))
    ensures Flow(w, f, Place(from, if from == 0 then 0 else |Msgs(w[f][from - 1])|), None, marks, taken, EMPTY, EMPTY,
              EMPTY)
  {
    assert All(taken, EMPTY, EMPTY, EMPTY) == taken;
    if from > 0 {
      assert Whole(w, f, from - 1, taken);
    }
  }

  lemma FlowIdle(w: World, f: nat, marks: Marks, taken: set<Ref>)
    ensures Flow(w, f, Place(0, 0), None, marks, taken, EMPTY, EMPTY, EMPTY)
  {}

  lemma FlowEnd(w: World, f: nat, p: Place, marks: Marks, taken: set<Ref>)
    requires Flow(w, f, p, None, marks, taken, EMPTY, EMPTY, EMPTY)
    ensures Acked(w, f, p.at, marks, taken)
  {
    assert All(taken, EMPTY, EMPTY, EMPTY) == taken;
  }

  lemma AckedMeans(w: World, f: nat, n: nat, marks: Marks, taken: set<Ref>)
    requires Acked(w, f, n, marks, taken) && f < |w|
    ensures Before(w, f, n, taken)
    ensures NeverBack(w) ==> Passed(w, f, n, marks)
  {}

  lemma AckedLess(w: World, f: nat, n: nat, n': nat, marks: Marks, taken: set<Ref>)
    requires Acked(w, f, n, marks, taken) && n' <= n
    ensures Acked(w, f, n', marks, taken)
  {
    if n > 0 {
      BeforeMore(w, f, n, n', taken, taken);
    }
  }

  function Of(o: Option<Batch>): Batch { if o.Some? then o.value else EMPTY }

  /** One item of a window: the start of a line, or a message of it. */
  datatype Item = Begin(line: nat) | Item(line: nat, msg: nat)

  predicate Ready(w: World, f: nat, p: Place, it: Item) {
    f < |w| && match it
      case Begin(line) => line == p.at < |w[f]| && LineDone(w, f, p.at, p.part)
      case Item(line, msg) => p.at > 0 && line == p.at - 1 < |w[f]| && msg == p.part < |Msgs(w[f][line])|
  }

  function Next(p: Place, it: Item): Place { if it.Begin? then Place(p.at + 1, 0) else p.(part := p.part + 1) }

  /** The items take the reader from p to q, each line's start and messages in order. */
  ghost predicate Path(w: World, f: nat, p: Place, items: seq<Item>, places: seq<Place>) {
    |places| == |items| + 1 && places[0] == p && Steps(w, f, items, places)
  }

  ghost predicate Steps(w: World, f: nat, items: seq<Item>, places: seq<Place>)
    requires |places| == |items| + 1
  {
    forall k: nat :: k < |items| ==> Ready(w, f, places[k], items[k]) && places[k + 1] == Next(places[k], items[k])
  }

  lemma RemembersMore(a: Marks, b: Marks, c: Marks)
    ensures Remembers(a, b) && Remembers(b, c) ==> Remembers(a, c)
  {}

  lemma PathStart(w: World, f: nat, p: Place)
    ensures Path(w, f, p, [], [p])
  {}

  lemma PathMore(w: World, f: nat, p: Place, items: seq<Item>, places: seq<Place>, it: Item)
    requires Path(w, f, p, items, places) && Ready(w, f, places[|items|], it)
    ensures Path(w, f, p, items + [it], places + [Next(places[|items|], it)])
  {
    hide Ready, Next;
  }

  lemma PathAt(w: World, f: nat, p: Place, items: seq<Item>, places: seq<Place>, k: nat)
    requires Path(w, f, p, items, places) && k < |items|
    ensures Ready(w, f, places[k], items[k]) && places[k + 1] == Next(places[k], items[k])
  {}

  lemma {:induction false} PlacesGrow(w: World, f: nat, p: Place, items: seq<Item>, places: seq<Place>, k: nat)
    requires Path(w, f, p, items, places) && k <= |items|
    ensures places[k].at <= places[|items|].at
    decreases |items| - k
  {
    if k < |items| {
      PathAt(w, f, p, items, places, k);
      PlacesGrow(w, f, p, items, places, k + 1);
    }
  }

  /** After a line's last item in a window the line is done, if nothing of it is left to read. */
  lemma LastOfLine(w: World, f: nat, p: Place, items: seq<Item>, places: seq<Place>, k: nat)
    requires Path(w, f, p, items, places) && k + 1 < |items| && items[k].Item? && items[k + 1].line != items[k].line
    ensures LineDone(w, f, places[k + 1].at, places[k + 1].part)
  {
    assert Ready(w, f, places[k], items[k]) && Ready(w, f, places[k + 1], items[k + 1]);
  }

  class Ingest {
    const lines: World
    const flushChunks: nat
    const flushSamples: nat
    const flushEvents: nat
    const windowMsgs: nat
    const windowBytes: nat

    var marks: Marks
    var fwd: nat
    var cur: Option<nat>
    var batch: Batch
    var running: Option<Batch>
    var waiting: Option<Batch>
    var failed: bool

    /** The messages of the batches the stores took, and per forwarder how many lines it was told are delivered. */
    ghost var taken: set<Ref>
    ghost var acked: map<nat, nat>
    ghost var place: Place

    ghost predicate Shape()
      reads this
    {
      InOrder(lines) && windowMsgs > 0 && windowBytes > 0 && PlaceOk(lines, fwd, place.at, place.part, cur)
    }

    ghost predicate TableOk()
      reads this
    {
      MarksOk(lines, marks, taken) && forall f <- acked :: Acked(lines, f, acked[f], marks, taken)
    }

    ghost predicate Valid()
      reads this
    {
      && Shape() && TableOk()
      && (!failed ==> Flow(lines, fwd, place, cur, marks, taken, Of(running), Of(waiting), batch))
    }

    /** Nothing is being read. */
    ghost predicate Idle()
      reads this
    {
      Valid() && running.None? && waiting.None? && !failed && batch == EMPTY && cur.None? && place == Place(0, 0)
    }

    constructor (lines: World, flushChunks: nat, flushSamples: nat, flushEvents: nat, windowMsgs: nat, windowBytes: nat)
      requires InOrder(lines) && windowMsgs > 0 && windowBytes > 0
      ensures Idle() && this.lines == lines && marks == map[] && taken == {} && acked == map[]
    {
      this.lines, this.flushChunks, this.flushSamples, this.flushEvents := lines, flushChunks, flushSamples,
          flushEvents;
      this.windowMsgs, this.windowBytes := windowMsgs, windowBytes;
      marks, fwd, cur, batch, running, waiting, failed := map[], 0, None, EMPTY, None, None, false;
      taken, acked, place := {}, map[], Place(0, 0);
    }

    /** The applier's next step: it takes the batch that waits, or ends the one it has, which the stores took or
        not. After a failure the batches are only drained. */
    method Step(ok: bool)
      requires Valid()
      modifies this`marks, this`running, this`waiting, this`failed, this`taken
      ensures Valid() && old(taken) <= taken && (old(failed) ==> failed)
      ensures NeverBack(lines) ==> Remembers(old(marks), marks)
      ensures taken == old(taken) || taken == old(taken + Of(running).msgs)
      ensures old(running.None?) ==>
              running == old(waiting) && waiting.None? && marks == old(marks)
              && failed == old(failed)
      ensures old(running.Some?) ==> running.None? && waiting == old(waiting)
      ensures old(running.Some?) && !ok ==> failed && taken == old(taken) && marks == old(marks)
      ensures old(running.Some?) && ok && !old(failed) ==> !failed && taken == old(taken + Of(running).msgs)
    {
      hide Flow, MarksOk, Acked, PlaceOk;
      if running.None? {
        if !failed {
          FlowShift(lines, fwd, place, cur, marks, taken, Of(waiting), batch);
        }
        running, waiting := waiting, None;
      } else if failed {
        running := None;
      } else if !ok {
        failed, running := true, None;
      } else {
        var job := running.value;
        NextMarks(lines, fwd, place, cur, marks, taken, job, Of(waiting), batch);
        var t := Merge(lines, marks, job.marks, taken + job.msgs);
        forall f <- acked ensures Acked(lines, f, acked[f], t, taken + job.msgs) {
          AckedMore(lines, f, acked[f], marks, taken, t, taken + job.msgs);
        }
        FlowTaken(lines, fwd, place, cur, marks, taken, job, Of(waiting), batch, t);
        taken, marks, running := taken + job.msgs, t, None;
      }
    }

    method Interleave()
      requires Valid()
      modifies this`marks, this`running, this`waiting, this`failed, this`taken
      ensures Valid() && old(taken) <= taken && (old(failed) ==> failed)
      ensures NeverBack(lines) ==> Remembers(old(marks), marks)
    {
      var n: nat := *;
      while n > 0
        invariant Valid() && old(taken) <= taken && (old(failed) ==> failed)
        invariant NeverBack(lines) ==> Remembers(old(marks), marks)
      {
        var ok: bool := *;
        Step(ok);
        n := n - 1;
      }
    }

    /** The current line's end: its mark goes with the batch that holds its last messages. */
    method FinishLine()
      requires Valid() && (cur.Some? ==> LineDone(lines, fwd, place.at, place.part))
      modifies this`cur, this`batch
      ensures Valid() && cur.None?
      ensures batch == old(batch).(marks := batch.marks)
    {
      hide Flow, MarksOk, Acked;
      if cur.Some? {
        var l := lines[fwd][cur.value];
        var b := if l.seqNo.Some? then batch.(marks := Note(batch.marks, l.src, Mark(l.seqNo.value, l.recv)))
            else batch;
        if !failed {
          FlowFinish(lines, fwd, place, cur, marks, taken, Of(running), Of(waiting), batch, b);
        }
        batch, cur := b, None;
      }
    }

    /** The next line begins. It is skipped as a duplicate only when all its messages are taken. */
    method BeginLine(j: nat) returns (skipped: bool)
      requires Valid() && LineDone(lines, fwd, place.at, place.part) && fwd < |lines| && j == place.at < |lines[fwd]|
      modifies this`cur, this`batch, this`place
      ensures Valid() && place == Place(j + 1, 0)
      ensures var l := lines[fwd][j]; skipped <==>
              l.Envelope? && l.seqNo.Some? && l.src in marks
              && l.seqNo.value <= marks[l.src].seqNo && l.recv <= marks[l.src].recv
      ensures cur == if skipped || !lines[fwd][j].Envelope? then None else Some(j)
      ensures skipped ==> Before(lines, fwd, place.at, taken)
    {
      hide Flow;
      FinishLine();
      var l := lines[fwd][j];
      skipped := l.Envelope? && l.seqNo.Some? && Duplicate(marks, l.src, Mark(l.seqNo.value, l.recv));
      var skip := skipped || !l.Envelope?;
      if !failed {
        FlowBegin(lines, fwd, place, marks, taken, Of(running), Of(waiting), batch, skip);
      }
      if skipped {
        SkippedIsTaken(lines, marks, taken, l.src, j);
      }
      cur := if skip then None else Some(j);
      place := Place(j + 1, 0);
    }

    /** The line's next message is queued; one of a line that is skipped is passed over. */
    method ApplyMsg(i: nat)
      requires Valid() && place.at > 0 && i == place.part < |Msgs(lines[fwd][place.at - 1])|
      modifies this`batch, this`place
      ensures Valid() && place == old(place).(part := i + 1)
      ensures batch == if cur.None? then old(batch) else
                         var m := lines[fwd][place.at - 1].msgs[i];
                         Batch(old(batch).msgs + (if m.chunks == m.ops == m.events == 0 then {}
                                                   else {Ref(fwd, place.at - 1, i)}),
                             old(batch).chunks + m.chunks,
                               old(batch).samples + m.samples, old(batch).events + m.events, old(batch).marks)
    {
      hide Flow, MarksOk, Acked;
      var b := batch;
      if cur.Some? {
        var m := lines[fwd][cur.value].msgs[i];
        b := Batch(b.msgs + (if Stored(m) then {Ref(fwd, cur.value, i)} else {}), b.chunks + m.chunks,
            b.samples + m.samples, b.events + m.events, b.marks);
      }
      if !failed {
        FlowMsg(lines, fwd, place, cur, marks, taken, Of(running), Of(waiting), batch, b);
      }
      batch := b;
      place := place.(part := place.part + 1);
    }

    predicate Full()
      reads this
    {
      batch.chunks >= flushChunks || batch.samples >= flushSamples || batch.events >= flushEvents
    }

    /** No amount of the batch is up to its limit. */
    ghost predicate Small()
      reads this
    {
      batch == EMPTY || (batch.chunks < flushChunks && batch.samples < flushSamples && batch.events < flushEvents)
    }

    /** Hands the batch over, waiting for room. It fails when an earlier batch failed. */
    method Flush() returns (ok: bool)
      requires Valid()
      modifies this`batch, this`marks, this`running, this`waiting, this`failed, this`taken
      ensures Valid() && old(taken) <= taken && (old(failed) ==> failed)
      ensures NeverBack(lines) ==> Remembers(old(marks), marks)
      ensures ok == !old(failed) && (ok ==> batch == EMPTY)
    {
      hide Flow, MarksOk, Acked;
      if failed {
        return false;
      }
      if batch.msgs == {} && batch.marks == map[] {
        if !failed {
          FlowEmpty(lines, fwd, place, cur, marks, taken, Of(running), Of(waiting), batch);
        }
        batch := EMPTY;
        return true;
      }
      while waiting.Some?
        invariant Valid() && old(taken) <= taken && batch == old(batch)
        invariant NeverBack(lines) ==> Remembers(old(marks), marks)
        decreases if waiting.Some? then if running.Some? then 2 else 1 else 0
      {
        var taken?: bool := *;
        Step(taken?);
      }
      if !failed {
        FlowFlush(lines, fwd, place, cur, marks, taken, Of(running), batch, batch);
      }
      waiting, batch := Some(batch), EMPTY;
      return true;
    }

    /** The messages of a line not read yet. */
    function Rest(line: nat, begun: bool, n: nat): int
      requires fwd < |lines|
      reads this`fwd
    {
      if line < |lines[fwd]| then |Msgs(lines[fwd][line])| - n + (if begun then 0 else 1) else 0
    }

    /** Where the lines' iterators are, and the reader's place once it caught up with them: lines before li are
        read to their end, n messages of li are read. */
    ghost predicate At(hi: nat, li: nat, begun: bool, n: nat, p: Place)
      reads this`fwd
    {
      && fwd < |lines| && li <= hi <= |lines[fwd]|
      && if begun then li < hi && p == Place(li + 1, n) && n <= |Msgs(lines[fwd][li])|
          else n == 0 && p.at == li && LineDone(lines, fwd, p.at, p.part)
    }

    method More(items: seq<Item>, ghost places: seq<Place>, it: Item, ghost p: Place) returns (items': seq<Item>,
                ghost places': seq<Place>)
      requires Path(lines, fwd, p, items, places) && Ready(lines, fwd, places[|items|], it)
      ensures items' == items + [it] && Path(lines, fwd, p, items', places')
              && places'[|items'|] == Next(places[|items|], it)
    {
      PathMore(lines, fwd, p, items, places, it);
      items', places' := items + [it], places + [Next(places[|items|], it)];
    }

    /** Takes line starts and messages for one window, from where the iterators are. */
    method FillWindow(hi: nat, li0: nat, begun0: bool, n0: nat, ghost p: Place)
      returns (items: seq<Item>, li: nat, begun: bool, n: nat, ghost places: seq<Place>)
      requires At(hi, li0, begun0, n0, p) && li0 < hi && windowMsgs > 0 && windowBytes > 0
      ensures Path(lines, fwd, p, items, places) && At(hi, li, begun, n, places[|items|])
      ensures li > li0 || (li == li0 && Rest(li, begun, n) < Rest(li0, begun0, n0))
    {
      hide Steps, NeverBack;
      items, li, begun, n, places := [], li0, begun0, n0, [p];
      PathStart(lines, fwd, p);
      var size := 0;
      while li < hi && |items| < windowMsgs && size < windowBytes
        invariant li0 <= li <= hi && Path(lines, fwd, p, items, places) && At(hi, li, begun, n, places[|items|])
        invariant li > li0 || (li == li0 && Rest(li, begun, n) < Rest(li0, begun0, n0))
                  || (items == [] && size == 0 && li == li0 && begun == begun0 && n == n0)
        decreases hi - li, Rest(li, begun, n)
      {
        if !begun {
          items, places := More(items, places, Begin(li), p);
          begun := true;
        }
        if n == |Msgs(lines[fwd][li])| {
          li, begun, n := li + 1, false, 0;
        } else {
          items, places := More(items, places, Item(li, n), p);
          size := size + lines[fwd][li].msgs[n].size;
          n := n + 1;
        }
      }
    }

    /** The line has no message left to read. */
    predicate Empty(line: nat, li: nat, n: nat)
      requires fwd < |lines|
      reads this`fwd
    {
      line < li || (line < |lines[fwd]| && n == |Msgs(lines[fwd][line])|)
    }

    /** One item, after the applier did whatever it could meanwhile. */
    method ApplyItem(it: Item)
      requires Valid() && Ready(lines, fwd, place, it)
      modifies this`marks, this`running, this`waiting, this`failed, this`taken, this`batch, this`cur, this`place
      ensures Valid() && old(taken) <= taken && (NeverBack(lines) ==> Remembers(old(marks), marks))
      ensures place == Next(old(place), it)
    {
      hide NeverBack, Flow, TableOk, Shape, Remembers;
      Interleave();
      if it.Begin? {
        var skipped := BeginLine(it.line);
      } else {
        ApplyMsg(it.msg);
      }
    }

    lemma LastDone(items: seq<Item>, hi: nat, li: nat, begun: bool, n: nat, p: Place, places: seq<Place>, k: nat)
      requires Path(lines, fwd, p, items, places) && At(hi, li, begun, n, places[|items|]) && k < |items|
               && items[k].Item?
      requires (k + 1 == |items| || items[k + 1].line != items[k].line) && Empty(items[k].line, li, n)
      ensures LineDone(lines, fwd, places[k + 1].at, places[k + 1].part)
    {
      if k + 1 < |items| {
        LastOfLine(lines, fwd, p, items, places, k);
      } else {
        PathAt(lines, fwd, p, items, places, k);
      }
    }

    /** The item is the last message of its line. */
    predicate EndsLine(it: Item)
      reads this`fwd
    {
      fwd < |lines| && it.Item? && it.line < |lines[fwd]| && it.msg + 1 == |Msgs(lines[fwd][it.line])|
    }

    /** Then nothing of the line is left to read, and the next item is of another line. */
    lemma EndedLine(items: seq<Item>, hi: nat, li: nat, begun: bool, n: nat, p: Place, places: seq<Place>, k: nat)
      requires Path(lines, fwd, p, items, places) && At(hi, li, begun, n, places[|items|]) && k < |items|
               && EndsLine(items[k])
      ensures (k + 1 == |items| || items[k + 1].line != items[k].line) && Empty(items[k].line, li, n)
    {
      PathAt(lines, fwd, p, items, places, k);
      if k + 1 < |items| {
        PathAt(lines, fwd, p, items, places, k + 1);
        PlacesGrow(lines, fwd, p, items, places, k + 2);
      }
    }

    /** A batch that is full is handed over; with the last message of a line in it, it takes the line's mark. */
    method CloseFull(items: seq<Item>, k: nat, hi: nat, li: nat, begun: bool, n: nat, ghost p: Place,
                     ghost places: seq<Place>) returns (ok: bool)
      requires Valid() && Path(lines, fwd, p, items, places) && At(hi, li, begun, n, places[|items|])
      requires k < |items| && place == places[k + 1]
      modifies this`marks, this`running, this`waiting, this`failed, this`taken, this`batch, this`cur
      ensures Valid() && old(taken) <= taken && (NeverBack(lines) ==> Remembers(old(marks), marks))
      ensures ok ==> batch == EMPTY && (EndsLine(items[k]) ==> cur.None?)
    {
      assert fwd < |lines|;
      hide NeverBack, Flow, TableOk, Shape, Duplicate, Steps, Ready, Numbered, LineDone, Empty, EndsLine, At;
      if items[k].Item? && (k + 1 == |items| || items[k + 1].line != items[k].line) && Empty(items[k].line, li, n) {
        LastDone(items, hi, li, begun, n, p, places, k);
        FinishLine();
      }
      if EndsLine(items[k]) {
        EndedLine(items, hi, li, begun, n, p, places, k);
        IsItem(items[k]);
      }
      ok := Flush();
    }

    lemma IsItem(it: Item)
      requires EndsLine(it)
      ensures it.Item?
    {
    }

    /** Applies a window's items; false once the applier failed. A batch that is full with the last message of a
        line takes the line's mark with it. */
    method ApplyWindow(items: seq<Item>, hi: nat, li: nat, begun: bool, n: nat,
                       ghost places: seq<Place>) returns (ok: bool)
      requires Valid() && Path(lines, fwd, place, items, places) && At(hi, li, begun, n, places[|items|])
      modifies this`marks, this`running, this`waiting, this`failed, this`taken, this`batch, this`cur, this`place
      ensures Valid() && old(taken) <= taken && (NeverBack(lines) ==> Remembers(old(marks), marks))
      ensures ok ==> place == places[|items|] && (old(Small()) || items != [] ==> Small())
    {
      hide NeverBack, Flow, TableOk, Shape, Duplicate, Steps, Ready, Numbered, LineDone;
      var k := 0;
      while k < |items|
        invariant k <= |items| && Valid() && old(taken) <= taken && (NeverBack(lines) ==> Remembers(old(marks), marks))
        invariant Path(lines, fwd, old(place), items, places) && place == places[k]
        invariant old(Small()) || k > 0 ==> Small()
      {
        label L:
        PathAt(lines, fwd, old(place), items, places, k);
        ApplyItem(items[k]);
        RemembersMore(old(marks), old@L(marks), marks);
        if Full() {
          label M:
          ok := CloseFull(items, k, hi, li, begun, n, old(place), places);
          RemembersMore(old(marks), old@M(marks), marks);
          if !ok {
            return;
          }
        }
        k := k + 1;
      }
      return true;
    }

    /** Reads and applies the lines from li to hi, a window at a time. */
    method ApplySegment(li0: nat, hi: nat) returns (ok: bool)
      requires Valid() && At(hi, li0, false, 0, place)
      modifies this`marks, this`running, this`waiting, this`failed, this`taken, this`batch, this`cur, this`place
      ensures Valid() && old(taken) <= taken && (NeverBack(lines) ==> Remembers(old(marks), marks))
      ensures ok ==> cur.None? && At(hi, hi, false, 0, place)
    {
      hide NeverBack, Flow, MarksOk, Acked, Duplicate;
      var li, begun, n := li0, false, 0;
      while li < hi
        invariant Valid() && old(taken) <= taken && (NeverBack(lines) ==> Remembers(old(marks), marks))
        invariant At(hi, li, begun, n, place)
        decreases hi - li, Rest(li, begun, n)
      {
        var items;
        ghost var places;
        items, li, begun, n, places := FillWindow(hi, li, begun, n, place);
        ok := ApplyWindow(items, hi, li, begun, n, places);
        if !ok {
          return;
        }
      }
      FinishLine();
      return true;
    }

    /** A body of a forwarder: its lines from `from`, the first one it was not told is delivered or an earlier one. The
        body may also break off. When it is accepted everything up to its end is in taken batches, and each numbered
        line of it is a duplicate from now on, if the forwarder never goes back. */
    method IngestBody(f: nat, from: nat, end: nat) returns (ok: bool)
      requires Idle() && f < |lines| && from <= end <= |lines[f]|
      requires from <= if f in acked then acked[f] else 0
      modifies this
      ensures Idle() && old(taken) <= taken && (NeverBack(lines) ==> Remembers(old(marks), marks))
      ensures ok ==> f in acked && acked[f] >= end && Before(lines, f, end, taken)
      ensures ok && NeverBack(lines) ==> Passed(lines, f, end, marks)
      ensures acked == if ok && (f !in old(acked) || old(acked)[f] < end) then old(acked)[f := end] else old(acked)
    {
      hide NeverBack, Numbered, MarksOk, InOrder, Flow, Acked, Duplicate, Before, Passed;
      if from > 0 {
        AckedLess(lines, f, acked[f], from, marks, taken);
      }
      FlowStart(lines, f, from, marks, taken);
      fwd, place := f, Place(from, if from == 0 then 0 else |Msgs(lines[f][from - 1])|);
      ok := ReadBody(from, end);
      label L:
      Drain();
      RemembersMore(old(marks), old@L(marks), marks);
      ok := ok && !failed;
      if ok {
        FlowEnd(lines, f, place, marks, taken);
        AckedMeans(lines, f, end, marks, taken);
        acked := if f !in acked || acked[f] < end then acked[f := end] else acked;
      }
      cur, batch, failed, place := None, EMPTY, false, Place(0, 0);
      FlowIdle(lines, fwd, marks, taken);
    }

    /** Reads the body and hands over its last batch. It breaks off when the body does, or the applier failed. */
    method ReadBody(from: nat, end: nat) returns (ok: bool)
      requires Valid() && from <= end && At(from, from, false, 0, place) && cur.None? && end <= |lines[fwd]|
      modifies this`marks, this`running, this`waiting, this`failed, this`taken, this`batch, this`cur, this`place
      ensures Valid() && old(taken) <= taken && (NeverBack(lines) ==> Remembers(old(marks), marks))
      ensures ok ==> cur.None? && place.at == end && batch == EMPTY
    {
      hide NeverBack, Duplicate, Flow, TableOk, Shape, LineDone, Numbered;
      var li := from;
      ok := true;
      while li < end && ok
        invariant Valid() && old(taken) <= taken && (NeverBack(lines) ==> Remembers(old(marks), marks))
        invariant from <= li <= end && (ok ==> cur.None? && At(li, li, false, 0, place))
        decreases end - li, if ok then 1 else 0
      {
        label L:
        var cut: nat := *;
        var hi := if li < cut <= end then cut else end;
        var broken: bool := *;
        if broken {
          ok := false;
        } else {
          ok := ApplySegment(li, hi);
          RemembersMore(old(marks), old@L(marks), marks);
          li := hi;
        }
      }
      label M:
      if ok {
        ok := Flush();
        RemembersMore(old(marks), old@M(marks), marks);
      }
    }

    /** Waits for the batches handed over. */
    method Drain()
      requires Valid()
      modifies this`marks, this`running, this`waiting, this`failed, this`taken
      ensures Valid() && old(taken) <= taken && (NeverBack(lines) ==> Remembers(old(marks), marks))
      ensures running.None? && waiting.None?
    {
      while running.Some? || waiting.Some?
        invariant Valid() && old(taken) <= taken && (NeverBack(lines) ==> Remembers(old(marks), marks))
        decreases (if waiting.Some? then 2 else 0) + (if running.Some? then 1 else 0)
      {
        var ok: bool := *;
        Step(ok);
      }
    }
  }
}
