/** The queue of lines a forwarder sends in order: in flight, then in memory, then on disk, then buffered for the
    disk. Only a push adds to that sequence, and only an acknowledgement, a refusal or a counted drop removes. */
module IngestQueue {
  import opened Common
  import opened DiskTail

  datatype Memory = Memory(inflight: seq<Line>, lines: seq<Line>, head: nat, bytes: int, inflightBytes: int,
                           diskBuf: seq<Line>, diskBufBytes: int, fromSeg: Option<int>, fromSegLeft: int)

  function Waiting(m: Memory): seq<Line>
    requires m.head <= |m.lines|
  {
    m.lines[m.head..]
  }

  function OnDisk(d: Option<Disk>): seq<Line> { if d.Some? then Content(d.value) else [] }

  /** Everything queued, in the order it will be sent. */
  function Queued(m: Memory, d: Option<Disk>): seq<Line>
    requires m.head <= |m.lines|
  {
    m.inflight + Waiting(m) + OnDisk(d) + m.diskBuf
  }

  /** Lines in the order they were pushed. */
  ghost predicate InOrder(ls: seq<Line>, next: nat) {
    && (forall i :: 0 <= i < |ls| ==> ls[i].id < next)
    && forall i, j :: 0 <= i < j < |ls| ==> ls[i].id < ls[j].id
  }

  ghost predicate Suffix(ls: seq<Line>, tail: seq<Line>) { |tail| <= |ls| && ls[|ls| - |tail|..] == tail }

  /** A taken segment is what is in flight and in memory, behind the last lines sent or refused. */
  ghost predicate TakenOk(m: Memory, d: Option<Disk>, out: seq<Line>)
    requires m.head <= |m.lines|
  {
    if d.None? then m.diskBuf == [] && m.fromSeg.None?
    else if m.fromSeg.None? then d.value.taken == {}
    else
      && d.value.taken == {m.fromSeg.value} && m.fromSeg.value in d.value.files
      && m.fromSegLeft == |m.inflight| + |Waiting(m)| > 0
      && |m.inflight| + |Waiting(m)| <= |d.value.files[m.fromSeg.value]|
      && Suffix(out + (m.inflight + Waiting(m)), d.value.files[m.fromSeg.value])
  }

  /** The counters agree with the queue, which is in order behind what was sent or refused (`out`). */
  ghost predicate QueueOk(m: Memory, d: Option<Disk>, out: seq<Line>, next: nat) {
    && m.head <= |m.lines| && m.bytes == Bytes(Waiting(m)) && m.inflightBytes == Bytes(m.inflight)
        && m.diskBufBytes == Bytes(m.diskBuf)
    && TakenOk(m, d, out) && InOrder(out + Queued(m, d), next)
  }

  // --- order ---

  lemma OrderWithout(a: seq<Line>, gone: seq<Line>, b: seq<Line>, next: nat)
    requires InOrder(a + gone + b, next)
    ensures InOrder(a + b, next)
  {
    var all := a + gone + b;
    forall i | 0 <= i < |a + b|
      ensures (a + b)[i] == all[if i < |a| then i else i + |gone|]
    {
    }
  }

  lemma OrderPushed(a: seq<Line>, l: Line, next: nat)
    requires InOrder(a, next) && l.id == next
    ensures InOrder(a + [l], next + 1)
  {
  }

  lemma BytesOne(l: Line)
    ensures Bytes([l]) == l.size + 1
  {
    assert [l][1..] == [];
  }

  /** The first n of the lines make a request: as many as the bound and the split allow, but at least one. */
  ghost predicate IsBatch(waiting: seq<Line>, n: nat, splitTo: Option<nat>, maxBatchBytes: nat) {
    && 1 <= n <= |waiting| && (splitTo.Some? ==> n <= splitTo.value)
    && (n == 1 || Bytes(waiting[..n]) <= maxBatchBytes)
    && (n == |waiting| || splitTo == Some(n) || Bytes(waiting[..n + 1]) > maxBatchBytes)
  }

  /** Nothing in memory, and none on disk or taken from there: nothing is queued. */
  lemma NothingLeft(m: Memory, d: Option<Disk>, out: seq<Line>, next: nat)
    requires QueueOk(m, d, out, next) && m.inflight == [] && m.head == |m.lines|
    ensures m.fromSeg.None? && (d.None? ==> Queued(m, d) == [])
  {
    hide Bytes, Content, InOrder, Suffix;
  }

  lemma BytesMore(ls: seq<Line>, a: nat, n: nat)
    requires a + n < |ls|
    ensures Bytes(ls[a..a + n + 1]) == Bytes(ls[a..a + n]) + ls[a + n].size + 1
  {
    BytesAdd(ls[a..a + n], [ls[a + n]]);
    BytesOne(ls[a + n]);
    assert ls[a..a + n] + [ls[a + n]] == ls[a..a + n + 1];
  }

  lemma NoneQueued(m: Memory, d: Option<Disk>)
    requires d.Some? && d.value.segs == [] && m.inflight == [] && m.head == |m.lines| && m.diskBuf == []
    ensures Queued(m, d) == []
  {
  }

  lemma BatchIs(lines: seq<Line>, head: nat, n: nat, splitTo: Option<nat>, maxBatchBytes: nat)
    requires 1 <= n && head + n <= |lines| && (splitTo.Some? ==> n <= splitTo.value)
    requires n == 1 || Bytes(lines[head..head + n]) <= maxBatchBytes
    requires n == |lines| - head || splitTo == Some(n) || Bytes(lines[head..head + n + 1]) > maxBatchBytes
    ensures IsBatch(lines[head..head + n] + lines[head + n..], n, splitTo, maxBatchBytes)
  {
    hide Bytes;
    var waiting := lines[head..head + n] + lines[head + n..];
    assert waiting[..n] == lines[head..head + n];
    assert n < |waiting| ==> waiting[..n + 1] == lines[head..head + n + 1];
  }

  class IngestQueue {
    const disk: DiskTail?
    var maxQueueBytes: nat

    var inflight: seq<Line>
    var lines: seq<Line>
    var head: nat
    var bytes: int
    var inflightBytes: int
    var diskBuf: seq<Line>
    var diskBufBytes: int
    var fromSeg: Option<int>
    var fromSegLeft: int
    var closed: bool
    var splitTo: Option<nat>

    var sentLines: nat
    var refusedLines: nat
    var droppedLines: nat

    /** The lines sent or refused, in order; the next line's number; how many were pushed or loaded. */
    ghost var out: seq<Line>
    var next: nat
    ghost var total: nat
    /** Lines in flight without a disk part to keep them, when the queue was closed and their request failed. */
    ghost var lost: nat
    /** Of a stopped queue's files: the lines sent or refused that the next start reads again, and the ones still to
        go. */
    ghost var again: seq<Line>
    ghost var kept: seq<Line>

    function M(): Memory
      reads this
    {
      Memory(inflight, lines, head, bytes, inflightBytes, diskBuf, diskBufBytes, fromSeg, fromSegLeft)
    }

    function DiskPart(): Option<Disk>
      reads this, disk
    {
      if disk == null then None else Some(disk.D())
    }

    ghost function Q(): seq<Line>
      requires head <= |lines|
      reads this, disk
    {
      Queued(M(), DiskPart())
    }

    /** Order, and conservation: what came in is what went out, was dropped, or is queued. */
    ghost predicate Valid()
      reads this, disk
    {
      && (disk != null ==> disk.Valid()) && QueueOk(M(), DiskPart(), out, next) && (splitTo.Some? ==> splitTo.value > 0)
      && |out| == sentLines + refusedLines && total == sentLines + refusedLines + droppedLines + lost + |Q()|
    }

    /** The same of a queue stopped with a disk part: everything still to go is in its files, in order. */
    ghost predicate Stopped()
      reads this, disk
    {
      && closed && disk != null && DiskOk(disk.D()) && StoppedOk(M(), disk.D(), out, again, kept, next)
      && |out| == sentLines + refusedLines && total == sentLines + refusedLines + droppedLines + lost + |kept|
    }

    /** A queue over what the last run left on disk. */
    constructor (disk: DiskTail?, maxQueueBytes: nat, next: nat)
      requires disk != null ==> disk.Valid() && disk.taken == {} && InOrder(Content(disk.D()), next)
      ensures Valid() && this.disk == disk && head <= |lines| && Q() == OnDisk(DiskPart()) && out == [] && !closed
              && lost == 0 && this.next == next
    {
      this.disk, this.maxQueueBytes, this.next := disk, maxQueueBytes, next;
      inflight, lines, head, bytes, inflightBytes, diskBuf, diskBufBytes := [], [], 0, 0, 0, [], 0;
      fromSeg, fromSegLeft, closed, splitTo := None, 0, false, None;
      sentLines, refusedLines, droppedLines, out, total := 0, 0, 0, [], if disk == null then 0 else |Content(disk.D())|;
      lost, again, kept := 0, [], [];
      new;
      assert Q() == OnDisk(DiskPart()) && out + Q() == Q();
    }

    /** The lines from i to j were the oldest of what holds the bound, behind the ones in flight, and with the last
        ones of them it would still be over it: of memory, or of the disk part. */
    ghost predicate Needed(q: seq<Line>, i: nat, j: nat)
      reads this, disk
    {
      && i < j <= |q| && head <= |lines|
      && if disk == null then i == |inflight| && bytes + inflightBytes + q[j - 1].size + 1 > maxQueueBytes
         else i == |inflight| + |lines| - head && disk.bytes + Bytes(q[i..j]) > disk.maxBytes
    }

    /** Memory is within its bound, or holds one line. */
    predicate Bounded()
      reads this
    {
      bytes + inflightBytes <= maxQueueBytes || |lines| - head <= 1
    }

    /** Queues one line. With a disk part new lines go there while it holds any, while a segment of it is out, and
        past the memory bound; without one the oldest lines are dropped past the bound. Dropped lines are one block
        of the queue, from i to j, never the line pushed, and only as many as the bound asks for. */
    method Push(size: Length) returns (ghost i: nat, ghost j: nat)
      requires Valid()
      modifies this, disk
      ensures Valid() && out == old(out) && inflight == old(inflight)
      ensures closed ==> total == old(total) && Q() == old(Q()) && droppedLines == old(droppedLines)
      ensures !closed ==> total == old(total) + 1 && droppedLines == old(droppedLines) + j - i
      ensures !closed ==> Removed(old(Q()) + [Line(old(next), size)], Q(), i, j)
      ensures !closed && j > i ==> j <= |old(Q())| && Needed(old(Q()), i, j)
      ensures !closed && disk == null ==> Bounded()
    {
      hide QueueOk, Content, Bytes, DiskOk, Queued, Needed, Removed;
      i, j := 0, 0;
      HeadOk(M(), DiskPart(), out, next);
      if closed {
        return;
      }
      if disk != null && (disk.lines != 0 || |diskBuf| > 0 || fromSeg.Some?
          || bytes + inflightBytes + size + 1 > maxQueueBytes) {
        PushToDisk(size);
        if diskBufBytes >= 1_048_576 {
          i, j := FlushDisk();
          if j > i { NeededShorter(old(Q()), Line(old(next), size), i, j); }
        } else {
          NothingRemoved(Q());
        }
        return;
      }
      i, j := PushToMemory(size);
    }

    /** What was dropped was in the queue before the line was pushed. */
    lemma NeededShorter(q: seq<Line>, l: Line, i: nat, j: nat)
      requires Needed(q + [l], i, j) && j <= |q|
      ensures Needed(q, i, j)
    {
      hide Bytes;
      assert (q + [l])[i..j] == q[i..j] && (q + [l])[j - 1] == q[j - 1];
    }

    method PushToDisk(size: Length)
      requires Valid() && disk != null
      modifies this`diskBuf, this`diskBufBytes, this`next, this`total
      ensures Valid() && head <= |lines| && Q() == old(Q()) + [Line(old(next), size)] && next == old(next) + 1
              && total == old(total) + 1
      ensures |diskBuf| > 0
    {
      hide QueueOk, Content, Bytes, DiskOk;
      var l := Line(next, size);
      PushedOk(M(), DiskPart(), out, next, l);
      diskBuf, diskBufBytes := diskBuf + [l], diskBufBytes + size + 1;
      next, total := next + 1, total + 1;
    }

    method PushToMemory(size: Length) returns (ghost i: nat, ghost j: nat)
      requires Valid() && (disk != null ==> disk.lines == 0 && diskBuf == [] && fromSeg.None?)
      modifies this`lines, this`bytes, this`next, this`total, this`head, this`droppedLines
      ensures Valid() && head <= |lines| && total == old(total) + 1
      ensures Removed(old(Q()) + [Line(old(next), size)], Q(), i, j) && droppedLines == old(droppedLines) + j - i
      ensures if disk == null then Bounded() && (j > i ==> j <= |old(Q())| && Needed(old(Q()), i, j)) else i == j
    {
      hide QueueOk, Content, Bytes, Needed, Removed;
      var l := Line(next, size);
      NoneOnDisk(M(), DiskPart(), out, next);
      PushedOk(M(), DiskPart(), out, next, l);
      lines, bytes := lines + [l], bytes + size + 1;
      next, total := next + 1, total + 1;
      i, j := Trim();
      if j > i { NeededShorter(old(Q()), l, i, j); }
    }

    /** Without a disk part, drops the oldest waiting lines while the queue is over its bound. */
    method Trim() returns (ghost i: nat, ghost j: nat)
      requires Valid()
      modifies this`head, this`bytes, this`droppedLines
      ensures Valid() && head <= |lines| && Removed(old(Q()), Q(), i, j) && droppedLines == old(droppedLines) + j - i
      ensures if disk == null then Bounded() && (j > i ==> j < |old(Q())| && Needed(old(Q()), i, j)) else i == j
    {
      hide QueueOk, Bytes, Content, DiskOk, Removed, Queued, OnDisk, Needed;
      HeadOk(M(), DiskPart(), out, next);
      NothingRemoved(Q());
      i, j := 0, 0;
      if disk != null {
        return;
      }
      i, j := |inflight|, |inflight|;
      NoneRemovedAt(Q(), i);
      while bytes + inflightBytes > maxQueueBytes && |lines| - head > 1
        invariant Valid() && head <= |lines| && i == |inflight| && Removed(old(Q()), Q(), i, j)
                  && droppedLines == old(droppedLines) + j - i
        invariant j >= i && (j > i ==> |lines| - head >= 1 && j < |old(Q())| && Needed(old(Q()), i, j))
        decreases |lines| - head
      {
        DropHead(old(Q()), i, j);
        j := j + 1;
      }
    }

    /** Drops the oldest waiting line. */
    method DropHead(ghost q: seq<Line>, ghost i: nat, ghost j: nat)
      requires Valid() && disk == null && |lines| - head > 1 && bytes + inflightBytes > maxQueueBytes
      requires i == |inflight| && i <= j && Removed(q, Q(), i, j)
      modifies this`head, this`bytes, this`droppedLines
      ensures Valid() && head < |lines| && head == old(head) + 1 && droppedLines == old(droppedLines) + 1
      ensures j + 1 < |q| && Removed(q, Q(), i, j + 1) && Needed(q, i, j + 1)
    {
      hide QueueOk, Bytes, Content, DiskOk, Removed, Queued, OnDisk;
      DropHeadOk(M(), out, next);
      RemoveMore(q, Q(), i, j);
      bytes, head, droppedLines := bytes - lines[head].size - 1, head + 1, droppedLines + 1;
    }

    /** Writes the lines buffered for the disk; the disk part's oldest may go. */
    method FlushDisk() returns (ghost i: nat, ghost j: nat)
      requires Valid()
      modifies this`diskBuf, this`diskBufBytes, this`droppedLines, disk
      ensures Valid() && head <= |lines| && Removed(old(Q()), Q(), i, j) && droppedLines == old(droppedLines) + j - i
              && diskBuf == []
      ensures j > i ==> disk != null && Needed(old(Q()), i, j) && j <= |old(Q())| - |old(diskBuf)|
      ensures disk != null ==> NoneEmpty(old(disk.files)) ==> NoneEmpty(disk.files)
    {
      hide QueueOk, Bytes, Content, DiskOk;
      HeadOk(M(), DiskPart(), out, next);
      NothingRemoved(Q());
      i, j := 0, 0;
      if disk == null || |diskBuf| == 0 {
        if disk == null { BufferEmpty(M(), DiskPart(), out, next); }
        return;
      }
      i, j := WriteBuffer();
    }

    method WriteBuffer() returns (ghost i: nat, ghost j: nat)
      requires Valid() && disk != null
      modifies this`diskBuf, this`diskBufBytes, this`droppedLines, disk
      ensures Valid() && head <= |lines| && Removed(old(Q()), Q(), i, j) && droppedLines == old(droppedLines) + j - i
              && diskBuf == []
      ensures j > i ==> Needed(old(Q()), i, j) && j <= |old(Q())| - |old(diskBuf)|
      ensures NoneEmpty(old(disk.files)) ==> NoneEmpty(disk.files)
    {
      hide QueueOk, Bytes, Content, DiskOk, TakenSame, Queued, Concat;
      var before := disk.dropped;
      ghost var m0, d0 := M(), DiskPart();
      ghost var gone, k := disk.Append(diskBuf);
      FlushedOk(m0, d0, DiskPart(), out, next, gone);
      i := |inflight| + |lines| - head;
      j := i + |gone|;
      if k > 0 { LastOfGone(old(disk.segs), old(disk.files), k); }
      diskBuf, diskBufBytes := [], 0;
      droppedLines := droppedLines + (disk.dropped - before);
    }

    /** With the memory part sent, the oldest segment of the disk part becomes the memory part. */
    method Refill() returns (ghost i: nat, ghost j: nat)
      requires Valid() && inflight == []
      modifies this, disk
      ensures Valid() && head <= |lines| && Removed(old(Q()), Q(), i, j) && droppedLines == old(droppedLines) + j - i
      ensures inflight == [] && out == old(out) && total == old(total) && closed == old(closed)
              && splitTo == old(splitTo)
      ensures head == |lines| && (disk != null ==> NoneEmpty(old(disk.files))) ==> Q() == []
    {
      hide QueueOk, Bytes, Content, DiskOk;
      HeadOk(M(), DiskPart(), out, next);
      NothingRemoved(Q());
      i, j := 0, 0;
      if disk == null || |lines| - head > 0 || fromSeg.Some? {
        if head == |lines| { NothingLeft(M(), DiskPart(), out, next); }
        return;
      }
      i, j := FlushDisk();
      NoneTaken(M(), DiskPart(), out, next);
      TakeSegment();
    }

    /** Takes the oldest segment off the disk into the empty memory part. */
    method TakeSegment()
      requires Valid() && disk != null && disk.taken == {} && inflight == [] && diskBuf == [] && fromSeg.None?
               && head == |lines|
      modifies this`lines, this`head, this`bytes, this`fromSeg, this`fromSegLeft, disk
      ensures Valid() && head <= |lines| && Q() == old(Q())
      ensures head == |lines| && NoneEmpty(old(disk.files)) ==> Q() == []
    {
      hide QueueOk, Bytes, Content, DiskOk, Queued, NextOk, Concat;
      ghost var m0, d0 := M(), DiskPart();
      var t := disk.Take();
      if t.None? {
        NoneQueued(m0, d0);
        return;
      }
      TakenInto(m0, d0, DiskPart(), out, next, t.value.0, t.value.1);
      if |t.value.1| == 0 {
        lines, head, bytes := [], 0, 0;
        disk.Done(t.value.0);
        return;
      }
      lines, head, bytes := t.value.1, 0, Bytes(t.value.1);
      fromSeg, fromSegLeft := Some(t.value.0), |t.value.1|;
    }

    /** How many lines the next request carries: at least one, within the batch bound and the split. */
    method BatchSize(maxBatchBytes: nat) returns (n: nat)
      requires head < |lines| && (splitTo.Some? ==> splitTo.value > 0)
      ensures 1 <= n <= |lines| - head && (splitTo.Some? ==> n <= splitTo.value)
      ensures n == 1 || Bytes(lines[head..head + n]) <= maxBatchBytes
      ensures n == |lines| - head || splitTo == Some(n) || Bytes(lines[head..head + n + 1]) > maxBatchBytes
    {
      hide Bytes;
      var max := |lines| - head;
      if splitTo.Some? && splitTo.value < max {
        max := splitTo.value;
      }
      n := 0;
      var size := 0;
      assert lines[head..head] == [];
      NoBytes();
      while n < max && (n == 0 || size + lines[head + n].size + 1 <= maxBatchBytes)
        invariant 0 <= n <= max && size == Bytes(lines[head..head + n]) && (n <= 1 || size <= maxBatchBytes)
      {
        BytesMore(lines, head, n);
        size := size + lines[head + n].size + 1;
        n := n + 1;
      }
      if n < max { BytesMore(lines, head, n); }
    }

    /** The next request: its lines leave memory while they are in flight. Nothing is sent when everything was
        still buffered for the disk. */
    method TakeBatch(maxBatchBytes: nat) returns (ghost i: nat, ghost j: nat)
      requires Valid() && inflight == [] && !closed
      modifies this, disk
      ensures Valid() && head <= |lines| && Removed(old(Q()), Q(), i, j) && droppedLines == old(droppedLines) + j - i
      ensures out == old(out) && total == old(total) && !closed && inflight <= Q() && splitTo == old(splitTo)
      ensures inflight == [] ==> head == |lines| && ((disk != null ==> NoneEmpty(old(disk.files))) ==> Q() == [])
      ensures inflight != [] ==> IsBatch(inflight + Waiting(M()), |inflight|, splitTo, maxBatchBytes)
    {
      hide QueueOk, Bytes, Content, DiskOk, Queued, Removed, IsBatch, OnDisk;
      i, j := Refill();
      HeadOk(M(), DiskPart(), out, next);
      if |lines| - head == 0 {
        return;
      }
      var n := BatchSize(maxBatchBytes);
      BatchOk(M(), DiskPart(), out, next, n);
      var batch := lines[head..head + n];
      BatchIs(lines, head, n, splitTo, maxBatchBytes);
      head, bytes, inflightBytes := head + n, bytes - Bytes(batch), Bytes(batch);
      inflight := batch;
    }

    /** The answer to the request in flight: acknowledged, or a single line refused, the lines leave the queue;
        otherwise they are first in memory again, and a refused batch is split. */
    method Answer(response: Response) returns (ghost i: nat, ghost j: nat)
      requires Valid() && inflight != [] && !closed
      modifies this, disk
      ensures Valid() && head <= |lines| && inflight == [] && total == old(total) && lost == old(lost) && !closed
      ensures sentLines == old(sentLines) + if response == Accepted then |old(inflight)| else 0
      ensures refusedLines == old(refusedLines) + if response == Refused && |old(inflight)| == 1 then 1 else 0
      ensures splitTo == if response == Accepted then None
                         else if response == Refused && |old(inflight)| > 1 then Some((|old(inflight)| + 1) / 2)
                         else old(splitTo)
      ensures droppedLines == old(droppedLines) + j - i
      ensures Away(response, |old(inflight)|) ==>
                i == j && old(Q()) == old(inflight) + Q() && out == old(out) + old(inflight)
      ensures !Away(response, |old(inflight)|) ==>
                Removed(old(Q()), Q(), i, j) && out == old(out) && (j > i ==> disk == null && Needed(old(Q()), i, j))
    {
      hide QueueOk, Bytes, Content, DiskOk, Queued, Needed, Removed, OnDisk;
      i, j := 0, 0;
      HeadOk(M(), DiskPart(), out, next);
      if response == Accepted {
        splitTo := None;
        sentLines := sentLines + |inflight|;
        Leave();
      } else if response == Refused && |inflight| == 1 {
        refusedLines := refusedLines + 1;
        Leave();
      } else {
        if response == Refused {
          splitTo := Some((|inflight| + 1) / 2);
        }
        i, j := GoBack();
      }
    }

    /** The answer to a request that was in flight when a queue with a disk part was closed. Lines that are away count,
        but lines that were written back to the disk stay there, and so does the file of a segment that is not all
        away: the next start sends them again. Otherwise nothing changes. */
    method LateAnswer(response: Response)
      requires Stopped() && inflight != []
      modifies this, disk
      ensures Stopped() && inflight == [] && next == old(next) && droppedLines == old(droppedLines)
              && total == old(total) && lost == old(lost)
      ensures sentLines == old(sentLines) + if response == Accepted then |old(inflight)| else 0
      ensures Away(response, |old(inflight)|) ==>
                && out == old(out) + old(inflight) && old(kept) == old(inflight) + kept
                && (again == old(again) + old(inflight) || (again == [] && old(fromSeg).Some?))
      ensures !Away(response, |old(inflight)|) ==>
                out == old(out) && kept == old(kept) && again == old(again) && disk.D() == old(disk.D())
    {
      hide DiskOk, Content, InOrder, Suffix, StoppedOk;
      if response == Accepted {
        splitTo := None;
        sentLines := sentLines + |inflight|;
        LateLeave();
      } else if response == Refused && |inflight| == 1 {
        refusedLines := refusedLines + 1;
        LateLeave();
      } else {
        if response == Refused {
          splitTo := Some((|inflight| + 1) / 2);
        }
        LateKept(M(), disk.D(), out, again, kept, next);
        inflight, inflightBytes := [], 0;
      }
    }

    /** The lines that were in flight are away. */
    method LateLeave()
      requires disk != null && DiskOk(disk.D()) && StoppedOk(M(), disk.D(), out, again, kept, next) && inflight != []
      modifies this`inflight, this`inflightBytes, this`fromSeg, this`fromSegLeft, this`out, this`again, this`kept, disk
      ensures DiskOk(disk.D()) && StoppedOk(M(), disk.D(), out, again, kept, next) && inflight == []
      ensures out == old(out) + old(inflight) && old(kept) == old(inflight) + kept
      ensures again == old(again) + old(inflight) || (again == [] && old(fromSeg).Some?)
    {
      hide DiskOk, NextOk, Content, InOrder, Suffix, StoppedOk, QueueOk, Queued;
      var n := |inflight|;
      LateLeft(M(), disk.D(), out, again, kept, next);
      out, kept, again := out + inflight, kept[n..], again + inflight;
      inflight, inflightBytes := [], 0;
      if fromSeg.Some? {
        fromSegLeft := fromSegLeft - n;
        if fromSegLeft <= 0 {
          disk.Done(fromSeg.value);
          fromSeg, fromSegLeft, again := None, 0, [];
        }
      }
    }

    /** The same without a disk part: what failed is lost with the queue. */
    method LateAnswerInMemory(response: Response)
      requires Valid() && closed && disk == null && inflight != []
      modifies this
      ensures Valid() && inflight == [] && droppedLines == old(droppedLines) && total == old(total) && closed
      ensures old(head) <= |old(lines)| && head <= |lines| && old(Q()) == old(inflight) + Q()
      ensures if Away(response, |old(inflight)|) then out == old(out) + old(inflight) && lost == old(lost)
              else out == old(out) && lost == old(lost) + |old(inflight)|
    {
      hide QueueOk, Bytes, Content, DiskOk, Queued, OnDisk;
      HeadOk(M(), DiskPart(), out, next);
      if response == Accepted {
        splitTo := None;
        sentLines := sentLines + |inflight|;
        Leave();
      } else if response == Refused && |inflight| == 1 {
        refusedLines := refusedLines + 1;
        Leave();
      } else {
        if response == Refused {
          splitTo := Some((|inflight| + 1) / 2);
        }
        LostOk(M(), out, next);
        lost := lost + |inflight|;
        inflight, inflightBytes := [], 0;
      }
    }

    /** The lines in flight are first in memory again. */
    method GoBack() returns (ghost i: nat, ghost j: nat)
      requires Valid()
      modifies this`bytes, this`inflightBytes, this`lines, this`head, this`inflight, this`droppedLines
      ensures Valid() && head <= |lines| && inflight == []
      ensures old(head) <= |old(lines)| && Removed(old(Q()), Q(), i, j) && droppedLines == old(droppedLines) + j - i
      ensures j > i ==> disk == null && Needed(old(Q()), i, j)
    {
      hide QueueOk, Bytes, Content, DiskOk, Queued;
      BackOk(M(), DiskPart(), out, next);
      bytes, inflightBytes := bytes + Bytes(inflight), 0;
      lines, head, inflight := inflight + lines[head..], 0, [];
      i, j := Trim();
    }

    /** The lines in flight are done with; a taken segment is deleted with its last line. */
    method Leave()
      requires (disk != null ==> disk.Valid()) && QueueOk(M(), DiskPart(), out, next) && inflight != []
      modifies this`inflight, this`inflightBytes, this`fromSeg, this`fromSegLeft, this`out, disk
      ensures (disk != null ==> disk.Valid()) && QueueOk(M(), DiskPart(), out, next) && head <= |lines|
      ensures inflight == [] && out == old(out) + old(inflight) && old(head) <= |old(lines)|
              && old(Q()) == old(inflight) + Q()
    {
      hide QueueOk, Bytes, Content, DiskOk;
      LeftOk(M(), DiskPart(), out, next);
      var n := |inflight|;
      out := out + inflight;
      inflight, inflightBytes := [], 0;
      if fromSeg.Some? {
        fromSegLeft := fromSegLeft - n;
        if fromSegLeft <= 0 {
          disk.Done(fromSeg.value);
          fromSeg, fromSegLeft := None, 0;
        }
      }
    }

    /** Stops the queue. With a disk part everything queued is on disk for the next start, lines of a taken segment
        in its file, behind those of them already sent or refused; without one it stays in memory. */
    method Close() returns (ghost i: nat, ghost j: nat)
      requires Valid() && !closed
      modifies this, disk
      ensures closed && inflight == old(inflight) && out == old(out) && next == old(next) && total == old(total)
              && lost == old(lost)
      ensures old(head) <= |old(lines)| && droppedLines == old(droppedLines) + j - i
      ensures disk == null ==> Valid() && Q() == old(Q()) && i == j
      ensures disk != null ==>
              Stopped() && Removed(old(Q()), kept, i, j)
              && (j > i ==> j <= |old(Q())| - |old(diskBuf)|)
    {
      hide QueueOk, Bytes, Content, DiskOk, StoppedOk;
      HeadOk(M(), DiskPart(), out, next);
      closed := true;
      i, j := FlushDisk();
      if disk != null {
        kept := Q();
        StopDisk();
      }
    }

    /** What memory holds goes back to the disk, unless it is in a taken segment's file. */
    method StopDisk()
      requires Valid() && disk != null && closed && diskBuf == [] && head <= |lines| && kept == Q()
      modifies this`lines, this`head, this`bytes, this`again, disk
      ensures Stopped()
    {
      hide Bytes, Content, DiskOk, InOrder, QueueOk, StoppedOk, Queued;
      ghost var m0, d0 := M(), DiskPart();
      if fromSeg.None? {
        NoneTaken(M(), DiskPart(), out, next);
        disk.PutBack(inflight + lines[head..]);
        again := [];
        StoppedBack(m0, d0, disk.D(), out, next);
      } else {
        again := AckedPart(M(), DiskPart(), out, next);
        StoppedTaken(m0, d0, out, next, again);
      }
      lines, head, bytes := [], 0, 0;
    }
  }

  /** Closes a queue, lets its last request be answered, and opens a queue over its files: it holds what the first one
      still had to send, in the same order, behind some of the last lines that one sent or had refused. */
  method StopAndStart(q: IngestQueue, late: Option<Response>, maxDiskBytes: nat, maxQueueBytes: nat)
    returns (q': IngestQueue, ghost held: seq<Line>, ghost i: nat, ghost j: nat)
    requires q.Valid() && !q.closed && q.disk != null
    modifies q, q.disk
    ensures q.Stopped() && old(q.head) <= |old(q.lines)|
    ensures Removed(old(q.Q()), held, i, j) && (held == q.kept
            || (held == old(q.inflight) + q.kept && Suffix(q.out, old(q.inflight))))
    ensures fresh(q') && q'.Valid() && q'.head <= |q'.lines| && q'.Q() == q.again + q.kept && Suffix(q.out, q.again)
  {
    hide QueueOk, Bytes, Content, DiskOk, InOrder, Reloaded, Queued, Removed, Suffix, NextOk, IngestQueue.Needed;
    i, j := q.Close();
    held := q.kept;
    OutSuffix(q.out, q.inflight);
    if late.Some? && q.inflight != [] {
      q.LateAnswer(late.value);
    }
    var tail := new DiskTail(maxDiskBytes, q.disk.files);
    ReloadedIs(q.disk.D(), tail.D());
    ReloadedOrder(q.out, q.again, q.kept, q.next);
    q' := new IngestQueue(tail, maxQueueBytes, q.next);
  }

  /** The lines in flight are away: acknowledged, or a single one refused. */
  predicate Away(response: Response, n: nat) { response == Accepted || (response == Refused && n == 1) }

  /** The files of a stopped queue: some of the last lines sent or refused, and then what is still to go; the lines in
      flight are the first of those. */
  ghost predicate StoppedOk(m: Memory, d: Disk, out: seq<Line>, again: seq<Line>, kept: seq<Line>, next: nat) {
    && OneTaken(d) && Reloaded(d) == again + kept && Suffix(out, again) && InOrder(out + kept, next)
        && m.inflight <= kept
    && if m.fromSeg.None? then d.taken == {}
       else d.taken == {m.fromSeg.value} && m.fromSeg.value in d.files && |m.inflight| <= m.fromSegLeft
            && m.fromSegLeft == |d.files[m.fromSeg.value]| - |again| > 0
  }

  lemma StoppedBack(m: Memory, d: Option<Disk>, d': Disk, out: seq<Line>, next: nat)
    requires QueueOk(m, d, out, next) && d.Some? && m.fromSeg.None? && m.diskBuf == []
    requires d'.taken == {} && m.head <= |m.lines| && Content(d') == m.inflight + m.lines[m.head..] + Content(d.value)
    ensures StoppedOk(m.(lines := [], head := 0, bytes := 0), d', out, [], Queued(m, d), next)
  {
    hide Content, InOrder;
    assert [] + Queued(m, d) == Queued(m, d) == Content(d');
  }

  lemma StoppedTaken(m: Memory, d: Option<Disk>, out: seq<Line>, next: nat, again: seq<Line>)
    requires QueueOk(m, d, out, next) && d.Some? && m.fromSeg.Some? && m.diskBuf == [] && m.head <= |m.lines|
    requires OneTaken(d.value) && Reloaded(d.value) == again + Queued(m, d) && Suffix(out, again)
    requires m.fromSeg.value in d.value.files && m.fromSegLeft == |d.value.files[m.fromSeg.value]| - |again|
    ensures StoppedOk(m.(lines := [], head := 0, bytes := 0), d.value, out, again, Queued(m, d), next)
  {
    hide Content, InOrder, Reloaded;
    assert Queued(m, d) == m.inflight + (Waiting(m) + OnDisk(d) + m.diskBuf);
  }

  /** Lines that are away after the stop. */
  lemma LateLeft(m: Memory, d: Disk, out: seq<Line>, again: seq<Line>, kept: seq<Line>, next: nat)
    requires StoppedOk(m, d, out, again, kept, next) && DiskOk(d) && m.inflight != []
    ensures var n := |m.inflight|;
            var m' := m.(inflight := [], inflightBytes := 0);
            && n <= |kept| && kept == m.inflight + kept[n..] && (m.fromSeg.Some? ==> m.fromSeg.value in d.taken)
            && (m.fromSeg.None? ==> StoppedOk(m', d, out + m.inflight, again + m.inflight, kept[n..], next))
            && (m.fromSeg.Some? && m.fromSegLeft > n ==>
                  StoppedOk(m'.(fromSegLeft := m.fromSegLeft - n), d, out + m.inflight, again + m.inflight, kept[n..],
                      next))
            && (m.fromSeg.Some? && m.fromSegLeft <= n ==>
                  var d' := d.(taken := d.taken - {m.fromSeg.value}, files := d.files - {m.fromSeg.value});
                  DiskOk(d') && StoppedOk(m'.(fromSeg := None, fromSegLeft := 0), d', out + m.inflight, [], kept[n..],
                      next))
  {
    hide Content, InOrder, DiskOk;
    var n := |m.inflight|;
    var rest := kept[n..];
    assert kept == m.inflight + rest;
    assert again + kept == (again + m.inflight) + rest;
    assert out + kept == (out + m.inflight) + rest;
    SuffixMore(out, again, m.inflight);
    if m.fromSeg.Some? && m.fromSegLeft <= n {
      DoneOk(d, m.fromSeg.value);
      TakenAway(d, m.fromSeg.value, again + m.inflight, rest);
    }
  }

  lemma LateKept(m: Memory, d: Disk, out: seq<Line>, again: seq<Line>, kept: seq<Line>, next: nat)
    requires StoppedOk(m, d, out, again, kept, next)
    ensures StoppedOk(m.(inflight := [], inflightBytes := 0), d, out, again, kept, next)
  {
    hide InOrder, Suffix, Reloaded;
  }

  lemma OutSuffix(out: seq<Line>, more: seq<Line>)
    ensures Suffix(out + more, more)
  {
  }

  lemma SuffixMore(out: seq<Line>, again: seq<Line>, more: seq<Line>)
    requires Suffix(out, again)
    ensures Suffix(out + more, again + more) && Suffix(out + more, [])
  {
    assert (out + more)[|out + more| - |again + more|..] == out[|out| - |again|..] + more;
    assert (out + more)[|out + more|..] == [];
  }

  lemma TakenAway(d: Disk, t: int, file: seq<Line>, rest: seq<Line>)
    requires d.taken == {t} && t in d.files && Reloaded(d) == file + rest && |d.files[t]| == |file|
    ensures Content(d) == rest
  {
    hide Content;
    var x :| d.taken == {x} && x in d.files && Reloaded(d) == d.files[x] + Content(d);
    assert x in d.taken;
    assert (d.files[t] + Content(d))[|file|..] == (file + rest)[|file|..];
  }

  lemma ReloadedOrder(out: seq<Line>, again: seq<Line>, kept: seq<Line>, next: nat)
    requires Suffix(out, again) && InOrder(out + kept, next)
    ensures InOrder(again + kept, next)
  {
    var n := |out| - |again|;
    forall i | 0 <= i < |again + kept|
      ensures (again + kept)[i] == (out + kept)[i + n]
    {
      if i < |again| { assert again[i] == out[n..][i]; }
    }
  }

  /** Lines in flight without a disk part, gone. */
  lemma LostOk(m: Memory, out: seq<Line>, next: nat)
    requires QueueOk(m, None, out, next)
    ensures var m' := m.(inflight := [], inflightBytes := 0);
            QueueOk(m', None, out, next) && Queued(m, None) == m.inflight + Queued(m', None)
  {
    hide Bytes, InOrder;
    var m' := m.(inflight := [], inflightBytes := 0);
    FlightSeq(out, m.inflight, Waiting(m), OnDisk(None), m.diskBuf);
    OrderWithout(out, m.inflight, Queued(m', None), next);
    NoBytes();
  }

  lemma FlightSeq(out: seq<Line>, a: seq<Line>, w: seq<Line>, x: seq<Line>, b: seq<Line>)
    ensures a + w + x + b == a + ([] + w + x + b) && out + (a + w + x + b) == out + a + ([] + w + x + b)
  {
  }

  /** A crash keeps what the files hold: the lines of a taken segment, with some of the last ones sent or refused in
      front, and the rest of the disk part. What was only in memory or buffered for the disk is gone. */
  lemma CrashLeaves(m: Memory, d: Option<Disk>, out: seq<Line>, next: nat) returns (again: seq<Line>)
    requires QueueOk(m, d, out, next) && d.Some?
    ensures m.head <= |m.lines| && OneTaken(d.value) && Suffix(out, again)
    ensures Reloaded(d.value) == again + (if m.fromSeg.Some? then m.inflight + Waiting(m) else []) + Content(d.value)
  {
    hide Content, InOrder;
    if m.fromSeg.Some? {
      var m' := m.(diskBuf := [], diskBufBytes := 0);
      BufferGone(m, d, out, next);
      again := AckedPart(m', d, out, next);
      assert Queued(m', d) == m.inflight + Waiting(m) + Content(d.value) + [];
      assert again + (m.inflight + Waiting(m)) + Content(d.value) == again + Queued(m', d);
    } else {
      again := [];
      assert again + [] + Content(d.value) == Content(d.value);
    }
  }

  lemma BufferGone(m: Memory, d: Option<Disk>, out: seq<Line>, next: nat)
    requires QueueOk(m, d, out, next) && d.Some?
    ensures QueueOk(m.(diskBuf := [], diskBufBytes := 0), d, out, next)
  {
    hide Content;
    var m' := m.(diskBuf := [], diskBufBytes := 0);
    assert out + Queued(m, d) == (out + Queued(m', d)) + m.diskBuf + [];
    assert (out + Queued(m', d)) + [] == out + Queued(m', d);
    OrderWithout(out + Queued(m', d), m.diskBuf, [], next);
  }

  datatype Response = Accepted | Refused | Failed

  predicate OneTaken(d: Disk) { d.taken == {} || exists t :: d.taken == {t} && t in d.files }

  /** What the next start loads: every segment in the order of its number, a taken one first. */
  ghost function Reloaded(d: Disk): seq<Line>
    requires OneTaken(d)
  {
    if d.taken == {} then Content(d)
    else
      var t :| d.taken == {t} && t in d.files;
      d.files[t] + Content(d)
  }

  /** Loading the files of a stopped queue's disk part gives just that. */
  lemma ReloadedIs(d: Disk, d2: Disk)
    requires DiskOk(d) && OneTaken(d) && DiskOk(d2) && d2.files == d.files && d2.taken == {}
    ensures Content(d2) == Reloaded(d)
  {
    var order := if d.taken == {} then d.segs else (var t :| d.taken == {t} && t in d.files; [t] + d.segs);
    if d.taken == {} {
      forall x ensures Among(d2.segs, x) <==> Among(order, x) { SameFiles(d, d2, x); }
      SameOrder(d2.segs, order);
    } else {
      var t :| d.taken == {t} && t in d.files;
      forall x ensures Among(d2.segs, x) <==> Among([t] + d.segs, x) {
        SameFiles(d, d2, x);
        AmongFront(t, d.segs, x);
      }
      assert t in d.taken;
      assert Increasing([t] + d.segs);
      SameOrder(d2.segs, [t] + d.segs);
      assert ([t] + d.segs)[1..] == d.segs;
    }
  }

  lemma AmongFront(t: int, s: seq<int>, x: int)
    ensures Among([t] + s, x) <==> x == t || Among(s, x)
  {
    assert ([t] + s)[0] == t;
    if Among(s, x) {
      var i :| 0 <= i < |s| && s[i] == x;
      assert ([t] + s)[i + 1] == x;
    }
  }

  lemma SameFiles(d: Disk, d2: Disk, x: int)
    requires DiskOk(d) && DiskOk(d2) && d2.files == d.files && d2.taken == {}
    ensures Among(d2.segs, x) <==> x in d.taken || Among(d.segs, x)
  {
    if Among(d2.segs, x) { var i :| 0 <= i < |d2.segs| && d2.segs[i] == x; }
    if Among(d.segs, x) { var i :| 0 <= i < |d.segs| && d.segs[i] == x; }
  }

  /** What a taken segment holds in front of the queue are the last lines sent or refused. */
  lemma AckedPart(m: Memory, d: Option<Disk>, out: seq<Line>, next: nat) returns (again: seq<Line>)
    requires QueueOk(m, d, out, next) && d.Some? && m.fromSeg.Some? && m.diskBuf == []
    ensures OneTaken(d.value) && m.head <= |m.lines| && Reloaded(d.value) == again + Queued(m, d) && Suffix(out, again)
    ensures m.fromSeg.value in d.value.files
    ensures m.fromSegLeft == |d.value.files[m.fromSeg.value]| - |again| == |m.inflight| + |Waiting(m)|
  {
    hide Content;
    var t := m.fromSeg.value;
    var file, tail := d.value.files[t], m.inflight + Waiting(m);
    again := file[..|file| - |tail|];
    var all := out + tail;
    assert file == all[|all| - |file|..];
    assert all[|all| - |tail|..] == tail;
    assert file[|file| - |tail|..] == tail;
    assert file == again + tail;
    assert out[|out| - |again|..] == again;
    assert t in d.value.taken;
    assert Reloaded(d.value) == file + Content(d.value);
    assert again + Queued(m, d) == again + (tail + Content(d.value) + []);
  }

  /** Lines in flight that are acknowledged or refused leave the front of the queue. */
  lemma LeftOk(m: Memory, d: Option<Disk>, out: seq<Line>, next: nat)
    requires QueueOk(m, d, out, next) && m.inflight != []
    ensures m.head <= |m.lines|
    ensures var left := m.fromSegLeft - |m.inflight|;
            var m' := m.(inflight := [], inflightBytes := 0);
            && Queued(m, d) == m.inflight + Queued(m', d)
            && (m.fromSeg.None? ==> QueueOk(m', d, out + m.inflight, next))
            && (m.fromSeg.Some? ==> d.Some? && m.fromSeg.value in d.value.taken)
            && (m.fromSeg.Some? && left > 0 ==> QueueOk(m'.(fromSegLeft := left), d, out + m.inflight, next))
            && (m.fromSeg.Some? && left <= 0 ==>
                  forall d2: Option<Disk> ::
                      d2.Some? && d2.value.taken == d.value.taken - {m.fromSeg.value}
                      && OnDisk(d2) == OnDisk(d) ==>
                    QueueOk(m'.(fromSeg := None, fromSegLeft := 0), d2, out + m.inflight, next))
  {
    hide Content, InOrder, TakenOk;
    var m' := m.(inflight := [], inflightBytes := 0);
    assert Queued(m', d) == Waiting(m) + OnDisk(d) + m.diskBuf;
    assert Queued(m, d) == m.inflight + Queued(m', d);
    assert out + Queued(m, d) == out + m.inflight + Queued(m', d);
    assert Bytes([]) == 0;
    LeftTaken(m, d, out);
  }

  lemma LeftTaken(m: Memory, d: Option<Disk>, out: seq<Line>)
    requires m.head <= |m.lines| && TakenOk(m, d, out) && m.inflight != []
    ensures var left := m.fromSegLeft - |m.inflight|;
            var m' := m.(inflight := [], inflightBytes := 0);
            && (m.fromSeg.None? ==> TakenOk(m', d, out + m.inflight))
            && (m.fromSeg.Some? ==> d.Some? && m.fromSeg.value in d.value.taken)
            && (m.fromSeg.Some? && left > 0 ==> TakenOk(m'.(fromSegLeft := left), d, out + m.inflight))
            && (m.fromSeg.Some? && left <= 0 ==>
                  forall d2: Option<Disk> :: d2.Some? && d2.value.taken == d.value.taken - {m.fromSeg.value} ==>
                    TakenOk(m'.(fromSeg := None, fromSegLeft := 0), d2, out + m.inflight))
  {
    if m.fromSeg.Some? {
      assert m.fromSeg.value in d.value.taken;
      assert out + (m.inflight + Waiting(m)) == (out + m.inflight) + ([] + Waiting(m));
    }
  }

  /** Lines that come back are first in memory again. */
  lemma BackOk(m: Memory, d: Option<Disk>, out: seq<Line>, next: nat)
    requires QueueOk(m, d, out, next)
    ensures m.head <= |m.lines|
    ensures var m' := m.(bytes := m.bytes + Bytes(m.inflight), inflightBytes := 0,
              lines := m.inflight + m.lines[m.head..], head := 0, inflight := []);
            QueueOk(m', d, out, next) && Queued(m', d) == Queued(m, d)
  {
    hide Content, InOrder, TakenOk;
    var m' := m.(bytes := m.bytes + Bytes(m.inflight), inflightBytes := 0, lines := m.inflight + m.lines[m.head..],
        head := 0, inflight := []);
    assert Waiting(m') == m.inflight + Waiting(m);
    BytesAdd(m.inflight, Waiting(m));
    assert m'.inflight + Waiting(m') == m.inflight + Waiting(m);
    SameTaken(m, m', d, out);
  }

  /** b is a without its elements from i to j. */
  predicate Removed(a: seq<Line>, b: seq<Line>, i: nat, j: nat) { i <= j <= |a| && b == a[..i] + a[j..] }

  lemma NothingRemoved(a: seq<Line>)
    ensures Removed(a, a, 0, 0)
  {
    assert a == a[..0] + a[0..];
  }

  lemma NoneRemovedAt(a: seq<Line>, i: nat)
    requires i <= |a|
    ensures Removed(a, a, i, i)
  {
    assert a == a[..i] + a[i..];
  }

  lemma RemoveMore(a: seq<Line>, b: seq<Line>, i: nat, j: nat)
    requires Removed(a, b, i, j) && i < |b|
    ensures j < |a| && b[i] == a[j] && |a| == |b| + j - i && Removed(a, b[..i] + b[i + 1..], i, j + 1)
  {
    assert b[..i] == a[..i] && b[i + 1..] == a[j + 1..];
  }

  lemma NoneTaken(m: Memory, d: Option<Disk>, out: seq<Line>, next: nat)
    requires QueueOk(m, d, out, next) && d.Some? && m.fromSeg.None?
    ensures d.value.taken == {}
  {
  }

  /** The taken segment in memory, or done at once when it is empty. */
  lemma TakenInto(m: Memory, d: Option<Disk>, d': Option<Disk>, out: seq<Line>, next: nat, s: int, ls: seq<Line>)
    requires QueueOk(m, d, out, next) && d.Some? && d'.Some? && m.inflight == [] && m.head == |m.lines|
             && m.fromSeg.None? && m.diskBuf == []
    requires OnDisk(d) == ls + OnDisk(d') && d'.value.taken == {s} && s in d'.value.files && d'.value.files[s] == ls
    ensures var m' := m.(lines := ls, head := 0, bytes := Bytes(ls), fromSeg := Some(s), fromSegLeft := |ls|);
            Queued(m', d') == Queued(m, d) && (ls != [] ==> QueueOk(m', d', out, next))
    ensures ls == [] ==> forall d2: Option<Disk> :: d2.Some? && d2.value.taken == {} && OnDisk(d2) == OnDisk(d') ==>
              QueueOk(m.(lines := [], head := 0, bytes := 0), d2, out, next)
                  && Queued(m.(lines := [], head := 0, bytes := 0), d2) == Queued(m, d)
  {
    hide Content, InOrder, TakenOk, Bytes, OnDisk;
    assert Waiting(m) == [];
    var m' := m.(lines := ls, head := 0, bytes := Bytes(ls), fromSeg := Some(s), fromSegLeft := |ls|);
    assert Waiting(m') == ls;
    FrontOnly(m, d);
    assert ls + OnDisk(d') + [] == ls + OnDisk(d') && [] + ls + OnDisk(d') + [] == ls + OnDisk(d');
    TakenFile(m, d, d', out, s, ls);
    if ls == [] { NoBytes(); }
  }

  lemma FrontOnly(m: Memory, d: Option<Disk>)
    requires m.head == |m.lines| && m.inflight == [] && m.diskBuf == []
    ensures Queued(m, d) == OnDisk(d)
  {
    hide OnDisk;
    assert [] + [] + OnDisk(d) + [] == OnDisk(d);
  }

  lemma TakenFile(m: Memory, d: Option<Disk>, d': Option<Disk>, out: seq<Line>, s: int, ls: seq<Line>)
    requires m.head == |m.lines| && TakenOk(m, d, out) && m.inflight == [] && m.fromSeg.None? && m.diskBuf == []
    requires d.Some? && d'.Some? && d'.value.taken == {s} && s in d'.value.files && d'.value.files[s] == ls
    ensures ls != [] ==> TakenOk(m.(lines := ls, head := 0, bytes := Bytes(ls), fromSeg := Some(s),
              fromSegLeft := |ls|), d', out)
    ensures ls == [] ==> forall d2: Option<Disk> :: d2.Some? && d2.value.taken == {} ==>
              TakenOk(m.(lines := [], head := 0, bytes := 0), d2, out)
  {
    hide Bytes;
    assert ls[0..] == ls && [] + ls == ls && (out + ls)[|out + ls| - |ls|..] == ls;
  }

  /** The first n waiting lines are in flight: the queue is the same. */
  lemma BatchOk(m: Memory, d: Option<Disk>, out: seq<Line>, next: nat, n: nat)
    requires QueueOk(m, d, out, next) && m.inflight == [] && m.head + n <= |m.lines|
    ensures var batch := m.lines[m.head..m.head + n];
            var m' := m.(head := m.head + n, bytes := m.bytes - Bytes(batch), inflightBytes := Bytes(batch),
                inflight := batch);
            QueueOk(m', d, out, next) && Queued(m', d) == Queued(m, d) && batch <= Queued(m, d)
  {
    hide Content, InOrder, TakenOk, Bytes, Queued, OnDisk;
    var batch, rest := m.lines[m.head..m.head + n], m.lines[m.head + n..];
    var m' := m.(head := m.head + n, bytes := m.bytes - Bytes(batch), inflightBytes := Bytes(batch), inflight := batch);
    SliceSplit(m.lines, m.head, n);
    BytesAdd(batch, rest);
    assert m.inflight + Waiting(m) == m'.inflight + Waiting(m');
    SameTaken(m, m', d, out);
    SameQueued(m, m', d);
    FlightFirst(m', d);
    NoBytes();
  }

  lemma SameQueued(m: Memory, m': Memory, d: Option<Disk>)
    requires m.head <= |m.lines| && m'.head <= |m'.lines| && m.inflight + Waiting(m) == m'.inflight + Waiting(m')
             && m'.diskBuf == m.diskBuf
    ensures Queued(m', d) == Queued(m, d)
  {
    hide OnDisk;
  }

  lemma FlightFirst(m: Memory, d: Option<Disk>)
    requires m.head <= |m.lines|
    ensures m.inflight <= Queued(m, d)
  {
    hide OnDisk;
    assert Queued(m, d) == m.inflight + (Waiting(m) + OnDisk(d) + m.diskBuf);
  }

  lemma SliceSplit(ls: seq<Line>, a: nat, n: nat)
    requires a + n <= |ls|
    ensures ls[a..] == ls[a..a + n] + ls[a + n..]
  {
  }

  /** Moving lines between flight and memory leaves the taken segment as it is. */
  lemma SameTaken(m: Memory, m': Memory, d: Option<Disk>, out: seq<Line>)
    requires m.head <= |m.lines| && m'.head <= |m'.lines| && TakenOk(m, d, out)
    requires m.inflight + Waiting(m) == m'.inflight + Waiting(m')
    requires m'.diskBuf == m.diskBuf && m'.fromSeg == m.fromSeg && m'.fromSegLeft == m.fromSegLeft
    ensures TakenOk(m', d, out)
  {
    assert |m.inflight + Waiting(m)| == |m.inflight| + |Waiting(m)|
           && |m'.inflight + Waiting(m')| == |m'.inflight| + |Waiting(m')|;
  }

  lemma BufferEmpty(m: Memory, d: Option<Disk>, out: seq<Line>, next: nat)
    requires QueueOk(m, d, out, next) && d.None?
    ensures m.diskBuf == []
  {
  }

  lemma LastOfGone(segs: seq<int>, files: map<int, seq<Line>>, k: nat)
    requires 0 < k <= |segs|
    ensures Bytes(Concat(segs[..k], files)) >= Bytes(ReadOrEmpty(files, segs[k - 1]))
  {
    hide Concat, Bytes;
    DropsOldest(segs, files, k - 1);
    BytesAdd(Concat(segs[..k - 1], files), ReadOrEmpty(files, segs[k - 1]));
  }

  lemma FlushedTaken(m: Memory, d: Option<Disk>, d': Option<Disk>, out: seq<Line>)
    requires m.head <= |m.lines| && TakenOk(m, d, out) && d.Some? && d'.Some? && d'.value.taken == d.value.taken
    requires TakenSame(d.value.taken, d.value.files, d'.value.files)
    ensures TakenOk(m.(diskBuf := [], diskBufBytes := 0), d', out)
  {
    if m.fromSeg.Some? {
      var t := m.fromSeg.value;
      assert t in d.value.taken && t in d.value.files;
      assert t in d'.value.files;
    }
  }

  /** The buffered lines are behind everything on disk now, except what went at its front. */
  lemma FlushedOk(m: Memory, d: Option<Disk>, d': Option<Disk>, out: seq<Line>, next: nat, gone: seq<Line>)
    requires QueueOk(m, d, out, next) && d.Some? && d'.Some? && d'.value.taken == d.value.taken
    requires OnDisk(d) + m.diskBuf == gone + OnDisk(d')
    requires TakenSame(d.value.taken, d.value.files, d'.value.files)
    ensures m.head <= |m.lines|
    ensures var m', i := m.(diskBuf := [], diskBufBytes := 0), |m.inflight| + |m.lines| - m.head;
            && QueueOk(m', d', out, next) && Removed(Queued(m, d), Queued(m', d'), i, i + |gone|)
                && Queued(m, d)[i..i + |gone|] == gone
            && |Queued(m, d)| == i + |OnDisk(d)| + |m.diskBuf|
  {
    hide Content, InOrder, TakenOk, TakenSame, Removed, Bytes, OnDisk;
    var m' := m.(diskBuf := [], diskBufBytes := 0);
    var front := m.inflight + Waiting(m);
    FlushedSeq(out, front, OnDisk(d), m.diskBuf, gone, OnDisk(d'));
    OrderWithout(out + front, gone, OnDisk(d'), next);
    NoBytes();
    FlushedTaken(m, d, d', out);
  }

  lemma FlushedSeq(out: seq<Line>, front: seq<Line>, x: seq<Line>, buf: seq<Line>, gone: seq<Line>, y: seq<Line>)
    requires x + buf == gone + y
    ensures out + (front + x + buf) == (out + front) + gone + y && out + (front + y + []) == (out + front) + y
    ensures Removed(front + x + buf, front + y + [], |front|, |front| + |gone|)
            && (front + x + buf)[|front|..|front| + |gone|] == gone
  {
    assert front + x + buf == front + (x + buf) == front + gone + y;
    assert front + y + [] == front + y;
  }

  lemma HeadOk(m: Memory, d: Option<Disk>, out: seq<Line>, next: nat)
    requires QueueOk(m, d, out, next)
    ensures m.head <= |m.lines| && |m.inflight| + |m.lines| - m.head <= |Queued(m, d)|
  {
  }

  /** The new line is the last of the queue, in memory when nothing is behind it, else buffered for the disk. */
  lemma PushedOk(m: Memory, d: Option<Disk>, out: seq<Line>, next: nat, l: Line)
    requires QueueOk(m, d, out, next) && l.id == next
    ensures m.head <= |m.lines|
    ensures d.Some? ==>
              var m' := m.(diskBuf := m.diskBuf + [l], diskBufBytes := m.diskBufBytes + l.size + 1);
              QueueOk(m', d, out, next + 1) && Queued(m', d) == Queued(m, d) + [l]
    ensures OnDisk(d) + m.diskBuf == [] && m.fromSeg.None? ==>
              var m' := m.(lines := m.lines + [l], bytes := m.bytes + l.size + 1);
              QueueOk(m', d, out, next + 1) && Queued(m', d) == Queued(m, d) + [l]
  {
    hide Bytes, Content;
    var q := Queued(m, d);
    OrderPushed(out + q, l, next);
    assert out + q + [l] == out + (q + [l]);
    BytesOne(l);
    if d.Some? {
      BytesAdd(m.diskBuf, [l]);
      assert m.inflight + Waiting(m) + OnDisk(d) + (m.diskBuf + [l]) == q + [l];
    }
    if OnDisk(d) + m.diskBuf == [] {
      BytesAdd(Waiting(m), [l]);
      var m' := m.(lines := m.lines + [l], bytes := m.bytes + l.size + 1);
      assert Waiting(m') == Waiting(m) + [l];
      assert OnDisk(d) == [] && m.diskBuf == [];
      assert Queued(m', d) == q + [l];
    }
  }

  lemma NoneOnDisk(m: Memory, d: Option<Disk>, out: seq<Line>, next: nat)
    requires QueueOk(m, d, out, next) && (d.Some? ==>
               DiskOk(d.value) && d.value.lines == 0 && m.diskBuf == [] && m.fromSeg.None?)
    ensures m.head <= |m.lines| && OnDisk(d) + m.diskBuf == [] && m.fromSeg.None?
  {
  }

  lemma DropHeadOk(m: Memory, out: seq<Line>, next: nat)
    requires QueueOk(m, None, out, next) && m.head < |m.lines|
    ensures var m' := m.(bytes := m.bytes - m.lines[m.head].size - 1, head := m.head + 1);
            var n := |m.inflight|;
            && QueueOk(m', None, out, next) && n + |m.lines| - m.head == |Queued(m, None)|
                && Queued(m, None)[n] == m.lines[m.head]
            && Queued(m', None) == Queued(m, None)[..n] + Queued(m, None)[n + 1..]
  {
    var m' := m.(bytes := m.bytes - m.lines[m.head].size - 1, head := m.head + 1);
    assert Waiting(m) == [m.lines[m.head]] + Waiting(m') && Waiting(m)[1..] == Waiting(m');
    assert out + Queued(m, None) == (out + m.inflight) + [m.lines[m.head]] + Waiting(m');
    OrderWithout(out + m.inflight, [m.lines[m.head]], Waiting(m'), next);
    assert out + Queued(m', None) == (out + m.inflight) + Waiting(m');
  }
}
