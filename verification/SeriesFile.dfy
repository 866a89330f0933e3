/** One series on disk: a file of records and an index file beside it. Appends, syncs, and what recovery makes
    of the files a crash leaves. */
module SeriesFile {
  import opened Common

  const HEADER_SIZE := 32

  /** The kinds of records, and what an index entry of unwritten bytes says. */
  datatype Kind = DeltaRec | KeyframeRec | SnapshotRec | NoKind

  datatype Rec = Rec(tStart: TimeMs, tLen: nat, size: nat, kind: Kind, payload: int)

  /** An index entry in memory: `deltas` counts the delta records up to this one. */
  datatype Entry = Entry(tStart: TimeMs, tLen: nat, off: nat, size: nat, kind: Kind, deltas: nat)

  /** An index entry on disk; it has no count of deltas. */
  datatype IndexRec = IndexRec(tStart: TimeMs, tLen: nat, off: nat, size: nat, kind: Kind)

  function TEnd(r: Rec): TimeMs { r.tStart + r.tLen }

  function ValidKind(k: Kind): bool { k != NoKind }

  // --- what the records determine ---

  /** Where record number i starts. */
  function Off(recs: seq<Rec>, i: nat): nat
    requires i <= |recs|
  {
    if i == 0 then 0 else Off(recs, i - 1) + HEADER_SIZE + recs[i - 1].size
  }

  function Deltas(recs: seq<Rec>, i: nat): nat
    requires i <= |recs|
  {
    if i == 0 then 0 else Deltas(recs, i - 1) + if recs[i - 1].kind == DeltaRec then 1 else 0
  }

  function IndexOf(recs: seq<Rec>, i: nat): IndexRec
    requires i < |recs|
  {
    IndexRec(recs[i].tStart, recs[i].tLen, Off(recs, i), recs[i].size, recs[i].kind)
  }

  function EntryOf(recs: seq<Rec>, i: nat): Entry
    requires i < |recs|
  {
    Entry(recs[i].tStart, recs[i].tLen, Off(recs, i), recs[i].size, recs[i].kind, Deltas(recs, i + 1))
  }

  ghost predicate IsEntries(entries: seq<Entry>, recs: seq<Rec>) {
    |entries| == |recs| && forall i :: 0 <= i < |recs| ==> entries[i] == EntryOf(recs, i)
  }

  /** Records have a kind, and their effective times never go back. */
  ghost predicate InOrder(recs: seq<Rec>) {
    && (forall i :: 0 <= i < |recs| ==> ValidKind(recs[i].kind))
    && (forall i :: 0 < i < |recs| ==> TEnd(recs[i - 1]) <= TEnd(recs[i]))
  }

  lemma {:induction false} PrefixSame(a: seq<Rec>, b: seq<Rec>, i: nat)
    requires i <= |a| && i <= |b| && a[..i] == b[..i]
    ensures Off(a, i) == Off(b, i) && Deltas(a, i) == Deltas(b, i)
    decreases i
  {
    if i > 0 {
      assert a[i - 1] == a[..i][i - 1] == b[..i][i - 1] == b[i - 1];
      assert a[..i - 1] == a[..i][..i - 1] == b[..i][..i - 1] == b[..i - 1];
      PrefixSame(a, b, i - 1);
    }
  }

  lemma {:induction false} OffGrows(recs: seq<Rec>, i: nat, j: nat)
    requires i <= j <= |recs|
    ensures Off(recs, i) <= Off(recs, j) && (i < j ==> Off(recs, i) + HEADER_SIZE + recs[i].size <= Off(recs, j))
    decreases j
  {
    if i < j { OffGrows(recs, i, j - 1); }
  }

  lemma EntriesPrefix(recs: seq<Rec>, k: nat, i: nat)
    requires i < k <= |recs|
    ensures EntryOf(recs[..k], i) == EntryOf(recs, i) && IndexOf(recs[..k], i) == IndexOf(recs, i)
  {
    assert recs[..k][..i] == recs[..i] && recs[..k][..i + 1] == recs[..i + 1];
    PrefixSame(recs[..k], recs, i);
    PrefixSame(recs[..k], recs, i + 1);
  }

  // --- files, memory and crashes ---

  /** `blk` maps an offset of the record file to the record whose checksums hold there; `idx` is the index file. */
  datatype Files = Files(blk: map<nat, Rec>, blkSize: nat, idx: seq<IndexRec>)

  datatype Memory = Memory(entries: seq<Entry>, size: nat, written: nat, dirty: bool)

  ghost predicate InBounds(blk: map<nat, Rec>,
                           blkSize: nat) { forall o <- blk :: o + HEADER_SIZE + blk[o].size <= blkSize }

  ghost predicate AllThere(blk: map<nat, Rec>, recs: seq<Rec>, n: nat)
    requires n <= |recs|
  {
    forall i :: 0 <= i < n ==> Off(recs, i) in blk && blk[Off(recs, i)] == recs[i]
  }

  ghost predicate TrueIndex(idx: seq<IndexRec>, recs: seq<Rec>, n: nat) {
    n <= |idx| && n <= |recs| && forall i :: 0 <= i < n ==> idx[i] == IndexOf(recs, i)
  }

  /** The store's memory and files for these records, the first `synced` of them durable. */
  ghost predicate Ok(f: Files, m: Memory, recs: seq<Rec>, synced: nat) {
    && InOrder(recs) && IsEntries(m.entries, recs) && m.size == Off(recs, |recs|) == f.blkSize
    && m.written == |f.idx| <= synced <= |recs| && (!m.dirty ==> synced == |recs|)
    && TrueIndex(f.idx, recs, m.written) && AllThere(f.blk, recs, |recs|) && InBounds(f.blk, f.blkSize)
  }

  /** What a crash may leave of them: the synced records check out, and at a record's place no other does. The index
      file is never synced and holds entries of synced records only; which of their bytes reached the disk is open. */
  ghost predicate CrashImage(f: Files, recs: seq<Rec>, synced: nat) {
    && InOrder(recs) && |f.idx| <= synced <= |recs| && Off(recs, synced) <= f.blkSize && InBounds(f.blk, f.blkSize)
        && AllThere(f.blk, recs, synced)
    && (forall i :: 0 <= i < |recs| && Off(recs, i) in f.blk ==> f.blk[Off(recs, i)] == recs[i])
    && Off(recs, |recs|) !in f.blk
  }

  /** The index tore from its end: true entries, then a hole, or a torn entry and a hole. */
  ghost predicate TornAt(idx: seq<IndexRec>, recs: seq<Rec>, j: nat) {
    TrueIndex(idx, recs, j)
    && (j < |idx| ==> idx[j].kind == NoKind || (j + 1 < |idx| ==> idx[j + 1].kind == NoKind))
  }

  /** The files of a store that is running, or was closed, are themselves an image: recovering them changes nothing. */
  lemma OkIsImage(f: Files, m: Memory, recs: seq<Rec>)
    requires Ok(f, m, recs, |recs|)
    ensures CrashImage(f, recs, |recs|) && TrueIndex(f.idx, recs, |f.idx|)
  {
  }

  // --- appending ---

  lemma Appended(f: Files, m: Memory, recs: seq<Rec>, synced: nat, r: Rec)
    requires Ok(f, m, recs, synced) && ValidKind(r.kind) && (recs != [] ==> TEnd(recs[|recs| - 1]) <= TEnd(r))
    ensures var recs' := recs + [r];
            Ok(Files(f.blk[m.size := r], m.size + HEADER_SIZE + r.size, f.idx),
               Memory(m.entries + [EntryOf(recs', |recs|)], m.size + HEADER_SIZE + r.size, m.written, true), recs',
                   synced)
            && EntryOf(recs', |recs|) == Entry(r.tStart, r.tLen, m.size, r.size, r.kind,
                Deltas(recs, |recs|) + if r.kind == DeltaRec then 1 else 0)
  {
    hide Off, AllThere, TrueIndex, InBounds, IsEntries;
    var recs', n := recs + [r], |recs|;
    assert recs'[..n] == recs == recs[..n];
    PrefixSame(recs', recs, n);
    AppendedOff(recs, r);
    AppendedEntries(m.entries, f.idx, recs, r);
    AppendedBlk(f.blk, f.blkSize, recs, r);
    TrueIndexLength(f.idx, recs);
  }

  lemma TrueIndexLength(idx: seq<IndexRec>, recs: seq<Rec>)
    requires TrueIndex(idx, recs, |idx|)
    ensures |idx| <= |recs|
  {
  }

  lemma AppendedOff(recs: seq<Rec>, r: Rec)
    ensures Off(recs + [r], |recs| + 1) == Off(recs + [r], |recs|) + HEADER_SIZE + r.size
    ensures Deltas(recs + [r], |recs| + 1) == Deltas(recs + [r], |recs|) + if r.kind == DeltaRec then 1 else 0
  {
  }

  lemma AppendedEntries(entries: seq<Entry>, idx: seq<IndexRec>, recs: seq<Rec>, r: Rec)
    requires IsEntries(entries, recs) && TrueIndex(idx, recs, |idx|)
    ensures IsEntries(entries + [EntryOf(recs + [r], |recs|)], recs + [r]) && TrueIndex(idx, recs + [r], |idx|)
  {
    hide Off;
    var recs' := recs + [r];
    assert recs'[..|recs|] == recs;
    forall i | 0 <= i < |recs|
      ensures EntryOf(recs', i) == EntryOf(recs, i) && IndexOf(recs', i) == IndexOf(recs, i)
    {
      EntriesPrefix(recs', |recs|, i);
    }
  }

  lemma AppendedBlk(blk: map<nat, Rec>, blkSize: nat, recs: seq<Rec>, r: Rec)
    requires AllThere(blk, recs, |recs|) && InBounds(blk, blkSize) && blkSize == Off(recs, |recs|)
    ensures AllThere(blk[blkSize := r], recs + [r], |recs| + 1)
            && InBounds(blk[blkSize := r], blkSize + HEADER_SIZE + r.size)
  {
    hide Off;
    var recs', n := recs + [r], |recs|;
    assert recs'[..n] == recs[..n];
    PrefixSame(recs', recs, n);
    forall i | 0 <= i < n
      ensures Off(recs', i) == Off(recs, i) < blkSize
    {
      assert recs'[..i] == recs[..i];
      PrefixSame(recs', recs, i);
      OffGrows(recs, i, n);
    }
  }

  // --- recovery ---

  /** The record an index entry points at has checksums that hold and is the one it describes. */
  predicate CheckRecord(f: Files, e: IndexRec) {
    && e.off in f.blk && e.off + HEADER_SIZE + e.size <= f.blkSize
    && var r := f.blk[e.off]; e.tStart == r.tStart && e.tLen == r.tLen && e.size == r.size && e.kind == r.kind
  }

  predicate Follows(e: IndexRec, prev: IndexRec) {
    e.off == prev.off + HEADER_SIZE + prev.size
  }

  /** Entry n's record ends its effective time before the one the check starts from, 0 for the first entry. */
  predicate GoesBack(idx: seq<IndexRec>, n: nat)
    requires n < |idx|
  {
    idx[n].tStart + idx[n].tLen < if n == 0 then 0 else idx[n - 1].tStart + idx[n - 1].tLen
  }

  /** Index entry n passes the tests of contiguity and time order; a first entry before time 0 is taken for a
      violation, and the scan must find its record again. */
  predicate Passes(idx: seq<IndexRec>, n: nat)
    requires n < |idx|
  {
    ValidKind(idx[n].kind) && !GoesBack(idx, n) && if n == 0 then idx[n].off == 0 else Follows(idx[n], idx[n - 1])
  }

  /** The first entry from n on that does not pass. */
  function FirstBad(idx: seq<IndexRec>, n: nat): (b: nat)
    requires n <= |idx|
    ensures n <= b <= |idx| && (b < |idx| ==> !Passes(idx, b)) && forall i :: n <= i < b ==> Passes(idx, i)
    decreases |idx| - n
  {
    if n < |idx| && Passes(idx, n) then FirstBad(idx, n + 1) else n
  }

  /** The last entry of the first n whose record checks out, and all before it. */
  function LastChecked(f: Files, n: nat): (c: nat)
    requires n <= |f.idx|
    ensures c <= n && (c > 0 ==> CheckRecord(f, f.idx[c - 1])) && forall i :: c <= i < n ==> !CheckRecord(f, f.idx[i])
  {
    if n == 0 || CheckRecord(f, f.idx[n - 1]) then n else LastChecked(f, n - 1)
  }

  /** How many index entries recovery keeps: only the last of them is checked against its record. */
  function Trusted(f: Files): nat { LastChecked(f, FirstBad(f.idx, 0)) }

  /** Entry i has a kind, starts where the one before it ends, after a header of 32 bytes and its payload, and ends its
      effective time no earlier; the first one starts at 0 and ends at 0 or later. */
  ghost predicate GoesOn(idx: seq<IndexRec>, i: nat)
    requires i < |idx|
  {
    && idx[i].kind != NoKind && idx[i].off == (if i == 0 then 0 else idx[i - 1].off + 32 + idx[i - 1].size)
    && idx[i].tStart + idx[i].tLen >= if i == 0 then 0 else idx[i - 1].tStart + idx[i - 1].tLen
  }

  /** How many index entries describe contiguous records in time order. */
  method Contiguous(idx: seq<IndexRec>) returns (n: nat)
    ensures n == FirstBad(idx, 0)
    ensures n <= |idx| && (forall i: nat :: i < n ==> GoesOn(idx, i)) && (n < |idx| ==> !GoesOn(idx, n))
  {
    n := 0;
    while n < |idx|
      invariant 0 <= n <= |idx| && FirstBad(idx, 0) == FirstBad(idx, n)
      invariant forall i: nat :: i < n ==> GoesOn(idx, i)
    {
      var e := idx[n];
      if !ValidKind(e.kind) || GoesBack(idx, n) || (if n == 0 then e.off != 0 else !Follows(e, idx[n - 1])) {
        break;
      }
      n := n + 1;
    }
  }

  /** A true entry passes every test, but for a first one before time 0. */
  lemma IndexPasses(idx: seq<IndexRec>, recs: seq<Rec>, j: nat, n: nat)
    requires TrueIndex(idx, recs, j) && InOrder(recs) && n < j
    ensures ValidKind(idx[n].kind) && (if n == 0 then idx[n].off == 0 else Follows(idx[n], idx[n - 1]))
            && (GoesBack(idx, n) <==> n == 0 && TEnd(recs[0]) < 0)
  {
    if 0 < n { assert Off(recs, n) == Off(recs, n - 1) + HEADER_SIZE + recs[n - 1].size; }
  }

  /** The true entries at the front all pass, unless the first record is from before time 0: then none does. */
  lemma {:induction false} TruePass(idx: seq<IndexRec>, recs: seq<Rec>, j: nat)
    requires TrueIndex(idx, recs, j) && InOrder(recs)
    ensures if j > 0 && TEnd(recs[0]) < 0 then FirstBad(idx, 0) == 0 else j <= FirstBad(idx, 0)
  {
    hide InOrder, Off;
    var b := FirstBad(idx, 0);
    if b < j { IndexPasses(idx, recs, j, b); }
    if j > 0 { IndexPasses(idx, recs, j, 0); }
  }

  /** At the entry's place is a record whose checksums hold, with the entry's times, size and kind, that ends within the
      file. */
  ghost predicate Described(f: Files, e: IndexRec) {
    && e.off in f.blk && e.off + 32 + e.size <= f.blkSize
    && e == IndexRec(f.blk[e.off].tStart, f.blk[e.off].tLen, e.off, f.blk[e.off].size, f.blk[e.off].kind)
  }

  /** How many index entries to keep: from the end, entries whose record does not check out are dropped. */
  method TrustedIndex(f: Files) returns (n: nat)
    ensures n == Trusted(f) && n <= |f.idx| && (forall i: nat :: i < n ==> GoesOn(f.idx, i))
    ensures n > 0 ==> Described(f, f.idx[n - 1])
    ensures forall i: nat :: n <= i < |f.idx| && (forall k: nat :: k <= i ==> GoesOn(f.idx, k)) ==>
              !Described(f, f.idx[i])
  {
    n := Contiguous(f.idx);
    ghost var good := n;
    while n > 0
      invariant n <= good <= |f.idx| && LastChecked(f, n) == Trusted(f)
      invariant forall i: nat :: n <= i < good ==> !Described(f, f.idx[i])
    {
      if CheckRecord(f, f.idx[n - 1]) {
        break;
      }
      n := n - 1;
    }
  }

  /** An index that tore from its end is trusted only as far as it is true. */
  lemma TornIsTrue(f: Files, recs: seq<Rec>, synced: nat, j: nat)
    requires CrashImage(f, recs, synced) && TornAt(f.idx, recs, j)
    ensures TrueIndex(f.idx, recs, Trusted(f))
  {
    hide Off, InBounds, AllThere;
    var n := Trusted(f);
    if n > j {
      assert Passes(f.idx, j);
      if n > j + 1 { TrustedPasses(f, j + 1); }
      NextOff(f.idx, recs, j);
      Checked(f, recs, synced, j);
    }
  }

  lemma TrustedPasses(f: Files, i: nat)
    requires i < Trusted(f)
    ensures ValidKind(f.idx[i].kind)
  {
    assert Passes(f.idx, i);
  }

  /** An entry that passes behind true ones points at the next record. */
  lemma NextOff(idx: seq<IndexRec>, recs: seq<Rec>, j: nat)
    requires TrueIndex(idx, recs, j) && j < |idx| && j < |recs| && Passes(idx, j)
    ensures idx[j].off == Off(recs, j)
  {
  }

  /** A torn entry that checks out is the true one after all. */
  lemma Checked(f: Files, recs: seq<Rec>, synced: nat, j: nat)
    requires CrashImage(f, recs, synced) && TrueIndex(f.idx, recs, j) && j < |f.idx|
    requires f.idx[j].off == Off(recs, j) && CheckRecord(f, f.idx[j])
    ensures TrueIndex(f.idx, recs, j + 1)
  {
    hide Off, InBounds, AllThere, InOrder;
    assert f.blk[Off(recs, j)] == recs[j];
    assert f.idx[j] == IndexOf(recs, j);
  }

  /** A record found at the next place is the next one. */
  lemma FoundNext(f: Files, recs: seq<Rec>, synced: nat, found: seq<IndexRec>, pos: nat)
    requires CrashImage(f, recs, synced) && TrueIndex(found, recs, |found|) && pos == Off(recs, |found|)
    ensures |found| < synced ==> pos in f.blk
    ensures pos in f.blk ==>
              && |found| < |recs| && f.blk[pos] == recs[|found|] && pos + HEADER_SIZE + recs[|found|].size <= f.blkSize
              && (|found| > 0 ==> TEnd(recs[|found|]) >= found[|found| - 1].tStart + found[|found| - 1].tLen)
              && IndexOf(recs, |found|)
                 == IndexRec(f.blk[pos].tStart, f.blk[pos].tLen, pos, f.blk[pos].size, f.blk[pos].kind)
              && pos + HEADER_SIZE + f.blk[pos].size == Off(recs, |found| + 1)
  {
  }

  /** The records after the trusted index that check out one behind the other. */
  method ScanRecords(f: Files, n: nat, ghost recs: seq<Rec>, ghost synced: nat) returns (found: seq<IndexRec>, pos: nat)
    requires CrashImage(f, recs, synced) && n <= |f.idx| && (n > 0 ==> CheckRecord(f, f.idx[n - 1]))
    ensures f.idx[..n] <= found
    ensures TrueIndex(f.idx, recs, n) ==>
              && synced <= |found| <= |recs| && TrueIndex(found, recs, |found|)
              && pos == Off(recs, |found|) <= f.blkSize && AllThere(f.blk, recs, |found|)
  {
    hide Off, CrashImage, InBounds;
    ghost var good := TrueIndex(f.idx, recs, n);
    found := f.idx[..n];
    pos := if n > 0 then f.idx[n - 1].off + HEADER_SIZE + f.idx[n - 1].size else 0;
    if good { ScanStarts(f, recs, synced, n); }
    while pos + HEADER_SIZE <= f.blkSize && pos in f.blk
      invariant f.idx[..n] <= found
      invariant good ==> Scanned(f, recs, found, pos)
      decreases f.blkSize - pos
    {
      if good { FoundNext(f, recs, synced, found, pos); }
      var r := f.blk[pos];
      var k := |found|;
      if pos + HEADER_SIZE + r.size > f.blkSize || (k > 0 && TEnd(r) < found[k - 1].tStart + found[k - 1].tLen) {
        break;
      }
      found := found + [IndexRec(r.tStart, r.tLen, pos, r.size, r.kind)];
      pos := pos + HEADER_SIZE + r.size;
    }
    if good { FoundNext(f, recs, synced, found, pos); }
  }

  /** The first records were found, and the next one starts at pos. */
  ghost predicate Scanned(f: Files, recs: seq<Rec>, found: seq<IndexRec>, pos: nat) {
    && TrueIndex(found, recs, |found|) && pos == Off(recs, |found|) <= f.blkSize && AllThere(f.blk, recs, |found|)
  }

  lemma ScanStarts(f: Files, recs: seq<Rec>, synced: nat, n: nat)
    requires CrashImage(f, recs, synced) && n <= |f.idx| && TrueIndex(f.idx, recs, n)
    ensures Scanned(f, recs, f.idx[..n],
              if n > 0 then f.idx[n - 1].off + HEADER_SIZE + f.idx[n - 1].size else 0)
  {
    hide Off;
    OffBasics(recs, n);
    OffGrows(recs, n, synced);
  }

  lemma OffBasics(recs: seq<Rec>, n: nat)
    requires n <= |recs|
    ensures Off(recs, 0) == 0 && (n > 0 ==>
              Off(recs, n)
              == IndexOf(recs, n - 1).off + HEADER_SIZE + IndexOf(recs, n - 1).size)
  {
  }

  /** The entries in memory, with their counts of deltas. */
  method CountDeltas(found: seq<IndexRec>, ghost recs: seq<Rec>) returns (entries: seq<Entry>)
    ensures |entries| == |found| && forall i :: 0 <= i < |found| ==> OnDisk(entries[i]) == found[i]
    ensures TrueIndex(found, recs, |found|) ==> IsEntries(entries, recs[..|found|])
  {
    hide Off;
    entries := [];
    var deltas := 0;
    var i := 0;
    ghost var good := TrueIndex(found, recs, |found|);
    NoDeltas(recs);
    while i < |found|
      invariant 0 <= i <= |found| && |entries| == i && forall k :: 0 <= k < i ==> OnDisk(entries[k]) == found[k]
      invariant good ==> deltas == Deltas(recs, i) && forall k :: 0 <= k < i ==>
                  entries[k] == EntryOf(recs[..|found|], k)
    {
      var e := found[i];
      if good {
        EntriesPrefix(recs, |found|, i);
        DeltaStep(recs, i);
      }
      if e.kind == DeltaRec {
        deltas := deltas + 1;
      }
      entries := entries + [Entry(e.tStart, e.tLen, e.off, e.size, e.kind, deltas)];
      i := i + 1;
    }
  }

  /** A memory entry as the index file has it. */
  function OnDisk(e: Entry): IndexRec { IndexRec(e.tStart, e.tLen, e.off, e.size, e.kind) }

  lemma NoDeltas(recs: seq<Rec>)
    ensures Deltas(recs, 0) == 0
  {
  }

  lemma DeltaStep(recs: seq<Rec>, i: nat)
    requires i < |recs|
    ensures Deltas(recs, i + 1) == Deltas(recs, i) + if recs[i].kind == DeltaRec then 1 else 0
  {
  }

  /** Repairs the files and loads the entries: the trusted index, then every record after it that checks out;
      what follows is cut off, and index entries that were missing are written again. Whatever the index file holds, the
      entries are those of the first records, the synced ones among them, if every trusted entry is true, and of no
      prefix of the records if one is not. */
  method Recover(f: Files, ghost recs: seq<Rec>, ghost synced: nat) returns (f': Files, m: Memory)
    requires CrashImage(f, recs, synced)
    ensures TrueIndex(f.idx, recs, Trusted(f)) ==>
              synced <= |m.entries| <= |recs| && Ok(f', m, recs[..|m.entries|], |m.entries|)
              && m.written == |m.entries|
    ensures !TrueIndex(f.idx, recs, Trusted(f)) ==> forall k: nat :: k <= |recs| ==> !IsEntries(m.entries, recs[..k])
    ensures Trusted(f) <= |m.entries| && forall i :: 0 <= i < Trusted(f) ==> OnDisk(m.entries[i]) == f.idx[i]
  {
    hide Off, TrueIndex, AllThere, IsEntries, InBounds, CrashImage;
    var n := TrustedIndex(f);
    var found, pos := ScanRecords(f, n, recs, synced);
    var entries := CountDeltas(found, recs);
    f' := Files(CutAt(f.blk, pos), pos, found);
    m := Memory(entries, pos, |found|, false);
    assert forall i :: 0 <= i < n ==> found[i] == f.idx[..n][i];
    if TrueIndex(f.idx, recs, n) {
      Recovered(f, recs, synced, found, entries, pos);
    } else {
      Untrue(f, recs, synced, n, found, entries);
    }
  }

  /** An entry that is not true is in memory then. */
  lemma Untrue(f: Files, recs: seq<Rec>, synced: nat, n: nat, found: seq<IndexRec>, entries: seq<Entry>)
    requires CrashImage(f, recs, synced) && n <= |f.idx| && f.idx[..n] <= found && !TrueIndex(f.idx, recs, n)
    requires |entries| == |found| && forall i :: 0 <= i < |found| ==> OnDisk(entries[i]) == found[i]
    ensures forall k: nat :: k <= |recs| ==> !IsEntries(entries, recs[..k])
  {
    hide Off, InBounds, AllThere, InOrder;
    var i: nat :| i < n && f.idx[i] != IndexOf(recs, i);
    assert found[i] == f.idx[..n][i] == f.idx[i];
    forall k: nat | k <= |recs| && i < k
      ensures OnDisk(EntryOf(recs[..k], i)) == IndexOf(recs, i)
    {
      EntriesPrefix(recs, k, i);
    }
  }

  /** The record file cut at pos. */
  function CutAt(blk: map<nat, Rec>,
                 pos: nat): map<nat, Rec> { map o | o in blk && o + HEADER_SIZE + blk[o].size <= pos :: blk[o] }

  lemma Recovered(f: Files, recs: seq<Rec>, synced: nat, found: seq<IndexRec>, entries: seq<Entry>, pos: nat)
    requires CrashImage(f, recs, synced) && |found| <= |recs| && TrueIndex(found, recs, |found|)
    requires pos == Off(recs, |found|) <= f.blkSize && AllThere(f.blk, recs, |found|)
             && IsEntries(entries, recs[..|found|])
    ensures Ok(Files(CutAt(f.blk, pos), pos, found), Memory(entries, pos, |found|, false), recs[..|found|], |found|)
  {
    hide Off, IsEntries, CrashImage;
    var k, recs' := |found|, recs[..|found|];
    assert recs'[..k] == recs[..k];
    PrefixSame(recs', recs, k);
    PrefixInOrder(f, recs, synced, k);
    RecoveredIndex(found, recs);
    RecoveredBlk(f.blk, recs, k, pos);
  }

  lemma PrefixInOrder(f: Files, recs: seq<Rec>, synced: nat, k: nat)
    requires CrashImage(f, recs, synced) && k <= |recs|
    ensures InOrder(recs[..k])
  {
    hide AllThere, InBounds, TornAt, Off;
  }

  lemma RecoveredIndex(found: seq<IndexRec>, recs: seq<Rec>)
    requires TrueIndex(found, recs, |found|)
    ensures TrueIndex(found, recs[..|found|], |found|)
  {
    hide Off;
    forall i | 0 <= i < |found| ensures IndexOf(recs[..|found|], i) == IndexOf(recs, i) {
      EntriesPrefix(recs, |found|, i);
    }
  }

  lemma RecoveredBlk(blk: map<nat, Rec>, recs: seq<Rec>, k: nat, pos: nat)
    requires k <= |recs| && AllThere(blk, recs, k) && pos == Off(recs, k)
    ensures AllThere(CutAt(blk, pos), recs[..k], k) && InBounds(CutAt(blk, pos), pos)
  {
    hide Off;
    forall i | 0 <= i < k
      ensures Off(recs[..k], i) == Off(recs, i) && Off(recs, i) + HEADER_SIZE + recs[i].size <= pos
    {
      assert recs[..k][..i] == recs[..i];
      PrefixSame(recs[..k], recs, i);
      OffGrows(recs, i, k);
    }
  }

  /** A series file: what it holds after every append, sync, crash and recovery. */
  class SeriesFile {
    var blk: map<nat, Rec>
    var blkSize: nat
    var idx: seq<IndexRec>

    var entries: seq<Entry>
    var size: nat
    var written: nat
    var dirty: bool

    /** The records appended, and how many of them are synced. */
    ghost var recs: seq<Rec>
    ghost var synced: nat

    function F(): Files
      reads this
    {
      Files(blk, blkSize, idx)
    }

    function M(): Memory
      reads this
    {
      Memory(entries, size, written, dirty)
    }

    ghost predicate Valid()
      reads this
    {
      Ok(F(), M(), recs, synced)
    }

    constructor ()
      ensures Valid() && recs == [] && synced == 0
    {
      blk, blkSize, idx, entries, size, written, dirty := map[], 0, [], [], 0, 0, false;
      recs, synced := [], 0;
    }

    /** Appends a record whose effective time is not before the last one's; a failed write is cut off again. */
    method Append(r: Rec, fails: bool) returns (seqNo: Option<nat>)
      requires Valid()
      modifies this`blk, this`blkSize, this`entries, this`size, this`dirty, this`recs
      ensures Valid()
      ensures seqNo.Some? <==>
              ValidKind(r.kind) && !fails
              && (old(recs) != [] ==> TEnd(old(recs)[|old(recs)| - 1]) <= TEnd(r))
      ensures if seqNo.Some? then recs == old(recs) + [r] && seqNo.value == |old(recs)| else recs == old(recs)
    {
      hide Off, TrueIndex, AllThere, InBounds, InOrder;
      var n := |entries|;
      if !ValidKind(r.kind) || (n > 0 && TEnd(r) < entries[n - 1].tStart + entries[n - 1].tLen) || fails {
        return None;
      }
      NoDeltas(recs);
      Appended(F(), M(), recs, synced, r);
      var before := if n > 0 then entries[n - 1].deltas else 0;
      blk := blk[size := r];
      entries := entries + [Entry(r.tStart, r.tLen, size, r.size, r.kind, before + if r.kind == DeltaRec then 1
          else 0)];
      size := size + HEADER_SIZE + r.size;
      blkSize, dirty := size, true;
      recs := recs + [r];
      seqNo := Some(n);
    }

    /** Makes every appended record durable, then writes the index entries not in the index file yet. The records are
        durable also when only writing the index fails. */
    method Sync(fails: bool, indexFails: bool) returns (ok: bool)
      requires Valid()
      modifies this`dirty, this`synced, this`idx, this`written
      ensures Valid() && (if ok then written == |recs| else idx == old(idx))
      ensures synced == if old(dirty) && fails then old(synced) else |recs|
      ensures ok <==> !(old(dirty) && fails) && !(old(written) < |recs| && indexFails)
    {
      hide Off, AllThere, InBounds, InOrder;
      if dirty && fails {
        return false;
      }
      dirty, synced := false, |recs|;
      if written < |entries| && indexFails {
        return false;
      }
      var idx' := IndexEntries(idx, entries, written, recs);
      idx, written := idx', |entries|;
      ok := true;
    }

    /** A crash leaves some image of the files; memory is gone, and recovery loads what is left: if every index entry
        it trusts is true, as when the index tore from its end, a prefix of the records with every synced one, and
        otherwise entries of no prefix. */
    method CrashAndRecover(left: Files)
      requires Valid() && CrashImage(left, recs, synced)
      modifies this
      ensures TrueIndex(left.idx, old(recs), Trusted(left)) ==>
                Valid() && old(synced) <= |recs| == synced && recs <= old(recs)
      ensures !TrueIndex(left.idx, old(recs), Trusted(left)) ==>
                recs == old(recs) && forall k: nat :: k <= |recs| ==> !IsEntries(entries, recs[..k])
      ensures Trusted(left) <= |entries| && forall i :: 0 <= i < Trusted(left) ==> OnDisk(entries[i]) == left.idx[i]
      ensures (exists j :: TornAt(left.idx, old(recs), j)) ==> TrueIndex(left.idx, old(recs), Trusted(left))
    {
      hide Ok, CrashImage, TornAt, TrueIndex, IsEntries, Trusted;
      forall j | TornAt(left.idx, recs, j) ensures TrueIndex(left.idx, recs, Trusted(left)) {
        TornIsTrue(left, recs, synced, j);
      }
      var f, m := Recover(left, recs, synced);
      blk, blkSize, idx := f.blk, f.blkSize, f.idx;
      entries, size, written, dirty := m.entries, m.size, m.written, m.dirty;
      if TrueIndex(left.idx, recs, Trusted(left)) {
        recs, synced := recs[..|m.entries|], |m.entries|;
      }
    }

    /** Opening the files again after everything was synced loads the same records and changes no file. */
    method Reopen()
      requires Valid() && synced == |recs| == written
      modifies this
      ensures Valid() && recs == old(recs) && synced == old(synced) && entries == old(entries) && idx == old(idx)
              && blkSize == old(blkSize)
    {
      hide CrashImage, Ok;
      OkIsImage(F(), M(), recs);
      TrueUpTo(F().idx, recs, Trusted(F()));
      var f, m := Recover(F(), recs, synced);
      assert recs[..|recs|] == recs;
      SameFiles(F(), M(), f, m, recs);
      blk, blkSize, idx := f.blk, f.blkSize, f.idx;
      entries, size, written, dirty := m.entries, m.size, m.written, m.dirty;
    }
  }

  lemma TrueUpTo(idx: seq<IndexRec>, recs: seq<Rec>, n: nat)
    requires TrueIndex(idx, recs, |idx|) && n <= |idx|
    ensures TrueIndex(idx, recs, n)
  {
  }

  lemma SameFiles(f: Files, m: Memory, f': Files, m': Memory, recs: seq<Rec>)
    requires Ok(f, m, recs, |recs|) && Ok(f', m', recs, |recs|) && m.written == |recs| == m'.written
    ensures m.entries == m'.entries && f.idx == f'.idx && f.blkSize == f'.blkSize
  {
    hide Off, AllThere, InBounds, InOrder;
  }

  /** The index file with the entries from `from` on added. */
  method IndexEntries(idx: seq<IndexRec>, entries: seq<Entry>, from: nat,
                      ghost recs: seq<Rec>) returns (idx': seq<IndexRec>)
    requires IsEntries(entries, recs) && from == |idx| <= |recs| && TrueIndex(idx, recs, from)
    ensures |idx'| == |recs| && TrueIndex(idx', recs, |recs|)
  {
    hide Off;
    idx' := idx;
    var i := from;
    while i < |entries|
      invariant from <= i == |idx'| <= |entries| && TrueIndex(idx', recs, i)
    {
      var e := entries[i];
      idx' := idx' + [IndexRec(e.tStart, e.tLen, e.off, e.size, e.kind)];
      i := i + 1;
    }
  }

  /** Three records are synced, and a crash tears the second index entry, whose place sectors share, but neither the
      first nor the third: its start reads as 0. The last entry checks out, so the torn one is trusted: the second
      record starts at 0 in memory, and the store is not in order. */
  method TornAmongTrue() returns (s: SeriesFile)
    ensures fresh(s) && |s.recs| == 3 <= |s.entries| && s.recs[1].tStart == 5 && s.entries[1].tStart == 0 && !s.Valid()
  {
    hide CrashImage, Trusted, Ok, IsEntries, TrueIndex;
    s := ThreeSynced(Rec(0, 10, 1, KeyframeRec, 0), Rec(5, 20, 1, KeyframeRec, 1), Rec(30, 5, 1, KeyframeRec, 2));
    var torn := s.idx[1].(tStart := 0);
    var left := Files(s.blk, s.blkSize, s.idx[1 := torn]);
    TornTrusted(s.F(), s.M(), left, s.recs, torn);
    s.CrashAndRecover(left);
    OtherStart(s.F(), s.M(), s.recs, s.synced);
  }

  method ThreeSynced(a: Rec, b: Rec, c: Rec) returns (s: SeriesFile)
    requires ValidKind(a.kind) && ValidKind(b.kind) && ValidKind(c.kind) && TEnd(a) <= TEnd(b) <= TEnd(c)
    ensures fresh(s) && s.Valid() && s.recs == [a, b, c] && |s.idx| == 3 == s.synced
  {
    hide TrueIndex, AllThere, InBounds, IsEntries;
    s := new SeriesFile();
    var i := s.Append(a, false);
    i := s.Append(b, false);
    i := s.Append(c, false);
    var ok := s.Sync(false, false);
  }

  lemma OtherStart(f: Files, m: Memory, recs: seq<Rec>, synced: nat)
    requires |recs| > 1 && |m.entries| > 1 && m.entries[1].tStart != recs[1].tStart
    ensures !Ok(f, m, recs, synced)
  {
    hide Off, Deltas, AllThere, InBounds, TrueIndex;
  }

  lemma TornTrusted(f: Files, m: Memory, left: Files, recs: seq<Rec>, torn: IndexRec)
    requires Ok(f, m, recs, 3) && |recs| == 3 == |f.idx| && torn == f.idx[1].(tStart := 0)
    requires left == Files(f.blk, f.blkSize, f.idx[1 := torn])
    requires TEnd(recs[0]) == 10 && recs[1].tStart == 5 && recs[1].tLen == 20 && TEnd(recs[2]) == 35
    ensures CrashImage(left, recs, 3) && Trusted(left) == 3 && left.idx[1].tStart == 0
    ensures !TrueIndex(left.idx, recs, Trusted(left))
  {
    Places(recs);
    assert Passes(left.idx, 0) && Passes(left.idx, 1) && Passes(left.idx, 2);
    assert FirstBad(left.idx, 0) == FirstBad(left.idx, 1) == FirstBad(left.idx, 2) == FirstBad(left.idx, 3) == 3;
    assert CheckRecord(left, left.idx[2]);
    assert left.idx[1] != IndexOf(recs, 1);
  }

  lemma Places(recs: seq<Rec>)
    requires |recs| == 3
    ensures Off(recs, 0) == 0 && Off(recs, 1) == Off(recs, 0) + HEADER_SIZE + recs[0].size
    ensures Off(recs, 2) == Off(recs, 1) + HEADER_SIZE + recs[1].size
            && Off(recs, 3) == Off(recs, 2) + HEADER_SIZE + recs[2].size
  {
  }
}
