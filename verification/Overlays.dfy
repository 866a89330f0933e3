/** The overlay store of one datastore: the log on disk, and what is kept of it in memory. */
module Overlays {
  import opened Common
  import opened OverlayLog
  import opened OverlayRules
  import opened OverlayTiles

  /** What lies at a place of the log file: a whole frame, or bytes that are none. */
  datatype Frame = Whole(rec: Rec) | Bad(len: nat)

  function Frames(log: Log): seq<Frame> { seq(|log|, i requires 0 <= i < |log| => Whole(log[i])) }

  datatype OpenRef = OpenRef(tile: Tile, ord: nat, start: TimeMs, content: Content)

  predicate RefOk(ref: OpenRef, ord: nat, iv: Interval) {
    ref == OpenRef(ContentTile(iv.content), ord, iv.start, iv.content)
  }

  /** The open map and the ordinal count are the log's. */
  ghost predicate OpenOk(open: map<Key, OpenRef>, opens: nat, log: Log)
    requires Good(log)
  {
    CurrentOk(log);
    opens == |Intervals(log)| && open.Keys == Current(log).Keys && forall k <- open ::
        RefOk(open[k], Current(log)[k], Intervals(log)[Current(log)[k]])
  }

  function Get(tiles: map<Tile, seq<Loc>>, tile: Tile): seq<Loc> { if tile in tiles then tiles[tile] else [] }

  function Add(tiles: map<Tile, seq<Loc>>, tile: Tile,
               l: Loc): map<Tile, seq<Loc>> { tiles[tile := Get(tiles, tile) + [l]] }

  /** The tile index is the log's. */
  ghost predicate TilesOk(tiles: map<Tile, seq<Loc>>, log: Log)
    requires Good(log)
  {
    forall tile: Tile :: Get(tiles, tile) == Locs(log, tile)
  }

  /** The records of `more` index as the pending tiles say, behind the log. */
  ghost predicate PendingOk(tiles: map<Tile, seq<Loc>>, log: Log, more: Log)
    requires Good(log) && Good(log + more)
  {
    forall tile: Tile :: Locs(log + more, tile) == Locs(log, tile) + Get(tiles, tile)
  }

  // --- replay ---

  /** The file's whole frames that make a good log. */
  ghost predicate Replays(image: seq<Frame>, log: Log) {
    && Good(log) && |log| <= |image| && image[..|log|] == Frames(log)
    && (|log| < |image| && image[|log|].Whole? ==> !Follows(log, image[|log|].rec))
  }

  lemma OpenStep(open: map<Key, OpenRef>, opens: nat, log: Log, r: Rec)
    requires Good(log) && OpenOk(open, opens, log) && Follows(log, r)
    ensures Good(log + [r])
    ensures r.Open? ==> OpenOk(open[r.content.key := OpenRef(ContentTile(r.content), r.ord, r.start, r.content)],
              opens + 1, log + [r])
    ensures r.End? ==> OpenOk(open - {Intervals(log)[r.ord].content.key}, opens, log + [r])
  {
    hide ContentTile, TilesOk;
    Extend(log, r);
    CurrentOk(log);
  }

  lemma TilesStep(tiles: map<Tile, seq<Loc>>, log: Log, r: Rec)
    requires Good(log) && TilesOk(tiles, log) && Follows(log, r)
    ensures Good(log + [r]) && TilesOk(Add(tiles, RecTile(log, r), Loc(Size(log), Len(r))), log + [r])
  {
    hide Good, Locs, Follows, Len, Off, RecTile;
    LocsExtend(log, r, RecTile(log, r));
    forall tile: Tile ensures Get(Add(tiles, RecTile(log, r), Loc(Size(log), Len(r))), tile) == Locs(log + [r], tile) {
      LocsExtend(log, r, tile);
    }
  }

  lemma PendingStep(tiles: map<Tile, seq<Loc>>, log: Log, more: Log, r: Rec)
    requires Good(log) && Good(log + more) && PendingOk(tiles, log, more) && Follows(log + more, r)
    ensures Good(log + (more + [r])) && PendingOk(Add(tiles, RecTile(log + more, r), Loc(Size(log + more), Len(r))),
              log, more + [r])
  {
    hide Good, Locs, Follows, Len, Off;
    assert log + (more + [r]) == (log + more) + [r];
    LocsExtend(log + more, r, RecTile(log + more, r));
    forall tile: Tile ensures Locs((log + more) + [r], tile)
        == Locs(log, tile) + Get(Add(tiles, RecTile(log + more, r), Loc(Size(log + more), Len(r))), tile) {
      LocsExtend(log + more, r, tile);
    }
  }

  lemma SizeStep(log: Log, r: Rec)
    ensures Size(log + [r]) == Size(log) + Len(r)
  {
    OffPrefix(log, [r], |log|);
  }

  /** What replay keeps by ordinal: the tile and the key of each open record. */
  ghost predicate OrdsOk(ordTile: seq<Tile>, ordKey: seq<Key>, log: Log) {
    && |ordTile| == |ordKey| == |Intervals(log)|
    && forall i: nat :: i < |ordTile| ==>
        ordTile[i] == ContentTile(Intervals(log)[i].content)
        && ordKey[i] == Intervals(log)[i].content.key
  }

  lemma OrdsStep(ordTile: seq<Tile>, ordKey: seq<Key>, log: Log, r: Rec)
    requires OrdsOk(ordTile, ordKey, log) && Good(log) && Follows(log, r)
    ensures if r.Open? then OrdsOk(ordTile + [ContentTile(r.content)], ordKey + [r.content.key], log + [r])
              else OrdsOk(ordTile, ordKey, log + [r])
    ensures r.End? ==>
            r.ord < |ordTile| && ordTile[r.ord] == RecTile(log, r)
            && ordKey[r.ord] == Intervals(log)[r.ord].content.key
  {
    Extend(log, r);
  }

  /** Whether the record follows the log, told from what is kept. */
  predicate Accepts(open: map<Key, OpenRef>, ordKey: seq<Key>, r: Rec) {
    match r
    case End(ord, t) => ord < |ordKey| && ordKey[ord] in open && open[ordKey[ord]].ord == ord
    case Open(ord, start, c) => ord == |ordKey| && ValidTile(ContentTile(c)) && c.key !in open
  }

  lemma AcceptsIs(open: map<Key, OpenRef>, opens: nat, ordTile: seq<Tile>, ordKey: seq<Key>, log: Log, r: Rec)
    requires Good(log) && OpenOk(open, opens, log) && OrdsOk(ordTile, ordKey, log)
    ensures Accepts(open, ordKey, r) <==> Follows(log, r)
  {
    CurrentOk(log);
  }

  /** Replays the file up to the first frame that is not whole or does not follow. */
  method Replay(image: seq<Frame>) returns (log: Log, size: nat, open: map<Key, OpenRef>, opens: nat, tiles: map<Tile,
                seq<Loc>>)
    ensures Replays(image, log) && size == Size(log) && OpenOk(open, opens, log) && TilesOk(tiles, log)
  {
    hide OpenOk, OrdsOk, TilesOk, Good, Follows, Accepts, Off, Len;
    log, size, open, opens, tiles := [], 0, map[], 0, map[];
    var ordTile: seq<Tile>, ordKey: seq<Key> := [], [];
    ReplayNone();
    while |log| < |image|
      invariant Good(log) && |log| <= |image| && image[..|log|] == Frames(log)
      invariant size == Size(log) && OpenOk(open, opens, log) && TilesOk(tiles, log) && OrdsOk(ordTile, ordKey, log)
      decreases |image| - |log|
    {
      if image[|log|].Bad? {
        return;
      }
      var r := image[|log|].rec;
      AcceptsIs(open, opens, ordTile, ordKey, log, r);
      if !Accepts(open, ordKey, r) {
        return;
      }
      OpenStep(open, opens, log, r);
      OrdsStep(ordTile, ordKey, log, r);
      TilesStep(tiles, log, r);
      SizeStep(log, r);
      var tile;
      match r {
        case End(ord, t) =>
          tile := ordTile[ord];
          open := open - {ordKey[ord]};
        case Open(ord, start, c) =>
          tile := ContentTile(c);
          ordTile, ordKey := ordTile + [tile], ordKey + [c.key];
          open := open[c.key := OpenRef(tile, ord, start, c)];
          opens := opens + 1;
      }
      tiles := Add(tiles, tile, Loc(size, Len(r)));
      size := size + Len(r);
      assert image[..|log| + 1] == image[..|log|] + [Whole(r)];
      log := log + [r];
    }
  }

  lemma ReplayNone()
    ensures Good([]) && Size([]) == 0 && OpenOk(map[], 0, []) && TilesOk(map[], []) && OrdsOk([], [], [])
  {}

  // --- events ---

  datatype Counts = Counts(accepted: nat, late: nat, invalid: nat)

  /** How the events are answered when they follow the ones before. */
  function Answers(before: seq<Event>, es: seq<Event>): Counts {
    if es == [] then Counts(0, 0, 0) else
      var n := |es| - 1;
      var c := Answers(before, es[..n]);
      if !ValidEvent(es[n]) then c.(invalid := c.invalid + 1)
      else if Late(Written(before + es[..n]), es[n]) then c.(late := c.late + 1)
      else c.(accepted := c.accepted + 1)
  }

  /** An event alone: it is invalid if it is not proper, late if it is older than its key's open interval, and else
      accepted. */
  lemma AnswerIs(before: seq<Event>, e: Event)
    ensures var log, c := Written(before), Answers(before, [e]);
            && (c.invalid == 1 <==> !Proper(e)) && c.accepted + c.late + c.invalid == 1
            && (c.late == 1 <==> Proper(e) && OlderThanOpen(log, e))
  {
    hide Good, Intervals, Ends, ValidEvent, Proper, Late, OlderThanOpen;
    ValidIsProper(e);
    LateIs(Written(before), e);
    var log := Written(before);
    assert [e][..0] == [] && before + [e][..0] == before && Answers(before, [e][..0]) == Counts(0, 0, 0);
    assert Answers(before, [e])
        == if !ValidEvent(e) then Counts(0, 0, 1) else if Late(log, e) then Counts(0, 1, 0) else Counts(1, 0, 0);
  }

  /** Its key has an interval that was not ended and starts after the event. */
  ghost predicate OlderThanOpen(log: Log, e: Event)
    requires Good(log)
  {
    exists i: nat :: Of(log, i, e.content.key) && OpenFrom(log, i) && e.t < Intervals(log)[i].start
  }

  lemma LateIs(log: Log, e: Event)
    requires Good(log)
    ensures Late(log, e) <==> OlderThanOpen(log, e)
  {
    hide Good, Intervals, Ends;
    EndsOk(log);
    CurrentOk(log);
    if e.content.key in Current(log) { assert Of(log, Current(log)[e.content.key], e.content.key); }
  }

  /** The interval was not ended. */
  predicate OpenFrom(log: Log, i: nat)
    requires i < |Intervals(log)| && Good(log)
  {
    EndsOk(log);
    Ends(log)[i].None?
  }

  /** Of many, each is answered in its turn. */
  lemma AnswersTurn(before: seq<Event>, es: seq<Event>, e: Event)
    ensures var a, b, c := Answers(before, es), Answers(before + es, [e]), Answers(before, es + [e]);
            c == Counts(a.accepted + b.accepted, a.late + b.late, a.invalid + b.invalid)
  {
    hide Written, ValidEvent, Late;
    assert (es + [e])[..|es|] == es && [e][..0] == [] && before + es + [] == before + es;
    assert Answers(before + es, []) == Counts(0, 0, 0);
  }

  /** What a call queues for the log, and the open map it leaves. */
  datatype Pending = Pending(buf: seq<Rec>, bytes: nat, tiles: map<Tile, seq<Loc>>, open: map<Key, OpenRef>, opens: nat)

  ghost predicate PendOk(p: Pending, log: Log) {
    && Good(log) && Good(log + p.buf) && OpenOk(p.open, p.opens, log + p.buf) && PendingOk(p.tiles, log, p.buf)
    && Size(log + p.buf) == Size(log) + p.bytes
  }

  /** A record that follows is queued. */
  lemma PendStep(p: Pending, log: Log, r: Rec, p': Pending)
    requires PendOk(p, log) && Follows(log + p.buf, r)
    requires p'.buf == p.buf + [r] && p'.bytes == p.bytes + Len(r)
             && p'.tiles == Add(p.tiles, RecTile(log + p.buf, r), Loc(Size(log) + p.bytes, Len(r)))
    requires r.Open? ==>
             p'.open == p.open[r.content.key := OpenRef(ContentTile(r.content), r.ord, r.start, r.content)]
             && p'.opens == p.opens + 1
    requires r.End? ==> p'.open == p.open - {Intervals(log + p.buf)[r.ord].content.key} && p'.opens == p.opens
    ensures PendOk(p', log)
  {
    hide Good, Follows, OpenOk, PendingOk, Off, Len, Add;
    assert log + p'.buf == log + p.buf + [r];
    OpenStep(p.open, p.opens, log + p.buf, r);
    PendingStep(p.tiles, log, p.buf, r);
    SizeStep(log + p.buf, r);
  }

  /** The open map answers as the log does. */
  lemma OpenAnswers(p: Pending, log: Log, e: Event)
    requires PendOk(p, log) && ValidEvent(e)
    ensures var k := e.content.key; var cur := k in p.open;
            && Late(log + p.buf, e) == (cur && e.t < p.open[k].start)
            && Same(log + p.buf, e) == (!e.close && cur && p.open[k].content == e.content)
            && (!Late(log + p.buf, e) && !Same(log + p.buf, e) ==>
                  Recs(log + p.buf, e) == (if cur then [End(p.open[k].ord, e.t)] else []) + if e.close then []
                      else [Open(p.opens, e.t, e.content)])
  {
    CurrentOk(log + p.buf);
  }

  /** One event. */
  method Event1(p: Pending, size: nat, e: Event, ghost log: Log) returns (p': Pending, c: Counts)
    requires PendOk(p, log) && size == Size(log)
    ensures PendOk(p', log) && p'.buf == p.buf + Recs(log + p.buf, e)
    ensures c == if !ValidEvent(e) then Counts(0, 0, 1) else if Late(log + p.buf, e) then Counts(0, 1, 0)
              else Counts(1, 0, 0)
  {
    hide PendOk, Late, Same, ValidEvent;
    p' := p;
    assert p.buf + [] == p.buf;
    assert Good(log + p.buf) by { PendGood(p, log); }
    if !ValidEvent(e) {
      return p, Counts(0, 0, 1);
    }
    OpenAnswers(p, log, e);
    var k := e.content.key;
    if k in p.open && e.t < p.open[k].start {
      return p, Counts(0, 1, 0);
    }
    c := Counts(1, 0, 0);
    if !e.close && k in p.open && p.open[k].content == e.content {
      return;
    }
    if k in p.open {
      p' := EndOpen(p, size, k, e.t, log);
    }
    if !e.close {
      p' := OpenNew(p', size, e, log);
    }
    assert p'.buf == p.buf + Recs(log + p.buf, e);
  }

  lemma PendGood(p: Pending, log: Log)
    requires PendOk(p, log)
    ensures Good(log) && Good(log + p.buf)
  {}

  /** The open interval ends. */
  method EndOpen(p: Pending, size: nat, k: Key, t: TimeMs, ghost log: Log) returns (p': Pending)
    requires PendOk(p, log) && size == Size(log) && k in p.open
    ensures PendOk(p', log) && p'.buf == p.buf + [End(p.open[k].ord, t)] && p'.opens == p.opens
            && p'.open == p.open - {k}
  {
    hide Good, PendingOk, Off, Len, Add, ContentTile;
    CurrentOk(log + p.buf);
    var r := End(p.open[k].ord, t);
    p' := p.(buf := p.buf + [r], bytes := p.bytes + Len(r),
        tiles := Add(p.tiles, p.open[k].tile, Loc(size + p.bytes, Len(r))), open := p.open - {k});
    PendStep(p, log, r, p');
  }

  /** A new interval opens. */
  method OpenNew(p: Pending, size: nat, e: Event, ghost log: Log) returns (p': Pending)
    requires PendOk(p, log) && size == Size(log) && ValidEvent(e) && !e.close && e.content.key !in p.open
    ensures PendOk(p', log) && p'.buf == p.buf + [Open(p.opens, e.t, e.content)]
  {
    hide Good, PendingOk, Off, Len, Add;
    var tile := ContentTile(e.content);
    var r := Open(p.opens, e.t, e.content);
    p' := Pending(p.buf + [r], p.bytes + Len(r), Add(p.tiles, tile, Loc(size + p.bytes, Len(r))),
        p.open[e.content.key := OpenRef(tile, p.opens, e.t, e.content)], p.opens + 1);
    PendStep(p, log, r, p');
  }

  // --- the store ---

  const MAX_LOG := 0x100_0000_0000

  datatype CacheEntry = CacheEntry(version: nat, ivs: seq<Interval>)

  ghost predicate EntryOk(ce: CacheEntry, log: Log, tile: Tile)
    requires Good(log)
  {
    ce.version <= |Locs(log, tile)| && (ce.version == |Locs(log, tile)| ==> ce.ivs == InTile(Intervals(log), tile))
  }

  /** After a write broke off the file has the log, some of the records meant for it, and perhaps part of a frame. */
  ghost predicate DiskOk(disk: seq<Frame>, log: Log, events: seq<Event>) {
    exists n: nat :: n <= |Written(events)| && |log| <= n && TornAt(disk, Written(events), n)
  }

  ghost predicate TornAt(disk: seq<Frame>, all: Log, n: nat)
    requires n <= |all|
  {
    n <= |disk| <= n + 1 && disk[..n] == Frames(all[..n]) && (n < |disk| ==> disk[n].Bad?)
  }

  function Merge(a: map<Tile, seq<Loc>>, b: map<Tile, seq<Loc>>): map<Tile, seq<Loc>> {
    map t | t in a.Keys + b.Keys :: Get(a, t) + Get(b, t)
  }

  lemma Queued(tiles: map<Tile, seq<Loc>>, p: Pending, log: Log)
    requires PendOk(p, log) && TilesOk(tiles, log)
    ensures Good(log + p.buf) && TilesOk(Merge(tiles, p.tiles), log + p.buf) && OpenOk(p.open, p.opens, log + p.buf)
            && Size(log + p.buf) == Size(log) + p.bytes
  {
    forall tile: Tile ensures Get(Merge(tiles, p.tiles), tile) == Locs(log + p.buf, tile) {
      assert Locs(log + p.buf, tile) == Locs(log, tile) + Get(p.tiles, tile);
    }
  }

  lemma EntryMore(ce: CacheEntry, log: Log, more: Log, tile: Tile)
    requires Good(log) && Good(log + more) && EntryOk(ce, log, tile)
    ensures EntryOk(ce, log + more, tile)
  {
    VersionTells(log, more, tile);
  }

  lemma WroteDisk(events: seq<Event>)
    ensures DiskOk(Frames(Written(events)), Written(events), events)
  {
    var all := Written(events);
    assert all[..|all|] == all;
    assert TornAt(Frames(all), all, |all|);
  }

  lemma WrotePart(disk: seq<Frame>, log: Log, buf: Log, w: nat, events: seq<Event>)
    requires log + buf == Written(events) && w <= |buf|
    requires disk == Frames(log) + Frames(buf[..w]) || disk == Frames(log) + Frames(buf[..w]) + [Bad(1)]
    ensures DiskOk(disk, log, events)
  {
    var all := Written(events);
    assert all[..|log| + w] == log + buf[..w];
    FramesMore(log, buf[..w]);
    assert TornAt(disk, all, |log| + w);
  }

  lemma FramesMore(a: Log, b: Log)
    ensures Frames(a + b) == Frames(a) + Frames(b)
  {}

  lemma WrittenAll(es: seq<Event>, more: seq<Event>, n: nat)
    requires n < |more|
    ensures Written(es + more[..n + 1]) == Written(es + more[..n]) + Recs(Written(es + more[..n]), more[n])
  {
    assert es + more[..n + 1] == (es + more[..n]) + [more[n]];
    WrittenMore(es + more[..n], more[n]);
  }

  lemma NothingPending(p: Pending, log: Log)
    requires Good(log) && p.buf == [] && p.bytes == 0 && p.tiles == map[] && OpenOk(p.open, p.opens, log)
    ensures PendOk(p, log)
  {
    assert log + p.buf == log;
  }

  lemma NoAnswers(before: seq<Event>, es: seq<Event>)
    ensures Answers(before, es[..0]) == Counts(0, 0, 0)
  {}

  lemma AnswersMore(before: seq<Event>, es: seq<Event>, n: nat)
    requires n < |es|
    ensures Answers(before, es[..n + 1]) == (
              var c := Answers(before, es[..n]);
              if !ValidEvent(es[n]) then c.(invalid := c.invalid + 1)
              else if Late(Written(before + es[..n]), es[n]) then c.(late := c.late + 1)
              else c.(accepted := c.accepted + 1))
  {
    assert es[..n + 1][..n] == es[..n];
  }

  /** The events of a call, one after the other. */
  method QueueAll(log: Log, size: nat, open: map<Key, OpenRef>, opens: nat, es: seq<Event>,
                  ghost before: seq<Event>) returns (p: Pending, res: Counts)
    requires Good(log) && size == Size(log) && OpenOk(open, opens, log) && log == Written(before)
    ensures PendOk(p, log) && log + p.buf == Written(before + es) && res == Answers(before, es)
  {
    hide PendOk, Answers, Written, Recs, Good, OpenOk, Off, Late, ValidEvent;
    p, res := Pending([], 0, map[], open, opens), Counts(0, 0, 0);
    assert log + [] == log && before + es[..0] == before;
    NothingPending(p, log);
    assert res == Answers(before, es[..0]) by { NoAnswers(before, es); }
    var i := 0;
    while i < |es|
      invariant i <= |es| && PendOk(p, log) && log + p.buf == Written(before + es[..i])
                && res == Answers(before, es[..i])
    {
      var p', c := Event1(p, size, es[i], log);
      WrittenAll(before, es, i);
      AnswersMore(before, es, i);
      assert log + p'.buf == (log + p.buf) + Recs(log + p.buf, es[i]);
      res := Counts(res.accepted + c.accepted, res.late + c.late, res.invalid + c.invalid);
      p := p';
      i := i + 1;
    }
    assert es[..|es|] == es;
  }

  /** The content's place is in the tile's square of 512 by 512; tile (0, 0) starts at (-256, -256). */
  predicate Inside(c: Content, tile: Tile) {
    && -256.0 + 512.0 * tile.x as real <= c.x < 256.0 + 512.0 * tile.x as real
    && -256.0 + 512.0 * tile.y as real <= c.y < 256.0 + 512.0 * tile.y as real
  }

  lemma InsideIs(c: Content, tile: Tile)
    ensures ContentTile(c) == tile <==> Inside(c, tile)
  {
    FloorIs((c.x + 256.0) / 512.0, tile.x);
    FloorIs((c.y + 256.0) / 512.0, tile.y);
  }

  lemma FloorIs(x: real, n: int)
    ensures x.Floor == n <==> n as real <= x < n as real + 1.0
  {
  }

  predicate Wanted(iv: Interval, kinds: set<Kind>, t0: TimeMs, t1: TimeMs) {
    (kinds == {} || iv.content.key.kind in kinds) && Overlaps(iv, t0, t1)
  }

  function Select(ivs: seq<Interval>, kinds: set<Kind>, t0: TimeMs, t1: TimeMs): seq<Interval> {
    if ivs == [] then [] else
      Select(ivs[..|ivs| - 1], kinds, t0, t1) + if Wanted(ivs[|ivs| - 1], kinds, t0, t1) then [ivs[|ivs| - 1]] else []
  }

  method Filter(ivs: seq<Interval>, kinds: set<Kind>, t0: TimeMs, t1: TimeMs) returns (found: seq<Interval>)
    ensures found == Select(ivs, kinds, t0, t1)
  {
    found := [];
    var i := 0;
    while i < |ivs|
      invariant i <= |ivs| && found == Select(ivs[..i], kinds, t0, t1)
    {
      assert ivs[..i + 1][..i] == ivs[..i];
      if Wanted(ivs[i], kinds, t0, t1) {
        found := found + [ivs[i]];
      }
      i := i + 1;
    }
    assert ivs[..|ivs|] == ivs;
  }

  class Datastore {
    var log: Log
    var size: nat
    var open: map<Key, OpenRef>
    var opens: nat
    var tiles: map<Tile, seq<Loc>>
    var cache: map<Tile, CacheEntry>
    var failed: bool
    ghost var disk: seq<Frame>
    ghost var events: seq<Event>

    ghost predicate Valid()
      reads this
    {
      && Good(log) && size == Size(log) && TilesOk(tiles, log)
          && (forall tile <- cache :: EntryOk(cache[tile], log, tile))
      && (!failed ==> OpenOk(open, opens, log) && log == Written(events) && disk == Frames(log))
      && DiskOk(disk, log, events) && log <= Written(events)
    }

    /** A new datastore. */
    constructor ()
      ensures Valid() && !failed && events == [] && log == []
    {
      log, size, open, opens, tiles, cache, failed := [], 0, map[], 0, map[], map[], false;
      disk, events := [], [];
      new;
      assert TornAt(disk, Written(events), 0);
    }

    /** Applies events in order: one write for all their records. When it fails, after `wrote` records and perhaps
        part of one more, memory is ahead of the file and nothing is taken any more. */
    method Apply(es: seq<Event>, ok: bool, wrote: nat, torn: bool) returns (res: Counts, err: bool)
      requires Valid()
      modifies this
      ensures Valid() && old(log) <= log
      ensures old(failed) ==> err && failed && res == Counts(0, 0, 0) && events == old(events) && log == old(log)
      ensures !old(failed) ==> events == old(events) + es && res == Answers(old(events), es) && err == failed
      ensures err ==> log == old(log) && tiles == old(tiles) && size == old(size)
      ensures !old(failed) && ok && Size(Written(events)) < MAX_LOG ==> !err
    {
      if failed {
        return Counts(0, 0, 0), true;
      }
      hide Good, OpenOk, TilesOk, PendOk, EntryOk, Off, Locs, Answers, DiskOk;
      var p: Pending;
      p, res := QueueAll(log, size, open, opens, es, events);
      err := p.buf != [] && (size + p.bytes >= MAX_LOG || !ok);
      if err {
        Broken(p, es, if size + p.bytes >= MAX_LOG then 0 else wrote, torn);
      } else {
        Written1(p, es);
      }
    }

    /** All records queued are in the file: the index follows. */
    method Written1(p: Pending, ghost es: seq<Event>)
      requires Valid() && !failed && PendOk(p, log) && log + p.buf == Written(events + es)
      modifies this
      ensures Valid() && !failed && log == old(log) + p.buf && events == old(events) + es
    {
      hide Good, OpenOk, PendOk, EntryOk, Off, Locs, DiskOk;
      Queued(tiles, p, log);
      WroteDisk(events + es);
      forall tile <- cache ensures EntryOk(cache[tile], log + p.buf, tile) { EntryMore(cache[tile], log, p.buf, tile); }
      disk, log, size, tiles := Frames(log + p.buf), log + p.buf, size + p.bytes, Merge(tiles, p.tiles);
      open, opens, events := p.open, p.opens, events + es;
    }

    /** The write broke off: memory stays behind the file's frames, and the open map is ahead. */
    method Broken(p: Pending, ghost es: seq<Event>, wrote: nat, torn: bool)
      requires Valid() && !failed && PendOk(p, log) && log + p.buf == Written(events + es)
      modifies this`failed, this`disk, this`open, this`opens, this`events
      ensures Valid() && failed && events == old(events) + es
    {
      hide Good, OpenOk, TilesOk, PendOk, EntryOk, Off, Locs, DiskOk, Written, Frames;
      PendGood(p, log);
      ghost var w := if wrote < |p.buf| then wrote else |p.buf|;
      failed := true;
      disk := Frames(log) + Frames(p.buf[..w]) + if torn && w < |p.buf| then [Bad(1)] else [];
      WrotePart(disk, log, p.buf, w, events + es);
      open, opens, events := p.open, p.opens, events + es;
    }

    /** The tile's intervals, from the cache or the log. Other tiles may be dropped from the cache. */
    method Load(tile: Tile) returns (ivs: seq<Interval>)
      requires Valid()
      modifies this`cache
      ensures Valid() && ivs == InTile(Intervals(log), tile)
    {
      var locs := Get(tiles, tile);
      if tile in cache && cache[tile].version == |locs| {
        return cache[tile].ivs;
      }
      ivs := ReadTile(log, tile, locs);
      var keep: set<Tile> := *;
      cache := (map t | t in cache && t in keep :: cache[t])[tile := CacheEntry(|locs|, ivs)];
    }

    /** The tile's intervals of the kinds (all for none) that overlap the time range, at least a point of it;
        nothing for a tile that is not valid. */
    method Query(tile: Tile, kinds: set<Kind>, t0: TimeMs, t1: TimeMs) returns (out: Option<seq<Interval>>)
      requires Valid()
      modifies this`cache
      ensures Valid() && (out.None? <==> !(-2048 <= tile.x <= 2048 && -2048 <= tile.y <= 2048))
      ensures out.Some? ==> out.value == Select(InTile(Intervals(log), tile), kinds, t0, if t1 <= t0 then t0 + 1
                else t1)
      ensures out.Some? ==> forall iv :: iv in out.value <==>
                iv in Intervals(log) && Inside(iv.content, tile) && (kinds == {} || iv.content.key.kind in kinds)
                && iv.start < (if t1 <= t0 then t0 + 1 else t1) && (iv.end == 0 || iv.end > t0)
    {
      if !ValidTile(tile) {
        return None;
      }
      var ivs := Load(tile);
      var found := Filter(ivs, kinds, t0, if t1 <= t0 then t0 + 1 else t1);
      forall iv
        ensures iv in found <==>
                  iv in Intervals(log) && Inside(iv.content, tile)
                  && Wanted(iv, kinds, t0, if t1 <= t0 then t0 + 1 else t1)
      {
        SelectHas(ivs, kinds, t0, if t1 <= t0 then t0 + 1 else t1, iv);
        InTileHas(Intervals(log), tile, iv);
        InsideIs(iv.content, tile);
      }
      return Some(found);
    }

    method Version(tile: Tile) returns (v: Option<nat>)
      requires Valid()
      ensures v == if ValidTile(tile) then Some(|Locs(log, tile)|) else None
    {
      v := if ValidTile(tile) then Some(|Get(tiles, tile)|) else None;
    }

    /** A replayed log. */
    constructor Replayed(log: Log, size: nat, open: map<Key, OpenRef>, opens: nat, tiles: map<Tile, seq<Loc>>,
                         ghost events: seq<Event>)
      requires Good(log) && size == Size(log) && OpenOk(open, opens, log) && TilesOk(tiles, log)
               && log == Written(events)
      ensures Valid() && !failed && this.log == log && this.events == events && this.open == open && this.opens == opens
              && this.tiles == tiles
    {
      this.log, this.size, this.open, this.opens, this.tiles, cache, failed := log, size, open, opens, tiles, map[],
          false;
      disk, this.events := Frames(log), events;
      new;
      assert log[..|log|] == log;
      assert TornAt(disk, Written(events), |log|);
    }
  }

  // --- opening ---

  /** The file of a datastore: each frame in it that is whole is the record written there. */
  ghost predicate ImageOf(image: seq<Frame>, all: Log) {
    forall i: nat :: i < |image| && image[i].Whole? ==> i < |all| && image[i].rec == all[i]
  }

  predicate WholeAfter(image: seq<Frame>, n: nat) { exists j: nat :: n < j < |image| && image[j].Whole? }

  lemma FrameAt(image: seq<Frame>, log: Log, all: Log, i: nat)
    requires ImageOf(image, all) && i < |log| <= |image| && image[..|log|] == Frames(log)
    ensures image[i] == Whole(log[i]) && i < |all| && log[i] == all[i]
  {
    assert image[..|log|][i] == Frames(log)[i];
  }

  /** Of a file whose whole frames are the records written, replay keeps exactly those before the first that is not
      whole. */
  lemma ReplayIs(image: seq<Frame>, log: Log, all: Log)
    requires ImageOf(image, all) && Replays(image, log) && Good(all)
    ensures |log| <= |image| && |log| <= |all| && log == all[..|log|]
    ensures (forall i: nat :: i < |log| ==> image[i].Whole?) && (|log| < |image| ==> image[|log|].Bad?)
  {
    hide Good, Follows;
    var n := |log|;
    forall i: nat | i < n ensures image[i] == Whole(log[i]) && i < |all| && log[i] == all[i] {
      FrameAt(image, log, all, i);
    }
    if n > 0 { FrameAt(image, log, all, n - 1); }
    assert log == all[..n];
    if n < |all| {
      PrefixGood(all, n + 1);
      assert all[..n + 1] == log + [all[n]];
      Extend(log, all[n]);
    }
  }

  /** Opens a datastore from its file. A torn tail is cut off; damage before whole frames fails, unless the log is to
      be salvaged, which keeps the frames before it. What is opened is the log of some events: the ones of the records
      kept, and at most one close for an event that was cut. */
  method OpenFile(image: seq<Frame>, salvage: bool, ghost es: seq<Event>) returns (d: Datastore?)
    requires ImageOf(image, Written(es))
    ensures d != null ==>
            fresh(d) && d.Valid() && !d.failed && |d.log| <= |image| && |d.log| <= |Written(es)|
            && d.log == Written(es)[..|d.log|]
    ensures d != null ==>
            (forall i: nat :: i < |d.log| ==> image[i].Whole?)
            && (|d.log| < |image| ==> image[|d.log|].Bad?)
    ensures d == null ==> !salvage && exists n: nat, m: nat :: n < m < |image| && image[n].Bad? && image[m].Whole?
    ensures d != null && !salvage ==> forall m: nat :: |d.log| < m < |image| ==> image[m].Bad?
  {
    hide Good, OpenOk, TilesOk, Replays, ImageOf, Written, Off;
    var log, size, open, opens, tiles := Replay(image);
    var n := |log|;
    ReplayIs(image, log, Written(es));
    if n < |image| && WholeAfter(image, n) && !salvage {
      return null;
    }
    ghost var left := TornIs(es, n);
    d := new Datastore.Replayed(log, size, open, opens, tiles, left);
  }

  lemma TornFrames(disk: seq<Frame>, all: Log, n: nat)
    requires n <= |all| && TornAt(disk, all, n)
    ensures n <= |disk| <= n + 1 && (forall i: nat :: i < n ==> disk[i] == Whole(all[i]))
            && (n < |disk| ==> disk[n].Bad?)
  {
    forall i: nat | i < n ensures disk[i] == Whole(all[i]) { assert disk[..n][i] == Frames(all[..n])[i]; }
  }

  /** After a crash or a failed write, a file that is not damaged otherwise always opens, with everything that was
      acknowledged; no tile's version goes back, and a version that stayed shows the same intervals. */
  lemma CrashKeeps(disk: seq<Frame>, log: Log, events: seq<Event>, log': Log, tile: Tile)
    requires Good(log) && log <= Written(events) && DiskOk(disk, log, events)
    requires |log'| <= |disk| && |log'| <= |Written(events)| && log' == Written(events)[..|log'|]
    requires (forall i: nat :: i < |log'| ==> disk[i].Whole?) && (|log'| < |disk| ==> disk[|log'|].Bad?)
    ensures ImageOf(disk, Written(events)) && forall n: nat :: n < |disk| && disk[n].Bad? ==> !WholeAfter(disk, n)
    ensures log <= log' && Good(log')
    ensures |Locs(log, tile)| <= |Locs(log', tile)|
    ensures |Locs(log, tile)| == |Locs(log', tile)| ==> InTile(Intervals(log), tile) == InTile(Intervals(log'), tile)
  {
    hide Good, Locs, InTile, Intervals, Written;
    var all := Written(events);
    var n: nat :| n <= |all| && |log| <= n && TornAt(disk, all, n);
    TornFrames(disk, all, n);
    PrefixGood(all, n);
    assert log' == log + log'[|log|..];
    VersionTells(log, log'[|log|..], tile);
  }

  // --- what a query means ---

  lemma {:induction false} InTileHas(ivs: seq<Interval>, tile: Tile, iv: Interval)
    ensures iv in InTile(ivs, tile) <==> iv in ivs && ContentTile(iv.content) == tile
  {
    if ivs != [] {
      InTileHas(ivs[..|ivs| - 1], tile, iv);
      assert ivs == ivs[..|ivs| - 1] + [ivs[|ivs| - 1]];
    }
  }

  lemma {:induction false} SelectHas(ivs: seq<Interval>, kinds: set<Kind>, t0: TimeMs, t1: TimeMs, iv: Interval)
    ensures iv in Select(ivs, kinds, t0, t1) <==> iv in ivs && Wanted(iv, kinds, t0, t1)
  {
    if ivs != [] {
      SelectHas(ivs[..|ivs| - 1], kinds, t0, t1, iv);
      assert ivs == ivs[..|ivs| - 1] + [ivs[|ivs| - 1]];
    }
  }

  lemma NoIntervals()
    ensures Intervals([]) == []
  {}

  /** An interval's end is the time of one of its key's events. */
  lemma {:induction false} EndedBy(es: seq<Event>, i: nat) returns (n: nat)
    requires i < |Intervals(Written(es))| && Ended(Written(es), i).Some?
    ensures n < |es| && Mine(es[n], Intervals(Written(es))[i].content.key) && es[n].t == Ended(Written(es), i).value
  {
    hide Good, Recs, Ended, Intervals;
    assert Intervals([]) == [] by { NoIntervals(); }
    n := 0;
    if es != [] {
      var p, e := es[..|es| - 1], es[|es| - 1];
      var log := Written(p);
      RecsEnd(log, e, i);
      n := |es| - 1;
      if Ended(log, i).Some? {
        n := EndedBy(p, i);
      }
    }
  }

  lemma RecsEnd(log: Log, e: Event, i: nat)
    requires Good(log) && Good(log + Recs(log, e)) && i < |Intervals(log + Recs(log, e))|
             && Ended(log + Recs(log, e), i).Some?
    ensures i < |Intervals(log)| && Intervals(log + Recs(log, e))[i].content == Intervals(log)[i].content
    ensures Ended(log + Recs(log, e), i) == Ended(log, i)
            || (Ended(log, i).None? && Mine(e, Intervals(log)[i].content.key)
            && Ended(log + Recs(log, e), i) == Some(e.t))
  {
    hide Ended, Intervals, Current, Follows, Good;
    var rs := Recs(log, e);
    CurrentOk(log);
    if rs == [] {
      assert log + rs == log;
    } else {
      RecsFollow(log, e);
      RecEnd(log, rs[0], i);
      if |rs| == 1 {
        assert log + rs == log + [rs[0]];
      } else {
        assert log + rs == log + [rs[0]] + [rs[1]];
        RecEnd(log + [rs[0]], rs[1], i);
      }
    }
  }

  lemma RecsFollow(log: Log, e: Event)
    requires Good(log) && Recs(log, e) != []
    ensures var rs := Recs(log, e);
            Follows(log, rs[0]) && Good(log + [rs[0]])
            && (|rs| == 2 ==>
            rs[0].End? && rs[1].Open? && Follows(log + [rs[0]], rs[1])
            && Good(log + [rs[0]] + [rs[1]]))
    ensures var rs := Recs(log, e); |rs| <= 2 && (rs[0].End? ==>
              rs[0].ord < |Intervals(log)| && Mine(e, Intervals(log)[rs[0].ord].content.key) && rs[0].t == e.t)
  {
    var rs := Recs(log, e);
    RecsShape(log, e);
    RecsGood(log, e);
    hide Recs, Good, Follows;
    if |rs| == 2 {
      assert log + rs == log + [rs[0]] + [rs[1]];
      Extend(log + [rs[0]], rs[1]);
    } else {
      assert log + rs == log + [rs[0]];
    }
    Extend(log, rs[0]);
  }

  lemma RecsShape(log: Log, e: Event)
    requires Good(log) && Recs(log, e) != []
    ensures var rs := Recs(log, e); |rs| <= 2 && (|rs| == 2 ==> rs[0].End? && rs[1].Open?)
    ensures var rs := Recs(log, e); rs[0].End? ==>
              rs[0].ord < |Intervals(log)| && Mine(e, Intervals(log)[rs[0].ord].content.key) && rs[0].t == e.t
  {
    CurrentOk(log);
  }

  /** What one record does to an interval's end. */
  lemma RecEnd(log: Log, r: Rec, i: nat)
    requires Good(log) && Follows(log, r) && Good(log + [r])
    ensures |Intervals(log)| <= |Intervals(log + [r])| <= |Intervals(log)| + 1
            && (r.End? ==> r.ord < |Intervals(log)| == |Intervals(log + [r])| && Ended(log, r.ord).None?)
    ensures i < |Intervals(log)| ==> Intervals(log + [r])[i].content == Intervals(log)[i].content
    ensures i < |Intervals(log + [r])| ==> Ended(log + [r], i) == if r.End? && r.ord == i then Some(r.t)
              else if i < |Intervals(log)| then Ended(log, i) else None
  {
    Extend(log, r);
    EndsOk(log);
    EndsOk(log + [r]);
  }

  /** For an object with events in order, none at time zero, a point query of a tile finds it exactly when its newest
      event by then opened it in that tile, with that content, and once. */
  lemma QueryMeans(es: seq<Event>, k: Key, tile: Tile, t: TimeMs, T0: TimeMs, iv: Interval)
    requires Ordered(es, k) && UpTo(es, k, T0)
    requires forall i: nat :: i < |es| && Mine(es[i], k) ==> es[i].t != 0
    ensures var found := Select(InTile(Intervals(Written(es)), tile), {}, t, t + 1); var c := At(es, k, t);
            && (iv in found && iv.content.key == k ==> c == Some(iv.content) && Inside(iv.content, tile))
            && (c.Some? && Inside(c.value, tile) ==> exists x: Interval :: x in found && x.content == c.value)
  {
    hide Good, Written, At, Ordered, UpTo, InTile, Select, Intervals, Inside, ContentTile;
    QueryFinds(es, k, tile, t, T0, iv);
    InsideIs(iv.content, tile);
    if At(es, k, t).Some? { InsideIs(At(es, k, t).value, tile); }
  }

  lemma QueryFinds(es: seq<Event>, k: Key, tile: Tile, t: TimeMs, T0: TimeMs, iv: Interval)
    requires Ordered(es, k) && UpTo(es, k, T0)
    requires forall i: nat :: i < |es| && Mine(es[i], k) ==> es[i].t != 0
    ensures var found := Select(InTile(Intervals(Written(es)), tile), {}, t, t + 1); var c := At(es, k, t);
            && (iv in found && iv.content.key == k ==> c == Some(iv.content) && ContentTile(iv.content) == tile)
            && (c.Some? && ContentTile(c.value) == tile ==> exists x: Interval :: x in found && x.content == c.value)
  {
    hide Good, Written, At, Ordered, UpTo, Settled, InTile, Select, Ends, Intervals, Recs;
    var log := Written(es);
    var ivs := Intervals(log);
    var c := At(es, k, t);
    LogMeans(es, k, t, T0);
    SelectHas(InTile(ivs, tile), {}, t, t + 1, iv);
    InTileHas(ivs, tile, iv);
    if iv in ivs && iv.content.key == k && Overlaps(iv, t, t + 1) {
      var i: nat :| i < |ivs| && ivs[i] == iv;
      PointQuery(log, i, t);
      if Ended(log, i) == Some(0) {
        var n := EndedBy(es, i);
      }
      assert Of(log, i, k) && Holds(log, i, t);
    }
    if c.Some? {
      var i: nat :| Of(log, i, k) && Holds(log, i, t);
      PointQuery(log, i, t);
      SelectHas(InTile(ivs, tile), {}, t, t + 1, ivs[i]);
      InTileHas(ivs, tile, ivs[i]);
      assert ivs[i] in ivs;
    }
  }
}
