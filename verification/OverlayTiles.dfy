/** Reading a tile of the overlay log from its own records alone. */
module OverlayTiles {
  import opened Common
  import opened OverlayLog

  /** The tile's records. */
  function Own(log: Log, tile: Tile): seq<Rec>
    requires Good(log)
  {
    if log == [] then [] else
      var p := log[..|log| - 1];
      Own(p, tile) + if RecTile(p, log[|log| - 1]) == tile then [log[|log| - 1]] else []
  }

  /** Intervals read so far, and where each ordinal's is. */
  datatype TileState = TileState(ivs: seq<Interval>, byOrd: map<nat, nat>)

  /** Reading one record more; nothing for an end without its open. */
  function Read(s: TileState, r: Rec): Option<TileState> {
    match r
    case Open(ord, start, c) => Some(TileState(s.ivs + [Interval(c, start, 0)], s.byOrd[ord := |s.ivs|]))
    case End(ord, t) =>
      if ord in s.byOrd && s.byOrd[ord] < |s.ivs| then var i :=
          s.byOrd[ord]; Some(s.(ivs := s.ivs[i := s.ivs[i].(end := t)])) else None
  }

  function ReadAll(rs: seq<Rec>): Option<TileState> {
    if rs == [] then Some(TileState([], map[])) else
      var s := ReadAll(rs[..|rs| - 1]);
      if s.None? then None else Read(s.value, rs[|rs| - 1])
  }

  lemma {:induction false} ReadPrefix(rs: seq<Rec>, n: nat)
    requires ReadAll(rs).Some? && n <= |rs|
    ensures ReadAll(rs[..n]).Some?
    ensures n < |rs| ==> ReadAll(rs[..n + 1]) == Read(ReadAll(rs[..n]).value, rs[n]) && ReadAll(rs[..n + 1]).Some?
  {
    if n == |rs| {
      assert rs[..n] == rs;
    } else {
      var p := rs[..|rs| - 1];
      if n < |p| {
        ReadPrefix(p, n);
        assert p[..n] == rs[..n] && p[..n + 1] == rs[..n + 1];
      } else {
        assert rs[..n] == p && rs[..n + 1] == rs;
      }
    }
  }

  /** Ordinals read are the tile's, each at its rank. */
  ghost predicate Ranked(ivs: seq<Interval>, tile: Tile, byOrd: map<nat, nat>) {
    && (forall o: nat :: o in byOrd <==> o < |ivs| && ContentTile(ivs[o].content) == tile)
    && (forall o: nat :: o in byOrd ==> byOrd[o] == |InTile(ivs[..o], tile)|)
  }

  /** The tile's own records tell its intervals in full: no end is met without its open. */
  lemma {:induction false} ReadIs(log: Log, tile: Tile)
    requires Good(log)
    ensures var s := ReadAll(Own(log, tile));
            s.Some? && s.value.ivs == InTile(Intervals(log), tile)
            && Ranked(Intervals(log), tile, s.value.byOrd)
  {
    if log != [] {
      var p, r := log[..|log| - 1], log[|log| - 1];
      ReadIs(p, tile);
      if RecTile(p, r) == tile {
        ReadOwn(p, r, tile);
        assert Own(log, tile)[..|Own(p, tile)|] == Own(p, tile);
      } else {
        ReadOther(p, r, tile);
        assert Own(log, tile) == Own(p, tile);
      }
      assert p + [r] == log;
    }
  }

  lemma ReadOwn(p: Log, r: Rec, tile: Tile)
    requires Good(p) && Follows(p, r) && RecTile(p, r) == tile
    requires var s := ReadAll(Own(p, tile));
             s.Some? && s.value.ivs == InTile(Intervals(p), tile)
             && Ranked(Intervals(p), tile, s.value.byOrd)
    ensures var s := Read(ReadAll(Own(p, tile)).value, r);
            s.Some? && s.value.ivs == InTile(Intervals(p + [r]), tile)
                && Ranked(Intervals(p + [r]), tile, s.value.byOrd)
  {
    Extend(p, r);
    var ivs := Intervals(p);
    if r.Open? {
      var iv := Interval(r.content, r.start, 0);
      InTileMore(ivs, iv, tile);
      RankedMore(ivs, iv, tile, ReadAll(Own(p, tile)).value.byOrd);
    } else {
      InTileChange(ivs, r.ord, ivs[r.ord].(end := r.t), tile);
      RankedChange(ivs, r.ord, ivs[r.ord].(end := r.t), tile, ReadAll(Own(p, tile)).value.byOrd);
    }
  }

  lemma ReadOther(p: Log, r: Rec, tile: Tile)
    requires Good(p) && Follows(p, r) && RecTile(p, r) != tile
    requires var s := ReadAll(Own(p, tile));
             s.Some? && s.value.ivs == InTile(Intervals(p), tile)
             && Ranked(Intervals(p), tile, s.value.byOrd)
    ensures var s := ReadAll(Own(p, tile));
            s.value.ivs == InTile(Intervals(p + [r]), tile)
            && Ranked(Intervals(p + [r]), tile, s.value.byOrd)
  {
    Extend(p, r);
    OtherTile(p, r, tile);
    var ivs := Intervals(p);
    if r.Open? {
      RankedMore(ivs, Interval(r.content, r.start, 0), tile, ReadAll(Own(p, tile)).value.byOrd);
    } else {
      RankedChange(ivs, r.ord, ivs[r.ord].(end := r.t), tile, ReadAll(Own(p, tile)).value.byOrd);
    }
  }

  lemma RankedMore(ivs: seq<Interval>, iv: Interval, tile: Tile, byOrd: map<nat, nat>)
    requires Ranked(ivs, tile, byOrd)
    ensures Ranked(ivs + [iv], tile, if ContentTile(iv.content) == tile then byOrd[|ivs| := |InTile(ivs, tile)|]
              else byOrd)
  {
    forall o: nat | o <= |ivs| ensures (ivs + [iv])[..o] == ivs[..o] {}
    assert ivs[..|ivs|] == ivs;
  }

  lemma RankedChange(ivs: seq<Interval>, i: nat, iv: Interval, tile: Tile, byOrd: map<nat, nat>)
    requires Ranked(ivs, tile, byOrd) && i < |ivs| && iv.content == ivs[i].content
    ensures Ranked(ivs[i := iv], tile, byOrd)
  {
    forall o: nat | o < |ivs| ensures |InTile(ivs[i := iv][..o], tile)| == |InTile(ivs[..o], tile)| {
      if i < o {
        assert ivs[i := iv][..o] == ivs[..o][i := iv];
        InTileChange(ivs[..o], i, iv, tile);
      } else {
        assert ivs[i := iv][..o] == ivs[..o];
      }
    }
  }

  lemma {:induction false} OwnAre(log: Log, tile: Tile)
    requires Good(log)
    ensures |Own(log, tile)| == |TileRecs(log, tile)|
    ensures forall k: nat :: k < |Own(log, tile)| ==>
              TileRecs(log, tile)[k] < |log| && Own(log, tile)[k] == log[TileRecs(log, tile)[k]]
  {
    if log != [] {
      OwnAre(log[..|log| - 1], tile);
    }
  }

  // --- reading the log by position ---

  /** A positioned read of whole records: from record a to record b. */
  method ReadAt(log: Log, off: nat, n: nat, ghost a: nat, ghost b: nat) returns (rs: seq<Rec>)
    requires a <= b <= |log| && off == Off(log, a) && off + n == Off(log, b)
    ensures rs == log[a..b]
  {
    var i, at := 0, 0;
    rs := [];
    if a < b { OffGrows(log, a, b); }
    while at < off + n
      invariant i <= b && at == Off(log, i)
      invariant rs == if i <= a then [] else log[a..i]
      decreases b - i
    {
      if a < i { OffGrows(log, a, i); } else if i < a { OffGrows(log, i, a); }
      if off <= at {
        rs := rs + [log[i]];
      }
      at := at + Len(log[i]);
      i := i + 1;
    }
    if i < b { OffGrows(log, i, b); }
  }

  const RUN := 0x10_0000

  /** A run of adjacent records from locs[i] on: its end in the index and in the log. */
  method Run(log: Log, tile: Tile, locs: seq<Loc>, i: nat) returns (j: nat, end: nat)
    requires Good(log) && locs == Locs(log, tile) && i < |locs|
    ensures i < j <= |locs|
    ensures var tr := TileRecs(log, tile);
            |tr| == |locs| && tr[i] + (j - i) <= |log|
            && end == Off(log, tr[i] + (j - i))
    ensures forall k: nat :: i <= k < j ==> TileRecs(log, tile)[k] == TileRecs(log, tile)[i] + (k - i)
  {
    hide Good, Locs, TileRecs, Len;
    LocsAre(log, tile);
    ghost var tr := TileRecs(log, tile);
    j, end := i + 1, locs[i].off + locs[i].len;
    while j < |locs| && locs[j].off == end && end - locs[i].off < RUN
      invariant i < j <= |locs| && tr[i] + (j - i) <= |log| && end == Off(log, tr[i] + (j - i))
      invariant forall k: nat :: i <= k < j ==> tr[k] == tr[i] + (k - i)
    {
      ghost var x := tr[i] + (j - i);
      if tr[j] < x { OffGrows(log, tr[j], x); } else if x < tr[j] { OffGrows(log, x, tr[j]); }
      end := end + locs[j].len;
      j := j + 1;
    }
  }

  /** Takes in the records of a run. */
  method ReadRun(rs: seq<Rec>, ivs0: seq<Interval>, byOrd0: map<nat, nat>, ghost own: seq<Rec>, ghost i: nat)
    returns (ivs: seq<Interval>, byOrd: map<nat, nat>)
    requires ReadAll(own).Some? && i + |rs| <= |own| && own[i..i + |rs|] == rs
             && ReadAll(own[..i]) == Some(TileState(ivs0, byOrd0))
    ensures ReadAll(own[..i + |rs|]) == Some(TileState(ivs, byOrd))
  {
    hide ReadAll;
    ivs, byOrd := ivs0, byOrd0;
    var p := 0;
    while p < |rs|
      invariant p <= |rs| && ReadAll(own[..i + p]) == Some(TileState(ivs, byOrd))
    {
      ReadPrefix(own, i + p);
      assert rs[p] == own[i..i + |rs|][p];
      match rs[p] {
        case Open(ord, start, c) =>
          byOrd := byOrd[ord := |ivs|];
          ivs := ivs + [Interval(c, start, 0)];
        case End(ord, t) =>
          ivs := ivs[byOrd[ord] := ivs[byOrd[ord]].(end := t)];
      }
      p := p + 1;
    }
  }

  /** Reads the tile's intervals from the log, a run at a time. */
  method ReadTile(log: Log, tile: Tile, locs: seq<Loc>) returns (ivs: seq<Interval>)
    requires Good(log) && locs == Locs(log, tile)
    ensures ivs == InTile(Intervals(log), tile)
  {
    hide Good, Own, InTile, Intervals, Locs, TileRecs, Ranked, Off, ReadAll, Len;
    ghost var own := Own(log, tile);
    ReadIs(log, tile);
    OwnAre(log, tile);
    LocsAre(log, tile);
    ghost var tr := TileRecs(log, tile);
    var byOrd: map<nat, nat> := map[];
    ivs := [];
    ReadNone(own);
    var i := 0;
    while i < |locs|
      invariant i <= |locs| && ReadAll(own[..i]) == Some(TileState(ivs, byOrd))
    {
      var j, end := Run(log, tile, locs, i);
      OffGrows(log, tr[i], tr[i] + (j - i));
      var rs := ReadAt(log, locs[i].off, end - locs[i].off, tr[i], tr[i] + (j - i));
      forall p: nat | p < j - i ensures own[i + p] == rs[p] { assert tr[i + p] == tr[i] + p; }
      ivs, byOrd := ReadRun(rs, ivs, byOrd, own, i);
      i := j;
    }
    assert own[..|locs|] == own;
  }

  lemma ReadNone(rs: seq<Rec>)
    ensures ReadAll(rs[..0]) == Some(TileState([], map[]))
  {}
}
