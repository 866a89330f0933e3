/** The journey rules as functions on values: what each message does to the tracker. */
module JourneyRules {
  import opened Common

  datatype Kind = Train | Vehicle | Player

  datatype Meta = Meta(id: string, kind: Kind, force: string, name: string,
                       carriages: nat, kinds: string, color: string)

  /** One mover sample. `other` holds the flag bits the rules carry along unread, `body` the
      position, heading, carriage and rail data. */
  datatype Sample = Sample(surface: string, meta: Meta, t: TimeMs, tick: int,
                           gone: bool, noTick: bool, other: nat, body: seq<int>)

  /** What the tracker knows of one journey (the empty string is "no source"). */
  datatype Rec = Rec(
    owner: string, sfc: string, meta: Meta, known: bool, lastT: TimeMs,
    goneBy: string, goneT: TimeMs,
    prev: string, anyPrev: bool, prevKnown: bool, prevSfc: string, prevMeta: Meta, cut: TimeMs,
    afterBy: string, afterT: TimeMs)

  const NO_META := Meta("", Train, "", "", 0, "", "")
  const BLANK := Rec("", "", NO_META, false, 0, "", 0, "", false, false, "", NO_META, 0, "", 0)

  const GONE_SLACK: TimeMs := 250

  datatype Stats = Stats(ownerDrops: nat, unknownGones: nat, resolvedGones: nat, surfaceChanges: nat, evicted: nat,
                         quarantined: nat, lateKept: nat, afterGone: nat, resyncForgotten: nat)

  const ZERO := Stats(0, 0, 0, 0, 0, 0, 0, 0, 0)

  function Plus(a: Stats, b: Stats): Stats {
    Stats(a.ownerDrops + b.ownerDrops, a.unknownGones + b.unknownGones, a.resolvedGones + b.resolvedGones,
          a.surfaceChanges + b.surfaceChanges, a.evicted + b.evicted, a.quarantined + b.quarantined,
          a.lateKept + b.lateKept, a.afterGone + b.afterGone, a.resyncForgotten + b.resyncForgotten)
  }

  /** The result of one sample for its journey: the record after it (None: still untracked), whether
      the record was written, the rows emitted, the counters raised, and whether the sample counts
      for a running resync. */
  datatype Outcome = Outcome(rec: Option<Rec>, wrote: bool, out: seq<Sample>, stats: Stats, seen: bool)

  function GoneOf(j: Rec, t: TimeMs, tick: int, noTick: bool): Sample {
    Sample(j.sfc, j.meta, t, tick, true, noTick, 0, [])
  }

  /** Train details a sample omits are carried forward from the previous ones. */
  function Carry(m: Meta, from: Meta): Meta {
    if m.kind == Train && from.kind == Train then
      m.(carriages := if m.carriages == 0 then from.carriages else m.carriages,
         kinds := if m.kinds == "" then from.kinds else m.kinds,
         color := if m.color == "" then from.color else m.color)
    else m
  }

  /** A sample of the previous owner (or, with anyPrev, of any other source) after an adopt. */
  function Late(j: Rec, src: string, s: Sample, found: Option<Meta>): Outcome {
    if s.gone then
      if j.anyPrev && found.None? then
        Outcome(Some(j), false, [], ZERO.(ownerDrops := 1), false)
      else
        var resolved := if j.anyPrev then 1 else 0;
        var j1 := if j.anyPrev
                  then j.(prev := src, anyPrev := false, prevKnown := true, prevSfc := s.surface,
                      prevMeta := found.value)
                  else j;
        var after := j1.(prev := "", anyPrev := false);
        if !j1.prevKnown then
          Outcome(Some(after), true, [], ZERO.(unknownGones := 1, resolvedGones := resolved), false)
        else
          var g := if s.t >= j1.cut
                   then Sample(j1.prevSfc, j1.prevMeta, j1.cut - 1, 0, true, true, 0, [])
                   else Sample(j1.prevSfc, j1.prevMeta, s.t, s.tick, true, s.noTick, 0, []);
          Outcome(Some(after), true, [g], ZERO.(lateKept := 1, resolvedGones := resolved), false)
    else if s.t >= j.cut then
      Outcome(Some(j), false, [], ZERO.(ownerDrops := 1), false)
    else
      var j1 := if j.anyPrev then j.(prev := src, anyPrev := false) else j;
      var meta := if j1.prevKnown then Carry(s.meta, j1.prevMeta) else s.meta;
      Outcome(Some(j1.(prevKnown := true, prevSfc := s.surface, prevMeta := meta)), true,
              [s.(meta := meta)], ZERO.(lateKept := 1), false)
  }

  /** A gone of the owner, or of a journey without one. */
  function Gone(j: Option<Rec>, src: string, s: Sample, found: Option<Meta>): Outcome {
    var resolved := (j.None? || !j.value.known) && found.Some?;
    var j1 := if resolved
              then Some((if j.Some? then j.value else BLANK).(owner := src, sfc := s.surface, meta := found.value,
                  known := true))
              else j;
    var stats := if resolved then ZERO.(resolvedGones := 1) else ZERO;
    if j1.None? || j1.value.owner == "" || !j1.value.known then
      Outcome(j1, resolved, [], stats.(unknownGones := 1), false)
    else
      Outcome(Some(j1.value.(owner := "", goneBy := src, goneT := s.t, prev := "", anyPrev := false,
                             afterBy := src, afterT := s.t, lastT := s.t)), true,
              [GoneOf(j1.value, s.t, s.tick, s.noTick)], stats, false)
  }

  predicate MovedAfterGone(j: Rec, src: string, t: TimeMs) {
    j.afterBy != "" && j.afterBy != src && t <= j.afterT && j.afterT - t <= GONE_SLACK
  }

  /** A sample of the owner, or one that makes src the owner. */
  function Own(before: Option<Rec>, src: string, s: Sample): Outcome {
    var j := if before.Some? then before.value else BLANK;
    var moved := j.known && j.sfc != s.surface;
    var left := if moved && j.owner != "" then [GoneOf(j, s.t, s.tick, s.noTick)] else [];
    var meta := if j.known then Carry(s.meta, j.meta) else s.meta;
    var late := MovedAfterGone(j, src, s.t);
    var t := if late then j.afterT + 1 else s.t;
    var s1 := s.(meta := meta, t := t);
    var j1 := if late then j.(afterT := t) else j.(afterBy := "");
    var j2 := if j1.owner != src then j1.(prev := "", anyPrev := false)
              else if (j1.prev != "" || j1.anyPrev) && t < j1.cut then j1.(cut := t)
              else j1;
    Outcome(Some(j2.(owner := src, sfc := s.surface, meta := meta, known := true, lastT := t, goneBy := "")), true,
            left + [s1],
            ZERO.(surfaceChanges := if moved then 1 else 0, afterGone := if late then 1 else 0), true)
  }

  predicate Quarantined(j: Option<Rec>, src: string, t: TimeMs) {
    j.Some? && j.value.owner == "" && j.value.goneBy == src && t < j.value.goneT + HANDOFF_WINDOW
  }

  predicate OwnedByOther(j: Option<Rec>, src: string) {
    j.Some? && j.value.owner != "" && j.value.owner != src
  }

  /** One sample of src for the journey whose record is j. A row emitted while another source owns
      the journey is a late one, below the cut of the adopt; any other row is the owner's. */
  function Step(j: Option<Rec>, src: string, s: Sample, found: Option<Meta>): (o: Outcome)
    ensures j.Some? ==> o.rec.Some?
    ensures !o.wrote ==> o.rec == j
    ensures OwnedByOther(j, src) ==> o.rec.value.owner == j.value.owner && |o.out| <= 1
    ensures OwnedByOther(j, src) && o.out != [] ==> o.out[0].t < j.value.cut && (j.value.prev == src || j.value.anyPrev)
    ensures !OwnedByOther(j, src) && o.out != [] ==>
              o.rec.Some? && if s.gone then o.rec.value.owner == "" && o.rec.value.goneBy == src
                  && o.rec.value.goneT == s.t
                             else o.rec.value.owner == src
    ensures Quarantined(j, src, s.t) && src != "" && !s.gone ==> o.out == [] && o.rec == j
  {
    if OwnedByOther(j, src) then
      if j.value.prev == src || j.value.anyPrev then Late(j.value, src, s, found)
      else Outcome(j, false, [], ZERO.(ownerDrops := 1), false)
    else if s.gone then Gone(j, src, s, found)
    else if Quarantined(j, src, s.t) then Outcome(j, false, [], ZERO.(quarantined := 1), false)
    else Own(j, src, s)
  }

  /** The adopt message of src at t. */
  function AdoptRec(before: Option<Rec>, src: string, t: TimeMs): Rec {
    var j := if before.Some? then before.value else BLANK;
    var j1 :=
      if j.owner == src then j
      else if j.owner != "" && j.known then
        j.(prev := j.owner, anyPrev := false, prevKnown := true, prevSfc := j.sfc, prevMeta := j.meta, cut := t,
            afterBy := "")
      else if j.owner == "" && j.goneBy == "" && !j.known then
        j.(prev := "", anyPrev := true, prevKnown := false, cut := t, afterBy := "")
      else
        j.(prev := "", anyPrev := false);
    j1.(owner := src, goneBy := "")
  }

  // --- resync and stop: ending what a source owns ---

  predicate Ends(j: Rec, src: string) { j.owner == src && j.known }

  function EndRec(j: Rec, t: TimeMs): Rec { j.(owner := "", lastT := t) }

  predicate IsPlayer(id: string) { |id| >= 2 && id[0] == 'p' && id[1] == ':' }

  /** A journey live in the store: its surface, its newest row's meta, position and time. */
  datatype LiveJourney = LiveJourney(surface: string, meta: Meta, x: real, y: real, t: TimeMs)

  datatype Region = Nowhere | Everywhere | Bounds(x1: real, y1: real, x2: real, y2: real)

  predicate Has(r: Region, x: real, y: real) {
    match r
    case Everywhere => true
    case Nowhere => false
    case Bounds(x1, y1, x2, y2) => x1 <= x < x2 && y1 <= y < y2
  }

  /** The record of a journey a resync ends although the tracker does not know it. */
  function ForgottenRec(j: Rec, lj: LiveJourney, t: TimeMs): Rec {
    j.(owner := "", sfc := lj.surface, meta := lj.meta, known := true, lastT := t,
       prev := "", anyPrev := false, goneBy := "", afterBy := "")
  }

  function ForgottenGone(lj: LiveJourney, t: TimeMs): Sample {
    Sample(lj.surface, lj.meta, t, 0, true, true, 0, [])
  }
}
