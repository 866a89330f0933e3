/** The blank records a rollback leaves over: over which later messages they read exactly as untracked journeys. */
module JourneyLeftover {
  import opened Common
  import opened JourneyRules
  import opened JourneyState
  import opened JourneyOwnership

  /** A journey live in the store, and whether its newest row lies in the region of a resync. */
  datatype Live = Live(lj: LiveJourney, here: bool)

  /** What a message means for one journey: a sample of it, an adopt, a stop that ends what src owns, or the end of a
      resync that did not send it, with the store's rows of it from before t. */
  datatype Msg =
    | Sent(src: string, x: Sample, found: Option<Meta>)
    | Adopt(src: string, t: TimeMs)
    | Stop(src: string, t: TimeMs)
    | Resync(src: string, t: TimeMs, live: seq<Live>)

  /** The rows of the journey that a resync ends although the tracker does not know it. */
  function Hits(live: seq<Live>, owned: bool): seq<LiveJourney> {
    if live == [] then [] else
      Hits(live[..|live| - 1], owned) + if owned || live[|live| - 1].here then [live[|live| - 1].lj] else []
  }

  function Gones(hits: seq<LiveJourney>, t: TimeMs): seq<Sample> {
    seq(|hits|, i requires 0 <= i < |hits| => ForgottenGone(hits[i], t))
  }

  /** The journey's record after the message, and the rows it emits. */
  function Play(j: Option<Rec>, m: Msg): (Option<Rec>, seq<Sample>) {
    match m
    case Sent(src, x, found) => var o := Step(j, src, x, found); (o.rec, o.out)
    case Adopt(src, t) => (Some(AdoptRec(j, src, t)), [])
    case Stop(src, t) =>
      if j.Some? && Ends(j.value, src) then (Some(EndRec(j.value, t)), [GoneOf(j.value, t, 0, true)]) else (j, [])
    case Resync(src, t, live) =>
      if j.Some? && Ends(j.value, src) then (Some(EndRec(j.value, t)), [GoneOf(j.value, t, 0, true)])
      else if j.Some? && (j.value.known || j.value.owner !in {"", src}) then (j, [])
      else
        var hits := Hits(live, j.Some? && j.value.owner == src);
        (if j.Some? && hits != [] then Some(ForgottenRec(j.value, hits[|hits| - 1], t)) else j, Gones(hits, t))
  }

  /** The rows of each message of a run. */
  function Rows(j: Option<Rec>, ms: seq<Msg>): seq<seq<Sample>>
    decreases |ms|
  {
    if ms == [] then [] else [Play(j, ms[0]).1] + Rows(Play(j, ms[0]).0, ms[1..])
  }

  // --- how far the leftover and the untracked journey are apart ---

  datatype Phase =
    | Fresh                                                   // not touched yet
    | Ended(lj: LiveJourney)                                  // a resync ended it: the leftover knows the store's row
    | Claimed(lj: LiveJourney, owner: string, cut: TimeMs)    // ... and then it was adopted
    | Passed(lj: LiveJourney, owner: string, prev: string, cut: TimeMs)  // ... and adopted on
    | Followed(owner: string, cut: TimeMs)                    // adopted and sampled: late rows of others still count
    | Kept(owner: string, prev: string, cut: TimeMs)          // adopted on and sampled: those of prev do not
    | Same                                                    // no difference any more

  /** The new owner's first sample reads the same with the store's row known as without. */
  predicate Full(x: Sample, lj: LiveJourney) { x.surface == lj.surface && Carry(x.meta, lj.meta) == x.meta }

  /** The phase after a message both answer alike; None when they do not. */
  function Next(ph: Phase, m: Msg): Option<Phase> {
    match ph
    case Same => Some(Same)
    case Fresh => NextFresh(m)
    case Ended(lj) => NextEnded(lj, m)
    case Claimed(lj, owner, cut) => NextClaimed(lj, owner, cut, m)
    case Passed(lj, owner, prev, cut) => NextPassed(lj, owner, prev, cut, m)
    case Followed(owner, cut) => NextFollowed(owner, cut, m)
    case Kept(owner, prev, cut) => NextKept(owner, prev, cut, m)
  }

  function NextFresh(m: Msg): Option<Phase> {
    match m
    case Sent(src, x, found) => Some(if x.gone && found.None? then Fresh else Same)
    case Adopt(src, t) => Some(Same)
    case Stop(src, t) => Some(Fresh)
    case Resync(src, t, live) =>
      var hits := Hits(live, false);
      Some(if hits == [] then Fresh else Ended(hits[|hits| - 1]))
  }

  /** It tells when a sample omits details, when a gone finds the store's row, and when a resync finds the journey. */
  function NextEnded(lj: LiveJourney, m: Msg): Option<Phase> {
    match m
    case Sent(src, x, found) =>
      if x.gone then if found.Some? then None else Some(Ended(lj))
      else if Carry(x.meta, lj.meta) == x.meta then Some(Same) else None
    case Adopt(src, t) => Some(Claimed(lj, src, t))
    case Stop(src, t) => Some(Ended(lj))
    case Resync(src, t, live) => if Hits(live, false) == [] then Some(Ended(lj)) else None
  }

  /** What the owner of an adopted, never sampled journey sends. */
  function OwnerFirst(lj: LiveJourney, x: Sample, found: Option<Meta>, sampled: Phase): Option<Phase> {
    if x.gone then if found == Some(lj.meta) && x.surface == lj.surface then Some(Same) else None
    else if Full(x, lj) then Some(sampled) else None
  }

  /** The end of what the owner of such a journey has: the leftover ends with the row it knows, the other one with the
      store's rows. */
  function OwnerEnds(lj: LiveJourney, m: Msg): Option<Phase>
    requires m.Resync?
  {
    var hits := Hits(m.live, true);
    if |hits| == 1 && hits[0].surface == lj.surface && hits[0].meta == lj.meta then Some(Same) else None
  }

  function NextClaimed(lj: LiveJourney, owner: string, cut: TimeMs, m: Msg): Option<Phase> {
    match m
    case Sent(src, x, found) =>
      if src == owner then OwnerFirst(lj, x, found, Followed(owner, Min(cut, x.t)))
      else if (if x.gone then found.Some? else x.t < cut) then None else Some(Claimed(lj, owner, cut))
    case Adopt(src, t) => Some(if src == owner then Claimed(lj, owner, cut) else Passed(lj, src, owner, t))
    case Stop(src, t) => if src == owner then None else Some(Claimed(lj, owner, cut))
    case Resync(src, t, live) => if src == owner then OwnerEnds(lj, m) else Some(Claimed(lj, owner, cut))
  }

  function NextPassed(lj: LiveJourney, owner: string, prev: string, cut: TimeMs, m: Msg): Option<Phase> {
    match m
    case Sent(src, x, found) =>
      if src == owner then OwnerFirst(lj, x, found, Kept(owner, prev, Min(cut, x.t)))
      else if src == prev && (x.gone || x.t < cut) then None else Some(Passed(lj, owner, prev, cut))
    case Adopt(src, t) => Some(if src == owner then Passed(lj, owner, prev, cut) else Passed(lj, src, owner, t))
    case Stop(src, t) => if src == owner then None else Some(Passed(lj, owner, prev, cut))
    case Resync(src, t, live) => if src == owner then OwnerEnds(lj, m) else Some(Passed(lj, owner, prev, cut))
  }

  function NextFollowed(owner: string, cut: TimeMs, m: Msg): Option<Phase> {
    match m
    case Sent(src, x, found) =>
      if src == owner then Some(if x.gone then Same else Followed(owner, Min(cut, x.t)))
      else if (if x.gone then found.Some? else x.t < cut) then None else Some(Followed(owner, cut))
    case Adopt(src, t) => Some(if src == owner then Followed(owner, cut) else Same)
    case Stop(src, t) => Some(if src == owner then Same else Followed(owner, cut))
    case Resync(src, t, live) => Some(if src == owner then Same else Followed(owner, cut))
  }

  function NextKept(owner: string, prev: string, cut: TimeMs, m: Msg): Option<Phase> {
    match m
    case Sent(src, x, found) =>
      if src == owner then Some(if x.gone then Same else Kept(owner, prev, Min(cut, x.t)))
      else if src == prev && (x.gone || x.t < cut) then None else Some(Kept(owner, prev, cut))
    case Adopt(src, t) => Some(if src == owner then Kept(owner, prev, cut) else Same)
    case Stop(src, t) => Some(if src == owner then Same else Kept(owner, prev, cut))
    case Resync(src, t, live) => Some(if src == owner then Same else Kept(owner, prev, cut))
  }

  /** No message of the run tells the leftover from an untracked journey. */
  predicate Hidden(ph: Phase, ms: seq<Msg>)
    decreases |ms|
  {
    ms == [] || (Next(ph, ms[0]).Some? && Hidden(Next(ph, ms[0]).value, ms[1..]))
  }

  // --- that this is so ---

  /** Records that no rule tells apart: they differ only in fields that are not read before they are set. */
  predicate Alike(a: Rec, b: Rec) {
    && a.owner == b.owner && a.known == b.known && (a.known ==> a.sfc == b.sfc && a.meta == b.meta)
    && a.goneBy == b.goneBy && (a.goneBy != "" ==> a.goneT == b.goneT) && a.afterBy == b.afterBy
        && (a.afterBy != "" ==> a.afterT == b.afterT)
    && (a.owner != "" ==> a.prev == b.prev && a.anyPrev == b.anyPrev)
    && (a.owner != "" && (a.prev != "" || a.anyPrev) ==>
          a.cut == b.cut && a.prevKnown == b.prevKnown && (a.prevKnown ==>
              a.prevSfc == b.prevSfc && a.prevMeta == b.prevMeta))
  }

  /** The untracked journey's record u and the leftover's l are in the phase. */
  ghost predicate Apart(ph: Phase, u: Option<Rec>, l: Rec) {
    match ph
    case Same => u.Some? && Alike(u.value, l)
    case Fresh => u.None? && l == BLANK
    case Ended(lj) => u.None? && l == ForgottenRec(BLANK, lj, l.lastT)
    case Claimed(lj, owner, cut) =>
      owner != "" && u == Some(AdoptRec(None, owner, cut))
          && l == AdoptRec(Some(ForgottenRec(BLANK, lj, l.lastT)), owner, cut)
    case Passed(lj, owner, prev, cut) =>
      && owner != "" && prev != "" && prev != owner && u.Some? && !u.value.known && Bare(u.value, owner)
          && u.value.prev == ""
      && l.known && l.sfc == lj.surface && l.meta == lj.meta && Bare(l, owner) && Before(l, prev, cut)
    case Followed(owner, cut) =>
      && owner != "" && u == Some(l.(anyPrev := true, cut := cut)) && l.known && Bare(l, owner) && l.prev == ""
          && !l.prevKnown
    case Kept(owner, prev, cut) =>
      && owner != "" && prev != "" && prev != owner && u.Some? && u.value.known && Bare(u.value, owner)
          && u.value.prev == ""
      && l.known && l.sfc == u.value.sfc && l.meta == u.value.meta && Bare(l, owner) && Before(l, prev, cut)
  }

  predicate Bare(j: Rec, owner: string) { j.owner == owner && !j.anyPrev && j.goneBy == "" && j.afterBy == "" }

  predicate Before(j: Rec, prev: string, cut: TimeMs) { j.prev == prev && j.cut == cut && j.prevKnown }

  ghost predicate StaySame(u: Rec, l: Rec, m: Msg) {
    var (a, b) := (Play(Some(u), m), Play(Some(l), m));
    a.1 == b.1 && a.0.Some? && b.0.Some? && Alike(a.0.value, b.0.value)
  }

  lemma LateSame(u: Rec, l: Rec, src: string, x: Sample, found: Option<Meta>)
    requires Alike(u, l) && src != "" && OwnedByOther(Some(u), src)
    ensures StaySame(u, l, Sent(src, x, found))
  {
    hide Carry, Gone, Own;
  }

  lemma GoneSame(u: Rec, l: Rec, src: string, x: Sample, found: Option<Meta>)
    requires Alike(u, l) && src != "" && !OwnedByOther(Some(u), src) && x.gone
    ensures StaySame(u, l, Sent(src, x, found))
  {
    hide Late, Own;
  }

  lemma OwnSame(u: Rec, l: Rec, src: string, x: Sample, found: Option<Meta>)
    requires Alike(u, l) && src != "" && !OwnedByOther(Some(u), src) && !x.gone
    ensures StaySame(u, l, Sent(src, x, found))
  {
    hide Late, Gone, Own;
    assert Quarantined(Some(u), src, x.t) == Quarantined(Some(l), src, x.t);
    if !Quarantined(Some(u), src, x.t) {
      OwnAlike(u, l, src, x);
    }
  }

  lemma OwnAlike(u: Rec, l: Rec, src: string, x: Sample)
    requires Alike(u, l) && src != "" && !OwnedByOther(Some(u), src)
    ensures var (a, b) := (Own(Some(u), src, x), Own(Some(l), src, x));
            a.out == b.out && a.rec.Some? && b.rec.Some? && Alike(a.rec.value, b.rec.value)
  {
    hide Own, Alike;
    OwnRows(u, l, src, x);
    if u.owner == src {
      OwnStays(u, l, src, x);
    } else {
      OwnTakes(u, l, src, x);
    }
  }

  lemma OwnRows(u: Rec, l: Rec, src: string, x: Sample)
    requires Alike(u, l) && src != ""
    ensures Own(Some(u), src, x).out == Own(Some(l), src, x).out
  {
    hide Carry, MovedAfterGone;
    AfterGoneAlike(u, l, src, x.t);
  }

  lemma OwnTakes(u: Rec, l: Rec, src: string, x: Sample)
    requires Alike(u, l) && src != "" && u.owner != src
    ensures var (a, b) := (Own(Some(u), src, x), Own(Some(l), src, x));
            a.rec.Some? && b.rec.Some?
            && Alike(a.rec.value, b.rec.value)
  {
    hide Carry, MovedAfterGone;
    AfterGoneAlike(u, l, src, x.t);
  }

  lemma OwnStays(u: Rec, l: Rec, src: string, x: Sample)
    requires Alike(u, l) && src != "" && u.owner == src
    ensures var (a, b) := (Own(Some(u), src, x), Own(Some(l), src, x));
            a.rec.Some? && b.rec.Some?
            && Alike(a.rec.value, b.rec.value)
  {
    hide Carry, MovedAfterGone;
    AfterGoneAlike(u, l, src, x.t);
    var a, b := Own(Some(u), src, x).rec.value, Own(Some(l), src, x).rec.value;
    assert a.owner == b.owner && a.known && b.known && a.sfc == b.sfc && a.meta == b.meta && a.goneBy == b.goneBy == "";
    assert a.afterBy == b.afterBy && (a.afterBy != "" ==> a.afterT == b.afterT);
    assert a.prev == u.prev && b.prev == l.prev && a.anyPrev == u.anyPrev && b.anyPrev == l.anyPrev;
  }

  lemma AfterGoneAlike(u: Rec, l: Rec, src: string, t: TimeMs)
    requires Alike(u, l)
    ensures MovedAfterGone(u, src, t) == MovedAfterGone(l, src, t)
            && (MovedAfterGone(u, src, t) ==> u.afterT == l.afterT && u.afterBy != "")
  {}

  lemma AdoptSame(u: Rec, l: Rec, src: string, t: TimeMs)
    requires Alike(u, l) && src != ""
    ensures StaySame(u, l, Adopt(src, t))
  {
    hide Step, EndRec, GoneOf, ForgottenRec;
  }

  lemma EndSame(u: Rec, l: Rec, m: Msg)
    requires Alike(u, l) && m.src != "" && (m.Stop? || m.Resync?)
    ensures StaySame(u, l, m)
  {
    hide Step, AdoptRec, Hits, Gones;
    assert Ends(u, m.src) == Ends(l, m.src);
    if Ends(u, m.src) {
      assert Alike(EndRec(u, m.t), EndRec(l, m.t));
    } else if m.Resync? && !u.known && u.owner in {"", m.src} {
      var hits := Hits(m.live, u.owner == m.src);
      if hits != [] {
        assert Alike(ForgottenRec(u, hits[|hits| - 1], m.t), ForgottenRec(l, hits[|hits| - 1], m.t));
      }
    }
  }

  lemma StepSame(u: Rec, l: Rec, m: Msg)
    requires Alike(u, l) && m.src != ""
    ensures StaySame(u, l, m)
  {
    hide StaySame, Alike;
    if m.Adopt? {
      AdoptSame(u, l, m.src, m.t);
    } else if !m.Sent? {
      EndSame(u, l, m);
    } else if OwnedByOther(Some(u), m.src) {
      LateSame(u, l, m.src, m.x, m.found);
    } else if m.x.gone {
      GoneSame(u, l, m.src, m.x, m.found);
    } else {
      OwnSame(u, l, m.src, m.x, m.found);
    }
  }

  /** What one message does in the phase: both answer alike, and are apart as the next phase says, or they do not. */
  ghost predicate Moves(ph: Phase, u: Option<Rec>, l: Rec, m: Msg) {
    var (a, b) := (Play(u, m), Play(Some(l), m));
    (Next(ph, m).Some? <==> a.1 == b.1) && (Next(ph, m).Some? ==> b.0.Some? && Apart(Next(ph, m).value, a.0, b.0.value))
  }

  lemma OneGone(hits: seq<LiveJourney>, t: TimeMs, s: Sample)
    ensures Gones(hits, t) == [s] <==> |hits| == 1 && ForgottenGone(hits[0], t) == s
  {
    if Gones(hits, t) == [s] {
      assert Gones(hits, t)[0] == s && |Gones(hits, t)| == 1;
    }
  }

  lemma MovesFresh(ph: Phase, u: Option<Rec>, l: Rec, m: Msg)
    requires Apart(ph, u, l) && m.src != "" && ph.Fresh?
    ensures Moves(ph, u, l, m)
  {
    hide NextEnded, NextClaimed, NextPassed, NextFollowed, NextKept;
  }

  lemma MovesEnded(ph: Phase, u: Option<Rec>, l: Rec, m: Msg)
    requires Apart(ph, u, l) && m.src != "" && ph.Ended?
    ensures Moves(ph, u, l, m)
  {
    hide NextFresh, NextClaimed, NextPassed, NextFollowed, NextKept;
  }

  lemma MovesClaimed(ph: Phase, u: Option<Rec>, l: Rec, m: Msg)
    requires Apart(ph, u, l) && m.src != "" && ph.Claimed?
    ensures Moves(ph, u, l, m)
  {
    hide NextFresh, NextEnded, NextPassed, NextFollowed, NextKept;
    if m.Resync? {
      OneGone(Hits(m.live, true), m.t, GoneOf(l, m.t, 0, true));
    }
  }

  lemma MovesPassed(ph: Phase, u: Option<Rec>, l: Rec, m: Msg)
    requires Apart(ph, u, l) && m.src != "" && ph.Passed?
    ensures Moves(ph, u, l, m)
  {
    hide NextFresh, NextEnded, NextClaimed, NextFollowed, NextKept;
    if m.Sent? {
      PassedSent(ph, u, l, m);
    } else if m.Resync? {
      OneGone(Hits(m.live, true), m.t, GoneOf(l, m.t, 0, true));
    }
  }

  lemma PassedSent(ph: Phase, u: Option<Rec>, l: Rec, m: Msg)
    requires Apart(ph, u, l) && m.src != "" && ph.Passed? && m.Sent?
    ensures Moves(ph, u, l, m)
  {
    hide NextFresh, NextEnded, NextClaimed, NextFollowed, NextKept, Carry;
  }

  lemma MovesFollowed(ph: Phase, u: Option<Rec>, l: Rec, m: Msg)
    requires Apart(ph, u, l) && m.src != "" && ph.Followed?
    ensures Moves(ph, u, l, m)
  {
    hide NextFresh, NextEnded, NextClaimed, NextPassed, NextKept;
  }

  lemma MovesKept(ph: Phase, u: Option<Rec>, l: Rec, m: Msg)
    requires Apart(ph, u, l) && m.src != "" && ph.Kept?
    ensures Moves(ph, u, l, m)
  {
    hide NextFresh, NextEnded, NextClaimed, NextPassed, NextFollowed;
  }

  lemma MovesOn(ph: Phase, u: Option<Rec>, l: Rec, m: Msg)
    requires Apart(ph, u, l) && m.src != ""
    ensures Moves(ph, u, l, m)
  {
    hide Moves, Apart;
    match ph {
      case Fresh => MovesFresh(ph, u, l, m);
      case Ended(_) => MovesEnded(ph, u, l, m);
      case Claimed(_, _, _) => MovesClaimed(ph, u, l, m);
      case Passed(_, _, _, _) => MovesPassed(ph, u, l, m);
      case Followed(_, _) => MovesFollowed(ph, u, l, m);
      case Kept(_, _, _) => MovesKept(ph, u, l, m);
      case Same => MovesSame(u, l, m);
    }
  }

  lemma MovesSame(u: Option<Rec>, l: Rec, m: Msg)
    requires Apart(Same, u, l) && m.src != ""
    ensures Moves(Same, u, l, m)
  {
    StepSame(u.value, l, m);
    hide Play, Alike;
  }

  /** Over every run of later messages the leftover and an untracked journey emit the same rows for each message if and
      only if the messages keep it hidden, from whatever phase they are in. */
  lemma {:induction false} RowsTell(ph: Phase, u: Option<Rec>, l: Rec, ms: seq<Msg>)
    requires Apart(ph, u, l) && forall i: nat :: i < |ms| ==> ms[i].src != ""
    ensures Rows(u, ms) == Rows(Some(l), ms) <==> Hidden(ph, ms)
    decreases |ms|
  {
    hide Play, Next, Apart;
    if ms != [] {
      var m := ms[0];
      var a, b := Play(u, m), Play(Some(l), m);
      MovesOn(ph, u, l, m);
      assert Rows(u, ms)[0] == a.1 && Rows(Some(l), ms)[0] == b.1;
      assert Rows(u, ms)[1..] == Rows(a.0, ms[1..]) && Rows(Some(l), ms)[1..] == Rows(b.0, ms[1..]);
      if Next(ph, m).Some? {
        RowsTell(Next(ph, m).value, a.0, b.0.value, ms[1..]);
      }
    }
  }

  /** So it is for the blank record a rollback leaves. */
  lemma LeftoverTells(ms: seq<Msg>)
    requires forall i: nat :: i < |ms| ==> ms[i].src != ""
    ensures Rows(None, ms) == Rows(Some(BLANK), ms) <==> Hidden(Fresh, ms)
  {
    RowsTell(Fresh, None, BLANK, ms);
  }

  /** Only a resync that finds the journey in the store, before any message touches it, can tell. */
  lemma {:induction false} HiddenWithoutResync(ms: seq<Msg>)
    requires forall i: nat :: i < |ms| && ms[i].Resync? ==> Hits(ms[i].live, false) == []
    ensures Hidden(Fresh, ms) && Hidden(Same, ms)
    decreases |ms|
  {
    if ms != [] {
      HiddenWithoutResync(ms[1..]);
    }
  }

  /** After such a resync every way on to tell them apart is there, whatever the store's row: a sample that omits train
      details the row has, a gone whose journey the store still has, a second resync that finds the journey again,
      and, although the samples have all details, a late sample of the source before an adopt. */
  lemma WaysToTell(lj: LiveJourney, a: string, b: string, x: Sample, meta: Meta, t: TimeMs, other: LiveJourney)
    requires a != b && a != "" && b != ""
    ensures !x.gone && Carry(x.meta, lj.meta) != x.meta ==> !Hidden(Ended(lj), [Sent(a, x, None)])
    ensures x.gone ==> !Hidden(Ended(lj), [Sent(a, x, Some(meta))])
    ensures !Hidden(Ended(lj), [Resync(a, t, [Live(other, true)])])
    ensures !x.gone && x.t < t ==> !Hidden(Ended(lj), [Adopt(b, t), Sent(a, x, None)])
  {
    var r := [Live(other, true)];
    assert r[..0] == [] && Hits(r, false) == Hits([], false) + [other];
    var run := [Adopt(b, t), Sent(a, x, None)];
    assert run[1..] == [Sent(a, x, None)];
    assert run[1..][0] == Sent(a, x, None);
  }

  /** A sample with all details ends it: from then on nothing tells them apart. */
  lemma FullSampleEnds(lj: LiveJourney, src: string, x: Sample, found: Option<Meta>, ms: seq<Msg>)
    requires !x.gone && Carry(x.meta, lj.meta) == x.meta
    ensures Hidden(Ended(lj), [Sent(src, x, found)] + ms)
  {
    var run := [Sent(src, x, found)] + ms;
    assert run[1..] == ms;
    SameHides(ms);
  }

  lemma {:induction false} SameHides(ms: seq<Msg>)
    ensures Hidden(Same, ms)
    decreases |ms|
  {
    if ms != [] {
      SameHides(ms[1..]);
    }
  }

  // --- the messages of the tracker ---

  /** The rows of journey id that a resync at t may end. */
  function LiveOf(live: seq<LiveJourney>, region: Region, pending: set<(string, string)>, id: string,
                  t: TimeMs): seq<Live> {
    if live == [] then [] else
      var lj := live[|live| - 1];
      LiveOf(live[..|live| - 1], region, pending, id, t)
      + if lj.meta.id == id && (lj.surface, id) !in pending && lj.t < t then [Live(lj, Has(region, lj.x, lj.y))] else []
  }

  /** What an operation of the tracker means for journey id. */
  function MsgOf(s: State, op: Op, id: string): Option<Msg> {
    match op
    case DoSample(src, x, found) => if x.meta.id == id then Some(Sent(src, x, found)) else None
    case DoAdopt(src, a, t) => if a == id then Some(Adopt(src, t)) else None
    case DoBegin(_) => None
    case DoStopped(src, t) => if IsPlayer(id) then Some(Stop(src, t)) else None
    case DoResynced(src, t, region, live, sofar) =>
      if src !in s.seen || id in s.seen[src] then None else
        var ended := EndOwned(Finished(s, src), src, t, NotIn(s.seen[src])).1;
        Some(Resync(src, t, LiveOf(live, region, Keys(sofar + ended), id, t)))
  }

  /** One stale journey ended. */
  lemma EndsOne(s: State, stale: seq<LiveJourney>, lj: LiveJourney, t: TimeMs, id: string)
    requires Linked(EndStale(s, stale, t).0)
    ensures var s1, r := EndStale(s, stale, t).0, EndStale(s, stale + [lj], t).0;
            && Linked(r) && r.byID == s1.byID
            && RecOf(r, id) == if lj.meta.id == id && lj.t < t
                && RecOf(s1, id).Some? then Some(ForgottenRec(RecOf(s1, id).value, lj, t)) else RecOf(s1, id)
  {
    hide Linked, RecOf, Write;
    assert (stale + [lj])[..|stale|] == stale;
    var s1 := EndStale(s, stale, t).0;
    if lj.t < t {
      var j := RecOf(s1, lj.meta.id);
      var s2 := if j.Some? then Write(s1, lj.meta.id, ForgottenRec(j.value, lj, t)) else s1;
      if j.Some? {
        assert lj.meta.id in s1.byID by { Tracks(s1, lj.meta.id); }
        WriteRec(s1, lj.meta.id, ForgottenRec(j.value, lj, t));
      }
      SetsRec(s2, EndStale(s, stale + [lj], t).0, id, id);
    }
  }

  lemma Tracks(s: State, id: string)
    requires RecOf(s, id).Some?
    ensures id in s.byID
  {}

  lemma {:induction false} StalePlays(s: State, live: seq<LiveJourney>, src: string, region: Region,
                                      resent: set<string>,
                                      pending: set<(string, string)>, id: string, t: TimeMs)
    requires Linked(s) && id !in resent
    ensures var r := EndStale(s, StaleOf(s, live, src, region, resent, pending), t).0;
            var j := RecOf(s, id);
            var hits := Hits(LiveOf(live, region, pending, id, t), j.Some? && j.value.owner == src);
            && Linked(r) && r.byID == s.byID
            && RecOf(r, id) == if j.Some? && !j.value.known && j.value.owner in {"", src} && hits != []
                               then Some(ForgottenRec(j.value, hits[|hits| - 1], t)) else j
  {
    hide Linked, Has, RecOf, EndStale;
    NothingEnds(s, t);
    if live != [] {
      var n := |live| - 1;
      StalePlays(s, live[..n], src, region, resent, pending, id, t);
      var stale := StaleOf(s, live[..n], src, region, resent, pending);
      var lj := live[n];
      if Stale(s, src, region, resent, pending, lj) {
        EndsOne(s, stale, lj, t, id);
      }
      var l0 := LiveOf(live[..n], region, pending, id, t);
      if lj.meta.id == id && (lj.surface, id) !in pending && lj.t < t {
        assert (l0 + [Live(lj, Has(region, lj.x, lj.y))])[..|l0|] == l0;
      } else {
        assert l0 + [] == l0;
      }
    }
  }

  lemma NothingEnds(s: State, t: TimeMs)
    ensures EndStale(s, [], t).0 == s
  {}

  /** Every operation of the tracker does to a journey's record what its message does, unless it forgets the journey;
      and a sample emits the rows of its message. */
  lemma OperationPlays(s: State, max: nat, op: Op, id: string)
    requires Linked(s) && 0 < max
    ensures var r := Apply(s, max, op); var m := MsgOf(s, op, id);
            && Linked(r.0)
            && (id !in r.0.byID || RecOf(r.0, id) == if m.Some? then Play(RecOf(s, id), m.value).0 else RecOf(s, id))
            && (op.DoSample? && m.Some? ==> r.1 == Play(RecOf(s, id), m.value).1)
  {
    hide Linked, Step, AdoptRec, EndOwned, EndStale, StaleOf, Sampled, Adopted;
    match op {
      case DoSample(src, x, found) => SampledRec(s, max, src, x, found, id); SampledRows(s, max, src, x, found);
      case DoAdopt(src, a, t) => AdoptedRec(s, max, src, a, t, id);
      case DoBegin(src) => SetsRec(s, Begun(s, src), id, id);
      case DoStopped(src, t) => StoppedRec(s, src, t, id);
      case DoResynced(src, t, region, live, sofar) => ResyncPlays(s, src, t, region, live, sofar, id);
    }
  }

  lemma SampledRows(s: State, max: nat, src: string, x: Sample, found: Option<Meta>)
    ensures Sampled(s, max, src, x, found).1 == Step(RecOf(s, x.meta.id), src, x, found).out
  {}

  lemma ResyncPlays(s: State, src: string, t: TimeMs, region: Region, live: seq<LiveJourney>, sofar: seq<Sample>,
                    id: string)
    requires Linked(s)
    ensures var r := Resynced(s, src, t, region, live, sofar).0;
            var m := MsgOf(s, DoResynced(src, t, region, live, sofar), id);
            Linked(r) && RecOf(r, id) == if m.Some? then Play(RecOf(s, id), m.value).0 else RecOf(s, id)
  {
    hide Linked, EndStale, StaleOf, Hits, LiveOf, Has;
    if src in s.seen {
      var resent := s.seen[src];
      var s0 := Finished(s, src);
      SetsRec(s, s0, id, id);
      EndOwnedRec(s0, src, t, NotIn(resent));
      var (s1, ended) := EndOwned(s0, src, t, NotIn(resent));
      var pending := Keys(sofar + ended);
      if id in resent {
        StaleSpares(s1, StaleOf(s1, live, src, region, resent, pending), t, id) by {
          ResentSpared(s1, live, src, region, resent, pending, id);
        }
      } else {
        StalePlays(s1, live, src, region, resent, pending, id, t);
      }
    }
  }

  lemma {:induction false} ResentSpared(s: State, live: seq<LiveJourney>, src: string, region: Region,
                                        resent: set<string>,
                                        pending: set<(string, string)>, id: string)
    requires id in resent
    ensures forall lj <- StaleOf(s, live, src, region, resent, pending) :: lj.meta.id != id
  {
    hide Has;
    if live != [] {
      ResentSpared(s, live[..|live| - 1], src, region, resent, pending, id);
    }
  }

  lemma {:induction false} StaleSpares(s: State, stale: seq<LiveJourney>, t: TimeMs, id: string)
    requires Linked(s) && forall lj <- stale :: lj.meta.id != id
    ensures var r := EndStale(s, stale, t).0; Linked(r) && RecOf(r, id) == RecOf(s, id)
  {
    hide Linked, RecOf, EndStale;
    NothingEnds(s, t);
    if stale != [] {
      var n := |stale| - 1;
      StaleSpares(s, stale[..n], t, id);
      EndsOne(s, stale[..n], stale[n], t, id);
      assert stale[..n] + [stale[n]] == stale;
    }
  }
}
