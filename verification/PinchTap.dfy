/** The multitouch tap: pinch derived from two tracked contacts, at most one gesture event per poll. */
module PinchTaps {
  import opened Basics
  import opened Events
  import opened Devices
  import opened PtpPans

  const ENGAGE_UNITS := 192
  const SCROLL_DOMINANCE := 2
  const SCROLL_NOISE_FLOOR := 4
  const TAKEOVER_FRAMES := 5
  const DETENT_LIMIT := 1000

  datatype PinchSpec = PinchSpec(
    anchor: Option<int>, prev: Option<int>, prevMid: Option<(int, int)>,
    acc: int, units: int, engaged: bool, streak: nat)

  function Spread(a: Contact, b: Contact): nat {
    Abs(a.0 - b.0) + Abs(a.1 - b.1)
  }

  function SpreadStep(p: PinchSpec, spread: nat): int {
    if p.prev.Some? then spread - p.prev.value else 0
  }

  function MidStep(p: PinchSpec, mid: (int, int)): nat {
    if p.prevMid.Some? then Abs(mid.0 - p.prevMid.value.0) + Abs(mid.1 - p.prevMid.value.1) else 0
  }

  /** The frame is scroll: the midpoint clearly outran the spread. */
  predicate Scrolls(p: PinchSpec, contacts: seq<Contact>)
    requires |contacts| == 2
  {
    var midStep := MidStep(p, Midpoint(contacts[0], contacts[1]));
    midStep >= SCROLL_NOISE_FLOOR && midStep > Abs(SpreadStep(p, Spread(contacts[0], contacts[1]))) * SCROLL_DOMINANCE
  }

  function Reset(p: PinchSpec): PinchSpec {
    p.(anchor := None, prev := None, prevMid := None, acc := 0, engaged := false, streak := 0)
  }

  function Detents(units: int, acc: int): int {
    TruncDiv(acc, Max(units, 1))
  }

  /** The zoom one report emits, and whether a gesture just ended. */
  function Fed(p: PinchSpec, contacts: seq<Contact>): (PinchSpec, (int, bool)) {
    if |contacts| != 2 then (Reset(p), (0, p.engaged))
    else
      var spread, mid := Spread(contacts[0], contacts[1]), Midpoint(contacts[0], contacts[1]);
      var seen := p.(prev := Some(spread), prevMid := Some(mid));
      if p.anchor.None? then (seen.(anchor := Some(spread)), (0, false))
      else if Scrolls(p, contacts) then
        if p.engaged && p.streak + 1 >= TAKEOVER_FRAMES
        then (seen.(anchor := Some(spread), engaged := false, streak := 0, acc := 0), (0, true))
        else (seen.(anchor := Some(spread), streak := p.streak + 1), (0, false))
      else
        var engaged := p.engaged || Abs(spread - p.anchor.value) >= ENGAGE_UNITS;
        if !engaged then (seen.(streak := 0), (0, false))
        else
          var acc := p.acc + SpreadStep(p, spread);
          var detents := Detents(p.units, acc);
          (seen.(streak := 0, engaged := true, acc := acc - detents * Max(p.units, 1)),
           (Clamp(detents, -DETENT_LIMIT, DETENT_LIMIT) * 120, false))
  }

  class PinchState {
    var anchor: Option<int>
    var prev: Option<int>
    var prevMid: Option<(int, int)>
    var acc: int
    const units: int
    var engaged: bool
    var streak: nat

    function State(): PinchSpec
      reads this
    {
      PinchSpec(anchor, prev, prevMid, acc, units, engaged, streak)
    }

    constructor (units: int)
      ensures State() == PinchSpec(None, None, None, 0, units, false, 0)
    {
      this.units := units;
      anchor, prev, prevMid, acc, engaged, streak := None, None, None, 0, false, 0;
    }

    /** One committed snapshot of the contacts. */
    method Feed(contacts: seq<Contact>) returns (zoom: int, ended: bool)
      modifies this
      ensures (State(), (zoom, ended)) == Fed(old(State()), contacts)
    {
      hide Spread, Midpoint, Detents, Clamp;
      if |contacts| != 2 {
        ended := engaged;
        anchor, prev, prevMid, acc, engaged, streak := None, None, None, 0, false, 0;
        return 0, ended;
      }
      var spread, mid := Spread(contacts[0], contacts[1]), Midpoint(contacts[0], contacts[1]);
      if anchor.None? {
        anchor, prev, prevMid := Some(spread), Some(spread), Some(mid);
        return 0, false;
      }
      var step := SpreadStep(State(), spread);
      var midStep := MidStep(State(), mid);
      prev, prevMid := Some(spread), Some(mid);
      if midStep >= SCROLL_NOISE_FLOOR && midStep > Abs(step) * SCROLL_DOMINANCE {
        streak := streak + 1;
        anchor := Some(spread);
        if engaged && streak >= TAKEOVER_FRAMES {
          engaged, streak, acc := false, 0, 0;
          return 0, true;
        }
        return 0, false;
      }
      streak := 0;
      if !engaged && Abs(spread - anchor.value) >= ENGAGE_UNITS {
        engaged := true;
      }
      zoom, ended := 0, false;
      if engaged {
        acc := acc + step;
        var detents := Detents(units, acc);
        acc := acc - detents * Max(units, 1);
        zoom := Clamp(detents, -DETENT_LIMIT, DETENT_LIMIT) * 120;
      }
    }
  }

  // ---- what the machine promises -------------------------------------------------------------

  /** A run of snapshots. */
  function Run(p: PinchSpec, frames: seq<seq<Contact>>): PinchSpec {
    if frames == [] then p else Fed(Run(p, frames[..|frames| - 1]), frames[|frames| - 1]).0
  }

  function Created(units: int): PinchSpec {
    PinchSpec(None, None, None, 0, units, false, 0)
  }

  /** What every reachable state satisfies. */
  predicate Sound(p: PinchSpec) {
    && (p.anchor.Some? <==> p.prev.Some?) && (p.prev.Some? <==> p.prevMid.Some?) && (p.engaged ==> p.anchor.Some?)
    && (p.engaged ==> p.streak < 5) && (!p.engaged ==> p.acc == 0) && Abs(p.acc) < Max(p.units, 1)
  }

  lemma DetentsLeave(units: int, acc: int)
    ensures Abs(acc - Detents(units, acc) * Max(units, 1)) < Max(units, 1)
  {
    var u := Max(units, 1);
    DivBounds(Abs(acc), u);
    var q := Abs(acc) / u;
    assert acc >= 0 ==> Detents(units, acc) * u == q * u;
    assert acc < 0 ==> Detents(units, acc) * u == -(q * u);
  }

  lemma SoundKept(p: PinchSpec, contacts: seq<Contact>)
    requires Sound(p)
    ensures Sound(Fed(p, contacts).0)
  {
    if |contacts| == 2 {
      DetentsLeave(p.units, p.acc + SpreadStep(p, Spread(contacts[0], contacts[1])));
    }
    hide Spread, Midpoint, Detents, Scrolls, SpreadStep;
  }

  lemma {:induction false} RunSound(units: int, frames: seq<seq<Contact>>)
    ensures Sound(Run(Created(units), frames))
  {
    if frames != [] {
      RunSound(units, frames[..|frames| - 1]);
      SoundKept(Run(Created(units), frames[..|frames| - 1]), frames[|frames| - 1]);
    }
  }

  /**
   * An end is reported exactly when an engaged pinch stops being one, only an engaged pinch zooms, and
   * below the detent limit the zoom and the remainder together account for the spread that moved.
   */
  lemma FrameAccounts(p: PinchSpec, contacts: seq<Contact>)
    requires Sound(p)
    ensures var q := Fed(p, contacts);
            && (q.1.1 <==> p.engaged && !q.0.engaged)
            && (q.1.0 != 0 ==> q.0.engaged)
            && (q.0.engaged && |contacts| == 2 ==>
                  var moved := if Scrolls(p, contacts) then 0 else SpreadStep(p, Spread(contacts[0], contacts[1]));
                  q.1.0 / 120 * Max(p.units, 1) + q.0.acc == p.acc + moved
                  <==> Abs(Detents(p.units, p.acc + moved)) <= 1000)
  {
    hide Spread, Midpoint;
    if |contacts| == 2 && p.anchor.Some? {
      var u := Max(p.units, 1);
      var moved := if Scrolls(p, contacts) then 0 else SpreadStep(p, Spread(contacts[0], contacts[1]));
      var d := Detents(p.units, p.acc + moved);
      NoDetents(p.units, p.acc);
      hide Scrolls, SpreadStep, Detents;
      ClampedProduct(d, u);
    }
  }

  lemma NoDetents(units: int, acc: int)
    requires Abs(acc) < Max(units, 1)
    ensures Detents(units, acc) == 0
  {
  }

  lemma ClampedProduct(d: int, u: int)
    requires u > 0
    ensures Clamp(d, -1000, 1000) * 120 / 120 == Clamp(d, -1000, 1000)
    ensures Clamp(d, -1000, 1000) * u == d * u <==> Abs(d) <= 1000
  {
    var c := Clamp(d, -1000, 1000);
    if c < d {
      assert c * u < d * u;
    } else if c > d {
      assert c * u > d * u;
    }
  }

  /** Everything a run zoomed. */
  function Zoomed(p: PinchSpec, frames: seq<seq<Contact>>): int {
    if frames == [] then 0
    else
      var n := |frames| - 1;
      Zoomed(p, frames[..n]) + Fed(Run(p, frames[..n]), frames[n]).1.0 / 120
  }

  /** How far the spread moved over a run's frames that were not scroll. */
  function Moved(p: PinchSpec, frames: seq<seq<Contact>>): int {
    if frames == [] then 0
    else
      var n := |frames| - 1;
      var q := Run(p, frames[..n]);
      Moved(p, frames[..n])
      + if |frames[n]| != 2 || Scrolls(q, frames[n]) then 0 else SpreadStep(q, Spread(frames[n][0], frames[n][1]))
  }

  /** The pinch is engaged after every frame of the run, and no frame reaches the detent limit. */
  predicate EngagedThroughout(p: PinchSpec, frames: seq<seq<Contact>>) {
    frames != [] ==>
      var n := |frames| - 1;
      var q := Run(p, frames[..n]);
      && EngagedThroughout(p, frames[..n]) && |frames[n]| == 2 && Fed(q, frames[n]).0.engaged
      && Abs(Detents(q.units, q.acc + if Scrolls(q, frames[n]) then 0
           else SpreadStep(q, Spread(frames[n][0], frames[n][1]))))
         <= 1000
  }

  lemma Accumulates(before: int, z: int, u: int, acc: int, start: int, moved: int, step: int, left: int)
    requires before * u + acc == start + moved && z * u + left == acc + step
    ensures (before + z) * u + left == start + (moved + step)
  {
    assert (before + z) * u == before * u + z * u;
  }

  /** Over an engaged stretch, engaging frame included, zoom and remainder conserve the spread that moved. */
  lemma {:induction false} ZoomConserves(p: PinchSpec, frames: seq<seq<Contact>>)
    requires Sound(p) && EngagedThroughout(p, frames)
    ensures var q := Run(p, frames);
            && Sound(q) && q.units == p.units
            && Zoomed(p, frames) * Max(p.units, 1) + q.acc == p.acc + Moved(p, frames)
  {
    if frames != [] {
      var n := |frames| - 1;
      ZoomConserves(p, frames[..n]);
      var q := Run(p, frames[..n]);
      SoundKept(q, frames[n]);
      FrameAccounts(q, frames[n]);
      UnitsKept(q, frames[n]);
      hide Fed, Scrolls, SpreadStep, Detents, Sound;
      var r := Fed(q, frames[n]);
      var step := if Scrolls(q, frames[n]) then 0 else SpreadStep(q, Spread(frames[n][0], frames[n][1]));
      assert Moved(p, frames) == Moved(p, frames[..n]) + step;
      assert Zoomed(p, frames) == Zoomed(p, frames[..n]) + r.1.0 / 120;
      hide Moved, Zoomed, Run, EngagedThroughout;
      Accumulates(Zoomed(p, frames[..n]), r.1.0 / 120, Max(p.units, 1), q.acc, p.acc, Moved(p, frames[..n]), step,
          r.0.acc);
    }
  }

  lemma UnitsKept(p: PinchSpec, contacts: seq<Contact>)
    ensures Fed(p, contacts).0.units == p.units
  {
  }

  /** The spread's movement since the last scrolling frame or the start of the gesture. */
  function Drift(p: PinchSpec, frames: seq<seq<Contact>>): nat {
    if frames == [] then 0
    else
      var n := |frames| - 1;
      var q := Run(p, frames[..n]);
      if |frames[n]| != 2 || q.anchor.None? || Scrolls(q, frames[n]) then 0
      else Drift(p, frames[..n]) + Abs(SpreadStep(q, Spread(frames[n][0], frames[n][1])))
  }

  /** Until it engages, the anchor is no further from the spread than the drift since the last scroll. */
  lemma {:induction false} AnchorWithinDrift(units: int, frames: seq<seq<Contact>>)
    ensures var q := Run(Created(units), frames);
            Sound(q) && (!q.engaged && q.anchor.Some? ==>
              Abs(q.prev.value - q.anchor.value) <= Drift(Created(units), frames))
  {
    RunSound(units, frames);
    if frames != [] {
      var n := |frames| - 1;
      AnchorWithinDrift(units, frames[..n]);
      hide Spread, Midpoint, Detents;
    }
  }

  /**
   * Scrolling cannot add up to a pinch: the frame that engages is not scroll, and since the last frame
   * that was, or the start of the gesture, the spread has moved at least the engage distance.
   */
  lemma EngagingNeedsDrift(units: int, frames: seq<seq<Contact>>)
    requires frames != []
    requires !Run(Created(units), frames[..|frames| - 1]).engaged && Run(Created(units), frames).engaged
    ensures Drift(Created(units), frames) >= 192
  {
    hide Fed, Scrolls, Spread, SpreadStep;
    var n := |frames| - 1;
    AnchorWithinDrift(units, frames[..n]);
    EngagesPast(Run(Created(units), frames[..n]), frames[n]);
  }

  /** The frame that engages is not scroll, and the spread is the engage distance away from the anchor. */
  lemma EngagesPast(p: PinchSpec, contacts: seq<Contact>)
    requires Sound(p) && !p.engaged && Fed(p, contacts).0.engaged
    ensures |contacts| == 2 && p.anchor.Some? && !Scrolls(p, contacts)
    ensures Abs(p.prev.value - p.anchor.value) + Abs(SpreadStep(p, Spread(contacts[0], contacts[1]))) >= 192
  {
    hide Spread, Midpoint, Detents, Scrolls;
  }

  predicate AllScroll(p: PinchSpec, frames: seq<seq<Contact>>) {
    forall n :: 0 <= n < |frames| ==> |frames[n]| == 2 && Scrolls(Run(p, frames[..n]), frames[n])
  }

  lemma ScrollFrame(p: PinchSpec, contacts: seq<Contact>)
    requires p.engaged && p.anchor.Some? && |contacts| == 2 && Scrolls(p, contacts)
    ensures var q := Fed(p, contacts).0;
            if p.streak + 1 >= 5 then !q.engaged
            else q.engaged && q.anchor.Some? && q.streak == p.streak + 1
  {
    hide Scrolls, Spread, Midpoint;
  }

  /** Scrolling frames count toward the takeover one by one. */
  lemma {:induction false} StreakGrows(p: PinchSpec, frames: seq<seq<Contact>>, n: nat)
    requires Sound(p) && p.engaged && AllScroll(p, frames) && n <= |frames| && n < 5 - p.streak
    ensures var q := Run(p, frames[..n]); q.engaged && q.anchor.Some? && q.streak == p.streak + n
  {
    if n > 0 {
      StreakGrows(p, frames, n - 1);
      assert frames[..n][..n - 1] == frames[..n - 1];
      ScrollFrame(Run(p, frames[..n - 1]), frames[n - 1]);
      hide Fed, Scrolls;
    }
  }

  /**
   * Engaged, the gesture is taken back by scroll frames in a row: at the fifth, counting those already seen,
   * and not before.
   */
  lemma ScrollTakesOver(p: PinchSpec, frames: seq<seq<Contact>>, n: nat)
    requires Sound(p) && p.engaged && AllScroll(p, frames) && n <= |frames| && n <= 5 - p.streak
    ensures Run(p, frames[..n]).engaged <==> n < 5 - p.streak
  {
    if n > 0 {
      StreakGrows(p, frames, n - 1);
      assert frames[..n][..n - 1] == frames[..n - 1];
      ScrollFrame(Run(p, frames[..n - 1]), frames[n - 1]);
      hide Fed, Scrolls;
    }
  }

  // ---- the tap -------------------------------------------------------------------------------

  datatype TapState = TapState(contacts: map<int, Contact>, slot: int, pinch: PinchSpec, pending: Option<InputEvent>)

  lemma HasSlot(s: set<int>)
    requires s != {}
    ensures exists k :: k in s
  {
    assert (forall k :: k !in s) ==> s == {};
  }

  predicate IsLowest(s: set<int>, k: int) {
    k in s && forall j :: j in s ==> k <= j
  }

  lemma LowestOfTwo(s: set<int>, some: int, m: int)
    requires some in s && IsLowest(s - {some}, m)
    ensures IsLowest(s, Min(some, m))
  {
    forall j | j in s
      ensures Min(some, m) <= j
    {
      assert j == some || j in s - {some};
    }
  }

  lemma {:induction false} HasLowest(s: set<int>)
    requires s != {}
    ensures exists k :: IsLowest(s, k)
    decreases |s|
  {
    HasSlot(s);
    var some :| some in s;
    if s - {some} == {} {
      assert s == {some};
      assert IsLowest(s, some);
    } else {
      HasLowest(s - {some});
      hide IsLowest;
      var m :| IsLowest(s - {some}, m);
      LowestOfTwo(s, some, m);
    }
  }

  function Lowest(s: set<int>): (k: int)
    requires s != {}
    ensures k in s && forall j :: j in s ==> k <= j
  {
    HasLowest(s);
    var k :| IsLowest(s, k);
    k
  }

  /** The tracked contacts in slot order. */
  function Snapshot(contacts: map<int, Contact>): seq<Contact>
    decreases |contacts|
  {
    if contacts == map[] then []
    else
      var k := Lowest(contacts.Keys);
      MapShrinks(contacts, k);
      [contacts[k]] + Snapshot(contacts - {k})
  }

  lemma MapShrinks(contacts: map<int, Contact>, k: int)
    requires k in contacts
    ensures |contacts - {k}| < |contacts|
  {
    assert (contacts - {k}).Keys == contacts.Keys - {k};
  }

  function ContactAt(contacts: map<int, Contact>, slot: int): Contact {
    if slot in contacts then contacts[slot] else (0, 0)
  }

  /** The gesture event a report amounts to, if any. */
  function Gesture(zoom: int, ended: bool): Option<InputEvent>
    requires -0x8000_0000 <= zoom <= 0x7fff_ffff
  {
    if zoom != 0 then Some(InputEvent.Pinch(zoom)) else if ended then Some(PinchEnd) else None
  }

  lemma ZoomFits(p: PinchSpec, contacts: seq<Contact>)
    ensures Abs(Fed(p, contacts).1.0) <= DETENT_LIMIT * 120
  {
    hide Spread, Midpoint, Detents, Scrolls, SpreadStep;
  }

  function Reported(t: TapState): Option<InputEvent> {
    ZoomFits(t.pinch, Snapshot(t.contacts));
    var r := Fed(t.pinch, Snapshot(t.contacts));
    Gesture(r.1.0, r.1.1)
  }

  /** One raw event: contacts are tracked, and a report feeds the pinch; the first gesture of a poll wins. */
  function Ingested(t: TapState, raw: Raw): TapState {
    if raw.kind == EV_ABS then
      if raw.code == ABS_MT_SLOT then t.(slot := raw.value)
      else if raw.code == ABS_MT_TRACKING_ID then
        if raw.value >= 0 then t.(contacts := t.contacts[t.slot := ContactAt(t.contacts, t.slot)])
        else t.(contacts := t.contacts - {t.slot})
      else if raw.code == ABS_MT_POSITION_X then
        t.(contacts := t.contacts[t.slot := (raw.value, ContactAt(t.contacts, t.slot).1)])
      else if raw.code == ABS_MT_POSITION_Y then
        t.(contacts := t.contacts[t.slot := (ContactAt(t.contacts, t.slot).0, raw.value)])
      else t
    else if raw.kind == EV_SYN && raw.code == SYN_REPORT then
      t.(pinch := Fed(t.pinch, Snapshot(t.contacts)).0,
         pending := if t.pending.Some? then t.pending else Reported(t))
    else t
  }

  /** A contact is where its slot was last reported, whichever coordinate came first; the others stay. */
  lemma TrackedPosition(t: TapState, slot: i32, x: i32, y: i32, xFirst: bool)
    ensures var across, along := Raw(EV_ABS, ABS_MT_POSITION_X, x), Raw(EV_ABS, ABS_MT_POSITION_Y, y);
            var chosen := Ingested(t, Raw(EV_ABS, ABS_MT_SLOT, slot));
            Ingested(Ingested(chosen, if xFirst then across else along), if xFirst then along else across)
            == t.(slot := slot, contacts := t.contacts[slot := (x, y)])
  {
    hide Snapshot, Fed;
    assert t.contacts[slot := (x, ContactAt(t.contacts, slot).1)][slot := (x, y)] == t.contacts[slot := (x, y)];
    assert t.contacts[slot := (ContactAt(t.contacts, slot).0, y)][slot := (x, y)] == t.contacts[slot := (x, y)];
  }

  class TapDevice {
    const pinch: PinchState
    var contacts: map<int, Contact>
    var slot: int
    var pending: Option<InputEvent>

    ghost function State(): TapState
      reads this, pinch
    {
      TapState(contacts, slot, pinch.State(), pending)
    }

    constructor (units: int)
      ensures State() == TapState(map[], 0, Created(units), None) && fresh(pinch)
    {
      pinch := new PinchState(units);
      contacts, slot, pending := map[], 0, None;
    }

    method Ingest(raw: Raw)
      modifies this, pinch
      ensures State() == Ingested(old(State()), raw)
    {
      hide Fed, Snapshot;
      if raw.kind == EV_ABS {
        if raw.code == ABS_MT_SLOT {
          slot := raw.value;
        } else if raw.code == ABS_MT_TRACKING_ID {
          if raw.value >= 0 {
            contacts := contacts[slot := ContactAt(contacts, slot)];
          } else {
            contacts := contacts - {slot};
          }
        } else if raw.code == ABS_MT_POSITION_X {
          contacts := contacts[slot := (raw.value, ContactAt(contacts, slot).1)];
        } else if raw.code == ABS_MT_POSITION_Y {
          contacts := contacts[slot := (ContactAt(contacts, slot).0, raw.value)];
        }
      } else if raw.kind == EV_SYN && raw.code == SYN_REPORT {
        ZoomFits(pinch.State(), Snapshot(contacts));
        var zoom, ended := pinch.Feed(Snapshot(contacts));
        if pending.None? {
          pending := Gesture(zoom, ended);
        }
      }
    }

    /** Takes the gesture of this poll. */
    method Take() returns (gesture: Option<InputEvent>)
      modifies this`pending
      ensures gesture == old(pending) && pending == None
    {
      gesture := pending;
      pending := None;
    }
  }
}
