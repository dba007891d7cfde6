/** What the touchpad rules of a captured device promise: clicks pair up, taps were still, motion follows the finger. */
module Touchpads {
  import opened Basics
  import opened Events
  import opened Holds
  import opened Devices

  /** One raw event as it was read. */
  datatype Timed = Timed(raw: Raw, now: Instant)

  function After(d: DeviceState, raws: seq<Timed>, hid: map<Code, HidUsage>): DeviceState {
    if raws == [] then d
    else Process(After(d, raws[..|raws| - 1], hid), raws[|raws| - 1].raw, hid, raws[|raws| - 1].now).0
  }

  // ---- clickpad presses ----------------------------------------------------------------------

  predicate IsLeftKey(raw: Raw) {
    raw.kind == EV_KEY && raw.code == BTN_LEFT
  }

  predicate NoLeftKey(raws: seq<Timed>) {
    forall t :: t in raws ==> !IsLeftKey(t.raw)
  }

  lemma RemapKept(d: DeviceState, t: Timed, hid: map<Code, HidUsage>)
    requires !IsLeftKey(t.raw)
    ensures var n := Process(d, t.raw, hid, t.now).0;
            && n.kind == d.kind
            && n.touch.rightClickRemapped == d.touch.rightClickRemapped
  {
    hide PointerFrame, PanFrame, RelFrame, Flush, EffectOf, Contacts, Fingers;
  }

  lemma {:induction false} RemapKeptAfter(d: DeviceState, raws: seq<Timed>, hid: map<Code, HidUsage>)
    requires NoLeftKey(raws)
    ensures After(d, raws, hid).kind == d.kind
    ensures After(d, raws, hid).touch.rightClickRemapped == d.touch.rightClickRemapped
  {
    if raws != [] {
      var n := |raws| - 1;
      assert raws[n] in raws;
      RemapKeptAfter(d, raws[..n], hid);
      RemapKept(After(d, raws[..n], hid), raws[n], hid);
    }
  }

  /**
   * The button a clickpad press holds is the one its release lets go, however many fingers come and go
   * in between, exactly unless an earlier two-finger press was still down and this one has fewer.
   */
  lemma ClickPairsUpIff(
    d: DeviceState, pressed: i32, down: Instant, between: seq<Timed>, up: Instant, hid: map<Code, HidUsage>)
    requires d.kind.touchpad && !d.kind.ownInjector && pressed != 0 && NoLeftKey(between)
    ensures var press, release := Raw(EV_KEY, BTN_LEFT, pressed), Raw(EV_KEY, BTN_LEFT, 0);
            var held := After(Process(d, press, hid, down).0, between, hid);
            var c := ButtonControl(if d.touch.toolFingers >= 2 then RightButton else LeftButton);
            && EffectOf(d, press, hid, down) == Down(c)
            && (EffectOf(held, release, hid, up) == Up(c) <==> !(d.touch.rightClickRemapped && d.touch.toolFingers < 2))
            && !Process(held, release, hid, up).0.touch.rightClickRemapped
  {
    var press := Raw(EV_KEY, BTN_LEFT, pressed);
    RemapKeptAfter(Process(d, press, hid, down).0, between, hid);
    hide After;
  }

  /** The left button was last reported down. */
  predicate LeftDown(raws: seq<Timed>) {
    if raws == [] then false
    else
      var last := raws[|raws| - 1].raw;
      if IsLeftKey(last) then last.value != 0 else LeftDown(raws[..|raws| - 1])
  }

  /** A device just opened. */
  function Opened(kind: Kind): DeviceState {
    DeviceState(kind, EMPTY_TOUCHPAD, EMPTY_FRAME, [], {})
  }

  /** The remap outlives no press: it is set only while the left button is down. */
  lemma {:induction false} RemapOnlyWhileDown(kind: Kind, raws: seq<Timed>, hid: map<Code, HidUsage>)
    ensures After(Opened(kind), raws, hid).touch.rightClickRemapped ==> LeftDown(raws)
    ensures kind.ownInjector || !kind.touchpad ==> !After(Opened(kind), raws, hid).touch.rightClickRemapped
    ensures After(Opened(kind), raws, hid).kind == kind
  {
    if raws != [] {
      var n := |raws| - 1;
      var before := After(Opened(kind), raws[..n], hid);
      RemapOnlyWhileDown(kind, raws[..n], hid);
      if IsLeftKey(raws[n].raw) {
        LeftKeyRemaps(before, raws[n], hid);
      } else {
        RemapKept(before, raws[n], hid);
      }
      hide Process;
    }
  }

  lemma LeftKeyRemaps(d: DeviceState, t: Timed, hid: map<Code, HidUsage>)
    requires IsLeftKey(t.raw)
    ensures var n := Process(d, t.raw, hid, t.now).0;
            n.kind == d.kind && (n.touch.rightClickRemapped && t.raw.value == 0
                ==> d.kind.ownInjector || !d.kind.touchpad)
            && (d.kind.ownInjector || !d.kind.touchpad ==> n.touch == d.touch)
  {
    hide EffectOf;
  }

  /** So over every run of a touchpad, a click that begins with the button up lets go the button it pressed. */
  lemma ClickPairsUp(
    kind: Kind, before: seq<Timed>, pressed: i32, down: Instant, between: seq<Timed>, up: Instant,
    hid: map<Code, HidUsage>)
    requires kind.touchpad && !kind.ownInjector && pressed != 0 && !LeftDown(before) && NoLeftKey(between)
    ensures var d := After(Opened(kind), before, hid);
            var press, release := Raw(EV_KEY, BTN_LEFT, pressed), Raw(EV_KEY, BTN_LEFT, 0);
            var held := After(Process(d, press, hid, down).0, between, hid);
            var c := ButtonControl(if d.touch.toolFingers >= 2 then RightButton else LeftButton);
            EffectOf(d, press, hid, down) == Down(c) && EffectOf(held, release, hid, up) == Up(c)
  {
    RemapOnlyWhileDown(kind, before, hid);
    ClickPairsUpIff(After(Opened(kind), before, hid), pressed, down, between, up, hid);
    hide After, Process, EffectOf;
  }

  // ---- taps ----------------------------------------------------------------------------------

  /** Where a report sees the finger, or the midpoint of two; none with more or fewer. */
  function SeenAt(t: Touchpad): Option<(int, int)> {
    var contacts, fingers := Contacts(t.slots), Fingers(t);
    if fingers == 1 then Some(if contacts != [] then contacts[0] else (t.absX, t.absY))
    else if fingers == 2 then
      Some(if |contacts| >= 2
           then (TruncDiv(contacts[0].0 + contacts[1].0, 2), TruncDiv(contacts[0].1 + contacts[1].1, 2))
           else (t.absX, t.absY))
    else None
  }

  function Straying(start: (Instant, int, int), at: (int, int)): nat {
    Abs(at.0 - start.1) + Abs(at.1 - start.2)
  }

  predicate IsReport(raw: Raw) {
    raw.kind == EV_SYN && raw.code == SYN_REPORT
  }

  /** Every report of the run saw the touch within the tap slack of where it started. */
  predicate StayedNear(d: DeviceState, raws: seq<Timed>, hid: map<Code, HidUsage>, start: (Instant, int, int)) {
    forall n :: 0 <= n < |raws| && IsReport(raws[n].raw) ==>
      var seen := SeenAt(After(d, raws[..n], hid).touch);
      seen.Some? ==> Straying(start, seen.value) <= 24
  }

  /** While a touch goes on nothing forgets how far it strayed, and each report records it. */
  lemma StrayGrows(d: DeviceState, t: Timed, hid: map<Code, HidUsage>)
    requires d.kind.touchpad && !d.kind.ownInjector && d.touch.touchDown
    ensures var n := Process(d, t.raw, hid, t.now).0;
            n.touch.touchDown && n.touch.tapStart.Some? ==>
              && d.touch.tapStart == n.touch.tapStart && n.touch.tapMaxMove >= d.touch.tapMaxMove
              && (IsReport(t.raw) && SeenAt(d.touch).Some? ==>
                    Straying(n.touch.tapStart.value, SeenAt(d.touch).value) <= n.touch.tapMaxMove)
  {
    hide PointerFrame, PanFrame, RelFrame, Flush, EffectOf, Contacts, CountDown, Fingers, HeldWith, QueuedBy, EventsOf;
  }

  /** The touch has gone on through the whole run. */
  predicate TouchedThroughout(d: DeviceState, raws: seq<Timed>, hid: map<Code, HidUsage>) {
    forall n :: 0 <= n <= |raws| ==> After(d, raws[..n], hid).touch.touchDown
  }

  lemma {:induction false} KindKept(d: DeviceState, raws: seq<Timed>, hid: map<Code, HidUsage>)
    ensures After(d, raws, hid).kind == d.kind
  {
    if raws != [] {
      KindKept(d, raws[..|raws| - 1], hid);
      hide EffectOf, TouchKey, TouchAbs, TouchReport, RelFrame, Flush;
    }
  }

  lemma {:induction false} StrayRemembered(d: DeviceState, raws: seq<Timed>, hid: map<Code, HidUsage>, n: nat)
    requires d.kind.touchpad && !d.kind.ownInjector && TouchedThroughout(d, raws, hid) && n < |raws|
    requires After(d, raws, hid).touch.tapStart.Some?
    requires IsReport(raws[n].raw) && SeenAt(After(d, raws[..n], hid).touch).Some?
    ensures var t := After(d, raws, hid).touch;
            Straying(t.tapStart.value, SeenAt(After(d, raws[..n], hid).touch).value) <= t.tapMaxMove
    decreases |raws|
  {
    hide SeenAt, Process, Straying;
    var last := |raws| - 1;
    var before := After(d, raws[..last], hid);
    KindKept(d, raws[..last], hid);
    assert raws[..|raws|] == raws;
    assert before.touch.touchDown && After(d, raws, hid).touch.touchDown;
    StrayGrows(before, raws[last], hid);
    if n < last {
      assert raws[..last][..n] == raws[..n];
      TouchedPrefix(d, raws, hid, last);
      StrayRemembered(d, raws[..last], hid, n);
    }
  }

  lemma TouchedPrefix(d: DeviceState, raws: seq<Timed>, hid: map<Code, HidUsage>, n: nat)
    requires TouchedThroughout(d, raws, hid) && n <= |raws|
    ensures TouchedThroughout(d, raws[..n], hid)
  {
    hide After;
    forall k | 0 <= k <= n
      ensures After(d, raws[..n][..k], hid).touch.touchDown
    {
      assert raws[..n][..k] == raws[..k];
    }
  }

  /** A tap is only ever reported of a touch that stayed near its start in every report. */
  lemma TapWasStill(d: DeviceState, raws: seq<Timed>, hid: map<Code, HidUsage>, raw: Raw, now: Instant)
    requires d.kind.touchpad && !d.kind.ownInjector && TouchedThroughout(d, raws, hid)
    requires EffectOf(After(d, raws, hid), raw, hid, now).Tap?
    ensures var t := After(d, raws, hid).touch;
            && t.tapStart.Some? && Elapsed(t.tapStart.value.0, now) <= 180 * MILLISECOND
            && StayedNear(d, raws, hid, t.tapStart.value)
  {
    KindKept(d, raws, hid);
    var t := After(d, raws, hid).touch;
    forall n | 0 <= n < |raws| && IsReport(raws[n].raw)
      ensures var seen := SeenAt(After(d, raws[..n], hid).touch);
              seen.Some? ==> Straying(t.tapStart.value, seen.value) <= 24
    {
      if SeenAt(After(d, raws[..n], hid).touch).Some? {
        StrayRemembered(d, raws, hid, n);
      }
    }
  }

  // ---- motion --------------------------------------------------------------------------------

  /** Amplified motion: same direction, between twice and four times as far, machine integers permitting. */
  predicate Amplifies(out: int, finger: int) {
    Signum(out) == Signum(finger) && 2 * Abs(finger) <= Abs(out) <= 4 * Abs(finger)
  }

  /** A moving finger moves the pointer the same way on both axes; a jump moves nothing. */
  lemma PointerFollows(f: Frame, last: (int, int), x: int, y: int)
    requires f.dx == 0 && f.dy == 0
    ensures var g := PointerFrame(f, Some(last), x, y);
            var mx, my := x - last.0, y - last.1;
            && g == f.(dx := g.dx, dy := g.dy)
            && if Abs(mx) <= 300 && Abs(my) <= 300 then Amplifies(g.dx, mx) && Amplifies(g.dy, my)
               else g == f
  {
  }

  /** Two fingers scroll on the axis they move along and never on the other; up scrolls up, right scrolls right. */
  lemma PanDominant(f: Frame, last: (int, int), x: int, y: int)
    requires f.scrollX == 0 && f.scrollY == 0
    ensures var g := PanFrame(f, Some(last), x, y);
            var sx, sy := x - last.0, y - last.1;
            && g == f.(scrollX := g.scrollX, scrollY := g.scrollY)
            && (g.scrollX == 0 || g.scrollY == 0)
            && (g.scrollX != 0 ==> Abs(sx) > Abs(sy) && g.scrollX == 4 * sx)
            && (g.scrollY != 0 ==> Abs(sy) >= Abs(sx) && g.scrollY == -4 * sy)
            && (g == f <==> (sx == 0 && sy == 0) || Abs(sx) > 300 || Abs(sy) > 300)
  {
  }
}
