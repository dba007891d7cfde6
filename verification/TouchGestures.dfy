/** Touchpad gestures over runs: exactly which touches are taps, and exactly what a report of moving fingers sends. */
module TouchGestures {
  import opened Basics
  import opened Events
  import opened Holds
  import opened Devices
  import opened Touchpads
  import opened TouchContacts

  // ---- taps ----------------------------------------------------------------------------------

  predicate IsTouchKey(raw: Raw) {
    raw.kind == 1 && raw.code == 0x14a
  }

  /** Nothing in the run says the touch began or ended. */
  predicate Touching(raws: seq<Timed>) {
    forall t :: t in raws ==> !IsTouchKey(t.raw)
  }

  /** Nothing in the run is about a mouse button. */
  predicate NoClicks(raws: seq<Timed>) {
    forall t :: t in raws ==> !(t.raw.kind == 1 && 0x110 <= t.raw.code <= 0x114)
  }

  /** The event shows two fingers: the two-finger tool, a second tracked contact, or a report of two. */
  predicate ShowsTwo(d: DeviceState, raw: Raw) {
    || (raw.kind == 1 && raw.code == 0x14d && raw.value != 0)
    || (IsAbs(raw, 0x39) && raw.value >= 0 && |Contacts(TouchAbs(d.touch, raw.code, raw.value).slots)| >= 2)
    || (IsReport(raw) && Fingers(d.touch) == 2)
  }

  predicate ShownTwo(d: DeviceState, raws: seq<Timed>, hid: map<Code, HidUsage>) {
    exists n :: 0 <= n < |raws| && ShowsTwo(After(d, raws[..n], hid), raws[n].raw)
  }

  predicate TouchUnderWay(t: Touchpad) {
    t.touchDown && |t.slots| == 10 && t.slot < 10
  }

  /** The touch under way, as a tap would see it. */
  ghost predicate TapState(
    d: DeviceState, raws: seq<Timed>, hid: map<Code, HidUsage>, start: (Instant, int, int), two: bool)
  {
    var n := After(d, raws, hid);
    && n.kind == d.kind && TouchUnderWay(n.touch)
    && (n.touch.tapStart == if NoClicks(raws) then Some(start) else None)
    && (NoClicks(raws) ==>
          && (n.touch.tapMaxMove <= 24 <==> StayedNear(d, raws, hid, start))
          && (NoButtonHeld(n.held) <==> NoButtonHeld(d.held))
          && (n.touch.tapTwoFinger <==> two || ShownTwo(d, raws, hid)))
  }

  lemma {:induction false} CountIsContacts(slots: seq<Slot>)
    ensures CountDown(slots) == |Contacts(slots)|
  {
    if slots != [] {
      CountIsContacts(slots[..|slots| - 1]);
    }
  }

  /** What one event does to a touch under way. */
  predicate TapNext(d: DeviceState, raw: Raw, n: DeviceState) {
    var click := raw.kind == 1 && 0x110 <= raw.code <= 0x114;
    && n.kind == d.kind && TouchUnderWay(n.touch)
    && n.touch.tapStart == (if click then None else d.touch.tapStart)
    && (!click ==> n.held == d.held)
    && (n.touch.tapTwoFinger <==> d.touch.tapTwoFinger || ShowsTwo(d, raw))
    && (d.touch.tapStart.Some? ==>
          n.touch.tapMaxMove ==
          if IsReport(raw) && SeenAt(d.touch).Some?
          then Max(d.touch.tapMaxMove, Straying(d.touch.tapStart.value, SeenAt(d.touch).value))
          else d.touch.tapMaxMove)
  }

  lemma TapKey(d: DeviceState, t: Timed, hid: map<Code, HidUsage>)
    requires Touch(d.kind) && TouchUnderWay(d.touch) && !IsTouchKey(t.raw) && t.raw.kind == 1
    ensures TapNext(d, t.raw, Process(d, t.raw, hid, t.now).0)
  {
    hide Flush, SeenAt, Straying, Contacts, Fingers;
  }

  lemma TapAbs(d: DeviceState, t: Timed, hid: map<Code, HidUsage>)
    requires Touch(d.kind) && TouchUnderWay(d.touch) && t.raw.kind == 3
    ensures TapNext(d, t.raw, Process(d, t.raw, hid, t.now).0)
  {
    hide Flush, SeenAt, Straying, Contacts, Fingers, CountDown;
    CountIsContacts(TouchAbs(d.touch, t.raw.code, t.raw.value).slots);
    assert EffectOf(d, t.raw, hid, t.now) == Effect.Nothing;
  }

  lemma TapReport(d: DeviceState, t: Timed, hid: map<Code, HidUsage>)
    requires Touch(d.kind) && TouchUnderWay(d.touch) && IsReport(t.raw)
    ensures TapNext(d, t.raw, Process(d, t.raw, hid, t.now).0)
  {
    hide Flush, PointerFrame, PanFrame, Contacts, Fingers;
  }

  lemma TapStep(d: DeviceState, t: Timed, hid: map<Code, HidUsage>)
    requires Touch(d.kind) && TouchUnderWay(d.touch) && !IsTouchKey(t.raw)
    ensures TapNext(d, t.raw, Process(d, t.raw, hid, t.now).0)
  {
    if t.raw.kind == 1 {
      TapKey(d, t, hid);
      hide Process, TapNext;
    } else if t.raw.kind == 3 {
      TapAbs(d, t, hid);
      hide Process, TapNext;
    } else if IsReport(t.raw) {
      TapReport(d, t, hid);
      hide Process, TapNext;
    } else {
      hide Flush, RelFrame, SeenAt, Straying, Contacts, Fingers;
    }
  }

  lemma NoClicksSnoc(raws: seq<Timed>)
    requires raws != []
    ensures var n := |raws| - 1;
            NoClicks(raws) <==> NoClicks(raws[..n]) && !(raws[n].raw.kind == 1 && 0x110 <= raws[n].raw.code <= 0x114)
    ensures Touching(raws) ==> Touching(raws[..|raws| - 1]) && !IsTouchKey(raws[|raws| - 1].raw)
  {
    var n := |raws| - 1;
    assert raws == raws[..n] + [raws[n]];
  }

  lemma NearSnoc(d: DeviceState, raws: seq<Timed>, hid: map<Code, HidUsage>, start: (Instant, int, int))
    requires raws != []
    ensures var n := |raws| - 1;
            var seen := SeenAt(After(d, raws[..n], hid).touch);
            StayedNear(d, raws, hid, start) <==>
              StayedNear(d, raws[..n], hid, start)
              && (IsReport(raws[n].raw) && seen.Some? ==> Straying(start, seen.value) <= 24)
  {
    hide After, SeenAt, Straying;
    var n := |raws| - 1;
    forall k | 0 <= k < n
      ensures raws[..n][..k] == raws[..k] && raws[..n][k] == raws[k]
    {
    }
    if StayedNear(d, raws, hid, start) {
      forall k | 0 <= k < n && IsReport(raws[..n][k].raw)
        ensures var seen := SeenAt(After(d, raws[..n][..k], hid).touch);
                seen.Some? ==> Straying(start, seen.value) <= 24
      {
        assert IsReport(raws[k].raw);
      }
      assert IsReport(raws[n].raw) ==> 0 <= n < |raws|;
    }
  }

  lemma TwoSnoc(d: DeviceState, raws: seq<Timed>, hid: map<Code, HidUsage>)
    requires raws != []
    ensures var n := |raws| - 1;
            ShownTwo(d, raws, hid) <==> ShownTwo(d, raws[..n], hid) || ShowsTwo(After(d, raws[..n], hid), raws[n].raw)
  {
    hide After, ShowsTwo;
    var n := |raws| - 1;
    forall k | 0 <= k < n
      ensures ShowsTwo(After(d, raws[..n][..k], hid), raws[..n][k].raw)
          <==> ShowsTwo(After(d, raws[..k], hid), raws[k].raw)
    {
      assert raws[..n][..k] == raws[..k];
    }
  }

  lemma {:induction false} TapTracks(
    d: DeviceState, raws: seq<Timed>, hid: map<Code, HidUsage>, start: (Instant, int, int), two: bool)
    requires Touch(d.kind) && TouchUnderWay(d.touch) && Touching(raws)
    requires d.touch.tapStart == Some(start) && d.touch.tapMaxMove == 0 && d.touch.tapTwoFinger == two
    ensures TapState(d, raws, hid, start, two)
  {
    if raws != [] {
      var n := |raws| - 1;
      NoClicksSnoc(raws);
      TapTracks(d, raws[..n], hid, start, two);
      NearSnoc(d, raws, hid, start);
      TwoSnoc(d, raws, hid);
      hide NoClicks, Touching, StayedNear, ShownTwo, ShowsTwo, SeenAt, Straying, Process;
      TapStep(After(d, raws[..n], hid), raws[n], hid);
    }
  }

  /** The last word on the touch was that it began. */
  predicate TouchedLast(raws: seq<Timed>) {
    if raws == [] then false
    else
      var last := raws[|raws| - 1].raw;
      if IsTouchKey(last) then last.value != 0 else TouchedLast(raws[..|raws| - 1])
  }

  lemma TouchKeyOnly(d: DeviceState, t: Timed, hid: map<Code, HidUsage>)
    requires Touch(d.kind)
    ensures Process(d, t.raw, hid, t.now).0.touch.touchDown
        == if IsTouchKey(t.raw) then t.raw.value != 0 else d.touch.touchDown
  {
    hide PointerFrame, PanFrame, RelFrame, Flush, EffectOf, Contacts, CountDown, Fingers;
  }

  lemma {:induction false} TouchedIff(kind: Kind, raws: seq<Timed>, hid: map<Code, HidUsage>)
    requires Touch(kind)
    ensures After(Opened(kind), raws, hid).touch.touchDown <==> TouchedLast(raws)
  {
    if raws != [] {
      var n := |raws| - 1;
      TouchedIff(kind, raws[..n], hid);
      KindKept(Opened(kind), raws[..n], hid);
      TouchKeyOnly(After(Opened(kind), raws[..n], hid), raws[n], hid);
      hide Process;
    }
  }

  lemma TapBegins(d: DeviceState, pressed: i32, began: Instant, hid: map<Code, HidUsage>)
    requires Touch(d.kind) && !d.touch.touchDown && |d.touch.slots| == 10 && d.touch.slot < 10 && pressed != 0
    ensures var n := Process(d, Raw(1, 0x14a, pressed), hid, began).0;
            && n.kind == d.kind && n.held == d.held && TouchUnderWay(n.touch)
            && n.touch.tapStart == Some((began, d.touch.absX, d.touch.absY)) && n.touch.tapMaxMove == 0
            && (n.touch.tapTwoFinger <==> d.touch.toolFingers >= 2)
  {
    hide Flush, Contacts;
  }

  /** A press of a button and its release. */
  function Click(button: MouseButton): seq<InputEvent> {
    [Button(button, true), Button(button, false)]
  }

  lemma LiftClicks(d: DeviceState, hid: map<Code, HidUsage>, lifted: Instant)
    requires Touch(d.kind) && d.touch.touchDown
    ensures Process(d, Raw(1, 0x14a, 0), hid, lifted).1
         == if d.touch.tapStart.Some? && Elapsed(d.touch.tapStart.value.0, lifted) <= 180 * MILLISECOND
               && d.touch.tapMaxMove <= 24 && NoButtonHeld(d.held)
            then Click(if d.touch.tapTwoFinger then RightButton else LeftButton)
            else []
  {
    hide Flush, Contacts;
  }

  /**
   * Exactly which touches tap: over every run, one that lasted at most 180 ms, that every report saw within 24 units
   * of the position last reported when it began, with no button clicked meanwhile or held. It is a right click
   * exactly when two fingers were down when it began or shown since.
   */
  lemma TapIff(
    kind: Kind, before: seq<Timed>, pressed: i32, began: Instant, raws: seq<Timed>, lifted: Instant,
    hid: map<Code, HidUsage>)
    requires Touch(kind) && !TouchedLast(before) && pressed != 0 && Touching(raws)
    ensures var d := After(Opened(kind), before, hid);
            var touched := Process(d, Raw(1, 0x14a, pressed), hid, began).0;
            var start := (began, LastAcross(before), LastAlong(before));
            Process(After(touched, raws, hid), Raw(1, 0x14a, 0), hid, lifted).1
            == if Elapsed(began, lifted) <= 180 * MILLISECOND && StayedNear(touched, raws, hid, start)
                  && NoClicks(raws) && NoButtonHeld(d.held)
               then Click(if d.touch.toolFingers >= 2 || ShownTwo(touched, raws, hid) then RightButton else LeftButton)
               else []
  {
    hide After, Process, NoClicks, StayedNear, ShownTwo, Touching, TouchedLast, LastAcross, LastAlong;
    var d := After(Opened(kind), before, hid);
    ContactsFollow(kind, before, hid);
    KindKept(Opened(kind), before, hid);
    TouchedIff(kind, before, hid);
    TapBegins(d, pressed, began, hid);
    var touched := Process(d, Raw(1, 0x14a, pressed), hid, began).0;
    TapTracks(touched, raws, hid, (began, d.touch.absX, d.touch.absY), d.touch.toolFingers >= 2);
    LiftClicks(After(touched, raws, hid), hid, lifted);
  }

  // ---- motion --------------------------------------------------------------------------------

  /** What a stroke of one finger moves: twice as far, three times beyond 6 units, four beyond 16, and jumps nothing. */
  function Stroke(from: (int, int), to: (int, int)): seq<InputEvent> {
    var mx, my := to.0 - from.0, to.1 - from.1;
    var gain := if Abs(mx) + Abs(my) > 16 then 4 else if Abs(mx) + Abs(my) > 6 then 3 else 2;
    if (mx == 0 && my == 0) || Abs(mx) > 300 || Abs(my) > 300 then [] else [MouseMove(gain * mx, gain * my)]
  }

  /** How a stroke of two fingers scrolls: four times as far, on the axis it is longer on, downward strokes down. */
  function Swipe(from: (int, int), to: (int, int)): seq<InputEvent> {
    var sx, sy := to.0 - from.0, to.1 - from.1;
    if (sx == 0 && sy == 0) || Abs(sx) > 300 || Abs(sy) > 300 then []
    else if Abs(sy) >= Abs(sx) then [SmoothWheel(0, -4 * sy)]
    else [SmoothWheel(4 * sx, 0)]
  }

  /** A touchpad that reports no relative motion of its own. */
  predicate PureTouch(kind: Kind) {
    Touch(kind) && !kind.mouse
  }

  predicate NoReports(raws: seq<Timed>) {
    forall t :: t in raws ==> !IsReport(t.raw)
  }

  lemma QuietKeeps(d: DeviceState, t: Timed, hid: map<Code, HidUsage>)
    requires PureTouch(d.kind) && !IsTouchKey(t.raw) && !IsReport(t.raw)
    ensures var n := Process(d, t.raw, hid, t.now).0;
            && n.kind == d.kind && n.frame == d.frame
            && n.touch.lastSingle == d.touch.lastSingle && n.touch.lastTwoMid == d.touch.lastTwoMid
  {
    hide PointerFrame, PanFrame, RelFrame, Flush, EffectOf, Contacts, CountDown, Fingers;
  }

  lemma {:induction false} QuietRun(d: DeviceState, raws: seq<Timed>, hid: map<Code, HidUsage>)
    requires PureTouch(d.kind) && Touching(raws) && NoReports(raws)
    ensures var n := After(d, raws, hid);
            && n.kind == d.kind && n.frame == d.frame
            && n.touch.lastSingle == d.touch.lastSingle && n.touch.lastTwoMid == d.touch.lastTwoMid
  {
    if raws != [] {
      var n := |raws| - 1;
      assert raws[n] in raws;
      QuietRun(d, raws[..n], hid);
      QuietKeeps(After(d, raws[..n], hid), raws[n], hid);
      hide Process;
    }
  }

  /** What a report remembers, and what it makes of what the report before it remembered. */
  lemma ReportKeeps(d: DeviceState, report: Raw, hid: map<Code, HidUsage>, now: Instant)
    requires PureTouch(d.kind) && IsReport(report) && d.frame == EMPTY_FRAME
    ensures var p, fingers := Process(d, report, hid, now), Fingers(d.touch);
            && p.0.kind == d.kind && p.0.frame == EMPTY_FRAME
            && p.0.touch.lastSingle == (if fingers == 1 then SeenAt(d.touch) else None)
            && p.0.touch.lastTwoMid == (if fingers == 2 then SeenAt(d.touch) else None)
            && p.1 == if fingers == 1 then Flush(PointerOr(d.touch.lastSingle, SeenAt(d.touch)))
                      else if fingers == 2 then Flush(PanOr(d.touch.lastTwoMid, SeenAt(d.touch)))
                      else []
  {
    hide PointerFrame, PanFrame, RelFrame, EffectOf, Contacts, Fingers;
  }

  function PointerOr(last: Option<(int, int)>, seen: Option<(int, int)>): Frame {
    if seen.None? then EMPTY_FRAME else PointerFrame(EMPTY_FRAME, last, seen.value.0, seen.value.1)
  }

  function PanOr(last: Option<(int, int)>, seen: Option<(int, int)>): Frame {
    if seen.None? then EMPTY_FRAME else PanFrame(EMPTY_FRAME, last, seen.value.0, seen.value.1)
  }

  lemma StrokeIsPointer(from: (int, int), to: (int, int))
    ensures Flush(PointerFrame(EMPTY_FRAME, Some(from), to.0, to.1)) == Stroke(from, to)
    ensures Flush(PointerFrame(EMPTY_FRAME, None, to.0, to.1)) == []
  {
  }

  lemma SwipeIsPan(from: (int, int), to: (int, int))
    ensures Flush(PanFrame(EMPTY_FRAME, Some(from), to.0, to.1)) == Swipe(from, to)
    ensures Flush(PanFrame(EMPTY_FRAME, None, to.0, to.1)) == []
  {
  }

  /**
   * Between two reports of one touch a touchpad sends the stroke of the one finger both saw, the swipe of the
   * two fingers both saw, and nothing when their number changed.
   */
  lemma ReportSends(
    d: DeviceState, first: Raw, at: Instant, raws: seq<Timed>, second: Raw, now: Instant, hid: map<Code, HidUsage>)
    requires PureTouch(d.kind) && d.frame == EMPTY_FRAME && IsReport(first) && IsReport(second)
    requires Touching(raws) && NoReports(raws)
    ensures var e := After(Process(d, first, hid, at).0, raws, hid);
            var before, after := SeenAt(d.touch), SeenAt(e.touch);
            Process(e, second, hid, now).1
            == if Fingers(d.touch) == 1 && Fingers(e.touch) == 1 then Stroke(before.value, after.value)
               else if Fingers(d.touch) == 2 && Fingers(e.touch) == 2 then Swipe(before.value, after.value)
               else []
  {
    ReportKeeps(d, first, hid, at);
    var p := Process(d, first, hid, at).0;
    QuietRun(p, raws, hid);
    var e := After(p, raws, hid);
    ReportKeeps(e, second, hid, now);
    hide Process, After, Fingers, PointerFrame, PanFrame, Flush, Stroke, Swipe;
    var before, after := SeenAt(d.touch), SeenAt(e.touch);
    if after.Some? {
      StrokeIsPointer(if before.Some? then before.value else (0, 0), after.value);
      SwipeIsPan(if before.Some? then before.value else (0, 0), after.value);
    }
  }

  // ---- between touches -----------------------------------------------------------------------

  predicate Forgotten(t: Touchpad) {
    t.lastSingle.None? && t.lastTwoMid.None?
  }

  lemma ForgottenStays(d: DeviceState, t: Timed, hid: map<Code, HidUsage>)
    requires PureTouch(d.kind) && !IsReport(t.raw)
    ensures var n := Process(d, t.raw, hid, t.now).0;
            && n.kind == d.kind && n.frame == d.frame && (Forgotten(d.touch) ==> Forgotten(n.touch))
            && (IsTouchKey(t.raw) && t.raw.value == 0 && d.touch.touchDown ==> Forgotten(n.touch))
  {
    hide PointerFrame, PanFrame, RelFrame, Flush, EffectOf, Contacts, CountDown, Fingers;
  }

  /** The touch was lifted at some event of the run. */
  predicate Lifted(d: DeviceState, raws: seq<Timed>, hid: map<Code, HidUsage>) {
    exists n :: 0 <= n < |raws| && IsTouchKey(raws[n].raw) && raws[n].raw.value == 0
      && After(d, raws[..n], hid).touch.touchDown
  }

  lemma LiftedSnoc(d: DeviceState, raws: seq<Timed>, hid: map<Code, HidUsage>)
    requires raws != []
    ensures var n := |raws| - 1;
            Lifted(d, raws, hid) <==>
              || Lifted(d, raws[..n], hid)
              || (IsTouchKey(raws[n].raw) && raws[n].raw.value == 0 && After(d, raws[..n], hid).touch.touchDown)
  {
    hide After, IsTouchKey;
    var n := |raws| - 1;
    forall k | 0 <= k < n
      ensures raws[..n][..k] == raws[..k] && raws[..n][k] == raws[k]
    {
    }
  }

  lemma {:induction false} LiftForgets(d: DeviceState, raws: seq<Timed>, hid: map<Code, HidUsage>)
    requires PureTouch(d.kind) && NoReports(raws)
    ensures var n := After(d, raws, hid);
            n.kind == d.kind && n.frame == d.frame && (Lifted(d, raws, hid) ==> Forgotten(n.touch))
  {
    hide Process, Forgotten, Lifted, IsTouchKey, PureTouch;
    if raws != [] {
      var n := |raws| - 1;
      NoReportsSnoc(raws);
      hide NoReports;
      LiftForgets(d, raws[..n], hid);
      LiftedSnoc(d, raws, hid);
      ForgottenStays(After(d, raws[..n], hid), raws[n], hid);
    } else {
      NotLifted(d, hid);
    }
  }

  lemma NoReportsSnoc(raws: seq<Timed>)
    requires NoReports(raws) && raws != []
    ensures NoReports(raws[..|raws| - 1]) && !IsReport(raws[|raws| - 1].raw)
  {
    assert raws[|raws| - 1] in raws;
  }

  lemma NotLifted(d: DeviceState, hid: map<Code, HidUsage>)
    ensures !Lifted(d, [], hid)
  {
  }

  /** No jump from one touch to the next: after a lift the first report of fingers sends nothing. */
  lemma FreshTouchSends(d: DeviceState, raws: seq<Timed>, report: Raw, now: Instant, hid: map<Code, HidUsage>)
    requires PureTouch(d.kind) && d.frame == EMPTY_FRAME && NoReports(raws) && Lifted(d, raws, hid) && IsReport(report)
    ensures Process(After(d, raws, hid), report, hid, now).1 == []
  {
    LiftForgets(d, raws, hid);
    var e := After(d, raws, hid);
    ReportKeeps(e, report, hid, now);
    hide Process, After, Lifted, Fingers, PointerFrame, PanFrame, Flush;
    if SeenAt(e.touch).Some? {
      StrokeIsPointer((0, 0), SeenAt(e.touch).value);
      SwipeIsPan((0, 0), SeenAt(e.touch).value);
    }
  }
}
