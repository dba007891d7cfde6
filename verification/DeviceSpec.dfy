/** One captured evdev device: what each raw event does to it, as functions on values. */
module Devices {
  import opened Basics
  import opened Events
  import opened Holds

  type Code = nat

  const EV_SYN := 0
  const EV_KEY := 1
  const EV_REL := 2
  const EV_ABS := 3
  const SYN_REPORT := 0
  const REL_X := 0x00
  const REL_Y := 0x01
  const REL_HWHEEL := 0x06
  const REL_WHEEL := 0x08
  const REL_WHEEL_HI_RES := 0x0b
  const REL_HWHEEL_HI_RES := 0x0c
  const ABS_X := 0x00
  const ABS_Y := 0x01
  const ABS_MT_SLOT := 0x2f
  const ABS_MT_POSITION_X := 0x35
  const ABS_MT_POSITION_Y := 0x36
  const ABS_MT_TRACKING_ID := 0x39
  const BTN_LEFT := 0x110
  const BTN_RIGHT := 0x111
  const BTN_MIDDLE := 0x112
  const BTN_SIDE := 0x113
  const BTN_EXTRA := 0x114
  const BTN_TOOL_FINGER := 0x145
  const BTN_TOUCH := 0x14a
  const BTN_TOOL_DOUBLETAP := 0x14d
  const BTN_TOOL_TRIPLETAP := 0x14e
  const SLOTS := 10
  const TAP_WINDOW := 180 * MILLISECOND
  const TAP_SLACK := 24
  const JUMP_LIMIT := 300

  datatype Raw = Raw(kind: nat, code: Code, value: i32)

  datatype Slot = Slot(down: bool, x: int, y: int)

  datatype Touchpad = Touchpad(
    slot: nat,
    slots: seq<Slot>,
    absX: int,
    absY: int,
    touchDown: bool,
    toolFingers: nat,
    lastSingle: Option<(int, int)>,
    lastTwoMid: Option<(int, int)>,
    tapStart: Option<(Instant, int, int)>,
    tapMaxMove: int,
    tapTwoFinger: bool,
    rightClickRemapped: bool)

  /** Motion and scroll gathered since the last report. */
  datatype Frame = Frame(dx: i32, dy: i32, scrollX: i32, scrollY: i32, detentX: i32, detentY: i32)

  const EMPTY_FRAME := Frame(0, 0, 0, 0, 0, 0)

  const LIFTED := Slot(false, 0, 0)

  const EMPTY_TOUCHPAD := Touchpad(
    0, [LIFTED, LIFTED, LIFTED, LIFTED, LIFTED, LIFTED, LIFTED, LIFTED, LIFTED, LIFTED],
    0, 0, false, 0, None, None, None, 0, false, false)

  datatype Kind = Kind(keyboard: bool, mouse: bool, touchpad: bool, ownInjector: bool)

  datatype DeviceState = DeviceState(
    kind: Kind,
    touch: Touchpad,
    frame: Frame,
    queue: seq<InputEvent>,
    held: set<Control>)

  function MouseButtonOf(code: Code): Option<MouseButton> {
    if code == BTN_LEFT then Some(LeftButton)
    else if code == BTN_RIGHT then Some(RightButton)
    else if code == BTN_MIDDLE then Some(MiddleButton)
    else if code == BTN_SIDE then Some(BackButton)
    else if code == BTN_EXTRA then Some(ForwardButton)
    else None
  }

  // ---- what a raw event does to what is held -------------------------------------------------

  /** The hold effect of one raw event. */
  datatype Effect = Nothing | Down(c: Control) | Up(c: Control) | Again(usage: HidUsage) | Tap(button: MouseButton)

  predicate NoButtonHeld(held: set<Control>) {
    forall c :: c in held ==> c.KeyControl?
  }

  /** Lifting the finger now completes a tap. */
  predicate TapCompletes(d: DeviceState, now: Instant) {
    && d.touch.touchDown && d.touch.tapStart.Some?
    && Elapsed(d.touch.tapStart.value.0, now) <= TAP_WINDOW
    && d.touch.tapMaxMove <= TAP_SLACK
    && NoButtonHeld(d.held)
  }

  function KeyEffect(d: DeviceState, raw: Raw, hid: map<Code, HidUsage>): Effect {
    if raw.code !in hid then Nothing
    else
      var usage := hid[raw.code];
      if raw.value == 0 then Up(KeyControl(usage))
      else if raw.value == 2 && KeyControl(usage) in d.held then Again(usage)
      else Down(KeyControl(usage))
  }

  /** The button a clickpad press reports: two fingers make a left click a right one, until it is let go. */
  function ClickedButton(t: Touchpad, button: MouseButton, pressed: bool): MouseButton {
    if button == LeftButton && (if pressed then t.toolFingers >= 2 else t.rightClickRemapped) then RightButton
    else button
  }

  predicate IsFingerTool(code: Code) {
    code == BTN_TOOL_FINGER || code == BTN_TOOL_DOUBLETAP || code == BTN_TOOL_TRIPLETAP
  }

  function EffectOf(d: DeviceState, raw: Raw, hid: map<Code, HidUsage>, now: Instant): Effect {
    if d.kind.ownInjector || raw.kind != EV_KEY then Nothing
    else if d.kind.touchpad then
      if raw.code == BTN_TOUCH then
        if raw.value == 0 && TapCompletes(d, now)
        then Tap(if d.touch.tapTwoFinger then RightButton else LeftButton) else Nothing
      else
        var button := MouseButtonOf(raw.code);
        if button.None? then Nothing
        else
          var c := ButtonControl(ClickedButton(d.touch, button.value, raw.value != 0));
          if raw.value != 0 then Down(c) else Up(c)
    else if d.kind.mouse && MouseButtonOf(raw.code).Some? then
      var c := ButtonControl(MouseButtonOf(raw.code).value);
      if raw.value != 0 then Down(c) else Up(c)
    else if d.kind.keyboard then KeyEffect(d, raw, hid)
    else Nothing
  }

  function HeldWith(held: set<Control>, e: Effect): set<Control> {
    match e
    case Down(c) => held + {c}
    case Up(c) => held - {c}
    case _ => held
  }

  /** The events an effect sends through the shared filter. */
  function EventsOf(e: Effect): seq<InputEvent> {
    match e
    case Nothing => []
    case Down(c) => [c.Press()]
    case Up(c) => [c.Release()]
    case Again(_) => []
    case Tap(button) => [Button(button, true), Button(button, false)]
  }

  /** The events an effect queues past the shared filter. */
  function QueuedBy(e: Effect): seq<InputEvent> {
    if e.Again? then [Key(e.usage, true, true)] else []
  }

  // ---- what a raw event does to the touchpad -------------------------------------------------

  function TouchKey(t: Touchpad, code: Code, value: i32, now: Instant): Touchpad {
    if code == BTN_TOUCH then
      var down := value != 0;
      var started :=
        if down && !t.touchDown
        then t.(tapStart := Some((now, t.absX, t.absY)), tapMaxMove := 0, tapTwoFinger := t.toolFingers >= 2)
        else if !down && t.touchDown
        then t.(tapStart := None, lastSingle := None, lastTwoMid := None)
        else t;
      started.(touchDown := down)
    else if code == BTN_TOOL_FINGER then
      if value != 0 && t.toolFingers < 2 then t.(toolFingers := 1)
      else if value == 0 && t.toolFingers == 1 then t.(toolFingers := 0)
      else t
    else if code == BTN_TOOL_DOUBLETAP then
      if value != 0 then t.(toolFingers := 2, tapTwoFinger := true)
      else if t.toolFingers == 2 then t.(toolFingers := 1)
      else t
    else if code == BTN_TOOL_TRIPLETAP then
      if value != 0 then t.(toolFingers := 3)
      else if t.toolFingers == 3 then t.(toolFingers := 1)
      else t
    else if MouseButtonOf(code).Some? then
      var remapped :=
        if MouseButtonOf(code) != Some(LeftButton) then t.rightClickRemapped
        else if value != 0 then t.toolFingers >= 2 || t.rightClickRemapped
        else false;
      t.(tapStart := None, rightClickRemapped := remapped)
    else t
  }

  function CountDown(slots: seq<Slot>): nat {
    if slots == [] then 0
    else CountDown(slots[..|slots| - 1]) + if slots[|slots| - 1].down then 1 else 0
  }

  function TouchAbs(t: Touchpad, code: Code, value: i32): Touchpad {
    if code == ABS_MT_SLOT then if 0 <= value < SLOTS then t.(slot := value) else t
    else if code == ABS_MT_TRACKING_ID then
      if t.slot < |t.slots| then
        var slots := t.slots[t.slot := t.slots[t.slot].(down := value >= 0)];
        t.(slots := slots, tapTwoFinger := t.tapTwoFinger || (value >= 0 && CountDown(slots) >= 2))
      else t
    else if code == ABS_MT_POSITION_X then
      var placed := if t.slot < |t.slots|
          then t.(slots := t.slots[t.slot := t.slots[t.slot].(down := true, x := value)]) else t;
      placed.(absX := value)
    else if code == ABS_MT_POSITION_Y then
      var placed := if t.slot < |t.slots|
          then t.(slots := t.slots[t.slot := t.slots[t.slot].(down := true, y := value)]) else t;
      placed.(absY := value)
    else if code == ABS_X then t.(absX := value)
    else if code == ABS_Y then t.(absY := value)
    else t
  }

  // ---- motion and scroll ---------------------------------------------------------------------

  function RelFrame(f: Frame, code: Code, value: i32): Frame {
    if code == REL_X then f.(dx := SaturateI32(f.dx + value))
    else if code == REL_Y then f.(dy := SaturateI32(f.dy + value))
    else if code == REL_WHEEL then f.(detentY := SaturateI32(f.detentY + value))
    else if code == REL_HWHEEL then f.(detentX := SaturateI32(f.detentX + value))
    else if code == REL_WHEEL_HI_RES then f.(scrollY := SaturateI32(f.scrollY + value))
    else if code == REL_HWHEEL_HI_RES then f.(scrollX := SaturateI32(f.scrollX + value))
    else f
  }

  function Contacts(slots: seq<Slot>): seq<(int, int)> {
    if slots == [] then []
    else
      var last := slots[|slots| - 1];
      Contacts(slots[..|slots| - 1]) + if last.down then [(last.x, last.y)] else []
  }

  function Fingers(t: Touchpad): nat {
    var n := |Contacts(t.slots)|;
    if n > 0 then n else if t.touchDown then Max(t.toolFingers, 1) else 0
  }

  /** How far the touch has strayed from where a tap started. */
  function Strayed(t: Touchpad, x: int, y: int): Touchpad {
    if t.tapStart.None? then t
    else t.(tapMaxMove := Max(t.tapMaxMove, Abs(x - t.tapStart.value.1) + Abs(y - t.tapStart.value.2)))
  }

  function Gain(speed: nat): nat {
    if speed > 16 then 4 else if speed > 6 then 3 else 2
  }

  /** One-finger motion, faster strokes amplified, jumps ignored. */
  function PointerFrame(f: Frame, last: Option<(int, int)>, x: int, y: int): Frame {
    if last.None? then f
    else
      var mx, my := x - last.value.0, y - last.value.1;
      if Abs(mx) > JUMP_LIMIT || Abs(my) > JUMP_LIMIT then f
      else
        var gain := Gain(Abs(mx) + Abs(my));
        f.(dx := SaturateI32(f.dx + mx * gain), dy := SaturateI32(f.dy + my * gain))
  }

  /** Two-finger pan on its dominant axis. */
  function PanFrame(f: Frame, last: Option<(int, int)>, x: int, y: int): Frame {
    if last.None? then f
    else
      var sx, sy := x - last.value.0, y - last.value.1;
      if Abs(sx) > JUMP_LIMIT || Abs(sy) > JUMP_LIMIT then f
      else if Abs(sy) >= Abs(sx) then f.(scrollY := SaturateI32(f.scrollY - sy * 4))
      else f.(scrollX := SaturateI32(f.scrollX + sx * 4))
  }

  /** A report from the touchpad itself. */
  function TouchReport(t: Touchpad, f: Frame): (Touchpad, Frame) {
    var contacts := Contacts(t.slots);
    var fingers := Fingers(t);
    if fingers == 1 then
      var at := if contacts != [] then contacts[0] else (t.absX, t.absY);
      var strayed := Strayed(t.(lastTwoMid := None), at.0, at.1);
      (strayed.(lastSingle := Some(at)), PointerFrame(f, t.lastSingle, at.0, at.1))
    else if fingers == 2 then
      var mid :=
        if |contacts| >= 2
        then (TruncDiv(contacts[0].0 + contacts[1].0, 2), TruncDiv(contacts[0].1 + contacts[1].1, 2))
        else (t.absX, t.absY);
      var strayed := Strayed(t.(lastSingle := None, tapTwoFinger := true), mid.0, mid.1);
      (strayed.(lastTwoMid := Some(mid)), PanFrame(f, t.lastTwoMid, mid.0, mid.1))
    else (t.(lastSingle := None, lastTwoMid := None), f)
  }

  /** What a finished frame sends: motion, then hi-res scroll, or detents only when no hi-res came at all. */
  function Flush(f: Frame): seq<InputEvent> {
    (if f.dx != 0 || f.dy != 0 then [MouseMove(f.dx, f.dy)] else [])
    + if f.scrollX != 0 || f.scrollY != 0 then [SmoothWheel(f.scrollX, f.scrollY)]
      else if f.detentX != 0 || f.detentY != 0
      then [SmoothWheel(SaturateI32(f.detentX * 120), SaturateI32(f.detentY * 120))]
      else []
  }

  // ---- the whole step ------------------------------------------------------------------------

  /** The device after one raw event, and the events it offers to the shared filter. */
  function Process(d: DeviceState, raw: Raw, hid: map<Code, HidUsage>, now: Instant): (DeviceState, seq<InputEvent>) {
    if d.kind.ownInjector then (d, [])
    else if raw.kind == EV_KEY then
      var e := EffectOf(d, raw, hid, now);
      var touch := if d.kind.touchpad then TouchKey(d.touch, raw.code, raw.value, now) else d.touch;
      (d.(touch := touch, held := HeldWith(d.held, e), queue := d.queue + QueuedBy(e)), EventsOf(e))
    else if raw.kind == EV_ABS && d.kind.touchpad then
      (d.(touch := TouchAbs(d.touch, raw.code, raw.value)), [])
    else if raw.kind == EV_REL && d.kind.mouse then
      (d.(frame := RelFrame(d.frame, raw.code, raw.value)), [])
    else if raw.kind == EV_SYN && raw.code == SYN_REPORT then
      var reported := if d.kind.touchpad then TouchReport(d.touch, d.frame) else (d.touch, d.frame);
      (d.(touch := reported.0, frame := EMPTY_FRAME), Flush(reported.1))
    else (d, [])
  }

  /** What a device offers is its hold effect or motion and scroll, never both. */
  lemma ProcessShape(d: DeviceState, raw: Raw, hid: map<Code, HidUsage>, now: Instant)
    ensures var p := Process(d, raw, hid, now);
            var e := EffectOf(d, raw, hid, now);
            && p.0.held == HeldWith(d.held, e) && p.0.queue == d.queue + QueuedBy(e)
            && (p.1 == EventsOf(e) || (e.Nothing? && forall v :: v in p.1 ==> v.MouseMove? || v.SmoothWheel?))
            && (e.Again? ==> KeyControl(e.usage) in d.held)
            && (e.Tap? ==> NoButtonHeld(d.held))
  {
    hide TouchKey, TouchAbs, TouchReport, RelFrame;
  }

  // ---- scroll conservation -------------------------------------------------------------------

  function FlushedX(events: seq<InputEvent>): int {
    if events == [] then 0
    else FlushedX(events[..|events| - 1]) + if events[|events| - 1].SmoothWheel? then events[|events| - 1].scrollX
        else 0
  }

  function FlushedY(events: seq<InputEvent>): int {
    if events == [] then 0
    else FlushedY(events[..|events| - 1]) + if events[|events| - 1].SmoothWheel? then events[|events| - 1].scrollY
        else 0
  }

  /**
   * One canonical unit, never counted twice: a frame that carries hi-res scroll on either axis
   * sends exactly that, and its detents on both axes are dropped; otherwise detents count 120 each.
   */
  lemma FlushScroll(f: Frame)
    ensures var hiRes := f.scrollX != 0 || f.scrollY != 0;
            && FlushedX(Flush(f)) == (if hiRes then f.scrollX else SaturateI32(f.detentX * 120))
            && FlushedY(Flush(f)) == (if hiRes then f.scrollY else SaturateI32(f.detentY * 120))
  {
    var motion: seq<InputEvent> := if f.dx != 0 || f.dy != 0 then [MouseMove(f.dx, f.dy)] else [];
    assert FlushedX(motion) == 0 && FlushedY(motion) == 0;
    var all := Flush(f);
    if |all| > |motion| {
      assert all[..|all| - 1] == motion;
    } else {
      assert all == motion;
    }
  }

  const MOUSE := Kind(false, true, false, false)

  /** In one frame a mouse reports hi-res scroll upward and a detent sideways: the detent is never sent. */
  lemma DetentLost(hid: map<Code, HidUsage>, now: Instant)
    ensures var d := DeviceState(MOUSE, EMPTY_TOUCHPAD, EMPTY_FRAME, [], {});
            var up := Process(d, Raw(EV_REL, REL_WHEEL_HI_RES, 15), hid, now).0;
            var sideways := Process(up, Raw(EV_REL, REL_HWHEEL, 1), hid, now).0;
            var sent := Process(sideways, Raw(EV_SYN, SYN_REPORT, 0), hid, now);
            sent.1 == [SmoothWheel(0, 15)] && sent.0.frame == EMPTY_FRAME && FlushedX(sent.1) == 0
  {
    hide EffectOf, TouchKey, TouchAbs, TouchReport;
    assert [SmoothWheel(0, 15)][..0] == [];
  }
}
