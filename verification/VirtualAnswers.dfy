/** What the virtual device answers, and that its codes undo the capture's. */
module VirtualAnswers {
  import opened Basics
  import opened Events
  import opened Holds
  import opened Devices
  import opened Captures
  import opened VirtualDevices
  import opened VirtualHolds
  import opened DeviceMotions

  /** Each button is written under the very code it is read under. */
  lemma ButtonsUndone(code: Code, button: MouseButton)
    ensures code in BUTTONS && BUTTONS[code] == button <==> code == ButtonCode(button)
    ensures MouseButtonOf(ButtonCode(button)) == Some(button)
    ensures code in BUTTONS <==> MouseButtonOf(code).Some?
  {
  }

  /** The event needs a write to the virtual mouse. */
  predicate WritesMouse(event: InputEvent) {
    match event
    case MouseMove(dx, dy) => dx != 0 || dy != 0
    case Wheel(x, y) => x != 0 || y != 0
    case SmoothWheel(x, y) => x != 0 || y != 0
    case Button(_, _) => true
    case _ => false
  }

  /** And one to the virtual keyboard: every key edge but a press of what is held already. */
  predicate WritesKeyboard(d: VirtualState, event: InputEvent, codes: map<HidUsage, Code>) {
    event.Key? && event.usage in codes && !(event.pressed && KeyboardLine(codes[event.usage]) in d.pressed)
  }

  /**
   * An event succeeds exactly when the injector knows its key and every write it needs got through whole; one
   * that needs no write writes nothing.
   */
  lemma SendSucceedsIff(d: VirtualState, event: InputEvent, codes: map<HidUsage, Code>, w: Writes)
    ensures var r := Send(d, event, codes, w);
            && (r.1 <==>
                  && (event.Key? ==> event.usage in codes)
                  && (WritesMouse(event) ==> w.mouse.Whole?)
                  && (WritesKeyboard(d, event, codes) ==> w.keyboard.Whole?))
            && (!WritesMouse(event) && !WritesKeyboard(d, event, codes) ==> r.0.log == d.log)
            && (!r.1 && !event.Button? && !event.Key? ==> r.0.log == d.log)
  {
    hide EdgeWrites;
    match event
    case SmoothWheel(x, y) =>
      SmoothEmpty(LegacyX, HiResX, d.debtX, x);
      SmoothEmpty(LegacyY, HiResY, d.debtY, y);
      hide SmoothBatch;
    case _ =>
  }

  lemma SmoothEmpty(legacy: Axis, hiRes: Axis, debt: i32, delta: i32)
    ensures SmoothBatch(legacy, hiRes, debt, delta) == [] <==> delta == 0
  {
  }

  /** Letting everything go succeeds exactly when every line held gets through whole, edge and report. */
  lemma ReleaseSucceedsIff(d: VirtualState, w: Writes)
    ensures ReleaseAll(d, w).1 <==>
            && ((exists l :: l in d.pressed && l.MouseLine?) ==> w.mouse.Whole?)
            && ((exists l :: l in d.pressed && l.KeyboardLine?) ==> w.keyboard.Whole?)
  {
  }

  /** A mouse button read under a code is held on the virtual mouse under that code, over every capture run. */
  lemma ButtonsThrough(steps: seq<Step>, hid: map<Code, HidUsage>, codes: map<HidUsage, Code>, code: Code)
    requires Undoes(codes, hid) && code in BUTTONS
    ensures var s := Run(steps, hid);
            MouseLine(code) in DownAfter(Play(s.log, codes).log)
            <==> exists i :: 0 <= i < |s.devices| && ButtonControl(BUTTONS[code]) in s.devices[i].held
  {
    hide Run, Play, DownAfter;
    EndToEnd(steps, hid, codes);
    var s := Run(steps, hid);
    ButtonsUndone(code, BUTTONS[code]);
    forall c | LineOf(c, codes) == Some(MouseLine(code))
      ensures c == ButtonControl(BUTTONS[code])
    {
      ButtonsUndone(code, if c.ButtonControl? then c.button else LeftButton);
    }
    var c := ButtonControl(BUTTONS[code]);
    assert LineOf(c, codes) == Some(MouseLine(code));
  }

  /** And a key read under a code the injector knows back is held on the virtual keyboard under that code. */
  lemma KeysThrough(steps: seq<Step>, hid: map<Code, HidUsage>, codes: map<HidUsage, Code>, code: Code)
    requires Undoes(codes, hid) && code in hid && hid[code] in codes
    ensures var s := Run(steps, hid);
            KeyboardLine(code) in DownAfter(Play(s.log, codes).log)
            <==> exists i :: 0 <= i < |s.devices| && KeyControl(hid[code]) in s.devices[i].held
  {
    hide Run, Play, DownAfter, HeldAfter, Within, Disciplined;
    EndToEnd(steps, hid, codes);
    var s := Run(steps, hid);
    RunIsUnion(steps, hid);
    RunWithin(steps, hid);
    HeldStaysWithin(s.log, hid.Values);
    forall c | c in UnionOf(s.devices) && LineOf(c, codes) == Some(KeyboardLine(code))
      ensures c == KeyControl(hid[code])
    {
      assert c.usage in hid.Values;
      var read :| read in hid && hid[read] == c.usage;
    }
    assert LineOf(KeyControl(hid[code]), codes) == Some(KeyboardLine(code));
  }
}
