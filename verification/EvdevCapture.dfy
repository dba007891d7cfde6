/** The capture as it runs: devices that record raw events in place, and the filter they share. */
module EvdevCaptures {
  import opened Basics
  import opened Events
  import opened Holds
  import opened Devices
  import opened Captures

  /** One opened evdev node. */
  class Device {
    const kind: Kind
    var touch: Touchpad
    var frame: Frame
    var queue: seq<InputEvent>
    var held: set<Control>

    ghost function State(): DeviceState
      reads this
    {
      DeviceState(kind, touch, frame, queue, held)
    }

    constructor (kind: Kind)
      ensures State() == DeviceState(kind, EMPTY_TOUCHPAD, EMPTY_FRAME, [], {})
    {
      this.kind := kind;
      touch, frame, queue, held := EMPTY_TOUCHPAD, EMPTY_FRAME, [], {};
    }

    method SetHeld(c: Control, pressed: bool)
      modifies this`held
      ensures held == if pressed then old(held) + {c} else old(held) - {c}
    {
      if pressed {
        held := held + {c};
      } else {
        held := held - {c};
      }
    }

    /** A key event; a typematic repeat of a held key goes straight to the queue. */
    method PushKey(code: Code, value: i32, hid: map<Code, HidUsage>) returns (event: Option<InputEvent>)
      modifies this`held, this`queue
      ensures var e := KeyEffect(old(State()), Raw(EV_KEY, code, value), hid);
              && held == HeldWith(old(held), e) && queue == old(queue) + QueuedBy(e)
              && EventsOf(e) == if event.Some? then [event.value] else []
    {
      if code !in hid {
        return None;
      }
      var usage := hid[code];
      if value == 2 && KeyControl(usage) in held {
        queue := queue + [Key(usage, true, true)];
        return None;
      }
      SetHeld(KeyControl(usage), value != 0);
      return Some(Key(usage, value != 0, false));
    }

    /** A button of a plain mouse. */
    method PushButton(button: MouseButton, pressed: bool) returns (event: InputEvent)
      modifies this`held
      ensures held == (if pressed then old(held) + {ButtonControl(button)} else old(held) - {ButtonControl(button)})
      ensures event == Button(button, pressed)
    {
      SetHeld(ButtonControl(button), pressed);
      return Button(button, pressed);
    }

    /** A key code of the touchpad: contact, tool fingers or a clickpad button. */
    method PushTouchKey(code: Code, value: i32, hid: map<Code, HidUsage>, now: Instant)
      returns (output: seq<InputEvent>)
      requires kind.touchpad && !kind.ownInjector
      modifies this`touch, this`held
      ensures var e := EffectOf(old(State()), Raw(EV_KEY, code, value), hid, now);
              && touch == TouchKey(old(touch), code, value, now)
              && held == HeldWith(old(held), e) && output == EventsOf(e) && QueuedBy(e) == []
    {
      output := [];
      if code == BTN_TOUCH {
        var down := value != 0;
        if down && !touch.touchDown {
          touch := touch.(
            tapStart := Some((now, touch.absX, touch.absY)), tapMaxMove := 0, tapTwoFinger := touch.toolFingers >= 2);
        } else if !down && touch.touchDown {
          var start := touch.tapStart;
          touch := touch.(tapStart := None);
          if start.Some? && Elapsed(start.value.0, now) <= TAP_WINDOW && touch.tapMaxMove <= TAP_SLACK
              && NoButtonHeld(held) {
            var button := if touch.tapTwoFinger then RightButton else LeftButton;
            output := [Button(button, true), Button(button, false)];
          }
          touch := touch.(lastSingle := None, lastTwoMid := None);
        }
        touch := touch.(touchDown := down);
      } else if IsFingerTool(code) {
        touch := TouchKey(touch, code, value, now);
      } else if MouseButtonOf(code).Some? {
        var button := MouseButtonOf(code).value;
        var pressed := value != 0;
        if button == LeftButton {
          if pressed && touch.toolFingers >= 2 {
            button := RightButton;
            touch := touch.(rightClickRemapped := true);
          } else if !pressed && touch.rightClickRemapped {
            button := RightButton;
            touch := touch.(rightClickRemapped := false);
          }
        }
        touch := touch.(tapStart := None);
        SetHeld(ButtonControl(button), pressed);
        output := [Button(button, pressed)];
      }
    }

    /** The end of a frame: what was gathered is sent and cleared. */
    method Report() returns (output: seq<InputEvent>)
      modifies this`touch, this`frame
      ensures var reported := if kind.touchpad then TouchReport(old(touch), old(frame)) else (old(touch), old(frame));
              touch == reported.0 && frame == EMPTY_FRAME && output == Flush(reported.1)
    {
      if kind.touchpad {
        var reported := TouchReport(touch, frame);
        touch, frame := reported.0, reported.1;
      }
      output := [];
      if frame.dx != 0 || frame.dy != 0 {
        output := output + [MouseMove(frame.dx, frame.dy)];
      }
      if frame.scrollX != 0 || frame.scrollY != 0 {
        output := output + [SmoothWheel(frame.scrollX, frame.scrollY)];
      } else if frame.detentX != 0 || frame.detentY != 0 {
        output := output + [SmoothWheel(SaturateI32(frame.detentX * 120), SaturateI32(frame.detentY * 120))];
      }
      frame := EMPTY_FRAME;
    }

    /** One raw event: the device records it and offers what it means to the shared filter. */
    method Process(raw: Raw, hid: map<Code, HidUsage>, now: Instant) returns (output: seq<InputEvent>)
      modifies this
      ensures (State(), output) == Devices.Process(old(State()), raw, hid, now)
    {
      hide TouchKey, TouchAbs, TouchReport, RelFrame, Flush, TapCompletes, ClickedButton, KeyEffect;
      assert queue + [] == queue;
      output := [];
      if kind.ownInjector {
        return;
      }
      if raw.kind == EV_KEY && kind.touchpad {
        output := PushTouchKey(raw.code, raw.value, hid, now);
      } else if raw.kind == EV_ABS && kind.touchpad {
        touch := TouchAbs(touch, raw.code, raw.value);
      } else if raw.kind == EV_KEY && kind.mouse && MouseButtonOf(raw.code).Some? {
        var event := PushButton(MouseButtonOf(raw.code).value, raw.value != 0);
        output := [event];
      } else if raw.kind == EV_KEY && kind.keyboard {
        var event := PushKey(raw.code, raw.value, hid);
        output := if event.Some? then [event.value] else [];
      } else if raw.kind == EV_REL && kind.mouse {
        frame := RelFrame(frame, raw.code, raw.value);
      } else if raw.kind == EV_SYN && raw.code == SYN_REPORT {
        output := Report();
      }
    }
  }

  ghost predicate Distinct(devices: seq<Device>) {
    forall i, j :: 0 <= i < j < |devices| ==> devices[i] != devices[j]
  }

  ghost function States(devices: seq<Device>): (states: seq<DeviceState>)
    reads devices
    ensures |states| == |devices| && forall i :: 0 <= i < |devices| ==> states[i] == devices[i].State()
  {
    if devices == [] then [] else States(devices[..|devices| - 1]) + [devices[|devices| - 1].State()]
  }

  /** All devices, the events already decoded from vanished ones, and what is held altogether. */
  class EvdevCapture {
    var devices: seq<Device>
    var pending: seq<InputEvent>
    var held: set<Control>
    ghost var log: seq<InputEvent>

    ghost predicate Valid()
      reads this
    {
      Distinct(devices)
    }

    ghost function State(): CaptureState
      reads this, devices
    {
      CaptureState(States(devices), pending, held, log)
    }

    constructor ()
      ensures Valid() && State() == NOTHING_PLUGGED
    {
      devices, pending, held, log := [], [], {}, [];
    }

    /** Opens one more device. */
    method Open(kind: Kind)
      requires Valid()
      modifies this
      ensures Valid() && State() == Plug(old(State()), kind)
    {
      var device := new Device(kind);
      devices := devices + [device];
      assert State().devices == old(State().devices) + [device.State()];
    }

    method IsHeldElsewhere(source: nat, c: Control) returns (found: bool)
      ensures found == HeldElsewhere(States(devices), source, c)
    {
      var k := 0;
      while k < |devices|
        invariant 0 <= k <= |devices|
        invariant forall j :: 0 <= j < k && j != source ==> c !in devices[j].held
      {
        if k != source && c in devices[k].held {
          assert c in States(devices)[k].held;
          return true;
        }
        k := k + 1;
      }
      return false;
    }

    /** The shared filter: presses of the unheld, releases no other device objects to, and all the rest. */
    method AcceptEvent(source: nat, event: InputEvent) returns (accepted: bool)
      requires Valid()
      modifies this`held, this`log
      ensures accepted == Accepts(old(State()), source, event)
      ensures State() == Accept(old(State()), source, event)
    {
      hide HeldElsewhere, States, Valid;
      var c := ControlOf(event);
      if c.None? {
        accepted := true;
      } else if event.pressed {
        accepted := c.value !in held;
        held := held + {c.value};
      } else {
        var elsewhere := IsHeldElsewhere(source, c.value);
        accepted := !elsewhere && c.value in held;
        if accepted {
          held := held - {c.value};
        }
      }
      if accepted {
        log := log + [event];
      }
    }

    /** The filter over everything one raw event produced; returns what it let through. */
    method AcceptProduced(source: nat, produced: seq<InputEvent>) returns (accepted: seq<InputEvent>)
      requires Valid()
      modifies this`held, this`log
      ensures (State(), accepted) == AcceptAll(old(State()), source, produced)
    {
      ghost var before := State();
      accepted := [];
      var k := 0;
      while k < |produced|
        invariant 0 <= k <= |produced| && Valid()
        invariant (State(), accepted) == AcceptAll(before, source, produced[..k])
      {
        AcceptAllSnoc(before, source, produced[..k], produced[k]);
        assert produced[..k + 1] == produced[..k] + [produced[k]];
        hide AcceptAll, Accept, Accepts, Valid, States;
        var passed := AcceptEvent(source, produced[k]);
        accepted := accepted + if passed then [produced[k]] else [];
        k := k + 1;
      }
      assert produced[..k] == produced;
    }

    /** A device records a raw event; a repeat it queued itself counts as accepted. */
    method Record(index: nat, raw: Raw, hid: map<Code, HidUsage>, now: Instant) returns (produced: seq<InputEvent>)
      requires Valid() && index < |devices|
      modifies this`log, devices
      ensures var d := old(State()).devices[index];
              && States(devices) == old(State()).devices[index := Devices.Process(d, raw, hid, now).0]
              && produced == Devices.Process(d, raw, hid, now).1
              && log == old(log) + QueuedBy(EffectOf(d, raw, hid, now))
    {
      assert forall k :: 0 <= k < |devices| && k != index ==> devices[k] != devices[index];
      hide Devices.Process, EffectOf, QueuedBy, Distinct;
      ghost var before := States(devices);
      ghost var p := Devices.Process(before[index], raw, hid, now);
      produced := devices[index].Process(raw, hid, now);
      log := log + QueuedBy(EffectOf(before[index], raw, hid, now));
      assert States(devices) == before[index := p.0];
    }

    method Enqueue(index: nat, events: seq<InputEvent>)
      requires Valid() && index < |devices|
      modifies devices
      ensures var d := old(State()).devices[index];
              States(devices) == old(State()).devices[index := d.(queue := d.queue + events)]
    {
      assert forall k :: 0 <= k < |devices| && k != index ==> devices[k] != devices[index];
      hide Distinct;
      ghost var before := States(devices);
      devices[index].queue := devices[index].queue + events;
      assert States(devices) == before[index := before[index].(queue := before[index].queue + events)];
    }

    /** One raw event read from one device. */
    method Read(index: nat, raw: Raw, hid: map<Code, HidUsage>, now: Instant)
      requires Valid() && index < |devices|
      modifies this`held, this`log, devices
      ensures Valid() && State() == Captures.Read(old(State()), index, raw, hid, now)
    {
      hide Devices.Process, EffectOf, QueuedBy, AcceptAll, Distinct, States, Captures.Read;
      ReadUnfolds(State(), index, raw, hid, now);
      var produced := Record(index, raw, hid, now);
      AcceptAllKeepsDevices(State(), index, produced);
      var accepted := AcceptProduced(index, produced);
      Enqueue(index, accepted);
    }

    /** Hands on the next event, if there is one. */
    method TakeNext() returns (event: Option<InputEvent>)
      requires Valid()
      modifies this`pending, devices
      ensures Valid()
      ensures match NextEvent(old(State()))
              case None => event == None && State() == old(State())
              case Some(next) => event == Some(next.1) && State() == next.0
    {
      ghost var before := State();
      if pending != [] {
        event := Some(pending[0]);
        pending := pending[1..];
        return;
      }
      var k := 0;
      while k < |devices|
        invariant 0 <= k <= |devices|
        invariant forall j :: 0 <= j < k ==> devices[j].queue == []
      {
        if devices[k].queue != [] {
          assert FirstQueued(before.devices) == k;
          event := Some(devices[k].queue[0]);
          devices[k].queue := devices[k].queue[1..];
          assert State().devices == before.devices[k := before.devices[k].(queue := before.devices[k].queue[1..])];
          return;
        }
        k := k + 1;
      }
      assert FirstQueued(before.devices) == |before.devices|;
      event := None;
    }

    /** What the devices that stay are holding. */
    method RemainingHeld(removed: set<nat>) returns (remaining: set<Control>)
      ensures remaining == UnionOf(Kept(States(devices), removed))
    {
      hide Kept, Gone, Queues, UnionOf, States;
      ghost var states := States(devices);
      remaining := {};
      var index := 0;
      NoneSplit(removed);
      while index < |devices|
        invariant 0 <= index <= |devices|
        invariant remaining == UnionOf(Kept(states[..index], removed))
      {
        SplitAt(states, index, removed);
        if index !in removed {
          remaining := remaining + devices[index].held;
        }
        index := index + 1;
      }
      assert states[..index] == states;
    }

    /** Sets the vanished devices apart: their queues are kept and what they held is collected. */
    method Partition(removed: set<nat>) returns (retained: seq<Device>, freed: set<Control>)
      requires Valid()
      modifies this`pending
      ensures Distinct(retained)
      ensures Partitioned(States(devices), |devices|, removed, States(retained), freed, old(pending), pending)
    {
      assert Distinct(devices);
      hide *;
      ghost var states := States(devices);
      ghost var before := pending;
      retained, freed := [], {};
      var index := 0;
      PartitionStart(devices, removed, pending);
      while index < |devices|
        invariant 0 <= index <= |devices|
        invariant Retained(devices, index, retained)
        invariant Partitioned(states, index, removed, States(retained), freed, before, pending)
      {
        var device := devices[index];
        RetainOne(devices, index, retained);
        if index in removed {
          PartitionGone(states, index, removed, States(retained), freed, before, pending);
          pending := pending + device.queue;
          freed := freed + device.held;
        } else {
          PartitionKept(states, index, removed, States(retained), freed, before, pending);
          retained := retained + [device];
        }
        index := index + 1;
      }
      PartitionEnd(devices, retained);
    }

    /** Disconnects: queued events are kept, and what only the vanished devices held is released. */
    method RemoveDevices(removed: set<nat>)
      requires Valid()
      modifies this
      ensures Valid() && State() == Unplug(old(State()), removed)
    {
      hide Kept, Gone, Queues, UnionOf, Releases, States, Distinct;
      ghost var before := State();
      assert before.devices[..|devices|] == before.devices;
      var remaining := RemainingHeld(removed);
      var retained, freed := Partition(removed);
      devices := retained;
      ReleaseFreed(freed - remaining);
      assert (freed - remaining) * before.held == Orphaned(before, removed);
      assert held == before.held - Orphaned(before, removed);
    }

    /** Releases, in ascending order, the controls that are still held. */
    method ReleaseFreed(freed: set<Control>)
      modifies this`pending, this`held, this`log
      ensures held == old(held) - freed
      ensures pending == old(pending) + Releases(freed * old(held))
      ensures log == old(log) + Releases(freed * old(held))
    {
      hide *;
      ghost var was := held;
      ghost var sent: seq<InputEvent> := [];
      var todo := freed;
      ReleaseStart(was, freed);
      while todo != {}
        invariant ReleasePart(was, freed, todo, held, sent)
        invariant pending == old(pending) + sent && log == old(log) + sent
        decreases |todo|
      {
        var c := Least(todo);
        ReleaseStep(was, freed, todo, held, sent);
        if c in held {
          held := held - {c};
          pending := pending + [c.Release()];
          log := log + [c.Release()];
          sent := sent + [c.Release()];
        }
        todo := todo - {c};
      }
      ReleaseEnd(was, freed, held, sent);
    }
  }

  /** The devices kept so far: distinct, and all from those already looked at. */
  ghost predicate Retained(devices: seq<Device>, n: nat, retained: seq<Device>)
    requires n <= |devices|
  {
    Distinct(devices) && Distinct(retained) && forall d :: d in retained ==> d in devices[..n]
  }

  /** The first `n` devices have been told apart. */
  ghost predicate Partitioned(
    states: seq<DeviceState>, n: nat, removed: set<nat>,
    kept: seq<DeviceState>, freed: set<Control>, before: seq<InputEvent>, pending: seq<InputEvent>)
    requires n <= |states|
  {
    var gone := Gone(states[..n], removed);
    kept == Kept(states[..n], removed) && freed == UnionOf(gone) && pending == before + Queues(gone)
  }

  lemma PartitionStart(devices: seq<Device>, removed: set<nat>, pending: seq<InputEvent>)
    requires Distinct(devices)
    ensures Retained(devices, 0, []) && Partitioned(States(devices), 0, removed, States([]), {}, pending, pending)
  {
    NoneSplit(removed);
    hide Kept, Gone, Queues, UnionOf;
    assert pending + [] == pending;
  }

  lemma PartitionGone(
    states: seq<DeviceState>, n: nat, removed: set<nat>,
    kept: seq<DeviceState>, freed: set<Control>, before: seq<InputEvent>, pending: seq<InputEvent>)
    requires n < |states| && n in removed && Partitioned(states, n, removed, kept, freed, before, pending)
    ensures Partitioned(states, n + 1, removed, kept, freed + states[n].held, before, pending + states[n].queue)
  {
    SplitAt(states, n, removed);
    hide Kept, Gone, Queues, UnionOf;
    Associative(before, Queues(Gone(states[..n], removed)), states[n].queue);
  }

  lemma Associative<T>(a: seq<T>, b: seq<T>, c: seq<T>)
    ensures a + b + c == a + (b + c)
  {
  }

  lemma PartitionKept(
    states: seq<DeviceState>, n: nat, removed: set<nat>,
    kept: seq<DeviceState>, freed: set<Control>, before: seq<InputEvent>, pending: seq<InputEvent>)
    requires n < |states| && n !in removed && Partitioned(states, n, removed, kept, freed, before, pending)
    ensures Partitioned(states, n + 1, removed, kept + [states[n]], freed, before, pending)
  {
    SplitAt(states, n, removed);
    hide Kept, Gone, Queues, UnionOf;
  }

  lemma RetainOne(devices: seq<Device>, n: nat, retained: seq<Device>)
    requires n < |devices| && Retained(devices, n, retained)
    ensures States(retained + [devices[n]]) == States(retained) + [devices[n].State()]
    ensures States(devices)[n] == devices[n].State()
    ensures devices[n].State().queue == devices[n].queue && devices[n].State().held == devices[n].held
    ensures Retained(devices, n + 1, retained) && Retained(devices, n + 1, retained + [devices[n]])
  {
    assert (retained + [devices[n]])[..|retained|] == retained;
    assert devices[..n + 1] == devices[..n] + [devices[n]];
    assert devices[n] !in devices[..n];
  }

  lemma PartitionEnd(devices: seq<Device>, retained: seq<Device>)
    requires Retained(devices, |devices|, retained)
    ensures Distinct(retained)
  {
  }

  /** With `todo` still to look at: what is held, and that `sent` and what remains make up the releases. */
  ghost predicate ReleasePart(
    was: set<Control>, freed: set<Control>, todo: set<Control>, held: set<Control>, sent: seq<InputEvent>)
  {
    && todo <= freed && held == was - freed + todo * was
    && sent + Releases(todo * was) == Releases(freed * was)
  }

  lemma ReleaseStart(was: set<Control>, freed: set<Control>)
    ensures ReleasePart(was, freed, freed, was, [])
  {
    hide Releases;
    assert [] + Releases(freed * was) == Releases(freed * was);
  }

  lemma ReleaseStep(
    was: set<Control>, freed: set<Control>, todo: set<Control>, held: set<Control>, sent: seq<InputEvent>)
    requires ReleasePart(was, freed, todo, held, sent) && todo != {}
    ensures var c := Least(todo);
            ReleasePart(was, freed, todo - {c}, held - {c}, if c in held then sent + [c.Release()] else sent)
            && (c !in held ==> held - {c} == held)
  {
    var c := Least(todo);
    var left := todo * was;
    ReleasesHead(left);
    assert was - freed + (todo - {c}) * was == held - {c};
    assert (todo - {c}) * was == left - {c};
    if c in held {
      LeastOfPart(todo, left);
      hide Releases, Least;
      assert sent + ([c.Release()] + Releases(left - {c})) == sent + [c.Release()] + Releases(left - {c});
    } else {
      assert left - {c} == left;
    }
  }

  lemma ReleaseEnd(was: set<Control>, freed: set<Control>, held: set<Control>, sent: seq<InputEvent>)
    requires ReleasePart(was, freed, {}, held, sent)
    ensures held == was - freed && sent == Releases(freed * was)
  {
    assert {} * was == {} && sent + [] == sent;
  }

  lemma UnionSnoc(devices: seq<DeviceState>, d: DeviceState)
    ensures UnionOf(devices + [d]) == UnionOf(devices) + d.held
  {
    assert (devices + [d])[..|devices|] == devices;
  }

  /** One more device: kept whole, or its queue and its hold set aside. */
  lemma SplitAt(devices: seq<DeviceState>, n: nat, removed: set<nat>)
    requires n < |devices|
    ensures var d := devices[n];
            var kept, gone := Kept(devices[..n], removed), Gone(devices[..n], removed);
            && Kept(devices[..n + 1], removed) == (if n in removed then kept else kept + [d])
            && Gone(devices[..n + 1], removed) == (if n in removed then gone + [d] else gone)
            && UnionOf(kept + [d]) == UnionOf(kept) + d.held && UnionOf(gone + [d]) == UnionOf(gone) + d.held
            && Queues(gone + [d]) == Queues(gone) + d.queue
  {
    hide *;
    var d := devices[n];
    var kept, gone := Kept(devices[..n], removed), Gone(devices[..n], removed);
    assert devices[..n + 1] == devices[..n] + [d];
    SplitSnoc(devices[..n], d, removed);
    assert kept + [] == kept && gone + [] == gone;
    QueuesSnoc(gone, d);
    UnionSnoc(gone, d);
    UnionSnoc(kept, d);
  }

  lemma {:induction false} AcceptAllSnoc(s: CaptureState, source: nat, events: seq<InputEvent>, event: InputEvent)
    ensures var t := AcceptAll(s, source, events);
            AcceptAll(s, source, events + [event])
            == (Accept(t.0, source, event), t.1 + if Accepts(t.0, source, event) then [event] else [])
    decreases |events|
  {
    hide Accept, Accepts;
    var all := events + [event];
    if events == [] {
      assert all[1..] == [] && all[0] == event;
      assert AcceptAll(Accept(s, source, event), source, []) == (Accept(s, source, event), []);
      var passed := if Accepts(s, source, event) then [event] else [];
      assert passed + [] == passed && [] + passed == passed;
    } else {
      assert all[1..] == events[1..] + [event];
      AcceptAllSnoc(Accept(s, source, events[0]), source, events[1..], event);
      var u := AcceptAll(Accept(s, source, events[0]), source, events[1..]);
      var head := if Accepts(s, source, events[0]) then [events[0]] else [];
      var last := if Accepts(u.0, source, event) then [event] else [];
      assert head + (u.1 + last) == head + u.1 + last;
    }
  }

  lemma ReadUnfolds(s: CaptureState, i: nat, raw: Raw, hid: map<Code, HidUsage>, now: Instant)
    requires i < |s.devices|
    ensures var p := Devices.Process(s.devices[i], raw, hid, now);
            var recorded := s.devices[i := p.0];
            var repeated := QueuedBy(EffectOf(s.devices[i], raw, hid, now));
            var passed := AcceptAll(s.(devices := recorded, log := s.log + repeated), i, p.1);
            Captures.Read(s, i, raw, hid, now)
            == CaptureState(
                 recorded[i := recorded[i].(queue := recorded[i].queue + passed.1)], s.pending,
                 passed.0.held, passed.0.log)
  {
    var p := Devices.Process(s.devices[i], raw, hid, now);
    var repeated := QueuedBy(EffectOf(s.devices[i], raw, hid, now));
    AcceptAllKeepsDevices(s.(devices := s.devices[i := p.0], log := s.log + repeated), i, p.1);
    hide Devices.Process, EffectOf, QueuedBy, AcceptAll;
  }

  lemma ReleasesHead(s: set<Control>)
    ensures Releases(s) == if s == {} then [] else [Least(s).Release()] + Releases(s - {Least(s)})
  {
  }

  lemma LeastOfPart(s: set<Control>, part: set<Control>)
    requires s != {} && part <= s && Least(s) in part
    ensures Least(part) == Least(s)
  {
    RankInjective(Least(part), Least(s));
  }
}
