/** Many devices, one shared hold: the capture's filter, hot-plug and disconnect, as functions on values. */
module Captures {
  import opened Basics
  import opened Events
  import opened Holds
  import opened Devices

  /** `log` is every event accepted so far, in the order it was accepted. */
  datatype CaptureState = CaptureState(
    devices: seq<DeviceState>,
    pending: seq<InputEvent>,
    held: set<Control>,
    log: seq<InputEvent>)

  /** Everything some device holds. */
  function UnionOf(devices: seq<DeviceState>): (u: set<Control>)
    ensures forall c :: c in u <==> exists i :: 0 <= i < |devices| && c in devices[i].held
  {
    if devices == [] then {}
    else
      UnionOf(devices[..|devices| - 1]) + devices[|devices| - 1].held
  }

  predicate HeldElsewhere(devices: seq<DeviceState>, source: nat, c: Control) {
    exists i :: 0 <= i < |devices| && i != source && c in devices[i].held
  }

  /** The control a key or button event is about. */
  function ControlOf(event: InputEvent): Option<Control> {
    match event
    case Key(usage, _, _) => Some(KeyControl(usage))
    case Button(button, _) => Some(ButtonControl(button))
    case _ => None
  }

  /** Whether the shared filter lets an event through. */
  predicate Accepts(s: CaptureState, source: nat, event: InputEvent) {
    var c := ControlOf(event);
    if c.None? then true
    else if event.pressed then c.value !in s.held
    else !HeldElsewhere(s.devices, source, c.value) && c.value in s.held
  }

  function Accept(s: CaptureState, source: nat, event: InputEvent): CaptureState {
    if !Accepts(s, source, event) then s
    else
      var c := ControlOf(event);
      var held := if c.None? then s.held else if event.pressed then s.held + {c.value} else s.held - {c.value};
      s.(held := held, log := s.log + [event])
  }

  /** The filter over everything one raw event produced, and what it let through. */
  function AcceptAll(s: CaptureState, source: nat, events: seq<InputEvent>): (CaptureState, seq<InputEvent>)
    decreases |events|
  {
    if events == [] then (s, [])
    else
      var rest := AcceptAll(Accept(s, source, events[0]), source, events[1..]);
      (rest.0, (if Accepts(s, source, events[0]) then [events[0]] else []) + rest.1)
  }

  lemma {:induction false} AcceptAllKeepsDevices(s: CaptureState, source: nat, events: seq<InputEvent>)
    ensures AcceptAll(s, source, events).0.devices == s.devices
    ensures AcceptAll(s, source, events).0.pending == s.pending
    ensures AcceptAll(s, source, events).0.log == s.log + AcceptAll(s, source, events).1
    decreases |events|
  {
    if events != [] {
      AcceptAllKeepsDevices(Accept(s, source, events[0]), source, events[1..]);
    }
  }

  /** One raw event read from one device. */
  function Read(s: CaptureState, i: nat, raw: Raw, hid: map<Code, HidUsage>, now: Instant): CaptureState
    requires i < |s.devices|
  {
    var p := Process(s.devices[i], raw, hid, now);
    var repeated := QueuedBy(EffectOf(s.devices[i], raw, hid, now));
    var s1 := s.(devices := s.devices[i := p.0], log := s.log + repeated);
    var accepted := AcceptAll(s1, i, p.1);
    accepted.0.(devices := s.devices[i := p.0.(queue := p.0.queue + accepted.1)])
  }

  /** A newly plugged device holds nothing. */
  function Plug(s: CaptureState, kind: Kind): CaptureState {
    s.(devices := s.devices + [DeviceState(kind, EMPTY_TOUCHPAD, EMPTY_FRAME, [], {})])
  }

  function Kept(devices: seq<DeviceState>, removed: set<nat>): seq<DeviceState> {
    if devices == [] then []
    else
      var n := |devices| - 1;
      Kept(devices[..n], removed) + if n in removed then [] else [devices[n]]
  }

  function Gone(devices: seq<DeviceState>, removed: set<nat>): seq<DeviceState> {
    if devices == [] then []
    else
      var n := |devices| - 1;
      Gone(devices[..n], removed) + if n in removed then [devices[n]] else []
  }

  function Queues(devices: seq<DeviceState>): seq<InputEvent> {
    if devices == [] then []
    else Queues(devices[..|devices| - 1]) + devices[|devices| - 1].queue
  }

  /** Controls only the vanished devices held. */
  function Orphaned(s: CaptureState, removed: set<nat>): set<Control> {
    (UnionOf(Gone(s.devices, removed)) - UnionOf(Kept(s.devices, removed))) * s.held
  }

  /** Disconnects: queued events are kept, and what only the vanished devices held is released. */
  function Unplug(s: CaptureState, removed: set<nat>): CaptureState {
    var orphaned := Orphaned(s, removed);
    CaptureState(
      Kept(s.devices, removed),
      s.pending + Queues(Gone(s.devices, removed)) + Releases(orphaned),
      s.held - orphaned,
      s.log + Releases(orphaned))
  }

  /** The next event handed on: pending first, then the first device with anything queued. */
  function FirstQueued(devices: seq<DeviceState>): (i: nat)
    ensures i <= |devices|
    ensures i < |devices| ==> devices[i].queue != []
    ensures forall k :: 0 <= k < i ==> devices[k].queue == []
  {
    if devices == [] || devices[0].queue != [] then 0 else 1 + FirstQueued(devices[1..])
  }

  function NextEvent(s: CaptureState): Option<(CaptureState, InputEvent)> {
    if s.pending != [] then Some((s.(pending := s.pending[1..]), s.pending[0]))
    else
      var i := FirstQueued(s.devices);
      if i == |s.devices| then None
      else
        var d := s.devices[i];
        Some((s.(devices := s.devices[i := d.(queue := d.queue[1..])]), d.queue[0]))
  }

  // ---- the shared hold is a true union -------------------------------------------------------

  /** The shared hold is exactly the union, and the accepted stream is disciplined and leaves exactly it. */
  ghost predicate TrueUnion(s: CaptureState) {
    && s.held == UnionOf(s.devices)
    && Disciplined(s.log)
    && HeldAfter(s.log) == s.held
  }

  lemma UnionSplit(devices: seq<DeviceState>, removed: set<nat>)
    ensures UnionOf(devices) == UnionOf(Kept(devices, removed)) + UnionOf(Gone(devices, removed))
  {
    if devices != [] {
      var n := |devices| - 1;
      UnionSplit(devices[..n], removed);
      var d := devices[n];
      var k, g := Kept(devices[..n], removed), Gone(devices[..n], removed);
      assert (k + [d])[..|k|] == k && (g + [d])[..|g|] == g;
      assert k + [] == k && g + [] == g;
    }
  }

  lemma PlugKeepsUnion(s: CaptureState, kind: Kind)
    requires TrueUnion(s)
    ensures TrueUnion(Plug(s, kind))
  {
    assert Plug(s, kind).devices[..|s.devices|] == s.devices;
  }

  /** A pulled device releases exactly what no other device still holds. */
  lemma UnplugKeepsUnion(s: CaptureState, removed: set<nat>)
    requires TrueUnion(s)
    ensures TrueUnion(Unplug(s, removed))
  {
    UnionSplit(s.devices, removed);
    hide UnionOf, Kept, Gone, Disciplined, HeldAfter, Releases;
    ReleasesExtend(s.log, Orphaned(s, removed));
  }

  lemma MotionExtends(log: seq<InputEvent>, event: InputEvent)
    requires Disciplined(log) && (event.MouseMove? || event.SmoothWheel?)
    ensures Disciplined(log + [event]) && HeldAfter(log + [event]) == HeldAfter(log)
  {
    DisciplinedExtend(log, event);
  }

  /** Motion and scroll pass the filter untouched. */
  lemma {:induction false} PassThrough(s: CaptureState, source: nat, events: seq<InputEvent>)
    requires forall v :: v in events ==> v.MouseMove? || v.SmoothWheel?
    requires Disciplined(s.log) && HeldAfter(s.log) == s.held
    ensures AcceptAll(s, source, events).1 == events
    ensures var t := AcceptAll(s, source, events).0;
            && t.held == s.held && t.devices == s.devices && t.pending == s.pending
            && Disciplined(t.log) && HeldAfter(t.log) == s.held
    decreases |events|
  {
    hide Disciplined, HeldAfter;
    if events != [] {
      assert events[0] in events;
      MotionExtends(s.log, events[0]);
      PassThrough(Accept(s, source, events[0]), source, events[1..]);
      assert events == [events[0]] + events[1..];
    }
  }

  /** Updating what one device holds changes the union only by what it gained or lost alone. */
  lemma UnionUpdate(devices: seq<DeviceState>, i: nat, d: DeviceState)
    requires i < |devices|
    ensures forall c :: c in UnionOf(devices[i := d]) <==> c in d.held || HeldElsewhere(devices, i, c)
    ensures forall c :: c in UnionOf(devices) <==> c in devices[i].held || HeldElsewhere(devices, i, c)
  {
    var u := devices[i := d];
    forall c
      ensures c in UnionOf(u) <==> c in d.held || HeldElsewhere(devices, i, c)
    {
      if c in d.held {
        assert c in u[i].held;
      }
      if HeldElsewhere(devices, i, c) {
        var k :| 0 <= k < |devices| && k != i && c in devices[k].held;
        assert c in u[k].held;
      }
    }
  }

  /** A press leaves its control held, whether or not the filter lets it through. */
  lemma AcceptPress(s: CaptureState, i: nat, c: Control)
    requires Disciplined(s.log) && HeldAfter(s.log) == s.held
    ensures var t := Accept(s, i, c.Press());
            && t == s.(held := s.held + {c}, log := t.log)
            && Disciplined(t.log) && HeldAfter(t.log) == t.held
  {
    assert ControlOf(c.Press()) == Some(c) && Subject(c.Press()) == Some(c);
    if c !in s.held {
      DisciplinedExtend(s.log, c.Press());
    }
    hide Disciplined, HeldAfter, HeldElsewhere;
  }

  /** A release lets its control go unless another device still holds it. */
  lemma AcceptRelease(s: CaptureState, i: nat, c: Control, elsewhere: bool)
    requires Disciplined(s.log) && HeldAfter(s.log) == s.held
    requires elsewhere == HeldElsewhere(s.devices, i, c)
    ensures var t := Accept(s, i, c.Release());
            && t == s.(held := if elsewhere then s.held else s.held - {c}, log := t.log)
            && Disciplined(t.log) && HeldAfter(t.log) == t.held
  {
    assert ControlOf(c.Release()) == Some(c) && Subject(c.Release()) == Some(c);
    if c in s.held {
      DisciplinedExtend(s.log, c.Release());
    }
    hide Disciplined, HeldAfter, HeldElsewhere;
  }

  lemma ElsewhereUnchanged(devices: seq<DeviceState>, i: nat, d: DeviceState, c: Control)
    requires i < |devices|
    ensures HeldElsewhere(devices[i := d], i, c) == HeldElsewhere(devices, i, c)
  {
    var u := devices[i := d];
    if HeldElsewhere(devices, i, c) {
      var k :| 0 <= k < |devices| && k != i && c in devices[k].held;
      assert c in u[k].held;
    }
    if HeldElsewhere(u, i, c) {
      var k :| 0 <= k < |u| && k != i && c in u[k].held;
      assert c in devices[k].held;
    }
  }

  /** The control an effect presses or releases. */
  function ControlHit(e: Effect): Option<Control> {
    match e
    case Down(c) => Some(c)
    case Up(c) => Some(c)
    case Tap(button) => Some(ButtonControl(button))
    case _ => None
  }

  /** What is held once an effect has passed the filter: a control is let go only if no other device has it. */
  function SharedWith(held: set<Control>, e: Effect, elsewhere: bool): set<Control> {
    match e
    case Down(c) => held + {c}
    case Up(c) => if elsewhere then held else held - {c}
    case Tap(button) => held + if elsewhere then {ButtonControl(button)} else {}
    case _ => held
  }

  /** The filter over one hold effect, taps included. */
  lemma EffectAccepted(s: CaptureState, i: nat, e: Effect, elsewhere: bool)
    requires Disciplined(s.log) && HeldAfter(s.log) == s.held
    requires ControlHit(e).Some? ==> elsewhere == HeldElsewhere(s.devices, i, ControlHit(e).value)
    requires e.Tap? ==> (ButtonControl(e.button) in s.held <==> elsewhere)
    ensures var t := AcceptAll(s, i, EventsOf(e)).0;
            && t == s.(held := SharedWith(s.held, e, elsewhere), log := t.log)
            && Disciplined(t.log) && HeldAfter(t.log) == t.held
  {
    hide Disciplined, HeldAfter, HeldElsewhere, Accept, Accepts;
    match e
    case Down(c) =>
      AcceptPress(s, i, c);
      assert AcceptAll(s, i, [c.Press()]).0 == AcceptAll(Accept(s, i, c.Press()), i, []).0;
    case Up(c) =>
      AcceptRelease(s, i, c, elsewhere);
      assert AcceptAll(s, i, [c.Release()]).0 == AcceptAll(Accept(s, i, c.Release()), i, []).0;
    case Tap(button) =>
      var c := ButtonControl(button);
      AcceptPress(s, i, c);
      var t := Accept(s, i, c.Press());
      AcceptRelease(t, i, c, elsewhere);
      var both := [c.Press(), c.Release()];
      assert both[1..] == [c.Release()] && both[1..][1..] == [];
      assert AcceptAll(t, i, both[1..]).0 == AcceptAll(Accept(t, i, c.Release()), i, []).0;
      assert s.held + {c} - {c} == s.held || elsewhere;
    case _ =>
  }

  /** Every read of every device keeps the shared hold a true union and the accepted stream disciplined. */
  lemma ReadKeepsUnion(s: CaptureState, i: nat, raw: Raw, hid: map<Code, HidUsage>, now: Instant)
    requires TrueUnion(s) && i < |s.devices|
    ensures TrueUnion(Read(s, i, raw, hid, now))
  {
    var d := s.devices[i];
    var p := Process(d, raw, hid, now);
    var e := EffectOf(d, raw, hid, now);
    ProcessShape(d, raw, hid, now);
    var s1 := s.(devices := s.devices[i := p.0], log := s.log + QueuedBy(e));
    var c := ControlHit(e);
    var elsewhere := c.Some? && HeldElsewhere(s.devices, i, c.value);
    if c.Some? {
      ElsewhereUnchanged(s.devices, i, p.0, c.value);
    }
    LogAfterRepeat(s, e);
    UnionAfter(s.devices, i, p.0, e, elsewhere);
    SameUnion(s1.devices, Read(s, i, raw, hid, now).devices);
    hide Disciplined, HeldAfter, UnionOf, Process, EffectOf, HeldElsewhere;
    if p.1 == EventsOf(e) {
      EffectAccepted(s1, i, e, elsewhere);
    } else {
      PassThrough(s1, i, p.1);
    }
  }

  /** The union of what the devices hold, after one of them took an effect. */
  lemma UnionAfter(devices: seq<DeviceState>, i: nat, d: DeviceState, e: Effect, elsewhere: bool)
    requires i < |devices| && d.held == HeldWith(devices[i].held, e)
    requires ControlHit(e).Some? ==> elsewhere == HeldElsewhere(devices, i, ControlHit(e).value)
    requires e.Tap? ==> ButtonControl(e.button) !in devices[i].held
    ensures UnionOf(devices[i := d]) == SharedWith(UnionOf(devices), e, elsewhere)
    ensures e.Tap? ==> (ButtonControl(e.button) in UnionOf(devices) <==> elsewhere)
    ensures e.Again? && KeyControl(e.usage) in devices[i].held ==> KeyControl(e.usage) in UnionOf(devices)
  {
    UnionUpdate(devices, i, d);
    hide UnionOf, HeldElsewhere;
    var was, now := UnionOf(devices), UnionOf(devices[i := d]);
    var hit := ControlHit(e);
    assert hit.Some? ==> (hit.value in was <==> hit.value in devices[i].held || elsewhere);
    assert e.Again? ==>
        (KeyControl(e.usage) in was <==>
           KeyControl(e.usage) in devices[i].held || HeldElsewhere(devices, i, KeyControl(e.usage)));
    forall k
      ensures k in now <==> k in SharedWith(was, e, elsewhere)
    {
      assert k in was <==> k in devices[i].held || HeldElsewhere(devices, i, k);
      assert k in now <==> k in d.held || HeldElsewhere(devices, i, k);
    }
    assert now == SharedWith(was, e, elsewhere);
  }

  lemma SameUnion(a: seq<DeviceState>, b: seq<DeviceState>)
    requires |a| == |b| && forall i :: 0 <= i < |a| ==> a[i].held == b[i].held
    ensures UnionOf(a) == UnionOf(b)
  {
    forall c
      ensures c in UnionOf(a) <==> c in UnionOf(b)
    {
      if c in UnionOf(a) {
        var i :| 0 <= i < |a| && c in a[i].held;
        assert c in b[i].held;
      }
    }
  }

  lemma HandOnKeepsUnion(s: CaptureState)
    requires TrueUnion(s)
    ensures NextEvent(s).Some? ==> TrueUnion(NextEvent(s).value.0)
  {
    if NextEvent(s).Some? {
      SameUnion(s.devices, NextEvent(s).value.0.devices);
      hide Disciplined, HeldAfter, UnionOf;
    }
  }

  lemma LogAfterRepeat(s: CaptureState, e: Effect)
    requires Disciplined(s.log) && HeldAfter(s.log) == s.held
    requires e.Again? ==> KeyControl(e.usage) in s.held
    ensures Disciplined(s.log + QueuedBy(e)) && HeldAfter(s.log + QueuedBy(e)) == s.held
  {
    if e.Again? {
      DisciplinedExtend(s.log, Key(e.usage, true, true));
    } else {
      assert s.log + QueuedBy(e) == s.log;
    }
  }

  // ---- runs ----------------------------------------------------------------------------------

  datatype Step =
    | ReadStep(device: nat, raw: Raw, now: Instant)
    | PlugStep(kind: Kind)
    | UnplugStep(removed: set<nat>)
    | HandOnStep

  function Apply(s: CaptureState, step: Step, hid: map<Code, HidUsage>): CaptureState {
    match step
    case ReadStep(i, raw, now) => if i < |s.devices| then Read(s, i, raw, hid, now) else s
    case PlugStep(kind) => Plug(s, kind)
    case UnplugStep(removed) => Unplug(s, removed)
    case HandOnStep => if NextEvent(s).Some? then NextEvent(s).value.0 else s
  }

  const NOTHING_PLUGGED := CaptureState([], [], {}, [])

  function Run(steps: seq<Step>, hid: map<Code, HidUsage>): CaptureState {
    if steps == [] then NOTHING_PLUGGED else Apply(Run(steps[..|steps| - 1], hid), steps[|steps| - 1], hid)
  }

  /**
   * Over every run of reads, taps, remapped clicks, repeats, hot-plugs and disconnects the shared
   * hold is the union of what the devices hold, and the accepted stream leaves exactly that held.
   */
  lemma {:induction false} RunIsUnion(steps: seq<Step>, hid: map<Code, HidUsage>)
    ensures TrueUnion(Run(steps, hid))
  {
    if steps != [] {
      var n := |steps| - 1;
      RunIsUnion(steps[..n], hid);
      var before := Run(steps[..n], hid);
      hide TrueUnion, Read, Plug, Unplug, NextEvent;
      match steps[n]
      case ReadStep(i, raw, now) =>
        if i < |before.devices| {
          ReadKeepsUnion(before, i, raw, hid, now);
        }
      case PlugStep(kind) => PlugKeepsUnion(before, kind);
      case UnplugStep(removed) => UnplugKeepsUnion(before, removed);
      case HandOnStep => HandOnKeepsUnion(before);
    }
  }

  /** So in every run each control goes strictly press, release, press, ... in acceptance order. */
  lemma RunAlternates(steps: seq<Step>, hid: map<Code, HidUsage>, c: Control)
    ensures var t := Transitions(Run(steps, hid).log, c);
            && (forall k :: 0 <= k < |t| ==> (t[k] <==> k % 2 == 0))
            && (|t| % 2 == 1
                <==> exists i :: 0 <= i < |Run(steps, hid).devices| && c in Run(steps, hid).devices[i].held)
  {
    RunIsUnion(steps, hid);
    DisciplinedAlternates(Run(steps, hid).log, c);
    hide Run, Transitions, Disciplined, HeldAfter;
  }

  // ---- one device more ------------------------------------------------------------------------

  lemma QueuesSnoc(devices: seq<DeviceState>, d: DeviceState)
    ensures Queues(devices + [d]) == Queues(devices) + d.queue
  {
    assert (devices + [d])[..|devices|] == devices;
  }

  lemma SplitSnoc(devices: seq<DeviceState>, d: DeviceState, removed: set<nat>)
    ensures Kept(devices + [d], removed) == Kept(devices, removed) + if |devices| in removed then [] else [d]
    ensures Gone(devices + [d], removed) == Gone(devices, removed) + if |devices| in removed then [d] else []
  {
    assert (devices + [d])[..|devices|] == devices;
  }

  lemma NoneSplit(removed: set<nat>)
    ensures Kept([], removed) == [] && Gone([], removed) == [] && Queues([]) == [] && UnionOf([]) == {}
  {
  }
}
