/** End to end: what the capture accepts, played into the virtual device. */
module VirtualHolds {
  import opened Basics
  import opened Events
  import opened Holds
  import opened Devices
  import opened Captures
  import opened VirtualDevices

  /** A stream played into a fresh device, every write succeeding. */
  function Play(events: seq<InputEvent>, codes: map<HidUsage, Code>): VirtualState {
    if events == [] then CREATED
    else Send(Play(events[..|events| - 1], codes), events[|events| - 1], codes, BOTH).0
  }

  /** The lines that stand for a set of controls; a key the injector has no code for has none. */
  function Image(held: set<Control>, codes: map<HidUsage, Code>): set<Line> {
    set c | c in held && LineOf(c, codes).Some? :: LineOf(c, codes).value
  }

  predicate DistinctCodes(usages: set<HidUsage>, codes: map<HidUsage, Code>) {
    forall u, v :: u in usages && v in usages && u in codes && v in codes && codes[u] == codes[v] ==> u == v
  }

  /** Every key event of the stream is about one of these usages. */
  predicate Within(events: seq<InputEvent>, usages: set<HidUsage>) {
    forall e :: e in events && e.Key? ==> e.usage in usages
  }

  predicate HeldWithin(held: set<Control>, usages: set<HidUsage>) {
    forall c :: c in held && c.KeyControl? ==> c.usage in usages
  }

  lemma {:induction false} HeldStaysWithin(events: seq<InputEvent>, usages: set<HidUsage>)
    requires Within(events, usages)
    ensures HeldWithin(HeldAfter(events), usages)
  {
    if events != [] {
      var n := |events| - 1;
      assert events[n] in events;
      HeldStaysWithin(events[..n], usages);
    }
  }

  lemma LinesDistinct(a: Control, b: Control, usages: set<HidUsage>, codes: map<HidUsage, Code>)
    requires DistinctCodes(usages, codes) && HeldWithin({a, b}, usages)
    requires LineOf(a, codes).Some? && LineOf(a, codes) == LineOf(b, codes)
    ensures a == b
  {
    assert a in {a, b} && b in {a, b};
  }

  /** The image follows one more event of a stream that fits. */
  lemma ImageNext(held: set<Control>, event: InputEvent, usages: set<HidUsage>, codes: map<HidUsage, Code>)
    requires DistinctCodes(usages, codes) && HeldWithin(held, usages) && Within([event], usages)
    requires Subject(event).Some?
    ensures var c := Subject(event).value;
            var line := LineOf(c, codes);
            Image(HeldNext(held, event), codes)
            == if line.None? then Image(held, codes)
               else if Presses(event) then Image(held, codes) + {line.value} else Image(held, codes) - {line.value}
  {
    var c := Subject(event).value;
    var line := LineOf(c, codes);
    var next := HeldNext(held, event);
    assert event in [event];
    if line.Some? {
      forall d | d in held && LineOf(d, codes) == line
        ensures d == c
      {
        assert HeldWithin({c, d}, usages);
        LinesDistinct(c, d, usages, codes);
      }
    }
    forall l
      ensures l in Image(next, codes) <==>
              if line.None? then l in Image(held, codes)
              else if Presses(event) then l in Image(held, codes) || l == line.value
              else l in Image(held, codes) && l != line.value
    {
      if l in Image(held, codes) {
        var d :| d in held && LineOf(d, codes) == Some(l);
        assert d != c ==> d in next;
      }
      if Presses(event) {
        assert c in next;
      }
    }
  }

  /**
   * What readers of the virtual device see held is the image of what the stream leaves held, and
   * typematic repeats write nothing.
   */
  lemma {:induction false} PlayedImage(events: seq<InputEvent>, usages: set<HidUsage>, codes: map<HidUsage, Code>)
    requires Disciplined(events) && Within(events, usages) && DistinctCodes(usages, codes)
    ensures var d := Play(events, codes);
            Faithful(d) && DownAfter(d.log) == Image(HeldAfter(events), codes)
    ensures events != [] && IsRepeat(events[|events| - 1])
        ==> Play(events, codes) == Play(events[..|events| - 1], codes)
  {
    hide Play, Disciplined, Faithful, DistinctCodes, HeldAfter, Image, DownAfter, Within;
    if events == [] {
      PlayedNothing(codes);
    } else {
      var n := |events| - 1;
      var before, event := events[..n], events[n];
      DisciplinedLast(events);
      WithinLast(events, usages);
      PlayedImage(before, usages, codes);
      PlayedLast(events, codes);
      HeldStaysWithin(before, usages);
      SentImage(Play(before, codes), HeldAfter(before), event, usages, codes);
    }
  }

  lemma PlayedNothing(codes: map<HidUsage, Code>)
    ensures Faithful(Play([], codes)) && DownAfter(Play([], codes).log) == Image(HeldAfter([]), codes)
  {
  }

  lemma PlayedLast(events: seq<InputEvent>, codes: map<HidUsage, Code>)
    requires events != []
    ensures var n := |events| - 1;
            && Play(events, codes) == Send(Play(events[..n], codes), events[n], codes, BOTH).0
            && HeldAfter(events) == HeldNext(HeldAfter(events[..n]), events[n])
  {
  }

  lemma DisciplinedLast(events: seq<InputEvent>)
    requires Disciplined(events) && events != []
    ensures var n := |events| - 1; Disciplined(events[..n]) && Fits(HeldAfter(events[..n]), events[n])
  {
    DisciplinedPrefix(events, |events| - 1);
    hide HeldAfter, Fits;
  }

  lemma WithinLast(events: seq<InputEvent>, usages: set<HidUsage>)
    requires Within(events, usages) && events != []
    ensures Within(events[..|events| - 1], usages) && Within([events[|events| - 1]], usages)
  {
    assert events[|events| - 1] in events;
  }

  /** One more event that fits, sent to a device that shows the image so far. */
  lemma SentImage(
    d: VirtualState, held: set<Control>, event: InputEvent, usages: set<HidUsage>, codes: map<HidUsage, Code>)
    requires Faithful(d) && DownAfter(d.log) == Image(held, codes) && Fits(held, event)
    requires DistinctCodes(usages, codes) && HeldWithin(held, usages) && Within([event], usages)
    ensures var r := Send(d, event, codes, BOTH).0;
            && Faithful(r) && DownAfter(r.log) == Image(HeldNext(held, event), codes)
            && (IsRepeat(event) ==> r == d)
  {
    SendKeepsFaithfulIff(d, event, codes, BOTH);
    if Subject(event).Some? {
      ImageNext(held, event, usages, codes);
      SentPressed(d, event, codes);
      hide Send, DownAfter, Image, DistinctCodes;
    } else {
      if IsRepeat(event) && event.usage in codes {
        assert KeyControl(event.usage) in held;
        assert KeyboardLine(codes[event.usage]) in Image(held, codes);
      }
      hide DownAfter, DistinctCodes, Image, MoveBatch, DetentBatch, SmoothBatch;
    }
  }

  /** What the bookkeeping makes of a press or a release. */
  lemma SentPressed(d: VirtualState, event: InputEvent, codes: map<HidUsage, Code>)
    requires Subject(event).Some?
    ensures var line := LineOf(Subject(event).value, codes);
            Send(d, event, codes, BOTH).0.pressed
            == if line.None? then d.pressed
               else if Presses(event) then d.pressed + {line.value} else d.pressed - {line.value}
  {
  }

  /** A stream that presses two keys and lets the first go. */
  function PressTwo(u: HidUsage, v: HidUsage): seq<InputEvent> {
    [Key(u, true, false), Key(v, true, false), Key(u, false, false)]
  }

  lemma PlaySnoc(events: seq<InputEvent>, event: InputEvent, codes: map<HidUsage, Code>)
    ensures Play(events + [event], codes) == Send(Play(events, codes), event, codes, BOTH).0
  {
    assert (events + [event])[..|events|] == events;
  }

  /** Two usages behind one code: letting the first go lets the second go with it. */
  lemma AliasLetsGo(u: HidUsage, v: HidUsage, codes: map<HidUsage, Code>)
    requires u != v && u in codes && v in codes && codes[u] == codes[v]
    ensures Disciplined(PressTwo(u, v)) && Within(PressTwo(u, v), {u, v})
    ensures KeyControl(v) in HeldAfter(PressTwo(u, v))
    ensures Play(PressTwo(u, v), codes).pressed == {}
  {
    var a, b, c := Key(u, true, false), Key(v, true, false), Key(u, false, false);
    assert [] + [a] == [a] && [a] + [b] == [a, b] && [a, b] + [c] == PressTwo(u, v);
    DisciplinedExtend([], a);
    DisciplinedExtend([a], b);
    DisciplinedExtend([a, b], c);
    PlaySnoc([], a, codes);
    PlaySnoc([a], b, codes);
    PlaySnoc([a, b], c, codes);
    assert Play([], codes) == CREATED && HeldAfter([]) == {};
    hide Disciplined, HeldAfter, Play;
  }

  /** Over a set of usages every disciplined stream is rendered faithfully iff no two of them share a code. */
  lemma PlayedFaithfullyIff(usages: set<HidUsage>, codes: map<HidUsage, Code>)
    ensures DistinctCodes(usages, codes)
       <==> forall events :: Disciplined(events) && Within(events, usages) ==>
              DownAfter(Play(events, codes).log) == Image(HeldAfter(events), codes)
  {
    if DistinctCodes(usages, codes) {
      forall events | Disciplined(events) && Within(events, usages)
        ensures DownAfter(Play(events, codes).log) == Image(HeldAfter(events), codes)
      {
        PlayedImage(events, usages, codes);
      }
    } else {
      var u, v :| u in usages && v in usages && u in codes && v in codes && codes[u] == codes[v] && u != v;
      var events := PressTwo(u, v);
      AliasLetsGo(u, v, codes);
      PlayIsFaithful(events, codes);
      assert LineOf(KeyControl(v), codes).value in Image(HeldAfter(events), codes);
      assert Within(events, usages);
    }
  }

  lemma {:induction false} PlayIsFaithful(events: seq<InputEvent>, codes: map<HidUsage, Code>)
    ensures Faithful(Play(events, codes))
  {
    if events != [] {
      PlayIsFaithful(events[..|events| - 1], codes);
      SendKeepsFaithfulIff(Play(events[..|events| - 1], codes), events[|events| - 1], codes, BOTH);
    }
  }

  /** And whatever was played, letting everything go leaves readers seeing nothing held. */
  lemma NothingStaysDown(events: seq<InputEvent>, codes: map<HidUsage, Code>)
    ensures var r := ReleaseAll(Play(events, codes), BOTH); r.1 && r.0.pressed == {} && DownAfter(r.0.log) == {}
  {
    PlayIsFaithful(events, codes);
    ReleaseAllLeaves(Play(events, codes), BOTH);
  }

  // ---- scroll over a whole stream ------------------------------------------------------------

  /** No bank saturates while the stream is played. */
  predicate BanksHold(events: seq<InputEvent>, codes: map<HidUsage, Code>) {
    forall n :: 0 <= n < |events| && events[n].SmoothWheel? ==>
      var d := Play(events[..n], codes);
      NoSaturation(d.debtX, events[n].scrollX) && NoSaturation(d.debtY, events[n].scrollY)
  }

  /** Over any mix of events the two scroll resolutions never disagree by a detent, on either axis. */
  lemma {:induction false} PlayedAgrees(events: seq<InputEvent>, codes: map<HidUsage, Code>)
    requires BanksHold(events, codes)
    ensures Agree(Play(events, codes))
  {
    if events != [] {
      var n := |events| - 1;
      forall k | 0 <= k < n && events[..n][k].SmoothWheel?
        ensures var d := Play(events[..n][..k], codes);
                NoSaturation(d.debtX, events[..n][k].scrollX) && NoSaturation(d.debtY, events[..n][k].scrollY)
      {
        assert events[..n][..k] == events[..k];
      }
      PlayedAgrees(events[..n], codes);
      if events[n].SmoothWheel? {
        SmoothAgrees(Play(events[..n], codes), events[n].scrollX, events[n].scrollY, codes);
      } else {
        OthersAgree(Play(events[..n], codes), events[n], codes, BOTH);
      }
    }
  }

  /** A bank can only saturate on a scroll within 120 of the end of the machine's integers. */
  lemma ModestScrollHolds(events: seq<InputEvent>, codes: map<HidUsage, Code>)
    requires forall e :: e in events && e.SmoothWheel? ==> Abs(e.scrollX) < 0x7fff_ff00 && Abs(e.scrollY) < 0x7fff_ff00
    ensures BanksHold(events, codes)
  {
    forall n | 0 <= n < |events| && events[n].SmoothWheel?
      ensures var d := Play(events[..n], codes);
              NoSaturation(d.debtX, events[n].scrollX) && NoSaturation(d.debtY, events[n].scrollY)
    {
      DebtSmall(events[..n], codes);
      assert events[n] in events;
    }
  }

  lemma {:induction false} DebtSmall(events: seq<InputEvent>, codes: map<HidUsage, Code>)
    ensures var d := Play(events, codes); -120 < d.debtX < 120 && -120 < d.debtY < 120
  {
    if events != [] {
      var n := |events| - 1;
      DebtSmall(events[..n], codes);
      hide Batch, SmoothBatch, DetentBatch, MoveBatch;
      var d := Play(events[..n], codes);
      if events[n].SmoothWheel? {
        BankExact(d.debtX, events[n].scrollX);
        BankExact(d.debtY, events[n].scrollY);
      }
    }
  }

  /** What an event asks an axis to move, in the finest unit the axis has. */
  function Asked(event: InputEvent, axis: Axis): int {
    match event
    case MouseMove(dx, dy) => if axis.PointerX? then dx else if axis.PointerY? then dy else 0
    case Wheel(x, y) => if axis.HiResX? then 120 * x else if axis.HiResY? then 120 * y else 0
    case SmoothWheel(x, y) => if axis.HiResX? then x else if axis.HiResY? then y else 0
    case _ => 0
  }

  function AllAsked(events: seq<InputEvent>, axis: Axis): int {
    if events == [] then 0 else AllAsked(events[..|events| - 1], axis) + Asked(events[|events| - 1], axis)
  }

  lemma SentAsked(d: VirtualState, event: InputEvent, codes: map<HidUsage, Code>, axis: Axis)
    requires !axis.LegacyX? && !axis.LegacyY?
    ensures Total(Send(d, event, codes, BOTH).0.log, axis) == Total(d.log, axis) + Asked(event, axis)
  {
    hide Total, MoveBatch, Batch, BankDebt;
    match event
    case MouseMove(dx, dy) =>
      SentTotal(d, MoveBatch(PointerX, dx) + MoveBatch(PointerY, dy), axis);
      PairTotal(PointerX, dx, PointerY, dy, axis);
    case Wheel(x, y) =>
      SentTotal(d, DetentBatch(LegacyY, HiResY, y) + DetentBatch(LegacyX, HiResX, x), axis);
      QuadTotal(LegacyY, y, HiResY, y * 120, LegacyX, x, HiResX, x * 120, axis);
    case SmoothWheel(x, y) =>
      var banked := d.(debtX := BankDebt(d.debtX, x).1, debtY := BankDebt(d.debtY, y).1);
      SentTotal(banked, SmoothBatch(LegacyY, HiResY, d.debtY, y) + SmoothBatch(LegacyX, HiResX, d.debtX, x), axis);
      QuadTotal(LegacyY, BankDebt(d.debtY, y).0, HiResY, y, LegacyX, BankDebt(d.debtX, x).0, HiResX, x, axis);
    case Button(button, pressed) => EdgeTotal(d.log, MouseLine(ButtonCode(button)), pressed, BOTH);
    case Key(usage, pressed, _) =>
      if usage in codes {
        EdgeTotal(d.log, KeyboardLine(codes[usage]), pressed, BOTH);
      }
    case _ =>
  }

  /** Nothing is lost between the stream and the device: pointer and hi-res axes move by exactly what was asked. */
  lemma {:induction false} PlayedTotals(events: seq<InputEvent>, codes: map<HidUsage, Code>, axis: Axis)
    requires !axis.LegacyX? && !axis.LegacyY?
    ensures Total(Play(events, codes).log, axis) == AllAsked(events, axis)
  {
    if events != [] {
      PlayedTotals(events[..|events| - 1], codes, axis);
      SentAsked(Play(events[..|events| - 1], codes), events[|events| - 1], codes, axis);
    }
  }

  // ---- capture to injection ------------------------------------------------------------------

  lemma EffectWithin(d: DeviceState, raw: Raw, hid: map<Code, HidUsage>, now: Instant)
    ensures var e := EffectOf(d, raw, hid, now); Within(EventsOf(e) + QueuedBy(e), hid.Values)
  {
    var e := EffectOf(d, raw, hid, now);
    assert raw.code in hid ==> hid[raw.code] in hid.Values;
  }

  lemma WithinConcat(a: seq<InputEvent>, b: seq<InputEvent>, usages: set<HidUsage>)
    ensures Within(a + b, usages) <==> Within(a, usages) && Within(b, usages)
  {
    forall e
      ensures e in a + b <==> e in a || e in b
    {
    }
  }

  lemma {:induction false} AcceptedWithin(s: CaptureState, source: nat, events: seq<InputEvent>, usages: set<HidUsage>)
    requires Within(events, usages)
    ensures Within(AcceptAll(s, source, events).1, usages)
    decreases |events|
  {
    if events != [] {
      assert events == [events[0]] + events[1..];
      WithinConcat([events[0]], events[1..], usages);
      AcceptedWithin(Accept(s, source, events[0]), source, events[1..], usages);
      WithinConcat(if Accepts(s, source, events[0]) then [events[0]] else [],
                   AcceptAll(Accept(s, source, events[0]), source, events[1..]).1, usages);
    }
  }

  lemma {:induction false} ReleasesWithin(s: set<Control>, usages: set<HidUsage>)
    requires HeldWithin(s, usages)
    ensures Within(Releases(s), usages)
    decreases |s|
  {
    if s != {} {
      var c := Least(s);
      ReleasesWithin(s - {c}, usages);
      WithinConcat([c.Release()], Releases(s - {c}), usages);
    }
  }

  lemma ReadWithin(s: CaptureState, i: nat, raw: Raw, hid: map<Code, HidUsage>, now: Instant)
    requires i < |s.devices| && Within(s.log, hid.Values)
    ensures Within(Captures.Read(s, i, raw, hid, now).log, hid.Values)
  {
    var d := s.devices[i];
    var p := Process(d, raw, hid, now);
    var e := EffectOf(d, raw, hid, now);
    ProcessShape(d, raw, hid, now);
    EffectWithin(d, raw, hid, now);
    WithinConcat(EventsOf(e), QueuedBy(e), hid.Values);
    var s1 := s.(devices := s.devices[i := p.0], log := s.log + QueuedBy(e));
    AcceptAllKeepsDevices(s1, i, p.1);
    hide Process, EffectOf, EventsOf, QueuedBy, AcceptAll;
    assert Within(p.1, hid.Values);
    AcceptedWithin(s1, i, p.1, hid.Values);
    WithinConcat(s.log, QueuedBy(e), hid.Values);
    WithinConcat(s1.log, AcceptAll(s1, i, p.1).1, hid.Values);
  }

  lemma UnplugWithin(s: CaptureState, removed: set<nat>, usages: set<HidUsage>)
    requires TrueUnion(s) && Within(s.log, usages)
    ensures Within(Unplug(s, removed).log, usages)
  {
    HeldStaysWithin(s.log, usages);
    hide Releases, UnionOf, Kept, Gone, HeldAfter;
    ReleasesWithin(Orphaned(s, removed), usages);
    WithinConcat(s.log, Releases(Orphaned(s, removed)), usages);
  }

  lemma {:induction false} RunWithin(steps: seq<Step>, hid: map<Code, HidUsage>)
    ensures Within(Run(steps, hid).log, hid.Values)
  {
    if steps != [] {
      var n := |steps| - 1;
      RunWithin(steps[..n], hid);
      RunIsUnion(steps[..n], hid);
      var before := Run(steps[..n], hid);
      hide Within, Captures.Read, Unplug, TrueUnion;
      match steps[n]
      case ReadStep(i, raw, now) =>
        if i < |before.devices| {
          ReadWithin(before, i, raw, hid, now);
        }
      case PlugStep(kind) =>
      case UnplugStep(removed) => UnplugWithin(before, removed, hid.Values);
      case HandOnStep =>
    }
  }

  /** Where the injector's table knows a captured usage at all, it undoes the capture's. */
  predicate Undoes(codes: map<HidUsage, Code>, hid: map<Code, HidUsage>) {
    forall code :: code in hid && hid[code] in codes ==> codes[hid[code]] == code
  }

  /**
   * From the physical keyboards to the virtual one: over every run of reads, taps, remaps, repeats,
   * hot-plugs and disconnects, playing the accepted stream leaves readers of the virtual device
   * seeing held exactly what some physical device holds, keys the injector has no code for left out.
   */
  lemma EndToEnd(steps: seq<Step>, hid: map<Code, HidUsage>, codes: map<HidUsage, Code>)
    requires Undoes(codes, hid)
    ensures var s := Run(steps, hid);
            DownAfter(Play(s.log, codes).log) == Image(UnionOf(s.devices), codes)
  {
    RunIsUnion(steps, hid);
    RunWithin(steps, hid);
    forall u, v | u in hid.Values && v in hid.Values && u in codes && v in codes && codes[u] == codes[v]
      ensures u == v
    {
      var a, b :| a in hid && hid[a] == u && b in hid && hid[b] == v;
    }
    PlayedImage(Run(steps, hid).log, hid.Values, codes);
  }
}
