/** What is made of keyboards and mice: motion summed per report, keys and buttons by their last edge. */
module DeviceMotions {
  import opened Basics
  import opened Events
  import opened Holds
  import opened Devices
  import opened Touchpads

  // ---- motion --------------------------------------------------------------------------------

  /** A mouse that is no touchpad and not our own injector. */
  predicate PlainMouse(kind: Kind) {
    kind.mouse && !kind.touchpad && !kind.ownInjector
  }

  /** Everything reported on one relative axis (event type 2). */
  function SumOf(raws: seq<Timed>, code: Code): int {
    if raws == [] then 0
    else
      var last := raws[|raws| - 1].raw;
      SumOf(raws[..|raws| - 1], code) + if last.kind == 2 && last.code == code then last.value else 0
  }

  predicate NoReport(raws: seq<Timed>) {
    forall t :: t in raws ==> !IsReport(t.raw)
  }

  /** No running sum leaves the machine's integers. */
  ghost predicate NoOverflow(raws: seq<Timed>) {
    forall n, code: Code :: 0 <= n <= |raws| ==> -0x8000_0000 <= SumOf(raws[..n], code) <= 0x7fff_ffff
  }

  lemma SumsFit(raws: seq<Timed>)
    requires NoOverflow(raws)
    ensures forall code: Code :: -0x8000_0000 <= SumOf(raws, code) <= 0x7fff_ffff
  {
    assert raws[..|raws|] == raws;
    forall code: Code
      ensures -0x8000_0000 <= SumOf(raws, code) <= 0x7fff_ffff
    {
      assert -0x8000_0000 <= SumOf(raws[..|raws|], code) <= 0x7fff_ffff;
    }
  }

  lemma RelStep(f: Frame, raws: seq<Timed>)
    requires raws != [] && NoOverflow(raws) && raws[|raws| - 1].raw.kind == 2
    requires var init := raws[..|raws| - 1];
             && f.dx == SumOf(init, 0x00) && f.dy == SumOf(init, 0x01)
             && f.scrollX == SumOf(init, 0x0c) && f.scrollY == SumOf(init, 0x0b)
             && f.detentX == SumOf(init, 0x06) && f.detentY == SumOf(init, 0x08)
    ensures var g := RelFrame(f, raws[|raws| - 1].raw.code, raws[|raws| - 1].raw.value);
            && g.dx == SumOf(raws, 0x00) && g.dy == SumOf(raws, 0x01)
            && g.scrollX == SumOf(raws, 0x0c) && g.scrollY == SumOf(raws, 0x0b)
            && g.detentX == SumOf(raws, 0x06) && g.detentY == SumOf(raws, 0x08)
  {
    SumsFit(raws);
    hide NoOverflow;
  }

  lemma OverflowPrefix(raws: seq<Timed>, n: nat)
    requires NoOverflow(raws) && n <= |raws|
    ensures NoOverflow(raws[..n])
  {
    hide SumOf;
    forall m, code: Code | 0 <= m <= n
      ensures -0x8000_0000 <= SumOf(raws[..n][..m], code) <= 0x7fff_ffff
    {
      assert raws[..n][..m] == raws[..m];
    }
  }

  lemma OtherKeepsFrame(d: DeviceState, t: Timed, hid: map<Code, HidUsage>)
    requires PlainMouse(d.kind) && !IsReport(t.raw)
    ensures var n := Process(d, t.raw, hid, t.now).0;
            n.kind == d.kind
            && n.frame == if t.raw.kind == 2 then RelFrame(d.frame, t.raw.code, t.raw.value) else d.frame
  {
    hide RelFrame, EffectOf, Flush;
  }

  /** Between two reports a plain mouse sums what it reads, axis by axis. */
  lemma {:induction false} FrameGathers(d: DeviceState, raws: seq<Timed>, hid: map<Code, HidUsage>)
    requires PlainMouse(d.kind) && d.frame == EMPTY_FRAME && NoReport(raws) && NoOverflow(raws)
    ensures var n := After(d, raws, hid);
            && n.kind == d.kind
            && n.frame.dx == SumOf(raws, 0x00) && n.frame.dy == SumOf(raws, 0x01)
            && n.frame.scrollX == SumOf(raws, 0x0c) && n.frame.scrollY == SumOf(raws, 0x0b)
            && n.frame.detentX == SumOf(raws, 0x06) && n.frame.detentY == SumOf(raws, 0x08)
  {
    if raws != [] {
      var n := |raws| - 1;
      hide Process, RelFrame, NoOverflow;
      OverflowPrefix(raws, n);
      FrameGathers(d, raws[..n], hid);
      assert raws[n] in raws;
      OtherKeepsFrame(After(d, raws[..n], hid), raws[n], hid);
      if raws[n].raw.kind == 2 {
        RelStep(After(d, raws[..n], hid).frame, raws);
      }
    }
  }

  /** What a plain mouse has moved and scrolled since its last report, as events. */
  ghost function Gathered(raws: seq<Timed>): seq<InputEvent>
    requires NoOverflow(raws)
  {
    SumsFit(raws);
    var moveX, moveY := SumOf(raws, 0x00), SumOf(raws, 0x01);
    var hiResX, hiResY := SumOf(raws, 0x0c), SumOf(raws, 0x0b);
    var detentsX, detentsY := SumOf(raws, 0x06), SumOf(raws, 0x08);
    (if moveX != 0 || moveY != 0 then [MouseMove(moveX, moveY)] else [])
    + if hiResX != 0 || hiResY != 0 then [SmoothWheel(hiResX, hiResY)]
      else if detentsX != 0 || detentsY != 0
      then [SmoothWheel(SaturateI32(120 * detentsX), SaturateI32(120 * detentsY))]
      else []
  }

  /** The run ends in a report, or nothing happened yet. */
  predicate JustReported(raws: seq<Timed>) {
    raws == [] || IsReport(raws[|raws| - 1].raw)
  }

  lemma ReportEmpties(d: DeviceState, t: Timed, hid: map<Code, HidUsage>)
    requires PlainMouse(d.kind) && IsReport(t.raw)
    ensures Process(d, t.raw, hid, t.now).0.frame == EMPTY_FRAME && Process(d, t.raw, hid, t.now).0.kind == d.kind
    ensures Process(d, t.raw, hid, t.now).1 == Flush(d.frame)
  {
    hide Flush, EffectOf;
  }

  /**
   * Over every run of a plain mouse, a report sends the sum of the motion read since the report before it,
   * horizontal and vertical, and the sum of the scroll, hi-res if there was any; and nothing else.
   */
  lemma MouseReports(
    kind: Kind, before: seq<Timed>, between: seq<Timed>, report: Raw, now: Instant, hid: map<Code, HidUsage>)
    requires PlainMouse(kind) && JustReported(before) && NoReport(between) && NoOverflow(between) && IsReport(report)
    ensures Process(After(After(Opened(kind), before, hid), between, hid), report, hid, now).1 == Gathered(between)
  {
    hide Process, Flush, NoOverflow, SumOf;
    var d := After(Opened(kind), before, hid);
    KindKept(Opened(kind), before, hid);
    if before != [] {
      var n := |before| - 1;
      KindKept(Opened(kind), before[..n], hid);
      ReportEmpties(After(Opened(kind), before[..n], hid), before[n], hid);
    }
    FrameGathers(d, between, hid);
    ReportEmpties(After(d, between, hid), Timed(report, now), hid);
    FlushIsGathered(After(d, between, hid).frame, between);
  }

  lemma FlushIsGathered(f: Frame, raws: seq<Timed>)
    requires NoOverflow(raws)
    requires f.dx == SumOf(raws, 0x00) && f.dy == SumOf(raws, 0x01)
    requires f.scrollX == SumOf(raws, 0x0c) && f.scrollY == SumOf(raws, 0x0b)
    requires f.detentX == SumOf(raws, 0x06) && f.detentY == SumOf(raws, 0x08)
    ensures Flush(f) == Gathered(raws)
  {
    hide SumOf, NoOverflow;
  }

  // ---- keys and buttons ----------------------------------------------------------------------

  /** The evdev codes of the five buttons. */
  const BUTTONS: map<Code, MouseButton> :=
    map[0x110 := LeftButton, 0x111 := RightButton, 0x112 := MiddleButton, 0x113 := BackButton, 0x114 := ForwardButton]

  /** A keyboard or mouse that is no touchpad and not our own injector. */
  predicate Plain(kind: Kind) {
    !kind.touchpad && !kind.ownInjector
  }

  /** A raw key event (type 1) that is about this control: a mouse's button codes first, then the keyboard's keys. */
  predicate About(kind: Kind, raw: Raw, hid: map<Code, HidUsage>, c: Control) {
    raw.kind == 1 &&
    match c
    case ButtonControl(button) => kind.mouse && raw.code in BUTTONS && BUTTONS[raw.code] == button
    case KeyControl(usage) =>
      kind.keyboard && !(kind.mouse && raw.code in BUTTONS) && raw.code in hid && hid[raw.code] == usage
  }

  /** An event about a control: zero lets go, a repeat of a held key is passed on, anything else presses. */
  lemma EdgeMeans(d: DeviceState, raw: Raw, hid: map<Code, HidUsage>, now: Instant, c: Control)
    requires Plain(d.kind) && About(d.kind, raw, hid, c)
    ensures var p := Process(d, raw, hid, now);
            if raw.value == 0 then
              p.1 == [c.Release()] && p.0.held == d.held - {c} && p.0.queue == d.queue
            else if raw.value == 2 && c.KeyControl? && c in d.held then
              p.1 == [] && p.0.held == d.held && p.0.queue == d.queue + [Key(c.usage, true, true)]
            else p.1 == [c.Press()] && p.0.held == d.held + {c} && p.0.queue == d.queue
  {
    assert d.queue + [] == d.queue;
  }

  /** And an event about nothing holds and offers nothing but motion. */
  lemma OthersMeanNothing(d: DeviceState, raw: Raw, hid: map<Code, HidUsage>, now: Instant)
    requires Plain(d.kind) && forall c :: !About(d.kind, raw, hid, c)
    ensures Process(d, raw, hid, now).0.held == d.held && Process(d, raw, hid, now).0.queue == d.queue
    ensures raw.kind == 1 ==> Process(d, raw, hid, now).1 == []
  {
    if raw.kind == 1 {
      if raw.code in BUTTONS {
        assert !About(d.kind, raw, hid, ButtonControl(BUTTONS[raw.code]));
      }
      if raw.code in hid {
        assert !About(d.kind, raw, hid, KeyControl(hid[raw.code]));
      }
    }
    hide Flush, RelFrame;
    assert d.queue + [] == d.queue;
  }

  /** The last raw event about a control left it down. */
  predicate LastDown(kind: Kind, raws: seq<Timed>, hid: map<Code, HidUsage>, c: Control) {
    if raws == [] then false
    else
      var last := raws[|raws| - 1].raw;
      if About(kind, last, hid, c) then last.value != 0 else LastDown(kind, raws[..|raws| - 1], hid, c)
  }

  /** Two controls are never meant by one event. */
  lemma AboutOne(kind: Kind, raw: Raw, hid: map<Code, HidUsage>, a: Control, b: Control)
    requires About(kind, raw, hid, a) && About(kind, raw, hid, b)
    ensures a == b
  {
  }

  lemma HeldStep(d: DeviceState, t: Timed, hid: map<Code, HidUsage>, c: Control)
    requires Plain(d.kind)
    ensures c in Process(d, t.raw, hid, t.now).0.held
        <==> if About(d.kind, t.raw, hid, c) then t.raw.value != 0 else c in d.held
  {
    hide Process, About;
    if a :| About(d.kind, t.raw, hid, a) {
      EdgeMeans(d, t.raw, hid, t.now, a);
      if About(d.kind, t.raw, hid, c) {
        AboutOne(d.kind, t.raw, hid, a, c);
      }
    } else {
      OthersMeanNothing(d, t.raw, hid, t.now);
    }
  }

  /** Over every run a keyboard or mouse holds a control exactly when the last event about it left it down. */
  lemma {:induction false} HeldIffLastDown(kind: Kind, raws: seq<Timed>, hid: map<Code, HidUsage>, c: Control)
    requires Plain(kind)
    ensures c in After(Opened(kind), raws, hid).held <==> LastDown(kind, raws, hid, c)
  {
    hide Process, About;
    if raws != [] {
      var n := |raws| - 1;
      HeldIffLastDown(kind, raws[..n], hid, c);
      KindKept(Opened(kind), raws[..n], hid);
      HeldStep(After(Opened(kind), raws[..n], hid), raws[n], hid, c);
    }
  }
}
