/** What programs that read the virtual devices see held: they learn of an edge with its device's next report. */
module VirtualReaders {
  import opened Basics
  import opened Events
  import opened Devices
  import opened VirtualDevices
  import opened VirtualHolds

  /** The log up to a device's last report. */
  function Received(log: seq<Written>, report: Written): seq<Written> {
    if log == [] || log[|log| - 1] == report then log else Received(log[..|log| - 1], report)
  }

  predicate SeenDown(log: seq<Written>, line: Line) {
    line in DownAfter(Received(log, ReportOf(line)))
  }

  /** Nothing is held back from the readers. */
  predicate UpToDate(log: seq<Written>, line: Line) {
    SeenDown(log, line) <==> line in DownAfter(log)
  }

  /** Writes that hold no edge of a line leave it up or down. */
  lemma {:induction false} DownKept(log: seq<Written>, more: seq<Written>, line: Line)
    requires forall e :: e in more ==> !(e.Edge? && e.line == line)
    ensures line in DownAfter(log + more) <==> line in DownAfter(log)
  {
    if more == [] {
      assert log + more == log;
    } else {
      var n := |more| - 1;
      DownKept(log, more[..n], line);
      assert (log + more)[..|log + more| - 1] == log + more[..n];
      assert more[n] in more;
    }
  }

  /** And they leave it as up to date as it was. */
  lemma {:induction false} QuietUpToDate(log: seq<Written>, more: seq<Written>, line: Line)
    requires UpToDate(log, line) && forall e :: e in more ==> !(e.Edge? && e.line == line)
    ensures UpToDate(log + more, line)
  {
    if more == [] {
      assert log + more == log;
    } else {
      var n := |more| - 1;
      QuietUpToDate(log, more[..n], line);
      DownKept(log, more[..n], line);
      assert (log + more)[..|log + more| - 1] == log + more[..n];
      assert more[n] in more;
    }
  }

  /** An edge that changes a line is news until its device reports. */
  lemma EdgeUpToDate(log: seq<Written>, line: Line, pressed: bool)
    ensures UpToDate(log + [Edge(line, pressed), ReportOf(line)], line)
    ensures line in DownAfter(log + [Edge(line, pressed), ReportOf(line)]) <==> pressed
  {
    var once := log + [Edge(line, pressed)];
    assert once[..|log|] == log;
    assert log + [Edge(line, pressed), ReportOf(line)] == once + [ReportOf(line)];
    assert (once + [ReportOf(line)])[..|once|] == once;
  }

  lemma BatchUpToDate(d: VirtualState, batch: seq<Written>, w: Writes, line: Line)
    requires UpToDate(d.log, line) && NoEdges(batch)
    ensures UpToDate(Batch(d, batch, w).0.log, line)
  {
    hide UpToDate;
    if w.mouse.Whole? && batch != [] {
      assert d.log + batch + [MouseReport] == d.log + (batch + [MouseReport]);
      QuietUpToDate(d.log, batch + [MouseReport], line);
    }
  }

  lemma SetUpToDate(d: VirtualState, changed: Line, pressed: bool, w: Writes, line: Line)
    requires UpToDate(d.log, line) && !OutcomeOf(changed, w).EdgeOnly?
    ensures UpToDate(SetLine(d, changed, pressed, w).0.log, line)
  {
    hide UpToDate;
    if OutcomeOf(changed, w).Whole? {
      if changed == line {
        EdgeUpToDate(d.log, line, pressed);
      } else {
        QuietUpToDate(d.log, [Edge(changed, pressed), ReportOf(changed)], line);
      }
    } else {
      assert d.log + [] == d.log;
    }
  }

  /** While no edge is written without its report, readers are never behind. */
  lemma SendUpToDate(d: VirtualState, event: InputEvent, codes: map<HidUsage, Code>, w: Writes, line: Line)
    requires UpToDate(d.log, line) && !w.mouse.EdgeOnly? && !w.keyboard.EdgeOnly?
    ensures UpToDate(Send(d, event, codes, w).0.log, line)
  {
    hide UpToDate, MoveBatch, DetentBatch, SmoothBatch, Batch, SetLine;
    match event
    case Button(button, pressed) => SetUpToDate(d, MouseLine(ButtonCode(button)), pressed, w, line);
    case Key(usage, pressed, _) =>
      if usage in codes {
        SetUpToDate(d, KeyboardLine(codes[usage]), pressed, w, line);
      }
    case MouseMove(dx, dy) =>
      MovesOnly(PointerX, dx, PointerY, dy);
      BatchUpToDate(d, MoveBatch(PointerX, dx) + MoveBatch(PointerY, dy), w, line);
    case Wheel(x, y) =>
      DetentsOnly(LegacyY, HiResY, y);
      DetentsOnly(LegacyX, HiResX, x);
      BatchUpToDate(d, DetentBatch(LegacyY, HiResY, y) + DetentBatch(LegacyX, HiResX, x), w, line);
    case SmoothWheel(x, y) =>
      SmoothOnly(LegacyY, HiResY, d.debtY, y);
      SmoothOnly(LegacyX, HiResX, d.debtX, x);
      var batch := SmoothBatch(LegacyY, HiResY, d.debtY, y) + SmoothBatch(LegacyX, HiResX, d.debtX, x);
      BatchUpToDate(d.(debtX := BankDebt(d.debtX, x).1, debtY := BankDebt(d.debtY, y).1), batch, w, line);
    case _ =>
  }

  /** So over every stream played, readers see held exactly what was written as held. */
  lemma {:induction false} PlayedIsSeen(events: seq<InputEvent>, codes: map<HidUsage, Code>, line: Line)
    ensures SeenDown(Play(events, codes).log, line) <==> line in DownAfter(Play(events, codes).log)
  {
    if events != [] {
      var n := |events| - 1;
      PlayedIsSeen(events[..n], codes, line);
      SendUpToDate(Play(events[..n], codes), events[n], codes, BOTH, line);
      hide Send;
    }
  }

  /** A press torn on a fresh device, everything let go, and then another key pressed and let go whole. */
  function TornThenTyped(usage: HidUsage, other: HidUsage, codes: map<HidUsage, Code>): (VirtualState, bool) {
    var torn := Send(CREATED, Key(usage, true, false), codes, Writes(Whole, EdgeOnly)).0;
    var pressed := Send(ReleaseAll(torn, BOTH).0, Key(other, true, false), codes, BOTH).0;
    Send(pressed, Key(other, false, false), codes, BOTH)
  }

  /**
   * A key press torn between edge and report is never let go: letting everything go succeeds and writes
   * nothing for it, and with the next key typed the readers see it go down and stay down.
   */
  lemma TornPressSticks(usage: HidUsage, other: HidUsage, codes: map<HidUsage, Code>)
    requires usage in codes && other in codes && codes[usage] != codes[other]
    ensures var torn := Send(CREATED, Key(usage, true, false), codes, Writes(Whole, EdgeOnly));
            !torn.1 && ReleaseAll(torn.0, BOTH).1 && ReleaseAll(torn.0, BOTH).0.log == torn.0.log
    ensures var typed := TornThenTyped(usage, other, codes);
            typed.1 && typed.0.pressed == {} && SeenDown(typed.0.log, KeyboardLine(codes[usage]))
  {
    hide SeenDown, Send, ReleaseAll, DownAfter, Received;
    var stuck, line := KeyboardLine(codes[usage]), KeyboardLine(codes[other]);
    TornPress(usage, codes);
    TornState(stuck);
    TypedWhole(VirtualState({}, 0, 0, [Edge(stuck, true)]), other, codes);
    StaysSeen(stuck, line);
  }

  lemma TornPress(usage: HidUsage, codes: map<HidUsage, Code>)
    requires usage in codes
    ensures Send(CREATED, Key(usage, true, false), codes, Writes(Whole, EdgeOnly))
         == (VirtualState({}, 0, 0, [Edge(KeyboardLine(codes[usage]), true)]), false)
  {
    var e := Edge(KeyboardLine(codes[usage]), true);
    assert [] + [e] == [e];
  }

  lemma TornState(stuck: Line)
    ensures ReleaseAll(VirtualState({}, 0, 0, [Edge(stuck, true)]), BOTH)
         == (VirtualState({}, 0, 0, [Edge(stuck, true)]), true)
  {
    assert LetGo({}, BOTH) == [] && [Edge(stuck, true)] + [] == [Edge(stuck, true)];
  }

  /** One key pressed and let go whole, with nothing held. */
  lemma TypedWhole(d: VirtualState, other: HidUsage, codes: map<HidUsage, Code>)
    requires other in codes && d.pressed == {}
    ensures var line := KeyboardLine(codes[other]);
            Send(Send(d, Key(other, true, false), codes, BOTH).0, Key(other, false, false), codes, BOTH)
            == (d.(log := d.log + [Edge(line, true), KeyboardReport] + [Edge(line, false), KeyboardReport]), true)
  {
    var line := KeyboardLine(codes[other]);
    assert {} + {line} == {line} && {line} - {line} == {};
  }

  lemma StaysSeen(stuck: Line, line: Line)
    requires stuck.KeyboardLine? && line != stuck
    ensures SeenDown(
      [Edge(stuck, true)] + [Edge(line, true), KeyboardReport] + [Edge(line, false), KeyboardReport], stuck)
  {
    hide DownAfter;
    var more := [Edge(line, true), KeyboardReport] + [Edge(line, false), KeyboardReport];
    var log := [Edge(stuck, true)] + more;
    assert log == [Edge(stuck, true)] + [Edge(line, true), KeyboardReport] + [Edge(line, false), KeyboardReport];
    DownKept([Edge(stuck, true)], more, stuck);
    EdgeDown(stuck);
    assert log[|log| - 1] == KeyboardReport;
  }

  lemma EdgeDown(line: Line)
    ensures line in DownAfter([Edge(line, true)])
  {
    assert [Edge(line, true)][..0] == [];
  }
}
