/** The virtual mouse and keyboard: what each event writes, as functions on values. */
module VirtualDevices {
  import opened Basics
  import opened Events
  import opened Holds
  import opened Devices

  /** A key of the virtual keyboard or a button of the virtual mouse, by evdev code. */
  datatype Line = KeyboardLine(code: Code) | MouseLine(code: Code)

  datatype Axis = PointerX | PointerY | LegacyX | LegacyY | HiResX | HiResY

  /** One event written to a device; a report closes each batch. */
  datatype Written = Edge(line: Line, pressed: bool) | Moved(axis: Axis, amount: int) | MouseReport | KeyboardReport

  /** How a write ends. An edge and its report are written one after the other, so the edge alone may get through. */
  datatype Outcome = Whole | EdgeOnly | Nothing

  /** How writes to the two device files end. */
  datatype Writes = Writes(mouse: Outcome, keyboard: Outcome)

  const BOTH := Writes(Whole, Whole)

  datatype VirtualState = VirtualState(pressed: set<Line>, debtX: i32, debtY: i32, log: seq<Written>)

  const CREATED := VirtualState({}, 0, 0, [])

  function ButtonCode(button: MouseButton): Code {
    match button
    case LeftButton => BTN_LEFT
    case RightButton => BTN_RIGHT
    case MiddleButton => BTN_MIDDLE
    case BackButton => BTN_SIDE
    case ForwardButton => BTN_EXTRA
  }

  function LineOf(c: Control, codes: map<HidUsage, Code>): Option<Line> {
    match c
    case ButtonControl(button) => Some(MouseLine(ButtonCode(button)))
    case KeyControl(usage) => if usage in codes then Some(KeyboardLine(codes[usage])) else None
  }

  function OutcomeOf(line: Line, w: Writes): Outcome {
    if line.MouseLine? then w.mouse else w.keyboard
  }

  function ReportOf(line: Line): Written {
    if line.MouseLine? then MouseReport else KeyboardReport
  }

  /** Whole detents to send for a scroll on one axis, and the debt left in the bank. */
  function BankDebt(debt: i32, delta: i32): (r: (int, i32)) {
    if delta == 0 then (0, debt)
    else
      var banked := SaturateI32(debt + delta);
      var detents := TruncDiv(banked, 120);
      (detents, banked - detents * 120)
  }

  function Batch(d: VirtualState, batch: seq<Written>, w: Writes): (VirtualState, bool) {
    if batch == [] then (d, true)
    else if w.mouse.Whole? then (d.(log := d.log + batch + [MouseReport]), true)
    else (d, false)
  }

  function MoveBatch(axis: Axis, amount: int): seq<Written> {
    if amount != 0 then [Moved(axis, amount)] else []
  }

  function DetentBatch(legacy: Axis, hiRes: Axis, detents: int): seq<Written> {
    MoveBatch(legacy, detents) + MoveBatch(hiRes, detents * 120)
  }

  function SmoothBatch(legacy: Axis, hiRes: Axis, debt: i32, delta: i32): seq<Written> {
    MoveBatch(legacy, BankDebt(debt, delta).0) + MoveBatch(hiRes, delta)
  }

  /** What gets through of an edge and its report. */
  function EdgeWrites(line: Line, pressed: bool, w: Writes): seq<Written> {
    match OutcomeOf(line, w)
    case Whole => [Edge(line, pressed), ReportOf(line)]
    case EdgeOnly => [Edge(line, pressed)]
    case Nothing => []
  }

  /** The bookkeeping follows only when edge and report both get through. */
  function SetLine(d: VirtualState, line: Line, pressed: bool, w: Writes): (VirtualState, bool) {
    var whole := OutcomeOf(line, w).Whole?;
    var held := if pressed then d.pressed + {line} else d.pressed - {line};
    (d.(pressed := if whole then held else d.pressed, log := d.log + EdgeWrites(line, pressed, w)), whole)
  }

  /** One event played; the flag says whether it succeeded. */
  function Send(d: VirtualState, event: InputEvent, codes: map<HidUsage, Code>, w: Writes): (VirtualState, bool) {
    match event
    case MouseMove(dx, dy) => Batch(d, MoveBatch(PointerX, dx) + MoveBatch(PointerY, dy), w)
    case Button(button, pressed) => SetLine(d, MouseLine(ButtonCode(button)), pressed, w)
    case Wheel(x, y) => Batch(d, DetentBatch(LegacyY, HiResY, y) + DetentBatch(LegacyX, HiResX, x), w)
    case SmoothWheel(x, y) =>
      var batch := SmoothBatch(LegacyY, HiResY, d.debtY, y) + SmoothBatch(LegacyX, HiResX, d.debtX, x);
      Batch(d.(debtX := BankDebt(d.debtX, x).1, debtY := BankDebt(d.debtY, y).1), batch, w)
    case Key(usage, pressed, _) =>
      if usage !in codes then (d, false)
      else
        var line := KeyboardLine(codes[usage]);
        if pressed && line in d.pressed then (d, true) else SetLine(d, line, pressed, w)
    case _ => (d, true)
  }

  // ---- releasing everything ------------------------------------------------------------------

  /** Keyboard lines before mouse lines, each in ascending order. */
  predicate Before(a: Line, b: Line) {
    if a.KeyboardLine? == b.KeyboardLine? then a.code <= b.code else a.KeyboardLine?
  }

  lemma {:induction false} HasFirst(s: set<Line>)
    requires s != {}
    ensures exists l :: l in s && forall k :: k in s ==> Before(l, k)
    decreases |s|
  {
    var l :| l in s;
    var rest := s - {l};
    if rest == {} {
      assert forall k :: k in s ==> k == l || k in rest;
    } else {
      HasFirst(rest);
      var m :| m in rest && forall k :: k in rest ==> Before(m, k);
      var first := if Before(l, m) then l else m;
      assert forall k :: k in s ==> k == l || k in rest;
      assert forall k :: k in s ==> Before(first, k);
    }
  }

  function First(s: set<Line>): (l: Line)
    requires s != {}
    ensures l in s && forall k :: k in s ==> Before(l, k)
  {
    HasFirst(s);
    var l :| l in s && forall k :: k in s ==> Before(l, k);
    l
  }

  /** What is written when a set of lines is let go: failed writes leave nothing. */
  function LetGo(lines: set<Line>, w: Writes): seq<Written>
    decreases |lines|
  {
    if lines == {} then []
    else
      var l := First(lines);
      EdgeWrites(l, false, w) + LetGo(lines - {l}, w)
  }

  /** Every held line is let go, best effort, and the bookkeeping is cleared in any case. */
  function ReleaseAll(d: VirtualState, w: Writes): (VirtualState, bool) {
    (d.(pressed := {}, log := d.log + LetGo(d.pressed, w)), forall l :: l in d.pressed ==> OutcomeOf(l, w).Whole?)
  }

  // ---- reading the log back ------------------------------------------------------------------

  /** What one written event does to what the edges in the log leave held. */
  function DownNext(down: set<Line>, e: Written): set<Line> {
    if !e.Edge? then down else if e.pressed then down + {e.line} else down - {e.line}
  }

  /** What the edges in the log leave held; readers see an edge with the next report of its device. */
  function DownAfter(log: seq<Written>): set<Line> {
    if log == [] then {} else DownNext(DownAfter(log[..|log| - 1]), log[|log| - 1])
  }

  /** Everything a log moved an axis. */
  function Total(log: seq<Written>, axis: Axis): int {
    if log == [] then 0
    else
      var e := log[|log| - 1];
      Total(log[..|log| - 1], axis) + if e.Moved? && e.axis == axis then e.amount else 0
  }

  lemma {:induction false} TotalConcat(a: seq<Written>, b: seq<Written>, axis: Axis)
    ensures Total(a + b, axis) == Total(a, axis) + Total(b, axis)
  {
    if b == [] {
      assert a + b == a;
    } else {
      assert (a + b)[..|a + b| - 1] == a + b[..|b| - 1];
      TotalConcat(a, b[..|b| - 1], axis);
    }
  }

  lemma {:induction false} DownConcat(a: seq<Written>, b: seq<Written>)
    requires forall e :: e in b ==> !e.Edge?
    ensures DownAfter(a + b) == DownAfter(a)
  {
    if b == [] {
      assert a + b == a;
    } else {
      assert (a + b)[..|a + b| - 1] == a + b[..|b| - 1];
      assert b[|b| - 1] in b;
      DownConcat(a, b[..|b| - 1]);
    }
  }

  /** An edge that gets through stands in the log, with its report or without. */
  lemma DownEdge(log: seq<Written>, line: Line, pressed: bool, w: Writes)
    ensures DownAfter(log + EdgeWrites(line, pressed, w))
         == if OutcomeOf(line, w).Nothing? then DownAfter(log) else DownNext(DownAfter(log), Edge(line, pressed))
  {
    var once := log + [Edge(line, pressed)];
    assert once[..|log|] == log;
    match OutcomeOf(line, w)
    case Whole =>
      assert log + [Edge(line, pressed), ReportOf(line)] == once + [ReportOf(line)];
      DownConcat(once, [ReportOf(line)]);
    case EdgeOnly =>
    case Nothing => assert log + [] == log;
  }

  // ---- what is held --------------------------------------------------------------------------

  /** The bookkeeping agrees with what the log leaves held. */
  ghost predicate Faithful(d: VirtualState) {
    DownAfter(d.log) == d.pressed
  }

  /** The line an event sets, and which way; none for a key without a code and for a repeat of a held key. */
  function LineSet(d: VirtualState, event: InputEvent, codes: map<HidUsage, Code>): Option<(Line, bool)> {
    match event
    case Button(button, pressed) => Some((MouseLine(ButtonCode(button)), pressed))
    case Key(usage, pressed, _) =>
      if usage !in codes || (pressed && KeyboardLine(codes[usage]) in d.pressed) then None
      else Some((KeyboardLine(codes[usage]), pressed))
    case _ => None
  }

  /** The edge of an event that changes what is held gets through without its report. */
  predicate Torn(d: VirtualState, event: InputEvent, codes: map<HidUsage, Code>, w: Writes) {
    match LineSet(d, event, codes)
    case Some((line, pressed)) => OutcomeOf(line, w).EdgeOnly? && (line in d.pressed) != pressed
    case None => false
  }

  /** The bookkeeping drifts from what the log leaves held exactly when a write is torn; no other failure makes it. */
  lemma SendKeepsFaithfulIff(d: VirtualState, event: InputEvent, codes: map<HidUsage, Code>, w: Writes)
    requires Faithful(d)
    ensures Faithful(Send(d, event, codes, w).0) <==> !Torn(d, event, codes, w)
  {
    hide DownAfter, MoveBatch, DetentBatch, SmoothBatch, Batch, EdgeWrites;
    match event
    case Button(button, pressed) => DownEdge(d.log, MouseLine(ButtonCode(button)), pressed, w);
    case Key(usage, pressed, _) =>
      if usage in codes {
        DownEdge(d.log, KeyboardLine(codes[usage]), pressed, w);
      }
    case MouseMove(dx, dy) =>
      MovesOnly(PointerX, dx, PointerY, dy);
      BatchKeepsFaithful(d, MoveBatch(PointerX, dx) + MoveBatch(PointerY, dy), w);
    case Wheel(x, y) =>
      DetentsOnly(LegacyY, HiResY, y);
      DetentsOnly(LegacyX, HiResX, x);
      BatchKeepsFaithful(d, DetentBatch(LegacyY, HiResY, y) + DetentBatch(LegacyX, HiResX, x), w);
    case SmoothWheel(x, y) =>
      SmoothOnly(LegacyY, HiResY, d.debtY, y);
      SmoothOnly(LegacyX, HiResX, d.debtX, x);
      var batch := SmoothBatch(LegacyY, HiResY, d.debtY, y) + SmoothBatch(LegacyX, HiResX, d.debtX, x);
      BatchKeepsFaithful(d.(debtX := BankDebt(d.debtX, x).1, debtY := BankDebt(d.debtY, y).1), batch, w);
    case _ =>
  }

  predicate NoEdges(batch: seq<Written>) {
    forall e :: e in batch ==> !e.Edge?
  }

  lemma MovesOnly(a: Axis, m: int, b: Axis, n: int)
    ensures NoEdges(MoveBatch(a, m) + MoveBatch(b, n))
  {
  }

  lemma DetentsOnly(legacy: Axis, hiRes: Axis, detents: int)
    ensures NoEdges(DetentBatch(legacy, hiRes, detents))
  {
  }

  lemma SmoothOnly(legacy: Axis, hiRes: Axis, debt: i32, delta: i32)
    ensures NoEdges(SmoothBatch(legacy, hiRes, debt, delta))
  {
  }

  lemma BatchKeepsFaithful(d: VirtualState, batch: seq<Written>, w: Writes)
    requires Faithful(d) && NoEdges(batch)
    ensures Faithful(Batch(d, batch, w).0)
  {
    if w.mouse.Whole? && batch != [] {
      DownConcat(d.log, batch);
      DownConcat(d.log + batch, [MouseReport]);
    }
  }

  lemma {:induction false} LetGoDown(log: seq<Written>, lines: set<Line>, w: Writes)
    ensures DownAfter(log + LetGo(lines, w)) == DownAfter(log) - set l | l in lines && !OutcomeOf(l, w).Nothing?
    decreases |lines|
  {
    if lines == {} {
      assert log + LetGo(lines, w) == log;
    } else {
      var l := First(lines);
      var first := EdgeWrites(l, false, w);
      assert log + LetGo(lines, w) == log + first + LetGo(lines - {l}, w);
      LetGoDown(log + first, lines - {l}, w);
      DownEdge(log, l, false, w);
      hide DownAfter, LetGo, EdgeWrites;
    }
  }

  /**
   * Letting everything go leaves in the log exactly the held lines whose edge could not be written at
   * all, though the bookkeeping is cleared; so nothing, whenever it reports success.
   */
  lemma ReleaseAllLeaves(d: VirtualState, w: Writes)
    requires Faithful(d)
    ensures var r := ReleaseAll(d, w);
            && r.0.pressed == {} && r.0.debtX == d.debtX && r.0.debtY == d.debtY
            && DownAfter(r.0.log) == (set l | l in d.pressed && OutcomeOf(l, w).Nothing?)
            && (r.1 ==> DownAfter(r.0.log) == {})
            && (w == BOTH ==> r.1 && Faithful(r.0))
  {
    LetGoDown(d.log, d.pressed, w);
    var stuck := set l | l in d.pressed && OutcomeOf(l, w).Nothing?;
    assert DownAfter(d.log) - (set l | l in d.pressed && !OutcomeOf(l, w).Nothing?) == stuck;
  }

  // ---- the two scroll resolutions ------------------------------------------------------------

  /** The two resolutions of each axis never disagree by a detent. */
  ghost predicate Agree(d: VirtualState) {
    && Total(d.log, HiResX) == 120 * Total(d.log, LegacyX) + d.debtX && -120 < d.debtX < 120
    && Total(d.log, HiResY) == 120 * Total(d.log, LegacyY) + d.debtY && -120 < d.debtY < 120
  }

  /** A scroll on one axis stays inside the machine's integers. */
  predicate NoSaturation(debt: i32, delta: i32) {
    -0x8000_0000 <= debt + delta <= 0x7fff_ffff
  }

  lemma BankExact(debt: i32, delta: i32)
    requires -120 < debt < 120
    ensures var r := BankDebt(debt, delta);
            && -120 < r.1 < 120
            && (NoSaturation(debt, delta) <==> debt + delta == 120 * r.0 + r.1)
  {
  }

  lemma BatchTotal(log: seq<Written>, batch: seq<Written>, axis: Axis)
    ensures Total(log + batch + [MouseReport], axis) == Total(log, axis) + Total(batch, axis)
  {
    TotalConcat(log + batch, [MouseReport], axis);
    TotalConcat(log, batch, axis);
  }

  lemma MoveTotal(moved: Axis, amount: int, axis: Axis)
    ensures Total(MoveBatch(moved, amount), axis) == if moved == axis then amount else 0
  {
  }

  lemma PairTotal(la: Axis, a: int, lb: Axis, b: int, axis: Axis)
    ensures Total(MoveBatch(la, a) + MoveBatch(lb, b), axis)
        == (if la == axis then a else 0) + (if lb == axis then b else 0)
  {
    TotalConcat(MoveBatch(la, a), MoveBatch(lb, b), axis);
    MoveTotal(la, a, axis);
    MoveTotal(lb, b, axis);
  }

  lemma QuadTotal(la: Axis, a: int, lb: Axis, b: int, lc: Axis, c: int, ld: Axis, d: int, axis: Axis)
    ensures Total((MoveBatch(la, a) + MoveBatch(lb, b)) + (MoveBatch(lc, c) + MoveBatch(ld, d)), axis)
         == (if la == axis then a else 0) + (if lb == axis then b else 0)
            + (if lc == axis then c else 0) + (if ld == axis then d else 0)
  {
    TotalConcat(MoveBatch(la, a) + MoveBatch(lb, b), MoveBatch(lc, c) + MoveBatch(ld, d), axis);
    PairTotal(la, a, lb, b, axis);
    PairTotal(lc, c, ld, d, axis);
  }

  lemma SentTotal(d: VirtualState, batch: seq<Written>, axis: Axis)
    ensures Total(Batch(d, batch, BOTH).0.log, axis) == Total(d.log, axis) + Total(batch, axis)
  {
    BatchTotal(d.log, batch, axis);
  }

  /** One written scroll keeps the resolutions in step exactly when neither bank saturates. */
  lemma SmoothAgrees(d: VirtualState, x: i32, y: i32, codes: map<HidUsage, Code>)
    requires Agree(d)
    ensures Agree(Send(d, SmoothWheel(x, y), codes, BOTH).0) <==> NoSaturation(d.debtX, x) && NoSaturation(d.debtY, y)
  {
    var bankY, bankX := BankDebt(d.debtY, y), BankDebt(d.debtX, x);
    var batch := SmoothBatch(LegacyY, HiResY, d.debtY, y) + SmoothBatch(LegacyX, HiResX, d.debtX, x);
    var banked := d.(debtX := bankX.1, debtY := bankY.1);
    forall axis
      ensures Total(Batch(banked, batch, BOTH).0.log, axis)
           == Total(d.log, axis) + (if axis == LegacyY then bankY.0 else 0) + (if axis == HiResY then y else 0)
              + (if axis == LegacyX then bankX.0 else 0) + (if axis == HiResX then x else 0)
    {
      SentTotal(banked, batch, axis);
      QuadTotal(LegacyY, bankY.0, HiResY, y, LegacyX, bankX.0, HiResX, x, axis);
    }
    BankExact(d.debtX, x);
    BankExact(d.debtY, y);
    hide Total, BankDebt, Batch, SmoothBatch;
    assert Send(d, SmoothWheel(x, y), codes, BOTH) == Batch(banked, batch, BOTH);
  }

  lemma DetentsAgree(d: VirtualState, x: i16, y: i16, codes: map<HidUsage, Code>, w: Writes)
    requires Agree(d)
    ensures Agree(Send(d, Wheel(x, y), codes, w).0)
  {
    var batch := DetentBatch(LegacyY, HiResY, y) + DetentBatch(LegacyX, HiResX, x);
    forall axis
      ensures Total(Batch(d, batch, BOTH).0.log, axis)
           == Total(d.log, axis) + (if axis == LegacyY then y else 0) + (if axis == HiResY then y * 120 else 0)
              + (if axis == LegacyX then x else 0) + (if axis == HiResX then x * 120 else 0)
    {
      SentTotal(d, batch, axis);
      QuadTotal(LegacyY, y, HiResY, y * 120, LegacyX, x, HiResX, x * 120, axis);
    }
    hide Total, DetentBatch;
    assert Send(d, Wheel(x, y), codes, w).0 == if w.mouse.Whole? || batch == [] then Batch(d, batch, BOTH).0 else d;
  }

  lemma MoveAgrees(d: VirtualState, dx: i32, dy: i32, codes: map<HidUsage, Code>, w: Writes)
    requires Agree(d)
    ensures Agree(Send(d, MouseMove(dx, dy), codes, w).0)
  {
    var batch := MoveBatch(PointerX, dx) + MoveBatch(PointerY, dy);
    forall axis
      ensures Total(Batch(d, batch, BOTH).0.log, axis)
           == Total(d.log, axis) + (if axis == PointerX then dx else 0) + (if axis == PointerY then dy else 0)
    {
      SentTotal(d, batch, axis);
      PairTotal(PointerX, dx, PointerY, dy, axis);
    }
    hide Total, MoveBatch;
    assert Send(d, MouseMove(dx, dy), codes, w).0 ==
        if w.mouse.Whole? || batch == [] then Batch(d, batch, BOTH).0 else d;
  }

  /** Nothing but smooth scroll touches the balance: detent scroll writes both resolutions in one frame. */
  lemma OthersAgree(d: VirtualState, event: InputEvent, codes: map<HidUsage, Code>, w: Writes)
    requires Agree(d) && !event.SmoothWheel?
    ensures Agree(Send(d, event, codes, w).0)
  {
    hide Agree;
    match event
    case Wheel(x, y) => DetentsAgree(d, x, y, codes, w);
    case MouseMove(dx, dy) => MoveAgrees(d, dx, dy, codes, w);
    case Button(button, pressed) =>
      EdgeAgrees(d, MouseLine(ButtonCode(button)), pressed, w);
    case Key(usage, pressed, _) =>
      if usage in codes {
        EdgeAgrees(d, KeyboardLine(codes[usage]), pressed, w);
      }
    case _ =>
  }

  lemma EdgeAgrees(d: VirtualState, line: Line, pressed: bool, w: Writes)
    requires Agree(d)
    ensures Agree(SetLine(d, line, pressed, w).0)
  {
    EdgeTotal(d.log, line, pressed, w);
  }

  lemma EdgeTotal(log: seq<Written>, line: Line, pressed: bool, w: Writes)
    ensures forall axis :: Total(log + EdgeWrites(line, pressed, w), axis) == Total(log, axis)
  {
    forall axis
      ensures Total(log + EdgeWrites(line, pressed, w), axis) == Total(log, axis)
    {
      TotalConcat(log, EdgeWrites(line, pressed, w), axis);
      EdgeMovesNothing(line, pressed, axis);
    }
  }

  lemma EdgeMovesNothing(line: Line, pressed: bool, axis: Axis)
    ensures Total([Edge(line, pressed)], axis) == 0 && Total([Edge(line, pressed), ReportOf(line)], axis) == 0
  {
    assert [Edge(line, pressed), ReportOf(line)][..1] == [Edge(line, pressed)];
  }

  // ---- a smooth scroll that could not be written ---------------------------------------------

  /** The bank comes back to where it was: whole detents, and no change of sign on the way. */
  predicate BankUnmoved(debt: i32, delta: i32) {
    delta % 120 == 0 && (delta == 0 || debt == 0 || Signum(debt + delta) == Signum(debt))
  }

  lemma BankUnmovedIff(debt: i32, delta: i32)
    requires -120 < debt < 120 && NoSaturation(debt, delta)
    ensures BankDebt(debt, delta).1 == debt <==> BankUnmoved(debt, delta)
  {
  }

  /**
   * The bank is settled before the write: a smooth scroll that could not be written keeps the two
   * resolutions in step exactly when both banks come back to where they were.
   */
  lemma FailedSmoothAgrees(d: VirtualState, x: i32, y: i32, codes: map<HidUsage, Code>, w: Writes)
    requires Agree(d) && !w.mouse.Whole? && NoSaturation(d.debtX, x) && NoSaturation(d.debtY, y)
    ensures Agree(Send(d, SmoothWheel(x, y), codes, w).0) <==> BankUnmoved(d.debtX, x) && BankUnmoved(d.debtY, y)
  {
    BankUnmovedIff(d.debtX, x);
    BankUnmovedIff(d.debtY, y);
    BankExact(d.debtX, x);
    BankExact(d.debtY, y);
    hide Total, BankDebt, BankUnmoved;
    assert Send(d, SmoothWheel(x, y), codes, w).0.log == d.log;
  }
}
