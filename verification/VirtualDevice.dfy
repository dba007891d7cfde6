/** The virtual device as it runs: bookkeeping updated in place, a log in place of the device files. */
module UinputDevices {
  import opened Basics
  import opened Events
  import opened Holds
  import opened Devices
  import opened VirtualDevices

  class UinputDevice {
    const codes: map<HidUsage, Code>
    var pressed: set<Line>
    var debtX: i32
    var debtY: i32
    var log: seq<Written>

    function State(): VirtualState
      reads this
    {
      VirtualState(pressed, debtX, debtY, log)
    }

    constructor (codes: map<HidUsage, Code>)
      ensures State() == CREATED && this.codes == codes
    {
      this.codes := codes;
      pressed, debtX, debtY, log := {}, 0, 0, [];
    }

    /** One key or button edge, then its report; the edge may get through alone. */
    method Emit(line: Line, down: bool, w: Writes) returns (ok: bool)
      modifies this`log
      ensures ok == OutcomeOf(line, w).Whole?
      ensures log == old(log) + EdgeWrites(line, down, w)
    {
      if OutcomeOf(line, w).Nothing? {
        assert log + [] == log;
        return false;
      }
      log := log + [Edge(line, down)];
      if OutcomeOf(line, w).EdgeOnly? {
        return false;
      }
      log := log + [ReportOf(line)];
      return true;
    }

    /** A batch of motion closed by one report; an empty batch writes nothing at all. */
    method EmitBatch(batch: seq<Written>, w: Writes) returns (ok: bool)
      modifies this`log
      ensures (State(), ok) == Batch(old(State()), batch, w)
    {
      if batch == [] {
        return true;
      }
      if !w.mouse.Whole? {
        return false;
      }
      log := log + batch + [MouseReport];
      return true;
    }

    method EmitEdge(line: Line, down: bool, w: Writes) returns (ok: bool)
      modifies this`log, this`pressed
      ensures (State(), ok) == SetLine(old(State()), line, down, w)
    {
      ok := Emit(line, down, w);
      if ok {
        pressed := if down then pressed + {line} else pressed - {line};
      }
    }

    /** Banks one scroll event on both axes, vertical first, before anything is written. */
    method BankScroll(x: i32, y: i32) returns (batch: seq<Written>)
      modifies this`debtX, this`debtY
      ensures debtX == BankDebt(old(debtX), x).1 && debtY == BankDebt(old(debtY), y).1
      ensures batch == SmoothBatch(LegacyY, HiResY, old(debtY), y) + SmoothBatch(LegacyX, HiResX, old(debtX), x)
    {
      var vertical: seq<Written> := [];
      if y != 0 {
        var banked := BankDebt(debtY, y);
        debtY := banked.1;
        if banked.0 != 0 {
          vertical := [Moved(LegacyY, banked.0)];
        }
        vertical := vertical + [Moved(HiResY, y)];
      }
      var horizontal: seq<Written> := [];
      if x != 0 {
        var banked := BankDebt(debtX, x);
        debtX := banked.1;
        if banked.0 != 0 {
          horizontal := [Moved(LegacyX, banked.0)];
        }
        horizontal := horizontal + [Moved(HiResX, x)];
      }
      batch := vertical + horizontal;
    }

    /** Plays one event. */
    method Send(event: InputEvent, w: Writes) returns (ok: bool)
      modifies this
      ensures (State(), ok) == VirtualDevices.Send(old(State()), event, codes, w)
    {
      hide Batch, SetLine, SmoothBatch, BankDebt;
      match event {
        case MouseMove(dx, dy) =>
          var batch: seq<Written> := [];
          if dx != 0 {
            batch := batch + [Moved(PointerX, dx)];
          }
          if dy != 0 {
            batch := batch + [Moved(PointerY, dy)];
          }
          assert batch == MoveBatch(PointerX, dx) + MoveBatch(PointerY, dy);
          ok := EmitBatch(batch, w);
        case Button(button, down) =>
          ok := EmitEdge(MouseLine(ButtonCode(button)), down, w);
        case Wheel(x, y) =>
          var batch: seq<Written> := [];
          if y != 0 {
            batch := batch + [Moved(LegacyY, y), Moved(HiResY, y * 120)];
          }
          if x != 0 {
            batch := batch + [Moved(LegacyX, x), Moved(HiResX, x * 120)];
          }
          assert batch == DetentBatch(LegacyY, HiResY, y) + DetentBatch(LegacyX, HiResX, x);
          ok := EmitBatch(batch, w);
        case SmoothWheel(x, y) =>
          var batch := BankScroll(x, y);
          ok := EmitBatch(batch, w);
        case Key(usage, down, _) =>
          if usage !in codes {
            return false;
          }
          if down && KeyboardLine(codes[usage]) in pressed {
            return true;
          }
          ok := EmitEdge(KeyboardLine(codes[usage]), down, w);
        case _ =>
          ok := true;
      }
    }

    method KeyPressed(usage: HidUsage) returns (held: bool)
      ensures held <==> usage in codes && KeyboardLine(codes[usage]) in pressed
    {
      held := usage in codes && KeyboardLine(codes[usage]) in pressed;
    }

    /** Lets every held line go, best effort, then clears the bookkeeping. */
    method ReleaseAll(w: Writes) returns (ok: bool)
      modifies this
      ensures (State(), ok) == VirtualDevices.ReleaseAll(old(State()), w)
    {
      hide LetGo, First, VirtualDevices.ReleaseAll, LettingGo, OutcomeOf, EdgeWrites;
      ghost var before := State();
      ok := true;
      var todo := pressed;
      LettingGoStart(before, w);
      while todo != {}
        invariant todo <= pressed && pressed == before.pressed && debtX == before.debtX && debtY == before.debtY
        invariant LettingGo(before, todo, w, log, ok)
        decreases |todo|
      {
        var line := First(todo);
        LettingGoStep(before, todo, w, log, ok);
        var written := Emit(line, false, w);
        ok := ok && written;
        todo := todo - {line};
      }
      LettingGoEnd(before, w, log, ok);
      pressed := {};
    }
  }

  /** With `todo` still to let go: what was written and whether every write so far succeeded. */
  ghost predicate LettingGo(d: VirtualState, todo: set<Line>, w: Writes, log: seq<Written>, ok: bool) {
    && todo <= d.pressed && log + LetGo(todo, w) == d.log + LetGo(d.pressed, w)
    && (ok <==> forall l :: l in d.pressed && l !in todo ==> OutcomeOf(l, w).Whole?)
  }

  lemma LettingGoStart(d: VirtualState, w: Writes)
    ensures LettingGo(d, d.pressed, w, d.log, true)
  {
  }

  lemma LettingGoStep(d: VirtualState, todo: set<Line>, w: Writes, log: seq<Written>, ok: bool)
    requires LettingGo(d, todo, w, log, ok) && todo != {}
    ensures var line := First(todo);
            && line in todo
            && LettingGo(d, todo - {line}, w, log + EdgeWrites(line, false, w), ok && OutcomeOf(line, w).Whole?)
  {
    var line := First(todo);
    var more := EdgeWrites(line, false, w);
    assert LetGo(todo, w) == more + LetGo(todo - {line}, w);
    hide LetGo, EdgeWrites;
    assert log + (more + LetGo(todo - {line}, w)) == log + more + LetGo(todo - {line}, w);
    assert forall l :: l in d.pressed && l !in todo - {line} <==> (l in d.pressed && l !in todo) || l == line;
  }

  lemma LettingGoEnd(d: VirtualState, w: Writes, log: seq<Written>, ok: bool)
    requires LettingGo(d, {}, w, log, ok)
    ensures VirtualDevices.ReleaseAll(d, w) == (d.(pressed := {}, log := log), ok)
  {
    assert log + [] == log;
  }
}
