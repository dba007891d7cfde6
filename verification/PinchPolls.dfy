/** The multitouch tap over polls: which gestures are handed on, and when an end is lost. */
module PinchPolls {
  import opened Basics
  import opened Events
  import opened Devices
  import opened PtpPans
  import opened PinchTaps

  function IngestAll(t: TapState, raws: seq<Raw>): TapState {
    if raws == [] then t else Ingested(IngestAll(t, raws[..|raws| - 1]), raws[|raws| - 1])
  }

  /** Every gesture the reports of a poll amount to, in order. */
  function Gestures(t: TapState, raws: seq<Raw>): seq<InputEvent> {
    if raws == [] then []
    else
      var before, raw := IngestAll(t, raws[..|raws| - 1]), raws[|raws| - 1];
      Gestures(t, raws[..|raws| - 1])
      + if raw.kind == EV_SYN && raw.code == SYN_REPORT && Reported(before).Some? then [Reported(before).value] else []
  }

  /** A poll hands on exactly its first gesture. */
  lemma {:induction false} PollHandsOnFirst(t: TapState, raws: seq<Raw>)
    requires t.pending.None?
    ensures var g := Gestures(t, raws); IngestAll(t, raws).pending == if g == [] then None else Some(g[0])
  {
    if raws != [] {
      PollHandsOnFirst(t, raws[..|raws| - 1]);
      hide Reported, Snapshot, Fed;
    }
  }

  /** How many gestures ended. */
  function Ends(gestures: seq<InputEvent>): nat {
    if gestures == [] then 0
    else Ends(gestures[..|gestures| - 1]) + if gestures[|gestures| - 1].PinchEnd? then 1 else 0
  }

  lemma {:induction false} EndsTail(gestures: seq<InputEvent>)
    requires gestures != []
    ensures Ends(gestures) == (if gestures[0].PinchEnd? then 1 else 0) + Ends(gestures[1..])
  {
    var n := |gestures| - 1;
    if n == 0 {
      assert gestures[..0] == [] && gestures[1..] == [];
    } else {
      EndsTail(gestures[..n]);
      assert gestures[1..][..n - 1] == gestures[..n][1..];
    }
  }

  /** So a poll loses every end but one that comes first. */
  lemma EndsLost(t: TapState, raws: seq<Raw>)
    requires t.pending.None? && Gestures(t, raws) != []
    ensures var g := Gestures(t, raws);
            var handed := if IngestAll(t, raws).pending == Some(PinchEnd) then 1 else 0;
            Ends(g) - handed == Ends(g[1..])
  {
    PollHandsOnFirst(t, raws);
    GesturesArePinches(t, raws);
    assert Gestures(t, raws)[0] in Gestures(t, raws);
    EndsTail(Gestures(t, raws));
    hide Gestures, IngestAll;
  }

  lemma {:induction false} GesturesArePinches(t: TapState, raws: seq<Raw>)
    ensures forall g :: g in Gestures(t, raws) ==> g.Pinch? || g.PinchEnd?
  {
    if raws != [] {
      GesturesArePinches(t, raws[..|raws| - 1]);
      hide Snapshot, Fed, Ingested;
    }
  }

  // ---- bracketing over polls -----------------------------------------------------------------

  /** Whether the pinch is engaged and has zoomed since it engaged, after a poll's events. */
  function ZoomedIn(t: TapState, raws: seq<Raw>, was: bool): bool {
    if raws == [] then was
    else
      var init, raw := raws[..|raws| - 1], raws[|raws| - 1];
      var before := IngestAll(t, init);
      if raw.kind == EV_SYN && raw.code == SYN_REPORT then
        var fed := Fed(before.pinch, Snapshot(before.contacts));
        fed.0.engaged && (fed.1.0 != 0 || ZoomedIn(t, init, was))
      else ZoomedIn(t, init, was)
  }

  /** Whether a receiver of these gestures, open or not before, is in a pinch after them. */
  function OpenAfter(gestures: seq<InputEvent>, was: bool): bool {
    if gestures == [] then was else gestures[|gestures| - 1].Pinch?
  }

  lemma ReportOpens(t: TapState, was: bool)
    requires Sound(t.pinch) && (was ==> t.pinch.engaged)
    ensures var q := Fed(t.pinch, Snapshot(t.contacts));
            var g := Reported(t);
            && (g.None? || g.value.Pinch? || g.value.PinchEnd?)
            && (if g.None? then was else g.value.Pinch?) == (q.0.engaged && (q.1.0 != 0 || was))
  {
    FrameAccounts(t.pinch, Snapshot(t.contacts));
    IdleStaysQuiet(t.pinch, Snapshot(t.contacts));
    hide Fed, Snapshot;
  }

  /** A frame that reports nothing leaves an engaged pinch engaged. */
  lemma IdleStaysQuiet(p: PinchSpec, contacts: seq<Contact>)
    ensures var q := Fed(p, contacts); p.engaged && !q.1.1 ==> q.0.engaged
  {
    hide Spread, Midpoint, Detents, Scrolls, SpreadStep;
  }

  /**
   * All gestures of a poll, handed on, would keep a receiver open exactly while the pinch is engaged and has
   * zoomed.
   */
  lemma {:induction false} GesturesBracket(t: TapState, raws: seq<Raw>, was: bool)
    requires Sound(t.pinch) && (was ==> t.pinch.engaged)
    ensures var s := IngestAll(t, raws);
            && Sound(s.pinch) && (ZoomedIn(t, raws, was) ==> s.pinch.engaged)
            && OpenAfter(Gestures(t, raws), was) == ZoomedIn(t, raws, was)
  {
    hide Fed, Snapshot, Sound, Reported;
    if raws != [] {
      var init := raws[..|raws| - 1];
      GesturesBracket(t, init, was);
      var before := IngestAll(t, init);
      ReportOpens(before, ZoomedIn(t, init, was));
      SoundKept(before.pinch, Snapshot(before.contacts));
    }
  }

  /** The tap after a run of polls, each of which takes what is pending. */
  function TapRun(t: TapState, polls: seq<seq<Raw>>): TapState {
    if polls == [] then t else IngestAll(TapRun(t, polls[..|polls| - 1]), polls[|polls| - 1]).(pending := None)
  }

  /** Everything a run of polls hands on. */
  function HandedOn(t: TapState, polls: seq<seq<Raw>>): seq<InputEvent> {
    if polls == [] then []
    else
      var init := polls[..|polls| - 1];
      var pending := IngestAll(TapRun(t, init), polls[|polls| - 1]).pending;
      HandedOn(t, init) + if pending.Some? then [pending.value] else []
  }

  function ZoomedRun(t: TapState, polls: seq<seq<Raw>>): bool {
    if polls == [] then false
    else
      var init := polls[..|polls| - 1];
      ZoomedIn(TapRun(t, init), polls[|polls| - 1], ZoomedRun(t, init))
  }

  /** The gestures of the last poll that had any. */
  function LastBurst(t: TapState, polls: seq<seq<Raw>>): seq<InputEvent> {
    if polls == [] then []
    else
      var init := polls[..|polls| - 1];
      var gestures := Gestures(TapRun(t, init), polls[|polls| - 1]);
      if gestures == [] then LastBurst(t, init) else gestures
  }

  lemma {:induction false} BracketStep(t: TapState, polls: seq<seq<Raw>>)
    requires Sound(t.pinch) && t.pending.None?
    ensures var s, burst := TapRun(t, polls), LastBurst(t, polls);
            && Sound(s.pinch) && s.pending.None? && (ZoomedRun(t, polls) ==> s.pinch.engaged)
            && OpenAfter(HandedOn(t, polls), false) == (burst != [] && burst[0].Pinch?)
            && ZoomedRun(t, polls) == OpenAfter(burst, false)
  {
    if polls != [] {
      var init, raws := polls[..|polls| - 1], polls[|polls| - 1];
      BracketStep(t, init);
      var s := TapRun(t, init);
      GesturesBracket(s, raws, ZoomedRun(t, init));
      PollHandsOnFirst(s, raws);
      hide Sound, IngestAll, Gestures, ZoomedIn;
    }
  }

  // ---- the exception, over the reports fed ---------------------------------------------------

  /** How far two fingers are apart, across plus along. */
  function Gap(a: Contact, b: Contact): nat {
    Abs(a.0 - b.0) + Abs(a.1 - b.1)
  }

  /** The point between them, rounded toward zero. */
  function Between(a: Contact, b: Contact): (int, int) {
    (TruncDiv(a.0 + b.0, 2), TruncDiv(a.1 + b.1, 2))
  }

  lemma SameMeasure(a: Contact, b: Contact)
    ensures Gap(a, b) == Spread(a, b) && Between(a, b) == Midpoint(a, b)
  {
  }

  /** The midpoint moved by four units or more, and by more than twice what the spread changed. */
  predicate Sweeps(p: PinchSpec, contacts: seq<Contact>)
    requires |contacts| == 2 && p.prev.Some? && p.prevMid.Some?
  {
    var mid, last := Between(contacts[0], contacts[1]), p.prevMid.value;
    var moved := Abs(mid.0 - last.0) + Abs(mid.1 - last.1);
    moved >= 4 && moved > 2 * Abs(Gap(contacts[0], contacts[1]) - p.prev.value)
  }

  /** The report moves an engaged spread, or one 192 units from its anchor, by a detent or more. */
  predicate Zooms(p: PinchSpec, contacts: seq<Contact>)
    requires Sound(p)
  {
    && |contacts| == 2 && p.anchor.Some? && !Sweeps(p, contacts)
    && var spread := Gap(contacts[0], contacts[1]);
       (p.engaged || Abs(spread - p.anchor.value) >= 192)
       && Abs(p.acc + spread - p.prev.value) >= Max(p.units, 1)
  }

  /** The report takes an engaged gesture away: a finger lifted, or scrolling for long enough. */
  predicate Stops(p: PinchSpec, contacts: seq<Contact>)
    requires Sound(p)
  {
    p.engaged && (|contacts| != 2 || (Sweeps(p, contacts) && p.streak + 1 >= 5))
  }

  /** The reports fed in a poll. */
  function Reports(t: TapState, raws: seq<Raw>): seq<seq<Contact>> {
    if raws == [] then []
    else
      var init, raw := raws[..|raws| - 1], raws[|raws| - 1];
      Reports(t, init)
      + if raw.kind == EV_SYN && raw.code == SYN_REPORT then [Snapshot(IngestAll(t, init).contacts)] else []
  }

  /** Which of these reports zoom or stop a gesture, in order: true for each that zooms. */
  function Turns(p: PinchSpec, frames: seq<seq<Contact>>): seq<bool>
    requires Sound(p)
  {
    if frames == [] then []
    else
      var init, last := frames[..|frames| - 1], frames[|frames| - 1];
      SoundThrough(p, init);
      var q := Run(p, init);
      Turns(p, init) + if Zooms(q, last) then [true] else if Stops(q, last) then [false] else []
  }

  lemma {:induction false} SoundThrough(p: PinchSpec, frames: seq<seq<Contact>>)
    requires Sound(p)
    ensures Sound(Run(p, frames))
  {
    if frames != [] {
      SoundThrough(p, frames[..|frames| - 1]);
      SoundKept(Run(p, frames[..|frames| - 1]), frames[|frames| - 1]);
    }
  }

  lemma TurnIsGesture(t: TapState)
    requires Sound(t.pinch)
    ensures var g, frame := Reported(t), Snapshot(t.contacts);
            && (Zooms(t.pinch, frame) <==> g.Some? && g.value.Pinch?)
            && (Stops(t.pinch, frame) <==> g.Some? && !g.value.Pinch?)
  {
    var p, frame := t.pinch, Snapshot(t.contacts);
    if |frame| == 2 {
      DetentsIff(p.units, p.acc + SpreadStep(p, Spread(frame[0], frame[1])));
      SameMeasure(frame[0], frame[1]);
    }
    hide Spread, Midpoint, Detents, Snapshot, Gap, Between;
  }

  lemma DetentsIff(units: int, acc: int)
    ensures Detents(units, acc) != 0 <==> Abs(acc) >= Max(units, 1)
  {
    var u := Max(units, 1);
    DivBounds(Abs(acc), u);
    if Abs(acc) >= u {
      assert Abs(acc) / u >= 1;
    } else {
      assert Abs(acc) / u == 0;
    }
  }

  /** The gestures of a poll are the turns among its reports. */
  lemma {:induction false} GesturesAreTurns(t: TapState, raws: seq<Raw>)
    requires Sound(t.pinch)
    ensures var g, turns := Gestures(t, raws), Turns(t.pinch, Reports(t, raws));
            && Sound(IngestAll(t, raws).pinch) && IngestAll(t, raws).pinch == Run(t.pinch, Reports(t, raws))
            && |g| == |turns| && forall i :: 0 <= i < |g| ==> g[i].Pinch? == turns[i]
  {
    hide Fed, Snapshot, Sound, Reported, Zooms, Stops;
    if raws != [] {
      var init := raws[..|raws| - 1];
      var before := IngestAll(t, init);
      GesturesAreTurns(t, init);
      TurnIsGesture(before);
      SoundKept(before.pinch, Snapshot(before.contacts));
      var frames, frame := Reports(t, init), Snapshot(before.contacts);
      assert (frames + [frame])[..|frames|] == frames && frames + [] == frames;
    }
  }

  /** The pinch before, and the reports fed in, the last poll in which a report zoomed or stopped a gesture. */
  function LastTurning(t: TapState, polls: seq<seq<Raw>>): (last: (PinchSpec, seq<seq<Contact>>))
    requires Sound(t.pinch) && t.pending.None?
    ensures Sound(last.0)
  {
    if polls == [] then (t.pinch, [])
    else
      var init := polls[..|polls| - 1];
      BracketStep(t, init);
      var s := TapRun(t, init);
      var frames := Reports(s, polls[|polls| - 1]);
      if Turns(s.pinch, frames) == [] then LastTurning(t, init) else (s.pinch, frames)
  }

  lemma {:induction false} LastBurstTurns(t: TapState, polls: seq<seq<Raw>>)
    requires Sound(t.pinch) && t.pending.None?
    ensures var burst, last := LastBurst(t, polls), LastTurning(t, polls);
            var turns := Turns(last.0, last.1);
            |burst| == |turns| && forall i :: 0 <= i < |burst| ==> burst[i].Pinch? == turns[i]
  {
    if polls != [] {
      var init := polls[..|polls| - 1];
      LastBurstTurns(t, init);
      BracketStep(t, init);
      GesturesAreTurns(TapRun(t, init), polls[|polls| - 1]);
      hide Sound, Gestures, Reports, Turns, TapRun, HandedOn, ZoomedRun;
    }
  }

  /** In the last poll that changed anything the first and the last report to do so pulled opposite ways. */
  predicate Mixed(turns: seq<bool>) {
    turns != [] && turns[0] != turns[|turns| - 1]
  }

  /**
   * Bracketing over runs of polls: the receiver is left in a pinch exactly while the tap's pinch is
   * engaged and has zoomed, with one exception: of the reports fed in the last poll that zoomed or stopped
   * a gesture, the first to do so zoomed and the last stopped it, or the other way round.
   */
  lemma HandedOnBracketsIff(units: int, polls: seq<seq<Raw>>)
    ensures var t := TapState(map[], 0, Created(units), None);
            var s, last := TapRun(t, polls), LastTurning(t, polls);
            && (ZoomedRun(t, polls) ==> s.pinch.engaged)
            && ((OpenAfter(HandedOn(t, polls), false) <==> s.pinch.engaged && ZoomedRun(t, polls))
                <==> !Mixed(Turns(last.0, last.1)))
  {
    var t := TapState(map[], 0, Created(units), None);
    BracketStep(t, polls);
    LastBurstTurns(t, polls);
    hide TapRun, LastBurst, LastTurning, Turns, HandedOn, ZoomedRun, Sound;
  }

  // ---- a run that loses its end --------------------------------------------------------------

  const REPORT := Raw(EV_SYN, SYN_REPORT, 0)
  const FRESH := TapState(map[], 0, Created(128), None)

  /** Two fingers are set down, 100 apart. */
  const SET_DOWN := [
    Raw(EV_ABS, ABS_MT_TRACKING_ID, 0), Raw(EV_ABS, ABS_MT_SLOT, 1), Raw(EV_ABS, ABS_MT_TRACKING_ID, 1),
    Raw(EV_ABS, ABS_MT_POSITION_X, 100), REPORT]

  /** They spread, which engages the pinch. */
  const SPREAD := [Raw(EV_ABS, ABS_MT_POSITION_X, 300), REPORT]

  /** One moves on and, before the poll is over, lifts. */
  const MOVE_AND_LIFT := [
    Raw(EV_ABS, ABS_MT_POSITION_X, 600), REPORT, Raw(EV_ABS, ABS_MT_TRACKING_ID, -1), REPORT]

  const DOWN := TapState(
    map[0 := (0, 0), 1 := (100, 0)], 1, PinchSpec(Some(100), Some(100), Some((50, 0)), 0, 128, false, 0), None)

  const PINCHING := TapState(
    map[0 := (0, 0), 1 := (300, 0)], 1, PinchSpec(Some(100), Some(300), Some((150, 0)), 72, 128, true, 0), None)

  lemma SnapshotTwo(a: Contact, b: Contact)
    ensures Snapshot(map[0 := a]) == [a]
    ensures Snapshot(map[0 := a, 1 := b]) == [a, b]
  {
    var one, two := map[0 := a], map[0 := a, 1 := b];
    assert one.Keys == {0} && Lowest(one.Keys) == 0 && one - {0} == map[];
    assert two.Keys == {0, 1} && Lowest(two.Keys) == 0 && two - {0} == map[1 := b];
    var last := map[1 := b];
    assert last.Keys == {1} && Lowest(last.Keys) == 1 && last - {1} == map[];
  }

  lemma IngestSnoc(t: TapState, raws: seq<Raw>, raw: Raw)
    ensures IngestAll(t, raws + [raw]) == Ingested(IngestAll(t, raws), raw)
  {
    hide Ingested;
    assert (raws + [raw])[..|raws|] == raws;
  }

  lemma SetsDown()
    ensures IngestAll(FRESH, SET_DOWN) == DOWN
  {
    hide Snapshot, Fed;
    var r := SET_DOWN;
    IngestSnoc(FRESH, [], r[0]);
    IngestSnoc(FRESH, [r[0]], r[1]);
    IngestSnoc(FRESH, [r[0], r[1]], r[2]);
    IngestSnoc(FRESH, [r[0], r[1], r[2]], r[3]);
    IngestSnoc(FRESH, [r[0], r[1], r[2], r[3]], r[4]);
    assert [] + [r[0]] == [r[0]] && [r[0]] + [r[1]] == [r[0], r[1]];
    assert [r[0], r[1]] + [r[2]] == [r[0], r[1], r[2]] && [r[0], r[1], r[2]] + [r[3]] == [r[0], r[1], r[2], r[3]];
    assert [r[0], r[1], r[2], r[3]] + [r[4]] == r;
    var placed := IngestAll(FRESH, [r[0], r[1], r[2], r[3]]);
    assert placed.contacts == map[0 := (0, 0), 1 := (100, 0)];
    SnapshotTwo((0, 0), (100, 0));
    FirstReport();
  }

  lemma FirstReport()
    ensures Fed(Created(128), [(0, 0), (100, 0)]) == (DOWN.pinch, (0, false))
  {
  }

  lemma SecondReport()
    ensures Fed(DOWN.pinch, [(0, 0), (300, 0)]) == (PINCHING.pinch, (120, false))
  {
  }

  lemma Spreads()
    ensures IngestAll(DOWN, SPREAD) == PINCHING.(pending := Some(InputEvent.Pinch(120)))
  {
    hide Snapshot, Fed;
    var r := SPREAD;
    IngestSnoc(DOWN, [], r[0]);
    IngestSnoc(DOWN, [r[0]], r[1]);
    assert [] + [r[0]] == [r[0]] && [r[0]] + [r[1]] == r;
    assert IngestAll(DOWN, [r[0]]).contacts == map[0 := (0, 0), 1 := (300, 0)];
    SnapshotTwo((0, 0), (300, 0));
    SecondReport();
  }

  lemma LastReports()
    ensures var moved := Fed(PINCHING.pinch, [(0, 0), (600, 0)]);
            moved.1 == (240, false) && moved.0.engaged && Fed(moved.0, [(0, 0)]) == (Created(128), (0, true))
  {
  }

  lemma MovesAndLifts()
    ensures Gestures(PINCHING, MOVE_AND_LIFT) == [InputEvent.Pinch(240), PinchEnd]
    ensures var t := IngestAll(PINCHING, MOVE_AND_LIFT);
            t.pending == Some(InputEvent.Pinch(240)) && !t.pinch.engaged
  {
    hide Snapshot, Fed;
    var r := MOVE_AND_LIFT;
    IngestSnoc(PINCHING, [], r[0]);
    IngestSnoc(PINCHING, [r[0]], r[1]);
    IngestSnoc(PINCHING, [r[0], r[1]], r[2]);
    IngestSnoc(PINCHING, [r[0], r[1], r[2]], r[3]);
    assert [] + [r[0]] == [r[0]] && [r[0]] + [r[1]] == [r[0], r[1]];
    assert [r[0], r[1]] + [r[2]] == [r[0], r[1], r[2]] && [r[0], r[1], r[2]] + [r[3]] == r;
    var moved, lifted := IngestAll(PINCHING, [r[0]]), IngestAll(PINCHING, [r[0], r[1], r[2]]);
    assert moved.contacts == map[0 := (0, 0), 1 := (600, 0)];
    assert lifted.contacts == map[0 := (0, 0)];
    SnapshotTwo((0, 0), (600, 0));
    LastReports();
    assert r[..3] == [r[0], r[1], r[2]] && r[..3][..2] == [r[0], r[1]] && r[..3][..2][..1] == [r[0]];
    assert Gestures(PINCHING, [r[0]]) == [];
    hide Ingested, IngestAll;
    assert Gestures(PINCHING, [r[0], r[1]]) == [InputEvent.Pinch(240)];
    assert Gestures(PINCHING, [r[0], r[1], r[2]]) == [InputEvent.Pinch(240)];
  }

  /**
   * A run from a fresh tap: in the third poll the pinch is over, and the tap hands on its last zoom but
   * never its end, so the receiver is left in the pinch.
   */
  lemma EndLost()
    ensures var polls := [SET_DOWN, SPREAD, MOVE_AND_LIFT];
            && HandedOn(FRESH, polls) == [InputEvent.Pinch(120), InputEvent.Pinch(240)]
            && OpenAfter(HandedOn(FRESH, polls), false) && !TapRun(FRESH, polls).pinch.engaged
    ensures TapRun(FRESH, [SET_DOWN, SPREAD]) == PINCHING
    ensures Gestures(PINCHING, MOVE_AND_LIFT) == [InputEvent.Pinch(240), PinchEnd]
  {
    SetsDown();
    Spreads();
    MovesAndLifts();
    hide IngestAll, Gestures;
    var polls := [SET_DOWN, SPREAD, MOVE_AND_LIFT];
    assert polls[..2] == [SET_DOWN, SPREAD] && [SET_DOWN, SPREAD][..1] == [SET_DOWN] && [SET_DOWN][..0] == [];
    assert TapRun(FRESH, []) == FRESH && HandedOn(FRESH, []) == [];
    assert TapRun(FRESH, [SET_DOWN]) == DOWN && HandedOn(FRESH, [SET_DOWN]) == [];
    assert TapRun(FRESH, [SET_DOWN, SPREAD]) == PINCHING;
    assert HandedOn(FRESH, [SET_DOWN, SPREAD]) == [InputEvent.Pinch(120)];
  }
}
