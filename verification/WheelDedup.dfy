/** Cross-channel wheel dedup: one physical tick seen by the hook and by raw input scrolls once. */
module WheelDedups {
  import opened Basics

  const OWN_WINDOW_MS := 30
  const DEDUP_WINDOW_MS := 20

  datatype Channel = Hook | RawInput {
    function Other(): Channel {
      if Hook? then RawInput else Hook
    }
  }

  /** A tick a channel reported and that survived on at least one axis: when, and the surviving directions. */
  datatype Survivor = Survivor(channel: Channel, at: Instant, dx: int, dy: int)

  /** The latest survivor of a channel. */
  function Latest(log: seq<Survivor>, channel: Channel): (r: Option<Survivor>)
    ensures r.Some? ==> r.value in log && r.value.channel == channel
  {
    if log == [] then None
    else if log[|log| - 1].channel == channel then Some(log[|log| - 1])
    else Latest(log[..|log| - 1], channel)
  }

  datatype Axis = AxisX | AxisY

  function Along(axis: Axis, x: int, y: int): int {
    if axis.AxisX? then x else y
  }

  function Way(s: Survivor, axis: Axis): int {
    Along(axis, s.dx, s.dy)
  }

  /** The other channel's latest survivor went the same way on this axis a moment ago. */
  predicate Reported(log: seq<Survivor>, channel: Channel, axis: Axis, delta: int, now: Instant) {
    var s := Latest(log, channel.Other());
    s.Some? && delta != 0 && Way(s.value, axis) == Signum(delta) && ElapsedMillis(s.value.at, now) <= DEDUP_WINDOW_MS
  }

  /** `log` holds everything that survived, `own` when our own injection was last seen. */
  datatype DedupState = DedupState(log: seq<Survivor>, own: Option<Instant>)

  datatype Event =
    | OwnSeen(now: Instant)
    | HookNoted(x: i32, y: i32, now: Instant)
    | HookTick(x: i32, y: i32, now: Instant)
    | RawTick(x: i32, y: i32, now: Instant)

  predicate OwnEcho(s: DedupState, now: Instant) {
    s.own.Some? && ElapsedMillis(s.own.value, now) <= OWN_WINDOW_MS
  }

  function Surviving(s: DedupState, channel: Channel, x: i32, y: i32, now: Instant): (i32, i32) {
    (if Reported(s.log, channel, AxisX, x, now) then 0 else x, if Reported(s.log, channel, AxisY, y, now) then 0 else y)
  }

  /** What the filter lets through of one event. */
  function Passed(s: DedupState, e: Event): (i32, i32) {
    match e
    case OwnSeen(_) => (0, 0)
    case HookNoted(x, y, _) => (0, 0)
    case HookTick(x, y, now) => Surviving(s, Hook, x, y, now)
    case RawTick(x, y, now) => if OwnEcho(s, now) then (0, 0) else Surviving(s, RawInput, x, y, now)
  }

  function Next(s: DedupState, e: Event): DedupState {
    match e
    case OwnSeen(now) => s.(own := Some(now))
    case HookNoted(x, y, now) => s.(log := s.log + [Survivor(Hook, now, Signum(x), Signum(y))])
    case _ =>
      var p := Passed(s, e);
      if p == (0, 0) then s
      else s.(log := s.log + [Survivor(if e.HookTick? then Hook else RawInput, e.now, Signum(p.0), Signum(p.1))])
  }

  class WheelDedup {
    var lastHook: Option<(Instant, int, int)>
    var lastRaw: Option<(Instant, int, int)>
    var lastOwn: Option<Instant>
    ghost var log: seq<Survivor>

    ghost function State(): DedupState
      reads this
    {
      DedupState(log, lastOwn)
    }

    static ghost predicate Remembers(slot: Option<(Instant, int, int)>, log: seq<Survivor>, channel: Channel) {
      match Latest(log, channel)
      case None => slot.None?
      case Some(s) => slot == Some((s.at, s.dx, s.dy))
    }

    ghost predicate Valid()
      reads this
    {
      Remembers(lastHook, log, Hook) && Remembers(lastRaw, log, RawInput)
    }

    constructor ()
      ensures Valid() && State() == DedupState([], None)
    {
      lastHook, lastRaw, lastOwn, log := None, None, None, [];
    }

    ghost method Record(s: Survivor)
      modifies this`log
      ensures log == old(log) + [s]
      ensures Latest(log, s.channel) == Some(s) && Latest(log, s.channel.Other()) == Latest(old(log), s.channel.Other())
    {
      assert (log + [s])[..|log|] == log;
      log := log + [s];
    }

    /** Our own injection only arms the echo window; anything else the hook saw arms the dedup. */
    method NoteHook(x: i32, y: i32, own: bool, now: Instant)
      requires Valid()
      modifies this
      ensures Valid() && State() == Next(old(State()), if own then OwnSeen(now) else HookNoted(x, y, now))
    {
      if own {
        lastOwn := Some(now);
        return;
      }
      lastHook := Some((now, Signum(x), Signum(y)));
      Record(Survivor(Hook, now, Signum(x), Signum(y)));
    }

    static predicate SlotReported(slot: Option<(Instant, int, int)>, delta: int, isX: bool, now: Instant) {
      && slot.Some? && delta != 0
      && (if isX then slot.value.1 else slot.value.2) == Signum(delta)
      && ElapsedMillis(slot.value.0, now) <= DEDUP_WINDOW_MS
    }

    method FilterHook(x: i32, y: i32, now: Instant) returns (outX: i32, outY: i32)
      requires Valid()
      modifies this
      ensures Valid() && State() == Next(old(State()), HookTick(x, y, now))
      ensures (outX, outY) == Passed(old(State()), HookTick(x, y, now))
    {
      hide ElapsedMillis, Latest, Signum;
      outX := if SlotReported(lastRaw, x, true, now) then 0 else x;
      outY := if SlotReported(lastRaw, y, false, now) then 0 else y;
      if outX != 0 || outY != 0 {
        lastHook := Some((now, Signum(outX), Signum(outY)));
        Record(Survivor(Hook, now, Signum(outX), Signum(outY)));
      }
    }

    method FilterRaw(x: i32, y: i32, now: Instant) returns (outX: i32, outY: i32)
      requires Valid()
      modifies this
      ensures Valid() && State() == Next(old(State()), RawTick(x, y, now))
      ensures (outX, outY) == Passed(old(State()), RawTick(x, y, now))
    {
      hide ElapsedMillis, Latest, Signum;
      if lastOwn.Some? && ElapsedMillis(lastOwn.value, now) <= OWN_WINDOW_MS {
        return 0, 0;
      }
      outX := if SlotReported(lastHook, x, true, now) then 0 else x;
      outY := if SlotReported(lastHook, y, false, now) then 0 else y;
      if outX != 0 || outY != 0 {
        lastRaw := Some((now, Signum(outX), Signum(outY)));
        Record(Survivor(RawInput, now, Signum(outX), Signum(outY)));
      }
    }
  }

  // ---- runs ----------------------------------------------------------------------------------

  const FRESH := DedupState([], None)

  function Run(events: seq<Event>): DedupState {
    if events == [] then FRESH else Next(Run(events[..|events| - 1]), events[|events| - 1])
  }

  /** The clock never runs back. */
  predicate Clocked(events: seq<Event>) {
    forall i, j :: 0 <= i <= j < |events| ==> events[i].now <= events[j].now
  }

  /** Survivors appear in the order of their times, none later than the last event. */
  predicate InOrder(log: seq<Survivor>, now: Instant) {
    && (forall i, j :: 0 <= i <= j < |log| ==> log[i].at <= log[j].at)
    && forall s :: s in log ==> s.at <= now
  }

  lemma {:induction false} RunInOrder(events: seq<Event>)
    requires Clocked(events)
    ensures events == [] ==> Run(events).log == []
    ensures events != [] ==> InOrder(Run(events).log, events[|events| - 1].now)
  {
    if events != [] {
      var n := |events| - 1;
      RunInOrder(events[..n]);
      assert n > 0 ==> events[n - 1].now <= events[n].now;
    }
  }

  /** No hook receipt is noted without passing the filter. */
  predicate NothingNoted(events: seq<Event>) {
    forall e :: e in events ==> !e.HookNoted?
  }

  predicate IsTick(e: Event) {
    e.HookTick? || e.RawTick?
  }

  function ChannelOf(e: Event): Channel
    requires IsTick(e)
  {
    if e.HookTick? then Hook else RawInput
  }

  /** What an event of a run delivered on an axis. */
  function Delivered(events: seq<Event>, n: nat, axis: Axis): int
    requires n < |events|
  {
    var p := Passed(Run(events[..n]), events[n]);
    Along(axis, p.0, p.1)
  }

  /** The n-th event delivered scroll going one way on an axis, on a channel, at most 20 ms before `now`. */
  predicate DeliveredBy(events: seq<Event>, n: nat, channel: Channel, axis: Axis, way: int, now: Instant)
    requires n < |events|
  {
    && IsTick(events[n]) && ChannelOf(events[n]) == channel && Signum(Delivered(events, n, axis)) == way
    && ElapsedMillis(events[n].now, now) <= 20
  }

  /** Something the channel let through a moment ago went this way. */
  predicate CloseBy(log: seq<Survivor>, channel: Channel, axis: Axis, way: int, now: Instant) {
    exists d :: d in log && d.channel == channel && Way(d, axis) == way && ElapsedMillis(d.at, now) <= DEDUP_WINDOW_MS
  }

  /** Where a survivor came from. */
  predicate CameFrom(events: seq<Event>, d: Survivor, m: nat)
    requires m < |events|
  {
    && IsTick(events[m]) && ChannelOf(events[m]) == d.channel && events[m].now == d.at
    && d.dx == Signum(Delivered(events, m, AxisX)) && d.dy == Signum(Delivered(events, m, AxisY))
  }

  lemma CameFromPrefix(events: seq<Event>, d: Survivor, n: nat, m: nat)
    requires m < n <= |events| && CameFrom(events[..n], d, m)
    ensures CameFrom(events, d, m)
  {
    assert events[..n][..m] == events[..m];
    hide Run, Passed;
  }

  /** Every survivor was delivered by an event of the run. */
  lemma {:induction false} SurvivorsDelivered(events: seq<Event>, d: Survivor)
    requires NothingNoted(events) && d in Run(events).log
    ensures exists m :: 0 <= m < |events| && CameFrom(events, d, m)
  {
    var n := |events| - 1;
    var s, e := Run(events[..n]), events[n];
    assert e in events;
    if d in s.log {
      SurvivorsDelivered(events[..n], d);
      var m :| 0 <= m < n && CameFrom(events[..n], d, m);
      CameFromPrefix(events, d, n, m);
    } else {
      hide Reported, OwnEcho;
      assert CameFrom(events, d, n);
    }
  }

  /** And every tick that delivered anything survives in the log from then on. */
  lemma {:induction false} DeliveriesSurvive(events: seq<Event>, m: nat)
    requires m < |events| && IsTick(events[m]) && Passed(Run(events[..m]), events[m]) != (0, 0)
    ensures exists d :: d in Run(events).log && CameFrom(events, d, m)
  {
    var n := |events| - 1;
    var s, e := Run(events[..n]), events[n];
    if m < n {
      assert events[..n][..m] == events[..m];
      DeliveriesSurvive(events[..n], m);
      var d :| d in s.log && CameFrom(events[..n], d, m);
      CameFromPrefix(events, d, n, m);
      hide Reported, OwnEcho;
      assert d in Run(events).log;
    } else {
      var p := Passed(s, e);
      var d := Survivor(ChannelOf(e), e.now, Signum(p.0), Signum(p.1));
      assert d in Run(events).log && CameFrom(events, d, m);
    }
  }

  /** What the filter remembers as close by is what the run delivered close by. */
  lemma CloseByRun(events: seq<Event>, channel: Channel, axis: Axis, way: int, now: Instant)
    requires NothingNoted(events) && way != 0
    ensures CloseBy(Run(events).log, channel, axis, way, now) <==>
            exists m :: 0 <= m < |events| && DeliveredBy(events, m, channel, axis, way, now)
  {
    hide Run, Passed;
    if CloseBy(Run(events).log, channel, axis, way, now) {
      var d :| d in Run(events).log && d.channel == channel && Way(d, axis) == way
        && ElapsedMillis(d.at, now) <= DEDUP_WINDOW_MS;
      SurvivorsDelivered(events, d);
      var m :| 0 <= m < |events| && CameFrom(events, d, m);
      assert DeliveredBy(events, m, channel, axis, way, now);
    }
    if m :| 0 <= m < |events| && DeliveredBy(events, m, channel, axis, way, now) {
      DeliveriesSurvive(events, m);
    }
  }

  /**
   * No lost scroll: over every run, a component dropped outside the echo window was delivered, going
   * the same way, by an earlier event of the other channel at most 20 ms before.
   */
  lemma DroppedWasDelivered(events: seq<Event>, n: nat, axis: Axis)
    requires NothingNoted(events) && n < |events| && IsTick(events[n])
    requires Delivered(events, n, axis) != Along(axis, events[n].x, events[n].y)
    requires !(events[n].RawTick? && OwnEcho(Run(events[..n]), events[n].now))
    ensures Delivered(events, n, axis) == 0
    ensures exists m :: 0 <= m < n && DeliveredBy(events[..n], m, ChannelOf(events[n]).Other(), axis,
                                                  Signum(Along(axis, events[n].x, events[n].y)), events[n].now)
  {
    var e, s := events[n], Run(events[..n]);
    var delta, channel := Along(axis, e.x, e.y), ChannelOf(e);
    assert Reported(s.log, channel, axis, delta, e.now);
    forall v | v in events[..n]
      ensures !v.HookNoted?
    {
      assert v in events;
    }
    hide Run, Passed;
    assert CloseBy(s.log, channel.Other(), axis, Signum(delta), e.now);
    CloseByRun(events[..n], channel.Other(), axis, Signum(delta), e.now);
  }

  // ---- double scroll -------------------------------------------------------------------------

  lemma {:induction false} LatestNewest(log: seq<Survivor>, d: Survivor)
    requires d in log && forall i, j :: 0 <= i <= j < |log| ==> log[i].at <= log[j].at
    ensures Latest(log, d.channel).Some? && d.at <= Latest(log, d.channel).value.at
  {
    var n := |log| - 1;
    if log[n].channel != d.channel {
      assert log == log[..n] + [log[n]];
      LatestNewest(log[..n], d);
    }
  }

  /**
   * One tick: with the like of it just through on the other channel, it passes exactly when that channel's
   * latest differs.
   */
  lemma TickDoublesIff(s: DedupState, e: Event, axis: Axis)
    requires IsTick(e) && InOrder(s.log, e.now) && Along(axis, e.x, e.y) != 0 && !(e.RawTick? && OwnEcho(s, e.now))
    requires CloseBy(s.log, ChannelOf(e).Other(), axis, Signum(Along(axis, e.x, e.y)), e.now)
    ensures var latest := Latest(s.log, ChannelOf(e).Other());
            && latest.Some?
            && (Along(axis, Passed(s, e).0, Passed(s, e).1) != 0
                <==> Way(latest.value, axis) != Signum(Along(axis, e.x, e.y)))
  {
    var channel, way := ChannelOf(e).Other(), Signum(Along(axis, e.x, e.y));
    var d :| d in s.log && d.channel == channel && Way(d, axis) == way && ElapsedMillis(d.at, e.now) <= DEDUP_WINDOW_MS;
    LatestNewest(s.log, d);
    assert Latest(s.log, channel).value in s.log;
    hide OwnEcho, Latest;
  }

  /** An event that scrolls an axis a way the other channel scrolled it at most 20 ms before. */
  predicate Doubles(events: seq<Event>, n: nat, axis: Axis)
    requires n < |events|
  {
    && IsTick(events[n]) && Delivered(events, n, axis) != 0
    && exists m :: 0 <= m < n && DeliveredBy(events[..n], m, ChannelOf(events[n]).Other(), axis,
                                             Signum(Delivered(events, n, axis)), events[n].now)
  }

  /** The filter's guard lets a repeat through: its other slot was overwritten by something going another way. */
  predicate SlotOverwritten(s: DedupState, e: Event, axis: Axis)
    requires IsTick(e)
  {
    var way := Signum(Along(axis, e.x, e.y));
    var latest := Latest(s.log, ChannelOf(e).Other());
    && way != 0 && !(e.RawTick? && OwnEcho(s, e.now))
    && CloseBy(s.log, ChannelOf(e).Other(), axis, way, e.now)
    && latest.Some? && Way(latest.value, axis) != way
  }

  lemma RepeatsIff(s: DedupState, e: Event, axis: Axis)
    requires IsTick(e) && InOrder(s.log, e.now)
    ensures var out := Along(axis, Passed(s, e).0, Passed(s, e).1);
            (out != 0 && CloseBy(s.log, ChannelOf(e).Other(), axis, Signum(out), e.now))
                <==> SlotOverwritten(s, e, axis)
  {
    var delta := Along(axis, e.x, e.y);
    DeliversOrNot(s, e, axis);
    hide Latest, Passed, CloseBy, OwnEcho, InOrder;
    if delta != 0 && !(e.RawTick? && OwnEcho(s, e.now))
      && CloseBy(s.log, ChannelOf(e).Other(), axis, Signum(delta), e.now) {
      TickDoublesIff(s, e, axis);
    }
  }

  /**
   * Double scroll, exactly: over every run an event scrolls an axis a second time exactly when, before
   * it, the other channel's slot no longer holds the direction that channel just scrolled.
   */
  lemma DoublesIff(events: seq<Event>, n: nat, axis: Axis)
    requires Clocked(events) && NothingNoted(events) && n < |events| && IsTick(events[n])
    ensures Doubles(events, n, axis) <==> SlotOverwritten(Run(events[..n]), events[n], axis)
  {
    var e, s := events[n], Run(events[..n]);
    forall v | v in events[..n]
      ensures !v.HookNoted?
    {
      assert v in events;
    }
    RunInOrder(events[..n]);
    assert n > 0 ==> events[n - 1].now <= e.now;
    hide Run, Latest, Passed, CloseBy, DeliveredBy, OwnEcho, SlotOverwritten;
    RepeatsIff(s, e, axis);
    var out := Delivered(events, n, axis);
    if out != 0 {
      CloseByRun(events[..n], ChannelOf(e).Other(), axis, Signum(out), e.now);
    }
  }

  lemma DeliversOrNot(s: DedupState, e: Event, axis: Axis)
    requires IsTick(e)
    ensures var out := Along(axis, Passed(s, e).0, Passed(s, e).1);
            && (out == 0 || out == Along(axis, e.x, e.y))
            && (e.RawTick? && OwnEcho(s, e.now) ==> out == 0)
  {
  }

  /** All ticks of the run go one way on one axis. */
  predicate OneWay(events: seq<Event>, x: int, y: int) {
    forall e :: e in events && IsTick(e) ==> Signum(e.x) == x && Signum(e.y) == y
  }

  lemma {:induction false} OneWayLog(events: seq<Event>, x: int, y: int)
    requires OneWay(events, x, y) && NothingNoted(events) && (x == 0 || y == 0)
    ensures forall s :: s in Run(events).log ==> s.dx == x && s.dy == y
  {
    if events != [] {
      var n := |events| - 1;
      OneWayLog(events[..n], x, y);
      assert events[n] in events;
      hide Reported, OwnEcho;
    }
  }

  /** So a run that scrolls one way on one axis never doubles. */
  lemma OneWayNeverDoubles(events: seq<Event>, x: int, y: int, n: nat, axis: Axis)
    requires Clocked(events) && NothingNoted(events) && OneWay(events, x, y) && (x == 0 || y == 0)
    requires n < |events| && IsTick(events[n])
    ensures !Doubles(events, n, axis)
  {
    DoublesIff(events, n, axis);
    assert events[n] in events;
    forall v | v in events[..n]
      ensures v in events
    {
    }
    OneWayLog(events[..n], x, y);
    hide Run, Doubles, CloseBy, OwnEcho, Clocked;
  }

  /** A diagonal pan: the hook reports it as two ticks, raw input as one. */
  const DIAGONAL := [HookTick(0, 120, 0), HookTick(120, 0, 0), RawTick(120, 120, 0)]

  const OVERWRITTEN := DedupState([Survivor(Hook, 0, 0, 1), Survivor(Hook, 0, 1, 0)], None)

  lemma DiagonalRun()
    ensures Run(DIAGONAL[..2]) == OVERWRITTEN
  {
    var a, b := DIAGONAL[0], DIAGONAL[1];
    assert DIAGONAL[..2][..1] == [a] && [a][..0] == [] && DIAGONAL[..2] == [a, b];
    assert Run([a]) == DedupState([Survivor(Hook, 0, 0, 1)], None);
  }

  lemma DiagonalOverwrites()
    ensures SlotOverwritten(OVERWRITTEN, RawTick(120, 120, 0), AxisY)
  {
    assert OVERWRITTEN.log[0] in OVERWRITTEN.log;
  }

  /** The second hook tick overwrites the first, so the vertical half scrolls twice. */
  lemma DiagonalDoubles()
    ensures Clocked(DIAGONAL) && NothingNoted(DIAGONAL)
    ensures Doubles(DIAGONAL, 2, AxisY)
  {
    DiagonalRun();
    DiagonalOverwrites();
    hide Run, SlotOverwritten;
    DoublesIff(DIAGONAL, 2, AxisY);
  }

  // ---- our own injection ---------------------------------------------------------------------

  /** When our own injection was last seen. */
  function LastOwn(events: seq<Event>): Option<Instant> {
    if events == [] then None
    else
      var last := events[|events| - 1];
      if last.OwnSeen? then Some(last.now) else LastOwn(events[..|events| - 1])
  }

  lemma {:induction false} OwnIsLast(events: seq<Event>)
    ensures Run(events).own == LastOwn(events)
  {
    if events != [] {
      OwnIsLast(events[..|events| - 1]);
      hide Passed;
    }
  }

  lemma {:induction false} LastOwnIff(events: seq<Event>, now: Instant)
    requires Clocked(events)
    ensures (LastOwn(events).Some? && now < LastOwn(events).value + 31 * MILLISECOND)
        <==> exists m :: 0 <= m < |events| && events[m].OwnSeen? && now < events[m].now + 31 * MILLISECOND
  {
    if events != [] {
      var n := |events| - 1;
      LastOwnIff(events[..n], now);
      if m :| 0 <= m < |events| && events[m].OwnSeen? && now < events[m].now + 31 * MILLISECOND && m < n {
        assert events[m].now <= events[n].now;
        assert events[..n][m] == events[m];
      }
    }
  }

  /**
   * Over every run a raw tick is dropped whole as our own echo exactly when our own injection was seen at most
   * 30 ms before, in whole milliseconds; otherwise only the hook can drop any of it.
   */
  lemma OwnEchoIff(events: seq<Event>, x: i32, y: i32, now: Instant)
    requires Clocked(events)
    ensures var s := Run(events);
            var echo := exists m :: 0 <= m < |events| && events[m].OwnSeen? && now < events[m].now + 31 * MILLISECOND;
            Passed(s, RawTick(x, y, now)) == if echo then (0, 0) else Surviving(s, RawInput, x, y, now)
  {
    OwnIsLast(events);
    LastOwnIff(events, now);
    WindowMillis(LastOwn(events), now);
    hide Surviving, Run, LastOwn, Clocked;
  }

  lemma WindowMillis(own: Option<Instant>, now: Instant)
    ensures own.Some? ==> (ElapsedMillis(own.value, now) <= 30 <==> now < own.value + 31 * MILLISECOND)
  {
  }

  /** No hook event from the m-th on. */
  predicate HookQuiet(events: seq<Event>, m: nat) {
    forall k :: m <= k < |events| ==> !events[k].HookTick? && !events[k].HookNoted?
  }

  lemma {:induction false} NotedStays(events: seq<Event>, m: nat)
    requires m < |events| && events[m].HookNoted? && HookQuiet(events, m + 1)
    ensures Latest(Run(events).log, Hook)
         == Some(Survivor(Hook, events[m].now, Signum(events[m].x), Signum(events[m].y)))
  {
    var n := |events| - 1;
    if m < n {
      NotedStays(events[..n], m);
      RawKeepsHook(Run(events[..n]), events[n]);
      hide Next, Latest;
    } else {
      LatestAdded(Run(events[..n]).log, Survivor(Hook, events[n].now, Signum(events[n].x), Signum(events[n].y)));
      hide Latest;
    }
  }

  lemma LatestAdded(log: seq<Survivor>, s: Survivor)
    ensures Latest(log + [s], s.channel) == Some(s)
    ensures Latest(log + [s], s.channel.Other()) == Latest(log, s.channel.Other())
  {
    assert (log + [s])[..|log|] == log;
  }

  lemma RawKeepsHook(s: DedupState, e: Event)
    requires !e.HookTick? && !e.HookNoted?
    ensures Latest(Next(s, e).log, Hook) == Latest(s.log, Hook)
  {
    hide Passed, Latest;
    if e.RawTick? {
      LatestAdded(s.log, Survivor(RawInput, e.now, Signum(Passed(s, e).0), Signum(Passed(s, e).1)));
    }
  }

  /**
   * A hook receipt that was only noted silences the raw tick of the same motion: within 20 ms of it, with no hook
   * event between, a raw tick passes nothing on an axis that goes the noted way.
   */
  lemma NotedSilences(events: seq<Event>, m: nat, x: i32, y: i32, now: Instant)
    requires m < |events| && events[m].HookNoted? && HookQuiet(events, m + 1)
    requires ElapsedMillis(events[m].now, now) <= 20
    ensures var p := Passed(Run(events), RawTick(x, y, now));
            && (Signum(x) == Signum(events[m].x) ==> p.0 == 0)
            && (Signum(y) == Signum(events[m].y) ==> p.1 == 0)
  {
    NotedStays(events, m);
    hide Run, Latest, OwnEcho;
  }
}
