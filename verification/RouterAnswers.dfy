/** What the router answers: who gets each event, and that none is changed, lost or reordered on the way. */
module RouterAnswers {
  import opened Basics
  import opened Events
  import opened Geometry
  import opened Layouts
  import opened Routers
  import opened RouterInvariant
  import opened RouterCrossing
  import opened RouterLiveness
  import opened RouterDrives
  import opened RouterOperations
  import RouterGates

  // ---- one step ------------------------------------------------------------------------------

  /** A return names the driven screen, the edge pushed, the edge entered through and whether it was armed. */
  predicate SaysReturn(r: Router, event: InputEvent, out: Routed)
    requires r.WellFormed() && r.active.Some?
  {
    && out.ReturnHome? && PastEdge(r, event) == Some(out.edge) && r.FacesHome(out.edge)
    && out.from == r.active.value && out.entry == r.entryEdge && out.armed == r.returnArmed
  }

  /** While driving, an event either brings the cursor home or goes to the driven screen as it is. */
  lemma DriveAnswer(r: Router, event: InputEvent, now: Instant)
    requires Core(r) && r.active.Some?
    ensures var out := Route(r, event, now);
            && (SaysReturn(r, event, out.1) || out.1 == Forward(r.active.value, event))
            && (!event.MouseMove? ==> out == (r, Forward(r.active.value, event)))
  {
    assert r.WellFormed() && r.active == Some(r.current);
    hide Core, Layout.Valid, Layout.Find, EdgePast, Overshoot, DriveInside, LandAtEdge, Router.Pinned;
    hide Router.FacesHome, Press, PressComplete, Router.InHandoffGrace;
  }

  /** While local, whatever is not motion stays local as it is. */
  lemma LocalPasses(r: Router, event: InputEvent, now: Instant)
    requires Core(r) && r.active.None? && !event.MouseMove?
    ensures Route(r, event, now) == (r, Local(event))
  {
  }

  /** Whoever is driven, the cursor follows the motion up to the border, on every step that ends nothing. */
  lemma CursorFollows(r: Router, event: InputEvent, now: Instant)
    requires Core(r) && InBounds(r) && event.MouseMove?
    ensures var out := Route(r, event, now);
            out.1.Local? || out.1.Forward? ==>
              && out.0.current == r.current
              && out.0.x == Clamp(r.x + event.dx, 0, r.Here().width - 1)
              && out.0.y == Clamp(r.y + event.dy, 0, r.Here().height - 1)
  {
    assert r.WellFormed();
    hide Core, Layout.Valid, Layout.Find, InBounds, LocalMove, DriveMove;
    if r.active.Some? {
      DriveFollows(r, event, now);
    } else {
      LocalFollows(r, event, now);
    }
  }

  lemma DriveFollows(r: Router, event: InputEvent, now: Instant)
    requires Core(r) && InBounds(r) && event.MouseMove? && r.active.Some?
    ensures var out := DriveMove(r, event.dx, event.dy, now);
            !out.1.ReturnHome? ==>
              && out.0.current == r.current
              && out.0.x == Clamp(r.x + event.dx, 0, r.Here().width - 1)
              && out.0.y == Clamp(r.y + event.dy, 0, r.Here().height - 1)
  {
    hide Layout.Valid, Layout.Find, DriveMove, DriveInside, EdgePast;
    if !DriveMove(r, event.dx, event.dy, now).1.ReturnHome? {
      if PastEdge(r, event).Some? {
        PastPins(r, event.dx, event.dy, now);
      } else {
        InsideIsInside(r, event, now);
        InsideKeepsDrive(r, r.x + event.dx, r.y + event.dy);
        InsideWhenNotPast(r, event);
      }
    }
  }

  lemma LocalFollows(r: Router, event: InputEvent, now: Instant)
    requires Core(r) && event.MouseMove? && r.active.None?
    ensures var out := LocalMove(r, event.dx, event.dy, now);
            out.1.Local? ==>
              && out.0.current == r.current
              && out.0.x == Clamp(r.x + event.dx, 0, r.Here().width - 1)
              && out.0.y == Clamp(r.y + event.dy, 0, r.Here().height - 1)
  {
    hide Layout.Valid, Layout.Find, LocalPast, LocalInside, Clamp, EdgePast;
    assert r.WellFormed();
    hide Core, Router.WellFormed;
    var past := PastEdge(r, event);
    if past.None? {
      InsideWhenNotPast(r, event);
      ClampInside(r.x + event.dx, r.Here().width);
      ClampInside(r.y + event.dy, r.Here().height);
      InsideStays(r, r.x + event.dx, r.y + event.dy);
    } else {
      PastFollows(r, past.value, event, now);
    }
  }

  lemma InsideStays(r: Router, nextX: u32, nextY: u32)
    requires r.WellFormed()
    ensures LocalInside(r, nextX, nextY).current == r.current
  {
    hide Layout.Valid, Layout.Find, DistanceFromEdge, Router.NearCrossingEdge;
  }

  lemma PastFollows(r: Router, edge: Edge, event: InputEvent, now: Instant)
    requires r.WellFormed() && event.MouseMove?
    ensures var out := LocalPast(r, edge, r.x + event.dx, r.y + event.dy, now);
            out.1.Local? ==>
              && out.0.current == r.current
              && out.0.x == Clamp(r.x + event.dx, 0, r.Here().width - 1)
              && out.0.y == Clamp(r.y + event.dy, 0, r.Here().height - 1)
  {
    hide Layout.Valid, Layout.Find, Cross, Gated, PushTotal, Overshoot, Clamp;
  }

  lemma ClampInside(at: int, span: u32)
    ensures 0 <= at < span ==> Clamp(at, 0, span - 1) == at
  {
  }

  /**
   * A handoff carries on exactly the motion past the border, along the crossed axis; the one exception is
   * the largest negative motion of the machine from the very edge, which loses a pixel.
   */
  lemma HandoffCarries(r: Router, event: InputEvent, now: Instant)
    requires Core(r) && Route(r, event, now).1.Handoff?
    ensures event.MouseMove?
    ensures var out := Route(r, event, now).1;
            var restX := r.x + event.dx - Clamp(r.x + event.dx, 0, r.Here().width - 1);
            var restY := r.y + event.dy - Clamp(r.y + event.dy, 0, r.Here().height - 1);
            && out.event.MouseMove?
            && (if out.edge.Horizontal()
                then out.event.dx == (if restX == -0x8000_0000 then restX + 1 else restX) && out.event.dy == 0
                else out.event.dy == (if restY == -0x8000_0000 then restY + 1 else restY) && out.event.dx == 0)
  {
    HandoffIsCross(r, event, now);
    hide Route, Layout.Valid, Layout.Find, Gated, PushTotal, Landing, Layout.CrossingTargetFor;
  }

  /** A routed return lands back on home beside its landing edge, at the proportional place along it. */
  lemma ReturnLandsBack(r: Router, event: InputEvent, now: Instant)
    requires Core(r) && Route(r, event, now).1.ReturnHome?
    ensures var out := Route(r, event, now);
            && LandsBack(out.0, r, LandingEdge(r, out.1.edge), r.Here()) && SameSetup(r, out.0)
            && out.0.current == r.localScreen && out.0.active.None? && out.0.pushEdge.None?
            && out.0.homeX == out.0.x && out.0.homeY == out.0.y
            && out.0.postReturnEdge == Some(LandingEdge(r, out.1.edge)) && out.0.postReturnAt == Some(now)
  {
    assert r.WellFormed();
    hide Core, Route, Layout.Valid, Layout.Find, RouterGates.Before, LandsBack, RestoreLocalAtEdge, LandAtEdge;
    RouterGates.ReturnIsLanding(r, event, now);
    var s, edge := RouterGates.Before(r, event, now), Route(r, event, now).1.edge;
    BeforeKeeps(r, event, now);
    BackAt(s, edge, now);
    SameBack(LandAtEdge(s, s.active.value, edge, now), s, r, LandingEdge(r, edge));
  }

  lemma BeforeKeeps(r: Router, event: InputEvent, now: Instant)
    requires Core(r) && event.MouseMove? && r.active.Some?
    ensures var s := RouterGates.Before(r, event, now);
            && s.WellFormed() && SameSetup(r, s) && s.Here() == r.Here() && s.HomeScreen() == r.HomeScreen()
            && s.x == r.x && s.y == r.y && s.active == r.active
  {
    assert r.WellFormed();
    hide Core, Layout.Valid, Layout.Find, EdgePast, Overshoot;
  }

  lemma BackAt(r: Router, edge: Edge, now: Instant)
    requires Core(r) && r.active.Some?
    ensures var s := LandAtEdge(r, r.active.value, edge, now);
            && ControlsHome(s, r) && LandsBack(s, r, LandingEdge(r, edge), r.Here())
            && s.postReturnEdge == Some(LandingEdge(r, edge)) && s.postReturnAt == Some(now)
  {
    hide Core, LandsBack, LandAtEdge, ControlsHome;
    RestoreAtEdgeMeans(r, r.active.value, edge, now);
  }

  lemma SameBack(home: Router, s: Router, r: Router, landing: Edge)
    requires r.WellFormed() && s.WellFormed() && s.Here() == r.Here() && s.HomeScreen() == r.HomeScreen()
    requires s.x == r.x && s.y == r.y && LandsBack(home, s, landing, s.Here())
    ensures LandsBack(home, r, landing, r.Here())
  {
    hide Layout.Valid, Layout.Find, MapCoordinate;
  }

  // ---- runs ----------------------------------------------------------------------------------

  /** The events a run routes, in order. */
  function RoutedEvents(acts: seq<Act>): seq<InputEvent> {
    if acts == [] then []
    else
      var last := acts[|acts| - 1];
      RoutedEvents(acts[..|acts| - 1]) + if last.op.DoRoute? then [last.op.event] else []
  }

  /** The events a run forwards to a screen, in order. */
  function ForwardedTo(r: Router, acts: seq<Act>, target: ScreenId): seq<InputEvent>
    requires Core(r) && AllSound(r.localScreen, acts)
  {
    if acts == [] then []
    else
      var answer := Answer(r, acts, |acts| - 1);
      ForwardedTo(r, acts[..|acts| - 1], target)
      + if answer.Some? && answer.value.Forward? && answer.value.target == target then [answer.value.event] else []
  }

  /** Through a drive the driven screen gets every event that is routed, unchanged and in order. */
  lemma {:induction false} DriveForwards(r: Router, acts: seq<Act>)
    requires Core(r) && r.active.Some? && AllSound(r.localScreen, acts) && KeepsDriving(r, acts)
    ensures ForwardedTo(r, acts, r.active.value) == RoutedEvents(acts)
  {
    hide Route, Core, Sound, Apply, Layout.Valid, Layout.Find, Router.FacesHome;
    if acts != [] {
      var n := |acts| - 1;
      PrefixKeepsDriving(r, acts, n);
      DriveForwards(r, acts[..n]);
      DriveKeepsEntry(r, acts[..n]);
      PrefixForwarded(r, acts, n);
      assert acts[..n + 1] == acts;
      Unroll(r, acts, n);
      var before := After(r, acts[..n]);
      if acts[n].op.DoRoute? {
        DriveAnswer(before, acts[n].op.event, acts[n].now);
      } else {
        assert Answer(r, acts, n).None?;
      }
      hide After, Answer;
    }
  }

  lemma PrefixForwarded(r: Router, acts: seq<Act>, n: nat)
    requires Core(r) && AllSound(r.localScreen, acts) && n < |acts|
    ensures AllSound(r.localScreen, acts[..n])
  {
  }
}
