/** Whole drives: what a switch of mode or style under way does to the way home, and what a drive keeps. */
module RouterDrives {
  import opened Basics
  import opened Events
  import opened Geometry
  import opened Layouts
  import opened Routers
  import opened RouterInvariant
  import opened RouterCrossing
  import opened RouterLiveness
  import RouterGates

  predicate IsSetting(op: Op) {
    op.DoSetMode? || op.DoSetStyle? || op.DoSetLocked? || op.DoSetHold? || op.DoSetGrace?
  }

  /** Routed events and changed settings, none of which brings the cursor home. */
  predicate KeepsDriving(r: Router, acts: seq<Act>)
    requires Core(r) && AllSound(r.localScreen, acts)
  {
    forall n :: 0 <= n < |acts| ==>
      && (acts[n].op.DoRoute? || IsSetting(acts[n].op))
      && !(Answer(r, acts, n).Some? && Answer(r, acts, n).value.ReturnHome?)
  }

  /** The drive as it was entered: same arrangement, same screen, same entry edge, whatever the settings. */
  predicate SameEntry(a: Router, b: Router) {
    && a.layout == b.layout && a.localScreen == b.localScreen
    && a.current == b.current && a.active == b.active && a.entryEdge == b.entryEdge
  }

  lemma DriveMoveKeepsEntry(r: Router, dx: i32, dy: i32, now: Instant)
    requires Core(r) && r.active.Some? && !DriveMove(r, dx, dy, now).1.ReturnHome?
    ensures SameDrive(r, DriveMove(r, dx, dy, now).0)
  {
    assert r.WellFormed();
    var past := PastEdge(r, MouseMove(dx, dy));
    hide Core, Layout.Valid, Layout.Find, DriveInside, EdgePast, Router.FacesHome, Escape, Shove, SameDrive;
    if past.Some? {
      PastPins(r, dx, dy, now);
    } else {
      InsideIsInside(r, MouseMove(dx, dy), now);
      InsideKeepsDrive(r, r.x + dx, r.y + dy);
    }
    hide DriveMove;
  }

  lemma StepKeepsEntry(r: Router, act: Act)
    requires Core(r) && r.active.Some? && (act.op.DoRoute? || IsSetting(act.op))
    requires act.op.DoRoute? ==> !Route(r, act.op.event, act.now).1.ReturnHome?
    ensures SameEntry(r, Apply(r, act))
  {
    hide Layout.Valid, Layout.Find, DriveMove, LocalMove;
    assert r.WellFormed();
    hide Core;
    if act.op.DoRoute? && act.op.event.MouseMove? {
      DriveMoveKeepsEntry(r, act.op.event.dx, act.op.event.dy, act.now);
    }
  }

  lemma PrefixKeepsDriving(r: Router, acts: seq<Act>, n: nat)
    requires Core(r) && AllSound(r.localScreen, acts) && KeepsDriving(r, acts) && n <= |acts|
    ensures KeepsDriving(r, acts[..n])
  {
    PrefixAnswers(r, acts, n);
    hide Core, Answer, After, Sound;
    forall k | 0 <= k < n
      ensures acts[..n][k].op.DoRoute? || IsSetting(acts[..n][k].op)
      ensures !(Answer(r, acts[..n], k).Some? && Answer(r, acts[..n], k).value.ReturnHome?)
    {
      assert acts[..n][k] == acts[k];
    }
  }

  lemma {:induction false} DriveKeepsEntry(r: Router, acts: seq<Act>)
    requires Core(r) && r.active.Some? && AllSound(r.localScreen, acts) && KeepsDriving(r, acts)
    ensures SameEntry(r, After(r, acts))
  {
    hide Route, Core, Sound, Apply, Layout.Valid, Layout.Find;
    if acts != [] {
      var n := |acts| - 1;
      PrefixKeepsDriving(r, acts, n);
      DriveKeepsEntry(r, acts[..n]);
      var before := After(r, acts[..n]);
      assert acts[..n + 1] == acts;
      Unroll(r, acts, n);
      hide After;
      StepKeepsEntry(before, acts[n]);
    }
  }

  // ---- a switch under way --------------------------------------------------------------------

  /**
   * Whether, under a mode and a style, the drive entered from `from` through `entry` of `target` has its
   * entry edge face home: the pinned edge itself, or mirrored, an edge leading back on the grid or any
   * side of a lone peer in Double.
   */
  predicate LeadsBack(layout: Layout, from: ScreenId, target: ScreenId, entry: Edge, mode: EdgeMode,
      style: DoubleEdgeStyle) {
    match style
    case FixedLeft => entry == Left
    case FixedRight => entry == Right
    case Mirror =>
      || layout.NeighborForEdge(from, entry.Opposite()) == Some(target)
      || (mode == Double && entry.Horizontal() && layout.SinglePeerScreen().Some?)
  }

  lemma OppositeTwice(edge: Edge)
    ensures edge.Opposite().Opposite() == edge
  {
  }

  lemma FacesHomeIff(r: Router, s: Router, event: InputEvent, now: Instant)
    requires Core(r) && Route(r, event, now).1.Handoff? && SameEntry(Route(r, event, now).0, s)
    ensures var out := Route(r, event, now);
            && out.0.entryEdge == Some(r.doubleStyle.EntryForExit(out.1.edge))
            && (s.FacesHome(out.0.entryEdge.value) <==>
                LeadsBack(r.layout, r.current, out.1.target, out.0.entryEdge.value, s.edgeMode, s.doubleStyle))
  {
    assert r.WellFormed();
    CrossedEntry(r, event, now);
    var out := Route(r, event, now);
    hide Core, Layout.Valid, Layout.Find, Route, Router.FacesHome, LeadsBack, Router.WellFormed;
    LeadsBackIff(s, out.0.entryEdge.value);
  }

  lemma LeadsBackIff(s: Router, entry: Edge)
    requires s.layout.Valid() && s.current != s.localScreen
    ensures s.FacesHome(entry) <==> LeadsBack(s.layout, s.localScreen, s.current, entry, s.edgeMode, s.doubleStyle)
  {
    NeighborSymmetric(s.layout, s.localScreen, s.current, entry.Opposite());
    OppositeTwice(entry);
    hide Layout.Valid, Layout.NeighborForEdge, Layout.SinglePeerScreen;
  }

  /** What a crossing leaves of the router for the return rule to read. */
  lemma CrossedEntry(r: Router, event: InputEvent, now: Instant)
    requires Core(r) && Route(r, event, now).1.Handoff?
    ensures var out := Route(r, event, now);
            && r.layout.Valid() && r.current == r.localScreen
            && out.0.localScreen == r.localScreen && out.0.layout == r.layout
            && out.0.current == out.1.target != r.current
            && out.0.entryEdge == Some(r.doubleStyle.EntryForExit(out.1.edge))
  {
    HandoffIsCross(r, event, now);
    CrossingLeaves(r.layout, r.current, PastEdge(r, event).value, r.edgeMode);
    assert r.active.None? && r.current == r.localScreen;
    hide Core, Layout.Valid, Layout.Find, Landing, PushTotal, Remainder, Overshoot, Route, EdgePast, Gated;
    hide Layout.CrossingTargetFor;
  }

  /**
   * The return rule reads the settings of the moment, not those the drive entered under. Through a whole
   * drive, however mode and style are switched, the entry edge faces home exactly when it leads back
   * under the settings in force.
   */
  lemma SwitchedDriveIff(r: Router, event: InputEvent, now: Instant, acts: seq<Act>)
    requires Core(r) && Route(r, event, now).1.Handoff? && AllSound(r.localScreen, acts)
    ensures var out := Route(r, event, now);
            && Core(out.0) && out.0.entryEdge.Some? && out.0.localScreen == r.localScreen
            && (KeepsDriving(out.0, acts) ==>
                  var s := After(out.0, acts);
                  && s.entryEdge == out.0.entryEdge
                  && (s.FacesHome(s.entryEdge.value) <==>
                      LeadsBack(r.layout, r.current, out.1.target, s.entryEdge.value, s.edgeMode, s.doubleStyle)))
  {
    EntryFacesHome(r, event, now);
    RouteCore(r, event, now);
    var out := Route(r, event, now);
    if KeepsDriving(out.0, acts) {
      DriveKeepsEntry(out.0, acts);
      FacesHomeIff(r, After(out.0, acts), event, now);
    }
    hide Core, Route, After, KeepsDriving, Router.FacesHome, LeadsBack, Layout.Valid, Layout.Find;
  }

  /**
   * And then decides: a straight shove at the entry edge that lasts long enough comes home exactly when it
   * leads back.
   */
  lemma SwitchedDriveComesHomeIff(
    r: Router, event: InputEvent, now: Instant, drive: seq<Act>, s: Router, shoves: seq<Act>)
    requires Core(r) && Route(r, event, now).1.Handoff? && AllSound(r.localScreen, drive)
    requires Core(Route(r, event, now).0) && KeepsDriving(Route(r, event, now).0, drive)
    requires s == After(Route(r, event, now).0, drive) && InBounds(s) && s.entryEdge.Some?
    requires StraightShoves(s.entryEdge.value, shoves) && AllSound(s.localScreen, shoves) && Clocked(s, shoves)
    requires LateEnough(s, s.entryEdge.value, shoves)
    ensures ComesHome(s, shoves) <==>
            LeadsBack(r.layout, r.current, Route(r, event, now).1.target, s.entryEdge.value, s.edgeMode, s.doubleStyle)
  {
    EntryFacesHome(r, event, now);
    SwitchedDriveIff(r, event, now, drive);
    DriveKeepsEntry(Route(r, event, now).0, drive);
    hide Core, Route, After, KeepsDriving, Router.FacesHome, LeadsBack, Layout.Valid, Layout.Find, InBounds;
    hide StraightShoves, Clocked, LateEnough, ComesHome;
    ComesHomeIff(s, s.entryEdge.value, shoves);
  }

  /** Settings under which the entry edge does not lead back strand the drive there: no shove at it ever returns. */
  lemma StrandedAtEntry(r: Router, event: InputEvent, now: Instant, s: Router, entry: Edge, shoves: seq<Act>)
    requires Core(r) && Route(r, event, now).1.Handoff? && SameBut(Route(r, event, now).0, s)
    requires Core(Route(r, event, now).0) && InBounds(Route(r, event, now).0) && s.entryEdge == Some(entry)
    requires !LeadsBack(r.layout, r.current, Route(r, event, now).1.target, entry, s.edgeMode, s.doubleStyle)
    requires StraightShoves(entry, shoves) && AllSound(s.localScreen, shoves)
    ensures Route(r, event, now).0.FacesHome(entry) && Core(s) && !ComesHome(s, shoves)
  {
    EntryFacesHome(r, event, now);
    FacesHomeIff(r, s, event, now);
    SettingsCore(Route(r, event, now).0, s);
    assert s.active.Some?;
    hide Core, InBounds, Route, Router.FacesHome, LeadsBack;
    hide ComesHome, StraightShoves, AllSound, Layout.Valid, Layout.Find;
    AwayNeverReturns(s, entry, shoves);
  }

  // ---- the height kept -----------------------------------------------------------------------

  /** Routed events without a vertical component. */
  predicate Level(acts: seq<Act>) {
    forall n :: 0 <= n < |acts| ==> acts[n].op.DoRoute? && (acts[n].op.event.MouseMove? ==> acts[n].op.event.dy == 0)
  }

  lemma LevelPast(x: int, y: u32, width: u32, height: u32)
    requires y < height
    ensures var past := EdgePast(x, y, width, height); past.Some? ==> past.value.Horizontal()
  {
  }

  lemma LevelStep(r: Router, event: InputEvent, now: Instant)
    requires Core(r) && InBounds(r) && r.active.Some?
    requires event.MouseMove? ==> event.dy == 0
    requires !Route(r, event, now).1.ReturnHome?
    ensures var s := Route(r, event, now).0; s.WellFormed() && InBounds(s) && s.y == r.y
  {
    assert r.WellFormed() && r.y < r.Here().height;
    if event.MouseMove? {
      LevelMove(r, event.dx, now);
      DriveMoveCore(r, event.dx, event.dy, now);
    }
    hide Core, Layout.Valid, Layout.Find, DriveMove, LocalMove;
  }

  lemma LevelMove(r: Router, dx: i32, now: Instant)
    requires Core(r) && r.active.Some? && r.y < r.Here().height && !DriveMove(r, dx, 0, now).1.ReturnHome?
    ensures DriveMove(r, dx, 0, now).0.y == r.y
  {
    assert r.WellFormed();
    hide Core, Layout.Valid, Layout.Find, DriveInside, EdgePast, Router.FacesHome;
    if PastEdge(r, MouseMove(dx, 0)).Some? {
      PastPins(r, dx, 0, now);
      hide DriveMove;
    } else {
      InsideIsInside(r, MouseMove(dx, 0), now);
      hide DriveMove;
    }
  }

  lemma {:induction false} LevelDrive(r: Router, acts: seq<Act>)
    requires Core(r) && InBounds(r) && r.active.Some? && AllSound(r.localScreen, acts)
    requires KeepsDriving(r, acts) && Level(acts)
    ensures var s := After(r, acts); SameEntry(r, s) && InBounds(s) && s.y == r.y
  {
    hide Route, Core, Sound, Apply, Layout.Valid, Layout.Find;
    if acts != [] {
      var n := |acts| - 1;
      PrefixKeepsDriving(r, acts, n);
      LevelDrive(r, acts[..n]);
      DriveKeepsEntry(r, acts);
      var before := After(r, acts[..n]);
      assert acts[..n + 1] == acts;
      Unroll(r, acts, n);
      hide After;
      LevelStep(before, acts[n].op.event, acts[n].now);
    }
  }

  lemma LevelReturn(r: Router, event: InputEvent, now: Instant)
    requires Core(r) && InBounds(r) && Route(r, event, now).1.ReturnHome?
    requires event.MouseMove? ==> event.dy == 0
    ensures event.MouseMove? && r.active.Some?
    ensures var out := Route(r, event, now);
            out.1.edge.Horizontal() && out.0.current == r.localScreen
            && out.0.y == Min(MapCoordinate(r.y, r.Here().height, r.HomeScreen().height), r.HomeScreen().height - 1)
  {
    assert r.WellFormed() && r.y < r.Here().height && (r.active.Some? ==> r.active == Some(r.current));
    RouteReturns(r, event, now);
    LevelPast(r.x + event.dx, r.y, r.Here().width, r.Here().height);
    RouterGates.ReturnIsLanding(r, event, now);
    var pressed := RouterGates.Before(r, event, now);
    PressedKeeps(r, event, now);
    LandsAtHeight(pressed, Route(r, event, now).1.edge, now);
    hide Core, Layout.Valid, Layout.Find, Route, RouterGates.Before, EdgePast, MapCoordinate, LandAtEdge;
  }

  lemma PressedKeeps(r: Router, event: InputEvent, now: Instant)
    requires r.WellFormed() && event.MouseMove?
    ensures var s := RouterGates.Before(r, event, now);
            && s.WellFormed() && s.Here() == r.Here() && s.HomeScreen() == r.HomeScreen()
            && s.y == r.y && s.active == r.active && s.current == r.current && s.localScreen == r.localScreen
  {
    hide Layout.Valid, Layout.Find, EdgePast, Overshoot;
  }

  lemma LandsAtHeight(r: Router, edge: Edge, now: Instant)
    requires r.WellFormed() && edge.Horizontal()
    ensures var home := LandAtEdge(r, r.current, edge, now);
            home.current == r.localScreen
            && home.y == Min(MapCoordinate(r.y, r.Here().height, r.HomeScreen().height), r.HomeScreen().height - 1)
  {
    hide Layout.Valid, Layout.Find, MapCoordinate;
  }

  lemma RouteReturns(r: Router, event: InputEvent, now: Instant)
    requires r.WellFormed() && Route(r, event, now).1.ReturnHome?
    ensures event.MouseMove? && r.active.Some? && PastEdge(r, event) == Some(Route(r, event, now).1.edge)
  {
    hide Layout.Valid, Layout.Find, Overshoot, EdgePast, Router.FacesHome, Router.Pinned, PressComplete, LandAtEdge;
    hide DistanceFromEdge, LocalInside, ClampToEdge, Cross, Gated, PushTotal, Router.InHandoffGrace;
  }

  /**
   * A drive that leaves through a side and roams level comes home at the height it left at, within one
   * round trip between the two screens, whichever side it comes home through.
   */
  lemma ReturnKeepsHeight(r: Router, event: InputEvent, now: Instant, acts: seq<Act>, back: InputEvent, later: Instant)
    requires Core(r) && Route(r, event, now).1.Handoff? && Route(r, event, now).1.edge.Horizontal()
    requires AllSound(r.localScreen, acts) && Level(acts) && (back.MouseMove? ==> back.dy == 0)
    ensures var out := Route(r, event, now);
            && Core(out.0) && out.0.localScreen == r.localScreen
            && (KeepsDriving(out.0, acts) ==>
                  var home := Route(After(out.0, acts), back, later);
                  home.1.ReturnHome? ==>
                    && home.0.current == r.current
                    && var here, there := r.Here().height, out.0.Here().height;
                       if here > 1 && there > 1 then r.y - TripLoss(here, there) <= home.0.y <= r.y else home.0.y == 0)
  {
    EntryFacesHome(r, event, now);
    CrossedHeight(r, event, now);
    var out := Route(r, event, now);
    if KeepsDriving(out.0, acts) {
      LevelDrive(out.0, acts);
      var s := After(out.0, acts);
      if Route(s, back, later).1.ReturnHome? {
        LevelReturn(s, back, later);
        SameScreens(out.0, s);
      }
    }
    hide Core, Route, After, KeepsDriving, Level, Router.FacesHome;
    hide Layout.Valid, Layout.Find, MapCoordinate, TripLoss, InBounds;
  }

  lemma SameScreens(a: Router, b: Router)
    requires a.WellFormed() && b.WellFormed() && SameEntry(a, b)
    ensures a.Here() == b.Here() && a.HomeScreen() == b.HomeScreen()
  {
    hide Layout.Valid;
  }

  /** Through a side, the height is mapped out, and mapped back it is within one round trip. */
  lemma CrossedHeight(r: Router, event: InputEvent, now: Instant)
    requires Core(r) && Route(r, event, now).1.Handoff? && Route(r, event, now).1.edge.Horizontal()
    ensures var s := Route(r, event, now).0;
            && Core(s) && InBounds(s) && s.HomeScreen() == r.Here() && s.localScreen == r.localScreen == r.current
            && var here, there := r.Here().height, s.Here().height;
               var back := Min(MapCoordinate(s.y, there, here), here - 1);
               if here > 1 && there > 1 then r.y - TripLoss(here, there) <= back <= r.y else back == 0
  {
    RouteCore(r, event, now);
    HandoffIsCross(r, event, now);
    var exit := PastEdge(r, event).value;
    var target := r.layout.Find(r.CrossingTarget(exit).value).value;
    FoundSound(r.layout, r.CrossingTarget(exit).value);
    LandingY(r.doubleStyle, exit, r.Here(), target, r.x, r.y);
    MapInRange(r.y, r.Here().height, target.height);
    UndoneMapping(r.y, r.Here().height, target.height);
    var out := Route(r, event, now);
    hide Layout.Valid, Layout.Find, Layout.CrossingTargetFor, Route, MapCoordinate, TripLoss;
    hide Landing, PushTotal, Overshoot, Remainder;
    assert out.0.Here() == target && out.0.HomeScreen() == r.Here();
  }
}
