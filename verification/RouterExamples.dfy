/** Concrete runs: each shows one place where the code does other than its comments promise. */
module RouterExamples {
  import opened Basics
  import opened Events
  import opened Geometry
  import opened Layouts
  import opened Routers
  import opened RouterInvariant
  import opened RouterCrossing
  import opened RouterLiveness
  import opened RouterGates
  import opened RouterDrives

  // ---- two screens side by side --------------------------------------------------------------

  const PAIR := Layout(
    [Screen(1, "main", 0, 0, 1920, 1080, None), Screen(2, "right", 1, 0, 1920, 1080, Some("peer"))], Some(1))

  const CENTRE := Router(PAIR, 1, 1, 960, 540, 960, 540, None, None, false, 0, None, 0,
    Double, Mirror, None, 0, 0, None, 0, None, false, false, None, None)

  lemma PairValid()
    ensures PAIR.Valid() && New(PAIR) == Ok(CENTRE)
    ensures PAIR.Find(1) == Some(PAIR.screens[0]) && PAIR.NeighborForEdge(1, Right) == Some(2)
  {
    var a, b := PAIR.screens[0], PAIR.screens[1];
    assert !Blank(a.name) by {
      assert !IsWhitespace(a.name[0]);
    }
    assert !Blank(b.name) by {
      assert !IsWhitespace(b.name[0]);
    }
    assert Apart(a, b);
    assert PAIR.screens[1..] == [b];
    assert IndexById(PAIR.screens, 1) == 0;
    assert IndexAt([b], 1, 0) == 0;
    assert IndexAt(PAIR.screens, 1, 0) == 1;
  }

  const AT_EDGE := CENTRE.(x := 1919, homeX := 1919)

  const SAVING := AT_EDGE.(pushEdge := Some(Right), pushAccum := 7)

  lemma PairCore()
    ensures Core(CENTRE) && Core(AT_EDGE) && Core(SAVING)
    ensures CENTRE.Here() == AT_EDGE.Here() == SAVING.Here() == PAIR.screens[0]
    ensures AT_EDGE.CrossingTarget(Right) == SAVING.CrossingTarget(Right) == Some(2)
  {
    PairValid();
    hide Layout.Valid, Layout.Find, Layout.NeighborForEdge;
  }

  lemma ReachesEdge()
    ensures CENTRE.WellFormed() && Route(CENTRE, MouseMove(959, 0), 0).0 == AT_EDGE
  {
    PairCore();
    assert CENTRE.WellFormed();
    hide Layout.Valid, Layout.Find, Layout.CrossingTargetFor, Core;
    assert PastEdge(CENTRE, MouseMove(959, 0)).None?;
    assert LocalInside(CENTRE, 1919, 540) == AT_EDGE;
  }

  lemma AtEdgeFacts()
    ensures AT_EDGE.WellFormed() && PastEdge(AT_EDGE, MouseMove(7, 0)) == Some(Right)
    ensures !Gated(AT_EDGE, Right, 0) && PushTotal(AT_EDGE, Right, 7) == 7
    ensures Overshoot(Right, 1926, 540, 1920, 1080) == 7
  {
    PairCore();
    assert AT_EDGE.WellFormed();
    hide Layout.Valid, Layout.Find, Layout.CrossingTargetFor, Core, Cross;
  }

  lemma SavesUp()
    ensures AT_EDGE.WellFormed() && Route(AT_EDGE, MouseMove(7, 0), 0).0 == SAVING
  {
    PairCore();
    AtEdgeFacts();
    hide Layout.Valid, Layout.Find, Core, Cross, Gated, PushTotal, Overshoot, EdgePast;
    assert LocalPast(AT_EDGE, Right, 1926, 540, 0)
        == ClampToEdge(AT_EDGE.(pushEdge := Some(Right), pushAccum := 7), 1926, 540);
    hide LocalPast;
  }

  /** The far fling happens: from a fresh two-machine router, two moves and 33 small re-pins suffice. */
  lemma FarFlingHappens()
    ensures PAIR.Valid() && New(PAIR) == Ok(CENTRE) && Core(CENTRE) && Core(AT_EDGE) && Core(SAVING)
    ensures Route(CENTRE, MouseMove(959, 0), 0).0 == AT_EDGE
    ensures Route(AT_EDGE, MouseMove(7, 0), 0).0 == SAVING
    ensures AllSound(1, Pins(SAVING, 33))
    ensures var far := After(SAVING, Pins(SAVING, 33));
            far.DistanceHere(Right) > 64 && Route(far, MouseMove(200, 0), 0).1.Handoff?
  {
    PairValid();
    PairCore();
    ReachesEdge();
    SavesUp();
    hide Layout.Valid, Layout.Find, Layout.CrossingTargetFor, Core, Route, After, New, Pins;
    assert !Gated(SAVING, Right, 0);
    PinnedRunCrossesFromAfar(SAVING, 33, 200, 0);
  }

  // ---- a switch that strands a drive ---------------------------------------------------------

  lemma CrossesRight()
    ensures SAVING.WellFormed()
    ensures var out := Route(SAVING, MouseMove(1, 0), 0);
            && out.1.Handoff? && out.1.edge == Right && out.1.target == 2
            && out.0.WellFormed() && Core(out.0) && InBounds(out.0) && out.0.entryEdge == Some(Left)
            && out.0.active.Some?
            && out.0.localScreen == 1 && out.0.edgeMode == Double && out.0.doubleStyle == Mirror
  {
    PairCore();
    assert SAVING.WellFormed();
    assert PastEdge(SAVING, MouseMove(1, 0)) == Some(Right);
    hide Layout.Valid, Layout.Find, Layout.CrossingTargetFor, Core, Landing, InBounds;
    assert !Gated(SAVING, Right, 0) && PushTotal(SAVING, Right, 1) == 8;
    CrossedHeight(SAVING, MouseMove(1, 0), 0);
    EntryFacesHome(SAVING, MouseMove(1, 0), 0);
    SetupKept(SAVING, MouseMove(1, 0), 0);
  }

  lemma PinnedLeadsNowhere(mode: EdgeMode)
    ensures !LeadsBack(SAVING.layout, SAVING.current, 2, Left, mode, FixedRight)
  {
  }

  lemma StyleSet(r: Router, style: DoubleEdgeStyle)
    requires r.WellFormed()
    ensures Apply(r, Act(DoSetStyle(style), 0)) == r.(doubleStyle := style)
  {
    hide Layout.Valid, Layout.Find;
  }

  lemma PinnedStrands(s: Router, shoves: seq<Act>)
    requires SAVING.WellFormed() && s == Route(SAVING, MouseMove(1, 0), 0).0.(doubleStyle := FixedRight)
    requires StraightShoves(Left, shoves) && AllSound(1, shoves)
    ensures Route(SAVING, MouseMove(1, 0), 0).0.FacesHome(Left)
    ensures Core(s) && s.localScreen == 1 && !ComesHome(s, shoves)
  {
    hide Layout.Valid, Layout.Find, Route, InBounds, Router.FacesHome, ComesHome, LeadsBack, StraightShoves, AllSound;
    PairCore();
    CrossesRight();
    PinnedLeadsNowhere(s.edgeMode);
    hide Core, Router.WellFormed, Layout.NeighborForEdge;
    StrandedAtEntry(SAVING, MouseMove(1, 0), 0, s, Left, shoves);
  }

  /** Crossed to the right, the left edge leads home; pinned right under way, it never does again. */
  lemma StyleSwitchStrands(shoves: seq<Act>)
    requires StraightShoves(Left, shoves) && AllSound(1, shoves)
    ensures PAIR.Valid() && New(PAIR) == Ok(CENTRE)
    ensures CENTRE.WellFormed() && AT_EDGE.WellFormed() && SAVING.WellFormed()
    ensures Route(CENTRE, MouseMove(959, 0), 0).0 == AT_EDGE && Route(AT_EDGE, MouseMove(7, 0), 0).0 == SAVING
    ensures var out := Route(SAVING, MouseMove(1, 0), 0);
            && Core(out.0) && out.1.Handoff? && out.0.FacesHome(Left)
            && var s := Apply(out.0, Act(DoSetStyle(FixedRight), 0));
               Core(s) && s.localScreen == 1 && !ComesHome(s, shoves)
  {
    hide New, Layout.Valid, Layout.Find, Route, Core, InBounds, Router.FacesHome, ComesHome, Apply, StraightShoves;
    hide AllSound, Layout.NeighborForEdge, Router.WellFormed;
    PairValid();
    ReachesEdge();
    SavesUp();
    CrossesRight();
    StyleSet(Route(SAVING, MouseMove(1, 0), 0).0, FixedRight);
    PinnedStrands(Route(SAVING, MouseMove(1, 0), 0).0.(doubleStyle := FixedRight), shoves);
  }

  const AT_LEFT := CENTRE.(x := 0, homeX := 0)

  lemma LeftCore()
    ensures Core(AT_LEFT) && AT_LEFT.Here() == PAIR.screens[0] && AT_LEFT.CrossingTarget(Left) == Some(2)
    ensures PAIR.NeighborForEdge(1, Left) == None
  {
    PairValid();
    NoneLeft();
    LonePeer();
    hide Layout.Valid, Layout.NeighborForEdge, Layout.SinglePeerScreen;
  }

  lemma NoneLeft()
    requires PAIR.Find(1) == Some(PAIR.screens[0])
    ensures PAIR.NeighborForEdge(1, Left) == None
  {
    hide Layout.Find;
    assert PAIR.screens[1..][1..] == [];
    assert IndexAt(PAIR.screens[1..], -1, 0) == 1;
    assert IndexAt(PAIR.screens, -1, 0) == 2;
  }

  lemma LonePeer()
    ensures PAIR.SinglePeerScreen() == Some(2)
  {
    assert PAIR.screens[1..] == [PAIR.screens[1]];
    assert PAIR.screens[1..][1..] == [];
    assert PeerScreens(PAIR.screens) == [PAIR.screens[1]];
  }

  lemma ReachesLeft()
    ensures CENTRE.WellFormed() && Route(CENTRE, MouseMove(-960, 0), 0).0 == AT_LEFT
  {
    PairCore();
    assert CENTRE.WellFormed();
    hide Layout.Valid, Layout.Find, Layout.CrossingTargetFor, Core;
    assert PastEdge(CENTRE, MouseMove(-960, 0)).None?;
    assert LocalInside(CENTRE, 0, 540) == AT_LEFT;
  }

  lemma CrossesLeft()
    ensures AT_LEFT.WellFormed()
    ensures var out := Route(AT_LEFT, MouseMove(-8, 0), 0);
            && out.1.Handoff? && out.1.edge == Left && out.1.target == 2
            && out.0.WellFormed() && Core(out.0) && InBounds(out.0) && out.0.entryEdge == Some(Right)
            && out.0.active.Some?
            && out.0.localScreen == 1 && out.0.edgeMode == Double && out.0.doubleStyle == Mirror
  {
    LeftCore();
    assert AT_LEFT.WellFormed();
    assert PastEdge(AT_LEFT, MouseMove(-8, 0)) == Some(Left);
    hide Layout.Valid, Layout.Find, Layout.CrossingTargetFor, Core, Landing, InBounds;
    assert !Gated(AT_LEFT, Left, 0) && PushTotal(AT_LEFT, Left, 8) == 8;
    CrossedHeight(AT_LEFT, MouseMove(-8, 0), 0);
    EntryFacesHome(AT_LEFT, MouseMove(-8, 0), 0);
    SetupKept(AT_LEFT, MouseMove(-8, 0), 0);
  }

  lemma LeftLeadsNowhere()
    ensures !LeadsBack(AT_LEFT.layout, AT_LEFT.current, 2, Right, Single, Mirror)
  {
    LeftCore();
    hide Layout.NeighborForEdge, Core;
  }

  lemma ModeSet(r: Router, mode: EdgeMode)
    requires r.WellFormed()
    ensures Apply(r, Act(DoSetMode(mode), 0)) == r.(edgeMode := mode)
  {
    hide Layout.Valid, Layout.Find;
  }

  lemma SingleStrands(s: Router, shoves: seq<Act>)
    requires AT_LEFT.WellFormed() && s == Route(AT_LEFT, MouseMove(-8, 0), 0).0.(edgeMode := Single)
    requires StraightShoves(Right, shoves) && AllSound(1, shoves)
    ensures Route(AT_LEFT, MouseMove(-8, 0), 0).0.FacesHome(Right)
    ensures Core(s) && s.localScreen == 1 && !ComesHome(s, shoves)
  {
    hide Layout.Valid, Layout.Find, Route, InBounds, Router.FacesHome, ComesHome, LeadsBack, StraightShoves, AllSound;
    LeftCore();
    CrossesLeft();
    LeftLeadsNowhere();
    hide Core, Router.WellFormed, Layout.NeighborForEdge;
    StrandedAtEntry(AT_LEFT, MouseMove(-8, 0), 0, s, Right, shoves);
  }

  /** Crossed through the outer edge of a lone-peer link, the drive loses its way home when Double ends. */
  lemma ModeSwitchStrands(shoves: seq<Act>)
    requires StraightShoves(Right, shoves) && AllSound(1, shoves)
    ensures PAIR.Valid() && New(PAIR) == Ok(CENTRE) && CENTRE.WellFormed() && AT_LEFT.WellFormed()
    ensures Route(CENTRE, MouseMove(-960, 0), 0).0 == AT_LEFT
    ensures var out := Route(AT_LEFT, MouseMove(-8, 0), 0);
            && Core(out.0) && out.1.Handoff? && out.0.FacesHome(Right)
            && var s := Apply(out.0, Act(DoSetMode(Single), 0));
               Core(s) && s.localScreen == 1 && !ComesHome(s, shoves)
  {
    hide New, Layout.Valid, Layout.Find, Route, Core, InBounds, Router.FacesHome, ComesHome, Apply, StraightShoves;
    hide AllSound, Layout.NeighborForEdge, Router.WellFormed;
    PairValid();
    ReachesLeft();
    CrossesLeft();
    ModeSet(Route(AT_LEFT, MouseMove(-8, 0), 0).0, Single);
    SingleStrands(Route(AT_LEFT, MouseMove(-8, 0), 0).0.(edgeMode := Single), shoves);
  }

  lemma SetupKept(r: Router, event: InputEvent, now: Instant)
    requires r.WellFormed()
    ensures SameSetup(r, Route(r, event, now).0)
  {
  }

  // ---- the lock and the gate -----------------------------------------------------------------

  const SEEDED := AT_EDGE.(startupGate := true)
  const WIGGLED := AT_EDGE.(y := 541, homeY := 541)

  lemma SeedsAtEdge()
    ensures CENTRE.WellFormed() && SeedPosition(CENTRE, 1919, 540, true) == Ok(SEEDED)
  {
    PairCore();
    assert CENTRE.WellFormed() && CENTRE.HomeScreen() == PAIR.screens[0];
    assert CENTRE.layout.CrossingTargetFor(1, Right, Double) == Some(2);
    hide Layout.Valid, Layout.Find, Layout.CrossingTargetFor;
    assert DistanceFromEdge(Right, 1919, 540, 1920, 1080) == 0;
    assert CENTRE.AtCrossableEdge(1919, 540);
  }

  lemma WigglesLocked()
    ensures var locked := SEEDED.(locked := true);
            locked.WellFormed() && Route(locked, MouseMove(0, 1), 0).0 == WIGGLED.(locked := true)
  {
    PairCore();
    var locked := SEEDED.(locked := true);
    assert locked.WellFormed() && locked.Here() == PAIR.screens[0];
    hide Layout.Valid, Layout.Find, Layout.CrossingTargetFor, Core;
    assert PastEdge(locked, MouseMove(0, 1)).None?;
    assert LocalInside(locked, 1919, 541) == WIGGLED.(locked := true);
  }

  lemma SeededHolds()
    ensures SEEDED.WellFormed() && Route(SEEDED, MouseMove(8, 0), 0).1.Local?
  {
    PairCore();
    assert SEEDED.WellFormed() && SEEDED.Here() == PAIR.screens[0];
    hide Layout.Valid, Layout.Find, Layout.CrossingTargetFor, Core;
    assert PastEdge(SEEDED, MouseMove(8, 0)) == Some(Right);
    assert Gated(SEEDED, Right, 0);
    hide Gated, EdgePast, ClampToEdge;
  }

  lemma WiggledCrosses()
    ensures WIGGLED.WellFormed() && Route(WIGGLED, MouseMove(8, 0), 0).1.Handoff?
  {
    PairCore();
    assert WIGGLED.WellFormed() && WIGGLED.Here() == PAIR.screens[0] && WIGGLED.CrossingTarget(Right) == Some(2);
    hide Layout.Valid, Layout.Find, Layout.CrossingTargetFor, Core;
    assert PastEdge(WIGGLED, MouseMove(8, 0)) == Some(Right);
    assert !Gated(WIGGLED, Right, 0);
    assert Overshoot(Right, 1927, 541, 1920, 1080) == 8 && PushTotal(WIGGLED, Right, 8) == 8;
    hide Gated, EdgePast, PushTotal, Overshoot;
    assert Cross(WIGGLED, Right, 8, 0).1.Handoff?;
    hide Cross;
  }

  /**
   * Seeded at the edge the gate is shut and a push is held; locked for one step along that edge and
   * unlocked again, the same push crosses though the cursor never left the edge.
   */
  lemma LockOpensGate()
    ensures CENTRE.WellFormed() && SEEDED.WellFormed() && WIGGLED.WellFormed() && SEEDED.(locked := true).WellFormed()
    ensures SeedPosition(CENTRE, 1919, 540, true) == Ok(SEEDED)
    ensures Route(SEEDED, MouseMove(8, 0), 0).1.Local?
    ensures Route(SEEDED.(locked := true), MouseMove(0, 1), 0).0.(locked := false) == WIGGLED
    ensures Route(WIGGLED, MouseMove(8, 0), 0).1.Handoff?
  {
    SeedsAtEdge();
    SeededHolds();
    WigglesLocked();
    WiggledCrosses();
    assert !WIGGLED.locked;
    hide Route, SeedPosition, Router.WellFormed, Layout.Valid, Layout.Find;
  }

  // ---- a landing outside the target ----------------------------------------------------------

  const STACKED := Layout(
    [Screen(1, "main", 0, 0, 1920, 1080, None), Screen(2, "below", 0, 1, 1920, 1080, Some("peer"))], Some(1))

  const PINNED := Router(STACKED, 1, 1, 960, 540, 960, 540, None, None, false, 0, None, 0,
    Double, FixedLeft, None, 0, 0, None, 0, None, false, false, None, None)

  const AT_CORNER := PINNED.(x := 1919, y := 1079, homeX := 1919, homeY := 1079)

  lemma StackedCore()
    ensures STACKED.Valid() && New(STACKED) == Ok(PINNED.(doubleStyle := Mirror))
    ensures Core(PINNED) && Core(AT_CORNER) && PINNED.Here() == AT_CORNER.Here() == STACKED.screens[0]
    ensures STACKED.Find(2) == Some(STACKED.screens[1]) && AT_CORNER.CrossingTarget(Bottom) == Some(2)
  {
    var a, b := STACKED.screens[0], STACKED.screens[1];
    assert !Blank(a.name) by {
      assert !IsWhitespace(a.name[0]);
    }
    assert !Blank(b.name) by {
      assert !IsWhitespace(b.name[0]);
    }
    assert Apart(a, b);
    assert STACKED.screens[1..] == [b];
    assert IndexById(STACKED.screens, 1) == 0 && IndexById([b], 2) == 0 && IndexById(STACKED.screens, 2) == 1;
    assert IndexAt([b], 0, 1) == 0;
    assert IndexAt(STACKED.screens, 0, 1) == 1;
    hide Layout.Valid;
  }

  lemma ReachesCorner()
    ensures PINNED.WellFormed() && Route(PINNED, MouseMove(959, 539), 0).0 == AT_CORNER
  {
    StackedCore();
    assert PINNED.WellFormed();
    hide Layout.Valid, Layout.Find, Layout.CrossingTargetFor, Core;
    assert PastEdge(PINNED, MouseMove(959, 539)).None?;
    assert LocalInside(PINNED, 1919, 1079) == AT_CORNER;
  }

  /** Pinned left, a crossing through the bottom lands at a height taken from the width: below the target. */
  lemma StrayLandingHappens()
    ensures STACKED.Valid() && New(STACKED) == Ok(PINNED.(doubleStyle := Mirror)) && Core(PINNED) && Core(AT_CORNER)
    ensures Route(PINNED, MouseMove(959, 539), 0).0 == AT_CORNER && InBounds(AT_CORNER)
    ensures var out := Route(AT_CORNER, MouseMove(0, 8), 0); out.1.Handoff? && out.0.WellFormed() && !InBounds(out.0)
  {
    StackedCore();
    ReachesCorner();
    CornerStrays();
    hide Core, New, Route, Layout.Valid, Layout.Find, StrayLanding;
    ApplyInBoundsIff(AT_CORNER, Act(DoRoute(MouseMove(0, 8)), 0));
  }

  lemma CornerStrays()
    ensures Core(AT_CORNER) && InBounds(AT_CORNER) && StrayLanding(AT_CORNER, Act(DoRoute(MouseMove(0, 8)), 0))
    ensures Route(AT_CORNER, MouseMove(0, 8), 0).1.Handoff?
  {
    StackedCore();
    assert AT_CORNER.WellFormed() && InBounds(AT_CORNER);
    hide Layout.Valid, Layout.Find, Layout.CrossingTargetFor, Core;
    assert PastEdge(AT_CORNER, MouseMove(0, 8)) == Some(Bottom);
    assert !Gated(AT_CORNER, Bottom, 0);
    assert Overshoot(Bottom, 1919, 1087, 1920, 1080) == 8 && PushTotal(AT_CORNER, Bottom, 8) == 8;
    MapIdentity(1919, 1920);
    hide Gated, EdgePast, PushTotal, Overshoot, MapCoordinate;
    assert Cross(AT_CORNER, Bottom, 8, 0).1.Handoff?;
    hide Cross;
  }

  // ---- a placement onto a twin ---------------------------------------------------------------

  const TWINS := Layout(
    [Screen(1, "main", 0, 0, 1920, 1080, None), Screen(2, "left", -1, 0, 1920, 1080, Some("peer")),
     Screen(3, "right", 1, 0, 1920, 1080, Some("peer"))], Some(1))

  lemma TwinsValid()
    ensures TWINS.Valid()
    ensures TWINS.Find(1) == Some(TWINS.screens[0]) && IndexByPeer(TWINS.screens, "peer") == 1
  {
    var a, b, c := TWINS.screens[0], TWINS.screens[1], TWINS.screens[2];
    assert !Blank(a.name) by {
      assert !IsWhitespace(a.name[0]);
    }
    assert !Blank(b.name) by {
      assert !IsWhitespace(b.name[0]);
    }
    assert !Blank(c.name) by {
      assert !IsWhitespace(c.name[0]);
    }
    assert Apart(a, b) && Apart(a, c) && Apart(b, c);
    assert IndexById(TWINS.screens, 1) == 0;
    assert TWINS.screens[1..] == [b, c];
    assert IndexByPeer([b, c], "peer") == 0;
  }

  /** One peer on both sides of home: placing it right puts its first screen on its second. */
  lemma TwinPlacementCollides()
    ensures TWINS.Valid() && TWINS.PlacePeer("peer", Right).Ok? && !TWINS.PlacePeer("peer", Right).value.Valid()
  {
    TwinsValid();
    assert TWINS.screens[2].peer == Some("peer") && OneStep(TWINS.screens[0], TWINS.screens[2], Right);
    hide Layout.Valid;
    assert TWINS.PlacePeer("peer", Right).Ok?;
    assert TwinOnTarget(TWINS, "peer", Right);
    PlacePeerValidIff(TWINS, "peer", Right);
  }
}
