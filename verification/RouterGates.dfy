/** What each gate promises over runs: the refractory, the fresh-entry gate, arming, and the far fling. */
module RouterGates {
  import opened Basics
  import opened Events
  import opened Geometry
  import opened Layouts
  import opened Routers
  import opened RouterInvariant
  import opened RouterCrossing

  /** A routed motion that stays on the screen. */
  predicate InsideStep(r: Router, act: Act)
    requires r.WellFormed()
  {
    act.op.DoRoute? && act.op.event.MouseMove? && PastEdge(r, act.op.event).None?
  }

  // ---- post-return refractory ----------------------------------------------------------------

  lemma LandingDistance(r: Router, from: ScreenId, edge: Edge, now: Instant)
    requires Core(r)
    ensures var s := LandAtEdge(r, from, edge, now);
            && s.WellFormed() && s.active.None? && s.current == r.localScreen
            && s.postReturnEdge == Some(LandingEdge(r, edge)) && s.postReturnAt == Some(now)
            && s.DistanceHere(LandingEdge(r, edge)) <= 8
  {
    hide Layout.Valid, Layout.Find, MapCoordinate, LandingEdge;
  }

  /** Every return lands home within the inset of its landing edge, with the refractory armed there. */
  lemma ReturnLands(r: Router, event: InputEvent, now: Instant)
    requires Core(r) && Route(r, event, now).1.ReturnHome?
    ensures var out := Route(r, event, now);
            var landing := LandingEdge(r, out.1.edge);
            && Core(out.0) && out.0.active.None? && out.0.current == r.localScreen
            && out.0.postReturnEdge == Some(landing) && out.0.postReturnAt == Some(now)
            && out.0.DistanceHere(landing) <= 8
  {
    RouteCore(r, event, now);
    ReturnIsLanding(r, event, now);
    var s := Before(r, event, now);
    LandingDistance(s, r.active.value, Route(r, event, now).1.edge, now);
    hide Layout.Valid, Layout.Find, Route, LandAtEdge, Core;
  }

  /** The router as it stands when a home-ward push completes, just before the reset. */
  function Before(r: Router, event: InputEvent, now: Instant): Router
    requires r.WellFormed() && event.MouseMove?
  {
    var past := PastEdge(r, event);
    if past.None? then r
    else
      var px := Overshoot(past.value, r.x + event.dx, r.y + event.dy, r.Here().width, r.Here().height);
      if r.UnarmedEntry(past.value) then r.(returnAccum := r.returnAccum + px)
      else Press(r, past.value, px, now)
  }

  lemma ReturnIsLanding(r: Router, event: InputEvent, now: Instant)
    requires Core(r) && Route(r, event, now).1.ReturnHome?
    ensures event.MouseMove? && r.active.Some? && Core(Before(r, event, now))
    ensures var out := Route(r, event, now);
            && out.0 == LandAtEdge(Before(r, event, now), r.active.value, out.1.edge, now)
            && LandingEdge(Before(r, event, now), out.1.edge) == LandingEdge(r, out.1.edge)
            && Before(r, event, now).localScreen == r.localScreen
  {
    hide Layout.Valid, Layout.Find, LandAtEdge, EdgePast, Overshoot, DistanceFromEdge, Router.FacesHome, PressComplete;
    hide LocalInside, ClampToEdge, Cross, Gated, PushTotal, DriveInside, Router.InHandoffGrace;
  }

  /** The operations that leave the post-return refractory alone: everything but explicit placement. */
  predicate LeavesRefractory(op: Op) {
    op.DoRoute? || op.DoResync? || op.DoAdoptLocal? || op.DoAdoptPeer?
    || op.DoSetMode? || op.DoSetStyle? || op.DoSetLocked? || op.DoSetHold? || op.DoSetGrace?
  }

  predicate Refractory(r: Router, landing: Edge, since: Instant) {
    r.active.None? && r.postReturnEdge == Some(landing) && r.postReturnAt == Some(since)
  }

  /** Within the window, and with no inside step getting clear of the landing edge. */
  predicate StillPressing(r: Router, act: Act, landing: Edge, since: Instant)
    requires Core(r) && Sound(r.localScreen, act)
  {
    && LeavesRefractory(act.op)
    && Elapsed(since, act.now) < 250_000_000
    && (InsideStep(r, act) ==>
          DistanceFromEdge(landing, r.x + act.op.event.dx, r.y + act.op.event.dy, r.Here().width, r.Here().height)
            < 64)
  }

  lemma RouteRefractory(r: Router, act: Act, landing: Edge, since: Instant)
    requires Core(r) && act.op.DoRoute? && Refractory(r, landing, since) && StillPressing(r, act, landing, since)
    ensures var out := Route(r, act.op.event, act.now);
            && (out.1.Handoff? ==> out.1.edge != landing)
            && (!out.1.Handoff? ==> out.1.Local? && Refractory(out.0, landing, since))
  {
    hide Layout.Valid, Layout.Find, DistanceFromEdge, EdgePast, Landing, PushTotal, Router.NearCrossingEdge;
    hide Layout.CrossingTargetFor, Overshoot;
  }

  lemma QuietRefractory(r: Router, act: Act, landing: Edge, since: Instant)
    requires r.WellFormed() && !act.op.DoRoute? && LeavesRefractory(act.op) && Refractory(r, landing, since)
    ensures Refractory(Apply(r, act), landing, since)
  {
    hide Layout.Valid, Layout.Find, DistanceFromEdge, Layout.SetScreenSize;
  }

  /** The run so far handed off nothing. */
  predicate NoHandoffYet(r: Router, acts: seq<Act>, n: nat)
    requires Core(r) && AllSound(r.localScreen, acts) && n <= |acts|
  {
    forall k :: 0 <= k < n && Answer(r, acts, k).Some? ==> !Answer(r, acts, k).value.Handoff?
  }

  lemma {:induction false} RefractoryHolds(r: Router, acts: seq<Act>, n: nat, landing: Edge, since: Instant)
    requires Core(r) && AllSound(r.localScreen, acts) && n <= |acts| && Refractory(r, landing, since)
    requires forall k :: 0 <= k < n ==> StillPressing(After(r, acts[..k]), acts[k], landing, since)
    requires NoHandoffYet(r, acts, n)
    ensures Refractory(After(r, acts[..n]), landing, since)
  {
    if n == 0 {
      assert After(r, acts[..0]) == r;
    } else {
      RefractoryHolds(r, acts, n - 1, landing, since);
      Unroll(r, acts, n - 1);
      var before := After(r, acts[..n - 1]);
      assert StillPressing(before, acts[n - 1], landing, since);
      assert Answer(r, acts, n - 1).Some? ==> !Answer(r, acts, n - 1).value.Handoff?;
      hide Core, Route, Apply, After, Answer, Layout.Valid, Layout.Find, InsideStep, Refractory;
      if acts[n - 1].op.DoRoute? {
        RouteRefractory(before, acts[n - 1], landing, since);
      } else {
        QuietRefractory(before, acts[n - 1], landing, since);
      }
    }
  }

  /**
   * No bounce: while the refractory window runs and no inside step gets 64 px clear, the first
   * handoff after a return does not go through the edge the return landed at.
   */
  lemma NoBounce(r: Router, acts: seq<Act>, n: nat, landing: Edge, since: Instant)
    requires Core(r) && AllSound(r.localScreen, acts) && n < |acts| && Refractory(r, landing, since)
    requires forall k :: 0 <= k <= n ==> StillPressing(After(r, acts[..k]), acts[k], landing, since)
    requires NoHandoffYet(r, acts, n)
    ensures Answer(r, acts, n).Some? && Answer(r, acts, n).value.Handoff? ==> Answer(r, acts, n).value.edge != landing
  {
    RefractoryHolds(r, acts, n, landing, since);
    var before := After(r, acts[..n]);
    assert StillPressing(before, acts[n], landing, since);
    hide Core, Route, After, Layout.Valid, Layout.Find, InsideStep, Refractory, StillPressing;
    if acts[n].op.DoRoute? {
      RouteRefractory(before, acts[n], landing, since);
    }
  }

  // ---- fresh-entry gate ----------------------------------------------------------------------

  /** An inside step that lands more than the push range from every crossable edge. */
  predicate FreeStep(r: Router, act: Act)
    requires r.WellFormed()
  {
    InsideStep(r, act) &&
    forall edge: Edge :: r.CrossingTarget(edge).Some? ==>
      DistanceFromEdge(edge, r.x + act.op.event.dx, r.y + act.op.event.dy, r.Here().width, r.Here().height)
          > 8
  }

  predicate GateShut(r: Router) {
    r.active.None? && r.startupGate
  }

  /** An inside step lifts the gate when it is free; while locked every inside step does. */
  predicate LiftsGate(r: Router, act: Act)
    requires r.WellFormed()
  {
    InsideStep(r, act) && (r.locked || FreeStep(r, act))
  }

  /**
   * A routed event against a shut gate stays local, and lifts the gate exactly when it is an inside
   * step that is free, or any inside step at all while locked.
   */
  lemma GateStep(r: Router, event: InputEvent, now: Instant)
    requires Core(r) && GateShut(r)
    ensures var out := Route(r, event, now);
            && out.1.Local? && out.0.active.None? && out.0.locked == r.locked
            && (GateShut(out.0) <==> !LiftsGate(r, Act(DoRoute(event), now)))
  {
    var act := Act(DoRoute(event), now);
    if event.MouseMove? && PastEdge(r, event).None? {
      FreeMeansFar(r, act, r.(x := r.x + event.dx, y := r.y + event.dy, homeX := r.x + event.dx,
          homeY := r.y + event.dy));
      GateStepInside(r, event);
      hide Core, LocalInside, FreeStep, Router.NearCrossingEdge, DriveMove;
    } else {
      assert !LiftsGate(r, act);
      hide FreeStep, LiftsGate, LocalInside, DriveMove, Cross, Core;
    }
    hide Layout.Valid, Layout.Find, DistanceFromEdge, EdgePast, Layout.CrossingTargetFor, Overshoot;
  }

  lemma GateStepInside(r: Router, event: InputEvent)
    requires Core(r) && GateShut(r) && event.MouseMove? && PastEdge(r, event).None?
    ensures var s := LocalInside(r, r.x + event.dx, r.y + event.dy);
            var moved := r.(x := r.x + event.dx, y := r.y + event.dy, homeX := r.x + event.dx, homeY := r.y + event.dy);
            && s.active.None? && s.locked == r.locked
            && (GateShut(s) <==> moved.NearCrossingEdge(8))
  {
    hide Layout.Valid, Layout.Find, DistanceFromEdge, EdgePast, Router.NearCrossingEdge;
  }

  lemma FreeMeansFar(r: Router, act: Act, moved: Router)
    requires Core(r) && GateShut(r) && InsideStep(r, act)
    requires moved == r.(x := r.x + act.op.event.dx, y := r.y + act.op.event.dy,
                         homeX := r.x + act.op.event.dx, homeY := r.y + act.op.event.dy)
    ensures LiftsGate(r, act) <==> !moved.NearCrossingEdge(8)
  {
    assert r.WellFormed() && r.current == r.localScreen;
    hide Layout.Valid, Layout.Find, EdgePast, Core, DistanceFromEdge;
    assert forall edge: Edge :: moved.CrossingTarget(edge) == r.CrossingTarget(edge);
    var nextX, nextY := r.x + act.op.event.dx, r.y + act.op.event.dy;
    assert forall edge: Edge ::
      moved.DistanceHere(edge) == DistanceFromEdge(edge, nextX, nextY, r.Here().width, r.Here().height);
  }

  /** Routed events, the lock coming and going between them. */
  predicate RoutedOrLocked(acts: seq<Act>) {
    forall n :: 0 <= n < |acts| ==> acts[n].op.DoRoute? || acts[n].op.DoSetLocked?
  }

  lemma GateAct(r: Router, act: Act)
    requires Core(r) && GateShut(r) && (act.op.DoRoute? || act.op.DoSetLocked?)
    ensures Output(r, act).Some? ==> Output(r, act).value.Local?
    ensures GateShut(Apply(r, act)) <==> !LiftsGate(r, act)
  {
    assert r.WellFormed();
    hide Core, Route, FreeStep, Layout.Valid, Layout.Find;
    if act.op.DoRoute? {
      GateStep(r, act.op.event, act.now);
    }
  }

  lemma {:induction false} GateStays(r: Router, acts: seq<Act>, n: nat)
    requires Core(r) && GateShut(r) && AllSound(r.localScreen, acts) && RoutedOrLocked(acts) && n <= |acts|
    requires forall k :: 0 <= k < n ==> !LiftsGate(After(r, acts[..k]), acts[k])
    ensures GateShut(After(r, acts[..n]))
  {
    hide Core, Route, Apply, After, Answer, GateShut, LiftsGate, Layout.Valid, Layout.Find;
    if n == 0 {
      AfterNone(r, acts);
    } else {
      GateStays(r, acts, n - 1);
      Unroll(r, acts, n - 1);
      GateAct(After(r, acts[..n - 1]), acts[n - 1]);
    }
  }

  /**
   * A gated seed opens nothing until a step lifts the gate: through the first such step every event is
   * answered locally, and that step is what lifts it, whenever the lock comes and goes.
   */
  lemma GateHolds(r: Router, acts: seq<Act>, n: nat)
    requires Core(r) && GateShut(r) && AllSound(r.localScreen, acts) && RoutedOrLocked(acts) && n < |acts|
    requires forall k :: 0 <= k < n ==> !LiftsGate(After(r, acts[..k]), acts[k])
    ensures Answer(r, acts, n).Some? ==> Answer(r, acts, n).value.Local?
    ensures GateShut(After(r, acts[..n + 1])) <==> !LiftsGate(After(r, acts[..n]), acts[n])
  {
    hide Core, Route, Apply, After, Output, GateShut, LiftsGate, Layout.Valid, Layout.Find;
    GateStays(r, acts, n);
    Unroll(r, acts, n);
    GateAct(After(r, acts[..n]), acts[n]);
  }

  /** A gated seed shuts the gate exactly when it sits within the push range of a crossable edge. */
  lemma SeedShutsGate(r: Router, x: u32, y: u32)
    requires Core(r) && r.active.None?
    ensures var s := SeedPosition(r, x, y, true);
            && s.Ok? && s.value.WellFormed()
            && (GateShut(s.value) <==>
                  exists edge: Edge :: s.value.CrossingTarget(edge).Some? && s.value.DistanceHere(edge) < 8)
  {
    var s := SeedPosition(r, x, y, true).value;
    hide Layout.Valid, Layout.Find, DistanceFromEdge, Layout.CrossingTargetFor;
    assert forall edge: Edge :: s.CrossingTarget(edge) == r.layout.CrossingTargetFor(r.localScreen, edge, r.edgeMode);
  }

  // ---- arming --------------------------------------------------------------------------------

  predicate AllRouted(acts: seq<Act>) {
    forall n :: 0 <= n < |acts| ==> acts[n].op.DoRoute?
  }

  /** An inside step of a drive that lands at least the settle distance from the entry edge. */
  predicate SettlingStep(r: Router, act: Act, entry: Edge)
    requires r.WellFormed()
  {
    InsideStep(r, act) &&
    DistanceFromEdge(entry, r.x + act.op.event.dx, r.y + act.op.event.dy, r.Here().width, r.Here().height) >= 40
  }

  lemma ArmStep(r: Router, event: InputEvent, now: Instant)
    requires Core(r) && r.active.Some? && r.entryEdge.Some? && !Route(r, event, now).1.ReturnHome?
    ensures var s := Route(r, event, now).0;
            && s.active.Some? && s.entryEdge == r.entryEdge
            && (s.returnArmed <==> r.returnArmed || SettlingStep(r, Act(DoRoute(event), now), r.entryEdge.value))
  {
    hide Layout.Valid, Layout.Find, DistanceFromEdge, EdgePast, Overshoot, Router.FacesHome, PressComplete, LandAtEdge;
    hide Router.InHandoffGrace, LocalMove;
  }

  predicate NoReturnYet(r: Router, acts: seq<Act>, n: nat)
    requires Core(r) && AllSound(r.localScreen, acts) && n <= |acts|
  {
    forall k :: 0 <= k < n && Answer(r, acts, k).Some? ==> !Answer(r, acts, k).value.ReturnHome?
  }

  ghost predicate SettledAt(r: Router, acts: seq<Act>, k: nat, entry: Edge)
    requires Core(r) && AllSound(r.localScreen, acts) && k < |acts|
  {
    SettlingStep(After(r, acts[..k]), acts[k], entry)
  }

  /** After a routed entry the drive is armed exactly when some inside step has settled 40 px from the entry edge. */
  lemma {:induction false} ArmedIffSettled(r: Router, acts: seq<Act>, n: nat)
    requires Core(r) && r.active.Some? && r.entryEdge.Some? && !r.returnArmed
    requires AllSound(r.localScreen, acts) && AllRouted(acts) && n <= |acts| && NoReturnYet(r, acts, n)
    ensures var s := After(r, acts[..n]);
            && s.active.Some? && s.entryEdge == r.entryEdge
            && (s.returnArmed <==> exists k :: 0 <= k < n && SettledAt(r, acts, k, r.entryEdge.value))
  {
    hide Core, Route, Apply, After, Answer, Layout.Valid, Layout.Find, SettlingStep;
    if n == 0 {
      AfterNone(r, acts);
    } else {
      ArmedIffSettled(r, acts, n - 1);
      Unroll(r, acts, n - 1);
      assert Answer(r, acts, n - 1).Some? ==> !Answer(r, acts, n - 1).value.ReturnHome?;
      ArmStep(After(r, acts[..n - 1]), acts[n - 1].op.event, acts[n - 1].now);
      assert After(r, acts[..n]).returnArmed <==>
        After(r, acts[..n - 1]).returnArmed || SettledAt(r, acts, n - 1, r.entryEdge.value);
    }
  }

  // ---- the far fling -------------------------------------------------------------------------

  /** A live push run has its cursor beside its edge. */
  predicate PushTight(r: Router)
    requires r.WellFormed()
  {
    r.active.None? && r.pushEdge.Some? ==> r.DistanceHere(r.pushEdge.value) <= 2
  }

  /** A new router's push runs are tight. */
  lemma NewIsTight(layout: Layout)
    requires layout.Valid() && New(layout).Ok? && Unpaired(layout, New(layout).value.localScreen)
    ensures Core(New(layout).value) && PushTight(New(layout).value)
  {
    NewIsCore(layout);
    hide Core, Layout.Valid, Layout.Find;
  }

  /** One event from far inside opens an edge exactly when a run saved up earlier completes the budget. */
  lemma FarFlingIff(r: Router, event: InputEvent, now: Instant)
    requires Core(r) && r.active.None? && event.MouseMove? && PastEdge(r, event).Some?
    requires r.DistanceHere(PastEdge(r, event).value) > 64
    ensures var edge := PastEdge(r, event).value;
            var px := Overshoot(edge, r.x + event.dx, r.y + event.dy, r.Here().width, r.Here().height);
            Route(r, event, now).1.Handoff? <==>
              !Gated(r, edge, now) && r.pushEdge == Some(edge)
              && r.pushAccum + Min(px, 7) >= 8
  {
    hide Layout.Valid, Layout.Find, Overshoot, EdgePast, Landing;
    hide Gated, DistanceFromEdge, LocalInside, Cross, ClampToEdge;
  }

  /** So while push runs stay tight no single event from more than 64 px inside crosses. */
  lemma TightMeansNoFarFling(r: Router, event: InputEvent, now: Instant)
    requires Core(r) && PushTight(r) && Route(r, event, now).1.Handoff?
    ensures PastEdge(r, event).Some? && r.DistanceHere(PastEdge(r, event).value) <= 64
  {
    HandoffIsCross(r, event, now);
    if r.DistanceHere(PastEdge(r, event).value) > 64 {
      FarFlingIff(r, event, now);
    }
    hide Layout.Valid, Layout.Find, Route, Cross, Overshoot, EdgePast, Gated, DistanceFromEdge;
  }

  lemma LocalMoveTight(r: Router, dx: i32, dy: i32, now: Instant)
    requires Core(r) && r.active.None? && LocalMove(r, dx, dy, now).0.active.None?
    ensures Core(LocalMove(r, dx, dy, now).0) && PushTight(LocalMove(r, dx, dy, now).0)
  {
    LocalMoveCore(r, dx, dy, now);
    assert r.WellFormed();
    var past := PastEdge(r, MouseMove(dx, dy));
    if past.Some? {
      PinnedBeside(past.value, r.x + dx, r.y + dy, r.Here().width, r.Here().height);
    }
    hide Layout.Valid, Layout.Find, Overshoot, EdgePast, Landing;
    hide Gated, DistanceFromEdge, Core, Router.NearCrossingEdge;
    hide Clamp, Cross;
  }

  lemma PinnedBeside(edge: Edge, x: int, y: int, width: u32, height: u32)
    requires width > 0 && height > 0 && EdgePast(x, y, width, height) == Some(edge)
    ensures DistanceFromEdge(edge, Clamp(x, 0, width - 1), Clamp(y, 0, height - 1), width, height) == 0
  {
  }

  lemma RouteTight(r: Router, event: InputEvent, now: Instant)
    requires Core(r) && PushTight(r)
    ensures Core(Route(r, event, now).0) && PushTight(Route(r, event, now).0)
  {
    RouteCore(r, event, now);
    if event.MouseMove? {
      if r.active.Some? {
        DriveEndsTight(r, event.dx, event.dy, now);
        hide Layout.Valid, Layout.Find, DriveMove, Core;
      } else if LocalMove(r, event.dx, event.dy, now).0.active.None? {
        LocalMoveTight(r, event.dx, event.dy, now);
        hide Layout.Valid, Layout.Find, LocalMove, Core, PushTight;
      } else {
        hide Layout.Valid, Layout.Find, LocalMove, Core;
      }
    }
  }

  lemma DriveEndsTight(r: Router, dx: i32, dy: i32, now: Instant)
    requires r.WellFormed() && r.active.Some?
    ensures var s := DriveMove(r, dx, dy, now).0; s.active.Some? || s.pushEdge.None?
  {
    hide Layout.Valid, Layout.Find, ReturnCoords, Overshoot, EdgePast, Router.FacesHome, PressComplete;
    hide Router.InHandoffGrace, DistanceFromEdge, Press;
  }

  /** Every operation but a truth re-pin keeps push runs tight. */
  lemma TightKept(r: Router, act: Act)
    requires Core(r) && Sound(r.localScreen, act) && PushTight(r) && !act.op.DoResync?
    ensures Core(Apply(r, act)) && PushTight(Apply(r, act))
  {
    ApplyKeepsCore(r, act);
    assert r.WellFormed();
    if act.op.DoRoute? {
      RouteTight(r, act.op.event, act.now);
      hide Layout.Valid, Layout.Find, Route, Core, PushTight;
    } else {
      QuietTight(r, act);
      hide Layout.Valid, Layout.Find, Apply, Core, PushTight;
    }
  }

  /** After any of these a live local push run means nothing moved. */
  ghost predicate PushUntouched(r: Router, s: Router) {
    s.active.None? && s.pushEdge.Some? ==> s == r || SameBut(r, s)
  }

  lemma PlacedUntouched(r: Router, act: Act)
    requires r.WellFormed() && (act.op.DoSetLayout? || act.op.DoSeed?)
    ensures PushUntouched(r, Apply(r, act))
  {
    hide Layout.Valid, Layout.Find, CarrySizes, Router.AtCrossableEdge, SameBut;
  }

  lemma AdoptedUntouched(r: Router, act: Act)
    requires r.WellFormed() && (act.op.DoAdoptLocal? || act.op.DoAdoptPeer?)
    ensures PushUntouched(r, Apply(r, act))
  {
    hide Layout.Valid, Layout.Find, Layout.SetScreenSize, SameBut;
  }

  lemma ReturnedUntouched(r: Router, act: Act)
    requires r.WellFormed()
    requires act.op.DoReturnToLocal? || act.op.DoRestoreAtEdge? || act.op.DoRestore? || act.op.DoHandoffTo?
    ensures PushUntouched(r, Apply(r, act))
  {
    hide Layout.Valid, Layout.Find, ReturnCoords, MapCoordinate, SameBut;
  }

  lemma SettingUntouched(r: Router, act: Act)
    requires r.WellFormed()
    requires act.op.DoSetMode? || act.op.DoSetStyle? || act.op.DoSetLocked? || act.op.DoSetHold? || act.op.DoSetGrace?
    ensures SameBut(r, Apply(r, act))
  {
    hide Layout.Valid, Layout.Find;
  }

  lemma QuietTight(r: Router, act: Act)
    requires Core(r) && PushTight(r) && !act.op.DoRoute? && !act.op.DoResync?
    requires Core(Apply(r, act))
    ensures PushTight(Apply(r, act))
  {
    assert r.WellFormed() && Apply(r, act).WellFormed();
    hide Layout.Valid, Layout.Find, Apply, Core, DistanceFromEdge;
    match act.op
    case DoSetLayout(_) => PlacedUntouched(r, act);
    case DoSeed(_, _, _) => PlacedUntouched(r, act);
    case DoAdoptLocal(_, _) => AdoptedUntouched(r, act);
    case DoAdoptPeer(_, _, _) => AdoptedUntouched(r, act);
    case DoReturnToLocal(_, _, _) => ReturnedUntouched(r, act);
    case DoRestoreAtEdge(_, _) => ReturnedUntouched(r, act);
    case DoRestore(_) => ReturnedUntouched(r, act);
    case DoHandoffTo(_, _, _) => ReturnedUntouched(r, act);
    case _ => SettingUntouched(r, act);
  }

  predicate NoPins(acts: seq<Act>) {
    forall n :: 0 <= n < |acts| ==> !acts[n].op.DoResync?
  }

  lemma {:induction false} TightRun(r: Router, acts: seq<Act>, n: nat)
    requires Core(r) && PushTight(r) && AllSound(r.localScreen, acts) && NoPins(acts) && n <= |acts|
    ensures PushTight(After(r, acts[..n]))
  {
    hide Core, Route, Apply, After, PushTight, Layout.Valid, Layout.Find;
    if n == 0 {
      AfterNone(r, acts);
    } else {
      TightRun(r, acts, n - 1);
      Unroll(r, acts, n - 1);
      TightKept(After(r, acts[..n - 1]), acts[n - 1]);
    }
  }

  /** In every run without truth re-pins, no handoff comes from one event starting more than 64 px inside. */
  lemma NoFarFling(r: Router, acts: seq<Act>, n: nat)
    requires Core(r) && PushTight(r) && AllSound(r.localScreen, acts) && NoPins(acts) && n < |acts|
    requires Answer(r, acts, n).Some? && Answer(r, acts, n).value.Handoff?
    ensures After(r, acts[..n]).DistanceHere(Answer(r, acts, n).value.edge) <= 64
  {
    hide Core, Route, Apply, After, PushTight, Layout.Valid, Layout.Find;
    TightRun(r, acts, n);
    Unroll(r, acts, n);
    var before := After(r, acts[..n]);
    TightMeansNoFarFling(before, acts[n].op.event, acts[n].now);
    HandoffIsCross(before, acts[n].op.event, acts[n].now);
  }

  /** k truth re-pins, each two pixels further left. */
  function Pins(r: Router, k: nat): (acts: seq<Act>)
    requires 2 * k <= r.x
    ensures |acts| == k && forall i :: 0 <= i < k ==> acts[i] == Act(DoResync(r.x - 2 * (i + 1), r.y), 0)
  {
    seq(k, i requires 0 <= i < k => Act(DoResync(r.x - 2 * (i + 1), r.y), 0))
  }

  function Dragged(r: Router, k: nat): Router
    requires 2 * k <= r.x
  {
    r.(x := r.x - 2 * k, homeX := r.x - 2 * k)
  }

  lemma SmallPin(r: Router, k: nat)
    requires Core(r) && r.active.None? && 2 * k + 2 <= r.x
    ensures Core(Dragged(r, k))
    ensures Apply(Dragged(r, k), Act(DoResync(r.x - 2 * (k + 1), r.y), 0)) == Dragged(r, k + 1)
  {
    var s := Dragged(r, k);
    assert r.WellFormed() && s.WellFormed() && s.x < s.HomeScreen().width && s.y < s.HomeScreen().height;
    assert r.x == r.homeX && r.y == r.homeY;
    assert Core(s);
    hide Core, Layout.Valid, Layout.Find, DistanceFromEdge;
  }

  /** Small re-pins drag the cursor inward and leave a live run exactly as it was. */
  lemma {:induction false} PinsKeepRun(r: Router, k: nat, n: nat)
    requires Core(r) && r.active.None? && 2 * k <= r.x && n <= k && AllSound(r.localScreen, Pins(r, k))
    ensures After(r, Pins(r, k)[..n]) == Dragged(r, n)
  {
    hide Core, Layout.Valid, Layout.Find, Apply, After, Route;
    var acts := Pins(r, k);
    if n == 0 {
      AfterNone(r, acts);
      assert Core(r);
      HomeIsHere(r);
    } else {
      PinsKeepRun(r, k, n - 1);
      Unroll(r, acts, n - 1);
      SmallPin(r, n - 1);
    }
  }

  lemma HomeIsHere(r: Router)
    requires Core(r) && r.active.None?
    ensures r.x == r.homeX && r.y == r.homeY && r.Here() == r.HomeScreen() && InBounds(r)
  {
  }

  /**
   * With truth re-pins the far fling is back: from any live run on the right edge, enough small
   * re-pins put the cursor as far inside as one likes, and one event from there still crosses.
   */
  lemma PinnedRunCrossesFromAfar(r: Router, k: nat, dx: i32, now: Instant)
    requires Core(r) && r.active.None? && r.pushEdge == Some(Right) && !Gated(r, Right, now)
    requires 2 * k <= r.x && 33 <= k
    requires r.x - 2 * k + dx >= r.Here().width - 1 + 8 - r.pushAccum
    ensures AllSound(r.localScreen, Pins(r, k))
    ensures var s := After(r, Pins(r, k));
            s.DistanceHere(Right) > 64 && Route(s, MouseMove(dx, 0), now).1.Handoff?
  {
    hide Layout.Valid, Layout.Find, Gated, Core, Pins, After, Route, Dragged, PastEdge, Router.WellFormed, Overshoot;
    hide DistanceFromEdge;
    PinsKeepRun(r, k, k);
    assert Pins(r, k)[..k] == Pins(r, k);
    DraggedFar(r, k, dx, now);
    FarFlingIff(Dragged(r, k), MouseMove(dx, 0), now);
  }

  lemma DraggedFar(r: Router, k: nat, dx: i32, now: Instant)
    requires Core(r) && r.active.None? && r.pushEdge == Some(Right) && !Gated(r, Right, now)
    requires 2 * k <= r.x && 33 <= k
    requires r.x - 2 * k + dx >= r.Here().width - 1 + 8 - r.pushAccum
    ensures var s := Dragged(r, k);
            && Core(s) && s.active.None? && !Gated(s, Right, now) && s.pushEdge == Some(Right)
            && s.DistanceHere(Right) > 64 && PastEdge(s, MouseMove(dx, 0)) == Some(Right)
            && var px := Overshoot(Right, s.x + dx, s.y, s.Here().width, s.Here().height);
               s.pushAccum + Min(px, 7) >= 8
  {
    HomeIsHere(r);
    assert r.WellFormed() && 1 <= r.pushAccum < 8;
    hide Layout.Valid, Layout.Find, Layout.CrossingTargetFor;
  }
}
