/**
 * Every crossing and every return is paid for. The ledgers below add up overflow pixels over a
 * run and start over where its run is reset; the router's capped accumulators never exceed them.
 */
module RouterLedger {
  import opened Basics
  import opened Events
  import opened Geometry
  import opened Layouts
  import opened Routers
  import opened RouterInvariant
  import opened RouterCrossing

  /** Pixels an event runs past an edge. */
  function Pixels(r: Router, event: InputEvent, edge: Edge): nat
    requires r.WellFormed()
  {
    if event.MouseMove? then Overshoot(edge, r.x + event.dx, r.y + event.dy, r.Here().width, r.Here().height) else 0
  }

  predicate Moves(act: Act) {
    act.op.DoRoute? && act.op.event.MouseMove?
  }

  /** A peer-placed drive begins. */
  predicate NewDrive(before: Router, act: Act) {
    act.op.DoHandoffTo? && before.layout.Find(act.op.target).Some?
  }

  /** A peer's size is taken over, which ends every run. */
  predicate Resized(before: Router, act: Act)
    requires before.WellFormed()
  {
    act.op.DoAdoptPeer? && AdoptPeerScreenSize(before, act.op.fingerprint, act.op.width, act.op.height).Some?
  }

  /** Overflow past `edge` since the return run on it was last reset. */
  function PressNext(before: Router, act: Act, after: Router, edge: Edge, paid: nat): nat
    requires before.WellFormed() && after.WellFormed()
  {
    if before.active.None? || after.active.None? || NewDrive(before, act) || after.returnEdge != Some(edge) then 0
    else if Moves(act) && PastEdge(before, act.op.event) == Some(edge) && !before.UnarmedEntry(edge)
    then paid + Pixels(before, act.op.event, edge)
    else paid
  }

  /** The edge an inside step of a drive is measured from: the run's own, else the entry. */
  function RunEdge(r: Router): Option<Edge> {
    if r.returnEdge.Some? then r.returnEdge else r.entryEdge
  }

  /**
   * Overflow past the disarmed entry `edge` since the escape run was last reset: by a step clear of
   * the run's edge, a push on an edge that leads nowhere, a size taken over, or a drive's end.
   */
  function EscapeNext(before: Router, act: Act, after: Router, edge: Edge, paid: nat): nat
    requires before.WellFormed() && after.WellFormed()
  {
    if before.active.None? || after.active.None? || NewDrive(before, act) || Resized(before, act) then 0
    else if !Moves(act) then paid
    else
      match PastEdge(before, act.op.event)
      case None => if RunEdge(before).None? || after.DistanceHere(RunEdge(before).value) > 2 then 0 else paid
      case Some(past) =>
        if !before.FacesHome(past) then 0
        else if past == edge && before.UnarmedEntry(edge) then paid + Pixels(before, act.op.event, edge)
        else paid
  }

  /** Overflow past `edge` while local since the push run on it was last reset. */
  function PushNext(before: Router, act: Act, after: Router, edge: Edge, paid: nat): nat
    requires before.WellFormed() && after.WellFormed()
  {
    if after.pushEdge != Some(edge) then 0
    else if Moves(act) && before.active.None? && PastEdge(before, act.op.event) == Some(edge)
    then paid + Pixels(before, act.op.event, edge)
    else paid
  }

  function PressPaid(r: Router, acts: seq<Act>, edge: Edge): nat
    requires Core(r) && AllSound(r.localScreen, acts)
  {
    if acts == [] then 0
    else
      var n := |acts| - 1;
      PressNext(After(r, acts[..n]), acts[n], After(r, acts), edge, PressPaid(r, acts[..n], edge))
  }

  function EscapePaid(r: Router, acts: seq<Act>, edge: Edge): nat
    requires Core(r) && AllSound(r.localScreen, acts)
  {
    if acts == [] then 0
    else
      var n := |acts| - 1;
      EscapeNext(After(r, acts[..n]), acts[n], After(r, acts), edge, EscapePaid(r, acts[..n], edge))
  }

  function PushPaid(r: Router, acts: seq<Act>, edge: Edge): nat
    requires Core(r) && AllSound(r.localScreen, acts)
  {
    if acts == [] then 0
    else
      var n := |acts| - 1;
      PushNext(After(r, acts[..n]), acts[n], After(r, acts), edge, PushPaid(r, acts[..n], edge))
  }

  // ---- the accumulators never exceed the ledgers ---------------------------------------------

  predicate PressCovered(r: Router, edge: Edge, paid: nat) {
    && (r.active.None? ==> r.returnEdge.None?)
    && (r.returnEdge == Some(edge) ==> r.returnEdgeAccum <= paid)
  }

  predicate EscapeCovered(r: Router, edge: Edge, paid: nat) {
    r.active.Some? && r.UnarmedEntry(edge) ==> r.returnAccum == paid
  }

  predicate PushCovered(r: Router, edge: Edge, paid: nat) {
    r.pushEdge == Some(edge) ==> r.pushAccum <= paid
  }

  lemma InsideCovers(r: Router, event: InputEvent, now: Instant, edge: Edge, press: nat, escape: nat)
    requires Core(r) && r.active.Some? && event.MouseMove? && PastEdge(r, event).None?
    requires PressCovered(r, edge, press) && EscapeCovered(r, edge, escape)
    ensures var s := DriveInside(r, r.x + event.dx, r.y + event.dy);
            var act := Act(DoRoute(event), now);
            && s.WellFormed()
            && PressCovered(s, edge, PressNext(r, act, s, edge, press))
            && EscapeCovered(s, edge, EscapeNext(r, act, s, edge, escape))
  {
    hide Layout.Valid, Layout.Find, DistanceFromEdge, Overshoot, EdgePast, Router.FacesHome;
  }

  lemma DeadCovers(r: Router, event: InputEvent, now: Instant, edge: Edge, press: nat, escape: nat)
    requires Core(r) && r.active.Some? && event.MouseMove?
    requires PastEdge(r, event).Some? && !r.FacesHome(PastEdge(r, event).value)
    ensures var s := r.(returnAccum := 0).EndReturnRun().Pinned(r.x + event.dx, r.y + event.dy);
            var act := Act(DoRoute(event), now);
            && s.WellFormed()
            && PressCovered(s, edge, PressNext(r, act, s, edge, press))
            && EscapeCovered(s, edge, EscapeNext(r, act, s, edge, escape))
  {
    hide Layout.Valid, Layout.Find, DistanceFromEdge, Overshoot, EdgePast, Router.FacesHome;
  }

  lemma EscapeStepCovers(r: Router, event: InputEvent, now: Instant, edge: Edge, press: nat, escape: nat)
    requires Core(r) && r.active.Some? && event.MouseMove? && PastEdge(r, event).Some?
    requires r.FacesHome(PastEdge(r, event).value) && r.UnarmedEntry(PastEdge(r, event).value)
    requires PressCovered(r, edge, press) && EscapeCovered(r, edge, escape)
    ensures var past := PastEdge(r, event).value;
            var s := r.(returnAccum := r.returnAccum + Pixels(r, event, past)).Pinned(r.x + event.dx, r.y + event.dy);
            var act := Act(DoRoute(event), now);
            && s.WellFormed()
            && PressCovered(s, edge, PressNext(r, act, s, edge, press))
            && EscapeCovered(s, edge, EscapeNext(r, act, s, edge, escape))
  {
    hide Layout.Valid, Layout.Find, DistanceFromEdge, Overshoot, EdgePast, Router.FacesHome;
  }

  lemma ShoveStepCovers(r: Router, event: InputEvent, now: Instant, edge: Edge, press: nat, escape: nat)
    requires Core(r) && r.active.Some? && event.MouseMove? && PastEdge(r, event).Some?
    requires r.FacesHome(PastEdge(r, event).value) && !r.UnarmedEntry(PastEdge(r, event).value)
    requires PressCovered(r, edge, press) && EscapeCovered(r, edge, escape)
    ensures var past := PastEdge(r, event).value;
            var s := Press(r, past, Pixels(r, event, past), now).Pinned(r.x + event.dx, r.y + event.dy);
            var act := Act(DoRoute(event), now);
            && s.WellFormed()
            && PressCovered(s, edge, PressNext(r, act, s, edge, press))
            && EscapeCovered(s, edge, EscapeNext(r, act, s, edge, escape))
  {
    hide Layout.Valid, Layout.Find, DistanceFromEdge, Overshoot, EdgePast, Router.FacesHome;
  }

  /** A home-ward step that does not return, on whichever of the two return paths, stays covered. */
  lemma HomewardCovers(r: Router, event: InputEvent, now: Instant, edge: Edge, press: nat, escape: nat)
    requires Core(r) && r.active.Some? && event.MouseMove? && PastEdge(r, event).Some?
    requires r.FacesHome(PastEdge(r, event).value) && !DriveMove(r, event.dx, event.dy, now).1.ReturnHome?
    requires PressCovered(r, edge, press) && EscapeCovered(r, edge, escape)
    ensures var s := DriveMove(r, event.dx, event.dy, now).0;
            var act := Act(DoRoute(event), now);
            && s.WellFormed()
            && PressCovered(s, edge, PressNext(r, act, s, edge, press))
            && EscapeCovered(s, edge, EscapeNext(r, act, s, edge, escape))
  {
    hide PressNext, EscapeNext, PressCovered, EscapeCovered, Layout.Valid, Layout.Find, EdgePast;
    hide DriveMove, Press, Router.Pinned, Router.FacesHome, Overshoot;
    assert r.WellFormed();
    hide Core, Router.WellFormed;
    HomewardStays(r, event, now);
    if r.UnarmedEntry(PastEdge(r, event).value) {
      EscapeStepCovers(r, event, now, edge, press, escape);
    } else {
      ShoveStepCovers(r, event, now, edge, press, escape);
    }
  }

  lemma HomewardStays(r: Router, event: InputEvent, now: Instant)
    requires Core(r) && r.active.Some? && event.MouseMove? && PastEdge(r, event).Some?
    requires r.FacesHome(PastEdge(r, event).value) && !DriveMove(r, event.dx, event.dy, now).1.ReturnHome?
    ensures var past := PastEdge(r, event).value;
            DriveMove(r, event.dx, event.dy, now).0
            == if r.UnarmedEntry(past)
               then r.(returnAccum := r.returnAccum + Pixels(r, event, past)).Pinned(r.x + event.dx, r.y + event.dy)
               else Press(r, past, Pixels(r, event, past), now).Pinned(r.x + event.dx, r.y + event.dy)
  {
    hide Layout.Valid, Layout.Find, LandAtEdge, Press, PressComplete, Router.Pinned, Router.FacesHome;
    hide DriveInside, Router.InHandoffGrace, EdgePast, Overshoot;
  }

  /** A drive step keeps both return accumulators covered by their ledgers. */
  lemma DriveCovers(r: Router, event: InputEvent, now: Instant, edge: Edge, press: nat, escape: nat)
    requires Core(r) && r.active.Some? && event.MouseMove?
    requires PressCovered(r, edge, press) && EscapeCovered(r, edge, escape)
    ensures Core(DriveMove(r, event.dx, event.dy, now).0)
    ensures var s := DriveMove(r, event.dx, event.dy, now).0;
            var act := Act(DoRoute(event), now);
            && PressCovered(s, edge, PressNext(r, act, s, edge, press))
            && EscapeCovered(s, edge, EscapeNext(r, act, s, edge, escape))
  {
    assert r.WellFormed();
    hide Core, Layout.Valid, Layout.Find, PressNext, EscapeNext;
    hide PressCovered, EscapeCovered, EdgePast, Router.FacesHome;
    hide DriveMove, Router.WellFormed;
    DriveMoveCore(r, event.dx, event.dy, now);
    var past := PastEdge(r, event);
    if DriveMove(r, event.dx, event.dy, now).1.ReturnHome? {
      ReturnCovers(r, event, now, edge, press, escape);
    } else if past.None? {
      DriveStaysInside(r, event, now);
      InsideCovers(r, event, now, edge, press, escape);
    } else if r.FacesHome(past.value) {
      HomewardCovers(r, event, now, edge, press, escape);
    } else {
      DriveStops(r, event, now);
      DeadCovers(r, event, now, edge, press, escape);
    }
  }

  lemma DriveStaysInside(r: Router, event: InputEvent, now: Instant)
    requires Core(r) && r.active.Some? && event.MouseMove? && PastEdge(r, event).None?
    ensures r.x + event.dx >= 0 && r.y + event.dy >= 0
    ensures DriveMove(r, event.dx, event.dy, now).0 == DriveInside(r, r.x + event.dx, r.y + event.dy)
  {
    hide Layout.Valid, Layout.Find, DriveInside;
  }

  lemma DriveStops(r: Router, event: InputEvent, now: Instant)
    requires Core(r) && r.active.Some? && event.MouseMove?
    requires PastEdge(r, event).Some? && !r.FacesHome(PastEdge(r, event).value)
    ensures DriveMove(r, event.dx, event.dy, now).0
         == r.(returnAccum := 0).EndReturnRun().Pinned(r.x + event.dx, r.y + event.dy)
  {
    hide Layout.Valid, Layout.Find, Router.Pinned, Router.FacesHome, EdgePast;
  }

  lemma ReturnCovers(r: Router, event: InputEvent, now: Instant, edge: Edge, press: nat, escape: nat)
    requires Core(r) && r.active.Some? && event.MouseMove? && DriveMove(r, event.dx, event.dy, now).1.ReturnHome?
    ensures var s := DriveMove(r, event.dx, event.dy, now).0;
            var act := Act(DoRoute(event), now);
            && PressCovered(s, edge, PressNext(r, act, s, edge, press))
            && EscapeCovered(s, edge, EscapeNext(r, act, s, edge, escape))
  {
    ReturnEndsDrive(r, event.dx, event.dy, now);
    hide Core, DriveMove, Layout.Valid, Layout.Find;
  }

  /** Coming home, or any other end of a drive, leaves no return run behind. */
  lemma ReturnEndsDrive(r: Router, dx: i32, dy: i32, now: Instant)
    requires r.WellFormed() && r.active.Some? && DriveMove(r, dx, dy, now).1.ReturnHome?
    ensures DriveMove(r, dx, dy, now).0.active.None? && DriveMove(r, dx, dy, now).0.returnEdge.None?
    ensures DriveMove(r, dx, dy, now).0.pushEdge.None?
  {
    hide Layout.Valid, Layout.Find, ReturnCoords, Overshoot, EdgePast, Router.FacesHome, PressComplete;
    hide Router.InHandoffGrace, DistanceFromEdge, Press;
  }

  lemma LocalInsideCovers(r: Router, event: InputEvent, now: Instant, edge: Edge, push: nat)
    requires Core(r) && r.active.None? && event.MouseMove? && PastEdge(r, event).None?
    requires PushCovered(r, edge, push)
    ensures var s := LocalInside(r, r.x + event.dx, r.y + event.dy);
            && s.WellFormed() && s.active.None? && s.returnEdge == r.returnEdge
            && PushCovered(s, edge, PushNext(r, Act(DoRoute(event), now), s, edge, push))
  {
    hide Layout.Valid, Layout.Find, DistanceFromEdge, EdgePast, Router.NearCrossingEdge;
  }

  lemma LocalPastCovers(r: Router, event: InputEvent, now: Instant, edge: Edge, push: nat)
    requires Core(r) && r.active.None? && event.MouseMove? && PastEdge(r, event).Some?
    requires PushCovered(r, edge, push)
    ensures Core(LocalMove(r, event.dx, event.dy, now).0)
    ensures var s := LocalMove(r, event.dx, event.dy, now);
            && (s.1.Handoff? ==> s.0.active.Some? && s.0.returnEdge.None? && s.0.returnAccum == 0)
            && (!s.1.Handoff? ==> s.0.active.None? && s.0.returnEdge == r.returnEdge)
            && PushCovered(s.0, edge, PushNext(r, Act(DoRoute(event), now), s.0, edge, push))
  {
    LocalMoveCore(r, event.dx, event.dy, now);
    assert r.WellFormed();
    hide Layout.Valid, Layout.Find, DistanceFromEdge, EdgePast, Landing;
    hide Overshoot, Core, Gated, Layout.CrossingTargetFor;
    hide Router.Pinned;
  }

  lemma StaysInside(r: Router, event: InputEvent, now: Instant)
    requires Core(r) && event.MouseMove? && PastEdge(r, event).None?
    ensures r.x + event.dx >= 0 && r.y + event.dy >= 0
    ensures LocalMove(r, event.dx, event.dy, now).0 == LocalInside(r, r.x + event.dx, r.y + event.dy)
  {
    hide Layout.Valid, Layout.Find, LocalInside, LocalPast;
  }

  /** A local step keeps every accumulator covered by its ledger. */
  lemma LocalCovers(r: Router, event: InputEvent, now: Instant, edge: Edge, push: nat)
    requires Core(r) && r.active.None? && r.returnEdge.None? && event.MouseMove?
    requires PushCovered(r, edge, push)
    ensures Core(LocalMove(r, event.dx, event.dy, now).0)
    ensures var s := LocalMove(r, event.dx, event.dy, now).0;
            && s.returnEdge.None? && (s.active.Some? ==> s.returnAccum == 0)
            && PushCovered(s, edge, PushNext(r, Act(DoRoute(event), now), s, edge, push))
  {
    assert r.WellFormed();
    hide Core, LocalInside, LocalPast, PushNext, PushCovered, Layout.Valid, Layout.Find, EdgePast;
    LocalMoveCore(r, event.dx, event.dy, now);
    hide LocalMove, Router.WellFormed;
    if PastEdge(r, event).None? {
      StaysInside(r, event, now);
      LocalInsideCovers(r, event, now, edge, push);
    } else {
      LocalPastCovers(r, event, now, edge, push);
    }
  }

  /** What a step other than routing may do to the runs: keep them, lower them, or end them. */
  predicate RunsOnlyFall(r: Router, s: Router, newDrive: bool, resized: bool) {
    && (r.active.None? && r.returnEdge.None? && s.active.None? ==> s.returnEdge.None?)
    && (s.returnEdge.None? || (s.returnEdge == r.returnEdge && s.returnEdgeAccum == r.returnEdgeAccum
                               && s.active == r.active && !newDrive))
    && (s.active.Some? && s.entryEdge.Some? && !s.returnArmed ==>
          s.active == r.active && s.entryEdge == r.entryEdge && !r.returnArmed
          && s.returnAccum == if resized then 0 else r.returnAccum)
    && (s.pushEdge.None? || (s.pushEdge == r.pushEdge && s.pushAccum <= r.pushAccum))
  }

  lemma AdoptRuns(r: Router, act: Act)
    requires r.WellFormed() && r.returnAccum >= 0 && (act.op.DoAdoptLocal? || act.op.DoAdoptPeer? || act.op.DoResync?)
    ensures RunsOnlyFall(r, Apply(r, act), false, Resized(r, act))
  {
    hide Layout.Valid, Layout.Find, DistanceFromEdge, Layout.SetScreenSize;
  }

  lemma PlaceRuns(r: Router, act: Act)
    requires r.WellFormed() && (act.op.DoSetLayout? || act.op.DoSeed?)
    ensures RunsOnlyFall(r, Apply(r, act), false, Resized(r, act))
  {
    hide Layout.Valid, Layout.Find, DistanceFromEdge, CarrySizes, Router.AtCrossableEdge;
  }

  lemma PeerRuns(r: Router, act: Act)
    requires r.WellFormed() && act.op.DoHandoffTo?
    ensures RunsOnlyFall(r, Apply(r, act), NewDrive(r, act), Resized(r, act))
  {
    hide Layout.Valid, Layout.Find;
  }

  lemma HomeRuns(r: Router, act: Act)
    requires r.WellFormed() && (act.op.DoReturnToLocal? || act.op.DoRestoreAtEdge? || act.op.DoRestore?)
    ensures RunsOnlyFall(r, Apply(r, act), false, Resized(r, act))
  {
    hide Layout.Valid, Layout.Find, ReturnCoords, MapCoordinate;
  }

  lemma SettingRuns(r: Router, act: Act)
    requires r.WellFormed()
    requires act.op.DoSetMode? || act.op.DoSetStyle? || act.op.DoSetLocked? || act.op.DoSetHold? || act.op.DoSetGrace?
    ensures RunsOnlyFall(r, Apply(r, act), false, Resized(r, act))
  {
    hide Layout.Valid, Layout.Find;
  }

  lemma QuietRuns(r: Router, act: Act)
    requires Core(r) && Sound(r.localScreen, act) && !act.op.DoRoute?
    ensures Core(Apply(r, act)) && RunsOnlyFall(r, Apply(r, act), NewDrive(r, act), Resized(r, act))
  {
    ApplyKeepsCore(r, act);
    assert r.WellFormed() && r.returnAccum >= 0;
    hide Core, Apply, RunsOnlyFall, Layout.Valid, Layout.Find;
    match act.op
    case DoHandoffTo(_, _, _) => PeerRuns(r, act);
    case DoAdoptLocal(_, _) => AdoptRuns(r, act);
    case DoAdoptPeer(_, _, _) => AdoptRuns(r, act);
    case DoResync(_, _) => AdoptRuns(r, act);
    case DoSetLayout(_) => PlaceRuns(r, act);
    case DoSeed(_, _, _) => PlaceRuns(r, act);
    case DoReturnToLocal(_, _, _) => HomeRuns(r, act);
    case DoRestoreAtEdge(_, _) => HomeRuns(r, act);
    case DoRestore(_) => HomeRuns(r, act);
    case _ => SettingRuns(r, act);
  }

  // ---- runs ----------------------------------------------------------------------------------

  /** All three accumulators covered by the ledgers of the run so far. */
  predicate Covered(r: Router, acts: seq<Act>, edge: Edge)
    requires Core(r) && AllSound(r.localScreen, acts)
  {
    var s := After(r, acts);
    && PressCovered(s, edge, PressPaid(r, acts, edge))
    && EscapeCovered(s, edge, EscapePaid(r, acts, edge))
    && PushCovered(s, edge, PushPaid(r, acts, edge))
  }

  /** A router with no drive and no run in progress, such as a new one. */
  predicate Idle(r: Router) {
    Core(r) && r.active.None? && r.pushEdge.None? && r.returnEdge.None?
  }

  /** A new router has no drive and no run in progress. */
  lemma NewIsIdle(layout: Layout)
    requires layout.Valid() && New(layout).Ok? && Unpaired(layout, New(layout).value.localScreen)
    ensures Idle(New(layout).value)
  {
    NewIsCore(layout);
    hide Core, Layout.Valid, Layout.Find;
  }

  lemma QuietStepCovers(r: Router, act: Act, edge: Edge, press: nat, escape: nat, push: nat)
    requires Core(r) && Sound(r.localScreen, act) && !act.op.DoRoute?
    requires PressCovered(r, edge, press) && EscapeCovered(r, edge, escape) && PushCovered(r, edge, push)
    ensures Core(Apply(r, act))
    ensures var s := Apply(r, act);
            && PressCovered(s, edge, PressNext(r, act, s, edge, press))
            && EscapeCovered(s, edge, EscapeNext(r, act, s, edge, escape))
            && PushCovered(s, edge, PushNext(r, act, s, edge, push))
  {
    QuietRuns(r, act);
    assert r.WellFormed();
    hide Core, Apply, Resized, NewDrive, PastEdge, Layout.Valid, Layout.Find;
  }

  lemma RouteStepCovers(r: Router, event: InputEvent, now: Instant, edge: Edge, press: nat, escape: nat, push: nat)
    requires Core(r)
    requires PressCovered(r, edge, press) && EscapeCovered(r, edge, escape) && PushCovered(r, edge, push)
    ensures Core(Route(r, event, now).0)
    ensures var s := Route(r, event, now).0;
            var act := Act(DoRoute(event), now);
            && PressCovered(s, edge, PressNext(r, act, s, edge, press))
            && EscapeCovered(s, edge, EscapeNext(r, act, s, edge, escape))
            && PushCovered(s, edge, PushNext(r, act, s, edge, push))
  {
    RouteCore(r, event, now);
    if event.MouseMove? {
      if r.active.Some? {
        DriveCovers(r, event, now, edge, press, escape);
        DriveKeepsPush(r, event.dx, event.dy, now);
        hide Core, DriveMove, PastEdge, Layout.Valid, Layout.Find, PressNext, EscapeNext, PressCovered, EscapeCovered;
      } else {
        LocalCovers(r, event, now, edge, push);
        hide Core, LocalMove, PastEdge, Layout.Valid, Layout.Find, PushNext, PushCovered;
      }
    }
  }

  lemma DriveKeepsPush(r: Router, dx: i32, dy: i32, now: Instant)
    requires r.WellFormed() && r.active.Some?
    ensures var s := DriveMove(r, dx, dy, now).0;
            s.pushEdge.None? || (s.pushEdge == r.pushEdge && s.pushAccum == r.pushAccum)
  {
    hide Layout.Valid, Layout.Find, Overshoot, EdgePast, Router.FacesHome, PressComplete, DriveInside, LandAtEdge;
    hide Router.InHandoffGrace, Router.Pinned, Press;
    var past := PastEdge(r, MouseMove(dx, dy));
    if past.None? {
      InsideWhenNotPast(r, MouseMove(dx, dy));
      InsideKeepsPush(r, r.x + dx, r.y + dy);
    } else {
      var px := Overshoot(past.value, r.x + dx, r.y + dy, r.Here().width, r.Here().height);
      PressKeepsPush(r, past.value, px, now);
      LandEndsPush(r.(returnAccum := r.returnAccum + px), r.active.value, past.value, now);
      LandEndsPush(Press(r, past.value, px, now), r.active.value, past.value, now);
    }
  }

  lemma InsideKeepsPush(r: Router, nextX: u32, nextY: u32)
    requires r.WellFormed()
    ensures DriveInside(r, nextX, nextY).pushEdge == r.pushEdge && DriveInside(r, nextX, nextY).pushAccum == r.pushAccum
  {
    hide Layout.Valid, Layout.Find, DistanceFromEdge;
  }

  lemma PressKeepsPush(r: Router, edge: Edge, px: nat, now: Instant)
    requires r.WellFormed()
    ensures var s := Press(r, edge, px, now); s.WellFormed() && s.pushEdge == r.pushEdge && s.pushAccum == r.pushAccum
  {
    hide Layout.Valid, Layout.Find;
  }

  lemma LandEndsPush(r: Router, from: ScreenId, edge: Edge, now: Instant)
    requires r.WellFormed()
    ensures LandAtEdge(r, from, edge, now).pushEdge.None?
  {
    hide Layout.Valid, Layout.Find, ReturnCoords, LandingEdge;
  }

  /** Over every run from an idle router, no accumulator ever holds more than its ledger. */
  lemma {:induction false} RunCovered(r: Router, acts: seq<Act>, edge: Edge)
    requires Idle(r) && AllSound(r.localScreen, acts)
    ensures Covered(r, acts, edge)
  {
    if acts != [] {
      var n := |acts| - 1;
      RunCovered(r, acts[..n], edge);
      var before := After(r, acts[..n]);
      assert acts[..n + 1] == acts;
      Unroll(r, acts, n);
      var press, escape, push := PressPaid(r, acts[..n], edge), EscapePaid(r, acts[..n], edge),
          PushPaid(r, acts[..n], edge);
      hide Core, Route, Apply, After, PressNext, EscapeNext, PushNext, Layout.Valid, Layout.Find;
      hide PressCovered, EscapeCovered, PushCovered;
      if acts[n].op.DoRoute? {
        RouteStepCovers(before, acts[n].op.event, acts[n].now, edge, press, escape, push);
      } else {
        QuietStepCovers(before, acts[n], edge, press, escape, push);
      }
    }
  }

  /** What a return needs, on the step that makes it. */
  lemma ReturnNeeds(r: Router, event: InputEvent, now: Instant)
    requires Core(r) && Route(r, event, now).1.ReturnHome?
    ensures event.MouseMove? && r.active.Some?
    ensures var out := Route(r, event, now).1;
            var edge := out.edge;
            && PastEdge(r, event) == Some(edge) && r.FacesHome(edge) && !r.InHandoffGrace(now)
            && out.from == r.current && out.entry == r.entryEdge && out.armed == r.returnArmed
            && (r.UnarmedEntry(edge) ==> r.returnAccum + Pixels(r, event, edge) >= 64)
            && (!r.UnarmedEntry(edge) ==>
                  var ran := if r.returnEdge == Some(edge) then r.returnEdgeAccum else 0;
                  && ran + Pixels(r, event, edge) >= (if r.returnArmed then 20 else 64)
                  && (!r.returnArmed ==> ran >= 1))
  {
    hide Layout.Valid, Layout.Find, LandAtEdge, Overshoot, EdgePast, Router.FacesHome, Router.Pinned;
    hide DistanceFromEdge, LocalInside, ClampToEdge, Cross, Gated, PushTotal;
  }

  /**
   * Every return of every run is paid for, in overflow since the run was last reset: 64 px through the
   * disarmed entry edge; through any other edge 20 px when armed, and when unarmed 64 px of which
   * some came before the returning event.
   */
  lemma ReturnIsPaid(r: Router, acts: seq<Act>, n: nat)
    requires Idle(r) && AllSound(r.localScreen, acts) && n < |acts|
    requires Answer(r, acts, n).Some? && Answer(r, acts, n).value.ReturnHome?
    ensures var out := Answer(r, acts, n).value;
            var before := After(r, acts[..n]);
            var px := Pixels(before, acts[n].op.event, out.edge);
            && before.FacesHome(out.edge) && !before.InHandoffGrace(acts[n].now)
            && (out.entry == Some(out.edge) && !out.armed ==> EscapePaid(r, acts[..n], out.edge) + px >= 64)
            && (out.armed ==> PressPaid(r, acts[..n], out.edge) + px >= 20)
            && (out.entry != Some(out.edge) && !out.armed ==>
                  PressPaid(r, acts[..n], out.edge) >= 1 && PressPaid(r, acts[..n], out.edge) + px >= 64)
  {
    var before := After(r, acts[..n]);
    var out := Answer(r, acts, n).value;
    ReturnNeeds(before, acts[n].op.event, acts[n].now);
    RunCovered(r, acts[..n], out.edge);
    hide Core, Route, After, PressPaid, EscapePaid, PushPaid, Layout.Valid, Layout.Find, Router.FacesHome, Overshoot;
  }

  /** Every handoff of every run is paid for: 8 px past one edge since the push run on it was last reset. */
  lemma HandoffIsPaid(r: Router, acts: seq<Act>, n: nat)
    requires Idle(r) && AllSound(r.localScreen, acts) && n < |acts|
    requires Answer(r, acts, n).Some? && Answer(r, acts, n).value.Handoff?
    ensures var out := Answer(r, acts, n).value;
            var before := After(r, acts[..n]);
            var px := Pixels(before, acts[n].op.event, out.edge);
            && PushPaid(r, acts[..n], out.edge) + px >= 8
            && (before.DistanceHere(out.edge) > 64 ==> PushPaid(r, acts[..n], out.edge) >= 1)
  {
    hide Core, Route, After, PressPaid, EscapePaid, PushPaid, Layout.Valid, Layout.Find, Overshoot, DistanceFromEdge;
    hide Cross, Gated, EdgePast;
    var before := After(r, acts[..n]);
    var out := Answer(r, acts, n).value;
    HandoffIsCross(before, acts[n].op.event, acts[n].now);
    RunCovered(r, acts[..n], out.edge);
  }
}
