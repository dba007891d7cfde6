/** How long the router's windows last: the handoff grace and the post-return refractory, in clock readings. */
module RouterWindows {
  import opened Basics
  import opened Events
  import opened Geometry
  import opened Layouts
  import opened Routers
  import opened RouterInvariant
  import opened RouterCrossing
  import opened RouterLiveness
  import opened RouterDrives

  lemma StepKeepsStamp(r: Router, act: Act)
    requires Core(r) && r.active.Some? && (act.op.DoRoute? || IsSetting(act.op))
    requires act.op.DoRoute? ==> !Route(r, act.op.event, act.now).1.ReturnHome?
    ensures Apply(r, act).handoffAt == r.handoffAt
  {
    hide Layout.Valid, Layout.Find, DriveMove, LocalMove;
    assert r.WellFormed();
    hide Core;
    if act.op.DoRoute? && act.op.event.MouseMove? {
      DriveMoveKeepsEntry(r, act.op.event.dx, act.op.event.dy, act.now);
    }
  }

  lemma {:induction false} DriveKeepsStamp(r: Router, acts: seq<Act>)
    requires Core(r) && r.active.Some? && AllSound(r.localScreen, acts) && KeepsDriving(r, acts)
    ensures After(r, acts).handoffAt == r.handoffAt
  {
    hide Route, Core, Sound, Apply, Layout.Valid, Layout.Find;
    if acts != [] {
      var n := |acts| - 1;
      PrefixKeepsDriving(r, acts, n);
      DriveKeepsStamp(r, acts[..n]);
      DriveKeepsEntry(r, acts[..n]);
      assert acts[..n + 1] == acts;
      Unroll(r, acts, n);
      StepKeepsStamp(After(r, acts[..n]), acts[n]);
      hide After;
    }
  }

  /** Through a whole drive the grace lasts from the handoff for as long as the setting of the moment says. */
  lemma GraceWindow(r: Router, event: InputEvent, now: Instant, acts: seq<Act>, later: Instant)
    requires Core(r) && Route(r, event, now).1.Handoff? && AllSound(r.localScreen, acts)
    ensures var out := Route(r, event, now);
            && Core(out.0) && out.0.localScreen == r.localScreen
            && (KeepsDriving(out.0, acts) ==>
                  var s := After(out.0, acts);
                  s.InHandoffGrace(later) <==> s.handoffGrace > 0 && later < now + s.handoffGrace)
  {
    RouteCore(r, event, now);
    HandoffStamps(r, event, now);
    var out := Route(r, event, now);
    hide Core, Route, After, KeepsDriving, Layout.Valid, Layout.Find;
    if KeepsDriving(out.0, acts) {
      DriveKeepsStamp(out.0, acts);
    }
  }

  lemma HandoffStamps(r: Router, event: InputEvent, now: Instant)
    requires Core(r) && Route(r, event, now).1.Handoff?
    ensures var s := Route(r, event, now).0;
            s.handoffAt == Some(now) && s.active.Some? && s.localScreen == r.localScreen && s.pushEdge.None?
  {
    HandoffIsCross(r, event, now);
    hide Route, Layout.Valid, Layout.Find, Landing, PushTotal, Gated, Layout.CrossingTargetFor, Overshoot, Remainder;
  }

  /**
   * While local the refractory is lifted by a step that stays on the screen exactly when it ends at least 64 px
   * from the edge; by any other routed event only when that crosses.
   */
  lemma RefractoryLifts(r: Router, event: InputEvent, now: Instant)
    requires Core(r) && r.active.None? && r.postReturnEdge.Some?
    ensures var out := Route(r, event, now);
            var inside := event.MouseMove? && PastEdge(r, event).None?;
            && (out.1.Handoff? ==> out.0.postReturnEdge.None?)
            && (out.1.Local? ==>
                  if inside && DistanceFromEdge(r.postReturnEdge.value, r.x + event.dx, r.y + event.dy,
                                                r.Here().width, r.Here().height) >= 64
                  then out.0.postReturnEdge.None? && out.0.postReturnAt.None?
                  else out.0.postReturnEdge == r.postReturnEdge && out.0.postReturnAt == r.postReturnAt)
  {
    hide Layout.Valid, Layout.Find, Landing, Gated, PushTotal, Overshoot, EdgePast, Layout.CrossingTargetFor, Remainder;
    hide Router.NearCrossingEdge, DistanceFromEdge;
    if event.MouseMove? && PastEdge(r, event).None? {
      assert r.WellFormed();
      InsideMeans(r, event);
    }
  }

  lemma InsideMeans(r: Router, event: InputEvent)
    requires r.WellFormed() && event.MouseMove? && PastEdge(r, event).None?
    ensures r.x + event.dx >= 0 && r.y + event.dy >= 0
  {
    InsideWhenNotPast(r, event);
  }

  /** A step that stays on the screen keeps a push run exactly while it ends within two pixels of the run's edge. */
  lemma SlideKeepsPush(r: Router, event: InputEvent, now: Instant)
    requires Core(r) && r.active.None? && event.MouseMove? && PastEdge(r, event).None? && r.pushEdge.Some?
    ensures var s := Route(r, event, now).0;
            if DistanceFromEdge(r.pushEdge.value, r.x + event.dx, r.y + event.dy, r.Here().width, r.Here().height) <= 2
            then s.pushEdge == r.pushEdge && s.pushAccum == r.pushAccum
            else s.pushEdge.None? && s.pushAccum == 0
  {
    hide Layout.Valid, Layout.Find, EdgePast, DistanceFromEdge, Router.NearCrossingEdge, LocalPast;
    assert r.WellFormed();
    InsideMeans(r, event);
  }

  /**
   * And through a drive the return run, or with none the escape credit, lives exactly while inside steps end within
   * two pixels of the run's edge, the entry edge when no run has one.
   */
  lemma SlideKeepsReturn(r: Router, event: InputEvent, now: Instant)
    requires Core(r) && r.active.Some? && event.MouseMove? && PastEdge(r, event).None?
    ensures var s := Route(r, event, now).0;
            var edge := if r.returnEdge.Some? then r.returnEdge else r.entryEdge;
            if edge.Some? && DistanceFromEdge(edge.value, r.x + event.dx, r.y + event.dy,
                                              r.Here().width, r.Here().height) <= 2
            then s.returnEdge == r.returnEdge && s.returnEdgeAccum == r.returnEdgeAccum
                 && s.returnRunSince == r.returnRunSince && s.returnAccum == r.returnAccum
            else s.returnEdge.None? && s.returnEdgeAccum == 0 && s.returnRunSince.None? && s.returnAccum == 0
  {
    hide Layout.Valid, Layout.Find, EdgePast, DistanceFromEdge;
    assert r.WellFormed();
    InsideMeans(r, event);
  }

  // ---- the hold ------------------------------------------------------------------------------

  /** A return run that goes on keeps its beginning, and one that is new began with this step. */
  predicate KeepsBeginning(r: Router, s: Router, now: Instant) {
    s.returnEdge.Some? ==> s.returnRunSince == if s.returnEdge == r.returnEdge then r.returnRunSince else Some(now)
  }

  lemma DriveBegins(r: Router, dx: i32, dy: i32, now: Instant)
    requires Core(r) && r.active.Some?
    ensures KeepsBeginning(r, DriveMove(r, dx, dy, now).0, now)
  {
    hide Layout.Valid, Layout.Find, EdgePast, Overshoot, Router.FacesHome, PressComplete, DistanceFromEdge;
    hide Router.InHandoffGrace, Router.Pinned, ReturnCoords, LandingEdge, MapCoordinate;
    assert r.WellFormed();
    hide Core;
  }

  lemma LocalBegins(r: Router, dx: i32, dy: i32, now: Instant)
    requires r.WellFormed() && r.active.None?
    ensures KeepsBeginning(r, LocalMove(r, dx, dy, now).0, now)
  {
    hide Layout.Valid, Layout.Find, EdgePast, Overshoot, Gated, PushTotal, DistanceFromEdge, Landing, Remainder;
    hide Router.NearCrossingEdge, Router.Pinned, Layout.CrossingTargetFor;
  }

  lemma PlacedBegins(r: Router, act: Act)
    requires r.WellFormed() && (act.op.DoSetLayout? || act.op.DoSeed? || act.op.DoResync? || act.op.DoAdoptLocal?)
    ensures KeepsBeginning(r, Apply(r, act), act.now)
  {
    hide Layout.Valid, Layout.Find, DistanceFromEdge, CarrySizes, Router.AtCrossableEdge, Layout.SetScreenSize;
  }

  lemma GivenBegins(r: Router, act: Act)
    requires r.WellFormed()
    requires act.op.DoAdoptPeer? || act.op.DoReturnToLocal? || act.op.DoRestoreAtEdge? || act.op.DoRestore?
             || act.op.DoHandoffTo? || IsSetting(act.op)
    ensures KeepsBeginning(r, Apply(r, act), act.now)
  {
    hide Layout.Valid, Layout.Find, Layout.SetScreenSize, ReturnCoords, MapCoordinate, LandingEdge;
  }

  lemma StepBegins(r: Router, act: Act)
    requires Core(r)
    ensures r.WellFormed() && KeepsBeginning(r, Apply(r, act), act.now)
  {
    hide Layout.Valid, Layout.Find, DriveMove, LocalMove, KeepsBeginning;
    assert r.WellFormed();
    if act.op.DoRoute? {
      if act.op.event.MouseMove? && r.active.Some? {
        DriveBegins(r, act.op.event.dx, act.op.event.dy, act.now);
      } else if act.op.event.MouseMove? {
        LocalBegins(r, act.op.event.dx, act.op.event.dy, act.now);
      } else {
        SameBegins(r, act.now);
      }
    } else if act.op.DoSetLayout? || act.op.DoSeed? || act.op.DoResync? || act.op.DoAdoptLocal? {
      PlacedBegins(r, act);
    } else {
      GivenBegins(r, act);
    }
  }

  lemma SameBegins(r: Router, now: Instant)
    ensures KeepsBeginning(r, r, now)
  {
  }

  /** When the return run of the moment began: at the event that first pressed its edge. */
  function BeganAt(r: Router, acts: seq<Act>): Option<Instant>
    requires Core(r) && AllSound(r.localScreen, acts)
  {
    if acts == [] then None
    else
      var n := |acts| - 1;
      if After(r, acts).returnEdge == After(r, acts[..n]).returnEdge then BeganAt(r, acts[..n]) else Some(acts[n].now)
  }

  lemma {:induction false} SinceIsBegan(r: Router, acts: seq<Act>)
    requires Core(r) && r.returnEdge.None? && AllSound(r.localScreen, acts)
    ensures After(r, acts).returnEdge.Some? ==> After(r, acts).returnRunSince == BeganAt(r, acts)
  {
    hide Core, Apply, Sound, Layout.Valid, Layout.Find;
    if acts != [] {
      var n := |acts| - 1;
      SinceIsBegan(r, acts[..n]);
      assert acts[..n + 1] == acts;
      Unroll(r, acts, n);
      StepBegins(After(r, acts[..n]), acts[n]);
    }
  }

  /** A return by pressure, the disarmed entry edge aside, finds its edge pressed for the hold already. */
  lemma ReturnWaited(r: Router, event: InputEvent, now: Instant)
    requires Core(r) && Route(r, event, now).1.ReturnHome?
    ensures var out := Route(r, event, now).1;
            !(out.entry == Some(out.edge) && !out.armed) ==>
              r.returnHold == 0 || (r.returnEdge == Some(out.edge) && r.returnRunSince.Some?
                                    && Elapsed(r.returnRunSince.value, now) >= r.returnHold)
  {
    hide Layout.Valid, Layout.Find, EdgePast, Overshoot, Router.FacesHome, LandAtEdge, DriveInside, Router.Pinned;
    hide LocalInside, ClampToEdge, Cross, Gated, PushTotal, Router.InHandoffGrace;
  }

  /**
   * The hold is served: in every run from a router with no return run, a return through an edge other than the
   * disarmed entry comes no sooner than the hold of the moment after the event that began its run.
   */
  lemma HoldIsServed(r: Router, acts: seq<Act>, n: nat)
    requires Core(r) && r.returnEdge.None? && AllSound(r.localScreen, acts) && n < |acts|
    requires Answer(r, acts, n).Some? && Answer(r, acts, n).value.ReturnHome?
    ensures var out, before := Answer(r, acts, n).value, After(r, acts[..n]);
            !(out.entry == Some(out.edge) && !out.armed) ==>
              before.returnHold == 0
              || (BeganAt(r, acts[..n]).Some? && Elapsed(BeganAt(r, acts[..n]).value, acts[n].now) >= before.returnHold)
  {
    hide Core, Route, After, Sound, Layout.Valid, Layout.Find, BeganAt;
    SinceIsBegan(r, acts[..n]);
    Unroll(r, acts, n);
    ReturnWaited(After(r, acts[..n]), acts[n].op.event, acts[n].now);
  }

  // ---- a deliberate push gets out ------------------------------------------------------------

  /** Local, unlocked and ungated at an edge that leads somewhere. */
  predicate CanCross(r: Router, edge: Edge) {
    Core(r) && r.active.None? && !r.locked && !r.startupGate && r.CrossingTarget(edge).Some?
  }

  /** The refractory does not cover this edge at this time: 250 ms after the return it is over. */
  predicate Clear(r: Router, edge: Edge, now: Instant) {
    r.postReturnEdge == Some(edge) && r.postReturnAt.Some? ==> now >= r.postReturnAt.value + 250_000_000
  }

  /** How many pushes toward an edge are still needed at most: pixels to the edge, then 8. */
  function PushOwed(r: Router, edge: Edge): (owed: nat)
    requires r.WellFormed()
    ensures owed >= 1
  {
    var d := r.DistanceHere(edge);
    if d > 0 then d + 8 else if r.pushEdge == Some(edge) then Max(1, 8 - r.pushAccum) else 8
  }

  /** The refractory of `s` is that of `r`, or over. */
  predicate NoNewRefractory(r: Router, s: Router) {
    s.postReturnEdge.None? || (s.postReturnEdge == r.postReturnEdge && s.postReturnAt == r.postReturnAt)
  }

  /** The step went through this edge to what lies behind it. */
  predicate GoesOut(r: Router, edge: Edge, out: Routed) {
    out.Handoff? && out.edge == edge && Some(out.target) == r.CrossingTarget(edge)
  }

  /** The step was saved up, and fewer are owed. */
  predicate SavesUp(r: Router, edge: Edge, s: Router)
    requires r.WellFormed()
  {
    && CanCross(s, edge) && NoNewRefractory(r, s) && s.CrossingTarget(edge) == r.CrossingTarget(edge)
    && PushOwed(s, edge) < PushOwed(r, edge)
  }

  lemma PushInside(r: Router, edge: Edge, event: InputEvent, now: Instant)
    requires CanCross(r, edge) && Straight(edge, event) && PastEdge(r, event).None?
    ensures var out := Route(r, event, now);
            out.1.Local? && SavesUp(r, edge, out.0)
  {
    hide Layout.Valid, Layout.Find, Layout.CrossingTargetFor, DistanceFromEdge, EdgePast, LocalInside, PushOwed, Route;
    assert r.WellFormed() && r.x < r.Here().width;
    InsideMeans(r, event);
    RouteIsInside(r, event, now);
    hide Core, Router.WellFormed;
    RouteCore(r, event, now);
    var s := LocalInside(r, r.x + event.dx, r.y + event.dy);
    InsideLocal(r, r.x + event.dx, r.y + event.dy);
    CloserInside(edge, event, r.x, r.y, r.Here().width, r.Here().height);
    CoreSaves(s);
    hide Straight;
    InsideOwes(r, s, edge);
  }

  lemma RouteIsInside(r: Router, event: InputEvent, now: Instant)
    requires Core(r) && r.active.None? && event.MouseMove? && PastEdge(r, event).None?
    requires r.x + event.dx >= 0 && r.y + event.dy >= 0
    ensures Route(r, event, now) == (LocalInside(r, r.x + event.dx, r.y + event.dy), Local(event))
  {
    hide LocalInside, LocalPast, EdgePast, Layout.Valid, Layout.Find;
  }

  lemma CoreSaves(r: Router)
    requires Core(r)
    ensures r.WellFormed() && r.pushAccum >= 0
  {
    hide Layout.Valid, Layout.Find;
  }

  lemma InsideLocal(r: Router, nextX: u32, nextY: u32)
    requires r.WellFormed() && r.active.None?
    ensures var s := LocalInside(r, nextX, nextY);
            && s.active.None? && s.current == r.current && NoNewRefractory(r, s) && (s.startupGate ==> r.startupGate)
            && (s.pushEdge.None? || (s.pushEdge == r.pushEdge && s.pushAccum == r.pushAccum))
  {
    hide Layout.Valid, Layout.Find, DistanceFromEdge, Router.NearCrossingEdge;
  }

  lemma InsideOwes(r: Router, s: Router, edge: Edge)
    requires r.WellFormed() && s.WellFormed() && s.pushAccum >= 0 && s.DistanceHere(edge) < r.DistanceHere(edge)
    ensures PushOwed(s, edge) < PushOwed(r, edge)
  {
    hide Layout.Valid, Layout.Find, DistanceFromEdge;
  }

  lemma RouteIsPast(r: Router, edge: Edge, event: InputEvent, now: Instant)
    requires Core(r) && r.active.None? && event.MouseMove? && PastEdge(r, event) == Some(edge)
    ensures Route(r, event, now) == LocalPast(r, edge, r.x + event.dx, r.y + event.dy, now)
  {
    hide LocalPast, EdgePast, Layout.Valid, Layout.Find;
  }

  lemma OpenPast(r: Router, edge: Edge, nextX: int, nextY: int, now: Instant)
    requires r.WellFormed() && r.CrossingTarget(edge).Some? && !Gated(r, edge, now)
    ensures var px := Overshoot(edge, nextX, nextY, r.Here().width, r.Here().height);
            var total := PushTotal(r, edge, px);
            LocalPast(r, edge, nextX, nextY, now)
            == if total >= 8 then Cross(r, edge, px, now)
               else ClampToEdge(r.(pushEdge := Some(edge), pushAccum := total), nextX, nextY)
  {
    hide Gated, PushTotal, Overshoot, Cross, ClampToEdge, Layout.Valid, Layout.Find;
  }

  lemma CrossGoesOut(r: Router, edge: Edge, px: nat, now: Instant)
    requires r.WellFormed() && r.CrossingTarget(edge).Some?
    ensures GoesOut(r, edge, Cross(r, edge, px, now).1)
  {
    hide Landing, Remainder, Layout.Valid, Layout.Find, Layout.CrossingTargetFor;
  }

  /** A saved step leaves the cursor on the edge, and gates and windows as they were. */
  lemma SavedStays(r: Router, edge: Edge, total: int, nextX: int, nextY: int)
    requires r.WellFormed() && EdgePast(nextX, nextY, r.Here().width, r.Here().height) == Some(edge)
    ensures var out := ClampToEdge(r.(pushEdge := Some(edge), pushAccum := total), nextX, nextY);
            var s := out.0;
            && out.1.Local? && s.WellFormed() && s.DistanceHere(edge) == 0 && SameSetup(r, s)
            && s.active == r.active && s.current == r.current && s.startupGate == r.startupGate
            && s.pushEdge == Some(edge) && s.pushAccum == total
            && s.postReturnEdge == r.postReturnEdge && s.postReturnAt == r.postReturnAt
  {
    PinnedAtEdge(edge, nextX, nextY, r.Here().width, r.Here().height);
    hide Layout.Valid, Layout.Find, EdgePast, DistanceFromEdge, Clamp;
  }

  /** A step past an open edge: saved up, or, the last one owed at the latest, a crossing. */
  lemma PushPast(r: Router, edge: Edge, event: InputEvent, now: Instant)
    requires CanCross(r, edge) && Clear(r, edge, now) && event.MouseMove? && PastEdge(r, event) == Some(edge)
    ensures var out := Route(r, event, now);
            GoesOut(r, edge, out.1) || (PushOwed(r, edge) > 1 && out.1.Local? && SavesUp(r, edge, out.0))
  {
    hide GoesOut, Route, LocalPast, Cross, ClampToEdge, Layout.Valid, Layout.Find, Layout.CrossingTargetFor;
    hide Overshoot, PushTotal, PushOwed, DistanceFromEdge;
    assert r.WellFormed() && (r.pushEdge.Some? ==> 1 <= r.pushAccum < 8) && !Gated(r, edge, now);
    assert EdgePast(r.x + event.dx, r.y + event.dy, r.Here().width, r.Here().height) == Some(edge);
    hide Core, Gated, EdgePast;
    RouteCore(r, event, now);
    RouteIsPast(r, edge, event, now);
    OpenPast(r, edge, r.x + event.dx, r.y + event.dy, now);
    PastOvershoots(edge, r.x + event.dx, r.y + event.dy, r.Here().width, r.Here().height);
    var px := Overshoot(edge, r.x + event.dx, r.y + event.dy, r.Here().width, r.Here().height);
    if PushTotal(r, edge, px) < 8 {
      SavedStays(r, edge, PushTotal(r, edge, px), r.x + event.dx, r.y + event.dy);
      SavedOwes(r, edge, px, Route(r, event, now).0);
    } else {
      CrossGoesOut(r, edge, px, now);
    }
  }

  lemma PastOvershoots(edge: Edge, x: int, y: int, width: u32, height: u32)
    requires width > 0 && height > 0 && EdgePast(x, y, width, height) == Some(edge)
    ensures Overshoot(edge, x, y, width, height) >= 1
  {
  }

  lemma SavedOwes(r: Router, edge: Edge, px: nat, s: Router)
    requires r.WellFormed() && s.WellFormed() && px >= 1 && (r.pushEdge.Some? ==> 1 <= r.pushAccum < 8)
    requires PushTotal(r, edge, px) < 8 && s.DistanceHere(edge) == 0
    requires s.pushEdge == Some(edge) && s.pushAccum == PushTotal(r, edge, px)
    ensures 1 < PushOwed(r, edge) && PushOwed(s, edge) < PushOwed(r, edge)
  {
    hide Layout.Valid, Layout.Find, DistanceFromEdge;
  }

  lemma StraightPastOnly(r: Router, edge: Edge, event: InputEvent)
    requires Core(r) && InBounds(r) && Straight(edge, event) && PastEdge(r, event).Some?
    ensures PastEdge(r, event) == Some(edge)
  {
    hide Layout.Valid, Layout.Find;
  }

  ghost predicate CrossesOut(r: Router, edge: Edge, acts: seq<Act>)
    requires Core(r) && AllSound(r.localScreen, acts)
  {
    exists n :: 0 <= n < |acts| && Answer(r, acts, n).Some? && GoesOut(r, edge, Answer(r, acts, n).value)
  }

  lemma {:induction false} PushesCount(r: Router, edge: Edge, acts: seq<Act>, n: nat)
    requires CanCross(r, edge) && StraightShoves(edge, acts) && AllSound(r.localScreen, acts) && n <= |acts|
    requires forall k :: 0 <= k < |acts| ==> Clear(r, edge, acts[k].now)
    ensures CrossesOut(r, edge, acts) ||
            (var s := After(r, acts[..n]);
             && CanCross(s, edge) && NoNewRefractory(r, s) && s.CrossingTarget(edge) == r.CrossingTarget(edge)
             && PushOwed(s, edge) + n <= PushOwed(r, edge))
  {
    hide Route, Core, PushOwed, After, Answer, Apply, Sound, Straight, Layout.Valid, Layout.Find;
    hide Layout.CrossingTargetFor;
    if n == 0 {
      AfterNone(r, acts);
    } else if !CrossesOut(r, edge, acts) {
      PushesCount(r, edge, acts, n - 1);
      Unroll(r, acts, n - 1);
      var s := After(r, acts[..n - 1]);
      assert acts[n - 1].op.DoRoute? && Straight(edge, acts[n - 1].op.event);
      assert Clear(r, edge, acts[n - 1].now);
      PushStep(s, edge, acts[n - 1].op.event, acts[n - 1].now);
    }
  }

  lemma PushStep(r: Router, edge: Edge, event: InputEvent, now: Instant)
    requires CanCross(r, edge) && Clear(r, edge, now) && Straight(edge, event)
    ensures var out := Route(r, event, now);
            GoesOut(r, edge, out.1) || (out.1.Local? && SavesUp(r, edge, out.0))
  {
    assert r.WellFormed() && InBounds(r);
    hide Core, Route, PushOwed, Layout.Valid, Layout.Find, Layout.CrossingTargetFor, EdgePast, InBounds;
    if PastEdge(r, event).None? {
      PushInside(r, edge, event, now);
    } else {
      StraightPastOnly(r, edge, event);
      PushPast(r, edge, event, now);
    }
  }

  /**
   * A deliberate push gets out: local, unlocked and ungated, straight pushes at an edge that leads
   * somewhere, none of them within 250 ms of a return through it, hand off through that edge to what lies
   * behind it, within the pixels to the edge and 8 more events.
   */
  lemma PushCrosses(r: Router, edge: Edge, acts: seq<Act>)
    requires CanCross(r, edge) && StraightShoves(edge, acts) && AllSound(r.localScreen, acts)
    requires forall k :: 0 <= k < |acts| ==> Clear(r, edge, acts[k].now)
    requires |acts| >= r.DistanceHere(edge) + 8
    ensures CrossesOut(r, edge, acts)
  {
    PushOwedBound(r, edge);
    PushesCount(r, edge, acts, |acts|);
    hide Core, Route, PushOwed, After, Layout.Valid, Layout.Find;
    assert acts[..|acts|] == acts;
  }

  lemma PushOwedBound(r: Router, edge: Edge)
    requires Core(r)
    ensures PushOwed(r, edge) <= r.DistanceHere(edge) + 8
  {
    hide Layout.Valid, Layout.Find, DistanceFromEdge;
  }
}
