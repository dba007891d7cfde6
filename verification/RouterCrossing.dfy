/** Crossings: the stateless rule refined, the way home, and the round trip undone. */
module RouterCrossing {
  import opened Basics
  import opened Events
  import opened Geometry
  import opened Layouts
  import opened Routers
  import opened RouterInvariant

  /** What the stateless rule says about the motion the router is about to route. */
  function Stateless(r: Router, dx: i32, dy: i32): Option<EdgeHandoff>
    requires r.WellFormed()
  {
    r.layout.HandoffForMotion(r.current, r.x, r.y, dx, dy, r.edgeMode, r.doubleStyle)
  }

  /**
   * Every gate open for the edge this motion overflows, 250 ms past since a return through it, and 8 px of
   * pressure saved up on it, of which a motion from more than 64 px inside brings at most 7.
   */
  predicate PressureOpens(r: Router, dx: i32, dy: i32, now: Instant)
    requires r.WellFormed()
  {
    var past := EdgeOverflow(r.Here().width, r.Here().height, r.x, r.y, dx, dy);
    && past.Some?
    && var edge := past.value.0;
       && !r.locked && !r.startupGate
       && !(r.postReturnEdge == Some(edge) && r.postReturnAt.Some? && now < r.postReturnAt.value + 250_000_000)
       && (if r.DistanceHere(edge) <= 64 then past.value.1 else Min(past.value.1, 7))
          + (if r.pushEdge == Some(edge) then r.pushAccum else 0) >= 8
  }

  lemma PressureMeans(r: Router, edge: Edge, px: nat, now: Instant)
    requires r.WellFormed()
    ensures PushTotal(r, edge, px) == (if r.DistanceHere(edge) <= 64 then px else Min(px, 7))
                                      + (if r.pushEdge == Some(edge) then r.pushAccum else 0)
    ensures Gated(r, edge, now) <==>
            || r.locked || r.startupGate || r.CrossingTarget(edge).None?
            || (r.postReturnEdge == Some(edge) && r.postReturnAt.Some? && now < r.postReturnAt.value + 250_000_000)
  {
    hide Layout.Valid, Layout.Find, DistanceFromEdge;
  }

  lemma StatelessInside(r: Router, dx: i32, dy: i32)
    requires Core(r) && r.active.None?
    ensures var past := EdgePast(r.x + dx, r.y + dy, r.Here().width, r.Here().height);
            Stateless(r, dx, dy) ==
            if past.None? || r.CrossingTarget(past.value).None? then None
            else
              var target := r.CrossingTarget(past.value).value;
              var landing := Landing(r.doubleStyle, past.value, r.Here(), r.layout.Find(target).value, r.x, r.y);
              Some(EdgeHandoff(r.current, target, past.value, landing.0, landing.1))
  {
    hide Layout.Valid, Layout.Find, Landing, EdgePast, Layout.CrossingTargetFor;
    assert r.x == Min(r.x, r.Here().width - 1) && r.y == Min(r.y, r.Here().height - 1);
  }

  /**
   * The router hands off exactly when the stateless rule names a hop and pressure opens the edge,
   * and then with the same source, target, edge and landing, the remainder being the overflow itself.
   */
  lemma HandoffRefinesStateless(r: Router, dx: i32, dy: i32, now: Instant)
    requires Core(r) && r.active.None?
    ensures var out := Route(r, MouseMove(dx, dy), now).1;
            var hop := Stateless(r, dx, dy);
            && (out.Handoff? <==> hop.Some? && PressureOpens(r, dx, dy, now))
            && (out.Handoff? ==>
                  && hop == Some(EdgeHandoff(out.from, out.target, out.edge, out.targetX, out.targetY))
                  && var past := EdgeOverflow(r.Here().width, r.Here().height, r.x, r.y, dx, dy);
                     past.Some? && past.value.0 == out.edge && out.event == Remainder(out.edge, past.value.1))
  {
    hide Layout.Valid, Layout.Find, Landing, Stateless, PushTotal, Gated, Remainder, Overshoot, DistanceFromEdge;
    hide Layout.CrossingTargetFor;
    StatelessInside(r, dx, dy);
    var past := EdgePast(r.x + dx, r.y + dy, r.Here().width, r.Here().height);
    if past.Some? {
      var px := Overshoot(past.value, r.x + dx, r.y + dy, r.Here().width, r.Here().height);
      PressureMeans(r, past.value, px, now);
      if !Gated(r, past.value, now) {
        assert Cross(r, past.value, px, now).1.Handoff?;
      }
    }
  }

  /** The edge an event pushes past. */
  function PastEdge(r: Router, event: InputEvent): Option<Edge>
    requires r.WellFormed()
  {
    if event.MouseMove? then EdgePast(r.x + event.dx, r.y + event.dy, r.Here().width, r.Here().height) else None
  }

  /** A handoff happens in one way only: a local step past an open edge with the budget met. */
  lemma HandoffIsCross(r: Router, event: InputEvent, now: Instant)
    requires r.WellFormed() && Route(r, event, now).1.Handoff?
    ensures event.MouseMove? && r.active.None? && PastEdge(r, event).Some?
    ensures var edge := PastEdge(r, event).value;
            var overflow := Overshoot(edge, r.x + event.dx, r.y + event.dy, r.Here().width, r.Here().height);
            && !Gated(r, edge, now)
            && PushTotal(r, edge, overflow) >= 8
            && Route(r, event, now) == Cross(r, edge, overflow, now)
            && Route(r, event, now).1.edge == edge
  {
    hide Layout.Valid, Layout.Find, Landing, PushTotal, Router.PostReturnHolds, Remainder, Overshoot, EdgePast;
    hide LocalInside, DriveInside, Press, PressComplete, LandAtEdge, Layout.CrossingTargetFor, Router.FacesHome;
  }

  /** Grid symmetry gives every crossing an entry edge that faces home, in every mode and style. */
  lemma EntryFacesHome(r: Router, event: InputEvent, now: Instant)
    requires Core(r) && Route(r, event, now).1.Handoff?
    ensures var s := Route(r, event, now).0;
            && s.active == Some(s.current)
            && s.entryEdge == Some(r.doubleStyle.EntryForExit(Route(r, event, now).1.edge))
            && s.FacesHome(s.entryEdge.value)
            && !s.returnArmed
  {
    HandoffIsCross(r, event, now);
    var edge := PastEdge(r, event).value;
    var target := r.CrossingTarget(edge).value;
    CrossingLeaves(r.layout, r.current, edge, r.edgeMode);
    NeighborSymmetric(r.layout, r.current, target, edge);
    hide Layout.Valid, Layout.Find, Landing, PushTotal, Remainder, Overshoot, Route;
    hide Layout.NeighborForEdge, Layout.SinglePeerScreen;
  }

  lemma LandingInset(style: DoubleEdgeStyle, edge: Edge, source: Screen, target: Screen, x: u32, y: u32)
    requires target.width > 0 && target.height > 0
    ensures var at := Landing(style, edge, source, target, x, y);
            DistanceFromEdge(style.EntryForExit(edge), at.0, at.1, target.width, target.height) <= 32
  {
    hide MapCoordinate;
  }

  /** A routed entry lands within the inset of the edge it entered through. */
  lemma EntryNearEdge(r: Router, event: InputEvent, now: Instant)
    requires Core(r) && Route(r, event, now).1.Handoff?
    ensures Core(Route(r, event, now).0)
    ensures var s := Route(r, event, now).0;
            s.entryEdge.Some? && s.DistanceHere(s.entryEdge.value) <= 32
  {
    RouteCore(r, event, now);
    HandoffIsCross(r, event, now);
    var edge := PastEdge(r, event).value;
    var target := r.CrossingTarget(edge).value;
    FoundSound(r.layout, target);
    LandingInset(r.doubleStyle, edge, r.Here(), r.layout.Find(target).value, r.x, r.y);
    hide Layout.Valid, Layout.Find, Landing, PushTotal, Remainder, Overshoot, Route, Core, Layout.CrossingTargetFor;
    hide DistanceFromEdge;
  }

  lemma LandingY(style: DoubleEdgeStyle, edge: Edge, source: Screen, target: Screen, x: u32, y: u32)
    requires edge.Horizontal()
    ensures Landing(style, edge, source, target, x, y).1 == MapCoordinate(y, source.height, target.height)
  {
  }

  /** A horizontal handoff undone at once comes back to the same x, and to a y within one round trip. */
  lemma HandoffUndone(r: Router, event: InputEvent, now: Instant)
    requires Core(r) && Route(r, event, now).1.Handoff?
    requires Route(r, event, now).1.edge.Horizontal()
    ensures Core(Route(r, event, now).0)
    ensures var out := Route(r, event, now);
            var back := RestoreLocal(out.0, out.1.target);
            && back.Ok?
            && back.value.current == r.current && back.value.active.None?
            && back.value.x == r.x
            && var here, there := r.Here().height, out.0.Here().height;
               if here > 1 && there > 1 then r.y - TripLoss(here, there) <= back.value.y <= r.y
               else back.value.y == 0
  {
    RouteCore(r, event, now);
    HandoffIsCross(r, event, now);
    var edge := PastEdge(r, event).value;
    var target := r.layout.Find(r.CrossingTarget(edge).value).value;
    FoundSound(r.layout, r.CrossingTarget(edge).value);
    LandingY(r.doubleStyle, edge, r.Here(), target, r.x, r.y);
    UndoneMapping(r.y, r.Here().height, target.height);
    var out := Route(r, event, now);
    hide Layout.Valid, Layout.Find, Layout.CrossingTargetFor, Route, MapCoordinate, TripLoss;
    hide Landing, PushTotal, Overshoot, Remainder;
    assert out.0.homeX == r.x && out.0.Here() == target && out.0.HomeScreen() == r.Here();
  }

  lemma UndoneMapping(y: u32, here: u32, there: u32)
    requires y < here && there > 0
    ensures ThereAndBack(y, here, there) < here
    ensures if here > 1 && there > 1 then y - TripLoss(here, there) <= ThereAndBack(y, here, there) <= y
            else ThereAndBack(y, here, there) == 0
  {
    MapInRange(MapCoordinate(y, here, there), there, here);
    if here > 1 && there > 1 {
      RoundTrip(y, here, there);
    }
  }

  // ---- what a local run emits ----------------------------------------------------------------

  function EmittedX(out: Option<Routed>): int {
    if out.Some? && out.value.Local? && out.value.event.MouseMove? then out.value.event.dx else 0
  }

  function EmittedY(out: Option<Routed>): int {
    if out.Some? && out.value.Local? && out.value.event.MouseMove? then out.value.event.dy else 0
  }

  lemma ClampDelta(at: u32, d: i32, span: u32)
    requires at < span
    ensures Abs(Clamp(at + d, 0, span - 1) - at) <= Abs(d)
    ensures SaturateI32(Clamp(at + d, 0, span - 1) - at) == Clamp(at + d, 0, span - 1) - at
  {
  }

  /** A local answer that is exactly the motion (dx, dy). */
  predicate Carries(out: Routed, dx: int, dy: int) {
    out.Local? && out.event.MouseMove? && out.event.dx == dx && out.event.dy == dy
  }

  /** The border clamp reports exactly the motion that survived; its i32 saturation never fires. */
  lemma ClampExact(r: Router, dx: i32, dy: i32)
    requires r.WellFormed() && InBounds(r)
    ensures var s := ClampToEdge(r, r.x + dx, r.y + dy);
            && Carries(s.1, s.0.x - r.x, s.0.y - r.y)
            && Abs(s.0.x - r.x) <= Abs(dx) && Abs(s.0.y - r.y) <= Abs(dy)
  {
    ClampDelta(r.x, dx, r.Here().width);
    ClampDelta(r.y, dy, r.Here().height);
    hide Layout.Valid, Layout.Find, SaturateI32;
  }

  lemma PastStepExact(r: Router, edge: Edge, dx: i32, dy: i32, now: Instant)
    requires r.WellFormed() && InBounds(r) && LocalPast(r, edge, r.x + dx, r.y + dy, now).1.Local?
    ensures var s := LocalPast(r, edge, r.x + dx, r.y + dy, now);
            && Carries(s.1, s.0.x - r.x, s.0.y - r.y)
            && Abs(s.0.x - r.x) <= Abs(dx) && Abs(s.0.y - r.y) <= Abs(dy)
  {
    hide Layout.Valid, Layout.Find, PushTotal, Overshoot, ClampToEdge, Gated, Cross, Abs;
    var overflow := Overshoot(edge, r.x + dx, r.y + dy, r.Here().width, r.Here().height);
    ClampExact(r.EndPush(), dx, dy);
    ClampExact(r.(pushEdge := Some(edge), pushAccum := PushTotal(r, edge, overflow)), dx, dy);
  }

  lemma LocalMoveExact(r: Router, dx: i32, dy: i32, now: Instant)
    requires r.WellFormed() && InBounds(r) && LocalMove(r, dx, dy, now).1.Local?
    ensures var s := LocalMove(r, dx, dy, now);
            && Carries(s.1, s.0.x - r.x, s.0.y - r.y)
            && Abs(s.0.x - r.x) <= Abs(dx) && Abs(s.0.y - r.y) <= Abs(dy)
  {
    hide Layout.Valid, Layout.Find, LocalPast, LocalInside, EdgePast, Abs, InBounds;
    var past := PastEdge(r, MouseMove(dx, dy));
    if past.Some? {
      PastStepExact(r, past.value, dx, dy, now);
    } else {
      InsideWhenNotPast(r, MouseMove(dx, dy));
      assert LocalMove(r, dx, dy, now) == (LocalInside(r, r.x + dx, r.y + dy), Local(MouseMove(dx, dy)));
    }
  }

  /** A local answer carries exactly the motion the cursor made, never more than was asked. */
  lemma LocalStepExact(r: Router, event: InputEvent, now: Instant)
    requires Core(r) && r.active.None? && Route(r, event, now).1.Local?
    ensures var s := Route(r, event, now).0;
            var out := Some(Route(r, event, now).1);
            && s.x == r.x + EmittedX(out) && s.y == r.y + EmittedY(out)
            && (event.MouseMove? ==> Abs(EmittedX(out)) <= Abs(event.dx) && Abs(EmittedY(out)) <= Abs(event.dy))
  {
    assert r.WellFormed() && InBounds(r);
    hide Core, Layout.Valid, Layout.Find, LocalMove, DriveMove;
    if event.MouseMove? {
      LocalMoveExact(r, event.dx, event.dy, now);
    }
  }

  lemma InsideWhenNotPast(r: Router, event: InputEvent)
    requires r.WellFormed() && event.MouseMove? && PastEdge(r, event).None?
    ensures 0 <= r.x + event.dx < r.Here().width && 0 <= r.y + event.dy < r.Here().height
  {
  }

  /** Sum of the horizontal motion a run emitted. */
  function SumX(r: Router, acts: seq<Act>): int
    requires Core(r) && AllSound(r.localScreen, acts)
  {
    if acts == [] then 0
    else SumX(r, acts[..|acts| - 1]) + EmittedX(Answer(r, acts, |acts| - 1))
  }

  function SumY(r: Router, acts: seq<Act>): int
    requires Core(r) && AllSound(r.localScreen, acts)
  {
    if acts == [] then 0
    else SumY(r, acts[..|acts| - 1]) + EmittedY(Answer(r, acts, |acts| - 1))
  }

  /** A run of routed events every one of which was answered locally. */
  predicate AllLocal(r: Router, acts: seq<Act>)
    requires Core(r) && AllSound(r.localScreen, acts)
  {
    forall n :: 0 <= n < |acts| ==> Answer(r, acts, n).Some? && Answer(r, acts, n).value.Local?
  }

  lemma LocalAnswerIsLocal(r: Router, event: InputEvent, now: Instant)
    requires Core(r) && Route(r, event, now).1.Local?
    ensures r.active.None? && Route(r, event, now).0.active.None?
  {
    RouteCore(r, event, now);
    if event.MouseMove? && r.active.None? {
      LocalMoveCore(r, event.dx, event.dy, now);
    }
    hide LocalMove, Router.Pinned, Core, Layout.Valid, Layout.Find, LandAtEdge, Press, PressComplete, DriveInside;
  }

  /** Over any all-local run the cursor is its start plus everything emitted: no pixel is lost or invented. */
  lemma {:induction false} LocalRunConserves(r: Router, acts: seq<Act>)
    requires Core(r) && AllSound(r.localScreen, acts) && AllLocal(r, acts)
    ensures After(r, acts).x == r.x + SumX(r, acts)
    ensures After(r, acts).y == r.y + SumY(r, acts)
  {
    hide Route, Core, Sound, Apply, Layout.Valid, Layout.Find, EmittedX, EmittedY;
    if acts != [] {
      var n := |acts| - 1;
      var init := acts[..n];
      PrefixAnswers(r, acts, n);
      LocalRunConserves(r, init);
      var before := After(r, init);
      assert acts[..n + 1] == acts;
      Unroll(r, acts, n);
      hide After;
      assert Answer(r, acts, n).value.Local?;
      LocalAnswerIsLocal(before, acts[n].op.event, acts[n].now);
      LocalStepExact(before, acts[n].op.event, acts[n].now);
    }
  }

  lemma PrefixAnswers(r: Router, acts: seq<Act>, n: nat)
    requires Core(r) && AllSound(r.localScreen, acts) && n <= |acts|
    ensures forall k :: 0 <= k < n ==> Answer(r, acts[..n], k) == Answer(r, acts, k)
  {
    hide Route, Core, Output;
    forall k | 0 <= k < n
      ensures Answer(r, acts[..n], k) == Answer(r, acts, k)
    {
      assert acts[..n][..k] == acts[..k];
    }
  }
}
