/**
 * What each router operation does to the router's state, as functions on values.
 * The class EdgeRouter performs the same operations in place and is proved against these.
 */
module Routers {
  import opened Basics
  import opened Events
  import opened Geometry
  import opened Layouts

  datatype Routed =
    | Local(event: InputEvent)
    | Forward(target: ScreenId, event: InputEvent)
    | Handoff(from: ScreenId, target: ScreenId, edge: Edge, targetX: u32, targetY: u32, event: InputEvent)
    | ReturnHome(from: ScreenId, edge: Edge, entry: Option<Edge>, armed: bool)

  datatype RouterError =
    | DriveActive
    | NotDriving
    | LocalScreenMissing
    | UnknownTarget
    | NoLocalScreen
    | BadLayout(cause: LayoutError)

  datatype Router = Router(
    layout: Layout,
    localScreen: ScreenId,
    current: ScreenId,
    x: u32,
    y: u32,
    homeX: u32,
    homeY: u32,
    active: Option<ScreenId>,
    entryEdge: Option<Edge>,
    returnArmed: bool,
    returnAccum: int,
    returnEdge: Option<Edge>,
    returnEdgeAccum: int,
    edgeMode: EdgeMode,
    doubleStyle: DoubleEdgeStyle,
    pushEdge: Option<Edge>,
    pushAccum: int,
    returnHold: nat,
    returnRunSince: Option<Instant>,
    handoffGrace: nat,
    handoffAt: Option<Instant>,
    locked: bool,
    startupGate: bool,
    postReturnEdge: Option<Edge>,
    postReturnAt: Option<Instant>)
  {
    /** The screens every operation relies on are in a valid layout. */
    predicate WellFormed() {
      layout.Valid() && layout.Find(localScreen).Some? && layout.Find(current).Some?
    }

    /** The screen the cursor is on. */
    function Here(): (s: Screen)
      requires WellFormed()
      ensures s.width > 0 && s.height > 0 && s.id == current
    {
      assert SoundScreen(layout.screens[IndexById(layout.screens, current)]);
      layout.Find(current).value
    }

    function HomeScreen(): (s: Screen)
      requires WellFormed()
      ensures s.width > 0 && s.height > 0 && s.id == localScreen
    {
      assert SoundScreen(layout.screens[IndexById(layout.screens, localScreen)]);
      layout.Find(localScreen).value
    }

    function DistanceHere(edge: Edge): u32
      requires WellFormed()
    {
      DistanceFromEdge(edge, x, y, Here().width, Here().height)
    }

    function CrossingTarget(edge: Edge): Option<ScreenId> {
      layout.CrossingTargetFor(current, edge, edgeMode)
    }

    function FixedReturnEdge(): Option<Edge> {
      match doubleStyle
      case Mirror => None
      case FixedLeft => Some(Edge.Left)
      case FixedRight => Some(Edge.Right)
    }

    /** Edges of the driven screen whose overflow comes home. */
    predicate FacesHome(edge: Edge) {
      match FixedReturnEdge()
      case Some(fixed) => edge == fixed
      case None =>
        || layout.NeighborForEdge(current, edge) == Some(localScreen)
        || (edgeMode == Double && edge.Horizontal() && current != localScreen && layout.SinglePeerScreen().Some?)
    }

    predicate NearCrossingEdge(margin: u32)
      requires WellFormed()
    {
      && active.None? && current == localScreen && !locked
      && exists edge: Edge :: DistanceHere(edge) <= margin && CrossingTarget(edge).Some?
    }

    /** Whether a position on the local screen sits at an edge that opens a crossing. */
    predicate AtCrossableEdge(atX: u32, atY: u32)
      requires WellFormed()
    {
      exists edge: Edge ::
        && layout.CrossingTargetFor(localScreen, edge, edgeMode).Some?
        && DistanceFromEdge(edge, atX, atY, HomeScreen().width, HomeScreen().height) < EDGE_PUSH_PX
    }

    predicate InHandoffGrace(now: Instant) {
      handoffGrace != 0 && handoffAt.Some? && Elapsed(handoffAt.value, now) < handoffGrace
    }

    predicate PostReturnHolds(now: Instant) {
      postReturnAt.Some? && Elapsed(postReturnAt.value, now) < POST_RETURN_HOLD
    }

    /** The disarmed entry edge: overflow there only feeds the escape hatch. */
    predicate UnarmedEntry(edge: Edge) {
      entryEdge == Some(edge) && !returnArmed
    }

    function EndReturnRun(): Router {
      this.(returnEdge := None, returnEdgeAccum := 0, returnRunSince := None)
    }

    function EndPush(): Router {
      this.(pushEdge := None, pushAccum := 0)
    }

    function EndPostReturn(): Router {
      this.(postReturnEdge := None, postReturnAt := None)
    }

    /** The cursor stopped at the border of the current screen. */
    function Pinned(nextX: int, nextY: int): (s: Router)
      requires WellFormed()
      ensures s == this.(x := s.x, y := s.y) && s.x < Here().width && s.y < Here().height
    {
      this.(x := Clamp(nextX, 0, Here().width - 1), y := Clamp(nextY, 0, Here().height - 1))
    }

    /** Control back on the local screen at a given position. */
    function AtHome(atX: u32, atY: u32): Router {
      this.(current := localScreen, x := atX, y := atY, homeX := atX, homeY := atY,
        active := None, entryEdge := None, returnArmed := false).EndPush().EndReturnRun()
    }
  }

  /** What no routed event and no return changes: the arrangement, who is local, and the settings. */
  predicate SameSetup(a: Router, b: Router) {
    && a.layout == b.layout && a.localScreen == b.localScreen
    && a.edgeMode == b.edgeMode && a.doubleStyle == b.doubleStyle && a.locked == b.locked
    && a.returnHold == b.returnHold && a.handoffGrace == b.handoffGrace
  }

  // ---- construction and settings -------------------------------------------------------------

  function NewLocal(layout: Layout): Option<ScreenId> {
    if layout.selfScreen.Some? then layout.selfScreen
    else if layout.screens != [] then Some(layout.screens[0].id)
    else None
  }

  function New(layout: Layout): Result<Router, RouterError>
    requires layout.Valid()
  {
    var me := NewLocal(layout);
    if me.None? then Err(RouterError.NoLocalScreen)
    else if layout.Find(me.value).None? then Err(LocalScreenMissing)
    else
      var screen := layout.Find(me.value).value;
      var cx, cy := screen.width / 2, screen.height / 2;
      Ok(Router(layout, me.value, me.value, cx, cy, cx, cy, None, None, false, 0, None, 0,
        Double, Mirror, None, 0, 0, None, 0, None, false, false, None, None))
  }

  /** The new arrangement with the measured sizes of every surviving screen carried over. */
  function CarrySizes(next: Layout, was: Layout): (r: Layout)
    ensures |r.screens| == |next.screens|
  {
    next.(screens := seq(|next.screens|, i requires 0 <= i < |next.screens| =>
      var measured := was.Find(next.screens[i].id);
      if measured.Some? then next.screens[i].(width := measured.value.width, height := measured.value.height)
      else next.screens[i]))
  }

  lemma CarrySizesValid(next: Layout, was: Layout)
    requires next.Valid() && was.Valid()
    ensures CarrySizes(next, was).Valid()
    ensures forall k: ScreenId :: CarrySizes(next, was).Find(k).Some? <==> next.Find(k).Some?
    ensures forall k: ScreenId ::
              next.Find(k).Some? ==>
                CarrySizes(next, was).Find(k).value ==
                if was.Find(k).Some?
                then next.Find(k).value.(width := was.Find(k).value.width, height := was.Find(k).value.height)
                else next.Find(k).value
  {
    var r := CarrySizes(next, was);
    SameIndexes(next.screens, r.screens);
    forall i | 0 <= i < |r.screens|
      ensures SoundScreen(r.screens[i])
    {
      assert SoundScreen(next.screens[i]);
      var k := IndexById(was.screens, next.screens[i].id);
      if k < |was.screens| {
        assert SoundScreen(was.screens[k]);
      }
    }
    forall i, j | 0 <= i < j < |r.screens|
      ensures Apart(r.screens[i], r.screens[j])
    {
      assert Apart(next.screens[i], next.screens[j]);
    }
  }

  function SetLayout(r: Router, next: Layout): Result<Router, RouterError>
    requires r.WellFormed() && next.Valid()
  {
    if r.active.Some? then Err(DriveActive)
    else if next.Find(r.localScreen).None? then Err(LocalScreenMissing)
    else
      CarrySizesValid(next, r.layout);
      var moved := r.(layout := CarrySizes(next, r.layout), current := r.localScreen);
      var cx, cy := Min(r.x, moved.Here().width - 1), Min(r.y, moved.Here().height - 1);
      Ok(moved.(returnAccum := 0).AtHome(cx, cy).EndPostReturn().(returnRunSince := r.returnRunSince))
  }

  /** Explicit placement of the local cursor; with `gate` it arms the next-entry gate at a crossable edge. */
  function SeedPosition(r: Router, x: u32, y: u32, gate: bool): Result<Router, RouterError>
    requires r.WellFormed()
  {
    if r.active.Some? then Err(DriveActive)
    else
      var home := r.HomeScreen();
      var cx, cy := Min(x, home.width - 1), Min(y, home.height - 1);
      var placed := r.(x := cx, y := cy, homeX := cx, homeY := cy).EndPush().EndPostReturn();
      Ok(placed.(startupGate := gate && r.AtCrossableEdge(cx, cy)))
  }

  /** Re-pin the local cursor to pointer truth; a jump inward costs the push run that distance. */
  function ResyncIfLocal(r: Router, x: u32, y: u32): Router
    requires r.WellFormed()
  {
    if r.active.Some? || r.current != r.localScreen then r
    else
      var home := r.HomeScreen();
      var px, py := Min(x, home.width - 1), Min(y, home.height - 1);
      var moved := Max(Abs(px - r.x), Abs(py - r.y));
      var pinned := r.(x := px, y := py, homeX := px, homeY := py);
      if moved <= RESYNC_DIVERGE_PX || r.pushEdge.None? then pinned
      else
        var before := DistanceFromEdge(r.pushEdge.value, r.x, r.y, home.width, home.height);
        var after := DistanceFromEdge(r.pushEdge.value, px, py, home.width, home.height);
        var left := r.pushAccum - Max(0, after - before);
        if left <= 0 then pinned.EndPush() else pinned.(pushAccum := left)
  }

  function AdoptLocalScreenSize(r: Router, width: u32, height: u32): Option<Router>
    requires r.WellFormed()
  {
    var sized := r.layout.SetScreenSize(r.localScreen, width, height);
    if sized.None? then None
    else Some(r.(layout := sized.value,
      x := Min(r.x, width - 1), y := Min(r.y, height - 1),
      homeX := Min(r.homeX, width - 1), homeY := Min(r.homeY, height - 1)).EndPush())
  }

  function AdoptPeerScreenSize(r: Router, fingerprint: string, width: u32, height: u32): Option<Router>
    requires r.WellFormed()
  {
    var i := IndexByPeer(r.layout.screens, fingerprint);
    if i == |r.layout.screens| then None
    else
      var id := r.layout.screens[i].id;
      var sized := r.layout.SetScreenSize(id, width, height);
      if sized.None? then None
      else
        var clamped := if r.current == id then r.(x := Min(r.x, width - 1), y := Min(r.y, height - 1)) else r;
        Some(clamped.(layout := sized.value, returnAccum := 0).EndPush().EndReturnRun())
  }

  // ---- returning control ---------------------------------------------------------------------

  function ReturnToLocal(r: Router, from: ScreenId, x: u32, y: u32): Result<Router, RouterError>
    requires r.WellFormed()
  {
    if r.active != Some(from) then Err(NotDriving)
    else Ok(r.AtHome(Min(x, r.HomeScreen().width - 1), Min(y, r.HomeScreen().height - 1)))
  }

  /** The local edge a return through a remote edge lands beside. */
  function LandingEdge(r: Router, edge: Edge): Edge {
    if r.edgeMode == Double && r.doubleStyle == Mirror && edge.Horizontal() then edge.Opposite() else edge
  }

  /** Landing just inside a local edge, the roamed position mapped along it. */
  function ReturnCoords(landing: Edge, x: u32, y: u32, remote: Screen, home: Screen): (u32, u32) {
    match landing
    case Left => (RETURN_INSET_PX, MapCoordinate(y, remote.height, home.height))
    case Right => (Max(0, Max(0, home.width - 1) - RETURN_INSET_PX), MapCoordinate(y, remote.height, home.height))
    case Top => (MapCoordinate(x, remote.width, home.width), RETURN_INSET_PX)
    case Bottom => (MapCoordinate(x, remote.width, home.width), Max(0, Max(0, home.height - 1) - RETURN_INSET_PX))
  }

  function LandAtEdge(r: Router, from: ScreenId, edge: Edge, now: Instant): (s: Router)
    requires r.WellFormed()
    ensures SameSetup(r, s)
  {
    var home := r.HomeScreen();
    var remote := if r.layout.Find(from).Some? then r.layout.Find(from).value else home;
    var landing := LandingEdge(r, edge);
    var c := ReturnCoords(landing, r.x, r.y, remote, home);
    r.AtHome(Min(c.0, home.width - 1), Min(c.1, home.height - 1)).(
      postReturnEdge := Some(landing), postReturnAt := Some(now))
  }

  function RestoreLocalAtEdge(r: Router, from: ScreenId, edge: Edge, now: Instant): Result<Router, RouterError>
    requires r.WellFormed()
  {
    if r.active != Some(from) then Err(NotDriving) else Ok(LandAtEdge(r, from, edge, now))
  }

  function RestoreLocal(r: Router, from: ScreenId): Result<Router, RouterError>
    requires r.WellFormed()
  {
    if r.active != Some(from) then Err(NotDriving)
    else
      var home := r.HomeScreen();
      var remoteHeight := if r.layout.Find(from).Some? then r.layout.Find(from).value.height else home.height;
      var mapped := MapCoordinate(r.y, remoteHeight, home.height);
      Ok(r.AtHome(Min(r.homeX, home.width - 1), Min(mapped, home.height - 1)).EndPostReturn())
  }

  /** A peer's handoff request: home when it names the local screen, else the next remote. */
  function HandoffTo(r: Router, target: ScreenId, x: u32, y: u32, now: Instant): Result<(Router, bool), RouterError>
    requires r.WellFormed()
  {
    var found := r.layout.Find(target);
    if found.None? then Err(UnknownTarget)
    else
      assert SoundScreen(r.layout.screens[IndexById(r.layout.screens, target)]);
      var cx, cy := Min(x, found.value.width - 1), Min(y, found.value.height - 1);
      if target == r.localScreen then Ok((r.AtHome(cx, cy).EndPostReturn(), false))
      else
        var saved := if r.current == r.localScreen then r.(homeX := r.x, homeY := r.y) else r;
        Ok((saved.(current := target, x := cx, y := cy, active := Some(target), entryEdge := None,
          returnArmed := true, handoffAt := Some(now)).EndReturnRun().EndPostReturn(), true))
  }

  // ---- routing while a remote screen is driven -----------------------------------------------

  /** A step that stays on the driven screen. */
  function DriveInside(r: Router, nextX: u32, nextY: u32): (s: Router)
    requires r.WellFormed()
    ensures SameSetup(r, s) && s.x == nextX && s.y == nextY
  {
    var moved := r.(x := nextX, y := nextY);
    var runEdge := if r.returnEdge.Some? then r.returnEdge else r.entryEdge;
    var calm :=
      if runEdge.None? || moved.DistanceHere(runEdge.value) > SLIDE_PX
      then moved.(returnAccum := 0).EndReturnRun() else moved;
    if r.entryEdge.Some? && moved.DistanceHere(r.entryEdge.value) >= SETTLE_PX
    then calm.(returnArmed := true) else calm
  }

  /** One more push on a home-facing edge that is armed or was not entered through. */
  function Press(r: Router, edge: Edge, overflow: nat, now: Instant): (s: Router)
    ensures SameSetup(r, s) && s.active == r.active && s.current == r.current && s.x == r.x && s.y == r.y
  {
    var credit := if r.returnArmed then overflow else Min(overflow, RETURN_PUSH_PX - 1);
    if r.returnEdge == Some(edge) then r.(returnEdgeAccum := r.returnEdgeAccum + credit)
    else r.(returnEdge := Some(edge), returnEdgeAccum := credit, returnRunSince := Some(now))
  }

  predicate PressComplete(r: Router, now: Instant) {
    && r.returnEdgeAccum >= (if r.returnArmed then RETURN_EDGE_PX else RETURN_PUSH_PX)
    && (r.returnHold == 0 || (r.returnRunSince.Some? && Elapsed(r.returnRunSince.value, now) >= r.returnHold))
    && !r.InHandoffGrace(now)
  }

  /** Overflow on the disarmed entry edge: only a long shove gets home. */
  function Escape(r: Router, edge: Edge, nextX: int, nextY: int, forward: Routed, now: Instant): (s: (Router, Routed))
    requires r.WellFormed() && r.active.Some?
    ensures SameSetup(r, s.0)
  {
    var overflow := Overshoot(edge, nextX, nextY, r.Here().width, r.Here().height);
    var pushed := r.(returnAccum := r.returnAccum + overflow);
    if pushed.returnAccum >= RETURN_PUSH_PX && !r.InHandoffGrace(now)
    then (LandAtEdge(pushed, r.active.value, edge, now), ReturnHome(r.current, edge, r.entryEdge, r.returnArmed))
    else (pushed.Pinned(nextX, nextY), forward)
  }

  /** Overflow on any other home-facing edge. */
  function Shove(r: Router, edge: Edge, nextX: int, nextY: int, forward: Routed, now: Instant): (s: (Router, Routed))
    requires r.WellFormed() && r.active.Some?
    ensures SameSetup(r, s.0)
  {
    var overflow := Overshoot(edge, nextX, nextY, r.Here().width, r.Here().height);
    var pressed := Press(r, edge, overflow, now);
    if PressComplete(pressed, now)
    then (LandAtEdge(pressed, r.active.value, edge, now), ReturnHome(r.current, edge, r.entryEdge, r.returnArmed))
    else (pressed.Pinned(nextX, nextY), forward)
  }

  function DriveMove(r: Router, dx: i32, dy: i32, now: Instant): (s: (Router, Routed))
    requires r.WellFormed() && r.active.Some?
    ensures SameSetup(r, s.0)
  {
    var nextX, nextY := r.x + dx, r.y + dy;
    var past := EdgePast(nextX, nextY, r.Here().width, r.Here().height);
    var forward := Forward(r.active.value, MouseMove(dx, dy));
    if past.None? then (DriveInside(r, nextX, nextY), forward)
    else if !r.FacesHome(past.value) then (r.(returnAccum := 0).EndReturnRun().Pinned(nextX, nextY), forward)
    else if r.UnarmedEntry(past.value) then Escape(r, past.value, nextX, nextY, forward, now)
    else Shove(r, past.value, nextX, nextY, forward, now)
  }

  // ---- routing while control is local --------------------------------------------------------

  /** A local step that stays on the screen. */
  function LocalInside(r: Router, nextX: u32, nextY: u32): (s: Router)
    requires r.WellFormed()
    ensures SameSetup(r, s) && s.x == nextX && s.y == nextY
  {
    var moved := r.(x := nextX, y := nextY, homeX := nextX, homeY := nextY);
    var settled :=
      if r.pushEdge.None? || moved.DistanceHere(r.pushEdge.value) > SLIDE_PX then moved.EndPush() else moved;
    var cleared :=
      if r.postReturnEdge.Some? && moved.DistanceHere(r.postReturnEdge.value) >= POST_RETURN_CLEAR_PX
      then settled.EndPostReturn() else settled;
    if moved.NearCrossingEdge(EDGE_PUSH_PX) then cleared else cleared.(startupGate := false)
  }

  /** An out-of-bounds local step stopped at the border, with the motion that survived. */
  function ClampToEdge(r: Router, nextX: int, nextY: int): (s: (Router, Routed))
    requires r.WellFormed()
    ensures SameSetup(r, s.0) && s.1.Local?
  {
    var pinned := r.Pinned(nextX, nextY);
    (pinned.(homeX := pinned.x, homeY := pinned.y),
     Local(MouseMove(SaturateI32(pinned.x - r.x), SaturateI32(pinned.y - r.y))))
  }

  /** Whether some gate keeps this edge shut regardless of pressure. */
  predicate Gated(r: Router, edge: Edge, now: Instant) {
    || r.locked
    || r.CrossingTarget(edge).None?
    || r.startupGate
    || (r.postReturnEdge == Some(edge) && r.PostReturnHolds(now))
  }

  /** What one event adds to the push run: a run starting far inside is capped below the budget. */
  function PushCredit(r: Router, edge: Edge, overflow: nat): nat
    requires r.WellFormed()
  {
    if r.DistanceHere(edge) <= PHANTOM_START_GUARD_PX then overflow else Min(overflow, EDGE_PUSH_PX - 1)
  }

  function PushTotal(r: Router, edge: Edge, overflow: nat): int
    requires r.WellFormed()
  {
    PushCredit(r, edge, overflow) + if r.pushEdge == Some(edge) then r.pushAccum else 0
  }

  /** The overshoot of a crossing, kept as a relative event. */
  function Remainder(edge: Edge, overflow: nat): InputEvent {
    var px := SaturateI32(overflow);
    match edge
    case Left => MouseMove(-px, 0)
    case Right => MouseMove(px, 0)
    case Top => MouseMove(0, -px)
    case Bottom => MouseMove(0, px)
  }

  function Cross(r: Router, edge: Edge, overflow: nat, now: Instant): (s: (Router, Routed))
    requires r.WellFormed() && r.CrossingTarget(edge).Some?
    ensures SameSetup(r, s.0) && s.1.Handoff?
  {
    var target := r.CrossingTarget(edge).value;
    var landing := Landing(r.doubleStyle, edge, r.Here(), r.layout.Find(target).value, r.x, r.y);
    var saved := if r.current == r.localScreen then r.(homeX := r.x, homeY := r.y) else r;
    (saved.(current := target, x := landing.0, y := landing.1, active := Some(target),
       entryEdge := Some(r.doubleStyle.EntryForExit(edge)), returnArmed := false, returnAccum := 0,
       handoffAt := Some(now)).EndPush().EndPostReturn().EndReturnRun(),
     Handoff(r.current, target, edge, landing.0, landing.1, Remainder(edge, overflow)))
  }

  /** A local step past an edge: held by a gate, saved up, or a crossing. */
  function LocalPast(r: Router, edge: Edge, nextX: int, nextY: int, now: Instant): (s: (Router, Routed))
    requires r.WellFormed()
    ensures SameSetup(r, s.0)
  {
    if Gated(r, edge, now) then ClampToEdge(r.EndPush(), nextX, nextY)
    else
      var overflow := Overshoot(edge, nextX, nextY, r.Here().width, r.Here().height);
      var total := PushTotal(r, edge, overflow);
      if total < EDGE_PUSH_PX
      then ClampToEdge(r.(pushEdge := Some(edge), pushAccum := total), nextX, nextY)
      else Cross(r, edge, overflow, now)
  }

  function LocalMove(r: Router, dx: i32, dy: i32, now: Instant): (s: (Router, Routed))
    requires r.WellFormed()
    ensures SameSetup(r, s.0)
  {
    var nextX, nextY := r.x + dx, r.y + dy;
    var past := EdgePast(nextX, nextY, r.Here().width, r.Here().height);
    if past.None? then (LocalInside(r, nextX, nextY), Local(MouseMove(dx, dy)))
    else LocalPast(r, past.value, nextX, nextY, now)
  }

  /** Route one physical input event. */
  function Route(r: Router, event: InputEvent, now: Instant): (s: (Router, Routed))
    requires r.WellFormed()
    ensures SameSetup(r, s.0)
  {
    if !event.MouseMove? then (r, if r.active.Some? then Forward(r.active.value, event) else Local(event))
    else if r.active.Some? then DriveMove(r, event.dx, event.dy, now)
    else LocalMove(r, event.dx, event.dy, now)
  }
}
