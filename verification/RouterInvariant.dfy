/** The invariant every public router operation keeps, and runs of operations. */
module RouterInvariant {
  import opened Basics
  import opened Events
  import opened Geometry
  import opened Layouts
  import opened Routers

  /** Every public way to change a router. */
  datatype Op =
    | DoRoute(event: InputEvent)
    | DoSetLayout(layout: Layout)
    | DoSeed(x: u32, y: u32, gate: bool)
    | DoResync(x: u32, y: u32)
    | DoAdoptLocal(width: u32, height: u32)
    | DoAdoptPeer(fingerprint: string, width: u32, height: u32)
    | DoReturnToLocal(from: ScreenId, x: u32, y: u32)
    | DoRestoreAtEdge(from: ScreenId, edge: Edge)
    | DoRestore(from: ScreenId)
    | DoHandoffTo(target: ScreenId, x: u32, y: u32)
    | DoSetMode(mode: EdgeMode)
    | DoSetStyle(style: DoubleEdgeStyle)
    | DoSetLocked(lock: bool)
    | DoSetHold(hold: nat)
    | DoSetGrace(grace: nat)

  /** One operation at one instant. */
  datatype Act = Act(op: Op, now: Instant)

  function Settled(r: Router, attempt: Result<Router, RouterError>): Router {
    if attempt.Ok? then attempt.value else r
  }

  function Adopted(r: Router, attempt: Option<Router>): Router {
    if attempt.Some? then attempt.value else r
  }

  /** What an operation does to the router, refused operations leaving it alone. */
  function Apply(r: Router, act: Act): Router
    requires r.WellFormed()
  {
    match act.op
    case DoRoute(event) => Route(r, event, act.now).0
    case DoSetLayout(layout) => if layout.Valid() then Settled(r, SetLayout(r, layout)) else r
    case DoSeed(x, y, gate) => Settled(r, SeedPosition(r, x, y, gate))
    case DoResync(x, y) => ResyncIfLocal(r, x, y)
    case DoAdoptLocal(width, height) => Adopted(r, AdoptLocalScreenSize(r, width, height))
    case DoAdoptPeer(fingerprint, width, height) => Adopted(r, AdoptPeerScreenSize(r, fingerprint, width, height))
    case DoReturnToLocal(from, x, y) => Settled(r, ReturnToLocal(r, from, x, y))
    case DoRestoreAtEdge(from, edge) => Settled(r, RestoreLocalAtEdge(r, from, edge, act.now))
    case DoRestore(from) => Settled(r, RestoreLocal(r, from))
    case DoHandoffTo(target, x, y) =>
      var attempt := HandoffTo(r, target, x, y, act.now);
      if attempt.Ok? then attempt.value.0 else r
    case DoSetMode(mode) => r.(edgeMode := mode)
    case DoSetStyle(style) => r.(doubleStyle := style)
    case DoSetLocked(lock) => r.(locked := lock)
    case DoSetHold(hold) => r.(returnHold := hold)
    case DoSetGrace(grace) => r.(handoffGrace := grace)
  }

  /** What routing answered, for the operations that route. */
  function Output(r: Router, act: Act): Option<Routed>
    requires r.WellFormed()
  {
    if act.op.DoRoute? then Some(Route(r, act.op.event, act.now).1) else None
  }

  /** The local screen is not paired to a peer. */
  predicate Unpaired(layout: Layout, me: ScreenId) {
    layout.Find(me).Some? ==> layout.Find(me).value.peer.None?
  }

  predicate Sound(me: ScreenId, act: Act) {
    act.op.DoSetLayout? ==> Unpaired(act.op.layout, me)
  }

  /** Who drives: no remote exactly when the cursor is on the local screen. */
  predicate WhoDrives(r: Router) {
    && (r.active.None? <==> r.current == r.localScreen)
    && (r.active.Some? ==> r.active.value == r.current)
    && (r.entryEdge.Some? || r.returnArmed ==> r.active.Some?)
    && (r.active.Some? ==> r.entryEdge.Some? || r.returnArmed)
  }

  /** The saved home lies inside the local screen and is the cursor itself while local. */
  predicate HomeKept(r: Router)
    requires r.WellFormed()
  {
    && r.homeX < r.HomeScreen().width
    && r.homeY < r.HomeScreen().height
    && (r.active.None? ==> r.x == r.homeX && r.y == r.homeY)
  }

  predicate RunsSane(r: Router) {
    && r.returnAccum >= 0
    && r.returnEdgeAccum >= 0
    && (r.returnEdge.None? ==> r.returnEdgeAccum == 0)
    && (r.returnEdge.Some? ==> r.returnRunSince.Some?)
    && (if r.pushEdge.Some? then 1 <= r.pushAccum < EDGE_PUSH_PX else r.pushAccum == 0)
  }

  predicate Core(r: Router) {
    && r.WellFormed()
    && Unpaired(r.layout, r.localScreen)
    && WhoDrives(r)
    && HomeKept(r)
    && r.x < r.Here().width
    && RunsSane(r)
  }

  /** The cursor is inside the current screen on both axes. */
  predicate InBounds(r: Router)
    requires r.WellFormed()
  {
    r.x < r.Here().width && r.y < r.Here().height
  }

  /** A new router satisfies the invariant. */
  lemma NewIsCore(layout: Layout)
    requires layout.Valid() && New(layout).Ok?
    requires Unpaired(layout, NewLocal(layout).value)
    ensures Core(New(layout).value) && InBounds(New(layout).value)
  {
  }

  lemma AtHomeCore(r: Router, x: u32, y: u32)
    requires Core(r) && x < r.HomeScreen().width && y < r.HomeScreen().height
    ensures Core(r.AtHome(x, y)) && InBounds(r.AtHome(x, y))
  {
    hide Layout.Valid, Layout.Find;
  }

  lemma LandingX(style: DoubleEdgeStyle, edge: Edge, source: Screen, target: Screen, x: u32, y: u32)
    requires target.width > 0 && target.height > 0
    ensures Landing(style, edge, source, target, x, y).0 < target.width
    ensures Landing(style, edge, source, target, x, y).1 < target.height <==>
            edge.Horizontal() || style == Mirror || MapCoordinate(x, source.width, target.width) < target.height
  {
    MapInRange(x, source.width, target.width);
    MapInRange(y, source.height, target.height);
  }

  lemma LocalInsideCore(r: Router, nextX: u32, nextY: u32)
    requires Core(r) && r.active.None? && nextX < r.Here().width && nextY < r.Here().height
    ensures Core(LocalInside(r, nextX, nextY)) && InBounds(LocalInside(r, nextX, nextY))
    ensures LocalInside(r, nextX, nextY).active.None?
  {
    hide Layout.Valid, Layout.Find;
  }

  lemma ClampCore(r: Router, nextX: int, nextY: int)
    requires Core(r) && r.active.None?
    ensures Core(ClampToEdge(r, nextX, nextY).0) && InBounds(ClampToEdge(r, nextX, nextY).0)
    ensures ClampToEdge(r, nextX, nextY).0.active.None?
  {
    hide Layout.Valid, Layout.Find;
  }

  /** What a step past an edge does while local, branch by branch. */
  lemma LocalPastCore(r: Router, edge: Edge, nextX: int, nextY: int, now: Instant)
    requires Core(r) && r.active.None?
    requires Overshoot(edge, nextX, nextY, r.Here().width, r.Here().height) >= 1
    ensures Core(LocalPast(r, edge, nextX, nextY, now).0)
    ensures LocalPast(r, edge, nextX, nextY, now).1.Local? ==>
              InBounds(LocalPast(r, edge, nextX, nextY, now).0) && LocalPast(r, edge, nextX, nextY, now).0.active.None?
  {
    hide Layout.Valid, Layout.Find, ClampToEdge, Cross;
    if Gated(r, edge, now) {
      ClampCore(r.EndPush(), nextX, nextY);
    } else {
      var overflow := Overshoot(edge, nextX, nextY, r.Here().width, r.Here().height);
      var total := PushTotal(r, edge, overflow);
      if total < EDGE_PUSH_PX {
        var saving := r.(pushEdge := Some(edge), pushAccum := total);
        assert Core(saving);
        ClampCore(saving, nextX, nextY);
      } else {
        CrossCore(r, edge, overflow, now);
      }
    }
  }

  lemma LocalMoveCore(r: Router, dx: i32, dy: i32, now: Instant)
    requires Core(r) && r.active.None?
    ensures Core(LocalMove(r, dx, dy, now).0)
    ensures LocalMove(r, dx, dy, now).1.Local? ==>
              InBounds(LocalMove(r, dx, dy, now).0) && LocalMove(r, dx, dy, now).0.active.None?
  {
    hide Layout.Valid, Layout.Find, LocalInside, LocalPast, InBounds;
    var past := EdgePast(r.x + dx, r.y + dy, r.Here().width, r.Here().height);
    if past.None? {
      LocalInsideCore(r, r.x + dx, r.y + dy);
    } else {
      LocalPastCore(r, past.value, r.x + dx, r.y + dy, now);
    }
  }

  lemma CrossCore(r: Router, edge: Edge, overflow: nat, now: Instant)
    requires Core(r) && r.active.None? && r.CrossingTarget(edge).Some?
    ensures Core(Cross(r, edge, overflow, now).0)
  {
    var target := r.CrossingTarget(edge).value;
    CrossingLeaves(r.layout, r.current, edge, r.edgeMode);
    var s := r.layout.Find(target).value;
    assert SoundScreen(r.layout.screens[IndexById(r.layout.screens, target)]);
    LandingX(r.doubleStyle, edge, r.Here(), s, r.x, r.y);
  }

  lemma LandAtEdgeCore(r: Router, from: ScreenId, edge: Edge, now: Instant)
    requires Core(r)
    ensures Core(LandAtEdge(r, from, edge, now)) && InBounds(LandAtEdge(r, from, edge, now))
  {
    hide Layout.Valid, Layout.Find, ReturnCoords, Router.AtHome;
    var home := r.HomeScreen();
    var remote := if r.layout.Find(from).Some? then r.layout.Find(from).value else home;
    var c := ReturnCoords(LandingEdge(r, edge), r.x, r.y, remote, home);
    AtHomeCore(r, Min(c.0, home.width - 1), Min(c.1, home.height - 1));
  }

  lemma PinnedCore(r: Router, nextX: int, nextY: int)
    requires Core(r) && r.active.Some?
    ensures Core(r.Pinned(nextX, nextY)) && InBounds(r.Pinned(nextX, nextY))
  {
    hide Layout.Valid, Layout.Find;
  }

  lemma DriveInsideCore(r: Router, nextX: u32, nextY: u32)
    requires Core(r) && r.active.Some? && nextX < r.Here().width && nextY < r.Here().height
    ensures Core(DriveInside(r, nextX, nextY)) && InBounds(DriveInside(r, nextX, nextY))
  {
    hide Layout.Valid, Layout.Find;
  }

  lemma PressCore(r: Router, edge: Edge, overflow: nat, now: Instant)
    requires Core(r) && r.active.Some?
    ensures Core(Press(r, edge, overflow, now))
    ensures Press(r, edge, overflow, now).active == r.active && Press(r, edge, overflow, now).Here() == r.Here()
  {
    hide Layout.Valid, Layout.Find;
  }

  lemma EscapeCore(r: Router, edge: Edge, nextX: int, nextY: int, forward: Routed, now: Instant)
    requires Core(r) && r.active.Some?
    ensures Core(Escape(r, edge, nextX, nextY, forward, now).0)
    ensures InBounds(Escape(r, edge, nextX, nextY, forward, now).0)
  {
    hide Layout.Valid, Layout.Find, LandAtEdge, Router.Pinned, Router.InHandoffGrace;
    var overflow := Overshoot(edge, nextX, nextY, r.Here().width, r.Here().height);
    var pushed := r.(returnAccum := r.returnAccum + overflow);
    assert Core(pushed);
    PinnedCore(pushed, nextX, nextY);
    LandAtEdgeCore(pushed, r.active.value, edge, now);
  }

  lemma ShoveCore(r: Router, edge: Edge, nextX: int, nextY: int, forward: Routed, now: Instant)
    requires Core(r) && r.active.Some?
    ensures Core(Shove(r, edge, nextX, nextY, forward, now).0)
    ensures InBounds(Shove(r, edge, nextX, nextY, forward, now).0)
  {
    hide Layout.Valid, Layout.Find, LandAtEdge, Router.Pinned, Press, PressComplete;
    var overflow := Overshoot(edge, nextX, nextY, r.Here().width, r.Here().height);
    var pressed := Press(r, edge, overflow, now);
    PressCore(r, edge, overflow, now);
    PinnedCore(pressed, nextX, nextY);
    LandAtEdgeCore(pressed, r.active.value, edge, now);
  }

  /** Every routed step of a drive keeps the invariant and ends inside the screen, wherever it began. */
  lemma DriveMoveCore(r: Router, dx: i32, dy: i32, now: Instant)
    requires Core(r) && r.active.Some?
    ensures Core(DriveMove(r, dx, dy, now).0) && InBounds(DriveMove(r, dx, dy, now).0)
  {
    hide Layout.Valid, Layout.Find, DriveInside, Escape, Shove;
    hide DistanceFromEdge, Overshoot, Router.FacesHome, Router.Pinned;
    var nextX, nextY := r.x + dx, r.y + dy;
    var past := EdgePast(nextX, nextY, r.Here().width, r.Here().height);
    var forward := Forward(r.active.value, MouseMove(dx, dy));
    if past.None? {
      DriveInsideCore(r, nextX, nextY);
    } else if !r.FacesHome(past.value) {
      var calm := r.(returnAccum := 0).EndReturnRun();
      assert Core(calm);
      PinnedCore(calm, nextX, nextY);
    } else if r.UnarmedEntry(past.value) {
      EscapeCore(r, past.value, nextX, nextY, forward, now);
    } else {
      ShoveCore(r, past.value, nextX, nextY, forward, now);
    }
  }

  lemma RouteCore(r: Router, event: InputEvent, now: Instant)
    requires Core(r)
    ensures Core(Route(r, event, now).0)
  {
    if event.MouseMove? {
      if r.active.Some? {
        DriveMoveCore(r, event.dx, event.dy, now);
      } else {
        LocalMoveCore(r, event.dx, event.dy, now);
      }
    }
  }

  lemma SetLayoutCore(r: Router, layout: Layout)
    requires Core(r) && layout.Valid() && Unpaired(layout, r.localScreen)
    ensures Core(Settled(r, SetLayout(r, layout)))
    ensures InBounds(r) ==> InBounds(Settled(r, SetLayout(r, layout)))
    ensures Settled(r, SetLayout(r, layout)).localScreen == r.localScreen
  {
    CarrySizesValid(layout, r.layout);
    hide Layout.Valid, Layout.Find, CarrySizes;
  }

  lemma AdoptLocalCore(r: Router, width: u32, height: u32)
    requires Core(r)
    ensures Core(Adopted(r, AdoptLocalScreenSize(r, width, height)))
    ensures InBounds(r) ==> InBounds(Adopted(r, AdoptLocalScreenSize(r, width, height)))
    ensures Adopted(r, AdoptLocalScreenSize(r, width, height)).localScreen == r.localScreen
  {
    hide Layout.Valid, Layout.Find, Layout.SetScreenSize;
    SetSizeKeepsGrid(r.layout, r.localScreen, width, height);
  }

  /** A measured size adopted for one screen other than home, the cursor clamped when it is there. */
  lemma ResizedCore(r: Router, id: ScreenId, width: u32, height: u32, sized: Layout, s: Router)
    requires Core(r) && id != r.localScreen && width > 0 && height > 0
    requires sized.Valid()
    requires forall k: ScreenId :: sized.Find(k).Some? <==> r.layout.Find(k).Some?
    requires forall k: ScreenId :: k != id ==> sized.Find(k) == r.layout.Find(k)
    requires r.current == id ==> sized.Find(id).value.width == width && sized.Find(id).value.height == height
    requires s == r.(layout := sized, returnAccum := 0, x := s.x, y := s.y).EndPush().EndReturnRun()
    requires s.x == if r.current == id then Min(r.x, width - 1) else r.x
    requires s.y == if r.current == id then Min(r.y, height - 1) else r.y
    ensures Core(s) && (InBounds(r) ==> InBounds(s))
  {
    hide Layout.Valid, Layout.Find;
  }

  lemma AdoptPeerCore(r: Router, fingerprint: string, width: u32, height: u32)
    requires Core(r)
    ensures Core(Adopted(r, AdoptPeerScreenSize(r, fingerprint, width, height)))
    ensures InBounds(r) ==> InBounds(Adopted(r, AdoptPeerScreenSize(r, fingerprint, width, height)))
    ensures Adopted(r, AdoptPeerScreenSize(r, fingerprint, width, height)).localScreen == r.localScreen
  {
    var i := IndexByPeer(r.layout.screens, fingerprint);
    if i < |r.layout.screens| {
      var s := r.layout.screens[i];
      FindUnique(r.layout, s);
      SetSizeKeepsGrid(r.layout, s.id, width, height);
      var adopted := AdoptPeerScreenSize(r, fingerprint, width, height);
      if adopted.Some? {
        ResizedCore(r, s.id, width, height, adopted.value.layout, adopted.value);
      }
      hide Core, InBounds, Layout.Valid, Layout.Find, Layout.SetScreenSize;
    } else {
      hide Core, InBounds, Layout.Valid, Layout.Find, Layout.SetScreenSize;
    }
  }

  lemma HandoffToCore(r: Router, target: ScreenId, x: u32, y: u32, now: Instant)
    requires Core(r) && HandoffTo(r, target, x, y, now).Ok?
    ensures Core(HandoffTo(r, target, x, y, now).value.0) && InBounds(HandoffTo(r, target, x, y, now).value.0)
    ensures HandoffTo(r, target, x, y, now).value.0.localScreen == r.localScreen
  {
    FoundSound(r.layout, target);
    if target == r.localScreen {
      AtHomeCore(r, Min(x, r.HomeScreen().width - 1), Min(y, r.HomeScreen().height - 1));
    }
    hide Layout.Valid, Layout.Find, Router.AtHome;
  }

  lemma SeedCore(r: Router, x: u32, y: u32, gate: bool)
    requires Core(r)
    ensures Core(Settled(r, SeedPosition(r, x, y, gate)))
    ensures InBounds(r) ==> InBounds(Settled(r, SeedPosition(r, x, y, gate)))
    ensures Settled(r, SeedPosition(r, x, y, gate)).localScreen == r.localScreen
  {
    hide Layout.Valid, Layout.Find, Router.AtCrossableEdge;
  }

  lemma ResyncCore(r: Router, x: u32, y: u32)
    requires Core(r)
    ensures Core(ResyncIfLocal(r, x, y))
    ensures InBounds(r) ==> InBounds(ResyncIfLocal(r, x, y))
    ensures ResyncIfLocal(r, x, y).localScreen == r.localScreen
  {
    hide Layout.Valid, Layout.Find;
  }

  lemma ReturnCore(r: Router, from: ScreenId, x: u32, y: u32)
    requires Core(r)
    ensures Core(Settled(r, ReturnToLocal(r, from, x, y)))
    ensures InBounds(r) ==> InBounds(Settled(r, ReturnToLocal(r, from, x, y)))
    ensures Settled(r, ReturnToLocal(r, from, x, y)).localScreen == r.localScreen
  {
    hide Layout.Valid, Layout.Find;
    AtHomeCore(r, Min(x, r.HomeScreen().width - 1), Min(y, r.HomeScreen().height - 1));
  }

  lemma RestoreCore(r: Router, from: ScreenId)
    requires Core(r)
    ensures Core(Settled(r, RestoreLocal(r, from)))
    ensures InBounds(r) ==> InBounds(Settled(r, RestoreLocal(r, from)))
    ensures Settled(r, RestoreLocal(r, from)).localScreen == r.localScreen
  {
    hide Layout.Valid, Layout.Find, MapCoordinate;
    var home := r.HomeScreen();
    var height := if r.layout.Find(from).Some? then r.layout.Find(from).value.height else home.height;
    AtHomeCore(r, Min(r.homeX, home.width - 1), Min(MapCoordinate(r.y, height, home.height), home.height - 1));
  }

  lemma RestoreAtEdgeCore(r: Router, from: ScreenId, edge: Edge, now: Instant)
    requires Core(r)
    ensures Core(Settled(r, RestoreLocalAtEdge(r, from, edge, now)))
    ensures InBounds(r) ==> InBounds(Settled(r, RestoreLocalAtEdge(r, from, edge, now)))
    ensures Settled(r, RestoreLocalAtEdge(r, from, edge, now)).localScreen == r.localScreen
  {
    hide Layout.Valid, Layout.Find, LandAtEdge;
    LandAtEdgeCore(r, from, edge, now);
  }

  /** Two routers that differ in settings only. */
  ghost predicate SameBut(a: Router, b: Router) {
    b == a.(edgeMode := b.edgeMode, doubleStyle := b.doubleStyle, locked := b.locked,
            returnHold := b.returnHold, handoffGrace := b.handoffGrace)
  }

  lemma SettingsCore(r: Router, s: Router)
    requires Core(r) && SameBut(r, s)
    ensures Core(s) && (InBounds(r) ==> InBounds(s)) && s.localScreen == r.localScreen
  {
    hide Layout.Valid, Layout.Find;
  }

  predicate ChangesScreens(op: Op) {
    op.DoSetLayout? || op.DoAdoptLocal? || op.DoAdoptPeer? || op.DoHandoffTo? || op.DoSeed? || op.DoResync?
  }

  lemma ScreensInBounds(r: Router, act: Act)
    requires Core(r) && Sound(r.localScreen, act) && ChangesScreens(act.op)
    ensures Core(Apply(r, act))
    ensures InBounds(r) ==> InBounds(Apply(r, act))
    ensures Apply(r, act).localScreen == r.localScreen
  {
    assert r.WellFormed();
    hide SetLayout, SeedPosition, ResyncIfLocal, AdoptLocalScreenSize, AdoptPeerScreenSize, HandoffTo;
    hide Core, InBounds, Layout.Valid, Layout.Find;
    match act.op
    case DoSetLayout(layout) =>
      if layout.Valid() {
        SetLayoutCore(r, layout);
      }
    case DoSeed(x, y, gate) => SeedCore(r, x, y, gate);
    case DoResync(x, y) => ResyncCore(r, x, y);
    case DoAdoptLocal(width, height) => AdoptLocalCore(r, width, height);
    case DoAdoptPeer(fingerprint, width, height) => AdoptPeerCore(r, fingerprint, width, height);
    case DoHandoffTo(target, x, y) =>
      if HandoffTo(r, target, x, y, act.now).Ok? {
        HandoffToCore(r, target, x, y, act.now);
      }
  }

  /** Everything but routing keeps the invariant and never pushes the cursor off the screen. */
  lemma QuietInBounds(r: Router, act: Act)
    requires Core(r) && Sound(r.localScreen, act) && !act.op.DoRoute?
    ensures Core(Apply(r, act))
    ensures InBounds(r) ==> InBounds(Apply(r, act))
    ensures Apply(r, act).localScreen == r.localScreen
  {
    assert r.WellFormed();
    if ChangesScreens(act.op) {
      ScreensInBounds(r, act);
      hide Core, InBounds, Layout.Valid, Layout.Find, Apply;
    } else {
      hide ReturnToLocal, RestoreLocal, RestoreLocalAtEdge, Core, InBounds, Layout.Valid, Layout.Find;
      match act.op
      case DoReturnToLocal(from, x, y) => ReturnCore(r, from, x, y);
      case DoRestoreAtEdge(from, edge) => RestoreAtEdgeCore(r, from, edge, act.now);
      case DoRestore(from) => RestoreCore(r, from);
      case DoSetMode(mode) => SettingsCore(r, r.(edgeMode := mode));
      case DoSetStyle(style) => SettingsCore(r, r.(doubleStyle := style));
      case DoSetLocked(lock) => SettingsCore(r, r.(locked := lock));
      case DoSetHold(hold) => SettingsCore(r, r.(returnHold := hold));
      case DoSetGrace(grace) => SettingsCore(r, r.(handoffGrace := grace));
    }
  }

  /** Every public operation keeps the invariant, and the local screen never changes. */
  lemma ApplyKeepsCore(r: Router, act: Act)
    requires Core(r) && Sound(r.localScreen, act)
    ensures Core(Apply(r, act))
    ensures Apply(r, act).localScreen == r.localScreen
  {
    assert r.WellFormed();
    if act.op.DoRoute? {
      hide Core, Route;
      RouteCore(r, act.op.event, act.now);
    } else {
      hide Core, Apply;
      QuietInBounds(r, act);
    }
  }

  /** A crossing through this edge lands below its target: a pinned entry reached through the top or the bottom. */
  predicate LandsBelow(r: Router, edge: Edge)
    requires r.WellFormed() && r.CrossingTarget(edge).Some?
  {
    && !edge.Horizontal() && r.doubleStyle != Mirror
    && var target := r.layout.Find(r.CrossingTarget(edge).value).value;
       MapCoordinate(r.x, r.Here().width, target.width) >= target.height
  }

  /** The one step that leaves the screen: a crossing that lands below its target. */
  predicate StrayLanding(r: Router, act: Act)
    requires r.WellFormed()
  {
    && act.op.DoRoute? && act.op.event.MouseMove? && r.active.None?
    && var past := EdgePast(r.x + act.op.event.dx, r.y + act.op.event.dy, r.Here().width, r.Here().height);
       past.Some? && StraysPast(r, past.value, r.x + act.op.event.dx, r.y + act.op.event.dy, act.now)
  }

  predicate StraysPast(r: Router, edge: Edge, nextX: int, nextY: int, now: Instant)
    requires r.WellFormed()
  {
    && !Gated(r, edge, now)
    && PushTotal(r, edge, Overshoot(edge, nextX, nextY, r.Here().width, r.Here().height)) >= EDGE_PUSH_PX
    && LandsBelow(r, edge)
  }

  lemma CrossInBoundsIff(r: Router, edge: Edge, overflow: nat, now: Instant)
    requires Core(r) && r.active.None? && r.CrossingTarget(edge).Some?
    ensures InBounds(Cross(r, edge, overflow, now).0) <==> !LandsBelow(r, edge)
  {
    var target := r.CrossingTarget(edge).value;
    FoundSound(r.layout, target);
    LandingX(r.doubleStyle, edge, r.Here(), r.layout.Find(target).value, r.x, r.y);
    hide Landing, Layout.Valid, Layout.Find, Layout.CrossingTargetFor, MapCoordinate;
  }

  lemma LocalPastInBoundsIff(r: Router, edge: Edge, nextX: int, nextY: int, now: Instant)
    requires Core(r) && r.active.None?
    requires Overshoot(edge, nextX, nextY, r.Here().width, r.Here().height) >= 1
    ensures LocalPast(r, edge, nextX, nextY, now).0.WellFormed()
    ensures InBounds(LocalPast(r, edge, nextX, nextY, now).0) <==> !StraysPast(r, edge, nextX, nextY, now)
  {
    hide Cross, ClampToEdge, PushTotal, Overshoot, InBounds, LandsBelow, Layout.Valid, Layout.Find;
    LocalPastCore(r, edge, nextX, nextY, now);
    var overflow := Overshoot(edge, nextX, nextY, r.Here().width, r.Here().height);
    if !Gated(r, edge, now) && PushTotal(r, edge, overflow) >= EDGE_PUSH_PX {
      CrossInBoundsIff(r, edge, overflow, now);
    }
  }

  lemma LocalMoveInBoundsIff(r: Router, dx: i32, dy: i32, now: Instant)
    requires Core(r) && r.active.None?
    ensures LocalMove(r, dx, dy, now).0.WellFormed()
    ensures InBounds(LocalMove(r, dx, dy, now).0) <==> !StrayLanding(r, Act(DoRoute(MouseMove(dx, dy)), now))
  {
    hide LocalInside, LocalPast, StraysPast, InBounds, Layout.Valid, Layout.Find;
    var past := EdgePast(r.x + dx, r.y + dy, r.Here().width, r.Here().height);
    if past.None? {
      LocalInsideCore(r, r.x + dx, r.y + dy);
    } else {
      LocalPastInBoundsIff(r, past.value, r.x + dx, r.y + dy, now);
    }
  }

  /** From inside, an operation leaves the cursor inside exactly when it is not a stray landing. */
  lemma ApplyInBoundsIff(r: Router, act: Act)
    requires Core(r) && InBounds(r) && Sound(r.localScreen, act)
    ensures Apply(r, act).WellFormed()
    ensures InBounds(Apply(r, act)) <==> !StrayLanding(r, act)
  {
    assert r.WellFormed();
    if act.op.DoRoute? {
      RouteInBoundsIff(r, act.op.event, act.now);
      hide Core, InBounds, StrayLanding, Route;
    } else {
      QuietInBounds(r, act);
      hide Core, InBounds, Apply;
    }
  }

  lemma RouteInBoundsIff(r: Router, event: InputEvent, now: Instant)
    requires Core(r) && InBounds(r)
    ensures Route(r, event, now).0.WellFormed()
    ensures InBounds(Route(r, event, now).0) <==> !StrayLanding(r, Act(DoRoute(event), now))
  {
    assert r.WellFormed();
    if event.MouseMove? {
      if r.active.Some? {
        DriveMoveCore(r, event.dx, event.dy, now);
        hide DriveMove, LocalMove, InBounds;
      } else {
        LocalMoveInBoundsIff(r, event.dx, event.dy, now);
        hide DriveMove, LocalMove, InBounds, StrayLanding;
      }
    }
  }

  // ---- runs ----------------------------------------------------------------------------------

  predicate AllSound(me: ScreenId, acts: seq<Act>) {
    forall i :: 0 <= i < |acts| ==> Sound(me, acts[i])
  }

  /** The router after a run of operations. */
  function After(r: Router, acts: seq<Act>): (end: Router)
    requires Core(r) && AllSound(r.localScreen, acts)
    ensures Core(end) && end.WellFormed() && end.localScreen == r.localScreen
  {
    if acts == [] then r
    else
      var before := After(r, acts[..|acts| - 1]);
      ApplyKeepsCore(before, acts[|acts| - 1]);
      Apply(before, acts[|acts| - 1])
  }

  /** What the router answered to the n-th operation of a run. */
  function Answer(r: Router, acts: seq<Act>, n: nat): Option<Routed>
    requires Core(r) && AllSound(r.localScreen, acts) && n < |acts|
  {
    Output(After(r, acts[..n]), acts[n])
  }

  lemma AfterNone(r: Router, acts: seq<Act>)
    requires Core(r) && AllSound(r.localScreen, acts)
    ensures After(r, acts[..0]) == r
  {
  }

  lemma Unroll(r: Router, acts: seq<Act>, n: nat)
    requires Core(r) && AllSound(r.localScreen, acts) && n < |acts|
    ensures After(r, acts[..n + 1]) == Apply(After(r, acts[..n]), acts[n])
    ensures acts[n].op.DoRoute? ==>
              && After(r, acts[..n + 1]) == Route(After(r, acts[..n]), acts[n].op.event, acts[n].now).0
              && Answer(r, acts, n) == Some(Route(After(r, acts[..n]), acts[n].op.event, acts[n].now).1)
  {
    hide Core, Route, Layout.Valid, Layout.Find;
    assert acts[..n + 1][..n] == acts[..n];
  }
}
