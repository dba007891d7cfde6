/** The stateful edge router: operations in place, each proved to compute its function in Routers. */
module EdgeRouters {
  import opened Basics
  import opened Events
  import opened Geometry
  import opened Layouts
  import opened Routers

  /** Where the virtual cursor is. */
  datatype Cursor = Cursor(screen: ScreenId, x: u32, y: u32)

  datatype Spot = Spot(x: u32, y: u32)

  /** The Schmitt-trigger return of the drive in progress. */
  datatype Drive = Drive(
    entryEdge: Option<Edge>,
    returnArmed: bool,
    returnAccum: int,
    returnEdge: Option<Edge>,
    returnEdgeAccum: int,
    returnRunSince: Option<Instant>,
    handoffAt: Option<Instant>)

  /** The outward run toward one edge. */
  datatype Push = Push(edge: Option<Edge>, accum: int)

  datatype Settings = Settings(
    edgeMode: EdgeMode, doubleStyle: DoubleEdgeStyle, returnHold: nat, handoffGrace: nat, locked: bool)

  /** The fresh-entry gate and the post-return refractory. */
  datatype Gates = Gates(startup: bool, postReturnEdge: Option<Edge>, postReturnAt: Option<Instant>)

  const NO_PUSH := Push(None, 0)

  /** A crossing ends the push run, whatever it had saved up. */
  lemma CrossIgnoresPush(r: Router, edge: Edge, overflow: nat, now: Instant, accum: int)
    requires r.WellFormed() && r.CrossingTarget(edge).Some?
    ensures var saved := r.(pushEdge := Some(edge), pushAccum := accum);
            && saved.WellFormed() && saved.CrossingTarget(edge) == r.CrossingTarget(edge)
            && Cross(saved, edge, overflow, now) == Cross(r, edge, overflow, now)
  {
    hide Layout.Valid, Layout.Find;
  }

  class EdgeRouter {
    var layout: Layout
    var localScreen: ScreenId
    var cursor: Cursor
    var localCursor: Spot
    var activeRemote: Option<ScreenId>
    var drive: Drive
    var push: Push
    var settings: Settings
    var gates: Gates

    function State(): Router
      reads this
    {
      Router(layout, localScreen, cursor.screen, cursor.x, cursor.y, localCursor.x, localCursor.y,
        activeRemote, drive.entryEdge, drive.returnArmed, drive.returnAccum, drive.returnEdge, drive.returnEdgeAccum,
        settings.edgeMode, settings.doubleStyle, push.edge, push.accum, settings.returnHold, drive.returnRunSince,
        settings.handoffGrace, drive.handoffAt, settings.locked, gates.startup,
        gates.postReturnEdge, gates.postReturnAt)
    }

    predicate Valid()
      reads this
    {
      State().WellFormed()
    }

    constructor (state: Router)
      requires state.WellFormed()
      ensures State() == state && Valid()
    {
      layout := state.layout;
      localScreen := state.localScreen;
      cursor := Cursor(state.current, state.x, state.y);
      localCursor := Spot(state.homeX, state.homeY);
      activeRemote := state.active;
      drive := Drive(state.entryEdge, state.returnArmed, state.returnAccum, state.returnEdge,
        state.returnEdgeAccum, state.returnRunSince, state.handoffAt);
      push := Push(state.pushEdge, state.pushAccum);
      settings := Settings(state.edgeMode, state.doubleStyle, state.returnHold, state.handoffGrace, state.locked);
      gates := Gates(state.startupGate, state.postReturnEdge, state.postReturnAt);
    }

    /** A router for a validated layout, or the reason there is none. */
    static method Create(layout: Layout) returns (r: Result<EdgeRouter, RouterError>)
      ensures layout.Valid() ==>
                match New(layout)
                case Ok(state) => r.Ok? && fresh(r.value) && r.value.Valid() && r.value.State() == state
                case Err(e) => r == Err(e)
      ensures !layout.Valid() ==> r.Err? && r.error.BadLayout? && Reports(layout, r.error.cause)
    {
      var checked := Validate(layout);
      if checked.Err? {
        return Err(BadLayout(checked.error));
      }
      var state := New(layout);
      if state.Err? {
        return Err(state.error);
      }
      var router := new EdgeRouter(state.value);
      return Ok(router);
    }

    // ---- settings ----------------------------------------------------------------------------

    method SetReturnHold(hold: nat)
      requires Valid()
      modifies this`settings
      ensures Valid() && State() == old(State()).(returnHold := hold)
    {
      settings := settings.(returnHold := hold);
    }

    method SetHandoffGrace(grace: nat)
      requires Valid()
      modifies this`settings
      ensures Valid() && State() == old(State()).(handoffGrace := grace)
    {
      settings := settings.(handoffGrace := grace);
    }

    method SetLocked(lock: bool)
      requires Valid()
      modifies this`settings
      ensures Valid() && State() == old(State()).(locked := lock)
    {
      settings := settings.(locked := lock);
    }

    method SetEdgeMode(mode: EdgeMode)
      requires Valid()
      modifies this`settings
      ensures Valid() && State() == old(State()).(edgeMode := mode)
    {
      settings := settings.(edgeMode := mode);
    }

    method SetDoubleStyle(style: DoubleEdgeStyle)
      requires Valid()
      modifies this`settings
      ensures Valid() && State() == old(State()).(doubleStyle := style)
    {
      settings := settings.(doubleStyle := style);
    }

    method SetLayout(next: Layout) returns (r: Result<(), RouterError>)
      requires Valid()
      modifies this
      ensures Valid()
      ensures next.Valid() ==>
                match Routers.SetLayout(old(State()), next)
                case Ok(state) => r.Ok? && State() == state
                case Err(e) => r == Err(e) && State() == old(State())
      ensures !next.Valid() ==>
                r.Err? && r.error.BadLayout? && Reports(next, r.error.cause) && State() == old(State())
    {
      hide Layout.Find;
      var checked := Validate(next);
      if checked.Err? {
        return Err(BadLayout(checked.error));
      }
      if activeRemote.Some? {
        return Err(DriveActive);
      }
      if next.Find(localScreen).None? {
        return Err(LocalScreenMissing);
      }
      CarrySizesValid(next, layout);
      layout := CarryMeasured(next, layout);
      var home := layout.Find(localScreen).value;
      assert home.width > 0 && home.height > 0 by {
        assert SoundScreen(layout.screens[IndexById(layout.screens, localScreen)]);
      }
      cursor := Cursor(localScreen, Min(cursor.x, home.width - 1), Min(cursor.y, home.height - 1));
      localCursor := Spot(cursor.x, cursor.y);
      drive := drive.(entryEdge := None, returnArmed := false, returnAccum := 0, returnEdge := None,
          returnEdgeAccum := 0);
      push := NO_PUSH;
      gates := gates.(postReturnEdge := None, postReturnAt := None);
      return Ok(());
    }

    /** Measured sizes carried over, screen by screen, into a new arrangement. */
    static method CarryMeasured(next: Layout, was: Layout) returns (carried: Layout)
      ensures carried == CarrySizes(next, was)
    {
      var screens := next.screens;
      for i := 0 to |screens|
        invariant |screens| == |next.screens|
        invariant forall k :: 0 <= k < i ==> screens[k] == CarrySizes(next, was).screens[k]
        invariant forall k :: i <= k < |screens| ==> screens[k] == next.screens[k]
      {
        var measured := was.Find(screens[i].id);
        if measured.Some? {
          screens := screens[i := screens[i].(width := measured.value.width, height := measured.value.height)];
        }
      }
      carried := next.(screens := screens);
    }

    method SeedPosition(x: u32, y: u32, applyGate: bool) returns (r: Result<(), RouterError>)
      requires Valid()
      modifies this
      ensures Valid()
      ensures match Routers.SeedPosition(old(State()), x, y, applyGate)
              case Ok(state) => r.Ok? && State() == state
              case Err(e) => r == Err(e) && State() == old(State())
    {
      if activeRemote.Some? {
        return Err(DriveActive);
      }
      var home := State().HomeScreen();
      cursor := cursor.(x := Min(x, home.width - 1), y := Min(y, home.height - 1));
      localCursor := Spot(cursor.x, cursor.y);
      push := NO_PUSH;
      gates := gates.(postReturnEdge := None, postReturnAt := None);
      gates := gates.(startup := applyGate && State().AtCrossableEdge(cursor.x, cursor.y));
      return Ok(());
    }

    method SetLocalCursorPosition(x: u32, y: u32) returns (r: Result<(), RouterError>)
      requires Valid()
      modifies this
      ensures Valid()
      ensures match Routers.SeedPosition(old(State()), x, y, true)
              case Ok(state) => r.Ok? && State() == state
              case Err(e) => r == Err(e) && State() == old(State())
    {
      r := SeedPosition(x, y, true);
    }

    method PlaceLocalCursor(x: u32, y: u32) returns (r: Result<(), RouterError>)
      requires Valid()
      modifies this
      ensures Valid()
      ensures match Routers.SeedPosition(old(State()), x, y, false)
              case Ok(state) => r.Ok? && State() == state
              case Err(e) => r == Err(e) && State() == old(State())
    {
      r := SeedPosition(x, y, false);
    }

    method ResyncIfLocal(x: u32, y: u32)
      requires Valid()
      modifies this
      ensures Valid() && State() == Routers.ResyncIfLocal(old(State()), x, y)
    {
      if activeRemote.Some? || cursor.screen != localScreen {
        return;
      }
      var home := State().HomeScreen();
      var oldX, oldY := cursor.x, cursor.y;
      var pinnedX: u32, pinnedY: u32 := Min(x, home.width - 1), Min(y, home.height - 1);
      var moved := Max(Abs(pinnedX - cursor.x), Abs(pinnedY - cursor.y));
      cursor := cursor.(x := pinnedX, y := pinnedY);
      localCursor := Spot(cursor.x, cursor.y);
      if moved > RESYNC_DIVERGE_PX && push.edge.Some? {
        var before: int := DistanceFromEdge(push.edge.value, oldX, oldY, home.width, home.height);
        var after: int := DistanceFromEdge(push.edge.value, pinnedX, pinnedY, home.width, home.height);
        var left := push.accum - Max(0, after - before);
        push := if left <= 0 then NO_PUSH else push.(accum := left);
      }
    }

    method AdoptLocalScreenSize(width: u32, height: u32) returns (r: Option<(u32, u32)>)
      requires Valid()
      modifies this
      ensures Valid()
      ensures match Routers.AdoptLocalScreenSize(old(State()), width, height)
              case Some(state) => r == Some((width, height)) && State() == state
              case None => r == None && State() == old(State())
    {
      SetSizeKeepsGrid(layout, localScreen, width, height);
      var sized := layout.SetScreenSize(localScreen, width, height);
      if sized.None? {
        return None;
      }
      layout := sized.value;
      var screen := layout.Find(localScreen).value;
      cursor := cursor.(x := Min(cursor.x, screen.width - 1), y := Min(cursor.y, screen.height - 1));
      localCursor := Spot(Min(localCursor.x, screen.width - 1), Min(localCursor.y, screen.height - 1));
      push := NO_PUSH;
      return Some((screen.width, screen.height));
    }

    method AdoptPeerScreenSize(fingerprint: string, width: u32, height: u32) returns (r: Option<(u32, u32)>)
      requires Valid()
      modifies this
      ensures Valid()
      ensures match Routers.AdoptPeerScreenSize(old(State()), fingerprint, width, height)
              case Some(state) => r == Some((width, height)) && State() == state
              case None => r == None && State() == old(State())
    {
      var i := IndexByPeer(layout.screens, fingerprint);
      if i == |layout.screens| {
        return None;
      }
      var id := layout.screens[i].id;
      SetSizeKeepsGrid(layout, id, width, height);
      var sized := layout.SetScreenSize(id, width, height);
      if sized.None? {
        return None;
      }
      layout := sized.value;
      var screen := layout.Find(id).value;
      if cursor.screen == id {
        cursor := cursor.(x := Min(cursor.x, Max(0, screen.width - 1)), y := Min(cursor.y, Max(0, screen.height - 1)));
      }
      push := NO_PUSH;
      drive := drive.(returnAccum := 0, returnEdge := None, returnEdgeAccum := 0, returnRunSince := None);
      return Some((screen.width, screen.height));
    }

    // ---- routing -----------------------------------------------------------------------------

    method Route(event: InputEvent, now: Instant) returns (out: Routed)
      requires Valid()
      modifies this
      ensures Valid() && (State(), out) == Routers.Route(old(State()), event, now)
    {
      if activeRemote.Some? {
        if event.MouseMove? {
          out := DriveMove(event.dx, event.dy, now);
        } else {
          out := Forward(activeRemote.value, event);
        }
        return;
      }
      if !event.MouseMove? {
        return Local(event);
      }
      out := LocalMove(event.dx, event.dy, now);
    }

    method DriveInside(nextX: u32, nextY: u32)
      requires Valid()
      modifies this`cursor, this`drive
      ensures Valid() && State() == Routers.DriveInside(old(State()), nextX, nextY)
    {
      var remote := State().Here();
      cursor := cursor.(x := nextX, y := nextY);
      var runEdge := if drive.returnEdge.Some? then drive.returnEdge else drive.entryEdge;
      if runEdge.None?
        || DistanceFromEdge(runEdge.value, cursor.x, cursor.y, remote.width, remote.height) > SLIDE_PX {
        drive := drive.(returnAccum := 0, returnEdge := None, returnEdgeAccum := 0, returnRunSince := None);
      }
      if !drive.returnArmed {
        if drive.entryEdge.Some? {
          if DistanceFromEdge(drive.entryEdge.value, cursor.x, cursor.y, remote.width, remote.height)
            >= SETTLE_PX {
            drive := drive.(returnArmed := true);
          }
        }
      }
    }

    method Press(edge: Edge, overflow: nat, now: Instant)
      requires Valid()
      modifies this`drive
      ensures Valid() && State() == Routers.Press(old(State()), edge, overflow, now)
    {
      var credit := if drive.returnArmed then overflow else Min(overflow, RETURN_PUSH_PX - 1);
      if drive.returnEdge == Some(edge) {
        drive := drive.(returnEdgeAccum := drive.returnEdgeAccum + credit);
      } else {
        drive := drive.(returnEdge := Some(edge), returnEdgeAccum := credit, returnRunSince := Some(now));
      }
    }

    /** Credits overflow to the escape run. */
    method AddEscape(overflow: nat)
      requires Valid()
      modifies this`drive
      ensures Valid() && State() == old(State()).(returnAccum := old(State()).returnAccum + overflow)
    {
      hide Layout.Valid, Layout.Find;
      drive := drive.(returnAccum := drive.returnAccum + overflow);
    }

    /** Home-ward overflow past the disarmed entry edge. */
    method Escape(edge: Edge, nextX: int, nextY: int, forward: Routed, now: Instant) returns (out: Routed)
      requires Valid() && activeRemote.Some?
      modifies this
      ensures Valid() && (State(), out) == Routers.Escape(old(State()), edge, nextX, nextY, forward, now)
    {
      hide Layout.Valid, Layout.Find, Overshoot, LandAtEdge;
      hide Router.Pinned, SameSetup, Router.InHandoffGrace, Router.WellFormed;
      var remote := State().Here();
      var overflow := Overshoot(edge, nextX, nextY, remote.width, remote.height);
      var grace := State().InHandoffGrace(now);
      AddEscape(overflow);
      if drive.returnAccum >= RETURN_PUSH_PX && !grace {
        out := ReturnThrough(edge, now);
      } else {
        Pin(nextX, nextY);
        out := forward;
      }
    }

    /** Whether the push has reached its threshold, lasted its window and outlived the grace. */
    method PressHeld(now: Instant) returns (complete: bool)
      requires Valid()
      ensures complete == PressComplete(State(), now)
    {
      var held := settings.returnHold == 0
        || (drive.returnRunSince.Some? && Elapsed(drive.returnRunSince.value, now) >= settings.returnHold);
      var grace := State().InHandoffGrace(now);
      var threshold := if drive.returnArmed then RETURN_EDGE_PX else RETURN_PUSH_PX;
      complete := drive.returnEdgeAccum >= threshold && held && !grace;
    }

    /** Overflow past a home-facing edge that is armed or was not entered through. */
    method Shove(edge: Edge, nextX: int, nextY: int, forward: Routed, now: Instant) returns (out: Routed)
      requires Valid() && activeRemote.Some?
      modifies this
      ensures Valid() && (State(), out) == Routers.Shove(old(State()), edge, nextX, nextY, forward, now)
    {
      hide Layout.Valid, Layout.Find, Overshoot, LandAtEdge, Router.Pinned, PressComplete;
      var remote := State().Here();
      var overflow := Overshoot(edge, nextX, nextY, remote.width, remote.height);
      Press(edge, overflow, now);
      ghost var pressed := State();
      assert pressed == Routers.Press(old(State()), edge, overflow, now);
      var complete := PressHeld(now);
      if complete {
        out := ReturnThrough(edge, now);
      } else {
        Pin(nextX, nextY);
        out := forward;
      }
    }

    /** Come home through an edge, reporting the return state as it was before the reset. */
    method ReturnThrough(edge: Edge, now: Instant) returns (out: Routed)
      requires Valid() && activeRemote.Some?
      modifies this
      ensures Valid() && State() == LandAtEdge(old(State()), old(activeRemote).value, edge, now)
      ensures out == ReturnHome(old(cursor).screen, edge, old(drive).entryEdge, old(drive).returnArmed)
    {
      out := ReturnHome(cursor.screen, edge, drive.entryEdge, drive.returnArmed);
      var _ := RestoreLocalAtEdge(activeRemote.value, edge, now);
    }

    /** Stop the driven cursor at the border. */
    method Pin(nextX: int, nextY: int)
      requires Valid()
      modifies this`cursor
      ensures Valid() && State() == old(State()).Pinned(nextX, nextY)
    {
      var screen := State().Here();
      cursor := cursor.(x := Clamp(nextX, 0, screen.width - 1), y := Clamp(nextY, 0, screen.height - 1));
    }

    method DriveMove(dx: i32, dy: i32, now: Instant) returns (out: Routed)
      requires Valid() && activeRemote.Some?
      modifies this
      ensures Valid() && (State(), out) == Routers.DriveMove(old(State()), dx, dy, now)
    {
      var remote := State().Here();
      var nextX, nextY := cursor.x + dx, cursor.y + dy;
      var forward := Forward(activeRemote.value, MouseMove(dx, dy));
      var past := EdgePast(nextX, nextY, remote.width, remote.height);
      if past.None? {
        DriveInside(nextX, nextY);
        return forward;
      }
      var unarmedEntry := drive.entryEdge == past && !drive.returnArmed;
      var facesHome := State().FacesHome(past.value);
      if facesHome && !unarmedEntry {
        out := Shove(past.value, nextX, nextY, forward, now);
        return;
      }
      if facesHome {
        out := Escape(past.value, nextX, nextY, forward, now);
        return;
      }
      drive := drive.(returnAccum := 0, returnEdge := None, returnEdgeAccum := 0, returnRunSince := None);
      Pin(nextX, nextY);
      return forward;
    }

    method LocalInside(nextX: u32, nextY: u32)
      requires Valid()
      modifies this
      ensures Valid() && State() == Routers.LocalInside(old(State()), nextX, nextY)
    {
      var screen := State().Here();
      cursor := cursor.(x := nextX, y := nextY);
      localCursor := Spot(cursor.x, cursor.y);
      var inside := State().NearCrossingEdge(EDGE_PUSH_PX);
      if push.edge.None?
        || DistanceFromEdge(push.edge.value, cursor.x, cursor.y, screen.width, screen.height) > SLIDE_PX {
        push := NO_PUSH;
      }
      if gates.postReturnEdge.Some? {
        if DistanceFromEdge(gates.postReturnEdge.value, cursor.x, cursor.y, screen.width, screen.height)
          >= POST_RETURN_CLEAR_PX {
          gates := gates.(postReturnEdge := None, postReturnAt := None);
        }
      }
      if !inside {
        gates := gates.(startup := false);
      }
    }

    /** Whether a lock, a missing target or a gate holds the cursor at an edge. */
    method IsGated(edge: Edge, now: Instant) returns (gated: bool)
      requires Valid()
      ensures gated == Gated(State(), edge, now)
      ensures !gated ==> State().CrossingTarget(edge).Some?
    {
      hide Layout.Valid, Layout.Find;
      var target := State().CrossingTarget(edge);
      gated := settings.locked
        || target.None?
        || gates.startup
        || (gates.postReturnEdge == Some(edge) && State().PostReturnHolds(now));
    }

    /** Credits one step to the push run; a step from far inside can only arm it. */
    method SavePush(edge: Edge, overflow: nat)
      requires Valid()
      modifies this`push
      ensures State() == old(State()).(pushEdge := Some(edge), pushAccum := PushTotal(old(State()), edge, overflow))
      ensures Valid()
    {
      hide Layout.Valid, Layout.Find;
      var screen := State().Here();
      var near := DistanceFromEdge(edge, cursor.x, cursor.y, screen.width, screen.height)
                  <= PHANTOM_START_GUARD_PX;
      var credit := if near then overflow else Min(overflow, EDGE_PUSH_PX - 1);
      if push.edge == Some(edge) {
        push := push.(accum := push.accum + credit);
      } else {
        push := Push(Some(edge), credit);
      }
    }

    /** A local step past an edge: held by a gate, saved up, or a crossing. */
    method LocalPast(edge: Edge, nextX: int, nextY: int, now: Instant) returns (out: Routed)
      requires Valid()
      modifies this
      ensures Valid() && (State(), out) == Routers.LocalPast(old(State()), edge, nextX, nextY, now)
    {
      hide Layout.Valid, Layout.Find, Gated, PushTotal, Routers.ClampToEdge, Overshoot;
      var gated := IsGated(edge, now);
      if gated {
        push := NO_PUSH;
        out := ClampToEdge(nextX, nextY);
        return;
      }
      var target := State().CrossingTarget(edge).value;
      var screen := State().Here();
      var overflow := Overshoot(edge, nextX, nextY, screen.width, screen.height);
      CrossIgnoresPush(State(), edge, overflow, now, PushTotal(State(), edge, overflow));
      hide Cross;
      SavePush(edge, overflow);
      if push.accum < EDGE_PUSH_PX {
        out := ClampToEdge(nextX, nextY);
        return;
      }
      out := Commit(edge, target, overflow, now);
    }

    method LocalMove(dx: i32, dy: i32, now: Instant) returns (out: Routed)
      requires Valid()
      modifies this
      ensures Valid() && (State(), out) == Routers.LocalMove(old(State()), dx, dy, now)
    {
      hide Layout.Valid, Layout.Find, Routers.LocalInside, Routers.LocalPast;
      var screen := State().Here();
      var nextX, nextY := cursor.x + dx, cursor.y + dy;
      var past := EdgePast(nextX, nextY, screen.width, screen.height);
      if past.None? {
        LocalInside(nextX, nextY);
        return Local(MouseMove(dx, dy));
      }
      out := LocalPast(past.value, nextX, nextY, now);
    }

    /** Where a crossing through `edge` lands on its target. */
    method LandingOn(edge: Edge, target: Screen) returns (x: u32, y: u32)
      requires Valid()
      ensures (x, y) == Landing(settings.doubleStyle, edge, State().Here(), target, cursor.x, cursor.y)
    {
      hide Layout.Valid, Layout.Find, MapCoordinate;
      var screen := State().Here();
      var along := if edge.Horizontal() then cursor.y else cursor.x;
      var sourceSpan := if edge.Horizontal() then screen.height else screen.width;
      var targetSpan := if edge.Horizontal() then target.height else target.width;
      var mapped := MapCoordinate(along, sourceSpan, targetSpan);
      var entry := settings.doubleStyle.EntryForExit(edge);
      var at := EntryTargetCoords(entry.Opposite(), target, mapped);
      return at.0, at.1;
    }

    /** The crossing itself, once the push run has reached its budget. */
    method Commit(edge: Edge, target: ScreenId, overflow: nat, now: Instant) returns (out: Routed)
      requires Valid() && State().CrossingTarget(edge) == Some(target)
      modifies this
      ensures Valid()
      ensures (State(), out) == Cross(old(State()), edge, overflow, now)
    {
      hide Layout.Valid, Layout.Find, Landing, Remainder;
      push := NO_PUSH;
      gates := gates.(postReturnEdge := None, postReturnAt := None);
      var x, y := LandingOn(edge, layout.Find(target).value);
      var from := cursor.screen;
      if from == localScreen {
        localCursor := Spot(cursor.x, cursor.y);
      }
      cursor := cursor.(screen := target, x := x, y := y);
      activeRemote := Some(target);
      drive := drive.(
        entryEdge := Some(settings.doubleStyle.EntryForExit(edge)), returnArmed := false, returnAccum := 0,
        returnEdge := None, returnEdgeAccum := 0, returnRunSince := None, handoffAt := Some(now));
      return Handoff(from, target, edge, x, y, Remainder(edge, overflow));
    }

    method ClampToEdge(nextX: int, nextY: int) returns (out: Routed)
      requires Valid()
      modifies this`cursor, this`localCursor
      ensures Valid() && (State(), out) == Routers.ClampToEdge(old(State()), nextX, nextY)
    {
      var screen := State().Here();
      var previousX, previousY := cursor.x, cursor.y;
      cursor := cursor.(x := Clamp(nextX, 0, screen.width - 1), y := Clamp(nextY, 0, screen.height - 1));
      localCursor := Spot(cursor.x, cursor.y);
      return Local(MouseMove(SaturateI32(cursor.x - previousX), SaturateI32(cursor.y - previousY)));
    }

    // ---- returning control -------------------------------------------------------------------

    /** The reset every way home shares. */
    method ComeHome(x: u32, y: u32)
      requires Valid()
      modifies this
      ensures Valid() && State() == old(State()).AtHome(x, y)
    {
      cursor := cursor.(screen := localScreen, x := x, y := y);
      localCursor := Spot(cursor.x, cursor.y);
      activeRemote := None;
      drive := drive.(entryEdge := None, returnArmed := false);
      push := NO_PUSH;
      drive := drive.(returnEdge := None, returnEdgeAccum := 0, returnRunSince := None);
    }

    method ReturnToLocal(from: ScreenId, x: u32, y: u32) returns (r: Result<(), RouterError>)
      requires Valid()
      modifies this
      ensures Valid()
      ensures match Routers.ReturnToLocal(old(State()), from, x, y)
              case Ok(state) => r.Ok? && State() == state
              case Err(e) => r == Err(e) && State() == old(State())
    {
      if activeRemote != Some(from) {
        return Err(NotDriving);
      }
      var home := State().HomeScreen();
      ComeHome(Min(x, home.width - 1), Min(y, home.height - 1));
      return Ok(());
    }

    method RestoreLocalAtEdge(from: ScreenId, edge: Edge, now: Instant) returns (r: Result<(u32, u32), RouterError>)
      requires Valid()
      modifies this
      ensures Valid()
      ensures match Routers.RestoreLocalAtEdge(old(State()), from, edge, now)
              case Ok(state) => r == Ok((state.x, state.y)) && State() == state
              case Err(e) => r == Err(e) && State() == old(State())
    {
      hide Layout.Valid, Layout.Find, MapCoordinate;
      if activeRemote != Some(from) {
        return Err(NotDriving);
      }
      var home := State().HomeScreen();
      var found := layout.Find(from);
      var remote := if found.Some? then found.value else home;
      var landing := if settings.edgeMode == Double && settings.doubleStyle == Mirror && edge.Horizontal()
                     then edge.Opposite() else edge;
      var landed := ReturnCoords(landing, cursor.x, cursor.y, remote, home);
      ComeHome(Min(landed.0, home.width - 1), Min(landed.1, home.height - 1));
      gates := gates.(postReturnEdge := Some(landing), postReturnAt := Some(now));
      return Ok((cursor.x, cursor.y));
    }

    method RestoreLocal(from: ScreenId) returns (r: Result<(u32, u32), RouterError>)
      requires Valid()
      modifies this
      ensures Valid()
      ensures match Routers.RestoreLocal(old(State()), from)
              case Ok(state) => r == Ok((state.x, state.y)) && State() == state
              case Err(e) => r == Err(e) && State() == old(State())
    {
      if activeRemote != Some(from) {
        return Err(NotDriving);
      }
      var home := State().HomeScreen();
      var found := layout.Find(from);
      var remoteHeight := if found.Some? then found.value.height else home.height;
      var mappedY := MapCoordinate(cursor.y, remoteHeight, home.height);
      ComeHome(Min(localCursor.x, home.width - 1), Min(mappedY, home.height - 1));
      gates := gates.(postReturnEdge := None, postReturnAt := None);
      return Ok((cursor.x, cursor.y));
    }

    method HandoffTo(target: ScreenId, x: u32, y: u32, now: Instant) returns (r: Result<bool, RouterError>)
      requires Valid()
      modifies this
      ensures Valid()
      ensures match Routers.HandoffTo(old(State()), target, x, y, now)
              case Ok((state, driving)) => r == Ok(driving) && State() == state
              case Err(e) => r == Err(e) && State() == old(State())
    {
      var found := layout.Find(target);
      if found.None? {
        return Err(UnknownTarget);
      }
      assert SoundScreen(layout.screens[IndexById(layout.screens, target)]);
      if localScreen == target {
        ComeHome(Min(x, found.value.width - 1), Min(y, found.value.height - 1));
        gates := gates.(postReturnEdge := None, postReturnAt := None);
        return Ok(false);
      }
      if cursor.screen == localScreen {
        localCursor := Spot(cursor.x, cursor.y);
      }
      cursor := cursor.(screen := target, x := Min(x, found.value.width - 1), y := Min(y, found.value.height - 1));
      activeRemote := Some(target);
      drive := drive.(entryEdge := None, returnArmed := true, returnEdge := None, returnEdgeAccum := 0,
          returnRunSince := None);
      gates := gates.(postReturnEdge := None, postReturnAt := None);
      drive := drive.(handoffAt := Some(now));
      return Ok(true);
    }
  }
}
