/** What each public operation besides routing leaves behind, and what the crossing geometry means on the grid. */
module RouterOperations {
  import opened Basics
  import opened Events
  import opened Geometry
  import opened Layouts
  import opened Routers
  import opened RouterInvariant
  import opened RouterCrossing

  /**
   * A layout is valid when it has at most 64 screens, each with a name that is not blank and a real size, no two
   * of them with one id or on one cell, and the screen named local, if any, among them.
   */
  lemma ValidMeans(layout: Layout)
    ensures layout.Valid() <==>
            && |layout.screens| <= 64
            && (forall s :: s in layout.screens ==> !Blank(s.name) && s.width > 0 && s.height > 0)
            && (forall i, j :: 0 <= i < j < |layout.screens| ==>
                  var a, b := layout.screens[i], layout.screens[j];
                  a.id != b.id && !(a.x == b.x && a.y == b.y))
            && (layout.selfScreen.Some? ==> exists s :: s in layout.screens && s.id == layout.selfScreen.value)
  {
    hide Blank;
    assert forall i :: 0 <= i < |layout.screens| ==> layout.screens[i] in layout.screens;
    if layout.selfScreen.Some? && layout.Find(layout.selfScreen.value).Some? {
      assert layout.Find(layout.selfScreen.value).value in layout.screens;
    }
    if layout.Valid() {
      forall s | s in layout.screens
        ensures SoundScreen(s)
      {
        var i :| 0 <= i < |layout.screens| && layout.screens[i] == s;
      }
      forall i, j | 0 <= i < j < |layout.screens|
        ensures Apart(layout.screens[i], layout.screens[j])
      {
      }
    }
  }

  // ---- the grid ------------------------------------------------------------------------------

  /** b lies one cell from a: left and right along x, top and bottom along y, down being positive. */
  predicate Beside(a: Screen, b: Screen, edge: Edge) {
    match edge
    case Left => b.x == a.x - 1 && b.y == a.y
    case Right => b.x == a.x + 1 && b.y == a.y
    case Top => b.x == a.x && b.y == a.y - 1
    case Bottom => b.x == a.x && b.y == a.y + 1
  }

  /** The neighbour through an edge is the screen on the next cell that way. */
  lemma NeighborIsBeside(layout: Layout, a: ScreenId, b: ScreenId, edge: Edge)
    requires layout.Valid()
    ensures layout.NeighborForEdge(a, edge) == Some(b)
        <==> layout.Find(a).Some? && layout.Find(b).Some? && Beside(layout.Find(a).value, layout.Find(b).value, edge)
  {
    NeighborIff(layout, a, b, edge);
    hide Layout.Valid, Layout.Find, Layout.NeighborForEdge;
  }

  /** The i-th of these screens is linked to a peer, and no other is. */
  predicate OnlyLinked(screens: seq<Screen>, i: nat) {
    i < |screens| && screens[i].peer.Some? && forall j :: 0 <= j < |screens| && j != i ==> screens[j].peer.None?
  }

  predicate NoneLinked(screens: seq<Screen>) {
    forall i :: 0 <= i < |screens| ==> screens[i].peer.None?
  }

  /** Exactly one screen is linked to a peer, and this is it. */
  predicate LonePeer(layout: Layout, id: ScreenId) {
    exists i :: 0 <= i < |layout.screens| && layout.screens[i].id == id && OnlyLinked(layout.screens, i)
  }

  lemma {:induction false} NoPeers(screens: seq<Screen>)
    ensures PeerScreens(screens) == [] <==> NoneLinked(screens)
  {
    if screens != [] {
      NoPeers(screens[..|screens| - 1]);
    }
  }

  lemma LinkedSnoc(screens: seq<Screen>, i: nat)
    requires screens != [] && i < |screens|
    ensures var n := |screens| - 1;
            OnlyLinked(screens, i) <==>
            if i == n then screens[n].peer.Some? && NoneLinked(screens[..n])
            else screens[n].peer.None? && OnlyLinked(screens[..n], i)
  {
    var n := |screens| - 1;
    assert forall j :: 0 <= j < n ==> screens[..n][j] == screens[j];
  }

  lemma {:induction false} OnlyPeer(screens: seq<Screen>, i: nat)
    requires OnlyLinked(screens, i)
    ensures PeerScreens(screens) == [screens[i]]
  {
    hide OnlyLinked, NoneLinked;
    LinkedInside(screens, i);
    LinkedSnoc(screens, i);
    var n := |screens| - 1;
    if i == n {
      NoPeers(screens[..n]);
    } else {
      OnlyPeer(screens[..n], i);
    }
  }

  lemma LinkedInside(screens: seq<Screen>, i: nat)
    requires OnlyLinked(screens, i)
    ensures i < |screens|
  {
  }

  lemma {:induction false} FindPeer(screens: seq<Screen>) returns (i: nat)
    requires |PeerScreens(screens)| == 1
    ensures i < |screens| && OnlyLinked(screens, i) && PeerScreens(screens) == [screens[i]]
  {
    hide OnlyLinked, NoneLinked;
    var n := |screens| - 1;
    NoPeers(screens[..n]);
    if screens[n].peer.Some? {
      i := n;
    } else {
      i := FindPeer(screens[..n]);
    }
    LinkedSnoc(screens, i);
  }

  lemma LonePeerIff(layout: Layout, id: ScreenId)
    ensures layout.SinglePeerScreen() == Some(id) <==> LonePeer(layout, id)
  {
    hide PeerScreens, OnlyLinked;
    if |PeerScreens(layout.screens)| == 1 {
      var i := FindPeer(layout.screens);
    }
    if i :| 0 <= i < |layout.screens| && layout.screens[i].id == id && OnlyLinked(layout.screens, i) {
      OnlyPeer(layout.screens, i);
    }
  }

  lemma AnyLonePeer(layout: Layout)
    ensures layout.SinglePeerScreen().Some? <==> exists id: ScreenId :: LonePeer(layout, id)
  {
    hide LonePeer, PeerScreens;
    forall id: ScreenId
      ensures layout.SinglePeerScreen() == Some(id) <==> LonePeer(layout, id)
    {
      LonePeerIff(layout, id);
    }
    if layout.SinglePeerScreen().Some? {
      assert LonePeer(layout, layout.SinglePeerScreen().value);
    }
  }

  /** Through an edge lies the screen on the next cell; in Double, with none there, the sides lead to a lone peer. */
  lemma CrossingLeadsTo(layout: Layout, me: ScreenId, target: ScreenId, edge: Edge, mode: EdgeMode)
    requires layout.Valid() && layout.Find(me).Some?
    ensures layout.CrossingTargetFor(me, edge, mode) == Some(target) <==>
            var mine := layout.Find(me).value;
            || (layout.Find(target).Some? && Beside(mine, layout.Find(target).value, edge))
            || (mode == Double && (edge == Left || edge == Right) && LonePeer(layout, target) && target != me
                && forall s :: s in layout.screens ==> !Beside(mine, s, edge))
  {
    var mine := layout.Find(me).value;
    LonePeerIff(layout, target);
    NoneBeside(layout, me, edge);
    NeighborIsBeside(layout, me, target, edge);
    if layout.Find(target).Some? {
      assert layout.Find(target).value in layout.screens;
    }
    hide Layout.Valid, Layout.Find, Layout.NeighborForEdge, Layout.SinglePeerScreen, LonePeer, Beside;
  }

  lemma NoneBeside(layout: Layout, me: ScreenId, edge: Edge)
    requires layout.Valid() && layout.Find(me).Some?
    ensures layout.NeighborForEdge(me, edge).None?
        <==> forall s :: s in layout.screens ==> !Beside(layout.Find(me).value, s, edge)
  {
    hide Layout.Valid, Beside, Layout.NeighborForEdge, Layout.Find;
    forall s | s in layout.screens
      ensures layout.Find(s.id) == Some(s)
      ensures layout.NeighborForEdge(me, edge) == Some(s.id) <==> Beside(layout.Find(me).value, s, edge)
    {
      FindUnique(layout, s);
      NeighborIsBeside(layout, me, s.id, edge);
    }
    if layout.NeighborForEdge(me, edge).Some? {
      var id := layout.NeighborForEdge(me, edge).value;
      NeighborIsBeside(layout, me, id, edge);
      assert layout.Find(id).value in layout.screens;
    }
  }

  /** While driving, an edge faces home: the pinned one; or mirrored, one with home behind it or a lone peer's side. */
  lemma FacesHomeMeans(r: Router, edge: Edge)
    requires Core(r) && r.active.Some?
    ensures r.FacesHome(edge) <==>
            match r.doubleStyle
            case FixedLeft => edge == Left
            case FixedRight => edge == Right
            case Mirror =>
              || Beside(r.Here(), r.HomeScreen(), edge)
              || (r.edgeMode == Double && (edge == Left || edge == Right)
                  && exists id: ScreenId :: LonePeer(r.layout, id))
  {
    AnyLonePeer(r.layout);
    NeighborIsBeside(r.layout, r.current, r.localScreen, edge);
    hide Layout.Valid, Layout.Find, Layout.NeighborForEdge, Layout.SinglePeerScreen, LonePeer, Beside;
  }

  /** Which edge a position lies past: left or right of the screen wherever it is, else above or below it. */
  lemma PastMeans(x: int, y: int, width: u32, height: u32)
    requires width > 0 && height > 0
    ensures var past := EdgePast(x, y, width, height);
            && (past == Some(Left) <==> x < 0)
            && (past == Some(Right) <==> x >= width)
            && (past == Some(Top) <==> 0 <= x < width && y < 0)
            && (past == Some(Bottom) <==> 0 <= x < width && y >= height)
  {
  }

  /** The stateless rule treats a cursor off the screen as one on its border, and knows nothing of unknown screens. */
  lemma StatelessClamps(
    layout: Layout, id: ScreenId, x: u32, y: u32, dx: i32, dy: i32, mode: EdgeMode, style: DoubleEdgeStyle)
    requires layout.Valid()
    ensures var hop := layout.HandoffForMotion(id, x, y, dx, dy, mode, style);
            if layout.Find(id).None? then hop.None?
            else
              var screen := layout.Find(id).value;
              && screen.width > 0 && screen.height > 0
              && hop == layout.HandoffForMotion(id, Min(x, screen.width - 1), Min(y, screen.height - 1), dx, dy,
                                                mode, style)
  {
    hide Layout.Valid, Layout.Find, Landing, EdgePast, Layout.CrossingTargetFor;
    if layout.Find(id).Some? {
      FoundSound(layout, id);
      var screen := layout.Find(id).value;
      MinTwice(x, screen.width - 1);
      MinTwice(y, screen.height - 1);
      hide Min;
    }
  }

  lemma MinTwice(a: int, b: int)
    ensures Min(Min(a, b), b) == Min(a, b)
  {
  }

  /** A peer is placed unless there is no local screen, another screen has the cell, or the peer has no screen. */
  lemma PlacePeerIff(layout: Layout, fingerprint: string, side: Edge)
    requires layout.Valid()
    ensures var out := layout.PlacePeer(fingerprint, side);
            && (out == Err(PlaceError.NoLocalScreen) <==> layout.selfScreen.None?)
            && (layout.selfScreen.Some? ==>
                  var me := layout.Find(layout.selfScreen.value).value;
                  && (out == Err(Occupied) <==>
                        exists s :: s in layout.screens && s.peer != Some(fingerprint) && Beside(me, s, side))
                  && (out == Err(NoSuchPeer) <==>
                        && (forall s :: s in layout.screens && s.peer != Some(fingerprint) ==> !Beside(me, s, side))
                        && forall s :: s in layout.screens ==> s.peer != Some(fingerprint)))
  {
    hide Layout.Find;
    var i := IndexByPeer(layout.screens, fingerprint);
    assert i < |layout.screens| ==> layout.screens[i] in layout.screens;
  }

  // ---- where crossings land ------------------------------------------------------------------

  /**
   * A handoff lands on the driven screen 32 px inside its entry edge, or as deep as a narrower screen allows,
   * at the proportional place along the edge crossed.
   */
  lemma HandoffLands(r: Router, event: InputEvent, now: Instant)
    requires Core(r) && Route(r, event, now).1.Handoff?
    ensures Core(Route(r, event, now).0)
    ensures var out := Route(r, event, now);
            var s := out.0;
            var entry := r.doubleStyle.EntryForExit(out.1.edge);
            var along := if out.1.edge.Horizontal() then MapCoordinate(r.y, r.Here().height, s.Here().height)
                         else MapCoordinate(r.x, r.Here().width, s.Here().width);
            && out.1.from == r.current && s.current == out.1.target && s.x == out.1.targetX && s.y == out.1.targetY
            && (if entry.Horizontal()
                then s.y == along
                     && s.x == if entry == Left then Min(32, s.Here().width - 1) else Max(0, s.Here().width - 33)
                else s.x == along
                     && s.y == if entry == Top then Min(32, s.Here().height - 1) else Max(0, s.Here().height - 33))
  {
    RouteCore(r, event, now);
    HandoffIsCross(r, event, now);
    var edge := PastEdge(r, event).value;
    var target := r.layout.Find(r.CrossingTarget(edge).value).value;
    FoundSound(r.layout, r.CrossingTarget(edge).value);
    hide Core, Route, Layout.Valid, Layout.Find, Layout.CrossingTargetFor, MapCoordinate, Gated, PushTotal, Overshoot;
    hide Remainder, EdgePast;
    LandsInset(r.doubleStyle, edge, r.Here(), target, r.x, r.y);
    hide Landing;
  }

  lemma LandsInset(style: DoubleEdgeStyle, edge: Edge, source: Screen, target: Screen, x: u32, y: u32)
    requires target.width > 0 && target.height > 0
    ensures var at := Landing(style, edge, source, target, x, y);
            var entry := style.EntryForExit(edge);
            var along := if edge.Horizontal() then MapCoordinate(y, source.height, target.height)
                         else MapCoordinate(x, source.width, target.width);
            if entry.Horizontal()
            then at.1 == along && at.0 == if entry == Left then Min(32, target.width - 1) else Max(0, target.width - 33)
            else
              && at.0 == along
              && at.1 == if entry == Top then Min(32, target.height - 1) else Max(0, target.height - 33)
  {
    hide MapCoordinate;
  }

  /** A return lands on the opposite side of home in mirrored Double, else on the side it left through. */
  lemma LandingEdgeMeans(r: Router, edge: Edge)
    ensures LandingEdge(r, edge) ==
            if r.edgeMode == Double && r.doubleStyle == Mirror && edge == Left then Right
            else if r.edgeMode == Double && r.doubleStyle == Mirror && edge == Right then Left
            else edge
  {
  }

  /** Back on home, 8 px inside an edge or as deep as a narrower screen allows, at the proportional place along it. */
  predicate LandsBack(s: Router, r: Router, landing: Edge, remote: Screen)
    requires r.WellFormed()
  {
    var home := r.HomeScreen();
    var along := if landing.Horizontal() then Min(MapCoordinate(r.y, remote.height, home.height), home.height - 1)
                 else Min(MapCoordinate(r.x, remote.width, home.width), home.width - 1);
    if landing.Horizontal()
    then s.y == along && s.x == if landing == Left then Min(8, home.width - 1) else Max(0, home.width - 9)
    else s.x == along && s.y == if landing == Top then Min(8, home.height - 1) else Max(0, home.height - 9)
  }

  /** Control is back on the local screen, and every run of the drive is over. */
  predicate ControlsHome(s: Router, r: Router) {
    && SameSetup(r, s) && s.current == r.localScreen && s.active.None? && s.entryEdge.None? && !s.returnArmed
    && s.homeX == s.x && s.homeY == s.y && s.pushEdge.None? && s.pushAccum == 0
    && s.returnEdge.None? && s.returnEdgeAccum == 0 && s.returnRunSince.None?
    && s.returnAccum == r.returnAccum && s.startupGate == r.startupGate && s.handoffAt == r.handoffAt
  }

  /** An explicit return through an edge: refused unless that screen is driven, else as a return by pressure lands. */
  lemma RestoreAtEdgeMeans(r: Router, from: ScreenId, edge: Edge, now: Instant)
    requires Core(r)
    ensures var out := RestoreLocalAtEdge(r, from, edge, now);
            && (out.Ok? <==> r.active == Some(from)) && (out.Err? ==> out.error == NotDriving)
            && (out.Ok? ==>
                  && ControlsHome(out.value, r) && LandsBack(out.value, r, LandingEdge(r, edge), r.Here())
                  && out.value.postReturnEdge == Some(LandingEdge(r, edge)) && out.value.postReturnAt == Some(now))
  {
    hide Layout.Valid, Layout.Find, MapCoordinate, LandingEdge;
  }

  /** A failed handoff undone: the column saved at home, the height proportional, and no refractory. */
  lemma RestoreMeans(r: Router, from: ScreenId)
    requires Core(r)
    ensures var out := RestoreLocal(r, from);
            && (out.Ok? <==> r.active == Some(from)) && (out.Err? ==> out.error == NotDriving)
            && (out.Ok? ==>
                  && ControlsHome(out.value, r) && out.value.postReturnEdge.None? && out.value.postReturnAt.None?
                  && out.value.x == r.homeX
                  && out.value.y == Min(MapCoordinate(r.y, r.Here().height, r.HomeScreen().height),
                                        r.HomeScreen().height - 1))
  {
    hide Layout.Valid, Layout.Find, MapCoordinate;
  }

  /** An explicit return to a point: the point clamped into home, the refractory left as it was. */
  lemma ReturnToLocalMeans(r: Router, from: ScreenId, x: u32, y: u32)
    requires Core(r)
    ensures var out := ReturnToLocal(r, from, x, y);
            && (out.Ok? <==> r.active == Some(from)) && (out.Err? ==> out.error == NotDriving)
            && (out.Ok? ==>
                  && ControlsHome(out.value, r)
                  && out.value.postReturnEdge == r.postReturnEdge && out.value.postReturnAt == r.postReturnAt
                  && out.value.x == Min(x, r.HomeScreen().width - 1)
                  && out.value.y == Min(y, r.HomeScreen().height - 1))
  {
    hide Layout.Valid, Layout.Find;
  }

  /** An explicit handoff to a remote: it is driven at the clamped point, armed, with no entry edge and a new stamp. */
  lemma HandoffToMeans(r: Router, target: ScreenId, x: u32, y: u32, now: Instant)
    requires Core(r)
    ensures var out := HandoffTo(r, target, x, y, now);
            && (out.Ok? <==> r.layout.Find(target).Some?) && (out.Err? ==> out.error == UnknownTarget)
            && (out.Ok? ==>
                  var s, screen := out.value.0, r.layout.Find(target).value;
                  && SameSetup(r, s) && s.current == target
                  && screen.width > 0 && screen.height > 0
                  && s.x == Min(x, screen.width - 1) && s.y == Min(y, screen.height - 1)
                  && s.postReturnEdge.None? && s.postReturnAt.None? && s.returnEdge.None? && s.returnEdgeAccum == 0
                  && s.returnRunSince.None? && s.entryEdge.None? && (out.value.1 <==> target != r.localScreen)
                  && (if target == r.localScreen then ControlsHome(s, r)
                      else s.active == Some(target) && s.returnArmed && s.handoffAt == Some(now)
                           && (if r.active.None? then s.homeX == r.x && s.homeY == r.y
                               else s.homeX == r.homeX && s.homeY == r.homeY)))
  {
    if r.layout.Find(target).Some? {
      FoundSound(r.layout, target);
    }
    hide Layout.Valid, Layout.Find;
  }

  // ---- the arrangement and the cursor --------------------------------------------------------

  /** A new router stands in the middle of the screen named local, or of the first, mirrored, Double and open. */
  lemma NewMeans(layout: Layout)
    requires layout.Valid()
    ensures var out := New(layout);
            && (out.Ok? <==> layout.screens != [])
            && (out.Err? ==> out.error == RouterError.NoLocalScreen)
            && (out.Ok? ==>
                  var r := out.value;
                  && r.layout == layout && r.WellFormed() && r.active.None? && r.current == r.localScreen
                  && (if layout.selfScreen.Some? then r.localScreen == layout.selfScreen.value
                      else r.localScreen == layout.screens[0].id)
                  && r.x == r.homeX == r.Here().width / 2 && r.y == r.homeY == r.Here().height / 2
                  && r.edgeMode == Double && r.doubleStyle == Mirror && r.returnHold == 0 && r.handoffGrace == 0
                  && !r.locked && !r.startupGate && r.postReturnEdge.None? && r.handoffAt.None?)
  {
    if layout.screens != [] {
      FindUnique(layout, layout.screens[0]);
    }
    if layout.selfScreen.Some? {
      assert layout.Find(layout.selfScreen.value).value in layout.screens;
    }
    hide Layout.Valid, Layout.Find;
  }

  /** The same cell, name and peer, at the size measured before where the screen was known before. */
  predicate Carried(next: Screen, was: Layout, s: Screen) {
    && s.id == next.id && s.name == next.name && s.x == next.x && s.y == next.y && s.peer == next.peer
    && (if was.Find(next.id).Some?
        then s.width == was.Find(next.id).value.width && s.height == was.Find(next.id).value.height
        else s.width == next.width && s.height == next.height)
  }

  /**
   * A new arrangement is adopted unless a drive is in progress or it lacks the local screen: its screens as
   * given, at measured sizes; the cursor stays where it was on home, clamped, with every run and window over.
   */
  lemma SetLayoutMeans(r: Router, next: Layout)
    requires Core(r) && next.Valid()
    ensures var out := SetLayout(r, next);
            && (out.Ok? <==> r.active.None? && next.Find(r.localScreen).Some?)
            && (out == Err(DriveActive) <==> r.active.Some?)
            && (out.Err? && r.active.None? ==> out.error == LocalScreenMissing)
            && (out.Ok? ==>
                  var s := out.value;
                  && s.WellFormed() && s.layout.selfScreen == next.selfScreen
                  && |s.layout.screens| == |next.screens|
                  && (forall i :: 0 <= i < |next.screens| ==> Carried(next.screens[i], r.layout, s.layout.screens[i]))
                  && s.localScreen == s.current == r.localScreen && s.active.None?
                  && s.x == s.homeX == Min(r.x, s.Here().width - 1) && s.y == s.homeY == Min(r.y, s.Here().height - 1)
                  && s.edgeMode == r.edgeMode && s.doubleStyle == r.doubleStyle && s.locked == r.locked
                  && s.returnHold == r.returnHold && s.handoffGrace == r.handoffGrace && s.startupGate == r.startupGate
                  && s.pushEdge.None? && s.returnEdge.None? && s.returnAccum == 0
                  && s.postReturnEdge.None? && s.postReturnAt.None?)
  {
    hide Layout.Valid, Layout.Find, CarrySizes, Carried;
    assert r.WellFormed();
    hide Core;
    CarrySizesValid(next, r.layout);
    CarriesAll(next, r.layout);
  }

  lemma CarriesAll(next: Layout, was: Layout)
    ensures var carried := CarrySizes(next, was);
            && carried.selfScreen == next.selfScreen && |carried.screens| == |next.screens|
            && forall i :: 0 <= i < |next.screens| ==> Carried(next.screens[i], was, carried.screens[i])
  {
    hide Layout.Find;
  }

  /** An explicit placement: refused during a drive, else the cursor there, clamped, with its runs over. */
  lemma SeedMeans(r: Router, x: u32, y: u32, gate: bool)
    requires Core(r)
    ensures var out := SeedPosition(r, x, y, gate);
            && (out.Ok? <==> r.active.None?) && (out.Err? ==> out.error == DriveActive)
            && (out.Ok? ==>
                  var s := out.value;
                  && SameSetup(r, s) && s.current == r.current && s.active.None? && (!gate ==> !s.startupGate)
                  && s.x == s.homeX == Min(x, r.Here().width - 1) && s.y == s.homeY == Min(y, r.Here().height - 1)
                  && s.pushEdge.None? && s.pushAccum == 0 && s.postReturnEdge.None? && s.postReturnAt.None?)
  {
    hide Layout.Valid, Layout.Find, Router.AtCrossableEdge;
  }

  /**
   * A truth re-pin while local puts the cursor and the saved home at the truth, clamped. A push run loses
   * what the cursor moved away from its edge, unless both axes moved by at most two pixels, and ends at zero.
   */
  lemma ResyncMeans(r: Router, x: u32, y: u32)
    requires Core(r)
    ensures var s := ResyncIfLocal(r, x, y);
            && (r.active.Some? ==> s == r)
            && (r.active.None? ==>
                  && s == r.(x := s.x, y := s.y, homeX := s.x, homeY := s.y,
                             pushEdge := s.pushEdge, pushAccum := s.pushAccum)
                  && s.x == Min(x, r.Here().width - 1) && s.y == Min(y, r.Here().height - 1)
                  && s.WellFormed()
                  && (r.pushEdge.None? ==> s.pushEdge.None? && s.pushAccum == r.pushAccum)
                  && (r.pushEdge.Some? ==>
                        var small := Abs(s.x - r.x) <= 2 && Abs(s.y - r.y) <= 2;
                        var away := s.DistanceHere(r.pushEdge.value) - r.DistanceHere(r.pushEdge.value);
                        if small || away <= 0 then s.pushEdge == r.pushEdge && s.pushAccum == r.pushAccum
                        else if away < r.pushAccum then s.pushEdge == r.pushEdge && s.pushAccum == r.pushAccum - away
                        else s.pushEdge.None? && s.pushAccum == 0))
  {
    hide Layout.Valid, Layout.Find, DistanceFromEdge;
  }

  /** A measured home size: adopted unless zero, the cursor and the saved home clamped into it, the push run over. */
  lemma AdoptLocalMeans(r: Router, width: u32, height: u32)
    requires Core(r)
    ensures var out := AdoptLocalScreenSize(r, width, height);
            && (out.Some? <==> width > 0 && height > 0)
            && (out.Some? ==>
                  var s := out.value;
                  && s.layout.Find(r.localScreen) == Some(r.HomeScreen().(width := width, height := height))
                  && SameGrid(r.layout, s.layout)
                  && (forall k: ScreenId :: k != r.localScreen ==> s.layout.Find(k) == r.layout.Find(k))
                  && s == r.(layout := s.layout, x := Min(r.x, width - 1), y := Min(r.y, height - 1),
                             homeX := Min(r.homeX, width - 1), homeY := Min(r.homeY, height - 1),
                             pushEdge := None, pushAccum := 0))
  {
    SetSizeKeepsGrid(r.layout, r.localScreen, width, height);
    hide Layout.Valid, Layout.Find, SameGrid, Layout.SetScreenSize;
  }

  /** A measured peer size: adopted for the peer's first screen, the cursor clamped when it is there, runs over. */
  lemma AdoptPeerMeans(r: Router, fingerprint: string, width: u32, height: u32)
    requires Core(r)
    ensures var out := AdoptPeerScreenSize(r, fingerprint, width, height);
            var i := IndexByPeer(r.layout.screens, fingerprint);
            && (out.Some? <==> width > 0 && height > 0 && i < |r.layout.screens|)
            && (out.Some? ==>
                  var s, screen := out.value, r.layout.screens[i];
                  && screen.peer == Some(fingerprint)
                  && s.layout.Find(screen.id) == Some(screen.(width := width, height := height))
                  && (forall k: ScreenId :: k != screen.id ==> s.layout.Find(k) == r.layout.Find(k))
                  && s == r.(layout := s.layout, x := s.x, y := s.y, returnAccum := 0, pushEdge := None, pushAccum := 0,
                             returnEdge := None, returnEdgeAccum := 0, returnRunSince := None)
                  && (if r.current == screen.id then s.x == Min(r.x, width - 1) && s.y == Min(r.y, height - 1)
                      else s.x == r.x && s.y == r.y))
  {
    var i := IndexByPeer(r.layout.screens, fingerprint);
    if i < |r.layout.screens| {
      FindUnique(r.layout, r.layout.screens[i]);
      SetSizeKeepsGrid(r.layout, r.layout.screens[i].id, width, height);
    }
    hide Layout.Valid, Layout.Find, SameGrid, Layout.SetScreenSize;
  }
}
