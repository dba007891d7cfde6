/** The arranged grid of screens: validation, neighbours, and the stateless crossing rule. */
module Layouts {
  import opened Basics
  import opened Geometry

  type ScreenId = u32

  datatype Screen = Screen(
    id: ScreenId,
    name: string,
    x: int,
    y: int,
    width: u32,
    height: u32,
    peer: Option<string>)

  datatype LayoutError =
    | TooManyScreens
    | EmptyName(screen: ScreenId)
    | EmptyGeometry(screen: ScreenId)
    | DuplicateId(screen: ScreenId)
    | DuplicatePosition(x: int, y: int)
    | MissingSelf(screen: ScreenId)

  datatype PlaceError = NoLocalScreen | Occupied | NoSuchPeer

  datatype EdgeHandoff = EdgeHandoff(
    from: ScreenId, target: ScreenId, edge: Edge, targetX: u32, targetY: u32)

  const MAX_SCREENS := 64

  /** The characters that trimming strips (Unicode White_Space). */
  predicate IsWhitespace(c: char) {
    var n := c as int;
    || 0x09 <= n <= 0x0d || n == 0x20 || n == 0x85 || n == 0xa0 || n == 0x1680
    || 0x2000 <= n <= 0x200a || n == 0x2028 || n == 0x2029 || n == 0x202f
    || n == 0x205f || n == 0x3000
  }

  predicate Blank(name: string) {
    forall i :: 0 <= i < |name| ==> IsWhitespace(name[i])
  }

  predicate SoundScreen(s: Screen) {
    !Blank(s.name) && s.width > 0 && s.height > 0
  }

  predicate Apart(a: Screen, b: Screen) {
    a.id != b.id && (a.x, a.y) != (b.x, b.y)
  }

  /** Index of the first screen with an id; the length when there is none. */
  function IndexById(screens: seq<Screen>, id: ScreenId): (i: nat)
    ensures i <= |screens|
    ensures i < |screens| ==> screens[i].id == id
    ensures forall k :: 0 <= k < i ==> screens[k].id != id
  {
    if screens == [] || screens[0].id == id then 0 else 1 + IndexById(screens[1..], id)
  }

  /** Index of the first screen at a grid position; the length when there is none. */
  function IndexAt(screens: seq<Screen>, x: int, y: int): (i: nat)
    ensures i <= |screens|
    ensures i < |screens| ==> screens[i].x == x && screens[i].y == y
    ensures forall k :: 0 <= k < i ==> (screens[k].x, screens[k].y) != (x, y)
  {
    if screens == [] || (screens[0].x == x && screens[0].y == y) then 0 else 1 + IndexAt(screens[1..], x, y)
  }

  /** Index of the first screen paired to a fingerprint; the length when there is none. */
  function IndexByPeer(screens: seq<Screen>, fingerprint: string): (i: nat)
    ensures i <= |screens|
    ensures i < |screens| ==> screens[i].peer == Some(fingerprint)
    ensures forall k :: 0 <= k < i ==> screens[k].peer != Some(fingerprint)
  {
    if screens == [] || screens[0].peer == Some(fingerprint) then 0 else 1 + IndexByPeer(screens[1..], fingerprint)
  }

  /** The screens linked to a peer, in order. */
  function PeerScreens(screens: seq<Screen>): (peers: seq<Screen>)
    ensures forall p :: p in peers <==> p in screens && p.peer.Some?
  {
    if screens == [] then []
    else
      var last := screens[|screens| - 1];
      assert screens == screens[..|screens| - 1] + [last];
      PeerScreens(screens[..|screens| - 1]) + if last.peer.Some? then [last] else []
  }

  /** The grid step that leads through an edge. */
  function GridStep(edge: Edge): (int, int) {
    match edge
    case Left => (-1, 0)
    case Right => (1, 0)
    case Top => (0, -1)
    case Bottom => (0, 1)
  }

  /** Landing coordinates for a crossing edge: inset on the crossing axis, mapped along it. */
  function EntryTargetCoords(edge: Edge, target: Screen, mapped: u32): (u32, u32) {
    match edge
    case Left => (Max(0, target.width - 1 - ENTRY_INSET_PX), mapped)
    case Right => (Min(ENTRY_INSET_PX, Max(0, target.width - 1)), mapped)
    case Top => (mapped, Max(0, target.height - 1 - ENTRY_INSET_PX))
    case Bottom => (mapped, Min(ENTRY_INSET_PX, Max(0, target.height - 1)))
  }

  /** Where a crossing through `edge` from (x, y) on `source` lands on `target`. */
  function Landing(style: DoubleEdgeStyle, edge: Edge, source: Screen, target: Screen, x: u32, y: u32): (u32, u32) {
    var mapped :=
      if edge.Horizontal() then MapCoordinate(y, source.height, target.height)
      else MapCoordinate(x, source.width, target.width);
    EntryTargetCoords(style.EntryForExit(edge).Opposite(), target, mapped)
  }

  datatype Layout = Layout(screens: seq<Screen>, selfScreen: Option<ScreenId>) {

    predicate Valid() {
      && |screens| <= MAX_SCREENS
      && (forall i :: 0 <= i < |screens| ==> SoundScreen(screens[i]))
      && (forall i, j :: 0 <= i < j < |screens| ==> Apart(screens[i], screens[j]))
      && (selfScreen.Some? ==> Find(selfScreen.value).Some?)
    }

    function Find(id: ScreenId): (r: Option<Screen>)
      ensures r.Some? ==> r.value in screens && r.value.id == id
      ensures r.None? ==> forall s :: s in screens ==> s.id != id
    {
      var i := IndexById(screens, id);
      if i < |screens| then Some(screens[i]) else None
    }

    function NeighborForEdge(me: ScreenId, edge: Edge): (r: Option<ScreenId>)
      ensures r.Some? ==> Find(r.value).Some?
    {
      var mine := Find(me);
      if mine.None? then None
      else
        var i := IndexAt(screens, mine.value.x + GridStep(edge).0, mine.value.y + GridStep(edge).1);
        if i < |screens| then Some(screens[i].id) else None
    }

    /** The lone linked peer screen; none when there are several or none at all. */
    function SinglePeerScreen(): (r: Option<ScreenId>)
      ensures r.Some? ==> Find(r.value).Some?
    {
      var peers := PeerScreens(screens);
      if |peers| == 1 then
        assert peers[0] in peers;
        Some(peers[0].id)
      else None
    }

    /** Grid neighbour first; in Double mode a lone peer also lies past both horizontal edges. */
    function CrossingTargetFor(me: ScreenId, edge: Edge, mode: EdgeMode): (r: Option<ScreenId>)
      ensures r.Some? ==> Find(r.value).Some?
    {
      var neighbour := NeighborForEdge(me, edge);
      if neighbour.Some? then neighbour
      else if mode == Double && edge.Horizontal() then
        var peer := SinglePeerScreen();
        if peer.Some? && peer.value != me then peer else None
      else None
    }

    /** The stateless crossing rule a receiver uses to request the next hop. */
    function HandoffForMotion(id: ScreenId, x: u32, y: u32, dx: i32, dy: i32,
                              mode: EdgeMode, style: DoubleEdgeStyle): Option<EdgeHandoff>
      requires Valid()
    {
      var found := Find(id);
      if found.None? then None
      else
        var screen := found.value;
        var cx, cy := Min(x, screen.width - 1), Min(y, screen.height - 1);
        var edge := EdgePast(cx + dx, cy + dy, screen.width, screen.height);
        if edge.None? then None
        else
          var target := CrossingTargetFor(id, edge.value, mode);
          if target.None? then None
          else
            var landing := Landing(style, edge.value, screen, Find(target.value).value, cx, cy);
            Some(EdgeHandoff(id, target.value, edge.value, landing.0, landing.1))
    }

    /** Adopt measured dimensions for one screen; none when the id is unknown or a dimension is zero. */
    function SetScreenSize(id: ScreenId, width: u32, height: u32): Option<Layout> {
      var i := IndexById(screens, id);
      if width == 0 || height == 0 || i == |screens| then None
      else Some(this.(screens := screens[i := screens[i].(width := width, height := height)]))
    }

    /** Move a linked peer to one side of the local screen. */
    function PlacePeer(fingerprint: string, side: Edge): Result<Layout, PlaceError> {
      var me := if selfScreen.Some? then Find(selfScreen.value) else None;
      if me.None? then Err(NoLocalScreen)
      else
        var x, y := me.value.x + GridStep(side).0, me.value.y + GridStep(side).1;
        var i := IndexByPeer(screens, fingerprint);
        if exists s :: s in screens && s.peer != Some(fingerprint) && s.x == x && s.y == y then Err(Occupied)
        else if i == |screens| then Err(NoSuchPeer)
        else Ok(this.(screens := screens[i := screens[i].(x := x, y := y)]))
    }
  }

  /** What each validation error reports. */
  ghost predicate Reports(layout: Layout, e: LayoutError) {
    match e
    case TooManyScreens => |layout.screens| > MAX_SCREENS
    case EmptyName(id) => exists s :: s in layout.screens && s.id == id && Blank(s.name)
    case EmptyGeometry(id) => exists s :: s in layout.screens && s.id == id && (s.width == 0 || s.height == 0)
    case DuplicateId(id) =>
      exists i, j :: 0 <= i < j < |layout.screens| && layout.screens[i].id == layout.screens[j].id == id
    case DuplicatePosition(x, y) =>
      exists i, j :: 0 <= i < j < |layout.screens|
        && layout.screens[i].x == layout.screens[j].x == x && layout.screens[i].y == layout.screens[j].y == y
    case MissingSelf(id) => layout.selfScreen == Some(id) && layout.Find(id).None?
  }

  method Validate(layout: Layout) returns (r: Result<(), LayoutError>)
    ensures r.Ok? <==> layout.Valid()
    ensures r.Err? ==> Reports(layout, r.error)
  {
    if |layout.screens| > MAX_SCREENS {
      return Err(TooManyScreens);
    }
    var ids: set<ScreenId> := {};
    var positions: set<(int, int)> := {};
    for n := 0 to |layout.screens|
      invariant ids == set i | 0 <= i < n :: layout.screens[i].id
      invariant positions == set i | 0 <= i < n :: (layout.screens[i].x, layout.screens[i].y)
      invariant forall i :: 0 <= i < n ==> SoundScreen(layout.screens[i])
      invariant forall i, j :: 0 <= i < j < n ==> Apart(layout.screens[i], layout.screens[j])
    {
      var screen := layout.screens[n];
      assert screen in layout.screens;
      if Blank(screen.name) {
        return Err(EmptyName(screen.id));
      }
      if screen.width == 0 || screen.height == 0 {
        return Err(EmptyGeometry(screen.id));
      }
      if screen.id in ids {
        return Err(DuplicateId(screen.id));
      }
      ids := ids + {screen.id};
      if (screen.x, screen.y) in positions {
        return Err(DuplicatePosition(screen.x, screen.y));
      }
      positions := positions + {(screen.x, screen.y)};
    }
    if layout.selfScreen.Some? && layout.selfScreen.value !in ids {
      return Err(MissingSelf(layout.selfScreen.value));
    }
    return Ok(());
  }

  /** The counting loop behind the lone-peer rule. */
  method FindSinglePeer(layout: Layout) returns (found: Option<ScreenId>)
    ensures found == layout.SinglePeerScreen()
  {
    found := None;
    for n := 0 to |layout.screens|
      invariant |PeerScreens(layout.screens[..n])| <= 1
      invariant found == if |PeerScreens(layout.screens[..n])| == 1
                         then Some(PeerScreens(layout.screens[..n])[0].id) else None
    {
      assert layout.screens[..n + 1][..n] == layout.screens[..n];
      if layout.screens[n].peer.Some? {
        if found.Some? {
          MorePeers(layout.screens, n + 1);
          return None;
        }
        found := Some(layout.screens[n].id);
      }
    }
    assert layout.screens[..|layout.screens|] == layout.screens;
  }

  lemma {:induction false} MorePeers(screens: seq<Screen>, n: nat)
    requires n <= |screens|
    ensures |PeerScreens(screens[..n])| <= |PeerScreens(screens)|
    decreases |screens| - n
  {
    if n < |screens| {
      assert screens[..n + 1][..n] == screens[..n];
      MorePeers(screens, n + 1);
    } else {
      assert screens[..n] == screens;
    }
  }

  lemma SamePlace(layout: Layout, i: nat, j: nat)
    requires layout.Valid() && i < |layout.screens| && j < |layout.screens|
    requires !Apart(layout.screens[i], layout.screens[j])
    ensures i == j
  {
    assert Apart(layout.screens[i], layout.screens[j]) <==> Apart(layout.screens[j], layout.screens[i]);
  }

  /** In a valid layout an id names one screen. */
  lemma FindUnique(layout: Layout, s: Screen)
    requires layout.Valid() && s in layout.screens
    ensures layout.Find(s.id) == Some(s)
  {
    var k :| 0 <= k < |layout.screens| && layout.screens[k] == s;
    SamePlace(layout, k, IndexById(layout.screens, s.id));
  }

  /** In a valid layout every screen found has real dimensions. */
  lemma FoundSound(layout: Layout, id: ScreenId)
    requires layout.Valid() && layout.Find(id).Some?
    ensures layout.Find(id).value.width > 0 && layout.Find(id).value.height > 0
  {
    assert SoundScreen(layout.screens[IndexById(layout.screens, id)]);
  }

  /** In a valid layout a grid position holds one screen. */
  lemma PositionUnique(layout: Layout, s: Screen)
    requires layout.Valid() && s in layout.screens
    ensures IndexAt(layout.screens, s.x, s.y) < |layout.screens|
    ensures layout.screens[IndexAt(layout.screens, s.x, s.y)] == s
  {
    var k :| 0 <= k < |layout.screens| && layout.screens[k] == s;
    SamePlace(layout, k, IndexAt(layout.screens, s.x, s.y));
  }

  /** The screen one grid step away through an edge. */
  ghost predicate OneStep(a: Screen, b: Screen, edge: Edge) {
    b.x == a.x + GridStep(edge).0 && b.y == a.y + GridStep(edge).1
  }

  /** In a valid layout the neighbour is exactly the screen one grid step away. */
  lemma NeighborIff(layout: Layout, a: ScreenId, b: ScreenId, edge: Edge)
    requires layout.Valid()
    ensures layout.NeighborForEdge(a, edge) == Some(b) <==>
            && layout.Find(a).Some? && layout.Find(b).Some?
            && OneStep(layout.Find(a).value, layout.Find(b).value, edge)
  {
    hide Layout.Valid, GridStep;
    var sb := layout.Find(b);
    if sb.Some? {
      PositionUnique(layout, sb.value);
    }
    if layout.NeighborForEdge(a, edge) == Some(b) {
      NeighborIsOneStep(layout, a, b, edge);
    }
  }

  lemma NeighborIsOneStep(layout: Layout, a: ScreenId, b: ScreenId, edge: Edge)
    requires layout.Valid() && layout.NeighborForEdge(a, edge) == Some(b)
    ensures layout.Find(a).Some? && layout.Find(b).Some? && OneStep(layout.Find(a).value, layout.Find(b).value, edge)
  {
    hide Layout.Valid, GridStep;
    var me := layout.Find(a).value;
    FindUnique(layout, layout.screens[IndexAt(layout.screens, me.x + GridStep(edge).0, me.y + GridStep(edge).1)]);
  }

  /** Grid symmetry: b lies through a's edge exactly when a lies through b's opposite edge. */
  lemma NeighborSymmetric(layout: Layout, a: ScreenId, b: ScreenId, edge: Edge)
    requires layout.Valid()
    ensures layout.NeighborForEdge(a, edge) == Some(b) <==> layout.NeighborForEdge(b, edge.Opposite()) == Some(a)
  {
    NeighborIff(layout, a, b, edge);
    NeighborIff(layout, b, a, edge.Opposite());
  }

  /** A crossing never targets the screen it leaves. */
  lemma CrossingLeaves(layout: Layout, me: ScreenId, edge: Edge, mode: EdgeMode)
    requires layout.Valid()
    ensures layout.CrossingTargetFor(me, edge, mode) != Some(me)
  {
    NeighborIff(layout, me, me, edge);
  }

  /** Same screens up to dimensions, in the same order. */
  ghost predicate SameGrid(a: Layout, b: Layout) {
    && |a.screens| == |b.screens|
    && a.selfScreen == b.selfScreen
    && forall i :: 0 <= i < |a.screens| ==>
         a.screens[i].(width := 0, height := 0) == b.screens[i].(width := 0, height := 0)
  }

  /** Measured dimensions change one screen's size and nothing about the grid. */
  lemma SetSizeKeepsGrid(layout: Layout, id: ScreenId, width: u32, height: u32)
    requires layout.Valid()
    ensures layout.SetScreenSize(id, width, height).Some? <==>
            width > 0 && height > 0 && layout.Find(id).Some?
    ensures var r := layout.SetScreenSize(id, width, height);
            r.Some? ==>
              && r.value.Valid()
              && SameGrid(layout, r.value)
              && (forall k: ScreenId :: r.value.Find(k) ==
                    if k == id then Some(layout.Find(id).value.(width := width, height := height)) else layout.Find(k))
  {
    var r := layout.SetScreenSize(id, width, height);
    if r.Some? {
      SameIndexes(layout.screens, r.value.screens);
      var n := r.value.screens;
      forall i, j | 0 <= i < j < |n|
        ensures Apart(n[i], n[j])
      {
        assert Apart(layout.screens[i], layout.screens[j]);
      }
      forall i | 0 <= i < |n|
        ensures SoundScreen(n[i])
      {
        assert SoundScreen(layout.screens[i]);
      }
    }
  }

  lemma {:induction false} SameIndex(a: seq<Screen>, b: seq<Screen>, k: ScreenId)
    requires |a| == |b|
    requires forall i :: 0 <= i < |a| ==> a[i].id == b[i].id
    ensures IndexById(a, k) == IndexById(b, k)
  {
    if |a| > 0 && a[0].id != k {
      SameIndex(a[1..], b[1..], k);
    }
  }

  lemma SameIndexes(a: seq<Screen>, b: seq<Screen>)
    requires |a| == |b|
    requires forall i :: 0 <= i < |a| ==> a[i].id == b[i].id
    ensures forall k: ScreenId :: IndexById(a, k) == IndexById(b, k)
  {
    forall k: ScreenId
      ensures IndexById(a, k) == IndexById(b, k)
    {
      SameIndex(a, b, k);
    }
  }

  /** A second screen with the same fingerprint already on the cell a placement aims at. */
  ghost predicate TwinOnTarget(layout: Layout, fingerprint: string, side: Edge)
    requires layout.selfScreen.Some? && layout.Find(layout.selfScreen.value).Some?
  {
    var me := layout.Find(layout.selfScreen.value).value;
    var i := IndexByPeer(layout.screens, fingerprint);
    exists k :: i < k < |layout.screens| && layout.screens[k].peer == Some(fingerprint)
      && OneStep(me, layout.screens[k], side)
  }

  /**
   * A placement keeps the layout valid exactly when no second screen of that fingerprint sits
   * on the target cell: the collision check skips every screen that carries it.
   */
  lemma PlacePeerValidIff(layout: Layout, fingerprint: string, side: Edge)
    requires layout.Valid()
    requires layout.PlacePeer(fingerprint, side).Ok?
    ensures layout.PlacePeer(fingerprint, side).value.Valid() <==> !TwinOnTarget(layout, fingerprint, side)
  {
    if TwinOnTarget(layout, fingerprint, side) {
      PlacedOnTwin(layout, fingerprint, side);
    } else {
      PlacedApart(layout, fingerprint, side);
      var placed := layout.PlacePeer(fingerprint, side).value;
      SameIndexes(layout.screens, placed.screens);
      forall a | 0 <= a < |placed.screens|
        ensures SoundScreen(placed.screens[a])
      {
        assert SoundScreen(layout.screens[a]);
      }
    }
  }

  lemma PlacedOnTwin(layout: Layout, fingerprint: string, side: Edge)
    requires layout.Valid()
    requires layout.PlacePeer(fingerprint, side).Ok?
    requires TwinOnTarget(layout, fingerprint, side)
    ensures !layout.PlacePeer(fingerprint, side).value.Valid()
  {
    var placed := layout.PlacePeer(fingerprint, side).value;
    var i := IndexByPeer(layout.screens, fingerprint);
    var me := layout.Find(layout.selfScreen.value).value;
    var k :| i < k < |layout.screens| && layout.screens[k].peer == Some(fingerprint)
      && OneStep(me, layout.screens[k], side);
    assert !Apart(placed.screens[i], placed.screens[k]);
  }

  lemma PlacedApart(layout: Layout, fingerprint: string, side: Edge)
    requires layout.Valid()
    requires layout.PlacePeer(fingerprint, side).Ok?
    requires !TwinOnTarget(layout, fingerprint, side)
    ensures var placed := layout.PlacePeer(fingerprint, side).value;
            forall a, b :: 0 <= a < b < |placed.screens| ==> Apart(placed.screens[a], placed.screens[b])
  {
    var placed := layout.PlacePeer(fingerprint, side).value;
    var i := IndexByPeer(layout.screens, fingerprint);
    var me := layout.Find(layout.selfScreen.value).value;
    forall k | 0 <= k < |layout.screens| && k != i
      ensures !OneStep(me, layout.screens[k], side)
    {
      assert layout.screens[k] in layout.screens;
    }
    forall a, b | 0 <= a < b < |placed.screens|
      ensures Apart(placed.screens[a], placed.screens[b])
    {
      assert Apart(layout.screens[a], layout.screens[b]);
    }
  }

  /** A valid placement makes the peer the local screen's neighbour on that side and moves nothing else. */
  lemma PlacePeerOpensEdge(layout: Layout, fingerprint: string, side: Edge)
    requires layout.Valid()
    requires layout.PlacePeer(fingerprint, side).Ok?
    requires !TwinOnTarget(layout, fingerprint, side)
    requires layout.Find(layout.selfScreen.value).value.peer != Some(fingerprint)
    ensures var placed := layout.PlacePeer(fingerprint, side).value;
            var i := IndexByPeer(layout.screens, fingerprint);
            && placed.NeighborForEdge(layout.selfScreen.value, side) == Some(layout.screens[i].id)
            && (forall k :: 0 <= k < |layout.screens| && k != i ==> placed.screens[k] == layout.screens[k])
  {
    PlacePeerValidIff(layout, fingerprint, side);
    PlacedOneStep(layout, fingerprint, side);
    hide Layout.Valid, Layout.Find, Layout.NeighborForEdge, TwinOnTarget, GridStep;
    var placed := layout.PlacePeer(fingerprint, side).value;
    var i := IndexByPeer(layout.screens, fingerprint);
    FindUnique(placed, placed.screens[i]);
    NeighborIff(placed, layout.selfScreen.value, layout.screens[i].id, side);
  }

  /** The placed peer is one grid step from the local screen, which stays where it was. */
  lemma PlacedOneStep(layout: Layout, fingerprint: string, side: Edge)
    requires layout.Valid() && layout.PlacePeer(fingerprint, side).Ok?
    requires layout.Find(layout.selfScreen.value).value.peer != Some(fingerprint)
    ensures var placed := layout.PlacePeer(fingerprint, side).value;
            var i := IndexByPeer(layout.screens, fingerprint);
            var me := placed.Find(layout.selfScreen.value);
            && i < |placed.screens| == |layout.screens| && placed.screens[i].id == layout.screens[i].id
            && me.Some? && OneStep(me.value, placed.screens[i], side)
            && (forall k :: 0 <= k < |layout.screens| && k != i ==> placed.screens[k] == layout.screens[k])
  {
    hide Layout.Valid, GridStep;
    SameIndexes(layout.screens, layout.PlacePeer(fingerprint, side).value.screens);
  }
}
