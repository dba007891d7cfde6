/** No dead clamp: a sustained shove toward an edge comes home exactly when that edge faces home. */
module RouterLiveness {
  import opened Basics
  import opened Events
  import opened Geometry
  import opened Layouts
  import opened Routers
  import opened RouterInvariant
  import opened RouterCrossing

  /** An event of at least one pixel toward an edge; sideways drift is allowed on horizontal edges. */
  predicate Toward(edge: Edge, event: InputEvent) {
    event.MouseMove? &&
    match edge
    case Left => event.dx <= -1
    case Right => event.dx >= 1
    case Top => event.dx == 0 && event.dy <= -1
    case Bottom => event.dx == 0 && event.dy >= 1
  }

  /** A shove with no sideways drift at all. */
  predicate Straight(edge: Edge, event: InputEvent) {
    Toward(edge, event) && (edge.Horizontal() ==> event.dy == 0)
  }

  /** A drive in progress for which an edge faces home. */
  predicate DrivenHome(r: Router, edge: Edge) {
    Core(r) && r.active.Some? && r.FacesHome(edge)
  }

  /** The clock lets a push on this edge return: the grace is over, and the hold too where the edge needs it. */
  predicate Permits(r: Router, edge: Edge, now: Instant) {
    && !r.InHandoffGrace(now)
    && (|| r.UnarmedEntry(edge)
        || r.returnHold == 0
        || (r.returnEdge == Some(edge) && r.returnRunSince.Some?
            && Elapsed(r.returnRunSince.value, now) >= r.returnHold))
  }

  /** Pressure already saved up on an edge. */
  function Saved(r: Router, edge: Edge): int {
    if r.UnarmedEntry(edge) then r.returnAccum
    else if r.returnEdge == Some(edge) then r.returnEdgeAccum
    else 0
  }

  /** What a return costs in the end: 20 px once the drive is armed, 64 before. */
  function Budget(r: Router): nat {
    if r.returnArmed then 20 else 64
  }

  /** How many shoves toward an edge are still needed at most: pixels to the edge, then the budget. */
  function Owed(r: Router, edge: Edge): (owed: nat)
    requires r.WellFormed()
    ensures owed >= 1
  {
    var d := r.DistanceHere(edge);
    if d > 0 then d + Budget(r) else Max(1, Budget(r) - Saved(r, edge))
  }

  /** The same drive after a step: same screen, and the same edges face home. */
  predicate SameDrive(a: Router, b: Router) {
    && SameSetup(a, b) && a.current == b.current && a.active == b.active && a.entryEdge == b.entryEdge
    && a.handoffAt == b.handoffAt && (a.returnArmed ==> b.returnArmed)
  }

  /** A step toward home-facing pressure: what is owed strictly falls until only one push is left. */
  predicate Wears(r: Router, s: Router, edge: Edge)
    requires r.WellFormed() && s.WellFormed()
  {
    Owed(s, edge) < Owed(r, edge) || Owed(s, edge) == Owed(r, edge) == 1
  }

  lemma SameDriveFacesHome(a: Router, b: Router, edge: Edge)
    requires SameDrive(a, b)
    ensures a.FacesHome(edge) == b.FacesHome(edge)
  {
  }

  /** A step inside the screen toward an edge gets strictly closer to it. */
  lemma CloserInside(edge: Edge, event: InputEvent, x: u32, y: u32, width: u32, height: u32)
    requires Toward(edge, event) && x < width && height > 0
    requires EdgePast(x + event.dx, y + event.dy, width, height).None?
    ensures DistanceFromEdge(edge, x + event.dx, y + event.dy, width, height)
        < DistanceFromEdge(edge, x, y, width, height)
  {
  }

  /** A step past some other edge still gets strictly closer once pinned. */
  lemma CloserPinned(edge: Edge, event: InputEvent, x: u32, y: u32, width: u32, height: u32)
    requires Toward(edge, event) && x < width && height > 0
    requires EdgePast(x + event.dx, y + event.dy, width, height).Some?
    requires EdgePast(x + event.dx, y + event.dy, width, height) != Some(edge)
    ensures DistanceFromEdge(edge, Clamp(x + event.dx, 0, width - 1), Clamp(y + event.dy, 0, height - 1), width, height)
            < DistanceFromEdge(edge, x, y, width, height)
  {
  }

  /** A step past the edge itself pins the cursor on it. */
  lemma PinnedAtEdge(edge: Edge, x: int, y: int, width: u32, height: u32)
    requires width > 0 && height > 0 && EdgePast(x, y, width, height) == Some(edge)
    ensures DistanceFromEdge(edge, Clamp(x, 0, width - 1), Clamp(y, 0, height - 1), width, height) == 0
    ensures Overshoot(edge, x, y, width, height) >= 1
  {
  }

  lemma OwedFromDistance(r: Router, s: Router, edge: Edge)
    requires r.WellFormed() && s.WellFormed() && s.returnAccum >= 0 && s.returnEdgeAccum >= 0
    requires s.DistanceHere(edge) < r.DistanceHere(edge) && (r.returnArmed ==> s.returnArmed)
    ensures Owed(s, edge) < Owed(r, edge)
  {
    hide Layout.Valid, Layout.Find;
  }

  lemma EscapeProgress(r: Router, edge: Edge, event: InputEvent, now: Instant)
    requires DrivenHome(r, edge) && r.UnarmedEntry(edge) && event.MouseMove?
    requires PastEdge(r, event) == Some(edge)
    ensures var s := Escape(r, edge, r.x + event.dx, r.y + event.dy, Forward(r.active.value, event), now);
            && (s.1.ReturnHome? || (SameDrive(r, s.0) && s.0.WellFormed() && Wears(r, s.0, edge)))
            && (Owed(r, edge) == 1 && Permits(r, edge, now) ==> s.1.ReturnHome?)
  {
    hide Layout.Valid, Layout.Find, LandAtEdge, Overshoot, DistanceFromEdge;
    hide EdgePast, Router.FacesHome, Unpaired, HomeKept;
    PinnedAtEdge(edge, r.x + event.dx, r.y + event.dy, r.Here().width, r.Here().height);
  }

  lemma ShoveProgress(r: Router, edge: Edge, event: InputEvent, now: Instant)
    requires DrivenHome(r, edge) && !r.UnarmedEntry(edge) && event.MouseMove?
    requires PastEdge(r, event) == Some(edge)
    ensures var s := Shove(r, edge, r.x + event.dx, r.y + event.dy, Forward(r.active.value, event), now);
            && (s.1.ReturnHome? || (SameDrive(r, s.0) && s.0.WellFormed() && Wears(r, s.0, edge)))
            && (Owed(r, edge) == 1 && Permits(r, edge, now) ==> s.1.ReturnHome?)
  {
    hide Layout.Valid, Layout.Find, LandAtEdge, Overshoot, DistanceFromEdge;
    hide EdgePast, Router.FacesHome, Unpaired, HomeKept;
    PinnedAtEdge(edge, r.x + event.dx, r.y + event.dy, r.Here().width, r.Here().height);
  }

  /** Whatever a drive step past an edge does short of returning, it pins the cursor and stays in the drive. */
  lemma PastPins(r: Router, dx: i32, dy: i32, now: Instant)
    requires Core(r) && r.active.Some?
    requires PastEdge(r, MouseMove(dx, dy)).Some? && !DriveMove(r, dx, dy, now).1.ReturnHome?
    ensures var s := DriveMove(r, dx, dy, now).0;
            && SameDrive(r, s)
            && s.x == r.Pinned(r.x + dx, r.y + dy).x && s.y == r.Pinned(r.x + dx, r.y + dy).y
  {
    hide Layout.Valid, Layout.Find, LandAtEdge, Overshoot;
    hide EdgePast, Router.FacesHome, PressComplete, Router.InHandoffGrace;
    hide Unpaired, HomeKept, RunsSane, Clamp;
  }

  lemma InsideKeepsDrive(r: Router, nextX: u32, nextY: u32)
    requires r.WellFormed() && r.active.Some?
    ensures SameDrive(r, DriveInside(r, nextX, nextY))
  {
    hide Layout.Valid, Layout.Find, DistanceFromEdge;
  }

  lemma ShoveStepInside(r: Router, edge: Edge, event: InputEvent, now: Instant)
    requires DrivenHome(r, edge) && Toward(edge, event) && PastEdge(r, event).None?
    ensures var s := DriveMove(r, event.dx, event.dy, now).0;
            DrivenHome(s, edge) && SameDrive(r, s) && Owed(s, edge) < Owed(r, edge)
  {
    DriveMoveCore(r, event.dx, event.dy, now);
    InsideIsInside(r, event, now);
    CloserInside(edge, event, r.x, r.y, r.Here().width, r.Here().height);
    InsideKeepsDrive(r, r.x + event.dx, r.y + event.dy);
    var s := DriveInside(r, r.x + event.dx, r.y + event.dy);
    hide Layout.Valid, Layout.Find, Router.FacesHome, DriveInside, DriveMove, DistanceFromEdge, Toward, Owed, EdgePast;
    assert s.DistanceHere(edge) < r.DistanceHere(edge);
    StepDone(r, s, edge);
  }

  lemma InsideIsInside(r: Router, event: InputEvent, now: Instant)
    requires Core(r) && r.active.Some? && event.MouseMove? && PastEdge(r, event).None?
    ensures r.WellFormed() && r.x + event.dx >= 0 && r.y + event.dy >= 0
    ensures DriveMove(r, event.dx, event.dy, now).0 == DriveInside(r, r.x + event.dx, r.y + event.dy)
  {
    hide Layout.Valid, Layout.Find, DriveInside;
  }

  lemma ShoveStepOwn(r: Router, edge: Edge, event: InputEvent, now: Instant)
    requires DrivenHome(r, edge) && event.MouseMove? && PastEdge(r, event) == Some(edge)
    ensures var s := DriveMove(r, event.dx, event.dy, now);
            && (s.1.ReturnHome? || (DrivenHome(s.0, edge) && SameDrive(r, s.0) && Wears(r, s.0, edge)))
            && (Owed(r, edge) == 1 && Permits(r, edge, now) ==> s.1.ReturnHome?)
  {
    assert r.WellFormed();
    hide Layout.Valid, Layout.Find, Core, Router.FacesHome, Escape, Shove, Owed, EdgePast, SameDrive, Wears, Permits;
    DriveMoveCore(r, event.dx, event.dy, now);
    var s := DriveMove(r, event.dx, event.dy, now);
    if r.UnarmedEntry(edge) {
      EscapeProgress(r, edge, event, now);
    } else {
      ShoveProgress(r, edge, event, now);
    }
    hide DriveMove;
    if !s.1.ReturnHome? {
      StepKept(r, s.0, edge);
    }
  }

  lemma ShoveStepOther(r: Router, edge: Edge, event: InputEvent, now: Instant)
    requires DrivenHome(r, edge) && Toward(edge, event)
    requires PastEdge(r, event).Some? && PastEdge(r, event) != Some(edge)
    requires !DriveMove(r, event.dx, event.dy, now).1.ReturnHome?
    ensures var s := DriveMove(r, event.dx, event.dy, now).0;
            DrivenHome(s, edge) && SameDrive(r, s) && Owed(s, edge) < Owed(r, edge)
  {
    DriveMoveCore(r, event.dx, event.dy, now);
    var s := DriveMove(r, event.dx, event.dy, now).0;
    CloserPinned(edge, event, r.x, r.y, r.Here().width, r.Here().height);
    PastPins(r, event.dx, event.dy, now);
    hide Layout.Valid, Layout.Find, Router.FacesHome, DriveMove, DistanceFromEdge, Toward, Owed, EdgePast;
    assert s.DistanceHere(edge) < r.DistanceHere(edge);
    StepDone(r, s, edge);
  }

  /** Owed one more push, the cursor is on the edge, and a shove toward it overflows it. */
  lemma LastPushOverflows(r: Router, edge: Edge, event: InputEvent)
    requires Core(r) && Toward(edge, event) && r.DistanceHere(edge) == 0
    ensures PastEdge(r, event) == Some(edge)
  {
    hide Layout.Valid, Layout.Find;
  }

  /**
   * Every shove toward a home-facing edge returns or lowers what is owed until one push is left; and
   * that one returns as soon as the clock permits.
   */
  lemma ShoveStep(r: Router, edge: Edge, event: InputEvent, now: Instant)
    requires DrivenHome(r, edge) && Toward(edge, event)
    ensures var out := Route(r, event, now);
            && (out.1.ReturnHome? || (DrivenHome(out.0, edge) && SameDrive(r, out.0) && Wears(r, out.0, edge)))
            && (Owed(r, edge) == 1 && Permits(r, edge, now) ==> out.1.ReturnHome?)
  {
    var past := PastEdge(r, event);
    if Owed(r, edge) == 1 {
      LastPushOverflows(r, edge, event);
    }
    if past.None? {
      ShoveStepInside(r, edge, event, now);
    } else if past == Some(edge) {
      ShoveStepOwn(r, edge, event, now);
    } else if !DriveMove(r, event.dx, event.dy, now).1.ReturnHome? {
      ShoveStepOther(r, edge, event, now);
    }
    assert r.active.Some?;
    hide Layout.Valid, Layout.Find, Core, DrivenHome, DriveMove, Owed, LocalMove, SameDrive, Permits;
  }

  lemma StepKept(r: Router, s: Router, edge: Edge)
    requires DrivenHome(r, edge) && Core(s) && SameDrive(r, s)
    ensures DrivenHome(s, edge)
  {
    SameDriveFacesHome(r, s, edge);
    hide Layout.Valid, Layout.Find, Router.FacesHome, Core;
  }

  lemma StepDone(r: Router, s: Router, edge: Edge)
    requires DrivenHome(r, edge) && Core(s) && SameDrive(r, s)
    requires s.DistanceHere(edge) < r.DistanceHere(edge)
    ensures DrivenHome(s, edge) && Owed(s, edge) < Owed(r, edge)
  {
    StepKept(r, s, edge);
    OwedFromDistance(r, s, edge);
  }

  /** A run of routed events, all toward one edge. */
  predicate Shoves(edge: Edge, acts: seq<Act>) {
    forall n :: 0 <= n < |acts| ==> acts[n].op.DoRoute? && Toward(edge, acts[n].op.event)
  }

  predicate StraightShoves(edge: Edge, acts: seq<Act>) {
    forall n :: 0 <= n < |acts| ==> acts[n].op.DoRoute? && Straight(edge, acts[n].op.event)
  }

  ghost predicate ComesHome(r: Router, acts: seq<Act>)
    requires Core(r) && AllSound(r.localScreen, acts)
  {
    exists n :: 0 <= n < |acts| && Answer(r, acts, n).Some? && Answer(r, acts, n).value.ReturnHome?
  }

  /** How many of a run's events come after the grace. */
  function AfterGrace(r: Router, acts: seq<Act>): nat {
    if acts == [] then 0
    else AfterGrace(r, acts[..|acts| - 1]) + if r.InHandoffGrace(acts[|acts| - 1].now) then 0 else 1
  }

  /** Until the return, every shove after the grace lowers what is owed by one at least. */
  lemma {:induction false} ShovesCount(r: Router, edge: Edge, acts: seq<Act>, n: nat)
    requires DrivenHome(r, edge) && Shoves(edge, acts) && AllSound(r.localScreen, acts) && n <= |acts|
    requires r.returnHold == 0
    ensures ComesHome(r, acts) ||
            (var s := After(r, acts[..n]);
             DrivenHome(s, edge) && SameDrive(r, s) && Owed(s, edge) + AfterGrace(r, acts[..n]) <= Owed(r, edge))
  {
    hide Route, Core, Owed, After, Answer, Apply, Sound, Toward, Router.FacesHome, Layout.Valid, Layout.Find;
    if n == 0 {
      AfterNone(r, acts);
    } else if !ComesHome(r, acts) {
      ShovesCount(r, edge, acts, n - 1);
      Unroll(r, acts, n - 1);
      assert acts[n - 1].op.DoRoute? && Toward(edge, acts[n - 1].op.event);
      assert acts[..n][..n - 1] == acts[..n - 1];
      ShoveStep(After(r, acts[..n - 1]), edge, acts[n - 1].op.event, acts[n - 1].now);
    }
  }

  /**
   * No dead clamp: with no hold, from every state of every drive, shoves toward a home-facing edge come
   * home once as many of them as the pixels to that edge plus the return budget fall after the grace.
   */
  lemma ShoveComesHome(r: Router, edge: Edge, acts: seq<Act>)
    requires DrivenHome(r, edge) && Shoves(edge, acts) && AllSound(r.localScreen, acts) && r.returnHold == 0
    requires AfterGrace(r, acts) >= r.DistanceHere(edge) + 64
    ensures ComesHome(r, acts)
  {
    OwedBound(r, edge);
    hide Route, Core, Layout.Valid, Layout.Find, Owed, After, SameDrive;
    ShovesCount(r, edge, acts, |acts|);
    assert acts[..|acts|] == acts;
  }

  /** Once the drive is armed 20 are enough. */
  lemma ArmedShoveComesHome(r: Router, edge: Edge, acts: seq<Act>)
    requires DrivenHome(r, edge) && Shoves(edge, acts) && AllSound(r.localScreen, acts) && r.returnHold == 0
    requires r.returnArmed && AfterGrace(r, acts) >= r.DistanceHere(edge) + 20
    ensures ComesHome(r, acts)
  {
    OwedBound(r, edge);
    hide Route, Core, Layout.Valid, Layout.Find, Owed, After, SameDrive;
    ShovesCount(r, edge, acts, |acts|);
    assert acts[..|acts|] == acts;
  }

  // ---- with a hold ---------------------------------------------------------------------------

  /** The cursor on the edge, and pressing it since `since` at the latest where a hold is counted. */
  predicate Pressing(r: Router, edge: Edge, since: Instant)
    requires r.WellFormed()
  {
    && r.DistanceHere(edge) == 0
    && (r.UnarmedEntry(edge)
        || (r.returnEdge == Some(edge) && r.returnRunSince.Some? && r.returnRunSince.value <= since))
  }

  predicate StampedBy(r: Router, now: Instant) {
    r.returnRunSince.Some? ==> r.returnRunSince.value <= now
  }

  lemma OwnPresses(r: Router, edge: Edge, event: InputEvent, now: Instant, since: Instant)
    requires DrivenHome(r, edge) && event.MouseMove? && PastEdge(r, event) == Some(edge)
    requires StampedBy(r, now) && !DriveMove(r, event.dx, event.dy, now).1.ReturnHome?
    ensures var s := DriveMove(r, event.dx, event.dy, now).0;
            s.WellFormed() && Pressing(s, edge, now) && StampedBy(s, now)
                && (Pressing(r, edge, since) ==> Pressing(s, edge, since))
  {
    hide Layout.Valid, Layout.Find, LandAtEdge, Overshoot, DistanceFromEdge;
    hide EdgePast, Router.FacesHome, Unpaired, HomeKept;
    hide PressComplete, Router.InHandoffGrace;
    PinnedAtEdge(edge, r.x + event.dx, r.y + event.dy, r.Here().width, r.Here().height);
  }

  lemma ElsewhereStamped(r: Router, edge: Edge, event: InputEvent, now: Instant)
    requires DrivenHome(r, edge) && event.MouseMove? && StampedBy(r, now)
    requires !DriveMove(r, event.dx, event.dy, now).1.ReturnHome?
    ensures StampedBy(DriveMove(r, event.dx, event.dy, now).0, now)
  {
    hide Layout.Valid, Layout.Find, LandAtEdge, Overshoot, DistanceFromEdge;
    hide EdgePast, Router.FacesHome, Unpaired, HomeKept;
    hide PressComplete, Router.InHandoffGrace, Router.Pinned;
  }

  /** A shove that does not return either presses the edge or gets strictly closer to it. */
  lemma ApproachStep(r: Router, edge: Edge, event: InputEvent, now: Instant, since: Instant)
    requires DrivenHome(r, edge) && Toward(edge, event) && StampedBy(r, now)
    requires !Route(r, event, now).1.ReturnHome?
    ensures var s := Route(r, event, now).0;
            && s.WellFormed() && StampedBy(s, now)
            && (Pressing(s, edge, now) || s.DistanceHere(edge) < r.DistanceHere(edge))
            && (Pressing(r, edge, since) ==> Pressing(s, edge, since))
  {
    assert r.WellFormed() && r.active.Some?;
    hide Core, Layout.Valid, Layout.Find, Router.FacesHome, DriveInside, LocalMove, DistanceFromEdge, Toward, EdgePast;
    hide StampedBy;
    if r.DistanceHere(edge) == 0 {
      LastPushOverflows(r, edge, event);
    }
    DriveMoveCore(r, event.dx, event.dy, now);
    if PastEdge(r, event) == Some(edge) {
      OwnPresses(r, edge, event, now, since);
    } else {
      CloserElsewhere(r, edge, event, now);
      ElsewhereStamped(r, edge, event, now);
    }
    hide DriveMove;
  }

  lemma CloserElsewhere(r: Router, edge: Edge, event: InputEvent, now: Instant)
    requires Core(r) && r.active.Some? && Toward(edge, event) && PastEdge(r, event) != Some(edge)
    requires !DriveMove(r, event.dx, event.dy, now).1.ReturnHome?
    ensures var s := DriveMove(r, event.dx, event.dy, now).0;
            s.WellFormed() && s.DistanceHere(edge) < r.DistanceHere(edge)
  {
    assert r.WellFormed();
    if PastEdge(r, event).None? {
      InsideIsInside(r, event, now);
      CloserInside(edge, event, r.x, r.y, r.Here().width, r.Here().height);
      InsideKeepsDrive(r, r.x + event.dx, r.y + event.dy);
    } else {
      CloserPinned(edge, event, r.x, r.y, r.Here().width, r.Here().height);
      PastPins(r, event.dx, event.dy, now);
    }
    hide Core, Layout.Valid, Layout.Find, DriveMove, DriveInside, DistanceFromEdge, Toward, EdgePast;
  }

  /** The clock does not run back over a run, nor behind the router's own stamp. */
  predicate Clocked(r: Router, acts: seq<Act>) {
    && (forall i, j :: 0 <= i <= j < |acts| ==> acts[i].now <= acts[j].now)
    && (acts != [] ==> StampedBy(r, acts[0].now))
  }

  /** Until the return: what is owed wears down, and the edge is pressed from the event that can first reach it. */
  ghost predicate Worn(r: Router, s: Router, edge: Edge, acts: seq<Act>, n: nat)
    requires Core(r) && n <= |acts|
  {
    && DrivenHome(s, edge) && SameDrive(r, s)
    && (Owed(s, edge) == 1 || Owed(s, edge) + n <= Owed(r, edge))
    && (n > 0 ==> StampedBy(s, acts[n - 1].now)) && (n == 0 ==> s == r)
    && var d := r.DistanceHere(edge);
       if n <= d then s.DistanceHere(edge) + n <= d || Pressing(s, edge, acts[n - 1].now)
       else Pressing(s, edge, acts[d].now)
  }

  lemma WornStart(r: Router, edge: Edge, acts: seq<Act>)
    requires DrivenHome(r, edge)
    ensures Worn(r, r, edge, acts, 0)
  {
    hide Layout.Valid, Layout.Find, Core, Router.FacesHome, DistanceFromEdge, Owed;
  }

  lemma WornStep(r: Router, s: Router, edge: Edge, acts: seq<Act>, n: nat)
    requires Core(r) && n < |acts| && Clocked(r, acts) && Worn(r, s, edge, acts, n)
    requires acts[n].op.DoRoute? && Toward(edge, acts[n].op.event)
    requires !Route(s, acts[n].op.event, acts[n].now).1.ReturnHome?
    ensures Worn(r, Route(s, acts[n].op.event, acts[n].now).0, edge, acts, n + 1)
  {
    var d := r.DistanceHere(edge);
    var event, now := acts[n].op.event, acts[n].now;
    var last := if n > 0 then acts[n - 1].now else 0;
    assert n > 0 ==> acts[n - 1].now <= now;
    assert n == 0 ==> acts[0].now == now;
    assert StampedBy(s, now);
    ShoveStep(s, edge, event, now);
    ApproachStep(s, edge, event, now, if n <= d then last else acts[d].now);
    hide Layout.Valid, Layout.Find, Route, Core, Router.FacesHome, Toward, Owed, DistanceFromEdge;
  }

  lemma {:induction false} ShovesWear(r: Router, edge: Edge, acts: seq<Act>, n: nat)
    requires DrivenHome(r, edge) && Shoves(edge, acts) && AllSound(r.localScreen, acts) && n <= |acts|
    requires Clocked(r, acts)
    ensures ComesHome(r, acts) || Worn(r, After(r, acts[..n]), edge, acts, n)
  {
    hide Route, Core, Owed, After, Answer, Apply, Sound, Toward, Router.FacesHome, Layout.Valid, Layout.Find, Worn;
    hide Clocked, Router.WellFormed;
    if n == 0 {
      AfterNone(r, acts);
      WornStart(r, edge, acts);
    } else if !ComesHome(r, acts) {
      ShovesWear(r, edge, acts, n - 1);
      Unroll(r, acts, n - 1);
      assert acts[n - 1].op.DoRoute? && Toward(edge, acts[n - 1].op.event);
      WornStep(r, After(r, acts[..n - 1]), edge, acts, n - 1);
    }
  }

  /**
   * No dead clamp under any hold and any grace: after as many shoves as the pixels to a home-facing edge
   * plus the return budget, at whatever times, one more comes home when it falls after the grace and the
   * hold has run since the edge could first be reached.
   */
  lemma HeldShoveComesHome(r: Router, edge: Edge, acts: seq<Act>)
    requires DrivenHome(r, edge) && Shoves(edge, acts) && AllSound(r.localScreen, acts) && Clocked(r, acts)
    requires LateEnough(r, edge, acts)
    ensures ComesHome(r, acts)
  {
    var n := |acts| - 1;
    OwedBound(r, edge);
    hide Route, Layout.Valid, Layout.Find, Owed, After, Router.FacesHome, Core, DistanceFromEdge;
    ShovesWear(r, edge, acts, n);
    if !ComesHome(r, acts) {
      var s := After(r, acts[..n]);
      LatePermits(r, s, edge, acts);
      ShoveStep(s, edge, acts[n].op.event, acts[n].now);
      Unroll(r, acts, n);
    }
  }

  /** The last shove comes after a full budget of them, after the grace, and a hold after the edge could be reached. */
  predicate LateEnough(r: Router, edge: Edge, acts: seq<Act>)
    requires r.WellFormed()
  {
    var d := r.DistanceHere(edge);
    && |acts| > d + 64
    && var last := acts[|acts| - 1].now;
       !r.InHandoffGrace(last) && Elapsed(acts[d].now, last) >= r.returnHold
  }

  lemma LatePermits(r: Router, s: Router, edge: Edge, acts: seq<Act>)
    requires Core(r) && LateEnough(r, edge, acts) && Clocked(r, acts) && Worn(r, s, edge, acts, |acts| - 1)
    requires Owed(r, edge) <= r.DistanceHere(edge) + 64
    ensures Owed(s, edge) == 1 && Permits(s, edge, acts[|acts| - 1].now)
  {
    assert acts[r.DistanceHere(edge)].now <= acts[|acts| - 1].now;
    hide Layout.Valid, Layout.Find, Core, Router.FacesHome, DistanceFromEdge, Owed;
  }

  lemma OwedBound(r: Router, edge: Edge)
    requires Core(r)
    ensures Owed(r, edge) <= r.DistanceHere(edge) + Budget(r)
  {
    hide Layout.Valid, Layout.Find, DistanceFromEdge;
  }

  /** A straight shove inside the screen overflows no edge but its own. */
  lemma StraightPast(edge: Edge, event: InputEvent, x: u32, y: u32, width: u32, height: u32)
    requires Straight(edge, event) && x < width && y < height
    ensures var past := EdgePast(x + event.dx, y + event.dy, width, height);
            past.None? || past == Some(edge)
  {
  }

  /** A step that stays inside, or runs past an edge that does not face home, never ends a drive. */
  lemma AwayMove(r: Router, dx: i32, dy: i32, now: Instant)
    requires r.WellFormed() && r.active.Some?
    requires var past := PastEdge(r, MouseMove(dx, dy)); past.None? || !r.FacesHome(past.value)
    ensures var s := DriveMove(r, dx, dy, now); !s.1.ReturnHome? && SameDrive(r, s.0)
  {
    hide Layout.Valid, Layout.Find, Router.FacesHome, DriveInside, Escape, Shove, Router.Pinned;
    var past := PastEdge(r, MouseMove(dx, dy));
    if past.None? {
      InsideKeepsDrive(r, r.x + dx, r.y + dy);
    } else {
      PinnedKeepsDrive(r, r.x + dx, r.y + dy);
    }
    hide SameDrive, EdgePast;
  }

  lemma PinnedKeepsDrive(r: Router, nextX: int, nextY: int)
    requires r.WellFormed()
    ensures SameDrive(r, r.(returnAccum := 0).EndReturnRun().Pinned(nextX, nextY))
  {
    hide Layout.Valid, Layout.Find, Clamp;
  }

  lemma AwayStep(r: Router, edge: Edge, event: InputEvent, now: Instant)
    requires Core(r) && InBounds(r) && r.active.Some? && !r.FacesHome(edge) && Straight(edge, event)
    ensures var out := Route(r, event, now);
            && !out.1.ReturnHome? && Core(out.0) && InBounds(out.0) && SameDrive(r, out.0)
  {
    StraightPast(edge, event, r.x, r.y, r.Here().width, r.Here().height);
    DriveMoveCore(r, event.dx, event.dy, now);
    AwayMove(r, event.dx, event.dy, now);
    hide Layout.Valid, Layout.Find, Core, InBounds, Router.FacesHome, DriveMove, LocalMove, SameDrive, Straight;
  }

  lemma AwayRoute(r: Router, before: Router, edge: Edge, event: InputEvent, now: Instant)
    requires r.active.Some? && !r.FacesHome(edge) && Straight(edge, event)
    requires Core(before) && InBounds(before) && SameDrive(r, before)
    ensures var s := Route(before, event, now).0; s.WellFormed() && InBounds(s) && SameDrive(r, s)
  {
    SameDriveFacesHome(r, before, edge);
    assert before.active.Some?;
    hide Core, InBounds, Route, Router.FacesHome, Straight, Layout.Valid, Layout.Find;
    AwayStep(before, edge, event, now);
  }

  lemma {:induction false} AwayAfter(r: Router, edge: Edge, acts: seq<Act>)
    requires Core(r) && InBounds(r) && r.active.Some? && !r.FacesHome(edge)
    requires StraightShoves(edge, acts) && AllSound(r.localScreen, acts)
    ensures InBounds(After(r, acts)) && SameDrive(r, After(r, acts))
  {
    hide Route, Core, InBounds, After, Answer, Apply, Sound, Straight, Router.FacesHome, Layout.Valid, Layout.Find;
    AfterNone(r, acts);
    if acts == [] {
      assert acts[..0] == acts;
    } else {
      var n := |acts| - 1;
      AwayAfter(r, edge, acts[..n]);
      Unroll(r, acts, n);
      assert acts[..n + 1] == acts;
      AwayRoute(r, After(r, acts[..n]), edge, acts[n].op.event, acts[n].now);
    }
  }

  /** An edge that does not face home clamps a straight shove forever. */
  lemma AwayNeverReturns(r: Router, edge: Edge, acts: seq<Act>)
    requires Core(r) && InBounds(r) && r.active.Some? && !r.FacesHome(edge)
    requires StraightShoves(edge, acts) && AllSound(r.localScreen, acts)
    ensures !ComesHome(r, acts)
  {
    hide Route, Core, InBounds, Router.FacesHome, Straight, Layout.Valid, Layout.Find, After;
    forall k | 0 <= k < |acts|
      ensures !Answer(r, acts, k).value.ReturnHome?
    {
      AwayAfter(r, edge, acts[..k]);
      var before := After(r, acts[..k]);
      SameDriveFacesHome(r, before, edge);
      AwayStep(before, edge, acts[k].op.event, acts[k].now);
    }
  }

  /** Facing home is exactly what decides whether a straight shove that lasts long enough comes home. */
  lemma ComesHomeIff(r: Router, edge: Edge, acts: seq<Act>)
    requires Core(r) && InBounds(r) && r.active.Some?
    requires StraightShoves(edge, acts) && AllSound(r.localScreen, acts) && Clocked(r, acts)
    requires LateEnough(r, edge, acts)
    ensures ComesHome(r, acts) <==> r.FacesHome(edge)
  {
    if r.FacesHome(edge) {
      HeldShoveComesHome(r, edge, acts);
    } else {
      AwayNeverReturns(r, edge, acts);
    }
  }

  // ---- the way home after a crossing ---------------------------------------------------------

  /** Still beside the disarmed edge the drive entered through. */
  predicate JustEntered(r: Router, edge: Edge) {
    DrivenHome(r, edge) && r.UnarmedEntry(edge) && r.DistanceHere(edge) < 40
  }

  lemma NeverSettles(r: Router, edge: Edge, event: InputEvent, now: Instant)
    requires JustEntered(r, edge) && Toward(edge, event) && !Route(r, event, now).1.ReturnHome?
    ensures var s := Route(r, event, now).0; s.WellFormed() && s.UnarmedEntry(edge) && s.DistanceHere(edge) < 40
  {
    assert r.WellFormed() && r.active.Some?;
    hide Core, Layout.Valid, Layout.Find, Router.FacesHome, DistanceFromEdge, LocalMove, Toward;
    DriveMoveCore(r, event.dx, event.dy, now);
    if PastEdge(r, event).None? {
      InsideIsInside(r, event, now);
      InsideNeverSettles(r, edge, event);
    } else {
      PastNeverSettles(r, edge, event, now);
    }
    hide DriveMove, DriveInside;
  }

  lemma InsideNeverSettles(r: Router, edge: Edge, event: InputEvent)
    requires r.WellFormed() && r.x < r.Here().width && r.UnarmedEntry(edge) && r.DistanceHere(edge) < 40
    requires Toward(edge, event) && PastEdge(r, event).None?
    ensures r.x + event.dx >= 0 && r.y + event.dy >= 0
    ensures var s := DriveInside(r, r.x + event.dx, r.y + event.dy);
            s.WellFormed() && s.UnarmedEntry(edge) && s.DistanceHere(edge) < 40
  {
    CloserInside(edge, event, r.x, r.y, r.Here().width, r.Here().height);
    hide Layout.Valid, Layout.Find, DistanceFromEdge, Toward;
  }

  lemma PastNeverSettles(r: Router, edge: Edge, event: InputEvent, now: Instant)
    requires Core(r) && r.active.Some? && r.UnarmedEntry(edge) && r.DistanceHere(edge) < 40
    requires Toward(edge, event) && PastEdge(r, event).Some? && !DriveMove(r, event.dx, event.dy, now).1.ReturnHome?
    ensures var s := DriveMove(r, event.dx, event.dy, now).0;
            s.WellFormed() && s.UnarmedEntry(edge) && s.DistanceHere(edge) < 40
  {
    assert r.WellFormed();
    if PastEdge(r, event) == Some(edge) {
      PinnedAtEdge(edge, r.x + event.dx, r.y + event.dy, r.Here().width, r.Here().height);
    } else {
      CloserPinned(edge, event, r.x, r.y, r.Here().width, r.Here().height);
    }
    hide DriveMove, DistanceFromEdge, Core, Layout.Valid, Layout.Find, EdgePast, Toward;
    PastPins(r, event.dx, event.dy, now);
    PastKeepsArmed(r, event.dx, event.dy, now);
  }

  lemma PastKeepsArmed(r: Router, dx: i32, dy: i32, now: Instant)
    requires r.WellFormed() && r.active.Some? && PastEdge(r, MouseMove(dx, dy)).Some?
    requires !DriveMove(r, dx, dy, now).1.ReturnHome?
    ensures DriveMove(r, dx, dy, now).0.returnArmed == r.returnArmed
  {
    hide Layout.Valid, Layout.Find, LandAtEdge, Overshoot;
    hide EdgePast, Router.FacesHome, PressComplete, Router.InHandoffGrace;
    hide Clamp;
  }

  lemma {:induction false} EscapesCount(r: Router, edge: Edge, acts: seq<Act>, n: nat)
    requires JustEntered(r, edge) && Shoves(edge, acts) && AllSound(r.localScreen, acts) && n <= |acts|
    ensures ComesHome(r, acts) ||
            (var s := After(r, acts[..n]);
             JustEntered(s, edge) && SameDrive(r, s) && Owed(s, edge) + AfterGrace(r, acts[..n]) <= Owed(r, edge))
  {
    hide Route, Core, Owed, After, Answer, Apply;
    hide Sound, Toward, Router.FacesHome, Layout.Valid, Layout.Find, DistanceFromEdge;
    if n == 0 {
      AfterNone(r, acts);
    } else if !ComesHome(r, acts) {
      EscapesCount(r, edge, acts, n - 1);
      Unroll(r, acts, n - 1);
      assert acts[n - 1].op.DoRoute? && Toward(edge, acts[n - 1].op.event);
      assert acts[..n][..n - 1] == acts[..n - 1];
      ShoveStep(After(r, acts[..n - 1]), edge, acts[n - 1].op.event, acts[n - 1].now);
      NeverSettles(After(r, acts[..n - 1]), edge, acts[n - 1].op.event, acts[n - 1].now);
    }
  }

  /**
   * After every routed handoff, under any hold and any grace, shoving back out of the entry edge comes
   * home once as many shoves as the inset plus the budget fall after the grace.
   */
  lemma EntryIsAWayHome(r: Router, event: InputEvent, now: Instant, acts: seq<Act>)
    requires Core(r) && Route(r, event, now).1.Handoff? && AllSound(r.localScreen, acts)
    requires AfterGrace(Route(r, event, now).0, acts) >= 32 + 64
    requires Shoves(r.doubleStyle.EntryForExit(Route(r, event, now).1.edge), acts)
    ensures Core(Route(r, event, now).0)
    ensures ComesHome(Route(r, event, now).0, acts)
  {
    EntryFacesHome(r, event, now);
    EntryNearEdge(r, event, now);
    var s := Route(r, event, now).0;
    var edge := s.entryEdge.value;
    OwedBound(s, edge);
    hide Layout.Valid, Layout.Find, Route, Core, Router.FacesHome, Owed, After, SameDrive, DistanceFromEdge;
    EscapesCount(s, edge, acts, |acts|);
    assert acts[..|acts|] == acts;
  }
}
