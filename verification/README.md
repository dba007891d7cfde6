# TheKVM: model and proofs

A keyboard-and-mouse switch moves the pointer from one computer to the next when it is pushed past a screen edge, sends
what is typed and clicked to the computer being driven, and brings the pointer home when it is pushed back. This project
models the parts of it whose correctness depends on long runs of events, and proves what they promise.

- **Edge router** (files `Geometry`, `Layout`, `Router`, `EdgeRouter`, `RouterInvariant`, `RouterCrossing`,
  `RouterOperations`, `RouterDrives`, `RouterAnswers`, `RouterLiveness`, `RouterWindows`, `RouterLedger`, `RouterGates`,
  `RouterExamples`). `Routers` gives every public operation as a function on values; the class `EdgeRouters.EdgeRouter`
  performs them in place, each method proved equal to its function. The other modules prove what each operation means
  and what holds over every run of them.
- **Shared hold, end to end** (`Holds`, `DeviceSpec`, `DeviceMotion`, `TouchContacts`, `TouchGestures`, `Touchpads`,
  `CaptureSpec`, `CaptureOrder`, `EvdevCapture`, `VirtualDeviceSpec`, `VirtualDevice`, `VirtualHold`, `VirtualReaders`,
  `VirtualAnswers`). Many keyboards and mice are read through one filter; what the filter accepts is played into a
  virtual mouse and keyboard.
- **Gesture and echo filters** (`MotionEcho`, `WheelDedup`, `PtpPan`, `PtpPanRuns`, `PtpPinch`, `PtpZoom`, `PinchTap`,
  `PinchPolls`).
- **Approval queues** (`RejectRecords`, `PairingApprovals`, `PairingAnswers`, `LinkApprovals`, `LinkAnswers`,
  `LinkGrants`).

Time is an `Instant` in nanoseconds passed to each operation that reads a clock. Rust's `/` is `TruncDiv`; saturating
operations saturate explicitly. The exponential averages of the pinch filter are exact reals. Where a claim in the
source's comments is false of its code, the code was kept: one lemma gives an input that shows it, and another says
exactly when the claim holds.

Hypotheses about routers that `Layout::validate` does not check but the design states: the local screen is paired to no
peer. Every lemma about runs starts from a router that satisfies `RouterInvariant.Core`, which `New` establishes under
that one hypothesis and every operation keeps. A pinned style applies in Single mode too, as in the code, although the
comments speak of Double only.

Where code and comments disagree, or the code misses what it is for, the model follows the code:

- the return rule reads the mode and style of the moment, although the comments say an active drive keeps the edge it
  entered through (`kvm-core/src/layout.rs:695-711`): exactly when by `RouterDrives.SwitchedDriveIff`, shown by
  `RouterExamples.StyleSwitchStrands` and `RouterExamples.ModeSwitchStrands`;
- with a pinned style a top or bottom crossing maps a horizontal coordinate to the landing height, which can lie outside
  the target: `RouterInvariant.ApplyInBoundsIff`, `RouterExamples.StrayLandingHappens`;
- an inside step lifts the startup gate while the router is locked, even at the edge: `RouterGates.GateStep`,
  `RouterExamples.LockOpensGate`;
- small truth re-pins move the cursor without touching the push run, so a run can complete from far inside:
  `RouterGates.FarFlingIff`, `RouterExamples.FarFlingHappens`;
- placing a peer that has several screens can put one on another: `Layouts.PlacePeerValidIff`,
  `RouterExamples.TwinPlacementCollides`;
- hi-res scroll takes precedence over detents for a whole frame, not per axis: `Devices.FlushScroll`,
  `Devices.DetentLost`;
- after a disconnect, events can be handed on in another order than they were accepted: `CaptureOrders.PassHandsOn`,
  `CaptureOrders.HandedOnOutOfOrder`;
- the injector's key table maps some pairs of usages to one code: `VirtualHolds.PlayedFaithfullyIff`,
  `VirtualHolds.AliasLetsGo`;
- an edge and its report are two writes, and a press torn between them is never let go:
  `VirtualDevices.SendKeepsFaithfulIff`, `VirtualReaders.TornPressSticks`;
- one wheel motion can scroll twice although two channels are compared to prevent it: `WheelDedups.DoublesIff`,
  `WheelDedups.DiagonalDoubles`;
- at most scales, the default among them, resting fingers scroll for ever: `PtpPans.RestingSilentIff`,
  `PtpPans.RestingSettlesIff`, `PtpPans.DefaultNeverSettles`;
- a poll hands on one gesture, so an end can be lost: `PinchPolls.HandedOnBracketsIff`, `PinchPolls.EndLost`;
- clean-up by key can drop a newer request of the same device: `PairingApprovals.FinishHitsOwnIff`,
  `PairingApprovals.NewerRequestDropped`;
- overflow of the approved-link cap forgets the link just allowed: `LinkApprovals.GrantSurvivesIff`,
  `LinkApprovals.GrantForgotten`;
- a late denial ends a running freeze: `LinkApprovals.DenialLiftsFreeze`, `LinkApprovals.FreezeLifted`.

## Model

Each method of a class states its whole new state and answer as the function of the same operation, which is what the
lemmas are about; one row stands for all methods of its class.

| member | source | states |
|---|---|---|
| Geometry.MapMonotone | kvm-core/src/layout.rs:1931-1937 | proportional mapping never reverses the order of two coordinates |
| Geometry.MapInRange | kvm-core/src/layout.rs:1931-1937 | a mapped coordinate lies inside the target span |
| Geometry.MapKeepsEndpoints | kvm-core/src/layout.rs:1931-1937 | first and last pixel map to first and last pixel |
| Geometry.MapIdentity | kvm-core/src/layout.rs:1931-1937 | between equal spans nothing moves |
| Geometry.RoundTrip | kvm-core/src/layout.rs:1931-1937 | there and back over spans S+1 and T+1 never moves forward and loses at most (S-1)/T rounded up |
| Geometry.RepeatedTrips | kvm-core/src/layout.rs:1931-1937 | k round trips drift only backward, by at most k times that |
| Layouts.Validate | kvm-core/src/layout.rs:55-87 | succeeds exactly on valid layouts, and an error names something really wrong with the layout |
| RouterOperations.ValidMeans | kvm-core/src/layout.rs:55-87 | a layout is valid exactly with at most 64 screens, named and sized, no two with one id or cell, and the local screen among them |
| Layouts.FindSinglePeer | kvm-core/src/layout.rs:111-122 | finds the peer screen when exactly one screen is linked, and none otherwise |
| Layouts.NeighborIff | kvm-core/src/layout.rs:91-105 | in a valid layout the neighbour through an edge is exactly the screen one grid step that way |
| Layouts.NeighborSymmetric | kvm-core/src/layout.rs:91-105 | b is a's neighbour through an edge exactly when a is b's through the opposite edge |
| Layouts.CrossingLeaves | kvm-core/src/layout.rs:281-297 | no crossing rule, the outer-edge fallback included, targets the screen it leaves |
| RouterOperations.CrossingLeadsTo | kvm-core/src/layout.rs:281-297 | through an edge lies the screen one cell that way, left and up being smaller; in Double, with none there, the sides lead to the one linked screen |
| Layouts.SetSizeKeepsGrid | kvm-core/src/layout.rs:144-157 | a measured size changes one screen's dimensions, keeps the layout valid and every neighbour the same |
| RouterOperations.PlacePeerIff | kvm-core/src/layout.rs:250-279 | a peer is placed exactly when there is a local screen, no other screen has the cell, and the peer has a screen; each refusal says which |
| Layouts.PlacePeerValidIff | kvm-core/src/layout.rs:250-279 | a placement keeps the layout valid exactly when no second screen of that peer sits on the target cell |
| RouterExamples.TwinPlacementCollides | kvm-core/src/layout.rs:250-279 | a valid layout with one peer on both sides of home: placing the peer right makes two screens share a cell |
| Layouts.PlacePeerOpensEdge | kvm-core/src/layout.rs:250-279 | a valid placement makes the peer the local screen's neighbour on that side and moves nothing else |
| EdgeRouters.EdgeRouter.Route | kvm-core/src/layout.rs:997-1467 | one routed event: whole new state and answer, equal to the specification the run lemmas are about |
| RouterAnswers.DriveAnswer | kvm-core/src/layout.rs:1011-1225 | while driving, every event is either the return, with its edge, entry edge and arming named, or goes to the driven screen exactly as it is |
| RouterAnswers.LocalPasses | kvm-core/src/layout.rs:997-1010 | while local, whatever is not motion stays local exactly as it is |
| RouterAnswers.DriveForwards | kvm-core/src/layout.rs:1011-1225 | through every drive the driven screen gets the routed events, all of them, unchanged and in order |
| RouterAnswers.CursorFollows | kvm-core/src/layout.rs:1484-1526 | on every step that crosses and returns nothing the cursor follows the motion up to the border |
| RouterAnswers.HandoffCarries | kvm-core/src/layout.rs:1437-1466 | a crossing carries on exactly the motion past the border, along the crossed axis; one pixel is lost only at the most negative motion from the very edge |
| RouterAnswers.ReturnLandsBack | kvm-core/src/layout.rs:1617-1663 | a routed return lands 8 px inside its landing edge, at the proportional place along it, runs over and refractory armed |
| RouterOperations.NewMeans | kvm-core/src/layout.rs:563-607 | a new router stands in the middle of the screen named local, or of the first, with every default |
| RouterOperations.SetLayoutMeans | kvm-core/src/layout.rs:721-756 | a new arrangement is adopted exactly when nothing is driven and it has the local screen: its screens as given, at measured sizes, cursor clamped, runs and windows over |
| Routers.CarrySizesValid | kvm-core/src/layout.rs:721-735 | a new arrangement keeps its grid, every surviving screen its measured size, and stays valid |
| RouterOperations.SeedMeans | kvm-core/src/layout.rs:809-848 | an explicit placement: the cursor there, clamped, runs and refractory over; refused during a drive |
| RouterOperations.ResyncMeans | kvm-core/src/layout.rs:867-920 | a re-pin puts cursor and saved home at the truth; a push run loses what the cursor moved away from its edge, exactly unless both axes moved by at most two pixels |
| RouterOperations.AdoptLocalMeans | kvm-core/src/layout.rs:928-955 | a measured home size is adopted unless zero, cursor and saved home clamped, the push run over, nothing else changed |
| RouterOperations.AdoptPeerMeans | kvm-core/src/layout.rs:961-995 | a measured peer size is adopted for its first screen, the cursor clamped when it is there, both runs over, nothing else changed |
| RouterOperations.ReturnToLocalMeans | kvm-core/src/layout.rs:1545-1571 | an explicit return lands at the clamped point, exactly when that screen is driven |
| RouterOperations.RestoreAtEdgeMeans | kvm-core/src/layout.rs:1586-1663 | a return through an edge: 8 px inside its landing edge, proportional along it, the refractory armed; exactly when that screen is driven |
| RouterOperations.RestoreMeans | kvm-core/src/layout.rs:1671-1711 | a failed handoff undone: the saved column, the proportional height, no refractory |
| RouterOperations.HandoffToMeans | kvm-core/src/layout.rs:1716-1763 | an explicit handoff drives the named screen at the clamped point, armed and stamped, the local position saved; or comes home when it names home |
| RouterInvariant.NewIsCore | kvm-core/src/layout.rs:563-607 | a new router satisfies the invariant when the local screen is paired to no peer |
| RouterInvariant.ApplyKeepsCore | kvm-core/src/layout.rs:721-1763 | every public operation keeps: no active remote exactly when local, an active remote is the current screen and not home, saved home inside home and equal to the cursor while local, accumulators in range |
| RouterInvariant.ApplyInBoundsIff | kvm-core/src/layout.rs:1399-1423 | from inside, an operation leaves the cursor inside the current screen exactly when it is not a pinned top or bottom crossing whose mapped height falls outside |
| RouterExamples.StrayLandingHappens | kvm-core/src/layout.rs:1399-1423 | a pinned crossing through the bottom that lands below its target |
| RouterInvariant.QuietInBounds | kvm-core/src/layout.rs:721-995 | no operation but routing can put the cursor outside |
| RouterCrossing.HandoffRefinesStateless | kvm-core/src/layout.rs:303-357 | routing hands off exactly when the stateless rule names a hop and pressure opens the edge, and then with the same source, target, edge, landing and overshoot |
| RouterOperations.StatelessClamps | kvm-core/src/layout.rs:303-357 | the stateless rule treats a cursor off the screen as one on its border, and names nothing for an unknown screen |
| RouterCrossing.EntryFacesHome | kvm-core/src/layout.rs:1089-1099 | the edge every crossing enters through faces home under the return rule, in every mode and style |
| RouterOperations.FacesHomeMeans | kvm-core/src/layout.rs:1085-1099 | an edge faces home exactly when pinned, or when home is one cell that way, or in mirrored Double when it is a side and there is a lone peer |
| RouterCrossing.EntryNearEdge | kvm-core/src/layout.rs:1831-1850 | a crossing lands within the inset of the edge it enters through |
| RouterOperations.HandoffLands | kvm-core/src/layout.rs:1831-1850 | a crossing lands 32 px inside its entry edge, or as deep as a narrower screen allows, at the proportional place along the edge crossed |
| RouterCrossing.HandoffUndone | kvm-core/src/layout.rs:1671-1711 | a horizontal handoff undone at once restores the same screen and x, and y within one round trip |
| RouterCrossing.LocalStepExact | kvm-core/src/layout.rs:1484-1526 | a local answer carries exactly the motion the cursor made, no more than was asked; the saturation never fires |
| RouterCrossing.LocalRunConserves | kvm-core/src/layout.rs:1249-1253 | over any all-local run the cursor is its start plus the sum of the emitted motion |
| RouterDrives.DriveKeepsEntry | kvm-core/src/layout.rs:1011-1222 | through a drive, whatever is routed and whatever settings change, the entry edge and the driven screen stay what the crossing made them |
| RouterDrives.SwitchedDriveIff | kvm-core/src/layout.rs:700-711 | over every drive, however mode and style are switched, the entry edge faces home exactly when it leads back under the settings of the moment: the pinned edge itself, or mirrored, a grid edge back or any side of a lone peer in Double |
| RouterDrives.SwitchedDriveComesHomeIff | kvm-core/src/layout.rs:1085-1222 | and a long enough straight shove at the entry edge comes home exactly then |
| RouterExamples.StyleSwitchStrands | kvm-core/src/layout.rs:705-711 | crossed right, then pinned right: no shove at the entry edge ever comes home, though it led home before |
| RouterExamples.ModeSwitchStrands | kvm-core/src/layout.rs:695-703 | crossed through the outer edge of a lone-peer link, then Single: the same |
| RouterDrives.ReturnKeepsHeight | kvm-core/src/layout.rs:1586-1663 | a drive of level motion that left through a side and returns through any edge lands at home within one round trip of the height it left |
| RouterLiveness.ShoveStep | kvm-core/src/layout.rs:1011-1222 | under any hold and grace a shove toward a home-facing edge returns or strictly lowers what is owed until one push is left, and that push returns as soon as the clock permits |
| RouterLiveness.ShoveComesHome | kvm-core/src/layout.rs:1011-1222 | no dead clamp: with no hold, from every drive state and under any grace, shoves toward a home-facing edge come home once distance plus 64 of them fall after the grace |
| RouterLiveness.ArmedShoveComesHome | kvm-core/src/layout.rs:1177-1214 | once armed, distance plus 20 shoves after the grace are enough |
| RouterLiveness.HeldShoveComesHome | kvm-core/src/layout.rs:1177-1214 | no dead clamp under any hold: after distance plus 64 shoves at whatever times, one that falls after the grace and a hold after the edge could be reached comes home |
| RouterWindows.HoldIsServed | kvm-core/src/layout.rs:1177-1214 | in every run a return, through an edge other than the disarmed entry, comes no sooner than the hold of the moment after the event that began its run |
| RouterLiveness.ComesHomeIff | kvm-core/src/layout.rs:1085-1099 | under any hold and grace a straight shove that lasts that long comes home exactly when its edge faces home |
| RouterLiveness.EntryIsAWayHome | kvm-core/src/layout.rs:1414-1437 | after every routed crossing, under any hold and grace, shoving back out of the entry edge comes home once the inset plus the budget of shoves fall after the grace |
| RouterLedger.NewIsIdle | kvm-core/src/layout.rs:563-607 | a new router has no drive and no run in progress, so every ledger starts from it |
| RouterLedger.RunCovered | kvm-core/src/layout.rs:1039-1214 | in every run the press and push accumulators never exceed, and the escape credit of an unarmed drive equals, the overflow really spent on their edge since the code last reset the run |
| RouterLedger.ReturnIsPaid | kvm-core/src/layout.rs:1076-1214 | every return of every run was paid since the last reset: 20 px armed, 64 px unarmed, and through a non-entry edge never on the first event of an unarmed run |
| RouterLedger.HandoffIsPaid | kvm-core/src/layout.rs:1348-1394 | every crossing of every run was paid with 8 px toward its edge since the push run was last reset, by a retreat or an earlier crossing among others |
| RouterWindows.PushCrosses | kvm-core/src/layout.rs:1321-1390 | a deliberate push gets out: ungated and unlocked, straight pushes at an edge that leads somewhere, none within 250 ms of a return through it, cross to what lies behind within distance plus 8 events |
| RouterWindows.SlideKeepsPush | kvm-core/src/layout.rs:1249-1269 | a step that stays on the screen keeps a push run exactly while it ends within two pixels of its edge |
| RouterWindows.SlideKeepsReturn | kvm-core/src/layout.rs:1039-1070 | and through a drive the return run, and the escape credit, exactly while inside steps end within two pixels of the edge of the run |
| RouterWindows.GraceWindow | kvm-core/src/layout.rs:1391-1437 | through a whole drive the grace lasts from the handoff for as long as the setting of the moment says |
| RouterGates.ReturnLands | kvm-core/src/layout.rs:1617-1663 | every return lands home, within 8 px of its landing edge, with the refractory armed there |
| RouterGates.NoBounce | kvm-core/src/layout.rs:1321-1347 | after a return no crossing goes back through the landing edge until 250 ms pass or an inside step gets 64 px clear |
| RouterWindows.RefractoryLifts | kvm-core/src/layout.rs:1271-1286 | the refractory is lifted exactly by an inside step that ends 64 px clear of its edge, or a crossing |
| RouterGates.SeedShutsGate | kvm-core/src/layout.rs:839-846 | a gated seed shuts the gate exactly when it sits within push range of a crossable edge |
| RouterGates.GateStep | kvm-core/src/layout.rs:1286-1291 | a routed event against a shut gate stays local, and lifts it exactly when it is an inside step out of push range of every crossable edge, or any inside step while locked |
| RouterGates.GateHolds | kvm-core/src/layout.rs:1271-1291 | after a gated seed, whenever the lock comes and goes, everything stays local through the first step that lifts the gate |
| RouterExamples.LockOpensGate | kvm-core/src/layout.rs:670-693 | seeded at the edge, locked for one step along it and unlocked: the push the gate held now crosses |
| RouterGates.ArmedIffSettled | kvm-core/src/layout.rs:1055-1070 | after a routed crossing the drive is armed exactly when some inside step reached 40 px from the entry edge |
| RouterGates.NewIsTight | kvm-core/src/layout.rs:563-607 | a new router meets the hypothesis of the far-fling theorem |
| RouterGates.FarFlingIff | kvm-core/src/layout.rs:1348-1390 | one event from more than 64 px inside crosses exactly when a run saved up earlier completes the budget |
| RouterGates.NoFarFling | kvm-core/src/layout.rs:1348-1390 | in runs without truth re-pins no crossing comes from one event starting more than 64 px inside |
| RouterGates.PinnedRunCrossesFromAfar | kvm-core/src/layout.rs:880-919 | small re-pins drag a live run as far inside as one likes, and the far fling then crosses |
| RouterExamples.FarFlingHappens | kvm-core/src/layout.rs:880-919 | a run from a fresh two-screen router: two moves and 33 small re-pins, and one event crosses from more than 64 px inside |
| Holds.DisciplinedAlternates | kvm-platform/src/evdev_capture.rs:705-730 | in a disciplined stream each control goes press, release, press, ..., and is held exactly when the count is odd |
| Holds.AlternatesDisciplined | kvm-platform/src/evdev_capture.rs:705-730 | and conversely, alternation per control makes a repeat-free stream disciplined |
| Holds.ReleasesExtend | kvm-platform/src/evdev_capture.rs:686-702 | releasing held controls in order keeps the stream disciplined and leaves exactly the others held |
| Holds.RankMeans | kvm-platform/src/evdev_capture.rs:686-702 | synthetic releases go keys first, by usage, then buttons left, right, middle, back, forward |
| Holds.ReleasesAscend | kvm-platform/src/evdev_capture.rs:686-702 | each freed control is released exactly once, keys before buttons, in ascending order |
| Devices.ProcessShape | kvm-platform/src/evdev_capture.rs:242-496 | one raw event changes what a device holds by its hold effect and offers that effect or motion, never both; repeats bypass the filter |
| DeviceMotions.MouseReports | kvm-platform/src/evdev_capture.rs:387-398 | over every run a plain mouse sends, at each report, one motion of the sums read on both axes since the report before, and the summed scroll, hi-res if there was any |
| DeviceMotions.EdgeMeans | kvm-platform/src/evdev_capture.rs:498-544 | a raw key or button event: zero releases, a repeat of a held key is queued as a repeat, anything else presses, for that very control |
| DeviceMotions.HeldIffLastDown | kvm-platform/src/evdev_capture.rs:368-386 | over every run a keyboard or mouse holds a control exactly when the last event about it left it down |
| Devices.FlushScroll | kvm-platform/src/evdev_capture.rs:474-491 | a frame with hi-res scroll on either axis sends exactly that and drops all detents; otherwise detents count 120 each |
| Devices.DetentLost | kvm-platform/src/evdev_capture.rs:474-491 | a frame with hi-res scroll upward and a detent sideways: the detent is never sent |
| TouchContacts.ContactsFollow | kvm-platform/src/evdev_capture.rs:328-367 | over every run each contact is where its slot was last reported and down exactly while the events say so |
| TouchContacts.ContactsSeen | kvm-platform/src/evdev_capture.rs:399-412 | and what a report looks at is exactly these contacts, in slot order |
| TouchContacts.ToolsCount | kvm-platform/src/evdev_capture.rs:281-303 | however fingers join and leave, the tool count is the number of fingers, except that two or three lifted at once leave one |
| TouchContacts.OneMoreTool | kvm-platform/src/evdev_capture.rs:281-287 | a one-finger tool that joins while two or three fingers are counted takes none away |
| TouchGestures.TapIff | kvm-platform/src/evdev_capture.rs:249-284 | over every run, exactly which touches tap: at most 180 ms, every report within 24 units of the start, no button clicked meanwhile or held; a right click exactly when two fingers were shown |
| TouchGestures.ReportSends | kvm-platform/src/evdev_capture.rs:399-473 | between two reports of one touch: the stroke of the one finger both saw, two to four times as far by its speed; the swipe of two on their longer axis; nothing when their number changed |
| TouchGestures.FreshTouchSends | kvm-platform/src/evdev_capture.rs:276-280 | no jump between touches: after a lift the first report sends nothing |
| Touchpads.ClickPairsUpIff | kvm-platform/src/evdev_capture.rs:304-327 | a clickpad release lets go the button its press held exactly unless an earlier two-finger press was still down and this press has fewer fingers |
| Touchpads.RemapOnlyWhileDown | kvm-platform/src/evdev_capture.rs:304-327 | over every run the right-click remap is set only while the left button is down |
| Touchpads.ClickPairsUp | kvm-platform/src/evdev_capture.rs:304-327 | so over every run a click that begins with the button up lets go the button it pressed, whatever fingers come and go between |
| Touchpads.TapWasStill | kvm-platform/src/evdev_capture.rs:249-284 | a tap is only reported of a touch no older than 180 ms that every report saw within 24 units of its start |
| Touchpads.PointerFollows | kvm-platform/src/evdev_capture.rs:411-429 | one finger moves the pointer its own way, twice to four times as far, and a jump moves nothing |
| Touchpads.PanDominant | kvm-platform/src/evdev_capture.rs:445-462 | two fingers scroll on the axis they move along and never on the other |
| Captures.ReadKeepsUnion | kvm-platform/src/evdev_capture.rs:705-730 | reading any device keeps the shared hold the union of the devices' holds and the accepted stream disciplined |
| Captures.UnplugKeepsUnion | kvm-platform/src/evdev_capture.rs:649-703 | a disconnect releases exactly what no remaining device holds |
| Captures.RunIsUnion | kvm-platform/src/evdev_capture.rs:242-750 | over every run of reads, taps, remaps, repeats, hot-plugs, disconnects and hand-ons the shared hold is the union, and the accepted stream leaves exactly it held |
| Captures.RunAlternates | kvm-platform/src/evdev_capture.rs:705-730 | in every run each control alternates in acceptance order and is held exactly while some device holds it |
| CaptureOrders.NextIsBacklogHead | kvm-platform/src/evdev_capture.rs:772-780 | events are handed on from the front of the backlog, until it is empty |
| CaptureOrders.ReadJoinsBacklog | kvm-platform/src/evdev_capture.rs:822-843 | within a pass what a device offers and the filter accepts joins the back of the backlog |
| CaptureOrders.HandedOnInOrderIff | kvm-platform/src/evdev_capture.rs:649-703 | after disconnects, positions of acceptance are handed on ascending exactly when no vanished device with events sits behind a surviving one with events and either nothing is freed or no survivor has events queued |
| CaptureOrders.PassHandsOn | kvm-platform/src/evdev_capture.rs:812-860 | one pass over the devices and its disconnects hand on everything accepted exactly once, at those positions, and so in order exactly under that condition |
| CaptureOrders.HandedOnOutOfOrder | kvm-platform/src/evdev_capture.rs:671-703 | a run from nothing plugged in: three keyboards and one disconnect after which what was handed on lets go of a key still held |
| EvdevCaptures.Device.Process | kvm-platform/src/evdev_capture.rs:242-496 | one raw event: the whole new device state and what it offers |
| EvdevCaptures.EvdevCapture.RemoveDevices | kvm-platform/src/evdev_capture.rs:649-703 | queues of vanished devices are kept and what only they held is released in ascending order |
| VirtualDevices.SendKeepsFaithfulIff | kvm-platform/src/inject.rs:222-317 | the bookkeeping drifts from what the written edges leave held exactly when an edge that changes a hold gets through without its report; no other failed write makes it |
| VirtualDevices.ReleaseAllLeaves | kvm-platform/src/inject.rs:404-432 | after release-all the written edges leave held exactly the lines whose edge could not be written, so nothing when it reports success |
| VirtualDevices.SmoothAgrees | kvm-platform/src/inject.rs:268-290 | one smooth scroll keeps hi-res equal to 120 times detents plus debt on both axes exactly when neither bank saturates |
| VirtualDevices.FailedSmoothAgrees | kvm-platform/src/inject.rs:268-290 | a smooth scroll that could not be written was banked already: the balance survives exactly when both banks come back to where they were |
| VirtualDevices.OthersAgree | kvm-platform/src/inject.rs:223-267 | every other event keeps that balance, whatever writes fail |
| VirtualDevices.BankExact | kvm-platform/src/inject.rs:124-132 | the bank stays below one detent and loses nothing exactly when the addition does not saturate |
| VirtualHolds.PlayedImage | kvm-platform/src/inject.rs:291-310 | playing a disciplined stream leaves held the image of what it leaves held, and repeats write nothing |
| VirtualHolds.PlayedFaithfullyIff | kvm-platform/src/inject.rs:959-1068 | over a set of usages every disciplined stream is rendered faithfully exactly when no two of them share a code |
| VirtualHolds.AliasLetsGo | kvm-platform/src/inject.rs:1007-1053 | two usages behind one code, as 0x39 and 0x82: releasing the first lets the second go |
| VirtualHolds.NothingStaysDown | kvm-platform/src/inject.rs:404-432 | whatever was played, release-all leaves nothing held |
| VirtualHolds.PlayedTotals | kvm-platform/src/inject.rs:222-290 | over any stream the pointer and hi-res axes move by exactly the sum asked for |
| VirtualHolds.PlayedAgrees | kvm-platform/src/inject.rs:244-290 | over any mix of events without saturation the two scroll resolutions never disagree by a detent |
| VirtualHolds.ModestScrollHolds | kvm-platform/src/inject.rs:124-132 | saturation needs a single scroll within 256 of the end of the machine's integers |
| VirtualHolds.EndToEnd | kvm-platform/src/inject.rs:222-317 | over every capture run, playing the accepted stream leaves held on the virtual device exactly what some physical device holds |
| VirtualReaders.SendUpToDate | kvm-platform/src/inject.rs:205-222 | while no edge is written without its report, whoever reads the devices, and learns of an edge with the next report, is never behind the log |
| VirtualReaders.PlayedIsSeen | kvm-platform/src/inject.rs:205-317 | so over every stream played readers see held exactly what was written as held |
| VirtualReaders.TornPressSticks | kvm-platform/src/inject.rs:205-209 | a press torn between edge and report: letting everything go succeeds without touching it, and with the next key typed readers see it go down and stay down |
| VirtualAnswers.SendSucceedsIff | kvm-platform/src/inject.rs:222-317 | an event succeeds exactly when its key is known and every write it needs got through whole; one that needs none writes nothing |
| VirtualAnswers.ReleaseSucceedsIff | kvm-platform/src/inject.rs:404-432 | letting everything go succeeds exactly when every held line gets through whole |
| VirtualAnswers.ButtonsThrough | kvm-platform/src/inject.rs:949-958 | over every capture run a button code is held on the virtual mouse exactly while some device holds the button read under it |
| VirtualAnswers.KeysThrough | kvm-platform/src/inject.rs:959-1068 | and a key code the injector knows back exactly while some device holds the key read under it |
| UinputDevices.UinputDevice.Send | kvm-platform/src/inject.rs:222-317 | one event: what is written, what is recorded and whether it succeeded |
| MotionEchoes.MatchesIsExplains | kvm-platform/src/capture.rs:2061-2076 | the saturating test equals the plain one: saturation never decides |
| MotionEchoes.MotionEcho.FilterRaw | kvm-platform/src/capture.rs:2051-2084 | expiring deque and early-exit loop zero a component exactly when one of the last 32 notes, at most 40 ms old, explains it |
| MotionEchoes.EchoIff | kvm-platform/src/capture.rs:2043-2084 | exactly what is dropped, axis by axis: motion going the way of one of the last 32 injections of the last 40 ms and no further than twice it and four pixels |
| MotionEchoes.TakeBackPasses | kvm-platform/src/capture.rs:2043-2050 | motion larger than every recent dribble passes whole |
| MotionEchoes.BoundInvisible | kvm-platform/src/capture.rs:2036-2041 | the bound of 32 is invisible while no more notes than that fall in the window |
| WheelDedups.WheelDedup.FilterRaw | kvm-platform/src/capture.rs:2141-2161 | a raw tick is dropped as our own echo or loses exactly the axes the hook just delivered |
| WheelDedups.OwnEchoIff | kvm-platform/src/capture.rs:2141-2161 | over every run a raw tick is dropped as our own echo exactly when our injection was seen at most 30 ms before |
| WheelDedups.NotedSilences | kvm-platform/src/capture.rs:2112-2182 | a receipt that was only noted silences, within 20 ms and with no hook event between, raw ticks that go its way |
| WheelDedups.DroppedWasDelivered | kvm-platform/src/capture.rs:2122-2182 | no lost scroll: over every run a component dropped outside the echo window was delivered, going the same way, by an earlier event of the other channel at most 20 ms before |
| WheelDedups.TickDoublesIff | kvm-platform/src/capture.rs:2122-2161 | a tick whose like just came through the other channel passes exactly when the latest survivor of that channel goes another way |
| WheelDedups.DoublesIff | kvm-platform/src/capture.rs:2094-2182 | over every run an event scrolls an axis a second time within 20 ms exactly when, before it, the slot of the other channel no longer holds the direction that channel just scrolled |
| WheelDedups.OneWayNeverDoubles | kvm-platform/src/capture.rs:2094-2182 | a run that scrolls one way on one axis never doubles |
| WheelDedups.DiagonalDoubles | kvm-platform/src/capture.rs:2122-2161 | a diagonal pan, two hook ticks and one raw tick, does scroll twice on one axis |
| PtpPans.PtpPan.Feed | kvm-platform/src/capture.rs:2365-2458 | one report: motion banked, axis locked, scroll emitted, remainder kept |
| PtpPanRuns.PanStep | kvm-platform/src/capture.rs:2365-2425 | one report: fewer or more fingers forget everything, the first of two remembers where they are, the others add to the travel, and a rest of 300 ms starts travel and verdict afresh |
| PtpPanRuns.LocksIff | kvm-platform/src/capture.rs:2376-2425 | over every unbroken run a gesture locks at exactly the first report after which its whole travel is 60 units across or 120 along and twice the other, to that axis |
| PtpPanRuns.PanConserves | kvm-platform/src/capture.rs:2427-2458 | over every run in which an axis is never locked out, what it scrolled and what is left over are what was left before and how far the fingers moved, right and up positive |
| PtpPanRuns.ScrollWorth | kvm-platform/src/capture.rs:2430-2456 | a scroll goes the way of what it pays for and is worth it to within one unit of rounding |
| PtpPans.RemainderSmall | kvm-platform/src/capture.rs:2430-2456 | an unclamped emission leaves at most units/120 + 1 of unchanged sign |
| PtpPans.FeedRemainder | kvm-platform/src/capture.rs:2427-2458 | on each emitting axis of a steady report that is what is left, and a locked-out axis emits and keeps nothing |
| PtpPans.LockHolds | kvm-platform/src/capture.rs:2413-2425 | over every run of reports a locked gesture keeps its axis and the other stays silent, until the fingers lift or pause |
| PtpPans.DiagonalNeverLocks | kvm-platform/src/capture.rs:2376-2425 | over every run of reports that move both axes alike neither axis is ever locked out |
| PtpPans.RestingReport | kvm-platform/src/capture.rs:2427-2458 | a report of resting fingers re-emits the remainder of each axis that is not locked out and forgets the other |
| PtpPans.RestingSilentIff | kvm-platform/src/capture.rs:2376-2458 | over every run of reports with an unmoved midpoint an axis is silent, from as many reports on as it has units left over, exactly when these are worth a whole number of 120ths, or its scale is at least 120, or the other axis took the gesture; otherwise it scrolls on every report |
| PtpPans.RestingSettlesIff | kvm-platform/src/capture.rs:2435-2456 | over all such runs resting fingers fall silent, whatever is left over, exactly when both scales are at least 120 or divide 120 |
| PtpPans.OneUnitNeverSettles | kvm-platform/src/capture.rs:2435-2456 | over every such run at any other scale, one unit left over scrolls by 120/scale on every report |
| PtpPans.DefaultNeverSettles | kvm-platform/src/capture.rs:2341-2458 | a run from construction at the default scale: fingers moved once by one unit and held scroll by one on every report, however many come |
| PtpPinches.PtpPinch.Feed | kvm-platform/src/capture.rs:2548-2636 | one report: rates folded in, engagement and takeover decided, zoom emitted |
| PtpZooms.EngagesIff | kvm-platform/src/capture.rs:2602-2616 | an idle pinch engages on a report exactly when no pan owns it, the spread outpaces the midpoint by half and one unit a report, and stands 192 units from its anchor |
| PtpZooms.StillEngagesIff | kvm-platform/src/capture.rs:2548-2616 | over every run from construction with a still midpoint, engaged exactly once some report stood 192 units from where the spread was last slower than one unit a report |
| PtpZooms.BriskEngagesIff | kvm-platform/src/capture.rs:2548-2616 | fingers that move three units or more on every report engage exactly once 192 units from where they began |
| PtpZooms.ZoomConserves | kvm-platform/src/capture.rs:2613-2636 | over every engaged stretch what the zoom is worth and the remainder are the movement of the spread outside scrolling reports |
| PtpZooms.ZoomFollows | kvm-platform/src/capture.rs:2630-2636 | each zoom has the sign of what it pays for, and below the clamp leaves less than a 120th and two units |
| PtpZooms.LetsGoIff | kvm-platform/src/capture.rs:2617-2629 | over every engaged stretch, two fingers down, the pinch ends exactly at the fifth scrolling report in a row |
| PtpPinches.EndIsDisengaging | kvm-platform/src/capture.rs:2538-2636 | an end is reported exactly when an engaged pinch stops being one, and only an engaged pinch zooms |
| PtpPinches.ScrollStep | kvm-platform/src/capture.rs:2577-2601 | one scrolling report shrinks the spread's lead by the factor 0.65 and 0.7 more |
| PtpPinches.DominantEnds | kvm-platform/src/capture.rs:2613-2629 | once scroll dominates it keeps dominating and takes over within five reports |
| PtpPinches.PinchLetsGo | kvm-platform/src/capture.rs:2577-2629 | from any rates a scroll ends an engaged pinch after a number of reports logarithmic in the lead |
| PtpPinches.SeventyFramesSuffice | kvm-platform/src/capture.rs:2577-2629 | from every reachable state 70 scrolling reports end it |
| PtpPinches.ScrollNeverEngages | kvm-platform/src/capture.rs:2581-2611 | over every run whose drift stays below 1.5 times the midpoint rate nothing engages, zooms or ends |
| PtpPinches.PanOwnedNeverEngages | kvm-platform/src/capture.rs:2602-2611 | over every run that a proven pan owns, whatever the spread does, nothing engages, zooms or ends |
| PinchTaps.PinchState.Feed | kvm-platform/src/mt_pinch.rs:172-228 | one snapshot: the whole new state, the zoom and whether a gesture ended |
| PinchTaps.FrameAccounts | kvm-platform/src/mt_pinch.rs:172-228 | an end is reported exactly at engaged to idle, zoom only while engaged, and zoom plus remainder account for the spread exactly below the detent limit |
| PinchTaps.ZoomConserves | kvm-platform/src/mt_pinch.rs:219-226 | over an engaged stretch total zoom times units plus remainder is the spread moved outside scroll frames |
| PinchTaps.EngagingNeedsDrift | kvm-platform/src/mt_pinch.rs:203-218 | an engaging frame needs at least 192 units of spread movement since the last scroll frame or the start |
| PinchTaps.ScrollTakesOver | kvm-platform/src/mt_pinch.rs:203-214 | scroll frames in a row end an engaged gesture at the fifth and not before |
| PinchTaps.TrackedPosition | kvm-platform/src/mt_pinch.rs:241-258 | a contact is where its slot was last reported, whichever coordinate came first, and no other contact moves |
| PinchTaps.TapDevice.Ingest | kvm-platform/src/mt_pinch.rs:240-272 | one raw event: contacts tracked, reports fed, the first gesture of a poll kept |
| PinchPolls.PollHandsOnFirst | kvm-platform/src/mt_pinch.rs:262-270 | a poll hands on exactly its first gesture |
| PinchPolls.EndsLost | kvm-platform/src/mt_pinch.rs:262-270 | of the ends of one poll all are lost but one that comes first |
| PinchPolls.HandedOnBracketsIff | kvm-platform/src/mt_pinch.rs:172-270 | over every run of polls what is handed on leaves a zoom open exactly while the pinch is engaged and has zoomed, exactly unless, of the reports fed in the last poll that zoomed or stopped a gesture, the first and the last to do so pulled opposite ways |
| PinchPolls.EndLost | kvm-platform/src/mt_pinch.rs:262-270 | a run of three polls from a fresh tap that hands on two zooms and never the end |
| RejectRecords.SameDevice | kvm-daemon/src/control.rs:75-87 | fingerprints that differ in ASCII case alone name one device |
| RejectRecords.SweptMeans | kvm-daemon/src/control.rs:112-119 | the janitor keeps exactly the records that still freeze or whose ten minutes are not over |
| RejectRecords.FrozenByHistory | kvm-daemon/src/control.rs:96-119 | sweeping old records is invisible: who is frozen follows from the delivered decisions alone |
| RejectRecords.RecordMeans | kvm-daemon/src/control.rs:151-176 | a record counts the denials of its ten-minute window, none approved between, and freezes for a minute after the last exactly from the fifth on |
| RejectRecords.FreezeIsEarned | kvm-daemon/src/control.rs:25-35 | a frozen device was denied at least five times within ten minutes with no approval between |
| RejectRecords.DenialsFreeze | kvm-daemon/src/control.rs:25-35 | five such denials from a clean slate do freeze |
| PairingApprovals.PairingApprovals.DecideRequest | kvm-daemon/src/control.rs:144-178 | the request is removed; a decision that reaches its waiter is counted |
| PairingAnswers.RegisterIff | kvm-daemon/src/control.rs:75-133 | a request is refused exactly when 16 are listed, its device is listed, or its device is frozen, in that order, and otherwise listed |
| PairingAnswers.ListedIff | kvm-daemon/src/control.rs:75-180 | over every run a device is listed on a ticket exactly when it asked and was not decided on, cancelled or cleaned up since |
| PairingAnswers.WaitingIff | kvm-daemon/src/control.rs:442-453 | a ticket is waited on exactly when it was handed out and its holder has not stopped waiting |
| PairingAnswers.AnswerIff | kvm-daemon/src/control.rs:144-151 | over every run one who waits hears yes exactly when an approval of that very request was delivered and they have not finished waiting since |
| PairingAnswers.FrozenIff | kvm-daemon/src/control.rs:96-176 | over every run a device is frozen exactly as the delivered decisions on it amount to |
| PairingApprovals.RunSafe | kvm-daemon/src/control.rs:75-178 | over every run at most 16 requests are listed, none from a frozen device |
| PairingApprovals.FreezeRefuses | kvm-daemon/src/control.rs:96-110 | until the minute is over every request of a frozen device is refused, whatever else happens |
| PairingApprovals.FreezingDenial | kvm-daemon/src/control.rs:154-176 | a denial freezes exactly when it is at least the fifth of its window, for one minute, and takes the device off the list |
| PairingApprovals.FinishHitsOwnIff | kvm-daemon/src/control.rs:442-453 | clean-up spares every other request exactly when no newer one of the same device is listed |
| PairingApprovals.NewerRequestDropped | kvm-daemon/src/control.rs:442-453 | a device that asks again before the clean-up has its new request dropped while its waiter still listens |
| LinkApprovals.LinkApprovals.DecideLink | kvm-daemon/src/control.rs:303-340 | a grant is remembered and clears the count, a denial is counted |
| LinkAnswers.RegisterIff | kvm-daemon/src/control.rs:242-289 | a link is refused exactly when it has no epoch, 16 are listed, it is listed, or its device is frozen, in that order, and otherwise listed |
| LinkAnswers.ListedIff | kvm-daemon/src/control.rs:242-400 | over every run a link is listed on a ticket exactly when it was asked for and was not decided on, cleaned up or revoked since |
| LinkAnswers.AnswerIff | kvm-daemon/src/control.rs:303-340 | over every run whoever asked for a link hears yes exactly when a decision allowing that very link was delivered and they have not finished waiting since |
| LinkAnswers.FrozenIff | kvm-daemon/src/control.rs:320-337 | over every run a device is frozen exactly as the delivered decisions on its links amount to |
| LinkApprovals.RunSafe | kvm-daemon/src/control.rs:242-400 | over every run at most 16 links are listed and at most 512 grants remembered, each of which stands |
| LinkGrants.ApprovedIff | kvm-daemon/src/control.rs:344-400 | over every run a link reads approved exactly when a decision less than a day old allowed it, and no later operation revoked its epoch, or its device in any ASCII case, or overflowed the cap |
| LinkApprovals.GrantSurvivesIff | kvm-daemon/src/control.rs:352-358 | a grant outlives its own decision exactly when live grants do not exceed 512 |
| LinkApprovals.GrantForgotten | kvm-daemon/src/control.rs:352-358 | a run of 512 links asked for and allowed, then one more: its delivered grant is not remembered |
| LinkApprovals.FreezeStep | kvm-daemon/src/control.rs:303-340 | only a delivered decision on the same device changes its freeze |
| LinkApprovals.DenialLiftsFreeze | kvm-daemon/src/control.rs:320-337 | a denial of another queued link ends a running freeze exactly when the ten-minute window has run out |
| LinkApprovals.FreezeLifted | kvm-daemon/src/control.rs:320-337 | a run of six links of one device in which that happens |

## Left out

- Operating-system code: device files, ioctl, hooks, raw-input registration, sockets, processes. Writes become an event
  log; per device file a batch is written whole or not at all, and of a key or button edge the edge may get through
  without its report.
- Key-code tables: partial maps given as parameters. What is used of them (the injector's table undoes the capture's
  wherever it knows a usage) is a hypothesis of `VirtualHolds.EndToEnd`.
- The network, the service and the protocol: nothing is claimed about the two ends agreeing on a cursor.
- Telemetry: `last_clamp`, `last_resync_reset`, counters and log lines; the reasons of a clamp are not distinguished.
- EdgeRouters.EdgeRouter.Route: one clock reading per event, where the source reads the clock at each use; the 64-bit
  accumulators are unbounded integers; grid coordinates do not wrap; fields are grouped in records.
- Layout is a value: `set_screen_size` and `place_peer` return the changed layout instead of updating it in place.
- EvdevCaptures.Device.Process: key and button sets are one set of controls, touchpad coordinates are unbounded
  integers, and grabbing devices exclusively is not modelled.
- EvdevCaptures.EvdevCapture.Open: which kind a node is, and that it is not open already, is given by the caller.
- UinputDevices.UinputDevice.Send: the virtual touchscreen for pinch gestures is not modelled.
- UinputDevices.UinputDevice.ReleaseAll: lifting the contacts of that touchscreen first is not modelled.
- PtpPans.PtpPan.Feed: the clock is a parameter; 64-bit saturation of the accumulators is not modelled.
- PtpPinches.PtpPinch.Feed: 64-bit floating point is exact reals, so a tie at a threshold may differ by rounding.
- Holds of a touchpad tap are not part of any device's hold, as in the source.
- PairingApprovals.PairingApprovals.RegisterRequest: the automatic-approval test hook and the contents of a request are
  left out; each method is one atomic step, and the end of waiting a step of its own.
- The pairing grace for first links (`note_paired`, `recently_paired`).
- Cancelling a link request.
- Configuration files, clipboard, autostart, diagnostics and the request dispatch of the control server.
