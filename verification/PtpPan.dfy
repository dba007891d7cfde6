/** Two-finger pan: sensor motion becomes smooth scroll, with a remainder and an axis lock. */
module PtpPans {
  import opened Basics

  const LOCK_MIN_X := 60
  const LOCK_MIN_Y := 120
  const LOCK_RATIO := 2
  const IDLE_MS := 300
  const SCROLL_LIMIT := 120_000

  datatype PanAxis = LockX | LockY

  datatype PanState = PanState(
    prev: Option<(int, int)>,
    accX: int,
    accY: int,
    unitsX: int,
    unitsY: int,
    lock: Option<PanAxis>,
    travelX: nat,
    travelY: nat,
    lastFeed: Option<Instant>)

  /** No contacts yet, at the default scale. */
  const CREATED := PanState(None, 0, 0, 64, 64, None, 0, 0, None)

  type Contact = (i32, i32)

  function Midpoint(a: Contact, b: Contact): (int, int) {
    (TruncDiv(a.0 + b.0, 2), TruncDiv(a.1 + b.1, 2))
  }

  /** Scroll one axis emits for a remainder: 120ths of a detent, rounded toward zero. */
  function Emitted(units: int, acc: int): int {
    Clamp(TruncDiv(acc * 120, Max(units, 1)), -SCROLL_LIMIT, SCROLL_LIMIT)
  }

  /** The sensor motion an emission pays for. */
  function Spent(units: int, out: int): int {
    TruncDiv(out * Max(units, 1), 120)
  }

  function Remainder(units: int, acc: int): int {
    acc - Spent(units, Emitted(units, acc))
  }

  function Verdict(travelX: nat, travelY: nat): Option<PanAxis> {
    if travelX >= LOCK_MIN_X && travelX >= travelY * LOCK_RATIO then Some(LockX)
    else if travelY >= LOCK_MIN_Y && travelY >= travelX * LOCK_RATIO then Some(LockY)
    else None
  }

  function Lifted(p: PanState): PanState {
    p.(prev := None, accX := 0, accY := 0, lock := None, travelX := 0, travelY := 0, lastFeed := None)
  }

  predicate Paused(p: PanState, now: Instant) {
    p.lastFeed.Some? && ElapsedMillis(p.lastFeed.value, now) > IDLE_MS
  }

  /** The report's motion banked, a pause having ended the previous verdict. */
  function Banked(p: PanState, at: (int, int), now: Instant): PanState
    requires p.prev.Some?
  {
    var paused := Paused(p, now);
    var dx, dy := at.0 - p.prev.value.0, p.prev.value.1 - at.1;
    var travelX := (if paused then 0 else p.travelX) + Abs(dx);
    var travelY := (if paused then 0 else p.travelY) + Abs(dy);
    var lock := if paused || p.lock.None? then Verdict(travelX, travelY) else p.lock;
    p.(prev := Some(at), accX := p.accX + dx, accY := p.accY + dy,
       lock := lock, travelX := travelX, travelY := travelY, lastFeed := Some(now))
  }

  /** A locked-out axis emits nothing and forgets its remainder. */
  function Flushed(b: PanState): (PanState, (int, int)) {
    var emitX, emitY := b.lock != Some(LockY), b.lock != Some(LockX);
    (b.(accX := if emitX then Remainder(b.unitsX, b.accX) else 0,
         accY := if emitY then Remainder(b.unitsY, b.accY) else 0),
     (if emitX then Emitted(b.unitsX, b.accX) else 0, if emitY then Emitted(b.unitsY, b.accY) else 0))
  }

  function Panned(p: PanState, contacts: seq<Contact>, now: Instant): (PanState, (int, int)) {
    if |contacts| != 2 then (Lifted(p), (0, 0))
    else
      var at := Midpoint(contacts[0], contacts[1]);
      if p.prev.None? then (p.(prev := Some(at)), (0, 0)) else Flushed(Banked(p, at, now))
  }

  class PtpPan {
    var prev: Option<(int, int)>
    var accX: int
    var accY: int
    var unitsX: int
    var unitsY: int
    var lock: Option<PanAxis>
    var travelX: nat
    var travelY: nat
    var lastFeed: Option<Instant>

    function State(): PanState
      reads this
    {
      PanState(prev, accX, accY, unitsX, unitsY, lock, travelX, travelY, lastFeed)
    }

    constructor ()
      ensures State() == CREATED
    {
      prev, accX, accY, unitsX, unitsY := None, 0, 0, 64, 64;
      lock, travelX, travelY, lastFeed := None, 0, 0, None;
    }

    /** Banks one report's motion; a pause ends the previous verdict, and enough motion passes a new one. */
    method Bank(at: (int, int), now: Instant)
      requires prev.Some?
      modifies this
      ensures State() == Banked(old(State()), at, now)
    {
      var dx, dy := at.0 - prev.value.0, prev.value.1 - at.1;
      prev := Some(at);
      if lastFeed.Some? && ElapsedMillis(lastFeed.value, now) > IDLE_MS {
        lock, travelX, travelY := None, 0, 0;
      }
      lastFeed := Some(now);
      accX, accY := accX + dx, accY + dy;
      travelX, travelY := travelX + Abs(dx), travelY + Abs(dy);
      if lock.None? {
        lock := Verdict(travelX, travelY);
      }
    }

    /** Emits what the remainders are worth on the axes not locked out. */
    method Flush() returns (outX: int, outY: int)
      modifies this`accX, this`accY
      ensures (State(), (outX, outY)) == Flushed(old(State()))
    {
      hide Emitted, Spent;
      outX, outY := 0, 0;
      if lock == Some(LockX) {
        accY := 0;
        outX := Emitted(unitsX, accX);
        accX := accX - Spent(unitsX, outX);
      } else if lock == Some(LockY) {
        accX := 0;
        outY := Emitted(unitsY, accY);
        accY := accY - Spent(unitsY, outY);
      } else {
        outX, outY := Emitted(unitsX, accX), Emitted(unitsY, accY);
        accX, accY := accX - Spent(unitsX, outX), accY - Spent(unitsY, outY);
      }
    }

    /** One report of the contacts that are down. */
    method Feed(contacts: seq<Contact>, now: Instant) returns (outX: int, outY: int)
      modifies this
      ensures (State(), (outX, outY)) == Panned(old(State()), contacts, now)
    {
      hide Flushed, Banked, Midpoint;
      if |contacts| != 2 {
        prev, accX, accY, lock, travelX, travelY, lastFeed := None, 0, 0, None, 0, 0, None;
        return 0, 0;
      }
      var at := Midpoint(contacts[0], contacts[1]);
      if prev.None? {
        prev := Some(at);
        return 0, 0;
      }
      Bank(at, now);
      outX, outY := Flush();
    }
  }

  // ---- remainders ----------------------------------------------------------------------------

  /** An emission below the limit. */
  predicate Unclamped(units: int, acc: int) {
    Abs(TruncDiv(acc * 120, Max(units, 1))) <= SCROLL_LIMIT
  }

  /** Rounding down `a` in steps of `b` falls short by less than one step. */
  lemma DivBounds(a: nat, b: nat)
    requires b > 0
    ensures (a / b) * b <= a < (a / b) * b + b
  {
  }

  /** For a remainder of zero or more: what is left is small and of the same sign. */
  lemma PositiveRemainder(units: int, acc: nat)
    requires Unclamped(units, acc)
    ensures 0 <= Remainder(units, acc) && 120 * Remainder(units, acc) < Max(units, 1) + 120
  {
    var u := Max(units, 1);
    DivBounds(acc * 120, u);
    var out := acc * 120 / u;
    assert Emitted(units, acc) == out;
    DivBounds(out * u, 120);
    assert Spent(units, out) == out * u / 120;
  }

  lemma EmittedOdd(units: int, acc: int)
    ensures Emitted(units, -acc) == -Emitted(units, acc) && Remainder(units, -acc) == -Remainder(units, acc)
    ensures Unclamped(units, -acc) == Unclamped(units, acc)
  {
    assert (-acc) * 120 == -(acc * 120);
    TruncOdd(acc * 120, Max(units, 1));
    var out := Emitted(units, acc);
    assert (-out) * Max(units, 1) == -(out * Max(units, 1));
    TruncOdd(out * Max(units, 1), 120);
  }

  lemma TruncOdd(a: int, b: int)
    requires b > 0
    ensures TruncDiv(-a, b) == -TruncDiv(a, b)
  {
  }

  /** An unclamped emission leaves a remainder of unchanged sign and at most one detent-120th's worth, plus one. */
  lemma RemainderSmall(units: int, acc: int)
    requires Unclamped(units, acc)
    ensures Abs(Remainder(units, acc)) <= Max(units, 1) / 120 + 1
    ensures acc >= 0 ==> Remainder(units, acc) >= 0
    ensures acc <= 0 ==> Remainder(units, acc) <= 0
  {
    EmittedOdd(units, acc);
    PositiveRemainder(units, Abs(acc));
  }

  /** On a steady report each axis that is not locked out keeps that remainder; a locked-out one keeps nothing. */
  lemma FeedRemainder(p: PanState, contacts: seq<Contact>, now: Instant)
    requires |contacts| == 2 && p.prev.Some?
    ensures var b := Banked(p, Midpoint(contacts[0], contacts[1]), now);
            var q := Panned(p, contacts, now);
            && (q.0.lock == Some(LockY) ==> q.0.accX == 0 && q.1.0 == 0)
            && (q.0.lock == Some(LockX) ==> q.0.accY == 0 && q.1.1 == 0)
            && (q.0.lock != Some(LockY) && Unclamped(p.unitsX, b.accX) ==>
                  Abs(q.0.accX) <= Max(p.unitsX, 1) / 120 + 1 && Signum(q.0.accX) in {0, Signum(b.accX)})
            && (q.0.lock != Some(LockX) && Unclamped(p.unitsY, b.accY) ==>
                  Abs(q.0.accY) <= Max(p.unitsY, 1) / 120 + 1 && Signum(q.0.accY) in {0, Signum(b.accY)})
  {
    var b := Banked(p, Midpoint(contacts[0], contacts[1]), now);
    if Unclamped(p.unitsX, b.accX) {
      RemainderSmall(p.unitsX, b.accX);
    }
    if Unclamped(p.unitsY, b.accY) {
      RemainderSmall(p.unitsY, b.accY);
    }
    hide Remainder, Emitted, Unclamped, Banked;
  }

  // ---- gestures ------------------------------------------------------------------------------

  datatype Report = Report(contacts: seq<Contact>, now: Instant)

  function After(p: PanState, reports: seq<Report>): PanState {
    if reports == [] then p
    else Panned(After(p, reports[..|reports| - 1]), reports[|reports| - 1].contacts, reports[|reports| - 1].now).0
  }

  function Output(p: PanState, reports: seq<Report>, n: nat): (int, int)
    requires n < |reports|
  {
    Panned(After(p, reports[..n]), reports[n].contacts, reports[n].now).1
  }

  /** Two contacts throughout, and never a pause. */
  predicate Steady(p: PanState, reports: seq<Report>) {
    forall n :: 0 <= n < |reports| ==> |reports[n].contacts| == 2 && !Paused(After(p, reports[..n]), reports[n].now)
  }

  lemma LockStep(p: PanState, contacts: seq<Contact>, now: Instant)
    requires p.lock.Some? && p.prev.Some? && |contacts| == 2 && !Paused(p, now)
    ensures var q := Panned(p, contacts, now);
            && q.0.lock == p.lock && q.0.prev.Some?
            && (if p.lock.value.LockX? then q.1.1 == 0 else q.1.0 == 0)
  {
    hide Remainder, Emitted;
  }

  lemma {:induction false} LockKept(p: PanState, reports: seq<Report>, n: nat)
    requires p.lock.Some? && p.prev.Some? && Steady(p, reports) && n <= |reports|
    ensures After(p, reports[..n]).lock == p.lock && After(p, reports[..n]).prev.Some?
  {
    if n > 0 {
      LockKept(p, reports, n - 1);
      assert reports[..n][..n - 1] == reports[..n - 1];
      LockStep(After(p, reports[..n - 1]), reports[n - 1].contacts, reports[n - 1].now);
      hide Panned, Paused;
    }
  }

  /** A locked gesture keeps its axis, the other one silent in every report, until the fingers lift or pause. */
  lemma LockHolds(p: PanState, reports: seq<Report>, n: nat)
    requires p.lock.Some? && p.prev.Some? && Steady(p, reports) && n < |reports|
    ensures After(p, reports).lock == p.lock
    ensures if p.lock.value.LockX? then Output(p, reports, n).1 == 0 else Output(p, reports, n).0 == 0
  {
    LockKept(p, reports, |reports|);
    assert reports[..|reports|] == reports;
    LockKept(p, reports, n);
    LockStep(After(p, reports[..n]), reports[n].contacts, reports[n].now);
    hide After, Panned;
  }

  /** Neither axis has travelled twice as far as the other. */
  predicate Balanced(p: PanState) {
    (p.travelX < 2 * p.travelY && p.travelY < 2 * p.travelX) || (p.travelX == 0 && p.travelY == 0)
  }

  /** The report moves both axes alike, neither twice as far as the other. */
  predicate Diagonal(p: PanState, contacts: seq<Contact>) {
    |contacts| == 2 && p.prev.Some? ==>
      var at := Midpoint(contacts[0], contacts[1]);
      var mx, my := Abs(at.0 - p.prev.value.0), Abs(at.1 - p.prev.value.1);
      (mx < 2 * my && my < 2 * mx) || (mx == 0 && my == 0)
  }

  lemma DiagonalStep(p: PanState, contacts: seq<Contact>, now: Instant)
    requires p.lock.None? && Balanced(p) && Diagonal(p, contacts)
    ensures var q := Panned(p, contacts, now).0; q.lock.None? && Balanced(q)
  {
    hide Remainder, Emitted, Midpoint;
  }

  /** A true diagonal never locks: over any run of reports that all move both axes alike, both keep scrolling. */
  lemma {:induction false} DiagonalNeverLocks(p: PanState, reports: seq<Report>)
    requires p.lock.None? && Balanced(p)
    requires forall n :: 0 <= n < |reports| ==> Diagonal(After(p, reports[..n]), reports[n].contacts)
    ensures After(p, reports).lock.None? && Balanced(After(p, reports))
  {
    if reports != [] {
      var n := |reports| - 1;
      forall k | 0 <= k < n
        ensures Diagonal(After(p, reports[..n][..k]), reports[..n][k].contacts)
      {
        assert reports[..n][..k] == reports[..k];
      }
      hide Diagonal, Panned, Balanced;
      DiagonalNeverLocks(p, reports[..n]);
      DiagonalStep(After(p, reports[..n]), reports[n].contacts, reports[n].now);
    }
  }

  // ---- resting fingers -----------------------------------------------------------------------

  function AccOf(p: PanState, axis: PanAxis): int {
    if axis.LockX? then p.accX else p.accY
  }

  function UnitsOf(p: PanState, axis: PanAxis): int {
    if axis.LockX? then p.unitsX else p.unitsY
  }

  function Along(out: (int, int), axis: PanAxis): int {
    if axis.LockX? then out.0 else out.1
  }

  /** The other axis owns the gesture. */
  predicate LockedOut(p: PanState, axis: PanAxis) {
    p.lock.Some? && p.lock.value != axis
  }

  /** A resting report passes the emitting axes' remainders on unchanged. */
  lemma RestingReport(p: PanState, contacts: seq<Contact>, now: Instant, axis: PanAxis)
    requires |contacts| == 2 && p.prev == Some(Midpoint(contacts[0], contacts[1]))
    ensures var q := Panned(p, contacts, now);
            && q.0.prev == p.prev && UnitsOf(q.0, axis) == UnitsOf(p, axis)
            && AccOf(q.0, axis) == (if LockedOut(q.0, axis) then 0 else Remainder(UnitsOf(p, axis), AccOf(p, axis)))
            && Along(q.1, axis) == if LockedOut(q.0, axis) then 0 else Emitted(UnitsOf(p, axis), AccOf(p, axis))
  {
    hide Remainder, Emitted, Verdict;
  }

  /** Two contacts whose midpoint stays where it was last seen. */
  predicate Resting(p: PanState, reports: seq<Report>) {
    p.prev.Some? && forall r :: r in reports ==>
      |r.contacts| == 2 && Midpoint(r.contacts[0], r.contacts[1]) == p.prev.value
  }

  /** The axis was locked out after one of the first `n` reports. */
  predicate Dropped(p: PanState, reports: seq<Report>, n: nat, axis: PanAxis)
    requires n <= |reports|
  {
    exists k :: 0 < k <= n && LockedOut(After(p, reports[..k]), axis)
  }

  lemma {:induction false} RestKept(p: PanState, reports: seq<Report>, n: nat, axis: PanAxis)
    requires Resting(p, reports) && n <= |reports|
    ensures After(p, reports[..n]).prev == p.prev
    ensures UnitsOf(After(p, reports[..n]), axis) == UnitsOf(p, axis)
  {
    if n > 0 {
      RestKept(p, reports, n - 1, axis);
      assert reports[..n][..n - 1] == reports[..n - 1] && reports[n - 1] in reports;
      RestingReport(After(p, reports[..n - 1]), reports[n - 1].contacts, reports[n - 1].now, axis);
      hide Panned, Midpoint;
    }
  }

  /** What one more resting report does to an axis. */
  lemma RestStep(p: PanState, reports: seq<Report>, n: nat, axis: PanAxis)
    requires Resting(p, reports) && n < |reports|
    ensures var before, after := After(p, reports[..n]), After(p, reports[..n + 1]);
            && AccOf(after, axis)
               == (if LockedOut(after, axis) then 0 else Remainder(UnitsOf(p, axis), AccOf(before, axis)))
            && Along(Output(p, reports, n), axis)
               == if LockedOut(after, axis) then 0 else Emitted(UnitsOf(p, axis), AccOf(before, axis))
    ensures Dropped(p, reports, n + 1, axis)
        <==> Dropped(p, reports, n, axis) || LockedOut(After(p, reports[..n + 1]), axis)
  {
    RestKept(p, reports, n, axis);
    assert reports[..n + 1][..n] == reports[..n] && reports[n] in reports;
    RestingReport(After(p, reports[..n]), reports[n].contacts, reports[n].now, axis);
    hide Panned, Midpoint;
  }

  /** The remainder is a whole number of 120ths, or a sensor unit is worth at most one of them. */
  predicate Spendable(units: int, acc: int) {
    Max(units, 1) >= 120 || (acc * 120) % Max(units, 1) == 0
  }

  lemma EmittedBounds(units: int, acc: nat)
    ensures 0 <= Emitted(units, acc) <= SCROLL_LIMIT
    ensures Emitted(units, acc) == Min(acc * 120 / Max(units, 1), SCROLL_LIMIT)
    ensures Emitted(units, acc) * Max(units, 1) <= acc * 120
  {
    var u := Max(units, 1);
    DivBounds(acc * 120, u);
    MulMono(Emitted(units, acc), acc * 120 / u, u);
  }

  lemma MulMono(a: nat, b: nat, u: nat)
    requires a <= b
    ensures a * u <= b * u
  {
  }

  /** A clamped emission spends whole units, so what is left is as spendable as before. */
  lemma ClampedLeaves(units: int, acc: nat)
    requires !Unclamped(units, acc) && Max(units, 1) < 120
    ensures Remainder(units, acc) == acc - 1000 * Max(units, 1) && 0 <= Remainder(units, acc) < acc
    ensures Spendable(units, Remainder(units, acc)) <==> Spendable(units, acc)
  {
    var u := Max(units, 1);
    EmittedBounds(units, acc);
    assert Emitted(units, acc) == SCROLL_LIMIT && SCROLL_LIMIT * u == 120 * (1000 * u);
    assert Spent(units, SCROLL_LIMIT) == 1000 * u;
    assert (acc - 1000 * u) * 120 == acc * 120 + -SCROLL_LIMIT * u;
    ModShift(acc * 120, -SCROLL_LIMIT, u);
  }

  lemma ModShift(x: int, k: int, u: nat)
    requires u > 0
    ensures (x + k * u) % u == x % u
  {
    var q := x / u;
    assert x == q * u + x % u;
    assert x + k * u == (q + k) * u + x % u;
    ModUnique(x + k * u, q + k, x % u, u);
  }

  lemma ModUnique(x: int, q: int, r: nat, u: nat)
    requires u > 0 && x == q * u + r && r < u
    ensures x % u == r
  {
    var d := x / u - q;
    assert x == (x / u) * u + x % u;
    assert d * u == r - x % u;
    if d >= 1 {
      MulMono(1, d, u);
    } else if d <= -1 {
      MulMono(1, -d, u);
    }
  }

  /** Below the limit a spendable remainder goes whole, and any other leaves one unit. */
  lemma UnclampedLeaves(units: int, acc: nat)
    requires Unclamped(units, acc) && Max(units, 1) < 120
    ensures Spendable(units, acc) ==> Remainder(units, acc) == 0
    ensures !Spendable(units, acc) ==> Remainder(units, acc) == 1 && 120 % Max(units, 1) != 0
  {
    hide Unclamped;
    var u := Max(units, 1);
    PositiveRemainder(units, acc);
    UnclampedSpends(units, acc);
    hide Emitted, Spent, Remainder;
    SpentWhole(acc, u);
    if 120 % u == 0 {
      DividingSpends(acc, u);
    }
  }

  lemma EmittedWhole(units: int, acc: nat)
    requires Unclamped(units, acc)
    ensures 0 <= acc * 120 / Max(units, 1) == Emitted(units, acc)
  {
    DivBounds(acc * 120, Max(units, 1));
  }

  lemma SpentUp(units: int, out: nat, product: nat)
    requires product == out * Max(units, 1)
    ensures Spent(units, out) == product / 120
  {
  }

  lemma UnclampedSpends(units: int, acc: nat)
    requires Unclamped(units, acc)
    ensures Remainder(units, acc) == acc - (acc * 120 / Max(units, 1)) * Max(units, 1) / 120
  {
    hide Unclamped, Emitted, Spent;
    EmittedWhole(units, acc);
    var out: nat := acc * 120 / Max(units, 1);
    var product: nat := out * Max(units, 1);
    SpentUp(units, out, product);
  }

  lemma SpentWhole(acc: nat, u: nat)
    requires u > 0
    ensures (acc * 120) % u == 0 <==> (acc * 120 / u) * u / 120 == acc
  {
    var product := (acc * 120 / u) * u;
    assert product == acc * 120 - (acc * 120) % u;
  }

  lemma DividingSpends(acc: int, u: nat)
    requires u > 0 && 120 % u == 0
    ensures (acc * 120) % u == 0
  {
    assert acc * 120 == (acc * (120 / u)) * u + 0;
    ModUnique(acc * 120, acc * (120 / u), 0, u);
  }

  /** One emission: the remainder shrinks or nothing was emitted, and stays as spendable as it was. */
  lemma SpendStep(units: int, acc: nat)
    ensures 0 <= Remainder(units, acc) <= acc
    ensures Spendable(units, Remainder(units, acc)) <==> Spendable(units, acc)
    ensures Spendable(units, acc) && Emitted(units, acc) != 0 ==> Remainder(units, acc) < acc
    ensures !Spendable(units, acc) ==> Emitted(units, acc) > 0
  {
    hide Emitted, Remainder, Unclamped;
    EmissionStops(units, 0);
    if Max(units, 1) >= 120 {
      CoarseSpends(units, acc);
    } else if acc > 0 {
      FineEmits(units, acc);
      if Unclamped(units, acc) {
        UnclampedLeaves(units, acc);
      } else {
        ClampedLeaves(units, acc);
      }
    }
  }

  lemma CoarseSpends(units: int, acc: nat)
    requires Max(units, 1) >= 120
    ensures 0 <= Remainder(units, acc) <= acc && (Emitted(units, acc) != 0 ==> Remainder(units, acc) < acc)
  {
    EmittedBounds(units, acc);
    var u := Max(units, 1);
    var out := Emitted(units, acc);
    var product: nat := out * u;
    hide Emitted;
    assert Spent(units, out) == product / 120;
    if out > 0 {
      MulMono(1, out, u);
    }
  }

  /** At a finer scale than a 120th every unit of remainder scrolls. */
  lemma FineEmits(units: int, acc: nat)
    requires Max(units, 1) < 120 && acc > 0
    ensures Emitted(units, acc) > 0
  {
    var u := Max(units, 1);
    EmittedBounds(units, acc);
    DivBounds(acc * 120, u);
  }

  lemma DividesOdd(x: int, u: nat)
    requires u > 0 && x % u == 0
    ensures (-x) % u == 0
  {
    assert -x == (-(x / u)) * u + 0;
    ModUnique(-x, -(x / u), 0, u);
  }

  lemma SpendableOdd(units: int, acc: int)
    ensures Spendable(units, -acc) <==> Spendable(units, acc)
  {
    var u := Max(units, 1);
    if (acc * 120) % u == 0 {
      DividesOdd(acc * 120, u);
    }
    if (-acc * 120) % u == 0 {
      DividesOdd(-acc * 120, u);
    }
  }

  /** The same for a remainder of either sign. */
  lemma SpendEither(units: int, acc: int)
    ensures Abs(Remainder(units, acc)) <= Abs(acc)
    ensures Spendable(units, Remainder(units, acc)) <==> Spendable(units, acc)
    ensures Spendable(units, acc) && Emitted(units, acc) != 0 ==> Abs(Remainder(units, acc)) < Abs(acc)
    ensures !Spendable(units, acc) ==> Emitted(units, acc) != 0
    ensures Emitted(units, acc) == 0 ==> Remainder(units, acc) == acc
  {
    EmissionStops(units, acc);
    SpendStep(units, Abs(acc));
    EmittedOdd(units, Abs(acc));
    SpendableOdd(units, Abs(acc));
    SpendableOdd(units, Remainder(units, Abs(acc)));
    hide Emitted, Remainder, Spendable, Unclamped;
  }

  /** A remainder that emits nothing stays put. */
  lemma EmissionStops(units: int, acc: int)
    ensures Emitted(units, acc) == 0 ==> Remainder(units, acc) == acc
    ensures Emitted(units, 0) == 0 && Remainder(units, 0) == 0 && Spendable(units, 0)
  {
  }

  /** Where an axis stands after `n` resting reports. */
  lemma {:induction false} RestTrack(p: PanState, reports: seq<Report>, n: nat, axis: PanAxis)
    requires Resting(p, reports) && n <= |reports|
    ensures var units, acc, rest := UnitsOf(p, axis), AccOf(p, axis), AccOf(After(p, reports[..n]), axis);
            && (Dropped(p, reports, n, axis) ==> rest == 0)
            && (!Dropped(p, reports, n, axis) ==> (Spendable(units, rest) <==> Spendable(units, acc)))
            && (Spendable(units, acc) && Emitted(units, rest) != 0 ==> Abs(rest) <= Abs(acc) - n)
  {
    var units, acc := UnitsOf(p, axis), AccOf(p, axis);
    if n > 0 {
      RestTrack(p, reports, n - 1, axis);
      RestStep(p, reports, n - 1, axis);
      var was := AccOf(After(p, reports[..n - 1]), axis);
      SpendEither(units, was);
      EmissionStops(units, 0);
      hide Spendable, Emitted, Remainder, Resting, After, Dropped, Output;
    }
  }

  /**
   * Resting fingers, exactly: over every run of reports with an unmoved midpoint an axis is silent from as
   * many reports on as it has units left, exactly when what is left is spendable or the other axis has
   * taken the gesture; otherwise it scrolls on every report.
   */
  lemma RestingSilentIff(p: PanState, reports: seq<Report>, n: nat, axis: PanAxis)
    requires Resting(p, reports) && n < |reports|
    ensures var silent := Spendable(UnitsOf(p, axis), AccOf(p, axis)) || Dropped(p, reports, n + 1, axis);
            && (silent && n >= Abs(AccOf(p, axis)) ==> Along(Output(p, reports, n), axis) == 0)
            && (!silent ==> Along(Output(p, reports, n), axis) != 0)
  {
    RestTrack(p, reports, n, axis);
    RestStep(p, reports, n, axis);
    var units := UnitsOf(p, axis);
    SpendEither(units, AccOf(After(p, reports[..n]), axis));
    EmissionStops(units, 0);
    hide Spendable, Emitted, Remainder, Resting, After, Dropped, Output;
  }

  /** The scales at which every remainder is spendable. */
  predicate Settles(units: int) {
    Max(units, 1) >= 120 || 120 % Max(units, 1) == 0
  }

  lemma SettlesSpends(units: int, acc: int)
    requires Settles(units)
    ensures Spendable(units, acc)
  {
    var u := Max(units, 1);
    if u < 120 {
      DividingSpends(acc, u);
    }
  }

  /** A pan at these scales, and a report that comes after as many resting ones as it has units left over. */
  predicate LongRest(p: PanState, reports: seq<Report>, n: nat, unitsX: int, unitsY: int) {
    p.unitsX == unitsX && p.unitsY == unitsY && Resting(p, reports) && Max(Abs(p.accX), Abs(p.accY)) <= n < |reports|
  }

  ghost predicate FallSilent(unitsX: int, unitsY: int) {
    forall p, reports, n: nat :: LongRest(p, reports, n, unitsX, unitsY) ==> Output(p, reports, n) == (0, 0)
  }

  /** No verdict yet, and too little travel for one. */
  predicate Undecided(p: PanState) {
    p.lock.None? && p.travelX < LOCK_MIN_X && p.travelY < LOCK_MIN_Y
  }

  lemma {:induction false} StaysUndecided(p: PanState, reports: seq<Report>, n: nat)
    requires Resting(p, reports) && Undecided(p) && n <= |reports|
    ensures Undecided(After(p, reports[..n]))
  {
    if n > 0 {
      StaysUndecided(p, reports, n - 1);
      RestKept(p, reports, n - 1, LockX);
      assert reports[..n][..n - 1] == reports[..n - 1] && reports[n - 1] in reports;
      hide Remainder, Emitted, Midpoint;
    }
  }

  /** At any other scale one unit of remainder is never spent and scrolls on every report, for ever. */
  lemma {:induction false} OneUnitNeverSettles(p: PanState, reports: seq<Report>, n: nat, axis: PanAxis)
    requires Resting(p, reports) && Undecided(p) && n < |reports|
    requires !Settles(UnitsOf(p, axis)) && AccOf(p, axis) == 1
    ensures AccOf(After(p, reports[..n + 1]), axis) == 1
    ensures Along(Output(p, reports, n), axis) == 120 / Max(UnitsOf(p, axis), 1) > 0
  {
    if n > 0 {
      OneUnitNeverSettles(p, reports, n - 1, axis);
    }
    StaysUndecided(p, reports, n + 1);
    RestStep(p, reports, n, axis);
    OneUnitLeft(UnitsOf(p, axis));
    hide Emitted, Remainder, Resting, Output, Panned, Settles, Dropped;
    assert reports[..0] == [];
  }

  lemma OneUnitLeft(units: int)
    requires !Settles(units)
    ensures Emitted(units, 1) == 120 / Max(units, 1) > 0 && Remainder(units, 1) == 1
  {
    var u := Max(units, 1);
    DivBounds(120, u);
    assert 120 / u >= 1 && (120 / u) * u < 120;
  }

  /** One unit of remainder on each axis, nothing decided. */
  function OneUnitLeftOver(unitsX: int, unitsY: int): PanState {
    PanState(Some((0, 0)), 1, 1, unitsX, unitsY, None, 0, 0, None)
  }

  lemma SettledFallSilent(p: PanState, reports: seq<Report>, n: nat)
    requires Settles(p.unitsX) && Settles(p.unitsY) && LongRest(p, reports, n, p.unitsX, p.unitsY)
    ensures Output(p, reports, n) == (0, 0)
  {
    hide Output, Resting, Spendable, Dropped, Settles;
    SettlesSpends(p.unitsX, p.accX);
    SettlesSpends(p.unitsY, p.accY);
    RestingSilentIff(p, reports, n, LockX);
    RestingSilentIff(p, reports, n, LockY);
  }

  const HELD := Report([(0, 0), (0, 0)], 0)

  lemma OriginMidpoint()
    ensures Midpoint((0, 0), (0, 0)) == (0, 0)
  {
  }

  lemma HeldRests(p: PanState, reports: seq<Report>)
    requires p.prev == Some((0, 0)) && forall r :: r in reports ==> r == HELD
    ensures Resting(p, reports)
  {
    hide Midpoint;
    OriginMidpoint();
  }

  lemma LeftOverScrolls(unitsX: int, unitsY: int)
    requires !Settles(unitsX) || !Settles(unitsY)
    ensures var p := OneUnitLeftOver(unitsX, unitsY);
            LongRest(p, [HELD, HELD], 1, unitsX, unitsY) && Output(p, [HELD, HELD], 1) != (0, 0)
  {
    hide Settles, Output, Resting, After;
    HeldRests(OneUnitLeftOver(unitsX, unitsY), [HELD, HELD]);
    OneUnitNeverSettles(OneUnitLeftOver(unitsX, unitsY), [HELD, HELD], 1, if Settles(unitsX) then LockY else LockX);
  }

  /** Resting fingers fall silent, whatever is left over, exactly at two settling scales. */
  lemma RestingSettlesIff(unitsX: int, unitsY: int)
    ensures FallSilent(unitsX, unitsY) <==> Settles(unitsX) && Settles(unitsY)
  {
    hide Settles, Output, LongRest;
    if Settles(unitsX) && Settles(unitsY) {
      forall p, reports, n: nat | LongRest(p, reports, n, unitsX, unitsY)
        ensures n < |reports| && Output(p, reports, n) == (0, 0)
      {
        LongAt(p, reports, n, unitsX, unitsY);
        SettledFallSilent(p, reports, n);
      }
    } else {
      LeftOverScrolls(unitsX, unitsY);
    }
  }

  lemma LongAt(p: PanState, reports: seq<Report>, n: nat, unitsX: int, unitsY: int)
    requires LongRest(p, reports, n, unitsX, unitsY)
    ensures p.unitsX == unitsX && p.unitsY == unitsY && n < |reports|
  {
  }

  /** Two fingers set down and moved once by one unit, and held there for any number of reports. */
  predicate MovedOnce(reports: seq<Report>) {
    && (|reports| > 0 ==> reports[0].contacts == [(0, 0), (100, 0)])
    && forall k :: 0 < k < |reports| ==> reports[k].contacts == [(0, 0), (102, 0)]
  }

  lemma MovedMidpoints()
    ensures Midpoint((0, 0), (100, 0)) == (50, 0) && Midpoint((0, 0), (102, 0)) == (51, 0)
  {
  }

  lemma DefaultSpends()
    ensures Emitted(64, 1) == 1 && Remainder(64, 1) == 1 && Emitted(64, 0) == 0 && Remainder(64, 0) == 0
  {
  }

  /** One unit moved and nothing decided, at the default scale. */
  predicate OneUnitIn(p: PanState) {
    && p.prev == Some((51, 0)) && p.accX == 1 && p.accY == 0 && p.unitsX == p.unitsY == 64
    && p.lock.None? && p.travelX <= 1 && p.travelY == 0
  }

  lemma DefaultStep(p: PanState, now: Instant)
    requires OneUnitIn(p) || p == CREATED.(prev := Some((50, 0)))
    ensures OneUnitIn(Panned(p, [(0, 0), (102, 0)], now).0) && Panned(p, [(0, 0), (102, 0)], now).1 == (1, 0)
  {
    MovedMidpoints();
    DefaultSpends();
    hide Remainder, Emitted, Midpoint;
  }

  /**
   * The default scale of 64 does not settle: from a fresh pan, fingers that moved one unit and rest scroll
   * by one on every report, however many come and however late.
   */
  lemma {:induction false} DefaultNeverSettles(reports: seq<Report>, n: nat)
    requires MovedOnce(reports) && 1 <= n < |reports|
    ensures OneUnitIn(After(CREATED, reports[..n + 1])) && Output(CREATED, reports, n) == (1, 0)
  {
    hide Panned, OneUnitIn, Midpoint, After;
    AfterSnoc(CREATED, reports, n);
    if n == 1 {
      FirstOfTwo(reports);
    } else {
      DefaultNeverSettles(reports, n - 1);
    }
    assert reports[n].contacts == [(0, 0), (102, 0)];
    DefaultStep(After(CREATED, reports[..n]), reports[n].now);
  }

  lemma AfterSnoc(p: PanState, reports: seq<Report>, n: nat)
    requires n < |reports|
    ensures After(p, reports[..n + 1]) == Panned(After(p, reports[..n]), reports[n].contacts, reports[n].now).0
  {
    hide Panned;
    assert reports[..n + 1][..n] == reports[..n];
  }

  lemma FirstOfTwo(reports: seq<Report>)
    requires MovedOnce(reports) && |reports| >= 1
    ensures After(CREATED, reports[..1]) == CREATED.(prev := Some((50, 0)))
  {
    AfterSnoc(CREATED, reports, 0);
    MovedMidpoints();
    hide Midpoint;
    assert After(CREATED, reports[..0]) == CREATED;
  }
}
