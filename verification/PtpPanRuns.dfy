/** The two-finger pan over whole gestures: which axis takes it and when, and that no motion is lost. */
module PtpPanRuns {
  import opened Basics
  import opened PtpPans

  // ---- one report ----------------------------------------------------------------------------

  /** The point between two fingers, rounded toward zero. */
  function Between(a: Contact, b: Contact): (int, int) {
    (TruncDiv(a.0 + b.0, 2), TruncDiv(a.1 + b.1, 2))
  }

  lemma BetweenIsMidpoint(a: Contact, b: Contact)
    ensures Between(a, b) == Midpoint(a, b)
  {
  }

  /** The motion of a report: rightward, and upward. */
  function Moved(p: PanState, contacts: seq<Contact>): (int, int)
    requires |contacts| == 2 && p.prev.Some?
  {
    var at := Between(contacts[0], contacts[1]);
    (at.0 - p.prev.value.0, p.prev.value.1 - at.1)
  }

  /** More than 300 ms, in whole milliseconds, since the last report. */
  predicate Rested(p: PanState, now: Instant) {
    p.lastFeed.Some? && now >= p.lastFeed.value + 301_000_000
  }

  /** Which axis the travel so far speaks for: 60 units across or 120 along, and twice the other. */
  function Speaks(across: nat, along: nat): Option<PanAxis> {
    if across >= 60 && across >= 2 * along then Some(LockX)
    else if along >= 120 && along >= 2 * across then Some(LockY)
    else None
  }

  /**
   * A report of two fingers adds its motion to the travel and, with no verdict standing, asks for one; a rest
   * before it starts travel and verdict afresh. Fewer or more fingers forget everything, and the first report
   * of two only remembers where they are.
   */
  lemma PanStep(p: PanState, contacts: seq<Contact>, now: Instant)
    ensures var q := Panned(p, contacts, now);
            if |contacts| != 2 then
              q == (PanState(None, 0, 0, p.unitsX, p.unitsY, None, 0, 0, None), (0, 0))
            else if p.prev.None? then
              q == (p.(prev := Some(Between(contacts[0], contacts[1]))), (0, 0))
            else
              var m := Moved(p, contacts);
              && q.0.prev == Some(Between(contacts[0], contacts[1])) && q.0.lastFeed == Some(now)
              && q.0.unitsX == p.unitsX && q.0.unitsY == p.unitsY
              && q.0.travelX == Abs(m.0) + (if Rested(p, now) then 0 else p.travelX)
              && q.0.travelY == Abs(m.1) + (if Rested(p, now) then 0 else p.travelY)
              && q.0.lock == if p.lock.Some? && !Rested(p, now) then p.lock else Speaks(q.0.travelX, q.0.travelY)
  {
    RestedIff(p, now);
    if |contacts| == 2 {
      BetweenIsMidpoint(contacts[0], contacts[1]);
    }
    hide Between, Midpoint, Remainder, Emitted, ElapsedMillis;
  }

  lemma RestedIff(p: PanState, now: Instant)
    ensures Paused(p, now) <==> Rested(p, now)
  {
  }

  // ---- which axis, and when ------------------------------------------------------------------

  /** Two fingers throughout, after a first report of them, and no rest between reports. */
  predicate Unbroken(p: PanState, reports: seq<Report>) {
    && p.prev.Some?
    && forall n :: 0 <= n < |reports| ==>
         |reports[n].contacts| == 2 && !Rested(After(p, reports[..n]), reports[n].now)
  }

  /** Where the fingers are before the n-th report. */
  function At(p: PanState, reports: seq<Report>, n: nat): (int, int)
    requires Unbroken(p, reports) && n <= |reports|
  {
    if n == 0 then p.prev.value else Between(reports[n - 1].contacts[0], reports[n - 1].contacts[1])
  }

  /** The way the first `n` reports travelled, across and along. */
  function Travelled(p: PanState, reports: seq<Report>, n: nat): (nat, nat)
    requires Unbroken(p, reports) && n <= |reports|
  {
    if n == 0 then (0, 0)
    else
      var before, from, to := Travelled(p, reports, n - 1), At(p, reports, n - 1), At(p, reports, n);
      (before.0 + Abs(to.0 - from.0), before.1 + Abs(to.1 - from.1))
  }

  /** What the first report after which the travel spoke for an axis said. */
  function FirstVerdict(p: PanState, reports: seq<Report>, n: nat): Option<PanAxis>
    requires Unbroken(p, reports) && n <= |reports|
  {
    if n == 0 then None
    else if FirstVerdict(p, reports, n - 1).Some? then FirstVerdict(p, reports, n - 1)
    else Speaks(Travelled(p, reports, n).0, Travelled(p, reports, n).1)
  }

  /**
   * Exactly when a gesture locks, and to what: over every unbroken run from a fresh start, at the first report
   * after which its whole travel speaks for an axis, to that axis.
   */
  lemma {:induction false} LocksIff(p: PanState, reports: seq<Report>, n: nat)
    requires Unbroken(p, reports) && n <= |reports| && p.lock.None? && p.travelX == 0 && p.travelY == 0
    ensures var q := After(p, reports[..n]);
            && q.lock == FirstVerdict(p, reports, n)
            && q.prev == Some(At(p, reports, n)) && (q.travelX, q.travelY) == Travelled(p, reports, n)
  {
    hide Panned, Between, Speaks, Rested;
    if n > 0 {
      LocksIff(p, reports, n - 1);
      assert reports[..n][..n - 1] == reports[..n - 1];
      var before := After(p, reports[..n - 1]);
      PanStep(before, reports[n - 1].contacts, reports[n - 1].now);
    }
  }

  // ---- conservation --------------------------------------------------------------------------

  /** The axis was not locked out after any report. */
  predicate KeepsScrolling(p: PanState, reports: seq<Report>, axis: PanAxis) {
    forall n :: 0 < n <= |reports| ==> !LockedOut(After(p, reports[..n]), axis)
  }

  /** Two fingers throughout, after a first report of them. */
  predicate TwoFingers(p: PanState, reports: seq<Report>) {
    p.prev.Some? && forall n :: 0 <= n < |reports| ==> |reports[n].contacts| == 2
  }

  /** What a run has scrolled on an axis, in sensor units. */
  function Paid(p: PanState, reports: seq<Report>, axis: PanAxis): int {
    if reports == [] then 0
    else
      var n := |reports| - 1;
      Paid(p, reports[..n], axis) + Spent(UnitsOf(p, axis), Along(Output(p, reports, n), axis))
  }

  /** A position along an axis: rightward, and upward. */
  function Place(at: (int, int), axis: PanAxis): int {
    if axis.LockX? then at.0 else -at.1
  }

  lemma PayStep(p: PanState, contacts: seq<Contact>, now: Instant, axis: PanAxis)
    requires |contacts| == 2 && p.prev.Some? && !LockedOut(Panned(p, contacts, now).0, axis)
    ensures var q := Panned(p, contacts, now);
            var acc := AccOf(p, axis) + Place(Between(contacts[0], contacts[1]), axis) - Place(p.prev.value, axis);
            && q.0.prev == Some(Between(contacts[0], contacts[1])) && UnitsOf(q.0, axis) == UnitsOf(p, axis)
            && Along(q.1, axis) == Emitted(UnitsOf(p, axis), acc)
            && AccOf(q.0, axis) == acc - Spent(UnitsOf(p, axis), Along(q.1, axis))
  {
    BetweenIsMidpoint(contacts[0], contacts[1]);
    hide Between, Midpoint, Emitted, Spent, Verdict, Paused;
  }

  /**
   * Nothing is lost: over every run in which an axis is never locked out, what it scrolled, in sensor units, and
   * what is left over are what was left over before and how far the fingers moved along it.
   */
  lemma {:induction false} PanConserves(p: PanState, reports: seq<Report>, axis: PanAxis)
    requires TwoFingers(p, reports) && KeepsScrolling(p, reports, axis)
    ensures var q := After(p, reports);
            && q.prev.Some? && UnitsOf(q, axis) == UnitsOf(p, axis)
            && AccOf(q, axis) + Paid(p, reports, axis)
               == AccOf(p, axis) + Place(q.prev.value, axis) - Place(p.prev.value, axis)
  {
    hide Panned, Spent, LockedOut;
    if reports != [] {
      var n := |reports| - 1;
      ScrollingPrefix(p, reports, axis);
      PanConserves(p, reports[..n], axis);
      assert reports[..n + 1] == reports;
      PayStep(After(p, reports[..n]), reports[n].contacts, reports[n].now, axis);
    }
  }

  lemma ScrollingPrefix(p: PanState, reports: seq<Report>, axis: PanAxis)
    requires TwoFingers(p, reports) && KeepsScrolling(p, reports, axis) && reports != []
    ensures var n := |reports| - 1;
            && TwoFingers(p, reports[..n]) && KeepsScrolling(p, reports[..n], axis)
            && |reports[n].contacts| == 2 && !LockedOut(After(p, reports), axis)
  {
    hide After, LockedOut;
    var n := |reports| - 1;
    assert reports[..n + 1] == reports;
    forall k | 0 < k <= n
      ensures !LockedOut(After(p, reports[..n][..k]), axis)
    {
      assert reports[..n][..k] == reports[..k];
    }
  }

  lemma WorthUp(units: int, acc: nat)
    ensures var out := Emitted(units, acc);
            && 0 <= out && 0 <= out * Max(units, 1) - 120 * Spent(units, out) < 120
            && (Unclamped(units, acc) ==> 0 <= 120 * acc - out * Max(units, 1) < Max(units, 1))
  {
    var u := Max(units, 1);
    EmittedBounds(units, acc);
    var out: nat := Emitted(units, acc);
    DivBounds(out * u, 120);
    DivBounds(acc * 120, u);
    assert Spent(units, out) == out * u / 120;
  }

  lemma SpentOdd(units: int, out: int)
    ensures Spent(units, -out) == -Spent(units, out) && (-out) * Max(units, 1) == -(out * Max(units, 1))
  {
    TruncOdd(out * Max(units, 1), 120);
  }

  /** A scroll goes the way of what it pays for, and is worth its units to within one 120th. */
  lemma ScrollWorth(units: int, acc: int)
    ensures var out := Emitted(units, acc);
            && Signum(out) in {0, Signum(acc)}
            && Abs(out * Max(units, 1) - 120 * Spent(units, out)) < 120
            && (Unclamped(units, acc) ==> Abs(120 * acc - out * Max(units, 1)) < Max(units, 1))
  {
    WorthUp(units, Abs(acc));
    EmittedOdd(units, Abs(acc));
    SpentOdd(units, Emitted(units, Abs(acc)));
    NothingEmitted(units);
    hide Emitted, Unclamped, Spent;
  }

  lemma NothingEmitted(units: int)
    ensures Emitted(units, 0) == 0
  {
  }
}
