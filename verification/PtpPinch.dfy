/** Two-finger pinch on the precision touchpad: rate-based arbitration between zooming and scrolling. */
module PtpPinches {
  import opened Basics
  import opened PtpPans

  const ENGAGE_UNITS := 192
  const TAKEOVER_FRAMES := 5

  datatype Pinch = Pinch(
    anchor: Option<int>,
    prev: Option<int>,
    prevMid: Option<(int, int)>,
    acc: int,
    units: int,
    engaged: bool,
    streak: nat,
    spreadEma: real,
    midEma: real)

  /** One report: the contacts that are down, and whether pan already owns the gesture. */
  datatype Frame = Frame(contacts: seq<Contact>, panOwned: bool)

  function Spread(a: Contact, b: Contact): nat {
    Abs(a.0 - b.0) + Abs(a.1 - b.1)
  }

  function Rate(at: (int, int), from: (int, int)): nat {
    Abs(at.0 - from.0) + Abs(at.1 - from.1)
  }

  function Smoothed(ema: real, rate: nat): real {
    ema * 0.65 + rate as real * 0.35
  }

  function Reset(p: Pinch): Pinch {
    p.(anchor := None, prev := None, prevMid := None, acc := 0,
       engaged := false, streak := 0, spreadEma := 0.0, midEma := 0.0)
  }

  function SpreadRate(p: Pinch, spread: nat): nat {
    if p.prev.Some? then Abs(spread - p.prev.value) else 0
  }

  function MidRate(p: Pinch, mid: (int, int)): nat {
    if p.prevMid.Some? then Rate(mid, p.prevMid.value) else 0
  }

  /** The frame's rates folded into the recent window. */
  function Observed(p: Pinch, spread: nat, mid: (int, int)): Pinch {
    p.(prev := Some(spread), prevMid := Some(mid),
       spreadEma := Smoothed(p.spreadEma, SpreadRate(p, spread)), midEma := Smoothed(p.midEma, MidRate(p, mid)))
  }

  predicate SpreadDominant(p: Pinch) {
    p.spreadEma >= 1.0 && p.spreadEma >= p.midEma * 1.5
  }

  predicate ScrollDominant(p: Pinch) {
    p.midEma >= 1.0 && p.midEma >= p.spreadEma * 1.25
  }

  /** Strong common-mode motion in one frame alone. */
  predicate FrameScrolls(midRate: nat, spreadRate: nat) {
    midRate >= 8 && midRate >= spreadRate * 2
  }

  /** An engaged frame: a scrolling one counts toward the takeover, any other one zooms. */
  function Engaged(q: Pinch, scrolls: bool, step: int): (Pinch, (int, bool)) {
    if scrolls then
      if q.streak + 1 >= TAKEOVER_FRAMES then (q.(engaged := false, streak := 0, acc := 0), (0, true))
      else (q.(streak := q.streak + 1), (0, false))
    else
      var acc := q.acc + step;
      (q.(streak := 0, acc := Remainder(q.units, acc)), (Emitted(q.units, acc), false))
  }

  /** The zoom one report emits, and whether a gesture just ended. */
  function Fed(p: Pinch, f: Frame): (Pinch, (int, bool)) {
    if |f.contacts| != 2 then (Reset(p), (0, p.engaged))
    else
      var spread, mid := Spread(f.contacts[0], f.contacts[1]), Midpoint(f.contacts[0], f.contacts[1]);
      if p.anchor.None? then
        (p.(anchor := Some(spread), prev := Some(spread), prevMid := Some(mid), spreadEma := 0.0, midEma := 0.0),
            (0, false))
      else
        var q := Observed(p, spread, mid);
        var scrolls := ScrollDominant(q) || FrameScrolls(MidRate(p, mid), SpreadRate(p, spread));
        var step := if p.prev.Some? then spread - p.prev.value else 0;
        if p.engaged then Engaged(q, scrolls, step)
        else if f.panOwned || !SpreadDominant(q) then (q.(anchor := Some(spread)), (0, false))
        else if Abs(spread - p.anchor.value) < ENGAGE_UNITS then (q, (0, false))
        else Engaged(q.(engaged := true), scrolls, step)
  }

  class PtpPinch {
    var anchor: Option<int>
    var prev: Option<int>
    var prevMid: Option<(int, int)>
    var acc: int
    var units: int
    var engaged: bool
    var streak: nat
    var spreadEma: real
    var midEma: real

    function State(): Pinch
      reads this
    {
      Pinch(anchor, prev, prevMid, acc, units, engaged, streak, spreadEma, midEma)
    }

    constructor ()
      ensures State() == Pinch(None, None, None, 0, 400, false, 0, 0.0, 0.0)
    {
      anchor, prev, prevMid, acc, units := None, None, None, 0, 400;
      engaged, streak, spreadEma, midEma := false, 0, 0.0, 0.0;
    }

    /** A frame while the pinch is engaged. */
    method FeedEngaged(scrolls: bool, step: int) returns (zoom: int, ended: bool)
      modifies this`engaged, this`streak, this`acc
      ensures (State(), (zoom, ended)) == Engaged(old(State()), scrolls, step)
    {
      hide Emitted, Spent;
      if scrolls {
        streak := streak + 1;
        if streak >= TAKEOVER_FRAMES {
          engaged, streak, acc := false, 0, 0;
          return 0, true;
        }
        return 0, false;
      }
      streak := 0;
      acc := acc + step;
      zoom := Emitted(units, acc);
      acc := acc - Spent(units, zoom);
      ended := false;
    }

    /** One report of the contacts that are down. */
    method Feed(contacts: seq<Contact>, panOwned: bool) returns (zoom: int, ended: bool)
      modifies this
      ensures (State(), (zoom, ended)) == Fed(old(State()), Frame(contacts, panOwned))
    {
      hide Engaged, Smoothed, Spread, Midpoint, Rate, SpreadDominant, ScrollDominant, FrameScrolls;
      if |contacts| != 2 {
        ended := engaged;
        anchor, prev, prevMid, acc, engaged, streak := None, None, None, 0, false, 0;
        spreadEma, midEma := 0.0, 0.0;
        return 0, ended;
      }
      var spread, mid := Spread(contacts[0], contacts[1]), Midpoint(contacts[0], contacts[1]);
      if anchor.None? {
        anchor, prev, prevMid := Some(spread), Some(spread), Some(mid);
        spreadEma, midEma := 0.0, 0.0;
        return 0, false;
      }
      var step := if prev.Some? then spread - prev.value else 0;
      var midRate := if prevMid.Some? then Rate(mid, prevMid.value) else 0;
      prev, prevMid := Some(spread), Some(mid);
      spreadEma := Smoothed(spreadEma, Abs(step));
      midEma := Smoothed(midEma, midRate);
      if !engaged {
        if panOwned || !SpreadDominant(State()) {
          anchor := Some(spread);
          return 0, false;
        }
        if Abs(spread - anchor.value) < ENGAGE_UNITS {
          return 0, false;
        }
      }
      var scrolls := ScrollDominant(State()) || FrameScrolls(midRate, Abs(step));
      engaged := true;
      zoom, ended := FeedEngaged(scrolls, step);
    }
  }

  // ---- an engaged pinch always lets go -------------------------------------------------------

  /** No spread, and so no rate of spread, exceeds this. */
  const SPREAD_LIMIT: real := 8_589_934_590.0

  /** What every reachable state satisfies. */
  predicate Sound(p: Pinch) {
    && (p.anchor.Some? <==> p.prev.Some?) && (p.prev.Some? <==> p.prevMid.Some?) && (p.engaged ==> p.anchor.Some?)
    && p.streak < 5 && (!p.engaged ==> p.streak == 0 && p.acc == 0)
    && 0.0 <= p.spreadEma <= SPREAD_LIMIT && 0.0 <= p.midEma
    && (p.prev.Some? ==> 0 <= p.prev.value && p.prev.value as real <= SPREAD_LIMIT)
  }

  /** A pinch after a run of reports, from construction. */
  function Run(units: int, frames: seq<Frame>): Pinch {
    if frames == [] then Pinch(None, None, None, 0, units, false, 0, 0.0, 0.0)
    else Fed(Run(units, frames[..|frames| - 1]), frames[|frames| - 1]).0
  }

  lemma {:induction false} RunSound(units: int, frames: seq<Frame>)
    ensures Sound(Run(units, frames))
  {
    if frames != [] {
      RunSound(units, frames[..|frames| - 1]);
      SoundKept(Run(units, frames[..|frames| - 1]), frames[|frames| - 1]);
    }
  }

  lemma SoundKept(p: Pinch, f: Frame)
    requires Sound(p)
    ensures Sound(Fed(p, f).0)
  {
    hide Emitted, Spent, Rate, Midpoint;
    if |f.contacts| == 2 {
      SpreadBounded(f.contacts[0], f.contacts[1]);
      hide Spread;
    }
  }

  /** An end is reported exactly when an engaged pinch stops being one, and only an engaged pinch zooms. */
  lemma EndIsDisengaging(p: Pinch, f: Frame)
    requires Sound(p)
    ensures var q := Fed(p, f);
            && (q.1.1 <==> p.engaged && !q.0.engaged)
            && (q.1.0 != 0 ==> q.0.engaged)
  {
    hide Emitted, Spent, Rate, Midpoint, Spread;
  }

  lemma SpreadBounded(a: Contact, b: Contact)
    ensures Spread(a, b) as real <= SPREAD_LIMIT
  {
  }

  /** Fingers scrolling: the spread still, the midpoint moving at least two units a report. */
  predicate Scrolling(p: Pinch, f: Frame) {
    && |f.contacts| == 2 && p.prev == Some(Spread(f.contacts[0], f.contacts[1]))
    && MidRate(p, Midpoint(f.contacts[0], f.contacts[1])) >= 2
  }

  predicate AllScrolling(p: Pinch, frames: seq<Frame>)
    decreases |frames|
  {
    frames != [] ==> Scrolling(p, frames[0]) && AllScrolling(Fed(p, frames[0]).0, frames[1..])
  }

  /** Some frame reports the end of the gesture. */
  predicate Ends(p: Pinch, frames: seq<Frame>)
    decreases |frames|
  {
    frames != [] && (Fed(p, frames[0]).1.1 || Ends(Fed(p, frames[0]).0, frames[1..]))
  }

  /** How far the spread still outweighs the scroll. */
  function Deficit(p: Pinch): real {
    p.spreadEma * 1.25 - p.midEma
  }

  /** One scrolling frame shrinks the deficit by 0.65 and 0.7 more, and lifts the midpoint rate. */
  lemma ScrollStep(p: Pinch, f: Frame)
    requires Sound(p) && p.engaged && Scrolling(p, f)
    ensures var q := Fed(p, f);
            && (q.1.1 || (q.0.engaged && Sound(q.0)))
            && Deficit(q.0) <= 0.65 * Deficit(p) - 0.7
            && q.0.midEma >= 0.65 * p.midEma + 0.7
            && (q.0.midEma >= 1.0 && Deficit(q.0) <= 0.0 ==> q.1.1 || q.0.streak == p.streak + 1)
  {
    hide Emitted, Spent, Rate, Midpoint, Spread;
  }

  /** Once the scroll dominates it keeps dominating, and five such frames take over. */
  lemma {:induction false} DominantEnds(p: Pinch, frames: seq<Frame>)
    requires Sound(p) && p.engaged && AllScrolling(p, frames)
    requires p.midEma >= 1.0 && Deficit(p) <= 0.0 && |frames| >= 5 - p.streak
    ensures Ends(p, frames)
    decreases |frames|
  {
    ScrollStep(p, frames[0]);
    hide Fed, Sound;
    var q := Fed(p, frames[0]);
    if !q.1.1 {
      StreakShort(q.0);
      DominantEnds(q.0, frames[1..]);
    }
  }

  lemma StreakShort(p: Pinch)
    requires Sound(p)
    ensures p.streak < 5
  {
  }

  function Pow(k: nat): real {
    if k == 0 then 1.0 else 1.5 * Pow(k - 1)
  }

  lemma {:induction false} PowAtLeast(k: nat)
    ensures Pow(k) >= 1.0 + k as real * 0.5
  {
    if k > 0 {
      PowAtLeast(k - 1);
    }
  }

  /** Frames still needed before the scroll dominates: `k` for the deficit, `j` for the midpoint rate. */
  predicate Close(p: Pinch, k: nat, j: nat) {
    && (if k == 0 then Deficit(p) <= 0.0 else Deficit(p) <= Pow(k - 1))
    && (if j == 0 then p.midEma >= 1.0 else j >= 2 || p.midEma >= 0.7)
  }

  lemma CloserStep(p: Pinch, f: Frame, k: nat, j: nat)
    requires Sound(p) && p.engaged && Scrolling(p, f) && Close(p, k, j)
    ensures Close(Fed(p, f).0, if k == 0 then 0 else k - 1, if j == 0 then 0 else j - 1)
  {
    ScrollStep(p, f);
    hide Fed, Sound;
    if k >= 2 {
      PowAtLeast(k - 2);
      assert Pow(k - 1) == 1.5 * Pow(k - 2);
    }
  }

  lemma {:induction false} CloseEnds(p: Pinch, frames: seq<Frame>, k: nat, j: nat)
    requires Sound(p) && p.engaged && AllScrolling(p, frames) && Close(p, k, j)
    requires |frames| >= Max(k, j) + 5
    ensures Ends(p, frames)
    decreases |frames|
  {
    if k == 0 && j == 0 {
      DominantEnds(p, frames);
    } else {
      CloserStep(p, frames[0], k, j);
      ScrollStep(p, frames[0]);
      hide Fed, Sound, Close;
      if !Fed(p, frames[0]).1.1 {
        CloseEnds(Fed(p, frames[0]).0, frames[1..], if k == 0 then 0 else k - 1, if j == 0 then 0 else j - 1);
      }
    }
  }

  /**
   * From any rates at all, a scroll of some length takes the gesture back: the length is logarithmic in the
   * deficit.
   */
  lemma PinchLetsGo(p: Pinch, frames: seq<Frame>, k: nat)
    requires Sound(p) && p.engaged && AllScrolling(p, frames)
    requires Deficit(p) <= Pow(k) && |frames| >= Max(k + 1, 2) + 5
    ensures Ends(p, frames)
  {
    CloseEnds(p, frames, k + 1, 2);
  }

  lemma {:induction false} PowSum(a: nat, b: nat)
    ensures Pow(a + b) == Pow(a) * Pow(b)
  {
    if b > 0 {
      PowSum(a, b - 1);
      assert Pow(a + b) == 1.5 * Pow(a + (b - 1));
    }
  }

  lemma SquareMono(a: real, b: real)
    requires 0.0 <= b <= a
    ensures a * a >= b * b
  {
  }

  lemma PowLarge()
    ensures Pow(64) >= 100_000_000_000.0
  {
    assert Pow(4) >= 5.0;
    PowSum(4, 4);
    SquareMono(Pow(4), 5.0);
    PowSum(8, 8);
    SquareMono(Pow(8), 25.0);
    PowSum(16, 16);
    SquareMono(Pow(16), 625.0);
    PowSum(32, 32);
    SquareMono(Pow(32), 390625.0);
  }

  /** Whatever the fingers did before, 70 scrolling reports end the pinch. */
  lemma SeventyFramesSuffice(units: int, before: seq<Frame>, frames: seq<Frame>)
    requires var p := Run(units, before); p.engaged && AllScrolling(p, frames) && |frames| >= 70
    ensures Ends(Run(units, before), frames)
  {
    RunSound(units, before);
    PowLarge();
    PinchLetsGo(Run(units, before), frames, 64);
  }

  // ---- who owns the gesture ------------------------------------------------------------------

  /** Every frame of a gesture moves the spread at most `c` times as fast as the midpoint. */
  predicate Bounded(p: Pinch, f: Frame, c: real) {
    |f.contacts| == 2 && p.anchor.Some? ==>
      SpreadRate(p, Spread(f.contacts[0], f.contacts[1])) as real
      <= c * MidRate(p, Midpoint(f.contacts[0], f.contacts[1])) as real
  }

  /** Idle, the spread drifting at most `c` times as fast as the midpoint moves. */
  predicate IdleScroll(p: Pinch, c: real) {
    !p.engaged && p.spreadEma <= c * p.midEma
  }

  lemma ScrollStaysIdle(p: Pinch, f: Frame, c: real)
    requires Sound(p) && 0.0 <= c < 1.5 && IdleScroll(p, c) && Bounded(p, f, c)
    ensures var q := Fed(p, f); IdleScroll(q.0, c) && q.1 == (0, false)
  {
    hide Emitted, Spent, Rate, Midpoint, Spread;
    if |f.contacts| == 2 && p.anchor.Some? {
      var q := Observed(p, Spread(f.contacts[0], f.contacts[1]), Midpoint(f.contacts[0], f.contacts[1]));
      assert q.spreadEma <= c * q.midEma;
      RatioBelow(q.spreadEma, q.midEma, c, 1.5);
    }
  }

  /** With `a` at most `c` times `b` and `c` below the threshold, `a` cannot dominate. */
  lemma RatioBelow(a: real, b: real, c: real, threshold: real)
    requires 0.0 <= a <= c * b && 0.0 <= b && 0.0 <= c < threshold
    ensures !(a >= 1.0 && a >= b * threshold)
  {
    if b > 0.0 {
      assert c * b < threshold * b;
    }
  }

  lemma PanOwnedStaysIdle(p: Pinch, f: Frame)
    requires !p.engaged && f.panOwned
    ensures var q := Fed(p, f); !q.0.engaged && q.1 == (0, false)
  {
  }

  /** What a run's n-th frame reports. */
  function Reported(units: int, frames: seq<Frame>, n: nat): (int, bool)
    requires n < |frames|
  {
    Fed(Run(units, frames[..n]), frames[n]).1
  }

  lemma ScrollStart(units: int, frames: seq<Frame>, c: real)
    ensures IdleScroll(Run(units, frames[..0]), c)
  {
  }

  lemma {:induction false} ScrollKept(units: int, frames: seq<Frame>, c: real, n: nat)
    requires 0.0 <= c < 1.5 && n <= |frames|
    requires forall k :: 0 <= k < |frames| ==> Bounded(Run(units, frames[..k]), frames[k], c)
    ensures IdleScroll(Run(units, frames[..n]), c)
  {
    hide Fed, Sound, Bounded, IdleScroll;
    if n > 0 {
      ScrollKept(units, frames, c, n - 1);
      assert frames[..n][..n - 1] == frames[..n - 1];
      RunSound(units, frames[..n - 1]);
      ScrollStaysIdle(Run(units, frames[..n - 1]), frames[n - 1], c);
    } else {
      ScrollStart(units, frames, c);
    }
  }

  lemma IdleIsIdle(p: Pinch, c: real)
    requires IdleScroll(p, c)
    ensures !p.engaged
  {
  }

  /**
   * Scrolling never zooms: over every run in which the spread drifts at most `c` times as fast as the
   * midpoint moves, for any c below 1.5, no frame engages, zooms or ends anything.
   */
  lemma ScrollNeverEngages(units: int, frames: seq<Frame>, c: real, n: nat)
    requires 0.0 <= c < 1.5 && n < |frames|
    requires forall k :: 0 <= k < |frames| ==> Bounded(Run(units, frames[..k]), frames[k], c)
    ensures !Run(units, frames).engaged && Reported(units, frames, n) == (0, false)
  {
    hide Run, Fed, Sound, Bounded, IdleScroll;
    ScrollKept(units, frames, c, n);
    ScrollKept(units, frames, c, |frames|);
    assert frames[..|frames|] == frames;
    RunSound(units, frames[..n]);
    ScrollStaysIdle(Run(units, frames[..n]), frames[n], c);
    IdleIsIdle(Run(units, frames), c);
  }

  /** And while pan owns every frame of a run, whatever the spread does, nothing engages, zooms or ends. */
  lemma {:induction false} PanOwnedNeverEngages(units: int, frames: seq<Frame>)
    requires forall k :: 0 <= k < |frames| ==> frames[k].panOwned
    ensures !Run(units, frames).engaged
    ensures forall n :: 0 <= n < |frames| ==> Reported(units, frames, n) == (0, false)
  {
    if frames != [] {
      var last := |frames| - 1;
      PanOwnedNeverEngages(units, frames[..last]);
      PanOwnedStaysIdle(Run(units, frames[..last]), frames[last]);
      hide Fed, Run;
      assert Run(units, frames) == Fed(Run(units, frames[..last]), frames[last]).0 by {
        RunSnoc(units, frames);
      }
      forall n | 0 <= n < |frames|
        ensures Reported(units, frames, n) == (0, false)
      {
        if n < last {
          assert frames[..last][..n] == frames[..n];
          assert Reported(units, frames[..last], n) == (0, false);
        }
      }
    } else {
      RunSnoc(units, frames);
    }
  }

  lemma RunSnoc(units: int, frames: seq<Frame>)
    ensures frames == [] ==> !Run(units, frames).engaged
    ensures frames != [] ==> Run(units, frames) == Fed(Run(units, frames[..|frames| - 1]), frames[|frames| - 1]).0
  {
    hide Fed;
  }
}
