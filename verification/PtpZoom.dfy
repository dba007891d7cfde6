/** The precision touchpad's pinch over runs: exactly when it engages, and what it then makes of the spread. */
module PtpZooms {
  import opened Basics
  import opened PtpPans
  import opened PtpPinches
  import PtpPanRuns

  /** How far two fingers are apart, across plus along. */
  function Gap(a: Contact, b: Contact): nat {
    Abs(a.0 - b.0) + Abs(a.1 - b.1)
  }

  /** The point between them, rounded toward zero. */
  function Between(a: Contact, b: Contact): (int, int) {
    (TruncDiv(a.0 + b.0, 2), TruncDiv(a.1 + b.1, 2))
  }

  function SpreadOf(f: Frame): nat
    requires |f.contacts| == 2
  {
    Gap(f.contacts[0], f.contacts[1])
  }

  function MidOf(f: Frame): (int, int)
    requires |f.contacts| == 2
  {
    Between(f.contacts[0], f.contacts[1])
  }

  lemma SameMeasure(f: Frame)
    requires |f.contacts| == 2
    ensures SpreadOf(f) == Spread(f.contacts[0], f.contacts[1]) && MidOf(f) == Midpoint(f.contacts[0], f.contacts[1])
  {
  }

  /** The recent rate of the spread, and of the midpoint, after one more report: 65 parts old, 35 parts new. */
  function SpreadPace(p: Pinch, f: Frame): real
    requires |f.contacts| == 2 && p.prev.Some?
  {
    0.65 * p.spreadEma + 0.35 * Abs(SpreadOf(f) - p.prev.value) as real
  }

  function MidPace(p: Pinch, f: Frame): real
    requires |f.contacts| == 2 && p.prevMid.Some?
  {
    var mid, last := MidOf(f), p.prevMid.value;
    0.65 * p.midEma + 0.35 * (Abs(mid.0 - last.0) + Abs(mid.1 - last.1)) as real
  }

  /** The spread clearly outpaces the midpoint, on a gesture no pan has taken. */
  predicate Dominates(p: Pinch, f: Frame)
    requires |f.contacts| == 2 && p.prev.Some? && p.prevMid.Some?
  {
    !f.panOwned && SpreadPace(p, f) >= 1.0 && SpreadPace(p, f) >= 1.5 * MidPace(p, f)
  }

  /**
   * An idle pinch engages on a report exactly when the spread dominates and stands at least 192 units from its
   * anchor; short of dominance the anchor follows the spread, and nothing is emitted.
   */
  lemma EngagesIff(p: Pinch, f: Frame)
    requires Sound(p) && !p.engaged && p.anchor.Some? && |f.contacts| == 2
    ensures var q := Fed(p, f);
            && (q.0.engaged <==> Dominates(p, f) && Abs(SpreadOf(f) - p.anchor.value) >= 192)
            && (!q.0.engaged ==>
                  q.1 == (0, false) && q.0.anchor == if Dominates(p, f) then p.anchor else Some(SpreadOf(f)))
  {
    SameMeasure(f);
    hide Emitted, Spent, Remainder, Spread, Midpoint, SpreadOf, MidOf;
  }

  // ---- a still midpoint ----------------------------------------------------------------------

  /** Two fingers throughout, no pan, and a midpoint that never moves. */
  predicate Still(frames: seq<Frame>) {
    frames != [] && |frames[0].contacts| == 2 &&
    forall n :: 0 <= n < |frames| ==>
      |frames[n].contacts| == 2 && !frames[n].panOwned && MidOf(frames[n]) == MidOf(frames[0])
  }

  function SpreadAt(frames: seq<Frame>, n: nat): nat
    requires Still(frames) && n < |frames|
  {
    SpreadOf(frames[n])
  }

  /** The recent rate of the spread after the n-th report. */
  function Pace(frames: seq<Frame>, n: nat): real
    requires Still(frames) && n < |frames|
  {
    if n == 0 then 0.0
    else 0.65 * Pace(frames, n - 1) + 0.35 * Abs(SpreadAt(frames, n) - SpreadAt(frames, n - 1)) as real
  }

  /** The last report at which the rate was below one unit. */
  function AnchorAt(frames: seq<Frame>, n: nat): (k: nat)
    requires Still(frames) && n < |frames|
    ensures k <= n
  {
    if n == 0 || Pace(frames, n) < 1.0 then n else AnchorAt(frames, n - 1)
  }

  /** The report stands 192 units from where the rate was last below one. */
  predicate Reaches(frames: seq<Frame>, n: nat)
    requires Still(frames) && n < |frames|
  {
    n > 0 && Pace(frames, n) >= 1.0 && Abs(SpreadAt(frames, n) - SpreadAt(frames, AnchorAt(frames, n))) >= 192
  }

  /** The state of a pinch under a still midpoint. */
  ghost predicate StillState(p: Pinch, frames: seq<Frame>, n: nat)
    requires Still(frames) && n < |frames|
  {
    && Sound(p) && p.prev == Some(SpreadAt(frames, n)) && p.prevMid == Some(MidOf(frames[0]))
    && p.spreadEma == Pace(frames, n) && p.midEma == 0.0 && p.streak == 0
    && (!p.engaged ==> p.anchor == Some(SpreadAt(frames, AnchorAt(frames, n))))
  }

  lemma StillFirst(units: int, frames: seq<Frame>)
    requires Still(frames)
    ensures var p := Run(units, frames[..1]); StillState(p, frames, 0) && !p.engaged
  {
    assert frames[..1][..0] == [] && frames[..1][0] == frames[0];
    SpreadBounded(frames[0].contacts[0], frames[0].contacts[1]);
    SameMeasure(frames[0]);
    hide Spread, Midpoint, Emitted, Spent, SpreadOf, MidOf;
  }

  lemma StillStep(p: Pinch, frames: seq<Frame>, n: nat)
    requires Still(frames) && 0 < n < |frames| && StillState(p, frames, n - 1)
    ensures var q := Fed(p, frames[n]).0;
            StillState(q, frames, n) && (q.engaged <==> p.engaged || Reaches(frames, n))
  {
    SoundKept(p, frames[n]);
    SameMeasure(frames[n]);
    if !p.engaged {
      EngagesIff(p, frames[n]);
      assert Dominates(p, frames[n]) <==> Pace(frames, n) >= 1.0;
    }
    hide Spread, Midpoint, Emitted, Spent, Remainder, Sound, SpreadOf, MidOf;
  }

  /** After `n` reports some earlier one reached. */
  predicate ReachedBy(frames: seq<Frame>, n: nat)
    requires Still(frames) && n < |frames|
  {
    exists k :: 0 <= k <= n && Reaches(frames, k)
  }

  /**
   * Exactly when a pinch engages under a still midpoint: over every run from construction, once some report stood
   * 192 units from where the spread's recent rate was last below one unit a report; and it stays engaged.
   */
  lemma {:induction false} StillEngagesIff(units: int, frames: seq<Frame>, n: nat)
    requires Still(frames) && n < |frames|
    ensures StillState(Run(units, frames[..n + 1]), frames, n)
    ensures Run(units, frames[..n + 1]).engaged <==> ReachedBy(frames, n)
  {
    hide Fed, Reaches, StillState, Still, ReachedBy;
    ReachedNext(frames, n);
    if n == 0 {
      StillFirst(units, frames);
    } else {
      StillEngagesIff(units, frames, n - 1);
      RunLast(units, frames, n);
      StillStep(Run(units, frames[..n]), frames, n);
    }
  }

  lemma ReachedNext(frames: seq<Frame>, n: nat)
    requires Still(frames) && n < |frames|
    ensures ReachedBy(frames, n) <==> if n == 0 then false else ReachedBy(frames, n - 1) || Reaches(frames, n)
  {
    hide Still, Pace, AnchorAt;
  }

  lemma RunLast(units: int, frames: seq<Frame>, n: nat)
    requires n < |frames|
    ensures Run(units, frames[..n + 1]) == Fed(Run(units, frames[..n]), frames[n]).0
  {
    hide Fed;
    assert frames[..n + 1][..n] == frames[..n];
  }

  /** The spread moves at least three units on every report. */
  predicate Brisk(frames: seq<Frame>)
    requires Still(frames)
  {
    forall n :: 0 < n < |frames| ==> Abs(SpreadAt(frames, n) - SpreadAt(frames, n - 1)) >= 3
  }

  lemma {:induction false} BriskPace(frames: seq<Frame>, n: nat)
    requires Still(frames) && Brisk(frames) && n < |frames|
    ensures Pace(frames, n) >= if n == 0 then 0.0 else 1.05
    ensures AnchorAt(frames, n) == 0
  {
    if n > 0 {
      BriskPace(frames, n - 1);
      hide SpreadAt;
    }
  }

  /** Fingers that move three units or more on every report engage exactly once 192 units from where they began. */
  lemma BriskEngagesIff(units: int, frames: seq<Frame>, n: nat)
    requires Still(frames) && Brisk(frames) && n < |frames|
    ensures Run(units, frames[..n + 1]).engaged
        <==> exists k :: 0 < k <= n && Abs(SpreadAt(frames, k) - SpreadAt(frames, 0)) >= 192
  {
    StillEngagesIff(units, frames, n);
    forall k | 0 < k <= n
      ensures Reaches(frames, k) <==> Abs(SpreadAt(frames, k) - SpreadAt(frames, 0)) >= 192
    {
      BriskPace(frames, k);
    }
    hide Run, SpreadAt, Still, Brisk;
    assert !Reaches(frames, 0);
  }

  // ---- what is zoomed ------------------------------------------------------------------------

  /** The report scrolls: the midpoint's rate leads by a quarter, or it jumps eight units and twice the spread. */
  predicate Pans(p: Pinch, f: Frame)
    requires |f.contacts| == 2 && p.prev.Some? && p.prevMid.Some?
  {
    var mid, last := MidOf(f), p.prevMid.value;
    var midStep := Abs(mid.0 - last.0) + Abs(mid.1 - last.1);
    || (MidPace(p, f) >= 1.0 && MidPace(p, f) >= 1.25 * SpreadPace(p, f))
    || (midStep >= 8 && midStep >= 2 * Abs(SpreadOf(f) - p.prev.value))
  }

  function FedAll(p: Pinch, frames: seq<Frame>): Pinch {
    if frames == [] then p else Fed(FedAll(p, frames[..|frames| - 1]), frames[|frames| - 1]).0
  }

  /** Engaged before every report and after the last, two fingers throughout. */
  predicate Pinching(p: Pinch, frames: seq<Frame>) {
    && Sound(p) && p.engaged
    && forall n :: 0 <= n < |frames| ==> |frames[n].contacts| == 2 && FedAll(p, frames[..n + 1]).engaged
  }

  /** How far the spread moved, reports that pan aside. */
  function Spreading(p: Pinch, f: Frame): int
    requires |f.contacts| == 2 && p.prev.Some? && p.prevMid.Some?
  {
    if Pans(p, f) then 0 else SpreadOf(f) - p.prev.value
  }

  /** One report of an engaged pinch that stays one: the remainder takes the movement in and pays the zoom out. */
  lemma ZoomStep(p: Pinch, f: Frame)
    requires Sound(p) && p.engaged && |f.contacts| == 2
    ensures var q := Fed(p, f);
            && (q.0.engaged ==>
                  && q.1.0 == (if Pans(p, f) then 0 else Emitted(p.units, p.acc + Spreading(p, f)))
                  && q.0.acc == p.acc + Spreading(p, f) - Spent(p.units, q.1.0) && q.0.units == p.units)
            && (!q.0.engaged ==> Pans(p, f))
  {
    assert Spent(p.units, 0) == 0;
    SameMeasure(f);
    hide Emitted, Spent, Spread, Midpoint, SpreadOf, MidOf;
  }

  /** An engaged pinch counts scrolling reports in a row, and lets go exactly at the fifth. */
  lemma CountStep(p: Pinch, f: Frame)
    requires Sound(p) && p.engaged && |f.contacts| == 2
    ensures var q := Fed(p, f);
            && (q.0.engaged <==> !(Pans(p, f) && p.streak + 1 >= 5)) && (q.1.1 <==> !q.0.engaged)
            && q.0.streak == (if Pans(p, f) && p.streak + 1 < 5 then p.streak + 1 else 0)
            && (!q.0.engaged ==> q.0.acc == 0)
  {
    SameMeasure(f);
    hide Emitted, Spent, Spread, Midpoint, SpreadOf, MidOf;
  }

  lemma {:induction false} PinchingState(p: Pinch, frames: seq<Frame>)
    requires Pinching(p, frames)
    ensures var q := FedAll(p, frames); Sound(q) && q.engaged && q.units == p.units
  {
    if frames != [] {
      var n := |frames| - 1;
      PinchingPrefix(p, frames);
      PinchingState(p, frames[..n]);
      assert frames[..n + 1] == frames && |frames[n].contacts| == 2;
      SoundKept(FedAll(p, frames[..n]), frames[n]);
      ZoomStep(FedAll(p, frames[..n]), frames[n]);
      hide Fed, Sound;
    }
  }

  lemma PinchingPrefix(p: Pinch, frames: seq<Frame>)
    requires Pinching(p, frames) && frames != []
    ensures Pinching(p, frames[..|frames| - 1]) && |frames[|frames| - 1].contacts| == 2 && FedAll(p, frames).engaged
  {
    hide Fed, Sound;
    var n := |frames| - 1;
    assert frames[..n + 1] == frames;
    forall k | 0 <= k < n
      ensures |frames[..n][k].contacts| == 2 && FedAll(p, frames[..n][..k + 1]).engaged
    {
      assert frames[..n][..k + 1] == frames[..k + 1];
    }
  }

  lemma SoundHas(p: Pinch)
    requires Sound(p) && p.engaged
    ensures p.prev.Some? && p.prevMid.Some?
  {
  }

  /** How many scrolling reports in a row a stretch ends in. */
  function Trailing(p: Pinch, frames: seq<Frame>): nat
    requires Pinching(p, frames)
  {
    if frames == [] then p.streak
    else
      var n := |frames| - 1;
      PinchingPrefix(p, frames);
      PinchingState(p, frames[..n]);
      SoundHas(FedAll(p, frames[..n]));
      if Pans(FedAll(p, frames[..n]), frames[n]) then 1 + Trailing(p, frames[..n]) else 0
  }

  lemma {:induction false} StreakIsTrailing(p: Pinch, frames: seq<Frame>)
    requires Pinching(p, frames)
    ensures FedAll(p, frames).streak == Trailing(p, frames)
  {
    if frames != [] {
      var n := |frames| - 1;
      PinchingPrefix(p, frames);
      PinchingState(p, frames[..n]);
      StreakIsTrailing(p, frames[..n]);
      SoundHas(FedAll(p, frames[..n]));
      CountStep(FedAll(p, frames[..n]), frames[n]);
      hide Fed, Sound, Pinching, Pans;
    }
  }

  /** Over every engaged stretch the pinch, two fingers down, ends exactly at the fifth scrolling report in a row. */
  lemma LetsGoIff(p: Pinch, frames: seq<Frame>, f: Frame)
    requires Pinching(p, frames) && |f.contacts| == 2
    ensures var q := FedAll(p, frames);
            && Sound(q) && q.prev.Some? && q.prevMid.Some?
            && (Fed(q, f).1.1 <==> Pans(q, f) && Trailing(p, frames) >= 4)
  {
    PinchingState(p, frames);
    StreakIsTrailing(p, frames);
    SoundHas(FedAll(p, frames));
    CountStep(FedAll(p, frames), f);
    hide Fed, Sound, Pinching, Pans, FedAll, Trailing;
  }

  function TotalSpent(p: Pinch, frames: seq<Frame>): int {
    if frames == [] then 0
    else
      var n := |frames| - 1;
      TotalSpent(p, frames[..n]) + Spent(p.units, Fed(FedAll(p, frames[..n]), frames[n]).1.0)
  }

  function TotalSpread(p: Pinch, frames: seq<Frame>): int
    requires Pinching(p, frames)
  {
    if frames == [] then 0
    else
      var n := |frames| - 1;
      PinchingPrefix(p, frames);
      PinchingState(p, frames[..n]);
      SoundHas(FedAll(p, frames[..n]));
      TotalSpread(p, frames[..n]) + Spreading(FedAll(p, frames[..n]), frames[n])
  }

  /** Nothing is lost while engaged: what the zoom is worth and the remainder together are the spread's movement. */
  lemma {:induction false} ZoomConserves(p: Pinch, frames: seq<Frame>)
    requires Pinching(p, frames)
    ensures FedAll(p, frames).acc + TotalSpent(p, frames) == p.acc + TotalSpread(p, frames)
  {
    if frames != [] {
      var n := |frames| - 1;
      PinchingPrefix(p, frames);
      PinchingState(p, frames[..n]);
      ZoomConserves(p, frames[..n]);
      SoundHas(FedAll(p, frames[..n]));
      ZoomStep(FedAll(p, frames[..n]), frames[n]);
      hide Fed, Sound, Pinching, Spent, Emitted;
    }
  }

  /** Each zoom has the sign of what it pays for, and below the clamp leaves little. */
  lemma ZoomFollows(p: Pinch, f: Frame)
    requires Sound(p) && p.engaged && |f.contacts| == 2 && Fed(p, f).0.engaged && !Pans(p, f)
    ensures var moved := p.acc + SpreadOf(f) - p.prev.value;
            && Fed(p, f).1.0 == Emitted(p.units, moved) && Signum(Fed(p, f).1.0) in {0, Signum(moved)}
            && (Unclamped(p.units, moved) ==> Abs(Fed(p, f).0.acc) <= Max(p.units, 1) / 120 + 1)
  {
    ZoomStep(p, f);
    PtpPanRuns.ScrollWorth(p.units, p.acc + SpreadOf(f) - p.prev.value);
    if Unclamped(p.units, p.acc + SpreadOf(f) - p.prev.value) {
      RemainderSmall(p.units, p.acc + SpreadOf(f) - p.prev.value);
    }
    hide Fed, Emitted, Spent, Unclamped, Spread, Pans, SpreadOf;
  }
}
