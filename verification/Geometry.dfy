/** Screen edges, overflow past them, and proportional coordinate mapping. */
module Geometry {
  import opened Basics

  datatype Edge = Left | Right | Top | Bottom {
    function Opposite(): Edge {
      match this
      case Left => Right
      case Right => Left
      case Top => Bottom
      case Bottom => Top
    }

    predicate Horizontal() {
      this.Left? || this.Right?
    }
  }

  /** Which edges may open a crossing. */
  datatype EdgeMode = Single | Double

  /** Which peer edge a crossing enters through. */
  datatype DoubleEdgeStyle = Mirror | FixedLeft | FixedRight {
    function EntryForExit(exit: Edge): Edge {
      match this
      case Mirror => exit.Opposite()
      case FixedLeft => Edge.Left
      case FixedRight => Edge.Right
    }
  }

  const EDGE_PUSH_PX := 8
  const PHANTOM_START_GUARD_PX := 64
  const ENTRY_INSET_PX := 32
  const SETTLE_PX := 40
  const POST_RETURN_CLEAR_PX := 64
  const RETURN_INSET_PX := 8
  const POST_RETURN_HOLD := 250 * MILLISECOND
  const RETURN_PUSH_PX := 64
  const RETURN_EDGE_PX := 20
  const RESYNC_DIVERGE_PX := 2
  const SLIDE_PX := 2

  /** The edge a position out of bounds lies past; horizontal edges win. */
  function EdgePast(x: int, y: int, width: u32, height: u32): Option<Edge> {
    if x < 0 then Some(Left)
    else if x >= width then Some(Right)
    else if y < 0 then Some(Top)
    else if y >= height then Some(Bottom)
    else None
  }

  /** Pixels between a position and an edge it lies past. */
  function Overshoot(edge: Edge, x: int, y: int, width: u32, height: u32): nat {
    Max(0,
        match edge
        case Left => -x
        case Right => x - (width - 1)
        case Top => -y
        case Bottom => y - (height - 1))
  }

  /** The jump-zone primitive: which edge one motion step overflows, and by how much. */
  function EdgeOverflow(width: u32, height: u32, x: u32, y: u32, dx: i32, dy: i32): (r: Option<(Edge, nat)>)
    ensures r.None? <==> 0 <= x + dx < width && 0 <= y + dy < height
    ensures width > 0 && height > 0 && r.Some? ==> r.value.1 >= 1
  {
    var edge := EdgePast(x + dx, y + dy, width, height);
    if edge.None? then None else Some((edge.value, Overshoot(edge.value, x + dx, y + dy, width, height)))
  }

  /** Inward distance from an edge. */
  function DistanceFromEdge(edge: Edge, x: u32, y: u32, width: u32, height: u32): u32 {
    match edge
    case Left => x
    case Right => Max(0, Max(0, width - 1) - x)
    case Top => y
    case Bottom => Max(0, Max(0, height - 1) - y)
  }

  /** Map a position on one span proportionally onto another. */
  function MapCoordinate(value: u32, sourceSpan: u32, targetSpan: u32): u32 {
    if sourceSpan <= 1 || targetSpan <= 1 then 0
    else
      var clamped := Min(value, sourceSpan - 1);
      QuotientBound(clamped * (targetSpan - 1), sourceSpan - 1, clamped, targetSpan - 1);
      clamped * (targetSpan - 1) / (sourceSpan - 1)
  }

  lemma QuotientBound(product: int, s: int, v: int, t: int)
    requires s > 0 && 0 <= v <= s && t >= 0 && product == v * t
    ensures 0 <= product / s <= t
  {
    DivisionBounds(product, s);
    var q := product / s;
    MulOrder(v, s, t);
    if q > t {
      MulOrder(t + 1, q, s);
    } else if q < 0 {
      MulOrder(q, -1, s);
      MulOrder(0, v, t);
    }
  }

  lemma MulOrder(a: int, b: int, c: int)
    requires a <= b && c >= 0
    ensures a * c <= b * c
  {
  }

  /** The two inequalities that define a floor quotient. */
  lemma DivisionBounds(a: int, b: int)
    requires b > 0
    ensures (a / b) * b <= a <= (a / b) * b + b - 1
  {
  }

  lemma ProductOrder(a: int, b: int, c: int)
    requires c > 0
    ensures a * c <= b * c <==> a <= b
  {
  }

  lemma FloorMonotone(a: int, b: int, qa: int, qb: int, s: int)
    requires s > 0 && a <= b
    requires qa * s <= a && b <= qb * s + s - 1
    ensures qa <= qb
  {
    if qa > qb {
      MulOrder(qb + 1, qa, s);
    }
  }

  lemma MapMonotone(v: u32, w: u32, sourceSpan: u32, targetSpan: u32)
    requires v <= w
    ensures MapCoordinate(v, sourceSpan, targetSpan) <= MapCoordinate(w, sourceSpan, targetSpan)
  {
    if sourceSpan > 1 && targetSpan > 1 {
      var s, t := sourceSpan - 1, targetSpan - 1;
      var a, b := Min(v, s), Min(w, s);
      MulOrder(a, b, t);
      DivisionBounds(a * t, s);
      DivisionBounds(b * t, s);
      FloorMonotone(a * t, b * t, (a * t) / s, (b * t) / s, s);
    }
  }

  lemma MapInRange(v: u32, sourceSpan: u32, targetSpan: u32)
    requires targetSpan > 0
    ensures MapCoordinate(v, sourceSpan, targetSpan) < targetSpan
  {
    if sourceSpan > 1 && targetSpan > 1 {
      var s, t := sourceSpan - 1, targetSpan - 1;
      QuotientBound(Min(v, s) * t, s, Min(v, s), t);
    }
  }

  lemma ExactQuotient(q: int, b: int, p: int)
    requires b > 0 && p == q * b
    ensures p / b == q
  {
    DivisionBounds(p, b);
    FloorMonotone(p, p, q, p / b, b);
    FloorMonotone(p, p, p / b, q, b);
  }

  /** Both endpoints of a span are kept. */
  lemma MapKeepsEndpoints(sourceSpan: u32, targetSpan: u32)
    requires sourceSpan > 1 && targetSpan > 1
    ensures MapCoordinate(0, sourceSpan, targetSpan) == 0
    ensures MapCoordinate(sourceSpan - 1, sourceSpan, targetSpan) == targetSpan - 1
  {
    var s, t := sourceSpan - 1, targetSpan - 1;
    ExactQuotient(t, s, s * t);
    ExactQuotient(0, s, 0 * t);
  }

  /** Equal spans map identically. */
  lemma MapIdentity(v: u32, span: u32)
    requires v < span
    ensures MapCoordinate(v, span, span) == v
  {
    if span > 1 {
      ExactQuotient(v, span - 1, v * (span - 1));
    }
  }

  /** One crossing out of a span and back. */
  function ThereAndBack(v: u32, sourceSpan: u32, targetSpan: u32): u32 {
    MapCoordinate(MapCoordinate(v, sourceSpan, targetSpan), targetSpan, sourceSpan)
  }

  /** What one round trip can lose: (S - 1) / T rounded up, for spans S + 1 and T + 1. */
  function TripLoss(sourceSpan: u32, targetSpan: u32): nat
    requires sourceSpan > 1 && targetSpan > 1
  {
    (sourceSpan - 2 + targetSpan - 2) / (targetSpan - 1)
  }

  /** The arithmetic of a round trip, from the inequalities of its two divisions alone. */
  lemma FloorRoundTrip(v: int, u: int, w: int, s: int, t: int, bound: int)
    requires s > 0 && t > 0
    requires u * s <= v * t <= u * s + s - 1
    requires w * t <= u * s <= w * t + t - 1
    requires s + t - 2 <= bound * t + t - 1
    ensures v - bound <= w <= v
  {
    ProductOrder(w, v, t);
    assert (v - w) * t <= s + t - 2;
    if v - w > bound {
      ProductOrder(bound + 1, v - w, t);
    }
  }

  /** A round trip never moves the cursor forward and loses at most TripLoss. */
  lemma RoundTrip(v: u32, sourceSpan: u32, targetSpan: u32)
    requires sourceSpan > 1 && targetSpan > 1 && v < sourceSpan
    ensures v - TripLoss(sourceSpan, targetSpan) <= ThereAndBack(v, sourceSpan, targetSpan) <= v
  {
    var s, t := sourceSpan - 1, targetSpan - 1;
    var u := (v * t) / s;
    var w := (u * s) / t;
    QuotientBound(v * t, s, v, t);
    DivisionBounds(v * t, s);
    DivisionBounds(u * s, t);
    DivisionBounds(s + t - 2, t);
    FloorRoundTrip(v, u, w, s, t, (s + t - 2) / t);
  }

  function Iterate(f: u32 -> u32, v: u32, k: nat): u32
    decreases k
  {
    if k == 0 then v else Iterate(f, f(v), k - 1)
  }

  lemma {:induction false} IterateDrift(f: u32 -> u32, v: u32, k: nat, span: u32, loss: nat)
    requires forall x: u32 :: x < span ==> x - loss <= f(x) <= x
    requires v < span
    ensures v - k * loss <= Iterate(f, v, k) <= v
    decreases k
  {
    if k > 0 {
      IterateDrift(f, f(v), k - 1, span, loss);
      assert k * loss == (k - 1) * loss + loss;
    }
  }

  /** Repeated crossings drift only backward, at most one TripLoss a trip. */
  lemma RepeatedTrips(v: u32, sourceSpan: u32, targetSpan: u32, k: nat)
    requires sourceSpan > 1 && targetSpan > 1 && v < sourceSpan
    ensures var trip := (x: u32) => ThereAndBack(x, sourceSpan, targetSpan);
            v - k * TripLoss(sourceSpan, targetSpan) <= Iterate(trip, v, k) <= v
  {
    var trip := (x: u32) => ThereAndBack(x, sourceSpan, targetSpan);
    var loss := TripLoss(sourceSpan, targetSpan);
    forall x: u32 | x < sourceSpan
      ensures x - loss <= trip(x) <= x
    {
      RoundTrip(x, sourceSpan, targetSpan);
    }
    IterateDrift(trip, v, k, sourceSpan, loss);
  }
}
