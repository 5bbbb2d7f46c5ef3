/** Grid distance and one-way travel time (lib/game/missions/distance.ts). */
module Distance {
  import opened Wrappers

  function Abs(n: int): nat
  {
    if n < 0 then -n else n
  }

  /** Chebyshev distance between two map cells: the larger of the two axis offsets. */
  function ChebyshevDistance(x1: int, y1: int, x2: int, y2: int): (d: nat)
    ensures d >= Abs(x2 - x1) && d >= Abs(y2 - y1)
    ensures d == Abs(x2 - x1) || d == Abs(y2 - y1)
  {
    var dx, dy := Abs(x2 - x1), Abs(y2 - y1);
    if dx < dy then dy else dx
  }

  /** The ceiling of a / b for a positive divisor. */
  function CeilDiv(a: int, b: int): (q: int)
    requires b > 0
    ensures q * b >= a && (q - 1) * b < a
  {
    var f := (-a) / b;
    assert -a == b * f + (-a) % b;
    -f
  }

  /** `computeTravelSeconds`: a non-positive speed means the target is unreachable
      (the source returns Infinity); otherwise ceil(distance / speed * 3600). */
  function ComputeTravelSeconds(distance: int, speed: int): (r: Option<int>)
    ensures r.None? <==> speed <= 0
    ensures r.Some? ==> r.value * speed >= distance * 3600
    ensures r.Some? ==> (r.value - 1) * speed < distance * 3600
  {
    if speed <= 0 then None else Some(CeilDiv(distance * 3600, speed))
  }

  lemma DistanceIsMetric(x1: int, y1: int, x2: int, y2: int)
    ensures ChebyshevDistance(x1, y1, x2, y2) == ChebyshevDistance(x2, y2, x1, y1)
    ensures ChebyshevDistance(x1, y1, x2, y2) == 0 <==> x1 == x2 && y1 == y2
  {
  }

  lemma TriangleInequality(x1: int, y1: int, x2: int, y2: int, x3: int, y3: int)
    ensures ChebyshevDistance(x1, y1, x3, y3)
            <= ChebyshevDistance(x1, y1, x2, y2) + ChebyshevDistance(x2, y2, x3, y3)
  {
  }

  /** The ceiling bounds determine the travel time uniquely. */
  lemma CeilingIsUnique(a: int, b: int, q1: int, q2: int)
    requires b > 0
    requires q1 * b >= a && (q1 - 1) * b < a
    requires q2 * b >= a && (q2 - 1) * b < a
    ensures q1 == q2
  {
    if q1 < q2 {
      assert (q2 - 1) * b >= q1 * b by { MulMono(q1, q2 - 1, b); }
    } else if q2 < q1 {
      assert (q1 - 1) * b >= q2 * b by { MulMono(q2, q1 - 1, b); }
    }
  }

  lemma MulMono(a: int, c: int, b: int)
    requires a <= c && b > 0
    ensures a * b <= c * b
  {
    assert c * b - a * b == (c - a) * b;
  }

  /** For a fixed positive speed, travel time grows with distance and is 0 at distance 0. */
  lemma TravelTimeMonotone(d1: int, d2: int, speed: int)
    requires speed > 0 && d1 <= d2
    ensures ComputeTravelSeconds(0, speed) == Some(0)
    ensures ComputeTravelSeconds(d1, speed).value <= ComputeTravelSeconds(d2, speed).value
  {
    CeilingIsUnique(0, speed, ComputeTravelSeconds(0, speed).value, 0);
    var t1, t2 := ComputeTravelSeconds(d1, speed).value, ComputeTravelSeconds(d2, speed).value;
    if t1 > t2 {
      MulMono(t2, t1 - 1, speed);
      MulMono(d1 * 3600, d2 * 3600, 1);
    }
  }

  /** The lumberjack of the seed data (speed 2) needs 18000 s to cover 10 cells. */
  lemma LumberjackTenCells()
    ensures ComputeTravelSeconds(10, 2) == Some(18000)
  {
    CeilingIsUnique(36000, 2, ComputeTravelSeconds(10, 2).value, 18000);
  }
}
