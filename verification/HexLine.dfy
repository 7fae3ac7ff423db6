/** Straight hex lines (Position.line_to, caravaneer/core.py), in exact arithmetic.

    The point a fraction i/n of the way from x0 to x1 is kept as the integer numerator
    x0 * n + (x1 - x0) * i over the denominator n. */
module HexLine {
  import opened Arith
  import opened Hex

  /** Python's round() on the rational num/den: nearest integer, ties to the even one. */
  function RoundHalfEven(num: int, den: int): int
    requires den > 0
  {
    var floor, rem := num / den, num % den;
    if 2 * rem < den then floor
    else if 2 * rem > den then floor + 1
    else if floor % 2 == 0 then floor else floor + 1
  }

  /** Numerator, over n, of the point i/n of the way from x0 to x1. */
  function Lerp(x0: int, x1: int, i: int, n: int): int {
    x0 * n + (x1 - x0) * i
  }

  /** Distance, in n-ths, from the integer x to the rational num/n. */
  function Error(x: int, num: int, n: int): nat {
    Abs(x * n - num)
  }

  /** Rounds a cube point coordinate by coordinate, then repairs the one the code repairs. */
  function RoundCube(qn: int, rn: int, sn: int, n: int): Position
    requires n > 0
  {
    var q, r, s := RoundHalfEven(qn, n), RoundHalfEven(rn, n), RoundHalfEven(sn, n);
    var dq, dr, ds := Error(q, qn, n), Error(r, rn, n), Error(s, sn, n);
    if dq > dr && dq > ds then Position(-r - s, r)
    else if dr > ds then Position(q, -q - s)
    else Position(q, r)
  }

  function LineCell(a: Position, b: Position, i: int): Position
    requires a != b
  {
    var n := a.DistanceTo(b);
    RoundCube(Lerp(a.q, b.q, i, n), Lerp(a.r, b.r, i, n), Lerp(a.S(), b.S(), i, n), n)
  }

  function Line(a: Position, b: Position): (cells: seq<Position>)
    ensures |cells| == a.DistanceTo(b) + 1
  {
    if a == b then [a] else seq(a.DistanceTo(b) + 1, i => LineCell(a, b, i))
  }

  // ---- Rounding ----

  ghost predicate Near(x: int, num: int, n: int) {
    2 * Error(x, num, n) <= n
  }

  lemma RoundIsNear(num: int, n: int)
    requires n > 0
    ensures Near(RoundHalfEven(num, n), num, n)
  {
    var floor := num / n;
    assert num == floor * n + num % n;
    assert (floor + 1) * n == floor * n + n;
  }

  /** Two integers near the same point are equal or stand one on each side of a tie. */
  lemma NearUnique(x: int, y: int, num: int, n: int)
    requires n > 0 && Near(x, num, n) && Near(y, num, n)
    ensures -1 <= x - y <= 1
    ensures x != y ==> 2 * Error(x, num, n) == n && 2 * Error(y, num, n) == n
  {
    assert (x - y) * n == x * n - y * n;
    MulCompare(x - y, 2, n);
    MulCompare(-2, x - y, n);
  }

  /** An exact coordinate rounds to itself. */
  lemma RoundExact(x: int, n: int)
    requires n > 0
    ensures RoundHalfEven(x * n, n) == x
  {
    RoundIsNear(x * n, n);
    NearUnique(RoundHalfEven(x * n, n), x, x * n, n);
  }

  /** With one coordinate exact, the repaired cell keeps it and is near in all three. */
  lemma RoundCubeNear(qn: int, rn: int, sn: int, n: int)
    requires n > 0 && qn + rn + sn == 0
    requires qn % n == 0 || rn % n == 0 || sn % n == 0
    ensures var p := RoundCube(qn, rn, sn, n);
      && Near(p.q, qn, n) && Near(p.r, rn, n) && Near(p.S(), sn, n)
  {
    var q, r, s := RoundHalfEven(qn, n), RoundHalfEven(rn, n), RoundHalfEven(sn, n);
    RoundIsNear(qn, n);
    RoundIsNear(rn, n);
    RoundIsNear(sn, n);
    if qn % n == 0 {
      ExactMeansZeroError(qn, n);
      TwoRoundings(r, rn, s, sn, q, qn, n);
    } else if rn % n == 0 {
      ExactMeansZeroError(rn, n);
      TwoRoundings(q, qn, s, sn, r, rn, n);
    } else {
      ExactMeansZeroError(sn, n);
      TwoRoundings(q, qn, r, rn, s, sn, n);
    }
  }

  lemma ExactMeansZeroError(num: int, n: int)
    requires n > 0 && num % n == 0
    ensures Error(RoundHalfEven(num, n), num, n) == 0
  {
    assert num == (num / n) * n;
    RoundExact(num / n, n);
  }

  /** When m = mn/n is exact and the three points sum to zero, rounding the other two
      gives equal errors, and either their sum matches or both are ties. */
  lemma TwoRoundings(x: int, xn: int, y: int, yn: int, m: int, mn: int, n: int)
    requires n > 0 && xn + yn + mn == 0 && Error(m, mn, n) == 0
    requires Near(x, xn, n) && Near(y, yn, n)
    ensures Near(-m - y, xn, n) && Near(-m - x, yn, n)
    ensures Error(x, xn, n) == Error(y, yn, n)
    ensures x + y + m != 0 ==> 2 * Error(x, xn, n) == n
  {
    assert (-m - y) * n == -(m * n) - y * n;
    assert (-m - x) * n == -(m * n) - x * n;
    assert Error(-m - y, xn, n) == Error(y, yn, n);
    assert Error(-m - x, yn, n) == Error(x, xn, n);
    NearUnique(x, -m - y, xn, n);
  }

  /** A rounded point half-way between two integers goes to the even one. */
  lemma TieGoesToEven(num: int, n: int)
    requires n > 0 && 2 * Error(RoundHalfEven(num, n), num, n) == n
    ensures RoundHalfEven(num, n) % 2 == 0
  {
    var floor := num / n;
    assert num == floor * n + num % n;
    assert (floor + 1) * n == floor * n + n;
  }

  /** In the repaired cell, too: a tie in q is settled evenly, and one in r when q has none. */
  lemma RoundCubeTies(qn: int, rn: int, sn: int, n: int)
    requires n > 0 && qn + rn + sn == 0
    requires qn % n == 0 || rn % n == 0 || sn % n == 0
    ensures var p := RoundCube(qn, rn, sn, n);
      && TieIsEven(p.q, qn, n) && (2 * Error(p.q, qn, n) != n ==> TieIsEven(p.r, rn, n))
  {
    var q, r, s := RoundHalfEven(qn, n), RoundHalfEven(rn, n), RoundHalfEven(sn, n);
    RoundIsNear(qn, n);
    RoundIsNear(rn, n);
    RoundIsNear(sn, n);
    if 2 * Error(q, qn, n) == n { TieGoesToEven(qn, n); }
    if 2 * Error(r, rn, n) == n { TieGoesToEven(rn, n); }
    if qn % n == 0 {
      ExactMeansZeroError(qn, n);
      TwoRoundings(r, rn, s, sn, q, qn, n);
    } else if rn % n == 0 {
      ExactMeansZeroError(rn, n);
      TwoRoundings(q, qn, s, sn, r, rn, n);
    } else {
      ExactMeansZeroError(sn, n);
      TwoRoundings(q, qn, r, rn, s, sn, n);
    }
  }

  // ---- The shape of a line ----

  lemma LerpSumsToZero(a: Position, b: Position, i: int, n: int)
    ensures Lerp(a.q, b.q, i, n) + Lerp(a.r, b.r, i, n) + Lerp(a.S(), b.S(), i, n) == 0
  {
    var dq, dr := b.q - a.q, b.r - a.r;
    assert b.S() - a.S() == -dq - dr;
    assert (-dq - dr) * i == -(dq * i) - dr * i;
    assert a.S() * n == -(a.q * n) - a.r * n;
  }

  /** A coordinate that moves by n in n steps is exact at every step. */
  lemma MajorIsExact(x0: int, x1: int, i: int, n: int)
    requires n > 0 && Abs(x1 - x0) == n
    ensures var x := if x1 > x0 then x0 + i else x0 - i;
      Lerp(x0, x1, i, n) == x * n && Lerp(x0, x1, i, n) % n == 0
  {
    var x := if x1 > x0 then x0 + i else x0 - i;
    assert Lerp(x0, x1, i, n) == x * n;
    ModZero(x, n);
  }

  /** Every cell of the line is within half a hex of its exact point, in each cube coordinate. */
  lemma LineCellNear(a: Position, b: Position, i: int)
    requires a != b
    ensures var n, p := a.DistanceTo(b), LineCell(a, b, i);
      && Near(p.q, Lerp(a.q, b.q, i, n), n)
      && Near(p.r, Lerp(a.r, b.r, i, n), n)
      && Near(p.S(), Lerp(a.S(), b.S(), i, n), n)
  {
    var n := a.DistanceTo(b);
    LerpSumsToZero(a, b, i, n);
    if Abs(b.q - a.q) == n { MajorIsExact(a.q, b.q, i, n); }
    else if Abs(b.r - a.r) == n { MajorIsExact(a.r, b.r, i, n); }
    else { MajorIsExact(a.S(), b.S(), i, n); }
    RoundCubeNear(Lerp(a.q, b.q, i, n), Lerp(a.r, b.r, i, n), Lerp(a.S(), b.S(), i, n), n);
  }

  /** A cell rounds the i-th point of the line: near it in every coordinate, with ties settled evenly. */
  predicate Rounds(a: Position, b: Position, i: int, p: Position)
    requires a != b
  {
    var n := a.DistanceTo(b);
    var qn, rn := Lerp(a.q, b.q, i, n), Lerp(a.r, b.r, i, n);
    && 2 * Error(p.q, qn, n) <= n && 2 * Error(p.r, rn, n) <= n
    && 2 * Error(p.S(), Lerp(a.S(), b.S(), i, n), n) <= n
    && TieIsEven(p.q, qn, n) && (2 * Error(p.q, qn, n) != n ==> TieIsEven(p.r, rn, n))
  }

  /** If num/n lies half-way between two integers, x is even. */
  predicate TieIsEven(x: int, num: int, n: int) {
    2 * Error(x, num, n) == n ==> x % 2 == 0
  }

  /** Exactly one cell rounds each point of the line, and the line takes it. */
  lemma LineCellIsTheRounding(a: Position, b: Position, i: int, p: Position)
    requires a != b
    ensures Rounds(a, b, i, p) <==> p == LineCell(a, b, i)
  {
    var n, c := a.DistanceTo(b), LineCell(a, b, i);
    var qn, rn, sn := Lerp(a.q, b.q, i, n), Lerp(a.r, b.r, i, n), Lerp(a.S(), b.S(), i, n);
    LineCellNear(a, b, i);
    SomeCoordinateIsExact(a, b, i);
    LerpSumsToZero(a, b, i, n);
    RoundCubeTies(qn, rn, sn, n);
    if Rounds(a, b, i, p) {
      NearOfExact(c.q, qn, n);
      NearOfExact(c.r, rn, n);
      NearOfExact(c.S(), sn, n);
      EvenIsUnique(p.q, c.q, qn, n);
      if 2 * Error(c.q, qn, n) != n {
        EvenIsUnique(p.r, c.r, rn, n);
      } else {
        // q is a tie, so r or s is exact.
        NearUnique(p.r, c.r, rn, n);
        NearUnique(p.S(), c.S(), sn, n);
      }
    }
  }

  lemma LineRounds(a: Position, b: Position)
    ensures a != b ==> forall i :: 0 <= i < |Line(a, b)| ==> Rounds(a, b, i, Line(a, b)[i])
  {
    if a != b {
      forall i | 0 <= i < |Line(a, b)|
        ensures Rounds(a, b, i, Line(a, b)[i])
      {
        LineCellIsTheRounding(a, b, i, LineCell(a, b, i));
      }
    }
  }

  lemma SomeCoordinateIsExact(a: Position, b: Position, i: int)
    requires a != b
    ensures var n := a.DistanceTo(b);
      Lerp(a.q, b.q, i, n) % n == 0 || Lerp(a.r, b.r, i, n) % n == 0 || Lerp(a.S(), b.S(), i, n) % n == 0
  {
    var n := a.DistanceTo(b);
    if Abs(b.q - a.q) == n { MajorIsExact(a.q, b.q, i, n); }
    else if Abs(b.r - a.r) == n { MajorIsExact(a.r, b.r, i, n); }
    else { MajorIsExact(a.S(), b.S(), i, n); }
  }

  lemma EvenIsUnique(x: int, y: int, num: int, n: int)
    requires n > 0 && Near(x, num, n) && Near(y, num, n) && TieIsEven(x, num, n) && TieIsEven(y, num, n)
    ensures x == y
  {
    NearUnique(x, y, num, n);
  }

  /** The integer near an exact point is that point. */
  lemma NearOfExact(x: int, num: int, n: int)
    requires n > 0 && Near(x, num, n)
    ensures num % n == 0 ==> Error(x, num, n) == 0
  {
    if num % n == 0 {
      ExactMeansZeroError(num, n);
      NearUnique(x, RoundHalfEven(num, n), num, n);
    }
  }

  lemma LerpStep(x0: int, x1: int, i: int, n: int)
    ensures Lerp(x0, x1, i + 1, n) == Lerp(x0, x1, i, n) + (x1 - x0)
  {
    assert (x1 - x0) * (i + 1) == (x1 - x0) * i + (x1 - x0);
  }

  /** Cells near points less than one apart differ by at most one. */
  lemma NearApart(x: int, xn: int, y: int, yn: int, n: int)
    requires n > 0 && Near(x, xn, n) && Near(y, yn, n) && -n < yn - xn < n
    ensures -1 <= y - x <= 1
  {
    assert (y - x) * n == y * n - x * n;
    MulCompare(y - x, 2, n);
    MulCompare(-2, y - x, n);
  }

  /** One step changes a near coordinate by at most one, and by exactly one when it is the major one. */
  lemma NearStep(x0: int, x1: int, i: int, n: int, x: int, y: int)
    requires n > 0 && Abs(x1 - x0) <= n
    requires Near(x, Lerp(x0, x1, i, n), n) && Near(y, Lerp(x0, x1, i + 1, n), n)
    ensures Abs(y - x) <= 1
    ensures Abs(x1 - x0) == n ==> Abs(y - x) == 1
  {
    var here, there := Lerp(x0, x1, i, n), Lerp(x0, x1, i + 1, n);
    if Abs(x1 - x0) == n {
      MajorIsExact(x0, x1, i, n);
      MajorIsExact(x0, x1, i + 1, n);
      var e, f := if x1 > x0 then x0 + i else x0 - i, if x1 > x0 then x0 + i + 1 else x0 - i - 1;
      ZeroError(e, n);
      ZeroError(f, n);
      NearUnique(x, e, here, n);
      NearUnique(y, f, there, n);
    } else {
      LerpStep(x0, x1, i, n);
      NearApart(x, here, y, there, n);
    }
  }

  lemma ZeroError(x: int, n: int)
    ensures Error(x, x * n, n) == 0
  {
  }

  lemma LineStepsAreAdjacent(a: Position, b: Position, i: int)
    requires a != b
    ensures Adjacent(LineCell(a, b, i), LineCell(a, b, i + 1))
  {
    var n, p, p' := a.DistanceTo(b), LineCell(a, b, i), LineCell(a, b, i + 1);
    LineCellNear(a, b, i);
    LineCellNear(a, b, i + 1);
    NearStep(a.q, b.q, i, n, p.q, p'.q);
    NearStep(a.r, b.r, i, n, p.r, p'.r);
    NearStep(a.S(), b.S(), i, n, p.S(), p'.S());
  }

  lemma LineEnds(a: Position, b: Position)
    requires a != b
    ensures LineCell(a, b, 0) == a && LineCell(a, b, a.DistanceTo(b)) == b
  {
    var n := a.DistanceTo(b);
    RoundExact(a.q, n); RoundExact(a.r, n); RoundExact(a.S(), n);
    RoundExact(b.q, n); RoundExact(b.r, n); RoundExact(b.S(), n);
    LerpAtEnd(a.q, b.q, n); LerpAtEnd(a.r, b.r, n); LerpAtEnd(a.S(), b.S(), n);
    ZeroError(a.q, n); ZeroError(a.r, n); ZeroError(a.S(), n);
    ZeroError(b.q, n); ZeroError(b.r, n); ZeroError(b.S(), n);
  }

  lemma LerpAtEnd(x0: int, x1: int, n: int)
    ensures Lerp(x0, x1, 0, n) == x0 * n && Lerp(x0, x1, n, n) == x1 * n
  {
    assert (x1 - x0) * n == x1 * n - x0 * n;
  }

  /** line_to walks from a to b through distance + 1 cells: it is a shortest walk. */
  lemma LineIsShortestWalk(a: Position, b: Position)
    ensures WalkBetween(Line(a, b), a, b)
    ensures |Line(a, b)| == a.DistanceTo(b) + 1
  {
    if a != b {
      LineEnds(a, b);
      var line := Line(a, b);
      forall i | 0 < i < |line|
        ensures Adjacent(line[i - 1], line[i])
      {
        LineStepsAreAdjacent(a, b, i - 1);
      }
    }
  }

  /** distance_to is the least number of neighbour steps: some walk attains it, none beats it. */
  lemma DistanceIsLeastSteps(a: Position, b: Position)
    ensures exists path :: WalkBetween(path, a, b) && |path| - 1 == a.DistanceTo(b)
    ensures forall path :: WalkBetween(path, a, b) ==> a.DistanceTo(b) <= |path| - 1
  {
    LineIsShortestWalk(a, b);
    forall path | WalkBetween(path, a, b)
      ensures a.DistanceTo(b) <= |path| - 1
    {
      WalkBoundsDistance(path, 0, |path| - 1);
    }
  }

  /** The line back is the same line, read backwards. */
  lemma LineReverses(a: Position, b: Position)
    ensures var n := a.DistanceTo(b);
      && |Line(b, a)| == |Line(a, b)| == n + 1
      && forall i :: 0 <= i <= n ==> Line(b, a)[i] == Line(a, b)[n - i]
  {
    var n := a.DistanceTo(b);
    TriangleInequality(a, b, a);
    if a != b {
      forall i | 0 <= i <= n
        ensures LineCell(b, a, i) == LineCell(a, b, n - i)
      {
        LerpReverses(a.q, b.q, i, n);
        LerpReverses(a.r, b.r, i, n);
        LerpReverses(a.S(), b.S(), i, n);
      }
    }
  }

  lemma LerpReverses(x0: int, x1: int, i: int, n: int)
    ensures Lerp(x1, x0, i, n) == Lerp(x0, x1, n - i, n)
  {
    var d := x1 - x0;
    assert d * (n - i) == d * n - d * i;
    assert (x0 - x1) * i == -(d * i);
    assert d * n == x1 * n - x0 * n;
  }

  // ---- Balls are convex ----

  lemma LerpBetween(x0: int, x1: int, i: int, n: int, lo: int, hi: int)
    requires 0 <= i <= n && lo <= x0 <= hi && lo <= x1 <= hi
    ensures lo * n <= Lerp(x0, x1, i, n) <= hi * n
  {
    var j := n - i;
    assert Lerp(x0, x1, i, n) == x0 * j + x1 * i by {
      assert x0 * j == x0 * n - x0 * i;
      assert (x1 - x0) * i == x1 * i - x0 * i;
    }
    assert lo * n == lo * j + lo * i && hi * n == hi * j + hi * i;
    MulMono(lo, x0, j); MulMono(lo, x1, i);
    MulMono(x0, hi, j); MulMono(x1, hi, i);
  }

  lemma NearBetween(x: int, num: int, n: int, lo: int, hi: int)
    requires n > 0 && Near(x, num, n) && lo * n <= num <= hi * n
    ensures lo <= x <= hi
  {
    assert (hi + 1) * n == hi * n + n && (lo - 1) * n == lo * n - n;
    MulCompare(x, hi + 1, n);
    MulCompare(lo - 1, x, n);
  }

  lemma CoordinateBetween(x0: int, x1: int, i: int, n: int, x: int, centre: int, radius: int)
    requires n > 0 && 0 <= i <= n && Near(x, Lerp(x0, x1, i, n), n)
    requires Abs(centre - x0) <= radius && Abs(centre - x1) <= radius
    ensures Abs(centre - x) <= radius
  {
    LerpBetween(x0, x1, i, n, centre - radius, centre + radius);
    NearBetween(x, Lerp(x0, x1, i, n), n, centre - radius, centre + radius);
  }

  /** Every ball is closed under line_to: a line between two of its cells never leaves it. */
  lemma BallsAreConvex(centre: Position, radius: int, a: Position, b: Position)
    requires centre.DistanceTo(a) <= radius && centre.DistanceTo(b) <= radius
    ensures forall p :: p in Line(a, b) ==> centre.DistanceTo(p) <= radius
  {
    if a != b {
      var n := a.DistanceTo(b);
      forall i | 0 <= i <= n
        ensures centre.DistanceTo(LineCell(a, b, i)) <= radius
      {
        var p := LineCell(a, b, i);
        LineCellNear(a, b, i);
        CoordinateBetween(a.q, b.q, i, n, p.q, centre.q, radius);
        CoordinateBetween(a.r, b.r, i, n, p.r, centre.r, radius);
        CoordinateBetween(a.S(), b.S(), i, n, p.S(), centre.S(), radius);
      }
    }
  }

  /** The loop of line_to, one rounded point per step. */
  method LineTo(a: Position, b: Position) returns (results: seq<Position>)
    ensures results == Line(a, b)
    ensures WalkBetween(results, a, b) && |results| == a.DistanceTo(b) + 1
    ensures a != b ==> forall i :: 0 <= i < |results| ==> Rounds(a, b, i, results[i])
  {
    LineIsShortestWalk(a, b);
    LineRounds(a, b);
    var dist := a.DistanceTo(b);
    if dist == 0 {
      return [a];
    }
    results := [];
    for i := 0 to dist + 1
      invariant results == seq(i, k => LineCell(a, b, k))
    {
      var qn, rn, sn := Lerp(a.q, b.q, i, dist), Lerp(a.r, b.r, i, dist), Lerp(a.S(), b.S(), i, dist);
      var q, r, s := RoundHalfEven(qn, dist), RoundHalfEven(rn, dist), RoundHalfEven(sn, dist);
      var dq, dr, ds := Error(q, qn, dist), Error(r, rn, dist), Error(s, sn, dist);
      if dq > dr && dq > ds {
        q := -r - s;
      } else if dr > ds {
        r := -q - s;
      }
      results := results + [Position(q, r)];
    }
  }
}
