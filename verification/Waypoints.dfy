/** Thinning a hex-by-hex route to jump-range waypoints (TravelEngine._simplify_path, caravaneer/travel.py). */
module Waypoints {
  import opened Arith
  import opened Hex

  /** How many waypoints a route of `length` cells keeps at stride `stride`: 1 + ceil((length-1)/stride). */
  function WaypointCount(length: nat, stride: nat): nat
    requires length > 0 && stride > 0
  {
    1 + (length - 1 + stride - 1) / stride
  }

  /** Every stride-th cell, and the last one. */
  function EveryStride(path: seq<Position>, stride: nat): seq<Position>
    requires path != [] && stride > 0
    ensures |EveryStride(path, stride)| == WaypointCount(|path|, stride)
  {
    seq(WaypointCount(|path|, stride), m requires m >= 0 => path[Min(StrideIndex(m, stride), |path| - 1)])
  }

  function StrideIndex(m: nat, stride: nat): nat {
    m * stride
  }

  /** hops picks the waypoints out of the path: both ends, in order, each hop either to the
      very next cell or no longer than the jump range. */
  ghost predicate Hops(path: seq<Position>, jumpRange: int, waypoints: seq<Position>, hops: seq<nat>) {
    && |hops| == |waypoints| > 0 && hops[0] == 0
    && (forall m :: 0 <= m < |hops| ==> hops[m] < |path| && waypoints[m] == path[hops[m]])
    && (forall m :: 0 < m < |hops| ==>
          && hops[m - 1] < hops[m]
          && (hops[m] == hops[m - 1] + 1 || waypoints[m - 1].DistanceTo(waypoints[m]) <= jumpRange))
  }

  /** The furthest index reachable in one jump, scanning the next jumpRange cells. */
  method Furthest(path: seq<Position>, i: nat, jumpRange: int) returns (furthest: nat)
    requires i < |path| - 1
    ensures i < furthest < |path|
    ensures furthest == i + 1 || path[i].DistanceTo(path[furthest]) <= jumpRange
    ensures forall j :: furthest < j < Min(i + jumpRange + 1, |path|) ==> path[i].DistanceTo(path[j]) > jumpRange
    ensures Walk(path) && jumpRange >= 1 ==> furthest == Min(i + jumpRange, |path| - 1)
  {
    furthest := i + 1;
    var j := i + 1;
    while j < Min(i + jumpRange + 1, |path|)
      invariant i + 1 <= j && (j == i + 1 || j <= Min(i + jumpRange + 1, |path|))
      invariant i < furthest < |path| && (furthest < j || furthest == i + 1)
      invariant furthest == i + 1 || path[i].DistanceTo(path[furthest]) <= jumpRange
      invariant forall k :: furthest < k < j && k < |path| ==> path[i].DistanceTo(path[k]) > jumpRange
    {
      if path[i].DistanceTo(path[j]) <= jumpRange {
        furthest := j;
      }
      j := j + 1;
    }
    if Walk(path) && jumpRange >= 1 {
      WalkBoundsDistance(path, i, Min(i + jumpRange, |path| - 1));
    }
  }

  /** Keeps both ends and the order; on a walk it keeps exactly every jumpRange-th cell and the
      last, so 1 + ceil((len-1)/jumpRange) of them, each within one jump of the one before. */
  method SimplifyPath(path: seq<Position>, jumpRange: int) returns (waypoints: seq<Position>, ghost hops: seq<nat>)
    ensures |path| <= 2 ==> waypoints == path
    ensures path != [] ==> Hops(path, jumpRange, waypoints, hops) && hops[|hops| - 1] == |path| - 1
    ensures Walk(path) && jumpRange >= 1 ==> waypoints == EveryStride(path, jumpRange)
  {
    if |path| <= 2 {
      waypoints, hops := path, seq(|path|, i requires i >= 0 => i);
      if path != [] && jumpRange >= 1 {
        ShortPathStrides(path, jumpRange);
      }
      return;
    }
    waypoints, hops := [path[0]], [0];
    var i := 0;
    while i < |path| - 1
      invariant 0 <= i < |path|
      invariant Hops(path, jumpRange, waypoints, hops) && hops[|hops| - 1] == i
      invariant Walk(path) && jumpRange >= 1 ==> StrideInvariant(path, jumpRange, waypoints, i)
    {
      var furthest := Furthest(path, i, jumpRange);
      if Walk(path) && jumpRange >= 1 {
        StrideStep(path, jumpRange, waypoints, i, furthest);
      }
      HopsOneMore(path, jumpRange, waypoints, hops, furthest);
      waypoints, hops := waypoints + [path[furthest]], hops + [furthest];
      i := furthest;
    }
    if Walk(path) && jumpRange >= 1 {
      StrideDone(path, jumpRange, waypoints);
    }
  }

  lemma HopsOneMore(path: seq<Position>, jumpRange: int, waypoints: seq<Position>, hops: seq<nat>, next: nat)
    requires Hops(path, jumpRange, waypoints, hops) && hops[|hops| - 1] < next < |path|
    requires var i := hops[|hops| - 1]; next == i + 1 || path[i].DistanceTo(path[next]) <= jumpRange
    ensures Hops(path, jumpRange, waypoints + [path[next]], hops + [next])
  {
  }

  ghost predicate StrideInvariant(path: seq<Position>, stride: nat, waypoints: seq<Position>, i: nat)
    requires i < |path|
  {
    && |waypoints| > 0
    && i == Min(StrideIndex(|waypoints| - 1, stride), |path| - 1)
    && (|waypoints| > 1 ==> StrideIndex(|waypoints| - 2, stride) < |path| - 1)
    && forall k :: 0 <= k < |waypoints| ==> waypoints[k] == path[Min(StrideIndex(k, stride), |path| - 1)]
  }

  lemma StrideStep(path: seq<Position>, stride: nat, waypoints: seq<Position>, i: nat, furthest: nat)
    requires i < |path| - 1 && StrideInvariant(path, stride, waypoints, i)
    requires furthest == Min(i + stride, |path| - 1)
    ensures StrideInvariant(path, stride, waypoints + [path[furthest]], furthest)
  {
    assert StrideIndex(|waypoints|, stride) == StrideIndex(|waypoints| - 1, stride) + stride;
  }

  lemma StrideDone(path: seq<Position>, stride: nat, waypoints: seq<Position>)
    requires stride > 0 && |path| > 1 && StrideInvariant(path, stride, waypoints, |path| - 1)
    ensures waypoints == EveryStride(path, stride)
  {
    CountIs(|path| - 1, stride, |waypoints| - 1);
  }

  /** The only n with (n-1)*stride < len <= n*stride is ceil(len/stride). */
  lemma CountIs(len: nat, stride: nat, n: nat)
    requires stride > 0 && len > 0 && len <= n * stride && (n > 0 ==> (n - 1) * stride < len)
    ensures (len + stride - 1) / stride == n
  {
    var total := len + stride - 1;
    assert n > 0;
    assert (n - 1) * stride == n * stride - stride;
    assert total - n * stride == len - 1 - (n - 1) * stride;
    DivIs(total, stride, n);
  }

  lemma ShortPathStrides(path: seq<Position>, stride: nat)
    requires 0 < |path| <= 2 && stride > 0
    ensures EveryStride(path, stride) == path
  {
    if |path| == 2 {
      CountIs(1, stride, 1);
    } else {
      DivIs(stride - 1, stride, 0);
    }
  }
}
