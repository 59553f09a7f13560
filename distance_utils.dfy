/** The radii of the concentric distance circles drawn around a city on the map. */
module DistanceUtils {

  /** For a positive `c`, `x * c <= m` exactly when `x <= m / c`. */
  lemma ScaledBelow(x: real, c: real, m: real)
    requires c > 0.0
    ensures x * c <= m <==> x <= m / c
  {
    var q := m / c;
    assert q * c == m;
    assert (q - x) * c == m - x * c;
    if x * c <= m {
      NonNegativeProduct(q - x, c);
    } else {
      NonNegativeProduct(x * c - m, 1.0 / c);
      assert (x * c - m) * (1.0 / c) == x - q;
    }
  }

  lemma NonNegativeProduct(x: real, c: real)
    requires c > 0.0
    ensures x * c >= 0.0 <==> x >= 0.0
  {
  }

  /** When `k * c <= m < (k + 1) * c` for a positive `c`, then `k` is the floor of `m / c`. */
  lemma FloorOfQuotient(m: real, c: real, k: nat)
    requires c > 0.0 && k > 0
    requires k as real * c <= m < (k + 1) as real * c
    ensures m >= c && (m / c).Floor == k
  {
    ScaledBelow(k as real, c, m);
    ScaledBelow((k + 1) as real, c, m);
    assert c <= k as real * c;
  }

  /** How many positive multiples of `interval` are at most `maxDistance`. */
  function RadiiCount(maxDistance: real, interval: real): nat {
    if interval <= 0.0 || maxDistance < interval then 0 else (maxDistance / interval).Floor
  }

  /** The first `n` multiples `interval, 2 * interval, ...`. */
  function Multiples(n: nat, interval: real): (r: seq<real>)
    ensures |r| == n
  {
    seq(n, i => (i + 1) as real * interval)
  }

  /** The radii `interval, 2 * interval, ...` up to `maxDistance`. */
  function Radii(maxDistance: real, interval: real): seq<real> {
    Multiples(RadiiCount(maxDistance, interval), interval)
  }

  /** One more multiple is the next one appended. */
  lemma MultiplesSnoc(n: nat, interval: real)
    ensures Multiples(n + 1, interval) == Multiples(n, interval) + [(n + 1) as real * interval]
  {
    var a, b := Multiples(n + 1, interval), Multiples(n, interval) + [(n + 1) as real * interval];
    assert forall i :: 0 <= i < n + 1 ==> a[i] == b[i];
  }

  /** The radii of a positive interval stay at or below the maximum. */
  lemma RadiusBelow(maxDistance: real, interval: real, i: nat)
    requires interval > 0.0 && i < RadiiCount(maxDistance, interval)
    ensures (i + 1) as real * interval <= maxDistance
  {
    assert (i + 1) as real <= (maxDistance / interval).Floor as real <= maxDistance / interval;
    ScaledBelow((i + 1) as real, interval, maxDistance);
  }

  /** For a positive interval, a later multiple is larger. */
  lemma MultiplesIncrease(interval: real, i: nat, j: nat)
    requires interval > 0.0 && i < j
    ensures (i + 1) as real * interval < (j + 1) as real * interval
  {
    assert (j + 1) as real * interval - (i + 1) as real * interval == (j - i) as real * interval;
  }

  /** The multiple after the last radius lies beyond the maximum. */
  lemma NextRadiusAbove(maxDistance: real, interval: real)
    requires interval > 0.0
    ensures (RadiiCount(maxDistance, interval) + 1) as real * interval > maxDistance
  {
    var n := RadiiCount(maxDistance, interval);
    if maxDistance >= interval {
      assert (n + 1) as real > maxDistance / interval;
      ScaledBelow((n + 1) as real, interval, maxDistance);
    }
  }

  /**
   * The radii are the multiples of the interval, strictly increasing and none beyond the
   * maximum distance, while the next multiple would be; for a positive interval there are
   * ⌊maxDistance / interval⌋ of them, and none when the maximum is below the interval.
   */
  lemma RadiiMeaning(maxDistance: real, interval: real)
    requires interval > 0.0
    ensures forall i :: 0 <= i < |Radii(maxDistance, interval)| ==>
      (Radii(maxDistance, interval)[i] == (i + 1) as real * interval && Radii(maxDistance, interval)[i] <= maxDistance)
    ensures forall i, j :: 0 <= i < j < |Radii(maxDistance, interval)| ==> Radii(maxDistance, interval)[i] < Radii(maxDistance, interval)[j]
    ensures (|Radii(maxDistance, interval)| + 1) as real * interval > maxDistance
    ensures |Radii(maxDistance, interval)| == if maxDistance < interval then 0 else (maxDistance / interval).Floor
  {
    RadiiBelow(maxDistance, interval);
    RadiiIncrease(maxDistance, interval);
    NextRadiusAbove(maxDistance, interval);
  }

  lemma RadiiBelow(maxDistance: real, interval: real)
    requires interval > 0.0
    ensures forall i :: 0 <= i < |Radii(maxDistance, interval)| ==> Radii(maxDistance, interval)[i] <= maxDistance
  {
    var r := Radii(maxDistance, interval);
    forall i | 0 <= i < |r|
      ensures r[i] <= maxDistance
    {
      RadiusBelow(maxDistance, interval, i);
    }
  }

  lemma RadiiIncrease(maxDistance: real, interval: real)
    requires interval > 0.0
    ensures forall i, j :: 0 <= i < j < |Radii(maxDistance, interval)| ==> Radii(maxDistance, interval)[i] < Radii(maxDistance, interval)[j]
  {
    var r := Radii(maxDistance, interval);
    forall i, j | 0 <= i < j < |r|
      ensures r[i] < r[j]
    {
      MultiplesIncrease(interval, i, j);
    }
  }

  /** The default arguments (3000 km, every 500 km) give six circles. */
  lemma DefaultRadii()
    ensures Radii(3000.0, 500.0) == [500.0, 1000.0, 1500.0, 2000.0, 2500.0, 3000.0]
  {
    assert RadiiCount(3000.0, 500.0) == 6;
  }

  /**
   * A step of the radii loop: a radius at most the maximum still counts towards the
   * floor of the quotient, and the next radius is the next multiple.
   */
  lemma RadiusStep(maxDistance: real, interval: real, k: nat)
    requires interval > 0.0 && (k + 1) as real * interval <= maxDistance
    ensures k + 1 <= (maxDistance / interval).Floor
    ensures (k + 1) as real * interval + interval == (k + 2) as real * interval
  {
    ScaledBelow((k + 1) as real, interval, maxDistance);
  }

  /** When the radius after `k` radii exceeds the maximum, `k` is the number of radii. */
  lemma LoopExit(maxDistance: real, interval: real, k: nat)
    requires interval <= 0.0 ==> k == 0 && maxDistance < interval
    requires k > 0 ==> k as real * interval <= maxDistance
    requires (k + 1) as real * interval > maxDistance
    ensures k == RadiiCount(maxDistance, interval)
  {
    if interval > 0.0 && k > 0 {
      FloorOfQuotient(maxDistance, interval, k);
    }
  }

  /**
   * The loop as written, with `interval <= 0` and `maxDistance >= interval`: the guard
   * `radius <= maxDistance` holds for the radius `(k + 1) * interval` of every turn k, so the
   * loop never ends and the array grows without bound.
   */
  lemma RadiiLoopNeverExits(maxDistance: real, interval: real, k: nat)
    requires interval <= 0.0 && maxDistance >= interval
    ensures (k + 1) as real * interval <= maxDistance
  {
  }

  /**
   * `generateCircleRadii`: `radius` starts at `interval` and steps by it while it is at
   * most `maxDistance`. For a non-positive interval the loop only ends when it never
   * starts, so the caller must give a positive interval or a maximum below the interval.
   */
  method GenerateCircleRadii(maxDistance: real, interval: real) returns (radii: seq<real>)
    requires interval > 0.0 || maxDistance < interval
    ensures radii == Radii(maxDistance, interval)
  {
    radii := [];
    var radius := interval;
    while radius <= maxDistance
      invariant interval <= 0.0 ==> radii == []
      invariant radii == Multiples(|radii|, interval)
      invariant radius == (|radii| + 1) as real * interval
      invariant |radii| > 0 ==> |radii| as real * interval <= maxDistance
      decreases if interval > 0.0 then (maxDistance / interval).Floor - |radii| else 0
    {
      var k := |radii|;
      RadiusStep(maxDistance, interval, k);
      MultiplesSnoc(k, interval);
      assert radii == Multiples(k, interval);
      assert radius == (k + 1) as real * interval;
      radii := radii + [radius];
      assert radii == Multiples(k + 1, interval);
      radius := radius + interval;
      assert |radii| == k + 1;
    }
    LoopExit(maxDistance, interval, |radii|);
  }
}
