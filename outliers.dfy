/** invalidate_outliers of code/s3_coordinate_processing.py: a light is
    dropped when it is present but unreliable, or when it lies too far
    from both its reliable neighbours. The distance limit is the 70th
    percentile of the gaps between neighbours, scaled by how many ids
    apart the neighbour is; the percentile is a parameter here. */
module Outliers {
  import opened Coords
  import opened Reconstruction

  /** distance > limit, decided on the squared distance: the square root
      is never negative, and for a non-negative limit it exceeds the limit
      exactly when the square exceeds the limit's square. */
  predicate FartherThan(d2: int, limit: real)
  {
    limit < 0.0 || d2 as real > limit * limit
  }

  /** The squared test agrees with the test on the distance itself. */
  lemma FartherThanDistance(d2: int, limit: real, distance: real)
    requires distance >= 0.0 && distance * distance == d2 as real
    ensures FartherThan(d2, limit) <==> distance > limit
  {
    if limit >= 0.0 {
      var gap, sum := distance - limit, distance + limit;
      assert distance * distance - limit * limit == gap * sum;
      assert sum >= 0.0;
      if distance > limit {
        assert gap > 0.0 && sum > 0.0;
        assert gap * sum > 0.0;
      } else {
        assert gap <= 0.0;
        assert gap * sum <= 0.0;
      }
    }
  }

  /** The neighbour the filter compares with: the reliable neighbour, or
      the light itself when there is none on that side. */
  function PrevOrSelf(coords: map<int, Coord3d>, id: int): (p: int)
    ensures p <= id
    ensures p == id || Reliable(coords, p)
  {
    var p := PrevNeighbor(coords, id);
    if p < 0 then id else p
  }

  function NextOrSelf(coords: map<int, Coord3d>, id: int): (n: int)
    ensures n >= id
    ensures n == id || Reliable(coords, n)
  {
    var n := NextNeighbor(coords, id);
    if n >= LedCount then id else n
  }

  /** The decision the filter takes for one id of 0..499. */
  predicate Outlier(coords: map<int, Coord3d>, id: int, percentile: real)
  {
    if !Reliable(coords, id) then id in coords
    else
      var p := PrevOrSelf(coords, id);
      var n := NextOrSelf(coords, id);
      TooFar(coords[id], coords[p], id - p, percentile) && TooFar(coords[id], coords[n], n - id, percentile)
  }

  /** curr.distance(other) > gap * percentile */
  predicate TooFar(curr: Coord3d, other: Coord3d, gap: int, percentile: real)
  {
    FartherThan(Distance2(curr, other), gap as real * percentile)
  }

  /** A present light that is not reliable is always dropped. */
  lemma UnreliableDropped(coords: map<int, Coord3d>, id: int, percentile: real)
    requires id in coords && !Reliable(coords, id)
    ensures Outlier(coords, id, percentile)
  {
  }

  /** A reliable light without a reliable neighbour on one side compares
      with itself on that side, at distance 0, and is kept. */
  lemma {:induction false} LoneSideKept(coords: map<int, Coord3d>, id: int, percentile: real)
    requires Reliable(coords, id)
    requires PrevNeighbor(coords, id) < 0 || NextNeighbor(coords, id) >= LedCount
    ensures !Outlier(coords, id, percentile)
  {
    assert Distance2(coords[id], coords[id]) == 0;
  }

  /** A reliable light with reliable neighbours on both sides is dropped
      exactly when it is farther than the scaled percentile from both. */
  lemma {:induction false} BothSidesDecide(coords: map<int, Coord3d>, id: int, percentile: real)
    requires Reliable(coords, id)
    requires 0 <= PrevNeighbor(coords, id) && NextNeighbor(coords, id) < LedCount
    ensures var p := PrevNeighbor(coords, id);
            var n := NextNeighbor(coords, id);
            Outlier(coords, id, percentile) <==>
              TooFar(coords[id], coords[p], id - p, percentile) && TooFar(coords[id], coords[n], n - id, percentile)
  {
  }

  /** The ids of 0..n-1 marked for deletion, in increasing order. */
  function Marked(coords: map<int, Coord3d>, percentile: real, n: nat): seq<int>
  {
    if n == 0 then []
    else if Outlier(coords, n - 1, percentile) then Marked(coords, percentile, n - 1) + [n - 1]
    else Marked(coords, percentile, n - 1)
  }

  lemma {:induction false} MarkedSpec(coords: map<int, Coord3d>, percentile: real, n: nat)
    ensures forall k :: k in Marked(coords, percentile, n) <==> 0 <= k < n && Outlier(coords, k, percentile)
    ensures Distinct(Marked(coords, percentile, n))
  {
    if n > 0 {
      MarkedSpec(coords, percentile, n - 1);
    }
  }

  /** The second loop of invalidate_outliers: every decision is taken on
      the map as it stands before anything is deleted. */
  method MarkOutliers(coords: map<int, Coord3d>, percentile: real) returns (marked: seq<int>)
    ensures forall k :: k in marked <==> 0 <= k < LedCount && Outlier(coords, k, percentile)
    ensures Distinct(marked)
  {
    marked := [];
    for i := 0 to LedCount
      invariant marked == Marked(coords, percentile, i)
    {
      if !Reliable(coords, i) {
        if i in coords {
          marked := marked + [i];
        }
        continue;
      }
      var curr := coords[i];
      var pi := GetPrevNeighborId(coords, i);
      var ni := GetNextNeighborId(coords, i);
      PrevNeighborUnique(coords, i, pi);
      NextNeighborUnique(coords, i, ni);
      if pi < 0 {
        pi := i;
      }
      if ni >= LedCount {
        ni := i;
      }
      var prev := coords[pi];
      var next := coords[ni];
      var prevTooFar := TooFar(curr, prev, i - pi, percentile);
      var nextTooFar := TooFar(curr, next, ni - i, percentile);
      if prevTooFar && nextTooFar {
        marked := marked + [i];
      }
    }
    MarkedSpec(coords, percentile, LedCount);
  }

  /** invalidate_outliers on the shared coordinate map: decide for every
      id of 0..499, then delete the marked ones. */
  method InvalidateOutliers(coordinates: CoordinateMap, percentile: real)
    requires coordinates.Valid()
    modifies coordinates
    ensures coordinates.Valid()
    ensures coordinates.coords.Keys <= old(coordinates.coords).Keys
    ensures forall k | k in old(coordinates.coords) ::
      k in coordinates.coords <==> !(0 <= k < LedCount && Outlier(old(coordinates.coords), k, percentile))
    ensures forall k | k in coordinates.coords :: coordinates.coords[k] == old(coordinates.coords)[k]
  {
    var marked := MarkOutliers(coordinates.coords, percentile);
    var remaining, remainingOrder := DeleteKeys(coordinates.coords, coordinates.order, marked);
    coordinates.coords, coordinates.order := remaining, remainingOrder;
  }

  /** What survives the filter: every id of 0..499 left in the map is
      reliable, and every reliable light that is not an outlier stays. */
  lemma {:induction false} SurvivorsReliable(before: map<int, Coord3d>, after: map<int, Coord3d>, percentile: real)
    requires after.Keys <= before.Keys
    requires forall k | k in before :: k in after <==> !(0 <= k < LedCount && Outlier(before, k, percentile))
    requires forall k | k in after :: after[k] == before[k]
    ensures forall k | 0 <= k < LedCount && k in after :: Reliable(after, k)
    ensures forall k | 0 <= k < LedCount && Reliable(before, k) && !Outlier(before, k, percentile) :: k in after
  {
    forall k | 0 <= k < LedCount && k in after
      ensures Reliable(after, k)
    {
      if !Reliable(before, k) {
        UnreliableDropped(before, k, percentile);
        assert false;
      }
    }
  }
}
