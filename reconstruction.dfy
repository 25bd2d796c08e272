/** Shared vocabulary of the reconstruction pipeline in
    code/s3_coordinate_processing.py: the camera constants, the shot record,
    the two dictionaries the stages mutate (the coordinate map and the
    missing set), the truncating average, and the search for the nearest
    reliable neighbour of a light. */
module Reconstruction {
  import opened Coords

  const ImageWidth := 1080
  /** The horizontal centre of a photograph, used by middle_z. */
  const ImageCentreX := 540
  /** Lights are numbered 0 .. LedCount - 1; every id scan stops there. */
  const LedCount := 500

  /** One detection of one light at one camera angle. The confidence `v` is
      read only by the parser's filter, so it is not carried further. */
  datatype Snap = Snap(ledId: int, angle: int, x: int, y: int)

  /** Every position of a sequence holds one of its elements. */
  lemma ListedAt(order: seq<int>, keys: set<int>)
    requires forall k | k in order :: k in keys
    ensures forall i | 0 <= i < |order| :: order[i] in keys
  {
    forall i | 0 <= i < |order|
      ensures order[i] in keys
    {
      var k := order[i];
      assert k in order;
      assert k in keys;
    }
  }

  /** The keys of a dictionary listed once each, as a Python dictionary
      iterates them (in insertion order). */
  predicate Enumerates(order: seq<int>, keys: set<int>)
  {
    && Distinct(order)
    && (forall k | k in order :: k in keys)
    && (forall k | k in keys :: k in order)
  }

  predicate Distinct(s: seq<int>)
  {
    forall i, j | 0 <= i < j < |s| :: s[i] != s[j]
  }

  /** The key order after writing the keys `ids` one by one: a key already
      present keeps its place, a new one goes to the end. */
  function AppendNew(order: seq<int>, ids: seq<int>): seq<int>
  {
    if ids == [] then order
    else
      var o := AppendNew(order, ids[..|ids| - 1]);
      var k := ids[|ids| - 1];
      if k in o then o else o + [k]
  }

  lemma {:induction false} AppendNewEnumerates(order: seq<int>, keys: set<int>, ids: seq<int>)
    requires Enumerates(order, keys)
    ensures Distinct(AppendNew(order, ids))
    ensures forall k :: k in AppendNew(order, ids) <==> k in keys || k in ids
  {
    if ids != [] {
      var front := ids[..|ids| - 1];
      AppendNewEnumerates(order, keys, front);
      assert ids == front + [ids[|ids| - 1]];
    }
  }

  /** The first n ids of `ids` that belong to `chosen`, in order: the key
      order of fixed_45, and of any list the loops append to. */
  function Selected(ids: seq<int>, n: nat, chosen: set<int>): seq<int>
    requires n <= |ids|
  {
    if n == 0 then []
    else
      var k := ids[n - 1];
      var order := Selected(ids, n - 1, chosen);
      if k in chosen then order + [k] else order
  }

  lemma {:induction false} SelectedSpec(ids: seq<int>, n: nat, chosen: set<int>)
    requires n <= |ids|
    ensures forall k :: k in Selected(ids, n, chosen) <==> k in ids[..n] && k in chosen
    ensures Distinct(ids) ==> Distinct(Selected(ids, n, chosen))
  {
    if n > 0 {
      SelectedSpec(ids, n - 1, chosen);
      assert ids[..n] == ids[..n - 1] + [ids[n - 1]];
      assert Distinct(ids) ==> ids[n - 1] !in ids[..n - 1];
    }
  }

  /** Deleting from an order with one more key at its end. */
  lemma {:induction false} WithoutSnoc(s: seq<int>, x: int, k: int)
    ensures Without(s + [x], k) == Without(s, k) + (if x == k then [] else [x])
  {
    if s != [] {
      assert (s + [x])[1..] == s[1..] + [x];
      WithoutSnoc(s[1..], x, k);
    }
  }

  /** The order keeps its place through one deletion: taking a key out of
      the selection is selecting without it. */
  lemma {:induction false} WithoutSelected(ids: seq<int>, n: nat, chosen: set<int>, k: int)
    requires n <= |ids|
    ensures Without(Selected(ids, n, chosen), k) == Selected(ids, n, chosen - {k})
  {
    if n > 0 {
      WithoutSelected(ids, n - 1, chosen, k);
      WithoutSnoc(Selected(ids, n - 1, chosen), ids[n - 1], k);
    }
  }

  /** Selecting every listed id keeps the whole order. */
  lemma {:induction false} SelectedEvery(ids: seq<int>, n: nat, chosen: set<int>)
    requires n <= |ids| && forall k | k in ids :: k in chosen
    ensures Selected(ids, n, chosen) == ids[..n]
  {
    if n > 0 {
      SelectedEvery(ids, n - 1, chosen);
      assert ids[n - 1] in ids;
      assert ids[..n] == ids[..n - 1] + [ids[n - 1]];
    }
  }

  /** Selection only looks at the first n ids. */
  lemma {:induction false} SelectedPrefix(a: seq<int>, b: seq<int>, n: nat, chosen: set<int>)
    requires n <= |a| && n <= |b| && a[..n] == b[..n]
    ensures Selected(a, n, chosen) == Selected(b, n, chosen)
  {
    if n > 0 {
      assert a[n - 1] == a[..n][n - 1] == b[..n][n - 1] == b[n - 1];
      assert a[..n - 1] == a[..n][..n - 1] == b[..n][..n - 1] == b[..n - 1];
      SelectedPrefix(a, b, n - 1, chosen);
    }
  }

  /** Selecting from a selection selects by both sets. */
  lemma {:induction false} SelectedTwice(ids: seq<int>, n: nat, a: set<int>, b: set<int>)
    requires n <= |ids|
    ensures var s := Selected(ids, n, a); Selected(s, |s|, b) == Selected(ids, n, a * b)
  {
    if n > 0 {
      SelectedTwice(ids, n - 1, a, b);
      var front := Selected(ids, n - 1, a);
      var k := ids[n - 1];
      if k in a {
        SelectedPrefix(front + [k], front, |front|, b);
      }
    }
  }

  /** The order with one key taken out: `del d[k]` on an ordered dictionary. */
  function Without(order: seq<int>, k: int): (r: seq<int>)
    ensures forall j :: j in r <==> j in order && j != k
    ensures Distinct(order) ==> Distinct(r)
  {
    if order == [] then []
    else
      var rest := Without(order[1..], k);
      assert Distinct(order) ==> Distinct(order[1..]) && order[0] !in order[1..];
      if order[0] == k then rest else [order[0]] + rest
  }

  /** `for k in keys: del d[k]` on an ordered dictionary, skipping the
      keys it no longer holds. */
  method DeleteKeys<V>(d: map<int, V>, order: seq<int>, keys: seq<int>) returns (remaining: map<int, V>, remainingOrder: seq<int>)
    requires Enumerates(order, d.Keys)
    ensures remaining.Keys <= d.Keys && Enumerates(remainingOrder, remaining.Keys)
    ensures forall k | k in d :: k in remaining <==> k !in keys
    ensures forall k | k in remaining :: remaining[k] == d[k]
    ensures remainingOrder == Selected(order, |order|, remaining.Keys)
  {
    remaining, remainingOrder := d, order;
    SelectedEvery(order, |order|, d.Keys);
    assert order[..|order|] == order;
    for i := 0 to |keys|
      invariant remaining.Keys <= d.Keys && Enumerates(remainingOrder, remaining.Keys)
      invariant remainingOrder == Selected(order, |order|, remaining.Keys)
      invariant forall k | k in d :: k in remaining <==> k !in keys[..i]
      invariant forall k | k in remaining :: remaining[k] == d[k]
    {
      var k := keys[i];
      assert keys[..i + 1] == keys[..i] + [k];
      if k in remaining {
        var kept := remaining.Keys - {k};
        WithoutSelected(order, |order|, remaining.Keys, k);
        remaining := map j | j in remaining && j != k :: remaining[j];
        assert remaining.Keys == kept;
        remainingOrder := Without(remainingOrder, k);
      }
    }
    assert keys[..|keys|] == keys;
  }

  /** The `coordinates` dictionary, shared by reference between the stages:
      the readings by light id and the order the ids were first written. */
  class CoordinateMap {
    var coords: map<int, Coord3d>
    var order: seq<int>

    ghost predicate Valid()
      reads this
    {
      Enumerates(order, coords.Keys)
    }

    constructor ()
      ensures coords == map[] && order == [] && Valid()
    {
      coords := map[];
      order := [];
    }
  }

  /** The `missing` dictionary: unresolved light id to its usable shots. */
  class MissingSet {
    var shots: map<int, seq<Snap>>
    var order: seq<int>

    ghost predicate Valid()
      reads this
    {
      Enumerates(order, shots.Keys)
    }

    constructor ()
      ensures shots == map[] && order == [] && Valid()
    {
      shots := map[];
      order := [];
    }
  }

  /** Python's a // b: the quotient rounded towards minus infinity. */
  function FloorDiv(a: int, b: int): (q: int)
    requires b != 0
    ensures b > 0 ==> b * q <= a < b * q + b
    ensures b < 0 ==> b * q >= a > b * q + b
  {
    if b > 0 then a / b else (-a) / (-b)
  }

  /** avg(a, b, offset) = int(a + (b - a) // offset): a step of 1/offset of
      the way from a towards b, rounded down. */
  function Avg(a: int, b: int, offset: int): (r: int)
    requires offset != 0
    ensures a == b ==> r == a
    ensures offset >= 1 && a <= b ==> a <= r <= b
    ensures offset >= 1 && b <= a ==> b <= r <= a
  {
    var q := FloorDiv(b - a, offset);
    assert offset >= 1 ==> (b - a >= 0 ==> 0 <= q <= b - a) && (b - a <= 0 ==> b - a <= q <= 0) by {
      if offset >= 1 { DivTowardsZero(b - a, offset); }
    }
    a + q
  }

  lemma {:induction false} MulAtLeast(k: int, q: int)
    requires k >= 1
    ensures q >= 0 ==> k * q >= q
    ensures q <= 0 ==> k * q <= q
    decreases k
  {
    if k > 1 {
      MulAtLeast(k - 1, q);
      assert k * q == (k - 1) * q + q;
    }
  }

  /** Dividing by a positive integer moves a value towards zero. */
  lemma DivTowardsZero(d: int, k: int)
    requires k >= 1
    ensures d >= 0 ==> 0 <= d / k <= d
    ensures d <= 0 ==> d <= d / k <= 0
  {
    var q := d / k;
    assert d == k * q + d % k && 0 <= d % k < k;
    MulAtLeast(k, q);
    MulAtLeast(k, q + 1);
    assert k * (q + 1) == k * q + k;
  }

  /** normalize_to_center: moves the origin from the photograph's corner to
      the pivot of the diagonal rotation (x - 535, y - 545). */
  function NormalizeToCenter(v: (real, real, real)): (r: (real, real, real))
    ensures r.2 == v.2
  {
    (v.0 - (ImageWidth / 2) as real + 5.0, v.1 - (ImageWidth / 2) as real - 5.0, v.2)
  }

  /** denormalize_from_center: moves the origin back to the corner. */
  function DenormalizeFromCenter(v: (real, real, real)): (r: (real, real, real))
    ensures r.2 == v.2
  {
    (v.0 + (ImageWidth / 2) as real - 5.0, v.1 + (ImageWidth / 2) as real + 5.0, v.2)
  }

  lemma CenterRoundTrip(v: (real, real, real))
    ensures DenormalizeFromCenter(NormalizeToCenter(v)) == v
    ensures NormalizeToCenter(DenormalizeFromCenter(v)) == v
  {
  }

  /** reliable_coordinate: present, with all three axes positive. */
  predicate Reliable(coords: map<int, Coord3d>, id: int)
  {
    id in coords && coords[id].x > 0 && coords[id].y > 0 && coords[id].z > 0
  }

  /** What get_prev_neighbor_id returns for `id`: the greatest reliable id
      in [0, id), or -1 when there is none (id - 1 when id is negative). */
  predicate IsPrevNeighbor(coords: map<int, Coord3d>, id: int, r: int)
  {
    && r < id
    && (r >= 0 ==> Reliable(coords, r))
    && (r < 0 ==> r == if id >= 0 then -1 else id - 1)
    && forall k | r < k < id :: !Reliable(coords, k)
  }

  /** What get_next_neighbor_id returns for `id`: the smallest reliable id
      in (id, 499], or 500 when there is none (id + 1 when id >= 499). */
  predicate IsNextNeighbor(coords: map<int, Coord3d>, id: int, r: int)
  {
    && r > id
    && (r < LedCount ==> Reliable(coords, r))
    && (r >= LedCount ==> r == if id < LedCount then LedCount else id + 1)
    && forall k | id < k < r :: !Reliable(coords, k)
  }

  /** The downward scan from j: the first reliable id at or below j. */
  function PrevFrom(coords: map<int, Coord3d>, j: int): (r: int)
    ensures j >= 0 ==> -1 <= r <= j
    ensures j < 0 ==> r == j
    ensures r >= 0 ==> Reliable(coords, r)
    ensures forall k | r < k <= j :: !Reliable(coords, k)
    decreases if j < 0 then 0 else j + 1
  {
    if j < 0 then j else if Reliable(coords, j) then j else PrevFrom(coords, j - 1)
  }

  /** The upward scan from j: the first reliable id at or above j, up to 499. */
  function NextFrom(coords: map<int, Coord3d>, j: int): (r: int)
    ensures j < LedCount ==> j <= r <= LedCount
    ensures j >= LedCount ==> r == j
    ensures r < LedCount ==> Reliable(coords, r)
    ensures forall k | j <= k < r :: !Reliable(coords, k)
    decreases LedCount - j
  {
    if j >= LedCount then j else if Reliable(coords, j) then j else NextFrom(coords, j + 1)
  }

  function PrevNeighbor(coords: map<int, Coord3d>, id: int): (r: int)
    ensures IsPrevNeighbor(coords, id, r)
  {
    PrevFrom(coords, id - 1)
  }

  function NextNeighbor(coords: map<int, Coord3d>, id: int): (r: int)
    ensures IsNextNeighbor(coords, id, r)
  {
    NextFrom(coords, id + 1)
  }

  /** The two characterisations pin the neighbour down. */
  lemma PrevNeighborUnique(coords: map<int, Coord3d>, id: int, r: int)
    requires IsPrevNeighbor(coords, id, r)
    ensures r == PrevNeighbor(coords, id)
  {
  }

  lemma NextNeighborUnique(coords: map<int, Coord3d>, id: int, r: int)
    requires IsNextNeighbor(coords, id, r)
    ensures r == NextNeighbor(coords, id)
  {
  }

  /** get_prev_neighbor_id: scan downwards by an increasing offset. */
  method GetPrevNeighborId(coords: map<int, Coord3d>, ledId: int) returns (r: int)
    ensures IsPrevNeighbor(coords, ledId, r)
  {
    var prevOffset := 1;
    while ledId - prevOffset >= 0
      invariant prevOffset >= 1
      invariant ledId - prevOffset >= -1 || prevOffset == 1
      invariant forall k | ledId - prevOffset < k < ledId :: !Reliable(coords, k)
      decreases ledId - prevOffset + 1
    {
      if Reliable(coords, ledId - prevOffset) {
        break;
      }
      prevOffset := prevOffset + 1;
    }
    r := ledId - prevOffset;
  }

  /** get_next_neighbor_id: scan upwards by an increasing offset. */
  method GetNextNeighborId(coords: map<int, Coord3d>, ledId: int) returns (r: int)
    ensures IsNextNeighbor(coords, ledId, r)
  {
    var nextOffset := 1;
    while ledId + nextOffset <= LedCount - 1
      invariant nextOffset >= 1
      invariant ledId + nextOffset <= LedCount || nextOffset == 1
      invariant forall k | ledId < k < ledId + nextOffset :: !Reliable(coords, k)
      decreases LedCount - ledId - nextOffset
    {
      if Reliable(coords, ledId + nextOffset) {
        break;
      }
      nextOffset := nextOffset + 1;
    }
    r := ledId + nextOffset;
  }
}
