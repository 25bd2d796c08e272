/** fix_with_neighbors of code/s3_coordinate_processing.py: every light of
    0..499 that is still missing or unreliable is placed on the straight
    line between its nearest reliable neighbours, when it has one on each
    side. Lights are handled in increasing id order, and a light placed
    this way is reliable, so it serves as a neighbour for the lights after
    it. */
module Interpolation {
  import opened Wrappers
  import opened Coords
  import opened Reconstruction

  /** The interpolated coordinate for `id`, or None when a neighbour is
      missing on one side. */
  function FillValue(coords: map<int, Coord3d>, id: int): Option<Coord3d>
  {
    var p := PrevNeighbor(coords, id);
    var n := NextNeighbor(coords, id);
    if 0 <= p && n < LedCount then
      Some(Interpolate(id, coords[p], coords[n], n - p))
    else None
  }

  /** A light is filled exactly when it has a reliable neighbour on both
      sides, and then each axis lies between the neighbours' values, so the
      light is reliable itself. */
  lemma FillValueSpec(coords: map<int, Coord3d>, id: int)
    ensures FillValue(coords, id).Some? <==> 0 <= PrevNeighbor(coords, id) && NextNeighbor(coords, id) < LedCount
    ensures FillValue(coords, id).Some? ==>
      Between(FillValue(coords, id).value, coords[PrevNeighbor(coords, id)], coords[NextNeighbor(coords, id)])
    ensures FillValue(coords, id).Some? ==>
      var c := FillValue(coords, id).value;
      c.ledId == id && c.x > 0 && c.y > 0 && c.z > 0
  {
  }

  /** The coordinate `offset` steps along from a towards b, axis by axis. */
  function Interpolate(id: int, a: Coord3d, b: Coord3d, offset: int): (c: Coord3d)
    requires offset >= 1
    ensures c.ledId == id && Between(c, a, b)
  {
    Coord3d(id, Avg(a.x, b.x, offset), Avg(a.y, b.y, offset), Avg(a.z, b.z, offset))
  }

  predicate InRange(v: int, a: int, b: int)
  {
    (a <= v <= b) || (b <= v <= a)
  }

  /** Each axis lies between the two neighbours' values on that axis. */
  predicate Between(c: Coord3d, a: Coord3d, b: Coord3d)
  {
    InRange(c.x, a.x, b.x) && InRange(c.y, a.y, b.y) && InRange(c.z, a.z, b.z)
  }

  /** A light is left alone when it is not missing and already reliable. */
  predicate NeedsFill(coords: map<int, Coord3d>, missing: set<int>, id: int)
  {
    id in missing || !Reliable(coords, id)
  }

  datatype FillState = FillState(coords: map<int, Coord3d>, order: seq<int>, fixed: map<int, Coord3d>, fixedOrder: seq<int>)

  /** How a light is filled from the map as it stands; the loop uses
      FillValue. */
  type Filler = (map<int, Coord3d>, int) -> Option<Coord3d>

  /** A filler that only ever yields a reliable coordinate for the light it
      was asked about. */
  ghost predicate SoundFiller(fill: Filler)
  {
    forall coords, id | fill(coords, id).Some? ::
      fill(coords, id).value.ledId == id && fill(coords, id).value.x > 0 && fill(coords, id).value.y > 0 && fill(coords, id).value.z > 0
  }

  lemma FillValueSound()
    ensures SoundFiller(FillValue)
  {
    forall coords, id | FillValue(coords, id).Some?
      ensures FillValue(coords, id).value.ledId == id && FillValue(coords, id).value.x > 0
      ensures FillValue(coords, id).value.y > 0 && FillValue(coords, id).value.z > 0
    {
      FillValueSpec(coords, id);
    }
  }

  /** One turn of the loop, for the light `id`. */
  function Step(s: FillState, missing: set<int>, id: int, fill: Filler): FillState
  {
    if NeedsFill(s.coords, missing, id) && fill(s.coords, id).Some? then
      var c := fill(s.coords, id).value;
      var order := if id in s.order then s.order else s.order + [id];
      FillState(s.coords[id := c], order, s.fixed[id := c], s.fixedOrder + [id])
    else s
  }

  /** The state of fix_with_neighbors once the ids 0..n-1 are handled. */
  function Filled(start: map<int, Coord3d>, startOrder: seq<int>, missing: set<int>, n: nat, fill: Filler): FillState
  {
    if n == 0 then FillState(start, startOrder, map[], [])
    else Step(Filled(start, startOrder, missing, n - 1, fill), missing, n - 1, fill)
  }

  /** The body of the loop of fix_with_neighbors for the light `id`. */
  method FillOne(coords: map<int, Coord3d>, order: seq<int>, fixed: map<int, Coord3d>, fixedOrder: seq<int>,
                 missing: set<int>, id: int)
      returns (coords': map<int, Coord3d>, order': seq<int>, fixed': map<int, Coord3d>, fixedOrder': seq<int>)
    ensures FillState(coords', order', fixed', fixedOrder') == Step(FillState(coords, order, fixed, fixedOrder), missing, id, FillValue)
  {
    coords', order', fixed', fixedOrder' := coords, order, fixed, fixedOrder;
    if id !in missing && Reliable(coords, id) {
      return;
    }
    var prevId := GetPrevNeighborId(coords, id);
    var nextId := GetNextNeighborId(coords, id);
    PrevNeighborUnique(coords, id, prevId);
    NextNeighborUnique(coords, id, nextId);
    if 0 <= prevId < LedCount && 0 <= nextId < LedCount {
      var prevCoord := coords[prevId];
      var nextCoord := coords[nextId];
      var offset := nextId - prevId;
      var coord := Interpolate(id, prevCoord, nextCoord, offset);
      assert FillValue(coords, id) == Some(coord);
      fixed' := fixed[id := coord];
      fixedOrder' := fixedOrder + [id];
      if id !in order {
        order' := order + [id];
      }
      coords' := coords[id := coord];
    } else {
      assert FillValue(coords, id) == None;
    }
  }

  /** The loop of fix_with_neighbors over the ids 0..499. */
  method NeighborPass(start: map<int, Coord3d>, startOrder: seq<int>, missing: set<int>)
      returns (coords: map<int, Coord3d>, order: seq<int>, fixed: map<int, Coord3d>, fixedOrder: seq<int>)
    ensures FillState(coords, order, fixed, fixedOrder) == Filled(start, startOrder, missing, LedCount as nat, FillValue)
  {
    coords, order := start, startOrder;
    fixed, fixedOrder := map[], [];
    for id := 0 to LedCount
      invariant FillState(coords, order, fixed, fixedOrder) == Filled(start, startOrder, missing, id, FillValue)
    {
      coords, order, fixed, fixedOrder := FillOne(coords, order, fixed, fixedOrder, missing, id);
    }
  }

  /** The keys after the ids 0..n-1: no key is lost, the filled lights are
      added, and both orders list each of their keys once. */
  lemma {:induction false} FilledKeys(start: map<int, Coord3d>, startOrder: seq<int>, missing: set<int>, n: nat, fill: Filler)
    requires Enumerates(startOrder, start.Keys)
    ensures var s := Filled(start, startOrder, missing, n, fill);
      && (forall k :: k in s.coords <==> k in start || k in s.fixed)
      && (forall k | k in s.fixed :: 0 <= k < n)
      && Enumerates(s.order, s.coords.Keys)
      && Enumerates(s.fixedOrder, s.fixed.Keys)
  {
    if n > 0 {
      FilledKeys(start, startOrder, missing, n - 1, fill);
      var s := Filled(start, startOrder, missing, n - 1, fill);
      assert n - 1 !in s.fixed && n - 1 !in s.fixedOrder;
    }
  }

  /** The entries after the ids 0..n-1: each filled light holds its filled
      coordinate, the one the filler gave from the map as it stood when
      the light's turn came; it was missing or unreliable to begin with;
      every other light keeps its entry. */
  lemma {:induction false} FilledValues(start: map<int, Coord3d>, startOrder: seq<int>, missing: set<int>, n: nat, fill: Filler)
    ensures var s := Filled(start, startOrder, missing, n, fill);
      && (forall k | k in s.fixed :: k in s.coords && s.coords[k] == s.fixed[k] && NeedsFill(start, missing, k))
      && (forall k | k in s.fixed :: 0 <= k < n && Some(s.fixed[k]) == fill(Filled(start, startOrder, missing, k, fill).coords, k))
      && (forall k | k in start && k !in s.fixed :: k in s.coords && s.coords[k] == start[k])
  {
    if n > 0 {
      FilledValues(start, startOrder, missing, n - 1, fill);
      FilledBelow(start, startOrder, missing, n - 1, fill);
    }
  }

  /** Only ids below n have been handled after n steps. */
  lemma {:induction false} FilledBelow(start: map<int, Coord3d>, startOrder: seq<int>, missing: set<int>, n: nat, fill: Filler)
    ensures forall k | k in Filled(start, startOrder, missing, n, fill).fixed :: 0 <= k < n
    ensures forall k | (k >= n || k < 0) && k in start ::
      k in Filled(start, startOrder, missing, n, fill).coords && Filled(start, startOrder, missing, n, fill).coords[k] == start[k]
    ensures forall k | (k >= n || k < 0) && k !in start :: k !in Filled(start, startOrder, missing, n, fill).coords
  {
    if n > 0 {
      FilledBelow(start, startOrder, missing, n - 1, fill);
    }
  }

  /** With a sound filler every filled light is reliable in the final map. */
  lemma {:induction false} FilledReliable(start: map<int, Coord3d>, startOrder: seq<int>, missing: set<int>, n: nat, fill: Filler)
    requires SoundFiller(fill)
    ensures forall k | k in Filled(start, startOrder, missing, n, fill).fixed ::
      Reliable(Filled(start, startOrder, missing, n, fill).coords, k)
  {
    FilledValues(start, startOrder, missing, n, fill);
    forall k | k in Filled(start, startOrder, missing, n, fill).fixed
      ensures Reliable(Filled(start, startOrder, missing, n, fill).coords, k)
    {
      assert fill(Filled(start, startOrder, missing, k, fill).coords, k).Some?;
    }
  }

  /** fix_with_neighbors on the shared coordinate map; the filled lights are
      also returned as a new map. */
  method FixWithNeighbors(coordinates: CoordinateMap, missing: MissingSet) returns (fixedNeighbor: CoordinateMap)
    requires coordinates.Valid()
    modifies coordinates
    ensures fresh(fixedNeighbor) && coordinates.Valid() && fixedNeighbor.Valid()
    ensures var s := Filled(old(coordinates.coords), old(coordinates.order), missing.shots.Keys, LedCount as nat, FillValue);
      coordinates.coords == s.coords && coordinates.order == s.order && fixedNeighbor.coords == s.fixed
  {
    var coords, order, fixed, fixedOrder := NeighborPass(coordinates.coords, coordinates.order, missing.shots.Keys);
    FilledKeys(coordinates.coords, coordinates.order, missing.shots.Keys, LedCount, FillValue);
    coordinates.coords, coordinates.order := coords, order;
    fixedNeighbor := new CoordinateMap();
    fixedNeighbor.coords, fixedNeighbor.order := fixed, fixedOrder;
  }
}
