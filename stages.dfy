/** The stages of code/s3_coordinate_processing.py that rewrite the shared
    coordinate map and missing table with the readings of the resolving
    passes. Each stage is a loop over a dictionary's keys in insertion
    order. The loop is specified by a function giving the dictionaries
    after the first keys have been handled, whose meaning is proved
    separately; the stage applies the loop to the shared objects. */
module Stages {
  import opened Coords
  import opened Reconstruction
  import opened Resolvers

  /** Each light's square reading, as process_90_degrees computes it. */
  function SquareReadings(shots: map<int, seq<Snap>>): (readings: map<int, Coord3d>)
    requires NonEmptyGroups(shots)
    ensures readings.Keys == shots.Keys
  {
    map k | k in shots :: OrthogonalCoord(k, shots[k])
  }

  predicate Listed(ids: seq<int>, keys: set<int>)
  {
    forall j | 0 <= j < |ids| :: ids[j] in keys
  }

  /** A map after the first n keys of `ids` have been written with their
      entries in `entries`. */
  function Written(before: map<int, Coord3d>, ids: seq<int>, n: nat, entries: map<int, Coord3d>): map<int, Coord3d>
    requires n <= |ids| && Listed(ids, entries.Keys)
  {
    if n == 0 then before
    else Written(before, ids, n - 1, entries)[ids[n - 1] := entries[ids[n - 1]]]
  }

  /** Every written key holds its entry; nothing else is added or changed. */
  lemma {:induction false} WrittenSpec(before: map<int, Coord3d>, ids: seq<int>, n: nat, entries: map<int, Coord3d>)
    requires n <= |ids| && Listed(ids, entries.Keys)
    ensures before.Keys <= Written(before, ids, n, entries).Keys
    ensures forall j | 0 <= j < n :: ids[j] in Written(before, ids, n, entries) && Written(before, ids, n, entries)[ids[j]] == entries[ids[j]]
    ensures forall k | k in Written(before, ids, n, entries) :: k in before || k in ids[..n]
    ensures forall k | k in before && k !in ids[..n] :: Written(before, ids, n, entries)[k] == before[k]
  {
    if n > 0 {
      WrittenSpec(before, ids, n - 1, entries);
      assert ids[..n] == ids[..n - 1] + [ids[n - 1]];
    }
  }

  /** The missing table process_90_degrees has built after the first n
      lights of `ids`. */
  function UnresolvedTable(ids: seq<int>, n: nat, readings: map<int, Coord3d>, shots: map<int, seq<Snap>>): map<int, seq<Snap>>
    requires n <= |ids| && Listed(ids, readings.Keys) && Listed(ids, shots.Keys)
  {
    if n == 0 then map[]
    else
      var k := ids[n - 1];
      var table := UnresolvedTable(ids, n - 1, readings, shots);
      if Unresolved(readings[k]) then table[k := Usable(shots[k])] else table
  }

  /** The key order of that table. */
  function UnresolvedOrder(ids: seq<int>, n: nat, readings: map<int, Coord3d>): seq<int>
    requires n <= |ids| && Listed(ids, readings.Keys)
  {
    if n == 0 then []
    else
      var k := ids[n - 1];
      var order := UnresolvedOrder(ids, n - 1, readings);
      if Unresolved(readings[k]) then order + [k] else order
  }

  /** The table holds exactly the unresolved lights, with their usable
      shots, listed once each when the lights are. */
  lemma {:induction false} UnresolvedTableSpec(ids: seq<int>, n: nat, readings: map<int, Coord3d>, shots: map<int, seq<Snap>>)
    requires n <= |ids| && Listed(ids, readings.Keys) && Listed(ids, shots.Keys)
    ensures forall j | 0 <= j < n :: ids[j] in UnresolvedTable(ids, n, readings, shots) <==> Unresolved(readings[ids[j]])
    ensures forall k | k in UnresolvedTable(ids, n, readings, shots) ::
      k in ids[..n] && UnresolvedTable(ids, n, readings, shots)[k] == Usable(shots[k])
    ensures Distinct(ids) ==> Enumerates(UnresolvedOrder(ids, n, readings), UnresolvedTable(ids, n, readings, shots).Keys)
  {
    if n > 0 {
      UnresolvedTableSpec(ids, n - 1, readings, shots);
      assert ids[..n] == ids[..n - 1] + [ids[n - 1]];
      assert Distinct(ids) ==> ids[n - 1] !in ids[..n - 1];
    }
  }

  /** The unresolved lights keep the order of the shot table. */
  lemma {:induction false} UnresolvedOrderSelected(ids: seq<int>, n: nat, readings: map<int, Coord3d>, chosen: set<int>)
    requires n <= |ids| && Listed(ids, readings.Keys)
    requires forall j | 0 <= j < n :: ids[j] in chosen <==> Unresolved(readings[ids[j]])
    ensures UnresolvedOrder(ids, n, readings) == Selected(ids, n, chosen)
  {
    if n > 0 {
      UnresolvedOrderSelected(ids, n - 1, readings, chosen);
    }
  }

  /** The loop of process_90_degrees over the shot table: every light's
      reading goes into the coordinates, and the unresolved lights go into
      a new missing table with their usable shots. */
  method OrthogonalPass(before: map<int, Coord3d>, beforeOrder: seq<int>, shots: map<int, seq<Snap>>, ids: seq<int>,
                        readings: map<int, Coord3d>)
      returns (coords: map<int, Coord3d>, order: seq<int>, unresolved: map<int, seq<Snap>>, unresolvedOrder: seq<int>)
    requires Enumerates(ids, shots.Keys) && Enumerates(beforeOrder, before.Keys) && readings.Keys == shots.Keys
    ensures coords.Keys == before.Keys + shots.Keys && Enumerates(order, coords.Keys)
    ensures forall k | k in shots :: coords[k] == readings[k]
    ensures forall k | k in before && k !in shots :: coords[k] == before[k]
    ensures unresolved.Keys <= shots.Keys && Enumerates(unresolvedOrder, unresolved.Keys)
    ensures forall k | k in shots :: k in unresolved <==> Unresolved(readings[k])
    ensures forall k | k in unresolved :: unresolved[k] == Usable(shots[k])
    ensures unresolvedOrder == Selected(ids, |ids|, unresolved.Keys)
  {
    assert Listed(ids, shots.Keys) && Listed(ids, readings.Keys) by {
      forall j | 0 <= j < |ids|
        ensures ids[j] in shots
      {
        assert ids[j] in ids;
      }
    }
    coords, order := before, beforeOrder;
    unresolved, unresolvedOrder := map[], [];
    for i := 0 to |ids|
      invariant coords == Written(before, ids, i, readings) && order == AppendNew(beforeOrder, ids[..i])
      invariant unresolved == UnresolvedTable(ids, i, readings, shots) && unresolvedOrder == UnresolvedOrder(ids, i, readings)
    {
      var k := ids[i];
      assert ids[..i + 1][..i] == ids[..i] && ids[..i + 1][i] == k;
      var c := readings[k];
      if Unresolved(c) {
        unresolved := unresolved[k := Usable(shots[k])];
        unresolvedOrder := unresolvedOrder + [k];
      }
      if k !in order {
        order := order + [k];
      }
      coords := coords[k := c];
    }
    assert ids[..|ids|] == ids;
    WrittenSpec(before, ids, |ids|, readings);
    AppendNewEnumerates(beforeOrder, before.Keys, ids);
    UnresolvedTableSpec(ids, |ids|, readings, shots);
    UnresolvedOrderSelected(ids, |ids|, readings, unresolved.Keys);
    assert forall k :: k in coords.Keys <==> k in before.Keys + shots.Keys;
    assert forall k | k in unresolved :: k in ids;
  }

  /** process_90_degrees: the pass applied to the shared coordinate map;
      the missing table it returns is a new dictionary. */
  method ProcessOrthogonal(coordinates: CoordinateMap, shots: map<int, seq<Snap>>, ids: seq<int>) returns (missing: MissingSet)
    requires NonEmptyGroups(shots) && Enumerates(ids, shots.Keys) && coordinates.Valid()
    modifies coordinates
    ensures fresh(missing) && coordinates.Valid() && missing.Valid()
    ensures coordinates.coords.Keys == old(coordinates.coords).Keys + shots.Keys
    ensures forall k | k in shots :: coordinates.coords[k] == OrthogonalCoord(k, shots[k])
    ensures forall k | k in old(coordinates.coords) && k !in shots :: coordinates.coords[k] == old(coordinates.coords)[k]
    ensures missing.shots.Keys <= shots.Keys
    ensures forall k | k in shots :: k in missing.shots <==> Unresolved(OrthogonalCoord(k, shots[k]))
    ensures forall k | k in missing.shots :: missing.shots[k] == Usable(shots[k])
    ensures missing.order == Selected(ids, |ids|, missing.shots.Keys)
  {
    var coords, order, unresolved, unresolvedOrder := OrthogonalPass(coordinates.coords, coordinates.order, shots, ids, SquareReadings(shots));
    coordinates.coords, coordinates.order := coords, order;
    missing := new MissingSet();
    missing.shots, missing.order := unresolved, unresolvedOrder;
  }

  /** fixed_45 after the first n lights of `ids`: the lights whose shots
      give both diagonal axes, with their new readings. */
  function FixedTable(ids: seq<int>, n: nat, readings: map<int, Coord3d>, resolved: set<int>): map<int, Coord3d>
    requires n <= |ids| && Listed(ids, readings.Keys)
  {
    if n == 0 then map[]
    else
      var k := ids[n - 1];
      var fixed := FixedTable(ids, n - 1, readings, resolved);
      if k in resolved then fixed[k := readings[k]] else fixed
  }

  /** fixed_45 holds exactly the lights with both diagonal axes, with their
      new readings, listed once each when the lights are. */
  lemma {:induction false} FixedTableSpec(ids: seq<int>, n: nat, readings: map<int, Coord3d>, resolved: set<int>)
    requires n <= |ids| && Listed(ids, readings.Keys)
    ensures forall j | 0 <= j < n :: ids[j] in FixedTable(ids, n, readings, resolved) <==> ids[j] in resolved
    ensures forall k | k in FixedTable(ids, n, readings, resolved) ::
      k in ids[..n] && FixedTable(ids, n, readings, resolved)[k] == readings[k]
    ensures Distinct(ids) ==> Enumerates(Selected(ids, n, resolved), FixedTable(ids, n, readings, resolved).Keys)
  {
    if n > 0 {
      FixedTableSpec(ids, n - 1, readings, resolved);
      assert ids[..n] == ids[..n - 1] + [ids[n - 1]];
      assert Distinct(ids) ==> ids[n - 1] !in ids[..n - 1];
    }
  }

  /** Each missing light's diagonal reading, computed from its entry in
      the coordinate map. */
  function DiagonalReadings(coords: map<int, Coord3d>, missing: map<int, seq<Snap>>, shots: map<int, seq<Snap>>,
                            rotation: Rotation): (readings: map<int, Coord3d>)
    requires DiagonalReady(coords, missing, shots)
    ensures readings.Keys == missing.Keys
  {
    map k | k in missing :: DiagonalCoord(k, coords[k], missing[k], shots[k], rotation)
  }

  /** The missing lights whose shots give both diagonal axes. */
  function DiagonalResolvedIds(missing: map<int, seq<Snap>>): (ids: set<int>)
    ensures forall k | k in missing :: k in ids <==> DiagonalResolved(missing[k])
  {
    set k | k in missing && DiagonalResolved(missing[k])
  }

  /** The first loop of process_45_degrees: every missing light gets its
      diagonal reading, and the lights with both diagonal axes are
      collected as fixed_45. Each light is listed once, so the entry it
      reads is the one it had before the loop. */
  method DiagonalPass(before: map<int, Coord3d>, missing: map<int, seq<Snap>>, missingOrder: seq<int>,
                      readings: map<int, Coord3d>, resolved: set<int>)
      returns (coords: map<int, Coord3d>, fixed45: map<int, Coord3d>, fixedOrder: seq<int>)
    requires missing.Keys <= before.Keys && readings.Keys == missing.Keys && Enumerates(missingOrder, missing.Keys)
    ensures coords.Keys == before.Keys
    ensures forall k | k in missing :: coords[k] == readings[k]
    ensures forall k | k in before && k !in missing :: coords[k] == before[k]
    ensures fixed45.Keys <= missing.Keys && Enumerates(fixedOrder, fixed45.Keys)
    ensures forall k | k in missing :: k in fixed45 <==> k in resolved
    ensures forall k | k in fixed45 :: fixed45[k] == coords[k]
  {
    assert Listed(missingOrder, missing.Keys) && Listed(missingOrder, readings.Keys) by {
      forall j | 0 <= j < |missingOrder|
        ensures missingOrder[j] in missing
      {
        assert missingOrder[j] in missingOrder;
      }
    }
    coords := before;
    fixed45, fixedOrder := map[], [];
    for i := 0 to |missingOrder|
      invariant coords == Written(before, missingOrder, i, readings)
      invariant fixed45 == FixedTable(missingOrder, i, readings, resolved)
      invariant fixedOrder == Selected(missingOrder, i, resolved)
    {
      var k := missingOrder[i];
      var c := readings[k];
      if k in resolved {
        fixed45 := fixed45[k := c];
        fixedOrder := fixedOrder + [k];
      }
      coords := coords[k := c];
    }
    assert missingOrder[..|missingOrder|] == missingOrder;
    WrittenSpec(before, missingOrder, |missingOrder|, readings);
    FixedTableSpec(missingOrder, |missingOrder|, readings, resolved);
    assert forall k :: k in coords.Keys <==> k in before.Keys;
    assert forall k | k in fixed45 :: k in missingOrder;
  }

  /** The lights left in missing after deleting the fixed ones are exactly
      the unresolved ones. */
  lemma LeftAfterDeletion(pending: map<int, seq<Snap>>, fixed: map<int, Coord3d>, fixedOrder: seq<int>,
                          remaining: map<int, seq<Snap>>, resolved: set<int>)
    requires Enumerates(fixedOrder, fixed.Keys)
    requires forall k | k in pending :: k in fixed <==> k in resolved
    requires forall k | k in pending :: k in remaining <==> k !in fixedOrder
    ensures forall k | k in pending :: k in remaining <==> k !in resolved
  {
    forall k | k in pending
      ensures k in remaining <==> k !in resolved
    {
      assert k in fixedOrder <==> k in fixed;
    }
  }

  /** process_45_degrees: the pass applied to the shared coordinate map and
      missing table; fixed_45 is returned as a new dictionary. */
  method ProcessDiagonal(coordinates: CoordinateMap, missing: MissingSet, shots: map<int, seq<Snap>>, rotation: Rotation)
      returns (fixed45: CoordinateMap)
    requires DiagonalReady(coordinates.coords, missing.shots, shots) && missing.Valid()
    modifies coordinates, missing
    ensures fresh(fixed45) && fixed45.Valid() && missing.Valid()
    ensures coordinates.coords.Keys == old(coordinates.coords).Keys && coordinates.order == old(coordinates.order)
    ensures forall k | k in old(missing.shots) ::
      coordinates.coords[k] == DiagonalCoord(k, old(coordinates.coords)[k], old(missing.shots)[k], shots[k], rotation)
    ensures forall k | k in old(coordinates.coords) && k !in old(missing.shots) ::
      coordinates.coords[k] == old(coordinates.coords)[k]
    ensures fixed45.coords.Keys <= old(missing.shots).Keys
    ensures forall k | k in old(missing.shots) :: k in fixed45.coords <==> DiagonalResolved(old(missing.shots)[k])
    ensures forall k | k in fixed45.coords :: fixed45.coords[k] == coordinates.coords[k]
    ensures missing.shots.Keys <= old(missing.shots).Keys
    ensures forall k | k in old(missing.shots) :: k in missing.shots <==> !DiagonalResolved(old(missing.shots)[k])
    ensures forall k | k in missing.shots :: missing.shots[k] == old(missing.shots)[k]
  {
    var before, pending := coordinates.coords, missing.shots;
    var coords, fixed, fixedOrder := DiagonalPass(before, pending, missing.order,
                                                  DiagonalReadings(before, pending, shots, rotation),
                                                  DiagonalResolvedIds(pending));
    var remaining, remainingOrder := DeleteKeys(pending, missing.order, fixedOrder);
    LeftAfterDeletion(pending, fixed, fixedOrder, remaining, DiagonalResolvedIds(pending));
    coordinates.coords := coords;
    missing.shots, missing.order := remaining, remainingOrder;
    fixed45 := new CoordinateMap();
    fixed45.coords, fixed45.order := fixed, fixedOrder;
  }
}
