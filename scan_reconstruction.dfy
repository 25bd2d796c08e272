/** scan/coordinate_processing.py, the first version of the reconstruction
    pipeline. Its main reads the fixed-width scan file, resolves x and y
    from the square photographs, retries the unresolved lights with the
    diagonal photographs, and finally interpolates the lights that are
    still missing between their nearest reliable neighbours. It differs
    from the later pipeline in three ways: the height comes from
    extract_z, the centring shift is (x - 535, y - 540), and a light is
    reliable as soon as x and y are positive. */
module ScanReconstruction {
  import opened Wrappers
  import opened Text
  import opened Coords
  import opened Reconstruction
  import opened Resolvers
  import opened Stages
  import opened Interpolation
  import opened FixedWidth

  /** normalize_to_center of this version: x - 540 + 5, y - 540. */
  function ScanToCenter(v: (real, real, real)): (r: (real, real, real))
    ensures r.2 == v.2
  {
    (v.0 - (ImageWidth / 2) as real + 5.0, v.1 - (ImageWidth / 2) as real, v.2)
  }

  /** denormalize_from_center of this version. */
  function ScanFromCenter(v: (real, real, real)): (r: (real, real, real))
    ensures r.2 == v.2
  {
    (v.0 + (ImageWidth / 2) as real - 5.0, v.1 + (ImageWidth / 2) as real, v.2)
  }

  /** The two shifts undo each other, in both orders. */
  lemma ScanCenterRoundTrip(v: (real, real, real))
    ensures ScanFromCenter(ScanToCenter(v)) == v
    ensures ScanToCenter(ScanFromCenter(v)) == v
  {
  }

  /** rotate of this version: turn about the vertical axis in its centred
      frame, then truncate each axis back to an integer. */
  function ScanRotate(c: Coord3d, rotation: Rotation): (r: Coord3d)
    ensures r.ledId == c.ledId && r.z == c.z
  {
    var centred := ScanToCenter((c.x as real, c.y as real, c.z as real));
    var turned := rotation(centred.0, centred.1);
    var back := ScanFromCenter((turned.0, turned.1, centred.2));
    TruncOfInteger(c.z);
    Coord3d(c.ledId, Trunc(back.0), Trunc(back.1), Trunc(back.2))
  }

  /** Rotating by nothing leaves a light where it is. */
  lemma ScanRotateIdentity(c: Coord3d, rotation: Rotation)
    requires forall x: real, y: real :: rotation(x, y) == (x, y)
    ensures ScanRotate(c, rotation) == c
  {
    var centred := ScanToCenter((c.x as real, c.y as real, c.z as real));
    ScanCenterRoundTrip((c.x as real, c.y as real, c.z as real));
    assert rotation(centred.0, centred.1) == (centred.0, centred.1);
    TruncOfInteger(c.x);
    TruncOfInteger(c.y);
  }

  /** extract_z, a height estimate from a light's shots. */
  type HeightRule = seq<Snap> -> int

  /** The square reading of one light: x from the first 0/180 shot, y from
      the first 270/90 shot (both among the shots with a position), the
      height from extract_z over all the light's shots. */
  function ScanSquareCoord(id: int, shots: seq<Snap>, extractZ: HeightRule): (c: Coord3d)
    ensures c.ledId == id && c.z == extractZ(shots)
    ensures c.x == AxisValue(Usable(shots), 0, 180) && c.y == AxisValue(Usable(shots), 270, 90)
  {
    var filtered := Usable(shots);
    Coord3d(id, AxisValue(filtered, 0, 180), AxisValue(filtered, 270, 90), extractZ(shots))
  }

  function ScanSquareReadings(shots: map<int, seq<Snap>>, extractZ: HeightRule): (readings: map<int, Coord3d>)
    ensures readings.Keys == shots.Keys
    ensures forall k | k in shots :: readings[k] == ScanSquareCoord(k, shots[k], extractZ)
  {
    map k | k in shots :: ScanSquareCoord(k, shots[k], extractZ)
  }

  /** The diagonal reading of one unresolved light: rotate the diagonal
      reading, zero an axis that was not found (x first), then keep
      whichever axis the square pass had already found. */
  function ScanDiagonalCoord(id: int, stored: Coord3d, filtered: seq<Snap>, all: seq<Snap>,
                             extractZ: HeightRule, rotation: Rotation): (r: Coord3d)
    ensures r.ledId == id && r.z == extractZ(all)
    ensures stored.x != 0 ==> r.x == stored.x
    ensures stored.y != 0 ==> r.y == stored.y
    ensures stored.x == 0 && AxisValue(filtered, 45, 225) == 0 ==> r.x == 0
    ensures stored.y == 0 && AxisValue(filtered, 45, 225) != 0 && AxisValue(filtered, 315, 135) == 0 ==> r.y == 0
  {
    var z := extractZ(all);
    var y := AxisValue(filtered, 315, 135);
    var x := AxisValue(filtered, 45, 225);
    var turned := ScanRotate(Coord3d(id, x, y, z), rotation);
    var cleared := if x == 0 then WithX(turned, 0) else if y == 0 then WithY(turned, 0) else turned;
    var keptX := if stored.x != 0 then WithX(cleared, stored.x) else cleared;
    if stored.y != 0 then WithY(keptX, stored.y) else keptX
  }

  function ScanDiagonalReadings(coords: map<int, Coord3d>, missing: map<int, seq<Snap>>, shots: map<int, seq<Snap>>,
                                extractZ: HeightRule, rotation: Rotation): (readings: map<int, Coord3d>)
    requires forall k | k in missing :: k in coords && k in shots
    ensures readings.Keys == missing.Keys
    ensures forall k | k in missing :: readings[k] == ScanDiagonalCoord(k, coords[k], missing[k], shots[k], extractZ, rotation)
  {
    map k | k in missing :: ScanDiagonalCoord(k, coords[k], missing[k], shots[k], extractZ, rotation)
  }

  /** reliable_coordinate of this version: present with positive x and y;
      the height is not looked at. */
  predicate ScanReliable(coords: map<int, Coord3d>, id: int)
  {
    id in coords && coords[id].x > 0 && coords[id].y > 0
  }

  /** The greatest reliable id in [0, j], or -1. */
  function ScanPrevFrom(coords: map<int, Coord3d>, j: int): (r: int)
    ensures r == -1 || 0 <= r <= j
    ensures r >= 0 ==> ScanReliable(coords, r)
    ensures forall i | r < i <= j && 0 <= i :: !ScanReliable(coords, i)
    decreases j + 1
  {
    if j < 0 then -1
    else if ScanReliable(coords, j) then j
    else ScanPrevFrom(coords, j - 1)
  }

  /** The smallest reliable id in [j, 499], or 500. */
  function ScanNextFrom(coords: map<int, Coord3d>, j: int): (r: int)
    ensures r == LedCount || (j <= r < LedCount && ScanReliable(coords, r))
    ensures forall i | j <= i < r && i < LedCount :: !ScanReliable(coords, i)
    decreases LedCount - j
  {
    if j >= LedCount then LedCount
    else if ScanReliable(coords, j) then j
    else ScanNextFrom(coords, j + 1)
  }

  /** The previous reliable neighbour searched by the first while-loop. */
  function ScanPrev(coords: map<int, Coord3d>, k: int): int
  {
    ScanPrevFrom(coords, k - 1)
  }

  /** The next reliable neighbour searched by the second while-loop. */
  function ScanNext(coords: map<int, Coord3d>, k: int): int
  {
    ScanNextFrom(coords, k + 1)
  }

  /** `while not pn and k - p_offset >= 0`: the offset of the nearest
      reliable light below k, if there is one at or above 0. */
  method FindPrev(coords: map<int, Coord3d>, k: int) returns (pn: Option<Coord3d>, pOffset: int)
    ensures pn.Some? <==> ScanPrev(coords, k) >= 0
    ensures pn.Some? ==> pOffset >= 1 && k - pOffset == ScanPrev(coords, k) && pn.value == coords[k - pOffset]
  {
    pOffset := 1;
    while k - pOffset >= 0
      invariant pOffset >= 1 && ScanPrevFrom(coords, k - pOffset) == ScanPrev(coords, k)
      decreases k - pOffset
    {
      if ScanReliable(coords, k - pOffset) {
        return Some(coords[k - pOffset]), pOffset;
      }
      pOffset := pOffset + 1;
    }
    pn := None;
  }

  /** `while not nn and k + n_offset <= 499`: the offset of the nearest
      reliable light above k, if there is one at or below 499. */
  method FindNext(coords: map<int, Coord3d>, k: int) returns (nn: Option<Coord3d>, nOffset: int)
    ensures nn.Some? <==> ScanNext(coords, k) < LedCount
    ensures nn.Some? ==> nOffset >= 1 && k + nOffset == ScanNext(coords, k) && nn.value == coords[k + nOffset]
  {
    nOffset := 1;
    while k + nOffset <= LedCount - 1
      invariant nOffset >= 1 && ScanNextFrom(coords, k + nOffset) == ScanNext(coords, k)
      decreases LedCount - (k + nOffset)
    {
      if ScanReliable(coords, k + nOffset) {
        return Some(coords[k + nOffset]), nOffset;
      }
      nOffset := nOffset + 1;
    }
    nn := None;
  }

  /** The interpolated coordinate for a missing light, or None when it has
      no reliable neighbour on one side. The average's offset
      p_offset + n_offset is the distance between the neighbours' ids. */
  function ScanFillValue(coords: map<int, Coord3d>, k: int): Option<Coord3d>
  {
    var p := ScanPrev(coords, k);
    var n := ScanNext(coords, k);
    if 0 <= p && n < LedCount then Some(Interpolate(k, coords[p], coords[n], n - p)) else None
  }

  /** A light is filled exactly when it has a reliable neighbour on both
      sides; then each axis lies between the neighbours' values, so x and
      y are positive and the light is reliable. */
  lemma ScanFillValueSpec(coords: map<int, Coord3d>, k: int)
    ensures ScanFillValue(coords, k).Some? <==> 0 <= ScanPrev(coords, k) && ScanNext(coords, k) < LedCount
    ensures ScanFillValue(coords, k).Some? ==>
      Between(ScanFillValue(coords, k).value, coords[ScanPrev(coords, k)], coords[ScanNext(coords, k)])
    ensures ScanFillValue(coords, k).Some? ==>
      var c := ScanFillValue(coords, k).value;
      c.ledId == k && c.x > 0 && c.y > 0
  {
  }

  /** The coordinate map and the fixed_neighbor list. */
  datatype ScanFillState = ScanFillState(coords: map<int, Coord3d>, fixed: seq<Coord3d>)

  /** One turn of the loop over the missing lights. */
  function ScanStep(s: ScanFillState, k: int, fill: Filler): ScanFillState
  {
    match fill(s.coords, k)
    case Some(c) => ScanFillState(s.coords[k := c], s.fixed + [c])
    case None => s
  }

  /** The state once the first n missing lights have been handled. */
  function ScanFilled(start: map<int, Coord3d>, keys: seq<int>, n: nat, fill: Filler): ScanFillState
    requires n <= |keys|
  {
    if n == 0 then ScanFillState(start, [])
    else ScanStep(ScanFilled(start, keys, n - 1, fill), keys[n - 1], fill)
  }

  /** A filler that only yields a coordinate for the light it was asked
      about, with positive x and y. */
  ghost predicate ScanSoundFiller(fill: Filler)
  {
    forall coords, k | fill(coords, k).Some? ::
      fill(coords, k).value.ledId == k && fill(coords, k).value.x > 0 && fill(coords, k).value.y > 0
  }

  lemma ScanFillValueSound()
    ensures ScanSoundFiller(ScanFillValue)
  {
    forall coords, k | ScanFillValue(coords, k).Some?
      ensures ScanFillValue(coords, k).value.ledId == k
      ensures ScanFillValue(coords, k).value.x > 0 && ScanFillValue(coords, k).value.y > 0
    {
      ScanFillValueSpec(coords, k);
    }
  }

  /** The body of the interpolation loop for the missing light k. */
  method ScanFillOne(coords: map<int, Coord3d>, fixed: seq<Coord3d>, k: int)
      returns (coords': map<int, Coord3d>, fixed': seq<Coord3d>)
    ensures ScanFillState(coords', fixed') == ScanStep(ScanFillState(coords, fixed), k, ScanFillValue)
  {
    coords', fixed' := coords, fixed;
    var pn, pOffset := FindPrev(coords, k);
    var nn, nOffset := FindNext(coords, k);
    if pn.None? || nn.None? {
      return;
    }
    assert pOffset + nOffset == ScanNext(coords, k) - ScanPrev(coords, k);
    var p, n := pn.value, nn.value;
    var coord := Coord3d(k, Avg(p.x, n.x, pOffset + nOffset), Avg(p.y, n.y, pOffset + nOffset), Avg(p.z, n.z, pOffset + nOffset));
    assert ScanFillValue(coords, k) == Some(coord);
    fixed' := fixed + [coord];
    coords' := coords[k := coord];
  }

  /** The interpolation loop of main over the lights still missing. */
  method ScanNeighborPass(start: map<int, Coord3d>, keys: seq<int>) returns (coords: map<int, Coord3d>, fixed: seq<Coord3d>)
    ensures ScanFillState(coords, fixed) == ScanFilled(start, keys, |keys|, ScanFillValue)
  {
    coords, fixed := start, [];
    for i := 0 to |keys|
      invariant ScanFillState(coords, fixed) == ScanFilled(start, keys, i, ScanFillValue)
    {
      coords, fixed := ScanFillOne(coords, fixed, keys[i]);
    }
  }

  /** The loop adds no key when every missing light is already in the map. */
  lemma {:induction false} ScanFilledKeys(start: map<int, Coord3d>, keys: seq<int>, n: nat, fill: Filler)
    requires n <= |keys| && Listed(keys, start.Keys)
    ensures ScanFilled(start, keys, n, fill).coords.Keys == start.Keys
  {
    if n > 0 {
      ScanFilledKeys(start, keys, n - 1, fill);
    }
  }

  /** With each missing light listed once, the j-th one ends up holding
      the value the filler gave it from the map as it stood at its turn,
      and keeps its first entry when the filler gave nothing. */
  lemma {:induction false} ScanFilledValues(start: map<int, Coord3d>, keys: seq<int>, n: nat, fill: Filler, j: nat)
    requires j < n <= |keys| && Distinct(keys)
    ensures var turn := fill(ScanFilled(start, keys, j, fill).coords, keys[j]);
      var s := ScanFilled(start, keys, n, fill);
      && (turn.Some? ==> keys[j] in s.coords && s.coords[keys[j]] == turn.value)
      && (turn.None? && keys[j] in start ==> keys[j] in s.coords && s.coords[keys[j]] == start[keys[j]])
  {
    if j == n - 1 {
      ScanFilledUntouched(start, keys, j, fill);
      assert keys[j] !in keys[..j];
    } else {
      ScanFilledValues(start, keys, n - 1, fill, j);
      assert keys[j] != keys[n - 1];
    }
  }

  /** fixed_neighbor holds coordinates of listed lights, each with positive
      x and y and each as it is stored in the map. */
  lemma {:induction false} ScanFilledFixed(start: map<int, Coord3d>, keys: seq<int>, n: nat, fill: Filler)
    requires n <= |keys| && Distinct(keys) && ScanSoundFiller(fill)
    ensures var s := ScanFilled(start, keys, n, fill);
      forall c | c in s.fixed ::
        && c.ledId in keys[..n] && c.x > 0 && c.y > 0
        && c.ledId in s.coords && s.coords[c.ledId] == c
  {
    if n > 0 {
      ScanFilledFixed(start, keys, n - 1, fill);
      assert keys[..n] == keys[..n - 1] + [keys[n - 1]];
      assert keys[n - 1] !in keys[..n - 1];
    }
  }

  /** A listed light whose turn has not come yet still holds its first
      entry. */
  lemma {:induction false} ScanFilledUntouched(start: map<int, Coord3d>, keys: seq<int>, n: nat, fill: Filler)
    requires n <= |keys|
    ensures forall k | k in start && k !in keys[..n] ::
      k in ScanFilled(start, keys, n, fill).coords && ScanFilled(start, keys, n, fill).coords[k] == start[k]
  {
    if n > 0 {
      ScanFilledUntouched(start, keys, n - 1, fill);
      assert keys[..n] == keys[..n - 1] + [keys[n - 1]];
    }
  }

  /** Every light the loop filled is reliable in the final map, so it could
      serve as a neighbour for the lights handled after it. */
  lemma ScanFilledReliable(start: map<int, Coord3d>, keys: seq<int>, fill: Filler)
    requires Distinct(keys) && ScanSoundFiller(fill)
    ensures forall c | c in ScanFilled(start, keys, |keys|, fill).fixed :: ScanReliable(ScanFilled(start, keys, |keys|, fill).coords, c.ledId)
  {
    ScanFilledFixed(start, keys, |keys|, fill);
  }

  /** The loop over lights drawn from `chosen` adds no key, leaves every
      other light alone, and records only reliable lights of `chosen` as
      they are stored. */
  lemma ScanFilledSummary(start: map<int, Coord3d>, keys: seq<int>, chosen: set<int>, fill: Filler)
    requires Distinct(keys) && ScanSoundFiller(fill)
    requires forall j | 0 <= j < |keys| :: keys[j] in start && keys[j] in chosen
    ensures var s := ScanFilled(start, keys, |keys|, fill);
      && s.coords.Keys == start.Keys
      && (forall k | k in start && k !in chosen :: s.coords[k] == start[k])
      && (forall c | c in s.fixed :: c.ledId in chosen && c.ledId in s.coords && s.coords[c.ledId] == c && ScanReliable(s.coords, c.ledId))
  {
    assert keys[..|keys|] == keys;
    ScanFilledKeys(start, keys, |keys|, fill);
    ScanFilledUntouched(start, keys, |keys|, fill);
    ScanFilledFixed(start, keys, |keys|, fill);
    forall k | k in keys
      ensures k in chosen
    {
      var j :| 0 <= j < |keys| && keys[j] == k;
    }
  }

  /** What main writes out and draws: the coordinate map in key order, the
      diagonal fixes and the neighbour fixes. */
  datatype ScanOutcome = ScanOutcome(coords: map<int, Coord3d>, order: seq<int>,
                                     fixed45: map<int, Coord3d>, fixedNeighbor: seq<Coord3d>)

  /** The shot table main builds from the scan file. */
  function ScanShots(lines: seq<string>): map<int, seq<Snap>>
  {
    Grouped(KeptSnaps(lines, ParseLine))
  }

  /** A light the diagonal pass resolves: the square shots miss an axis
      and the diagonal shots give both. */
  predicate ScanDiagonalFixed(id: int, snaps: seq<Snap>, extractZ: HeightRule)
  {
    Unresolved(ScanSquareCoord(id, snaps, extractZ)) && DiagonalResolved(Usable(snaps))
  }

  /** A light still in `missing` when the neighbour loop starts. */
  predicate ScanLeftOver(id: int, snaps: seq<Snap>, extractZ: HeightRule)
  {
    Unresolved(ScanSquareCoord(id, snaps, extractZ)) && !DiagonalResolved(Usable(snaps))
  }

  function ScanLeftOverIds(shots: map<int, seq<Snap>>, extractZ: HeightRule): set<int>
  {
    set k | k in shots && ScanLeftOver(k, shots[k], extractZ)
  }

  /** A light's coordinate after the two passes: its square reading, or
      its diagonal reading when the square shots miss an axis. */
  function ScanPassCoord(id: int, snaps: seq<Snap>, extractZ: HeightRule, rotation: Rotation): Coord3d
  {
    var square := ScanSquareCoord(id, snaps, extractZ);
    if Unresolved(square) then ScanDiagonalCoord(id, square, Usable(snaps), snaps, extractZ, rotation) else square
  }

  function ScanPassMap(shots: map<int, seq<Snap>>, extractZ: HeightRule, rotation: Rotation): map<int, Coord3d>
  {
    map k | k in shots :: ScanPassCoord(k, shots[k], extractZ, rotation)
  }

  /** The square loop of main followed by its diagonal loop: every light
      holds its pass coordinate; `missing` holds the lights the square
      shots leave unresolved, in shot-table order, and fixed_45 those of
      them the diagonals resolve. */
  method ScanSquareThenDiagonal(shots: map<int, seq<Snap>>, ids: seq<int>, extractZ: HeightRule, rotation: Rotation)
      returns (coords: map<int, Coord3d>, order: seq<int>, fixed45: map<int, Coord3d>, fixedOrder: seq<int>,
               unresolved: map<int, seq<Snap>>, unresolvedOrder: seq<int>)
    requires Enumerates(ids, shots.Keys)
    ensures coords == ScanPassMap(shots, extractZ, rotation) && Enumerates(order, coords.Keys)
    ensures unresolved.Keys <= shots.Keys && Enumerates(unresolvedOrder, unresolved.Keys)
    ensures unresolvedOrder == Selected(ids, |ids|, unresolved.Keys)
    ensures forall k | k in shots :: k in unresolved <==> Unresolved(ScanSquareCoord(k, shots[k], extractZ))
    ensures forall k | k in unresolved :: unresolved[k] == Usable(shots[k])
    ensures fixed45.Keys <= unresolved.Keys && Enumerates(fixedOrder, fixed45.Keys)
    ensures forall k | k in unresolved :: k in fixed45 <==> DiagonalResolved(unresolved[k])
    ensures forall k | k in fixed45 :: fixed45[k] == coords[k]
  {
    var square := ScanSquareReadings(shots, extractZ);
    var coords0;
    coords0, order, unresolved, unresolvedOrder := OrthogonalPass(map[], [], shots, ids, square);
    var diagonal := ScanDiagonalReadings(coords0, unresolved, shots, extractZ, rotation);
    coords, fixed45, fixedOrder := DiagonalPass(coords0, unresolved, unresolvedOrder, diagonal, DiagonalResolvedIds(unresolved));
    forall k | k in shots
      ensures coords[k] == ScanPassCoord(k, shots[k], extractZ, rotation)
    {
      ScanPassCoordOf(k, shots[k], extractZ, rotation, square[k], k in unresolved, coords[k]);
    }
    ScanPassMapOf(shots, extractZ, rotation, coords);
  }

  /** The square and diagonal passes of main over the shot table, and the
      deletion of the diagonal fixes from `missing`: every light holds its
      pass coordinate; fixed_45 holds exactly the lights the diagonals
      resolve; `missing` holds exactly the others the square shots left
      unresolved, with their usable shots, in the order of the shot
      table. */
  method ScanResolve(shots: map<int, seq<Snap>>, ids: seq<int>, extractZ: HeightRule, rotation: Rotation)
      returns (coords: map<int, Coord3d>, order: seq<int>, fixed45: map<int, Coord3d>,
               missing: map<int, seq<Snap>>, missingOrder: seq<int>)
    requires Enumerates(ids, shots.Keys)
    ensures coords == ScanPassMap(shots, extractZ, rotation) && Enumerates(order, coords.Keys)
    ensures fixed45.Keys <= shots.Keys
    ensures forall k | k in shots :: k in fixed45 <==> ScanDiagonalFixed(k, shots[k], extractZ)
    ensures forall k | k in fixed45 :: fixed45[k] == coords[k]
    ensures missing.Keys == ScanLeftOverIds(shots, extractZ)
    ensures forall k | k in missing :: missing[k] == Usable(shots[k])
    ensures missingOrder == Selected(ids, |ids|, missing.Keys)
  {
    var fixedOrder, unresolved, unresolvedOrder;
    coords, order, fixed45, fixedOrder, unresolved, unresolvedOrder := ScanSquareThenDiagonal(shots, ids, extractZ, rotation);
    missing, missingOrder := DeleteKeys(unresolved, unresolvedOrder, fixedOrder);
    assert forall k | k in unresolved :: k in fixedOrder <==> k in fixed45;
    ScanLeftOverKeys(shots, extractZ, unresolved, fixed45, missing);
    SelectedTwice(ids, |ids|, unresolved.Keys, missing.Keys);
    assert unresolved.Keys * missing.Keys == missing.Keys;
  }

  /** A map holding each light's pass coordinate is the pass map. */
  lemma ScanPassMapOf(shots: map<int, seq<Snap>>, extractZ: HeightRule, rotation: Rotation, coords: map<int, Coord3d>)
    requires coords.Keys == shots.Keys
    requires forall k | k in shots :: coords[k] == ScanPassCoord(k, shots[k], extractZ, rotation)
    ensures coords == ScanPassMap(shots, extractZ, rotation)
  {
  }

  /** One light's entry after the two passes is its pass coordinate. */
  lemma ScanPassCoordOf(id: int, snaps: seq<Snap>, extractZ: HeightRule, rotation: Rotation,
                        square: Coord3d, unresolved: bool, c: Coord3d)
    requires square == ScanSquareCoord(id, snaps, extractZ)
    requires unresolved <==> Unresolved(square)
    requires unresolved ==> c == ScanDiagonalCoord(id, square, Usable(snaps), snaps, extractZ, rotation)
    requires !unresolved ==> c == square
    ensures c == ScanPassCoord(id, snaps, extractZ, rotation)
  {
  }

  /** What is left of `missing` after the diagonal fixes are deleted. */
  lemma ScanLeftOverKeys(shots: map<int, seq<Snap>>, extractZ: HeightRule, unresolved: map<int, seq<Snap>>,
                         fixed45: map<int, Coord3d>, missing: map<int, seq<Snap>>)
    requires unresolved.Keys <= shots.Keys && missing.Keys <= unresolved.Keys
    requires forall k | k in shots :: k in unresolved <==> Unresolved(ScanSquareCoord(k, shots[k], extractZ))
    requires forall k | k in unresolved :: unresolved[k] == Usable(shots[k])
    requires forall k | k in unresolved :: k in fixed45 <==> DiagonalResolved(unresolved[k])
    requires forall k | k in unresolved :: k in missing <==> k !in fixed45
    ensures missing.Keys == ScanLeftOverIds(shots, extractZ)
  {
  }

  /** The passes of main over the shot table: the coordinate map and
      fixed_neighbor are what the neighbour loop makes of the pass
      coordinates over the left-over lights in shot-table order; a light
      outside `missing` keeps its pass coordinate; fixed_45 holds exactly
      the lights the diagonals resolve; every interpolated light is a
      left-over light, stored as listed and reliable. */
  method ScanPasses(shots: map<int, seq<Snap>>, ids: seq<int>, extractZ: HeightRule, rotation: Rotation)
      returns (r: ScanOutcome)
    requires Enumerates(ids, shots.Keys)
    ensures var keys := Selected(ids, |ids|, ScanLeftOverIds(shots, extractZ));
      ScanFillState(r.coords, r.fixedNeighbor) == ScanFilled(ScanPassMap(shots, extractZ, rotation), keys, |keys|, ScanFillValue)
    ensures r.coords.Keys == shots.Keys && Enumerates(r.order, r.coords.Keys)
    ensures forall k | k in shots && !ScanLeftOver(k, shots[k], extractZ) ::
      r.coords[k] == ScanPassCoord(k, shots[k], extractZ, rotation)
    ensures r.fixed45.Keys <= shots.Keys
    ensures forall k | k in shots :: k in r.fixed45 <==> ScanDiagonalFixed(k, shots[k], extractZ)
    ensures forall k | k in r.fixed45 :: r.fixed45[k] == r.coords[k]
    ensures forall c | c in r.fixedNeighbor ::
      && c.ledId in shots && ScanLeftOver(c.ledId, shots[c.ledId], extractZ)
      && r.coords[c.ledId] == c && ScanReliable(r.coords, c.ledId)
  {
    var coords, order, fixed45, missing, missingOrder := ScanResolve(shots, ids, extractZ, rotation);
    SelectedSpec(ids, |ids|, missing.Keys);
    assert forall j | 0 <= j < |missingOrder| :: missingOrder[j] in coords && missingOrder[j] in missing by {
      forall j | 0 <= j < |missingOrder|
        ensures missingOrder[j] in coords && missingOrder[j] in missing
      {
        assert missingOrder[j] in missingOrder;
      }
    }
    var filled, fixedNeighbor := ScanNeighborPass(coords, missingOrder);
    ScanFillValueSound();
    ScanFilledSummary(coords, missingOrder, missing.Keys, ScanFillValue);
    r := ScanOutcome(filled, order, fixed45, fixedNeighbor);
  }

  /** The light order of the shot table main builds: first appearance in
      the scan file. */
  function ScanIds(lines: seq<string>): seq<int>
  {
    GroupOrder(KeptSnaps(lines, ParseLine))
  }

  /** main, from the lines of the scan file to the outcome of the passes
      over its shot table; None where int() rejects a line. */
  method ScanMain(lines: seq<string>, extractZ: HeightRule, rotation: Rotation) returns (r: Option<ScanOutcome>)
    ensures r.None? <==> exists i | 0 <= i < |lines| :: ParseLine(lines[i]).None?
    ensures r.Some? ==>
      var keys := Selected(ScanIds(lines), |ScanIds(lines)|, ScanLeftOverIds(ScanShots(lines), extractZ));
      ScanFillState(r.value.coords, r.value.fixedNeighbor) == ScanFilled(ScanPassMap(ScanShots(lines), extractZ, rotation), keys, |keys|, ScanFillValue)
    ensures r.Some? ==> r.value.coords.Keys == ScanShots(lines).Keys && Enumerates(r.value.order, r.value.coords.Keys)
    ensures r.Some? ==> forall k | k in ScanShots(lines) && !ScanLeftOver(k, ScanShots(lines)[k], extractZ) ::
      r.value.coords[k] == ScanPassCoord(k, ScanShots(lines)[k], extractZ, rotation)
    ensures r.Some? ==> forall k | k in ScanShots(lines) ::
      k in r.value.fixed45 <==> ScanDiagonalFixed(k, ScanShots(lines)[k], extractZ)
    ensures r.Some? ==> forall k | k in r.value.fixed45 :: k in ScanShots(lines) && r.value.fixed45[k] == r.value.coords[k]
    ensures r.Some? ==> forall c | c in r.value.fixedNeighbor ::
      && c.ledId in ScanShots(lines) && ScanLeftOver(c.ledId, ScanShots(lines)[c.ledId], extractZ)
      && r.value.coords[c.ledId] == c && ScanReliable(r.value.coords, c.ledId)
  {
    var parsed := ParseLines(lines);
    if parsed.BadLine? {
      return None;
    }
    GroupedSpec(KeptSnaps(lines, ParseLine));
    var outcome := ScanPasses(parsed.shots, parsed.ids, extractZ, rotation);
    r := Some(outcome);
  }
}
